/** `RustStream` over a `RustBuffer`, and the converters that move its cursors. */
module WireStream {
  import opened Wrappers
  import opened Bytes
  import opened Wire

  // ---------------------------------------------------------------- host byte order

  /** The bytes of v as they lie in the host's memory. */
  function LittleEndian(v: nat, width: nat): (s: seq<byte>)
    ensures |s| == width
  {
    if width == 0 then [] else [(v % 256) as byte] + LittleEndian(v / 256, width - 1)
  }

  function InMemory(littleEndian: bool, v: nat, width: nat): (s: seq<byte>)
    ensures |s| == width
  {
    if littleEndian then LittleEndian(v, width) else BigEndian(v, width)
  }

  function Reversed(s: seq<byte>): (r: seq<byte>)
    ensures |r| == |s|
  {
    if s == [] then [] else Reversed(s[1..]) + [s[0]]
  }

  lemma {:induction false} ReversedAt(s: seq<byte>, k: nat)
    requires k < |s|
    ensures Reversed(s)[k] == s[|s| - 1 - k]
    decreases |s|
  {
    if k < |s| - 1 { ReversedAt(s[1..], k); }
  }

  /** Reversing the bytes of a little-endian host gives the big-endian bytes. */
  lemma {:induction false} ReversedIsBigEndian(v: nat, width: nat)
    ensures Reversed(LittleEndian(v, width)) == BigEndian(v, width)
    decreases width
  {
    if width > 0 {
      ReversedIsBigEndian(v / 256, width - 1);
      assert LittleEndian(v, width)[1..] == LittleEndian(v / 256, width - 1);
    }
  }

  /** `std::reverse` */
  method ReverseInPlace(a: array<byte>)
    modifies a
    ensures a[..] == Reversed(old(a[..]))
  {
    var i, n := 0, a.Length;
    while i < n / 2
      invariant 0 <= i <= n / 2
      invariant forall k :: 0 <= k < i ==> a[k] == old(a[n - 1 - k]) && a[n - 1 - k] == old(a[k])
      invariant forall k :: i <= k < n - i ==> a[k] == old(a[k])
    {
      a[i], a[n - 1 - i] := a[n - 1 - i], a[i];
      i := i + 1;
    }
    forall k | 0 <= k < n ensures a[k] == Reversed(old(a[..]))[k] { ReversedAt(old(a[..]), k); }
  }

  // ---------------------------------------------------------------- the stream

  /** A stream that reads and writes the same buffer, each with its own cursor. */
  class RustStream {
    const buf: array<byte>
    const littleEndian: bool
    var getAt: nat
    var putAt: nat
    var failed: bool

    ghost predicate Valid()
      reads this
    {
      getAt <= buf.Length && putAt <= buf.Length
    }

    ghost function Written(): seq<byte>
      requires Valid()
      reads this, buf
    {
      buf[..putAt]
    }

    ghost function Unread(): seq<byte>
      requires Valid()
      reads this, buf
    {
      buf[getAt..]
    }

    constructor (buf: array<byte>, littleEndian: bool)
      ensures Valid() && this.buf == buf && this.littleEndian == littleEndian
      ensures getAt == 0 && putAt == 0 && !failed
    {
      this.buf := buf;
      this.littleEndian := littleEndian;
      getAt, putAt, failed := 0, 0, false;
    }

    /** `stream.write`: what does not fit is lost, and the stream fails. */
    method PutBytes(s: seq<byte>)
      requires Valid()
      modifies this`putAt, this`failed, buf
      ensures Valid()
      ensures old(putAt) + |s| <= buf.Length ==> Written() == old(Written()) + s && failed == old(failed)
      ensures old(putAt) + |s| > buf.Length ==> failed
    {
      var i := 0;
      while i < |s|
        invariant 0 <= i <= |s| && Valid() && putAt == old(putAt) + i
        invariant Written() == old(Written()) + s[..i] && failed == old(failed)
      {
        if putAt == buf.Length {
          failed := true;
          return;
        }
        buf[putAt] := s[i];
        putAt := putAt + 1;
        i := i + 1;
      }
    }

    /** `stream.read`: None if the buffer has fewer bytes left. */
    method GetBytes(n: nat) returns (r: Option<seq<byte>>)
      requires Valid()
      modifies this`getAt, this`failed
      ensures Valid()
      ensures |old(Unread())| >= n ==>
        r == Some(old(Unread())[..n]) && Unread() == old(Unread())[n..] && failed == old(failed)
      ensures |old(Unread())| < n ==> r == None && failed
    {
      if buf.Length - getAt < n {
        failed := true;
        return None;
      }
      r := Some(buf[getAt..getAt + n]);
      assert buf[getAt..][..n] == buf[getAt..getAt + n] && buf[getAt..][n..] == buf[getAt + n..];
      getAt := getAt + n;
    }

    /** `operator<<`: the same bytes on hosts of either byte order. */
    method PutNumber(v: nat, width: nat)
      requires Valid() && putAt + width <= buf.Length
      modifies this`putAt, this`failed, buf
      ensures Valid() && failed == old(failed)
      ensures Written() == old(Written()) + BigEndian(v, width)
    {
      var image := InMemory(littleEndian, v, width);
      var bytes := new byte[width](i requires 0 <= i < width => image[i]);
      assert bytes[..] == image;
      if littleEndian {
        ReverseInPlace(bytes);
        ReversedIsBigEndian(v, width);
      }
      PutBytes(bytes[..]);
    }

    /** `operator>>` */
    method GetNumber(width: nat) returns (r: Option<nat>)
      requires Valid()
      modifies this`getAt, this`failed
      ensures Valid()
      ensures match ReadNumber(width, old(Unread()))
              case Parsed(n, rest) => r == Some(n) && Unread() == rest
              case Failed => r == None
    {
      var got := GetBytes(width);
      if got.None? {
        return None;
      }
      var bytes := new byte[width](i requires 0 <= i < width => got.value[i]);
      assert bytes[..] == got.value;
      if littleEndian {
        ReverseInPlace(bytes);
      }
      r := Some(FromMemory(littleEndian, bytes[..]));
      FromMemoryOfBigEndian(littleEndian, got.value);
    }
  }

  function FromLittleEndian(s: seq<byte>): nat {
    if s == [] then 0 else s[0] as nat + 256 * FromLittleEndian(s[1..])
  }

  /** The number whose bytes lie in the host's memory as s. */
  function FromMemory(littleEndian: bool, s: seq<byte>): nat {
    if littleEndian then FromLittleEndian(s) else FromBigEndian(s)
  }

  lemma {:induction false} ReversedLast(s: seq<byte>)
    requires s != []
    ensures Reversed(s) == [s[|s| - 1]] + Reversed(s[..|s| - 1])
    decreases |s|
  {
    if |s| > 1 {
      ReversedLast(s[1..]);
      assert s[1..][..|s| - 2] == s[..|s| - 1][1..];
    }
  }

  lemma {:induction false} ReversedReadsBigEndian(s: seq<byte>)
    ensures FromLittleEndian(Reversed(s)) == FromBigEndian(s)
    decreases |s|
  {
    if s != [] {
      ReversedLast(s);
      ReversedReadsBigEndian(s[..|s| - 1]);
      assert Reversed(s)[1..] == Reversed(s[..|s| - 1]);
    }
  }

  lemma FromMemoryOfBigEndian(littleEndian: bool, s: seq<byte>)
    ensures FromMemory(littleEndian, if littleEndian then Reversed(s) else s) == FromBigEndian(s)
  {
    ReversedReadsBigEndian(s);
  }
}
