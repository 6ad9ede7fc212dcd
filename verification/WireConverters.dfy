/** The converters' `write`, `read`, `allocation_size`, `lower` and `lift`, as loops over a
    RustStream, each proved against the format's functions. */
module WireConverters {
  import opened Wrappers
  import opened Bytes
  import opened Wire
  import opened WireProofs
  import opened WireStream

  // ---------------------------------------------------------------- write

  /** FfiConverterString::write */
  method PutString(stream: RustStream, s: Text)
    requires stream.Valid() && stream.putAt + 4 + |s| <= stream.buf.Length
    modifies stream`putAt, stream`failed, stream.buf
    ensures stream.Valid() && stream.failed == old(stream.failed)
    ensures stream.Written() == old(stream.Written()) + WriteText(s)
  {
    PutInt32(stream, ToInt32(|s|));
    stream.PutBytes(s);
    Associative(old(stream.Written()), WriteInt32(ToInt32(|s|)), s);
  }

  method PutInt32(stream: RustStream, i: int)
    requires stream.Valid() && stream.putAt + 4 <= stream.buf.Length && IsInt32(i)
    modifies stream`putAt, stream`failed, stream.buf
    ensures stream.Valid() && stream.failed == old(stream.failed)
    ensures stream.Written() == old(stream.Written()) + WriteInt32(i)
  {
    stream.PutNumber(if i < 0 then i + TWO_32 else i, 4);
  }

  /** FfiConverterBytes::write: byte by byte. */
  method PutBlob(stream: RustStream, s: Text)
    requires stream.Valid() && stream.putAt + 4 + |s| <= stream.buf.Length
    modifies stream`putAt, stream`failed, stream.buf
    ensures stream.Valid() && stream.failed == old(stream.failed)
    ensures stream.Written() == old(stream.Written()) + WriteText(s)
  {
    PutInt32(stream, ToInt32(|s|));
    ghost var header := stream.Written();
    var i := 0;
    while i < |s|
      invariant 0 <= i <= |s| && stream.Valid() && stream.failed == old(stream.failed)
      invariant stream.Written() == header + s[..i]
    {
      stream.PutBytes([s[i]]);
      assert s[..i + 1] == s[..i] + [s[i]];
      Associative(header, s[..i], [s[i]]);
      i := i + 1;
    }
    assert s[..i] == s;
    Associative(old(stream.Written()), WriteInt32(ToInt32(|s|)), s);
  }

  /** FfiConverterMapStringString::write, over the entries in enumeration order. */
  method PutHeaders(stream: RustStream, keys: seq<Text>, m: map<Text, Text>)
    requires forall k <- keys :: k in m
    requires stream.Valid() && stream.putAt + 4 + SizeEntries(keys, m) <= stream.buf.Length
    modifies stream`putAt, stream`failed, stream.buf
    ensures stream.Valid() && stream.failed == old(stream.failed)
    ensures stream.Written() == old(stream.Written()) + WriteHeaders(keys, m)
  {
    PutInt32(stream, ToInt32(|m|));
    ghost var header := stream.Written();
    var i := 0;
    assert keys[0..] == keys;
    while i < |keys|
      invariant 0 <= i <= |keys| && stream.Valid() && stream.failed == old(stream.failed)
      invariant stream.putAt + SizeEntries(keys[i..], m) <= stream.buf.Length
      invariant stream.Written() + WriteEntries(keys[i..], m) == header + WriteEntries(keys, m)
    {
      ghost var before := stream.Written();
      assert keys[i..][1..] == keys[i + 1..];
      PutString(stream, keys[i]);
      PutString(stream, m[keys[i]]);
      Associative(before, WriteText(keys[i]), WriteText(m[keys[i]]));
      Associative(before, WriteText(keys[i]) + WriteText(m[keys[i]]), WriteEntries(keys[i + 1..], m));
      i := i + 1;
    }
    assert stream.Written() + [] == stream.Written();
    Associative(old(stream.Written()), WriteInt32(ToInt32(|m|)), WriteEntries(keys, m));
  }

  /** A converter's `write`, in a buffer with room for `allocation_size` bytes: it stays
      inside the buffer and appends exactly the value's bytes. */
  method PutValue(stream: RustStream, order: Order, sc: Schema, v: Value)
    requires IsOrder(order) && Typed(sc, v)
    requires stream.Valid() && stream.putAt + Size(order, sc, v) <= stream.buf.Length
    modifies stream`putAt, stream`failed, stream.buf
    ensures stream.Valid() && stream.failed == old(stream.failed)
    ensures stream.Written() == old(stream.Written()) + Write(order, sc, v)
    decreases sc, 0
  {
    match sc
    case Number(w) => stream.PutNumber(v.n, w);
    case Int32 => PutInt32(stream, v.i);
    case Bool => stream.PutBytes([if v.b then 1 else 0]);
    case String => PutString(stream, v.s);
    case Blob => PutBlob(stream, v.s);
    case Optional(of) =>
      if v.o.None? {
        stream.PutBytes([0]);
      } else {
        stream.PutBytes([1]);
        PutValue(stream, order, of, v.o.value);
        Associative(old(stream.Written()), [1], Write(order, of, v.o.value));
      }
    case Sequence(of) => PutSequence(stream, order, of, v.vs);
    case Headers =>
      assert Enumerates(order(v.m), v.m);
      PutHeaders(stream, order(v.m), v.m);
    case Enum(_) => PutInt32(stream, v.k + 1);
    case End => assert old(stream.Written()) + [] == old(stream.Written());
    case Field(a, b) =>
      SizeIsExact(order, order, a, v.first);
      PutValue(stream, order, a, v.first);
      PutValue(stream, order, b, v.rest);
      Associative(old(stream.Written()), Write(order, a, v.first), Write(order, b, v.rest));
    case Tagged(cases) =>
      PutInt32(stream, v.tag + 1);
      PutValue(stream, order, cases[v.tag], v.v);
      Associative(old(stream.Written()), WriteInt32(v.tag + 1), Write(order, cases[v.tag], v.v));
  }

  /** FfiConverterSequenceString::write, for any element type. */
  method PutSequence(stream: RustStream, order: Order, of: Schema, vs: seq<Value>)
    requires IsOrder(order) && AllTyped(of, vs)
    requires stream.Valid() && stream.putAt + 4 + SizeAll(order, of, vs) <= stream.buf.Length
    modifies stream`putAt, stream`failed, stream.buf
    ensures stream.Valid() && stream.failed == old(stream.failed)
    ensures stream.Written() == old(stream.Written()) + (WriteInt32(ToInt32(|vs|)) + WriteAll(order, of, vs))
    decreases of, 1
  {
    PutInt32(stream, ToInt32(|vs|));
    ghost var header := stream.Written();
    var i := 0;
    assert vs[0..] == vs;
    while i < |vs|
      invariant 0 <= i <= |vs| && stream.Valid() && stream.failed == old(stream.failed)
      invariant AllTyped(of, vs[i..])
      invariant stream.putAt + SizeAll(order, of, vs[i..]) <= stream.buf.Length
      invariant stream.Written() + WriteAll(order, of, vs[i..]) == header + WriteAll(order, of, vs)
    {
      ghost var before := stream.Written();
      assert vs[i..][1..] == vs[i + 1..];
      SizeIsExact(order, order, of, vs[i]);
      PutValue(stream, order, of, vs[i]);
      Associative(before, Write(order, of, vs[i]), WriteAll(order, of, vs[i + 1..]));
      i := i + 1;
    }
    assert stream.Written() + [] == stream.Written();
    Associative(old(stream.Written()), WriteInt32(ToInt32(|vs|)), WriteAll(order, of, vs));
  }

  // ---------------------------------------------------------------- allocation_size

  method AllocationSize(order: Order, sc: Schema, v: Value) returns (size: nat)
    requires IsOrder(order) && Typed(sc, v)
    ensures size == Size(order, sc, v)
    decreases sc, 0
  {
    match sc
    case Number(w) => size := w;
    case Int32 => size := 4;
    case Bool => size := 1;
    case String => size := 4 + |v.s|;
    case Blob => size := 4 + |v.s|;
    case Optional(of) =>
      size := 1;
      if v.o.Some? {
        var inner := AllocationSize(order, of, v.o.value);
        size := size + inner;
      }
    case Sequence(of) => size := SequenceSize(order, of, v.vs);
    case Headers =>
      assert Enumerates(order(v.m), v.m);
      size := HeadersSize(order(v.m), v.m);
    case Enum(_) => size := 4;
    case End => size := 0;
    case Field(a, b) =>
      var first := AllocationSize(order, a, v.first);
      var last := AllocationSize(order, b, v.rest);
      size := first + last;
    case Tagged(cases) =>
      var inner := AllocationSize(order, cases[v.tag], v.v);
      size := 4 + inner;
  }

  method SequenceSize(order: Order, of: Schema, vs: seq<Value>) returns (size: nat)
    requires IsOrder(order) && AllTyped(of, vs)
    ensures size == 4 + SizeAll(order, of, vs)
    decreases of, 1
  {
    size := 4;
    var i := 0;
    assert vs[0..] == vs;
    while i < |vs|
      invariant 0 <= i <= |vs|
      invariant AllTyped(of, vs[i..])
      invariant size + SizeAll(order, of, vs[i..]) == 4 + SizeAll(order, of, vs)
    {
      assert vs[i..][1..] == vs[i + 1..];
      var elem := AllocationSize(order, of, vs[i]);
      size := size + elem;
      i := i + 1;
    }
  }

  method HeadersSize(keys: seq<Text>, m: map<Text, Text>) returns (size: nat)
    requires forall k <- keys :: k in m
    ensures size == 4 + SizeEntries(keys, m)
  {
    size := 4;
    var i := 0;
    assert keys[0..] == keys;
    while i < |keys|
      invariant 0 <= i <= |keys|
      invariant size + SizeEntries(keys[i..], m) == 4 + SizeEntries(keys, m)
    {
      assert keys[i..][1..] == keys[i + 1..];
      size := size + (4 + |keys[i]|);
      size := size + (4 + |m[keys[i]]|);
      i := i + 1;
    }
  }

  // ---------------------------------------------------------------- read

  method GetInt32(stream: RustStream) returns (r: Option<int>)
    requires stream.Valid()
    modifies stream`getAt, stream`failed
    ensures stream.Valid()
    ensures match ReadI32(old(stream.Unread()))
            case Parsed(i, rest) => r == Some(i) && stream.Unread() == rest
            case Failed => r == None
  {
    ghost var b := stream.Unread();
    var n := stream.GetNumber(4);
    if n.None? {
      return None;
    }
    r := Some(if n.value < TWO_31 then n.value else n.value - TWO_32);
  }

  /** FfiConverterString::read */
  method GetString(stream: RustStream) returns (r: Option<Text>)
    requires stream.Valid()
    modifies stream`getAt, stream`failed
    ensures stream.Valid()
    ensures match ReadText(old(stream.Unread()))
            case Parsed(s, rest) => r == Some(s) && stream.Unread() == rest
            case Failed => r == None
  {
    var len := GetInt32(stream);
    if len.None? || len.value < 0 {
      return None;
    }
    r := stream.GetBytes(len.value);
  }

  /** FfiConverterBytes::read: byte by byte. */
  method GetBlob(stream: RustStream) returns (r: Option<Text>)
    requires stream.Valid()
    modifies stream`getAt, stream`failed
    ensures stream.Valid()
    ensures match ReadText(old(stream.Unread()))
            case Parsed(s, rest) => r == Some(s) && stream.Unread() == rest
            case Failed => r == None
  {
    var count := GetInt32(stream);
    if count.None? || count.value < 0 {
      return None;
    }
    ghost var b := stream.Unread();
    var s: Text := [];
    var i := 0;
    while i < count.value
      invariant 0 <= i <= count.value && i <= |b| && stream.Valid()
      invariant s == b[..i] && stream.Unread() == b[i..]
    {
      var elem := stream.GetBytes(1);
      if elem.None? {
        return None;
      }
      assert b[i..][1..] == b[i + 1..];
      assert b[..i + 1] == b[..i] + b[i..][..1];
      s := s + elem.value;
      i := i + 1;
    }
    r := Some(s);
  }

  method GetEntry(stream: RustStream) returns (r: Option<Entry>)
    requires stream.Valid()
    modifies stream`getAt, stream`failed
    ensures stream.Valid()
    ensures match ReadEntry(old(stream.Unread()))
            case Parsed(e, rest) => r == Some(e) && stream.Unread() == rest
            case Failed => r == None
  {
    var key := GetString(stream);
    if key.None? {
      return None;
    }
    var value := GetString(stream);
    r := if value.None? then None else Some(Entry(key.value, value.value));
  }

  /** One turn of the loop, with n entries to go: `ret.insert({ key, value })`. */
  method InsertNext(stream: RustStream, ghost n: nat, m: map<Text, Text>) returns (r: Option<map<Text, Text>>)
    requires stream.Valid() && n > 0
    modifies stream`getAt, stream`failed
    ensures stream.Valid()
    ensures r.Some? ==> ReadEntries(n, m, old(stream.Unread())) == ReadEntries(n - 1, r.value, stream.Unread())
    ensures r.None? ==> ReadEntries(n, m, old(stream.Unread())) == Failed
  {
    var entry := GetEntry(stream);
    r := if entry.None? then None else Some(Insert(m, entry.value));
  }

  /** FfiConverterMapStringString::read */
  method GetHeaders(stream: RustStream) returns (r: Option<map<Text, Text>>)
    requires stream.Valid()
    modifies stream`getAt, stream`failed
    ensures stream.Valid()
    ensures match ReadHeaders(old(stream.Unread()))
            case Parsed(m, rest) => r == Some(m) && stream.Unread() == rest
            case Failed => r == None
  {
    var count := GetInt32(stream);
    if count.None? || count.value < 0 {
      return None;
    }
    var m: map<Text, Text> := map[];
    ghost var b, left := stream.Unread(), count.value;
    ghost var all := ReadEntries(left, m, b);
    var i := 0;
    while i < count.value
      invariant 0 <= i <= count.value && left == count.value - i && stream.Valid()
      invariant b == stream.Unread() && all == ReadEntries(left, m, b)
    {
      var more := InsertNext(stream, left, m);
      if more.None? {
        return None;
      }
      m := more.value;
      i, left, b := i + 1, left - 1, stream.Unread();
    }
    r := Some(m);
  }

  ghost function Prepend(vs: seq<Value>, p: Parsed<seq<Value>>): Parsed<seq<Value>> {
    match p
    case Failed => Failed
    case Parsed(ws, rest) => Parsed(vs + ws, rest)
  }

  lemma PrependNone(p: Parsed<seq<Value>>)
    ensures Prepend([], p) == p
  {
    if p.Parsed? { assert [] + p.value == p.value; }
  }

  lemma PrependOne(of: Schema, vs: seq<Value>, n: nat, b: seq<byte>)
    requires n > 0
    ensures match Read(of, b)
            case Failed => Prepend(vs, ReadAll(of, n, b)) == Failed
            case Parsed(v, rest) => Prepend(vs, ReadAll(of, n, b)) == Prepend(vs + [v], ReadAll(of, n - 1, rest))
  {
    if Read(of, b).Parsed? {
      var more := ReadAll(of, n - 1, Read(of, b).rest);
      if more.Parsed? { Associative(vs, [Read(of, b).value], more.value); }
    }
  }

  /** A converter's `read`. */
  method GetValue(stream: RustStream, sc: Schema) returns (r: Option<Value>)
    requires stream.Valid()
    modifies stream`getAt, stream`failed
    ensures stream.Valid()
    ensures match Read(sc, old(stream.Unread()))
            case Parsed(v, rest) => r == Some(v) && stream.Unread() == rest
            case Failed => r == None
    decreases sc, 1
  {
    match sc
    case Number(w) =>
      var n := stream.GetNumber(w);
      r := if n.None? then None else Some(VNumber(n.value));
    case Int32 =>
      var i := GetInt32(stream);
      r := if i.None? then None else Some(VInt32(i.value));
    case Bool =>
      var b := stream.GetBytes(1);
      r := if b.None? then None else Some(VBool(b.value[0] != 0));
    case String =>
      var s := GetString(stream);
      r := if s.None? then None else Some(VText(s.value));
    case Blob =>
      var s := GetBlob(stream);
      r := if s.None? then None else Some(VText(s.value));
    case Optional(of) =>
      r := GetOptional(stream, of);
    case Sequence(of) =>
      var vs := GetSequence(stream, of);
      r := if vs.None? then None else Some(VSequence(vs.value));
    case Headers =>
      var m := GetHeaders(stream);
      r := if m.None? then None else Some(VHeaders(m.value));
    case Enum(variants) =>
      var k := GetInt32(stream);
      r := if k.Some? && 1 <= k.value <= variants then Some(VEnum(k.value - 1)) else None;
    case End =>
      r := Some(VEnd);
    case Field(a, b) =>
      var first := GetValue(stream, a);
      if first.None? { return None; }
      var last := GetValue(stream, b);
      r := if last.None? then None else Some(VField(first.value, last.value));
    case Tagged(cases) =>
      r := GetTagged(stream, cases);
  }

  /** The `read` of every FfiConverterOptional. */
  method GetOptional(stream: RustStream, of: Schema) returns (r: Option<Value>)
    requires stream.Valid()
    modifies stream`getAt, stream`failed
    ensures stream.Valid()
    ensures match Read(Optional(of), old(stream.Unread()))
            case Parsed(v, rest) => r == Some(v) && stream.Unread() == rest
            case Failed => r == None
    decreases of, 2
  {
    var flag := stream.GetBytes(1);
    if flag.None? {
      return None;
    }
    if flag.value[0] == 0 {
      return Some(VOption(None));
    }
    var v := GetValue(stream, of);
    r := if v.None? then None else Some(VOption(v));
  }

  /** FfiConverterMarketDataError::read */
  method GetTagged(stream: RustStream, cases: seq<Schema>) returns (r: Option<Value>)
    requires stream.Valid()
    modifies stream`getAt, stream`failed
    ensures stream.Valid()
    ensures match Read(Tagged(cases), old(stream.Unread()))
            case Parsed(v, rest) => r == Some(v) && stream.Unread() == rest
            case Failed => r == None
    decreases Tagged(cases), 0
  {
    var k := GetInt32(stream);
    if k.None? || !(1 <= k.value <= |cases|) {
      return None;
    }
    var v := GetValue(stream, cases[k.value - 1]);
    r := if v.None? then None else Some(VTagged(k.value - 1, v.value));
  }

  /** FfiConverterSequenceString::read, for any element type. */
  method GetSequence(stream: RustStream, of: Schema) returns (r: Option<seq<Value>>)
    requires stream.Valid()
    modifies stream`getAt, stream`failed
    ensures stream.Valid()
    ensures match ReadSequence(of, old(stream.Unread()))
            case Parsed(vs, rest) => r == Some(vs) && stream.Unread() == rest
            case Failed => r == None
    decreases of, 2
  {
    var count := GetInt32(stream);
    if count.None? || count.value < 0 {
      return None;
    }
    var vs: seq<Value> := [];
    ghost var b, left := stream.Unread(), count.value;
    ghost var all := ReadAll(of, left, b);
    var i := 0;
    PrependNone(all);
    while i < count.value
      invariant 0 <= i <= count.value && left == count.value - i && stream.Valid()
      invariant b == stream.Unread() && all == Prepend(vs, ReadAll(of, left, b))
    {
      PrependOne(of, vs, left, b);
      var v := GetValue(stream, of);
      if v.None? {
        return None;
      }
      vs := vs + [v.value];
      i, left, b := i + 1, left - 1, stream.Unread();
    }
    assert vs + [] == vs;
    r := Some(vs);
  }

  // ---------------------------------------------------------------- lower and lift

  /** What crosses to Rust. A string goes as its own bytes, without a header; its length is cut
      to an int32, and a negative one is refused on the other side. */
  ghost function Lowered(order: Order, sc: Schema, v: Value): Option<seq<byte>>
    requires IsOrder(order) && Typed(sc, v)
  {
    if !sc.String? then Some(Write(order, sc, v))
    else if ToInt32(|v.s|) < 0 then None
    else Some(v.s[..CutLength(|v.s|)])
  }

  function CutLength(size: nat): (n: nat)
    requires ToInt32(size) >= 0
    ensures n == ToInt32(size) <= size
  {
    ToInt32(size)
  }

  /** What comes back from Rust. */
  function Lifted(sc: Schema, b: seq<byte>): Option<Value> {
    if sc.String? then Some(VText(b))
    else match Read(sc, b) case Parsed(v, _) => Some(v) case Failed => None
  }

  /** `lower`: a string's bytes are copied; any other value fills the buffer allocated for it
      completely and is never written past its end. */
  method Lower(order: Order, littleEndian: bool, sc: Schema, v: Value) returns (buf: Option<array<byte>>)
    requires IsOrder(order) && Typed(sc, v)
    ensures buf.Some? <==> Lowered(order, sc, v).Some?
    ensures buf.Some? ==> fresh(buf.value) && buf.value[..] == Lowered(order, sc, v).value
  {
    if sc.String? {
      var len := ToInt32(|v.s|);
      if len < 0 {
        return None;
      }
      var copy := new byte[CutLength(|v.s|)](i requires 0 <= i < CutLength(|v.s|) => v.s[i]);
      return Some(copy);
    }
    var size := AllocationSize(order, sc, v);
    SizeIsExact(order, order, sc, v);
    var data := new byte[size](_ => 0);
    var stream := new RustStream(data, littleEndian);
    PutValue(stream, order, sc, v);
    assert stream.Written() == [] + Write(order, sc, v);
    assert data[..stream.putAt] == data[..];
    return Some(data);
  }

  /** `lift` */
  method Lift(littleEndian: bool, sc: Schema, buf: array<byte>) returns (r: Option<Value>)
    ensures r == Lifted(sc, buf[..])
  {
    if sc.String? {
      return Some(VText(buf[..]));
    }
    var stream := new RustStream(buf, littleEndian);
    assert buf[0..] == buf[..];
    r := GetValue(stream, sc);
  }

  /** What was lowered is what is lifted, if and only if every length and count is below 2^31. */
  lemma LiftedIsLowered(order: Order, sc: Schema, v: Value)
    requires IsOrder(order) && Typed(sc, v)
    ensures Fits(v) <==> Lowered(order, sc, v).Some? && Lifted(sc, Lowered(order, sc, v).value) == Some(v)
  {
    if sc.String? {
      TextLowered(v.s);
    } else {
      var b := Write(order, sc, v);
      RoundTripExactly(order, sc, v, []);
      ReadFits(sc, b);
      assert b + [] == b;
    }
  }

  /** A string is cut unless its length fits an int32. */
  lemma TextLowered(s: Text)
    ensures |s| < TWO_31 <==> ToInt32(|s|) >= 0 && s[..CutLength(|s|)] == s
  {
    var size := |s|;
    assert size < TWO_31 ==> size % TWO_32 == size;
    if ToInt32(size) >= 0 && ToInt32(size) < size {
      assert |s[..CutLength(size)]| < |s|;
    }
  }

  /** A value lowered on one host and lifted on another comes back, whatever byte order the hosts
      have and however the maps are enumerated, if and only if its lengths and counts fit. */
  method LowerThenLift(order: Order, writerLittle: bool, readerLittle: bool, sc: Schema, v: Value)
    returns (r: Option<Value>)
    requires IsOrder(order) && Typed(sc, v)
    ensures r == Some(v) <==> Fits(v)
  {
    LiftedIsLowered(order, sc, v);
    var buf := Lower(order, writerLittle, sc, v);
    if buf.None? {
      return None;
    }
    r := Lift(readerLittle, sc, buf.value);
  }
}
