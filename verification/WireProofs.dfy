/** Round trips and sizes of the UniFFI wire format. */
module WireProofs {
  import opened Wrappers
  import opened Bytes
  import opened Wire

  // ---------------------------------------------------------------- pieces

  lemma Front<T>(a: seq<T>, b: seq<T>)
    ensures (a + b)[..|a|] == a && (a + b)[|a|..] == b
  {
  }

  lemma Associative<T>(a: seq<T>, b: seq<T>, c: seq<T>)
    ensures a + b + c == a + (b + c)
  {
  }

  lemma Int32RoundTrip(i: int, rest: seq<byte>)
    requires IsInt32(i)
    ensures ReadI32(WriteInt32(i) + rest) == Parsed(i, rest)
  {
    Int32Inverse(i);
    Front(WriteInt32(i), rest);
  }

  /** A count written before elements that number fewer than 2^31. */
  lemma CountRoundTrip(n: nat, rest: seq<byte>)
    requires n < TWO_31
    ensures ReadI32(WriteInt32(ToInt32(n)) + rest) == Parsed(n, rest)
  {
    assert ToInt32(n) == n by { assert n % TWO_32 == n; }
    Int32RoundTrip(n, rest);
  }

  lemma TextRoundTrip(s: Text, rest: seq<byte>)
    requires |s| < TWO_31
    ensures ReadText(WriteText(s) + rest) == Parsed(s, rest)
  {
    CountRoundTrip(|s|, s + rest);
    Associative(WriteInt32(ToInt32(|s|)), s, rest);
    Front(s, rest);
  }

  /** The length header is an int32: a string comes back if and only if its length fits one. */
  lemma TextRoundTripExactly(s: Text, rest: seq<byte>)
    ensures ReadText(WriteText(s) + rest) == Parsed(s, rest) <==> |s| < TWO_31
  {
    if |s| < TWO_31 {
      TextRoundTrip(s, rest);
    } else {
      Int32RoundTrip(ToInt32(|s|), s + rest);
      Associative(WriteInt32(ToInt32(|s|)), s, rest);
      assert ToInt32(|s|) != |s|;
    }
  }

  // ---------------------------------------------------------------- maps

  function Restrict(m: map<Text, Text>, keys: seq<Text>): map<Text, Text>
    requires forall k <- keys :: k in m
  {
    map k | k in keys :: m[k]
  }

  /** One entry is read and inserted. */
  lemma EntryRoundTrip(n: nat, acc: map<Text, Text>, k: Text, v: Text, tail: seq<byte>)
    requires |k| < TWO_31 && |v| < TWO_31
    ensures ReadEntries(n + 1, acc, WriteText(k) + WriteText(v) + tail)
      == ReadEntries(n, Insert(acc, Entry(k, v)), tail)
  {
    TextRoundTrip(k, WriteText(v) + tail);
    TextRoundTrip(v, tail);
    Associative(WriteText(k), WriteText(v), tail);
  }

  ghost predicate Distinct(keys: seq<Text>) {
    forall i, j :: 0 <= i < j < |keys| ==> keys[i] != keys[j]
  }

  lemma {:induction false} EntriesRoundTrip(keys: seq<Text>, m: map<Text, Text>, acc: map<Text, Text>, rest: seq<byte>)
    requires forall k <- keys :: k in m && k !in acc && |k| < TWO_31 && |m[k]| < TWO_31
    requires Distinct(keys)
    ensures ReadEntries(|keys|, acc, WriteEntries(keys, m) + rest) == Parsed(acc + Restrict(m, keys), rest)
    decreases |keys|
  {
    if keys == [] {
      assert acc + Restrict(m, keys) == acc;
      assert WriteEntries(keys, m) + rest == rest;
    } else {
      var k := keys[0];
      assert k in keys && k !in keys[1..];
      var tail := WriteEntries(keys[1..], m);
      EntryRoundTrip(|keys| - 1, acc, k, m[k], tail + rest);
      Associative(WriteText(k) + WriteText(m[k]), tail, rest);
      EntriesRoundTrip(keys[1..], m, acc[k := m[k]], rest);
      RestrictOneMore(keys, m, acc);
    }
  }

  lemma RestrictOneMore(keys: seq<Text>, m: map<Text, Text>, acc: map<Text, Text>)
    requires keys != [] && forall k <- keys :: k in m
    ensures acc[keys[0] := m[keys[0]]] + Restrict(m, keys[1..]) == acc + Restrict(m, keys)
  {
    assert keys == [keys[0]] + keys[1..];
  }

  /** An enumeration has as many keys as the map. */
  lemma {:induction false} EnumerationLength(keys: seq<Text>, m: map<Text, Text>)
    requires Enumerates(keys, m)
    ensures |keys| == |m|
    decreases |keys|
  {
    if keys == [] {
      assert m.Keys == {};
    } else {
      var k := keys[0];
      var smaller := m - {k};
      assert keys == [k] + keys[1..];
      assert Enumerates(keys[1..], smaller);
      EnumerationLength(keys[1..], smaller);
      assert m.Keys == smaller.Keys + {k};
    }
  }

  lemma RestrictAll(keys: seq<Text>, m: map<Text, Text>)
    requires Enumerates(keys, m)
    ensures map[] + Restrict(m, keys) == m
  {
  }

  lemma CountedEntriesRoundTrip(keys: seq<Text>, m: map<Text, Text>, rest: seq<byte>)
    requires Enumerates(keys, m) && Fits(VHeaders(m))
    ensures ReadHeaders(WriteHeaders(keys, m) + rest) == Parsed(m, rest)
  {
    EnumerationLength(keys, m);
    EntriesRoundTrip(keys, m, map[], rest);
    RestrictAll(keys, m);
    var entries := WriteEntries(keys, m);
    CountRoundTrip(|m|, entries + rest);
    Associative(WriteInt32(ToInt32(|m|)), entries, rest);
  }

  lemma HeadersRoundTrip(order: Order, m: map<Text, Text>, rest: seq<byte>)
    requires IsOrder(order) && Fits(VHeaders(m))
    ensures Read(Headers, Write(order, Headers, VHeaders(m)) + rest) == Parsed(VHeaders(m), rest)
  {
    assert Enumerates(order(m), m);
    CountedEntriesRoundTrip(order(m), m, rest);
  }

  // ---------------------------------------------------------------- every type

  /** Reading what was written gives the value back and leaves exactly the bytes that
      follow: for every type, every value whose lengths fit, and every enumeration of
      its maps. */
  lemma {:induction false} RoundTrip(order: Order, sc: Schema, v: Value, rest: seq<byte>)
    requires IsOrder(order) && Typed(sc, v) && Fits(v)
    ensures Read(sc, Write(order, sc, v) + rest) == Parsed(v, rest)
    decreases sc, 1
  {
    match sc
    case Number(w) =>
      BigEndianInverse(v.n, w);
      Front(BigEndian(v.n, w), rest);
    case Int32 => Int32RoundTrip(v.i, rest);
    case Bool => Front([if v.b then 1 else 0 as byte], rest);
    case String => TextRoundTrip(v.s, rest);
    case Blob => TextRoundTrip(v.s, rest);
    case Optional(of) => OptionalRoundTrip(order, of, v, rest);
    case Sequence(of) => SequenceRoundTrip(order, of, v, rest);
    case Headers => HeadersRoundTrip(order, v.m, rest);
    case Enum(_) => Int32RoundTrip(v.k + 1, rest);
    case End => assert [] + rest == rest;
    case Field(a, b) => FieldRoundTrip(order, a, b, v, rest);
    case Tagged(cases) => TaggedRoundTrip(order, cases, v, rest);
  }

  lemma {:induction false} SequenceRoundTrip(order: Order, of: Schema, v: Value, rest: seq<byte>)
    requires IsOrder(order) && Typed(Sequence(of), v) && Fits(v)
    ensures Read(Sequence(of), Write(order, Sequence(of), v) + rest) == Parsed(v, rest)
    decreases of, |v.vs| + 3
  {
    var body := WriteAll(order, of, v.vs);
    AllRoundTrip(order, of, v.vs, rest);
    CountRoundTrip(|v.vs|, body + rest);
    Associative(WriteInt32(ToInt32(|v.vs|)), body, rest);
  }

  lemma {:induction false} FieldRoundTrip(order: Order, a: Schema, b: Schema, v: Value, rest: seq<byte>)
    requires IsOrder(order) && Typed(Field(a, b), v) && Fits(v)
    ensures Read(Field(a, b), Write(order, Field(a, b), v) + rest) == Parsed(v, rest)
    decreases Field(a, b), 0
  {
    var first, last := Write(order, a, v.first), Write(order, b, v.rest);
    RoundTrip(order, a, v.first, last + rest);
    RoundTrip(order, b, v.rest, rest);
    Associative(first, last, rest);
  }

  lemma {:induction false} TaggedRoundTrip(order: Order, cases: seq<Schema>, v: Value, rest: seq<byte>)
    requires IsOrder(order) && Typed(Tagged(cases), v) && Fits(v)
    ensures Read(Tagged(cases), Write(order, Tagged(cases), v) + rest) == Parsed(v, rest)
    decreases Tagged(cases), 0
  {
    var body := Write(order, cases[v.tag], v.v);
    RoundTrip(order, cases[v.tag], v.v, rest);
    Int32RoundTrip(v.tag + 1, body + rest);
    Associative(WriteInt32(v.tag + 1), body, rest);
  }

  lemma {:induction false} OptionalRoundTrip(order: Order, of: Schema, v: Value, rest: seq<byte>)
    requires IsOrder(order) && Typed(Optional(of), v) && Fits(v)
    ensures Read(Optional(of), Write(order, Optional(of), v) + rest) == Parsed(v, rest)
    decreases of, 2
  {
    if v.o.None? {
      Front([0 as byte], rest);
    } else {
      var body := Write(order, of, v.o.value);
      RoundTrip(order, of, v.o.value, rest);
      Associative([1 as byte], body, rest);
      Front([1 as byte], body + rest);
    }
  }

  lemma {:induction false} AllRoundTrip(order: Order, of: Schema, vs: seq<Value>, rest: seq<byte>)
    requires IsOrder(order) && AllTyped(of, vs) && AllFit(vs)
    ensures ReadAll(of, |vs|, WriteAll(order, of, vs) + rest) == Parsed(vs, rest)
    decreases of, |vs| + 2
  {
    if vs == [] {
      assert WriteAll(order, of, vs) + rest == rest;
    } else {
      var first, last := Write(order, of, vs[0]), WriteAll(order, of, vs[1..]);
      RoundTrip(order, of, vs[0], last + rest);
      AllRoundTrip(order, of, vs[1..], rest);
      Associative(first, last, rest);
      assert vs == [vs[0]] + vs[1..];
    }
  }

  // ---------------------------------------------------------------- what can come back at all

  lemma ReadI32Bound(b: seq<byte>)
    ensures ReadI32(b).Parsed? ==> IsInt32(ReadI32(b).value)
  {
    if |b| >= 4 { ReadInt32Bound(b[..4]); }
  }

  lemma ReadTextFits(b: seq<byte>)
    ensures ReadText(b).Parsed? ==> |ReadText(b).value| < TWO_31
  {
    ReadI32Bound(b);
  }

  ghost predicate EntriesFit(m: map<Text, Text>) {
    forall k <- m :: |k| < TWO_31 && |m[k]| < TWO_31
  }

  lemma InsertFits(m: map<Text, Text>, e: Entry)
    requires EntriesFit(m) && |e.key| < TWO_31 && |e.value| < TWO_31
    ensures EntriesFit(Insert(m, e))
  {
  }

  lemma InsertGrows(m: map<Text, Text>, e: Entry)
    ensures |Insert(m, e)| <= |m| + 1
  {
    if e.key !in m { assert m[e.key := e.value].Keys == m.Keys + {e.key}; }
  }

  lemma {:induction false} ReadEntriesFit(n: nat, m: map<Text, Text>, b: seq<byte>)
    requires EntriesFit(m)
    ensures var r := ReadEntries(n, m, b); r.Parsed? ==> EntriesFit(r.value)
    decreases n
  {
    if n > 0 && ReadEntry(b).Parsed? {
      ReadEntryFits(b);
      InsertFits(m, ReadEntry(b).value);
      ReadEntriesFit(n - 1, Insert(m, ReadEntry(b).value), ReadEntry(b).rest);
    }
  }

  lemma {:induction false} ReadEntriesCount(n: nat, m: map<Text, Text>, b: seq<byte>, size: nat)
    requires |m| + n <= size
    ensures var r := ReadEntries(n, m, b); r.Parsed? ==> |r.value| <= size
    decreases n
  {
    if n > 0 && ReadEntry(b).Parsed? {
      InsertGrows(m, ReadEntry(b).value);
      ReadEntriesCount(n - 1, Insert(m, ReadEntry(b).value), ReadEntry(b).rest, size);
    }
  }

  lemma ReadEntryFits(b: seq<byte>)
    ensures ReadEntry(b).Parsed? ==> |ReadEntry(b).value.key| < TWO_31 && |ReadEntry(b).value.value| < TWO_31
  {
    ReadTextFits(b);
    if ReadText(b).Parsed? { ReadTextFits(ReadText(b).rest); }
  }

  lemma ReadHeadersFits(b: seq<byte>)
    ensures ReadHeaders(b).Parsed? ==> Fits(VHeaders(ReadHeaders(b).value))
  {
    ReadI32Bound(b);
    var n := ReadI32(b);
    if n.Parsed? && n.value >= 0 {
      ReadEntriesFit(n.value, map[], n.rest);
      ReadEntriesCount(n.value, map[], n.rest, n.value);
    }
  }

  lemma {:induction false} ReadAllFit(of: Schema, n: nat, b: seq<byte>)
    ensures var r := ReadAll(of, n, b); r.Parsed? ==> |r.value| == n && AllFit(r.value)
    decreases of, 1, n
  {
    if n > 0 && Read(of, b).Parsed? {
      ReadFits(of, b);
      var rest := Read(of, b).rest;
      ReadAllFit(of, n - 1, rest);
      if ReadAll(of, n - 1, rest).Parsed? {
        var v, vs := Read(of, b).value, ReadAll(of, n - 1, rest).value;
        assert ([v] + vs)[1..] == vs;
      }
    }
  }

  lemma ReadSequenceFits(of: Schema, b: seq<byte>)
    ensures var r := Read(Sequence(of), b); r.Parsed? ==> Fits(r.value)
    decreases of, 2, 0
  {
    ReadI32Bound(b);
    var n := ReadI32(b);
    if n.Parsed? && n.value >= 0 { ReadAllFit(of, n.value, n.rest); }
  }

  /** Whatever the bytes, a length or count that was read is below 2^31. */
  lemma {:induction false} ReadFits(sc: Schema, b: seq<byte>)
    ensures Read(sc, b).Parsed? ==> Fits(Read(sc, b).value)
    decreases sc, 0, 0
  {
    match sc
    case String => ReadTextFits(b);
    case Blob => ReadTextFits(b);
    case Optional(of) => if b != [] { ReadFits(of, b[1..]); }
    case Sequence(of) => ReadSequenceFits(of, b);
    case Headers => ReadHeadersFits(b);
    case Field(first, last) =>
      ReadFits(first, b);
      if Read(first, b).Parsed? { ReadFits(last, Read(first, b).rest); }
    case Tagged(cases) =>
      if ReadI32(b).Parsed? && 1 <= ReadI32(b).value <= |cases| {
        ReadFits(cases[ReadI32(b).value - 1], ReadI32(b).rest);
      }
    case _ => {}
  }

  /** A value comes back, with what follows it, if and only if every length and count in it is
      below 2^31: for every type and every enumeration of its maps. */
  lemma RoundTripExactly(order: Order, sc: Schema, v: Value, rest: seq<byte>)
    requires IsOrder(order) && Typed(sc, v)
    ensures Read(sc, Write(order, sc, v) + rest) == Parsed(v, rest) <==> Fits(v)
  {
    ReadFits(sc, Write(order, sc, v) + rest);
    if Fits(v) { RoundTrip(order, sc, v, rest); }
  }

  /** No value's bytes begin another's, so two values never share their bytes, whatever
      follows and however their maps are enumerated. */
  lemma PrefixFree(order: Order, order': Order, sc: Schema, v: Value, v': Value, rest: seq<byte>, rest': seq<byte>)
    requires IsOrder(order) && IsOrder(order') && Typed(sc, v) && Typed(sc, v') && Fits(v) && Fits(v')
    requires Write(order, sc, v) + rest == Write(order', sc, v') + rest'
    ensures v == v' && rest == rest'
  {
    RoundTrip(order, sc, v, rest);
    RoundTrip(order', sc, v', rest');
  }

  // ---------------------------------------------------------------- sizes

  lemma {:induction false} EntriesLength(keys: seq<Text>, m: map<Text, Text>)
    requires forall k <- keys :: k in m
    ensures |WriteEntries(keys, m)| == SizeEntries(keys, m)
    decreases |keys|
  {
    if keys != [] { EntriesLength(keys[1..], m); }
  }

  /** Taking one key out of an enumeration takes that entry's size out of the sum. */
  lemma {:induction false} SizeWithout(keys: seq<Text>, m: map<Text, Text>, i: nat)
    requires (forall k <- keys :: k in m) && i < |keys|
    ensures SizeEntries(keys, m) == 8 + |keys[i]| + |m[keys[i]]| + SizeEntries(keys[..i] + keys[i + 1..], m)
    decreases i
  {
    if i == 0 {
      assert keys[..i] + keys[i + 1..] == keys[1..];
    } else {
      SizeWithout(keys[1..], m, i - 1);
      var without := keys[..i] + keys[i + 1..];
      assert without[1..] == keys[1..][..i - 1] + keys[1..][i..];
    }
  }

  lemma WithoutKey(keys: seq<Text>, i: nat)
    requires Distinct(keys) && i < |keys|
    ensures var without := keys[..i] + keys[i + 1..];
      Distinct(without) && forall x :: x in without <==> x in keys && x != keys[i]
  {
    var without := keys[..i] + keys[i + 1..];
    forall x ensures x in without <==> x in keys && x != keys[i] {
      assert keys == keys[..i] + [keys[i]] + keys[i + 1..];
    }
  }

  lemma SomeKey(keys: seq<Text>)
    ensures keys != [] ==> exists k :: k in keys
  {
    if keys != [] { assert keys[0] in keys; }
  }

  lemma {:induction false} SizeOfAnyOrder(keys: seq<Text>, keys': seq<Text>, m: map<Text, Text>)
    requires forall k <- keys :: k in m
    requires Distinct(keys) && Distinct(keys')
    requires forall k :: k in keys <==> k in keys'
    ensures SizeEntries(keys, m) == SizeEntries(keys', m)
    decreases |keys|
  {
    if keys == [] {
      SomeKey(keys');
    } else {
      var k := keys[0];
      assert k in keys;
      var i :| 0 <= i < |keys'| && keys'[i] == k;
      SizeWithout(keys', m, i);
      WithoutKey(keys', i);
      WithoutKey(keys, 0);
      assert keys[..0] + keys[1..] == keys[1..];
      SizeOfAnyOrder(keys[1..], keys'[..i] + keys'[i + 1..], m);
    }
  }

  /** `write` emits exactly `allocation_size` bytes: for every type and value, and even if
      the maps were enumerated in different orders by the two. */
  lemma {:induction false} SizeIsExact(order: Order, order': Order, sc: Schema, v: Value)
    requires IsOrder(order) && IsOrder(order') && Typed(sc, v)
    ensures |Write(order, sc, v)| == Size(order', sc, v)
    decreases sc, 0
  {
    match sc
    case Optional(of) => if v.o.Some? { SizeIsExact(order, order', of, v.o.value); }
    case Sequence(of) => SizesAreExact(order, order', of, v.vs);
    case Headers =>
      assert Enumerates(order(v.m), v.m) && Enumerates(order'(v.m), v.m);
      EntriesLength(order(v.m), v.m);
      SizeOfAnyOrder(order(v.m), order'(v.m), v.m);
    case Field(a, b) =>
      SizeIsExact(order, order', a, v.first);
      SizeIsExact(order, order', b, v.rest);
    case Tagged(cases) => SizeIsExact(order, order', cases[v.tag], v.v);
    case _ => {}
  }

  lemma {:induction false} SizesAreExact(order: Order, order': Order, of: Schema, vs: seq<Value>)
    requires IsOrder(order) && IsOrder(order') && AllTyped(of, vs)
    ensures |WriteAll(order, of, vs)| == SizeAll(order', of, vs)
    decreases of, |vs| + 1
  {
    if vs != [] {
      SizeIsExact(order, order', of, vs[0]);
      SizesAreExact(order, order', of, vs[1..]);
    }
  }
}
