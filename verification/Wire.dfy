/** The UniFFI wire format of `bindings/cpp/marketdata_uniffi.cpp`.

    The binding instantiates one converter template per kind of type: primitives,
    strings, byte vectors, optionals, sequences, string maps, enums, records and tagged
    errors. A `Schema` names such an instance, and `Write`, `Read` and `Size` are the
    templates' `write`, `read` and `allocation_size`. */
module Wire {
  import opened Wrappers
  import opened Bytes

  type Text = seq<byte>

  datatype Schema =
    | Number(width: nat)                       // uint8_t, uint16_t, uint32_t, uint64_t; double as its 64-bit pattern
    | Int32
    | Bool
    | String
    | Blob                                     // std::vector<uint8_t>
    | Optional(of: Schema)
    | Sequence(of: Schema)
    | Headers                                  // std::unordered_map<std::string, std::string>
    | Enum(variants: nat)
    | End                                      // a record's fields, one after the other
    | Field(first: Schema, rest: Schema)
    | Tagged(cases: seq<Schema>)               // an int32 tag, then the case's fields

  datatype Value =
    | VNumber(n: nat)
    | VInt32(i: int)
    | VBool(b: bool)
    | VText(s: Text)
    | VOption(o: Option<Value>)
    | VSequence(vs: seq<Value>)
    | VHeaders(m: map<Text, Text>)
    | VEnum(k: nat)
    | VEnd
    | VField(first: Value, rest: Value)
    | VTagged(tag: nat, v: Value)

  // ---------------------------------------------------------------- integers

  function Pow256(n: nat): (p: nat)
    ensures p > 0
  {
    if n == 0 then 1 else 256 * Pow256(n - 1)
  }

  /** v in `width` bytes, most significant first. */
  function BigEndian(v: nat, width: nat): (s: seq<byte>)
    ensures |s| == width
  {
    if width == 0 then [] else BigEndian(v / 256, width - 1) + [(v % 256) as byte]
  }

  function FromBigEndian(s: seq<byte>): nat {
    if s == [] then 0 else FromBigEndian(s[..|s| - 1]) * 256 + s[|s| - 1] as nat
  }

  lemma {:induction false} BigEndianInverse(v: nat, width: nat)
    requires v < Pow256(width)
    ensures FromBigEndian(BigEndian(v, width)) == v
    decreases width
  {
    if width > 0 {
      BigEndianInverse(v / 256, width - 1);
      var s := BigEndian(v, width);
      assert s[..|s| - 1] == BigEndian(v / 256, width - 1);
    }
  }

  const TWO_31: nat := 0x8000_0000
  const TWO_32: nat := 0x1_0000_0000

  predicate IsInt32(i: int) { -(TWO_31 as int) <= i < TWO_31 as int }

  /** `static_cast<int32_t>(size)` */
  function ToInt32(size: nat): (i: int)
    ensures IsInt32(i)
  {
    var r := size % TWO_32;
    if r < TWO_31 then r else r - TWO_32
  }

  function WriteInt32(i: int): (s: seq<byte>)
    requires IsInt32(i)
    ensures |s| == 4
  {
    BigEndian(if i < 0 then i + TWO_32 else i, 4)
  }

  function ReadInt32(s: seq<byte>): (i: int)
    requires |s| == 4
  {
    var n := FromBigEndian(s);
    if n < TWO_31 then n else n - TWO_32
  }

  lemma {:induction false} FromBigEndianBound(s: seq<byte>)
    ensures FromBigEndian(s) < Pow256(|s|)
    decreases |s|
  {
    if s != [] { FromBigEndianBound(s[..|s| - 1]); }
  }

  lemma ReadInt32Bound(s: seq<byte>)
    requires |s| == 4
    ensures IsInt32(ReadInt32(s))
  {
    assert Pow256(4) == TWO_32 by { assert Pow256(2) == 65536; }
    FromBigEndianBound(s);
  }

  lemma Int32Inverse(i: int)
    requires IsInt32(i)
    ensures ReadInt32(WriteInt32(i)) == i
  {
    assert Pow256(4) == TWO_32 by { assert Pow256(2) == 65536; }
    BigEndianInverse(if i < 0 then i + TWO_32 else i, 4);
  }

  // ---------------------------------------------------------------- types

  /** How an unordered map is enumerated: each key once, in any order. */
  type Order = map<Text, Text> -> seq<Text>

  ghost predicate Enumerates(keys: seq<Text>, m: map<Text, Text>) {
    && (forall i, j :: 0 <= i < j < |keys| ==> keys[i] != keys[j])
    && (forall k :: k in keys <==> k in m)
  }

  ghost predicate IsOrder(order: Order) {
    forall m :: Enumerates(order(m), m)
  }

  /** v is a value of the C++ type the schema stands for. */
  ghost predicate Typed(sc: Schema, v: Value)
    decreases sc, 0
  {
    match sc
    case Number(w) => v.VNumber? && v.n < Pow256(w)
    case Int32 => v.VInt32? && IsInt32(v.i)
    case Bool => v.VBool?
    case String => v.VText?
    case Blob => v.VText?
    case Optional(of) => v.VOption? && (v.o.Some? ==> Typed(of, v.o.value))
    case Sequence(of) => v.VSequence? && AllTyped(of, v.vs)
    case Headers => v.VHeaders?
    case Enum(n) => v.VEnum? && v.k < n < TWO_31
    case End => v.VEnd?
    case Field(a, b) => v.VField? && Typed(a, v.first) && Typed(b, v.rest)
    case Tagged(cases) => v.VTagged? && v.tag < |cases| < TWO_31 && Typed(cases[v.tag], v.v)
  }

  ghost predicate AllTyped(of: Schema, vs: seq<Value>)
    decreases of, |vs| + 1
  {
    vs == [] || (Typed(of, vs[0]) && AllTyped(of, vs[1..]))
  }

  /** Every length and count in v fits an int32. */
  ghost predicate Fits(v: Value)
    decreases v, 0
  {
    match v
    case VText(s) => |s| < TWO_31
    case VOption(Some(x)) => Fits(x)
    case VSequence(vs) => |vs| < TWO_31 && AllFit(vs)
    case VHeaders(m) => |m| < TWO_31 && forall k <- m :: |k| < TWO_31 && |m[k]| < TWO_31
    case VField(a, b) => Fits(a) && Fits(b)
    case VTagged(_, x) => Fits(x)
    case _ => true
  }

  ghost predicate AllFit(vs: seq<Value>)
    decreases vs, 1
  {
    vs == [] || (Fits(vs[0]) && AllFit(vs[1..]))
  }

  // ---------------------------------------------------------------- write

  function WriteText(s: Text): seq<byte> {
    WriteInt32(ToInt32(|s|)) + s
  }

  function WriteEntries(keys: seq<Text>, m: map<Text, Text>): seq<byte>
    requires forall k <- keys :: k in m
  {
    if keys == [] then [] else WriteText(keys[0]) + WriteText(m[keys[0]]) + WriteEntries(keys[1..], m)
  }

  function WriteHeaders(keys: seq<Text>, m: map<Text, Text>): seq<byte>
    requires forall k <- keys :: k in m
  {
    WriteInt32(ToInt32(|m|)) + WriteEntries(keys, m)
  }

  ghost function Write(order: Order, sc: Schema, v: Value): seq<byte>
    requires IsOrder(order) && Typed(sc, v)
    decreases sc, 0
  {
    match sc
    case Number(w) => BigEndian(v.n, w)
    case Int32 => WriteInt32(v.i)
    case Bool => [if v.b then 1 else 0]
    case String => WriteText(v.s)
    case Blob => WriteText(v.s)
    case Optional(of) => if v.o.None? then [0] else [1] + Write(order, of, v.o.value)
    case Sequence(of) => WriteInt32(ToInt32(|v.vs|)) + WriteAll(order, of, v.vs)
    case Headers =>
      assert Enumerates(order(v.m), v.m);
      WriteHeaders(order(v.m), v.m)
    case Enum(_) => WriteInt32(v.k + 1)
    case End => []
    case Field(a, b) => Write(order, a, v.first) + Write(order, b, v.rest)
    case Tagged(cases) => WriteInt32(v.tag + 1) + Write(order, cases[v.tag], v.v)
  }

  ghost function WriteAll(order: Order, of: Schema, vs: seq<Value>): seq<byte>
    requires IsOrder(order) && AllTyped(of, vs)
    decreases of, |vs| + 1
  {
    if vs == [] then [] else Write(order, of, vs[0]) + WriteAll(order, of, vs[1..])
  }

  // ---------------------------------------------------------------- read

  datatype Parsed<T> = Parsed(value: T, rest: seq<byte>) | Failed

  function ReadNumber(width: nat, b: seq<byte>): Parsed<nat> {
    if |b| < width then Failed else Parsed(FromBigEndian(b[..width]), b[width..])
  }

  function ReadI32(b: seq<byte>): Parsed<int> {
    if |b| < 4 then Failed else Parsed(ReadInt32(b[..4]), b[4..])
  }

  /** A negative length makes `resize` and `reserve` throw. */
  function ReadText(b: seq<byte>): Parsed<Text> {
    match ReadI32(b)
    case Failed => Failed
    case Parsed(n, rest) => if n < 0 || |rest| < n then Failed else Parsed(rest[..n], rest[n..])
  }

  /** `ret.insert({ key, value })`: a key that is there already keeps its value. */
  function Insert(m: map<Text, Text>, e: Entry): map<Text, Text> {
    if e.key in m then m else m[e.key := e.value]
  }

  datatype Entry = Entry(key: Text, value: Text)

  /** A key, then its value. */
  function ReadEntry(b: seq<byte>): Parsed<Entry> {
    match ReadText(b)
    case Failed => Failed
    case Parsed(k, rest) =>
      match ReadText(rest) case Failed => Failed case Parsed(v, rest') => Parsed(Entry(k, v), rest')
  }

  function ReadEntries(n: nat, m: map<Text, Text>, b: seq<byte>): Parsed<map<Text, Text>> {
    if n == 0 then Parsed(m, b)
    else
      match ReadEntry(b)
      case Failed => Failed
      case Parsed(e, rest) => ReadEntries(n - 1, Insert(m, e), rest)
  }

  function ReadHeaders(b: seq<byte>): Parsed<map<Text, Text>> {
    match ReadI32(b)
    case Failed => Failed
    case Parsed(n, rest) => if n < 0 then Failed else ReadEntries(n, map[], rest)
  }

  function Read(sc: Schema, b: seq<byte>): Parsed<Value>
    decreases sc, 0, 0
  {
    match sc
    case Number(w) => (match ReadNumber(w, b) case Failed => Failed case Parsed(n, rest) => Parsed(VNumber(n), rest))
    case Int32 => (match ReadI32(b) case Failed => Failed case Parsed(i, rest) => Parsed(VInt32(i), rest))
    case Bool => if b == [] then Failed else Parsed(VBool(b[0] != 0), b[1..])
    case String => (match ReadText(b) case Failed => Failed case Parsed(s, rest) => Parsed(VText(s), rest))
    case Blob => (match ReadText(b) case Failed => Failed case Parsed(s, rest) => Parsed(VText(s), rest))
    case Optional(of) =>
      if b == [] then Failed
      else if b[0] == 0 then Parsed(VOption(None), b[1..])
      else (match Read(of, b[1..]) case Failed => Failed case Parsed(v, rest) => Parsed(VOption(Some(v)), rest))
    case Sequence(of) =>
      (match ReadSequence(of, b) case Failed => Failed case Parsed(vs, rest) => Parsed(VSequence(vs), rest))
    case Headers => (match ReadHeaders(b) case Failed => Failed case Parsed(m, rest) => Parsed(VHeaders(m), rest))
    case Enum(variants) =>
      (match ReadI32(b)
       case Failed => Failed
       case Parsed(k, rest) => if 1 <= k <= variants then Parsed(VEnum(k - 1), rest) else Failed)
    case End => Parsed(VEnd, b)
    case Field(first, last) =>
      (match Read(first, b)
       case Failed => Failed
       case Parsed(v, rest) =>
         match Read(last, rest) case Failed => Failed case Parsed(w, rest') => Parsed(VField(v, w), rest'))
    case Tagged(cases) =>
      (match ReadI32(b)
       case Failed => Failed
       case Parsed(k, rest) =>
         if 1 <= k <= |cases| then
           match Read(cases[k - 1], rest)
           case Failed => Failed
           case Parsed(v, rest') => Parsed(VTagged(k - 1, v), rest')
         else Failed)
  }

  function ReadSequence(of: Schema, b: seq<byte>): Parsed<seq<Value>>
    decreases of, 2, 0
  {
    match ReadI32(b)
    case Failed => Failed
    case Parsed(n, rest) => if n < 0 then Failed else ReadAll(of, n, rest)
  }

  function ReadAll(of: Schema, n: nat, b: seq<byte>): Parsed<seq<Value>>
    decreases of, 1, n
  {
    if n == 0 then Parsed([], b)
    else
      match Read(of, b)
      case Failed => Failed
      case Parsed(v, rest) =>
        match ReadAll(of, n - 1, rest) case Failed => Failed case Parsed(vs, rest') => Parsed([v] + vs, rest')
  }

  // ---------------------------------------------------------------- allocation_size

  function SizeEntries(keys: seq<Text>, m: map<Text, Text>): nat
    requires forall k <- keys :: k in m
  {
    if keys == [] then 0 else 4 + |keys[0]| + 4 + |m[keys[0]]| + SizeEntries(keys[1..], m)
  }

  ghost function Size(order: Order, sc: Schema, v: Value): nat
    requires IsOrder(order) && Typed(sc, v)
    decreases sc, 0
  {
    match sc
    case Number(w) => w
    case Int32 => 4
    case Bool => 1
    case String => 4 + |v.s|
    case Blob => 4 + |v.s|
    case Optional(of) => 1 + if v.o.Some? then Size(order, of, v.o.value) else 0
    case Sequence(of) => 4 + SizeAll(order, of, v.vs)
    case Headers =>
      assert Enumerates(order(v.m), v.m);
      4 + SizeEntries(order(v.m), v.m)
    case Enum(_) => 4
    case End => 0
    case Field(a, b) => Size(order, a, v.first) + Size(order, b, v.rest)
    case Tagged(cases) => 4 + Size(order, cases[v.tag], v.v)
  }

  ghost function SizeAll(order: Order, of: Schema, vs: seq<Value>): nat
    requires IsOrder(order) && AllTyped(of, vs)
    decreases of, |vs| + 1
  {
    if vs == [] then 0 else Size(order, of, vs[0]) + SizeAll(order, of, vs[1..])
  }
}
