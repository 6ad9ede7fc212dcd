/** The bytes on the wire, digit by digit: what each type writes, said by its parts alone. */
module WireBytes {
  import opened Wrappers
  import opened Bytes
  import opened Wire
  import opened WireProofs
  import opened WireErrors
  import opened WireConverters

  function Byte(n: nat): byte { (n % 256) as byte }

  function Two(n: nat): seq<byte> { [Byte(n / 256), Byte(n)] }

  function Four(n: nat): seq<byte> { [Byte(n / 0x100_0000), Byte(n / 0x1_0000), Byte(n / 0x100), Byte(n)] }

  /** An int32, in two's complement. */
  function Signed(i: int): seq<byte>
    requires IsInt32(i)
  {
    Four(if i < 0 then i + 0x1_0000_0000 else i)
  }

  // ---------------------------------------------------------------- numbers

  /** The number that bytes spell, the first one counting most. */
  function Spelled(s: seq<byte>): nat {
    if s == [] then 0 else s[0] as nat * Pow256(|s| - 1) + Spelled(s[1..])
  }

  lemma {:induction false} OneMoreByte(s: seq<byte>, last: byte)
    ensures Spelled(s + [last]) == Spelled(s) * 256 + last as nat
    decreases |s|
  {
    if s == [] {
      assert [last][1..] == [] && [] + [last] == [last];
      assert Pow256(0) == 1;
    } else {
      assert (s + [last])[1..] == s[1..] + [last];
      OneMoreByte(s[1..], last);
      Carry(s[0] as nat, Pow256(|s| - 1), Spelled(s[1..]), last as nat);
    }
  }

  lemma Carry(a: nat, p: nat, b: nat, c: nat)
    ensures a * (256 * p) + (b * 256 + c) == (a * p + b) * 256 + c
  {
  }

  /** A number of any width that holds it is spelled by its bytes. */
  lemma {:induction false} NumberBytes(v: nat, width: nat)
    requires v < Pow256(width)
    ensures Spelled(BigEndian(v, width)) == v
    decreases width
  {
    if width > 0 {
      NumberBytes(v / 256, width - 1);
      OneMoreByte(BigEndian(v / 256, width - 1), (v % 256) as byte);
    }
  }

  lemma TwoBytes(n: nat)
    ensures BigEndian(n, 2) == Two(n)
  {
    assert BigEndian(n / 256 / 256, 0) == [];
    assert BigEndian(n / 256, 1) == [] + [Byte(n / 256)];
  }

  lemma FourBytes(n: nat)
    ensures BigEndian(n, 4) == Four(n)
  {
    assert n / 256 / 256 == n / 0x1_0000 && n / 0x1_0000 / 256 == n / 0x100_0000;
    TwoBytes(n / 0x1_0000);
    assert BigEndian(n / 256, 3) == BigEndian(n / 0x1_0000, 2) + [Byte(n / 256)];
  }

  lemma Int32Bytes(i: int)
    requires IsInt32(i)
    ensures WriteInt32(i) == Signed(i)
  {
    FourBytes(if i < 0 then i + 0x1_0000_0000 else i);
  }

  /** A count or length below 2^31 in four bytes. */
  lemma CountBytes(n: nat)
    requires n < 0x8000_0000
    ensures WriteInt32(ToInt32(n)) == Four(n)
  {
    assert n % TWO_32 == n;
    Int32Bytes(n);
  }

  // ---------------------------------------------------------------- texts and headers

  function TextOnWire(s: Text): seq<byte> { Four(|s|) + s }

  lemma TextBytes(s: Text)
    requires |s| < 0x8000_0000
    ensures WriteText(s) == TextOnWire(s)
  {
    CountBytes(|s|);
  }

  /** Keys and values in turn. */
  function EntriesOnWire(keys: seq<Text>, m: map<Text, Text>): seq<byte>
    requires forall k <- keys :: k in m
  {
    if keys == [] then [] else TextOnWire(keys[0]) + TextOnWire(m[keys[0]]) + EntriesOnWire(keys[1..], m)
  }

  lemma {:induction false} EntriesBytes(keys: seq<Text>, m: map<Text, Text>)
    requires forall k <- keys :: k in m && |k| < 0x8000_0000 && |m[k]| < 0x8000_0000
    ensures WriteEntries(keys, m) == EntriesOnWire(keys, m)
    decreases |keys|
  {
    if keys != [] {
      TextBytes(keys[0]);
      TextBytes(m[keys[0]]);
      EntriesBytes(keys[1..], m);
    }
  }

  ghost function HeadersOnWire(order: Order, m: map<Text, Text>): seq<byte>
    requires IsOrder(order)
  {
    assert Enumerates(order(m), m);
    Four(|m|) + EntriesOnWire(order(m), m)
  }

  lemma HeadersBytes(order: Order, m: map<Text, Text>)
    requires IsOrder(order) && Fits(VHeaders(m))
    ensures Write(order, Headers, VHeaders(m)) == HeadersOnWire(order, m)
  {
    assert Enumerates(order(m), m);
    CountBytes(|m|);
    EntriesBytes(order(m), m);
  }

  // ---------------------------------------------------------------- every type

  /** A flag byte of 1 or 0, then the value if there is one. */
  lemma OptionBytes(order: Order, of: Schema, x: Value)
    requires IsOrder(order) && Typed(of, x)
    ensures Write(order, Optional(of), VOption(Some(x))) == [1] + Write(order, of, x)
    ensures Write(order, Optional(of), VOption(None)) == [0]
  {
  }

  lemma BoolBytes(order: Order)
    requires IsOrder(order)
    ensures Write(order, Bool, VBool(true)) == [1] && Write(order, Bool, VBool(false)) == [0]
  {
  }

  /** A count, then the elements in order. */
  lemma SequenceBytes(order: Order, of: Schema, vs: seq<Value>)
    requires IsOrder(order) && AllTyped(of, vs) && |vs| < 0x8000_0000
    ensures Write(order, Sequence(of), VSequence(vs)) == Four(|vs|) + WriteAll(order, of, vs)
    ensures WriteAll(order, of, []) == []
    ensures vs != [] ==> WriteAll(order, of, vs) == Write(order, of, vs[0]) + WriteAll(order, of, vs[1..])
  {
    CountBytes(|vs|);
  }

  /** Enums and tags count from 1. */
  lemma TagBytes(order: Order, n: nat, k: nat, cases: seq<Schema>, v: Value)
    requires IsOrder(order) && k < n < 0x8000_0000 && k < |cases| < 0x8000_0000 && Typed(cases[k], v)
    ensures Write(order, Enum(n), VEnum(k)) == Four(k + 1)
    ensures Write(order, Tagged(cases), VTagged(k, v)) == Four(k + 1) + Write(order, cases[k], v)
  {
    Int32Bytes(k + 1);
  }

  // ---------------------------------------------------------------- an error

  function OptionOnWire(o: Option<Text>): seq<byte> { if o.Some? then [1] + TextOnWire(o.value) else [0] }

  function StatusOnWire(o: Option<nat>): seq<byte> { if o.Some? then [1] + Two(o.value) else [0] }

  /** code, source_kind, message, status, body, request_id, headers */
  ghost function InfoOnWire(order: Order, i: ErrorInfo): seq<byte>
    requires IsOrder(order) && ValidInfo(i)
  {
    Signed(i.code) + (Four(i.sourceKind + 1) + (TextOnWire(i.message) + (StatusOnWire(i.status)
      + (OptionOnWire(i.body) + (OptionOnWire(i.requestId) + HeadersOnWire(order, i.headers))))))
  }

  function Flatten(parts: seq<seq<byte>>): seq<byte> { if parts == [] then [] else parts[0] + Flatten(parts[1..]) }

  /** A record's bytes are its fields' bytes in order. */
  lemma {:induction false} RecordBytes(order: Order, fields: seq<Schema>, vs: seq<Value>, parts: seq<seq<byte>>)
    requires IsOrder(order) && |fields| == |vs| == |parts| && Typed(Record(fields), RecordValue(vs))
    requires forall k :: 0 <= k < |fields| ==> Typed(fields[k], vs[k]) && Write(order, fields[k], vs[k]) == parts[k]
    ensures Write(order, Record(fields), RecordValue(vs)) == Flatten(parts)
    decreases |fields|
  {
    if fields != [] {
      FirstField(order, fields, vs);
      RecordBytes(order, fields[1..], vs[1..], parts[1..]);
    }
  }

  lemma OptionTextBytes(order: Order, o: Option<Text>)
    requires IsOrder(order) && OptionFits(o)
    ensures Typed(Optional(String), OptionOf(o)) && Write(order, Optional(String), OptionOf(o)) == OptionOnWire(o)
  {
    if o.Some? {
      TextBytes(o.value);
      OptionBytes(order, String, VText(o.value));
    }
  }

  lemma StatusBytes(order: Order, o: Option<nat>)
    requires IsOrder(order) && (o.Some? ==> o.value < 0x1_0000)
    ensures Typed(Optional(Number(2)), StatusOf(o)) && Write(order, Optional(Number(2)), StatusOf(o)) == StatusOnWire(o)
  {
    StatusIs(order, o);
    if o.Some? {
      TwoBytes(o.value);
      OptionBytes(order, Number(2), VNumber(o.value));
    }
  }

  ghost function InfoParts(order: Order, i: ErrorInfo): seq<seq<byte>>
    requires IsOrder(order) && ValidInfo(i)
  {
    [Signed(i.code), Four(i.sourceKind + 1), TextOnWire(i.message), StatusOnWire(i.status), OptionOnWire(i.body),
     OptionOnWire(i.requestId), HeadersOnWire(order, i.headers)]
  }

  lemma KindBytes(order: Order, kind: nat)
    requires IsOrder(order) && kind < 5
    ensures Typed(Enum(5), VEnum(kind)) && Write(order, Enum(5), VEnum(kind)) == Four(kind + 1)
  {
    Int32Bytes(kind + 1);
  }

  lemma InfoPartsAre(order: Order, i: ErrorInfo, fields: seq<Schema>, vs: seq<Value>, parts: seq<seq<byte>>)
    requires IsOrder(order) && ValidInfo(i) && InfoFits(i)
    requires fields == INFO_FIELDS && vs == InfoFields(i) && parts == InfoParts(order, i)
    ensures forall k :: 0 <= k < 7 ==> Typed(fields[k], vs[k]) && Write(order, fields[k], vs[k]) == parts[k]
  {
    Int32Bytes(i.code);
    KindBytes(order, i.sourceKind);
    TextBytes(i.message);
    StatusBytes(order, i.status);
    OptionTextBytes(order, i.body);
    OptionTextBytes(order, i.requestId);
    HeadersBytes(order, i.headers);
    assert Typed(fields[0], vs[0]) && Write(order, fields[0], vs[0]) == parts[0];
    assert Typed(fields[2], vs[2]) && Write(order, fields[2], vs[2]) == parts[2];
  }

  lemma FlattenSeven(a: seq<byte>, b: seq<byte>, c: seq<byte>, d: seq<byte>, e: seq<byte>, f: seq<byte>, g: seq<byte>,
                     parts: seq<seq<byte>>)
    requires parts == [a, b, c, d, e, f, g]
    ensures Flatten(parts) == a + (b + (c + (d + (e + (f + g)))))
  {
    assert parts[1..] == [b, c, d, e, f, g] && parts[1..][1..] == [c, d, e, f, g];
    FlattenFive(c, d, e, f, g, [c, d, e, f, g]);
  }

  lemma FlattenFive(c: seq<byte>, d: seq<byte>, e: seq<byte>, f: seq<byte>, g: seq<byte>, parts: seq<seq<byte>>)
    requires parts == [c, d, e, f, g]
    ensures Flatten(parts) == c + (d + (e + (f + g)))
  {
    assert parts[1..] == [d, e, f, g] && [d, e, f, g][1..] == [e, f, g] && [e, f, g][1..] == [f, g];
    assert [f, g][1..] == [g] && [g][1..] == [] && g + [] == g;
    assert Flatten([]) == [];
    assert Flatten([g]) == g;
    assert Flatten([f, g]) == f + g;
    assert Flatten([e, f, g]) == e + (f + g);
  }

  lemma InfoFlattened(order: Order, i: ErrorInfo, parts: seq<seq<byte>>)
    requires IsOrder(order) && ValidInfo(i) && parts == InfoParts(order, i)
    ensures Flatten(parts) == InfoOnWire(order, i)
  {
    FlattenSeven(parts[0], parts[1], parts[2], parts[3], parts[4], parts[5], parts[6], parts);
  }

  lemma InfoWritten(order: Order, i: ErrorInfo, fields: seq<Schema>, vs: seq<Value>, parts: seq<seq<byte>>,
                    info: Schema, v: Value)
    requires IsOrder(order) && ValidInfo(i) && InfoFits(i) && fields == INFO_FIELDS && info == Record(fields)
    requires vs == InfoFields(i) && v == RecordValue(vs) && parts == InfoParts(order, i) && Typed(info, v)
    ensures Write(order, info, v) == Flatten(parts)
  {
    InfoPartsAre(order, i, fields, vs, parts);
    RecordBytes(order, fields, vs, parts);
  }

  /** What `lower` sends for an ErrorInfo, byte by byte. */
  lemma InfoLowered(order: Order, i: ErrorInfo, fields: seq<Schema>, info: Schema)
    requires IsOrder(order) && ValidInfo(i) && InfoFits(i) && fields == INFO_FIELDS && info == Record(fields)
    ensures Typed(info, InfoValue(i)) && Write(order, info, InfoValue(i)) == InfoOnWire(order, i)
    ensures Lowered(order, info, InfoValue(i)) == Some(InfoOnWire(order, i))
  {
    var parts := InfoParts(order, i);
    WireErrors.InfoTyped(order, i, fields, info);
    InfoWritten(order, i, fields, InfoFields(i), parts, info, InfoValue(i));
    InfoFlattened(order, i, parts);
    assert info.Field?;
  }

  /** The bytes of an error that fits: its number, its message if it is not the eighth, its info. */
  lemma ErrorOnWire(order: Order, e: MarketDataError)
    requires IsOrder(order) && Valid(e) && ErrorFits(e)
    ensures e.Failure? ==> ErrorBytes(order, e) == Four(e.variant) + (TextOnWire(e.msg) + InfoOnWire(order, e.info))
    ensures e.ClientClosed? ==> ErrorBytes(order, e) == Four(8) + InfoOnWire(order, e.info)
  {
    var info := Record(INFO_FIELDS);
    if e.Failure? { FailureOnWire(order, e, info); } else { ClosedOnWire(order, e, info); }
  }

  lemma FailureOnWire(order: Order, e: MarketDataError, info: Schema)
    requires IsOrder(order) && Valid(e) && ErrorFits(e) && e.Failure? && info == Record(INFO_FIELDS)
    ensures ErrorBytes(order, e) == Four(e.variant) + (TextOnWire(e.msg) + InfoOnWire(order, e.info))
  {
    InfoLowered(order, e.info, INFO_FIELDS, info);
    FailureBytes(order, e, info, InfoValue(e.info), [String, info], ErrorCases());
    TextBytes(e.msg);
    Int32Bytes(e.variant);
  }

  lemma ClosedOnWire(order: Order, e: MarketDataError, info: Schema)
    requires IsOrder(order) && Valid(e) && ErrorFits(e) && e.ClientClosed? && info == Record(INFO_FIELDS)
    ensures ErrorBytes(order, e) == Four(8) + InfoOnWire(order, e.info)
  {
    InfoLowered(order, e.info, INFO_FIELDS, info);
    ClosedBytes(order, e, info, InfoValue(e.info), ErrorCases());
    Int32Bytes(8);
  }

  lemma ClosedBytes(order: Order, e: MarketDataError, info: Schema, v: Value, cases: seq<Schema>)
    requires IsOrder(order) && Valid(e) && e.ClientClosed? && v == InfoValue(e.info) && Typed(info, v)
    requires cases == ErrorCases() && info == Record(INFO_FIELDS)
    ensures ErrorBytes(order, e) == WriteInt32(8) + Write(order, info, v)
  {
    LastField(order, info, v, [info], [v]);
    TaggedBytes(order, cases, 7, Record([info]), RecordValue([v]));
    assert ErrorValue(e) == VTagged(7, RecordValue([v]));
  }

  // ---------------------------------------------------------------- what is read

  /** Any byte but 0 is a set flag. */
  lemma FlagsRead(of: Schema, flag: byte, rest: seq<byte>)
    ensures Read(Bool, [flag] + rest) == Parsed(VBool(flag as nat != 0), rest)
    ensures flag as nat == 0 ==> Read(Optional(of), [flag] + rest) == Parsed(VOption(None), rest)
    ensures flag as nat != 0 ==>
      Read(Optional(of), [flag] + rest)
        == match Read(of, rest) case Parsed(v, after) => Parsed(VOption(Some(v)), after) case Failed => Failed
  {
    assert ([flag] + rest)[1..] == rest;
  }

  /** A text is read exactly from its own bytes. */
  lemma TextRead(b: seq<byte>, s: Text, rest: seq<byte>)
    ensures ReadText(b) == Parsed(s, rest) <==> |s| < 0x8000_0000 && b == TextOnWire(s) + rest
  {
    if |s| < 0x8000_0000 && b == TextOnWire(s) + rest {
      TextBytes(s);
      TextRoundTrip(s, rest);
    }
    if ReadText(b) == Parsed(s, rest) {
      ReadI32Bound(b);
      CountRead(b[..4], |s|);
      assert b == b[..4] + b[4..] && b[4..] == s + rest;
    }
  }

  lemma CountRead(header: seq<byte>, n: nat)
    requires |header| == 4 && ReadInt32(header) == n && n < 0x8000_0000
    ensures header == Four(n)
  {
    ReadInt32Bound(header);
    FromBigEndianBound(header);
    assert Pow256(4) == TWO_32 by { assert Pow256(2) == 65536; }
    ToBytes(header);
    FourBytes(n);
  }

  lemma {:induction false} ToBytes(s: seq<byte>)
    ensures BigEndian(FromBigEndian(s), |s|) == s
    decreases |s|
  {
    if s != [] {
      var n, last := FromBigEndian(s[..|s| - 1]), s[|s| - 1] as nat;
      ToBytes(s[..|s| - 1]);
      assert (n * 256 + last) / 256 == n && (n * 256 + last) % 256 == last;
    }
  }

  /** Enums and tags are read from 1 to their number. */
  lemma TagsRead(n: nat, k: nat, rest: seq<byte>)
    requires k < 0x8000_0000
    ensures Read(Enum(n), Four(k) + rest) == if 1 <= k <= n then Parsed(VEnum(k - 1), rest) else Failed
  {
    Int32Bytes(k);
    Int32RoundTrip(k, rest);
  }

  /** A key that is read twice keeps its first value. */
  lemma FirstKeyWins(k: Text, v: Text, w: Text, rest: seq<byte>)
    requires |k| < 0x8000_0000 && |v| < 0x8000_0000 && |w| < 0x8000_0000
    ensures ReadHeaders(Four(2) + (TextOnWire(k) + TextOnWire(v) + (TextOnWire(k) + TextOnWire(w) + rest)))
         == Parsed(map[k := v], rest)
  {
    TextBytes(k);
    TextBytes(v);
    TextBytes(w);
    Int32Bytes(2);
    var last := WriteText(k) + WriteText(w) + rest;
    var both := WriteText(k) + WriteText(v) + last;
    Int32RoundTrip(2, both);
    EntryRoundTrip(1, map[], k, v, last);
    EntryRoundTrip(0, map[][k := v], k, w, rest);
    assert Insert(map[], Entry(k, v)) == map[k := v] && Insert(map[k := v], Entry(k, w)) == map[k := v];
  }
}
