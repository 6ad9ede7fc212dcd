/** The error type that every call can bring back from Rust, as the wire format's instance. */
module WireErrors {
  import opened Wrappers
  import opened Bytes
  import opened Wire
  import opened WireProofs

  datatype ErrorInfo = ErrorInfo(code: int, sourceKind: nat, message: Text, status: Option<nat>,
                                 body: Option<Text>, requestId: Option<Text>, headers: map<Text, Text>)

  /** The variants by their number, 1 to 11; the eighth, ClientClosed, has no message. */
  datatype MarketDataError = Failure(variant: nat, msg: Text, info: ErrorInfo) | ClientClosed(info: ErrorInfo)

  const CLOSED := 8

  /** A record is its fields one after the other. */
  function Record(fields: seq<Schema>): Schema {
    if fields == [] then End else Field(fields[0], Record(fields[1..]))
  }

  function RecordValue(fields: seq<Value>): Value {
    if fields == [] then VEnd else VField(fields[0], RecordValue(fields[1..]))
  }

  const INFO_FIELDS := [Int32, Enum(5), String, Optional(Number(2)), Optional(String), Optional(String), Headers]

  function ErrorFields(variant: nat): seq<Schema> {
    if variant == CLOSED then [Record(INFO_FIELDS)] else [String, Record(INFO_FIELDS)]
  }

  function ErrorCases(): (cases: seq<Schema>)
    ensures |cases| == 11
  {
    seq(11, i requires 0 <= i < 11 => Record(ErrorFields(i + 1)))
  }

  /** The C++ fields' own ranges. */
  predicate ValidInfo(i: ErrorInfo) {
    IsInt32(i.code) && i.sourceKind < 5 && (i.status.Some? ==> i.status.value < 0x1_0000)
  }

  predicate Valid(e: MarketDataError) {
    ValidInfo(e.info) && (e.Failure? ==> 1 <= e.variant <= 11 && e.variant != CLOSED)
  }

  function OptionOf(o: Option<Text>): Value { VOption(if o.Some? then Some(VText(o.value)) else None) }

  function StatusOf(o: Option<nat>): Value { VOption(if o.Some? then Some(VNumber(o.value)) else None) }

  function InfoFields(i: ErrorInfo): seq<Value> {
    [VInt32(i.code), VEnum(i.sourceKind), VText(i.message), StatusOf(i.status), OptionOf(i.body),
     OptionOf(i.requestId), VHeaders(i.headers)]
  }

  function InfoValue(i: ErrorInfo): Value { RecordValue(InfoFields(i)) }

  /** The variant's number and the fields it has. */
  function VariantOf(e: MarketDataError): nat { if e.Failure? then e.variant else CLOSED }

  function FieldsOf(e: MarketDataError): seq<Value> {
    if e.Failure? then [VText(e.msg), InfoValue(e.info)] else [InfoValue(e.info)]
  }

  function ErrorValue(e: MarketDataError): Value
    requires Valid(e)
  {
    VTagged(VariantOf(e) - 1, RecordValue(FieldsOf(e)))
  }

  predicate TextFits(s: Text) { |s| < TWO_31 }

  predicate OptionFits(o: Option<Text>) { o.Some? ==> TextFits(o.value) }

  ghost predicate HeadersFit(m: map<Text, Text>) { |m| < TWO_31 && forall k <- m :: TextFits(k) && TextFits(m[k]) }

  ghost predicate InfoFits(i: ErrorInfo) {
    TextFits(i.message) && OptionFits(i.body) && OptionFits(i.requestId) && HeadersFit(i.headers)
  }

  ghost predicate ErrorFits(e: MarketDataError) { InfoFits(e.info) && (e.Failure? ==> TextFits(e.msg)) }

  // ---------------------------------------------------------------- its type, lengths and size

  /** v is of type sc, its lengths fit exactly if `fits` says so, and it takes `size` bytes. */
  ghost predicate Is(order: Order, sc: Schema, v: Value, fits: bool, size: nat)
    requires IsOrder(order)
  {
    Typed(sc, v) && (Fits(v) <==> fits) && Size(order, sc, v) == size
  }

  function Sum(sizes: seq<nat>): nat { if sizes == [] then 0 else sizes[0] + Sum(sizes[1..]) }

  lemma FieldIs(order: Order, a: Schema, x: Value, xFits: bool, xSize: nat, b: Schema, y: Value, yFits: bool,
                ySize: nat)
    requires IsOrder(order) && Is(order, a, x, xFits, xSize) && Is(order, b, y, yFits, ySize)
    ensures Is(order, Field(a, b), VField(x, y), xFits && yFits, xSize + ySize)
  {
  }

  predicate All(fits: seq<bool>) { fits == [] || (fits[0] && All(fits[1..])) }

  /** A record fits if its fields do, and takes as much as they do together. */
  lemma {:induction false} RecordIs(order: Order, fields: seq<Schema>, vs: seq<Value>, fits: seq<bool>, sizes: seq<nat>)
    requires IsOrder(order) && |vs| == |fields| && |fits| == |fields| && |sizes| == |fields|
    requires forall k :: 0 <= k < |fields| ==> Is(order, fields[k], vs[k], fits[k], sizes[k])
    ensures Is(order, Record(fields), RecordValue(vs), All(fits), Sum(sizes))
    decreases |fields|
  {
    if fields != [] {
      RecordIs(order, fields[1..], vs[1..], fits[1..], sizes[1..]);
      FieldIs(order, fields[0], vs[0], fits[0], sizes[0],
              Record(fields[1..]), RecordValue(vs[1..]), All(fits[1..]), Sum(sizes[1..]));
    }
  }

  function TextSize(s: Text): nat { 4 + |s| }

  function OptionSize(o: Option<Text>): nat { 1 + if o.Some? then TextSize(o.value) else 0 }

  function StatusSize(o: Option<nat>): nat { if o.Some? then 3 else 1 }

  ghost function HeadersSize(order: Order, m: map<Text, Text>): nat
    requires IsOrder(order)
  {
    assert Enumerates(order(m), m);
    4 + SizeEntries(order(m), m)
  }

  ghost function InfoSizes(order: Order, i: ErrorInfo): seq<nat>
    requires IsOrder(order)
  {
    [4, 4, TextSize(i.message), StatusSize(i.status), OptionSize(i.body), OptionSize(i.requestId),
     HeadersSize(order, i.headers)]
  }

  ghost function InfoSize(order: Order, i: ErrorInfo): nat
    requires IsOrder(order)
  {
    Sum(InfoSizes(order, i))
  }

  lemma OptionIs(order: Order, o: Option<Text>)
    requires IsOrder(order)
    ensures Is(order, Optional(String), OptionOf(o), OptionFits(o), OptionSize(o))
  {
    if o.Some? { assert Fits(VText(o.value)) <==> TextFits(o.value); }
  }

  lemma StatusIs(order: Order, o: Option<nat>)
    requires IsOrder(order) && (o.Some? ==> o.value < 0x1_0000)
    ensures Is(order, Optional(Number(2)), StatusOf(o), true, StatusSize(o))
  {
    assert Pow256(2) == 0x1_0000 by { assert Pow256(1) == 256; }
    if o.Some? { assert Typed(Number(2), VNumber(o.value)) && Size(order, Number(2), VNumber(o.value)) == 2; }
  }

  lemma Int32Is(order: Order, i: int)
    requires IsOrder(order) && IsInt32(i)
    ensures Is(order, Int32, VInt32(i), true, 4)
  {
  }

  lemma KindIs(order: Order, kind: nat)
    requires IsOrder(order) && kind < 5
    ensures Is(order, Enum(5), VEnum(kind), true, 4)
  {
  }

  lemma TextIs(order: Order, s: Text)
    requires IsOrder(order)
    ensures Is(order, String, VText(s), TextFits(s), TextSize(s))
  {
  }

  lemma HeadersAre(order: Order, m: map<Text, Text>)
    requires IsOrder(order)
    ensures Is(order, Headers, VHeaders(m), HeadersFit(m), HeadersSize(order, m))
  {
  }

  lemma InfoFieldsAre(order: Order, i: ErrorInfo, fields: seq<Schema>, vs: seq<Value>, fits: seq<bool>, sizes: seq<nat>)
    requires IsOrder(order) && ValidInfo(i)
    requires fields == INFO_FIELDS && vs == InfoFields(i) && sizes == InfoSizes(order, i)
    requires fits == [true, true, TextFits(i.message), true, OptionFits(i.body), OptionFits(i.requestId),
                      HeadersFit(i.headers)]
    ensures forall k :: 0 <= k < 7 ==> Is(order, fields[k], vs[k], fits[k], sizes[k])
  {
    Int32Is(order, i.code);
    KindIs(order, i.sourceKind);
    TextIs(order, i.message);
    StatusIs(order, i.status);
    OptionIs(order, i.body);
    OptionIs(order, i.requestId);
    HeadersAre(order, i.headers);
  }

  lemma AllOfSeven(a: bool, b: bool, c: bool, d: bool, e: bool, f: bool, g: bool)
    ensures All([a, b, c, d, e, f, g]) <==> a && b && c && d && e && f && g
  {
    assert [a, b, c, d, e, f, g][1..] == [b, c, d, e, f, g] && [b, c, d, e, f, g][1..] == [c, d, e, f, g];
    assert [c, d, e, f, g][1..] == [d, e, f, g] && [d, e, f, g][1..] == [e, f, g];
    assert [e, f, g][1..] == [f, g] && [f, g][1..] == [g] && [g][1..] == [];
    assert All([]) && (All([g]) <==> g) && (All([f, g]) <==> f && g);
    assert All([e, f, g]) <==> e && f && g;
    assert All([d, e, f, g]) <==> d && e && f && g;
    assert All([c, d, e, f, g]) <==> c && d && e && f && g;
  }

  lemma InfoIs(order: Order, i: ErrorInfo, fields: seq<Schema>, sc: Schema)
    requires IsOrder(order) && ValidInfo(i) && fields == INFO_FIELDS && sc == Record(fields)
    ensures Is(order, sc, InfoValue(i), InfoFits(i), InfoSize(order, i))
  {
    var fits := [true, true, TextFits(i.message), true, OptionFits(i.body), OptionFits(i.requestId),
                 HeadersFit(i.headers)];
    InfoFieldsAre(order, i, fields, InfoFields(i), fits, InfoSizes(order, i));
    RecordIs(order, fields, InfoFields(i), fits, InfoSizes(order, i));
    AllOfSeven(true, true, TextFits(i.message), true, OptionFits(i.body), OptionFits(i.requestId),
               HeadersFit(i.headers));
  }

  function MessageSize(e: MarketDataError): nat { if e.Failure? then TextSize(e.msg) else 0 }

  lemma OneIs(order: Order, sc: Schema, v: Value, fits: bool, size: nat)
    requires IsOrder(order) && Is(order, sc, v, fits, size)
    ensures Is(order, Record([sc]), RecordValue([v]), fits, size)
  {
    RecordIs(order, [sc], [v], [fits], [size]);
    assert [fits][1..] == [] && [size][1..] == [];
  }

  lemma TwoAre(order: Order, a: Schema, x: Value, xFits: bool, xSize: nat, b: Schema, y: Value, yFits: bool, ySize: nat)
    requires IsOrder(order) && Is(order, a, x, xFits, xSize) && Is(order, b, y, yFits, ySize)
    ensures Is(order, Record([a, b]), RecordValue([x, y]), xFits && yFits, xSize + ySize)
  {
    RecordIs(order, [a, b], [x, y], [xFits, yFits], [xSize, ySize]);
    assert [xFits, yFits][1..] == [yFits] && [yFits][1..] == [] && All([yFits]) == yFits;
    assert [xSize, ySize][1..] == [ySize] && [ySize][1..] == [] && Sum([ySize]) == ySize;
  }

  lemma VariantIs(order: Order, e: MarketDataError, info: Schema, fields: seq<Schema>)
    requires IsOrder(order) && Valid(e) && info == Record(INFO_FIELDS)
    requires fields == if e.Failure? then [String, info] else [info]
    ensures Is(order, Record(fields), RecordValue(FieldsOf(e)), ErrorFits(e), MessageSize(e) + InfoSize(order, e.info))
  {
    InfoIs(order, e.info, INFO_FIELDS, info);
    var v, fits, size := InfoValue(e.info), InfoFits(e.info), InfoSize(order, e.info);
    if e.Failure? {
      TextIs(order, e.msg);
      TwoAre(order, String, VText(e.msg), TextFits(e.msg), TextSize(e.msg), info, v, fits, size);
    } else {
      OneIs(order, info, v, fits, size);
    }
  }

  lemma TaggedIs(order: Order, cases: seq<Schema>, tag: nat, v: Value, fits: bool, size: nat)
    requires IsOrder(order) && tag < |cases| < TWO_31 && Is(order, cases[tag], v, fits, size)
    ensures Is(order, Tagged(cases), VTagged(tag, v), fits, 4 + size)
  {
  }

  /** An error takes its tag, its message and its info. */
  lemma ErrorIs(order: Order, e: MarketDataError, cases: seq<Schema>)
    requires IsOrder(order) && Valid(e) && cases == ErrorCases()
    ensures Is(order, Tagged(cases), ErrorValue(e), ErrorFits(e), 4 + (MessageSize(e) + InfoSize(order, e.info)))
  {
    var tag := VariantOf(e) - 1;
    VariantIs(order, e, Record(INFO_FIELDS), ErrorFields(tag + 1));
    TaggedIs(order, cases, tag, RecordValue(FieldsOf(e)), ErrorFits(e), MessageSize(e) + InfoSize(order, e.info));
  }

  // ---------------------------------------------------------------- it comes back

  /** What `write` emits for an error. */
  ghost function ErrorBytes(order: Order, e: MarketDataError): seq<byte>
    requires IsOrder(order) && Valid(e)
  {
    ErrorIs(order, e, ErrorCases());
    Write(order, Tagged(ErrorCases()), ErrorValue(e))
  }

  /** An error comes back from its bytes if and only if its texts and headers fit. */
  lemma ErrorRoundTrip(order: Order, e: MarketDataError, rest: seq<byte>)
    requires IsOrder(order) && Valid(e)
    ensures Read(Tagged(ErrorCases()), ErrorBytes(order, e) + rest) == Parsed(ErrorValue(e), rest) <==> ErrorFits(e)
  {
    var cases := ErrorCases();
    ErrorIs(order, e, cases);
    RoundTripExactly(order, Tagged(cases), ErrorValue(e), rest);
  }

  lemma {:induction false} RecordInjective(vs: seq<Value>, ws: seq<Value>)
    requires RecordValue(vs) == RecordValue(ws)
    ensures vs == ws
    decreases |vs|
  {
    if vs != [] && ws != [] {
      RecordInjective(vs[1..], ws[1..]);
      assert vs == [vs[0]] + vs[1..] && ws == [ws[0]] + ws[1..];
    }
  }

  lemma InfosDiffer(i: ErrorInfo, j: ErrorInfo, vs: seq<Value>, ws: seq<Value>)
    requires vs == InfoFields(i) && ws == InfoFields(j) && vs == ws
    ensures i == j
  {
    assert vs[0] == ws[0] && vs[1] == ws[1] && vs[2] == ws[2] && vs[3] == ws[3];
    assert vs[4] == ws[4] && vs[5] == ws[5] && vs[6] == ws[6];
  }

  lemma ValuesDiffer(e: MarketDataError, f: MarketDataError)
    requires Valid(e) && Valid(f) && ErrorValue(e) == ErrorValue(f)
    ensures e == f
  {
    var vs, ws := FieldsOf(e), FieldsOf(f);
    RecordInjective(vs, ws);
    assert vs[|vs| - 1] == ws[|vs| - 1] && vs[0] == ws[0];
    RecordInjective(InfoFields(e.info), InfoFields(f.info));
    InfosDiffer(e.info, f.info, InfoFields(e.info), InfoFields(f.info));
  }

  /** Tag, message and info: the bytes that an error takes, in any order of its headers. */
  lemma ErrorSize(order: Order, order': Order, e: MarketDataError)
    requires IsOrder(order) && IsOrder(order') && Valid(e)
    ensures |ErrorBytes(order, e)| == 4 + (MessageSize(e) + InfoSize(order', e.info))
  {
    var cases := ErrorCases();
    ErrorIs(order', e, cases);
    SizeIsExact(order, order', Tagged(cases), ErrorValue(e));
  }

  /** Errors whose texts and headers fit have different bytes, whatever follows and however their
      headers are enumerated. */
  lemma ErrorsDiffer(order: Order, order': Order, e: MarketDataError, f: MarketDataError,
                     rest: seq<byte>, rest': seq<byte>)
    requires IsOrder(order) && IsOrder(order')
    requires Valid(e) && Valid(f) && ErrorFits(e) && ErrorFits(f)
    requires ErrorBytes(order, e) + rest == ErrorBytes(order', f) + rest'
    ensures e == f && rest == rest'
  {
    var cases := ErrorCases();
    ErrorIs(order, e, cases);
    ErrorIs(order', f, cases);
    PrefixFree(order, order', Tagged(cases), ErrorValue(e), ErrorValue(f), rest, rest');
    ValuesDiffer(e, f);
  }

  // ---------------------------------------------------------------- errors that do not fit

  lemma FirstField(order: Order, fields: seq<Schema>, vs: seq<Value>)
    requires IsOrder(order) && fields != [] && vs != [] && Typed(Record(fields), RecordValue(vs))
    ensures Typed(fields[0], vs[0]) && Typed(Record(fields[1..]), RecordValue(vs[1..]))
    ensures Write(order, Record(fields), RecordValue(vs))
         == Write(order, fields[0], vs[0]) + Write(order, Record(fields[1..]), RecordValue(vs[1..]))
  {
  }

  lemma ThreeFields(order: Order, fields: seq<Schema>, vs: seq<Value>)
    requires IsOrder(order) && |fields| == |vs| >= 3 && Typed(Record(fields), RecordValue(vs))
    ensures Typed(fields[0], vs[0]) && Typed(fields[1], vs[1]) && Typed(fields[2], vs[2])
    ensures Typed(Record(fields[3..]), RecordValue(vs[3..]))
    ensures Write(order, Record(fields), RecordValue(vs))
         == Write(order, fields[0], vs[0]) + (Write(order, fields[1], vs[1])
            + (Write(order, fields[2], vs[2]) + Write(order, Record(fields[3..]), RecordValue(vs[3..]))))
  {
    assert fields[1..][1..] == fields[2..] && vs[1..][1..] == vs[2..];
    assert fields[2..][1..] == fields[3..] && vs[2..][1..] == vs[3..];
    FirstField(order, fields, vs);
    FirstField(order, fields[1..], vs[1..]);
    FirstField(order, fields[2..], vs[2..]);
  }

  function Plain(message: Text): ErrorInfo { ErrorInfo(0, 0, message, None, None, None, map[]) }

  /** What the bytes of a plain info start with if the length of its message is cut to 0. */
  function Head(): (s: seq<byte>)
    ensures |s| == 12
  {
    WriteInt32(0) + (WriteInt32(1) + WriteInt32(0))
  }

  /** Code and kind 0, and a message whose length is cut to 0. */
  lemma HeadOf(order: Order, message: Text, fields: seq<Schema>, vs: seq<Value>)
    requires IsOrder(order) && |fields| == |vs| >= 3 && Typed(Record(fields), RecordValue(vs))
    requires fields[0] == Int32 && fields[1] == Enum(5) && fields[2] == String && ToInt32(|message|) == 0
    requires vs[0] == VInt32(0) && vs[1] == VEnum(0) && vs[2] == VText(message)
    ensures Typed(Record(fields[3..]), RecordValue(vs[3..]))
    ensures Write(order, Record(fields), RecordValue(vs))
         == Head() + (message + Write(order, Record(fields[3..]), RecordValue(vs[3..])))
  {
    ThreeFields(order, fields, vs);
    var tail := Write(order, Record(fields[3..]), RecordValue(vs[3..]));
    Regroup(WriteInt32(0), WriteInt32(1), WriteInt32(0), message, tail);
  }

  lemma PlainBytes(order: Order, a: Text, b: Text, fields: seq<Schema>, vs: seq<Value>, ws: seq<Value>)
    returns (tail: seq<byte>)
    requires IsOrder(order) && ToInt32(|a|) == 0 && ToInt32(|b|) == 0
    requires fields == INFO_FIELDS && vs == InfoFields(Plain(a)) && ws == InfoFields(Plain(b))
    requires Typed(Record(fields), RecordValue(vs)) && Typed(Record(fields), RecordValue(ws))
    ensures Write(order, Record(fields), RecordValue(vs)) == Head() + (a + tail)
    ensures Write(order, Record(fields), RecordValue(ws)) == Head() + (b + tail)
  {
    HeadOf(order, a, fields, vs);
    HeadOf(order, b, fields, ws);
    assert vs[3..] == ws[3..];
    tail := Write(order, Record(fields[3..]), RecordValue(vs[3..]));
  }

  lemma Regroup(a: seq<byte>, b: seq<byte>, c: seq<byte>, d: seq<byte>, e: seq<byte>)
    ensures a + (b + ((c + d) + e)) == (a + (b + c)) + (d + e)
  {
  }

  lemma LastField(order: Order, b: Schema, y: Value, fields: seq<Schema>, vs: seq<Value>)
    requires IsOrder(order) && Typed(b, y) && fields == [b] && vs == [y]
    ensures Typed(Record(fields), RecordValue(vs))
    ensures Write(order, Record(fields), RecordValue(vs)) == Write(order, b, y)
  {
    assert Record(fields[1..]) == End && RecordValue(vs[1..]) == VEnd;
    assert Typed(End, VEnd) && Write(order, End, VEnd) == [];
    assert Write(order, b, y) + [] == Write(order, b, y);
  }

  lemma TwoFields(order: Order, a: Schema, x: Value, b: Schema, y: Value, fields: seq<Schema>, vs: seq<Value>)
    requires IsOrder(order) && Typed(a, x) && Typed(b, y) && fields == [a, b] && vs == [x, y]
    ensures Typed(Record(fields), RecordValue(vs))
    ensures Write(order, Record(fields), RecordValue(vs)) == Write(order, a, x) + Write(order, b, y)
  {
    LastField(order, b, y, fields[1..], vs[1..]);
    assert Record(fields) == Field(a, Record(fields[1..])) && RecordValue(vs) == VField(x, RecordValue(vs[1..]));
  }

  lemma TaggedBytes(order: Order, cases: seq<Schema>, tag: nat, sc: Schema, v: Value)
    requires IsOrder(order) && tag < |cases| < TWO_31 && cases[tag] == sc && Typed(sc, v)
    ensures Typed(Tagged(cases), VTagged(tag, v))
    ensures Write(order, Tagged(cases), VTagged(tag, v)) == WriteInt32(tag + 1) + Write(order, sc, v)
  {
  }

  lemma TextBytes(order: Order, s: Text)
    requires IsOrder(order)
    ensures Typed(String, VText(s)) && Write(order, String, VText(s)) == WriteText(s)
  {
  }

  /** The bytes of a failure: tag, message, info. */
  lemma FailureBytes(order: Order, e: MarketDataError, info: Schema, v: Value, fields: seq<Schema>, cases: seq<Schema>)
    requires IsOrder(order) && Valid(e) && e.Failure? && v == InfoValue(e.info) && Typed(info, v)
    requires cases == ErrorCases() && fields == [String, info] && cases[e.variant - 1] == Record(fields)
    ensures ErrorBytes(order, e) == WriteInt32(e.variant) + (WriteText(e.msg) + Write(order, info, v))
  {
    var tag, vs := e.variant - 1, [VText(e.msg), v];
    TextBytes(order, e.msg);
    TwoFields(order, String, VText(e.msg), info, v, fields, vs);
    TaggedBytes(order, cases, tag, Record(fields), RecordValue(vs));
    assert ErrorValue(e) == VTagged(tag, RecordValue(vs));
  }

  lemma InfoTyped(order: Order, i: ErrorInfo, fields: seq<Schema>, info: Schema)
    requires IsOrder(order) && ValidInfo(i) && fields == INFO_FIELDS && info == Record(fields)
    ensures Typed(info, InfoValue(i))
  {
    InfoIs(order, i, fields, info);
  }

  lemma MessagesCollide(order: Order, filler: Text, m: Text, u: Text, e: MarketDataError, f: MarketDataError,
                        infoFields: seq<Schema>, info: Schema, fields: seq<Schema>, cases: seq<Schema>)
    requires IsOrder(order) && |filler| == TWO_32 - 12 && m == Head() + filler && u == filler + Head()
    requires e == Failure(1, m, Plain([])) && f == Failure(1, [], Plain(u))
    requires infoFields == INFO_FIELDS && info == Record(infoFields) && fields == [String, info]
    requires cases == ErrorCases() && cases[0] == Record(fields)
    ensures ErrorBytes(order, e) == ErrorBytes(order, f)
  {
    InfoTyped(order, e.info, infoFields, info);
    InfoTyped(order, f.info, infoFields, info);
    FailureBytes(order, e, info, InfoValue(e.info), fields, cases);
    FailureBytes(order, f, info, InfoValue(f.info), fields, cases);
    var tail := PlainBytes(order, [], u, infoFields, InfoFields(e.info), InfoFields(f.info));
    Shift(WriteInt32(0), Head(), filler, tail);
  }

  /** A message of 2^32 bytes may hold the start of an info: two different errors, the same bytes. */
  lemma LongErrorsCollide(order: Order, filler: Text)
    requires IsOrder(order) && |filler| == TWO_32 - 12
    ensures var e, f := Failure(1, Head() + filler, Plain([])), Failure(1, [], Plain(filler + Head()));
      Valid(e) && Valid(f) && e != f && ErrorBytes(order, e) == ErrorBytes(order, f)
  {
    var m, u := Head() + filler, filler + Head();
    var e, f := Failure(1, m, Plain([])), Failure(1, [], Plain(u));
    MessagesCollide(order, filler, m, u, e, f, INFO_FIELDS, Record(INFO_FIELDS), ErrorFields(1), ErrorCases());
    assert |e.msg| != |f.msg|;
  }

  lemma Shift(zero: seq<byte>, head: seq<byte>, filler: seq<byte>, tail: seq<byte>)
    ensures (zero + (head + filler)) + (head + ([] + tail)) == (zero + []) + (head + ((filler + head) + tail))
  {
  }
}
