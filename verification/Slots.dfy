/** Version slots of `scripts/release-versions.py`: `slot_values` reads the versions a text
    carries, `slot_replace` rewrites them.

    A slot's regular expression is a literal prefix, a capture of one or more characters
    of a class, and a literal suffix, either end of which may be tied to a line end. */
module Slots {
  import opened Wrappers

  datatype Class = Except(c: char) | VersionChars

  predicate In(cls: Class, c: char) {
    match cls
    case Except(d) => c != d
    case VersionChars => '0' <= c <= '9' || 'A' <= c <= 'Z' || 'a' <= c <= 'z' || c == '.' || c == '-'
  }

  /** Where a slot looks: the whole text, its first line, or the body of one TOML table. */
  datatype Scope = WholeText | FirstLine | Table(name: string)

  datatype Slot = Slot(scope: Scope, lineStart: bool, prefix: string, captured: Class, suffix: string, lineEnd: bool)

  /** What `\s` stands for in Python: the characters `str.isspace` accepts. */
  predicate Space(c: char) {
    var n := c as int;
    || 9 <= n <= 13 || 28 <= n <= 32 || n == 0x85 || n == 0xA0 || n == 0x1680
    || 0x2000 <= n <= 0x200A || n == 0x2028 || n == 0x2029 || n == 0x202F || n == 0x205F || n == 0x3000
  }

  /** The shape of the slot table: the capture ends where its class does. */
  predicate WellFormed(slot: Slot) {
    && slot.prefix != ""
    && (slot.suffix != "" ==> !In(slot.captured, slot.suffix[0]))
    && (slot.suffix == "" ==> !slot.lineEnd && !In(slot.captured, '\n'))
    && (slot.scope.Table? ==> !Space(slot.prefix[|slot.prefix| - 1]))
  }

  /** A value that may be written: the class admits it, it does not start with a line end, and
      where the region depends on lines it has none. */
  predicate Writable(slot: Slot, value: string) {
    && value != "" && value[0] != '\n' && (forall c <- value :: In(slot.captured, c))
    && (slot.scope.WholeText? || '\n' !in value)
  }

  // ---------------------------------------------------------------- matching

  /** Where the run of the class's characters that starts at i ends. */
  function RunEnd(cls: Class, s: string, i: nat): (e: nat)
    requires i <= |s|
    ensures i <= e <= |s|
    decreases |s| - i
  {
    if i < |s| && In(cls, s[i]) then RunEnd(cls, s, i + 1) else i
  }

  /** The suffix is at e, and the line ends after it if it has to. */
  predicate EndsAt(slot: Slot, s: string, e: nat) {
    var after := e + |slot.suffix|;
    && after <= |s|
    && s[e..after] == slot.suffix
    && (slot.lineEnd ==> after == |s| || s[after] == '\n')
  }

  /** The length of the capture, if the slot matches at the head of s; `bol` says whether
      s begins a line. */
  function MatchHead(slot: Slot, bol: bool, s: string): (c: Option<nat>)
    ensures c.Some? ==> 0 < c.value && |slot.prefix| + c.value + |slot.suffix| <= |s|
  {
    if !(slot.lineStart ==> bol) || !(slot.prefix <= s) then None
    else
      var e := RunEnd(slot.captured, s, |slot.prefix|);
      if e > |slot.prefix| && EndsAt(slot, s, e) then Some(e - |slot.prefix|) else None
  }

  predicate EndsLine(s: string) { s != "" && s[|s| - 1] == '\n' }

  /** One step of `finditer`: over a character that no match starts at, or over a match.
      `line` says whether the rest begins a line. */
  datatype Piece = Skip(c: char, line: bool, rest: string) | Hit(capture: string, line: bool, rest: string)

  function Next(slot: Slot, bol: bool, s: string): (piece: Piece)
    requires s != ""
    ensures |piece.rest| < |s|
  {
    match MatchHead(slot, bol, s)
    case None => Skip(s[0], s[0] == '\n', s[1..])
    case Some(c) =>
      var p := |slot.prefix|;
      var end := p + c + |slot.suffix|;
      Hit(s[p..p + c], EndsLine(s[..end]), s[end..])
  }

  /** `slot_values` on a region: the captures of `finditer`. */
  function Values(slot: Slot, bol: bool, s: string): seq<string>
    decreases |s|
  {
    if s == "" then []
    else
      match Next(slot, bol, s)
      case Skip(_, line, rest) => Values(slot, line, rest)
      case Hit(capture, line, rest) => [capture] + Values(slot, line, rest)
  }

  /** Whether the slot matches at i, wherever the search starts. */
  predicate MatchesAt(slot: Slot, bol: bool, s: string, i: nat) {
    i < |s| && MatchHead(slot, if i == 0 then bol else s[i - 1] == '\n', s[i..]).Some?
  }

  lemma MatchesLater(slot: Slot, bol: bool, s: string, i: nat, j: nat)
    requires s != "" && j == i + 1
    ensures MatchesAt(slot, bol, s, j) <==> MatchesAt(slot, s[0] == '\n', s[1..], i)
  {
    if j < |s| { assert s[1..][i..] == s[j..]; }
  }

  /** No value is reported exactly if the slot matches nowhere. */
  lemma {:induction false} FoundIfAnywhere(slot: Slot, bol: bool, s: string)
    ensures Values(slot, bol, s) == [] <==> forall i: nat :: !MatchesAt(slot, bol, s, i)
    decreases |s|
  {
    if s != "" {
      assert s[0..] == s;
      if Next(slot, bol, s).Hit? {
        assert MatchesAt(slot, bol, s, 0);
      } else {
        var line, rest := s[0] == '\n', s[1..];
        FoundIfAnywhere(slot, line, rest);
        forall i: nat ensures MatchesAt(slot, bol, s, i) ==> i > 0 && MatchesAt(slot, line, rest, i - 1) {
          if i > 0 { MatchesLater(slot, bol, s, i - 1, i); }
        }
        forall i: nat ensures MatchesAt(slot, line, rest, i) ==> MatchesAt(slot, bol, s, i + 1) {
          MatchesLater(slot, bol, s, i, i + 1);
        }
      }
    }
  }

  /** A match with another value in place of its capture. */
  function Filled(slot: Slot, value: string, after: string): string {
    slot.prefix + value + (slot.suffix + after)
  }

  /** `slot_replace` on a region. */
  function Replace(slot: Slot, bol: bool, s: string, value: string): string
    decreases |s|
  {
    if s == "" then ""
    else
      match Next(slot, bol, s)
      case Skip(c, line, rest) => [c] + Replace(slot, line, rest, value)
      case Hit(_, line, rest) => Filled(slot, value, Replace(slot, line, rest, value))
  }

  lemma InParts(s: string, p: nat, e: nat, end: nat)
    requires p <= e <= end <= |s|
    ensures s == s[..p] + s[p..e] + (s[e..end] + s[end..])
  {
  }

  lemma NextSplits(slot: Slot, bol: bool, s: string)
    requires s != ""
    ensures match Next(slot, bol, s)
            case Skip(c, _, rest) => s == [c] + rest
            case Hit(capture, _, rest) => capture != "" && s == Filled(slot, capture, rest)
  {
    var m := MatchHead(slot, bol, s);
    NextIs(slot, bol, s, m);
    if m.Some? {
      var e := |slot.prefix| + m.value;
      var end := e + |slot.suffix|;
      HitSplits(slot, bol, s, m.value, e, end);
      assert Next(slot, bol, s) == Hit(s[|slot.prefix|..e], EndsLine(s[..end]), s[end..]);
    } else {
      assert s == [s[0]] + s[1..];
    }
  }

  lemma NextIs(slot: Slot, bol: bool, s: string, m: Option<nat>)
    requires s != "" && m == MatchHead(slot, bol, s)
    ensures m.None? ==> Next(slot, bol, s) == Skip(s[0], s[0] == '\n', s[1..])
    ensures m.Some? ==>
      var e := |slot.prefix| + m.value;
      Next(slot, bol, s) == Hit(s[|slot.prefix|..e], EndsLine(s[..e + |slot.suffix|]), s[e + |slot.suffix|..])
  {
  }

  lemma HitSplits(slot: Slot, bol: bool, s: string, m: nat, e: nat, end: nat)
    requires MatchHead(slot, bol, s) == Some(m) && e == |slot.prefix| + m && end == e + |slot.suffix|
    ensures s[|slot.prefix|..e] != "" && s == Filled(slot, s[|slot.prefix|..e], s[end..])
  {
    assert s[e..end] == slot.suffix;
    InParts(s, |slot.prefix|, e, end);
  }

  // ---------------------------------------------------------------- only captures change

  /** The text between captures: one more than there are captures. */
  function Gaps(slot: Slot, bol: bool, s: string): (g: seq<string>)
    ensures |g| == |Values(slot, bol, s)| + 1
    decreases |s|
  {
    if s == "" then [""]
    else
      match Next(slot, bol, s)
      case Skip(c, line, rest) =>
        var g := Gaps(slot, line, rest);
        [[c] + g[0]] + g[1..]
      case Hit(_, line, rest) =>
        var g := Gaps(slot, line, rest);
        [slot.prefix, slot.suffix + g[0]] + g[1..]
  }

  /** gaps[0] values[0] gaps[1] values[1] ... */
  function Interleave(gaps: seq<string>, values: seq<string>): string
    requires |gaps| == |values| + 1
  {
    if values == [] then gaps[0] else gaps[0] + values[0] + Interleave(gaps[1..], values[1..])
  }

  /** The value, as many times as there were values. */
  function Same(values: seq<string>, value: string): (r: seq<string>)
    ensures |r| == |values|
  {
    if values == [] then [] else [value] + Same(values[1..], value)
  }

  lemma SameMeans(values: seq<string>, value: string)
    ensures forall v <- Same(values, value) :: v == value
  {
  }

  lemma InterleaveFirst(a: string, gaps: seq<string>, values: seq<string>)
    requires |gaps| == |values| + 1
    ensures Interleave([a + gaps[0]] + gaps[1..], values) == a + Interleave(gaps, values)
  {
    if values != [] {
      assert ([a + gaps[0]] + gaps[1..])[1..] == gaps[1..];
      assert a + gaps[0] + values[0] + Interleave(gaps[1..], values[1..])
          == a + (gaps[0] + values[0] + Interleave(gaps[1..], values[1..]));
    }
  }

  lemma InterleaveMatch(a: string, b: string, v: string, gaps: seq<string>, values: seq<string>)
    requires |gaps| == |values| + 1
    ensures Interleave([a, b + gaps[0]] + gaps[1..], [v] + values) == a + v + (b + Interleave(gaps, values))
  {
    InterleaveFirst(b, gaps, values);
    assert ([a, b + gaps[0]] + gaps[1..])[1..] == [b + gaps[0]] + gaps[1..];
    assert ([v] + values)[1..] == values;
  }

  /** A text is its gaps and its captures in turn. */
  lemma {:induction false} GapsAndValues(slot: Slot, bol: bool, s: string)
    ensures Interleave(Gaps(slot, bol, s), Values(slot, bol, s)) == s
    decreases |s|
  {
    if s != "" {
      var piece := Next(slot, bol, s);
      var gaps, values := Gaps(slot, piece.line, piece.rest), Values(slot, piece.line, piece.rest);
      NextSplits(slot, bol, s);
      GapsAndValues(slot, piece.line, piece.rest);
      if piece.Skip? {
        InterleaveFirst([piece.c], gaps, values);
      } else {
        InterleaveMatch(slot.prefix, slot.suffix, piece.capture, gaps, values);
      }
    }
  }

  /** Replacing keeps the text between captures and puts the value in place of each capture. */
  lemma {:induction false} ReplaceKeepsGaps(slot: Slot, bol: bool, s: string, value: string)
    ensures Interleave(Gaps(slot, bol, s), Same(Values(slot, bol, s), value)) == Replace(slot, bol, s, value)
    decreases |s|
  {
    if s != "" {
      var piece := Next(slot, bol, s);
      var gaps, values := Gaps(slot, piece.line, piece.rest), Values(slot, piece.line, piece.rest);
      ReplaceKeepsGaps(slot, piece.line, piece.rest, value);
      if piece.Skip? {
        InterleaveFirst([piece.c], gaps, Same(values, value));
      } else {
        InterleaveMatch(slot.prefix, slot.suffix, value, gaps, Same(values, value));
        SameFirst(piece.capture, values, value);
      }
    }
  }

  lemma SameFirst(v: string, values: seq<string>, value: string)
    ensures Same([v] + values, value) == [value] + Same(values, value)
  {
    assert ([v] + values)[1..] == values;
  }

  /** Writing back the value every capture already has changes nothing. */
  lemma PutGet(slot: Slot, bol: bool, s: string, value: string)
    requires forall v <- Values(slot, bol, s) :: v == value
    ensures Replace(slot, bol, s, value) == s
  {
    GapsAndValues(slot, bol, s);
    ReplaceKeepsGaps(slot, bol, s, value);
    AllEqual(Values(slot, bol, s), value);
  }

  lemma {:induction false} AllEqual(values: seq<string>, value: string)
    requires forall v <- values :: v == value
    ensures Same(values, value) == values
    decreases |values|
  {
    if values != [] {
      var rest := values[1..];
      assert values == [values[0]] + rest;
      assert forall v <- rest :: v in values;
      AllEqual(rest, value);
      assert values[0] in values;
    }
  }

  // ---------------------------------------------------------------- what matches

  lemma {:induction false} ReplaceHead(slot: Slot, bol: bool, s: string, value: string)
    requires WellFormed(slot)
    ensures s == "" <==> Replace(slot, bol, s, value) == ""
    ensures s != "" ==> Replace(slot, bol, s, value)[0] == s[0]
  {
  }

  lemma {:induction false} RunEndIs(cls: Class, s: string, i: nat, e: nat)
    requires i <= e <= |s| && (forall k :: i <= k < e ==> In(cls, s[k])) && (e < |s| ==> !In(cls, s[e]))
    ensures RunEnd(cls, s, i) == e
    decreases e - i
  {
    if i < e { RunEndIs(cls, s, i + 1, e); }
  }

  lemma {:induction false} RunEndMeans(cls: Class, s: string, i: nat)
    requires i <= |s|
    ensures var e := RunEnd(cls, s, i); (forall k :: i <= k < e ==> In(cls, s[k])) && (e < |s| ==> !In(cls, s[e]))
    decreases |s| - i
  {
    if i < |s| && In(cls, s[i]) { RunEndMeans(cls, s, i + 1); }
  }

  /** What the slot's expression asks of a capture and of the text after the match. */
  predicate Ends(slot: Slot, bol: bool, value: string, after: string) {
    && (slot.lineStart ==> bol)
    && value != "" && (forall c <- value :: In(slot.captured, c))
    && (slot.suffix == "" ==> after == "" || !In(slot.captured, after[0]))
    && (slot.lineEnd ==> after == "" || after[0] == '\n')
  }

  lemma FilledParts(slot: Slot, value: string, after: string, t: string, e: nat, end: nat)
    requires t == Filled(slot, value, after) && e == |slot.prefix| + |value| && end == e + |slot.suffix|
    ensures end <= |t| && t[..|slot.prefix|] == slot.prefix && t[|slot.prefix|..e] == value
    ensures t[e..end] == slot.suffix && t[end..] == after
  {
  }

  /** A match filled with another value matches, if what follows still ends it. */
  lemma FilledMatches(slot: Slot, bol: bool, value: string, after: string)
    requires WellFormed(slot) && Ends(slot, bol, value, after)
    ensures MatchHead(slot, bol, Filled(slot, value, after)) == Some(|value|)
  {
    var t, p := Filled(slot, value, after), |slot.prefix|;
    var e := p + |value|;
    var end := e + |slot.suffix|;
    FilledParts(slot, value, after, t, e, end);
    forall k | p <= k < e ensures In(slot.captured, t[k]) { assert t[k] == t[p..e][k - p] && value[k - p] in value; }
    assert slot.suffix != "" ==> t[e] == t[e..end][0];
    assert end < |t| ==> t[end] == after[0];
    RunEndIs(slot.captured, t, p, e);
  }

  lemma NextOfFilled(slot: Slot, bol: bool, value: string, after: string)
    requires MatchHead(slot, bol, Filled(slot, value, after)) == Some(|value|)
    ensures var next := Next(slot, bol, Filled(slot, value, after));
      next.Hit? && next.capture == value && next.rest == after
        && next.line == EndsLine(slot.prefix + value + slot.suffix)
  {
    var t, p, n := Filled(slot, value, after), |slot.prefix|, |slot.suffix|;
    assert t == slot.prefix + value + slot.suffix + after;
    assert t[..p + |value| + n] == slot.prefix + value + slot.suffix;
    assert t[p..p + |value|] == value;
    assert t[p + |value| + n..] == after;
  }

  /** What the slot asks of the text after a match. */
  lemma HitMeans(slot: Slot, bol: bool, s: string)
    requires WellFormed(slot) && s != "" && Next(slot, bol, s).Hit?
    ensures var next := Next(slot, bol, s);
      && (slot.lineStart ==> bol)
      && (slot.suffix == "" ==> (next.rest == "" || !In(slot.captured, next.rest[0])) && next.line == false)
      && (slot.suffix != "" ==> next.line == EndsLine(slot.suffix))
      && (slot.lineEnd ==> next.rest == "" || next.rest[0] == '\n')
  {
    var p, n := |slot.prefix|, |slot.suffix|;
    var c := MatchHead(slot, bol, s).value;
    RunEndMeans(slot.captured, s, p);
    assert s[p + c..p + c + n] == slot.suffix;
    assert s[..p + c + n][p + c + n - 1] == s[p + c + n - 1];
  }

  /** The matcher finds exactly the texts of the slot's form: prefix, capture, suffix, and a
      rest that ends the match. */
  lemma MatchMeans(slot: Slot, bol: bool, value: string, after: string)
    requires WellFormed(slot)
    ensures MatchHead(slot, bol, Filled(slot, value, after)) == Some(|value|) <==> Ends(slot, bol, value, after)
  {
    if MatchHead(slot, bol, Filled(slot, value, after)) == Some(|value|) {
      MatchedEnds(slot, bol, value, after, Filled(slot, value, after), |slot.prefix| + |value|);
    }
    if Ends(slot, bol, value, after) { FilledMatches(slot, bol, value, after); }
  }

  lemma MatchedEnds(slot: Slot, bol: bool, value: string, after: string, s: string, e: nat)
    requires WellFormed(slot) && s == Filled(slot, value, after) && e == |slot.prefix| + |value|
    requires MatchHead(slot, bol, s) == Some(|value|)
    ensures Ends(slot, bol, value, after)
  {
    NextOfFilled(slot, bol, value, after);
    HitMeans(slot, bol, s);
    FilledParts(slot, value, after, s, e, e + |slot.suffix|);
    PartInClass(slot.captured, s, |slot.prefix|, e);
  }

  /** What the run goes over is of the class. */
  lemma PartInClass(cls: Class, s: string, p: nat, e: nat)
    requires p <= e <= |s| && e <= RunEnd(cls, s, p)
    ensures forall c <- s[p..e] :: In(cls, c)
  {
    RunEndMeans(cls, s, p);
    var part := s[p..e];
    forall k | 0 <= k < |part| ensures In(cls, part[k]) {
      var i := p + k;
      assert part[k] == s[i];
    }
  }

  // ---------------------------------------------------------------- parts of texts

  /** A part of a part, by positions of the whole. */
  lemma Sliced(text: string, s: string, at: nat, end: nat, i: nat, j: nat, a: nat, b: nat)
    requires at <= end <= |text| && i <= j <= end - at && s == text[at..end] && a == at + i && b == at + j
    ensures s[i..j] == text[a..b]
  {
    forall k | 0 <= k < j - i ensures s[i..j][k] == text[a..b][k] {
      var m, n := i + k, a + k;
      assert s[m] == text[n];
    }
  }

  /** A suffix that reaches over a position has its character. */
  lemma InSuffix(slot: Slot, s: string, r: nat, f: nat)
    ensures EndsAt(slot, s, r) && r <= f < r + |slot.suffix| ==> f < |s| && s[f] in slot.suffix
  {
    if EndsAt(slot, s, r) && r <= f < r + |slot.suffix| { assert s[f] == s[r..r + |slot.suffix|][f - r]; }
  }
}
