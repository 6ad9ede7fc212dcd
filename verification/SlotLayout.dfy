/** Several slots in one text. A layout marks the captures of all of them as holes; rewriting a
    slot fills its holes, and every other slot still finds its own. */
module SlotLayout {
  import opened Wrappers
  import Semver
  import opened Slots
  import opened SlotReading

  /** A character that stays, or a capture of the given slot. */
  datatype Cell = Keep(c: char) | Hole(row: nat, value: string)

  type Layout = seq<Cell>

  function CellText(p: Cell): string {
    match p case Keep(c) => [c] case Hole(_, value) => value
  }

  function Text(d: Layout): string {
    if d == [] then "" else CellText(d[0]) + Text(d[1..])
  }

  /** What the row's holes hold. */
  function Own(row: nat, d: Layout): seq<string> {
    if d == [] then []
    else (if d[0].Hole? && d[0].row == row then [d[0].value] else []) + Own(row, d[1..])
  }

  function PutCell(p: Cell, row: nat, v: string): Cell {
    if p.Hole? && p.row == row then Hole(row, v) else p
  }

  /** The row's holes filled with v. */
  function Put(d: Layout, row: nat, v: string): (r: Layout)
    ensures |r| == |d|
    ensures forall i :: 0 <= i < |d| ==> r[i] == PutCell(d[i], row, v)
  {
    if d == [] then [] else [PutCell(d[0], row, v)] + Put(d[1..], row, v)
  }

  predicate Plain(s: string) { forall c <- s :: In(VersionChars, c) }

  predicate HasDigit(s: string) { exists c :: c in s && Semver.Digit(c) }

  /** A capture made of version characters. */
  predicate Clean(s: string) { s != "" && Plain(s) }

  /** A version: besides, it starts and ends with a digit. */
  predicate Versionlike(s: string) { Clean(s) && Semver.Digit(s[0]) && Semver.Digit(s[|s| - 1]) }

  /** A slot that cannot mistake a version for a part of itself. */
  predicate Tame(slot: Slot) {
    && WellFormed(slot)
    && !HasDigit(slot.prefix) && !HasDigit(slot.suffix) && !Plain(slot.prefix)
    && (slot.captured.Except? ==> !In(VersionChars, slot.captured.c))
  }

  // ---------------------------------------------------------------- one capture changes

  lemma CleanRun(slot: Slot, c: string, i: nat)
    requires Tame(slot) && Clean(c) && i < |c|
    ensures In(slot.captured, c[i]) && c[i] != '\n'
  {
    assert c[i] in c;
  }

  /** A run that reaches a capture goes over it. */
  lemma RunOver(slot: Slot, l: string, c: string, r: string, p: nat)
    requires Tame(slot) && Clean(c) && p <= |l| && RunEnd(slot.captured, l, p) == |l|
    ensures RunEnd(slot.captured, l + c + r, p) == |l| + |c| + RunEnd(slot.captured, r, 0)
  {
    var s, q, e := l + c + r, |l| + |c|, RunEnd(slot.captured, r, 0);
    RunEndMeans(slot.captured, l, p);
    RunEndMeans(slot.captured, r, 0);
    forall k | p <= k < q + e ensures In(slot.captured, s[k]) {
      if k < |l| {
        assert s[k] == l[k];
      } else if k < q {
        CleanRun(slot, c, k - |l|);
      } else {
        assert s[k] == r[k - q];
      }
    }
    RunEndIs(slot.captured, s, p, q + e);
  }

  /** A run that ends before a capture ends there whatever the capture is. */
  lemma RunBefore(slot: Slot, l: string, tail: string, p: nat)
    requires p <= |l| && RunEnd(slot.captured, l, p) < |l|
    ensures RunEnd(slot.captured, l + tail, p) == RunEnd(slot.captured, l, p)
  {
    RunEndMeans(slot.captured, l, p);
    RunEndIs(slot.captured, l + tail, p, RunEnd(slot.captured, l, p));
  }

  lemma EndsAfter(slot: Slot, a: string, r: string, e: nat, end: nat)
    requires end == |a| + e
    ensures EndsAt(slot, a + r, end) <==> EndsAt(slot, r, e)
  {
    EndsAtFrom(slot, a + r, |a|, e, end);
    assert (a + r)[|a|..] == r;
  }

  /** The suffix before a capture. */
  lemma EndsBefore(slot: Slot, l: string, c: string, r: string, e: nat)
    requires Tame(slot) && Clean(c) && e + |slot.suffix| <= |l|
    ensures EndsAt(slot, l + c + r, e) <==>
      l[e..e + |slot.suffix|] == slot.suffix
      && (slot.lineEnd ==> e + |slot.suffix| < |l| && l[e + |slot.suffix|] == '\n')
  {
    var s, after := l + c + r, e + |slot.suffix|;
    assert s[e..after] == l[e..after];
    CleanRun(slot, c, 0);
    assert s[|l|] == c[0];
  }

  lemma NoDigit(s: string, c: char)
    requires !HasDigit(s) && Semver.Digit(c)
    ensures c !in s
  {
  }

  /** A suffix has no version character that is a digit, so it cannot reach into a version. */
  lemma EndsInto(slot: Slot, l: string, v: string, r: string, e: nat)
    requires Tame(slot) && Versionlike(v) && e <= |l| < e + |slot.suffix|
    ensures !EndsAt(slot, l + v + r, e)
  {
    NoDigit(slot.suffix, v[0]);
    InSuffix(slot, l + v + r, e, |l|);
    assert (l + v + r)[|l|] == v[0];
  }

  /** Where the prefix lies before the capture, the run either ends before it or goes over it. */
  predicate Clear(slot: Slot, l: string) {
    var p := |slot.prefix|;
    && p <= |l|
    && (RunEnd(slot.captured, l, p) < |l| ==> RunEnd(slot.captured, l, p) + |slot.suffix| <= |l|)
  }

  lemma SurvivesBefore(slot: Slot, bol: bool, l: string, c: string, v: string, r: string, e: nat)
    requires Tame(slot) && Clean(c) && Versionlike(v) && |slot.prefix| <= |l|
    requires e == RunEnd(slot.captured, l, |slot.prefix|) < |l|
    ensures RunEnd(slot.captured, l + c + r, |slot.prefix|) == e == RunEnd(slot.captured, l + v + r, |slot.prefix|)
    ensures EndsAt(slot, l + v + r, e) <==> EndsAt(slot, l + c + r, e) && e + |slot.suffix| <= |l|
  {
    var p := |slot.prefix|;
    assert l + c + r == l + (c + r) && l + v + r == l + (v + r);
    RunBefore(slot, l, c + r, p);
    RunBefore(slot, l, v + r, p);
    if e + |slot.suffix| <= |l| {
      EndsBefore(slot, l, c, r, e);
      EndsBefore(slot, l, v, r, e);
    } else {
      EndsInto(slot, l, v, r, e);
    }
  }

  lemma SurvivesOver(slot: Slot, l: string, c: string, v: string, r: string, e: nat, ec: nat, ev: nat)
    requires Tame(slot) && Clean(c) && Versionlike(v) && |slot.prefix| <= |l|
    requires RunEnd(slot.captured, l, |slot.prefix|) == |l| && e == RunEnd(slot.captured, r, 0)
    requires ec == |l| + |c| + e && ev == |l| + |v| + e
    ensures RunEnd(slot.captured, l + c + r, |slot.prefix|) == ec
    ensures RunEnd(slot.captured, l + v + r, |slot.prefix|) == ev
    ensures EndsAt(slot, l + v + r, ev) <==> EndsAt(slot, l + c + r, ec)
  {
    RunOver(slot, l, c, r, |slot.prefix|);
    RunOver(slot, l, v, r, |slot.prefix|);
    EndsAfter(slot, l + c, r, e, ec);
    EndsAfter(slot, l + v, r, e, ev);
  }

  lemma PrefixKept(slot: Slot, l: string, tail: string)
    requires |slot.prefix| <= |l|
    ensures slot.prefix <= l + tail <==> slot.prefix <= l
  {
    assert (l + tail)[..|slot.prefix|] == l[..|slot.prefix|];
  }

  lemma PrefixHas(slot: Slot, t: string, f: nat)
    ensures slot.prefix <= t && f < |slot.prefix| ==> t[f] in slot.prefix
  {
    if slot.prefix <= t && f < |slot.prefix| { assert t[f] == slot.prefix[f]; }
  }

  /** A match at the head, by the end of its run. */
  lemma SameMatch(slot: Slot, bol: bool, s: string, t: string, e: nat, e': nat)
    requires |slot.prefix| <= |s| && |slot.prefix| <= |t| && (slot.prefix <= s <==> slot.prefix <= t)
    requires RunEnd(slot.captured, s, |slot.prefix|) == e && RunEnd(slot.captured, t, |slot.prefix|) == e'
    requires e > |slot.prefix| <==> e' > |slot.prefix|
    ensures EndsAt(slot, s, e) && EndsAt(slot, t, e') 
      ==> (MatchHead(slot, bol, s).Some? <==> MatchHead(slot, bol, t).Some?)
    ensures !EndsAt(slot, s, e) ==> MatchHead(slot, bol, s).None?
    ensures !EndsAt(slot, t, e') ==> MatchHead(slot, bol, t).None?
    ensures MatchHead(slot, bol, s).Some? ==> MatchHead(slot, bol, s).value == e - |slot.prefix|
    ensures MatchHead(slot, bol, t).Some? ==> MatchHead(slot, bol, t).value == e' - |slot.prefix|
  {
  }

  lemma PrefixOver(slot: Slot, bol: bool, l: string, v: string, r: string)
    requires Tame(slot) && Versionlike(v) && |slot.prefix| > |l|
    ensures MatchHead(slot, bol, l + v + r).None?
  {
    var t := l + v + r;
    NoDigit(slot.prefix, v[0]);
    PrefixHas(slot, t, |l|);
    assert t[|l|] == v[0];
  }

  lemma PrefixesKept(slot: Slot, l: string, c: string, v: string, r: string)
    requires |slot.prefix| <= |l|
    ensures slot.prefix <= l + c + r <==> slot.prefix <= l + v + r
  {
    assert l + c + r == l + (c + r) && l + v + r == l + (v + r);
    PrefixKept(slot, l, c + r);
    PrefixKept(slot, l, v + r);
  }

  lemma RunStops(slot: Slot, bol: bool, l: string, c: string, v: string, r: string, e: nat)
    requires Tame(slot) && Clean(c) && Versionlike(v) && |slot.prefix| <= |l|
    requires e == RunEnd(slot.captured, l, |slot.prefix|) < |l|
    ensures MatchHead(slot, bol, l + v + r)
         == if e + |slot.suffix| <= |l| then MatchHead(slot, bol, l + c + r) else None
  {
    PrefixesKept(slot, l, c, v, r);
    SurvivesBefore(slot, bol, l, c, v, r, e);
    SameMatch(slot, bol, l + c + r, l + v + r, e, e);
  }

  lemma RunGoesOver(slot: Slot, bol: bool, l: string, c: string, v: string, r: string, e: nat, ec: nat, ev: nat)
    requires Tame(slot) && Clean(c) && Versionlike(v) && |slot.prefix| <= |l|
    requires RunEnd(slot.captured, l, |slot.prefix|) == |l| && e == RunEnd(slot.captured, r, 0)
    requires ec == |l| + |c| + e && ev == |l| + |v| + e
    ensures MatchHead(slot, bol, l + v + r).Some? <==> MatchHead(slot, bol, l + c + r).Some?
    ensures MatchHead(slot, bol, l + c + r).Some? ==> MatchHead(slot, bol, l + c + r).value == ec - |slot.prefix|
    ensures MatchHead(slot, bol, l + v + r).Some? ==> MatchHead(slot, bol, l + v + r).value == ev - |slot.prefix|
  {
    PrefixesKept(slot, l, c, v, r);
    SurvivesOver(slot, l, c, v, r, e, ec, ev);
    SameMatch(slot, bol, l + c + r, l + v + r, ec, ev);
  }

  /** With a version for a capture, a match at the head stays one exactly if neither its prefix
      nor its suffix lies over the capture; no new one appears. */
  lemma SurvivesExactly(slot: Slot, bol: bool, l: string, c: string, v: string, r: string)
    requires Tame(slot) && Clean(c) && Versionlike(v)
    ensures var m, m' := MatchHead(slot, bol, l + c + r), MatchHead(slot, bol, l + v + r);
      && (m'.Some? <==> m.Some? && Clear(slot, l))
      && (m'.Some? ==>
           m'.value == if RunEnd(slot.captured, l, |slot.prefix|) < |l| then m.value else m.value + |v| - |c|)
  {
    if |slot.prefix| > |l| {
      PrefixOver(slot, bol, l, v, r);
    } else {
      var e := RunEnd(slot.captured, l, |slot.prefix|);
      if e < |l| {
        RunStops(slot, bol, l, c, v, r, e);
      } else {
        var end := RunEnd(slot.captured, r, 0);
        RunGoesOver(slot, bol, l, c, v, r, end, |l| + |c| + end, |l| + |v| + end);
      }
    }
  }

  /** A match whose run ends before the capture is kept as it is. */
  lemma KeptBefore(slot: Slot, bol: bool, l: string, c: string, v: string, r: string, s: string, t: string)
    requires Tame(slot) && Clean(c) && Versionlike(v) && s == l + c + r && t == l + v + r
    requires Clear(slot, l) && RunEnd(slot.captured, l, |slot.prefix|) < |l|
    ensures MatchHead(slot, bol, t) == MatchHead(slot, bol, s)
  {
    SurvivesExactly(slot, bol, l, c, v, r);
  }

  /** A match whose capture it is captures the version. */
  lemma KeptOver(slot: Slot, bol: bool, l: string, c: string, v: string, r: string, s: string, t: string)
    requires Tame(slot) && Clean(c) && Versionlike(v) && s == l + c + r && t == l + v + r
    requires Clear(slot, l) && RunEnd(slot.captured, l, |slot.prefix|) == |l|
    requires MatchHead(slot, bol, s) == Some(|c|)
    ensures MatchHead(slot, bol, t) == Some(|v|)
  {
    SurvivesExactly(slot, bol, l, c, v, r);
  }

  lemma NoneKept(slot: Slot, bol: bool, l: string, c: string, v: string, r: string, s: string, t: string)
    requires Tame(slot) && Clean(c) && Versionlike(v) && s == l + c + r && t == l + v + r
    requires MatchHead(slot, bol, s) == None
    ensures MatchHead(slot, bol, t) == None
  {
    SurvivesExactly(slot, bol, l, c, v, r);
  }

  lemma NoneKeptAt(slot: Slot, bol: bool, l: string, c: string, v: string, r: string, s: string, t: string, i: nat)
    requires Tame(slot) && Clean(c) && Versionlike(v) && s == l + c + r && t == l + v + r
    requires i < |l| && !MatchesAt(slot, bol, s, i)
    ensures !MatchesAt(slot, bol, t, i)
  {
    assert s[i..] == l[i..] + c + r && t[i..] == l[i..] + v + r;
    assert i > 0 ==> s[i - 1] == l[i - 1] == t[i - 1];
    NoneKept(slot, LineAt(bol, l, i), l[i..], c, v, r, s[i..], t[i..]);
  }

  lemma StandsHas(slot: Slot, bol: bool, s: string, i: nat, f: nat)
    ensures Stands(slot, bol, s, i) && i <= f < i + |slot.prefix| ==> s[f] in slot.prefix
  {
    if Stands(slot, bol, s, i) && i <= f < i + |slot.prefix| { assert s[f] == s[i..i + |slot.prefix|][f - i]; }
  }

  lemma StandsInside(slot: Slot, bol: bool, v: string, r: string, i: nat)
    ensures Stands(slot, bol, v + r, i) && i + |slot.prefix| <= |v| && Plain(v) ==> Plain(slot.prefix)
  {
    if Stands(slot, bol, v + r, i) && i + |slot.prefix| <= |v| && Plain(v) {
      forall k | 0 <= k < |slot.prefix| ensures In(VersionChars, slot.prefix[k]) {
        assert slot.prefix[k] == (v + r)[i..i + |slot.prefix|][k] == v[i + k];
      }
    }
  }

  /** No match starts inside a version. */
  lemma NoneInside(slot: Slot, bol: bool, v: string, r: string, i: nat)
    requires Tame(slot) && Versionlike(v) && i < |v|
    ensures !MatchesAt(slot, bol, v + r, i)
  {
    var last := |v| - 1;
    MatchesAtMeans(slot, bol, v + r, i);
    StandsInside(slot, bol, v, r, i);
    NoDigit(slot.prefix, v[last]);
    StandsHas(slot, bol, v + r, i, last);
    assert (v + r)[last] == v[last];
  }
}
