/** Exactly when writing a version over one slot's capture keeps another slot's match, anywhere
    in a text. */
module SlotKept {
  import opened Wrappers
  import opened Slots
  import opened SlotReading
  import opened SlotLayout
  import opened SlotFits
  import opened SlotSites
  import opened SlotTable

  /** The match of the slot that starts at q, whether or not the search comes by it. */
  function MatchAt(slot: Slot, bol: bool, s: string, q: nat): (b: Option<Site>)
    ensures b.Some? <==> MatchesAt(slot, bol, s, q)
    ensures b.Some? ==> b.value.start == q && q < |s| && b.value.from < b.value.to <= b.value.end <= |s|
  {
    if q >= |s| then None
    else
      match MatchHead(slot, LineAt(bol, s, q), s[q..])
      case None => None
      case Some(size) => Some(SiteOf(slot, q, size))
  }

  /** The capture that lies at text[from..to] has no character of the match. */
  predicate Clears(b: Site, from: nat, to: nat) { b.end <= from || to <= b.start }

  /** Where a position is once text[from..to] is text[from..end]. */
  function Moved(q: nat, from: nat, to: nat, end: nat): nat
    requires from <= to && from <= end
  {
    if q < to then q else q - to + end
  }

  /** The match does not start inside the capture, and goes along with the text with its own capture. */
  predicate Kept(slot: Slot, bol: bool, s: string, t: string, from: nat, to: nat, end: nat, q: nat)
    requires from <= to && from <= end && MatchAt(slot, bol, s, q).Some?
  {
    && !(from <= q < to)
    && var b, b' := MatchAt(slot, bol, s, q).value, MatchAt(slot, bol, t, Moved(q, from, to, end));
       b'.Some? && t[b'.value.from..b'.value.to] == s[b.from..b.to]
  }

  // ---------------------------------------------------------------- at the head of a text

  lemma SameRun(l: string, c: string, v: string, r: string, p: nat, e: nat)
    requires p <= e <= |l|
    ensures (l + v + r)[p..e] == (l + c + r)[p..e]
  {
    assert (l + v + r)[p..e] == l[p..e] && (l + c + r)[p..e] == l[p..e];
  }

  lemma Middle(x: string, v: string, y: string)
    ensures |x + v + y| == |x| + |v| + |y| && (x + v + y)[|x|..|x| + |v|] == v
  {
  }

  lemma OtherRun(l: string, c: string, v: string, r: string, p: nat, k: nat, ec: nat, ev: nat)
    requires p <= |l| && k <= |r| && c != v && ec == |l| + |c| + k && ev == |l| + |v| + k
    ensures (l + v + r)[p..ev] != (l + c + r)[p..ec]
  {
    var x, y := l[p..], r[..k];
    assert (l + v + r)[p..ev] == x + v + y && (l + c + r)[p..ec] == x + c + y;
    Middle(x, v, y);
    Middle(x, c, y);
  }

  /** A match is kept if it ends before the capture; if it goes over the capture, it captures
      something else or is lost. */
  lemma HeadKept(slot: Slot, bol: bool, l: string, c: string, v: string, r: string, p: nat, m: nat, m': Option<nat>)
    requires Tame(slot) && Clean(c) && Versionlike(v) && c != v && p == |slot.prefix|
    requires MatchHead(slot, bol, l + c + r) == Some(m) && MatchHead(slot, bol, l + v + r) == m'
    ensures p + m + |slot.suffix| <= |l| <==> m'.Some? && (l + v + r)[p..p + m'.value] == (l + c + r)[p..p + m]
  {
    if p > |l| {
      PrefixOver(slot, bol, l, v, r);
    } else {
      var e := RunEnd(slot.captured, l, p);
      if e < |l| {
        SurvivesBefore(slot, bol, l, c, v, r, e);
        RunStops(slot, bol, l, c, v, r, e);
        SameRun(l, c, v, r, p, e);
      } else {
        var k := RunEnd(slot.captured, r, 0);
        RunGoesOver(slot, bol, l, c, v, r, k, |l| + |c| + k, |l| + |v| + k);
        OtherRun(l, c, v, r, p, k, |l| + |c| + k, |l| + |v| + k);
      }
    }
  }

  // ---------------------------------------------------------------- anywhere

  /** A match, seen from where it starts. */
  lemma SeenFrom(slot: Slot, bol: bool, s: string, q: nat, tail: string, p: nat)
    requires q < |s| && tail == s[q..] && p == |slot.prefix|
    ensures var m, b := MatchHead(slot, LineAt(bol, s, q), tail), MatchAt(slot, bol, s, q);
      && (b.Some? <==> m.Some?)
      && (b.Some? ==> b.value.end == q + (p + m.value + |slot.suffix|))
      && (b.Some? ==> s[b.value.from..b.value.to] == tail[p..p + m.value])
  {
    var b := MatchAt(slot, bol, s, q);
    if b.Some? { Sliced(s, tail, q, |s|, b.value.from - q, b.value.to - q, b.value.from, b.value.to); }
  }

  /** What follows the capture is as it was. */
  lemma SameTail(bol: bool, l: string, c: string, v: string, r: string, s: string, t: string, q: nat, q': nat, k: nat)
    requires Clean(c) && Clean(v) && s == l + c + r && t == l + v + r
    requires k <= |r| && q == |l| + |c| + k && q' == |l| + |v| + k
    ensures s[q..] == t[q'..] && LineAt(bol, s, q) == LineAt(bol, t, q')
  {
    assert s[q..] == r[k..] && t[q'..] == r[k..];
    if k == 0 {
      assert s[q - 1] == c[|c| - 1] && c[|c| - 1] in c;
      assert t[q' - 1] == v[|v| - 1] && v[|v| - 1] in v;
    } else {
      assert s[q - 1] == r[k - 1] && t[q' - 1] == r[k - 1];
    }
  }

  lemma AfterCapture(slot: Slot, bol: bool, l: string, c: string, v: string, r: string, s: string, t: string,
                     to: nat, end: nat, q: nat, q': nat, k: nat)
    requires Clean(c) && Clean(v) && s == l + c + r && t == l + v + r && to == |l| + |c| && end == |l| + |v|
    requires q == to + k && q' == end + k && MatchAt(slot, bol, s, q).Some?
    ensures Kept(slot, bol, s, t, |l|, to, end, q) && Clears(MatchAt(slot, bol, s, q).value, |l|, to)
  {
    SameTail(bol, l, c, v, r, s, t, q, q', k);
    SeenFrom(slot, bol, s, q, s[q..], |slot.prefix|);
    SeenFrom(slot, bol, t, q', s[q..], |slot.prefix|);
    assert Moved(q, |l|, to, end) == q';
  }

  lemma Apart(l: string, c: string, r: string, s: string, bol: bool, q: nat)
    requires s == l + c + r && q < |l|
    ensures s[q..] == l[q..] + c + r && LineAt(bol, s, q) == LineAt(bol, l, q)
  {
  }

  /** Seen from its start at the head h of the text before the capture. */
  lemma BeforeSeen(slot: Slot, bol: bool, h: string, c: string, v: string, r: string, s: string, t: string, q: nat,
                   b: Site, b': Option<Site>)
    requires Tame(slot) && Clean(c) && Versionlike(v) && c != v && q < |s| && q < |t|
    requires s[q..] == h + c + r && t[q..] == h + v + r && LineAt(bol, s, q) == LineAt(bol, t, q)
    requires MatchAt(slot, bol, s, q) == Some(b) && MatchAt(slot, bol, t, q) == b'
    ensures b.end <= q + |h| <==> b'.Some? && t[b'.value.from..b'.value.to] == s[b.from..b.to]
  {
    var line, p := LineAt(bol, s, q), |slot.prefix|;
    var m, m' := MatchHead(slot, line, h + c + r), MatchHead(slot, line, h + v + r);
    SeenFrom(slot, bol, s, q, h + c + r, p);
    SeenFrom(slot, bol, t, q, h + v + r, p);
    HeadKept(slot, line, h, c, v, r, p, m.value, m');
  }

  lemma KeptBeforeIt(slot: Slot, bol: bool, s: string, t: string, from: nat, to: nat, end: nat, q: nat,
                     b: Site, b': Option<Site>)
    requires q < from < to && from <= end && MatchAt(slot, bol, s, q) == Some(b) && MatchAt(slot, bol, t, q) == b'
    requires b.end <= from <==> b'.Some? && t[b'.value.from..b'.value.to] == s[b.from..b.to]
    ensures Kept(slot, bol, s, t, from, to, end, q) <==> Clears(b, from, to)
  {
  }

  lemma BeforeCapture(slot: Slot, bol: bool, l: string, c: string, v: string, r: string, s: string, t: string,
                      to: nat, end: nat, q: nat)
    requires Tame(slot) && Clean(c) && Versionlike(v) && c != v && s == l + c + r && t == l + v + r
    requires to == |l| + |c| && end == |l| + |v| && q < |l| && MatchAt(slot, bol, s, q).Some?
    ensures Kept(slot, bol, s, t, |l|, to, end, q) <==> Clears(MatchAt(slot, bol, s, q).value, |l|, to)
  {
    Apart(l, c, r, s, bol, q);
    Apart(l, v, r, t, bol, q);
    var b, b' := MatchAt(slot, bol, s, q).value, MatchAt(slot, bol, t, q);
    BeforeSeen(slot, bol, l[q..], c, v, r, s, t, q, b, b');
    KeptBeforeIt(slot, bol, s, t, |l|, to, end, q, b, b');
  }

  /** When a version is written over a capture, a match of another slot is kept, wherever it is,
      if and only if it has no character in that capture. */
  lemma KeptExactly(slot: Slot, bol: bool, l: string, c: string, v: string, r: string, s: string, t: string,
                    to: nat, end: nat, q: nat)
    requires Tame(slot) && Clean(c) && Versionlike(v) && c != v && s == l + c + r && t == l + v + r
    requires to == |l| + |c| && end == |l| + |v| && MatchAt(slot, bol, s, q).Some?
    ensures Kept(slot, bol, s, t, |l|, to, end, q) <==> Clears(MatchAt(slot, bol, s, q).value, |l|, to)
  {
    if q < |l| {
      BeforeCapture(slot, bol, l, c, v, r, s, t, to, end, q);
    } else if q >= to {
      AfterCapture(slot, bol, l, c, v, r, s, t, to, end, q, q - to + end, q - to);
    }
  }

  /** And no match appears: one that is there afterwards was there before. */
  lemma NoneAppears(slot: Slot, bol: bool, l: string, c: string, v: string, r: string, q: nat)
    requires Tame(slot) && Clean(c) && Versionlike(v) && MatchesAt(slot, bol, l + v + r, q)
    ensures q < |l| || |l| + |v| <= q
    ensures MatchesAt(slot, bol, l + c + r, if q < |l| then q else q - |v| + |c|)
  {
    var s, t := l + c + r, l + v + r;
    if q < |l| {
      if !MatchesAt(slot, bol, s, q) { NoneKeptAt(slot, bol, l, c, v, r, s, t, q); }
    } else if q < |l| + |v| {
      NoneWithin(slot, bol, l, v, r, q, q - |l|);
    } else {
      SameTail(bol, l, c, v, r, s, t, q - |v| + |c|, q, q - |l| - |v|);
    }
  }

  lemma NoneWithin(slot: Slot, bol: bool, l: string, v: string, r: string, q: nat, i: nat)
    requires Tame(slot) && Versionlike(v) && q == |l| + i && i < |v|
    ensures !MatchesAt(slot, bol, l + v + r, q)
  {
    var line := LineAt(bol, l + v + r, |l|);
    NoneInside(slot, line, v, r, i);
    assert (l + v + r)[q..] == (v + r)[i..];
    if i > 0 { assert (l + v + r)[q - 1] == (v + r)[i - 1]; }
  }

  // ---------------------------------------------------------------- captures that are no versions

  /** A quoted value after `q=`. */
  const Q := Slot(WholeText, false, "q=\"", Except('\"'), "\",", false)

  /** `q="<Version>`, a capture of the csproj slot, `</Version>",` */
  function Quoted(capture: string): string {
    Q.prefix + (CSPROJ.prefix + capture + (CSPROJ.suffix + Q.suffix))
  }

  const DIRTY := "z\"z"

  lemma StartsWith(slot: Slot, bol: bool, s: string, q: nat)
    requires slot.prefix != ""
    ensures MatchesAt(slot, bol, s, q) ==> q < |s| && s[q] == slot.prefix[0]
  {
    if MatchesAt(slot, bol, s, q) { assert s[q..][0] == s[q] && slot.prefix <= s[q..]; }
  }

  lemma DirtyText(s: string)
    requires s == Quoted(DIRTY)
    ensures |s| == 27 && s[..3] == "q=\"" && (forall k :: 1 <= k < 27 ==> s[k] != 'q')
    ensures s[13] == '\"' && s[14] == 'z' && (forall k :: 3 <= k < 13 ==> s[k] != '\"')
  {
    var a, b, c, d, e := "q=\"", "<Version>", "z\"z", "</Version>", "\",";
    assert s == a + (b + (c + (d + e)));
    assert |a| == 3 && |b| == 9 && |c| == 3 && |d| == 10 && |e| == 2;
    forall k | 0 <= k < 27
      ensures s[k] == if k < 3 then a[k] else if k < 12 then b[k - 3] else if k < 15 then c[k - 12]
                      else if k < 25 then d[k - 15] else e[k - 25]
    {
    }
  }

  /** The quoted slot finds nothing: its run ends at the quote inside the capture. */
  lemma DirtyHidesQuoted(s: string)
    requires s == Quoted(DIRTY)
    ensures Values(Q, true, s) == []
  {
    DirtyText(s);
    RunEndIs(Q.captured, s, 3, 13);
    assert !EndsAt(Q, s, 13) by { assert s[13..15][1] == s[14]; }
    assert s[0..] == s;
    forall q: nat ensures !MatchesAt(Q, true, s, q) { StartsWith(Q, true, s, q); }
    FoundIfAnywhere(Q, true, s);
  }

  lemma CleanIsOther(s: string, c: char)
    requires Plain(s) && !In(VersionChars, c)
    ensures c !in s
  {
  }

  lemma VersionShowsQuoted(v: string, t: string, capture: string)
    requires Versionlike(v) && t == Quoted(v) && capture == CSPROJ.prefix + v + CSPROJ.suffix
    ensures Values(Q, true, t) == [capture]
  {
    CleanIsOther(v, '\"');
    assert t == Filled(Q, capture, "");
    FilledMatches(Q, true, capture, "");
    NextOfFilled(Q, true, capture, "");
  }

  lemma CsprojPart(capture: string, s: string)
    requires s == Quoted(capture)
    ensures |s| >= 3 && s[..3] == Q.prefix && s[3..] == Filled(CSPROJ, capture, Q.suffix)
  {
  }

  lemma NoCsproj(v: string)
    ensures Replace(CSPROJ, false, Q.suffix, v) == Q.suffix
  {
    forall q: nat ensures !MatchesAt(CSPROJ, false, Q.suffix, q) { StartsWith(CSPROJ, false, Q.suffix, q); }
    FoundIfAnywhere(CSPROJ, false, Q.suffix);
    PutGet(CSPROJ, false, Q.suffix, v);
  }

  lemma DirtyRewritten(s: string, v: string)
    requires s == Quoted(DIRTY) && Versionlike(v)
    ensures Replace(CSPROJ, true, s, v) == Quoted(v)
  {
    CsprojPart(DIRTY, s);
    var rest := s[3..];
    forall q: nat | q < 3 ensures !MatchesAt(CSPROJ, true, s, q) {
      StartsWith(CSPROJ, true, s, q);
      assert s[q] == s[..3][q];
    }
    PassedOver(CSPROJ, true, s, 3, v);
    FilledMatches(CSPROJ, false, DIRTY, Q.suffix);
    NextOfFilled(CSPROJ, false, DIRTY, Q.suffix);
    HitGives(CSPROJ, false, rest, DIRTY, false, Q.suffix, v);
    NoCsproj(v);
  }

  /** A version may reveal a match that a capture which is no version hid, though no two matches
      overlap: the captures have to be made of version characters. */
  lemma DirtyCaptureHides(v: string)
    requires Versionlike(v)
    ensures Tame(Q) && Tame(CSPROJ)
    ensures Values(Q, true, Quoted(DIRTY)) == []
    ensures Values(Q, true, Replace(CSPROJ, true, Quoted(DIRTY), v)) == [CSPROJ.prefix + v + CSPROJ.suffix]
  {
    RowsAreTame(CSPROJ);
    DirtyHidesQuoted(Quoted(DIRTY));
    DirtyRewritten(Quoted(DIRTY), v);
    VersionShowsQuoted(v, Quoted(v), CSPROJ.prefix + v + CSPROJ.suffix);
    assert Q.prefix[2] == '\"' && !In(VersionChars, '\"');
  }
}
