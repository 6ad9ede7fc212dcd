/** Reading a slot after a rewrite. The new value is found at the places of the old ones, unless
    it completes the suffix of an earlier prefix; exactly when that can happen is a property of
    the slot and the value. */
module SlotReading {
  import opened Wrappers
  import opened Slots

  // ---------------------------------------------------------------- the first match

  /** The first match of s is at j; up to its capture t is s, and there the new value stands. */
  ghost predicate FirstAt(slot: Slot, bol: bool, s: string, t: string, j: nat, value: string) {
    var f := j + |slot.prefix|;
    && MatchesAt(slot, bol, s, j)
    && (forall q: nat :: q < j ==> !MatchesAt(slot, bol, s, q))
    && f <= |s| && f <= |t| && t[..f] == s[..f] && value + slot.suffix <= t[f..]
  }

  lemma FirstHere(slot: Slot, bol: bool, s: string, value: string)
    requires s != "" && Next(slot, bol, s).Hit?
    ensures FirstAt(slot, bol, s, Replace(slot, bol, s, value), 0, value)
  {
    var p, t := |slot.prefix|, Replace(slot, bol, s, value);
    var after := t[p + |value| + |slot.suffix|..];
    assert s[0..] == s;
    assert t[..p] == slot.prefix == s[..p];
    assert t[p..] == value + slot.suffix + after;
  }

  lemma FirstLater(slot: Slot, bol: bool, c: char, s: string, t: string, i: nat, value: string, j: nat)
    requires MatchHead(slot, bol, [c] + s).None? && FirstAt(slot, c == '\n', s, t, i, value) && j == i + 1
    ensures FirstAt(slot, bol, [c] + s, [c] + t, j, value)
  {
    var s', t', f := [c] + s, [c] + t, i + |slot.prefix|;
    assert s'[1..] == s && s'[0..] == s';
    MatchesLater(slot, bol, s', i, j);
    forall q: nat | q < j ensures !MatchesAt(slot, bol, s', q) {
      if q > 0 { MatchesLater(slot, bol, s', q - 1, q); }
    }
    assert t'[..f + 1] == [c] + t[..f] && s'[..f + 1] == [c] + s[..f];
    assert t'[f + 1..] == t[f..];
  }

  /** Rewriting leaves a text alone up to its first capture, if it has one. */
  lemma {:induction false} FirstMatch(slot: Slot, bol: bool, s: string, value: string) returns (j: Option<nat>)
    ensures j.None? ==> Replace(slot, bol, s, value) == s
    ensures j.Some? ==> FirstAt(slot, bol, s, Replace(slot, bol, s, value), j.value, value)
    decreases |s|
  {
    if s == "" {
      return None;
    }
    NextSplits(slot, bol, s);
    var next := Next(slot, bol, s);
    if next.Hit? {
      FirstHere(slot, bol, s, value);
      return Some(0);
    }
    var later := FirstMatch(slot, next.line, next.rest, value);
    if later.None? {
      return None;
    }
    var i := later.value + 1;
    FirstLater(slot, bol, next.c, next.rest, Replace(slot, next.line, next.rest, value), later.value, value, i);
    return Some(i);
  }

  // ---------------------------------------------------------------- what a value can complete

  /** The text ends with a prefix that may start a match. */
  predicate Opens(slot: Slot, u: string) {
    var j := |u| - |slot.prefix|;
    j > 0 && u[j..] == slot.prefix && (slot.lineStart ==> u[j - 1] == '\n')
  }

  /** A prefix, a run of the class, and the suffix as far as k. */
  function Opening(slot: Slot, x: string, k: nat): string
    requires k <= |slot.suffix|
  {
    slot.prefix + x + slot.suffix[..k]
  }

  predicate InClass(slot: Slot, x: string) { forall c <- x :: In(slot.captured, c) }

  /** Where such a text breaks off a prefix ends, and the first capture of the text may start. */
  ghost predicate Confusing(slot: Slot, x: string, k: nat) {
    && 0 < k < |slot.suffix| && x != "" && InClass(slot, x)
    && Opens(slot, Opening(slot, x, k))
    && (forall i: nat :: 0 < i < k && Opens(slot, Opening(slot, x, i)) ==> !InClass(slot, slot.suffix[i..k]))
  }

  /** Written there, the value goes on with the suffix to its end. */
  predicate Completes(slot: Slot, value: string, k: nat)
    requires k <= |slot.suffix|
  {
    var written := value + slot.suffix;
    && slot.suffix[k..] <= written
    && (slot.lineEnd ==> |slot.suffix| - k < |written| && written[|slot.suffix| - k] == '\n')
  }

  /** Some prefix and run, no longer than it takes to hold another prefix, are confusing, and
      the value completes the suffix. */
  ghost predicate Breakable(slot: Slot, value: string) {
    exists x: string, k: nat ::
      k <= |slot.suffix| && Completes(slot, value, k) && |x| <= |slot.prefix| + 1 && Confusing(slot, x, k)
  }

  // ---------------------------------------------------------------- matches by position

  predicate LineAt(bol: bool, s: string, q: nat)
    requires q <= |s|
  {
    if q == 0 then bol else s[q - 1] == '\n'
  }

  /** MatchesAt, in positions of s. */
  predicate Stands(slot: Slot, bol: bool, s: string, q: nat) {
    var p := q + |slot.prefix|;
    && q < |s| && (slot.lineStart ==> LineAt(bol, s, q))
    && p <= |s| && s[q..p] == slot.prefix
    && RunEnd(slot.captured, s, p) > p && EndsAt(slot, s, RunEnd(slot.captured, s, p))
  }

  lemma RunEndFrom(cls: Class, s: string, q: nat, i: nat, p: nat)
    requires p == q + i <= |s|
    ensures RunEnd(cls, s, p) == q + RunEnd(cls, s[q..], i)
  {
    var r := s[q..];
    var e := RunEnd(cls, r, i);
    var end := q + e;
    RunEndMeans(cls, r, i);
    forall k | p <= k < end ensures In(cls, s[k]) { assert s[k] == r[k - q]; }
    RunEndIs(cls, s, p, end);
  }

  lemma EndsAtFrom(slot: Slot, s: string, q: nat, e: nat, end: nat)
    requires q <= |s| && end == q + e
    ensures EndsAt(slot, s, end) <==> EndsAt(slot, s[q..], e)
  {
    var after, r := end + |slot.suffix|, s[q..];
    if after <= |s| { assert s[end..after] == r[e..after - q]; }
  }

  lemma MatchesAtMeans(slot: Slot, bol: bool, s: string, q: nat)
    ensures MatchesAt(slot, bol, s, q) <==> Stands(slot, bol, s, q)
  {
    var n, p := |slot.prefix|, q + |slot.prefix|;
    if p <= |s| && q < |s| {
      assert s[q..p] == s[q..][..n];
      RunEndFrom(slot.captured, s, q, n, p);
      var e := RunEnd(slot.captured, s[q..], n);
      EndsAtFrom(slot, s, q, e, q + e);
    }
  }

  lemma PassOne(slot: Slot, bol: bool, s: string, value: string)
    requires s != "" && !MatchesAt(slot, bol, s, 0)
    ensures Replace(slot, bol, s, value) == [s[0]] + Replace(slot, s[0] == '\n', s[1..], value)
    ensures Values(slot, bol, s) == Values(slot, s[0] == '\n', s[1..])
    ensures Gaps(slot, bol, s)[0] == [s[0]] + Gaps(slot, s[0] == '\n', s[1..])[0]
  {
    assert s[0..] == s;
  }

  lemma FirstOf(s: string, i: nat, j: nat, tail: string)
    requires j == i + 1 <= |s|
    ensures [s[0]] + (s[1..][..i] + tail) == s[..j] + tail && s[1..][i..] == s[j..]
  {
    assert s[..j] == [s[0]] + s[1..][..i];
  }

  /** Text in which the slot does not match is passed over. */
  lemma {:induction false} PassedOver(slot: Slot, bol: bool, s: string, j: nat, value: string)
    requires j <= |s| && forall q: nat :: q < j ==> !MatchesAt(slot, bol, s, q)
    ensures Replace(slot, bol, s, value) == s[..j] + Replace(slot, LineAt(bol, s, j), s[j..], value)
    ensures Values(slot, bol, s) == Values(slot, LineAt(bol, s, j), s[j..])
    ensures Gaps(slot, bol, s)[0] == s[..j] + Gaps(slot, LineAt(bol, s, j), s[j..])[0]
    decreases j
  {
    if j == 0 {
      assert s[0..] == s;
    } else {
      var line, rest, i := s[0] == '\n', s[1..], j - 1;
      PassOne(slot, bol, s, value);
      forall q: nat | q < i ensures !MatchesAt(slot, line, rest, q) { MatchesLater(slot, bol, s, q, q + 1); }
      PassedOver(slot, line, rest, i, value);
      var last := LineAt(line, rest, i);
      FirstOf(s, i, j, Replace(slot, last, rest[i..], value));
      FirstOf(s, i, j, Gaps(slot, last, rest[i..])[0]);
      assert last == LineAt(bol, s, j);
    }
  }

  // ---------------------------------------------------------------- no other way

  /** Where the rewritten text matches at its head and the old one does not. */
  ghost predicate NewMatch(slot: Slot, bol: bool, s: string, t: string, j: nat, value: string) {
    && WellFormed(slot) && Writable(slot, value)
    && FirstAt(slot, bol, s, t, j, value) && j > 0
    && Stands(slot, bol, t, 0) && !Stands(slot, bol, s, 0)
  }

  lemma SameUpTo(s: string, t: string, f: nat)
    requires f <= |s| && f <= |t| && t[..f] == s[..f]
    ensures forall k :: 0 <= k < f ==> t[k] == s[k]
    ensures forall i, k :: 0 <= i <= k <= f ==> t[i..k] == s[i..k]
  {
    assert forall k :: 0 <= k < f ==> t[..f][k] == s[..f][k];
  }

  /** The run ends before the capture, at a suffix that reaches beyond its start. */
  lemma NewMatchReaches(slot: Slot, bol: bool, s: string, t: string, j: nat, value: string, f: nat) returns (e: nat)
    requires NewMatch(slot, bol, s, t, j, value) && f == j + |slot.prefix|
    ensures |slot.prefix| < e < f < e + |slot.suffix| <= |t|
    ensures RunEnd(slot.captured, s, |slot.prefix|) == e && t[e..e + |slot.suffix|] == slot.suffix
    ensures s[..|slot.prefix|] == slot.prefix
    ensures slot.lineEnd ==> e + |slot.suffix| == |t| || t[e + |slot.suffix|] == '\n'
  {
    e := RunEnd(slot.captured, t, |slot.prefix|);
    CaptureFollows(slot, t, value, f);
    RunEndsBefore(slot, bol, s, t, j, f, e);
    NewMatchSplits(slot, bol, s, t, f, e);
  }

  lemma NewMatchSplits(slot: Slot, bol: bool, s: string, t: string, f: nat, e: nat)
    requires Stands(slot, bol, t, 0) && !Stands(slot, bol, s, 0)
    requires e == RunEnd(slot.captured, t, |slot.prefix|) < f < |t| && f <= |s| && t[..f] == s[..f]
    requires In(slot.captured, t[f]) && t[f] != '\n'
    ensures |slot.prefix| < e < f < e + |slot.suffix| <= |t|
    ensures RunEnd(slot.captured, s, |slot.prefix|) == e && t[e..e + |slot.suffix|] == slot.suffix
    ensures s[..|slot.prefix|] == slot.prefix
    ensures slot.lineEnd ==> e + |slot.suffix| == |t| || t[e + |slot.suffix|] == '\n'
  {
    var cls, p := slot.captured, |slot.prefix|;
    SameUpTo(s, t, f);
    assert s[0..p] == t[0..p] && s[..p] == s[0..p];
    RunEndMeans(cls, t, p);
    RunEndIs(cls, s, p, e);
    NotEndedBefore(slot, s, t, e, e + |slot.suffix|, f);
  }

  /** What ends a match before f in t ends it in s. */
  lemma NotEndedBefore(slot: Slot, s: string, t: string, e: nat, end: nat, f: nat)
    requires f <= |s| && f < |t| && t[..f] == s[..f] && end == e + |slot.suffix| && EndsAt(slot, t, e) && t[f] != '\n'
    ensures end <= f ==> EndsAt(slot, s, e)
  {
    SameUpTo(s, t, f);
  }

  lemma CaptureFollows(slot: Slot, t: string, value: string, f: nat)
    requires Writable(slot, value) && f <= |t| && value + slot.suffix <= t[f..]
    ensures f < |t| && In(slot.captured, t[f]) && t[f] != '\n'
  {
    assert t[f] == t[f..][0] == value[0] && value[0] in value;
  }

  /** The first match's capture goes on from f, to where the match ends. */
  lemma FirstCapture(slot: Slot, bol: bool, s: string, j: nat, f: nat)
    requires MatchesAt(slot, bol, s, j) && f == j + |slot.prefix|
    ensures f <= |s| && RunEnd(slot.captured, s, f) > f && EndsAt(slot, s, RunEnd(slot.captured, s, f))
  {
    MatchesAtMeans(slot, bol, s, j);
  }

  /** A run that reaches the capture would have ended a match in the old text. */
  lemma RunEndsBefore(slot: Slot, bol: bool, s: string, t: string, j: nat, f: nat, e: nat)
    requires MatchesAt(slot, bol, s, j) && f == j + |slot.prefix| && f <= |t| && (f <= |s| ==> t[..f] == s[..f])
    requires Stands(slot, bol, t, 0) && !Stands(slot, bol, s, 0) && e == RunEnd(slot.captured, t, |slot.prefix|)
    ensures e < f
  {
    FirstCapture(slot, bol, s, j, f);
    if e >= f { RunStands(slot, bol, s, t, f, e); }
  }

  /** A run of t that reaches f goes on in s as it does from f on. */
  lemma RunStands(slot: Slot, bol: bool, s: string, t: string, f: nat, e: nat)
    requires Stands(slot, bol, t, 0) && |slot.prefix| <= f <= |s| && f <= |t| && t[..f] == s[..f] && s != ""
    requires e == RunEnd(slot.captured, t, |slot.prefix|) && e >= f
    requires RunEnd(slot.captured, s, f) > f && EndsAt(slot, s, RunEnd(slot.captured, s, f))
    ensures Stands(slot, bol, s, 0)
  {
    var cls, p := slot.captured, |slot.prefix|;
    SameUpTo(s, t, f);
    RunEndMeans(cls, t, p);
    forall k | p <= k < f ensures In(cls, s[k]) { assert s[k] == t[k]; }
    RunGoesOn(cls, s, p, f);
    HeadStands(slot, bol, s, t, f);
  }

  lemma {:induction false} RunGoesOn(cls: Class, s: string, p: nat, f: nat)
    requires p <= f <= |s| && forall k :: p <= k < f ==> In(cls, s[k])
    ensures RunEnd(cls, s, p) == RunEnd(cls, s, f)
    decreases f - p
  {
    if p < f { RunGoesOn(cls, s, p + 1, f); }
  }

  lemma HeadStands(slot: Slot, bol: bool, s: string, t: string, f: nat)
    requires Stands(slot, bol, t, 0) && |slot.prefix| <= f <= |s| && f <= |t| && t[..f] == s[..f] && s != ""
    requires RunEnd(slot.captured, s, |slot.prefix|) > |slot.prefix|
    requires EndsAt(slot, s, RunEnd(slot.captured, s, |slot.prefix|))
    ensures Stands(slot, bol, s, 0)
  {
    SameUpTo(s, t, f);
    assert s[0..|slot.prefix|] == t[0..|slot.prefix|];
  }

  /** A prefix at the head whose run ends at e, then the suffix as far as the first capture at f. */
  ghost predicate Reaches(slot: Slot, bol: bool, s: string, j: nat, f: nat, e: nat, k: nat) {
    && f == j + |slot.prefix| <= |s| && |slot.prefix| < e < f && k == f - e < |slot.suffix|
    && s[..|slot.prefix|] == slot.prefix && s[e..f] == slot.suffix[..k]
    && e <= RunEnd(slot.captured, s, |slot.prefix|)
    && Stands(slot, bol, s, j) && (forall q: nat :: q < j ==> !MatchesAt(slot, bol, s, q))
  }

  lemma OpeningOf(slot: Slot, s: string, e: nat, i: nat, at: nat)
    requires |slot.prefix| <= e <= at <= |s| && i <= |slot.suffix|
    requires s[..|slot.prefix|] == slot.prefix && s[e..at] == slot.suffix[..i]
    ensures Opening(slot, s[|slot.prefix|..e], i) == s[..at]
  {
    assert s[..at] == s[..|slot.prefix|] + s[|slot.prefix|..e] + s[e..at];
  }

  lemma PartsOf(s: string, e: nat, at: nat, f: nat, w: string, i: nat, k: nat)
    requires e <= at <= f <= |s| && i <= k <= |w| && at == e + i && f == e + k && s[e..f] == w[..k]
    ensures s[e..at] == w[..i] && s[at..f] == w[i..k]
  {
    var m := s[e..f];
    Sliced(s, m, e, f, 0, i, e, at);
    Sliced(s, m, e, f, i, k, at, f);
    Sliced(w, m, 0, k, 0, i, 0, i);
    Sliced(w, m, 0, k, i, k, i, k);
  }

  lemma InClassOf(slot: Slot, s: string, i: nat, e: nat)
    requires i <= e <= |s| && e <= RunEnd(slot.captured, s, i)
    ensures InClass(slot, s[i..e])
  {
    RunEndMeans(slot.captured, s, i);
    forall k | 0 <= k < e - i ensures In(slot.captured, s[i..e][k]) { assert s[i..e][k] == s[i + k]; }
  }

  /** Where a prefix ends before f, with class characters from there on, the slot matches. */
  lemma StandsEarlier(slot: Slot, bol: bool, s: string, j: nat, f: nat, q: nat, at: nat)
    requires f == j + |slot.prefix| <= |s| && Stands(slot, bol, s, j) && at == q + |slot.prefix| < f
    requires Opens(slot, s[..at]) && InClass(slot, s[at..f])
    ensures Stands(slot, bol, s, q)
  {
    var e := RunEnd(slot.captured, s, f);
    RunEndMeans(slot.captured, s, f);
    forall k | at <= k < f ensures In(slot.captured, s[k]) { assert s[k] == s[at..f][k - at]; }
    RunEndIs(slot.captured, s, at, e);
    Sliced(s, s[..at], 0, at, q, at, q, at);
  }

  /** So an earlier prefix end is followed by a character outside the class. */
  lemma EarlierIsCut(slot: Slot, bol: bool, s: string, j: nat, f: nat, e: nat, k: nat, i: nat, at: nat)
    requires Reaches(slot, bol, s, j, f, e, k) && 0 < i < k && at == e + i
    requires Opens(slot, Opening(slot, s[|slot.prefix|..e], i))
    ensures !InClass(slot, slot.suffix[i..k])
  {
    PartsOf(s, e, at, f, slot.suffix, i, k);
    OpeningOf(slot, s, e, i, at);
    if InClass(slot, slot.suffix[i..k]) {
      var q := at - |slot.prefix|;
      StandsEarlier(slot, bol, s, j, f, q, at);
      MatchesAtMeans(slot, bol, s, q);
    }
  }

  lemma OpensAt(slot: Slot, bol: bool, s: string, j: nat, f: nat)
    requires j > 0 && f == j + |slot.prefix| && Stands(slot, bol, s, j)
    ensures Opens(slot, s[..f])
  {
    Sliced(s, s[..f], 0, f, j, f, j, f);
  }

  lemma ReachesConfuses(slot: Slot, bol: bool, s: string, j: nat, f: nat, e: nat, k: nat)
    requires j > 0 && Reaches(slot, bol, s, j, f, e, k)
    ensures Confusing(slot, s[|slot.prefix|..e], k)
  {
    OpensAt(slot, bol, s, j, f);
    OpeningOf(slot, s, e, k, f);
    InClassOf(slot, s, |slot.prefix|, e);
    forall i: nat | 0 < i < k && Opens(slot, Opening(slot, s[|slot.prefix|..e], i))
      ensures !InClass(slot, slot.suffix[i..k]) {
      EarlierIsCut(slot, bol, s, j, f, e, k, i, e + i);
    }
  }

  lemma NewMatchConfuses(slot: Slot, bol: bool, s: string, t: string, j: nat, value: string, f: nat, e: nat, k: nat)
    requires NewMatch(slot, bol, s, t, j, value) && f == j + |slot.prefix|
    requires |slot.prefix| < e < f < e + |slot.suffix| <= |t| && k == f - e
    requires RunEnd(slot.captured, s, |slot.prefix|) == e && t[e..e + |slot.suffix|] == slot.suffix
    requires s[..|slot.prefix|] == slot.prefix
    ensures Confusing(slot, s[|slot.prefix|..e], k)
  {
    SameUpTo(s, t, f);
    Sliced(t, slot.suffix, e, e + |slot.suffix|, 0, k, e, f);
    assert s[e..f] == t[e..f] && slot.suffix[0..k] == slot.suffix[..k];
    MatchesAtMeans(slot, bol, s, j);
    ReachesConfuses(slot, bol, s, j, f, e, k);
  }

  lemma NewMatchCompletes(slot: Slot, bol: bool, s: string, t: string, j: nat, value: string, f: nat, e: nat, k: nat)
    requires NewMatch(slot, bol, s, t, j, value) && f == j + |slot.prefix|
    requires e < f < e + |slot.suffix| <= |t| && k == f - e
    requires t[e..e + |slot.suffix|] == slot.suffix
    requires slot.lineEnd ==> e + |slot.suffix| == |t| || t[e + |slot.suffix|] == '\n'
    ensures Completes(slot, value, k)
  {
    var written, n, end := value + slot.suffix, |slot.suffix|, e + |slot.suffix|;
    var m := n - k;
    assert t[f..][..m] == t[f..end] == t[e..end][k..] == slot.suffix[k..];
    assert t[f..][..|written|] == written;
    assert written[..m] == slot.suffix[k..];
    assert t[f..][m] == written[m];
  }

  lemma OpensTail(slot: Slot, a: string, b: string)
    requires |b| > |slot.prefix|
    ensures Opens(slot, a + b) == Opens(slot, b)
  {
    var j := |b| - |slot.prefix|;
    assert (a + b)[|a| + j..] == b[j..];
  }

  /** No more of the run matters than holds another prefix and the character before it. */
  lemma ShortRun(slot: Slot, x: string, k: nat) returns (y: string)
    requires Confusing(slot, x, k)
    ensures |y| <= |slot.prefix| + 1 && Confusing(slot, y, k)
  {
    if |x| <= |slot.prefix| + 1 {
      return x;
    }
    var cut := |x| - |slot.prefix| - 1;
    y := x[cut..];
    forall i: nat | i <= k ensures Opens(slot, Opening(slot, y, i)) == Opens(slot, Opening(slot, x, i)) {
      var tail := y + slot.suffix[..i];
      assert Opening(slot, x, i) == slot.prefix + x[..cut] + tail;
      assert Opening(slot, y, i) == slot.prefix + tail;
      OpensTail(slot, slot.prefix + x[..cut], tail);
      OpensTail(slot, slot.prefix, tail);
    }
    forall c <- y ensures In(slot.captured, c) { assert c in x; }
  }

  /** Where the old text does not match, neither does the new one, unless the value breaks the slot. */
  lemma NoNewMatch(slot: Slot, bol: bool, s: string, value: string)
    requires WellFormed(slot) && Writable(slot, value) && !Breakable(slot, value) && s != "" && Next(slot, bol, s).Skip?
    ensures MatchHead(slot, bol, Replace(slot, bol, s, value)).None?
  {
    var t := Replace(slot, bol, s, value);
    var first := FirstMatch(slot, bol, s, value);
    assert s[0..] == s && t[0..] == t;
    if first.Some? && MatchHead(slot, bol, t).Some? {
      var j, f := first.value, first.value + |slot.prefix|;
      MatchesAtMeans(slot, bol, s, 0);
      MatchesAtMeans(slot, bol, t, 0);
      var e := NewMatchReaches(slot, bol, s, t, j, value, f);
      NewMatchConfuses(slot, bol, s, t, j, value, f, e, f - e);
      NewMatchCompletes(slot, bol, s, t, j, value, f, e, f - e);
      var x := ShortRun(slot, s[|slot.prefix|..e], f - e);
    }
  }

  // ---------------------------------------------------------------- reading back

  lemma LineAfter(slot: Slot, value: string)
    requires WellFormed(slot) && Writable(slot, value)
    ensures EndsLine(slot.prefix + value + slot.suffix) == (slot.suffix != "" && EndsLine(slot.suffix))
  {
    assert value[|value| - 1] in value;
  }

  /** The new value is found where the old one was. */
  lemma MatchStays(slot: Slot, bol: bool, s: string, value: string)
    requires WellFormed(slot) && Writable(slot, value) && s != "" && Next(slot, bol, s).Hit?
    ensures var t := Replace(slot, bol, s, value);
      t != "" && Next(slot, bol, t) == Hit(value, Next(slot, bol, s).line,
                                           Replace(slot, Next(slot, bol, s).line, Next(slot, bol, s).rest, value))
  {
    var next := Next(slot, bol, s);
    var after := Replace(slot, next.line, next.rest, value);
    HitMeans(slot, bol, s);
    ReplaceHead(slot, next.line, next.rest, value);
    FilledMatches(slot, bol, value, after);
    NextOfFilled(slot, bol, value, after);
    LineAfter(slot, value);
  }

  /** Reading after a rewrite gives the new value, at the very places of the old ones. */
  ghost predicate SamePlaces(slot: Slot, bol: bool, s: string, value: string) {
    var t := Replace(slot, bol, s, value);
    Values(slot, bol, t) == Same(Values(slot, bol, s), value) && Gaps(slot, bol, t) == Gaps(slot, bol, s)
  }

  lemma {:induction false} GetPut(slot: Slot, bol: bool, s: string, value: string)
    requires WellFormed(slot) && Writable(slot, value) && !Breakable(slot, value)
    ensures SamePlaces(slot, bol, s, value)
    decreases |s|
  {
    if s != "" {
      var next := Next(slot, bol, s);
      GetPut(slot, next.line, next.rest, value);
      if next.Hit? {
        MatchStays(slot, bol, s, value);
        SameFirst(next.capture, Values(slot, next.line, next.rest), value);
      } else {
        NoNewMatch(slot, bol, s, value);
        var t := Replace(slot, bol, s, value);
        assert t[1..] == Replace(slot, next.line, next.rest, value);
      }
    }
  }
}
