/** Layouts that fit the slots of a text: each slot finds exactly its own holes, and goes on
    finding them whatever versions the holes of all slots are filled with. */
module SlotFits {
  import opened Wrappers
  import opened Slots
  import opened SlotReading
  import opened SlotLayout

  // ---------------------------------------------------------------- layouts as texts

  predicate Keeps(d: Layout) { forall i :: 0 <= i < |d| ==> d[i].Keep? }

  lemma {:induction false} TextConcat(a: Layout, b: Layout)
    ensures Text(a + b) == Text(a) + Text(b)
    decreases |a|
  {
    if a == [] {
      assert a + b == b;
    } else {
      assert (a + b)[1..] == a[1..] + b;
      TextConcat(a[1..], b);
      assert CellText(a[0]) + (Text(a[1..]) + Text(b)) == Text(a) + Text(b);
    }
  }

  lemma {:induction false} KeepsLength(a: Layout)
    requires Keeps(a)
    ensures |Text(a)| == |a|
    decreases |a|
  {
    if a != [] { KeepsLength(a[1..]); }
  }

  /** p characters, a hole of the row with m characters, and characters up to end. */
  predicate HomeAt(row: nat, d: Layout, m: nat, p: nat, q: nat, end: nat) {
    && q == p + 1 <= end <= |d| && Keeps(d[..p]) && Keeps(d[q..end])
    && d[p].Hole? && d[p].row == row && |d[p].value| == m && Clean(d[p].value)
  }

  /** A match of the slot at the head of a layout: its prefix, one hole of its own, its suffix. */
  predicate Home(slot: Slot, row: nat, d: Layout, m: nat) {
    HomeAt(row, d, m, |slot.prefix|, |slot.prefix| + 1, |slot.prefix| + 1 + |slot.suffix|)
  }

  /** What follows a match at the head. */
  function Beyond(slot: Slot, d: Layout): (r: Layout)
    ensures d != [] ==> |r| < |d|
  {
    var end := |slot.prefix| + 1 + |slot.suffix|;
    if end <= |d| then d[end..] else []
  }

  predicate NoneIn(slot: Slot, bol: bool, s: string, n: nat) {
    forall i: nat | i < n :: !MatchesAt(slot, bol, s, i)
  }

  /** The slot, scanning the text, finds exactly its own holes. */
  predicate Fits(slot: Slot, row: nat, bol: bool, d: Layout)
    decreases |d|
  {
    if d == [] then true
    else
      match d[0]
      case Hole(r, value) =>
        r != row && Clean(value) && NoneIn(slot, bol, Text(d), |value|) && Fits(slot, row, false, d[1..])
      case Keep(c) =>
        match MatchHead(slot, bol, Text(d))
        case None => Fits(slot, row, c == '\n', d[1..])
        case Some(m) => Home(slot, row, d, m) && Fits(slot, row, EndsLine(slot.suffix), Beyond(slot, d))
  }

  lemma FitsByHole(slot: Slot, row: nat, bol: bool, d: Layout, rest: Layout)
    requires d != [] && d[0].Hole? && d[0].row != row && Clean(d[0].value) && rest == d[1..]
    requires NoneIn(slot, bol, Text(d), |d[0].value|) && Fits(slot, row, false, rest)
    ensures Fits(slot, row, bol, d)
  {
  }

  lemma FitsByChar(slot: Slot, row: nat, bol: bool, d: Layout, rest: Layout)
    requires d != [] && d[0].Keep? && MatchHead(slot, bol, Text(d)) == None && rest == d[1..]
    requires Fits(slot, row, d[0].c == '\n', rest)
    ensures Fits(slot, row, bol, d)
  {
  }

  lemma FitsByMatch(slot: Slot, row: nat, bol: bool, d: Layout, s: string, m: nat, rest: Layout)
    requires d != [] && d[0].Keep? && s == Text(d) && MatchHead(slot, bol, s) == Some(m) && Home(slot, row, d, m)
    requires Beyond(slot, d) == rest && Fits(slot, row, EndsLine(slot.suffix), rest)
    ensures Fits(slot, row, bol, d)
  {
  }

  lemma FitsGives(slot: Slot, row: nat, bol: bool, d: Layout, m: nat, end: nat)
    requires d != [] && d[0].Keep? && MatchHead(slot, bol, Text(d)) == Some(m) && Fits(slot, row, bol, d)
    requires end == |slot.prefix| + 1 + |slot.suffix|
    ensures Home(slot, row, d, m) && end <= |d| && Beyond(slot, d) == d[end..]
      && Fits(slot, row, EndsLine(slot.suffix), d[end..])
  {
  }

  lemma AroundText(a: Layout, p: Cell, b: Layout)
    ensures Text(a + [p] + b) == Text(a) + CellText(p) + Text(b)
  {
    assert [p][1..] == [] && Text([p]) == CellText(p) + Text([]);
    TextConcat(a, [p]);
    TextConcat(a + [p], b);
  }

  lemma AroundSplit(d: Layout, j: nat, next: nat)
    requires next == j + 1 <= |d|
    ensures d == d[..j] + [d[j]] + d[next..]
    ensures forall p: Cell :: d[j := p] == d[..j] + [p] + d[next..]
  {
  }

  lemma MiddleSplit(d: Layout, j: nat, end: nat)
    requires j <= end <= |d|
    ensures d[j..] == d[j..end] + d[end..]
  {
  }

  /** Where the parts of a match are. */
  lemma HomeParts(slot: Slot, row: nat, d: Layout, m: nat, p: nat, q: nat, end: nat)
    requires Home(slot, row, d, m) && p == |slot.prefix| && q == p + 1 && end == q + |slot.suffix|
    ensures |Text(d[..p])| == p && |Text(d[q..end])| == |slot.suffix|
    ensures Text(d) == Text(d[..p]) + d[p].value + (Text(d[q..end]) + Text(d[end..]))
  {
    KeepsLength(d[..p]);
    KeepsLength(d[q..end]);
    AroundSplit(d, p, q);
    AroundText(d[..p], d[p], d[q..]);
    MiddleSplit(d, q, end);
    TextConcat(d[q..end], d[end..]);
  }

  /** The same layout with another value in one hole. */
  function Changed(d: Layout, j: nat, v: string): (r: Layout)
    requires j < |d| && d[j].Hole?
    ensures |r| == |d|
  {
    d[j := Hole(d[j].row, v)]
  }

  lemma ChangedText(d: Layout, j: nat, v: string, next: nat)
    requires j < |d| && d[j].Hole? && next == j + 1
    ensures Text(d) == Text(d[..j]) + d[j].value + Text(d[next..])
    ensures Text(Changed(d, j, v)) == Text(d[..j]) + v + Text(d[next..])
  {
    AroundSplit(d, j, next);
    AroundText(d[..j], d[j], d[next..]);
    AroundText(d[..j], Hole(d[j].row, v), d[next..]);
  }

  // ---------------------------------------------------------------- one hole changes

  /** A run that ends by the start of a capture ends before it. */
  lemma RunWithin(slot: Slot, l: string, c: string, r: string, p: nat, e: nat)
    requires Tame(slot) && Clean(c) && p <= |l| && RunEnd(slot.captured, l + c + r, p) == e <= |l|
    ensures RunEnd(slot.captured, l, p) == e < |l|
  {
    var s := l + c + r;
    RunEndMeans(slot.captured, s, p);
    CleanRun(slot, c, 0);
    assert s[|l|] == c[0];
    forall k | p <= k < e ensures In(slot.captured, l[k]) { assert s[k] == l[k]; }
    assert e < |l| ==> s[e] == l[e];
    RunEndIs(slot.captured, l, p, e);
  }

  /** The text of a match at home. */
  lemma HomeLength(slot: Slot, row: nat, d: Layout, m: nat, p: nat, q: nat, end: nat, j: nat)
    requires Home(slot, row, d, m) && p == |slot.prefix| && q == p + 1 && end == q + |slot.suffix| && end <= j <= |d|
    ensures |Text(d[..j])| >= p + m + |slot.suffix|
  {
    var a := d[..j];
    assert Home(slot, row, a, m) by {
      assert a[..p] == d[..p] && a[q..end] == d[q..end];
    }
    HomeParts(slot, row, a, m, p, q, end);
  }

  lemma MatchRun(slot: Slot, bol: bool, s: string, m: nat, e: nat)
    requires MatchHead(slot, bol, s) == Some(m) && e == |slot.prefix| + m
    ensures RunEnd(slot.captured, s, |slot.prefix|) == e
  {
  }

  lemma ClearAfter(slot: Slot, l: string, c: string, r: string, e: nat)
    requires Tame(slot) && Clean(c) && |slot.prefix| <= e && e + |slot.suffix| <= |l|
    requires RunEnd(slot.captured, l + c + r, |slot.prefix|) == e
    ensures Clear(slot, l) && RunEnd(slot.captured, l, |slot.prefix|) < |l|
  {
    RunWithin(slot, l, c, r, |slot.prefix|, e);
  }

  /** A match at home is clear of every later hole. */
  lemma ClearOfLater(slot: Slot, row: nat, bol: bool, d: Layout, m: nat, j: nat, end: nat, next: nat)
    requires Tame(slot) && MatchHead(slot, bol, Text(d)) == Some(m) && Home(slot, row, d, m)
    requires end == |slot.prefix| + 1 + |slot.suffix| <= j < |d| && d[j].Hole? && Clean(d[j].value) && next == j + 1
    ensures Clear(slot, Text(d[..j])) && RunEnd(slot.captured, Text(d[..j]), |slot.prefix|) < |Text(d[..j])|
  {
    var p, e := |slot.prefix|, |slot.prefix| + m;
    HomeLength(slot, row, d, m, p, p + 1, end, j);
    ChangedText(d, j, d[j].value, next);
    MatchRun(slot, bol, Text(d), m, e);
    ClearAfter(slot, Text(d[..j]), d[j].value, Text(d[next..]), e);
  }

  /** A match at home goes over its own hole. */
  lemma OverOwn(slot: Slot, row: nat, d: Layout, m: nat, p: nat)
    requires Home(slot, row, d, m) && p == |slot.prefix|
    ensures |Text(d[..p])| == p && Clear(slot, Text(d[..p])) && RunEnd(slot.captured, Text(d[..p]), p) == p
  {
    KeepsLength(d[..p]);
  }

  lemma CellOf(d: Layout, from: nat, to: nat, j: nat)
    ensures from <= j < to <= |d| ==> d[from..to][j - from] == d[j]
  {
  }

  /** Holes lie at a match's capture or after the match. */
  lemma HolesOfHome(slot: Slot, row: nat, d: Layout, m: nat, j: nat)
    requires Home(slot, row, d, m) && j < |d| && d[j].Hole?
    ensures j == |slot.prefix| || j >= |slot.prefix| + 1 + |slot.suffix|
  {
    var p, q, end := |slot.prefix|, |slot.prefix| + 1, |slot.prefix| + 1 + |slot.suffix|;
    CellOf(d, 0, p, j);
    CellOf(d, q, end, j);
  }

  lemma HeadKeptOwn(slot: Slot, row: nat, bol: bool, d: Layout, m: nat, j: nat, v: string, next: nat)
    requires Tame(slot) && Versionlike(v) && MatchHead(slot, bol, Text(d)) == Some(m) && Home(slot, row, d, m)
    requires j == |slot.prefix| && next == j + 1
    ensures MatchHead(slot, bol, Text(Changed(d, j, v))) == Some(|v|)
  {
    ChangedText(d, j, v, next);
    OverOwn(slot, row, d, m, j);
    KeptOver(slot, bol, Text(d[..j]), d[j].value, v, Text(d[next..]), Text(d), Text(Changed(d, j, v)));
  }

  lemma HeadKeptLater(slot: Slot, row: nat, bol: bool, d: Layout, m: nat, j: nat, v: string, end: nat, next: nat)
    requires Tame(slot) && Versionlike(v) && MatchHead(slot, bol, Text(d)) == Some(m) && Home(slot, row, d, m)
    requires end == |slot.prefix| + 1 + |slot.suffix| <= j < |d| && d[j].Hole? && Clean(d[j].value) && next == j + 1
    ensures MatchHead(slot, bol, Text(Changed(d, j, v))) == Some(m)
  {
    ChangedText(d, j, v, next);
    ClearOfLater(slot, row, bol, d, m, j, end, next);
    KeptBefore(slot, bol, Text(d[..j]), d[j].value, v, Text(d[next..]), Text(d), Text(Changed(d, j, v)));
  }

  lemma HeadKeptNone(slot: Slot, bol: bool, d: Layout, j: nat, v: string, next: nat)
    requires Tame(slot) && Versionlike(v) && MatchHead(slot, bol, Text(d)) == None
    requires j < |d| && d[j].Hole? && Clean(d[j].value) && next == j + 1
    ensures MatchHead(slot, bol, Text(Changed(d, j, v))) == None
  {
    ChangedText(d, j, v, next);
    NoneKept(slot, bol, Text(d[..j]), d[j].value, v, Text(d[next..]), Text(d), Text(Changed(d, j, v)));
  }

  /** No new match appears inside a hole either. */
  lemma NoneInKept(slot: Slot, bol: bool, d: Layout, j: nat, v: string, n: nat, next: nat)
    requires Tame(slot) && Versionlike(v) && NoneIn(slot, bol, Text(d), n)
    requires j < |d| && d[j].Hole? && Clean(d[j].value) && n <= |Text(d[..j])| && next == j + 1
    ensures NoneIn(slot, bol, Text(Changed(d, j, v)), n)
  {
    ChangedText(d, j, v, next);
    forall i: nat | i < n ensures !MatchesAt(slot, bol, Text(Changed(d, j, v)), i) {
      NoneKeptAt(slot, bol, Text(d[..j]), d[j].value, v, Text(d[next..]), Text(d), Text(Changed(d, j, v)), i);
    }
  }

  lemma CleanLine(v: string)
    requires Clean(v)
    ensures !EndsLine(v)
  {
    assert v[|v| - 1] in v;
  }

  lemma HeadChanged(slot: Slot, bol: bool, d: Layout, v: string)
    requires Tame(slot) && Versionlike(v) && d != [] && d[0].Hole?
    ensures NoneIn(slot, bol, Text(Changed(d, 0, v)), |v|)
  {
    var d' := Changed(d, 0, v);
    assert d'[1..] == d[1..] && Text(d') == v + Text(d[1..]);
    forall i: nat | i < |v| ensures !MatchesAt(slot, bol, Text(d'), i) { NoneInside(slot, bol, v, Text(d[1..]), i); }
  }

  lemma ChangedTail(d: Layout, j: nat, v: string, i: nat)
    requires j < |d| && d[j].Hole? && j == i + 1
    ensures Changed(d, j, v)[0] == d[0] && Changed(d, j, v)[1..] == Changed(d[1..], i, v)
  {
  }

  /** A layout goes on fitting a slot when a hole, of that slot or of another, is filled with a version. */
  lemma {:induction false} ChangeKeepsFit(slot: Slot, row: nat, bol: bool, d: Layout, j: nat, v: string)
    requires Tame(slot) && Versionlike(v) && Fits(slot, row, bol, d) && j < |d| && d[j].Hole? && Clean(d[j].value)
    ensures Fits(slot, row, bol, Changed(d, j, v))
    decreases |d|
  {
    var d' := Changed(d, j, v);
    if j == 0 {
      HeadChanged(slot, bol, d, v);
      FitsByHole(slot, row, bol, d', d[1..]);
    } else if d[0].Hole? {
      TextStarts(d, j);
      NoneInKept(slot, bol, d, j, v, |d[0].value|, j + 1);
      ChangedTail(d, j, v, j - 1);
      ChangeKeepsFit(slot, row, false, d[1..], j - 1, v);
      FitsByHole(slot, row, bol, d', Changed(d[1..], j - 1, v));
    } else if MatchHead(slot, bol, Text(d)).None? {
      HeadKeptNone(slot, bol, d, j, v, j + 1);
      ChangedTail(d, j, v, j - 1);
      ChangeKeepsFit(slot, row, d[0].c == '\n', d[1..], j - 1, v);
      FitsByChar(slot, row, bol, d', Changed(d[1..], j - 1, v));
    } else {
      var m := MatchHead(slot, bol, Text(d)).value;
      ChangeKeepsMatch(slot, row, bol, d, m, j, v, |slot.prefix| + 1 + |slot.suffix|);
    }
  }

  lemma TextStarts(d: Layout, j: nat)
    requires 0 < j <= |d|
    ensures |CellText(d[0])| <= |Text(d[..j])|
  {
    assert d[..j][0] == d[0];
  }

  lemma ChangedParts(d: Layout, j: nat, v: string, p: nat, q: nat, end: nat)
    requires j < |d| && d[j].Hole? && p <= q <= end <= |d| && (j < p ==> false) && (q <= j < end ==> false)
    ensures Changed(d, j, v)[..p] == d[..p] && Changed(d, j, v)[q..end] == d[q..end]
    ensures j < end ==> Changed(d, j, v)[end..] == d[end..]
    ensures j >= end ==> Changed(d, j, v)[end..] == Changed(d[end..], j - end, v)
  {
  }

  lemma HomeChanged(slot: Slot, row: nat, d: Layout, m: nat, j: nat, v: string, p: nat, q: nat, end: nat)
    requires Home(slot, row, d, m) && j < |d| && d[j].Hole? && Clean(v) && (j == p || j >= end)
    requires p == |slot.prefix| && q == p + 1 && end == q + |slot.suffix|
    ensures Home(slot, row, Changed(d, j, v), if j == p then |v| else m)
    ensures Beyond(slot, Changed(d, j, v)) == if j == p then d[end..] else Changed(d[end..], j - end, v)
  {
    ChangedParts(d, j, v, p, q, end);
  }

  lemma {:induction false} ChangeKeepsMatch(slot: Slot, row: nat, bol: bool, d: Layout, m: nat, j: nat, v: string,
                                            end: nat)
    requires Tame(slot) && Versionlike(v) && Fits(slot, row, bol, d) && j < |d| && d[j].Hole? && Clean(d[j].value)
    requires d[0].Keep? && MatchHead(slot, bol, Text(d)) == Some(m) && end == |slot.prefix| + 1 + |slot.suffix|
    ensures Fits(slot, row, bol, Changed(d, j, v))
    decreases |d|, 0
  {
    var p, q, d' := |slot.prefix|, |slot.prefix| + 1, Changed(d, j, v);
    FitsGives(slot, row, bol, d, m, end);
    HolesOfHome(slot, row, d, m, j);
    HomeChanged(slot, row, d, m, j, v, p, q, end);
    if j == p {
      HeadKeptOwn(slot, row, bol, d, m, j, v, q);
      FitsByMatch(slot, row, bol, d', Text(d'), |v|, d[end..]);
    } else {
      HeadKeptLater(slot, row, bol, d, m, j, v, end, j + 1);
      ChangeKeepsFit(slot, row, EndsLine(slot.suffix), d[end..], j - end, v);
      FitsByMatch(slot, row, bol, d', Text(d'), m, Changed(d[end..], j - end, v));
    }
  }

  // ---------------------------------------------------------------- filling the holes

  /** The same holes, each with its value or with a version. */
  ghost predicate Like(d: Layout, d': Layout) {
    |d'| == |d| && forall i :: 0 <= i < |d| ==> LikeCell(d[i], d'[i])
  }

  predicate LikeCell(p: Cell, q: Cell) {
    q == p || (p.Hole? && q.Hole? && q.row == p.row && Versionlike(q.value))
  }

  predicate CleanHoles(d: Layout) { forall i :: 0 <= i < |d| && d[i].Hole? ==> Clean(d[i].value) }

  /** The holes filled up to j. */
  function Mixed(d: Layout, d': Layout, j: nat): (r: Layout)
    requires |d'| == |d|
    ensures |r| == |d|
  {
    seq(|d|, i requires 0 <= i < |d| => if i < j then d'[i] else d[i])
  }

  lemma MixedStep(d: Layout, d': Layout, i: nat, j: nat)
    requires Like(d, d') && j == i + 1 <= |d|
    ensures d'[i] == d[i] ==> Mixed(d, d', j) == Mixed(d, d', i)
    ensures d'[i] != d[i] ==> d[i].Hole? && Versionlike(d'[i].value) && Mixed(d, d', i)[i] == d[i]
    ensures d'[i] != d[i] ==> Mixed(d, d', j) == Changed(Mixed(d, d', i), i, d'[i].value)
  {
    assert LikeCell(d[i], d'[i]);
  }

  lemma ChangedClean(d: Layout, i: nat, v: string)
    requires i < |d| && d[i].Hole? && CleanHoles(d) && Clean(v)
    ensures CleanHoles(Changed(d, i, v))
  {
  }

  lemma {:induction false} LikeKeepsFit(slot: Slot, row: nat, bol: bool, d: Layout, d': Layout, j: nat)
    requires Tame(slot) && Fits(slot, row, bol, d) && CleanHoles(d) && Like(d, d') && j <= |d|
    ensures Fits(slot, row, bol, Mixed(d, d', j)) && CleanHoles(Mixed(d, d', j))
    decreases j
  {
    if j == 0 {
      assert Mixed(d, d', 0) == d;
    } else {
      var i := j - 1;
      LikeKeepsFit(slot, row, bol, d, d', i);
      MixedStep(d, d', i, j);
      if d'[i] != d[i] {
        ChangeKeepsFit(slot, row, bol, Mixed(d, d', i), i, d'[i].value);
        ChangedClean(Mixed(d, d', i), i, d'[i].value);
      }
    }
  }

  /** A slot that fits a layout fits it whatever versions its holes are filled with. */
  lemma FitsAnyVersions(slot: Slot, row: nat, bol: bool, d: Layout, d': Layout)
    requires Tame(slot) && Fits(slot, row, bol, d) && CleanHoles(d) && Like(d, d')
    ensures Fits(slot, row, bol, d')
  {
    LikeKeepsFit(slot, row, bol, d, d', |d|);
    assert Mixed(d, d', |d|) == d';
  }

  lemma PutTail(d: Layout, row: nat, v: string, end: nat)
    requires end <= |d|
    ensures Put(d, row, v)[end..] == Put(d[end..], row, v)
  {
  }

  lemma {:induction false} PutKeeps(d: Layout, row: nat, v: string)
    requires Keeps(d)
    ensures Text(Put(d, row, v)) == Text(d) && Own(row, d) == []
    decreases |d|
  {
    if d != [] {
      PutTail(d, row, v, 1);
      PutKeeps(d[1..], row, v);
    }
  }

  lemma {:induction false} OwnConcat(row: nat, a: Layout, b: Layout)
    ensures Own(row, a + b) == Own(row, a) + Own(row, b)
    decreases |a|
  {
    if a == [] {
      assert a + b == b;
    } else {
      assert (a + b)[1..] == a[1..] + b;
      OwnConcat(row, a[1..], b);
    }
  }

  // ---------------------------------------------------------------- reading and rewriting

  /** What the slot reads are its holes, and rewriting fills them. */
  ghost predicate Agrees(slot: Slot, row: nat, bol: bool, d: Layout, v: string) {
    Values(slot, bol, Text(d)) == Own(row, d) && Replace(slot, bol, Text(d), v) == Text(Put(d, row, v))
  }

  lemma SkippedHole(slot: Slot, row: nat, bol: bool, d: Layout, v: string)
    requires d != [] && d[0].Hole? && d[0].row != row && Clean(d[0].value)
    requires NoneIn(slot, bol, Text(d), |d[0].value|) && Agrees(slot, row, false, d[1..], v)
    ensures Agrees(slot, row, bol, d, v)
  {
    var n := |d[0].value|;
    PassedOver(slot, bol, Text(d), n, v);
    assert Text(d)[..n] == d[0].value && Text(d)[n..] == Text(d[1..]);
    CleanLine(d[0].value);
    assert LineAt(bol, Text(d), n) == false;
    PutTail(d, row, v, 1);
  }

  lemma SkippedChar(slot: Slot, row: nat, bol: bool, d: Layout, v: string)
    requires d != [] && d[0].Keep? && MatchHead(slot, bol, Text(d)).None?
      && Agrees(slot, row, d[0].c == '\n', d[1..], v)
    ensures Agrees(slot, row, bol, d, v)
  {
    assert Text(d)[0] == d[0].c && Text(d)[1..] == Text(d[1..]);
    PutTail(d, row, v, 1);
  }

  lemma SameSplit(a: string, x: string, b: string, y: string)
    requires a + x == b + y && |a| == |b|
    ensures a == b && x == y
  {
    assert a == (a + x)[..|a|] && b == (b + y)[..|b|];
    assert x == (a + x)[|a|..] && y == (b + y)[|b|..];
  }

  /** The head match and the home of it are the same parts of the text. */
  lemma HomeText(slot: Slot, row: nat, bol: bool, d: Layout, m: nat, p: nat, q: nat, end: nat)
    requires Text(d) != "" && MatchHead(slot, bol, Text(d)) == Some(m) && Home(slot, row, d, m)
    requires p == |slot.prefix| && q == p + 1 && end == q + |slot.suffix|
    ensures Text(d[..p]) == slot.prefix && Text(d[q..end]) == slot.suffix
    ensures Next(slot, bol, Text(d)).Hit? && Next(slot, bol, Text(d)).capture == d[p].value
    ensures Next(slot, bol, Text(d)).rest == Text(d[end..])
  {
    var next := Next(slot, bol, Text(d));
    HomeParts(slot, row, d, m, p, q, end);
    NextSplits(slot, bol, Text(d));
    SameSplit(Text(d[..p]) + d[p].value, Text(d[q..end]) + Text(d[end..]),
              slot.prefix + next.capture, slot.suffix + next.rest);
    SameSplit(Text(d[..p]), d[p].value, slot.prefix, next.capture);
    SameSplit(Text(d[q..end]), Text(d[end..]), slot.suffix, next.rest);
  }

  lemma OwnAround(row: nat, a: Layout, h: Cell, b: Layout, r: Layout)
    requires Keeps(a) && Keeps(b) && h.Hole? && h.row == row
    ensures Own(row, a + [h] + (b + r)) == [h.value] + Own(row, r)
  {
    PutKeeps(a, row, "");
    PutKeeps(b, row, "");
    OwnConcat(row, a + [h], b + r);
    OwnConcat(row, a, [h]);
    OwnConcat(row, b, r);
    assert [h][1..] == [] && Own(row, [h]) == [h.value] + Own(row, []);
  }

  lemma OwnParts(d: Layout, row: nat, p: nat, q: nat, end: nat)
    requires q == p + 1 <= end <= |d| && Keeps(d[..p]) && Keeps(d[q..end]) && d[p].Hole? && d[p].row == row
    ensures Own(row, d) == [d[p].value] + Own(row, d[end..])
  {
    AroundSplit(d, p, q);
    MiddleSplit(d, q, end);
    OwnAround(row, d[..p], d[p], d[q..end], d[end..]);
  }

  lemma PutSlices(d: Layout, row: nat, v: string, p: nat, q: nat, end: nat)
    requires q == p + 1 <= end <= |d| && Keeps(d[..p]) && Keeps(d[q..end]) && d[p].Hole? && d[p].row == row
    ensures var t := Put(d, row, v);
      t[..p] == d[..p] && t[p] == Hole(row, v) && t[q..end] == d[q..end] && t[end..] == Put(d[end..], row, v)
  {
    var t := Put(d, row, v);
    forall i | 0 <= i < p ensures t[i] == d[i] { assert d[..p][i] == d[i]; }
    forall i | q <= i < end ensures t[i] == d[i] { assert d[q..end][i - q] == d[i]; }
    PutTail(d, row, v, end);
  }

  lemma PutParts(d: Layout, row: nat, v: string, p: nat, q: nat, end: nat)
    requires q == p + 1 <= end <= |d| && Keeps(d[..p]) && Keeps(d[q..end]) && d[p].Hole? && d[p].row == row
    ensures Text(Put(d, row, v)) == Text(d[..p]) + v + (Text(d[q..end]) + Text(Put(d[end..], row, v)))
  {
    var t := Put(d, row, v);
    PutSlices(d, row, v, p, q, end);
    AroundSplit(t, p, q);
    MiddleSplit(t, q, end);
    AroundText(t[..p], t[p], t[q..]);
    TextConcat(t[q..end], t[end..]);
  }

  lemma HitGives(slot: Slot, bol: bool, s: string, capture: string, line: bool, rest: string, v: string)
    requires s != "" && Next(slot, bol, s) == Hit(capture, line, rest)
    ensures Values(slot, bol, s) == [capture] + Values(slot, line, rest)
    ensures Replace(slot, bol, s, v) == slot.prefix + v + (slot.suffix + Replace(slot, line, rest, v))
  {
  }

  /** The match at the head takes its own hole, and goes on with the rest. */
  ghost predicate Taken(slot: Slot, row: nat, bol: bool, d: Layout, m: nat, p: nat, q: nat, end: nat) {
    && HomeAt(row, d, m, p, q, end)
    && Text(d) != "" && Text(d[..p]) == slot.prefix && Text(d[q..end]) == slot.suffix
    && Next(slot, bol, Text(d)) == Hit(d[p].value, EndsLine(slot.suffix), Text(d[end..]))
  }

  lemma HomeTaken(slot: Slot, row: nat, bol: bool, d: Layout, m: nat, p: nat, q: nat, end: nat)
    requires Tame(slot) && Text(d) != "" && MatchHead(slot, bol, Text(d)) == Some(m) && Home(slot, row, d, m)
    requires p == |slot.prefix| && q == p + 1 && end == q + |slot.suffix|
    ensures Taken(slot, row, bol, d, m, p, q, end)
  {
    HomeText(slot, row, bol, d, m, p, q, end);
    HomeIsAt(slot, row, d, m, p, q, end);
    TakenBy(slot, row, bol, d, m, p, q, end, Text(d), Text(d[end..]));
  }

  lemma HomeIsAt(slot: Slot, row: nat, d: Layout, m: nat, p: nat, q: nat, end: nat)
    requires Home(slot, row, d, m) && p == |slot.prefix| && q == p + 1 && end == q + |slot.suffix|
    ensures HomeAt(row, d, m, p, q, end)
  {
  }

  lemma TakenBy(slot: Slot, row: nat, bol: bool, d: Layout, m: nat, p: nat, q: nat, end: nat, s: string, rest: string)
    requires HomeAt(row, d, m, p, q, end) && s == Text(d) && s != "" && rest == Text(d[end..]) && WellFormed(slot)
    requires Text(d[..p]) == slot.prefix && Text(d[q..end]) == slot.suffix
    requires Next(slot, bol, s).Hit? && Next(slot, bol, s).capture == d[p].value && Next(slot, bol, s).rest == rest
    ensures Taken(slot, row, bol, d, m, p, q, end)
  {
    HitIs(slot, bol, s, d[p].value, rest);
  }

  lemma HitIs(slot: Slot, bol: bool, s: string, capture: string, rest: string)
    requires WellFormed(slot) && s != "" && Next(slot, bol, s).Hit?
    requires Next(slot, bol, s).capture == capture && Next(slot, bol, s).rest == rest
    ensures Next(slot, bol, s) == Hit(capture, EndsLine(slot.suffix), rest)
  {
    HitMeans(slot, bol, s);
  }

  lemma NotEmpty(d: Layout)
    requires d != [] && d[0].Keep?
    ensures Text(d) != ""
  {
  }

  lemma TakenHome(slot: Slot, row: nat, bol: bool, d: Layout, m: nat, v: string, p: nat, q: nat, end: nat, rest: Layout)
    requires Taken(slot, row, bol, d, m, p, q, end) && rest == d[end..]
      && Agrees(slot, row, EndsLine(slot.suffix), rest, v)
    ensures Agrees(slot, row, bol, d, v)
  {
    HitGives(slot, bol, Text(d), d[p].value, EndsLine(slot.suffix), Text(rest), v);
    OwnParts(d, row, p, q, end);
    PutParts(d, row, v, p, q, end);
  }

  /** A slot reads exactly its own holes, and rewriting fills exactly them. */
  lemma {:induction false} FitsMeans(slot: Slot, row: nat, bol: bool, d: Layout, v: string)
    requires Tame(slot) && Fits(slot, row, bol, d)
    ensures Agrees(slot, row, bol, d, v)
    decreases |d|
  {
    if d != [] {
      match d[0]
      case Hole(r, value) =>
        FitsMeans(slot, row, false, d[1..], v);
        SkippedHole(slot, row, bol, d, v);
      case Keep(c) =>
        match MatchHead(slot, bol, Text(d))
        case None =>
          FitsMeans(slot, row, c == '\n', d[1..], v);
          SkippedChar(slot, row, bol, d, v);
        case Some(m) =>
          var q := |slot.prefix| + 1;
          var end := q + |slot.suffix|;
          NotEmpty(d);
          FitsGives(slot, row, bol, d, m, end);
          HomeTaken(slot, row, bol, d, m, |slot.prefix|, q, end);
          FitsMeans(slot, row, EndsLine(slot.suffix), d[end..], v);
          TakenHome(slot, row, bol, d, m, v, |slot.prefix|, q, end, d[end..]);
    }
  }
}
