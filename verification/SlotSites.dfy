/** The layout of a text whose slots have disjoint matches. */
module SlotSites {
  import opened Wrappers
  import opened Slots
  import opened SlotReading
  import opened SlotLayout
  import opened SlotFits

  /** A match: its prefix is text[start..from], its capture text[from..to], its suffix text[to..end]. */
  datatype Site = Site(start: nat, from: nat, to: nat, end: nat)

  function SiteOf(slot: Slot, at: nat, size: nat): (b: Site)
    ensures b.start == at && b.from == at + |slot.prefix| && b.to == b.from + size && b.end == b.to + |slot.suffix|
  {
    var from := at + |slot.prefix|;
    Site(at, from, from + size, from + size + |slot.suffix|)
  }

  /** The matches of `finditer`, by position; s is the text from `at` on. */
  function Sites(slot: Slot, bol: bool, s: string, at: nat): seq<Site>
    decreases |s|
  {
    if s == "" then []
    else
      match Next(slot, bol, s)
      case Skip(_, line, rest) => Sites(slot, line, rest, at + 1)
      case Hit(capture, line, rest) =>
        var b := SiteOf(slot, at, |capture|);
        [b] + Sites(slot, line, rest, b.end)
  }

  predicate Disjoint(a: Site, b: Site) { a.end <= b.start || b.end <= a.start }

  /** A match of the text whose capture is made of version characters. */
  predicate IsSite(text: string, b: Site) {
    b.start <= b.from < b.to <= b.end <= |text| && Clean(text[b.from..b.to])
  }

  predicate HasSite(sites: seq<seq<Site>>, r: int, i: int) { 0 <= r < |sites| && 0 <= i < |sites[r]| }

  /** No two matches, of one row or of two, have a character in common. */
  ghost predicate AllDisjoint(sites: seq<seq<Site>>) {
    forall r, i, r', i' :: HasSite(sites, r, i) && HasSite(sites, r', i') && (r != r' || i != i') ==>
      Disjoint(sites[r][i], sites[r'][i'])
  }

  ghost predicate AllSites(text: string, sites: seq<seq<Site>>) {
    forall r, i :: HasSite(sites, r, i) ==> IsSite(text, sites[r][i])
  }

  // ---------------------------------------------------------------- the layout

  datatype Mark = Mark(row: nat, to: nat)

  /** A capture of the row starts at `at` and ends at `to`. */
  ghost predicate Captures(sites: seq<seq<Site>>, row: nat, at: nat, to: nat) {
    exists i :: HasSite(sites, row, i) && sites[row][i].from == at && sites[row][i].to == to
  }

  ghost function MarkAt(sites: seq<seq<Site>>, at: nat): (m: Option<Mark>)
    ensures m.Some? ==> Captures(sites, m.value.row, at, m.value.to)
    ensures m.None? ==> forall row: nat, to: nat :: !Captures(sites, row, at, to)
  {
    if exists row: nat, to: nat :: Captures(sites, row, at, to) then
      var row: nat, to: nat :| Captures(sites, row, at, to);
      Some(Mark(row, to))
    else None
  }

  /** The text from `at` on, with a hole for every capture. */
  ghost function Build(text: string, sites: seq<seq<Site>>, at: nat): Layout
    decreases |text| - at
  {
    if at >= |text| then []
    else
      var m := MarkAt(sites, at);
      if m.Some? && at < m.value.to <= |text| then
        [Hole(m.value.row, text[at..m.value.to])] + Build(text, sites, m.value.to)
      else [Keep(text[at])] + Build(text, sites, at + 1)
  }

  lemma TextSplit(text: string, at: nat, to: nat)
    requires at <= to <= |text|
    ensures text[at..] == text[at..to] + text[to..]
  {
  }

  lemma {:induction false} BuildText(text: string, sites: seq<seq<Site>>, at: nat)
    requires at <= |text|
    ensures Text(Build(text, sites, at)) == text[at..]
    decreases |text| - at
  {
    if at < |text| {
      var m := MarkAt(sites, at);
      var to := if m.Some? && at < m.value.to <= |text| then m.value.to else at + 1;
      BuildText(text, sites, to);
      TextSplit(text, at, to);
      if to == at + 1 { assert text[at..to] == [text[at]]; }
    }
  }

  lemma {:induction false} BuildClean(text: string, sites: seq<seq<Site>>, at: nat)
    requires AllSites(text, sites)
    ensures CleanHoles(Build(text, sites, at))
    decreases |text| - at
  {
    if at < |text| {
      var m := MarkAt(sites, at);
      if m.Some? && at < m.value.to <= |text| {
        var i :| HasSite(sites, m.value.row, i) && sites[m.value.row][i].from == at
          && sites[m.value.row][i].to == m.value.to;
        assert IsSite(text, sites[m.value.row][i]);
        BuildClean(text, sites, m.value.to);
      } else {
        BuildClean(text, sites, at + 1);
      }
    }
  }

  /** Characters that are no capture's stay. */
  lemma {:induction false} BuildKeeps(text: string, sites: seq<seq<Site>>, at: nat, n: nat, next: nat)
    requires next == at + n <= |text| && forall k: nat :: at <= k < next ==> MarkAt(sites, k).None?
    ensures var d := Build(text, sites, at); n <= |d| && Keeps(d[..n]) && d[n..] == Build(text, sites, next)
    decreases n
  {
    var d := Build(text, sites, at);
    if n == 0 {
      assert d[0..] == d;
    } else {
      BuildKeeps(text, sites, at + 1, n - 1, next);
      assert d[1..] == Build(text, sites, at + 1);
      assert d[n..] == d[1..][n - 1..];
      assert forall i :: 0 < i < n ==> d[i] == d[1..][..n - 1][i - 1];
    }
  }

  // ---------------------------------------------------------------- the layout fits

  predicate From(sites: seq<Site>, at: nat) {
    forall k :: 0 <= k < |sites| ==> at <= sites[k].start < sites[k].from < sites[k].to <= sites[k].end
  }

  lemma FromCons(b: Site, rest: seq<Site>, at: nat, end: nat)
    requires at <= b.start < b.from < b.to <= b.end && at <= end && From(rest, end)
    ensures From([b] + rest, at)
  {
  }

  lemma HitCaptures(slot: Slot, bol: bool, s: string)
    requires s != "" && Next(slot, bol, s).Hit?
    ensures |Next(slot, bol, s).capture| > 0
  {
    NextSplits(slot, bol, s);
  }

  lemma {:induction false} SitesShape(slot: Slot, bol: bool, s: string, at: nat)
    requires |slot.prefix| > 0
    ensures From(Sites(slot, bol, s, at), at)
    decreases |s|
  {
    if s != "" {
      match Next(slot, bol, s)
      case Skip(_, line, rest) => SitesShape(slot, line, rest, at + 1);
      case Hit(capture, line, rest) =>
        var b := SiteOf(slot, at, |capture|);
        HitCaptures(slot, bol, s);
        SitesShape(slot, line, rest, b.end);
        FromCons(b, Sites(slot, line, rest, b.end), at, b.end);
    }
  }

  /** A position in two matches is in one. */
  lemma OneMatch(text: string, sites: seq<seq<Site>>, r: nat, i: nat, r': nat, i': nat, x: nat)
    requires AllDisjoint(sites) && HasSite(sites, r, i) && HasSite(sites, r', i')
    requires sites[r][i].start <= x < sites[r][i].end && sites[r'][i'].start <= x < sites[r'][i'].end
    ensures r == r' && i == i'
  {
    MatchesApart(sites, r, i, r', i', sites[r][i], sites[r'][i']);
  }

  lemma MatchesApart(sites: seq<seq<Site>>, r: nat, i: nat, r': nat, i': nat, a: Site, b: Site)
    requires AllDisjoint(sites) && HasSite(sites, r, i) && HasSite(sites, r', i')
    requires a == sites[r][i] && b == sites[r'][i']
    ensures (r == r' && i == i') || Disjoint(a, b)
  {
  }

  /** The capture that starts at k belongs to the one match that k is in. */
  lemma MarkIn(text: string, sites: seq<seq<Site>>, r: nat, i: nat, k: nat)
    requires AllDisjoint(sites) && AllSites(text, sites) && HasSite(sites, r, i)
    requires sites[r][i].start <= k < sites[r][i].end
    ensures MarkAt(sites, k) == if k == sites[r][i].from then Some(Mark(r, sites[r][i].to)) else None
  {
    assert IsSite(text, sites[r][i]);
    var m := MarkAt(sites, k);
    if m.Some? {
      var i' :| HasSite(sites, m.value.row, i') && sites[m.value.row][i'].from == k
        && sites[m.value.row][i'].to == m.value.to;
      assert IsSite(text, sites[m.value.row][i']);
      OneMatch(text, sites, r, i, m.value.row, i', k);
    }
    if k == sites[r][i].from { assert Captures(sites, r, k, sites[r][i].to); }
  }

  predicate StartFrom(sites: seq<Site>, next: nat) { forall k :: 0 <= k < |sites| ==> sites[k].start >= next }

  lemma HitStarts(slot: Slot, bol: bool, s: string, at: nat)
    requires s != ""
    ensures Next(slot, bol, s).Hit? ==> Sites(slot, bol, s, at) != [] && Sites(slot, bol, s, at)[0].start == at
  {
  }

  /** Where no match starts, the scan passes. */
  lemma {:induction false} SkipRange(slot: Slot, bol: bool, s: string, at: nat, n: nat, next: nat)
    requires n <= |s| && next == at + n && StartFrom(Sites(slot, bol, s, at), next)
    ensures NoneIn(slot, bol, s, n) && Sites(slot, bol, s, at) == Sites(slot, LineAt(bol, s, n), s[n..], next)
    decreases n
  {
    if n == 0 {
      assert s[0..] == s;
    } else {
      var sites := Sites(slot, bol, s, at);
      var p := Next(slot, bol, s);
      HitStarts(slot, bol, s, at);
      var line, rest, i := s[0] == '\n', s[1..], n - 1;
      SkipRange(slot, line, rest, at + 1, i, next);
      assert rest[i..] == s[n..] && LineAt(line, rest, i) == LineAt(bol, s, n) && s[0..] == s;
      forall k: nat | k < n ensures !MatchesAt(slot, bol, s, k) {
        if k > 0 { MatchesLater(slot, bol, s, k - 1, k); }
      }
    }
  }

  /** The scan of a row has come to `at`, past its first i matches and into no capture. */
  ghost predicate Scanning(slot: Slot, row: nat, bol: bool, text: string, sites: seq<seq<Site>>, at: nat, i: nat) {
    && Tame(slot) && AllDisjoint(sites) && AllSites(text, sites) && at <= |text|
    && row < |sites| && i <= |sites[row]| && Sites(slot, bol, text[at..], at) == sites[row][i..]
    && (forall k :: 0 <= k < i ==> sites[row][k].end <= at)
    && (forall r, k :: HasSite(sites, r, k) && sites[r][k].from < at ==> sites[r][k].to <= at)
  }

  /** Ahead are the row's other matches. */
  lemma AheadOf(slot: Slot, row: nat, bol: bool, text: string, sites: seq<seq<Site>>, at: nat, i: nat, k: nat)
    requires Scanning(slot, row, bol, text, sites, at, i) && i <= k < |sites[row]|
    ensures at <= sites[row][k].start < sites[row][k].from
  {
    SitesShape(slot, bol, text[at..], at);
    assert sites[row][i..][k - i] == sites[row][k];
  }

  /** A capture ahead is another row's, and the row's own matches ahead start after it. */
  lemma HoleOfOther(slot: Slot, row: nat, bol: bool, text: string, sites: seq<seq<Site>>, at: nat, i: nat, r: nat,
                    k: nat)
    requires Scanning(slot, row, bol, text, sites, at, i) && HasSite(sites, r, k) && sites[r][k].from == at
    ensures r != row && StartFrom(sites[row][i..], sites[r][k].to)
  {
    var b := sites[r][k];
    assert IsSite(text, b);
    if r == row && k >= i { AheadOf(slot, row, bol, text, sites, at, i, k); }
    forall j | 0 <= j < |sites[row][i..]| ensures sites[row][i..][j].start >= b.to {
      AheadOf(slot, row, bol, text, sites, at, i, i + j);
      assert IsSite(text, sites[row][i + j]) && Disjoint(sites[row][i + j], b);
    }
  }

  /** At a capture of another row the scan passes over it. */
  lemma ScanHole(slot: Slot, row: nat, bol: bool, text: string, sites: seq<seq<Site>>, at: nat, i: nat, m: Mark, n: nat)
    requires Scanning(slot, row, bol, text, sites, at, i) && MarkAt(sites, at) == Some(m) && m.to == at + n
    ensures at < m.to <= |text| && Clean(text[at..m.to]) && m.row != row
    ensures NoneIn(slot, bol, text[at..], n) && Scanning(slot, row, false, text, sites, m.to, i)
  {
    var k :| HasSite(sites, m.row, k) && sites[m.row][k].from == at && sites[m.row][k].to == m.to;
    assert IsSite(text, sites[m.row][k]);
    HoleOfOther(slot, row, bol, text, sites, at, i, m.row, k);
    SkipRange(slot, bol, text[at..], at, n, m.to);
    CleanLine(text[at..m.to]);
    LineOfPart(bol, text, at, n, m.to);
    PastHole(text, sites, m.row, k, at);
  }

  lemma LineOfPart(bol: bool, text: string, at: nat, n: nat, to: nat)
    requires at < to <= |text| && to == at + n
    ensures text[at..][n..] == text[to..] && LineAt(bol, text[at..], n) == EndsLine(text[at..to])
  {
    assert text[at..][n - 1] == text[at..to][n - 1];
  }

  /** No other capture starts inside a capture. */
  lemma PastHole(text: string, sites: seq<seq<Site>>, row: nat, k: nat, at: nat)
    requires AllDisjoint(sites) && AllSites(text, sites) && HasSite(sites, row, k) && sites[row][k].from == at
    requires forall r, j :: HasSite(sites, r, j) && sites[r][j].from < at ==> sites[r][j].to <= at
    ensures forall r, j ::
      HasSite(sites, r, j) && sites[r][j].from < sites[row][k].to ==> sites[r][j].to <= sites[row][k].to
  {
    var b := sites[row][k];
    assert IsSite(text, b);
    forall r, j | HasSite(sites, r, j) && sites[r][j].from < b.to ensures sites[r][j].to <= b.to {
      if sites[r][j].from >= at {
        assert IsSite(text, sites[r][j]);
        OneMatch(text, sites, r, j, row, k, sites[r][j].from);
      }
    }
  }

  /** At a character that no match starts at the scan goes on. */
  lemma ScanChar(slot: Slot, row: nat, bol: bool, text: string, sites: seq<seq<Site>>, at: nat, i: nat, next: nat)
    requires Scanning(slot, row, bol, text, sites, at, i) && MarkAt(sites, at).None? && at < |text| && next == at + 1
    requires Next(slot, bol, text[at..]).Skip?
    ensures Scanning(slot, row, text[at] == '\n', text, sites, next, i)
  {
    assert text[at..][1..] == text[next..] && text[at..][0] == text[at];
    forall r, k | HasSite(sites, r, k) && sites[r][k].from < next ensures sites[r][k].to <= next {
      if sites[r][k].from == at { assert Captures(sites, r, at, sites[r][k].to); }
    }
  }

  /** The match that starts at `at` is the row's next one. */
  lemma MatchHere(slot: Slot, row: nat, bol: bool, text: string, sites: seq<seq<Site>>, at: nat, i: nat,
                  capture: string, rest: string, from: nat, to: nat, end: nat)
    requires Scanning(slot, row, bol, text, sites, at, i) && at < |text|
    requires Next(slot, bol, text[at..]).Hit?
    requires Next(slot, bol, text[at..]).capture == capture && Next(slot, bol, text[at..]).rest == rest
    requires from == at + |slot.prefix| && to == from + |capture| && end == to + |slot.suffix|
    ensures i < |sites[row]| && sites[row][i] == Site(at, from, to, end)
    ensures at < from < to <= end <= |text| && text[from..to] == capture && rest == text[end..]
  {
    var next := Next(slot, bol, text[at..]);
    assert sites[row][i..][0] == Site(at, from, to, end);
    NextSplits(slot, bol, text[at..]);
    FilledAt(slot, text, at, capture, rest, from, to, end);
  }

  lemma FilledAt(slot: Slot, text: string, at: nat, capture: string, rest: string, from: nat, to: nat, end: nat)
    requires at <= |text| && text[at..] == Filled(slot, capture, rest)
    requires from == at + |slot.prefix| && to == from + |capture| && end == to + |slot.suffix|
    ensures end <= |text| && text[from..to] == capture && rest == text[end..]
  {
    var s, f, t, e := text[at..], |slot.prefix|, |slot.prefix| + |capture|, |slot.prefix| + |capture| + |slot.suffix|;
    FilledParts(slot, capture, rest, s, t, e);
    Sliced(text, s, at, |text|, f, t, from, to);
    Sliced(text, s, at, |text|, e, |s|, end, |text|);
  }

  /** After a match the scan is past it. */
  lemma ScanMatch(slot: Slot, row: nat, bol: bool, text: string, sites: seq<seq<Site>>, at: nat, i: nat, end: nat)
    requires Scanning(slot, row, bol, text, sites, at, i) && at < |text|
    requires i < |sites[row]| && sites[row][i].start == at && sites[row][i].end == end <= |text|
    requires Next(slot, bol, text[at..]).Hit? && Next(slot, bol, text[at..]).rest == text[end..]
    requires Sites(slot, bol, text[at..], at)
      == [sites[row][i]] + Sites(slot, EndsLine(slot.suffix), text[end..], end)
    ensures Scanning(slot, row, EndsLine(slot.suffix), text, sites, end, i + 1)
  {
    var b := sites[row][i];
    assert IsSite(text, b);
    assert sites[row][i..][1..] == sites[row][i + 1..];
    assert forall k :: 0 <= k < i + 1 ==> sites[row][k].end <= end;
    forall r, k | HasSite(sites, r, k) && sites[r][k].from < end ensures sites[r][k].to <= end {
      if sites[r][k].from >= at {
        assert IsSite(text, sites[r][k]);
        OneMatch(text, sites, r, k, row, i, sites[r][k].from);
      }
    }
  }

  lemma MarksOfMatch(text: string, sites: seq<seq<Site>>, row: nat, i: nat, at: nat, from: nat, to: nat, end: nat)
    requires AllDisjoint(sites) && AllSites(text, sites) && HasSite(sites, row, i)
      && sites[row][i] == Site(at, from, to, end)
    ensures at <= from < to <= end <= |text| && Clean(text[from..to]) && MarkAt(sites, from) == Some(Mark(row, to))
    ensures forall k: nat :: at <= k < end && k != from ==> MarkAt(sites, k).None?
  {
    assert IsSite(text, sites[row][i]);
    forall k: nat | at <= k < end ensures MarkAt(sites, k) == if k == from then Some(Mark(row, to)) else None {
      MarkIn(text, sites, row, i, k);
    }
  }

  lemma BuildHole(text: string, sites: seq<seq<Site>>, row: nat, from: nat, to: nat)
    requires MarkAt(sites, from) == Some(Mark(row, to)) && from < to <= |text|
    ensures Build(text, sites, from) == [Hole(row, text[from..to])] + Build(text, sites, to)
  {
  }

  /** The layout holds the match: its prefix, its hole, its suffix. */
  lemma BuildMatch(slot: Slot, text: string, sites: seq<seq<Site>>, row: nat, i: nat, at: nat, from: nat, to: nat,
                   end: nat, p: nat, q: nat, stop: nat)
    requires AllDisjoint(sites) && AllSites(text, sites) && HasSite(sites, row, i)
      && sites[row][i] == Site(at, from, to, end)
    requires from == at + p && end == to + |slot.suffix| && p == |slot.prefix| && q == p + 1
      && stop == q + |slot.suffix|
    ensures var d := Build(text, sites, at); Home(slot, row, d, to - from) && d[stop..] == Build(text, sites, end)
  {
    MarksOfMatch(text, sites, row, i, at, from, to, end);
    BuildKeeps(text, sites, at, p, from);
    BuildKeeps(text, sites, to, |slot.suffix|, end);
    BuildHole(text, sites, row, from, to);
    var d, f := Build(text, sites, at), Build(text, sites, to);
    Joined(d, Build(text, sites, from), f, p, q, stop, |slot.suffix|);
  }

  lemma Joined(d: Layout, e: Layout, f: Layout, p: nat, q: nat, end: nat, n: nat)
    requires p <= |d| && d[p..] == e && e != [] && e[1..] == f && n <= |f| && q == p + 1 && end == q + n
    ensures end <= |d| && d[p] == e[0] && d[q..end] == f[..n] && d[end..] == f[n..]
  {
    assert e[0] == d[p..][0];
    assert d[q..] == d[p..][1..];
    assert d[q..][..n] == d[q..end] && d[q..][n..] == d[end..];
  }

  /** A row whose matches the layout was made from fits it. */
  lemma {:induction false} BuildFits(slot: Slot, row: nat, bol: bool, text: string, sites: seq<seq<Site>>, at: nat,
                                     i: nat)
    requires Scanning(slot, row, bol, text, sites, at, i)
    ensures Fits(slot, row, bol, Build(text, sites, at))
    decreases |text| - at
  {
    if at < |text| {
      var m := MarkAt(sites, at);
      BuildText(text, sites, at);
      if m.Some? {
        ScanHole(slot, row, bol, text, sites, at, i, m.value, m.value.to - at);
        BuildFits(slot, row, false, text, sites, m.value.to, i);
      } else {
        CharFits(slot, row, bol, text, sites, at, i);
      }
    }
  }

  lemma HitParts(slot: Slot, bol: bool, s: string)
    requires WellFormed(slot) && s != "" && Next(slot, bol, s).Hit?
    ensures MatchHead(slot, bol, s) == Some(|Next(slot, bol, s).capture|) && |Next(slot, bol, s).capture| > 0
    ensures Next(slot, bol, s).line == EndsLine(slot.suffix)
  {
    HitLength(slot, bol, s);
    HitMeans(slot, bol, s);
  }

  lemma HitLength(slot: Slot, bol: bool, s: string)
    requires s != "" && Next(slot, bol, s).Hit?
    ensures MatchHead(slot, bol, s) == Some(|Next(slot, bol, s).capture|) && |Next(slot, bol, s).capture| > 0
  {
  }

  /** A match of the row: where its parts are, and the scan past it. */
  lemma ScanHit(slot: Slot, row: nat, bol: bool, text: string, sites: seq<seq<Site>>, at: nat, i: nat)
    returns (from: nat, to: nat, end: nat)
    requires Scanning(slot, row, bol, text, sites, at, i) && at < |text| && Next(slot, bol, text[at..]).Hit?
    ensures HasSite(sites, row, i) && sites[row][i] == Site(at, from, to, end)
    ensures from == at + |slot.prefix| && end == to + |slot.suffix| && at < from < to <= end <= |text|
    ensures MatchHead(slot, bol, text[at..]) == Some(to - from)
    ensures Scanning(slot, row, EndsLine(slot.suffix), text, sites, end, i + 1)
  {
    var s := text[at..];
    var next := Next(slot, bol, s);
    from := at + |slot.prefix|;
    to := from + |next.capture|;
    end := to + |slot.suffix|;
    HitParts(slot, bol, s);
    MatchHere(slot, row, bol, text, sites, at, i, next.capture, next.rest, from, to, end);
    HitSites(slot, bol, s, at, next.capture, next.line, next.rest, from, to, end);
    ScanMatch(slot, row, bol, text, sites, at, i, end);
  }

  lemma HitSites(slot: Slot, bol: bool, s: string, at: nat, capture: string, line: bool, rest: string, from: nat,
                 to: nat, end: nat)
    requires s != "" && Next(slot, bol, s) == Hit(capture, line, rest)
    requires from == at + |slot.prefix| && to == from + |capture| && end == to + |slot.suffix|
    ensures Sites(slot, bol, s, at) == [Site(at, from, to, end)] + Sites(slot, line, rest, end)
  {
    var b := SiteOf(slot, at, |capture|);
    assert b == Site(at, from, to, end);
    assert Sites(slot, bol, s, at) == [b] + Sites(slot, line, rest, b.end);
  }

  lemma SkipFits(slot: Slot, row: nat, bol: bool, text: string, sites: seq<seq<Site>>, at: nat, next: nat)
    requires at < |text| && next == at + 1 && MarkAt(sites, at).None? && MatchHead(slot, bol, text[at..]).None?
    requires Fits(slot, row, text[at] == '\n', Build(text, sites, next))
    ensures Fits(slot, row, bol, Build(text, sites, at))
  {
    BuildText(text, sites, at);
    assert Build(text, sites, at)[1..] == Build(text, sites, next);
  }

  lemma {:induction false} CharFits(slot: Slot, row: nat, bol: bool, text: string, sites: seq<seq<Site>>, at: nat,
                                    i: nat)
    requires Scanning(slot, row, bol, text, sites, at, i) && at < |text| && MarkAt(sites, at).None?
    ensures Fits(slot, row, bol, Build(text, sites, at))
    decreases |text| - at, 0
  {
    if Next(slot, bol, text[at..]).Skip? {
      ScanChar(slot, row, bol, text, sites, at, i, at + 1);
      BuildFits(slot, row, text[at] == '\n', text, sites, at + 1, i);
      SkipFits(slot, row, bol, text, sites, at, at + 1);
    } else {
      var from, to, end := ScanHit(slot, row, bol, text, sites, at, i);
      BuildFits(slot, row, EndsLine(slot.suffix), text, sites, end, i + 1);
      MatchFits(slot, row, bol, text, sites, i, at, from, to, end, |slot.prefix| + 1);
    }
  }

  lemma MatchFits(slot: Slot, row: nat, bol: bool, text: string, sites: seq<seq<Site>>, i: nat, at: nat, from: nat,
                  to: nat, end: nat, q: nat)
    requires Tame(slot) && AllDisjoint(sites) && AllSites(text, sites) && HasSite(sites, row, i)
    requires sites[row][i] == Site(at, from, to, end) && from == at + |slot.prefix| && end == to + |slot.suffix|
    requires q == |slot.prefix| + 1
    requires at < |text| && MarkAt(sites, at).None? && MatchHead(slot, bol, text[at..]) == Some(to - from)
    requires Fits(slot, row, EndsLine(slot.suffix), Build(text, sites, end))
    ensures Fits(slot, row, bol, Build(text, sites, at))
  {
    var d, stop := Build(text, sites, at), q + |slot.suffix|;
    BuildText(text, sites, at);
    BuildMatch(slot, text, sites, row, i, at, from, to, end, |slot.prefix|, q, stop);
    FitsByMatch(slot, row, bol, d, text[at..], to - from, Build(text, sites, end));
  }

  lemma CaptureIsClean(slot: Slot, bol: bool, s: string)
    requires WellFormed(slot) && slot.captured == VersionChars && s != "" && Next(slot, bol, s).Hit?
    ensures Clean(Next(slot, bol, s).capture)
  {
    var p, capture := |slot.prefix|, Next(slot, bol, s).capture;
    HitCaptures(slot, bol, s);
    RunEndMeans(slot.captured, s, p);
    forall k | 0 <= k < |capture| ensures In(VersionChars, capture[k]) { assert capture[k] == s[p + k]; }
  }

  ghost predicate AreSites(text: string, sites: seq<Site>) { forall k :: 0 <= k < |sites| ==> IsSite(text, sites[k]) }

  lemma OneMoreSite(text: string, b: Site, sites: seq<Site>, all: seq<Site>)
    requires IsSite(text, b) && AreSites(text, sites) && all == [b] + sites
    ensures AreSites(text, all)
  {
    forall k | 0 <= k < |all| ensures IsSite(text, all[k]) { if k > 0 { assert all[k] == sites[k - 1]; } }
  }

  lemma HitIsSite(slot: Slot, bol: bool, text: string, at: nat, s: string, capture: string, line: bool, rest: string,
                  b: Site)
    requires WellFormed(slot) && slot.captured == VersionChars && at <= |text| && s == text[at..] && s != ""
    requires Next(slot, bol, s) == Hit(capture, line, rest) && b == SiteOf(slot, at, |capture|)
    ensures IsSite(text, b) && rest == text[b.end..]
  {
    NextSplits(slot, bol, s);
    FilledAt(slot, text, at, capture, rest, b.from, b.to, b.end);
    CaptureIsClean(slot, bol, s);
  }

  /** The matches of a slot that captures version characters are sites of the text. */
  lemma {:induction false} VersionSites(slot: Slot, bol: bool, text: string, at: nat, s: string)
    requires WellFormed(slot) && slot.captured == VersionChars && at <= |text| && s == text[at..]
    ensures AreSites(text, Sites(slot, bol, s, at))
    decreases |s|
  {
    if s != "" {
      match Next(slot, bol, s)
      case Skip(_, line, rest) =>
        assert rest == text[at + 1..];
        VersionSites(slot, line, text, at + 1, rest);
      case Hit(capture, line, rest) =>
        var b := SiteOf(slot, at, |capture|);
        HitIsSite(slot, bol, text, at, s, capture, line, rest, b);
        VersionSites(slot, line, text, b.end, rest);
        OneMoreSite(text, b, Sites(slot, line, rest, b.end), Sites(slot, bol, s, at));
    }
  }

  // ---------------------------------------------------------------- whole texts

  /** The layout of a text, by the matches of its rows. */
  ghost function LayoutOf(text: string, sites: seq<seq<Site>>): Layout { Build(text, sites, 0) }

  /** Rows whose matches are pairwise disjoint have a common layout. */
  lemma CommonLayout(text: string, sites: seq<seq<Site>>)
    requires AllDisjoint(sites) && AllSites(text, sites)
    ensures Text(LayoutOf(text, sites)) == text && CleanHoles(LayoutOf(text, sites))
    ensures forall slot, row: nat :: Tame(slot) && row < |sites| && sites[row] == Sites(slot, true, text, 0) ==>
      Fits(slot, row, true, LayoutOf(text, sites))
  {
    BuildText(text, sites, 0);
    BuildClean(text, sites, 0);
    assert text[0..] == text;
    forall slot, row: nat | Tame(slot) && row < |sites| && sites[row] == Sites(slot, true, text, 0)
      ensures Fits(slot, row, true, LayoutOf(text, sites))
    {
      assert sites[row][0..] == sites[row];
      BuildFits(slot, row, true, text, sites, 0, 0);
    }
  }
}
