/** What a planned bump says once it is written. Several slots compose in one file: rewriting
    one keeps the captures of all others, as long as their matches do not overlap. */
module BumpSlots {
  import opened Wrappers
  import Semver
  import opened Slots
  import opened SlotRegions
  import opened SlotLayout
  import opened SlotFits
  import opened SlotSites
  import opened SlotTable
  import opened SlotRows
  import opened Bump
  import opened BumpRun

  function Lift<T>(r: Result<T, SlotRegions.Error>): Result<T, Failure> {
    match r case Ok(x) => Ok(x) case Err(TableNotFound(name)) => Err(NoTable(name))
  }

  /** The tool reads and rewrites this entry with this slot. */
  ghost predicate Uses(tool: Tool, e: Entry, slot: Slot) {
    && (forall text :: tool.values(e, text) == Lift(SlotValues(text, slot)))
    && (forall text, v :: tool.replaced(e, text, v) == Lift(SlotReplaced(text, slot, v)))
  }

  /** The i-th entry is rewritten, in this file. */
  predicate Active(all: seq<Entry>, i: nat, path: string, targets: Targets) {
    i < |all| && all[i].path == path && all[i].track in targets
  }

  /** Whatever versions the holes hold, the entry's matches are its holes. */
  ghost predicate Follows(tool: Tool, e: Entry, i: nat, d: Layout) {
    forall d' :: Like(d, d') ==>
      && tool.values(e, Text(d')) == Ok(Own(i, d'))
      && forall v :: Versionlike(v) ==> tool.replaced(e, Text(d'), v) == Ok(Text(Put(d', i, v)))
  }

  /** A literal slot that fits a layout follows it. */
  lemma LiteralFollows(tool: Tool, e: Entry, i: nat, slot: Slot, d: Layout)
    requires Uses(tool, e, slot) && slot.scope.WholeText? && Tame(slot) && Fits(slot, i, true, d) && CleanHoles(d)
    ensures Follows(tool, e, i, d)
  {
    forall d' | Like(d, d')
      ensures tool.values(e, Text(d')) == Ok(Own(i, d'))
      ensures forall v :: Versionlike(v) ==> tool.replaced(e, Text(d'), v) == Ok(Text(Put(d', i, v)))
    {
      FitsAnyVersions(slot, i, true, d, d');
      var text := Text(d');
      assert text[0..|text|] == text;
      FitsMeans(slot, i, true, d', "");
      forall v | Versionlike(v) ensures tool.replaced(e, text, v) == Ok(Text(Put(d', i, v))) {
        FitsMeans(slot, i, true, d', v);
        var r := Rewritten(text, slot, 0, |text|, v);
        assert Spliced(text, 0, |text|, r) == r;
      }
    }
  }

  // ---------------------------------------------------------------- one rewrite

  lemma {:induction false} OwnPut(d: Layout, row: nat, v: string, i: nat)
    ensures Own(i, Put(d, row, v)) == if i == row then Same(Own(i, d), v) else Own(i, d)
    decreases |d|
  {
    if d != [] {
      PutTail(d, row, v, 1);
      OwnPut(d[1..], row, v, i);
      assert [] + Own(i, d[1..]) == Own(i, d[1..]) && [] + Own(i, Put(d[1..], row, v)) == Own(i, Put(d[1..], row, v));
      if d[0].Hole? && d[0].row == row { SameFirst(d[0].value, Own(row, d[1..]), v); }
    }
  }

  lemma LikePut(d: Layout, d': Layout, row: nat, v: string)
    requires Like(d, d') && Versionlike(v)
    ensures Like(d, Put(d', row, v))
  {
    var t := Put(d', row, v);
    forall i | 0 <= i < |d| ensures LikeCell(d[i], t[i]) { assert LikeCell(d[i], d'[i]); }
  }

  /** Rewriting one slot of a text keeps the captures of every other, if their matches are disjoint. */
  lemma RewriteKeepsOthers(text: string, a: Slot, b: Slot, v: string)
    requires Tame(a) && Tame(b) && Versionlike(v)
    requires var sites := [Sites(a, true, text, 0), Sites(b, true, text, 0)];
      AllDisjoint(sites) && AllSites(text, sites)
    ensures Values(b, true, Replace(a, true, text, v)) == Values(b, true, text)
    ensures Values(a, true, Replace(a, true, text, v)) == Same(Values(a, true, text), v)
  {
    var sites := [Sites(a, true, text, 0), Sites(b, true, text, 0)];
    var d := LayoutOf(text, sites);
    CommonLayout(text, sites);
    assert Fits(a, 0, true, d) && Fits(b, 1, true, d);
    var t := Put(d, 0, v);
    assert Like(d, d);
    LikePut(d, d, 0, v);
    FitsAnyVersions(a, 0, true, d, t);
    FitsAnyVersions(b, 1, true, d, t);
    FitsMeans(a, 0, true, d, v);
    FitsMeans(b, 1, true, d, v);
    FitsMeans(a, 0, true, t, v);
    FitsMeans(b, 1, true, t, v);
    OwnPut(d, 0, v, 0);
    OwnPut(d, 0, v, 1);
  }

  lemma VersionSitesOfBoth(text: string, a: Slot, b: Slot)
    requires Slots.WellFormed(a) && Slots.WellFormed(b) && a.captured == VersionChars && b.captured == VersionChars
    ensures AllSites(text, [Sites(a, true, text, 0), Sites(b, true, text, 0)])
  {
    assert text[0..] == text;
    VersionSites(a, true, text, 0, text);
    VersionSites(b, true, text, 0, text);
  }

  /** The literal rows of the documents need no more than disjoint matches. */
  lemma DocRewriteKeepsOthers(text: string, a: Slot, b: Slot, v: string)
    requires a in DOC_SLOTS && b in DOC_SLOTS && Versionlike(v)
    requires AllDisjoint([Sites(a, true, text, 0), Sites(b, true, text, 0)])
    ensures Values(b, true, Replace(a, true, text, v)) == Values(b, true, text)
    ensures Values(a, true, Replace(a, true, text, v)) == Same(Values(a, true, text), v)
  {
    DocRow(a);
    DocRow(b);
    VersionSitesOfBoth(text, a, b);
    RewriteKeepsOthers(text, a, b, v);
  }

  // ---------------------------------------------------------------- all rewrites of a file

  /** The bumped entry's spelling of the wanted version is a version. */
  predicate WantsVersion(e: Entry, want: Tracks) {
    Spelling(e.pep440, want.At(e.track)).Ok? && Versionlike(Spelling(e.pep440, want.At(e.track)).value)
  }

  ghost predicate AllFollow(tool: Tool, all: seq<Entry>, path: string, d: Layout, targets: Targets, want: Tracks) {
    forall i: nat :: Active(all, i, path, targets) ==> Follows(tool, all[i], i, d) && WantsVersion(all[i], want)
  }

  /** After n entries: those that are active say their version, the others what they said. */
  ghost predicate SaysUpTo(all: seq<Entry>, n: nat, path: string, d: Layout, d': Layout, targets: Targets,
                           want: Tracks) {
    forall i: nat :: Active(all, i, path, targets) ==>
      && |Own(i, d')| == |Own(i, d)|
      && if i < n then Spelling(all[i].pep440, want.At(all[i].track)).Ok?
                       && Spells(Own(i, d'), Spelling(all[i].pep440, want.At(all[i].track)).value)
         else Own(i, d') == Own(i, d)
  }

  lemma EditedFollows(tool: Tool, e: Entry, i: nat, d: Layout, d': Layout, want: Tracks)
    requires Follows(tool, e, i, d) && WantsVersion(e, want) && Like(d, d')
    ensures var v := Spelling(e.pep440, want.At(e.track)).value;
      Edited(tool, e, Text(d'), want) == if Own(i, d') == [] then Err(SlotNotFound(e)) else Ok(Text(Put(d', i, v)))
  {
  }

  /** One more entry says its version. */
  lemma OneMoreSays(all: seq<Entry>, k: nat, n: nat, path: string, d: Layout, before: Layout, v: string,
                    targets: Targets, want: Tracks)
    requires n == k + 1 && SaysUpTo(all, k, path, d, before, targets, want) && Active(all, k, path, targets)
    requires Spelling(all[k].pep440, want.At(all[k].track)) == Ok(v) && Own(k, before) != []
    ensures SaysUpTo(all, n, path, d, Put(before, k, v), targets, want)
  {
    forall i: nat | Active(all, i, path, targets)
      ensures Own(i, Put(before, k, v)) == if i == k then Same(Own(i, before), v) else Own(i, before)
    {
      OwnPut(before, k, v, i);
    }
    SameMeans(Own(k, before), v);
  }

  lemma NoneMoreSays(all: seq<Entry>, k: nat, n: nat, path: string, d: Layout, before: Layout, targets: Targets,
                     want: Tracks)
    requires n == k + 1 && SaysUpTo(all, k, path, d, before, targets, want) && !Active(all, k, path, targets)
    ensures SaysUpTo(all, n, path, d, before, targets, want)
  {
  }

  lemma FileStep(tool: Tool, all: seq<Entry>, k: nat, n: nat, path: string, text: string, targets: Targets,
                 want: Tracks)
    requires n == k + 1 <= |all| && FileTo(tool, all, n, path, text, targets, want).Ok?
    ensures FileTo(tool, all, k, path, text, targets, want).Ok?
    ensures FileTo(tool, all, n, path, text, targets, want)
      == if Active(all, k, path, targets)
         then Edited(tool, all[k], FileTo(tool, all, k, path, text, targets, want).value, want)
         else FileTo(tool, all, k, path, text, targets, want)
  {
  }

  lemma {:induction false} FileFollows(tool: Tool, all: seq<Entry>, n: nat, path: string, d: Layout,
                                       targets: Targets, want: Tracks)
    returns (d': Layout)
    requires n <= |all| && AllFollow(tool, all, path, d, targets, want)
    requires FileTo(tool, all, n, path, Text(d), targets, want).Ok?
    ensures FileTo(tool, all, n, path, Text(d), targets, want) == Ok(Text(d')) && Like(d, d')
    ensures SaysUpTo(all, n, path, d, d', targets, want)
    decreases n
  {
    if n == 0 {
      return d;
    }
    var k := n - 1;
    FileStep(tool, all, k, n, path, Text(d), targets, want);
    var before := FileFollows(tool, all, k, path, d, targets, want);
    if Active(all, k, path, targets) {
      var v := Spelling(all[k].pep440, want.At(all[k].track)).value;
      EditedFollows(tool, all[k], k, d, before, want);
      LikePut(d, before, k, v);
      OneMoreSays(all, k, n, path, d, before, v, targets, want);
      return Put(before, k, v);
    }
    NoneMoreSays(all, k, n, path, d, before, targets, want);
    return before;
  }

  /** The entry spells its version, at as many places as it spelled one before. */
  ghost predicate SaysAsOften(tool: Tool, e: Entry, before: Files, after: Files, want: Tracks) {
    && DocSays(tool, e, after, want)
    && e.path in before && tool.values(e, before[e.path]).Ok?
    && |tool.values(e, after[e.path]).value| == |tool.values(e, before[e.path]).value|
  }

  /** Every entry of a bumped track spells its track's new version in the planned text, at every
      place it had one, if its matches are followed by a layout of the file. */
  lemma FollowedFileSays(tool: Tool, all: seq<Entry>, files: Files, targets: Targets, want: Tracks, path: string,
                         d: Layout, i: nat)
    requires PlanTo(tool, all, |all|, files, targets, want).Ok? && Active(all, i, path, targets)
    requires path in files && Text(d) == files[path] && AllFollow(tool, all, path, d, targets, want)
    ensures path in PlanTo(tool, all, |all|, files, targets, want).value
    ensures SaysAsOften(tool, all[i], files, files + PlanTo(tool, all, |all|, files, targets, want).value, want)
  {
    var texts := PlanTo(tool, all, |all|, files, targets, want).value;
    PlanPerFile(tool, all, |all|, files, targets, want, path);
    var d' := FileFollows(tool, all, |all|, path, d, targets, want);
    assert Text(d') == texts[path] == (files + texts)[path];
    assert Like(d, d);
    assert tool.values(all[i], Text(d')) == Ok(Own(i, d')) && tool.values(all[i], Text(d)) == Ok(Own(i, d));
  }

  /** A literal row of the whole file, with the matches that are laid out for it. */
  ghost predicate LiteralRow(tool: Tool, e: Entry, slot: Slot, text: string, sites: seq<Site>) {
    IsRow(slot) && slot.scope.WholeText? && Uses(tool, e, slot) && sites == Sites(slot, true, text, 0)
  }

  /** The rows that share a file, with pairwise disjoint matches in it: literal rows, and rows
      whose own matches follow the layout these make. */
  ghost predicate SharedFile(tool: Tool, all: seq<Entry>, text: string, path: string, sites: seq<seq<Site>>,
                             slots: map<nat, Slot>, targets: Targets, want: Tracks) {
    && |sites| == |all| && AllDisjoint(sites) && AllSites(text, sites)
    && forall i: nat :: Active(all, i, path, targets) ==>
         && WantsVersion(all[i], want)
         && if i in slots then LiteralRow(tool, all[i], slots[i], text, sites[i])
            else Follows(tool, all[i], i, LayoutOf(text, sites))
  }

  /** All rows of a file whose matches are pairwise disjoint spell their own tracks' new
      versions in the text that is planned for it, wherever they spelled one. */
  lemma PlannedFileSays(tool: Tool, all: seq<Entry>, files: Files, targets: Targets, want: Tracks, path: string,
                        sites: seq<seq<Site>>, slots: map<nat, Slot>, i: nat)
    requires PlanTo(tool, all, |all|, files, targets, want).Ok? && Active(all, i, path, targets)
    requires path in files && SharedFile(tool, all, files[path], path, sites, slots, targets, want)
    ensures path in PlanTo(tool, all, |all|, files, targets, want).value
    ensures SaysAsOften(tool, all[i], files, files + PlanTo(tool, all, |all|, files, targets, want).value, want)
  {
    var d := LayoutOf(files[path], sites);
    CommonLayout(files[path], sites);
    forall k: nat | Active(all, k, path, targets) ensures Follows(tool, all[k], k, d) {
      if k in slots {
        RowsAreTame(slots[k]);
        assert Fits(slots[k], k, true, d);
        LiteralFollows(tool, all[k], k, slots[k], d);
      }
    }
    FollowedFileSays(tool, all, files, targets, want, path, d, i);
  }

  /** A version of the track is one that may be wanted. */
  lemma VersionIsWanted(e: Entry, want: Tracks, v: Semver.Version)
    requires Semver.WellFormed(v) && want.At(e.track) == Semver.Spell(v)
    ensures WantsVersion(e, want) && Spelling(e.pep440, want.At(e.track)) == Ok(Semver.Spelled(e.pep440, v))
  {
    Semver.SemverLanguage(Semver.Spell(v), v);
    VersionIsVersionlike(e.pep440, v);
  }

  // ---------------------------------------------------------------- table rows

  /** The tool reads and rewrites this entry as a row of the table. */
  ghost predicate UsesRow(tool: Tool, e: Entry, row: Row) {
    && (forall text :: tool.values(e, text) == Ok(RowValues(row, true, text)))
    && (forall text, v :: tool.replaced(e, text, v) == Ok(RowReplaced(row, true, text, v)))
  }

  lemma RowFollows(tool: Tool, e: Entry, i: nat, row: Row, p: Parts, d: Layout)
    requires UsesRow(tool, e, row) && Laid(row, i, p) && d == Whole(row, i, p)
    ensures Follows(tool, e, i, d)
  {
    forall d' | Like(d, d')
      ensures tool.values(e, Text(d')) == Ok(Own(i, d'))
      ensures forall v :: Versionlike(v) ==> tool.replaced(e, Text(d'), v) == Ok(Text(Put(d', i, v)))
    {
      RowReadsAny(row, i, p, d', "");
      forall v | Versionlike(v) ensures tool.replaced(e, Text(d'), v) == Ok(Text(Put(d', i, v))) {
        RowReadsAny(row, i, p, d', v);
      }
    }
  }

  /** The entry is a literal row that fits the layout, or a table row that is laid out in it. */
  ghost predicate Placed(tool: Tool, e: Entry, i: nat, d: Layout) {
    || (exists slot :: IsRow(slot) && slot.scope.WholeText? && Uses(tool, e, slot) && Fits(slot, i, true, d))
    || (exists row, p :: IsTableRow(row) && UsesRow(tool, e, row) && Laid(row, i, p) && d == Whole(row, i, p))
  }

  /** Literal rows and table rows of one file spell their own tracks' new versions in the text that
      is planned for it, wherever they spelled one, also where captures of the ones lie within
      matches of the others. */
  lemma LaidOutFileSays(tool: Tool, all: seq<Entry>, files: Files, targets: Targets, want: Tracks, path: string,
                        d: Layout, i: nat)
    requires PlanTo(tool, all, |all|, files, targets, want).Ok? && Active(all, i, path, targets)
    requires path in files && Text(d) == files[path] && CleanHoles(d)
    requires forall k: nat :: Active(all, k, path, targets) ==> WantsVersion(all[k], want) && Placed(tool, all[k], k, d)
    ensures path in PlanTo(tool, all, |all|, files, targets, want).value
    ensures SaysAsOften(tool, all[i], files, files + PlanTo(tool, all, |all|, files, targets, want).value, want)
  {
    forall k: nat | Active(all, k, path, targets) ensures Follows(tool, all[k], k, d) {
      if slot :| IsRow(slot) && slot.scope.WholeText? && Uses(tool, all[k], slot) && Fits(slot, k, true, d) {
        RowsAreTame(slot);
        LiteralFollows(tool, all[k], k, slot, d);
      } else {
        var row, p :| IsTableRow(row) && UsesRow(tool, all[k], row) && Laid(row, k, p) && d == Whole(row, k, p);
        RowFollows(tool, all[k], k, row, p, d);
      }
    }
    FollowedFileSays(tool, all, files, targets, want, path, d, i);
  }

  // ---------------------------------------------------------------- a row by itself

  /** The i-th entry is the only one of a bumped track in its file, as every TOML row is. */
  predicate Alone(all: seq<Entry>, i: nat, targets: Targets) {
    && i < |all| && all[i].track in targets
    && forall k :: 0 <= k < |all| && k != i ==> all[k].path != all[i].path || all[k].track !in targets
  }

  lemma {:induction false} OnlySlot(tool: Tool, all: seq<Entry>, n: nat, i: nat, text: string, targets: Targets,
                                    want: Tracks)
    requires n <= |all| && Alone(all, i, targets)
    ensures FileTo(tool, all, n, all[i].path, text, targets, want)
         == if i < n then Edited(tool, all[i], text, want) else Ok(text)
    decreases n
  {
    if n > 0 { OnlySlot(tool, all, n - 1, i, text, targets, want); }
  }

  /** By itself, a row may also be confined to a TOML table, and its old captures may be anything. */
  lemma LoneRowSays(tool: Tool, all: seq<Entry>, files: Files, targets: Targets, want: Tracks, i: nat, slot: Slot,
                    v: Semver.Version)
    requires PlanTo(tool, all, |all|, files, targets, want).Ok? && Alone(all, i, targets)
    requires IsRow(slot) && Uses(tool, all[i], slot)
    requires Semver.WellFormed(v) && want.At(all[i].track) == Semver.Spell(v)
    ensures SaysAsOften(tool, all[i], files, files + PlanTo(tool, all, |all|, files, targets, want).value, want)
  {
    var e, texts := all[i], PlanTo(tool, all, |all|, files, targets, want).value;
    PlanPerFile(tool, all, |all|, files, targets, want, e.path);
    OnlySlot(tool, all, |all|, i, files[e.path], targets, want);
    VersionIsWanted(e, want, v);
    EditedSays(tool, e, files[e.path], want, slot, v);
    assert (files + texts)[e.path] == texts[e.path];
  }

  lemma EditedSays(tool: Tool, e: Entry, text: string, want: Tracks, slot: Slot, v: Semver.Version)
    requires Edited(tool, e, text, want).Ok? && IsRow(slot) && Uses(tool, e, slot)
    requires Semver.WellFormed(v) && want.At(e.track) == Semver.Spell(v)
    ensures var before, after := tool.values(e, text), tool.values(e, Edited(tool, e, text, want).value);
      before.Ok? && after.Ok? && Spells(after.value, Semver.Spelled(e.pep440, v)) && |after.value| == |before.value|
  {
    VersionIsWanted(e, want, v);
    assert tool.values(e, text) == Lift(SlotValues(text, slot));
    BumpedSlotReads(text, slot, e.pep440, v);
  }
}
