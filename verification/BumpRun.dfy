/** The running of `bump` on the files of a repository. */
module BumpRun {
  import opened Wrappers
  import Semver
  import opened Bump

  // ---------------------------------------------------------------- what is asked for

  /** The requested tracks, up to the n-th, that get another version than they have. */
  function TargetsTo(current: Tracks, requests: Targets, n: nat): Result<Targets, Failure>
    requires n <= |TRACKS|
  {
    if n == 0 then Ok(map[])
    else
      var t := TRACKS[n - 1];
      match TargetsTo(current, requests, n - 1) case Err(f) => Err(f) case Ok(targets) =>
      if t !in requests then Ok(targets)
      else match Semver.NextVersion(current.At(t), requests[t]) case Err(e) => Err(BadVersion(e)) case Ok(v) =>
      if v == current.At(t) then Ok(targets) else Ok(targets[t := v])
  }

  /** `{**current, **targets}` */
  function NewTracks(current: Tracks, targets: Targets): Tracks {
    Tracks(if Bindings in targets then targets[Bindings] else current.bindings,
           if Rust in targets then targets[Rust] else current.rust,
           if Uniffi in targets then targets[Uniffi] else current.uniffi)
  }

  /** Whether t is asked to move to v. */
  predicate Moves(current: Tracks, requests: Targets, t: Track, v: string) {
    t in requests && Semver.NextVersion(current.At(t), requests[t]) == Ok(v) && v != current.At(t)
  }

  function Place(t: Track): (i: nat)
    ensures i < |TRACKS| && TRACKS[i] == t
  {
    match t case Bindings => 0 case Rust => 1 case Uniffi => 2
  }

  /** The targets are exactly the moves asked for. */
  lemma {:induction false} TargetsMean(current: Tracks, requests: Targets, n: nat, t: Track, v: string)
    requires n <= |TRACKS| && TargetsTo(current, requests, n).Ok?
    ensures var targets := TargetsTo(current, requests, n).value;
      t in targets && targets[t] == v <==> Place(t) < n && Moves(current, requests, t, v)
  {
    if n > 0 {
      TargetsMean(current, requests, n - 1, t, v);
    }
  }

  /** Only release candidates are ever planned. */
  lemma OnlyCandidates(current: Tracks, requests: Targets, n: nat, t: Track)
    requires n <= |TRACKS| && TargetsTo(current, requests, n).Ok? && t in TargetsTo(current, requests, n).value
    ensures Semver.MatchRc(TargetsTo(current, requests, n).value[t]).Some?
  {
    TargetsMean(current, requests, n, t, TargetsTo(current, requests, n).value[t]);
    Semver.NextIsCandidate(current.At(t), requests[t]);
  }

  // ---------------------------------------------------------------- the plan

  /** The text of a slot's file with the slot rewritten. */
  function Edited(tool: Tool, e: Entry, text: string, want: Tracks): Result<string, Failure> {
    match tool.values(e, text) case Err(f) => Err(f) case Ok(found) =>
    if found == [] then Err(SlotNotFound(e))
    else match Spelling(e.pep440, want.At(e.track)) case Err(f) => Err(f) case Ok(v) => tool.replaced(e, text, v)
  }

  /** One turn of `plan_edits`. */
  function PlanStep(tool: Tool, e: Entry, files: Files, targets: Targets, want: Tracks, texts: Files)
    : Result<Files, Failure>
  {
    if e.track !in targets then Ok(texts)
    else if e.path !in files then Err(MissingFile(e.path))
    else
      match Edited(tool, e, if e.path in texts then texts[e.path] else files[e.path], want)
      case Err(f) => Err(f)
      case Ok(text) => Ok(texts[e.path := text])
  }

  /** `plan_edits`, for the first n slots. */
  function PlanTo(tool: Tool, all: seq<Entry>, n: nat, files: Files, targets: Targets, want: Tracks)
    : Result<Files, Failure>
    requires n <= |all|
  {
    if n == 0 then Ok(map[])
    else
      match PlanTo(tool, all, n - 1, files, targets, want)
      case Err(f) => Err(f)
      case Ok(texts) => PlanStep(tool, all[n - 1], files, targets, want, texts)
  }

  function Plan(tool: Tool, files: Files, targets: Targets, want: Tracks): Result<Files, Failure> {
    PlanTo(tool, tool.manifests + tool.docs, |tool.manifests + tool.docs|, files, targets, want)
  }

  /** A file's text after its own slots, in the table's order. */
  function FileTo(tool: Tool, all: seq<Entry>, n: nat, path: string, text: string, targets: Targets, want: Tracks)
    : Result<string, Failure>
    requires n <= |all|
  {
    if n == 0 then Ok(text)
    else
      match FileTo(tool, all, n - 1, path, text, targets, want) case Err(f) => Err(f) case Ok(before) =>
      if all[n - 1].path != path || all[n - 1].track !in targets then Ok(before)
      else Edited(tool, all[n - 1], before, want)
  }

  /** A plan is made file by file: only files with a slot of a bumped track are in it, and
      what becomes of one depends on its own text and slots alone. */
  lemma {:induction false} PlanPerFile(tool: Tool, all: seq<Entry>, n: nat, files: Files, targets: Targets,
                                       want: Tracks, path: string)
    requires n <= |all| && PlanTo(tool, all, n, files, targets, want).Ok?
    ensures var texts := PlanTo(tool, all, n, files, targets, want).value;
      && (path in texts <==> exists i :: 0 <= i < n && all[i].path == path && all[i].track in targets)
      && (path in texts ==> path in files)
      && (path in files ==>
           FileTo(tool, all, n, path, files[path], targets, want)
             == Ok(if path in texts then texts[path] else files[path]))
  {
    if n > 0 {
      PlanPerFile(tool, all, n - 1, files, targets, want, path);
    }
  }

  /** A plan is made only if every slot of a bumped track is found in its file, as the slots before
      it have left it. */
  lemma {:induction false} EverySlotFound(tool: Tool, all: seq<Entry>, n: nat, files: Files, targets: Targets,
                                          want: Tracks, i: nat)
    requires i < n <= |all| && PlanTo(tool, all, n, files, targets, want).Ok? && all[i].track in targets
    ensures var e := all[i];
      && e.path in files
      && FileTo(tool, all, i, e.path, files[e.path], targets, want).Ok?
      && var before := FileTo(tool, all, i, e.path, files[e.path], targets, want).value;
         tool.values(e, before).Ok? && tool.values(e, before).value != []
  {
    if i == n - 1 {
      PlanPerFile(tool, all, i, files, targets, want, all[i].path);
    } else {
      EverySlotFound(tool, all, n - 1, files, targets, want, i);
    }
  }

  // ---------------------------------------------------------------- running it

  /** What became of a step that may raise or be interrupted. */
  datatype Outcome<T> = Done(value: T) | Raises | Interrupt

  /** What a bump is to do: the tracks to move, the versions wanted, the planned texts. */
  datatype Job = Job(targets: Targets, want: Tracks, texts: Files)

  datatype Exit =
    | Crashed(failure: Failure)
    | Refused
    | Nothing
    | DryRun(job: Job)
    | Committed(job: Job)
    | RolledBack(job: Job, problems: seq<Problem>)
    | Failed(job: Job)
    | Interrupted(job: Job)

  /** Each track's wanted version is its target, or what its reference says. */
  predicate Wants(want: Tracks, now: Versions, targets: Targets) {
    && want.bindings == (if Bindings in targets then targets[Bindings] else now.bindings.reference)
    && want.rust == (if Rust in targets then targets[Rust] else now.rust.reference)
    && want.uniffi == (if Uniffi in targets then targets[Uniffi] else now.uniffi.reference)
  }

  /** These files and requests ask for these targets, and so for these versions. */
  ghost predicate AskedFor(tool: Tool, files: Files, requests: Targets, targets: Targets, want: Tracks) {
    && tool.collect(files).Ok?
    && Check(tool.collect(files).value) == []
    && TargetsTo(tool.collect(files).value.References(), requests, |TRACKS|) == Ok(targets)
    && targets != map[]
    && Wants(want, tool.collect(files).value, targets)
  }

  /** The job is the one these files and requests ask for. */
  ghost predicate Intended(tool: Tool, files: Files, requests: Targets, job: Job) {
    && AskedFor(tool, files, requests, job.targets, job.want)
    && Plan(tool, files, job.targets, job.want) == Ok(job.texts)
  }

  /** The tool stops with a message: the manifests disagree, a request does not resolve, or a slot
      is not found or cannot be written (`ValueError`). */
  ghost predicate Refuses(tool: Tool, files: Files, requests: Targets) {
    && tool.collect(files).Ok?
    && (|| Check(tool.collect(files).value) != []
        || TargetsTo(tool.collect(files).value.References(), requests, |TRACKS|).Err?
        || exists targets, want :: AskedFor(tool, files, requests, targets, want)
             && Plan(tool, files, targets, want).Err?
             && !Plan(tool, files, targets, want).error.MissingFile?
             && !Plan(tool, files, targets, want).error.Raised?)
  }

  /** x spells the version v, the PyPI way if it has to. */
  predicate WrittenAs(pep440: bool, v: string, x: string) {
    if pep440 then Semver.SemverToPep440(v) == Ok(x) else x == v
  }

  predicate ManifestIs(m: Manifest, v: string) {
    m.reference == v && forall s <- m.others :: WrittenAs(s.pep440, v, s.value)
  }

  /** The tool finds nothing but v in the slot, and finds it. */
  predicate DocIs(tool: Tool, files: Files, e: Entry, v: string) {
    && e.path in files && tool.values(e, files[e.path]).Ok?
    && tool.values(e, files[e.path]).value != []
    && forall x <- tool.values(e, files[e.path]).value :: WrittenAs(e.pep440, v, x)
  }

  /** The manifest of each track. */
  function ManifestOf(got: Versions, t: Track): Manifest {
    match t case Bindings => got.bindings case Rust => got.rust case Uniffi => got.uniffi
  }

  /** All manifests and document slots of the track read v. */
  ghost predicate Reads(tool: Tool, files: Files, t: Track, v: string) {
    && tool.collect(files).Ok? && ManifestIs(ManifestOf(tool.collect(files).value, t), v)
    && forall e <- tool.docs :: e.track == t ==> DocIs(tool, files, e, v)
  }

  /** Every requested track reads the version its request resolves to, and every other track what
      its reference read before. */
  ghost predicate Moved(tool: Tool, before: Files, after: Files, requests: Targets) {
    && tool.collect(before).Ok?
    && forall t: Track ::
         var was := ManifestOf(tool.collect(before).value, t).reference;
         if t in requests then
           Semver.NextVersion(was, requests[t]).Ok? && Reads(tool, after, t, Semver.NextVersion(was, requests[t]).value)
         else Reads(tool, after, t, was)
  }

  ghost predicate SameOutside(a: Files, b: Files, paths: set<string>) {
    a.Keys == b.Keys && forall p <- a :: p !in paths ==> a[p] == b[p]
  }

  class Repo {
    const tool: Tool
    var files: Files
    /** How many steps the system has failed or interrupted. */
    ghost var faults: nat

    constructor (tool: Tool, files: Files)
      ensures this.tool == tool && this.files == files && faults == 0
    {
      this.tool := tool;
      this.files := files;
      this.faults := 0;
    }

    /** A write that fails or is interrupted may leave anything in the file. */
    method Write(path: string, text: string) returns (o: Outcome<()>)
      requires path in files
      modifies this
      ensures path in files && files == old(files)[path := files[path]]
      ensures o.Done? ==> files[path] == text
      ensures faults == old(faults) + if o.Done? then 0 else 1
    {
      var left: string := *;
      if {
        case true => files := files[path := text]; o := Done(());
        case true => files := files[path := left]; o := Raises; faults := faults + 1;
        case true => files := files[path := left]; o := Interrupt; faults := faults + 1;
      }
    }

    /** Writes every planned text, until one fails. */
    method WriteAll(texts: Files) returns (o: Outcome<()>)
      requires texts.Keys <= files.Keys
      modifies this
      ensures o.Done? ==> files == old(files) + texts
      ensures SameOutside(files, old(files), texts.Keys)
      ensures faults == old(faults) + if o.Done? then 0 else 1
    {
      var todo := texts.Keys;
      o := Done(());
      while todo != {}
        invariant todo <= texts.Keys && o.Done? && faults == old(faults)
        invariant SameOutside(files, old(files), texts.Keys)
        invariant forall p <- texts :: p !in todo ==> files[p] == texts[p]
      {
        var p :| p in todo;
        o := Write(p, texts[p]);
        if !o.Done? {
          return;
        }
        todo := todo - {p};
      }
      assert files == old(files) + texts;
    }

    /** Writes every snapshot back; these writes succeed. */
    method Restore(snapshot: Files)
      requires snapshot.Keys <= files.Keys
      modifies this`files
      ensures files == old(files) + snapshot
    {
      var todo := snapshot.Keys;
      while todo != {}
        invariant todo <= snapshot.Keys
        invariant SameOutside(files, old(files), snapshot.Keys)
        invariant forall p <- snapshot :: p !in todo ==> files[p] == snapshot[p]
      {
        var p :| p in todo;
        files := files[p := snapshot[p]];
        todo := todo - {p};
      }
      assert files == old(files) + snapshot;
    }

    /** Reads the written files back. Reading may fail on its own, and may be interrupted. */
    method Verify(want: Tracks) returns (o: Outcome<seq<Problem>>)
      modifies this`faults
      ensures o.Done? ==> Problems(tool, files, want) == Ok(o.value)
      ensures o.Done? || Problems(tool, files, want).Err? || faults > old(faults)
    {
      var found := Problems(tool, files, want);
      if {
        case found.Ok? => o := Done(found.value);
        case found.Err? => o := Raises;
        case true => o := Raises; faults := faults + 1;
        case true => o := Interrupt; faults := faults + 1;
      }
    }

    /** The loop of `plan_edits`. */
    method PlanEdits(targets: Targets, want: Tracks) returns (r: Result<Files, Failure>)
      ensures r == Plan(tool, files, targets, want)
    {
      var all := tool.manifests + tool.docs;
      var texts: Files, i: nat := map[], 0;
      while i < |all|
        invariant i <= |all|
        invariant PlanTo(tool, all, i, files, targets, want) == Ok(texts)
      {
        var next := i + 1;
        var step := PlanStep(tool, all[i], files, targets, want, texts);
        assert PlanTo(tool, all, next, files, targets, want) == step;
        if step.Err? {
          FailsOn(tool, all, next, |all|, files, targets, want);
          return step;
        }
        texts := step.value;
        i := next;
      }
      r := Ok(texts);
    }

    /** The part of `bump` that writes nothing: what there is to do, or why there is nothing. */
    method Prepare(requests: Targets) returns (r: Result<Job, Exit>)
      ensures r.Ok? ==> Intended(tool, files, requests, r.value) && r.value.texts.Keys <= files.Keys
      ensures r.Err? ==> r.error.Crashed? || r.error.Refused? || r.error.Nothing?
      ensures r.Err? ==> forall job :: !Intended(tool, files, requests, job)
      ensures r == Err(Refused) <==> Refuses(tool, files, requests)
      ensures r == Err(Nothing) <==>
        && tool.collect(files).Ok?
        && Check(tool.collect(files).value) == []
        && TargetsTo(tool.collect(files).value.References(), requests, |TRACKS|) == Ok(map[])
    {
      NothingAsked(tool, files, requests);
      var versions := tool.collect(files);
      if versions.Err? {
        return Err(Crashed(versions.error));
      }
      if Check(versions.value) != [] {
        return Err(Refused);
      }
      var current := versions.value.References();
      var asked := TargetsTo(current, requests, |TRACKS|);
      if asked.Err? {
        return Err(Refused);
      }
      if asked.value == map[] {
        return Err(Nothing);
      }
      var want := NewTracks(current, asked.value);
      AskedOnce(tool, files, requests, asked.value, want);
      var planned := PlanEdits(asked.value, want);
      if planned.Err? {
        return Err(if planned.error.MissingFile? || planned.error.Raised? then Crashed(planned.error) else Refused);
      }
      PlanIsOfFiles(tool, files, asked.value, want);
      r := Ok(Job(asked.value, want, planned.value));
    }

    /** `bump`, from the parsed arguments on: whatever fails, and wherever, every file ends
        as it was, unless the whole job was done and found consistent. */
    method Run(requests: Targets, dryRun: bool) returns (exit: Exit)
      modifies this
      ensures !exit.Committed? ==> files == old(files)
      ensures exit.Committed? || exit.RolledBack? || exit.Failed? || exit.Interrupted? ==>
        !dryRun && Intended(tool, old(files), requests, exit.job)
      ensures exit.Committed? ==> files == old(files) + exit.job.texts && Consistent(tool, files, exit.job.want)
      ensures exit.Committed? ==> Moved(tool, old(files), files, requests)
      ensures exit.RolledBack? ==> !Consistent(tool, old(files) + exit.job.texts, exit.job.want)
      ensures exit.Failed? || exit.Interrupted? ==>
        faults > old(faults) || Problems(tool, old(files) + exit.job.texts, exit.job.want).Err?
      ensures exit.DryRun? ==> dryRun && Intended(tool, files, requests, exit.job)
      ensures exit.Crashed? || exit.Refused? || exit.Nothing? ==> forall job :: !Intended(tool, files, requests, job)
      ensures exit.Refused? <==> Refuses(tool, old(files), requests)
    {
      var prepared := Prepare(requests);
      if prepared.Err? {
        return prepared.error;
      }
      if dryRun {
        return DryRun(prepared.value);
      }
      exit := Commit(prepared.value);
      if exit.Committed? { CommittedMoves(tool, old(files), files, requests, exit.job); }
    }

    /** Write, then verify. */
    method Attempt(job: Job) returns (o: Outcome<seq<Problem>>)
      requires job.texts.Keys <= files.Keys
      modifies this
      ensures o.Done? ==> files == old(files) + job.texts && Problems(tool, files, job.want) == Ok(o.value)
      ensures SameOutside(files, old(files), job.texts.Keys)
      ensures o.Done? || faults > old(faults) || Problems(tool, old(files) + job.texts, job.want).Err?
    {
      var wrote := WriteAll(job.texts);
      if wrote.Done? {
        o := Verify(job.want);
      } else {
        o := if wrote.Raises? then Raises else Interrupt;
      }
    }

    /** Snapshot, write, verify, and roll everything back on any disagreement. */
    method Commit(job: Job) returns (exit: Exit)
      requires job.texts.Keys <= files.Keys
      modifies this
      ensures exit.Committed? || exit.RolledBack? || exit.Failed? || exit.Interrupted?
      ensures exit.job == job
      ensures !exit.Committed? ==> files == old(files)
      ensures exit.Committed? ==> files == old(files) + job.texts && Consistent(tool, files, job.want)
      ensures exit.RolledBack? ==> !Consistent(tool, old(files) + job.texts, job.want)
      ensures exit.Failed? || exit.Interrupted? ==>
        faults > old(faults) || Problems(tool, old(files) + job.texts, job.want).Err?
    {
      var snapshot: Files := map p | p in job.texts :: files[p];
      var attempt := Attempt(job);
      NoProblems(tool, files, job.want);
      if attempt == Done([]) {
        return Committed(job);
      }
      exit := match attempt
        case Done(problems) => RolledBack(job, problems)
        case Raises => Failed(job)
        case Interrupt => Interrupted(job);
      Restore(snapshot);
      RestoredIs(files, old(files), snapshot);
    }
  }

  /** Without agreeing manifests and a move, nothing is asked for. */
  lemma NothingAsked(tool: Tool, files: Files, requests: Targets)
    ensures
      || tool.collect(files).Err?
      || Check(tool.collect(files).value) != []
      || TargetsTo(tool.collect(files).value.References(), requests, |TRACKS|).Err?
      || TargetsTo(tool.collect(files).value.References(), requests, |TRACKS|).value == map[]
      ==> forall targets, want :: !AskedFor(tool, files, requests, targets, want)
  {
  }

  /** With them, one thing is, and whether the tool refuses is up to its plan. */
  lemma AskedOnce(tool: Tool, files: Files, requests: Targets, targets: Targets, want: Tracks)
    requires tool.collect(files).Ok? && Check(tool.collect(files).value) == []
    requires TargetsTo(tool.collect(files).value.References(), requests, |TRACKS|) == Ok(targets) && targets != map[]
    requires want == NewTracks(tool.collect(files).value.References(), targets)
    ensures AskedFor(tool, files, requests, targets, want)
    ensures forall job :: Intended(tool, files, requests, job) ==>
      Plan(tool, files, targets, want) == Ok(job.texts)
    ensures var plan := Plan(tool, files, targets, want);
      Refuses(tool, files, requests) <==> plan.Err? && !plan.error.MissingFile? && !plan.error.Raised?
  {
    assert AskedFor(tool, files, requests, targets, want);
    forall t, w | AskedFor(tool, files, requests, t, w) ensures t == targets && w == want {
    }
  }

  lemma RestoredIs(files: Files, before: Files, snapshot: Files)
    requires files.Keys == before.Keys && snapshot.Keys <= before.Keys
    requires forall p <- files :: if p in snapshot then files[p] == snapshot[p] == before[p] else files[p] == before[p]
    ensures files == before
  {
  }

  lemma {:induction false} FailsOn(tool: Tool, all: seq<Entry>, i: nat, n: nat, files: Files, targets: Targets,
                                   want: Tracks)
    requires i <= n <= |all| && PlanTo(tool, all, i, files, targets, want).Err?
    ensures PlanTo(tool, all, n, files, targets, want) == PlanTo(tool, all, i, files, targets, want)
    decreases n
  {
    if i < n { FailsOn(tool, all, i, n - 1, files, targets, want); }
  }

  lemma PlanIsOfFiles(tool: Tool, files: Files, targets: Targets, want: Tracks)
    requires Plan(tool, files, targets, want).Ok?
    ensures Plan(tool, files, targets, want).value.Keys <= files.Keys
  {
    var all := tool.manifests + tool.docs;
    forall p | p in Plan(tool, files, targets, want).value ensures p in files {
      PlanPerFile(tool, all, |all|, files, targets, want, p);
    }
  }

  /** If the targets resolve, every request does. */
  lemma {:induction false} AllResolve(current: Tracks, requests: Targets, n: nat, t: Track)
    requires n <= |TRACKS| && TargetsTo(current, requests, n).Ok? && Place(t) < n && t in requests
    ensures Semver.NextVersion(current.At(t), requests[t]).Ok?
  {
    if Place(t) < n - 1 { AllResolve(current, requests, n - 1, t); }
  }

  /** What was wanted of a track is what its request resolves to, or what it was. */
  lemma WantedIs(now: Versions, requests: Targets, targets: Targets, want: Tracks, t: Track)
    requires TargetsTo(now.References(), requests, |TRACKS|) == Ok(targets) && Wants(want, now, targets)
    ensures var was := ManifestOf(now, t).reference;
      if t in requests then
        Semver.NextVersion(was, requests[t]).Ok? && want.At(t) == Semver.NextVersion(was, requests[t]).value
      else want.At(t) == was
  {
    var was := ManifestOf(now, t).reference;
    assert now.References().At(t) == was;
    if t in requests {
      AllResolve(now.References(), requests, |TRACKS|, t);
      TargetsMean(now.References(), requests, |TRACKS|, t, Semver.NextVersion(was, requests[t]).value);
    }
    if t in targets { TargetsMean(now.References(), requests, |TRACKS|, t, targets[t]); }
  }

  lemma ConsistentReads(tool: Tool, files: Files, want: Tracks, t: Track)
    requires Consistent(tool, files, want)
    ensures Reads(tool, files, t, want.At(t))
  {
    var got := tool.collect(files).value;
    assert ManifestSays(got.At(t), want.At(t)) && got.At(t) == ManifestOf(got, t);
    forall e <- tool.docs | e.track == t ensures DocIs(tool, files, e, want.At(t)) {
      assert DocSays(tool, e, files, want);
    }
  }

  lemma CommittedMoves(tool: Tool, before: Files, after: Files, requests: Targets, job: Job)
    requires Intended(tool, before, requests, job) && Consistent(tool, after, job.want)
    ensures Moved(tool, before, after, requests)
  {
    var now := tool.collect(before).value;
    forall t: Track
      ensures var was := ManifestOf(now, t).reference;
        if t in requests then
          Semver.NextVersion(was, requests[t]).Ok? && Reads(tool, after, t, Semver.NextVersion(was, requests[t]).value)
        else Reads(tool, after, t, was)
    {
      WantedIs(now, requests, job.targets, job.want, t);
      ConsistentReads(tool, after, job.want, t);
    }
  }

  /** Exactly the files with a slot of a bumped track are written. */
  lemma CommittedFiles(tool: Tool, before: Files, requests: Targets, job: Job, path: string)
    requires Intended(tool, before, requests, job)
    ensures var all := tool.manifests + tool.docs;
      path in job.texts <==> exists i :: 0 <= i < |all| && all[i].path == path && all[i].track in job.targets
    ensures path in before + job.texts <==> path in before
  {
    var all := tool.manifests + tool.docs;
    PlanPerFile(tool, all, |all|, before, job.targets, job.want, path);
  }
}
