/** `crate_inputs` of `scripts/check-ci-coverage.py`: the files that shape a crate's
    build, over the possibly cyclic graph of path dependencies. The traversal shares
    one mutable `seen` set between all its recursive calls. */
module CiCrates {
  import opened Wrappers

  type Dir = string
  type File = string

  /** A dependency entry: anything that is not a TOML table, or a table. */
  datatype Spec = Version(v: string) | Table(workspace: bool, path: Option<string>)
  type Entries = seq<(string, Spec)>
  datatype Manifest = Manifest(dependencies: Entries, devDependencies: Entries, buildDependencies: Entries)

  /** The repository as the script sees it. `resolve(base, path)` is the directory a path
      dependency names, `base` being a crate's directory or ROOT; None if it is outside the
      root, where `rel` raises. */
  datatype Repo = Repo(
    own: Dir -> set<File>,
    manifests: map<Dir, Manifest>,
    workspaceDeps: map<string, Spec>,
    resolve: (Dir, string) -> Option<Dir>)

  const ROOT: Dir := ""

  datatype Error = MissingManifest(dir: Dir) | PathOutsideRoot(dir: Dir)

  function Tables(m: Manifest): (tables: seq<Entries>)
    ensures |tables| == 3
  {
    [m.dependencies, m.devDependencies, m.buildDependencies]
  }

  datatype Target = NoCrate | Outside | Crate(dir: Dir)

  /** What one dependency entry of `dir` leads to, if it is a path dependency. */
  function TargetOf(repo: Repo, dir: Dir, entry: (string, Spec)): Target {
    var (name, spec) := entry;
    var inherited := spec.Table? && spec.workspace;
    var effective := if !inherited then spec
                     else if name in repo.workspaceDeps then repo.workspaceDeps[name] else Table(false, None);
    var base := if inherited then ROOT else dir;
    if !effective.Table? || effective.path.None? then NoCrate
    else match repo.resolve(base, effective.path.value) case None => Outside case Some(d) => Crate(d)
  }

  // ---------------------------------------------------------------- specification

  /** Where a dependency entry of `dir` points: a path of its own from `dir`, with `workspace` the
      path of the root manifest's entry of that name from the root; anything else nowhere. */
  ghost predicate Points(repo: Repo, dir: Dir, entry: (string, Spec), to: Option<Dir>) {
    match entry.1
    case Version(_) => false
    case Table(false, path) => path.Some? && to == repo.resolve(dir, path.value)
    case Table(true, _) =>
      && entry.0 in repo.workspaceDeps
      && var shared := repo.workspaceDeps[entry.0];
         shared.Table? && shared.path.Some? && to == repo.resolve("", shared.path.value)
  }

  /** The entries of all three tables of a manifest. */
  ghost predicate Lists(m: Manifest, entry: (string, Spec)) {
    entry in m.dependencies || entry in m.devDependencies || entry in m.buildDependencies
  }

  ghost predicate Edge(repo: Repo, dir: Dir, dep: Dir) {
    && dir in repo.manifests
    && exists entry :: Lists(repo.manifests[dir], entry) && Points(repo, dir, entry, Some(dep))
  }

  /** The crate has a manifest, and none of its path dependencies leaves the root. */
  ghost predicate Readable(repo: Repo, dir: Dir) {
    && dir in repo.manifests
    && !exists entry :: Lists(repo.manifests[dir], entry) && Points(repo, dir, entry, None)
  }

  ghost predicate IsPath(repo: Repo, path: seq<Dir>) {
    path != [] && forall i :: 0 <= i < |path| - 1 ==> Edge(repo, path[i], path[i + 1])
  }

  ghost predicate Reachable(repo: Repo, from: Dir, to: Dir) {
    exists path :: IsPath(repo, path) && path[0] == from && path[|path| - 1] == to
  }

  function OwnFiles(repo: Repo, dirs: set<Dir>): set<File> {
    set d, f | d in dirs && f in repo.own(d) :: f
  }

  // ---------------------------------------------------------------- what the code looks at

  predicate Leads(repo: Repo, dir: Dir, entries: Entries, dep: Dir) {
    exists i :: 0 <= i < |entries| && TargetOf(repo, dir, entries[i]) == Crate(dep)
  }

  predicate LeadsOut(repo: Repo, dir: Dir, entries: Entries) {
    exists i :: 0 <= i < |entries| && TargetOf(repo, dir, entries[i]).Outside?
  }

  lemma TargetPoints(repo: Repo, dir: Dir, entry: (string, Spec))
    ensures forall to :: Points(repo, dir, entry, Some(to)) <==> TargetOf(repo, dir, entry) == Crate(to)
    ensures Points(repo, dir, entry, None) <==> TargetOf(repo, dir, entry).Outside?
  {
  }

  lemma TablesList(m: Manifest, entry: (string, Spec))
    ensures Lists(m, entry) <==> exists t :: 0 <= t < 3 && entry in Tables(m)[t]
  {
    assert Tables(m)[0] == m.dependencies && Tables(m)[1] == m.devDependencies && Tables(m)[2] == m.buildDependencies;
  }

  /** An edge is an entry of one of the tables that leads there. */
  lemma EdgeInTables(repo: Repo, dir: Dir, dep: Dir)
    requires dir in repo.manifests
    ensures Edge(repo, dir, dep) <==> exists t :: 0 <= t < 3 && Leads(repo, dir, Tables(repo.manifests[dir])[t], dep)
  {
    var m := repo.manifests[dir];
    if Edge(repo, dir, dep) {
      var entry :| Lists(m, entry) && Points(repo, dir, entry, Some(dep));
      TablesList(m, entry);
      TargetPoints(repo, dir, entry);
      var t :| 0 <= t < 3 && entry in Tables(m)[t];
      assert Leads(repo, dir, Tables(m)[t], dep);
    }
    if t :| 0 <= t < 3 && Leads(repo, dir, Tables(m)[t], dep) {
      var i :| 0 <= i < |Tables(m)[t]| && TargetOf(repo, dir, Tables(m)[t][i]) == Crate(dep);
      TablesList(m, Tables(m)[t][i]);
      TargetPoints(repo, dir, Tables(m)[t][i]);
    }
  }

  lemma ReadableInTables(repo: Repo, dir: Dir)
    requires dir in repo.manifests
    ensures Readable(repo, dir) <==> forall t :: 0 <= t < 3 ==> !LeadsOut(repo, dir, Tables(repo.manifests[dir])[t])
  {
    var m := repo.manifests[dir];
    if entry :| Lists(m, entry) && Points(repo, dir, entry, None) {
      TablesList(m, entry);
      TargetPoints(repo, dir, entry);
      var t :| 0 <= t < 3 && entry in Tables(m)[t];
      assert LeadsOut(repo, dir, Tables(m)[t]);
    }
    if t :| 0 <= t < 3 && LeadsOut(repo, dir, Tables(m)[t]) {
      var i :| 0 <= i < |Tables(m)[t]| && TargetOf(repo, dir, Tables(m)[t][i]).Outside?;
      TablesList(m, Tables(m)[t][i]);
      TargetPoints(repo, dir, Tables(m)[t][i]);
    }
  }

  /** The error names what is wrong with a crate. */
  ghost predicate Tells(repo: Repo, error: Error) {
    !Readable(repo, error.dir) && (error.MissingManifest? <==> error.dir !in repo.manifests)
  }

  lemma ReachableSelf(repo: Repo, a: Dir)
    ensures Reachable(repo, a, a)
  {
    assert IsPath(repo, [a]);
  }

  lemma ReachableVia(repo: Repo, a: Dir, b: Dir, c: Dir)
    requires Edge(repo, a, b) && Reachable(repo, b, c)
    ensures Reachable(repo, a, c)
  {
    var path :| IsPath(repo, path) && path[0] == b && path[|path| - 1] == c;
    var longer := [a] + path;
    forall i | 0 <= i < |longer| - 1 ensures Edge(repo, longer[i], longer[i + 1]) {
      if i > 0 { assert Edge(repo, path[i - 1], path[i]); }
    }
    assert IsPath(repo, longer);
  }

  /** A set closed under dependencies that holds the start of a path holds its end. */
  lemma {:induction false} ClosedContainsPath(repo: Repo, dirs: set<Dir>, path: seq<Dir>)
    requires IsPath(repo, path) && path[0] in dirs
    requires forall a, b :: a in dirs && Edge(repo, a, b) ==> b in dirs
    ensures path[|path| - 1] in dirs
    decreases |path|
  {
    if |path| > 1 {
      var rest := path[1..];
      assert Edge(repo, path[0], path[1]);
      forall i | 0 <= i < |rest| - 1 ensures Edge(repo, rest[i], rest[i + 1]) {
        assert Edge(repo, path[i + 1], path[i + 2]);
      }
      ClosedContainsPath(repo, dirs, rest);
    }
  }

  // ---------------------------------------------------------------- the traversal

  /** The `seen` set that the recursive calls share. */
  class Seen {
    var dirs: set<Dir>

    constructor ()
      ensures dirs == {}
    {
      dirs := {};
    }
  }

  /** What a call has done to `seen`: crates that were in it before may still be in
      progress, but each crate it added is finished, with all its dependencies seen. */
  ghost predicate Finished(repo: Repo, before: set<Dir>, after: set<Dir>) {
    forall a, b :: a in after && a !in before && Edge(repo, a, b) ==> b in after
  }

  /** While `dir` is being read: what has been seen since is reachable from it, and all of it but
      `dir` is finished and could be read. */
  ghost predicate Explored(repo: Repo, dir: Dir, before: set<Dir>, now: set<Dir>) {
    && before + {dir} <= now
    && (forall d :: d in now && d !in before ==> Reachable(repo, dir, d) && (d != dir ==> Readable(repo, d)))
    && Finished(repo, before + {dir}, now)
  }

  /** One more dependency. */
  lemma ExploredMore(repo: Repo, dir: Dir, dep: Dir, before: set<Dir>, mid: set<Dir>, now: set<Dir>)
    requires Explored(repo, dir, before, mid) && Edge(repo, dir, dep) && mid <= now && Finished(repo, mid, now)
    requires forall d :: d in now && d !in mid ==> Reachable(repo, dep, d) && Readable(repo, d)
    ensures Explored(repo, dir, before, now)
  {
    forall d | d in now && d !in mid ensures Reachable(repo, dir, d) { ReachableVia(repo, dir, dep, d); }
  }

  method CrateInputs(repo: Repo, dir: Dir, seen: Seen) returns (r: Result<set<File>, Error>)
    modifies seen
    ensures old(seen.dirs) <= seen.dirs && dir in seen.dirs
    ensures forall d :: d in seen.dirs && d !in old(seen.dirs) ==> Reachable(repo, dir, d)
    ensures r.Ok? ==> Finished(repo, old(seen.dirs), seen.dirs)
    ensures r.Ok? ==> forall d :: d in seen.dirs && d !in old(seen.dirs) ==> Readable(repo, d)
    ensures r.Ok? ==> r.value == OwnFiles(repo, seen.dirs - old(seen.dirs))
    ensures r.Err? ==> Tells(repo, r.error) && Reachable(repo, dir, r.error.dir)
    decreases repo.manifests.Keys - seen.dirs, 0
  {
    ReachableSelf(repo, dir);
    if dir in seen.dirs {
      return Ok({});
    }
    ghost var before := seen.dirs;
    seen.dirs := seen.dirs + {dir};
    var files := repo.own(dir);
    if dir !in repo.manifests {
      return Err(MissingManifest(dir));
    }
    var tables := Tables(repo.manifests[dir]);
    assert seen.dirs - before == {dir};
    var t := 0;
    while t < 3
      invariant 0 <= t <= 3
      invariant Explored(repo, dir, before, seen.dirs)
      invariant forall k :: 0 <= k < t ==> AllSeen(repo, dir, tables[k], seen.dirs) && !LeadsOut(repo, dir, tables[k])
      invariant files == OwnFiles(repo, seen.dirs - before)
    {
      ghost var mid := seen.dirs;
      var inner := TableInputs(repo, dir, t, seen, before);
      if inner.Err? {
        return inner;
      }
      files := files + inner.value;
      assert seen.dirs - before == (mid - before) + (seen.dirs - mid);
      t := t + 1;
    }
    ReadableInTables(repo, dir);
    forall dep | Edge(repo, dir, dep) ensures dep in seen.dirs { EdgeInTables(repo, dir, dep); }
    r := Ok(files);
  }

  ghost predicate AllSeen(repo: Repo, dir: Dir, entries: Entries, seen: set<Dir>) {
    forall dep :: Leads(repo, dir, entries, dep) ==> dep in seen
  }

  /** The entries of one of the crate's tables. */
  method TableInputs(repo: Repo, dir: Dir, t: nat, seen: Seen, ghost before: set<Dir>)
    returns (r: Result<set<File>, Error>)
    requires t < 3 && dir in repo.manifests && Explored(repo, dir, before, seen.dirs)
    modifies seen
    ensures old(seen.dirs) <= seen.dirs
    ensures forall d :: d in seen.dirs && d !in before ==> Reachable(repo, dir, d)
    ensures r.Ok? ==> Explored(repo, dir, before, seen.dirs)
    ensures r.Ok? ==>
      var entries := Tables(repo.manifests[dir])[t];
      AllSeen(repo, dir, entries, seen.dirs) && !LeadsOut(repo, dir, entries)
    ensures r.Ok? ==> r.value == OwnFiles(repo, seen.dirs - old(seen.dirs))
    ensures r.Err? ==> Tells(repo, r.error) && Reachable(repo, dir, r.error.dir)
    decreases repo.manifests.Keys - seen.dirs, 1
  {
    var entries, files := Tables(repo.manifests[dir])[t], {};
    ghost var start := seen.dirs;
    var i := 0;
    while i < |entries|
      invariant 0 <= i <= |entries|
      invariant start <= seen.dirs && Explored(repo, dir, before, seen.dirs)
      invariant forall k ::
        0 <= k < i && TargetOf(repo, dir, entries[k]).Crate? ==> TargetOf(repo, dir, entries[k]).dir in seen.dirs
      invariant forall k :: 0 <= k < i ==> !TargetOf(repo, dir, entries[k]).Outside?
      invariant files == OwnFiles(repo, seen.dirs - start)
    {
      var target := TargetOf(repo, dir, entries[i]);
      if target.Outside? {
        assert LeadsOut(repo, dir, entries);
        ReadableInTables(repo, dir);
        ReachableSelf(repo, dir);
        return Err(PathOutsideRoot(dir));
      }
      if target.Crate? {
        var dep := target.dir;
        assert Leads(repo, dir, entries, dep);
        EdgeInTables(repo, dir, dep);
        ghost var mid := seen.dirs;
        var inner := CrateInputs(repo, dep, seen);
        forall d | d in seen.dirs && d !in mid ensures Reachable(repo, dir, d) { ReachableVia(repo, dir, dep, d); }
        if inner.Err? {
          ReachableVia(repo, dir, dep, inner.error.dir);
          return inner;
        }
        ExploredMore(repo, dir, dep, before, mid, seen.dirs);
        files := files + inner.value;
        assert seen.dirs - start == (mid - start) + (seen.dirs - mid);
      }
      i := i + 1;
    }
    r := Ok(files);
  }

  /** The files of every crate reachable from `dir`, itself included. */
  ghost predicate IsInputs(repo: Repo, dir: Dir, files: set<File>) {
    forall f :: f in files <==> exists d :: Reachable(repo, dir, d) && f in repo.own(d)
  }

  /** A fresh call: it terminates on every graph, fails exactly when some reachable crate has no
      manifest or a path dependency outside the root, and otherwise returns exactly the files of
      the reachable crates, although the inner calls return nothing for a crate already seen. */
  method FreshCrateInputs(repo: Repo, dir: Dir) returns (r: Result<set<File>, Error>)
    ensures r.Ok? <==> forall d :: Reachable(repo, dir, d) ==> Readable(repo, d)
    ensures r.Ok? ==> IsInputs(repo, dir, r.value)
    ensures r.Err? ==> Tells(repo, r.error) && Reachable(repo, dir, r.error.dir)
  {
    var seen := new Seen();
    r := CrateInputs(repo, dir, seen);
    if r.Ok? {
      forall d ensures d in seen.dirs <==> Reachable(repo, dir, d) {
        if Reachable(repo, dir, d) {
          var path :| IsPath(repo, path) && path[0] == dir && path[|path| - 1] == d;
          ClosedContainsPath(repo, seen.dirs, path);
        }
      }
      assert seen.dirs - {} == seen.dirs;
    }
  }
}
