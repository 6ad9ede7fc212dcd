/** `bump` of `scripts/release-versions.py`: new versions are planned in memory, written to
    several files, verified, and rolled back on any disagreement, failure or interrupt. */
module Bump {
  import opened Wrappers
  import Semver

  datatype Track = Bindings | Rust | Uniffi

  const TRACKS := [Bindings, Rust, Uniffi]

  /** A version for every track. */
  datatype Tracks = Tracks(bindings: string, rust: string, uniffi: string) {
    function At(t: Track): string {
      match t case Bindings => bindings case Rust => rust case Uniffi => uniffi
    }
  }

  type Files = map<string, string>

  type Targets = map<Track, string>

  /** The manifests of one track: the reference, and the others that must agree with it. */
  datatype Source = Source(value: string, pep440: bool)

  datatype Manifest = Manifest(reference: string, others: seq<Source>)

  datatype Versions = Versions(bindings: Manifest, rust: Manifest, uniffi: Manifest) {
    function At(t: Track): Manifest {
      match t case Bindings => bindings case Rust => rust case Uniffi => uniffi
    }

    /** `track_versions` */
    function References(): Tracks { Tracks(bindings.reference, rust.reference, uniffi.reference) }
  }

  /** A row of the slot tables, apart from its pattern. */
  datatype Entry = Entry(path: string, name: string, track: Track, pep440: bool)

  datatype Failure =
    | MissingFile(path: string)
    | SlotNotFound(entry: Entry)
    | BadVersion(value: string)
    | NoTable(name: string)
    | Raised(what: string)

  /** What the tool is built on: its slot tables, reading and rewriting a slot in a text,
      and the structural reading of the manifests. Each may raise. */
  datatype Tool = Tool(
    manifests: seq<Entry>,
    docs: seq<Entry>,
    values: (Entry, string) -> Result<seq<string>, Failure>,
    replaced: (Entry, string, string) -> Result<string, Failure>,
    collect: Files -> Result<Versions, Failure>)

  // ---------------------------------------------------------------- checking

  /** A version as a slot or a source spells it. */
  function Spelling(pep440: bool, v: string): Result<string, Failure> {
    if !pep440 then Ok(v)
    else match Semver.SemverToPep440(v) case Ok(p) => Ok(p) case Err(e) => Err(BadVersion(e))
  }

  datatype Problem = NotSemver(t: Track) | Disagrees(t: Track, value: string) | ReadBack(t: Track) | Drift(entry: Entry)

  /** The sources that do not say what the reference says. */
  function Odd(t: Track, reference: string, others: seq<Source>): seq<Problem> {
    if others == [] then []
    else
      (if Spelling(others[0].pep440, reference) == Ok(others[0].value) then [] else [Disagrees(t, others[0].value)])
      + Odd(t, reference, others[1..])
  }

  /** One turn of `check`. */
  function CheckTrack(t: Track, m: Manifest): seq<Problem> {
    if Semver.MatchSemver(m.reference).None? then [NotSemver(t)] else Odd(t, m.reference, m.others)
  }

  /** `check` */
  function Check(v: Versions): seq<Problem> {
    CheckTrack(Bindings, v.bindings) + CheckTrack(Rust, v.rust) + CheckTrack(Uniffi, v.uniffi)
  }

  /** The manifests read back something other than what was asked for. */
  function Unexpected(got: Tracks, want: Tracks): seq<Problem> {
    (if got.bindings != want.bindings then [ReadBack(Bindings)] else [])
    + (if got.rust != want.rust then [ReadBack(Rust)] else [])
    + (if got.uniffi != want.uniffi then [ReadBack(Uniffi)] else [])
  }

  /** `Derived.ok`, for what a slot found. */
  predicate Spells(found: seq<string>, expected: string) {
    found != [] && forall v <- found :: v == expected
  }

  /** `derived_docs`, and of these the ones that are not ok. */
  function Drifts(tool: Tool, docs: seq<Entry>, files: Files, tracks: Tracks): Result<seq<Problem>, Failure> {
    if docs == [] then Ok([])
    else
      var e := docs[0];
      if e.path !in files then Err(MissingFile(e.path))
      else match tool.values(e, files[e.path]) case Err(f) => Err(f) case Ok(found) =>
      match Spelling(e.pep440, tracks.At(e.track)) case Err(f) => Err(f) case Ok(expected) =>
      match Drifts(tool, docs[1..], files, tracks) case Err(f) => Err(f) case Ok(more) =>
      Ok(if Spells(found, expected) then more else [Drift(e)] + more)
  }

  /** What is wrong after the files were written. */
  function Problems(tool: Tool, files: Files, want: Tracks): Result<seq<Problem>, Failure> {
    match tool.collect(files) case Err(f) => Err(f) case Ok(after) =>
    if Check(after) != [] then Ok(Check(after))
    else
      match Drifts(tool, tool.docs, files, after.References()) case Err(f) => Err(f) case Ok(drifts) =>
      Ok(Unexpected(after.References(), want) + drifts)
  }

  /** Every manifest and every document slot spells the version its track should have. */
  ghost predicate Consistent(tool: Tool, files: Files, want: Tracks) {
    && tool.collect(files).Ok?
    && (forall t: Track :: ManifestSays(tool.collect(files).value.At(t), want.At(t)))
    && (forall e <- tool.docs :: DocSays(tool, e, files, want))
  }

  predicate ManifestSays(m: Manifest, v: string) {
    && m.reference == v
    && Semver.MatchSemver(v).Some?
    && forall s <- m.others :: Spelling(s.pep440, v) == Ok(s.value)
  }

  predicate DocSays(tool: Tool, e: Entry, files: Files, want: Tracks) {
    && e.path in files
    && tool.values(e, files[e.path]).Ok?
    && Spelling(e.pep440, want.At(e.track)).Ok?
    && Spells(tool.values(e, files[e.path]).value, Spelling(e.pep440, want.At(e.track)).value)
  }

  lemma {:induction false} OddMeans(t: Track, reference: string, others: seq<Source>)
    ensures Odd(t, reference, others) == [] <==> forall s <- others :: Spelling(s.pep440, reference) == Ok(s.value)
    decreases |others|
  {
    if others != [] {
      OddMeans(t, reference, others[1..]);
      assert others == [others[0]] + others[1..];
    }
  }

  lemma {:induction false} DriftsMean(tool: Tool, docs: seq<Entry>, files: Files, tracks: Tracks)
    ensures Drifts(tool, docs, files, tracks) == Ok([]) <==> forall e <- docs :: DocSays(tool, e, files, tracks)
    decreases |docs|
  {
    if docs != [] {
      DriftsMean(tool, docs[1..], files, tracks);
      assert docs == [docs[0]] + docs[1..];
      assert docs[0] in docs;
    }
  }

  lemma CheckTrackMeans(t: Track, m: Manifest)
    ensures CheckTrack(t, m) == [] <==> ManifestSays(m, m.reference)
  {
    OddMeans(t, m.reference, m.others);
  }

  lemma Parts<T>(a: seq<T>, b: seq<T>, c: seq<T>)
    ensures a + b + c == [] <==> a == [] && b == [] && c == []
  {
  }

  lemma CheckMeans(v: Versions)
    ensures Check(v) == [] <==> forall t: Track :: ManifestSays(v.At(t), v.References().At(t))
  {
    Parts(CheckTrack(Bindings, v.bindings), CheckTrack(Rust, v.rust), CheckTrack(Uniffi, v.uniffi));
    forall t: Track ensures CheckTrack(t, v.At(t)) == [] <==> ManifestSays(v.At(t), v.References().At(t)) {
      CheckTrackMeans(t, v.At(t));
    }
    assert v.At(Bindings) == v.bindings && v.At(Rust) == v.rust && v.At(Uniffi) == v.uniffi;
  }

  lemma UnexpectedMeans(got: Tracks, want: Tracks)
    ensures Unexpected(got, want) == [] <==> got == want
  {
    Parts(if got.bindings != want.bindings then [ReadBack(Bindings)] else [],
          if got.rust != want.rust then [ReadBack(Rust)] else [],
          if got.uniffi != want.uniffi then [ReadBack(Uniffi)] else []);
  }

  lemma OnlyReferences(v: Versions, want: Tracks)
    requires forall t: Track :: ManifestSays(v.At(t), want.At(t))
    ensures v.References() == want
  {
    assert ManifestSays(v.At(Bindings), want.At(Bindings));
    assert ManifestSays(v.At(Rust), want.At(Rust));
    assert ManifestSays(v.At(Uniffi), want.At(Uniffi));
  }

  /** The check that follows the writes finds nothing exactly when the files are consistent. */
  lemma NoProblems(tool: Tool, files: Files, want: Tracks)
    ensures Problems(tool, files, want) == Ok([]) <==> Consistent(tool, files, want)
  {
    if tool.collect(files).Ok? {
      var after := tool.collect(files).value;
      CheckMeans(after);
      UnexpectedMeans(after.References(), want);
      DriftsMean(tool, tool.docs, files, after.References());
      if Consistent(tool, files, want) { OnlyReferences(after, want); }
    }
  }
}
