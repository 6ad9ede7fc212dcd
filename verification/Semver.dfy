/** The version spellings of `scripts/release-versions.py`: SemVer in the manifests, PEP 440
    on PyPI, and the next release candidate. Digits are ASCII. */
module Semver {
  import opened Wrappers

  datatype Kind = Alpha | Beta | Rc

  /** What the groups of SEMVER capture. */
  datatype Version = Version(major: string, minor: string, patch: string, pre: Option<(Kind, string)>)

  predicate Digit(c: char) { '0' <= c <= '9' }

  predicate Digits(s: string) { s != "" && forall i :: 0 <= i < |s| ==> Digit(s[i]) }

  predicate WellFormed(v: Version) {
    Digits(v.major) && Digits(v.minor) && Digits(v.patch) && (v.pre.Some? ==> Digits(v.pre.value.1))
  }

  /** X.Y.Z and what follows. */
  function Join(x: string, y: string, z: string, tail: string): string {
    x + ("." + (y + ("." + (z + tail))))
  }

  function Base(v: Version): string { Join(v.major, v.minor, v.patch, "") }

  /** How a pre-release is written in either spelling: PEP440_PRE for PyPI. */
  function Tag(pep: bool, k: Kind): string {
    if pep then match k case Alpha => "a" case Beta => "b" case Rc => "rc"
    else match k case Alpha => "-alpha." case Beta => "-beta." case Rc => "-rc."
  }

  function Tail(pep: bool, v: Version): string {
    if v.pre.None? then "" else Tag(pep, v.pre.value.0) + v.pre.value.1
  }

  function Spelled(pep: bool, v: Version): string { Join(v.major, v.minor, v.patch, Tail(pep, v)) }

  function Spell(v: Version): string { Spelled(false, v) }

  function Pep440(v: Version): string { Spelled(true, v) }

  // ---------------------------------------------------------------- matching

  /** Where the digits that start at i end. */
  function DigitsEnd(s: string, i: nat): (n: nat)
    requires i <= |s|
    ensures i <= n <= |s|
    decreases |s| - i
  {
    if i < |s| && Digit(s[i]) then DigitsEnd(s, i + 1) else i
  }

  /** `\d+`, and what follows it. */
  function ReadDigits(s: string): Option<(string, string)> {
    var n := DigitsEnd(s, 0);
    if n == 0 then None else Some((s[..n], s[n..]))
  }

  function ReadDot(s: string): Option<string> {
    if s != "" && s[0] == '.' then Some(s[1..]) else None
  }

  /** X.Y.Z, and what follows it. */
  function ReadBase(s: string): Option<(Version, string)> {
    match ReadDigits(s) case None => None case Some((x, r0)) =>
    match ReadDot(r0) case None => None case Some(r1) =>
    match ReadDigits(r1) case None => None case Some((y, r2)) =>
    match ReadDot(r2) case None => None case Some(r3) =>
    match ReadDigits(r3) case None => None case Some((z, r4)) => Some((Version(x, y, z, None), r4))
  }

  function ReadTag(s: string, tag: string): Option<(string, string)> {
    if tag <= s then ReadDigits(s[|tag|..]) else None
  }

  /** The pre-release part, in either spelling, and what follows it. */
  function ReadPre(pep: bool, s: string): (Option<(Kind, string)>, string) {
    match ReadTag(s, Tag(pep, Alpha)) case Some((n, rest)) => (Some((Alpha, n)), rest) case None =>
    match ReadTag(s, Tag(pep, Beta)) case Some((n, rest)) => (Some((Beta, n)), rest) case None =>
    match ReadTag(s, Tag(pep, Rc)) case Some((n, rest)) => (Some((Rc, n)), rest) case None => (None, s)
  }

  function Read(pep: bool, s: string): Option<(Version, string)> {
    match ReadBase(s)
    case None => None
    case Some((v, rest)) => var (pre, rest') := ReadPre(pep, rest); Some((v.(pre := pre), rest'))
  }

  /** `SEMVER.match`: `$` holds at the end and before a final newline. */
  function MatchSemver(s: string): Option<Version> {
    match Read(false, s)
    case Some((v, rest)) => if rest == "" || rest == "\n" then Some(v) else None
    case None => None
  }

  /** An inverse of Pep440. */
  function ParsePep440(s: string): Option<Version> {
    match Read(true, s)
    case Some((v, rest)) => if rest == "" then Some(v) else None
    case None => None
  }

  function SemverToPep440(s: string): Result<string, string> {
    match MatchSemver(s) case Some(v) => Ok(Pep440(v)) case None => Err(s)
  }

  // ---------------------------------------------------------------- reading back

  lemma DigitsRead(d: string, rest: string)
    requires Digits(d) && (rest == "" || !Digit(rest[0]))
    ensures ReadDigits(d + rest) == Some((d, rest))
  {
    TakesAll(d, rest, 0);
    assert (d + rest)[..|d|] == d && (d + rest)[|d|..] == rest;
  }

  lemma {:induction false} TakesAll(d: string, rest: string, i: nat)
    requires Digits(d) && i <= |d| && (rest == "" || !Digit(rest[0]))
    ensures DigitsEnd(d + rest, i) == |d|
    decreases |d| - i
  {
    if i < |d| {
      assert (d + rest)[i] == d[i];
      TakesAll(d, rest, i + 1);
    }
  }

  lemma {:induction false} AllTaken(s: string, i: nat)
    requires i <= |s|
    ensures forall k :: i <= k < DigitsEnd(s, i) ==> Digit(s[k])
    decreases |s| - i
  {
    if i < |s| && Digit(s[i]) { AllTaken(s, i + 1); }
  }

  lemma BaseReads(v: Version, tail: string)
    requires WellFormed(v) && (tail == "" || !Digit(tail[0]))
    ensures ReadBase(Join(v.major, v.minor, v.patch, tail)) == Some((v.(pre := None), tail))
  {
    var r3 := v.patch + tail;
    var r1 := v.minor + ("." + r3);
    DigitsRead(v.patch, tail);
    DigitsRead(v.minor, "." + r3);
    DigitsRead(v.major, "." + r1);
    AfterDot(r3);
    AfterDot(r1);
  }

  lemma AfterDot(s: string)
    ensures ReadDot("." + s) == Some(s)
  {
    assert ("." + s)[1..] == s;
  }

  lemma TagReads(tag: string, n: string, rest: string)
    requires Digits(n) && (rest == "" || !Digit(rest[0]))
    ensures ReadTag(tag + (n + rest), tag) == Some((n, rest))
  {
    DigitsRead(n, rest);
    assert (tag + (n + rest))[|tag|..] == n + rest;
  }

  /** No tag begins with another. */
  lemma OtherTags(pep: bool, k: Kind, other: Kind, s: string)
    requires k != other
    ensures ReadTag(Tag(pep, k) + s, Tag(pep, other)) == None
  {
    var i := if pep then 0 else 1;
    assert (Tag(pep, k) + s)[i] == Tag(pep, k)[i] && Tag(pep, k)[i] != Tag(pep, other)[i];
  }

  lemma PreReads(pep: bool, k: Kind, n: string, rest: string)
    requires Digits(n) && (rest == "" || !Digit(rest[0]))
    ensures ReadPre(pep, Tag(pep, k) + (n + rest)) == (Some((k, n)), rest)
  {
    TagReads(Tag(pep, k), n, rest);
    if k != Alpha { OtherTags(pep, k, Alpha, n + rest); }
    if k == Rc { OtherTags(pep, k, Beta, n + rest); }
  }

  lemma NoPre(pep: bool, rest: string)
    requires rest == "" || rest == "\n"
    ensures ReadPre(pep, rest) == (None, rest)
  {
  }

  lemma Associative(a: string, b: string, c: string)
    ensures a + b + c == a + (b + c)
  {
  }

  lemma JoinAppends(x: string, y: string, z: string, tail: string, rest: string)
    ensures Join(x, y, z, tail) + rest == Join(x, y, z, tail + rest)
  {
  }

  lemma ReadsBack(pep: bool, v: Version, rest: string)
    requires WellFormed(v) && (rest == "" || rest == "\n")
    ensures Read(pep, Spelled(pep, v) + rest) == Some((v, rest))
  {
    var tail := Tail(pep, v);
    JoinAppends(v.major, v.minor, v.patch, tail, rest);
    if v.pre.Some? {
      var (k, n) := v.pre.value;
      PreReads(pep, k, n, rest);
      Associative(Tag(pep, k), n, rest);
      assert !Digit((tail + rest)[0]);
    } else {
      NoPre(pep, rest);
      assert tail + rest == rest;
    }
    BaseReads(v, tail + rest);
  }

  lemma DigitsSplit(s: string)
    requires ReadDigits(s).Some?
    ensures var (d, rest) := ReadDigits(s).value; Digits(d) && s == d + rest
  {
    AllTaken(s, 0);
  }

  lemma BaseSplits(s: string)
    requires ReadBase(s).Some?
    ensures var (v, rest) := ReadBase(s).value;
      WellFormed(v) && v.pre == None && s == Join(v.major, v.minor, v.patch, rest)
  {
    var (x, r0) := ReadDigits(s).value;
    DigitsSplit(s);
    var r1 := r0[1..];
    assert r0 == "." + r1;
    var (y, r2) := ReadDigits(r1).value;
    DigitsSplit(r1);
    var r3 := r2[1..];
    assert r2 == "." + r3;
    DigitsSplit(r3);
  }

  lemma TagSplits(s: string, tag: string)
    requires ReadTag(s, tag).Some?
    ensures var (n, rest) := ReadTag(s, tag).value; Digits(n) && s == tag + (n + rest)
  {
    DigitsSplit(s[|tag|..]);
    assert s == tag + s[|tag|..];
  }

  lemma PreSplits(pep: bool, s: string)
    ensures var (pre, rest) := ReadPre(pep, s);
      && (pre.Some? ==> Digits(pre.value.1) && s == Tag(pep, pre.value.0) + (pre.value.1 + rest))
      && (pre.None? ==> rest == s)
  {
    var (pre, rest) := ReadPre(pep, s);
    if pre.Some? { TagSplits(s, Tag(pep, pre.value.0)); }
  }

  lemma Splits(pep: bool, s: string)
    requires Read(pep, s).Some?
    ensures var (v, rest) := Read(pep, s).value; WellFormed(v) && s == Spelled(pep, v) + rest
  {
    BaseSplits(s);
    var (b, after) := ReadBase(s).value;
    PreSplits(pep, after);
    var (v, rest) := Read(pep, s).value;
    JoinAppends(v.major, v.minor, v.patch, Tail(pep, v), rest);
    if v.pre.Some? {
      Associative(Tag(pep, v.pre.value.0), v.pre.value.1, rest);
    } else {
      assert "" + rest == rest;
    }
  }

  /** SEMVER accepts exactly the spelled versions, and each followed by one newline. */
  lemma SemverLanguage(s: string, v: Version)
    ensures MatchSemver(s) == Some(v) <==> WellFormed(v) && (s == Spell(v) || s == Spell(v) + "\n")
  {
    assert Spell(v) + "" == Spell(v);
    if WellFormed(v) {
      ReadsBack(false, v, "");
      ReadsBack(false, v, "\n");
    }
    if MatchSemver(s) == Some(v) {
      Splits(false, s);
    }
  }

  /** The PyPI spelling can be read back. */
  lemma PepInverse(v: Version)
    requires WellFormed(v)
    ensures ParsePep440(Pep440(v)) == Some(v)
  {
    ReadsBack(true, v, "");
    assert Pep440(v) + "" == Pep440(v);
  }

  /** s without one final newline. */
  function Chomp(s: string): string {
    if s != "" && s[|s| - 1] == '\n' then s[..|s| - 1] else s
  }

  lemma SpelledHasNoNewline(v: Version)
    requires WellFormed(v)
    ensures Spell(v) != "" && Spell(v)[|Spell(v)| - 1] != '\n'
    ensures Chomp(Spell(v)) == Spell(v) && Chomp(Spell(v) + "\n") == Spell(v)
  {
    var s := Spell(v);
    var last := if v.pre.None? then v.patch else v.pre.value.1;
    assert s[|s| - 1] == last[|last| - 1];
    assert (s + "\n")[..|s|] == s;
  }

  /** Two supported versions share a PyPI spelling exactly if they are the same up to one
      final newline, which SEMVER lets through. */
  lemma PepInjective(s: string, t: string)
    requires SemverToPep440(s).Ok? && SemverToPep440(t).Ok?
    ensures SemverToPep440(s) == SemverToPep440(t) <==> Chomp(s) == Chomp(t)
  {
    var v, w := MatchSemver(s).value, MatchSemver(t).value;
    SemverLanguage(s, v);
    SemverLanguage(t, w);
    SpelledHasNoNewline(v);
    SpelledHasNoNewline(w);
    PepInverse(v);
    PepInverse(w);
    SemverLanguage(Spell(v), v);
    SemverLanguage(Spell(w), w);
  }

  /** The family that is not told apart: a version, and the same with a newline after it. */
  lemma NewlineIsLost(v: Version)
    requires WellFormed(v)
    ensures SemverToPep440(Spell(v) + "\n") == SemverToPep440(Spell(v)) == Ok(Pep440(v))
  {
    SemverLanguage(Spell(v), v);
    SemverLanguage(Spell(v) + "\n", v);
  }

  // ---------------------------------------------------------------- the next candidate

  function DigitValue(c: char): nat
    requires Digit(c)
  {
    c as int - '0' as int
  }

  /** `int(digits)` */
  function ToNat(s: string): nat
    requires forall i :: 0 <= i < |s| ==> Digit(s[i])
  {
    if s == "" then 0 else ToNat(s[..|s| - 1]) * 10 + DigitValue(s[|s| - 1])
  }

  /** `str(n)` */
  function Decimal(n: nat): (s: string)
    ensures Digits(s)
  {
    var last := [('0' as int + n % 10) as char];
    if n < 10 then last else Decimal(n / 10) + last
  }

  lemma {:induction false} DecimalReads(n: nat)
    ensures ToNat(Decimal(n)) == n
    decreases n
  {
    var s := Decimal(n);
    if n < 10 {
      assert s[..0] == "";
    } else {
      DecimalReads(n / 10);
      assert s[..|s| - 1] == Decimal(n / 10);
    }
  }

  /** `RC.match`: the base, and the candidate's number. */
  function MatchRc(s: string): Option<(string, string)> {
    match MatchSemver(s)
    case Some(v) => if v.pre.Some? && v.pre.value.0 == Rc then Some((Base(v), v.pre.value.1)) else None
    case None => None
  }

  lemma RcNumberIsDigits(s: string)
    requires MatchRc(s).Some?
    ensures Digits(MatchRc(s).value.1)
  {
    SemverLanguage(s, MatchSemver(s).value);
  }

  function Candidate(base: string, n: nat): string { base + "-rc." + Decimal(n) }

  function Following(current: string, rc: Option<(string, string)>): Result<string, string>
    requires rc.Some? ==> Digits(rc.value.1)
  {
    match rc case None => Err(current) case Some((base, n)) => Ok(Candidate(base, ToNat(n) + 1))
  }

  /** The `rc` branch of `next_version`. */
  function NextCandidate(current: string): Result<string, string> {
    var rc := MatchRc(current);
    assert rc.Some? ==> Digits(rc.value.1) by { if rc.Some? { RcNumberIsDigits(current); } }
    Following(current, rc)
  }

  /** `next_version` */
  function NextVersion(current: string, requested: string): Result<string, string> {
    if requested == "rc" then NextCandidate(current)
    else if MatchSemver(requested).None? || MatchRc(requested).None? then Err(requested)
    else Ok(requested)
  }

  function RcVersion(v: Version, n: nat): Version {
    v.(pre := Some((Rc, Decimal(n))))
  }

  lemma RcSpelling(v: Version, n: nat)
    ensures Candidate(Base(v), n) == Spell(RcVersion(v, n))
  {
    JoinAppends(v.major, v.minor, v.patch, "", "-rc." + Decimal(n));
    Associative(Base(v), "-rc.", Decimal(n));
    assert "" + ("-rc." + Decimal(n)) == "-rc." + Decimal(n);
  }

  /** `bump` never resolves a version that is not a release candidate. */
  lemma NextIsCandidate(current: string, requested: string)
    requires NextVersion(current, requested).Ok?
    ensures MatchRc(NextVersion(current, requested).value).Some?
  {
    if requested == "rc" {
      var v := MatchSemver(current).value;
      SemverLanguage(current, v);
      var n := ToNat(v.pre.value.1) + 1;
      RcSpelling(v, n);
      SemverLanguage(Spell(RcVersion(v, n)), RcVersion(v, n));
    }
  }

  predicate IsCandidate(v: Version) { WellFormed(v) && v.pre.Some? && v.pre.value.0 == Rc }

  /** An explicit version is taken as it is if it spells a release candidate, and refused otherwise. */
  lemma ExplicitVersion(current: string, requested: string)
    requires requested != "rc"
    ensures NextVersion(current, requested).Ok? <==>
      exists v :: IsCandidate(v) && (requested == Spell(v) || requested == Spell(v) + "\n")
    ensures NextVersion(current, requested).Ok? ==> NextVersion(current, requested).value == requested
  {
    if NextVersion(current, requested).Ok? {
      SemverLanguage(requested, MatchSemver(requested).value);
      assert IsCandidate(MatchSemver(requested).value);
    }
    if v :| IsCandidate(v) && (requested == Spell(v) || requested == Spell(v) + "\n") {
      SemverLanguage(requested, v);
    }
  }

  function Bumped(s: string, k: nat): Result<string, string> {
    if k == 0 then Ok(s)
    else match Bumped(s, k - 1) case Ok(t) => NextVersion(t, "rc") case Err(e) => Err(e)
  }

  lemma RcMatches(v: Version, n: nat)
    requires WellFormed(v)
    ensures MatchRc(Spell(RcVersion(v, n))) == Some((Base(v), Decimal(n)))
  {
    var w := RcVersion(v, n);
    SemverLanguage(Spell(w), w);
    assert Base(w) == Base(v);
  }

  lemma FollowingIs(current: string, base: string, digits: string, next: nat)
    requires Digits(digits) && next == ToNat(digits) + 1
    ensures Following(current, Some((base, digits))) == Ok(Candidate(base, next))
  {
  }

  lemma OneBump(v: Version, n: nat, next: nat)
    requires WellFormed(v) && next == n + 1
    ensures NextCandidate(Spell(RcVersion(v, n))) == Ok(Spell(RcVersion(v, next)))
  {
    RcMatches(v, n);
    DecimalReads(n);
    FollowingIs(Spell(RcVersion(v, n)), Base(v), Decimal(n), next);
    RcSpelling(v, next);
  }

  /** k `rc` bumps of X.Y.Z-rc.N give X.Y.Z-rc.(N+k). */
  lemma {:induction false} Bumps(v: Version, n: nat, k: nat, m: nat)
    requires WellFormed(v) && m == n + k
    ensures Bumped(Spell(RcVersion(v, n)), k) == Ok(Spell(RcVersion(v, m)))
    decreases k
  {
    if k > 0 {
      var before := m - 1;
      Bumps(v, n, k - 1, before);
      OneBump(v, before, m);
    }
  }

  // ---------------------------------------------------------------- in plain text

  /** `X.Y.Z` and a tail, as it is read. */
  lemma Dotted(x: string, y: string, z: string, tail: string)
    ensures Join(x, y, z, tail) == x + "." + y + "." + z + tail
  {
    assert x + ("." + (y + ("." + (z + tail)))) == x + "." + y + "." + z + tail;
  }

  lemma DottedTail(x: string, y: string, z: string, tag: string, n: string)
    ensures Join(x, y, z, tag + n) == x + "." + y + "." + z + tag + n
  {
    Dotted(x, y, z, tag + n);
    assert x + "." + y + "." + z + (tag + n) == x + "." + y + "." + z + tag + n;
  }

  /** `semver_to_pep440`: X.Y.Z stays, and `-alpha.N`, `-beta.N`, `-rc.N` become `aN`, `bN`, `rcN`. */
  lemma PepSpellings(x: string, y: string, z: string, n: string)
    requires Digits(x) && Digits(y) && Digits(z) && Digits(n)
    ensures SemverToPep440(x + "." + y + "." + z) == Ok(x + "." + y + "." + z)
    ensures SemverToPep440(x + "." + y + "." + z + "-alpha." + n) == Ok(x + "." + y + "." + z + "a" + n)
    ensures SemverToPep440(x + "." + y + "." + z + "-beta." + n) == Ok(x + "." + y + "." + z + "b" + n)
    ensures SemverToPep440(x + "." + y + "." + z + "-rc." + n) == Ok(x + "." + y + "." + z + "rc" + n)
  {
    var v := Version(x, y, z, None);
    Dotted(x, y, z, "");
    assert x + "." + y + "." + z + "" == x + "." + y + "." + z;
    SemverLanguage(Spell(v), v);
    PreSpelling(x, y, z, n, Alpha, "-alpha.", "a");
    PreSpelling(x, y, z, n, Beta, "-beta.", "b");
    PreSpelling(x, y, z, n, Rc, "-rc.", "rc");
  }

  lemma PreSpelling(x: string, y: string, z: string, n: string, k: Kind, tag: string, pep: string)
    requires Digits(x) && Digits(y) && Digits(z) && Digits(n) && Tag(false, k) == tag && Tag(true, k) == pep
    ensures SemverToPep440(x + "." + y + "." + z + tag + n) == Ok(x + "." + y + "." + z + pep + n)
  {
    var v := Version(x, y, z, Some((k, n)));
    DottedTail(x, y, z, tag, n);
    DottedTail(x, y, z, pep, n);
    SemverLanguage(Spell(v), v);
  }

  function Pow10(n: nat): nat { if n == 0 then 1 else 10 * Pow10(n - 1) }

  /** The number that digits spell is decimal. */
  lemma {:induction false} NumberOfParts(a: string, b: string)
    requires Digits(a) && Digits(b)
    ensures ToNat(a + b) == ToNat(a) * Pow10(|b|) + ToNat(b)
    ensures |b| == 1 ==> ToNat(b) == b[0] as nat - '0' as nat
    decreases |b|
  {
    var last := |b| - 1;
    assert (a + b)[..|a + b| - 1] == a + b[..last];
    if last == 0 {
      assert b[..0] == "" && a + "" == a;
    } else {
      NumberOfParts(a, b[..last]);
      Scale(ToNat(a), Pow10(last), ToNat(b[..last]), DigitValue(b[last]));
    }
  }

  lemma Scale(a: nat, p: nat, b: nat, d: nat)
    ensures (a * p + b) * 10 + d == a * (10 * p) + (b * 10 + d)
  {
  }

  /** Numbers are written without leading zeros. */
  lemma {:induction false} NoLeadingZero(n: nat)
    ensures n > 0 ==> Decimal(n)[0] != '0'
    ensures n == 0 ==> Decimal(n) == "0"
    decreases n
  {
    if n >= 10 { NoLeadingZero(n / 10); }
  }

  lemma NextOfKind(base: string, s: string, n: string, k: Kind)
    requires Digits(n) && MatchRc(s) == if k == Rc then Some((base, n)) else None
    ensures NextVersion(s, "rc") == if k == Rc then Ok(base + "-rc." + Decimal(ToNat(n) + 1)) else Err(s)
  {
    if k == Rc { FollowingIs(s, base, n, ToNat(n) + 1); }
  }

  lemma NextOfRelease(x: string, y: string, z: string)
    requires Digits(x) && Digits(y) && Digits(z)
    ensures NextVersion(x + "." + y + "." + z, "rc").Err?
  {
    var v, base := Version(x, y, z, None), x + "." + y + "." + z;
    Dotted(x, y, z, "");
    assert base + "" == base;
    SemverLanguage(Spell(v), v);
  }

  /** `rc` moves X.Y.Z-rc.N to the next number, and refuses every other version. */
  lemma NextAfter(x: string, y: string, z: string, n: string)
    requires Digits(x) && Digits(y) && Digits(z) && Digits(n)
    ensures NextVersion(x + "." + y + "." + z + "-rc." + n, "rc")
         == Ok(x + "." + y + "." + z + "-rc." + Decimal(ToNat(n) + 1))
    ensures NextVersion(x + "." + y + "." + z, "rc").Err?
    ensures NextVersion(x + "." + y + "." + z + "-alpha." + n, "rc").Err?
    ensures NextVersion(x + "." + y + "." + z + "-beta." + n, "rc").Err?
  {
    var base := x + "." + y + "." + z;
    KindOf(x, y, z, n, Alpha, "-alpha.");
    KindOf(x, y, z, n, Beta, "-beta.");
    KindOf(x, y, z, n, Rc, "-rc.");
    NextOfKind(base, base + "-alpha." + n, n, Alpha);
    NextOfKind(base, base + "-beta." + n, n, Beta);
    NextOfKind(base, base + "-rc." + n, n, Rc);
    NextOfRelease(x, y, z);
  }

  lemma KindOf(x: string, y: string, z: string, n: string, k: Kind, tag: string)
    requires Digits(x) && Digits(y) && Digits(z) && Digits(n) && Tag(false, k) == tag
    ensures MatchRc(x + "." + y + "." + z + tag + n) == if k == Rc then Some((x + "." + y + "." + z, n)) else None
  {
    var v := Version(x, y, z, Some((k, n)));
    Dotted(x, y, z, "");
    assert x + "." + y + "." + z + "" == x + "." + y + "." + z;
    DottedTail(x, y, z, tag, n);
    SemverLanguage(Spell(v), v);
  }
}
