/** The literal rows of MANIFEST_SLOTS and DOC_SLOTS, and the laws for the versions that
    `bump` writes into them. */
module SlotTable {
  import opened Wrappers
  import Semver
  import opened Slots
  import opened SlotLayout
  import opened SlotReading
  import opened SlotRegions
  import SlotLaws

  function TomlVersion(table: string): Slot {
    Slot(Table(table), true, "version = \"", Except('\"'), "\"", true)
  }

  const PACKAGE_JSON := Slot(WholeText, true, "  \"version\": \"", Except('\"'), "\",", true)
  const CSPROJ := Slot(WholeText, false, "<Version>", Except('<'), "</Version>", false)
  const GRADLE_CALL := "gradleProperty"
  const GRADLE_ARGUMENTS := "(\"projectVersion\").getOrElse(\""
  const GRADLE := Slot(WholeText, false, GRADLE_CALL + GRADLE_ARGUMENTS, Except('\"'), "\")", false)
  const PIP_INSTALL := Slot(WholeText, false, "fugle-marketdata==", VersionChars, "", false)
  const GO_GET := Slot(WholeText, false, "fugle-marketdata-go@v", VersionChars, "", false)
  const VERSION_LINE := Slot(WholeText, true, "VERSION=", VersionChars, "", false)
  const TAG_LINE := Slot(WholeText, true, "TAG=v", VersionChars, "", false)

  const MANIFEST_SLOTS := [PACKAGE_JSON, TomlVersion("workspace.package"), TomlVersion("project"),
                           TomlVersion("package"), CSPROJ, GRADLE]

  const DOC_SLOTS := [PIP_INSTALL, GO_GET, VERSION_LINE, TAG_LINE]

  /** What makes the laws hold of a row. */
  predicate Good(slot: Slot) {
    && Slots.WellFormed(slot)
    && (forall c <- slot.suffix :: !Semver.Digit(c))
    && (slot.captured == Except('\"') || slot.captured == Except('<') || slot.captured == VersionChars)
  }

  lemma TomlIsGood(table: string)
    ensures Good(TomlVersion(table))
  {
    var prefix := TomlVersion(table).prefix;
    assert prefix[|prefix| - 1] == '\"';
  }

  lemma TextRowsAreGood()
    ensures Good(PACKAGE_JSON) && Good(CSPROJ) && Good(GRADLE)
  {
  }

  lemma DocRowsAreGood()
    ensures Good(PIP_INSTALL) && Good(GO_GET) && Good(VERSION_LINE) && Good(TAG_LINE)
  {
  }

  predicate IsRow(slot: Slot) { slot in MANIFEST_SLOTS || slot in DOC_SLOTS }

  lemma RowsAreGood(slot: Slot)
    requires IsRow(slot)
    ensures Good(slot)
  {
    TomlIsGood("workspace.package");
    TomlIsGood("project");
    TomlIsGood("package");
    TextRowsAreGood();
    DocRowsAreGood();
  }

  // ---------------------------------------------------------------- what the rows match

  /** `s` is not empty and has no c; what follows it begins with what `$` or nothing asks for. */
  predicate Quoted(s: string, c: char) { s != "" && forall k :: 0 <= k < |s| ==> s[k] != c }

  predicate AtLineEnd(after: string) { after != "" ==> after[0] == '\n' }

  /** `[0-9A-Za-z.\-]` */
  predicate VersionChar(c: char) { '0' <= c <= '9' || 'A' <= c <= 'Z' || 'a' <= c <= 'z' || c == '.' || c == '-' }

  /** `v` is all of the version characters that come first. */
  predicate Longest(v: string, after: string) {
    v != "" && (forall k :: 0 <= k < |v| ==> VersionChar(v[k])) && (after != "" ==> !VersionChar(after[0]))
  }

  /** Where the rows of the manifests match: the `version` line of package.json and of a TOML
      table, `<Version>` and `projectVersion`. */
  lemma ManifestRowsMatch(bol: bool, table: string, v: string, after: string)
    ensures MatchHead(PACKAGE_JSON, bol, "  \"version\": \"" + v + ("\"," + after)) == Some(|v|)
      <==> bol && Quoted(v, '\"') && AtLineEnd(after)
    ensures MatchHead(TomlVersion(table), bol, "version = \"" + v + ("\"" + after)) == Some(|v|)
      <==> bol && Quoted(v, '\"') && AtLineEnd(after)
    ensures MatchHead(CSPROJ, bol, "<Version>" + v + ("</Version>" + after)) == Some(|v|) <==> Quoted(v, '<')
    ensures MatchHead(GRADLE, bol, "gradleProperty" + "(\"projectVersion\").getOrElse(\"" + v + ("\")" + after))
              == Some(|v|)
      <==> Quoted(v, '\"')
  {
    TomlIsGood(table);
    TextRowsAreGood();
    MatchMeans(PACKAGE_JSON, bol, v, after);
    MatchMeans(TomlVersion(table), bol, v, after);
    MatchMeans(CSPROJ, bol, v, after);
    MatchMeans(GRADLE, bol, v, after);
    QuotedMeans(v, '\"');
    QuotedMeans(v, '<');
  }

  /** Where the literal rows of the documents match. */
  lemma DocRowsMatch(bol: bool, v: string, after: string)
    ensures MatchHead(PIP_INSTALL, bol, "fugle-marketdata==" + v + ("" + after)) == Some(|v|) <==> Longest(v, after)
    ensures MatchHead(GO_GET, bol, "fugle-marketdata-go@v" + v + ("" + after)) == Some(|v|) <==> Longest(v, after)
    ensures MatchHead(VERSION_LINE, bol, "VERSION=" + v + ("" + after)) == Some(|v|) <==> bol && Longest(v, after)
    ensures MatchHead(TAG_LINE, bol, "TAG=v" + v + ("" + after)) == Some(|v|) <==> bol && Longest(v, after)
  {
    DocRowsAreGood();
    MatchMeans(PIP_INSTALL, bol, v, after);
    MatchMeans(GO_GET, bol, v, after);
    MatchMeans(VERSION_LINE, bol, v, after);
    MatchMeans(TAG_LINE, bol, v, after);
    LongestMeans(v);
  }

  /** All rows but the TOML ones look at the whole file. */
  lemma RowRegions(text: string, table: string)
    ensures TomlVersion(table).scope == Table(table)
    ensures forall slot :: IsRow(slot) && !slot.scope.Table? ==> Region(text, slot.scope) == Ok(Span(0, |text|))
    ensures forall slot :: IsRow(slot) && slot.scope.Table? ==> slot.prefix == "version = \""
  {
  }

  lemma QuotedMeans(v: string, c: char)
    ensures Quoted(v, c) <==> v != "" && forall d <- v :: In(Except(c), d)
  {
    if forall d <- v :: In(Except(c), d) {
      forall k | 0 <= k < |v| ensures v[k] != c { assert v[k] in v; }
    }
  }

  lemma LongestMeans(v: string)
    ensures (forall d <- v :: In(VersionChars, d)) <==> forall k :: 0 <= k < |v| ==> VersionChar(v[k])
  {
    if forall d <- v :: In(VersionChars, d) {
      forall k | 0 <= k < |v| ensures VersionChar(v[k]) { assert v[k] in v; }
    }
  }

  // ---------------------------------------------------------------- no row breaks

  /** In a confusing opening the second prefix lies over the first one, the run, and the suffix. */
  lemma OverlapsAt(slot: Slot, x: string, k: nat, i: nat, at: nat)
    requires k <= |slot.suffix| && Opens(slot, Opening(slot, x, k)) && InClass(slot, x)
    requires i < |slot.prefix| && at == |x| + k + i
    ensures at < |slot.prefix| ==> slot.prefix[at] == slot.prefix[i]
    ensures |slot.prefix| <= at < |slot.prefix| + |x| ==> In(slot.captured, slot.prefix[i])
    ensures |slot.prefix| + |x| <= at ==>
      at - |slot.prefix| - |x| < k && slot.suffix[at - |slot.prefix| - |x|] == slot.prefix[i]
  {
    var u, p := Opening(slot, x, k), |slot.prefix|;
    assert u[|u| - p..][i] == u[at];
    if p <= at < p + |x| { assert u[at] == x[at - p]; }
  }

  /** No prefix may end where a value is written after an earlier prefix and part of the suffix. */
  ghost predicate Apart(slot: Slot) {
    forall x: string, k: nat :: !Confusing(slot, x, k)
  }

  lemma ShortSuffixApart(slot: Slot)
    requires |slot.suffix| <= 1
    ensures Apart(slot)
  {
  }

  lemma PackageJsonApart()
    ensures Apart(PACKAGE_JSON)
  {
    forall x: string, k: nat ensures !Confusing(PACKAGE_JSON, x, k) {
      if Confusing(PACKAGE_JSON, x, k) {
        OverlapsAt(PACKAGE_JSON, x, k, 0, |x| + k);
        OverlapsAt(PACKAGE_JSON, x, k, 10, |x| + k + 10);
      }
    }
  }

  lemma CsprojApart()
    ensures Apart(CSPROJ)
  {
    HeadApart(CSPROJ);
  }

  /** A prefix that starts with a character no capture has, and whose second one is not the suffix's. */
  lemma HeadApart(slot: Slot)
    requires |slot.prefix| >= 2 && !In(slot.captured, slot.prefix[0])
    requires forall at :: 1 <= at < |slot.prefix| ==> slot.prefix[at] != slot.prefix[0]
    requires 2 <= |slot.suffix| <= |slot.prefix| + 1 && slot.suffix[1] != slot.prefix[1]
    ensures Apart(slot)
  {
    forall x: string, k: nat ensures !Confusing(slot, x, k) {
      if Confusing(slot, x, k) {
        OverlapsAt(slot, x, k, 0, |x| + k);
        OverlapsAt(slot, x, k, 1, |x| + k + 1);
      }
    }
  }

  lemma GradlePrefix()
    ensures |GRADLE.prefix| == 44 && GRADLE.prefix[0] == 'g' && GRADLE.prefix[30] == '\"'
    ensures forall i :: 2 <= i < 14 ==> GRADLE.prefix[i] != 'g'
  {
    assert |GRADLE_CALL| == 14 && |GRADLE_ARGUMENTS| == 30;
    assert GRADLE.prefix[30] == GRADLE_ARGUMENTS[16];
    forall i | 2 <= i < 14 ensures GRADLE.prefix[i] != 'g' { assert GRADLE.prefix[i] == GRADLE_CALL[i]; }
  }

  lemma GradleApart()
    ensures Apart(GRADLE)
  {
    GradlePrefix();
    QuoteApart(GRADLE, 30);
  }

  /** A prefix whose second-last quote is at i, and that cannot start over what is before it. */
  lemma QuoteApart(slot: Slot, i: nat)
    requires i + 1 < |slot.prefix| && slot.captured == Except('\"') && slot.prefix[i] == '\"' && |slot.suffix| == 2
    requires forall at :: 2 <= at < |slot.prefix| - i ==> slot.prefix[at] != slot.prefix[0]
    ensures Apart(slot)
  {
    forall x: string, k: nat ensures !Confusing(slot, x, k) {
      if Confusing(slot, x, k) {
        OverlapsAt(slot, x, k, 0, |x| + k);
        OverlapsAt(slot, x, k, i, |x| + k + i);
      }
    }
  }

  /** So the laws hold of every row and every value its class admits. */
  lemma NoRowBreaks(slot: Slot, value: string)
    requires IsRow(slot)
    ensures !Breakable(slot, value)
  {
    PackageJsonApart();
    CsprojApart();
    GradleApart();
    if |slot.suffix| <= 1 { ShortSuffixApart(slot); }
  }

  // ---------------------------------------------------------------- no row mistakes a version for itself

  predicate Digitless(s: string) { forall i :: 0 <= i < |s| ==> !Semver.Digit(s[i]) }

  /** A row without digits around its capture, and with a delimiter at i. */
  lemma IsTame(slot: Slot, i: nat)
    requires Good(slot) && Digitless(slot.prefix) && Digitless(slot.suffix)
    requires i < |slot.prefix| && !In(VersionChars, slot.prefix[i])
    ensures Tame(slot)
  {
    assert slot.prefix[i] in slot.prefix;
  }

  lemma TomlIsTame(table: string)
    ensures Tame(TomlVersion(table))
  {
    TomlIsGood(table);
    IsTame(TomlVersion(table), 7);
  }

  lemma PackageJsonIsTame()
    ensures Tame(PACKAGE_JSON)
  {
    TextRowsAreGood();
    IsTame(PACKAGE_JSON, 0);
  }

  lemma CsprojIsTame()
    ensures Tame(CSPROJ)
  {
    TextRowsAreGood();
    IsTame(CSPROJ, 0);
  }

  lemma DigitlessConcat(a: string, b: string)
    requires Digitless(a) && Digitless(b)
    ensures Digitless(a + b)
  {
  }

  lemma GradleIsTame()
    ensures Tame(GRADLE)
  {
    TextRowsAreGood();
    GradlePrefix();
    DigitlessConcat(GRADLE_CALL, GRADLE_ARGUMENTS);
    IsTame(GRADLE, 30);
  }

  lemma PipIsTame()
    ensures Tame(PIP_INSTALL)
  {
    DocRowsAreGood();
    IsTame(PIP_INSTALL, 17);
  }

  lemma GoIsTame()
    ensures Tame(GO_GET)
  {
    DocRowsAreGood();
    IsTame(GO_GET, 19);
  }

  lemma LinesAreTame()
    ensures Tame(VERSION_LINE) && Tame(TAG_LINE)
  {
    DocRowsAreGood();
    IsTame(VERSION_LINE, 7);
    IsTame(TAG_LINE, 3);
  }

  lemma ManifestRowsAreTame(slot: Slot)
    requires slot in MANIFEST_SLOTS
    ensures Tame(slot)
  {
    TomlIsTame("workspace.package");
    TomlIsTame("project");
    TomlIsTame("package");
    PackageJsonIsTame();
    CsprojIsTame();
    GradleIsTame();
  }

  lemma DocRowsAreTame(slot: Slot)
    requires slot in DOC_SLOTS
    ensures Tame(slot)
  {
    PipIsTame();
    GoIsTame();
    LinesAreTame();
  }

  lemma RowsAreTame(slot: Slot)
    requires IsRow(slot)
    ensures Tame(slot)
  {
    if slot in MANIFEST_SLOTS {
      ManifestRowsAreTame(slot);
    } else {
      DocRowsAreTame(slot);
    }
  }

  // ---------------------------------------------------------------- what is written

  lemma PlainConcat(a: string, b: string)
    requires Plain(a) && Plain(b)
    ensures Plain(a + b)
  {
  }

  lemma DigitsArePlain(s: string)
    requires Semver.Digits(s)
    ensures Plain(s)
  {
  }

  lemma JoinIsPlain(x: string, y: string, z: string, tail: string)
    requires Semver.Digits(x) && Semver.Digits(y) && Semver.Digits(z) && Plain(tail)
    ensures Plain(Semver.Join(x, y, z, tail))
  {
    DigitsArePlain(x);
    DigitsArePlain(y);
    DigitsArePlain(z);
    PlainConcat(z, tail);
    PlainConcat(".", z + tail);
    PlainConcat(y, "." + (z + tail));
    PlainConcat(".", y + ("." + (z + tail)));
    PlainConcat(x, "." + (y + ("." + (z + tail))));
  }

  lemma VersionIsPlain(pep: bool, v: Semver.Version)
    requires Semver.WellFormed(v)
    ensures Plain(Semver.Spelled(pep, v))
    ensures Semver.Spelled(pep, v) != "" && Semver.Digit(Semver.Spelled(pep, v)[0])
  {
    if v.pre.Some? {
      DigitsArePlain(v.pre.value.1);
      PlainConcat(Semver.Tag(pep, v.pre.value.0), v.pre.value.1);
    }
    JoinIsPlain(v.major, v.minor, v.patch, Semver.Tail(pep, v));
  }

  lemma DocRow(slot: Slot)
    requires slot in DOC_SLOTS
    ensures Tame(slot) && slot.captured == VersionChars && slot.scope.WholeText?
  {
    RowsAreTame(slot);
  }

  /** Either spelling of a version starts and ends with a digit. */
  lemma VersionIsVersionlike(pep: bool, v: Semver.Version)
    requires Semver.WellFormed(v)
    ensures Versionlike(Semver.Spelled(pep, v))
  {
    VersionIsPlain(pep, v);
    var s, last := Semver.Spelled(pep, v), if v.pre.Some? then v.pre.value.1 else v.patch;
    assert s[|s| - 1] == last[|last| - 1];
  }

  /** Either spelling of any version may be written into any row. */
  lemma VersionIsWritable(slot: Slot, pep: bool, v: Semver.Version)
    requires IsRow(slot) && Semver.WellFormed(v)
    ensures Slots.WellFormed(slot) && Writable(slot, Semver.Spelled(pep, v))
  {
    RowsAreGood(slot);
    VersionIsPlain(pep, v);
    assert Semver.Digit(Semver.Spelled(pep, v)[0]);
  }

  /** What `bump` writes it reads back: the next version, at every place the old one was. */
  lemma BumpedSlotReads(text: string, slot: Slot, pep: bool, v: Semver.Version)
    requires IsRow(slot) && Semver.WellFormed(v)
    requires SlotValues(text, slot).Ok? && SlotValues(text, slot).value != []
    ensures SlotReplaced(text, slot, Semver.Spelled(pep, v)).Ok?
    ensures var after := SlotValues(SlotReplaced(text, slot, Semver.Spelled(pep, v)).value, slot);
      && after.Ok? && |after.value| == |SlotValues(text, slot).value|
      && (forall found <- after.value :: found == Semver.Spelled(pep, v))
  {
    VersionIsWritable(slot, pep, v);
    NoRowBreaks(slot, Semver.Spelled(pep, v));
    SlotLaws.PutThenGet(text, slot, Semver.Spelled(pep, v));
    SameMeans(SlotValues(text, slot).value, Semver.Spelled(pep, v));
  }
}
