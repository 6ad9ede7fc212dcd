/** Two slots whose matches overlap: rewriting one destroys the other. */
module SlotOverlap {
  import opened Slots
  import opened SlotFits
  import opened SlotLayout
  import opened SlotReading
  import opened SlotTable

  const NAME := "fugle-marketdata"

  /** `fugle-marketdata-go@vfugle-marketdata==` and a version: the go capture lies over the pip prefix. */
  function Overlapping(capture: string, w: string): string { GO_GET.prefix + capture + ("==" + w) }

  lemma PipNeeds(bol: bool, s: string, q: nat)
    ensures MatchesAt(PIP_INSTALL, bol, s, q) ==>
      q + 17 < |s| && s[q + 15] == 'a' && s[q + 16] == '=' && s[q + 17] == '='
  {
    var p := PIP_INSTALL.prefix;
    MatchesAtMeans(PIP_INSTALL, bol, s, q);
    assert |p| == 18 && p[15] == 'a' && p[16] == '=' && p[17] == '=';
    if Stands(PIP_INSTALL, bol, s, q) {
      var m := s[q..q + 18];
      assert m[15] == s[q + 15] && m[16] == s[q + 16] && m[17] == s[q + 17];
    }
  }

  lemma GoNeeds(bol: bool, s: string, q: nat)
    ensures MatchesAt(GO_GET, bol, s, q) ==> q + 19 < |s| && s[q + 19] == '@'
  {
    var p := GO_GET.prefix;
    MatchesAtMeans(GO_GET, bol, s, q);
    assert |p| == 21 && p[19] == '@';
    if Stands(GO_GET, bol, s, q) { assert s[q..q + 21][19] == s[q + 19]; }
  }

  lemma PlainHasNo(s: string, c: char)
    requires Plain(s) && !In(VersionChars, c)
    ensures c !in s
  {
  }

  /** The only two equals signs are the ones after the capture. */
  lemma EqualsAt(capture: string, w: string, i: nat, n: nat)
    requires Plain(capture) && Plain(w) && i < |Overlapping(capture, w)| && n == |GO_GET.prefix + capture|
    ensures Overlapping(capture, w)[i] == '=' <==> i == n || i == n + 1
  {
    PlainHasNo(capture, '=');
    PlainHasNo(w, '=');
    var a := GO_GET.prefix + capture;
    if i < n {
      assert Overlapping(capture, w)[i] == a[i];
    } else {
      assert Overlapping(capture, w)[i] == ("==" + w)[i - n];
    }
  }

  lemma FirstNext(slot: Slot, capture: string, tail: string, s: string)
    requires Tame(slot) && slot.suffix == "" && !slot.lineStart && Clean(capture)
    requires tail != "" && !In(slot.captured, tail[0]) && s == Filled(slot, capture, tail)
    ensures s != "" && Next(slot, true, s) == Hit(capture, false, tail)
  {
    FilledMatches(slot, true, capture, tail);
    NextOfFilled(slot, true, capture, tail);
    HitMeans(slot, true, s);
  }

  /** A slot at the start of a text. */
  lemma FirstValue(slot: Slot, capture: string, tail: string, s: string, v: string, after: string)
    requires Tame(slot) && slot.suffix == "" && !slot.lineStart && Clean(capture)
    requires tail != "" && !In(slot.captured, tail[0]) && s == slot.prefix + capture + tail
    requires after == Replace(slot, false, tail, v)
    ensures Replace(slot, true, s, v) == slot.prefix + v + after
  {
    assert "" + tail == tail && "" + after == after;
    FirstNext(slot, capture, tail, s);
    HitGives(slot, true, s, capture, false, tail, v);
  }

  lemma NoGo(w: string, v: string)
    requires Plain(w)
    ensures Replace(GO_GET, false, "==" + w, v) == "==" + w
  {
    var tail := "==" + w;
    PlainHasNo(w, '@');
    forall q: nat ensures !MatchesAt(GO_GET, false, tail, q) { GoNeeds(false, tail, q); }
    FoundIfAnywhere(GO_GET, false, tail);
    PutGet(GO_GET, false, tail, v);
  }

  lemma GoRewrites(capture: string, w: string, v: string)
    requires Clean(capture) && Plain(w)
    ensures Replace(GO_GET, true, Overlapping(capture, w), v) == Overlapping(v, w)
  {
    GoIsTame();
    NoGo(w, v);
    FirstValue(GO_GET, capture, "==" + w, Overlapping(capture, w), v, "==" + w);
  }

  lemma NoPipBefore(w: string, q: nat)
    requires Plain(w) && q < 21
    ensures !MatchesAt(PIP_INSTALL, true, Overlapping(NAME, w), q)
  {
    var s := Overlapping(NAME, w);
    assert |GO_GET.prefix| == 21 && |NAME| == 16 && |GO_GET.prefix + NAME| == 37;
    PipNeeds(true, s, q);
    if q + 16 < |s| { EqualsAt(NAME, w, q + 16, 37); }
  }

  /** A slot at the end of a text. */
  lemma LastValue(slot: Slot, line: bool, w: string, s: string)
    requires Tame(slot) && slot.suffix == "" && !slot.lineStart && Clean(w) && s == slot.prefix + w
    ensures Values(slot, line, s) == [w]
  {
    assert s == Filled(slot, w, "");
    FilledMatches(slot, line, w, "");
    NextOfFilled(slot, line, w, "");
  }

  lemma PipPart(w: string)
    ensures |Overlapping(NAME, w)| >= 21 && Overlapping(NAME, w)[21..] == PIP_INSTALL.prefix + w
  {
    var tail := NAME + ("==" + w);
    assert |GO_GET.prefix| == 21 && NAME + "==" == PIP_INSTALL.prefix;
    assert Overlapping(NAME, w) == GO_GET.prefix + tail;
    assert tail == NAME + "==" + w;
  }

  /** The pip slot reads its version there. */
  lemma PipReads(w: string)
    requires Versionlike(w)
    ensures Values(PIP_INSTALL, true, Overlapping(NAME, w)) == [w]
  {
    var s := Overlapping(NAME, w);
    PipPart(w);
    forall q: nat | q < 21 ensures !MatchesAt(PIP_INSTALL, true, s, q) { NoPipBefore(w, q); }
    PassedOver(PIP_INSTALL, true, s, 21, "");
    PipIsTame();
    LastValue(PIP_INSTALL, LineAt(true, s, 21), w, s[21..]);
  }

  lemma NoPip(v: string, w: string, q: nat)
    requires Versionlike(v) && Versionlike(w)
    ensures !MatchesAt(PIP_INSTALL, true, Overlapping(v, w), q)
  {
    var t, n := Overlapping(v, w), |GO_GET.prefix + v|;
    PipNeeds(true, t, q);
    if q + 17 < |t| {
      EqualsAt(v, w, q + 16, n);
      EqualsAt(v, w, q + 17, n);
      assert t[n - 1] == v[|v| - 1];
    }
  }

  /** Rewriting the go slot destroys the pip slot: its prefix was part of the old capture. */
  lemma OverlapDestroys(v: string, w: string)
    requires Versionlike(v) && Versionlike(w)
    ensures Values(PIP_INSTALL, true, Overlapping(NAME, w)) == [w]
    ensures Values(PIP_INSTALL, true, Replace(GO_GET, true, Overlapping(NAME, w), v)) == []
  {
    assert Clean(NAME);
    PipReads(w);
    GoRewrites(NAME, w, v);
    forall q: nat ensures !MatchesAt(PIP_INSTALL, true, Overlapping(v, w), q) { NoPip(v, w, q); }
    FoundIfAnywhere(PIP_INSTALL, true, Overlapping(v, w));
  }

  // ---------------------------------------------------------------- another match may take its place

  const GO_NAME := "fugle-marketdata-go"

  /** After `VERSION=` and a capture: `@v`, the name, `@v` and the name. */
  function Shadowing(capture: string): string { VERSION_LINE.prefix + capture + ("@v" + (GO_GET.prefix + GO_NAME)) }

  lemma GoEndsInName(bol: bool, s: string, q: nat)
    ensures MatchesAt(GO_GET, bol, s, q) ==> q + 19 < |s| && s[q] == 'f' && s[q + 18] == 'o' && s[q + 19] == '@'
  {
    var p := GO_GET.prefix;
    MatchesAtMeans(GO_GET, bol, s, q);
    assert |p| == 21 && p[0] == 'f' && p[18] == 'o' && p[19] == '@';
    if Stands(GO_GET, bol, s, q) {
      var m := s[q..q + 21];
      assert m[0] == s[q] && m[18] == s[q + 18] && m[19] == s[q + 19];
    }
  }

  /** A slot after text in which it does not match, and before such text. */
  lemma MiddleValue(slot: Slot, s: string, k: nat, rest: string, capture: string, tail: string)
    requires Tame(slot) && slot.suffix == "" && !slot.lineStart && Clean(capture) && k <= |s| && rest == s[k..]
    requires rest == slot.prefix + capture + tail && (tail == "" || !In(slot.captured, tail[0]))
    requires forall q: nat :: q < k ==> !MatchesAt(slot, true, s, q)
    requires forall q: nat :: !MatchesAt(slot, false, tail, q)
    ensures Values(slot, true, s) == [capture]
  {
    var line := LineAt(true, s, k);
    PassedOver(slot, true, s, k, "");
    assert "" + tail == tail;
    assert rest == Filled(slot, capture, tail);
    FilledMatches(slot, line, capture, tail);
    NextOfFilled(slot, line, capture, tail);
    HitMeans(slot, line, rest);
    FoundIfAnywhere(slot, false, tail);
    HitGives(slot, line, rest, capture, false, tail, "");
  }

  lemma NameParts(a: string, b: string, s: string)
    requires s == Shadowing(GO_NAME) && a == "@v" + GO_NAME && b == GO_GET.prefix + GO_NAME + a
    ensures |VERSION_LINE.prefix| == 8 <= |s| && s[8..] == b && s[..8] == VERSION_LINE.prefix
  {
    assert GO_GET.prefix == GO_NAME + "@v" && |VERSION_LINE.prefix| == 8;
    assert s == VERSION_LINE.prefix + b;
  }

  lemma NoGoInTail(tail: string)
    requires tail == "@v" + GO_NAME
    ensures forall q: nat :: !MatchesAt(GO_GET, false, tail, q)
  {
    assert |tail| == 21 && tail[0] == '@' && tail[1] == 'v' && tail[19] == 'g' && tail[20] == 'o';
    forall q: nat ensures !MatchesAt(GO_GET, false, tail, q) { GoEndsInName(false, tail, q); }
  }

  lemma NoGoInVersion(s: string, q: nat)
    requires 8 <= |s| && s[..8] == VERSION_LINE.prefix && q < 8
    ensures !MatchesAt(GO_GET, true, s, q)
  {
    GoEndsInName(true, s, q);
    assert s[q] == s[..8][q];
  }

  /** In the original text the go slot captures the name, right after `VERSION=`. */
  lemma ShadowBefore(slot: Slot, s: string, name: string, tail: string)
    requires slot == GO_GET && name == GO_NAME && s == Shadowing(name) && tail == "@v" + name
    ensures Values(slot, true, s) == [name]
  {
    NameParts(tail, slot.prefix + name + tail, s);
    forall q: nat | q < 8 ensures !MatchesAt(slot, true, s, q) { NoGoInVersion(s, q); }
    NoGoInTail(tail);
    GoIsTame();
    NameIsClean(name);
    assert tail[0] == '@';
    MiddleValue(slot, s, 8, s[8..], name, tail);
  }

  lemma HeadParts(head: string, rest: string, t: string, k: nat)
    requires t == head + rest && |head| == k
    ensures k <= |t| && t[k..] == rest
  {
  }

  /** Rewritten, that match is gone, and the one it hid captures the name. */
  lemma ShadowAfter(slot: Slot, v: string, t: string, head: string, name: string, rest: string, k: nat)
    requires slot == GO_GET && name == GO_NAME && rest == slot.prefix + name
    requires Versionlike(v) && t == Shadowing(v) && head == VERSION_LINE.prefix + v + "@v" && k == |head|
    ensures Values(slot, true, t) == [name]
  {
    assert t == head + rest;
    HeadParts(head, rest, t, k);
    forall q: nat | q < k ensures !MatchesAt(slot, true, t, q) { NoGoInHead(v, t, head, q); }
    GoIsTame();
    NameIsClean(name);
    assert rest + "" == rest;
    MiddleValue(slot, t, k, rest, name, "");
  }

  /** Before the one at n, no character of the head is an at sign, and the one before n is a digit. */
  lemma HeadChars(v: string, head: string, n: nat)
    requires Versionlike(v) && head == VERSION_LINE.prefix + v + "@v" && n == 8 + |v|
    ensures |head| == n + 2 && head[n - 1] != 'o' && head[n + 1] == 'v'
    ensures forall k :: 8 <= k < n ==> head[k] != '@'
  {
    assert |VERSION_LINE.prefix| == 8;
    PlainHasNo(v, '@');
    assert head[n - 1] == v[|v| - 1];
    forall k | 8 <= k < n ensures head[k] != '@' {
      var m := k - 8;
      assert head[k] == v[m];
    }
  }

  lemma NoAtInName(k: nat)
    requires k < 19
    ensures (GO_GET.prefix + GO_NAME)[k] != '@'
  {
    assert |GO_NAME| == 19 && (GO_GET.prefix + GO_NAME)[k] == GO_NAME[k];
  }

  lemma NoGoInHead(v: string, t: string, head: string, q: nat)
    requires Versionlike(v) && head == VERSION_LINE.prefix + v + "@v" && t == head + (GO_GET.prefix + GO_NAME)
    requires q < |head|
    ensures !MatchesAt(GO_GET, true, t, q)
  {
    var n, at := 8 + |v|, q + 19;
    GoEndsInName(true, t, q);
    HeadChars(v, head, n);
    if at < |head| {
      assert t[at] == head[at] && t[at - 1] == head[at - 1];
    } else if at < |t| {
      var k := at - |head|;
      assert t[at] == (GO_GET.prefix + GO_NAME)[k];
      NoAtInName(k);
    }
  }

  lemma NoVersionLine(tail: string)
    requires '\n' !in tail
    ensures forall q: nat :: !MatchesAt(VERSION_LINE, false, tail, q)
  {
  }

  lemma LineRewritten(capture: string, tail: string, s: string, v: string)
    requires Tame(VERSION_LINE) && Clean(capture) && tail != "" && !In(VersionChars, tail[0]) && '\n' !in tail
    requires s == VERSION_LINE.prefix + capture + tail
    ensures Replace(VERSION_LINE, true, s, v) == VERSION_LINE.prefix + v + tail
  {
    assert "" + tail == tail;
    FilledMatches(VERSION_LINE, true, capture, tail);
    NextOfFilled(VERSION_LINE, true, capture, tail);
    HitMeans(VERSION_LINE, true, s);
    HitGives(VERSION_LINE, true, s, capture, false, tail, v);
    NoVersionLine(tail);
    FoundIfAnywhere(VERSION_LINE, false, tail);
    PutGet(VERSION_LINE, false, tail, v);
  }

  lemma NameIsClean(name: string)
    requires name == GO_NAME
    ensures Clean(name) && '\n' !in name
  {
  }

  lemma TailOfLine(tail: string, name: string)
    requires name == GO_NAME && tail == "@v" + (GO_GET.prefix + name)
    ensures tail != "" && tail[0] == '@' && '\n' !in tail
  {
    NameIsClean(name);
    assert GO_GET.prefix == name + "@v";
  }

  /** In `VERSION=fugle-marketdata-go@vfugle-marketdata-go@vfugle-marketdata-go` the capture of the
      first slot lies over a match of the second, and still the second reads the same. */
  lemma ShadowTakesOver(v: string)
    requires Versionlike(v)
    ensures Values(GO_GET, true, Shadowing(GO_NAME)) == [GO_NAME]
    ensures Values(GO_GET, true, Replace(VERSION_LINE, true, Shadowing(GO_NAME), v)) == [GO_NAME]
  {
    var name := GO_NAME;
    var tail := "@v" + (GO_GET.prefix + name);
    TailOfLine(tail, name);
    NameIsClean(name);
    LinesAreTame();
    LineRewritten(name, tail, Shadowing(name), v);
    ShadowBefore(GO_GET, Shadowing(name), name, "@v" + name);
    var head := VERSION_LINE.prefix + v + "@v";
    ShadowAfter(GO_GET, v, Shadowing(v), head, name, GO_GET.prefix + name, |head|);
  }
}
