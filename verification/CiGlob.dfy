/** `glob_to_regex` and `covered` of `scripts/check-ci-coverage.py`. Globs have a meaning of their
    own; the translator is proved to preserve it where Python reads each bracketed part of the
    pattern as one class. */
module CiGlob {
  import opened Wrappers
  import opened PyRegex

  // ---------------------------------------------------------------- globs

  predicate NoSlash(s: string) { '/' !in s }

  predicate NoNewline(s: string) { '\n' !in s }

  /** Zero or more directory names, each followed by a slash. */
  ghost predicate IsDirs(s: string)
    decreases |s|
  {
    s == "" || exists k :: 0 <= k < |s| && NoSlash(s[..k]) && s[k] == '/' && IsDirs(s[k + 1..])
  }

  /** `pattern.find("]", i)`, relative to i. */
  function FindClose(p: string): (j: Option<nat>)
    ensures j.Some? ==> j.value < |p| && p[j.value] == ']' && ']' !in p[..j.value]
    ensures j.None? <==> ']' !in p
  {
    if p == "" then None
    else if p[0] == ']' then Some(0)
    else
      match FindClose(p[1..])
      case None => None
      case Some(j) =>
        assert p[..j + 1] == [p[0]] + p[1..][..j];
        Some(j + 1)
  }

  /** The class that `[body]` is, if it is one. */
  function ClassOf(body: string): Option<CharSet> {
    match ReadClass("[" + body + "]")
    case None => None
    case Some((chars, n)) => if n == |body| + 2 then Some(chars) else None
  }

  /** What a glob accepts: a leading or inner `**` followed by a slash is zero or more
      directories, any other `**` is anything, a star any run and `?` one character without
      slashes, `[..]` one character of the class, or none if it is no class; an unclosed bracket
      and everything else stand for themselves. Unless `lines`, a `**` stays within a line. */
  ghost predicate Glob(cls: Categories, lines: bool, p: string, s: string)
    decreases |p|
  {
    if p == "" then s == ""
    else if "**/" <= p then
      exists k :: 0 <= k <= |s| && Passes(lines, s[..k]) && IsDirs(s[..k]) && Glob(cls, lines, p[3..], s[k..])
    else if "**" <= p then exists k :: 0 <= k <= |s| && Passes(lines, s[..k]) && Glob(cls, lines, p[2..], s[k..])
    else if p[0] == '*' then exists k :: 0 <= k <= |s| && NoSlash(s[..k]) && Glob(cls, lines, p[1..], s[k..])
    else if s == "" then false
    else if p[0] == '?' then s[0] != '/' && Glob(cls, lines, p[1..], s[1..])
    else if p[0] == '[' && FindClose(p).Some? then
      var j := FindClose(p).value;
      var chars := ClassOf(p[1..j]);
      chars.Some? && Admits(cls, chars.value, s[0]) && Glob(cls, lines, p[j + 1..], s[1..])
    else s[0] == p[0] && Glob(cls, lines, p[1..], s[1..])
  }

  predicate Passes(lines: bool, s: string) { lines || NoNewline(s) }

  // ---------------------------------------------------------------- the translator

  const ANYTHING := Star(Chars(Dot))
  const NOT_SLASH := Set(true, [Code('/' as nat)])
  const SEGMENT := Star(Chars(NOT_SLASH))

  /** `re.escape(c)` */
  function Escaped(c: char): string { if c in SPECIAL then ['\\', c] else [c] }

  /** The text appended for a part of the pattern, what it is meant to be, if it is anything, and
      how much of the pattern it stands for. */
  datatype Fragment = Fragment(text: string, meant: Option<Regex>, width: nat)

  function CharsOf(chars: Option<CharSet>): Option<Regex> { if chars.Some? then Some(Chars(chars.value)) else None }

  /** The branches of the loop. */
  function FragmentOf(p: string): (f: Fragment)
    requires p != ""
    ensures 0 < f.width <= |p| && f.text != ""
  {
    if "**/" <= p then Fragment(DIRS_TEXT, Some(DIRS), 3)
    else if "**" <= p then Fragment(".*", Some(ANYTHING), 2)
    else if p[0] == '*' then Fragment("[^/]*", Some(SEGMENT), 1)
    else if p[0] == '?' then Fragment("[^/]", Some(Chars(NOT_SLASH)), 1)
    else if p[0] == '[' && FindClose(p).Some? then
      var j := FindClose(p).value;
      Fragment(p[..j + 1], CharsOf(ClassOf(p[1..j])), j + 1)
    else Fragment(Escaped(p[0]), Some(Chars(One(p[0]))), 1)
  }

  /** The text the loop builds. */
  function Emit(p: string): string
    decreases |p|
  {
    if p == "" then "" else var f := FragmentOf(p); f.text + Emit(p[f.width..])
  }

  /** Every bracketed part of the pattern is a class. */
  predicate Supported(p: string)
    decreases |p|
  {
    p == "" || (FragmentOf(p).meant.Some? && Supported(p[FragmentOf(p).width..]))
  }

  /** What the pattern is meant to be. */
  function Compile(p: string): seq<Regex>
    requires Supported(p)
    decreases |p|
  {
    if p == "" then [] else var f := FragmentOf(p); [f.meant.value] + Compile(p[f.width..])
  }

  /** `EXTGLOB.search(pattern)`: one of ?*+@! directly before an opening parenthesis. */
  predicate HasExtglob(p: string) {
    exists i :: 0 <= i < |p| - 1 && ExtglobAt(p, i)
  }

  predicate ExtglobAt(p: string, i: nat)
    requires i < |p| - 1
  {
    p[i] in "?*+@!" && p[i + 1] == '('
  }

  /** An extglob is a `?`, `*`, `+`, `@` or `!` directly before an opening parenthesis. */
  lemma ExtglobExactly(p: string)
    ensures HasExtglob(p) <==> exists i ::
      0 <= i < |p| - 1 && p[i + 1] == '(' && (p[i] == '?' || p[i] == '*' || p[i] == '+' || p[i] == '@' || p[i] == '!')
  {
    forall i | 0 <= i < |p| - 1
      ensures ExtglobAt(p, i) <==>
        p[i + 1] == '(' && (p[i] == '?' || p[i] == '*' || p[i] == '+' || p[i] == '@' || p[i] == '!')
    {
    }
  }

  /** `glob_to_regex`, which raises where this gives nothing. */
  function RegexOf(pattern: string): Option<seq<Regex>> {
    if HasExtglob(pattern) then None else ReadRegex(Emit(pattern))
  }

  /** `"".join(out)` */
  function Join(out: seq<string>): string {
    if out == [] then "" else Join(out[..|out| - 1]) + out[|out| - 1]
  }

  /** One turn of the loop: the text for the part at i moves from what is left to what is done. */
  lemma EmitAdvances(pattern: string, out: seq<string>, i: nat, next: nat, text: string)
    requires i < |pattern| && text == FragmentOf(pattern[i..]).text && next == i + FragmentOf(pattern[i..]).width
    ensures next <= |pattern|
    ensures Join(out + [text]) + Emit(pattern[next..]) == Join(out) + Emit(pattern[i..])
  {
    assert pattern[i..][next - i..] == pattern[next..];
    assert (out + [text])[..|out|] == out;
    assert Join(out + [text]) + Emit(pattern[next..]) == Join(out) + (text + Emit(pattern[next..]));
  }

  /** The index loop of `glob_to_regex`. */
  method Translate(pattern: string) returns (out: seq<string>)
    ensures Join(out) == Emit(pattern)
  {
    out := [];
    var i := 0;
    while i < |pattern|
      invariant 0 <= i <= |pattern|
      invariant Join(out) + Emit(pattern[i..]) == Emit(pattern)
    {
      var text: string, next: nat;
      var c := pattern[i];
      if "**/" <= pattern[i..] {
        text, next := "(?:.*/)?", i + 3;
      } else if "**" <= pattern[i..] {
        text, next := ".*", i + 2;
      } else if c == '*' {
        text, next := "[^/]*", i + 1;
      } else if c == '?' {
        text, next := "[^/]", i + 1;
      } else if c == '[' && ']' in pattern[i..] {
        var j := FindClose(pattern[i..]).value;
        text, next := pattern[i..][..j + 1], i + (j + 1);
      } else {
        text, next := Escaped(c), i + 1;
      }
      EmitAdvances(pattern, out, i, next, text);
      out := out + [text];
      i := next;
    }
    assert Join(out) + Emit(pattern[i..]) == Join(out);
  }

  /** The regular expression accepts a newline-free path exactly if the glob does, whatever the
      categories are. */
  ghost predicate Faithful(pattern: string, out: seq<Regex>) {
    forall cls: Categories, path :: NoNewline(path) ==> (Accepts(cls, out, path) <==> Glob(cls, true, pattern, path))
  }

  /** A pattern whose bracketed parts are classes is refused only for an extglob, and otherwise
      translated faithfully. */
  method GlobToRegex(pattern: string) returns (r: Result<seq<Regex>, string>)
    ensures r.Ok? <==> RegexOf(pattern).Some?
    ensures r.Ok? ==> RegexOf(pattern) == Some(r.value)
    ensures Supported(pattern) ==> (r.Err? <==> HasExtglob(pattern)) && (r.Ok? ==> Faithful(pattern, r.value))
  {
    if HasExtglob(pattern) {
      return Err(pattern);
    }
    var out := Translate(pattern);
    var regex := ReadRegex(Join(out));
    if Supported(pattern) {
      ReadAsMeant(pattern);
      CompileIsFaithful(pattern);
    }
    return if regex.Some? then Ok(regex.value) else Err(pattern);
  }

  // ---------------------------------------------------------------- the text is read as it was meant

  lemma PlainItem(c: char, s: string, first: bool, items: seq<Item>, n: nat)
    requires c != '\\' && (c == ']' ==> first)
    requires s != "" && s[0] != '-' && Items(s, false) == Some((items, n))
    ensures Items([c] + s, first) == Some(([Code(c as nat)] + items, n + 1))
  {
    assert ([c] + s)[1..] == s;
  }

  lemma ReadNotSlash(rest: string)
    ensures ReadClass("[^/]" + rest) == Some((NOT_SLASH, 4))
  {
    var end := "]" + rest;
    var inner := ['/'] + end;
    PlainItem('/', end, true, [], 1);
    assert [Code('/' as nat)] + [] == NOT_SLASH.items;
    assert ("[^/]" + rest)[1..] == "^" + inner;
    assert ("^" + inner)[1..] == inner;
  }

  /** No part of the text starts with a repetition. */
  lemma {:induction false} NoRepetition(p: string)
    ensures Emit(p) != "" ==> Emit(p)[0] != '*'
  {
    if p != "" {
      var f := FragmentOf(p);
      assert Emit(p)[0] == f.text[0];
    }
  }

  lemma ReadBracket(body: string, rest: string)
    ensures
      var text := "[" + body + "]";
      var beyond := ReadClass(text + rest);
      && (ClassOf(body).Some? ==> beyond == Some((ClassOf(body).value, |text|)))
      && (beyond.Some? && beyond.value.1 == |text| ==> ClassOf(body).Some?)
  {
    ClassLocal("[" + body + "]", rest);
  }

  ghost predicate ReadsAsMeant(f: Fragment, piece: Option<(Regex, nat)>) {
    && (f.meant.Some? ==> piece == Some((f.meant.value, |f.text|)))
    && (piece.Some? && piece.value.1 == |f.text| ==> f.meant.Some?)
  }

  lemma NoDirsText(s: string)
    ensures DIRS_TEXT <= s ==> s[0] == '('
  {
    assert DIRS_TEXT[0] == '(';
  }

  lemma StarsAsMeant(rest: string)
    ensures ReadPiece(DIRS_TEXT + rest) == Some((DIRS, |DIRS_TEXT|))
    ensures ReadPiece(".*" + rest) == Some((ANYTHING, 2))
    ensures ReadPiece("[^/]*" + rest) == Some((SEGMENT, 5))
  {
    assert (".*" + rest)[1..] == "*" + rest;
    assert "[^/]*" + rest == "[^/]" + ("*" + rest);
    ReadNotSlash("*" + rest);
    assert ("[^/]*" + rest)[4..] == "*" + rest;
    NoDirsText("[^/]*" + rest);
    NoDirsText(".*" + rest);
  }

  lemma SlashlessAsMeant(rest: string)
    requires rest != "" ==> rest[0] != '*'
    ensures ReadPiece("[^/]" + rest) == Some((Chars(NOT_SLASH), 4))
  {
    ReadNotSlash(rest);
    assert ("[^/]" + rest)[4..] == rest;
    NoDirsText("[^/]" + rest);
  }

  lemma LiteralAsMeant(c: char, rest: string)
    requires rest != "" ==> rest[0] != '*'
    ensures ReadPiece(Escaped(c) + rest) == Some((Chars(One(c)), |Escaped(c)|))
  {
    var text := Escaped(c);
    assert (text + rest)[|text|..] == rest;
    NoDirsText(text + rest);
    EscapedChars(c, text + rest);
  }

  lemma EscapedChars(c: char, s: string)
    requires Escaped(c) <= s
    ensures s[0] != '(' && ReadChars(s) == Some((One(c), |Escaped(c)|))
  {
    SpecialChars(c);
    assert c in SPECIAL ==> s[0] == '\\' && s[1] == c;
  }

  lemma BracketAsMeant(body: string, rest: string)
    requires rest != "" ==> rest[0] != '*'
    ensures
      var text := "[" + body + "]";
      var piece := ReadPiece(text + rest);
      && (ClassOf(body).Some? ==> piece == Some((Chars(ClassOf(body).value), |text|)))
      && (piece.Some? && piece.value.1 == |text| ==> ClassOf(body).Some?)
  {
    var text := "[" + body + "]";
    ReadBracket(body, rest);
    NoDirsText(text + rest);
    assert (text + rest)[|text|..] == rest;
    assert (text + rest)[|body| + 1] == ']';
  }

  /** How Python reads the text of one fragment with more after it. */
  lemma PieceAsMeant(p: string, f: Fragment, rest: string)
    requires p != "" && f == FragmentOf(p) && (rest != "" ==> rest[0] != '*')
    ensures ReadsAsMeant(f, ReadPiece(f.text + rest))
  {
    if "**/" <= p {
      StarsAsMeant(rest);
    } else if "**" <= p {
      StarsAsMeant(rest);
    } else if p[0] == '*' {
      StarsAsMeant(rest);
    } else if p[0] == '?' {
      SlashlessAsMeant(rest);
    } else if p[0] == '[' && FindClose(p).Some? {
      BracketText(p, FindClose(p).value);
      BracketAsMeant(p[1..FindClose(p).value], rest);
    } else {
      LiteralAsMeant(p[0], rest);
    }
  }

  lemma BracketText(p: string, j: nat)
    requires 0 < j < |p| && p[0] == '[' && p[j] == ']'
    ensures p[..j + 1] == "[" + p[1..j] + "]"
  {
  }

  /** Python reads the text fragment by fragment. */
  predicate ReadInParts(p: string)
    decreases |p|
  {
    p == "" ||
    var f := FragmentOf(p);
    var piece := ReadPiece(f.text + Emit(p[f.width..]));
    piece.Some? && piece.value.1 == |f.text| && ReadInParts(p[f.width..])
  }

  /** That is so exactly for the supported patterns. */
  lemma {:induction false} SupportedExactly(p: string)
    ensures ReadInParts(p) <==> Supported(p)
    decreases |p|
  {
    if p != "" {
      var f := FragmentOf(p);
      NoRepetition(p[f.width..]);
      PieceAsMeant(p, f, Emit(p[f.width..]));
      SupportedExactly(p[f.width..]);
    }
  }

  lemma {:induction false} ReadAsMeant(p: string)
    requires Supported(p)
    ensures ReadRegex(Emit(p)) == Some(Compile(p))
    decreases |p|
  {
    if p != "" {
      var f := FragmentOf(p);
      var rest := Emit(p[f.width..]);
      NoRepetition(p[f.width..]);
      PieceAsMeant(p, f, rest);
      ReadAsMeant(p[f.width..]);
      DropFirst(f.text, rest, |f.text|);
    }
  }

  // ---------------------------------------------------------------- meaning preserved

  lemma {:induction false} AnythingMatches(cls: Categories, s: string)
    ensures Matches(cls, ANYTHING, s) <==> NoNewline(s)
    decreases |s|
  {
    if s != "" {
      AnythingMatches(cls, s[1..]);
      assert s == [s[0]] + s[1..];
      if NoNewline(s) {
        assert Matches(cls, Chars(Dot), s[..1]);
      }
      if Matches(cls, ANYTHING, s) {
        var k :| 0 < k <= |s| && Matches(cls, Chars(Dot), s[..k]) && Matches(cls, ANYTHING, s[k..]);
        assert k == 1;
      }
    }
  }

  lemma {:induction false} SegmentMatches(cls: Categories, s: string)
    ensures Matches(cls, SEGMENT, s) <==> NoSlash(s)
    decreases |s|
  {
    if s != "" {
      SegmentMatches(cls, s[1..]);
      NotSlashAdmits(cls, s[0]);
      assert s == [s[0]] + s[1..];
      if NoSlash(s) {
        assert Matches(cls, Chars(NOT_SLASH), s[..1]);
      }
      if Matches(cls, SEGMENT, s) {
        var k :| 0 < k <= |s| && Matches(cls, Chars(NOT_SLASH), s[..k]) && Matches(cls, SEGMENT, s[k..]);
        assert k == 1;
      }
    }
  }

  /** A string is zero or more directories exactly if it is empty or ends with a slash. */
  lemma {:induction false} DirsEndWithSlash(s: string)
    ensures IsDirs(s) <==> s == "" || s[|s| - 1] == '/'
    decreases |s|
  {
    if s != "" {
      if IsDirs(s) {
        var k :| 0 <= k < |s| && NoSlash(s[..k]) && s[k] == '/' && IsDirs(s[k + 1..]);
        DirsEndWithSlash(s[k + 1..]);
      }
      if s[|s| - 1] == '/' {
        var k := FirstSlash(s);
        DirsEndWithSlash(s[k + 1..]);
      }
    }
  }

  lemma FirstSlash(s: string) returns (k: nat)
    requires '/' in s
    ensures k < |s| && s[k] == '/' && NoSlash(s[..k])
  {
    k := 0;
    while s[k] != '/'
      invariant k < |s| && NoSlash(s[..k]) && '/' in s[k..]
      decreases |s| - k
    {
      assert s[k..] == [s[k]] + s[k + 1..];
      assert s[..k + 1] == s[..k] + [s[k]];
      k := k + 1;
    }
  }

  lemma DirsMatches(cls: Categories, s: string)
    ensures Matches(cls, DIRS, s) <==> IsDirs(s) && NoNewline(s)
  {
    DirsEndWithSlash(s);
    if s != "" {
      var front, last := s[..|s| - 1], s[|s| - 1..];
      AnythingMatches(cls, front);
      assert s == front + last;
      RunThenSlash(cls, front, last, s);
    }
  }

  /** `.*` and then a slash. */
  lemma RunThenSlash(cls: Categories, front: string, last: string, s: string)
    requires |last| == 1 && s == front + last
    ensures Matches(cls, DIRS.r, s) <==> Matches(cls, ANYTHING, front) && last == "/"
  {
    var n := |front|;
    assert s[..n] == front && s[n..] == last;
    assert Matches(cls, Chars(One('/')), last) <==> last == "/";
    if Matches(cls, DIRS.r, s) {
      var k :| 0 <= k <= |s| && Matches(cls, ANYTHING, s[..k]) && Matches(cls, Chars(One('/')), s[k..]);
      assert |s[k..]| == 1;
    }
  }

  lemma SplitNewlineFree(s: string, k: nat)
    requires NoNewline(s) && k <= |s|
    ensures NoNewline(s[..k]) && NoNewline(s[k..])
  {
  }

  lemma NotSlashAdmits(cls: Categories, c: char)
    ensures Admits(cls, NOT_SLASH, c) <==> c != '/'
  {
    assert NOT_SLASH.items[0] == Code('/' as nat);
  }

  /** One character, then the rest. */
  lemma CharThenRest(cls: Categories, cs: CharSet, rest: seq<Regex>, s: string)
    ensures MatchesAll(cls, [Chars(cs)] + rest, s) 
      <==> s != "" && Admits(cls, cs, s[0]) && MatchesAll(cls, rest, s[1..])
  {
    var out := [Chars(cs)] + rest;
    assert out[1..] == rest;
    if MatchesAll(cls, out, s) {
      var k :| 0 <= k <= |s| && Matches(cls, out[0], s[..k]) && MatchesAll(cls, out[1..], s[k..]);
      assert k == 1;
    }
    if s != "" && Admits(cls, cs, s[0]) && MatchesAll(cls, rest, s[1..]) {
      assert Matches(cls, out[0], s[..1]);
    }
  }

  /** A part of the pattern that stands for one character. */
  lemma CharGlob(cls: Categories, p: string, s: string, chars: CharSet, width: nat)
    requires p != "" && FragmentOf(p).meant == Some(Chars(chars)) && FragmentOf(p).width == width
    ensures Glob(cls, false, p, s) <==> s != "" && Admits(cls, chars, s[0]) && Glob(cls, false, p[width..], s[1..])
  {
    if s != "" { NotSlashAdmits(cls, s[0]); }
  }

  /** What a run may be: directories, anything or a part of a name. */
  ghost predicate IsRun(r: Regex, x: string) {
    if r == DIRS then NoNewline(x) && IsDirs(x) else if r == ANYTHING then NoNewline(x) else NoSlash(x)
  }

  lemma RunMatches(cls: Categories, r: Regex, x: string)
    requires r == DIRS || r == ANYTHING || r == SEGMENT
    ensures Matches(cls, r, x) <==> IsRun(r, x)
  {
    DirsMatches(cls, x);
    AnythingMatches(cls, x);
    SegmentMatches(cls, x);
  }

  /** A part of the pattern that stands for a run of characters. */
  lemma RunGlob(cls: Categories, p: string, s: string, r: Regex, width: nat)
    requires p != "" && FragmentOf(p).meant == Some(r) && FragmentOf(p).width == width && !r.Chars?
    ensures r == DIRS || r == ANYTHING || r == SEGMENT
    ensures Glob(cls, false, p, s)
      <==> exists k :: 0 <= k <= |s| && IsRun(r, s[..k]) && Glob(cls, false, p[width..], s[k..])
  {
    if "**/" <= p {
      assert r == DIRS && width == 3;
    } else if "**" <= p {
      assert r == ANYTHING && width == 2;
    } else {
      assert p[0] == '*' && r == SEGMENT && width == 1;
    }
  }

  /** What Python reads means the glob that stays within lines, whatever the path. */
  lemma {:induction false} FragmentsMean(cls: Categories, p: string, s: string)
    requires Supported(p)
    ensures MatchesAll(cls, Compile(p), s) <==> Glob(cls, false, p, s)
    decreases |p|
  {
    if p == "" { return; }
    var f := FragmentOf(p);
    var r, tail := f.meant.value, p[f.width..];
    var rest := Compile(tail);
    var out := [r] + rest;
    assert Compile(p) == out && out[0] == r && out[1..] == rest;
    forall k | 0 <= k <= |s| ensures MatchesAll(cls, rest, s[k..]) <==> Glob(cls, false, tail, s[k..]) {
      FragmentsMean(cls, tail, s[k..]);
    }
    if r.Chars? {
      CharThenRest(cls, r.chars, rest, s);
      CharGlob(cls, p, s, r.chars, f.width);
      if s != "" { assert MatchesAll(cls, rest, s[1..]) <==> Glob(cls, false, tail, s[1..]); }
    } else {
      RunGlob(cls, p, s, r, f.width);
      forall k | 0 <= k <= |s| ensures Matches(cls, r, s[..k]) <==> IsRun(r, s[..k]) { RunMatches(cls, r, s[..k]); }
    }
  }

  /** On a path without newlines staying within lines is no restriction. */
  lemma {:induction false} GlobsAgree(cls: Categories, p: string, s: string)
    requires NoNewline(s)
    ensures Glob(cls, false, p, s) <==> Glob(cls, true, p, s)
    decreases |p|
  {
    if p == "" { return; }
    var f := FragmentOf(p);
    forall k | 0 <= k <= |s|
      ensures NoNewline(s[..k]) && (Glob(cls, false, p[f.width..], s[k..]) <==> Glob(cls, true, p[f.width..], s[k..]))
    {
      SplitNewlineFree(s, k);
      GlobsAgree(cls, p[f.width..], s[k..]);
    }
    if s != "" { assert Glob(cls, false, p[f.width..], s[1..]) <==> Glob(cls, true, p[f.width..], s[1..]); }
  }

  /** The regular expression built for a glob accepts a newline-free path exactly if
      the glob does. */
  lemma CompilePreservesMeaning(cls: Categories, p: string, path: string)
    requires Supported(p) && NoNewline(path)
    ensures Accepts(cls, Compile(p), path) <==> Glob(cls, true, p, path)
  {
    FragmentsMean(cls, p, path);
    GlobsAgree(cls, p, path);
  }

  lemma CompileIsFaithful(p: string)
    requires Supported(p)
    ensures Faithful(p, Compile(p))
  {
    forall cls: Categories, path | NoNewline(path)
      ensures Accepts(cls, Compile(p), path) <==> Glob(cls, true, p, path) {
      CompilePreservesMeaning(cls, p, path);
    }
  }

  /** With newlines two things differ: `.` passes none, and `$` does not see one at the end. */
  lemma NewlinesMean(cls: Categories, p: string, path: string)
    requires Supported(p)
    ensures Accepts(cls, Compile(p), path) <==>
      Glob(cls, false, p, path) || (EndsLine(path) && Glob(cls, false, p, path[..|path| - 1]))
  {
    FragmentsMean(cls, p, path);
    if path != "" { FragmentsMean(cls, p, path[..|path| - 1]); }
  }

  /** So a newline may follow any path that the glob accepts. */
  lemma FinalNewline(cls: Categories, p: string, x: string)
    requires Supported(p) && NoNewline(x)
    ensures Accepts(cls, Compile(p), x + "\n") <==> Glob(cls, true, p, x) || Glob(cls, false, p, x + "\n")
  {
    var path := x + "\n";
    assert EndsLine(path) && path[..|path| - 1] == x;
    NewlinesMean(cls, p, path);
    GlobsAgree(cls, p, x);
  }

  // ---------------------------------------------------------------- brackets that are not classes

  /** Reading a class stops at a bracket. */
  lemma {:induction false} ItemsEnd(s: string, first: bool)
    ensures Items(s, first).Some? ==> s[Items(s, first).value.1 - 1] == ']'
    decreases |s|, 0
  {
    if s != "" && (s[0] != ']' || first) && Token(s).Some? {
      MoreItemsEnd(Token(s).value.0, Token(s).value.1, s[Token(s).value.1..]);
    }
  }

  lemma {:induction false} MoreItemsEnd(item: Item, n: nat, s: string)
    ensures MoreItems(item, n, s).Some? ==> s[MoreItems(item, n, s).value.1 - n - 1] == ']'
    decreases |s|, 1
  {
    if s != "" && s[0] != '-' {
      ItemsEnd(s, false);
    } else if |s| > 1 && s[1] != ']' && Token(s[1..]).Some? {
      ItemsEnd(s[1..][Token(s[1..]).value.1..], false);
    }
  }

  lemma CloseIsLast(body: string, p: string)
    requires ']' !in body && p == "[" + body + "]"
    ensures FindClose(p) == Some(|p| - 1) && p[1..|p| - 1] == body
  {
    assert p[|body| + 1] == ']';
    forall k | 0 <= k < |p| - 1 ensures p[k] != ']' {
      if k > 0 { assert p[k] == body[k - 1]; }
    }
  }

  lemma BracketFragment(body: string, p: string)
    requires ']' !in body && p == "[" + body + "]"
    ensures FragmentOf(p) == Fragment(p, CharsOf(ClassOf(body)), |p|)
  {
    CloseIsLast(body, p);
    assert p[0] == '[' && p[..|p|] == p;
  }

  lemma BracketEmits(body: string, p: string)
    requires ']' !in body && p == "[" + body + "]"
    ensures Emit(p) == p && Supported(p) == ClassOf(body).Some?
  {
    BracketFragment(body, p);
    assert p[|p|..] == "";
  }

  lemma ClassEnds(s: string)
    requires s != ""
    ensures ReadClass(s).Some? ==> s[ReadClass(s).value.1 - 1] == ']'
  {
    ItemsEnd(s[1..], true);
    if s[1..] != "" { ItemsEnd(s[1..][1..], true); }
  }

  lemma OnlyBracketLast(body: string, p: string, n: nat)
    requires ']' !in body && p == "[" + body + "]" && 0 < n <= |p|
    ensures p[n - 1] == ']' <==> n == |p|
  {
    if 1 < n < |p| { assert p[n - 1] == body[n - 2]; }
  }

  /** A single bracketed part is refused exactly if it is an extglob or no class. */
  lemma SingleBracket(body: string, p: string)
    requires ']' !in body && p == "[" + body + "]"
    ensures Supported(p) == ClassOf(body).Some?
    ensures RegexOf(p).None? <==> HasExtglob(p) || !Supported(p)
  {
    BracketEmits(body, p);
    NoDirsText(p);
    ClassEnds(p);
    if ReadClass(p).Some? {
      OnlyBracketLast(body, p, ReadClass(p).value.1);
    } else {
      assert ReadPiece(p).None?;
    }
    if Supported(p) { ReadAsMeant(p); }
  }

  lemma ClassOfNothing()
    ensures ClassOf("").None? && ClassOf("^").None?
  {
    assert Items("]", true) == MoreItems(Code(']' as nat), 1, "]"[1..]);
    assert "[" + "" + "]" == "[]" && "[]"[1..] == "]";
    assert "[" + "^" + "]" == "[^]" && "[^]"[1..] == "^]" && "^]"[1..] == "]";
  }

  lemma ClassOfBackslash(c: char)
    requires IsAlnum(c)
    ensures ClassOf([c, '\\']).None?
  {
    var end, s := ['\\', ']'], [c, '\\', ']'];
    assert end[1..] == [']'] && end[2..] == [];
    assert Token(end) == Some((Code(']' as nat), 2));
    assert Items(end, false) == MoreItems(Code(']' as nat), 2, []);
    assert s[1..] == end;
    assert Items(s, true) == MoreItems(Code(c as nat), 1, end);
    assert "[" + [c, '\\'] + "]" == ['['] + s && (['['] + s)[1..] == s;
  }

  predicate RefusedAlone(body: string) {
    var p := "[" + body + "]";
    !HasExtglob(p) && RegexOf(p).None?
  }

  lemma NoClassRefused(body: string)
    requires ']' !in body && '(' !in body && ClassOf(body).None?
    ensures RefusedAlone(body)
  {
    var p := "[" + body + "]";
    SingleBracket(body, p);
    forall i | 0 <= i < |p| - 1 ensures !ExtglobAt(p, i) {
      if i < |body| { assert p[i + 1] == body[i]; }
    }
  }

  /** `[z-a]` and its like, `[]`, `[^]` and a class that ends in a backslash are no extglobs and
      are refused. */
  lemma BracketsRefused(lo: char, hi: char)
    requires IsAlnum(lo) && IsAlnum(hi) && hi < lo
    ensures RefusedAlone([lo, '-', hi]) && RefusedAlone("") && RefusedAlone("^") && RefusedAlone([lo, '\\'])
  {
    RangeClass((letter, c) => false, lo, hi, lo);
    ClassOfNothing();
    ClassOfBackslash(lo);
    NoClassRefused([lo, '-', hi]);
    NoClassRefused("");
    NoClassRefused("^");
    NoClassRefused([lo, '\\']);
  }

  lemma EmitFirst(p: string, f: Fragment, rest: string)
    requires p != "" && f == FragmentOf(p) && rest == p[f.width..]
    ensures Emit(p) == f.text + Emit(rest) && (f.meant.None? ==> !Supported(p))
  {
  }

  lemma TwoBracketsEmit(p: string, last: string, body: string, f: Fragment)
    requires p == "[][a]" && body == "a" && last == "[" + body + "]" && f == Fragment("[]", None, 2)
    ensures Emit(p) == p && !Supported(p) && FindClose(p) == Some(1)
  {
    FirstOfTwo(p);
    assert ']' !in body;
    BracketEmits(body, last);
    EmitFirst(p, f, last);
    assert p == f.text + last;
  }

  lemma FirstOfTwo(p: string)
    requires p == "[][a]"
    ensures FindClose(p) == Some(1) && p[2..] == "[a]" && FragmentOf(p) == Fragment("[]", None, 2)
  {
    assert p[0] == '[' && p[1] == ']' && p[1..][0] == ']';
    assert FindClose(p) == Some(1);
    assert p[..2] == "[]" && p[1..1] == "";
    ClassOfNothing();
  }

  const BRACKETS := Set(false, [Code(']' as nat), Code('[' as nat), Code('a' as nat)])

  lemma TwoBracketsRead()
    ensures ReadRegex("[][a]") == Some([Chars(BRACKETS)])
  {
    assert Items("]", false) == Some(([], 1));
    PlainItem('a', "]", false, [], 1);
    assert ['a'] + "]" == "a]" && [Code('a' as nat)] + [] == [Code('a' as nat)];
    PlainItem('[', "a]", false, [Code('a' as nat)], 2);
    assert ['['] + "a]" == "[a]";
    PlainItem(']', "[a]", true, [Code('[' as nat)] + [Code('a' as nat)], 3);
    assert [']'] + "[a]" == "][a]";
    assert [Code(']' as nat)] + ([Code('[' as nat)] + [Code('a' as nat)]) == BRACKETS.items;
    assert "[][a]"[1..] == "][a]" && "[][a]"[5..] == "";
    NoDirsText("[][a]");
    assert ReadPiece("[][a]") == Some((Chars(BRACKETS), 5));
    assert ReadRegex("[][a]"[5..]) == Some([]);
    assert [Chars(BRACKETS)] + [] == [Chars(BRACKETS)];
  }

  lemma BracketsAdmit(cls: Categories, c: char)
    ensures MatchesAll(cls, [Chars(BRACKETS)], [c]) <==> c in "][a"
    ensures MatchesAll(cls, [Chars(BRACKETS)], []) <==> false
  {
    CharThenRest(cls, BRACKETS, [], [c]);
    CharThenRest(cls, BRACKETS, [], []);
    assert [Chars(BRACKETS)] + [] == [Chars(BRACKETS)];
    assert [c][1..] == [];
    var items := BRACKETS.items;
    assert items[0] == Code(']' as nat) && items[1] == Code('[' as nat) && items[2] == Code('a' as nat);
  }

  lemma NoExtglobThere()
    ensures !HasExtglob("[][a]")
  {
    var p := "[][a]";
    assert p[1] == ']' && p[2] == '[' && p[3] == 'a' && p[4] == ']';
  }

  lemma NotTwoCharacters(cls: Categories, p: string, s: string)
    requires p == "[][a]" && |s| == 1 && FindClose(p) == Some(1)
    ensures !Glob(cls, true, p, s)
  {
    assert s[..0] == [] && p[1..1] == "";
    ClassOfNothing();
  }

  /** `[][a]` is no extglob and is not refused, but it is one class to Python: `]`, `[` and `a`. */
  lemma BracketsRunTogether(cls: Categories, c: char)
    ensures !Supported("[][a]") && RegexOf("[][a]") == Some([Chars(BRACKETS)])
    ensures Accepts(cls, [Chars(BRACKETS)], [c]) <==> c in "][a"
    ensures !Glob(cls, true, "[][a]", [c])
  {
    TwoBracketsEmit("[][a]", "[a]", "a", Fragment("[]", None, 2));
    TwoBracketsRead();
    NoExtglobThere();
    BracketsAdmit(cls, c);
    NotTwoCharacters(cls, "[][a]", [c]);
  }

  // ---------------------------------------------------------------- what classes mean

  /** No closing bracket, no escape and no range. */
  predicate PlainBody(body: string) {
    forall k :: 0 <= k < |body| ==> body[k] != ']' && body[k] != '\\' && body[k] != '-'
  }

  function Codes(body: string): seq<Item> { seq(|body|, i requires 0 <= i < |body| => Code(body[i] as nat)) }

  lemma {:induction false} PlainItems(body: string, first: bool)
    requires PlainBody(body) && (body == "" ==> !first)
    ensures Items(body + "]", first) == Some((Codes(body), |body| + 1))
    decreases |body|
  {
    if body != "" {
      var c, rest := body[0], body[1..];
      PlainItems(rest, false);
      assert body + "]" == [c] + (rest + "]");
      assert (rest + "]")[0] != '-';
      PlainItem(c, rest + "]", first, Codes(rest), |rest| + 1);
      assert Codes(body) == [Code(c as nat)] + Codes(rest);
    }
  }

  lemma CodesAdmit(cls: Categories, body: string, c: char)
    ensures (exists i :: 0 <= i < |Codes(body)| && ItemAdmits(cls, Codes(body)[i], c)) <==> c in body
  {
    if c in body {
      var i :| 0 <= i < |body| && body[i] == c;
      assert ItemAdmits(cls, Codes(body)[i], c);
    }
  }

  /** `[abc]` admits the characters between the brackets, `[^abc]` the others. */
  lemma PlainClass(cls: Categories, body: string, c: char)
    requires body != "" && PlainBody(body)
    ensures body[0] != '^' ==> ClassOf(body).Some? && (Admits(cls, ClassOf(body).value, c) <==> c in body)
    ensures ClassOf("^" + body).Some? && (Admits(cls, ClassOf("^" + body).value, c) <==> c !in body)
  {
    PlainItems(body, true);
    CodesAdmit(cls, body, c);
    var text, negated := "[" + body + "]", "[" + ("^" + body) + "]";
    assert text[1..] == body + "]" && negated[1..] == "^" + (body + "]");
    assert negated[1..][1..] == body + "]";
    assert ReadClass(negated) == Some((Set(true, Codes(body)), |body| + 3));
    assert body[0] != '^' ==> ReadClass(text) == Some((Set(false, Codes(body)), |body| + 2));
  }

  /** `[a-z]` admits what lies between its ends, and is no class if they are the wrong way round. */
  lemma RangeClass(cls: Categories, lo: char, hi: char, c: char)
    requires lo != '\\' && lo != '^' && hi != '\\' && hi != ']'
    ensures ClassOf([lo, '-', hi]).Some? <==> lo <= hi
    ensures lo <= hi ==> (Admits(cls, ClassOf([lo, '-', hi]).value, c) <==> lo <= c <= hi)
  {
    var end, from, s, body := [']'], [hi, ']'], ['-', hi, ']'], [lo, '-', hi];
    var item := Range(lo as nat, hi as nat);
    assert from[1..] == end && s[1..] == from && ([lo] + s)[1..] == s && [item] + [] == [item];
    assert Items(end, false) == Some(([], 1));
    assert Token(from) == Some((Code(hi as nat), 1));
    assert RangeItems(Code(lo as nat), 1, from) == if lo <= hi then Some(([item], 4)) else None;
    assert MoreItems(Code(lo as nat), 1, s) == RangeItems(Code(lo as nat), 1, from);
    assert Items([lo] + s, true) == MoreItems(Code(lo as nat), 1, s);
    var text := "[" + body + "]";
    assert text[1..] == [lo] + s;
    assert ReadClass(text) == if lo <= hi then Some((Set(false, [item]), 5)) else None;
    assert ItemAdmits(cls, [item][0], c) <==> lo <= c <= hi;
  }

  lemma EscapeAlone(escape: string, item: Item)
    requires escape != "" && Escape(escape + "]") == Some((item, |escape|))
    ensures ClassOf("\\" + escape) == Some(Set(false, [item]))
  {
    var inner := "\\" + escape + "]";
    assert inner[1..] == escape + "]" && inner[|escape| + 1..] == "]" && [item] + [] == [item];
    assert Items("]", false) == Some(([], 1));
    assert MoreItems(item, |escape| + 1, "]") == Some(([item], |escape| + 2));
    assert Items(inner, true) == Some(([item], |escape| + 2));
    assert ("[" + ("\\" + escape) + "]")[1..] == inner;
  }

  /** `[\d]` admits what the category does, `[\x41]` the letter A, and `[\.]` the dot. */
  lemma EscapedClass(cls: Categories, escape: string, c: char)
    requires escape != ""
    ensures escape == "d" || escape == "s" || escape == "w" ==>
      ClassOf("\\" + escape).Some? && (Admits(cls, ClassOf("\\" + escape).value, c) <==> cls(escape[0], c))
    ensures forall i: nat, j: nat :: |escape| == 3 && escape[0] == 'x' && IsHex(escape[1], i) && IsHex(escape[2], j) ==>
      ClassOf("\\" + escape).Some? && (Admits(cls, ClassOf("\\" + escape).value, c) <==> c as nat == 16 * i + j)
    ensures |escape| == 1 && !IsAlnum(escape[0]) ==>
      ClassOf("\\" + escape).Some? && (Admits(cls, ClassOf("\\" + escape).value, c) <==> c == escape[0])
  {
    var s := escape + "]";
    EscapesMean(s);
    if escape == "d" || escape == "s" || escape == "w" { EscapeAdmits(cls, escape, Category(escape[0]), c); }
    forall i: nat, j: nat | |escape| == 3 && escape[0] == 'x' && IsHex(escape[1], i) && IsHex(escape[2], j)
      ensures ClassOf("\\" + escape).Some?
      ensures Admits(cls, ClassOf("\\" + escape).value, c) <==> c as nat == 16 * i + j
    {
      HexEscapeMeans(s, i, j);
      EscapeAdmits(cls, escape, Code(16 * i + j), c);
    }
    if |escape| == 1 && !IsAlnum(escape[0]) { EscapeAdmits(cls, escape, Code(escape[0] as nat), c); }
  }

  lemma EscapeAdmits(cls: Categories, escape: string, item: Item, c: char)
    requires escape != "" && Escape(escape + "]") == Some((item, |escape|))
    ensures ClassOf("\\" + escape).Some?
    ensures Admits(cls, ClassOf("\\" + escape).value, c) <==> ItemAdmits(cls, item, c)
  {
    EscapeAlone(escape, item);
    assert [item][0] == item;
  }

  // ---------------------------------------------------------------- consequences

  /** Zero directories, or everything up to and including some slash. */
  lemma LeadingDirs(cls: Categories, p: string, x: string)
    ensures Glob(cls, true, "**/" + p, x)
      <==> Glob(cls, true, p, x) || exists k :: 0 <= k < |x| && x[k] == '/' && Glob(cls, true, p, x[k + 1..])
  {
    assert ("**/" + p)[3..] == p;
    forall k | 0 <= k <= |x| ensures IsDirs(x[..k]) <==> k == 0 || x[k - 1] == '/' { DirsEndWithSlash(x[..k]); }
    if Glob(cls, true, p, x) {
      assert x[0..] == x;
      assert IsDirs(x[..0]) && Glob(cls, true, p, x[0..]);
    }
    forall k | 0 <= k < |x| && x[k] == '/' && Glob(cls, true, p, x[k + 1..]) ensures Glob(cls, true, "**/" + p, x) {
      assert IsDirs(x[..k + 1]) && Glob(cls, true, ("**/" + p)[3..], x[k + 1..]);
    }
    if Glob(cls, true, "**/" + p, x) {
      var k :| 0 <= k <= |x| && IsDirs(x[..k]) && Glob(cls, true, ("**/" + p)[3..], x[k..]);
      if k == 0 { assert x[0..] == x; } else { assert x[k - 1] == '/' && x[k - 1 + 1..] == x[k..]; }
    }
  }

  function Slashes(s: string): nat {
    if s == "" then 0 else (if s[0] == '/' then 1 else 0) + Slashes(s[1..])
  }

  lemma {:induction false} SlashesAppend(a: string, b: string)
    ensures Slashes(a + b) == Slashes(a) + Slashes(b)
    decreases |a|
  {
    if a == "" {
      assert a + b == b;
    } else {
      assert (a + b)[1..] == a[1..] + b;
      SlashesAppend(a[1..], b);
    }
  }

  lemma {:induction false} NoSlashNone(s: string)
    ensures NoSlash(s) <==> Slashes(s) == 0
    decreases |s|
  {
    if s != "" {
      NoSlashNone(s[1..]);
      assert s == [s[0]] + s[1..];
    }
  }

  predicate ClassAdmits(cls: Categories, body: string, c: char) {
    ClassOf(body).Some? && Admits(cls, ClassOf(body).value, c)
  }

  /** No `**`, and no class that admits or spells a slash. */
  ghost predicate StaysInSegment(cls: Categories, p: string)
    decreases |p|
  {
    p == "" ||
    (!("**" <= p) &&
     (if p[0] == '[' && FindClose(p).Some? then
        var j := FindClose(p).value;
        NoSlash(p[1..j]) && !ClassAdmits(cls, p[1..j], '/') && StaysInSegment(cls, p[j + 1..])
      else StaysInSegment(cls, p[1..])))
  }

  lemma SlashesOfClass(p: string, j: nat)
    requires 0 < j < |p| && p[0] == '[' && p[j] == ']' && NoSlash(p[1..j])
    ensures Slashes(p) == Slashes(p[j + 1..])
  {
    var body, rest := p[..j], p[j..];
    assert p == body + rest;
    assert body == ['['] + p[1..j];
    assert rest[1..] == p[j + 1..];
    NoSlashNone(body);
    SlashesAppend(body, rest);
  }

  lemma StarsBeforeSlash(p: string)
    ensures "**/" <= p ==> "**" <= p
  {
  }

  lemma SlashesAfter(s: string, k: nat)
    requires k <= |s| && NoSlash(s[..k])
    ensures Slashes(s) == Slashes(s[k..])
  {
    NoSlashNone(s[..k]);
    SlashesAppend(s[..k], s[k..]);
    assert s == s[..k] + s[k..];
  }

  /** Such a pattern fixes the depth of every path it accepts. */
  lemma {:induction false} DepthIsFixed(cls: Categories, p: string, s: string)
    requires StaysInSegment(cls, p) && Glob(cls, true, p, s)
    ensures Slashes(s) == Slashes(p)
    decreases |p|
  {
    if p == "" { return; }
    StarsBeforeSlash(p);
    if p[0] == '*' {
      var k :| 0 <= k <= |s| && NoSlash(s[..k]) && Glob(cls, true, p[1..], s[k..]);
      DepthIsFixed(cls, p[1..], s[k..]);
      SlashesAfter(s, k);
    } else if p[0] == '[' && FindClose(p).Some? {
      var j := FindClose(p).value;
      SlashesOfClass(p, j);
      DepthIsFixed(cls, p[j + 1..], s[1..]);
    } else {
      DepthIsFixed(cls, p[1..], s[1..]);
    }
  }

  // ---------------------------------------------------------------- path filters

  /** `p.lstrip("!")` */
  function StripBangs(p: string): (q: string)
    ensures q == "" || q[0] != '!'
  {
    if p != "" && p[0] == '!' then StripBangs(p[1..]) else p
  }

  predicate Negated(p: string) { p != "" && p[0] == '!' }

  /** A pattern as it is written: bangs, then a glob that does not start with one. */
  datatype Pattern = Pattern(bangs: nat, glob: string)

  function Written(p: Pattern): string { seq(p.bangs, _ => '!') + p.glob }

  predicate Proper(p: Pattern) { p.glob == "" || p.glob[0] != '!' }

  /** Stripping takes every leading bang and nothing else; one is enough to negate. */
  lemma {:induction false} BangsStripped(p: Pattern)
    requires Proper(p)
    ensures StripBangs(Written(p)) == p.glob
    ensures Negated(Written(p)) <==> p.bangs >= 1
    decreases p.bangs
  {
    if p.bangs == 0 {
      assert Written(p) == p.glob;
    } else {
      var fewer := p.(bangs := p.bangs - 1);
      assert Written(p)[1..] == Written(fewer);
      BangsStripped(fewer);
    }
  }

  /** Every string is written in exactly one way. */
  lemma {:induction false} EachIsWritten(s: string) returns (p: Pattern)
    ensures Proper(p) && Written(p) == s
    ensures forall q :: Proper(q) && Written(q) == s ==> q == p
    decreases |s|
  {
    if s != "" && s[0] == '!' {
      var fewer := EachIsWritten(s[1..]);
      p := fewer.(bangs := fewer.bangs + 1);
      assert Written(p) == ['!'] + Written(fewer);
    } else {
      p := Pattern(0, s);
      assert Written(p) == s;
    }
    forall q | Proper(q) && Written(q) == s ensures q == p {
      BangsStripped(q);
      BangsStripped(p);
      assert |Written(q)| == q.bangs + |q.glob| && |Written(p)| == p.bangs + |p.glob|;
    }
  }

  ghost predicate AreWritten(parts: seq<Pattern>, patterns: seq<string>) {
    |parts| == |patterns| && forall k :: 0 <= k < |parts| ==> Proper(parts[k]) && Written(parts[k]) == patterns[k]
  }

  /** What a glob says of a path: nothing, if it is refused. */
  ghost function Verdict(cls: Categories, glob: string, path: string): Option<bool> {
    match RegexOf(glob)
    case None => None
    case Some(out) => Some(Accepts(cls, out, path))
  }

  /** What it means to say. */
  ghost function GlobVerdict(cls: Categories, glob: string, path: string): Option<bool> {
    if HasExtglob(glob) then None else Some(Glob(cls, true, glob, path))
  }

  type Judge = string -> Option<bool>

  /** `judge` knows the verdict on `path` of every glob. */
  ghost predicate Judges(cls: Categories, path: string, judge: Judge) {
    forall glob {:trigger Verdict(cls, glob, path)} :: judge(glob) == Verdict(cls, glob, path)
  }

  /** A refused glob fails the call; otherwise the last one that accepts the path decides, whatever
      comes before it: on without bangs, off with any number of them. */
  ghost predicate LastDecides(judge: Judge, parts: seq<Pattern>, r: Result<bool, string>) {
    match r
    case Err(_) => exists k :: 0 <= k < |parts| && judge(parts[k].glob).None?
    case Ok(result) =>
      && (forall k :: 0 <= k < |parts| ==> judge(parts[k].glob).Some?)
      && (if exists k :: 0 <= k < |parts| && judge(parts[k].glob) == Some(true) then
            exists k :: 0 <= k < |parts| && judge(parts[k].glob) == Some(true)
                        && (forall m :: k < m < |parts| ==> judge(parts[m].glob) == Some(false))
                        && result == (parts[k].bangs == 0)
          else !result)
  }

  /** `regexMatches` is the regular expression engine. */
  ghost predicate IsEngine(cls: Categories, regexMatches: (seq<Regex>, string) -> bool) {
    forall out, s :: regexMatches(out, s) <==> Accepts(cls, out, s)
  }

  /** `glob_to_regex(p.lstrip("!")).match(path)` */
  method MatchOne(ghost cls: Categories, ghost judge: Judge, regexMatches: (seq<Regex>, string) -> bool, p: string,
                  path: string, ghost part: Pattern)
    returns (r: Option<bool>)
    requires IsEngine(cls, regexMatches) && Judges(cls, path, judge)
    requires Proper(part) && Written(part) == p
    ensures r == judge(part.glob)
  {
    BangsStripped(part);
    var regex := GlobToRegex(StripBangs(p));
    r := if regex.Err? then None else Some(regexMatches(regex.value, path));
    assert r == Verdict(cls, part.glob, path);
  }

  /** `covered` */
  method Covered(ghost cls: Categories, ghost judge: Judge, regexMatches: (seq<Regex>, string) -> bool,
                 path: string, patterns: seq<string>, ghost parts: seq<Pattern>)
    returns (r: Result<bool, string>)
    requires IsEngine(cls, regexMatches) && Judges(cls, path, judge) && AreWritten(parts, patterns)
    ensures LastDecides(judge, parts, r)
  {
    var result := false;
    ghost var last := -1;
    var i := 0;
    while i < |patterns|
      invariant 0 <= i <= |patterns|
      invariant forall k :: 0 <= k < i ==> judge(parts[k].glob).Some?
      invariant -1 <= last < i
      invariant if last == -1 then !result
                else judge(parts[last].glob) == Some(true) && result == (parts[last].bangs == 0)
      invariant forall m :: last < m < i ==> judge(parts[m].glob) == Some(false)
    {
      BangsStripped(parts[i]);
      var negate := Negated(patterns[i]);
      var matched := MatchOne(cls, judge, regexMatches, patterns[i], path, parts[i]);
      if matched.None? {
        return Err(patterns[i]);
      }
      if matched.value {
        result := !negate;
        last := i;
      }
      i := i + 1;
    }
    return Ok(result);
  }

  /** On a newline-free path the verdict is the glob's, if its brackets are classes. */
  lemma VerdictByGlob(cls: Categories, glob: string, path: string)
    requires NoNewline(path) && Supported(glob)
    ensures Verdict(cls, glob, path) == GlobVerdict(cls, glob, path)
  {
    ReadAsMeant(glob);
    CompilePreservesMeaning(cls, glob, path);
  }

  /** So for such patterns the globs decide. */
  lemma GlobsDecide(cls: Categories, judge: Judge, path: string, parts: seq<Pattern>, r: Result<bool, string>)
    requires NoNewline(path) && Judges(cls, path, judge) && LastDecides(judge, parts, r)
    requires forall k :: 0 <= k < |parts| ==> Supported(parts[k].glob)
    ensures LastDecides(glob => GlobVerdict(cls, glob, path), parts, r)
  {
    var globs := glob => GlobVerdict(cls, glob, path);
    forall k | 0 <= k < |parts| ensures judge(parts[k].glob) == globs(parts[k].glob) {
      VerdictByGlob(cls, parts[k].glob, path);
    }
  }
}
