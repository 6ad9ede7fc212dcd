/** Python's `re` as far as `scripts/check-ci-coverage.py` builds on it: what its regular
    expressions mean, and how the text of one is read. `ReadRegex` is meant for the texts that
    `glob_to_regex` joins: escaped characters, bracketed classes with anything inside, and the
    few expressions it adds. */
module PyRegex {
  import opened Wrappers

  /** `cls(letter, c)`: the category of `\d`, `\s`, `\w` or its complement admits c. */
  type Categories = (char, char) -> bool

  datatype Item = Code(code: nat) | Range(lo: nat, hi: nat) | Category(letter: char)

  datatype CharSet = Dot | One(c: char) | Set(negated: bool, items: seq<Item>)

  datatype Regex = Chars(chars: CharSet) | Star(r: Regex) | Opt(r: Regex) | Cat(a: Regex, b: Regex)

  // ---------------------------------------------------------------- meaning

  predicate ItemAdmits(cls: Categories, item: Item, c: char) {
    match item
    case Code(code) => c as nat == code
    case Range(lo, hi) => lo <= c as nat <= hi
    case Category(letter) => cls(letter, c)
  }

  predicate Admits(cls: Categories, chars: CharSet, c: char) {
    match chars
    case Dot => c != '\n'
    case One(d) => c == d
    case Set(negated, items) => negated != exists i :: 0 <= i < |items| && ItemAdmits(cls, items[i], c)
  }

  ghost predicate Matches(cls: Categories, r: Regex, s: string)
    decreases r, |s|
  {
    match r
    case Chars(chars) => |s| == 1 && Admits(cls, chars, s[0])
    case Star(q) => s == "" || exists k :: 0 < k <= |s| && Matches(cls, q, s[..k]) && Matches(cls, r, s[k..])
    case Opt(q) => s == "" || Matches(cls, q, s)
    case Cat(a, b) => exists k :: 0 <= k <= |s| && Matches(cls, a, s[..k]) && Matches(cls, b, s[k..])
  }

  /** One after the other. */
  ghost predicate MatchesAll(cls: Categories, out: seq<Regex>, s: string)
    decreases |out|
  {
    if out == [] then s == ""
    else exists k :: 0 <= k <= |s| && Matches(cls, out[0], s[..k]) && MatchesAll(cls, out[1..], s[k..])
  }

  predicate EndsLine(s: string) { s != "" && s[|s| - 1] == '\n' }

  /** `re.compile("^" + text + "$").match(path)`: `$` also holds before a final newline. */
  ghost predicate Accepts(cls: Categories, out: seq<Regex>, path: string) {
    MatchesAll(cls, out, path) || (EndsLine(path) && MatchesAll(cls, out, path[..|path| - 1]))
  }

  // ---------------------------------------------------------------- reading a class

  function Digit(c: char): nat {
    if '0' <= c <= '9' then c as nat - '0' as nat
    else if 'a' <= c <= 'f' then c as nat - 'a' as nat + 10
    else if 'A' <= c <= 'F' then c as nat - 'A' as nat + 10
    else 16
  }

  /** `acc` followed by the first n digits of s, if there are that many. */
  function Number(acc: nat, s: string, base: nat, n: nat): (v: Option<nat>)
    ensures v.Some? ==> n <= |s|
    decreases n
  {
    if n == 0 then Some(acc)
    else if s == "" || Digit(s[0]) >= base then None
    else Number(acc * base + Digit(s[0]), s[1..], base, n - 1)
  }

  predicate Octal(s: string, i: nat) { i < |s| && Digit(s[i]) < 8 }

  function OctalRun(s: string): (k: nat)
    requires Octal(s, 0)
    ensures 1 <= k <= 3 && k <= |s|
  {
    if !Octal(s, 1) then 1 else if !Octal(s, 2) then 2 else 3
  }

  predicate IsAlnum(c: char) { 'a' <= c <= 'z' || 'A' <= c <= 'Z' || '0' <= c <= '9' }

  function Control(c: char): Option<nat> {
    match c
    case 'a' => Some(7)
    case 'b' => Some(8)
    case 't' => Some(9)
    case 'n' => Some(10)
    case 'v' => Some(11)
    case 'f' => Some(12)
    case 'r' => Some(13)
    case _ => None
  }

  function Coded(v: Option<nat>, limit: nat, width: nat): Option<(Item, nat)> {
    if v.Some? && v.value < limit then Some((Code(v.value), width)) else None
  }

  /** `_class_escape`, from the character after the backslash on, and how many it takes. */
  function Escape(s: string): (e: Option<(Item, nat)>)
    requires s != ""
    ensures e.Some? ==> 1 <= e.value.1 <= |s|
  {
    var c := s[0];
    if c in "dDsSwW" then Some((Category(c), 1))
    else if Control(c).Some? then Some((Code(Control(c).value), 1))
    else if c == 'x' then Coded(Number(0, s[1..], 16, 2), 256, 3)
    else if c == 'u' then Coded(Number(0, s[1..], 16, 4), 0x1_0000, 5)
    else if c == 'U' then Coded(Number(0, s[1..], 16, 8), 0x11_0000, 9)
    else if Octal(s, 0) then Coded(Number(0, s, 8, OctalRun(s)), 256, OctalRun(s))
    else if IsAlnum(c) then None
    else Some((Code(c as nat), 1))
  }

  /** A character of a class, or an escape. */
  function Token(s: string): (t: Option<(Item, nat)>)
    requires s != ""
    ensures t.Some? ==> 1 <= t.value.1 <= |s|
  {
    if s[0] != '\\' then Some((Code(s[0] as nat), 1))
    else if |s| == 1 then None
    else
      match Escape(s[1..])
      case None => None
      case Some((item, n)) => Some((item, n + 1))
  }

  predicate IsRange(lo: Item, hi: Item) { lo.Code? && hi.Code? && lo.code <= hi.code }

  function Prepend(item: Item, n: nat, more: Option<(seq<Item>, nat)>): Option<(seq<Item>, nat)> {
    match more
    case None => None
    case Some((items, m)) => Some(([item] + items, n + m))
  }

  /** The items of a class up to its closing bracket, and how many characters they take with
      it. A bracket that comes first is an item. */
  function Items(s: string, first: bool): (r: Option<(seq<Item>, nat)>)
    ensures r.Some? ==> 1 <= r.value.1 <= |s|
    decreases |s|, 0
  {
    if s == "" then None
    else if s[0] == ']' && !first then Some(([], 1))
    else
      match Token(s)
      case None => None
      case Some((item, n)) => MoreItems(item, n, s[n..])
  }

  /** The same after `item`, which took n characters: it may start a range. */
  function MoreItems(item: Item, n: nat, s: string): (r: Option<(seq<Item>, nat)>)
    ensures r.Some? ==> n < r.value.1 <= n + |s|
    decreases |s|, 1
  {
    if s == "" then None
    else if s[0] != '-' then Prepend(item, n, Items(s, false))
    else if |s| == 1 then None
    else if s[1] == ']' then Some(([item, Code('-' as nat)], n + 2))
    else RangeItems(item, n, s[1..])
  }

  /** The same after `item` and a hyphen. */
  function RangeItems(item: Item, n: nat, s: string): (r: Option<(seq<Item>, nat)>)
    requires s != ""
    ensures r.Some? ==> n + 1 < r.value.1 <= n + 1 + |s|
    decreases |s|, 1
  {
    match Token(s)
    case None => None
    case Some((hi, m)) =>
      if IsRange(item, hi) then Prepend(Range(item.code, hi.code), n + 1 + m, Items(s[m..], false)) else None
  }

  /** The class that s starts with, and its length. */
  function ReadClass(s: string): (r: Option<(CharSet, nat)>)
    requires s != ""
    ensures r.Some? ==> 2 <= r.value.1 <= |s|
  {
    if "^" <= s[1..] then InBrackets(true, 2, Items(s[1..][1..], true)) else InBrackets(false, 1, Items(s[1..], true))
  }

  function InBrackets(negated: bool, n: nat, items: Option<(seq<Item>, nat)>): Option<(CharSet, nat)> {
    match items
    case None => None
    case Some((items, m)) => Some((Set(negated, items), n + m))
  }

  // ---------------------------------------------------------------- escapes

  /** The digits and letters that spell a number in base 16. */
  const HEX := "0123456789abcdef"

  const HEX_UPPER := "0123456789ABCDEF"

  predicate IsHex(c: char, i: nat) { i < 16 && (c == HEX[i] || c == HEX_UPPER[i]) }

  lemma HexMeans(c: char, i: nat)
    requires IsHex(c, i)
    ensures Digit(c) == i
  {
  }

  lemma NumberOf(acc: nat, s: string, base: nat, n: nat, digit: nat)
    requires n > 0 && s != "" && Digit(s[0]) == digit < base
    ensures Number(acc, s, base, n) == Number(acc * base + digit, s[1..], base, n - 1)
  {
  }

  /** `\d` and its like are categories, `\a` to `\r` control characters, and a character that is no
      letter or digit stands for itself. */
  lemma EscapesMean(s: string)
    requires s != ""
    ensures s[0] == 'd' || s[0] == 'D' || s[0] == 's' || s[0] == 'S' || s[0] == 'w' || s[0] == 'W' ==>
      Escape(s) == Some((Category(s[0]), 1))
    ensures forall i :: 0 <= i < 7 && s[0] == "abtnvfr"[i] ==> Escape(s) == Some((Code(7 + i), 1))
    ensures !('a' <= s[0] <= 'z') && !('A' <= s[0] <= 'Z') && !('0' <= s[0] <= '9') ==>
      Escape(s) == Some((Code(s[0] as nat), 1))
  {
    assert "abtnvfr"[0] == 'a' && "abtnvfr"[1] == 'b' && "abtnvfr"[2] == 't' && "abtnvfr"[3] == 'n';
    assert "abtnvfr"[4] == 'v' && "abtnvfr"[5] == 'f' && "abtnvfr"[6] == 'r';
  }

  /** `\xhh` is the character that two hexadecimal digits number. */
  lemma HexEscapeMeans(s: string, i: nat, j: nat)
    requires |s| >= 3 && s[0] == 'x' && IsHex(s[1], i) && IsHex(s[2], j)
    ensures Escape(s) == Some((Code(16 * i + j), 3))
  {
    HexMeans(s[1], i);
    HexMeans(s[2], j);
    NumberOf(0, s[1..], 16, 2, i);
    NumberOf(i, s[1..][1..], 16, 1, j);
  }

  // ---------------------------------------------------------------- reading an expression

  /** What `re.escape` puts a backslash before. */
  const SPECIAL := "()[]{}?*+-|^$\\.&~# \t\n\r\U{0B}\U{0C}"

  const DIRS_TEXT := "(?:.*/)?"
  const DIRS := Opt(Cat(Star(Chars(Dot)), Chars(One('/'))))

  /** The characters that mean something else than themselves in an expression. */
  predicate IsMeta(c: char) {
    || c == '.' || c == '^' || c == '$' || c == '*' || c == '+' || c == '?' || c == '{'
    || c == '[' || c == '\\' || c == '|' || c == '(' || c == ')'
  }

  /** Every metacharacter is escaped, and no letter or digit. */
  lemma SpecialChars(c: char)
    ensures c in SPECIAL ==> !IsAlnum(c)
    ensures IsMeta(c) ==> c in SPECIAL
  {
    assert SPECIAL[0] == '(' && SPECIAL[1] == ')' && SPECIAL[2] == '[' && SPECIAL[4] == '{' && SPECIAL[6] == '?';
    assert SPECIAL[7] == '*' && SPECIAL[8] == '+' && SPECIAL[10] == '|' && SPECIAL[11] == '^' && SPECIAL[12] == '$';
    assert SPECIAL[13] == '\\' && SPECIAL[14] == '.';
  }

  /** The single-character expression that s starts with, and its length. */
  function ReadChars(s: string): (r: Option<(CharSet, nat)>)
    requires s != ""
    ensures r.Some? ==> 1 <= r.value.1 <= |s|
  {
    if s[0] == '.' then Some((Dot, 1))
    else if s[0] == '[' then ReadClass(s)
    else if s[0] == '\\' then if |s| > 1 && !IsAlnum(s[1]) then Some((One(s[1]), 2)) else None
    else if IsMeta(s[0]) then None
    else Some((One(s[0]), 1))
  }

  /** The expression that s starts with, repetition included, and its length. */
  function ReadPiece(s: string): (r: Option<(Regex, nat)>)
    requires s != ""
    ensures r.Some? ==> 1 <= r.value.1 <= |s|
  {
    if DIRS_TEXT <= s then Some((DIRS, |DIRS_TEXT|))
    else
      match ReadChars(s)
      case None => None
      case Some((chars, n)) => Some(if "*" <= s[n..] then (Star(Chars(chars)), n + 1) else (Chars(chars), n))
  }

  /** `re.compile`, which raises where this gives nothing. */
  function ReadRegex(s: string): Option<seq<Regex>>
    decreases |s|
  {
    if s == "" then Some([])
    else
      match ReadPiece(s)
      case None => None
      case Some((r, n)) =>
        match ReadRegex(s[n..])
        case None => None
        case Some(rest) => Some([r] + rest)
  }

  // ---------------------------------------------------------------- what follows a class does not matter

  lemma {:induction false} NumberLocal(acc: nat, t: string, rest: string, base: nat, n: nat)
    requires n <= |t|
    ensures Number(acc, t + rest, base, n) == Number(acc, t, base, n)
    decreases n
  {
    if n > 0 {
      assert (t + rest)[1..] == t[1..] + rest;
      if Digit(t[0]) < base { NumberLocal(acc * base + Digit(t[0]), t[1..], rest, base, n - 1); }
    }
  }

  lemma EscapeLocal(t: string, rest: string)
    requires t != ""
    ensures Escape(t).Some? && Escape(t).value.1 < |t| ==> Escape(t + rest) == Escape(t)
    ensures Escape(t + rest).Some? && Escape(t + rest).value.1 < |t| ==> Escape(t + rest) == Escape(t)
  {
    var tail := t[1..];
    assert (t + rest)[1..] == tail + rest;
    if t[0] == 'x' {
      if 2 <= |tail| { NumberLocal(0, tail, rest, 16, 2); }
    } else if t[0] == 'u' {
      if 4 <= |tail| { NumberLocal(0, tail, rest, 16, 4); }
    } else if t[0] == 'U' {
      if 8 <= |tail| { NumberLocal(0, tail, rest, 16, 8); }
    } else if Octal(t, 0) {
      NumberLocal(0, t, rest, 8, OctalRun(t));
      if OctalRun(t + rest) <= |t| { NumberLocal(0, t, rest, 8, OctalRun(t + rest)); }
    }
  }

  lemma TokenLocal(t: string, rest: string)
    requires t != ""
    ensures Token(t).Some? && Token(t).value.1 < |t| ==> Token(t + rest) == Token(t)
    ensures Token(t + rest).Some? && Token(t + rest).value.1 < |t| ==> Token(t + rest) == Token(t)
  {
    if |t| > 1 {
      assert (t + rest)[1..] == t[1..] + rest;
      EscapeLocal(t[1..], rest);
    }
  }

  /** A reader that stops within t does not look beyond it. */
  ghost predicate Local<T(!new)>(inT: Option<(T, nat)>, beyond: Option<(T, nat)>, n: nat) {
    (inT.Some? ==> beyond == inT) && (beyond.Some? && beyond.value.1 <= n ==> inT == beyond)
  }

  lemma DropFirst(t: string, rest: string, n: nat)
    requires n <= |t|
    ensures (t + rest)[n..] == t[n..] + rest
  {
  }

  lemma {:induction false} ItemsLocal(t: string, rest: string, first: bool)
    ensures Local(Items(t, first), Items(t + rest, first), |t|)
    decreases |t|, 0
  {
    if t == "" || (t[0] == ']' && !first) { return; }
    TokenLocal(t, rest);
    var here, beyond := Token(t), Token(t + rest);
    if here.Some? && here.value.1 < |t| {
      var n := here.value.1;
      DropFirst(t, rest, n);
      MoreItemsLocal(here.value.0, n, t[n..], rest);
    } else if here.Some? {
      assert Items(t, first) == MoreItems(here.value.0, here.value.1, "");
    }
  }

  lemma {:induction false} MoreItemsLocal(item: Item, n: nat, t: string, rest: string)
    ensures Local(MoreItems(item, n, t), MoreItems(item, n, t + rest), n + |t|)
    decreases |t|, 1
  {
    if t == "" { return; }
    if t[0] != '-' {
      ItemsLocal(t, rest, false);
    } else if |t| > 1 {
      DropFirst(t, rest, 1);
      RangeLocal(item, n, t[1..], rest, n + |t|);
      assert (t + rest)[0] == '-' && (t + rest)[1] == t[1];
    }
  }

  lemma {:induction false} RangeLocal(item: Item, n: nat, t: string, rest: string, k: nat)
    requires t != "" && k == n + 1 + |t|
    ensures Local(RangeItems(item, n, t), RangeItems(item, n, t + rest), k)
    decreases |t|, 1
  {
    TokenLocal(t, rest);
    var here := Token(t);
    if here.Some? && here.value.1 < |t| {
      DropFirst(t, rest, here.value.1);
      ItemsLocal(t[here.value.1..], rest, false);
    }
  }

  lemma ClassLocal(t: string, rest: string)
    requires t != ""
    ensures Local(ReadClass(t), ReadClass(t + rest), |t|)
  {
    DropFirst(t, rest, 1);
    if |t| > 1 {
      DropFirst(t[1..], rest, 1);
      ItemsLocal(t[1..], rest, true);
      ItemsLocal(t[1..][1..], rest, true);
    }
  }
}
