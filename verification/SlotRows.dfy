/** The rows of the INSTALL.md table: slots whose prefix holds a filler, `[^|]*` or `.*`, between two
    literal parts. Other slots' captures may lie in the filler. */
module SlotRows {
  import opened Wrappers
  import Semver
  import opened Slots
  import opened SlotLayout
  import opened SlotFits

  /** `[^|]*`, and `.*` */
  datatype Filler = UpToBar | OnLine

  /** `^head filler mid([^`]+)suffix`, tied to a line end or not. */
  datatype Row = Row(head: string, filler: Filler, mid: string, suffix: string, lineEnd: bool)

  const TICK := Except('`')
  const BAR := Except('|')
  const LINE := Except('\n')

  const BINDINGS_ROW := Row("| Bindings |", UpToBar, "| `", "` (PyPI", false)
  const BINDINGS_PEP_ROW := Row("| Bindings |", OnLine, "(PyPI spells it `", "`)", false)
  const UNIFFI_ROW := Row("| UniFFI |", UpToBar, "| `", "` |", true)
  const RUST_ROW := Row("| Rust crates |", UpToBar, "| `", "` |", true)

  // ---------------------------------------------------------------- matching

  /** The expression from `mid` on: where its capture ends, if it matches at k. */
  function CaptureEnd(row: Row, s: string, k: nat): (to: Option<nat>)
    requires k <= |s|
    ensures to.Some? ==> k + |row.mid| < to.value && to.value + |row.suffix| <= |s|
  {
    var from := k + |row.mid|;
    if from > |s| || s[k..from] != row.mid then None
    else
      var to := RunEnd(TICK, s, from);
      var end := to + |row.suffix|;
      if to > from && end <= |s| && s[to..end] == row.suffix && (row.lineEnd ==> end == |s| || s[end] == '\n')
      then Some(to) else None
  }

  /** `.*` gives back until the rest matches: the last k that does. */
  function LastFrom(row: Row, s: string, low: nat, k: nat): (r: Option<nat>)
    requires low <= k <= |s|
    ensures r.Some? ==> r.value <= k && CaptureEnd(row, s, r.value).Some?
    decreases k
  {
    if CaptureEnd(row, s, k).Some? then Some(k) else if k == low then None else LastFrom(row, s, low, k - 1)
  }

  /** Where `mid` starts. `[^|]*` can only stop at a bar, since `mid` starts with one. */
  function MidAt(row: Row, s: string): (r: Option<nat>)
    requires |row.head| <= |s|
    ensures r.Some? ==> r.value <= |s| && CaptureEnd(row, s, r.value).Some?
  {
    match row.filler
    case UpToBar =>
      var k := RunEnd(BAR, s, |row.head|);
      if CaptureEnd(row, s, k).Some? then Some(k) else None
    case OnLine => LastFrom(row, s, |row.head|, RunEnd(LINE, s, |row.head|))
  }

  /** A match: it captures s[from..to] and ends at `end`. */
  datatype Capture = Capture(from: nat, to: nat, end: nat)

  function RowMatch(row: Row, bol: bool, s: string): (r: Option<Capture>)
    ensures r.Some? ==> r.value.from < r.value.to <= r.value.end <= |s|
  {
    if !bol || !(row.head <= s) then None
    else
      match MidAt(row, s)
      case None => None
      case Some(k) =>
        var to := CaptureEnd(row, s, k).value;
        Some(Capture(k + |row.mid|, to, to + |row.suffix|))
  }

  /** `slot_values` */
  function RowValues(row: Row, bol: bool, s: string): seq<string>
    decreases |s|
  {
    if s == "" then []
    else
      match RowMatch(row, bol, s)
      case None => RowValues(row, s[0] == '\n', s[1..])
      case Some(Capture(from, to, end)) =>
        [s[from..to]] + RowValues(row, EndsLine(s[..end]), s[end..])
  }

  /** `slot_replace` */
  function RowReplaced(row: Row, bol: bool, s: string, v: string): string
    decreases |s|
  {
    if s == "" then ""
    else
      match RowMatch(row, bol, s)
      case None => [s[0]] + RowReplaced(row, s[0] == '\n', s[1..], v)
      case Some(Capture(from, to, end)) =>
        s[..from] + v + (s[to..end] + RowReplaced(row, EndsLine(s[..end]), s[end..], v))
  }

  // ---------------------------------------------------------------- layouts with such a row

  function Cells(s: string): (d: Layout)
    ensures |d| == |s| && Keeps(d)
  {
    if s == "" then [] else [Keep(s[0])] + Cells(s[1..])
  }

  lemma {:induction false} CellsText(s: string)
    ensures Text(Cells(s)) == s
    decreases |s|
  {
    if s != "" { CellsText(s[1..]); }
  }

  /** What a layout holds around the row's capture: before it, in the filler, and after it. */
  datatype Parts = Parts(before: Layout, filling: Layout, capture: string, after: Layout)

  function Line(row: Row, i: nat, p: Parts): Layout {
    Cells(row.head) + (p.filling + (Cells(row.mid) + ([Hole(i, p.capture)] + (Cells(row.suffix) + p.after))))
  }

  function Whole(row: Row, i: nat, p: Parts): Layout { p.before + Line(row, i, p) }

  /** In the first n cells no line starts with the head. */
  predicate Quiet(head: string, bol: bool, d: Layout, n: nat)
    requires n <= |d|
    decreases n
  {
    n == 0 || (!(bol && head <= Text(d)) && Quiet(head, d[0] == Keep('\n'), d[1..], n - 1))
  }

  predicate NoHole(d: Layout, i: nat) { forall k :: 0 <= k < |d| && d[k].Hole? ==> d[k].row != i && Clean(d[k].value) }

  /** c does not occur up to the next line end. */
  predicate NotOnLine(c: char, d: Layout) {
    d == [] || d[0] == Keep('\n') || (c !in CellText(d[0]) && NotOnLine(c, d[1..]))
  }

  predicate Free(c: char, s: string) { forall k :: 0 <= k < |s| ==> s[k] != c }

  predicate HeadOk(s: string) { s != "" && Free('\n', s) && forall k :: 0 <= k < |s| ==> !Semver.Digit(s[k]) }

  predicate MidOk(s: string) {
    s != "" && Free('\n', s) && !In(VersionChars, s[0]) && forall k :: 1 <= k < |s| ==> s[k] != s[0]
  }

  predicate SuffixOk(s: string) { s != "" && s[0] == '`' && Free('\n', s) }

  /** The shape of the table's rows. */
  predicate Regular(row: Row) {
    && HeadOk(row.head) && MidOk(row.mid) && SuffixOk(row.suffix)
    && match row.filler
       case UpToBar => row.mid[0] == '|'
       case OnLine => Free(row.mid[0], row.suffix)
  }

  lemma RegularMeans(row: Row)
    requires Regular(row)
    ensures !HasDigit(row.head) && '\n' !in row.head && '\n' !in row.mid && '\n' !in row.suffix
  {
  }

  /** The row matches in one place of the layout, with its own hole for a capture. */
  predicate Laid(row: Row, i: nat, p: Parts) {
    && Regular(row)
    && Clean(p.capture) && NoHole(p.before, i) && NoHole(p.filling, i) && NoHole(p.after, i)
    && (p.before == [] || p.before[|p.before| - 1] == Keep('\n'))
    && Quiet(row.head, true, Whole(row, i, p), |p.before|) && Quiet(row.head, false, p.after, |p.after|)
    && (row.lineEnd ==> p.after == [] || p.after[0] == Keep('\n'))
    && match row.filler
       case UpToBar => '|' !in Text(p.filling)
       case OnLine => '\n' !in Text(p.filling) && NotOnLine(row.mid[0], p.after)
  }

  // ---------------------------------------------------------------- the match

  lemma RunOf(cls: Class, pre: string, x: string, y: string, s: string, p: nat, e: nat)
    requires s == pre + x + y && p == |pre| && e == p + |x|
    requires (forall c <- x :: In(cls, c)) && (y == "" || !In(cls, y[0]))
    ensures RunEnd(cls, s, p) == e
  {
    forall k | p <= k < e ensures In(cls, s[k]) {
      var i := k - p;
      assert s[k] == x[i];
    }
    if y != "" { assert s[e] == y[0]; }
    RunEndIs(cls, s, p, e);
  }

  /** The text of a line of the row. */
  function LineText(row: Row, filling: string, capture: string, after: string): string {
    row.head + filling + (row.mid + capture + (row.suffix + after))
  }

  lemma CaptureFound(row: Row, pre: string, capture: string, after: string, s: string, k: nat, to: nat)
    requires Regular(row) && Clean(capture) && s == pre + (row.mid + capture + (row.suffix + after))
    requires k == |pre| && to == k + |row.mid| + |capture|
    requires row.lineEnd ==> after == "" || after[0] == '\n'
    ensures CaptureEnd(row, s, k) == Some(to)
  {
    var from, end := k + |row.mid|, to + |row.suffix|;
    assert s == (pre + row.mid) + capture + (row.suffix + after);
    RunOf(TICK, pre + row.mid, capture, row.suffix + after, s, from, to);
    assert s == (pre + row.mid + capture) + row.suffix + after;
    assert s[k..from] == row.mid && s[to..end] == row.suffix && s[end..] == after;
  }

  /** No `mid` starts at a character that is not its first. */
  lemma NoCapture(row: Row, s: string, k: nat)
    requires row.mid != "" && k < |s| && s[k] != row.mid[0]
    ensures CaptureEnd(row, s, k).None?
  {
    if k + |row.mid| <= |s| { assert s[k..k + |row.mid|][0] == s[k]; }
  }

  lemma {:induction false} LastIs(row: Row, s: string, low: nat, k: nat, e: nat)
    requires low <= k <= e <= |s| && CaptureEnd(row, s, k).Some?
    requires forall j :: k < j <= e ==> CaptureEnd(row, s, j).None?
    ensures LastFrom(row, s, low, e) == Some(k)
    decreases e
  {
    if e > k { LastIs(row, s, low, k, e - 1); }
  }

  /** The line's parts after `mid`, up to a line end, hold no other `mid`. */
  lemma NoOther(row: Row, pre: string, capture: string, after: string, s: string, k: nat, e: nat)
    requires Regular(row) && row.filler.OnLine? && Clean(capture)
    requires s == pre + (row.mid + capture + (row.suffix + after)) && k == |pre|
    requires e == k + |row.mid| + |capture| + |row.suffix| + RunEnd(LINE, after, 0)
    requires forall j :: 0 <= j < RunEnd(LINE, after, 0) ==> after[j] != row.mid[0]
    ensures forall j :: k < j <= e ==> CaptureEnd(row, s, j).None?
  {
    var a, b, end := k + |row.mid|, k + |row.mid| + |capture|, k + |row.mid| + |capture| + |row.suffix|;
    RunEndMeans(LINE, after, 0);
    assert s[k..] == row.mid + capture + (row.suffix + after);
    assert s[end..] == after;
    forall j | k < j <= e ensures CaptureEnd(row, s, j).None? {
      if j < |s| {
        if j < a {
          assert s[j] == row.mid[j - k];
        } else if j < b {
          assert s[j] == capture[j - a];
        } else if j < end {
          assert s[j] == row.suffix[j - b];
        } else {
          assert s[j] == after[j - end];
        }
        NoCapture(row, s, j);
      }
    }
  }

  lemma LineRun(row: Row, filling: string, capture: string, after: string, s: string, low: nat, e: nat)
    requires Regular(row) && Clean(capture) && s == LineText(row, filling, capture, after) && low == |row.head|
    requires '\n' !in filling
    requires e == low + |filling| + |row.mid| + |capture| + |row.suffix| + RunEnd(LINE, after, 0)
    ensures RunEnd(LINE, s, low) == e
  {
    var n := RunEnd(LINE, after, 0);
    RunEndMeans(LINE, after, 0);
    RegularMeans(row);
    var x := filling + row.mid + capture + row.suffix + after[..n];
    assert s == row.head + x + after[n..];
    assert forall c <- after[..n] :: c != '\n';
    assert n < |after| ==> after[n..][0] == after[n];
    RunOf(LINE, row.head, x, after[n..], s, low, e);
  }

  /** The conditions of a layout, of its texts. */
  predicate TextLaid(row: Row, filling: string, capture: string, after: string) {
    && Regular(row) && Clean(capture) && (row.lineEnd ==> after == "" || after[0] == '\n')
    && match row.filler
       case UpToBar => '|' !in filling
       case OnLine => '\n' !in filling && forall j :: 0 <= j < RunEnd(LINE, after, 0) ==> after[j] != row.mid[0]
  }

  /** The row matches a line of its form, and captures what it should. */
  lemma LineMatches(row: Row, filling: string, capture: string, after: string, s: string, k: nat, to: nat)
    requires TextLaid(row, filling, capture, after) && s == LineText(row, filling, capture, after)
    requires k == |row.head| + |filling| && to == k + |row.mid| + |capture|
    ensures RowMatch(row, true, s) == Some(Capture(k + |row.mid|, to, to + |row.suffix|))
  {
    var low, rest := |row.head|, row.mid + capture + (row.suffix + after);
    CaptureFound(row, row.head + filling, capture, after, s, k, to);
    if row.filler.UpToBar? {
      RunOf(BAR, row.head, filling, rest, s, low, k);
    } else {
      var e := k + |row.mid| + |capture| + |row.suffix| + RunEnd(LINE, after, 0);
      LineRun(row, filling, capture, after, s, low, e);
      NoOther(row, row.head + filling, capture, after, s, k, e);
      LastIs(row, s, low, k, e);
    }
    assert row.head <= s;
  }

  // ---------------------------------------------------------------- where the row does not match

  /** Characters among which no line starts with the head. */
  lemma {:induction false} PassChars(row: Row, bol: bool, x: string, rest: string, v: string)
    requires x != "" && '\n' !in x && !(bol && row.head <= x + rest)
    ensures RowValues(row, bol, x + rest) == RowValues(row, false, rest)
    ensures RowReplaced(row, bol, x + rest, v) == x + RowReplaced(row, false, rest, v)
    decreases |x|
  {
    var s := x + rest;
    assert s[1..] == x[1..] + rest && s[0] == x[0];
    if |x| > 1 {
      PassChars(row, false, x[1..], rest, v);
    } else {
      assert x[1..] + rest == rest;
    }
  }

  predicate LineAfter(bol: bool, d: Layout, n: nat)
    requires n <= |d|
  {
    if n == 0 then bol else d[n - 1] == Keep('\n')
  }

  lemma PassCell(row: Row, i: nat, bol: bool, d: Layout, v: string)
    requires d != [] && !(bol && row.head <= Text(d)) && (d[0].Hole? ==> Clean(d[0].value))
    ensures RowValues(row, bol, Text(d)) == RowValues(row, d[0] == Keep('\n'), Text(d[1..]))
    ensures RowReplaced(row, bol, Text(d), v) == CellText(d[0]) + RowReplaced(row, d[0] == Keep('\n'), Text(d[1..]), v)
  {
    if d[0].Hole? {
      PassChars(row, bol, d[0].value, Text(d[1..]), v);
    } else {
      assert Text(d)[1..] == Text(d[1..]);
    }
  }

  lemma FrontParts(d: Layout, n: nat, m: nat, i: nat, front: Layout, rest: Layout)
    requires n == m + 1 <= |d| && NoHole(d[..n], i) && rest == d[1..] && front == rest[..m]
    ensures NoHole(front, i) && (d[0].Hole? ==> Clean(d[0].value)) && d[n..] == rest[m..]
    ensures Text(d[..n]) == CellText(d[0]) + Text(front)
  {
    var all := d[..n];
    assert all[0] == d[0] && all[1..] == front;
    forall k | 0 <= k < m && front[k].Hole? ensures front[k].row != i && Clean(front[k].value) {
      assert front[k] == all[k + 1];
    }
  }

  lemma {:induction false} PassQuiet(row: Row, i: nat, bol: bool, d: Layout, n: nat, v: string)
    requires n <= |d| && Quiet(row.head, bol, d, n) && NoHole(d[..n], i)
    ensures RowValues(row, bol, Text(d)) == RowValues(row, LineAfter(bol, d, n), Text(d[n..]))
    ensures RowReplaced(row, bol, Text(d), v)
         == Text(d[..n]) + RowReplaced(row, LineAfter(bol, d, n), Text(d[n..]), v)
    decreases n
  {
    if n == 0 {
      assert d[0..] == d;
    } else {
      var rest, m := d[1..], n - 1;
      var front, line := rest[..m], d[0] == Keep('\n');
      FrontParts(d, n, m, i, front, rest);
      PassCell(row, i, bol, d, v);
      PassQuiet(row, i, line, rest, m, v);
      var last := LineAfter(line, rest, m);
      assert last == LineAfter(bol, d, n);
      Concat3(CellText(d[0]), Text(front), RowReplaced(row, last, Text(rest[m..]), v));
    }
  }

  lemma Concat3(a: string, b: string, c: string)
    ensures a + (b + c) == (a + b) + c
  {
  }

  // ---------------------------------------------------------------- what the row reads and writes

  lemma LineIs(row: Row, i: nat, p: Parts)
    ensures Text(Line(row, i, p)) == LineText(row, Text(p.filling), p.capture, Text(p.after))
  {
    CellsText(row.head);
    CellsText(row.mid);
    CellsText(row.suffix);
    var tail := Cells(row.suffix) + p.after;
    var hole := [Hole(i, p.capture)] + tail;
    TextConcat(Cells(row.suffix), p.after);
    TextConcat([Hole(i, p.capture)], tail);
    assert Text([Hole(i, p.capture)]) == p.capture + Text([]) == p.capture;
    TextConcat(Cells(row.mid), hole);
    TextConcat(p.filling, Cells(row.mid) + hole);
    TextConcat(Cells(row.head), p.filling + (Cells(row.mid) + hole));
    Concat3(row.head, Text(p.filling), row.mid + (p.capture + (row.suffix + Text(p.after))));
    Concat3(row.mid, p.capture, row.suffix + Text(p.after));
  }

  /** No other `mid` on the rest of the line. */
  lemma {:induction false} NotOnLineMeans(c: char, d: Layout)
    requires NotOnLine(c, d) && c != '\n' && forall k :: 0 <= k < |d| && d[k].Hole? ==> Clean(d[k].value)
    ensures forall j :: 0 <= j < RunEnd(LINE, Text(d), 0) ==> Text(d)[j] != c
    decreases |d|
  {
    if d != [] && d[0] != Keep('\n') {
      var x, rest := CellText(d[0]), Text(d[1..]);
      NotOnLineMeans(c, d[1..]);
      RunEndMeans(LINE, x + rest, 0);
      RunEndMeans(LINE, rest, 0);
      forall j | 0 <= j < RunEnd(LINE, x + rest, 0) ensures (x + rest)[j] != c {
        if j >= |x| { RunFrom(x, rest, j - |x|, j); }
      }
    }
  }

  lemma RunFrom(x: string, rest: string, k: nat, j: nat)
    requires j == |x| + k && j < RunEnd(LINE, x + rest, 0)
    ensures k < RunEnd(LINE, rest, 0) && (x + rest)[j] == rest[k]
  {
    RunEndMeans(LINE, x + rest, 0);
    RunEndMeans(LINE, rest, 0);
    AtOffset(x, rest, RunEnd(LINE, rest, 0));
  }

  lemma AtOffset(x: string, rest: string, k: nat)
    ensures k < |rest| ==> (x + rest)[|x| + k] == rest[k]
  {
  }

  lemma LaidTexts(row: Row, i: nat, p: Parts)
    requires Laid(row, i, p)
    ensures TextLaid(row, Text(p.filling), p.capture, Text(p.after))
  {
    if row.filler.OnLine? { NotOnLineMeans(row.mid[0], p.after); }
  }

  lemma LineSlices(row: Row, filling: string, capture: string, after: string, s: string, from: nat, to: nat, end: nat)
    requires s == LineText(row, filling, capture, after) && from == |row.head| + |filling| + |row.mid|
    requires to == from + |capture| && end == to + |row.suffix|
    ensures s[from..to] == capture && s[end..] == after && s[..from] == row.head + filling + row.mid
    ensures s[to..end] == row.suffix && s[..end] == row.head + filling + row.mid + capture + row.suffix
  {
    assert s == (row.head + filling + row.mid) + capture + row.suffix + after;
  }

  lemma AfterQuiet(row: Row, i: nat, d: Layout, v: string)
    requires Quiet(row.head, false, d, |d|) && NoHole(d, i)
    ensures RowValues(row, false, Text(d)) == [] && RowReplaced(row, false, Text(d), v) == Text(d)
  {
    assert d[..|d|] == d && d[|d|..] == [];
    PassQuiet(row, i, false, d, |d|, v);
    assert Text(d) + "" == Text(d);
  }

  lemma ValuesStep(row: Row, s: string, c: Capture)
    requires s != "" && RowMatch(row, true, s) == Some(c)
    ensures RowValues(row, true, s) == [s[c.from..c.to]] + RowValues(row, EndsLine(s[..c.end]), s[c.end..])
  {
  }

  lemma ReplacedStep(row: Row, s: string, c: Capture, v: string)
    requires s != "" && RowMatch(row, true, s) == Some(c)
    ensures RowReplaced(row, true, s, v)
         == s[..c.from] + v + (s[c.to..c.end] + RowReplaced(row, EndsLine(s[..c.end]), s[c.end..], v))
  {
  }

  lemma NoLineEnd(a: string, suffix: string)
    requires suffix != "" && '\n' !in suffix
    ensures !EndsLine(a + suffix)
  {
    assert (a + suffix)[|a + suffix| - 1] == suffix[|suffix| - 1] && suffix[|suffix| - 1] in suffix;
  }

  /** A match after which nothing more matches. */
  lemma OneStep(row: Row, s: string, c: Capture, pre: string, capture: string, suffix: string, after: string, v: string)
    requires RowMatch(row, true, s) == Some(c) && s[c.from..c.to] == capture && s[..c.from] == pre
    requires s[c.to..c.end] == suffix && s[c.end..] == after && !EndsLine(s[..c.end])
    requires RowValues(row, false, after) == [] && RowReplaced(row, false, after, v) == after
    ensures RowValues(row, true, s) == [capture] && RowReplaced(row, true, s, v) == pre + v + (suffix + after)
  {
    assert s != "";
    ValuesStep(row, s, c);
    ReplacedStep(row, s, c, v);
    assert [capture] + [] == [capture];
  }

  /** Where the capture of such a line is. */
  lemma TextCaptured(row: Row, filling: string, capture: string, after: string, s: string, pre: string)
    returns (c: Capture)
    requires TextLaid(row, filling, capture, after) && s == LineText(row, filling, capture, after)
    requires pre == row.head + filling + row.mid
    ensures RowMatch(row, true, s) == Some(c) && s[c.from..c.to] == capture && s[..c.from] == pre
    ensures s[c.to..c.end] == row.suffix && s[c.end..] == after && !EndsLine(s[..c.end])
  {
    var k := |row.head| + |filling|;
    var from, to := |pre|, |pre| + |capture|;
    c := Capture(from, to, to + |row.suffix|);
    LineMatches(row, filling, capture, after, s, k, to);
    LineSlices(row, filling, capture, after, s, from, to, c.end);
    RegularMeans(row);
    NoLineEnd(pre + capture, row.suffix);
  }

  lemma TextReads(row: Row, filling: string, capture: string, after: string, s: string, v: string)
    requires TextLaid(row, filling, capture, after) && s == LineText(row, filling, capture, after)
    requires RowValues(row, false, after) == [] && RowReplaced(row, false, after, v) == after
    ensures RowValues(row, true, s) == [capture] && RowReplaced(row, true, s, v) == LineText(row, filling, v, after)
  {
    var pre := row.head + filling + row.mid;
    var c := TextCaptured(row, filling, capture, after, s, pre);
    OneStep(row, s, c, pre, capture, row.suffix, after, v);
    Rejoin(row.head, filling, row.mid, v, row.suffix, after);
  }

  lemma Rejoin(head: string, filling: string, mid: string, v: string, suffix: string, after: string)
    ensures head + filling + mid + v + (suffix + after) == head + filling + (mid + v + (suffix + after))
  {
  }

  /** From the start of its line the row reads its own hole and writes into it. */
  lemma LineReads(row: Row, i: nat, p: Parts, s: string, v: string)
    requires Laid(row, i, p) && s == Text(Line(row, i, p))
    ensures RowValues(row, true, s) == [p.capture]
    ensures RowReplaced(row, true, s, v) == Text(Line(row, i, p.(capture := v)))
  {
    LaidTexts(row, i, p);
    LineIs(row, i, p);
    LineIs(row, i, p.(capture := v));
    AfterQuiet(row, i, p.after, v);
    TextReads(row, Text(p.filling), p.capture, Text(p.after), s, v);
  }

  /** Anywhere in its file the row reads its own hole and writes into it. */
  lemma LaidReads(row: Row, i: nat, p: Parts, v: string)
    requires Laid(row, i, p)
    ensures RowValues(row, true, Text(Whole(row, i, p))) == [p.capture]
    ensures RowReplaced(row, true, Text(Whole(row, i, p)), v) == Text(Whole(row, i, p.(capture := v)))
  {
    var d, n, line := Whole(row, i, p), |p.before|, Line(row, i, p);
    assert d[..n] == p.before && d[n..] == line;
    PassQuiet(row, i, true, d, n, v);
    assert LineAfter(true, d, n);
    LineReads(row, i, p, Text(line), v);
    TextConcat(p.before, Line(row, i, p.(capture := v)));
  }

  // ---------------------------------------------------------------- whatever versions are written

  lemma LikeSplit(a: Layout, b: Layout, d: Layout, n: nat)
    requires Like(a + b, d) && n == |a|
    ensures n <= |d| && Like(a, d[..n]) && Like(b, d[n..])
  {
    var all := a + b;
    forall k | 0 <= k < n ensures LikeCell(a[k], d[..n][k]) { assert LikeCell(all[k], d[k]); }
    forall k | 0 <= k < |b| ensures LikeCell(b[k], d[n..][k]) {
      var m := n + k;
      assert LikeCell(all[m], d[m]);
    }
  }

  lemma LikeKeeps(a: Layout, d: Layout)
    requires Keeps(a) && Like(a, d)
    ensures d == a
  {
    forall k | 0 <= k < |a| ensures d[k] == a[k] { assert LikeCell(a[k], d[k]); }
  }

  lemma LikeTail(d: Layout, d': Layout)
    requires Like(d, d') && d != []
    ensures Like(d[1..], d'[1..]) && LikeCell(d[0], d'[0])
  {
    forall k | 0 <= k < |d| - 1 ensures LikeCell(d[1..][k], d'[1..][k]) {
      var m := k + 1;
      assert LikeCell(d[m], d'[m]);
    }
  }

  lemma StartsOff(h: string, x: string, tail: string)
    ensures h != "" && Versionlike(x) && h <= x + tail ==> HasDigit(h)
  {
    if h != "" && Versionlike(x) && h <= x + tail {
      assert h[0] == (x + tail)[0] == x[0];
      assert h[0] in h && Semver.Digit(h[0]);
    }
  }

  /** A head without digits is not made of a version. */
  lemma {:induction false} HeadStays(h: string, d: Layout, d': Layout)
    requires !HasDigit(h) && Like(d, d') && h <= Text(d')
    ensures h <= Text(d)
    decreases |d|
  {
    if h != "" && d != [] {
      LikeTail(d, d');
      var x := CellText(d'[0]);
      StartsOff(h, x, Text(d'[1..]));
      if d'[0] == d[0] {
        if |h| <= |x| {
          assert h == x[..|h|];
        } else {
          var rest := h[|x|..];
          assert h == x + rest && rest <= Text(d'[1..]);
          forall c | c in rest ensures c in h {}
          HeadStays(rest, d[1..], d'[1..]);
        }
      }
    }
  }

  lemma {:induction false} QuietStays(h: string, bol: bool, d: Layout, d': Layout, n: nat)
    requires !HasDigit(h) && Like(d, d') && n <= |d| && Quiet(h, bol, d, n)
    ensures Quiet(h, bol, d', n)
    decreases n
  {
    if n > 0 {
      LikeTail(d, d');
      if h <= Text(d') { HeadStays(h, d, d'); }
      QuietStays(h, d[0] == Keep('\n'), d[1..], d'[1..], n - 1);
    }
  }

  lemma NoHoleStays(d: Layout, d': Layout, i: nat)
    requires NoHole(d, i) && Like(d, d')
    ensures NoHole(d', i)
  {
    forall k | 0 <= k < |d'| && d'[k].Hole? ensures d'[k].row != i && Clean(d'[k].value) {
      assert LikeCell(d[k], d'[k]);
    }
  }

  lemma CellStays(c: char, p: Cell, q: Cell)
    requires !In(VersionChars, c) && LikeCell(p, q) && c !in CellText(p)
    ensures c !in CellText(q)
  {
  }

  lemma {:induction false} NotInStays(c: char, d: Layout, d': Layout)
    requires !In(VersionChars, c) && Like(d, d') && c !in Text(d)
    ensures c !in Text(d')
    decreases |d|
  {
    if d != [] {
      LikeTail(d, d');
      CellStays(c, d[0], d'[0]);
      NotInStays(c, d[1..], d'[1..]);
    }
  }

  lemma {:induction false} NotOnLineStays(c: char, d: Layout, d': Layout)
    requires !In(VersionChars, c) && Like(d, d') && NotOnLine(c, d)
    ensures NotOnLine(c, d')
    decreases |d|
  {
    if d != [] {
      LikeTail(d, d');
      if d[0] != Keep('\n') {
        CellStays(c, d[0], d'[0]);
        NotOnLineStays(c, d[1..], d'[1..]);
      }
    }
  }

  /** The parts of a layout that is like one with the row. */
  lemma LikeParts(row: Row, i: nat, p: Parts, d: Layout) returns (q: Parts)
    requires Like(Whole(row, i, p), d)
    ensures d == Whole(row, i, q) && LikeCell(Hole(i, p.capture), Hole(i, q.capture))
    ensures Like(p.before, q.before) && Like(p.filling, q.filling) && Like(p.after, q.after)
  {
    var tail := Cells(row.suffix) + p.after;
    var hole := [Hole(i, p.capture)];
    var mid := Cells(row.mid) + (hole + tail);
    var n := |p.before|;
    LikeSplit(p.before, Line(row, i, p), d, n);
    var d1 := d[n..];
    LikeSplit(Cells(row.head), p.filling + mid, d1, |row.head|);
    LikeKeeps(Cells(row.head), d1[..|row.head|]);
    var d2 := d1[|row.head|..];
    var m := |p.filling|;
    LikeSplit(p.filling, mid, d2, m);
    var d3 := d2[m..];
    LikeSplit(Cells(row.mid), hole + tail, d3, |row.mid|);
    LikeKeeps(Cells(row.mid), d3[..|row.mid|]);
    var d4 := d3[|row.mid|..];
    LikeSplit(hole, tail, d4, 1);
    assert LikeCell(hole[0], d4[..1][0]);
    var d5 := d4[1..];
    LikeSplit(Cells(row.suffix), p.after, d5, |row.suffix|);
    LikeKeeps(Cells(row.suffix), d5[..|row.suffix|]);
    q := Parts(d[..n], d2[..m], d4[0].value, d5[|row.suffix|..]);
    Glued(d, n, d1);
    Glued(d1, |row.head|, d2);
    Glued(d2, m, d3);
    Glued(d3, |row.mid|, d4);
    Glued(d4, 1, d5);
    Glued(d5, |row.suffix|, q.after);
    assert d4[..1] == [Hole(i, q.capture)];
  }

  lemma Glued(d: Layout, n: nat, rest: Layout)
    requires n <= |d| && rest == d[n..]
    ensures d == d[..n] + rest
  {
  }

  /** The row goes on matching there whatever versions are written over any captures. */
  lemma LaidStays(row: Row, i: nat, p: Parts, q: Parts)
    requires Laid(row, i, p) && Like(Whole(row, i, p), Whole(row, i, q))
    requires LikeCell(Hole(i, p.capture), Hole(i, q.capture))
    requires Like(p.before, q.before) && Like(p.filling, q.filling) && Like(p.after, q.after)
    ensures Laid(row, i, q)
  {
    NoHoleStays(p.before, q.before, i);
    NoHoleStays(p.filling, q.filling, i);
    NoHoleStays(p.after, q.after, i);
    RegularMeans(row);
    QuietStays(row.head, true, Whole(row, i, p), Whole(row, i, q), |p.before|);
    QuietStays(row.head, false, p.after, q.after, |p.after|);
    if p.before != [] { assert LikeCell(p.before[|p.before| - 1], q.before[|q.before| - 1]); }
    if p.after != [] { assert LikeCell(p.after[0], q.after[0]); }
    match row.filler
    case UpToBar => NotInStays('|', p.filling, q.filling);
    case OnLine =>
      NotInStays('\n', p.filling, q.filling);
      NotOnLineStays(row.mid[0], p.after, q.after);
  }

  // ---------------------------------------------------------------- as a layout's slot

  lemma {:induction false} NoOwn(d: Layout, i: nat, v: string)
    requires NoHole(d, i)
    ensures Own(i, d) == [] && Put(d, i, v) == d
    decreases |d|
  {
    if d != [] {
      assert forall k :: 0 <= k < |d| - 1 ==> d[1..][k] == d[k + 1];
      NoOwn(d[1..], i, v);
    }
  }

  lemma PutConcat(a: Layout, b: Layout, i: nat, v: string)
    ensures Put(a + b, i, v) == Put(a, i, v) + Put(b, i, v)
  {
  }

  lemma AroundOwn(a: Layout, b: Layout, i: nat, own: seq<string>, v: string, b': Layout)
    requires NoHole(a, i) && Own(i, b) == own && Put(b, i, v) == b'
    ensures Own(i, a + b) == own && Put(a + b, i, v) == a + b'
  {
    NoOwn(a, i, v);
    OwnConcat(i, a, b);
    PutConcat(a, b, i, v);
    assert [] + own == own;
  }

  /** The row's hole is the only one of its own. */
  lemma WholeOwn(row: Row, i: nat, p: Parts, v: string)
    requires Laid(row, i, p)
    ensures Own(i, Whole(row, i, p)) == [p.capture]
    ensures Put(Whole(row, i, p), i, v) == Whole(row, i, p.(capture := v))
  {
    var tail := Cells(row.suffix) + p.after;
    NoOwn(p.after, i, v);
    AroundOwn(Cells(row.suffix), p.after, i, [], v, p.after);
    var hole, hole' := [Hole(i, p.capture)] + tail, [Hole(i, v)] + tail;
    HoleOwn(i, p.capture, tail, v);
    var own := [p.capture];
    AroundOwn(Cells(row.mid), hole, i, own, v, hole');
    AroundOwn(p.filling, Cells(row.mid) + hole, i, own, v, Cells(row.mid) + hole');
    AroundOwn(Cells(row.head), p.filling + (Cells(row.mid) + hole), i, own, v, p.filling + (Cells(row.mid) + hole'));
    AroundOwn(p.before, Line(row, i, p), i, own, v, Line(row, i, p.(capture := v)));
  }

  lemma HoleOwn(i: nat, capture: string, tail: Layout, v: string)
    requires Own(i, tail) == [] && Put(tail, i, v) == tail
    ensures Own(i, [Hole(i, capture)] + tail) == [capture]
    ensures Put([Hole(i, capture)] + tail, i, v) == [Hole(i, v)] + tail
  {
    assert ([Hole(i, capture)] + tail)[1..] == tail;
    assert [capture] + [] == [capture];
  }

  /** Whatever versions the holes of all rows hold, the row reads its own hole and writes into it. */
  lemma RowReadsAny(row: Row, i: nat, p: Parts, d: Layout, v: string)
    requires Laid(row, i, p) && Like(Whole(row, i, p), d)
    ensures RowValues(row, true, Text(d)) == Own(i, d)
    ensures RowReplaced(row, true, Text(d), v) == Text(Put(d, i, v))
  {
    var q := LikeParts(row, i, p, d);
    LaidStays(row, i, p, q);
    LaidReads(row, i, q, v);
    WholeOwn(row, i, q, v);
  }

  // ---------------------------------------------------------------- the table's rows

  lemma HeadsAreOk()
    ensures HeadOk("| Bindings |") && HeadOk("| UniFFI |") && HeadOk("| Rust crates |")
  {
  }

  lemma MidsAreOk()
    ensures MidOk("| `") && MidOk("(PyPI spells it `")
  {
  }

  lemma SuffixesAreOk()
    ensures SuffixOk("` (PyPI") && SuffixOk("`)") && SuffixOk("` |") && Free('(', "`)")
  {
  }

  lemma RowsAreRegular()
    ensures Regular(BINDINGS_ROW) && Regular(BINDINGS_PEP_ROW) && Regular(UNIFFI_ROW) && Regular(RUST_ROW)
  {
    HeadsAreOk();
    MidsAreOk();
    SuffixesAreOk();
  }

  /** What the four rows match: a line of the table with the version between backticks. */
  lemma TableRowsMatch(filling: string, v: string, after: string)
    requires Clean(v) && '|' !in filling
    ensures RowCaptures(BINDINGS_ROW, "| Bindings |", filling, "| `", v, "` (PyPI", after)
    ensures after == "" || after[0] == '\n' ==>
      && RowCaptures(UNIFFI_ROW, "| UniFFI |", filling, "| `", v, "` |", after)
      && RowCaptures(RUST_ROW, "| Rust crates |", filling, "| `", v, "` |", after)
  {
    RowsAreRegular();
    Captures(BINDINGS_ROW, filling, v, after);
    if after == "" || after[0] == '\n' {
      Captures(UNIFFI_ROW, filling, v, after);
      Captures(RUST_ROW, filling, v, after);
    }
  }

  /** The PyPI spelling, behind anything on its line. */
  lemma PepRowMatches(filling: string, v: string, after: string)
    requires Clean(v) && '\n' !in filling && forall j :: 0 <= j < RunEnd(LINE, after, 0) ==> after[j] != '('
    ensures RowCaptures(BINDINGS_PEP_ROW, "| Bindings |", filling, "(PyPI spells it `", v, "`)", after)
  {
    RowsAreRegular();
    assert "(PyPI spells it `"[0] == '(';
    Captures(BINDINGS_PEP_ROW, filling, v, after);
  }

  /** On the line that these texts make up the row captures v. */
  predicate RowCaptures(row: Row, head: string, filling: string, mid: string, v: string, suffix: string,
                        after: string)
  {
    var s, from := head + filling + (mid + v + (suffix + after)), |head| + |filling| + |mid|;
    RowMatch(row, true, s) == Some(Capture(from, from + |v|, from + |v| + |suffix|)) && RowMatch(row, false, s) == None
  }

  lemma Captures(row: Row, filling: string, v: string, after: string)
    requires TextLaid(row, filling, v, after)
    ensures RowCaptures(row, row.head, filling, row.mid, v, row.suffix, after)
  {
    var k := |row.head| + |filling|;
    CapturesAt(row, filling, v, after, LineText(row, filling, v, after), k, k + |row.mid| + |v|);
  }

  lemma CapturesAt(row: Row, filling: string, v: string, after: string, s: string, k: nat, to: nat)
    requires TextLaid(row, filling, v, after) && s == LineText(row, filling, v, after)
    requires k == |row.head| + |filling| && to == k + |row.mid| + |v|
    ensures RowMatch(row, true, s) == Some(Capture(k + |row.mid|, to, to + |row.suffix|))
    ensures RowMatch(row, false, s) == None
  {
    LineMatches(row, filling, v, after, s, k, to);
  }

  predicate IsTableRow(row: Row) { row in [BINDINGS_ROW, BINDINGS_PEP_ROW, UNIFFI_ROW, RUST_ROW] }
}
