/** The part of a text a version slot looks at (`_slot_region`, `_toml_table_span`) and the
    reading and rewriting of whole texts (`slot_values`, `slot_replace`). */
module SlotRegions {
  import opened Wrappers
  import opened Slots

  datatype Error = TableNotFound(name: string)

  /** Whether `^` holds at i: at the start of the text and after a newline, wherever the region starts. */
  predicate BeginsLine(text: string, i: nat)
    requires i <= |text|
  {
    i == 0 || text[i - 1] == '\n'
  }

  // ---------------------------------------------------------------- regions

  /** Where `\s*$` ends from j on: greedy, so at the last line end among the spaces. */
  function SpacesToLineEnd(text: string, j: nat): (e: Option<nat>)
    requires j <= |text|
    ensures e.Some? ==> j <= e.value <= |text|
    decreases |text| - j
  {
    if j == |text| then Some(j)
    else if !Space(text[j]) then None
    else
      var later := SpacesToLineEnd(text, j + 1);
      if later.Some? then later else if text[j] == '\n' then Some(j) else None
  }

  /** Where the header `[name]` ends, if one starts at i. */
  function HeaderAt(text: string, header: string, i: nat): (e: Option<nat>)
    requires i <= |text|
    ensures e.Some? ==> i + |header| <= e.value <= |text|
  {
    var j := i + |header|;
    if BeginsLine(text, i) && j <= |text| && text[i..j] == header then SpacesToLineEnd(text, j) else None
  }

  /** `re.search` for the header from i on. */
  function FindHeader(text: string, header: string, i: nat): (e: Option<nat>)
    requires i <= |text|
    ensures e.Some? ==> i + |header| <= e.value <= |text|
    decreases |text| - i
  {
    var here := HeaderAt(text, header, i);
    if here.Some? || i == |text| then here else FindHeader(text, header, i + 1)
  }

  /** Whether the `^\[` search in text[start..] matches at k. */
  predicate OpensTable(text: string, start: nat, k: nat)
    requires start <= k
  {
    k < |text| && text[k] == '[' && (k == start || text[k - 1] == '\n')
  }

  /** Where the next table opens from k on, or the end of the text. */
  function NextTable(text: string, start: nat, k: nat): (e: nat)
    requires start <= k <= |text|
    ensures k <= e <= |text|
    decreases |text| - k
  {
    if k == |text| || OpensTable(text, start, k) then k else NextTable(text, start, k + 1)
  }

  function LineEnd(text: string, k: nat): (e: nat)
    requires k <= |text|
    ensures k <= e <= |text|
    decreases |text| - k
  {
    if k == |text| || text[k] == '\n' then k else LineEnd(text, k + 1)
  }

  datatype Span = Span(start: nat, end: nat)

  function Region(text: string, scope: Scope): (r: Result<Span, Error>)
    ensures r.Ok? ==> r.value.start <= r.value.end <= |text|
  {
    match scope
    case WholeText => Ok(Span(0, |text|))
    case FirstLine => Ok(Span(0, LineEnd(text, 0)))
    case Table(name) =>
      match FindHeader(text, "[" + name + "]", 0)
      case None => Err(TableNotFound(name))
      case Some(start) => Ok(Span(start, NextTable(text, start, start)))
  }

  /** `slot_values`. */
  function SlotValues(text: string, slot: Slot): Result<seq<string>, Error> {
    match Region(text, slot.scope)
    case Err(e) => Err(e)
    case Ok(Span(start, end)) => Ok(Values(slot, BeginsLine(text, start), text[start..end]))
  }

  /** What `slot_replace` makes of text[start..end]. */
  function Rewritten(text: string, slot: Slot, start: nat, end: nat, value: string): string
    requires start <= end <= |text|
  {
    Replace(slot, BeginsLine(text, start), text[start..end], value)
  }

  /** The text with another text in place of text[start..end]. */
  function Spliced(text: string, start: nat, end: nat, part: string): string
    requires start <= end <= |text|
  {
    text[..start] + part + text[end..]
  }

  /** `slot_replace`. */
  function SlotReplaced(text: string, slot: Slot, value: string): Result<string, Error> {
    match Region(text, slot.scope)
    case Err(e) => Err(e)
    case Ok(Span(start, end)) => Ok(Spliced(text, start, end, Rewritten(text, slot, start, end, value)))
  }

  // ---------------------------------------------------------------- the loop

  lemma SkipFrom(text: string, slot: Slot, at: nat, end: nat, value: string, next: nat)
    requires at < end <= |text| && MatchHead(slot, BeginsLine(text, at), text[at..end]).None? && next == at + 1
    ensures Rewritten(text, slot, at, end, value) == [text[at]] + Rewritten(text, slot, next, end, value)
  {
    var s := text[at..end];
    Sliced(text, s, at, end, 1, end - at, next, end);
    assert s[1..] == s[1..end - at];
  }

  /** A match from `at` on: the capture is text[from..to], the rest is text[next..end]. */
  lemma HitFrom(text: string, slot: Slot, at: nat, end: nat, value: string, c: nat, from: nat, to: nat, next: nat)
    requires at < end <= |text| && MatchHead(slot, BeginsLine(text, at), text[at..end]) == Some(c)
    requires from == at + |slot.prefix| && to == from + c && next == to + |slot.suffix|
    ensures at < next <= end
    ensures text[at..from] == slot.prefix && text[to..next] == slot.suffix
    ensures Rewritten(text, slot, at, end, value) == Filled(slot, value, Rewritten(text, slot, next, end, value))
  {
    var s, p, n := text[at..end], |slot.prefix|, |slot.suffix|;
    var pc, pcn, all := p + c, p + c + n, end - at;
    var piece := Next(slot, BeginsLine(text, at), s);
    Sliced(text, s, at, end, 0, p, at, from);
    Sliced(text, s, at, end, pc, pcn, to, next);
    Sliced(text, s, at, end, 0, pcn, at, next);
    Sliced(text, s, at, end, pcn, all, next, end);
    HeadMeans(slot, BeginsLine(text, at), s, c, pc, pcn);
    assert s[pcn..] == s[pcn..all];
    LastOf(text, at, next);
    assert piece.line == BeginsLine(text, next);
  }

  lemma HeadMeans(slot: Slot, bol: bool, s: string, c: nat, pc: nat, pcn: nat)
    requires s != "" && MatchHead(slot, bol, s) == Some(c) && pc == |slot.prefix| + c && pcn == pc + |slot.suffix|
    ensures s[0..|slot.prefix|] == slot.prefix && s[pc..pcn] == slot.suffix
    ensures Next(slot, bol, s).Hit? && Next(slot, bol, s).rest == s[pcn..]
    ensures Next(slot, bol, s).line == EndsLine(s[0..pcn])
  {
    assert s[..|slot.prefix|] == s[0..|slot.prefix|];
    assert s[..pcn] == s[0..pcn];
  }

  lemma LastOf(text: string, at: nat, next: nat)
    requires at < next <= |text|
    ensures EndsLine(text[at..next]) == BeginsLine(text, next)
  {
  }

  /** One turn of the loop: what is out, what is passed over, what is to do. */
  lemma Turn(text: string, out: string, pos: nat, at: nat, from: nat, to: nat, next: nat, value: string, after: string)
    requires pos <= at <= from <= to <= next <= |text|
    ensures out + text[pos..at] + (text[at..from] + value + (text[to..next] + after))
         == out + text[pos..from] + value + text[to..next] + after
  {
    assert text[pos..from] == text[pos..at] + text[at..from];
    Associative(out, text[pos..at], text[at..from], value, text[to..next], after);
  }

  lemma Associative(a: string, b: string, c: string, d: string, e: string, f: string)
    ensures a + b + (c + d + (e + f)) == a + (b + c) + d + e + f
  {
  }

  lemma Pass(text: string, out: string, pos: nat, at: nat, next: nat, after: string)
    requires pos <= at < |text| && next == at + 1
    ensures out + text[pos..at] + ([text[at]] + after) == out + text[pos..next] + after
  {
    assert text[pos..next] == text[pos..at] + [text[at]];
    assert out + text[pos..at] + ([text[at]] + after) == out + (text[pos..at] + [text[at]]) + after;
  }

  /** The loop over the matches in text[start..end]. */
  method ReplaceIn(slot: Slot, text: string, start: nat, end: nat, value: string) returns (out: string)
    requires start <= end <= |text|
    ensures out == Rewritten(text, slot, start, end, value)
  {
    var pos, at := start, start;
    out := "";
    ghost var all := Rewritten(text, slot, start, end, value);
    ghost var todo := all;
    assert text[pos..at] == "";
    while at < end
      invariant start <= pos <= at <= end
      invariant todo == Rewritten(text, slot, at, end, value)
      invariant out + text[pos..at] + todo == all
    {
      var m := MatchHead(slot, BeginsLine(text, at), text[at..end]);
      if m.None? {
        var next := at + 1;
        SkipFrom(text, slot, at, end, value, next);
        todo := Rewritten(text, slot, next, end, value);
        Pass(text, out, pos, at, next, todo);
        at := next;
      } else {
        var from := at + |slot.prefix|;
        var to := from + m.value;
        var next := to + |slot.suffix|;
        HitFrom(text, slot, at, end, value, m.value, from, to, next);
        todo := Rewritten(text, slot, next, end, value);
        Turn(text, out, pos, at, from, to, next, value, todo);
        out := out + text[pos..from] + value;
        pos := to;
        at := next;
      }
    }
    assert text[at..end] == "";
    assert todo == "";
    out := out + text[pos..end];
  }

  /** `slot_replace`. */
  method SlotReplace(text: string, slot: Slot, value: string) returns (r: Result<string, Error>)
    ensures r == SlotReplaced(text, slot, value)
  {
    var region := Region(text, slot.scope);
    if region.Err? {
      return Err(region.error);
    }
    var out := ReplaceIn(slot, text, region.value.start, region.value.end, value);
    r := Ok(Spliced(text, region.value.start, region.value.end, out));
  }
}
