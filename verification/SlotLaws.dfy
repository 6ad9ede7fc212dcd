/** Laws of whole-text version slots: the region a slot looks at is found again after a
    rewrite, so the laws proved inside a region hold of the text. */
module SlotLaws {
  import opened Wrappers
  import opened Slots
  import opened SlotReading
  import opened SlotRegions

  // ---------------------------------------------------------------- what a rewrite keeps of its region

  lemma EndsLineConcat(a: string, b: string)
    ensures EndsLine(a + b) == if b == "" then EndsLine(a) else EndsLine(b)
  {
    if b == "" { assert a + b == a; }
  }

  /** Whether the region ends a line. */
  lemma {:induction false} KeepsLineEnd(slot: Slot, bol: bool, s: string, value: string)
    requires WellFormed(slot) && Writable(slot, value)
    ensures EndsLine(Replace(slot, bol, s, value)) == EndsLine(s)
    decreases |s|
  {
    if s != "" {
      var next := Next(slot, bol, s);
      var after := Replace(slot, next.line, next.rest, value);
      NextSplits(slot, bol, s);
      KeepsLineEnd(slot, next.line, next.rest, value);
      ReplaceHead(slot, next.line, next.rest, value);
      if next.Skip? {
        EndsLineConcat([next.c], next.rest);
        EndsLineConcat([next.c], after);
      } else {
        HitCapture(slot, bol, s);
        FilledLineEnd(slot, next.capture, next.rest);
        FilledLineEnd(slot, value, after);
      }
    }
  }

  lemma FilledLineEnd(slot: Slot, value: string, after: string)
    requires WellFormed(slot) && value != "" && (forall c <- value :: In(slot.captured, c))
    ensures EndsLine(Filled(slot, value, after))
         == if after != "" then EndsLine(after) else slot.suffix != "" && EndsLine(slot.suffix)
  {
    EndsLineConcat(slot.suffix, after);
    EndsLineConcat(slot.prefix + value, slot.suffix + after);
    EndsLineConcat(slot.prefix, value);
    assert value[|value| - 1] in value;
  }

  /** A capture is made of the class's characters. */
  lemma HitCapture(slot: Slot, bol: bool, s: string)
    requires s != "" && Next(slot, bol, s).Hit?
    ensures var capture := Next(slot, bol, s).capture; capture != "" && forall c <- capture :: In(slot.captured, c)
  {
    var p := |slot.prefix|;
    RunEndMeans(slot.captured, s, p);
    var capture := Next(slot, bol, s).capture;
    forall k | 0 <= k < |capture| ensures In(slot.captured, capture[k]) {
      assert capture[k] == s[p + k];
    }
  }

  /** No line in s but the first starts with `[`. */
  ghost predicate NoTable(s: string) {
    forall k :: !OpensInside(s, k)
  }

  predicate OpensInside(s: string, k: int) { 0 < k < |s| && s[k - 1] == '\n' && s[k] == '[' }

  lemma NoTableConcat(a: string, b: string)
    ensures NoTable(a + b) <==> NoTable(a) && NoTable(b) && !(EndsLine(a) && b != "" && b[0] == '[')
  {
    var s := a + b;
    if NoTable(s) {
      forall k ensures !OpensInside(a, k) { assert !OpensInside(s, k); }
      forall k ensures !OpensInside(b, k) {
        var j := |a| + k;
        assert !OpensInside(s, j);
        assert 0 < k < |b| ==> s[j] == b[k] && s[j - 1] == b[k - 1];
      }
      assert !OpensInside(s, |a|);
    }
    if NoTable(a) && NoTable(b) && !(EndsLine(a) && b != "" && b[0] == '[') {
      forall k ensures !OpensInside(s, k) {
        assert !OpensInside(a, k);
        var j := k - |a|;
        assert !OpensInside(b, j);
        assert 0 < j < |b| ==> s[k] == b[j] && s[k - 1] == b[j - 1];
      }
    }
  }

  lemma FilledNoTable(slot: Slot, value: string, after: string)
    requires WellFormed(slot) && slot.scope.Table? && value != "" && EndsLine(value) == false && NoTable(value)
    ensures NoTable(Filled(slot, value, after)) <==> NoTable(slot.prefix) && NoTable(slot.suffix + after)
  {
    NoTableConcat(slot.prefix, value);
    EndsLineConcat(slot.prefix, value);
    NoTableConcat(slot.prefix + value, slot.suffix + after);
  }

  /** No table starts inside the rewritten region. */
  lemma {:induction false} KeepsNoTable(slot: Slot, bol: bool, s: string, value: string)
    requires WellFormed(slot) && Writable(slot, value) && slot.scope.Table? && NoTable(s)
    ensures NoTable(Replace(slot, bol, s, value))
    decreases |s|
  {
    if s != "" {
      var next := Next(slot, bol, s);
      var after := Replace(slot, next.line, next.rest, value);
      NextSplits(slot, bol, s);
      ReplaceHead(slot, next.line, next.rest, value);
      if next.Skip? {
        NoTableConcat([next.c], next.rest);
        KeepsNoTable(slot, next.line, next.rest, value);
        NoTableConcat([next.c], after);
      } else {
        var p, c, end := slot.prefix, next.capture, slot.suffix;
        NoTableConcat(p + c, end + next.rest);
        NoTableConcat(p, c);
        NoTableConcat(end, next.rest);
        KeepsNoTable(slot, next.line, next.rest, value);
        NoTableConcat(end, after);
        Plain(value);
        FilledNoTable(slot, value, after);
      }
    }
  }

  lemma Plain(value: string)
    requires '\n' !in value
    ensures NoTable(value) && EndsLine(value) == false
  {
  }

  /** A rewrite brings in no newline. */
  lemma {:induction false} KeepsOneLine(slot: Slot, bol: bool, s: string, value: string)
    requires WellFormed(slot) && Writable(slot, value) && '\n' !in value && '\n' !in s
    ensures '\n' !in Replace(slot, bol, s, value)
    decreases |s|
  {
    if s != "" {
      var next := Next(slot, bol, s);
      NextSplits(slot, bol, s);
      KeepsOneLine(slot, next.line, next.rest, value);
    }
  }

  // ---------------------------------------------------------------- what a table's region is

  predicate LineEndsAt(text: string, j: nat, e: nat) {
    j <= e <= |text| && (forall k :: j <= k < e ==> Space(text[k])) && (e == |text| || text[e] == '\n')
  }

  /** A line at h holds the header and, up to the line end at e, spaces. */
  predicate IsHeader(text: string, header: string, h: nat, e: nat) {
    var j := h + |header|;
    j <= |text| && (h == 0 || text[h - 1] == '\n') && text[h..j] == header && LineEndsAt(text, j, e)
  }

  /** `\s*$` ends at the last line end that only spaces precede. */
  lemma {:induction false} SpacesMean(text: string, j: nat)
    requires j <= |text|
    ensures match SpacesToLineEnd(text, j)
            case None => forall e: nat :: !LineEndsAt(text, j, e)
            case Some(last) => LineEndsAt(text, j, last) && forall e: nat :: LineEndsAt(text, j, e) ==> e <= last
    decreases |text| - j
  {
    if j < |text| && Space(text[j]) {
      var next := j + 1;
      SpacesMean(text, next);
      forall e: nat ensures LineEndsAt(text, j, e) <==> LineEndsAt(text, next, e) || (e == j && text[j] == '\n') { }
    }
  }

  ghost predicate FirstHeader(text: string, header: string, i: nat, h: nat, end: nat) {
    && i <= h && IsHeader(text, header, h, end)
    && forall h': nat, e: nat :: i <= h' && IsHeader(text, header, h', e) ==> h <= h'
  }

  lemma HeaderAtMeans(text: string, header: string, h: nat, e: nat)
    requires h <= |text|
    ensures HeaderAt(text, header, h).None? ==> !IsHeader(text, header, h, e)
    ensures HeaderAt(text, header, h) == Some(e) ==> IsHeader(text, header, h, e)
  {
    var j := h + |header|;
    if j <= |text| { SpacesMean(text, j); }
  }

  /** The header found is the first one, and none is missed. */
  lemma {:induction false} FindHeaderMeans(text: string, header: string, i: nat)
    requires i <= |text|
    ensures match FindHeader(text, header, i)
            case None => forall h: nat, e: nat :: i <= h ==> !IsHeader(text, header, h, e)
            case Some(end) => exists h: nat :: FirstHeader(text, header, i, h, end)
    decreases |text| - i
  {
    var here := HeaderAt(text, header, i);
    if here.Some? {
      HeaderAtMeans(text, header, i, here.value);
      assert FindHeader(text, header, i) == here;
      assert FirstHeader(text, header, i, i, here.value);
    } else if i == |text| {
      forall h: nat, e: nat | i <= h ensures !IsHeader(text, header, h, e) {
        if h == i { HeaderAtMeans(text, header, h, e); }
      }
    } else {
      var next := i + 1;
      FindHeaderMeans(text, header, next);
      forall e: nat ensures !IsHeader(text, header, i, e) { HeaderAtMeans(text, header, i, e); }
      HeaderLater(text, header, i, next);
      var found := FindHeader(text, header, next);
      assert FindHeader(text, header, i) == found;
      if found.Some? {
        var h: nat :| FirstHeader(text, header, next, h, found.value);
        assert FirstHeader(text, header, i, h, found.value);
      }
    }
  }

  /** A search from the next place on serves, if there is no header here. */
  lemma HeaderLater(text: string, header: string, i: nat, next: nat)
    requires next == i + 1 && forall e: nat :: !IsHeader(text, header, i, e)
    ensures forall h: nat, end: nat :: FirstHeader(text, header, next, h, end) ==> FirstHeader(text, header, i, h, end)
    ensures (forall h: nat, e: nat :: next <= h ==> !IsHeader(text, header, h, e))
        ==> forall h: nat, e: nat :: i <= h ==> !IsHeader(text, header, h, e)
  {
    if forall h: nat, e: nat :: next <= h ==> !IsHeader(text, header, h, e) {
      forall h: nat, e: nat | i <= h ensures !IsHeader(text, header, h, e) {
        assert h == i || next <= h;
      }
    }
  }

  lemma {:induction false} NextTableMeans(s: string, start: nat, k: nat)
    requires start <= k <= |s|
    ensures var e := NextTable(s, start, k);
      && (forall m :: k <= m < e ==> s[m] != '[' || (m > start && s[m - 1] != '\n'))
      && (e < |s| ==> s[e] == '[' && (e == start || s[e - 1] == '\n'))
    decreases |s| - k
  {
    if k < |s| && !OpensTable(s, start, k) { NextTableMeans(s, start, k + 1); }
  }

  /** A table's region is found exactly if the text has its header; it goes from the end of
      the first such header's line to the next line that opens a table, or to the end. */
  lemma TableRegionMeans(text: string, name: string)
    ensures Region(text, Table(name)).Err? <==> forall h: nat, e: nat :: !IsHeader(text, "[" + name + "]", h, e)
    ensures Region(text, Table(name)).Ok? ==>
      var start, end := Region(text, Table(name)).value.start, Region(text, Table(name)).value.end;
      && (exists h: nat :: FirstHeader(text, "[" + name + "]", 0, h, start))
      && (forall m :: start < m < end ==> text[m] != '[' || text[m - 1] != '\n')
      && (end < |text| ==> text[end] == '[' && (end == start || text[end - 1] == '\n'))
  {
    FindHeaderMeans(text, "[" + name + "]", 0);
    if Region(text, Table(name)).Ok? {
      var start := Region(text, Table(name)).value.start;
      NextTableMeans(text, start, start);
    }
  }

  /** The first line goes up to the first newline, or to the end. */
  lemma FirstLineMeans(text: string, e: nat)
    ensures Region(text, FirstLine) == Ok(Span(0, e))
      <==> e <= |text| && '\n' !in text[..e] && (e < |text| ==> text[e] == '\n')
  {
    LineEndMeans(text, 0);
    var end := LineEnd(text, 0);
    assert '\n' !in text[..end];
    if e <= |text| && '\n' !in text[..e] && (e < |text| ==> text[e] == '\n') {
      forall m | 0 <= m < e ensures text[m] != '\n' { assert text[..e][m] == text[m]; }
      LineEndIs(text, 0, e);
    }
  }

  // ---------------------------------------------------------------- the region is found again

  /** Two texts agree up to and at b. */
  ghost predicate AgreeTo(s: string, t: string, b: nat) {
    b < |s| && b < |t| && forall k :: 0 <= k <= b ==> s[k] == t[k]
  }

  lemma {:induction false} SameSpaces(s: string, t: string, j: nat, b: nat)
    requires j <= b && AgreeTo(s, t, b) && !Space(s[b])
    ensures SpacesToLineEnd(s, j) == SpacesToLineEnd(t, j)
    decreases b - j
  {
    if j < b { SameSpaces(s, t, j + 1, b); }
  }

  lemma SameHeader(s: string, t: string, header: string, i: nat, b: nat)
    requires i + |header| <= b && AgreeTo(s, t, b) && !Space(s[b])
    ensures HeaderAt(s, header, i) == HeaderAt(t, header, i)
  {
    var j := i + |header|;
    assert s[i..j] == t[i..j];
    SameSpaces(s, t, j, b);
  }

  /** A header that ends before a character other than a space is found in any text that
      agrees up to there. */
  lemma {:induction false} SameFind(s: string, t: string, header: string, i: nat, b: nat)
    requires AgreeTo(s, t, b) && !Space(s[b]) && i <= |s| && i <= |t|
    requires FindHeader(s, header, i).Some? && FindHeader(s, header, i).value <= b
    ensures FindHeader(t, header, i) == FindHeader(s, header, i)
    decreases |s| - i
  {
    SameHeader(s, t, header, i, b);
    if HeaderAt(s, header, i).None? {
      SameFind(s, t, header, i + 1, b);
    }
  }

  lemma {:induction false} NextTableIs(s: string, start: nat, k: nat, e: nat)
    requires start <= k <= e <= |s|
    requires (forall m :: k <= m < e ==> !OpensTable(s, start, m)) && (e == |s| || OpensTable(s, start, e))
    ensures NextTable(s, start, k) == e
    decreases e - k
  {
    if k < e { NextTableIs(s, start, k + 1, e); }
  }

  lemma SplicedSame(text: string, start: nat, end: nat)
    requires start <= end <= |text|
    ensures Spliced(text, start, end, text[start..end]) == text
  {
  }

  lemma OpensBelow(text: string, start: nat, end: nat, body: string, k: int)
    requires start <= end <= |text| && body == text[start..end]
    ensures OpensInside(body, k) ==> start + k < end && OpensTable(text, start, start + k)
  {
  }

  /** What a table region holds: no line of it opens a table. */
  lemma TableBody(text: string, start: nat, end: nat, body: string)
    requires start <= end <= |text| && NextTable(text, start, start) == end && body == text[start..end]
    ensures NoTable(body) && (body != "" ==> body[0] != '[')
  {
    NextTableMeans(text, start, start);
    forall k ensures !OpensInside(body, k) { OpensBelow(text, start, end, body, k); }
    assert body != "" ==> !OpensTable(text, start, start);
  }

  /** Any body without a table in it, ending its line as the old one did, is found as one. */
  lemma TableBodyStays(text: string, start: nat, end: nat, body: string, stop: nat)
    requires start <= end <= |text| && NextTable(text, start, start) == end && stop == start + |body|
    requires NoTable(body) && (body != "" ==> body[0] != '[') && (body == "" <==> start == end)
    requires EndsLine(body) == EndsLine(text[start..end])
    ensures NextTable(Spliced(text, start, end, body), start, start) == stop
  {
    var t := Spliced(text, start, end, body);
    NextTableMeans(text, start, start);
    forall m | start <= m < stop ensures !OpensTable(t, start, m) {
      var k := m - start;
      assert t[m] == body[k];
      assert k > 0 ==> t[m - 1] == body[k - 1];
      assert !OpensInside(body, k);
    }
    if end < |text| {
      assert t[stop] == text[end];
      assert stop > start ==> t[stop - 1] == body[|body| - 1];
    }
    NextTableIs(t, start, start, stop);
  }

  lemma SplicedAgrees(text: string, start: nat, end: nat, part: string, f: nat, b: nat)
    requires start <= end <= |text| && 0 < f <= |part| && f <= end - start && b == start + f - 1
    requires text[start..end][..f] == part[..f]
    ensures AgreeTo(text, Spliced(text, start, end, part), b) && text[b] == text[start..end][f - 1]
  {
    var t, s := Spliced(text, start, end, part), text[start..end];
    forall k | 0 <= k <= b ensures text[k] == t[k] {
      var i := k - start;
      if i >= 0 {
        assert s[..f][i] == part[..f][i];
        assert t[k] == part[i] && text[k] == s[i];
      }
    }
  }

  /** A table's header is found at the same place after a rewrite of its body. */
  lemma HeaderStays(text: string, slot: Slot, start: nat, end: nat, value: string)
    requires WellFormed(slot) && Writable(slot, value) && slot.scope.Table?
    requires Region(text, slot.scope) == Ok(Span(start, end))
    ensures var header := "[" + slot.scope.name + "]";
      FindHeader(Spliced(text, start, end, Rewritten(text, slot, start, end, value)), header, 0)
      == FindHeader(text, header, 0)
  {
    var body, header := text[start..end], "[" + slot.scope.name + "]";
    var r := Rewritten(text, slot, start, end, value);
    var first := FirstMatch(slot, BeginsLine(text, start), body, value);
    if first.None? {
      SplicedSame(text, start, end);
    } else {
      var f := first.value + |slot.prefix|;
      var b := start + f - 1;
      FirstPrefix(slot, BeginsLine(text, start), body, r, first.value, value, f);
      SplicedAgrees(text, start, end, r, f, b);
      SameFind(text, Spliced(text, start, end, r), header, 0, b);
    }
  }

  lemma FirstPrefix(slot: Slot, bol: bool, s: string, t: string, j: nat, value: string, f: nat)
    requires slot.prefix != "" && FirstAt(slot, bol, s, t, j, value) && f == j + |slot.prefix|
    ensures s[f - 1] == slot.prefix[|slot.prefix| - 1]
  {
    MatchesAtMeans(slot, bol, s, j);
    assert s[f - 1] == s[j..f][|slot.prefix| - 1];
  }

  lemma {:induction false} LineEndMeans(s: string, k: nat)
    requires k <= |s|
    ensures var e := LineEnd(s, k); (forall m :: k <= m < e ==> s[m] != '\n') && (e == |s| || s[e] == '\n')
    decreases |s| - k
  {
    if k < |s| && s[k] != '\n' { LineEndMeans(s, k + 1); }
  }

  lemma {:induction false} LineEndIs(s: string, k: nat, e: nat)
    requires k <= e <= |s| && (forall m :: k <= m < e ==> s[m] != '\n') && (e == |s| || s[e] == '\n')
    ensures LineEnd(s, k) == e
    decreases e - k
  {
    if k < e { LineEndIs(s, k + 1, e); }
  }

  lemma FirstLineStays(text: string, end: nat, line: string)
    requires end == LineEnd(text, 0) && '\n' !in line
    ensures LineEnd(Spliced(text, 0, end, line), 0) == |line|
  {
    var t := Spliced(text, 0, end, line);
    LineEndMeans(text, 0);
    assert forall m :: 0 <= m < |line| ==> t[m] == line[m];
    assert end < |text| ==> t[|line|] == text[end];
    LineEndIs(t, 0, |line|);
  }

  lemma TableStays(text: string, slot: Slot, start: nat, end: nat, value: string, stop: nat)
    requires WellFormed(slot) && Writable(slot, value) && slot.scope.Table?
    requires start <= end <= |text| && NextTable(text, start, start) == end
    requires stop == start + |Rewritten(text, slot, start, end, value)|
    ensures NextTable(Spliced(text, start, end, Rewritten(text, slot, start, end, value)), start, start) == stop
  {
    var body, bol := text[start..end], BeginsLine(text, start);
    TableBody(text, start, end, body);
    ReplaceHead(slot, bol, body, value);
    KeepsNoTable(slot, bol, body, value);
    KeepsLineEnd(slot, bol, body, value);
    TableBodyStays(text, start, end, Replace(slot, bol, body, value), stop);
  }

  /** The region of the rewritten text is what the region was rewritten to. */
  lemma RegionStays(text: string, slot: Slot, start: nat, end: nat, value: string)
    requires WellFormed(slot) && Writable(slot, value) && Region(text, slot.scope) == Ok(Span(start, end))
    ensures var r := Rewritten(text, slot, start, end, value);
      Region(Spliced(text, start, end, r), slot.scope) == Ok(Span(start, start + |r|))
  {
    match slot.scope
    case WholeText =>
    case FirstLine =>
      LineEndMeans(text, 0);
      KeepsOneLine(slot, BeginsLine(text, start), text[start..end], value);
      FirstLineStays(text, end, Rewritten(text, slot, start, end, value));
    case Table(name) =>
      HeaderStays(text, slot, start, end, value);
      TableStays(text, slot, start, end, value, start + |Rewritten(text, slot, start, end, value)|);
  }

  lemma SplicedPart(text: string, start: nat, end: nat, part: string)
    requires start <= end <= |text|
    ensures var t := Spliced(text, start, end, part);
      t[start..start + |part|] == part && BeginsLine(t, start) == BeginsLine(text, start)
  {
  }

  // ---------------------------------------------------------------- the laws

  /** Reading a text after a rewrite gives the new value, at as many places as before. */
  lemma PutThenGet(text: string, slot: Slot, value: string)
    requires WellFormed(slot) && Writable(slot, value) && !Breakable(slot, value) && SlotValues(text, slot).Ok?
    ensures SlotReplaced(text, slot, value).Ok?
    ensures SlotValues(SlotReplaced(text, slot, value).value, slot) == Ok(Same(SlotValues(text, slot).value, value))
  {
    var start, end := Region(text, slot.scope).value.start, Region(text, slot.scope).value.end;
    var r := Rewritten(text, slot, start, end, value);
    RegionStays(text, slot, start, end, value);
    SplicedPart(text, start, end, r);
    GetPut(slot, BeginsLine(text, start), text[start..end], value);
  }

  /** Rewriting a text with the value it already has everywhere changes nothing. */
  lemma GetThenPut(text: string, slot: Slot, value: string)
    requires SlotValues(text, slot).Ok? && forall v <- SlotValues(text, slot).value :: v == value
    ensures SlotReplaced(text, slot, value) == Ok(text)
  {
    var start, end := Region(text, slot.scope).value.start, Region(text, slot.scope).value.end;
    PutGet(slot, BeginsLine(text, start), text[start..end], value);
    SplicedSame(text, start, end);
  }

  /** The last of two rewrites wins. */
  lemma PutTwice(text: string, slot: Slot, first: string, second: string)
    requires WellFormed(slot) && Writable(slot, first) && !Breakable(slot, first) && SlotValues(text, slot).Ok?
    ensures SlotReplaced(text, slot, first).Ok?
    ensures SlotReplaced(SlotReplaced(text, slot, first).value, slot, second) == SlotReplaced(text, slot, second)
  {
    var start, end := Region(text, slot.scope).value.start, Region(text, slot.scope).value.end;
    var bol, body := BeginsLine(text, start), text[start..end];
    var r := Rewritten(text, slot, start, end, first);
    var t := Spliced(text, start, end, r);
    RegionStays(text, slot, start, end, first);
    SplicedPart(text, start, end, r);
    ReplaceTwice(slot, bol, body, first, second);
    assert t[..start] == text[..start] && t[start + |r|..] == text[end..];
  }

  lemma {:induction false} ReplaceTwice(slot: Slot, bol: bool, s: string, first: string, second: string)
    requires WellFormed(slot) && Writable(slot, first) && !Breakable(slot, first)
    ensures Replace(slot, bol, Replace(slot, bol, s, first), second) == Replace(slot, bol, s, second)
    decreases |s|
  {
    if s != "" {
      var next := Next(slot, bol, s);
      ReplaceTwice(slot, next.line, next.rest, first, second);
      if next.Hit? {
        MatchStays(slot, bol, s, first);
      } else {
        NoNewMatch(slot, bol, s, first);
        var t := Replace(slot, bol, s, first);
        assert t[1..] == Replace(slot, next.line, next.rest, first);
      }
    }
  }

  /** Only the captures inside the region change: the texts share everything between them. */
  lemma OnlyCapturesChange(text: string, slot: Slot, value: string) returns (gaps: seq<string>)
    requires SlotValues(text, slot).Ok?
    ensures SlotReplaced(text, slot, value).Ok?
    ensures |gaps| == |SlotValues(text, slot).value| + 1
    ensures Interleave(gaps, SlotValues(text, slot).value) == text
    ensures Interleave(gaps, Same(SlotValues(text, slot).value, value)) == SlotReplaced(text, slot, value).value
  {
    var start, end := Region(text, slot.scope).value.start, Region(text, slot.scope).value.end;
    var bol, body := BeginsLine(text, start), text[start..end];
    var values := Values(slot, bol, body);
    gaps := Gaps(slot, bol, body);
    GapsAndValues(slot, bol, body);
    ReplaceKeepsGaps(slot, bol, body, value);
    ghost var outer := Wrapped(text[..start], gaps, text[end..]);
    WrappedMeans(text[..start], gaps, text[end..], values);
    WrappedMeans(text[..start], gaps, text[end..], Same(values, value));
    SplicedSame(text, start, end);
    gaps := outer;
  }

  /** The gaps with more text before the first and after the last. */
  function Wrapped(before: string, gaps: seq<string>, after: string): (r: seq<string>)
    requires gaps != []
    ensures |r| == |gaps|
  {
    var g := [before + gaps[0]] + gaps[1..];
    g[..|g| - 1] + [g[|g| - 1] + after]
  }

  lemma WrappedMeans(before: string, gaps: seq<string>, after: string, values: seq<string>)
    requires |gaps| == |values| + 1
    ensures Interleave(Wrapped(before, gaps, after), values) == before + Interleave(gaps, values) + after
  {
    InterleaveFirst(before, gaps, values);
    InterleaveLast([before + gaps[0]] + gaps[1..], values, after);
  }

  lemma {:induction false} InterleaveLast(gaps: seq<string>, values: seq<string>, z: string)
    requires |gaps| == |values| + 1
    ensures Interleave(gaps[..|gaps| - 1] + [gaps[|gaps| - 1] + z], values) == Interleave(gaps, values) + z
    decreases |values|
  {
    var last := |gaps| - 1;
    var g := gaps[..last] + [gaps[last] + z];
    if values == [] {
      assert g == [gaps[0] + z];
    } else {
      InterleaveLast(gaps[1..], values[1..], z);
      assert g[1..] == gaps[1..][..last - 1] + [gaps[1..][last - 1] + z];
    }
  }
}
