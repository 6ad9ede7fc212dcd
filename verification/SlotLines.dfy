/** Two rows of the INSTALL.md table on one line: the match of the second goes over the capture of
    the first, and still each is laid out in the line. */
module SlotLines {
  import opened SlotLayout
  import opened SlotFits
  import opened SlotRows

  /** A line that holds both rows: between their captures, the first one's suffix and `between`. */
  function SharedLine(a: Row, b: Row, filling: string, v: string, between: string, w: string, tail: string,
                      i: nat, j: nat): Layout {
    Cells(a.head) + (Cells(filling) + (Cells(a.mid)
      + ([Hole(i, v)] + (Cells(a.suffix) + Onward(b, between, w, tail, j)))))
  }

  function Onward(b: Row, between: string, w: string, tail: string, j: nat): Layout {
    Cells(between) + ([Hole(j, w)] + (Cells(b.suffix) + Cells(tail)))
  }

  lemma {:induction false} QuietInLine(h: string, d: Layout, n: nat)
    requires n <= |d| && forall k :: 0 <= k < n ==> d[k] != Keep('\n')
    ensures Quiet(h, false, d, n)
    decreases n
  {
    if n > 0 {
      forall k | 0 <= k < n - 1 ensures d[1..][k] != Keep('\n') { assert d[1..][k] == d[k + 1]; }
      QuietInLine(h, d[1..], n - 1);
    }
  }

  lemma {:induction false} CellsFree(s: string, c: char)
    requires c !in s
    ensures Keep(c) !in Cells(s) && c !in Text(Cells(s)) && NotOnLine(c, Cells(s))
    decreases |s|
  {
    if s != "" { CellsFree(s[1..], c); }
  }

  lemma {:induction false} CellsConcat(a: string, b: string)
    ensures Cells(a + b) == Cells(a) + Cells(b)
    decreases |a|
  {
    if a == "" {
      assert a + b == b;
    } else {
      assert (a + b)[1..] == a[1..] + b;
      CellsConcat(a[1..], b);
    }
  }

  lemma NoHoleConcat(a: Layout, b: Layout, i: nat)
    requires NoHole(a, i) && NoHole(b, i)
    ensures NoHole(a + b, i)
  {
  }

  lemma NoLineEndConcat(a: Layout, b: Layout)
    requires Keep('\n') !in a && Keep('\n') !in b
    ensures Keep('\n') !in a + b
  {
  }

  /** Two rows that have a head in common and fit on one line around `between`. */
  predicate ShareLine(a: Row, b: Row, filling: string, between: string, gap: string, tail: string) {
    && Regular(a) && a.filler.UpToBar? && !a.lineEnd && Regular(b) && b.filler.OnLine? && !b.lineEnd && a.head == b.head
    && a.suffix + between == gap + b.mid && '|' !in filling && b.mid[0] !in tail
    && '\n' !in filling && '\n' !in between && '\n' !in gap && '\n' !in tail
  }

  lemma OnwardMeans(b: Row, between: string, w: string, tail: string, i: nat, j: nat)
    requires i != j && Clean(w) && '\n' !in between && '\n' !in b.suffix && '\n' !in tail
    ensures NoHole(Onward(b, between, w, tail, j), i) && Keep('\n') !in Onward(b, between, w, tail, j)
  {
    var hole, end := [Hole(j, w)], Cells(b.suffix) + Cells(tail);
    CellsFree(between, '\n');
    CellsFree(b.suffix, '\n');
    CellsFree(tail, '\n');
    NoHoleConcat(Cells(b.suffix), Cells(tail), i);
    NoHoleConcat(hole, end, i);
    NoHoleConcat(Cells(between), hole + end, i);
    NoLineEndConcat(Cells(b.suffix), Cells(tail));
    NoLineEndConcat(hole, end);
    NoLineEndConcat(Cells(between), hole + end);
  }

  lemma FirstRowLaid(a: Row, b: Row, filling: string, v: string, between: string, gap: string, w: string, tail: string,
                     i: nat, j: nat, p: Parts)
    requires ShareLine(a, b, filling, between, gap, tail) && i != j && Clean(v) && Clean(w)
    requires p == Parts([], Cells(filling), v, Onward(b, between, w, tail, j))
    ensures Laid(a, i, p) && Whole(a, i, p) == SharedLine(a, b, filling, v, between, w, tail, i, j)
  {
    RegularMeans(b);
    OnwardMeans(b, between, w, tail, i, j);
    QuietInLine(a.head, p.after, |p.after|);
    CellsFree(filling, '|');
  }

  /** What precedes the second row's `mid` on the line, the first row's capture included. */
  function SecondFilling(a: Row, filling: string, v: string, gap: string, i: nat): Layout {
    Cells(filling) + (Cells(a.mid) + ([Hole(i, v)] + Cells(gap)))
  }

  lemma SecondFillingMeans(a: Row, filling: string, v: string, gap: string, i: nat, j: nat)
    requires i != j && Clean(v) && '\n' !in filling && '\n' !in a.mid && '\n' !in gap
    ensures NoHole(SecondFilling(a, filling, v, gap, i), j) && '\n' !in Text(SecondFilling(a, filling, v, gap, i))
  {
    var hole := [Hole(i, v)];
    NoHoleConcat(hole, Cells(gap), j);
    NoHoleConcat(Cells(a.mid), hole + Cells(gap), j);
    NoHoleConcat(Cells(filling), Cells(a.mid) + (hole + Cells(gap)), j);
    TextConcat(hole, Cells(gap));
    TextConcat(Cells(a.mid), hole + Cells(gap));
    TextConcat(Cells(filling), Cells(a.mid) + (hole + Cells(gap)));
    CellsText(filling);
    CellsText(a.mid);
    CellsText(gap);
    assert Text(hole) == v + Text([]) == v;
  }

  lemma Regrouped(a: Layout, b: Layout, c: Layout, h: Layout, x: Layout, y: Layout, x': Layout, y': Layout, z: Layout)
    requires x + y == x' + y'
    ensures a + (b + (c + (h + (x + (y + z))))) == a + ((b + (c + (h + x'))) + (y' + z))
  {
    assert x + (y + z) == (x + y) + z == x' + (y' + z);
    assert a + (b + (c + (h + (x + (y + z))))) == a + b + c + h + (x + (y + z));
    assert a + ((b + (c + (h + x'))) + (y' + z)) == a + b + c + h + (x' + (y' + z));
  }

  lemma SecondRowLaid(a: Row, b: Row, filling: string, v: string, between: string, gap: string, w: string, tail: string,
                      i: nat, j: nat, p: Parts)
    requires ShareLine(a, b, filling, between, gap, tail) && i != j && Clean(v) && Clean(w)
    requires p == Parts([], SecondFilling(a, filling, v, gap, i), w, Cells(tail))
    ensures Laid(b, j, p) && Whole(b, j, p) == SharedLine(a, b, filling, v, between, w, tail, i, j)
  {
    RegularMeans(a);
    SecondFillingMeans(a, filling, v, gap, i, j);
    CellsFree(tail, '\n');
    CellsFree(tail, b.mid[0]);
    QuietInLine(b.head, p.after, |p.after|);
    CellsConcat(a.suffix, between);
    CellsConcat(gap, b.mid);
    Regrouped(Cells(a.head), Cells(filling), Cells(a.mid), [Hole(i, v)], Cells(a.suffix), Cells(between),
              Cells(gap), Cells(b.mid), [Hole(j, w)] + (Cells(b.suffix) + Cells(tail)));
  }

  /** Both rows are laid out in the line they share, the first one's capture within the match of
      the second, whatever versions they hold. */
  lemma RowsShareLine(a: Row, b: Row, filling: string, v: string, between: string, gap: string, w: string, tail: string,
                      i: nat, j: nat)
    requires ShareLine(a, b, filling, between, gap, tail) && i != j && Clean(v) && Clean(w)
    ensures var d := SharedLine(a, b, filling, v, between, w, tail, i, j);
      (exists p :: Laid(a, i, p) && Whole(a, i, p) == d) && (exists p :: Laid(b, j, p) && Whole(b, j, p) == d)
  {
    FirstRowLaid(a, b, filling, v, between, gap, w, tail, i, j,
                 Parts([], Cells(filling), v, Onward(b, between, w, tail, j)));
    SecondRowLaid(a, b, filling, v, between, gap, w, tail, i, j,
                  Parts([], SecondFilling(a, filling, v, gap, i), w, Cells(tail)));
  }

  /** The two Bindings rows share the line `| Bindings |..| `v` (PyPI spells it `w`) |`. */
  lemma BindingsShareLine(filling: string)
    requires '|' !in filling && '\n' !in filling
    ensures ShareLine(BINDINGS_ROW, BINDINGS_PEP_ROW, filling, " spells it `", "` ", " |")
  {
    RowsAreRegular();
    assert "` (PyPI" + " spells it `" == "` " + "(PyPI spells it `";
    assert forall c <- " spells it `" :: c != '\n';
  }
}
