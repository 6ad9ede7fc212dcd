/** When a rewritten slot is not read back: the exact condition on slot and value. */
module SlotBreaks {
  import opened Slots
  import opened SlotReading

  /** The text that breaks: a confusing opening, with a capture of one character that the
      suffix does not have. */
  function Broken(slot: Slot, x: string, k: nat, y: char): string
    requires k <= |slot.suffix|
  {
    Opening(slot, x, k) + ([y] + slot.suffix)
  }

  lemma BrokenParts(slot: Slot, x: string, k: nat, tail: string, s: string, e: nat, f: nat)
    requires k <= |slot.suffix| && s == Opening(slot, x, k) + tail && e == |slot.prefix| + |x| && f == e + k
    ensures f <= |s| && s[..|slot.prefix|] == slot.prefix && s[|slot.prefix|..e] == x && s[e..f] == slot.suffix[..k]
    ensures s[..f] == Opening(slot, x, k) && s[f..] == tail
  {
  }

  lemma RunOfBroken(slot: Slot, x: string, k: nat, s: string, e: nat, f: nat, p: nat)
    requires WellFormed(slot) && 0 < k < |slot.suffix| && InClass(slot, x)
    requires |slot.prefix| <= p <= e < f <= |s| && f == e + k
    requires s[|slot.prefix|..e] == x && s[e..f] == slot.suffix[..k]
    ensures RunEnd(slot.captured, s, p) == e
  {
    forall i | p <= i < e ensures In(slot.captured, s[i]) { assert s[i] == x[i - |slot.prefix|]; }
    assert s[e] == s[e..f][0] == slot.suffix[0];
    RunEndIs(slot.captured, s, p, e);
  }

  lemma NoneBefore(slot: Slot, x: string, k: nat, y: char, q: nat)
    requires WellFormed(slot) && Confusing(slot, x, k) && y !in slot.suffix
    requires q + |slot.prefix| < |Opening(slot, x, k)|
    ensures !Stands(slot, true, Broken(slot, x, k, y), q)
  {
    var s, e, tail := Broken(slot, x, k, y), |slot.prefix| + |x|, [y] + slot.suffix;
    var f := e + k;
    BrokenParts(slot, x, k, tail, s, e, f);
    assert s[f] == s[f..][0] == y;
    NoneAt(slot, x, k, s, q, q + |slot.prefix|, e, f);
  }

  lemma NoneAt(slot: Slot, x: string, k: nat, s: string, q: nat, p: nat, e: nat, f: nat)
    requires WellFormed(slot) && Confusing(slot, x, k) && p == q + |slot.prefix| < f < |s| && s[f] !in slot.suffix
    requires e == |slot.prefix| + |x| && f == e + k
    requires s[..|slot.prefix|] == slot.prefix && s[|slot.prefix|..e] == x && s[e..f] == slot.suffix[..k]
    ensures !Stands(slot, true, s, q)
  {
    if Stands(slot, true, s, q) {
      if p <= e {
        RunOfBroken(slot, x, k, s, e, f, p);
      } else {
        CutBefore(slot, x, k, s, q, p, e, f, p - e);
      }
      InSuffix(slot, s, RunEnd(slot.captured, s, p), f);
    }
  }

  lemma CutBefore(slot: Slot, x: string, k: nat, s: string, q: nat, p: nat, e: nat, f: nat, i: nat)
    requires Confusing(slot, x, k) && p == q + |slot.prefix| == e + i && e == |slot.prefix| + |x| && f == e + k <= |s|
    requires 0 < i < k && Stands(slot, true, s, q)
    requires s[..|slot.prefix|] == slot.prefix && s[|slot.prefix|..e] == x && s[e..f] == slot.suffix[..k]
    ensures RunEnd(slot.captured, s, p) < f
  {
    PartsOf(s, e, p, f, slot.suffix, i, k);
    OpeningOf(slot, s, e, i, p);
    OpensAt(slot, true, s, q, p);
    if RunEnd(slot.captured, s, p) >= f { InClassOf(slot, s, p, f); }
  }

  /** At the capture's own prefix the old text matches. */
  lemma LastPrefix(slot: Slot, line: bool, y: char, value: string, s: string)
    requires WellFormed(slot) && slot.suffix != "" && y !in slot.suffix && In(slot.captured, y)
      && (slot.lineStart ==> line)
    requires s == Filled(slot, [y], "")
    ensures Replace(slot, line, s, value) == Filled(slot, value, "") && Gaps(slot, line, s)[0] == slot.prefix
  {
    FilledMatches(slot, line, [y], "");
    NextOfFilled(slot, line, [y], "");
  }

  /** The old text matches first where it was meant to. */
  lemma BrokenFirst(slot: Slot, x: string, k: nat, y: char, value: string, j: nat)
    requires WellFormed(slot) && Confusing(slot, x, k) && y !in slot.suffix && In(slot.captured, y)
    requires j + |slot.prefix| == |Opening(slot, x, k)|
    ensures Replace(slot, true, Broken(slot, x, k, y), value) == Opening(slot, x, k) + (value + slot.suffix)
    ensures Gaps(slot, true, Broken(slot, x, k, y))[0] == Opening(slot, x, k)
  {
    var s, u, w := Broken(slot, x, k, y), Opening(slot, x, k), Filled(slot, [y], "");
    forall q: nat | q < j ensures !MatchesAt(slot, true, s, q) {
      NoneBefore(slot, x, k, y, q);
      MatchesAtMeans(slot, true, s, q);
    }
    PassedOver(slot, true, s, j, value);
    OpenParts(slot, u, [y] + slot.suffix, s, j);
    LastPrefix(slot, LineAt(true, s, j), y, value, w);
    Regroup(u[..j], slot.prefix, value, slot.suffix);
  }

  lemma OpenParts(slot: Slot, u: string, tail: string, s: string, j: nat)
    requires Opens(slot, u) && s == u + tail && j + |slot.prefix| == |u|
    ensures s[..j] == u[..j] && u == u[..j] + slot.prefix && s[j..] == slot.prefix + tail
    ensures slot.lineStart ==> LineAt(true, s, j)
    ensures tail != "" ==> slot.prefix + tail == slot.prefix + [tail[0]] + (tail[1..] + "")
  {
  }

  lemma Regroup(a: string, prefix: string, value: string, suffix: string)
    ensures a + (prefix + value + (suffix + "")) == a + prefix + (value + suffix)
  {
  }

  lemma SuffixCompleted(slot: Slot, t: string, value: string, e: nat, f: nat, k: nat)
    requires k <= |slot.suffix| && Completes(slot, value, k) && f == e + k <= |t|
    requires t[e..f] == slot.suffix[..k] && t[f..] == value + slot.suffix && value != ""
    ensures EndsAt(slot, t, e)
  {
    var n, w := |slot.suffix|, value + slot.suffix;
    var m, end := n - k, e + n;
    assert w[..m] == slot.suffix[k..];
    assert t[f..end] == t[f..][..m];
    assert t[e..end] == t[e..f] + t[f..end];
    assert t[end] == t[f..][m] == w[m];
  }

  /** The new text matches earlier. */
  lemma BrokenLater(slot: Slot, x: string, k: nat, value: string, t: string)
    requires WellFormed(slot) && Confusing(slot, x, k) && value != "" && Completes(slot, value, k)
    requires t == Opening(slot, x, k) + (value + slot.suffix)
    ensures t != "" && Next(slot, true, t).Hit?
    ensures Gaps(slot, true, t)[0] == slot.prefix
  {
    var p, e, f := |slot.prefix|, |slot.prefix| + |x|, |slot.prefix| + |x| + k;
    BrokenParts(slot, x, k, value + slot.suffix, t, e, f);
    RunOfBroken(slot, x, k, t, e, f, p);
    SuffixCompleted(slot, t, value, e, f, k);
  }

  /** The law holds of every text exactly if the value does not break the slot. (y is any
      character that a capture may have and the suffix has not.) */
  lemma HoldsExactly(slot: Slot, value: string, y: char)
    requires WellFormed(slot) && Writable(slot, value) && In(slot.captured, y) && y !in slot.suffix
    ensures (forall bol, s :: SamePlaces(slot, bol, s, value)) <==> !Breakable(slot, value)
  {
    if !Breakable(slot, value) {
      forall bol, s ensures SamePlaces(slot, bol, s, value) { GetPut(slot, bol, s, value); }
    } else {
      var x: string, k: nat :| k <= |slot.suffix| && Completes(slot, value, k) && |x| <= |slot.prefix| + 1
                               && Confusing(slot, x, k);
      var s := Broken(slot, x, k, y);
      BrokenFirst(slot, x, k, y, value, |x| + k);
      BrokenLater(slot, x, k, value, Replace(slot, true, s, value));
      assert |Opening(slot, x, k)| > |slot.prefix|;
      assert !SamePlaces(slot, true, s, value);
    }
  }

  /** A slot with a value that breaks it: a quoted capture followed by a comma. */
  const QUOTED := Slot(WholeText, false, "\"", Except('\"'), "\",", false)

  lemma CommaBreaks(rest: string)
    ensures WellFormed(QUOTED) && Breakable(QUOTED, "," + rest)
  {
    var u := Opening(QUOTED, "x", 1);
    assert u == "\"x\"" && u[2..] == "\"";
    assert Confusing(QUOTED, "x", 1);
    assert QUOTED.suffix[1..] == ",";
    assert Completes(QUOTED, "," + rest, 1);
  }
}
