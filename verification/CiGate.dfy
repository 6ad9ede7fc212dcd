/** `pull_request_gate` of `scripts/check-ci-coverage.py`: which workflows gate a pull
    request, over a call graph that may have cycles and calls to files that do not exist. */
module CiGate {
  type Path = string

  datatype Workflow = Workflow(path: Path, onPullRequest: bool, calls: set<Path>)

  // ---------------------------------------------------------------- specification

  ghost predicate Direct(workflows: seq<Workflow>, p: Path) {
    exists i :: 0 <= i < |workflows| && workflows[i].path == p && workflows[i].onPullRequest
  }

  ghost predicate Calls(workflows: seq<Workflow>, p: Path, q: Path) {
    exists i :: 0 <= i < |workflows| && workflows[i].path == p && q in workflows[i].calls
  }

  /** A chain of calls that starts at a workflow running on `pull_request`. */
  ghost predicate IsChain(workflows: seq<Workflow>, chain: seq<Path>) {
    chain != [] && Direct(workflows, chain[0])
    && forall i :: 0 <= i < |chain| - 1 ==> Calls(workflows, chain[i], chain[i + 1])
  }

  ghost predicate Gates(workflows: seq<Workflow>, p: Path) {
    exists chain :: IsChain(workflows, chain) && chain[|chain| - 1] == p
  }

  /** Closed under calls, and holding every workflow that runs on `pull_request`. */
  ghost predicate ClosedUnderCalls(workflows: seq<Workflow>, paths: set<Path>) {
    && (forall p :: Direct(workflows, p) ==> p in paths)
    && (forall p, q :: p in paths && Calls(workflows, p, q) ==> q in paths)
  }

  lemma GatesStep(workflows: seq<Workflow>, p: Path, q: Path)
    requires Gates(workflows, p) && Calls(workflows, p, q)
    ensures Gates(workflows, q)
  {
    var chain :| IsChain(workflows, chain) && chain[|chain| - 1] == p;
    var longer := chain + [q];
    forall i | 0 <= i < |longer| - 1 ensures Calls(workflows, longer[i], longer[i + 1]) {
      if i < |chain| - 1 { assert Calls(workflows, chain[i], chain[i + 1]); }
    }
    assert IsChain(workflows, longer);
  }

  /** The gating paths are the least set that is closed under calls. */
  lemma {:induction false} ChainInClosedSet(workflows: seq<Workflow>, paths: set<Path>, chain: seq<Path>)
    requires ClosedUnderCalls(workflows, paths) && IsChain(workflows, chain)
    ensures chain[|chain| - 1] in paths
    decreases |chain|
  {
    if |chain| > 1 {
      var shorter := chain[..|chain| - 1];
      forall i | 0 <= i < |shorter| - 1 ensures Calls(workflows, shorter[i], shorter[i + 1]) {
        assert Calls(workflows, chain[i], chain[i + 1]);
      }
      ChainInClosedSet(workflows, paths, shorter);
      assert Calls(workflows, chain[|chain| - 2], chain[|chain| - 1]);
    }
  }

  // ---------------------------------------------------------------- the loop

  /** The workflows whose path is in `paths`, in input order. */
  function Select(workflows: seq<Workflow>, paths: set<Path>): seq<Workflow> {
    if workflows == [] then []
    else (if workflows[0].path in paths then [workflows[0]] else []) + Select(workflows[1..], paths)
  }

  lemma {:induction false} SelectMembers(workflows: seq<Workflow>, paths: set<Path>, w: Workflow)
    ensures w in Select(workflows, paths) <==> w in workflows && w.path in paths
    decreases |workflows|
  {
    if workflows != [] {
      SelectMembers(workflows[1..], paths, w);
      assert workflows == [workflows[0]] + workflows[1..];
    }
  }

  ghost predicate Increasing(at: seq<nat>, from: nat, to: nat) {
    && (forall k :: 0 <= k < |at| ==> from <= at[k] < to)
    && (forall j, k :: 0 <= j < k < |at| ==> at[j] < at[k])
  }

  ghost predicate AtPositions(workflows: seq<Workflow>, gate: seq<Workflow>, at: seq<nat>) {
    |at| == |gate| && forall k :: 0 <= k < |at| ==> at[k] < |workflows| && gate[k] == workflows[at[k]]
  }

  /** `gate` is the workflows at the positions `at`, from left to right. */
  ghost predicate TakenAt(workflows: seq<Workflow>, gate: seq<Workflow>, at: seq<nat>) {
    AtPositions(workflows, gate, at) && Increasing(at, 0, |workflows|)
  }

  /** The positions of the workflows whose path is in `paths`, counted from `from`. */
  function Positions(workflows: seq<Workflow>, paths: set<Path>, from: nat): seq<nat>
    decreases |workflows|
  {
    if workflows == [] then []
    else
      var more := Positions(workflows[1..], paths, from + 1);
      if workflows[0].path in paths then [from] + more else more
  }

  lemma {:induction false} PositionsIncrease(workflows: seq<Workflow>, paths: set<Path>, from: nat)
    ensures Increasing(Positions(workflows, paths, from), from, from + |workflows|)
    decreases |workflows|
  {
    if workflows != [] {
      var more := Positions(workflows[1..], paths, from + 1);
      PositionsIncrease(workflows[1..], paths, from + 1);
      FirstAndMore(from, more, from + |workflows|);
    }
  }

  lemma FirstAndMore(from: nat, more: seq<nat>, to: nat)
    requires from < to && Increasing(more, from + 1, to)
    ensures Increasing(more, from, to) && Increasing([from] + more, from, to)
  {
  }

  lemma {:induction false} PositionsHold(all: seq<Workflow>, workflows: seq<Workflow>, paths: set<Path>, from: nat)
    requires from <= |all| && workflows == all[from..]
    ensures AtPositions(all, Select(workflows, paths), Positions(workflows, paths, from))
    decreases |workflows|
  {
    if workflows != [] {
      var gate, more := Select(workflows[1..], paths), Positions(workflows[1..], paths, from + 1);
      PositionsHold(all, workflows[1..], paths, from + 1);
      FirstPosition(all, workflows[0], gate, from, more);
    }
  }

  lemma FirstPosition(all: seq<Workflow>, w: Workflow, gate: seq<Workflow>, from: nat, more: seq<nat>)
    requires from < |all| && all[from] == w && AtPositions(all, gate, more)
    ensures AtPositions(all, [w] + gate, [from] + more) && AtPositions(all, [] + gate, more)
  {
    assert [] + gate == gate;
  }

  lemma {:induction false} PositionsComplete(workflows: seq<Workflow>, paths: set<Path>, from: nat, k: nat)
    requires k < |workflows|
    ensures from + k in Positions(workflows, paths, from) <==> workflows[k].path in paths
    decreases |workflows|
  {
    PositionsIncrease(workflows[1..], paths, from + 1);
    if k > 0 { PositionsComplete(workflows[1..], paths, from + 1, k - 1); }
  }

  /** The selection keeps the order of the input and every occurrence. */
  lemma SelectInOrder(workflows: seq<Workflow>, paths: set<Path>, gate: seq<Workflow>)
    requires gate == Select(workflows, paths)
    ensures exists at :: TakenAt(workflows, gate, at)
              && forall i :: 0 <= i < |workflows| ==> (i in at <==> workflows[i].path in paths)
  {
    var at := Positions(workflows, paths, 0);
    PositionsIncrease(workflows, paths, 0);
    PositionsHold(workflows, workflows, paths, 0);
    assert TakenAt(workflows, gate, at);
    forall i | 0 <= i < |workflows| ensures i in at <==> workflows[i].path in paths {
      PositionsComplete(workflows, paths, 0, i);
      assert 0 + i == i;
    }
  }

  function AllCalls(workflows: seq<Workflow>): set<Path> {
    set w, q | w in workflows && q in w.calls :: q
  }

  /** `{c for wf in workflows if wf.path in gating for c in wf.calls()}` */
  function Called(workflows: seq<Workflow>, gating: set<Path>): set<Path> {
    set w, q | w in workflows && w.path in gating && q in w.calls :: q
  }

  method PullRequestGate(workflows: seq<Workflow>) returns (gate: seq<Workflow>, ghost paths: set<Path>)
    ensures forall p :: p in paths <==> Gates(workflows, p)
    ensures exists at :: TakenAt(workflows, gate, at)
              && forall i :: 0 <= i < |workflows| ==> (i in at <==> Gates(workflows, workflows[i].path))
    ensures forall w :: w in gate <==> w in workflows && Gates(workflows, w.path)
  {
    var gating := set w | w in workflows && w.onPullRequest :: w.path;
    ghost var all := gating + AllCalls(workflows);
    forall p | p in gating ensures Gates(workflows, p) {
      assert Direct(workflows, p);
      assert IsChain(workflows, [p]);
    }
    while true
      invariant forall p :: p in gating ==> Gates(workflows, p)
      invariant forall p :: Direct(workflows, p) ==> p in gating
      invariant gating <= all
      decreases all - gating
    {
      var called := Called(workflows, gating);
      if called <= gating {
        break;
      }
      forall q | q in called ensures Gates(workflows, q) && q in all {
        var w :| w in workflows && w.path in gating && q in w.calls;
        assert Calls(workflows, w.path, q);
        GatesStep(workflows, w.path, q);
      }
      gating := gating + called;
    }
    forall p, q | p in gating && Calls(workflows, p, q) ensures q in gating {
      assert q in Called(workflows, gating);
    }
    forall p | Gates(workflows, p) ensures p in gating {
      var chain :| IsChain(workflows, chain) && chain[|chain| - 1] == p;
      ChainInClosedSet(workflows, gating, chain);
    }
    paths := gating;
    gate := Select(workflows, gating);
    SelectInOrder(workflows, gating, gate);
    forall w ensures w in gate <==> w in workflows && Gates(workflows, w.path) {
      SelectMembers(workflows, gating, w);
    }
  }
}
