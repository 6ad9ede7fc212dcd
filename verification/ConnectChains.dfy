/** What becomes of a rejection on its way down a chain of handler-less `.then` calls, wherever
    the chain starts: at a connect(), or at a promise whose `f` threw. */
module ConnectChains {
  import opened Wrappers
  import opened PromiseMachine
  import opened PromiseInvariant
  import opened ConnectPromises

  /** e is d, or was reached from it through `.then(f)` calls without a rejection handler alone. */
  ghost predicate Below(s: State, d: Id, e: Id)
    decreases e
  {
    || e == d
    || (e in s.past.links && !s.past.links[e].hasR && s.past.links[e].parent < e && Below(s, d, s.past.links[e].parent))
  }

  function After(actions: seq<Action>, i: nat): State
    requires i <= |actions|
  {
    Run(Init, actions[..i])
  }

  /** Step i runs the marking reaction of e, on a parent settled this way. */
  ghost predicate MarkerRunsAt(actions: seq<Action>, i: nat, e: Id, how: Settlement) {
    && i < |actions|
    && HeadIs(After(actions, i), actions[i], Job(Marker(e), how))
  }

  ghost predicate HeadIs(s: State, a: Action, j: Job) { a.Microtask? && s.queue != [] && s.queue[0] == j }

  /** At step i the marking reaction of e runs while the reason x is swallowed. */
  ghost predicate SilencesAt(actions: seq<Action>, i: nat, e: Id, x: Reason) {
    MarkerRunsAt(actions, i, e, Rejected(x)) && x in After(actions, i).swallowed
  }

  // ---------------------------------------------------------------- reactions are not lost

  /** p keeps its settlement; what was registered on it stays, or is queued when p settles. */
  ghost predicate KeepsPromise(s: State, t: State, p: Id)
    requires p < |s.promises| && p < |t.promises|
  {
    var was, now := s.promises[p], t.promises[p];
    match was.status
    case Settled(_) => now.status == was.status
    case Pending =>
      if now.status.Pending? then forall r <- was.reactions :: r in now.reactions
      else forall r <- was.reactions :: Job(r, now.status.how) in t.queue
  }

  ghost predicate Onward(s: State, t: State) {
    && |s.promises| <= |t.promises|
    && (forall j <- s.queue :: j in t.queue)
    && (forall p: Id :: p < |s.promises| ==> KeepsPromise(s, t, p))
  }

  lemma OnwardTwice(s: State, t: State, u: State)
    requires Onward(s, t) && Onward(t, u)
    ensures Onward(s, u)
  {
    forall p: Id | p < |s.promises| ensures KeepsPromise(s, u, p) {
      assert KeepsPromise(s, t, p) && KeepsPromise(t, u, p);
    }
  }

  lemma SettleOnward(s: State, p: Id, how: Settlement)
    requires p < |s.promises|
    ensures Onward(s, Settle(s, p, how))
  {
    InJobsOf(s.promises[p].reactions, how);
  }

  lemma PerformThenOnward(s: State, p: Id, r: Reaction)
    requires p < |s.promises|
    ensures Onward(s, PerformThen(s, p, r))
  {
  }

  lemma AllocateOnward(s: State, origin: Origin, open: bool)
    ensures Onward(s, Allocate(s, origin, open))
  {
  }

  lemma ConnectOnward(s: State, client: Client)
    ensures Onward(s, Connect(s, client))
  {
    ConnectHasEffect(s, client);
  }

  lemma ThenOnward(s: State, p: Id, hasF: bool, hasR: bool)
    requires p < |s.promises|
    ensures Onward(s, Then(s, p, hasF, hasR))
  {
    ThenHasEffect(s, p, hasF, hasR);
  }

  lemma MarkOnward(s: State, p: Id)
    requires p < |s.promises|
    ensures Onward(s, MarkHandled(s, p))
  {
    PerformThenOnward(s, p, Noop);
  }

  lemma ForwardOnward(s: State, p: Id, client: Client, had: bool, arg: Settlement)
    requires p < |s.promises|
    ensures Onward(s, RunForward(s, p, client, had, arg))
  {
    var t := Settle(s, p, arg);
    SettleOnward(s, p, arg);
    if arg.Rejected? {
      var has := ListenerCount(t, client) > 0;
      var u := Recorded(t, p, Failure(arg.reason, has));
      var v := u.(swallowed := u.swallowed + {arg.reason}, past := u.past.(silenced := u.past.silenced + {p}));
      assert Onward(t, v);
      MarkOnward(v, p);
      OnwardTwice(t, v, MarkHandled(v, p));
      OnwardTwice(s, t, MarkHandled(v, p));
      OnwardTwice(s, t, u);
    }
  }

  lemma CallOnward(s: State, r: Reaction, arg: Settlement, outcome: Outcome)
    requires r.Call? && r.derived < |s.promises|
    ensures Onward(s, RunCall(s, r, arg, outcome))
  {
    SettleOnward(s, r.derived, arg);
    SettleOnward(s, r.derived, Fulfilled);
    if outcome.Throws? { SettleOnward(s, r.derived, Rejected(outcome.thrown)); }
  }

  function Popping(s: State, a: Action): State {
    if a.Microtask? && Enabled(s, a) then s.(queue := s.queue[1..]) else s
  }

  /** Apart from the job that runs, a step loses no job and no reaction. */
  lemma StepOnward(s: State, a: Action)
    ensures Onward(Popping(s, a), Step(s, a))
  {
    if Enabled(s, a) {
      match a
      case SetListeners(_, _) =>
      case DoConnect(client) => ConnectOnward(s, client);
      case NewPromise => AllocateOnward(s, Outside, true);
      case Resolve(p, how) => SettleOnward(s, p, how);
      case DoThen(p, hasF, hasR) => ThenOnward(s, p, hasF, hasR);
      case Microtask(outcome) =>
        var j, t := s.queue[0], s.(queue := s.queue[1..]);
        match j.reaction {
          case Call(_, _, _) => CallOnward(t, j.reaction, j.arg, outcome);
          case Marker(d) => MarkOnward(t, d);
          case Forward(c, client, had) => ForwardOnward(t, c, client, had, j.arg);
          case Noop =>
        }
    }
  }

  // ---------------------------------------------------------------- each marking reaction runs

  /** A microtask adds nothing to links and chains. */
  lemma MicrotaskFrame(s: State, outcome: Outcome)
    requires Enabled(s, Microtask(outcome))
    ensures var t := Step(s, Microtask(outcome));
      t.past.links == s.past.links && t.chained == s.chained && forall c <- s.past.connects :: c in t.past.connects
  {
    var j, u := s.queue[0], s.(queue := s.queue[1..]);
    match j.reaction
    case Call(_, _, _) => CallFrame(u, j.reaction, j.arg, outcome);
    case Marker(d) =>
    case Forward(c, client, had) => ForwardFrame(u, c, client, had, j.arg);
    case Noop =>
  }

  lemma CallFrame(s: State, r: Reaction, arg: Settlement, outcome: Outcome)
    requires r.Call? && r.derived < |s.promises|
    ensures var t := RunCall(s, r, arg, outcome);
      t.past.links == s.past.links && t.chained == s.chained && t.past.connects == s.past.connects
  {
  }

  lemma ForwardFrame(s: State, p: Id, client: Client, had: bool, arg: Settlement)
    requires p < |s.promises|
    ensures var t := RunForward(s, p, client, had, arg);
      t.past.links == s.past.links && t.chained == s.chained && forall c <- s.past.connects :: c in t.past.connects
  {
  }

  /** What a step adds to links and chains. */
  lemma StepLinks(s: State, a: Action)
    requires Inv(s)
    ensures var t := Step(s, a);
      && (forall e <- t.past.links :: e in s.past.links ==> t.past.links[e] == s.past.links[e])
      && (forall e <- t.past.links :: e in s.past.links && e in t.chained ==> e in s.chained)
      && (forall e <- t.past.links :: e !in s.past.links ==> a.DoThen? && Enabled(s, a) && e == |s.promises|)
      && (forall c <- s.past.connects :: c in t.past.connects)
  {
    if Enabled(s, a) {
      match a
      case DoConnect(client) => ConnectHasEffect(s, client);
      case DoThen(p, hasF, hasR) => ThenHasEffect(s, p, hasF, hasR);
      case Resolve(p, how) =>
      case SetListeners(_, _) =>
      case NewPromise =>
      case Microtask(outcome) => MicrotaskFrame(s, outcome);
    }
  }

  ghost predicate ParentSettled(s: State, e: Id, how: Settlement) {
    && e in s.past.links && e in s.chained
    && s.past.links[e].parent < |s.promises| && s.promises[s.past.links[e].parent].status == Settled(how)
  }

  /** A new chained promise has its marking reaction queued, if its parent is settled. */
  lemma NewMarkerQueued(s: State, a: Action, e: Id, how: Settlement)
    requires Inv(s) && a.DoThen? && Enabled(s, a) && e == |s.promises| && ParentSettled(Step(s, a), e, how)
    ensures Job(Marker(e), how) in Step(s, a).queue
  {
    var t := Step(s, a);
    ThenHasEffect(s, a.p, a.hasF, a.hasR);
    assert a.p in s.chained && !a.hasR;
    InJobsOf(Registered(s, a.p, e, a.hasF, a.hasR), how);
    assert Registered(s, a.p, e, a.hasF, a.hasR)[1] == Marker(e);
  }

  /** The marking reaction is queued by the step that settles the parent, and stays until it runs. */
  lemma MarkerQueued(s: State, a: Action, e: Id, how: Settlement)
    requires Inv(s) && ParentSettled(Step(s, a), e, how)
    ensures || Job(Marker(e), how) in Step(s, a).queue
            || HeadIs(s, a, Job(Marker(e), how))
            || (ParentSettled(s, e, how) && Job(Marker(e), how) !in s.queue)
  {
    var t, u := Step(s, a), Popping(s, a);
    StepLinks(s, a);
    StepOnward(s, a);
    if e !in s.past.links {
      NewMarkerQueued(s, a, e, how);
    } else {
      var p := s.past.links[e].parent;
      assert LinkOk(s, e);
      assert KeepsPromise(u, t, p);
      if s.promises[p].status.Settled? && Job(Marker(e), how) in s.queue && u != s { Popped(s.queue); }
    }
  }

  lemma AfterStep(actions: seq<Action>, n: nat)
    requires n < |actions|
    ensures After(actions, n + 1) == Step(After(actions, n), actions[n])
    ensures Inv(After(actions, n))
  {
    InitInv();
    RunKeeps(Init, actions[..n]);
    assert actions[..n + 1] == actions[..n] + [actions[n]];
    RunAppend(Init, actions[..n], actions[n]);
  }

  lemma {:induction false} RunAppend(s: State, actions: seq<Action>, a: Action)
    ensures Run(s, actions + [a]) == Step(Run(s, actions), a)
    decreases |actions|
  {
    if actions == [] {
      assert [a][1..] == [] && actions + [a] == [a];
      assert Run(Step(s, a), []) == Step(s, a);
    } else {
      assert (actions + [a])[1..] == actions[1..] + [a];
      RunAppend(Step(s, actions[0]), actions[1..], a);
    }
  }

  lemma {:induction false} MarkerRanOrWaits(actions: seq<Action>, n: nat, e: Id, how: Settlement)
    requires n <= |actions| && ParentSettled(After(actions, n), e, how)
    ensures Job(Marker(e), how) in After(actions, n).queue || exists i: nat :: i < n && MarkerRunsAt(actions, i, e, how)
    decreases n
  {
    if n > 0 {
      var m := n - 1;
      var s, a := After(actions, m), actions[m];
      AfterStep(actions, m);
      MarkerQueued(s, a, e, how);
      if HeadIs(s, a, Job(Marker(e), how)) {
        assert MarkerRunsAt(actions, m, e, how);
      } else if ParentSettled(s, e, how) && Job(Marker(e), how) !in s.queue {
        MarkerRanOrWaits(actions, m, e, how);
      }
    }
  }

  // ---------------------------------------------------------------- and marks exactly then

  /** What a step marks. */
  ghost predicate MarksBy(s: State, a: Action, e: Id) {
    && a.Microtask? && s.queue != [] && s.queue[0].arg.Rejected?
    && var r := s.queue[0].reaction;
       || (r == Marker(e) && s.queue[0].arg.reason in s.swallowed)
       || (r.Forward? && r.promise == e && e in s.past.connects)
  }

  lemma StepMarks(s: State, a: Action, e: Id)
    requires Inv(s)
    ensures e in s.past.marked ==> e in Step(s, a).past.marked
    ensures e in Step(s, a).past.marked ==> e in s.past.marked || MarksBy(s, a, e)
    ensures forall x :: HeadIs(s, a, Job(Marker(e), Rejected(x))) && x in s.swallowed ==> e in Step(s, a).past.marked
  {
    if a.Microtask? && s.queue != [] {
      assert JobOk(s, s.queue[0]);
    }
    if Enabled(s, a) {
      match a
      case DoConnect(client) => ConnectHasEffect(s, client);
      case DoThen(p, hasF, hasR) => ThenHasEffect(s, p, hasF, hasR);
      case Resolve(p, how) =>
      case SetListeners(_, _) =>
      case NewPromise =>
      case Microtask(_) =>
    }
  }

  /** A promise that `then` returned is marked if and only if some step silenced it. */
  lemma {:induction false} MarkedBySilencing(actions: seq<Action>, n: nat, e: Id)
    requires n <= |actions|
    ensures e in After(actions, n).past.marked && e !in After(actions, n).past.connects ==>
      exists i: nat, x :: i < n && SilencesAt(actions, i, e, x)
    ensures (exists i: nat, x :: i < n && SilencesAt(actions, i, e, x)) ==> e in After(actions, n).past.marked
    decreases n
  {
    if n > 0 {
      var m := n - 1;
      var s, a := After(actions, m), actions[m];
      AfterStep(actions, m);
      MarkedBySilencing(actions, m, e);
      StepMarks(s, a, e);
      StepLinks(s, a);
      if MarksBy(s, a, e) && s.queue[0].reaction == Marker(e) {
        assert SilencesAt(actions, m, e, s.queue[0].arg.reason);
      }
    }
  }

  // ---------------------------------------------------------------- down the chain

  /** With an empty queue a rejection has reached everything below it. */
  lemma {:induction false} RejectionReaches(s: State, d: Id, e: Id, x: Reason)
    requires Inv(s) && s.queue == [] && Below(s, d, e)
    requires d < |s.promises| && s.promises[d].status == Settled(Rejected(x))
    ensures e < |s.promises| && s.promises[e].status == Settled(Rejected(x))
    decreases e
  {
    if e != d {
      RejectionReaches(s, d, s.past.links[e].parent, x);
      assert LinkOk(s, e);
    }
  }

  /** The reason a promise is silenced for is the one its parent was rejected with for good. */
  lemma {:induction false} SilencedReason(actions: seq<Action>, i: nat, n: nat, e: Id, y: Reason)
    requires i < n <= |actions| && SilencesAt(actions, i, e, y)
    ensures ParentSettled(After(actions, n), e, Rejected(y))
    decreases n
  {
    var m := n - 1;
    var s := After(actions, m);
    AfterStep(actions, m);
    if m == i {
      assert JobOk(s, s.queue[0]);
    } else {
      SilencedReason(actions, i, m, e, y);
    }
    ParentStays(s, actions[m], e, Rejected(y));
  }

  lemma ParentStays(s: State, a: Action, e: Id, how: Settlement)
    requires Inv(s) && ParentSettled(s, e, how)
    ensures ParentSettled(Step(s, a), e, how)
  {
    StepOnward(s, a);
    StepKeepsLinks(s, a, e);
    assert KeepsPromise(Popping(s, a), Step(s, a), s.past.links[e].parent);
  }

  lemma StepKeepsLinks(s: State, a: Action, e: Id)
    requires Inv(s) && e in s.past.links && e in s.chained
    ensures var t := Step(s, a); e in t.past.links && t.past.links[e] == s.past.links[e] && e in t.chained
  {
    if Enabled(s, a) {
      match a
      case DoConnect(client) => ConnectHasEffect(s, client);
      case DoThen(p, hasF, hasR) => ThenHasEffect(s, p, hasF, hasR);
      case Resolve(p, how) =>
      case SetListeners(_, _) =>
      case NewPromise =>
      case Microtask(outcome) => MicrotaskFrame(s, outcome);
    }
  }

  /** Whether user code or the marking reaction handled a rejection. */
  lemma ReportedUnlessSilenced(actions: seq<Action>, e: Id, x: Reason)
    requires var s := Run(Init, actions);
      && e in s.past.links && e < |s.promises| && s.promises[e].status == Settled(Rejected(x))
      && s.past.links[e].parent < |s.promises|
      && s.promises[s.past.links[e].parent].status in {Settled(Rejected(x)), Settled(Fulfilled)}
    ensures var s := Run(Init, actions);
      Unhandled(s, e) <==> e !in s.past.called && forall i: nat :: !SilencesAt(actions, i, e, x)
  {
    var s, n := Run(Init, actions), |actions|;
    assert actions[..n] == actions && After(actions, n) == s;
    InitInv();
    RunKeeps(Init, actions);
    assert PromiseOk(s, e);
    MarkedBySilencing(actions, n, e);
    if e in s.past.marked {
      var i: nat, y :| i < n && SilencesAt(actions, i, e, y);
      SilencedReason(actions, i, n, e, y);
    }
  }

  /** The marking reaction of a chained promise has run, once the queue is empty. */
  lemma MarkerRan(actions: seq<Action>, e: Id, how: Settlement)
    requires Run(Init, actions).queue == [] && ParentSettled(Run(Init, actions), e, how)
    ensures exists i: nat :: MarkerRunsAt(actions, i, e, how)
  {
    assert actions[..|actions|] == actions;
    MarkerRanOrWaits(actions, |actions|, e, how);
  }

  /** Once the queue is empty, the rejection of d with x has reached each promise e below it.
      e is reported if and only if user code did not call `then` on it and x was not swallowed
      when the marking reaction of e ran; and if e is in a chain, its marking reaction ran on x. */
  lemma RejectionReported(actions: seq<Action>, d: Id, e: Id, x: Reason)
    requires var s := Run(Init, actions);
      && s.queue == [] && d < |s.promises| && s.promises[d].status == Settled(Rejected(x))
      && e != d && Below(s, d, e)
    ensures var s := Run(Init, actions);
      && e < |s.promises| && s.promises[e].status == Settled(Rejected(x))
      && (Unhandled(s, e) <==> e !in s.past.called && forall i: nat :: !SilencesAt(actions, i, e, x))
      && (Root(s, e).Some? ==> exists i: nat :: MarkerRunsAt(actions, i, e, Rejected(x)))
  {
    var s := Run(Init, actions);
    InitInv();
    RunKeeps(Init, actions);
    RejectionReaches(s, d, e, x);
    RejectionReaches(s, d, s.past.links[e].parent, x);
    ReportedUnlessSilenced(actions, e, x);
    ChainedExactly(s, e);
    if Root(s, e).Some? { MarkerRan(actions, e, Rejected(x)); }
  }

  /** The error x that `f` threw in `.then(f)`, which gave d, surfaces at the end e of every
      handler-less chain below d, unless x was swallowed by the time its marking reaction ran. */
  lemma ThrownThroughChain(actions: seq<Action>, d: Id, e: Id, x: Reason)
    requires var s := Run(Init, actions);
      && s.queue == [] && d in s.past.links && s.past.links[d].parent < |s.promises|
      && s.promises[s.past.links[d].parent].status == Settled(Fulfilled)
      && d < |s.promises| && s.promises[d].status == Settled(Rejected(x)) && Below(s, d, e)
    ensures var s := Run(Init, actions);
      && e < |s.promises| && s.promises[e].status == Settled(Rejected(x))
      && (e !in s.past.called ==>
            (Unhandled(s, e) <==> forall i: nat :: !SilencesAt(actions, i, e, x)))
      && (e != d && Root(s, e).Some? ==> exists i: nat :: MarkerRunsAt(actions, i, e, Rejected(x)))
  {
    if e == d {
      ReportedUnlessSilenced(actions, d, x);
    } else {
      RejectionReported(actions, d, e, x);
    }
  }
}
