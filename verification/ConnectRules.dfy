/** The four rules of `js/main.js` over the actions of a run: which promise was returned by what,
    how many listeners there were, and what the reason was. */
module ConnectRules {
  import opened Wrappers
  import opened PromiseMachine
  import opened PromiseInvariant
  import opened ConnectPromises
  import opened ConnectChains

  // ---------------------------------------------------------------- what the actions say

  /** How many `error` listeners the client has before step n: as many as were last set. */
  function Listeners(actions: seq<Action>, client: Client, n: nat): nat
    requires n <= |actions|
  {
    if n == 0 then 0
    else
      match actions[n - 1]
      case SetListeners(of, count) => if of == client then count else Listeners(actions, client, n - 1)
      case _ => Listeners(actions, client, n - 1)
  }

  /** Step i is the call of connect() that returned promise c. */
  ghost predicate ConnectsAt(actions: seq<Action>, i: nat, client: Client, c: Id) {
    i < |actions| && actions[i] == DoConnect(client) && c == |After(actions, i).promises| + 1
  }

  /** Step j runs the reaction that rejects c, with r. */
  ghost predicate FailsAt(actions: seq<Action>, j: nat, c: Id, r: Reason) {
    && j < |actions| && actions[j].Microtask?
    && var queue := After(actions, j).queue;
       queue != [] && queue[0].reaction.Forward? && queue[0].reaction.promise == c && queue[0].arg == Rejected(r)
  }

  /** Step k calls `then` on p, which returns d. */
  ghost predicate ThenAt(actions: seq<Action>, k: nat, p: Id, hasF: bool, hasR: bool, d: Id) {
    && k < |actions| && actions[k] == DoThen(p, hasF, hasR)
    && p < |After(actions, k).promises| == d && After(actions, k).promises[p].origin != Native
  }

  /** Rules 3 and 4, for a connect() that was called at step i and failed with r at step j. */
  predicate Silences(actions: seq<Action>, client: Client, i: nat, j: nat, r: Reason)
    requires i <= |actions| && j <= |actions|
  {
    r.isError && r.code != 2011 && (Listeners(actions, client, i) > 0 || Listeners(actions, client, j) > 0)
  }

  // ---------------------------------------------------------------- listeners

  lemma CallKeepsListeners(s: State, r: Reaction, arg: Settlement, outcome: Outcome)
    requires r.Call? && r.derived < |s.promises|
    ensures RunCall(s, r, arg, outcome).listeners == s.listeners
  {
  }

  lemma ForwardKeepsListeners(s: State, p: Id, client: Client, had: bool, arg: Settlement)
    requires p < |s.promises|
    ensures RunForward(s, p, client, had, arg).listeners == s.listeners
  {
  }

  lemma StepListeners(s: State, a: Action)
    ensures !a.SetListeners? ==> Step(s, a).listeners == s.listeners
    ensures a.SetListeners? ==> Step(s, a).listeners == s.listeners[a.client := a.count]
  {
    if Enabled(s, a) && a.Microtask? {
      var j, u := s.queue[0], s.(queue := s.queue[1..]);
      match j.reaction
      case Call(_, _, _) => CallKeepsListeners(u, j.reaction, j.arg, a.outcome);
      case Marker(_) =>
      case Forward(c, client, had) => ForwardKeepsListeners(u, c, client, had, j.arg);
      case Noop =>
    }
  }

  lemma {:induction false} ListenersRead(actions: seq<Action>, client: Client, n: nat)
    requires n <= |actions|
    ensures ListenerCount(After(actions, n), client) == Listeners(actions, client, n)
    decreases n
  {
    if n > 0 {
      AfterStep(actions, n - 1);
      StepListeners(After(actions, n - 1), actions[n - 1]);
      ListenersRead(actions, client, n - 1);
    }
  }

  // ---------------------------------------------------------------- connects

  /** What is known of a connect(): who called it, and with listeners or not. */
  ghost predicate CalledBy(s: State, c: Id, client: Client, had: bool) {
    c in s.past.connects && s.past.connects[c].client == client && s.past.connects[c].hadListener == had
  }

  /** Its failure, as recorded. */
  ghost function FailureOf(s: State, c: Id): Option<Failure> {
    if c in s.past.connects then s.past.connects[c].failure else None
  }

  lemma ForwardConnects(s: State, p: Id, client: Client, had: bool, arg: Settlement)
    requires p < |s.promises| && p in s.past.connects
    ensures var t := RunForward(s, p, client, had, arg);
      t.past.connects
        == if arg.Fulfilled? then s.past.connects
           else s.past.connects[p := s.past.connects[p].(failure :=
                  Some(Failure(arg.reason, ListenerCount(s, client) > 0)))]
  {
    assert Settle(s, p, arg).past == s.past && Settle(s, p, arg).listeners == s.listeners;
  }

  /** What a step does to the record of connects. */
  lemma StepConnects(s: State, a: Action)
    requires Inv(s)
    ensures forall c <- s.past.connects ::
      CalledBy(Step(s, a), c, s.past.connects[c].client, s.past.connects[c].hadListener)
    ensures forall c :: c < |s.promises| && c !in s.past.connects ==> c !in Step(s, a).past.connects
    ensures a.DoConnect? ==>
      CalledBy(Step(s, a), |s.promises| + 1, a.client, ListenerCount(s, a.client) > 0)
  {
    if Enabled(s, a) {
      match a
      case SetListeners(_, _) =>
      case DoConnect(client) => ConnectHasEffect(s, client);
      case NewPromise =>
      case Resolve(p, how) =>
      case DoThen(p, hasF, hasR) => ThenHasEffect(s, p, hasF, hasR);
      case Microtask(outcome) => MicrotaskConnects(s, outcome);
    }
  }

  lemma MicrotaskConnects(s: State, outcome: Outcome)
    requires Inv(s) && Enabled(s, Microtask(outcome))
    ensures var j, t := s.queue[0], Step(s, Microtask(outcome));
      if j.reaction.Forward? && j.arg.Rejected? then
        && j.reaction.promise in s.past.connects
        && t.past.connects == s.past.connects[j.reaction.promise := s.past.connects[j.reaction.promise].(failure :=
             Some(Failure(j.arg.reason, ListenerCount(s, j.reaction.client) > 0)))]
      else t.past.connects == s.past.connects
  {
    var j, u := s.queue[0], s.(queue := s.queue[1..]);
    assert JobOk(s, j);
    match j.reaction
    case Call(_, _, _) => CallFrame(u, j.reaction, j.arg, outcome);
    case Marker(_) =>
    case Forward(c, client, had) => ForwardConnects(u, c, client, had, j.arg);
    case Noop =>
  }

  /** The record of a connect() is what the actions say of its call. */
  lemma {:induction false} ConnectRecorded(actions: seq<Action>, i: nat, client: Client, c: Id, n: nat)
    requires ConnectsAt(actions, i, client, c) && i < n <= |actions|
    ensures CalledBy(After(actions, n), c, client, Listeners(actions, client, i) > 0)
    decreases n
  {
    var m := n - 1;
    AfterStep(actions, m);
    StepConnects(After(actions, m), actions[m]);
    if m == i {
      ListenersRead(actions, client, i);
    } else {
      ConnectRecorded(actions, i, client, c, m);
    }
  }

  /** A step records a failure exactly if it is the one that rejects c, and none is replaced. */
  lemma StepFailure(s: State, a: Action, c: Id, f: Failure)
    requires Inv(s)
    ensures FailureOf(s, c) == Some(f) ==> FailureOf(Step(s, a), c) == Some(f)
    ensures FailureOf(s, c).None? && FailureOf(Step(s, a), c) == Some(f) ==>
      && a.Microtask? && s.queue != [] && s.queue[0].reaction.Forward? && s.queue[0].reaction.promise == c
      && s.queue[0].arg == Rejected(f.reason) && c in s.past.connects
      && f.hasListener == (ListenerCount(s, s.past.connects[c].client) > 0)
  {
    if c in s.past.connects { assert ConnectOk(s, c); }
    if Enabled(s, a) {
      match a
      case SetListeners(_, _) =>
      case DoConnect(client) =>
        ConnectHasEffect(s, client);
        assert c in s.past.connects ==> c != |s.promises| + 1;
      case NewPromise =>
      case Resolve(p, how) =>
      case DoThen(p, hasF, hasR) => ThenHasEffect(s, p, hasF, hasR);
      case Microtask(outcome) =>
        MicrotaskConnects(s, outcome);
        assert JobOk(s, s.queue[0]);
        OnlyForward(s, c);
    }
  }

  /** Once c has failed, no reaction that settles it is left. */
  lemma OnlyForward(s: State, c: Id)
    requires Inv(s) && s.queue != []
    ensures FailureOf(s, c).Some? ==> !(s.queue[0].reaction.Forward? && s.queue[0].reaction.promise == c)
  {
    if FailureOf(s, c).Some? {
      assert ConnectOk(s, c) && JobOk(s, s.queue[0]) && s.queue[0] in s.queue;
      assert !ForwardJob(s, c, s.queue[0]);
    }
  }

  /** A recorded failure is the step that rejected c, with the listeners there were then. */
  lemma {:induction false} FailureHappened(actions: seq<Action>, i: nat, client: Client, c: Id, n: nat, f: Failure)
    returns (j: nat)
    requires ConnectsAt(actions, i, client, c) && n <= |actions| && FailureOf(After(actions, n), c) == Some(f)
    ensures j < n && FailsAt(actions, j, c, f.reason) && f.hasListener == (Listeners(actions, client, j) > 0)
    decreases n
  {
    j := 0;
    NothingYet(actions, c);
    if n > 0 {
      var m := n - 1;
      var s := After(actions, m);
      AfterStep(actions, m);
      StepFailure(s, actions[m], c, f);
      if FailureOf(s, c).Some? {
        StepFailure(s, actions[m], c, FailureOf(s, c).value);
        j := FailureHappened(actions, i, client, c, m, f);
      } else {
        j := m;
        CalledBefore(actions, i, client, c, m);
        ListenersRead(actions, client, m);
      }
    }
  }

  lemma NothingYet(actions: seq<Action>, c: Id)
    ensures FailureOf(After(actions, 0), c).None?
  {
  }

  lemma KnownIsThere(s: State, c: Id)
    requires Inv(s)
    ensures c in s.past.connects ==> c < |s.promises|
  {
  }

  /** c is recorded only from its call on. */
  lemma {:induction false} CalledBefore(actions: seq<Action>, i: nat, client: Client, c: Id, n: nat)
    requires ConnectsAt(actions, i, client, c) && n <= |actions| && c in After(actions, n).past.connects
    ensures i < n && CalledBy(After(actions, n), c, client, Listeners(actions, client, i) > 0)
  {
    if n <= i {
      Grows(actions, n, i);
      AfterStep(actions, n);
      KnownIsThere(After(actions, n), c);
    } else {
      ConnectRecorded(actions, i, client, c, n);
    }
  }

  lemma {:induction false} Grows(actions: seq<Action>, n: nat, m: nat)
    requires n <= m <= |actions|
    ensures |After(actions, n).promises| <= |After(actions, m).promises|
    decreases m
  {
    if n < m {
      Grows(actions, n, m - 1);
      AfterStep(actions, m - 1);
      StepOnward(After(actions, m - 1), actions[m - 1]);
    }
  }

  lemma StateOf(actions: seq<Action>, n: nat)
    requires n <= |actions|
    ensures Inv(After(actions, n)) && (n == |actions| ==> After(actions, n) == Run(Init, actions))
  {
    InitInv();
    RunKeeps(Init, actions[..n]);
    assert actions[..|actions|] == actions;
  }

  // ---------------------------------------------------------------- then

  /** User code called `then` on p. */
  ghost predicate ThenCalled(actions: seq<Action>, p: Id, n: nat)
    requires n <= |actions|
  {
    exists k: nat, hasF, hasR, d :: k < n && ThenAt(actions, k, p, hasF, hasR, d)
  }

  /** What a call of `then` changes in the record, and nothing else does. */
  lemma StepThens(s: State, a: Action, p: Id, d: Id)
    requires Inv(s)
    ensures var t := Step(s, a);
      && (p in t.past.called <==> p in s.past.called || (a.DoThen? && Enabled(s, a) && a.p == p))
      && (d in t.past.links <==> d in s.past.links || (a.DoThen? && Enabled(s, a) && d == |s.promises|))
      && (d in s.past.links ==> t.past.links[d] == s.past.links[d])
      && (a.DoThen? && Enabled(s, a) ==> t.past.links[|s.promises|] == Link(a.p, a.hasF, a.hasR))
  {
    if Enabled(s, a) {
      match a
      case SetListeners(_, _) =>
      case DoConnect(client) => ConnectHasEffect(s, client);
      case NewPromise =>
      case Resolve(q, how) =>
      case DoThen(q, hasF, hasR) => ThenHasEffect(s, q, hasF, hasR);
      case Microtask(outcome) =>
        MicrotaskFrame(s, outcome);
        MicrotaskCalls(s, outcome);
    }
  }

  lemma ForwardCalls(s: State, p: Id, client: Client, had: bool, arg: Settlement)
    requires p < |s.promises|
    ensures RunForward(s, p, client, had, arg).past.called == s.past.called
  {
  }

  lemma MicrotaskCalls(s: State, outcome: Outcome)
    requires Enabled(s, Microtask(outcome))
    ensures Step(s, Microtask(outcome)).past.called == s.past.called
  {
    var j, u := s.queue[0], s.(queue := s.queue[1..]);
    match j.reaction
    case Call(_, _, _) =>
    case Marker(_) =>
    case Forward(c, client, had) => ForwardCalls(u, c, client, had, j.arg);
    case Noop =>
  }

  lemma {:induction false} CalledExactly(actions: seq<Action>, p: Id, n: nat)
    requires n <= |actions|
    ensures p in After(actions, n).past.called <==> ThenCalled(actions, p, n)
    decreases n
  {
    if n > 0 {
      var m := n - 1;
      var s, a := After(actions, m), actions[m];
      AfterStep(actions, m);
      StepThens(s, a, p, 0);
      CalledExactly(actions, p, m);
      if a.DoThen? && Enabled(s, a) && a.p == p { assert ThenAt(actions, m, p, a.hasF, a.hasR, |s.promises|); }
    }
  }

  /** Links are exactly the calls of `then`: who was called, what it returned, and which handlers
      were given. */
  lemma {:induction false} LinksExactly(actions: seq<Action>, n: nat, k: Link, d: Id)
    requires n <= |actions|
    ensures LinkedBefore(actions, n, k, d)
            <==> (d in After(actions, n).past.links && After(actions, n).past.links[d] == k)
    decreases n
  {
    if n > 0 {
      var m := n - 1;
      var s, a := After(actions, m), actions[m];
      AfterStep(actions, m);
      StepThens(s, a, k.parent, d);
      LinksExactly(actions, m, k, d);
      NoneBeforeIts(s, d);
      if a.DoThen? && Enabled(s, a) && a.p == k.parent && a.hasF == k.hasF && a.hasR == k.hasR && d == |s.promises| {
        assert ThenAt(actions, m, k.parent, k.hasF, k.hasR, d);
      }
    }
  }

  ghost predicate LinkedBefore(actions: seq<Action>, n: nat, k: Link, d: Id)
    requires n <= |actions|
  {
    exists step: nat :: step < n && ThenAt(actions, step, k.parent, k.hasF, k.hasR, d)
  }

  lemma NoneBeforeIts(s: State, d: Id)
    requires Inv(s)
    ensures d in s.past.links ==> d < |s.promises|
  {
  }

  // ---------------------------------------------------------------- rules 3 and 4

  /** Every failed connect() of every run: once the queue is empty it is rejected with r, and it is
      reported if and only if nobody called `then` on it and rules 3 and 4 do not hold of r and of
      the listeners at the call or at the rejection. */
  lemma ConnectReportedExactly(actions: seq<Action>, client: Client, i: nat, c: Id, r: Reason) returns (j: nat)
    requires Run(Init, actions).queue == [] && ConnectsAt(actions, i, client, c)
    requires var s := Run(Init, actions); c < |s.promises| && s.promises[c].status == Settled(Rejected(r))
    ensures FailsAt(actions, j, c, r)
    ensures Unhandled(Run(Init, actions), c) <==>
      !ThenCalled(actions, c, |actions|) && !Silences(actions, client, i, j, r)
  {
    var n, s := |actions|, Run(Init, actions);
    StateOf(actions, n);
    ConnectRecorded(actions, i, client, c, n);
    assert ConnectOk(s, c) && PromiseOk(s, c);
    j := FailureHappened(actions, i, client, c, n, s.past.connects[c].failure.value);
    CalledExactly(actions, c, n);
  }

  /** The step that rejects a connect() is the only one. */
  lemma FailsOnce(actions: seq<Action>, i: nat, client: Client, c: Id, j: nat, k: nat, r: Reason, q: Reason)
    requires ConnectsAt(actions, i, client, c) && FailsAt(actions, j, c, r) && FailsAt(actions, k, c, q)
    ensures j == k && r == q
  {
    if j < k { FailsFirst(actions, c, j, k, r, q); }
    if k < j { FailsFirst(actions, c, k, j, q, r); }
  }

  lemma FailsFirst(actions: seq<Action>, c: Id, j: nat, k: nat, r: Reason, q: Reason)
    requires j < k < |actions| && FailsAt(actions, j, c, r)
    ensures !FailsAt(actions, k, c, q)
  {
    FailureKept(actions, c, j, k, r);
    StateOf(actions, k);
    if After(actions, k).queue != [] { OnlyForward(After(actions, k), c); }
  }

  lemma {:induction false} FailureKept(actions: seq<Action>, c: Id, j: nat, n: nat, r: Reason)
    requires j < n <= |actions| && FailsAt(actions, j, c, r)
    ensures FailureOf(After(actions, n), c).Some?
    decreases n
  {
    var m := n - 1;
    var s := After(actions, m);
    AfterStep(actions, m);
    if m == j {
      assert JobOk(s, s.queue[0]);
      MicrotaskConnects(s, actions[m].outcome);
    } else {
      FailureKept(actions, c, j, m, r);
      StepFailure(s, actions[m], c, FailureOf(s, c).value);
    }
  }

  // ---------------------------------------------------------------- rules 1 and 2

  /** d is c, or was reached from it by calls of `then` without a rejection handler alone. */
  ghost predicate Chained(actions: seq<Action>, c: Id, d: Id)
    decreases d
  {
    d == c || exists k: nat, p: Id, hasF :: ThenAt(actions, k, p, hasF, false, d) && p < d && Chained(actions, c, p)
  }

  lemma {:induction false} ChainedIsBelow(actions: seq<Action>, c: Id, d: Id)
    ensures Chained(actions, c, d) <==> Below(Run(Init, actions), c, d)
    decreases d
  {
    var n, s := |actions|, Run(Init, actions);
    StateOf(actions, n);
    forall k: nat, p: Id, hasF | ThenAt(actions, k, p, hasF, false, d) && p < d && Chained(actions, c, p)
      ensures Below(s, c, d)
    {
      LinksExactly(actions, n, Link(p, hasF, false), d);
      ChainedIsBelow(actions, c, p);
    }
    if d != c && Below(s, c, d) {
      var k := s.past.links[d];
      LinksExactly(actions, n, k, d);
      ChainedIsBelow(actions, c, k.parent);
      var step: nat :| step < n && ThenAt(actions, step, k.parent, k.hasF, k.hasR, d);
    }
  }

  lemma {:induction false} BelowRoot(s: State, c: Id, d: Id)
    requires Inv(s) && c in s.past.connects && Below(s, c, d)
    ensures Root(s, d) == Some(c)
    decreases d
  {
    if d != c {
      BelowRoot(s, c, s.past.links[d].parent);
      assert LinkOk(s, d) && PromiseOk(s, d);
    }
  }

  lemma {:induction false} RootBelow(s: State, d: Id)
    requires Root(s, d).Some?
    ensures Below(s, Root(s, d).value, d)
    decreases d
  {
    if d !in s.past.connects { RootBelow(s, s.past.links[d].parent); }
  }

  /** If rules 3 and 4 hold of a failure, then once the queue is empty it has reached, unreported,
      every promise chained to the connect(). */
  lemma ChainIsSilent(actions: seq<Action>, client: Client, i: nat, c: Id, j: nat, r: Reason, d: Id)
    requires Run(Init, actions).queue == [] && ConnectsAt(actions, i, client, c) && FailsAt(actions, j, c, r)
    requires Silences(actions, client, i, j, r) && Chained(actions, c, d)
    ensures var s := Run(Init, actions);
      d < |s.promises| && s.promises[d].status == Settled(Rejected(r)) && !Unhandled(s, d)
  {
    var n, s := |actions|, Run(Init, actions);
    StateOf(actions, n);
    ConnectRecorded(actions, i, client, c, n);
    FailureKept(actions, c, j, n, r);
    var f := FailureOf(s, c).value;
    var k := FailureHappened(actions, i, client, c, n, f);
    FailsOnce(actions, i, client, c, j, k, r, f.reason);
    ChainedIsBelow(actions, c, d);
    BelowRoot(s, c, d);
    Completeness(actions, c, d);
  }

  /** Every recorded connect() was called. */
  lemma {:induction false} EachWasCalled(actions: seq<Action>, c: Id, n: nat) returns (i: nat, client: Client)
    requires n <= |actions| && c in After(actions, n).past.connects
    ensures ConnectsAt(actions, i, client, c) && i < n
    decreases n
  {
    i, client := 0, 0;
    NoConnects(actions);
    if n > 0 {
      var m := n - 1;
      var s, a := After(actions, m), actions[m];
      AfterStep(actions, m);
      StepConnects(s, a);
      if c in s.past.connects {
        i, client := EachWasCalled(actions, c, m);
      } else {
        NewConnect(s, a, c);
        i, client := m, a.client;
      }
    }
  }

  lemma NoConnects(actions: seq<Action>)
    ensures After(actions, 0).past.connects == map[]
  {
  }

  lemma NewConnect(s: State, a: Action, c: Id)
    requires Inv(s) && c !in s.past.connects && c in Step(s, a).past.connects
    ensures a.DoConnect? && c == |s.promises| + 1
  {
    if Enabled(s, a) {
      match a
      case SetListeners(_, _) =>
      case DoConnect(client) => ConnectHasEffect(s, client);
      case NewPromise =>
      case Resolve(p, how) =>
      case DoThen(p, hasF, hasR) => ThenHasEffect(s, p, hasF, hasR);
      case Microtask(outcome) => MicrotaskConnects(s, outcome);
    }
  }

  /** x is the failure of a connect() of which rules 3 and 4 hold. */
  ghost predicate IsSilencedFailure(actions: seq<Action>, x: Reason) {
    exists client, i: nat, c: Id, j: nat ::
      ConnectsAt(actions, i, client, c) && FailsAt(actions, j, c, x) && Silences(actions, client, i, j, x)
  }

  ghost predicate IsChained(actions: seq<Action>, d: Id) {
    exists client, i: nat, c: Id :: ConnectsAt(actions, i, client, c) && Chained(actions, c, d)
  }

  /** And only so: with an empty queue a rejection that nobody handled and nobody is told of is on a
      promise chained to a connect(), and is a failure of which rules 3 and 4 hold. */
  lemma OnlyFailuresAreSilent(actions: seq<Action>, d: Id, x: Reason)
    requires var s := Run(Init, actions);
      && s.queue == [] && d < |s.promises| && s.promises[d].origin != Native
      && s.promises[d].status == Settled(Rejected(x)) && !Unhandled(s, d)
    requires !ThenCalled(actions, d, |actions|)
    ensures IsChained(actions, d) && IsSilencedFailure(actions, x)
  {
    var n, s := |actions|, Run(Init, actions);
    StateOf(actions, n);
    CalledExactly(actions, d, n);
    ReportedExactly(actions, d);
    Soundness(actions, d);
    MarkedIsPropagated(actions, d);
    var c := Root(s, d).value;
    RootBelow(s, d);
    ChainedIsBelow(actions, c, d);
    var i, client := EachWasCalled(actions, c, n);
    assert ConnectsAt(actions, i, client, c) && Chained(actions, c, d);
    SwallowedIsFailure(actions, x);
  }

  lemma SwallowedIsFailure(actions: seq<Action>, x: Reason)
    requires x in Run(Init, actions).swallowed
    ensures IsSilencedFailure(actions, x)
  {
    var n, s := |actions|, Run(Init, actions);
    StateOf(actions, n);
    SwallowedReasons(actions, x);
    var c :| c in s.past.connects && s.past.connects[c].failure.Some? && s.past.connects[c].failure.value.reason == x
             && (s.past.connects[c].hadListener || s.past.connects[c].failure.value.hasListener);
    var i, client := EachWasCalled(actions, c, n);
    ConnectRecorded(actions, i, client, c, n);
    var j := FailureHappened(actions, i, client, c, n, s.past.connects[c].failure.value);
    assert Silences(actions, client, i, j, x);
  }

  // ---------------------------------------------------------------- what a handler does

  /** The reaction that `then` registered runs the handler given for the settlement, and the promise
      it returned becomes what the handler makes of it; without one the settlement passes on. */
  lemma HandlerDecides(actions: seq<Action>, k: nat, p: Id, hasF: bool, hasR: bool, d: Id, n: nat, job: Job)
    requires ThenAt(actions, k, p, hasF, hasR, d) && k < n < |actions| && actions[n].Microtask?
    requires After(actions, n).queue != [] && After(actions, n).queue[0] == job
    requires job.reaction.Call? && job.reaction.derived == d
    requires d < |After(actions, n).promises| && After(actions, n).promises[d].status == Pending
    ensures p < |After(actions, n).promises| && After(actions, n).promises[p].status == Settled(job.arg)
    ensures d < |After(actions, n + 1).promises|
    ensures var q := After(actions, n + 1).promises[d];
      if (job.arg.Fulfilled? && hasF) || (job.arg.Rejected? && hasR) then
        match actions[n].outcome
        case Returns => q.status == Settled(Fulfilled)
        case Throws(x) => q.status == Settled(Rejected(x))
        case ReturnsPromise => q.status == Pending && q.open
      else q.status == Settled(job.arg)
  {
    var s := After(actions, n);
    AfterStep(actions, n);
    LinksExactly(actions, n, Link(p, hasF, hasR), d);
    assert JobOk(s, job);
  }
}
