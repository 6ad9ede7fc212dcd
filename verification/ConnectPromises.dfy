/** What `js/main.js` promises about failed connects, over every run. */
module ConnectPromises {
  import opened Wrappers
  import opened PromiseMachine
  import opened PromiseInvariant

  /** The connect() whose promise d is, or from which d was reached through `.then(f)`
      calls without a rejection handler alone (rule 2); None for any other promise. */
  ghost function Root(s: State, d: Id): (c: Option<Id>)
    ensures c.Some? ==> c.value in s.past.connects
    decreases d
  {
    if d in s.past.connects then Some(d)
    else if d in s.past.links && !s.past.links[d].hasR && s.past.links[d].parent < d then
      Root(s, s.past.links[d].parent)
    else None
  }

  /** The promises Node reports when the microtask queue has drained
      (HostPromiseRejectionTracker, ECMA-262 section 27.2.1.9). */
  ghost predicate Unhandled(s: State, p: Id) {
    p < |s.promises| && s.promises[p].status.Settled? && s.promises[p].status.how.Rejected? && !s.promises[p].handled
  }

  /** `chained` holds exactly the promises rule 2 names. */
  lemma {:induction false} ChainedExactly(s: State, d: Id)
    requires Inv(s)
    ensures d in s.chained <==> Root(s, d).Some?
    decreases d
  {
    if d in s.past.connects {
      assert ConnectOk(s, d);
    } else if d in s.past.links {
      assert LinkOk(s, d);
      ChainedExactly(s, s.past.links[d].parent);
    }
  }

  /** Once the queue is empty, the failure has reached d and d is handled. */
  lemma {:induction false} SwallowedReaches(s: State, c: Id, d: Id)
    requires Inv(s) && s.queue == []
    requires Root(s, d) == Some(c) && IsSwallowed(s.past.connects[c])
    ensures d < |s.promises| && s.promises[d].status == Settled(Rejected(s.past.connects[c].failure.value.reason))
    ensures d in s.past.silenced && d in s.past.marked && s.promises[d].handled
    decreases d
  {
    if d == c {
      assert ConnectOk(s, c) && PromiseOk(s, c);
      assert SilencedOk(s, c);
    } else {
      var k := s.past.links[d];
      SwallowedReaches(s, c, k.parent);
      assert LinkOk(s, d) && SilencedOk(s, k.parent);
      assert PromiseOk(s, d);
    }
  }

  /** COMPLETENESS. In every run, when the queue drains, each promise reached from a
      connect() whose failure meets rules 3 and 4 is rejected with that very failure
      and is not reported, whenever its `.then` was called. */
  lemma Completeness(actions: seq<Action>, c: Id, d: Id)
    requires var s := Run(Init, actions);
      s.queue == [] && Root(s, d) == Some(c) && IsSwallowed(s.past.connects[c])
    ensures var s := Run(Init, actions);
      && d < |s.promises|
      && s.promises[d].status == Settled(Rejected(s.past.connects[c].failure.value.reason))
      && !Unhandled(s, d)
  {
    InitInv();
    RunKeeps(Init, actions);
    SwallowedReaches(Run(Init, actions), c, d);
  }

  /** SOUNDNESS, at every moment of every run. A promise main.js marked is connect()'s
      own or was reached from one by handler-less `.then`; the rejection that reached
      it has a swallowed reason; and swallowed reasons are connect failures that meet
      rules 3 and 4. */
  lemma Soundness(actions: seq<Action>, m: Id)
    requires m in Run(Init, actions).past.marked
    ensures var s := Run(Init, actions);
      && Root(s, m).Some?
      && (m in s.past.connects ==> IsSwallowed(s.past.connects[m]))
      && (m !in s.past.connects ==>
            && m in s.past.links && s.past.links[m].parent < |s.promises|
            && var from := s.promises[s.past.links[m].parent].status;
               from.Settled? && from.how.Rejected? && from.how.reason in s.swallowed)
  {
    var s := Run(Init, actions);
    InitInv();
    RunKeeps(Init, actions);
    ChainedExactly(s, m);
    if m in s.past.connects {
      assert ConnectOk(s, m);
    } else {
      assert LinkOk(s, m);
    }
  }

  /** Every swallowed reason is the failure of a connect() that had an `error` listener
      at the call or at the rejection, is an Error, and is not 2011. */
  lemma SwallowedReasons(actions: seq<Action>, r: Reason)
    requires r in Run(Init, actions).swallowed
    ensures r.isError && r.code != ALREADY_CONNECTED
    ensures var s := Run(Init, actions);
      exists c :: c in s.past.connects && s.past.connects[c].failure.Some?
        && s.past.connects[c].failure.value.reason == r
                  && (s.past.connects[c].hadListener || s.past.connects[c].failure.value.hasListener)
  {
    var s := Run(Init, actions);
    InitInv();
    RunKeeps(Init, actions);
    assert SwallowedOk(s, r);
    var c :| c in s.past.connects && IsSwallowed(s.past.connects[c]) && s.past.connects[c].failure.value.reason == r;
  }

  /** A marked promise ends up rejected with the swallowed reason its parent was
      rejected with; in particular it is never one whose `f` ran. */
  lemma MarkedIsPropagated(actions: seq<Action>, m: Id)
    requires var s := Run(Init, actions); m in s.past.marked && s.queue == []
    ensures var s := Run(Init, actions);
      && m < |s.promises| && s.promises[m].status.Settled? && s.promises[m].status.how.Rejected?
      && s.promises[m].status.how.reason in s.swallowed
      && (m in s.past.links ==> s.past.links[m].parent < |s.promises|
                                && s.promises[s.past.links[m].parent].status == s.promises[m].status)
  {
    var s := Run(Init, actions);
    InitInv();
    RunKeeps(Init, actions);
    if m in s.past.connects {
      assert ConnectOk(s, m) && SilencedOk(s, m) && PromiseOk(s, m);
    } else {
      assert LinkOk(s, m);
    }
  }

  /** An error thrown by f (its parent was fulfilled) stays unhandled unless the user
      calls `then` on the promise that carries it. */
  lemma ThrownErrorsSurface(actions: seq<Action>, d: Id)
    requires var s := Run(Init, actions);
      && d in s.past.links && s.past.links[d].parent < |s.promises|
      && s.promises[s.past.links[d].parent].status == Settled(Fulfilled)
      && d < |s.promises| && s.promises[d].status.Settled? && s.promises[d].status.how.Rejected?
    ensures var s := Run(Init, actions); Unhandled(s, d) <==> d !in s.past.called
  {
    var s := Run(Init, actions);
    InitInv();
    RunKeeps(Init, actions);
    assert LinkOk(s, d) && PromiseOk(s, d);
  }

  /** The promises Node reports are exactly the rejected ones on which no code called
      `then` and which main.js did not mark; promises not reached from a connect()
      by handler-less `.then` are reported as if main.js were not there. */
  lemma ReportedExactly(actions: seq<Action>, p: Id)
    requires var s := Run(Init, actions);
      p < |s.promises| && s.promises[p].origin != Native && s.promises[p].status.Settled?
        && s.promises[p].status.how.Rejected?
    ensures var s := Run(Init, actions); Unhandled(s, p) <==> p !in s.past.called && p !in s.past.marked
    ensures var s := Run(Init, actions);
      Root(s, p).None? ==> (Unhandled(s, p) <==> p !in s.past.called)
  {
    var s := Run(Init, actions);
    InitInv();
    RunKeeps(Init, actions);
    assert PromiseOk(s, p);
    ChainedExactly(s, p);
  }

  /** A failed connect() that does not meet rules 3 and 4 is itself reported, unless
      the caller called `then` on it: without a listener, with 2011, or with a reason
      that is not an Error. */
  lemma OtherFailuresSurface(actions: seq<Action>, c: Id)
    requires var s := Run(Init, actions);
      && s.queue == [] && c in s.past.connects && s.past.connects[c].failure.Some? && !IsSwallowed(s.past.connects[c])
    ensures var s := Run(Init, actions); Unhandled(s, c) <==> c !in s.past.called
  {
    var s := Run(Init, actions);
    InitInv();
    RunKeeps(Init, actions);
    assert ConnectOk(s, c) && PromiseOk(s, c);
  }

  // ---------------------------------------------------------------- the 1.x README

  /** `connect()` was called, on a client with `count` listeners. */
  ghost predicate Connecting(s: State, count: nat) {
    && s.promises == [Promise(Native, Pending, true, true, [Forward(1, 0, count > 0)]),
                      Promise(Connected, Pending, false, false, [])]
    && s.queue == [] && s.swallowed == {} && s.chained == {1}
    && s.listeners == map[0 := count] && s.past.links == map[] && 1 in s.past.connects
  }

  /** `.then(f)` was called on its promise. */
  ghost predicate Waiting(s: State, count: nat) {
    && s.promises == [Promise(Native, Pending, true, true, [Forward(1, 0, count > 0)]),
                      Promise(Connected, Pending, true, false, [Call(2, true, false), Marker(2)]),
                      Promise(Derived, Pending, false, false, [])]
    && s.queue == [] && s.swallowed == {}
    && s.listeners == map[0 := count] && s.past.links == map[2 := Link(1, true, false)] && 1 in s.past.connects
  }

  /** The connection failed. */
  ghost predicate Failing(s: State, count: nat, r: Reason) {
    && s.promises == [Promise(Native, Settled(Rejected(r)), true, true, []),
                      Promise(Connected, Pending, true, false, [Call(2, true, false), Marker(2)]),
                      Promise(Derived, Pending, false, false, [])]
    && s.queue == [Job(Forward(1, 0, count > 0), Rejected(r))] && s.swallowed == {}
    && s.listeners == map[0 := count] && s.past.links == map[2 := Link(1, true, false)] && 1 in s.past.connects
  }

  /** The failure reached connect()'s promise. */
  ghost predicate Forwarded(s: State, count: nat, r: Reason) {
    && |s.promises| == 3
    && s.promises[1] == Promise(Connected, Settled(Rejected(r)), true, false, [])
    && s.promises[2] == Promise(Derived, Pending, false, false, [])
    && s.swallowed == (if Swallows(r, count > 0, count > 0) then {r} else {})
    && s.queue == [Job(Call(2, true, false), Rejected(r)), Job(Marker(2), Rejected(r))]
                  + (if Swallows(r, count > 0, count > 0) then [Job(Noop, Rejected(r))] else [])
  }

  /** What ReadmeFailing takes: connect, `.then(f)`, and a rejected connection. */
  function ReadmeActions(count: nat, r: Reason): seq<Action> {
    [SetListeners(0, count), DoConnect(0), DoThen(1, true, false), Resolve(0, Rejected(r))]
  }

  lemma RunFour(s: State, a: Action, b: Action, c: Action, d: Action)
    ensures Run(s, [a, b, c, d]) == Step(Step(Step(Step(s, a), b), c), d)
  {
    assert [a, b, c, d][1..] == [b, c, d] && [b, c, d][1..] == [c, d] && [c, d][1..] == [d] && [d][1..] == [];
    var t := Step(Step(s, a), b);
    assert Run(t, [c, d]) == Run(Step(t, c), [d]) == Run(Step(Step(t, c), d), []);
  }

  lemma ReadmeConnecting(count: nat)
    ensures Connecting(Step(Step(Init, SetListeners(0, count)), DoConnect(0)), count)
  {
    var s := Step(Init, SetListeners(0, count));
    assert s.listeners == map[0 := count] && s.promises == [] && ListenerCount(s, 0) == count;
    ConnectHasEffect(s, 0);
  }

  lemma ReadmeWaiting(s: State, count: nat)
    requires Connecting(s, count)
    ensures Waiting(Step(s, DoThen(1, true, false)), count)
  {
    ThenHasEffect(s, 1, true, false);
    var t := Step(s, DoThen(1, true, false));
    assert [] + Registered(s, 1, 2, true, false) == [Call(2, true, false), Marker(2)];
    assert t.promises == [s.promises[0], t.promises[1], t.promises[2]];
  }

  lemma ReadmeFailing(s: State, count: nat, r: Reason)
    requires Waiting(s, count)
    ensures Failing(Step(s, Resolve(0, Rejected(r))), count, r)
  {
    assert JobsOf([Forward(1, 0, count > 0)], Rejected(r)) == [Job(Forward(1, 0, count > 0), Rejected(r))];
  }

  /** The first microtask. */
  lemma ReadmeForwarded(s: State, count: nat, r: Reason)
    requires Failing(s, count, r)
    ensures Forwarded(Step(s, Microtask(Returns)), count, r)
  {
    assert JobsOf([Call(2, true, false), Marker(2)], Rejected(r))
        == [Job(Call(2, true, false), Rejected(r)), Job(Marker(2), Rejected(r))];
  }

  /** The failure reached the derived promise. */
  ghost predicate Passed(s: State, count: nat, r: Reason) {
    && |s.promises| == 3
    && s.promises[1] == Promise(Connected, Settled(Rejected(r)), true, false, [])
    && s.promises[2] == Promise(Derived, Settled(Rejected(r)), false, false, [])
    && s.swallowed == (if Swallows(r, count > 0, count > 0) then {r} else {})
    && s.queue == [Job(Marker(2), Rejected(r))]
                  + (if Swallows(r, count > 0, count > 0) then [Job(Noop, Rejected(r))] else [])
  }

  /** The second microtask. */
  lemma ReadmePassed(s: State, count: nat, r: Reason)
    requires Forwarded(s, count, r)
    ensures Passed(Step(s, Microtask(Returns)), count, r)
  {
    assert s.queue[1..] == [Job(Marker(2), Rejected(r))] + s.queue[2..];
    assert JobsOf([], Rejected(r)) == [];
  }

  /** The third. */
  lemma ReadmeMarked(s: State, count: nat, r: Reason)
    requires Passed(s, count, r)
    ensures var t := Step(s, Microtask(Returns));
      && (forall j <- t.queue :: j.reaction == Noop)
      && !Unhandled(t, 1)
      && (Unhandled(t, 2) <==> !Swallows(r, count > 0, count > 0))
  {
  }

  /** `connect().then(f)` whose connection fails: the failure and both promises are silent if
      and only if rules 3 and 4 hold. */
  lemma ReadmePattern(count: nat, r: Reason)
    ensures var s := Run(Init, ReadmeActions(count, r));
      var t := Step(Step(Step(s, Microtask(Returns)), Microtask(Returns)), Microtask(Returns));
      && (forall j <- t.queue :: j.reaction == Noop)
      && !Unhandled(t, 1)
      && (Unhandled(t, 2) <==> !Swallows(r, count > 0, count > 0))
  {
    RunFour(Init, SetListeners(0, count), DoConnect(0), DoThen(1, true, false), Resolve(0, Rejected(r)));
    ReadmeConnecting(count);
    var connecting := Step(Step(Init, SetListeners(0, count)), DoConnect(0));
    ReadmeWaiting(connecting, count);
    var waiting := Step(connecting, DoThen(1, true, false));
    ReadmeFailing(waiting, count, r);
    var failing := Step(waiting, Resolve(0, Rejected(r)));
    ReadmeForwarded(failing, count, r);
    ReadmePassed(Step(failing, Microtask(Returns)), count, r);
    ReadmeMarked(Step(Step(failing, Microtask(Returns)), Microtask(Returns)), count, r);
  }
}
