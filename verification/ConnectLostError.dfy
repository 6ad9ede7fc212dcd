/** A run in which an error thrown by `f` in `connect().then(f).then(g)` is reported nowhere: it
    is the failure of an earlier connect(), thrown again. */
module ConnectLostError {
  import opened PromiseMachine
  import opened PromiseInvariant
  import opened ConnectPromises

  function NativeOne(status: Status, reactions: seq<Reaction>): Promise {
    Promise(Native, status, true, true, reactions)
  }
  function Own(status: Status, handled: bool, reactions: seq<Reaction>): Promise {
    Promise(Connected, status, handled, false, reactions)
  }
  function Next(status: Status, handled: bool, reactions: seq<Reaction>): Promise {
    Promise(Derived, status, handled, false, reactions)
  }

  const OK := Settled(Fulfilled)

  ghost function Parents(links: map<Id, Link>): set<Id> { set d | d in links :: links[d].parent }

  lemma ParentsAre()
    ensures Parents(map[]) == {} && Parents(F_LINK) == {3} && Parents(LINKS) == {3, 4}
  {
    assert 4 in F_LINK && 4 in LINKS && 5 in LINKS;
  }

  /** The state between the steps, for one client with one listener. */
  ghost predicate At(s: State, promises: seq<Promise>, queue: seq<Job>, chained: set<Id>, links: map<Id, Link>,
                     swallowed: set<Reason>) {
    && s.promises == promises && s.queue == queue && s.chained == chained && s.swallowed == swallowed
    && s.past.links == links && s.past.called == Parents(links) && s.listeners == map[0 := 1]
  }

  predicate Swallowable(r: Reason) { r.isError && r.code != ALREADY_CONNECTED }

  // ---------------------------------------------------------------- the first connect() fails

  lemma FirstConnects(s: State)
    requires s == Step(Step(Init, SetListeners(0, 1)), DoConnect(0))
    ensures At(s, [NativeOne(Pending, [Forward(1, 0, true)]), Own(Pending, false, [])], [], {1}, map[], {})
  {
    var t := Step(Init, SetListeners(0, 1));
    assert t.listeners == map[0 := 1] && t.promises == [] && ListenerCount(t, 0) == 1;
    ConnectHasEffect(t, 0);
  }

  lemma FirstFails(s: State, r: Reason)
    requires At(s, [NativeOne(Pending, [Forward(1, 0, true)]), Own(Pending, false, [])], [], {1}, map[], {})
    ensures At(Step(s, Resolve(0, Rejected(r))), [NativeOne(Settled(Rejected(r)), []), Own(Pending, false, [])],
               [Job(Forward(1, 0, true), Rejected(r))], {1}, map[], {})
  {
    assert JobsOf([Forward(1, 0, true)], Rejected(r)) == [Job(Forward(1, 0, true), Rejected(r))];
  }

  function Failed(r: Reason): seq<Promise> {
    [NativeOne(Settled(Rejected(r)), []), Own(Settled(Rejected(r)), true, [])]
  }

  lemma FirstSwallowed(s: State, r: Reason)
    requires Swallowable(r)
    requires At(s, [NativeOne(Settled(Rejected(r)), []), Own(Pending, false, [])],
                [Job(Forward(1, 0, true), Rejected(r))], {1}, map[], {})
    ensures At(Step(s, Microtask(Returns)), Failed(r), [Job(Noop, Rejected(r))], {1}, map[], {r})
  {
    var u := s.(queue := s.queue[1..]);
    assert JobsOf([], Rejected(r)) == [] && u.queue == [];
    var t := Settle(u, 1, Rejected(r));
    assert t.promises == [NativeOne(Settled(Rejected(r)), []), Own(Settled(Rejected(r)), false, [])] && t.queue == [];
    assert {} + {r} == {r};
  }

  lemma FirstDone(s: State, r: Reason)
    requires At(s, Failed(r), [Job(Noop, Rejected(r))], {1}, map[], {r})
    ensures At(Step(s, Microtask(Returns)), Failed(r), [], {1}, map[], {r})
  {
  }

  // ---------------------------------------------------------------- the second one succeeds

  lemma SecondConnects(s: State, r: Reason)
    requires At(s, Failed(r), [], {1}, map[], {r})
    ensures At(Step(s, DoConnect(0)), Failed(r) + [NativeOne(Pending, [Forward(3, 0, true)]), Own(Pending, false, [])],
               [], {1, 3}, map[], {r})
  {
    ConnectHasEffect(s, 0);
  }

  const F_LINK := map[4 := Link(3, true, false)]
  const LINKS := map[4 := Link(3, true, false), 5 := Link(4, true, false)]
  const ON_THREE := [Call(4, true, false), Marker(4)]
  const ON_FOUR := [Call(5, true, false), Marker(5)]

  /** `.then(f)` */
  lemma ThenF(s: State, r: Reason)
    requires At(s, Failed(r) + [NativeOne(Pending, [Forward(3, 0, true)]), Own(Pending, false, [])], [], {1, 3},
                map[], {r})
    ensures At(Step(s, DoThen(3, true, false)),
               Failed(r) + [NativeOne(Pending, [Forward(3, 0, true)]), Own(Pending, true, ON_THREE),
                            Next(Pending, false, [])],
               [], {1, 3, 4}, F_LINK, {r})
  {
    ParentsAre();
    ThenHasEffect(s, 3, true, false);
    var t := Step(s, DoThen(3, true, false));
    assert [] + Registered(s, 3, 4, true, false) == ON_THREE;
    assert t.promises == [t.promises[0], t.promises[1], t.promises[2], t.promises[3], t.promises[4]];
  }

  /** `.then(g)` */
  lemma ThenG(s: State, r: Reason)
    requires At(s, Failed(r) + [NativeOne(Pending, [Forward(3, 0, true)]), Own(Pending, true, ON_THREE),
                                Next(Pending, false, [])],
                [], {1, 3, 4}, F_LINK, {r})
    ensures At(Step(s, DoThen(4, true, false)),
               Failed(r) + [NativeOne(Pending, [Forward(3, 0, true)])]
                 + Chain(Pending, ON_THREE, Pending, ON_FOUR, Pending, false),
               [], {1, 3, 4, 5}, LINKS, {r})
  {
    ParentsAre();
    ThenHasEffect(s, 4, true, false);
    var t := Step(s, DoThen(4, true, false));
    assert [] + Registered(s, 4, 5, true, false) == ON_FOUR;
    assert t.promises == [t.promises[0], t.promises[1], t.promises[2], t.promises[3], t.promises[4], t.promises[5]];
  }

  /** The second connect()'s promise and the two derived from it. */
  function Chain(three: Status, onThree: seq<Reaction>, four: Status, onFour: seq<Reaction>, five: Status,
                 marked: bool): seq<Promise> {
    [Own(three, true, onThree), Next(four, true, onFour), Next(five, marked, [])]
  }

  /** All promises once the second connection is made. */
  function Made(r: Reason, chain: seq<Promise>): seq<Promise> { Failed(r) + [NativeOne(OK, [])] + chain }

  lemma SecondMade(s: State, r: Reason)
    requires At(s,
                Failed(r) + [NativeOne(Pending, [Forward(3, 0, true)])]
                  + Chain(Pending, ON_THREE, Pending, ON_FOUR, Pending, false),
                [], {1, 3, 4, 5}, LINKS, {r})
    ensures At(Step(s, Resolve(2, Fulfilled)), Made(r, Chain(Pending, ON_THREE, Pending, ON_FOUR, Pending, false)),
               [Job(Forward(3, 0, true), Fulfilled)], {1, 3, 4, 5}, LINKS, {r})
  {
    assert JobsOf([Forward(3, 0, true)], Fulfilled) == [Job(Forward(3, 0, true), Fulfilled)];
  }

  lemma SecondForwarded(s: State, r: Reason)
    requires At(s, Made(r, Chain(Pending, ON_THREE, Pending, ON_FOUR, Pending, false)),
                [Job(Forward(3, 0, true), Fulfilled)], {1, 3, 4, 5}, LINKS, {r})
    ensures At(Step(s, Microtask(Returns)), Made(r, Chain(OK, [], Pending, ON_FOUR, Pending, false)),
               [Job(Call(4, true, false), Fulfilled), Job(Marker(4), Fulfilled)], {1, 3, 4, 5}, LINKS, {r})
  {
    assert s.queue[1..] == [];
    assert JobsOf(ON_THREE, Fulfilled) == [Job(Call(4, true, false), Fulfilled), Job(Marker(4), Fulfilled)];
  }

  // ---------------------------------------------------------------- f throws the first failure

  lemma FThrows(s: State, r: Reason)
    requires At(s, Made(r, Chain(OK, [], Pending, ON_FOUR, Pending, false)),
                [Job(Call(4, true, false), Fulfilled), Job(Marker(4), Fulfilled)], {1, 3, 4, 5}, LINKS, {r})
    ensures At(Step(s, Microtask(Throws(r))), Made(r, Chain(OK, [], Settled(Rejected(r)), [], Pending, false)),
               [Job(Marker(4), Fulfilled), Job(Call(5, true, false), Rejected(r)), Job(Marker(5), Rejected(r))],
               {1, 3, 4, 5}, LINKS, {r})
  {
    assert s.queue[1..] == [Job(Marker(4), Fulfilled)];
    assert JobsOf(ON_FOUR, Rejected(r)) == [Job(Call(5, true, false), Rejected(r)), Job(Marker(5), Rejected(r))];
  }

  lemma FourNotMarked(s: State, r: Reason)
    requires At(s, Made(r, Chain(OK, [], Settled(Rejected(r)), [], Pending, false)),
                [Job(Marker(4), Fulfilled), Job(Call(5, true, false), Rejected(r)), Job(Marker(5), Rejected(r))],
                {1, 3, 4, 5}, LINKS, {r})
    ensures At(Step(s, Microtask(Returns)), Made(r, Chain(OK, [], Settled(Rejected(r)), [], Pending, false)),
               [Job(Call(5, true, false), Rejected(r)), Job(Marker(5), Rejected(r))], {1, 3, 4, 5}, LINKS, {r})
  {
  }

  lemma FiveRejected(s: State, r: Reason)
    requires At(s, Made(r, Chain(OK, [], Settled(Rejected(r)), [], Pending, false)),
                [Job(Call(5, true, false), Rejected(r)), Job(Marker(5), Rejected(r))], {1, 3, 4, 5}, LINKS, {r})
    ensures At(Step(s, Microtask(Returns)),
               Made(r, Chain(OK, [], Settled(Rejected(r)), [], Settled(Rejected(r)), false)),
               [Job(Marker(5), Rejected(r))], {1, 3, 4, 5}, LINKS, {r})
  {
    assert s.queue[1..] == [Job(Marker(5), Rejected(r))];
    assert JobsOf([], Rejected(r)) == [];
  }

  lemma FiveMarked(s: State, r: Reason)
    requires At(s, Made(r, Chain(OK, [], Settled(Rejected(r)), [], Settled(Rejected(r)), false)),
                [Job(Marker(5), Rejected(r))], {1, 3, 4, 5}, LINKS, {r})
    ensures At(Step(s, Microtask(Returns)),
               Made(r, Chain(OK, [], Settled(Rejected(r)), [], Settled(Rejected(r)), true)),
               [Job(Noop, Rejected(r))], {1, 3, 4, 5}, LINKS, {r})
  {
    assert s.queue[1..] == [];
  }

  lemma LastJob(s: State, r: Reason, promises: seq<Promise>)
    requires At(s, promises, [Job(Noop, Rejected(r))], {1, 3, 4, 5}, LINKS, {r})
    ensures At(Step(s, Microtask(Returns)), promises, [], {1, 3, 4, 5}, LINKS, {r})
  {
  }

  // ---------------------------------------------------------------- the run

  function Part1(r: Reason): seq<Action> {
    [SetListeners(0, 1), DoConnect(0), Resolve(0, Rejected(r)), Microtask(Returns)]
  }
  function Part2(): seq<Action> { [Microtask(Returns), DoConnect(0), DoThen(3, true, false), DoThen(4, true, false)] }
  function Part3(r: Reason): seq<Action> {
    [Resolve(2, Fulfilled), Microtask(Returns), Microtask(Throws(r)), Microtask(Returns)]
  }
  function Part4(): seq<Action> { [Microtask(Returns), Microtask(Returns), Microtask(Returns), SetListeners(0, 1)] }

  lemma {:induction false} RunConcat(s: State, a: seq<Action>, b: seq<Action>)
    ensures Run(s, a + b) == Run(Run(s, a), b)
    decreases |a|
  {
    if a == [] {
      assert a + b == b;
    } else {
      assert (a + b)[1..] == a[1..] + b;
      RunConcat(Step(s, a[0]), a[1..], b);
    }
  }

  lemma RunPart1(r: Reason) returns (s: State)
    requires Swallowable(r)
    ensures s == Run(Init, Part1(r)) && At(s, Failed(r), [Job(Noop, Rejected(r))], {1}, map[], {r})
  {
    RunFour(Init, SetListeners(0, 1), DoConnect(0), Resolve(0, Rejected(r)), Microtask(Returns));
    s := Step(Step(Init, SetListeners(0, 1)), DoConnect(0));
    FirstConnects(s);
    FirstFails(s, r);
    s := Step(s, Resolve(0, Rejected(r)));
    FirstSwallowed(s, r);
    s := Step(s, Microtask(Returns));
  }

  lemma RunPart2(s0: State, r: Reason) returns (s: State)
    requires At(s0, Failed(r), [Job(Noop, Rejected(r))], {1}, map[], {r})
    ensures s == Run(s0, Part2())
    ensures At(s,
               Failed(r) + [NativeOne(Pending, [Forward(3, 0, true)])]
                 + Chain(Pending, ON_THREE, Pending, ON_FOUR, Pending, false),
               [], {1, 3, 4, 5}, LINKS, {r})
  {
    RunFour(s0, Microtask(Returns), DoConnect(0), DoThen(3, true, false), DoThen(4, true, false));
    FirstDone(s0, r);
    s := Step(s0, Microtask(Returns));
    SecondConnects(s, r);
    s := Step(s, DoConnect(0));
    ThenF(s, r);
    s := Step(s, DoThen(3, true, false));
    ThenG(s, r);
    s := Step(s, DoThen(4, true, false));
  }

  lemma RunPart3(s0: State, r: Reason) returns (s: State)
    requires At(s0,
                Failed(r) + [NativeOne(Pending, [Forward(3, 0, true)])]
                  + Chain(Pending, ON_THREE, Pending, ON_FOUR, Pending, false),
                [], {1, 3, 4, 5}, LINKS, {r})
    ensures s == Run(s0, Part3(r))
    ensures At(s, Made(r, Chain(OK, [], Settled(Rejected(r)), [], Pending, false)),
               [Job(Call(5, true, false), Rejected(r)), Job(Marker(5), Rejected(r))], {1, 3, 4, 5}, LINKS, {r})
  {
    RunFour(s0, Resolve(2, Fulfilled), Microtask(Returns), Microtask(Throws(r)), Microtask(Returns));
    SecondMade(s0, r);
    s := Step(s0, Resolve(2, Fulfilled));
    SecondForwarded(s, r);
    s := Step(s, Microtask(Returns));
    FThrows(s, r);
    s := Step(s, Microtask(Throws(r)));
    FourNotMarked(s, r);
    s := Step(s, Microtask(Returns));
  }

  lemma RunPart4(s0: State, r: Reason) returns (s: State)
    requires At(s0, Made(r, Chain(OK, [], Settled(Rejected(r)), [], Pending, false)),
                [Job(Call(5, true, false), Rejected(r)), Job(Marker(5), Rejected(r))], {1, 3, 4, 5}, LINKS, {r})
    ensures s == Run(s0, Part4())
    ensures At(s, Made(r, Chain(OK, [], Settled(Rejected(r)), [], Settled(Rejected(r)), true)), [],
               {1, 3, 4, 5}, LINKS, {r})
  {
    RunFour(s0, Microtask(Returns), Microtask(Returns), Microtask(Returns), SetListeners(0, 1));
    FiveRejected(s0, r);
    s := Step(s0, Microtask(Returns));
    FiveMarked(s, r);
    s := Step(s, Microtask(Returns));
    LastJob(s, r, s.promises);
    s := Step(s, Microtask(Returns));
    assert s.listeners[0 := 1] == map[0 := 1];
    s := Step(s, SetListeners(0, 1));
  }

  lemma RunParts(s: State, a: seq<Action>, b: seq<Action>, c: seq<Action>, d: seq<Action>)
    ensures Run(s, a + b + c + d) == Run(Run(Run(Run(s, a), b), c), d)
  {
    RunConcat(s, a + b + c, d);
    RunConcat(s, a + b, c);
    RunConcat(s, a, b);
  }

  function LostErrorRun(r: Reason): seq<Action> { Part1(r) + Part2() + Part3(r) + Part4() }

  lemma LostErrorState(r: Reason) returns (s: State)
    requires Swallowable(r)
    ensures s == Run(Run(Run(Run(Init, Part1(r)), Part2()), Part3(r)), Part4())
    ensures At(s, Made(r, Chain(OK, [], Settled(Rejected(r)), [], Settled(Rejected(r)), true)), [],
               {1, 3, 4, 5}, LINKS, {r})
  {
    var s1 := RunPart1(r);
    var s2 := RunPart2(s1, r);
    var s3 := RunPart3(s2, r);
    s := RunPart4(s3, r);
  }

  /** In `connect().then(f).then(g)`, promises 3, 4 and 5, `f` throws the failure r of an earlier
      connect(); nobody calls `then` on the last promise; and nothing is reported. */
  ghost predicate NothingReported(s: State, r: Reason) {
    && s.queue == [] && |s.promises| == 6
    && s.past.links == LINKS && 3 in s.chained && 5 !in s.past.called
    && s.promises[3].status == OK
    && s.promises[4].status == Settled(Rejected(r)) && s.promises[5].status == Settled(Rejected(r))
    && forall p :: !Unhandled(s, p)
  }

  lemma FinalState(s: State, r: Reason)
    requires At(s, Made(r, Chain(OK, [], Settled(Rejected(r)), [], Settled(Rejected(r)), true)), [],
                {1, 3, 4, 5}, LINKS, {r})
    ensures NothingReported(s, r)
  {
    ParentsAre();
  }

  lemma ThrownErrorLost(r: Reason)
    requires Swallowable(r)
    ensures NothingReported(Run(Init, LostErrorRun(r)), r)
  {
    RunParts(Init, Part1(r), Part2(), Part3(r), Part4());
    var s := LostErrorState(r);
    FinalState(s, r);
  }
}
