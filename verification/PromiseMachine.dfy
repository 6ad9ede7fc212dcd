/** The promises, reactions and microtask queue that `js/main.js` runs on, and its
    own code as steps over them.

    A promise that only the environment settles (the native binding's own promise,
    a promise of the user's, a `.then(f)` promise whose `f` returned another promise)
    is `open`: the environment may settle it at any later moment, in any way.
    The steps follow PerformPromiseThen (ECMA-262, section 27.2.5.4.1) and
    TriggerPromiseReactions (section 27.2.1.8). */
module PromiseMachine {
  import opened Wrappers

  type Id = nat
  type Client = nat

  /** A rejection reason: `identity` is what a WeakSet compares. */
  datatype Reason = Reason(identity: nat, isError: bool, code: int)

  const ALREADY_CONNECTED := 2011

  datatype Settlement = Fulfilled | Rejected(reason: Reason)
  datatype Status = Pending | Settled(how: Settlement)

  datatype Reaction =
    | Call(derived: Id, hasF: bool, hasR: bool)                    // a user's then(f, r)
    | Marker(target: Id)                                           // main.js, rule 2
    | Forward(promise: Id, client: Client, hadListener: bool)      // native promise to connect()'s own
    | Noop                                                         // markHandled

  datatype Origin = Native | Connected | Derived | Outside
  datatype Promise = Promise(origin: Origin, status: Status, handled: bool, open: bool, reactions: seq<Reaction>)
  datatype Job = Job(reaction: Reaction, arg: Settlement)

  /** What a user's handler does when it runs. */
  datatype Outcome = Returns | Throws(thrown: Reason) | ReturnsPromise

  datatype Failure = Failure(reason: Reason, hasListener: bool)
  datatype Connection = Connection(native: Id, client: Client, hadListener: bool, failure: Option<Failure>)
  datatype Link = Link(parent: Id, hasF: bool, hasR: bool)

  /** What has happened so far. Steps write it; no step's effect on promises depends on it. */
  datatype History = History(
    connects: map<Id, Connection>,   // connect() promises
    links: map<Id, Link>,            // promises returned by then, with the promise they came from
    called: set<Id>,                 // promises on which user code called then
    marked: set<Id>,                 // promises main.js passed to markHandled
    silenced: set<Id>)               // swallowed failures and the promises they propagated to

  datatype State = State(
    promises: seq<Promise>,
    queue: seq<Job>,
    swallowed: set<Reason>,
    chained: set<Id>,
    listeners: map<Client, nat>,
    past: History)

  const Init := State([], [], {}, {}, map[], History(map[], map[], {}, {}, {}))

  function ListenerCount(s: State, client: Client): nat {
    if client in s.listeners then s.listeners[client] else 0
  }

  /** Rules 3 and 4 of main.js. */
  predicate Swallows(reason: Reason, hadListener: bool, hasListener: bool) {
    reason.isError && reason.code != ALREADY_CONNECTED && (hadListener || hasListener)
  }

  predicate IsSwallowed(c: Connection) {
    c.failure.Some? && Swallows(c.failure.value.reason, c.hadListener, c.failure.value.hasListener)
  }

  // ---------------------------------------------------------------- primitives

  function JobsOf(reactions: seq<Reaction>, how: Settlement): (jobs: seq<Job>)
    ensures |jobs| == |reactions|
    ensures forall i :: 0 <= i < |jobs| ==> jobs[i] == Job(reactions[i], how)
  {
    seq(|reactions|, i requires 0 <= i < |reactions| => Job(reactions[i], how))
  }

  /** RejectPromise / FulfillPromise: a settled promise stays as it is. */
  function Settle(s: State, p: Id, how: Settlement): State
    requires p < |s.promises|
  {
    var q := s.promises[p];
    if q.status != Pending then s
    else s.(promises := s.promises[p := q.(status := Settled(how), reactions := [])],
            queue := s.queue + JobsOf(q.reactions, how))
  }

  function PerformThen(s: State, p: Id, r: Reaction): State
    requires p < |s.promises|
  {
    var q := s.promises[p].(handled := true);
    if q.status == Pending then s.(promises := s.promises[p := q.(reactions := q.reactions + [r])])
    else s.(promises := s.promises[p := q], queue := s.queue + [Job(r, q.status.how)])
  }

  function Allocate(s: State, origin: Origin, open: bool): State {
    s.(promises := s.promises + [Promise(origin, Pending, false, open, [])])
  }

  // ---------------------------------------------------------------- main.js

  /** `markHandled(promise)`. */
  function MarkHandled(s: State, p: Id): State
    requires p < |s.promises|
  {
    var t := PerformThen(s, p, Noop);
    t.(past := t.past.(marked := t.past.marked + {p}))
  }

  /** `Promise.prototype.then` called by user code; the new promise is number |s.promises|. */
  function SuperThen(s: State, p: Id, hasF: bool, hasR: bool): State
    requires p < |s.promises|
  {
    var d := |s.promises|;
    var t := PerformThen(Allocate(s, Derived, false), p, Call(d, hasF, hasR));
    t.(past := t.past.(links := t.past.links[d := Link(p, hasF, hasR)], called := t.past.called + {p}))
  }

  /** `ConnectPromise.then`; on any other promise, `chained` does not hold it and this is `SuperThen`. */
  function Then(s: State, p: Id, hasF: bool, hasR: bool): State
    requires p < |s.promises|
  {
    var d := |s.promises|;
    var t := SuperThen(s, p, hasF, hasR);
    if p in t.chained && !hasR then
      PerformThen(t.(chained := t.chained + {d}), p, Marker(d))
    else t
  }

  /** The wrapped `connect`: promise |s.promises| is the native one, the next is the ConnectPromise. */
  function Connect(s: State, client: Client): State {
    var native := |s.promises|;
    var had := ListenerCount(s, client) > 0;
    var t := PerformThen(Allocate(Allocate(s, Native, true), Connected, false), native,
                         Forward(native + 1, client, had));
    t.(chained := t.chained + {native + 1},
       past := t.past.(connects := t.past.connects[native + 1 := Connection(native, client, had, None)]))
  }

  function Recorded(s: State, p: Id, failure: Failure): State {
    if p !in s.past.connects then s
    else
      var connection := s.past.connects[p].(failure := Some(failure));
      s.(past := s.past.(connects := s.past.connects[p := connection]))
  }

  /** The reaction `connect` registers on the native promise. */
  function RunForward(s: State, p: Id, client: Client, had: bool, arg: Settlement): State
    requires p < |s.promises|
  {
    var t := Settle(s, p, arg);
    if arg.Fulfilled? then t
    else
      var has := ListenerCount(t, client) > 0;
      var u := Recorded(t, p, Failure(arg.reason, has));
      if Swallows(arg.reason, had, has) then
        MarkHandled(u.(swallowed := u.swallowed + {arg.reason},
                       past := u.past.(silenced := u.past.silenced + {p})), p)
      else u
  }

  function RunMarker(s: State, target: Id, arg: Settlement): State
    requires target < |s.promises|
  {
    if arg.Rejected? && arg.reason in s.swallowed then MarkHandled(s, target) else s
  }

  /** A user's reaction: run the handler if there is one, else pass the settlement on. */
  function RunCall(s: State, r: Reaction, arg: Settlement, outcome: Outcome): State
    requires r.Call? && r.derived < |s.promises|
  {
    var d := r.derived;
    if (if arg.Fulfilled? then r.hasF else r.hasR) then
      match outcome
      case Returns => Settle(s, d, Fulfilled)
      case Throws(x) => Settle(s, d, Rejected(x))
      case ReturnsPromise => s.(promises := s.promises[d := s.promises[d].(open := true)])
    else
      var t := Settle(s, d, arg);
      if d in s.past.links && s.past.links[d].parent in s.past.silenced
      then t.(past := t.past.(silenced := t.past.silenced + {d}))
      else t
  }

  // ---------------------------------------------------------------- runs

  datatype Action =
    | SetListeners(client: Client, count: nat)
    | DoConnect(client: Client)
    | NewPromise
    | Resolve(p: Id, how: Settlement)                 // the environment settles an open promise
    | DoThen(p: Id, hasF: bool, hasR: bool)           // also await, catch, finally, Promise.all, ...
    | Microtask(outcome: Outcome)                     // the job at the head of the queue runs

  predicate ReactionInRange(s: State, r: Reaction) {
    match r
    case Call(d, _, _) => d < |s.promises|
    case Marker(d) => d < |s.promises|
    case Forward(c, _, _) => c < |s.promises|
    case Noop => true
  }

  function RunJob(s: State, job: Job, outcome: Outcome): State
    requires ReactionInRange(s, job.reaction)
  {
    match job.reaction
    case Call(_, _, _) => RunCall(s, job.reaction, job.arg, outcome)
    case Marker(d) => RunMarker(s, d, job.arg)
    case Forward(c, client, had) => RunForward(s, c, client, had, job.arg)
    case Noop => s
  }

  /** Whether the environment can do this now: it holds no reference to a native promise. */
  predicate Enabled(s: State, a: Action) {
    match a
    case SetListeners(_, _) => true
    case DoConnect(_) => true
    case NewPromise => true
    case Resolve(p, _) => p < |s.promises| && s.promises[p].open && s.promises[p].status == Pending
    case DoThen(p, _, _) => p < |s.promises| && s.promises[p].origin != Native
    case Microtask(_) => s.queue != [] && ReactionInRange(s, s.queue[0].reaction)
  }

  /** An action that is not enabled does nothing. */
  function Step(s: State, a: Action): State {
    if !Enabled(s, a) then s else
    match a
    case SetListeners(client, n) => s.(listeners := s.listeners[client := n])
    case DoConnect(client) => Connect(s, client)
    case NewPromise => Allocate(s, Outside, true)
    case Resolve(p, how) => Settle(s, p, how)
    case DoThen(p, hasF, hasR) => Then(s, p, hasF, hasR)
    case Microtask(outcome) => RunJob(s.(queue := s.queue[1..]), s.queue[0], outcome)
  }

  function Run(s: State, actions: seq<Action>): State
    decreases |actions|
  {
    if actions == [] then s else Run(Step(s, actions[0]), actions[1..])
  }
}
