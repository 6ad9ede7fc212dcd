/** `js/main.js` itself, over a heap of promises: each method changes the runtime's
    fields as the source does, and is proved to take exactly the step of
    PromiseMachine that the theorems of ConnectPromises are about. */
module ConnectRuntime {
  import opened Wrappers
  import opened PromiseMachine

  class Runtime {
    var promises: seq<Promise>
    var queue: seq<Job>
    var swallowed: set<Reason>
    var chained: set<Id>
    var listeners: map<Client, nat>
    ghost var past: History

    ghost function View(): State
      reads this
    {
      State(promises, queue, swallowed, chained, listeners, past)
    }

    constructor ()
      ensures View() == Init
    {
      promises, queue, swallowed, chained, listeners := [], [], {}, {}, map[];
      past := Init.past;
    }

    method NewPromise(origin: Origin, open: bool) returns (p: Id)
      modifies this
      ensures p == old(|promises|) && View() == Allocate(old(View()), origin, open)
    {
      p := |promises|;
      promises := promises + [Promise(origin, Pending, false, open, [])];
    }

    /** PerformPromiseThen (ECMA-262, section 27.2.5.4.1). */
    method PromiseThen(p: Id, r: Reaction)
      requires p < |promises|
      modifies this
      ensures View() == PerformThen(old(View()), p, r)
    {
      promises := promises[p := promises[p].(handled := true)];
      match promises[p].status
      case Pending => promises := promises[p := promises[p].(reactions := promises[p].reactions + [r])];
      case Settled(how) => queue := queue + [Job(r, how)];
    }

    /** TriggerPromiseReactions (section 27.2.1.8): reactions become jobs in the order they were registered. */
    method SettlePromise(p: Id, how: Settlement)
      requires p < |promises|
      modifies this
      ensures View() == Settle(old(View()), p, how)
    {
      if promises[p].status != Pending { return; }
      var reactions := promises[p].reactions;
      promises := promises[p := promises[p].(status := Settled(how), reactions := [])];
      ghost var jobs := JobsOf(reactions, how);
      var i := 0;
      while i < |reactions|
        invariant 0 <= i <= |reactions|
        invariant View() == old(View()).(promises := promises, queue := old(queue) + jobs[..i])
        invariant promises == old(promises)[p := old(promises)[p].(status := Settled(how), reactions := [])]
      {
        queue := queue + [Job(reactions[i], how)];
        assert jobs[..i + 1] == jobs[..i] + [jobs[i]];
        i := i + 1;
      }
      assert jobs[..i] == jobs;
    }

    method Mark(p: Id)
      requires p < |promises|
      modifies this
      ensures View() == MarkHandled(old(View()), p)
    {
      PromiseThen(p, Noop);
      past := past.(marked := past.marked + {p});
    }

    /** `ConnectPromise.then` on the promise p. */
    method CallThen(p: Id, hasF: bool, hasR: bool) returns (derived: Id)
      requires p < |promises|
      modifies this
      ensures derived == old(|promises|) && View() == Then(old(View()), p, hasF, hasR)
    {
      derived := NewPromise(Derived, false);
      PromiseThen(p, Call(derived, hasF, hasR));
      past := past.(links := past.links[derived := Link(p, hasF, hasR)], called := past.called + {p});
      if p in chained && !hasR {
        chained := chained + {derived};
        PromiseThen(p, Marker(derived));
      }
    }

    /** The wrapped `connect` of a client. */
    method CallConnect(client: Client) returns (promise: Id)
      modifies this
      ensures promise == old(|promises|) + 1 && View() == Connect(old(View()), client)
    {
      var hadListener := client in listeners && listeners[client] > 0;
      var pending := NewPromise(Native, true);
      promise := NewPromise(Connected, false);
      PromiseThen(pending, Forward(promise, client, hadListener));
      chained := chained + {promise};
      past := past.(connects := past.connects[promise := Connection(pending, client, hadListener, None)]);
    }

    /** The reaction registered on the native promise. */
    method OnNative(promise: Id, client: Client, hadListener: bool, arg: Settlement)
      requires promise < |promises|
      modifies this
      ensures View() == RunForward(old(View()), promise, client, hadListener, arg)
    {
      SettlePromise(promise, arg);
      if arg.Rejected? {
        var hasListener := client in listeners && listeners[client] > 0;
        if promise in past.connects {
          var connection := past.connects[promise].(failure := Some(Failure(arg.reason, hasListener)));
          past := past.(connects := past.connects[promise := connection]);
        }
        if arg.reason.isError && arg.reason.code != ALREADY_CONNECTED && (hadListener || hasListener) {
          swallowed := swallowed + {arg.reason};
          past := past.(silenced := past.silenced + {promise});
          Mark(promise);
        }
      }
    }

    /** The marking reaction that `ConnectPromise.then` registers. */
    method OnMarker(derived: Id, arg: Settlement)
      requires derived < |promises|
      modifies this
      ensures View() == RunMarker(old(View()), derived, arg)
    {
      if arg.Rejected? && arg.reason in swallowed {
        Mark(derived);
      }
    }

    method OnCall(r: Reaction, arg: Settlement, outcome: Outcome)
      requires r.Call? && r.derived < |promises|
      modifies this
      ensures View() == RunCall(old(View()), r, arg, outcome)
    {
      var d := r.derived;
      var handler := if arg.Fulfilled? then r.hasF else r.hasR;
      if handler {
        match outcome
        case Returns => SettlePromise(d, Fulfilled);
        case Throws(x) => SettlePromise(d, Rejected(x));
        case ReturnsPromise => promises := promises[d := promises[d].(open := true)];
      } else {
        SettlePromise(d, arg);
        if d in past.links && past.links[d].parent in past.silenced {
          past := past.(silenced := past.silenced + {d});
        }
      }
    }

    /** Runs the job at the head of the microtask queue. */
    method RunMicrotask(outcome: Outcome)
      requires Enabled(View(), Microtask(outcome))
      modifies this
      ensures View() == Step(old(View()), Microtask(outcome))
    {
      var job := queue[0];
      queue := queue[1..];
      match job.reaction
      case Call(_, _, _) => OnCall(job.reaction, job.arg, outcome);
      case Marker(d) => OnMarker(d, job.arg);
      case Forward(c, client, had) => OnNative(c, client, had, job.arg);
      case Noop => {}
    }
  }
}
