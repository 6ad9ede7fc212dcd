/** The invariant of every run of PromiseMachine, and that each step keeps it. */
module PromiseInvariant {
  import opened Wrappers
  import opened PromiseMachine

  // ---------------------------------------------------------------- the invariant

  /** A reaction names promises that exist and agrees with what `then` or `connect` recorded. */
  ghost predicate TokenOk(s: State, r: Reaction) {
    match r
    case Call(d, hasF, hasR) =>
      d in s.past.links && s.past.links[d].hasF == hasF && s.past.links[d].hasR == hasR
    case Marker(d) => d in s.past.links && d in s.chained
    case Forward(c, client, had) =>
      c in s.past.connects && s.past.connects[c].client == client && s.past.connects[c].hadListener == had
    case Noop => true
  }

  /** The promise a reaction is registered on. */
  ghost function SourceOf(s: State, r: Reaction): Id
    requires TokenOk(s, r) && !r.Noop?
  {
    match r
    case Call(d, _, _) => s.past.links[d].parent
    case Marker(d) => s.past.links[d].parent
    case Forward(c, _, _) => s.past.connects[c].native
  }

  ghost predicate RegisteredOn(s: State, p: Id, r: Reaction) {
    TokenOk(s, r) && (!r.Noop? ==> SourceOf(s, r) == p)
  }

  /** A queued reaction carries the settlement of the promise it was registered on. */
  ghost predicate JobOk(s: State, j: Job) {
    TokenOk(s, j.reaction)
    && (!j.reaction.Noop? ==>
          var p := SourceOf(s, j.reaction);
          p < |s.promises| && s.promises[p].status == Settled(j.arg))
  }

  ghost predicate PromiseOk(s: State, p: Id)
    requires p < |s.promises|
  {
    var q := s.promises[p];
    && (q.status.Settled? ==> q.reactions == [])
    && (forall r <- q.reactions :: RegisteredOn(s, p, r))
    && (q.handled ==> p in s.past.called || p in s.past.marked || q.origin == Native)
    && (p in s.past.called || p in s.past.marked ==> q.handled)
    && (q.origin == Native || q.origin == Outside ==> q.open)
    && (q.origin == Connected <==> p in s.past.connects)
    && (q.origin == Derived <==> p in s.past.links)
    && (q.origin == Native ==> p + 1 in s.past.connects && s.past.connects[p + 1].native == p)
  }

  ghost predicate ForwardJob(s: State, c: Id, j: Job)
    requires c in s.past.connects
  {
    var k := s.past.connects[c];
    j.reaction == Forward(c, k.client, k.hadListener)
  }

  /** connect()'s promise follows the native one, through exactly one job. */
  ghost predicate ConnectOk(s: State, c: Id)
    requires c in s.past.connects
  {
    var k := s.past.connects[c];
    var f := Forward(c, k.client, k.hadListener);
    && c == k.native + 1 && c < |s.promises|
    && s.promises[k.native].origin == Native
    && !s.promises[c].open
    && c in s.chained
    && (c in s.past.silenced <==> IsSwallowed(k))
    && (c in s.past.marked <==> IsSwallowed(k))
    && match s.promises[k.native].status
       case Pending =>
         s.promises[k.native].reactions == [f] && s.promises[c].status == Pending && k.failure.None?
         && (forall j <- s.queue :: !ForwardJob(s, c, j))
       case Settled(how) =>
         || (s.promises[c].status == Pending && k.failure.None? && multiset(s.queue)[Job(f, how)] == 1)
         || (s.promises[c].status == Settled(how)
             && (how.Fulfilled? ==> k.failure.None?)
             && (how.Rejected? ==> k.failure.Some? && k.failure.value.reason == how.reason)
             && (IsSwallowed(k) ==> how.reason in s.swallowed)
             && (forall j <- s.queue :: !ForwardJob(s, c, j)))
  }

  /** A promise returned by `then`, with respect to the promise it came from. */
  ghost predicate LinkOk(s: State, d: Id)
    requires d in s.past.links
  {
    var k := s.past.links[d];
    && k.parent < d < |s.promises|
    && s.promises[k.parent].origin != Native
    && k.parent in s.past.called
    && (d in s.chained <==> !k.hasR && k.parent in s.chained)
    && (d in s.past.silenced ==> k.parent in s.past.silenced && d in s.chained)
    && (d in s.past.marked ==>
          && d in s.chained
          && s.promises[k.parent].status.Settled?
          && s.promises[k.parent].status.how.Rejected?
          && s.promises[k.parent].status.how.reason in s.swallowed)
    && match s.promises[k.parent].status
       case Pending =>
         && s.promises[d].status == Pending && !s.promises[d].open && d !in s.past.silenced
         && (exists hasF :: Call(d, hasF, k.hasR) in s.promises[k.parent].reactions)
         && (d in s.chained ==> Marker(d) in s.promises[k.parent].reactions)
       case Settled(how) =>
         && (s.promises[d].status == Pending && !s.promises[d].open ==>
               exists hasF :: Job(Call(d, hasF, k.hasR), how) in s.queue)
         && (how.Rejected? && !k.hasR ==>
               !s.promises[d].open && (s.promises[d].status == Pending || s.promises[d].status == Settled(how)))
         && (d in s.chained && k.parent in s.past.silenced ==>
               && (d in s.past.marked || Job(Marker(d), how) in s.queue)
               && (s.promises[d].status.Settled? ==> d in s.past.silenced))
  }

  ghost predicate SilencedOk(s: State, p: Id) {
    && p < |s.promises|
    && p in s.chained
    && s.promises[p].status.Settled? && s.promises[p].status.how.Rejected?
    && s.promises[p].status.how.reason in s.swallowed
  }

  ghost predicate SwallowedOk(s: State, r: Reason) {
    exists c :: c in s.past.connects && IsSwallowed(s.past.connects[c]) && s.past.connects[c].failure.value.reason == r
  }

  ghost predicate InRange(s: State) {
    && (forall c <- s.past.connects :: c < |s.promises|)
    && (forall d <- s.past.links :: d < |s.promises|)
    && (forall p <- s.chained :: p < |s.promises| && (p in s.past.connects || p in s.past.links))
    && (forall p <- s.past.called :: p < |s.promises|)
    && (forall p <- s.past.marked :: p < |s.promises|)
    && (forall p <- s.past.marked :: p in s.chained)
  }

  ghost predicate Inv(s: State) {
    && InRange(s)
    && (forall j {:trigger JobOk(s, j)} :: j in s.queue ==> JobOk(s, j))
    && (forall p: Id {:trigger PromiseOk(s, p)} :: p < |s.promises| ==> PromiseOk(s, p))
    && (forall c {:trigger ConnectOk(s, c)} :: c in s.past.connects ==> ConnectOk(s, c))
    && (forall d {:trigger LinkOk(s, d)} :: d in s.past.links ==> LinkOk(s, d))
    && (forall p {:trigger SilencedOk(s, p)} :: p in s.past.silenced ==> SilencedOk(s, p))
    && (forall r {:trigger SwallowedOk(s, r)} :: r in s.swallowed ==> SwallowedOk(s, r))
  }

  lemma InitInv()
    ensures Inv(Init)
  {
  }

  // ---------------------------------------------------------------- steps

  lemma NewPromiseKeeps(s: State)
    requires Inv(s)
    ensures Inv(Allocate(s, Outside, true))
  {
    var t := Allocate(s, Outside, true);
    assert t.queue == s.queue;
    forall p: Id | p < |t.promises| ensures PromiseOk(t, p) {
      if p < |s.promises| { assert PromiseOk(s, p); }
    }
    forall c <- t.past.connects ensures ConnectOk(t, c) { assert ConnectOk(s, c); }
    forall d <- t.past.links ensures LinkOk(t, d) { assert LinkOk(s, d); }
    forall p <- t.past.silenced ensures SilencedOk(t, p) { assert SilencedOk(s, p); }
    forall r <- t.swallowed ensures SwallowedOk(t, r) { assert SwallowedOk(s, r); }
    forall j <- t.queue ensures JobOk(t, j) { assert JobOk(s, j); }
  }

  lemma InJobsOf(reactions: seq<Reaction>, how: Settlement)
    ensures forall r <- reactions :: Job(r, how) in JobsOf(reactions, how)
    ensures forall j <- JobsOf(reactions, how) :: j.arg == how && j.reaction in reactions
  {
    var jobs := JobsOf(reactions, how);
    forall r <- reactions ensures Job(r, how) in jobs {
      var i :| 0 <= i < |reactions| && reactions[i] == r;
      assert jobs[i] == Job(r, how);
    }
  }

  /** Settling p turns what was registered on p into jobs, and changes no other promise. */
  lemma ResolveKeeps(s: State, p: Id, how: Settlement)
    requires Inv(s) && Enabled(s, Resolve(p, how))
    ensures Inv(Settle(s, p, how))
  {
    var t := Settle(s, p, how);
    var moved := s.promises[p].reactions;
    var jobs := JobsOf(moved, how);
    InJobsOf(moved, how);
    assert PromiseOk(s, p);
    assert t.queue == s.queue + jobs;
    forall j <- t.queue ensures JobOk(t, j) {
      if j in s.queue { assert JobOk(s, j); } else { assert RegisteredOn(s, p, j.reaction); }
    }
    forall q: Id | q < |t.promises| ensures PromiseOk(t, q) { assert PromiseOk(s, q); }
    forall d <- t.past.links ensures LinkOk(t, d) {
      ResolveKeepsLink(s, p, how, d);
    }
    forall c <- t.past.connects ensures ConnectOk(t, c) {
      ResolveKeepsConnect(s, p, how, c);
    }
    forall q <- t.past.silenced ensures SilencedOk(t, q) { assert SilencedOk(s, q); }
    forall r <- t.swallowed ensures SwallowedOk(t, r) { assert SwallowedOk(s, r); }
  }

  lemma ResolveKeepsLink(s: State, p: Id, how: Settlement, d: Id)
    requires Inv(s) && Enabled(s, Resolve(p, how)) && d in s.past.links
    ensures LinkOk(Settle(s, p, how), d)
  {
    var t := Settle(s, p, how);
    InJobsOf(s.promises[p].reactions, how);
    assert LinkOk(s, d) && PromiseOk(s, p);
    assert s.past.links[d].parent in s.past.silenced ==> SilencedOk(s, s.past.links[d].parent);
    assert forall j <- s.queue :: j in t.queue;
    assert forall r <- s.promises[p].reactions :: Job(r, how) in t.queue;
    var k := s.past.links[d];
    if k.parent == p {
      var hasF :| Call(d, hasF, k.hasR) in s.promises[p].reactions;
      assert Job(Call(d, hasF, k.hasR), how) in t.queue;
      assert p in s.past.silenced ==> SilencedOk(s, p);
    }
  }

  lemma ResolveKeepsConnect(s: State, p: Id, how: Settlement, c: Id)
    requires Inv(s) && Enabled(s, Resolve(p, how)) && c in s.past.connects
    ensures ConnectOk(Settle(s, p, how), c)
  {
    var t := Settle(s, p, how);
    var moved := s.promises[p].reactions;
    var jobs := JobsOf(moved, how);
    InJobsOf(moved, how);
    assert ConnectOk(s, c) && PromiseOk(s, p);
    var k := s.past.connects[c];
    var f := Forward(c, k.client, k.hadListener);
    assert t.queue == s.queue + jobs;
    if k.native == p {
      assert jobs == [Job(f, how)];
      assert ForwardJob(s, c, Job(f, how));
      assert Job(f, how) !in s.queue;
      assert multiset(t.queue)[Job(f, how)] == 1;
    } else {
      forall j <- jobs ensures !ForwardJob(s, c, j) {
        assert RegisteredOn(s, p, j.reaction);
      }
      if s.promises[k.native].status.Settled? {
        var h := s.promises[k.native].status.how;
        assert multiset(jobs)[Job(f, h)] == 0;
        assert multiset(t.queue) == multiset(s.queue) + multiset(jobs);
      }
    }
  }

  /** Everything the wrapped `connect` changes. */
  ghost predicate ConnectEffect(s: State, client: Client, t: State) {
    var n := |s.promises|;
    var had := ListenerCount(s, client) > 0;
    && t.promises == s.promises + [Promise(Native, Pending, true, true, [Forward(n + 1, client, had)]),
                                   Promise(Connected, Pending, false, false, [])]
    && t.queue == s.queue && t.swallowed == s.swallowed
    && t.chained == s.chained + {n + 1}
    && t.past == s.past.(connects := s.past.connects[n + 1 := Connection(n, client, had, None)])
  }

  lemma ConnectHasEffect(s: State, client: Client)
    ensures ConnectEffect(s, client, Connect(s, client))
  {
    var n := |s.promises|;
    var had := ListenerCount(s, client) > 0;
    var a := s.promises + [Promise(Native, Pending, false, true, [])] + [Promise(Connected, Pending, false, false, [])];
    var q := a[n].(handled := true);
    assert q.reactions + [Forward(n + 1, client, had)] == [Forward(n + 1, client, had)];
    assert Connect(s, client).promises == a[n := q.(reactions := [Forward(n + 1, client, had)])];
  }

  lemma ConnectKeeps(s: State, client: Client, t: State)
    requires Inv(s) && ConnectEffect(s, client, t)
    ensures Inv(t)
  {
    ConnectKeepsRange(s, client, t);
    ConnectKeepsQueue(s, client, t);
    ConnectKeepsSets(s, client, t);
    forall c <- t.past.connects ensures ConnectOk(t, c) { ConnectKeepsConnect(s, client, t, c); }
  }

  lemma ConnectKeepsRange(s: State, client: Client, t: State)
    requires InRange(s) && ConnectEffect(s, client, t)
    ensures InRange(t)
  {
  }

  lemma ConnectKeepsQueue(s: State, client: Client, t: State)
    requires Inv(s) && ConnectEffect(s, client, t)
    ensures forall p: Id :: p < |t.promises| ==> PromiseOk(t, p)
    ensures forall j <- t.queue :: JobOk(t, j)
  {
    forall p: Id | p < |t.promises| ensures PromiseOk(t, p) {
      if p < |s.promises| { assert PromiseOk(s, p); }
    }
    forall j <- t.queue ensures JobOk(t, j) { assert JobOk(s, j); }
  }

  lemma ConnectKeepsSets(s: State, client: Client, t: State)
    requires Inv(s) && ConnectEffect(s, client, t)
    ensures forall d <- t.past.links :: LinkOk(t, d)
    ensures forall p <- t.past.silenced :: SilencedOk(t, p)
    ensures forall r <- t.swallowed :: SwallowedOk(t, r)
  {
    forall d <- t.past.links ensures LinkOk(t, d) { assert LinkOk(s, d); }
    forall p <- t.past.silenced ensures SilencedOk(t, p) { assert SilencedOk(s, p); }
    forall r <- t.swallowed ensures SwallowedOk(t, r) { SwallowedGrows(s, t, r); }
  }

  lemma ConnectKeepsConnect(s: State, client: Client, t: State, c: Id)
    requires Inv(s) && ConnectEffect(s, client, t) && c in t.past.connects
    ensures ConnectOk(t, c)
  {
    if c == |s.promises| + 1 {
      assert c in s.past.silenced ==> SilencedOk(s, c);
      forall j <- t.queue ensures !ForwardJob(t, c, j) { assert JobOk(s, j); }
    } else {
      assert ConnectOk(s, c);
      assert forall j <- s.queue :: ForwardJob(t, c, j) == ForwardJob(s, c, j);
    }
  }

  lemma SwallowedGrows(s: State, t: State, r: Reason)
    requires SwallowedOk(s, r)
    requires forall c <- s.past.connects ::
      c in t.past.connects && (IsSwallowed(s.past.connects[c]) ==> t.past.connects[c] == s.past.connects[c])
    ensures SwallowedOk(t, r)
  {
    var c :| c in s.past.connects && IsSwallowed(s.past.connects[c]) && s.past.connects[c].failure.value.reason == r;
    assert c in t.past.connects && IsSwallowed(t.past.connects[c]);
  }

  /** What ConnectPromise.then registers on p for its new promise d. */
  ghost function Registered(s: State, p: Id, d: Id, hasF: bool, hasR: bool): seq<Reaction> {
    if p in s.chained && !hasR then [Call(d, hasF, hasR), Marker(d)] else [Call(d, hasF, hasR)]
  }

  /** Everything `then` changes. */
  ghost predicate ThenEffect(s: State, p: Id, hasF: bool, hasR: bool, t: State)
    requires p < |s.promises|
  {
    var d := |s.promises|;
    var q := s.promises[p];
    var added := Registered(s, p, d, hasF, hasR);
    && |t.promises| == d + 1
    && t.promises[p] == q.(handled := true, reactions := if q.status.Pending? then q.reactions + added else q.reactions)
    && t.promises[d] == Promise(Derived, Pending, false, false, [])
    && (forall x: Id :: x < d && x != p ==> t.promises[x] == s.promises[x])
    && t.queue == s.queue + (if q.status.Pending? then [] else JobsOf(added, q.status.how))
    && t.swallowed == s.swallowed
    && t.chained == (if p in s.chained && !hasR then s.chained + {d} else s.chained)
    && t.past == s.past.(links := s.past.links[d := Link(p, hasF, hasR)], called := s.past.called + {p})
  }

  lemma ThenHasEffect(s: State, p: Id, hasF: bool, hasR: bool)
    requires p < |s.promises|
    ensures ThenEffect(s, p, hasF, hasR, Then(s, p, hasF, hasR))
  {
    var d := |s.promises|;
    var q := s.promises[p];
    var t := Then(s, p, hasF, hasR);
    assert [Call(d, hasF, hasR)] + [Marker(d)] == [Call(d, hasF, hasR), Marker(d)];
    if q.status.Pending? {
      assert q.reactions + [Call(d, hasF, hasR)] + [Marker(d)] == q.reactions + [Call(d, hasF, hasR), Marker(d)];
      assert t.queue == s.queue + [];
    } else {
      var jobs := JobsOf(Registered(s, p, d, hasF, hasR), q.status.how);
      if p in s.chained && !hasR {
        assert t.queue == s.queue + [Job(Call(d, hasF, hasR), q.status.how)] + [Job(Marker(d), q.status.how)];
        assert jobs == [Job(Call(d, hasF, hasR), q.status.how), Job(Marker(d), q.status.how)];
      } else {
        assert jobs == [Job(Call(d, hasF, hasR), q.status.how)];
      }
    }
  }

  lemma ThenKeeps(s: State, p: Id, hasF: bool, hasR: bool, t: State)
    requires Inv(s) && Enabled(s, DoThen(p, hasF, hasR)) && ThenEffect(s, p, hasF, hasR, t)
    ensures Inv(t)
  {
    ThenKeepsRange(s, p, hasF, hasR, t);
    ThenKeepsQueue(s, p, hasF, hasR, t);
    ThenKeepsSets(s, p, hasF, hasR, t);
    ThenKeepsOrigins(s, p, hasF, hasR, t);
  }

  lemma ThenKeepsRange(s: State, p: Id, hasF: bool, hasR: bool, t: State)
    requires Inv(s) && Enabled(s, DoThen(p, hasF, hasR)) && ThenEffect(s, p, hasF, hasR, t)
    ensures InRange(t)
  {
  }

  lemma ThenKeepsQueue(s: State, p: Id, hasF: bool, hasR: bool, t: State)
    requires Inv(s) && Enabled(s, DoThen(p, hasF, hasR)) && ThenEffect(s, p, hasF, hasR, t)
    ensures forall q: Id :: q < |t.promises| ==> PromiseOk(t, q)
    ensures forall j <- t.queue :: JobOk(t, j)
  {
    forall q: Id | q < |t.promises| ensures PromiseOk(t, q) { ThenKeepsPromise(s, p, hasF, hasR, t, q); }
    forall j <- t.queue ensures JobOk(t, j) { ThenKeepsJob(s, p, hasF, hasR, t, j); }
  }

  lemma ThenKeepsSets(s: State, p: Id, hasF: bool, hasR: bool, t: State)
    requires Inv(s) && Enabled(s, DoThen(p, hasF, hasR)) && ThenEffect(s, p, hasF, hasR, t)
    ensures forall q <- t.past.silenced :: SilencedOk(t, q)
    ensures forall r <- t.swallowed :: SwallowedOk(t, r)
  {
    forall q <- t.past.silenced ensures SilencedOk(t, q) { assert SilencedOk(s, q); }
    forall r <- t.swallowed ensures SwallowedOk(t, r) { SwallowedGrows(s, t, r); }
  }

  lemma ThenKeepsOrigins(s: State, p: Id, hasF: bool, hasR: bool, t: State)
    requires Inv(s) && Enabled(s, DoThen(p, hasF, hasR)) && ThenEffect(s, p, hasF, hasR, t)
    ensures forall c <- t.past.connects :: ConnectOk(t, c)
    ensures forall e <- t.past.links :: LinkOk(t, e)
  {
    forall c <- t.past.connects ensures ConnectOk(t, c) { ThenKeepsConnect(s, p, hasF, hasR, t, c); }
    forall e <- t.past.links ensures LinkOk(t, e) { ThenKeepsLink(s, p, hasF, hasR, t, e); }
  }

  lemma ThenKeepsPromise(s: State, p: Id, hasF: bool, hasR: bool, t: State, q: Id)
    requires Inv(s) && Enabled(s, DoThen(p, hasF, hasR)) && ThenEffect(s, p, hasF, hasR, t)
    requires q < |t.promises|
    ensures PromiseOk(t, q)
  {
    if q < |s.promises| {
      assert PromiseOk(s, q);
      forall r <- t.promises[q].reactions ensures RegisteredOn(t, q, r) {
        assert r in s.promises[q].reactions ==> RegisteredOn(s, q, r);
      }
    }
  }

  lemma ThenKeepsJob(s: State, p: Id, hasF: bool, hasR: bool, t: State, j: Job)
    requires Inv(s) && Enabled(s, DoThen(p, hasF, hasR)) && ThenEffect(s, p, hasF, hasR, t)
    requires j in t.queue
    ensures JobOk(t, j)
  {
    if j in s.queue {
      assert JobOk(s, j);
    }
  }

  lemma ThenKeepsConnect(s: State, p: Id, hasF: bool, hasR: bool, t: State, c: Id)
    requires Inv(s) && Enabled(s, DoThen(p, hasF, hasR)) && ThenEffect(s, p, hasF, hasR, t)
    requires c in s.past.connects
    ensures ConnectOk(t, c)
  {
    assert ConnectOk(s, c) && PromiseOk(s, p);
    var q := s.promises[p].status;
    var added := if q.Pending? then [] else JobsOf(Registered(s, p, |s.promises|, hasF, hasR), q.how);
    assert t.queue == s.queue + added;
    assert forall j <- added :: !j.reaction.Forward?;
    forall j <- t.queue ensures ForwardJob(t, c, j) ==> j in s.queue && ForwardJob(s, c, j) { }
    var k := s.past.connects[c];
    if s.promises[k.native].status.Settled? {
      CountAppended(s.queue, added, Job(Forward(c, k.client, k.hadListener), s.promises[k.native].status.how));
    }
  }

  lemma CountAppended(queue: seq<Job>, added: seq<Job>, j: Job)
    requires j !in added
    ensures multiset(queue + added)[j] == multiset(queue)[j]
  {
    assert multiset(added)[j] == 0;
  }

  lemma ThenKeepsLink(s: State, p: Id, hasF: bool, hasR: bool, t: State, e: Id)
    requires Inv(s) && Enabled(s, DoThen(p, hasF, hasR)) && ThenEffect(s, p, hasF, hasR, t)
    requires e in t.past.links
    ensures LinkOk(t, e)
  {
    var d := |s.promises|;
    assert forall j <- s.queue :: j in t.queue;
    if e != d {
      assert LinkOk(s, e);
    } else {
      var status := s.promises[p].status;
      InJobsOf(Registered(s, p, d, hasF, hasR), if status.Pending? then Fulfilled else status.how);
      assert d !in s.past.silenced by { assert d in s.past.silenced ==> SilencedOk(s, d); }
      assert p in s.past.silenced ==> SilencedOk(s, p);
      var call := Call(d, hasF, hasR);
      assert call in Registered(s, p, d, hasF, hasR);
      assert d in t.chained ==> Marker(d) in Registered(s, p, d, hasF, hasR);
      if s.promises[p].status.Pending? {
        assert call in t.promises[p].reactions;
      } else {
        assert Job(call, s.promises[p].status.how) in t.queue;
      }
    }
  }

  // ---------------------------------------------------------------- microtasks

  lemma Popped(queue: seq<Job>)
    requires queue != []
    ensures forall j :: j in queue ==> j == queue[0] || j in queue[1..]
    ensures forall j :: j in queue[1..] ==> j in queue
    ensures forall j :: multiset(queue)[j] == multiset(queue[1..])[j] + if j == queue[0] then 1 else 0
  {
    assert queue == [queue[0]] + queue[1..];
  }

  /** The head job has run and `added` was queued behind the rest. */
  ghost predicate Ran(s: State, added: seq<Job>, t: State) {
    && s.queue != []
    && t.queue == s.queue[1..] + added
    && |t.promises| == |s.promises|
    && t.past.links == s.past.links
    && t.chained == s.chained
    && t.past.called == s.past.called
    && s.past.marked <= t.past.marked
    && s.past.silenced <= t.past.silenced
    && s.swallowed <= t.swallowed
  }

  /** Connection c is none of the head job's business. */
  lemma FrameConnect(s: State, added: seq<Job>, t: State, c: Id)
    requires Inv(s) && Ran(s, added, t) && c in s.past.connects && c in t.past.connects
    requires t.past.connects[c] == s.past.connects[c]
    requires c in t.past.silenced <==> c in s.past.silenced
    requires c in t.past.marked <==> c in s.past.marked
    requires !ForwardJob(s, c, s.queue[0]) && (forall j <- added :: !ForwardJob(s, c, j))
    requires ConnectOk(s, c)
    requires var n := s.past.connects[c].native; t.promises[n] == s.promises[n]
    requires t.promises[c].status == s.promises[c].status && t.promises[c].open == s.promises[c].open
    ensures ConnectOk(t, c)
  {
    Popped(s.queue);
    var k := s.past.connects[c];
    forall j <- t.queue ensures ForwardJob(t, c, j) ==> j in s.queue && ForwardJob(s, c, j) { }
    if s.promises[k.native].status.Settled? {
      CountAppended(s.queue[1..], added, Job(Forward(c, k.client, k.hadListener), s.promises[k.native].status.how));
    }
  }

  /** Neither d nor the promise it came from is touched, apart from new reactions. */
  lemma FrameLink(s: State, added: seq<Job>, t: State, d: Id)
    requires Inv(s) && Ran(s, added, t) && d in s.past.links
    requires var q := s.past.links[d].parent;
      && LinkOk(s, d)
      && t.promises[q].origin == s.promises[q].origin && t.promises[q].status == s.promises[q].status
      && (forall r <- s.promises[q].reactions :: r in t.promises[q].reactions)
      && t.promises[d].status == s.promises[d].status && t.promises[d].open == s.promises[d].open
      && (q in t.past.silenced <==> q in s.past.silenced) && (d in t.past.silenced <==> d in s.past.silenced)
      && (d in t.past.marked <==> d in s.past.marked)
    requires match s.queue[0].reaction case Call(e, _, _) => e != d case Marker(e) => e != d case _ => true
    ensures LinkOk(t, d)
  {
    Popped(s.queue);
    forall j | j in s.queue && j != s.queue[0] ensures j in t.queue { }
  }

  lemma NoopKeeps(s: State, t: State)
    requires Inv(s) && s.queue != [] && s.queue[0].reaction == Noop
    requires t == s.(queue := s.queue[1..])
    ensures Inv(t)
  {
    Popped(s.queue);
    assert t.queue == s.queue[1..] + [];
    forall p: Id | p < |t.promises| ensures PromiseOk(t, p) { assert PromiseOk(s, p); }
    forall j <- t.queue ensures JobOk(t, j) { assert JobOk(s, j); }
    forall q <- t.past.silenced ensures SilencedOk(t, q) { assert SilencedOk(s, q); }
    forall r <- t.swallowed ensures SwallowedOk(t, r) { assert SwallowedOk(s, r); }
    forall c <- t.past.connects ensures ConnectOk(t, c) { assert ConnectOk(s, c); FrameConnect(s, [], t, c); }
    forall e <- t.past.links ensures LinkOk(t, e) { assert LinkOk(s, e); FrameLink(s, [], t, e); }
  }

  /** Everything `markHandled(p)` changes. */
  ghost predicate MarkEffect(s: State, p: Id, t: State)
    requires p < |s.promises|
  {
    var q := s.promises[p];
    && |t.promises| == |s.promises|
    && t.promises[p] == q.(handled := true,
                           reactions := if q.status.Pending? then q.reactions + [Noop] else q.reactions)
    && (forall x: Id :: x < |s.promises| && x != p ==> t.promises[x] == s.promises[x])
    && t.queue == s.queue + (if q.status.Pending? then [] else [Job(Noop, q.status.how)])
    && t.swallowed == s.swallowed && t.chained == s.chained
    && t.past == s.past.(marked := s.past.marked + {p})
  }

  lemma MarkHasEffect(s: State, p: Id)
    requires p < |s.promises|
    ensures MarkEffect(s, p, MarkHandled(s, p))
  {
    var q := s.promises[p].(handled := true);
    if q.status.Pending? {
      assert MarkHandled(s, p).queue == s.queue + [];
    }
  }

  lemma MarkerKeeps(s: State, d: Id, arg: Settlement)
    requires Inv(s) && s.queue != [] && s.queue[0] == Job(Marker(d), arg) && d < |s.promises|
    ensures Inv(RunMarker(s.(queue := s.queue[1..]), d, arg))
  {
    var u := s.(queue := s.queue[1..]);
    assert JobOk(s, s.queue[0]) && LinkOk(s, d);
    if arg.Rejected? && arg.reason in s.swallowed {
      MarkHasEffect(u, d);
      MarkingKeeps(s, d, arg, MarkHandled(u, d));
    } else {
      NotMarkingKeeps(s, d, arg, u);
    }
  }

  lemma NotMarkingKeeps(s: State, d: Id, arg: Settlement, t: State)
    requires Inv(s) && s.queue != [] && s.queue[0] == Job(Marker(d), arg)
    requires !(arg.Rejected? && arg.reason in s.swallowed) && t == s.(queue := s.queue[1..])
    ensures Inv(t)
  {
    Popped(s.queue);
    assert JobOk(s, s.queue[0]);
    assert t.queue == s.queue[1..] + [];
    forall p: Id | p < |t.promises| ensures PromiseOk(t, p) { assert PromiseOk(s, p); }
    forall j <- t.queue ensures JobOk(t, j) { assert JobOk(s, j); }
    forall q <- t.past.silenced ensures SilencedOk(t, q) { assert SilencedOk(s, q); }
    forall r <- t.swallowed ensures SwallowedOk(t, r) { assert SwallowedOk(s, r); }
    forall c <- t.past.connects ensures ConnectOk(t, c) { assert ConnectOk(s, c); FrameConnect(s, [], t, c); }
    forall e <- t.past.links ensures LinkOk(t, e) {
      assert LinkOk(s, e);
      if e != d {
        FrameLink(s, [], t, e);
      } else {
        var parent := s.past.links[d].parent;
        assert parent in s.past.silenced ==> SilencedOk(s, parent);
        forall j | j in s.queue && j != s.queue[0] ensures j in t.queue { }
      }
    }
  }

  lemma MarkingKeeps(s: State, d: Id, arg: Settlement, t: State)
    requires Inv(s) && s.queue != [] && s.queue[0] == Job(Marker(d), arg) && d < |s.promises|
    requires arg.Rejected? && arg.reason in s.swallowed && MarkEffect(s.(queue := s.queue[1..]), d, t)
    ensures Inv(t)
  {
    assert JobOk(s, s.queue[0]);
    MarkingKeepsRange(s, d, t);
    MarkingKeepsQueue(s, d, t);
    MarkingKeepsSets(s, d, t);
    MarkingKeepsOrigins(s, d, arg, t);
  }

  lemma MarkingKeepsRange(s: State, d: Id, t: State)
    requires InRange(s) && s.queue != [] && d < |s.promises| && d in s.chained
      && MarkEffect(s.(queue := s.queue[1..]), d, t)
    ensures InRange(t)
  {
  }

  lemma MarkingKeepsQueue(s: State, d: Id, t: State)
    requires Inv(s) && s.queue != [] && d < |s.promises| && MarkEffect(s.(queue := s.queue[1..]), d, t)
    ensures forall p: Id :: p < |t.promises| ==> PromiseOk(t, p)
    ensures forall j <- t.queue :: JobOk(t, j)
  {
    forall p: Id | p < |t.promises| ensures PromiseOk(t, p) { MarkingKeepsPromise(s, d, t, p); }
    forall j <- t.queue ensures JobOk(t, j) { MarkingKeepsJob(s, d, t, j); }
  }

  lemma MarkingKeepsOrigins(s: State, d: Id, arg: Settlement, t: State)
    requires Inv(s) && s.queue != [] && s.queue[0] == Job(Marker(d), arg) && d < |s.promises|
    requires arg.Rejected? && arg.reason in s.swallowed && MarkEffect(s.(queue := s.queue[1..]), d, t)
    ensures forall c <- t.past.connects :: ConnectOk(t, c)
    ensures forall e <- t.past.links :: LinkOk(t, e)
  {
    assert JobOk(s, s.queue[0]) && LinkOk(s, d);
    var added := MarkingRan(s, d, t);
    forall c <- t.past.connects ensures ConnectOk(t, c) { MarkingKeepsConnect(s, d, t, added, c); }
    forall e <- t.past.links ensures LinkOk(t, e) { MarkingKeepsLink(s, d, arg, t, added, e); }
  }

  lemma MarkingKeepsSets(s: State, d: Id, t: State)
    requires Inv(s) && s.queue != [] && d < |s.promises| && MarkEffect(s.(queue := s.queue[1..]), d, t)
    ensures forall p <- t.past.silenced :: SilencedOk(t, p)
    ensures forall r <- t.swallowed :: SwallowedOk(t, r)
  {
    forall p <- t.past.silenced ensures SilencedOk(t, p) { assert SilencedOk(s, p); }
    forall r <- t.swallowed ensures SwallowedOk(t, r) { assert SwallowedOk(s, r); SwallowedGrows(s, t, r); }
  }

  lemma MarkingRan(s: State, d: Id, t: State) returns (added: seq<Job>)
    requires s.queue != [] && d < |s.promises| && MarkEffect(s.(queue := s.queue[1..]), d, t)
    ensures Ran(s, added, t) && forall j <- added :: j.reaction.Noop?
  {
    var q := s.promises[d];
    added := if q.status.Pending? then [] else [Job(Noop, q.status.how)];
  }

  lemma MarkingKeepsJob(s: State, d: Id, t: State, j: Job)
    requires Inv(s) && s.queue != [] && d < |s.promises|
    requires MarkEffect(s.(queue := s.queue[1..]), d, t) && j in t.queue
    ensures JobOk(t, j)
  {
    Popped(s.queue);
    if j in s.queue { assert JobOk(s, j); }
  }

  lemma MarkingKeepsPromise(s: State, d: Id, t: State, p: Id)
    requires Inv(s) && s.queue != [] && d < |s.promises|
    requires MarkEffect(s.(queue := s.queue[1..]), d, t) && p < |s.promises|
    ensures PromiseOk(t, p)
  {
    assert PromiseOk(s, p);
  }

  lemma MarkingKeepsConnect(s: State, d: Id, t: State, added: seq<Job>, c: Id)
    requires Inv(s) && s.queue != [] && d in s.past.links && s.queue[0].reaction == Marker(d) && d < |s.promises|
    requires MarkEffect(s.(queue := s.queue[1..]), d, t) && Ran(s, added, t) && c in s.past.connects
    requires forall j <- added :: j.reaction.Noop?
    ensures ConnectOk(t, c)
  {
    assert ConnectOk(s, c) && PromiseOk(s, c) && PromiseOk(s, d);
    FrameConnect(s, added, t, c);
  }

  lemma MarkingKeepsLink(s: State, d: Id, arg: Settlement, t: State, added: seq<Job>, e: Id)
    requires Inv(s) && s.queue != [] && s.queue[0] == Job(Marker(d), arg) && d < |s.promises|
    requires arg.Rejected? && arg.reason in s.swallowed && MarkEffect(s.(queue := s.queue[1..]), d, t)
    requires Ran(s, added, t) && e in s.past.links
    ensures LinkOk(t, e)
  {
    Popped(s.queue);
    assert JobOk(s, s.queue[0]) && LinkOk(s, d) && LinkOk(s, e);
    if e != d {
      FrameLink(s, added, t, e);
    } else {
      forall j | j in s.queue && j != s.queue[0] ensures j in t.queue { }
    }
  }

  /** The head job, a reaction that decides p, settled the pending promise p. */
  ghost predicate SettleEffect(s: State, p: Id, how: Settlement, added: seq<Job>, t: State) {
    && Ran(s, added, t)
    && p < |s.promises| && s.promises[p].status.Pending?
    && (match s.queue[0].reaction case Call(d, _, _) => d == p case Forward(c, _, _) => c == p case _ => false)
    && (var q := s.promises[p];
        && t.promises[p] == q.(status := Settled(how), reactions := [], handled := q.handled || p in t.past.marked)
        && (forall r <- q.reactions :: Job(r, how) in added)
        && (forall j <- added :: j.arg == how && (j.reaction in q.reactions || j.reaction.Noop?)))
    && (forall x: Id :: x < |s.promises| && x != p ==> t.promises[x] == s.promises[x])
    && (forall x <- t.past.silenced :: x in s.past.silenced || x == p)
    && (forall x <- t.past.marked :: x in s.past.marked || x == p)
    && t.past.connects.Keys == s.past.connects.Keys
    && (forall c <- s.past.connects ::
          && t.past.connects[c].(failure := None) == s.past.connects[c].(failure := None)
          && (c != p ==> t.past.connects[c] == s.past.connects[c]))
  }

  lemma SettlingKeepsLink(s: State, p: Id, how: Settlement, added: seq<Job>, t: State, e: Id)
    requires Inv(s) && SettleEffect(s, p, how, added, t) && e in s.past.links && e != p
    ensures LinkOk(t, e)
  {
    Popped(s.queue);
    assert LinkOk(s, e);
    var k := s.past.links[e];
    if k.parent == p {
      var hasF :| Call(e, hasF, k.hasR) in s.promises[p].reactions;
      assert Job(Call(e, hasF, k.hasR), how) in t.queue;
      assert p in s.past.silenced ==> SilencedOk(s, p);
      assert e in s.chained ==> Job(Marker(e), how) in t.queue;
    } else {
      FrameLink(s, added, t, e);
    }
  }

  lemma SettlingKeepsPromise(s: State, p: Id, how: Settlement, added: seq<Job>, t: State, x: Id)
    requires Inv(s) && SettleEffect(s, p, how, added, t) && x < |s.promises| && p in t.chained + t.past.links.Keys
    ensures PromiseOk(t, x)
  {
    assert PromiseOk(s, x) && PromiseOk(s, p);
    forall r <- t.promises[x].reactions ensures RegisteredOn(t, x, r) { assert RegisteredOn(s, x, r); }
  }

  lemma SettlingKeepsJob(s: State, p: Id, how: Settlement, added: seq<Job>, t: State, j: Job)
    requires Inv(s) && SettleEffect(s, p, how, added, t) && j in t.queue
    ensures JobOk(t, j)
  {
    Popped(s.queue);
    if j in s.queue {
      assert JobOk(s, j);
    } else {
      assert PromiseOk(s, p);
      assert j.reaction.Noop? || RegisteredOn(s, p, j.reaction);
    }
  }

  lemma SettlingKeepsConnect(s: State, p: Id, how: Settlement, added: seq<Job>, t: State, c: Id)
    requires Inv(s) && SettleEffect(s, p, how, added, t) && c in s.past.connects && c != p
    requires p in s.past.connects || p in s.past.links
    ensures ConnectOk(t, c)
  {
    assert ConnectOk(s, c) && PromiseOk(s, p) && PromiseOk(s, c);
    assert JobOk(s, s.queue[0]);
    forall j <- added ensures !ForwardJob(s, c, j) {
      assert j.reaction.Noop? || RegisteredOn(s, p, j.reaction);
    }
    FrameConnect(s, added, t, c);
  }

  /** The handler that the user's reaction has for this settlement, if any. */
  ghost predicate HasHandler(r: Reaction, arg: Settlement)
    requires r.Call?
  {
    if arg.Fulfilled? then r.hasF else r.hasR
  }

  lemma CallKeeps(s: State, r: Reaction, arg: Settlement, outcome: Outcome)
    requires Inv(s) && s.queue != [] && s.queue[0] == Job(r, arg) && r.Call? && r.derived < |s.promises|
    ensures Inv(RunCall(s.(queue := s.queue[1..]), r, arg, outcome))
  {
    var d := r.derived;
    var u := s.(queue := s.queue[1..]);
    var t := RunCall(u, r, arg, outcome);
    assert JobOk(s, s.queue[0]) && LinkOk(s, d) && PromiseOk(s, d);
    var parent := s.past.links[d].parent;
    assert parent in s.past.silenced ==> SilencedOk(s, parent);
    if HasHandler(r, arg) && outcome.ReturnsPromise? {
      OpeningKeeps(s, r, arg, t);
    } else if s.promises[d].status.Settled? {
      if !HasHandler(r, arg) && parent in s.past.silenced {
        assert t.past.silenced == s.past.silenced;
      }
      StaleCallKeeps(s, r, arg, t);
    } else {
      var how := if HasHandler(r, arg) then (if outcome.Throws? then Rejected(outcome.thrown) else Fulfilled) else arg;
      var added := JobsOf(s.promises[d].reactions, how);
      InJobsOf(s.promises[d].reactions, how);
      assert d in s.past.marked ==> s.promises[d].handled;
      assert SettleEffect(s, d, how, added, t);
      CallSettlesKeeps(s, r, arg, how, added, t);
    }
  }

  lemma CallSettlesKeeps(s: State, r: Reaction, arg: Settlement, how: Settlement, added: seq<Job>, t: State)
    requires Inv(s) && s.queue != [] && s.queue[0] == Job(r, arg) && r.Call?
      && SettleEffect(s, r.derived, how, added, t)
    requires !HasHandler(r, arg) ==> how == arg
    requires t.past.connects == s.past.connects && t.past.marked == s.past.marked && t.swallowed == s.swallowed
    requires r.derived in s.past.links
    requires t.past.silenced == if !HasHandler(r, arg) && s.past.links[r.derived].parent in s.past.silenced
                                then s.past.silenced + {r.derived} else s.past.silenced
    ensures Inv(t)
  {
    var d := r.derived;
    assert JobOk(s, s.queue[0]) && LinkOk(s, d) && PromiseOk(s, d);
    var parent := s.past.links[d].parent;
    assert parent in s.past.silenced ==> SilencedOk(s, parent);
    forall x: Id | x < |t.promises| ensures PromiseOk(t, x) { SettlingKeepsPromise(s, d, how, added, t, x); }
    forall j <- t.queue ensures JobOk(t, j) { SettlingKeepsJob(s, d, how, added, t, j); }
    forall x <- t.past.silenced ensures SilencedOk(t, x) { assert x in s.past.silenced ==> SilencedOk(s, x); }
    forall r <- t.swallowed ensures SwallowedOk(t, r) { assert SwallowedOk(s, r); }
    forall c <- t.past.connects ensures ConnectOk(t, c) { SettlingKeepsConnect(s, d, how, added, t, c); }
    forall e <- t.past.links ensures LinkOk(t, e) {
      if e != d {
        SettlingKeepsLink(s, d, how, added, t, e);
      } else {
        CallSettlesKeepsOwnLink(s, r, arg, how, added, t);
      }
    }
  }

  lemma CallSettlesKeepsOwnLink(s: State, r: Reaction, arg: Settlement, how: Settlement, added: seq<Job>, t: State)
    requires Inv(s) && s.queue != [] && s.queue[0] == Job(r, arg) && r.Call?
      && SettleEffect(s, r.derived, how, added, t)
    requires !HasHandler(r, arg) ==> how == arg
    requires t.past.marked == s.past.marked && t.swallowed == s.swallowed
    requires r.derived in s.past.links
    requires t.past.silenced == if !HasHandler(r, arg) && s.past.links[r.derived].parent in s.past.silenced
                                then s.past.silenced + {r.derived} else s.past.silenced
    ensures LinkOk(t, r.derived)
  {
    Popped(s.queue);
    var d := r.derived;
    assert JobOk(s, s.queue[0]) && LinkOk(s, d);
    var parent := s.past.links[d].parent;
    assert parent in s.past.silenced ==> SilencedOk(s, parent);
    forall j | j in s.queue && j != s.queue[0] ensures j in t.queue { }
  }

  /** A job for a promise that is settled already changes nothing. */
  lemma StaleCallKeeps(s: State, r: Reaction, arg: Settlement, t: State)
    requires Inv(s) && s.queue != [] && s.queue[0] == Job(r, arg) && r.Call? && r.derived < |s.promises|
    requires s.promises[r.derived].status.Settled? && t == s.(queue := s.queue[1..])
    ensures Inv(t)
  {
    Popped(s.queue);
    assert JobOk(s, s.queue[0]);
    assert t.queue == s.queue[1..] + [];
    forall p: Id | p < |t.promises| ensures PromiseOk(t, p) { assert PromiseOk(s, p); }
    forall j <- t.queue ensures JobOk(t, j) { assert JobOk(s, j); }
    forall q <- t.past.silenced ensures SilencedOk(t, q) { assert SilencedOk(s, q); }
    forall r <- t.swallowed ensures SwallowedOk(t, r) { assert SwallowedOk(s, r); }
    forall c <- t.past.connects ensures ConnectOk(t, c) { assert ConnectOk(s, c); FrameConnect(s, [], t, c); }
    forall e <- t.past.links ensures LinkOk(t, e) {
      assert LinkOk(s, e);
      if e != r.derived {
        FrameLink(s, [], t, e);
      } else {
        forall j | j in s.queue && j != s.queue[0] ensures j in t.queue { }
      }
    }
  }

  /** The handler returned a promise: its own promise is now the environment's to settle. */
  lemma OpeningKeeps(s: State, r: Reaction, arg: Settlement, t: State)
    requires Inv(s) && s.queue != [] && s.queue[0] == Job(r, arg) && r.Call? && r.derived < |s.promises|
      && HasHandler(r, arg)
    requires t == s.(queue := s.queue[1..], promises := s.promises[r.derived := s.promises[r.derived].(open := true)])
    ensures Inv(t)
  {
    Popped(s.queue);
    assert JobOk(s, s.queue[0]) && PromiseOk(s, r.derived);
    assert Ran(s, [], t);
    forall p: Id | p < |t.promises| ensures PromiseOk(t, p) { assert PromiseOk(s, p); }
    forall j <- t.queue ensures JobOk(t, j) { assert JobOk(s, j); }
    forall q <- t.past.silenced ensures SilencedOk(t, q) { assert SilencedOk(s, q); }
    forall r <- t.swallowed ensures SwallowedOk(t, r) { assert SwallowedOk(s, r); }
    forall c <- t.past.connects ensures ConnectOk(t, c) {
      assert ConnectOk(s, c) && PromiseOk(s, c);
      FrameConnect(s, [], t, c);
    }
    forall e <- t.past.links ensures LinkOk(t, e) { OpeningKeepsLink(s, r, arg, t, e); }
  }

  lemma OpeningKeepsLink(s: State, r: Reaction, arg: Settlement, t: State, e: Id)
    requires Inv(s) && s.queue != [] && s.queue[0] == Job(r, arg) && r.Call? && r.derived < |s.promises|
      && HasHandler(r, arg)
    requires t == s.(queue := s.queue[1..], promises := s.promises[r.derived := s.promises[r.derived].(open := true)])
    requires e in s.past.links
    ensures LinkOk(t, e)
  {
    Popped(s.queue);
    assert JobOk(s, s.queue[0]) && LinkOk(s, e);
    if e != r.derived {
      assert t.queue == s.queue[1..] + [];
      FrameLink(s, [], t, e);
    } else {
      var parent := s.past.links[e].parent;
      assert parent in s.past.silenced ==> SilencedOk(s, parent);
      forall j | j in s.queue && j != s.queue[0] ensures j in t.queue { }
    }
  }

  /** Everything the reaction on the native promise changes. */
  ghost predicate ForwardEffect(s: State, c: Id, arg: Settlement, added: seq<Job>, t: State)
    requires c in s.past.connects
  {
    var k := s.past.connects[c];
    var has := ListenerCount(s, k.client) > 0;
    var swallows := arg.Rejected? && Swallows(arg.reason, k.hadListener, has);
    && SettleEffect(s, c, arg, added, t)
    && t.swallowed == (if swallows then s.swallowed + {arg.reason} else s.swallowed)
    && t.past.silenced == (if swallows then s.past.silenced + {c} else s.past.silenced)
    && t.past.marked == (if swallows then s.past.marked + {c} else s.past.marked)
    && t.past.connects == (if arg.Fulfilled? then s.past.connects
                           else s.past.connects[c := k.(failure := Some(Failure(arg.reason, has)))])
  }

  ghost predicate ForwardAtHead(s: State, c: Id, arg: Settlement) {
    && s.queue != [] && c in s.past.connects && c < |s.promises|
    && var k := s.past.connects[c];
       s.queue[0] == Job(Forward(c, k.client, k.hadListener), arg)
  }

  lemma ForwardPending(s: State, c: Id, arg: Settlement)
    requires Inv(s) && ForwardAtHead(s, c, arg)
    ensures s.promises[c].status.Pending? && s.past.connects[c].failure.None?
    ensures c !in s.past.silenced && c !in s.past.marked
    ensures var n := s.past.connects[c].native; n < |s.promises| && s.promises[n].status == Settled(arg)
    ensures forall j <- s.queue[1..] :: !ForwardJob(s, c, j)
  {
    Popped(s.queue);
    assert ConnectOk(s, c) && JobOk(s, s.queue[0]) && ForwardJob(s, c, s.queue[0]);
    forall j <- s.queue[1..] ensures !ForwardJob(s, c, j) {
      assert JobOk(s, j);
      assert multiset(s.queue[1..])[s.queue[0]] == 0;
    }
  }

  lemma ForwardHasEffect(s: State, c: Id, arg: Settlement, added: seq<Job>)
    requires Inv(s) && ForwardAtHead(s, c, arg)
    requires var k := s.past.connects[c];
      var swallows := arg.Rejected? && Swallows(arg.reason, k.hadListener, ListenerCount(s, k.client) > 0);
      added == JobsOf(s.promises[c].reactions, arg) + (if swallows then [Job(Noop, arg)] else [])
    ensures var k := s.past.connects[c];
      ForwardEffect(s, c, arg, added, RunForward(s.(queue := s.queue[1..]), c, k.client, k.hadListener, arg))
  {
    ForwardPending(s, c, arg);
    InJobsOf(s.promises[c].reactions, arg);
    assert PromiseOk(s, c) && ConnectOk(s, c);
    var k := s.past.connects[c];
    var t := RunForward(s.(queue := s.queue[1..]), c, k.client, k.hadListener, arg);
    var q := s.promises[c];
    assert t.promises
      == s.promises[c := q.(status := Settled(arg), reactions := [], handled := q.handled || c in t.past.marked)];
    assert s.queue[1..] + JobsOf(s.promises[c].reactions, arg) + [Job(Noop, arg)]
        == s.queue[1..] + (JobsOf(s.promises[c].reactions, arg) + [Job(Noop, arg)]);
    assert t.queue == s.queue[1..] + added;
  }

  lemma ForwardKeeps(s: State, c: Id, arg: Settlement, added: seq<Job>, t: State)
    requires Inv(s) && ForwardAtHead(s, c, arg) && ForwardEffect(s, c, arg, added, t)
    ensures Inv(t)
  {
    ForwardKeepsRange(s, c, arg, added, t);
    ForwardKeepsQueue(s, c, arg, added, t);
    ForwardKeepsSets(s, c, arg, added, t);
    ForwardKeepsOrigins(s, c, arg, added, t);
  }

  lemma ForwardKeepsRange(s: State, c: Id, arg: Settlement, added: seq<Job>, t: State)
    requires Inv(s) && ForwardAtHead(s, c, arg) && ForwardEffect(s, c, arg, added, t)
    ensures InRange(t)
  {
    assert ConnectOk(s, c);
  }

  lemma ForwardKeepsQueue(s: State, c: Id, arg: Settlement, added: seq<Job>, t: State)
    requires Inv(s) && ForwardAtHead(s, c, arg) && ForwardEffect(s, c, arg, added, t)
    ensures forall x: Id :: x < |t.promises| ==> PromiseOk(t, x)
    ensures forall j <- t.queue :: JobOk(t, j)
  {
    assert ConnectOk(s, c);
    forall x: Id | x < |t.promises| ensures PromiseOk(t, x) { SettlingKeepsPromise(s, c, arg, added, t, x); }
    forall j <- t.queue ensures JobOk(t, j) { SettlingKeepsJob(s, c, arg, added, t, j); }
  }

  lemma ForwardKeepsSets(s: State, c: Id, arg: Settlement, added: seq<Job>, t: State)
    requires Inv(s) && ForwardAtHead(s, c, arg) && ForwardEffect(s, c, arg, added, t)
    ensures forall x <- t.past.silenced :: SilencedOk(t, x)
    ensures forall r <- t.swallowed :: SwallowedOk(t, r)
  {
    ForwardPending(s, c, arg);
    assert ConnectOk(s, c);
    forall x <- t.past.silenced ensures SilencedOk(t, x) { assert x in s.past.silenced ==> SilencedOk(s, x); }
    forall r <- t.swallowed ensures SwallowedOk(t, r) {
      if r in s.swallowed {
        assert SwallowedOk(s, r);
        SwallowedGrows(s, t, r);
      } else {
        assert IsSwallowed(t.past.connects[c]);
      }
    }
  }

  lemma ForwardKeepsOrigins(s: State, c: Id, arg: Settlement, added: seq<Job>, t: State)
    requires Inv(s) && ForwardAtHead(s, c, arg) && ForwardEffect(s, c, arg, added, t)
    ensures forall d <- t.past.connects :: ConnectOk(t, d)
    ensures forall e <- t.past.links :: LinkOk(t, e)
  {
    assert PromiseOk(s, c) && ConnectOk(s, c);
    forall d <- t.past.connects ensures ConnectOk(t, d) {
      if d != c { SettlingKeepsConnect(s, c, arg, added, t, d); } else { ForwardKeepsOwn(s, c, arg, added, t); }
    }
    forall e <- t.past.links ensures LinkOk(t, e) { SettlingKeepsLink(s, c, arg, added, t, e); }
  }

  lemma ForwardKeepsOwn(s: State, c: Id, arg: Settlement, added: seq<Job>, t: State)
    requires Inv(s) && ForwardAtHead(s, c, arg) && ForwardEffect(s, c, arg, added, t)
    ensures ConnectOk(t, c)
  {
    ForwardPending(s, c, arg);
    assert ConnectOk(s, c) && PromiseOk(s, c);
    forall j <- t.queue ensures !ForwardJob(t, c, j) {
      if j in s.queue[1..] {
        assert !ForwardJob(s, c, j);
      } else {
        assert j.reaction.Noop? || RegisteredOn(s, c, j.reaction);
      }
    }
  }

  lemma MicrotaskKeeps(s: State, outcome: Outcome)
    requires Inv(s) && Enabled(s, Microtask(outcome))
    ensures Inv(Step(s, Microtask(outcome)))
  {
    var j := s.queue[0];
    assert JobOk(s, j);
    match j.reaction
    case Call(_, _, _) => CallKeeps(s, j.reaction, j.arg, outcome);
    case Marker(d) => MarkerKeeps(s, d, j.arg);
    case Noop => NoopKeeps(s, s.(queue := s.queue[1..]));
    case Forward(c, client, had) =>
      var k := s.past.connects[c];
      var swallows := j.arg.Rejected? && Swallows(j.arg.reason, k.hadListener, ListenerCount(s, k.client) > 0);
      var added := JobsOf(s.promises[c].reactions, j.arg) + (if swallows then [Job(Noop, j.arg)] else []);
      ForwardHasEffect(s, c, j.arg, added);
      ForwardKeeps(s, c, j.arg, added, RunForward(s.(queue := s.queue[1..]), c, client, had, j.arg));
  }

  lemma ListenersKeep(s: State, t: State)
    requires Inv(s) && t == s.(listeners := t.listeners)
    ensures Inv(t)
  {
    forall j <- t.queue ensures JobOk(t, j) { assert JobOk(s, j); }
    forall p: Id | p < |t.promises| ensures PromiseOk(t, p) { assert PromiseOk(s, p); }
    forall c <- t.past.connects ensures ConnectOk(t, c) { assert ConnectOk(s, c); }
    forall d <- t.past.links ensures LinkOk(t, d) { assert LinkOk(s, d); }
    forall p <- t.past.silenced ensures SilencedOk(t, p) { assert SilencedOk(s, p); }
    forall r <- t.swallowed ensures SwallowedOk(t, r) { assert SwallowedOk(s, r); }
  }

  lemma StepKeeps(s: State, a: Action)
    requires Inv(s)
    ensures Inv(Step(s, a))
  {
    if Enabled(s, a) {
      match a
      case SetListeners(_, _) => ListenersKeep(s, Step(s, a));
      case DoConnect(client) =>
        ConnectHasEffect(s, client);
        ConnectKeeps(s, client, Connect(s, client));
      case NewPromise => NewPromiseKeeps(s);
      case Resolve(p, how) => ResolveKeeps(s, p, how);
      case DoThen(p, hasF, hasR) =>
        ThenHasEffect(s, p, hasF, hasR);
        ThenKeeps(s, p, hasF, hasR, Then(s, p, hasF, hasR));
      case Microtask(outcome) => MicrotaskKeeps(s, outcome);
    }
  }

  /** Every run keeps the invariant. */
  lemma {:induction false} RunKeeps(s: State, actions: seq<Action>)
    requires Inv(s)
    ensures Inv(Run(s, actions))
    decreases |actions|
  {
    if actions != [] {
      StepKeeps(s, actions[0]);
      RunKeeps(Step(s, actions[0]), actions[1..]);
    }
  }
}
