/** One connection of the mock streaming server, `benchmarks/ws/ws-mock-server.js`: what it
    sends, in whatever order client messages, the deferred start and timer ticks arrive. */
module MockServer {
  import opened Wrappers

  /** The command line. A rate of zero sends everything at once. */
  datatype Config = Config(count: nat, warmup: nat, rate: real)

  datatype Message = Auth | Subscribe(channel: string, symbol: string) | Unknown | Malformed

  /** What the event loop may deliver; a tick or the deferred start only while one is due. */
  datatype Event = Received(msg: Message) | Immediate | Tick

  datatype Frame =
    | Authenticated
    | Subscribed(channel: string, symbol: string)
    | Warmup(serial: int)
    | Data(serial: int)
    | BenchDone(count: nat)

  datatype State = State(
    authenticated: bool,
    subscription: Option<Frame>,
    starting: bool,
    timer: bool,
    sent: nat,
    trace: seq<Frame>)

  const START := State(false, None, false, false, 0, [])

  /** `Math.ceil(RATE / 100)` */
  function Batch(rate: real): int { -((-(rate / 100.0)).Floor) }

  function Reply(channel: string, symbol: string): Frame {
    Subscribed(if channel == "" then "trades" else channel, if symbol == "" then "2330" else symbol)
  }

  function Warmups(n: nat): (r: seq<Frame>)
    ensures |r| == n
  {
    seq(n, i => Warmup(i))
  }

  /** Data messages from the first up to the second. */
  function Datas(from: nat, to: nat): (r: seq<Frame>)
    requires from <= to
    ensures |r| == to - from
  {
    seq(to - from, i => Data(from + i))
  }

  // ---------------------------------------------------------------- steps

  function OnMessage(s: State, m: Message): State {
    match m
    case Auth => if s.authenticated then s else s.(authenticated := true, trace := s.trace + [Authenticated])
    case Subscribe(channel, symbol) =>
      if s.authenticated && s.subscription.None? then
        s.(subscription := Some(Reply(channel, symbol)), starting := true, trace := s.trace + [Reply(channel, symbol)])
      else s
    case _ => s
  }

  /** `startSending` */
  function OnStart(cfg: Config, s: State): State {
    if !s.starting then s
    else
      var warm := s.trace + Warmups(cfg.warmup);
      if cfg.rate == 0.0 then
        s.(starting := false, trace := warm + Datas(0, cfg.count) + [BenchDone(cfg.count)])
      else s.(starting := false, timer := true, sent := 0, trace := warm)
  }

  /** Where a tick that starts with `sent` messages stops. */
  function Next(cfg: Config, sent: nat): (e: nat)
    ensures sent <= e
  {
    var end := sent + Batch(cfg.rate);
    var batchEnd := if end < cfg.count then end else cfg.count;
    if batchEnd < sent then sent else batchEnd
  }

  function OnTick(cfg: Config, s: State): State {
    if !s.timer then s
    else
      var e := Next(cfg, s.sent);
      var trace := s.trace + Datas(s.sent, e);
      if e >= cfg.count then s.(timer := false, sent := e, trace := trace + [BenchDone(cfg.count)])
      else s.(sent := e, trace := trace)
  }

  function Step(cfg: Config, s: State, event: Event): State {
    match event
    case Received(m) => OnMessage(s, m)
    case Immediate => OnStart(cfg, s)
    case Tick => OnTick(cfg, s)
  }

  function Run(cfg: Config, s: State, events: seq<Event>): State
    decreases |events|
  {
    if events == [] then s else Run(cfg, Step(cfg, s, events[0]), events[1..])
  }

  // ---------------------------------------------------------------- the connection

  class Connection {
    const cfg: Config
    var authenticated: bool
    var subscription: Option<Frame>
    var starting: bool
    var timer: bool
    var sent: nat
    var trace: seq<Frame>

    constructor (cfg: Config)
      ensures this.cfg == cfg && Now() == START
    {
      this.cfg := cfg;
      authenticated, subscription, starting, timer, sent, trace := false, None, false, false, 0, [];
    }

    function Now(): State
      reads this
    {
      State(authenticated, subscription, starting, timer, sent, trace)
    }

    method Send(f: Frame)
      modifies this`trace
      ensures trace == old(trace) + [f]
    {
      trace := trace + [f];
    }

    method Receive(m: Message)
      modifies this
      ensures Now() == OnMessage(old(Now()), m)
    {
      if m.Auth? && !authenticated {
        authenticated := true;
        Send(Authenticated);
        return;
      }
      if m.Subscribe? && authenticated && subscription.None? {
        var reply := Reply(m.channel, m.symbol);
        subscription := Some(reply);
        Send(reply);
        starting := true;
      }
    }

    method Finish()
      modifies this`trace
      ensures trace == old(trace) + [BenchDone(cfg.count)]
    {
      Send(BenchDone(cfg.count));
    }

    /** The sends from `from` up to `to`. */
    method SendData(from: nat, to: nat)
      requires from <= to
      modifies this`trace
      ensures trace == old(trace) + Datas(from, to)
    {
      var i := from;
      while i < to
        invariant from <= i <= to
        invariant trace == old(trace) + Datas(from, i)
      {
        Send(Data(i));
        i := i + 1;
      }
    }

    method StartSending()
      requires starting
      modifies this
      ensures Now() == OnStart(cfg, old(Now()))
    {
      starting := false;
      var i := 0;
      while i < cfg.warmup
        invariant 0 <= i <= cfg.warmup
        invariant Now() == old(Now()).(starting := false, trace := old(trace) + Warmups(i))
      {
        Send(Warmup(i));
        i := i + 1;
      }
      if cfg.rate == 0.0 {
        SendData(0, cfg.count);
        Finish();
      } else {
        sent := 0;
        timer := true;
      }
    }

    method TimerTick()
      requires timer
      modifies this
      ensures Now() == OnTick(cfg, old(Now()))
    {
      var end := sent + Batch(cfg.rate);
      var batchEnd := if end < cfg.count then end else cfg.count;
      ghost var stop := Next(cfg, sent);
      while sent < batchEnd
        invariant old(sent) <= sent <= stop
        invariant Now() == old(Now()).(sent := sent, trace := old(trace) + Datas(old(sent), sent))
      {
        Send(Data(sent));
        sent := sent + 1;
      }
      if sent >= cfg.count {
        timer := false;
        Finish();
      }
    }
  }

  // ---------------------------------------------------------------- every run

  /** All a connection ever sends. */
  function Full(cfg: Config, reply: Frame): seq<Frame> {
    [Authenticated, reply] + Warmups(cfg.warmup) + Datas(0, cfg.count) + [BenchDone(cfg.count)]
  }

  /** How far a connection is. */
  ghost predicate Valid(cfg: Config, s: State) {
    && s.sent <= cfg.count
    && match s.subscription
       case None => !s.starting && !s.timer && s.trace == if s.authenticated then [Authenticated] else []
       case Some(reply) => s.authenticated && s.trace == Sent(cfg, s, reply) && !(s.starting && s.timer)
  }

  function Sent(cfg: Config, s: State, reply: Frame): seq<Frame>
    requires s.sent <= cfg.count
  {
    if s.starting then [Authenticated, reply]
    else if s.timer then [Authenticated, reply] + Warmups(cfg.warmup) + Datas(0, s.sent)
    else Full(cfg, reply)
  }

  predicate Finished(s: State) { s.subscription.Some? && !s.starting && !s.timer }

  lemma DatasConcat(a: nat, b: nat, c: nat)
    requires a <= b <= c
    ensures Datas(a, b) + Datas(b, c) == Datas(a, c)
  {
  }

  lemma StepKeeps(cfg: Config, s: State, event: Event)
    requires Valid(cfg, s)
    ensures Valid(cfg, Step(cfg, s, event))
  {
    if event.Tick? && s.timer {
      var e, head := Next(cfg, s.sent), [Authenticated, s.subscription.value] + Warmups(cfg.warmup);
      DatasConcat(0, s.sent, e);
      assert head + Datas(0, s.sent) + Datas(s.sent, e) == head + Datas(0, e);
    } else if event.Immediate? && s.starting {
      assert Datas(0, 0) == [];
    }
  }

  lemma {:induction false} RunKeeps(cfg: Config, s: State, events: seq<Event>)
    requires Valid(cfg, s)
    ensures Valid(cfg, Run(cfg, s, events))
    decreases |events|
  {
    if events != [] {
      StepKeeps(cfg, s, events[0]);
      RunKeeps(cfg, Step(cfg, s, events[0]), events[1..]);
    }
  }

  /** Whatever arrives, in whatever order and at whatever rate, a connection has sent a prefix
      of: the two replies, the warmup and the data messages in order, one end mark. */
  lemma TraceIsPrefix(cfg: Config, events: seq<Event>)
    ensures var s := Run(cfg, START, events);
      && s.trace <= Full(cfg, if s.subscription.Some? then s.subscription.value else Reply("", ""))
      && (Finished(s) ==> s.trace == Full(cfg, s.subscription.value))
      && (s.subscription.Some? && !Finished(s) ==> |s.trace| < |Full(cfg, s.subscription.value)|)
  {
    RunKeeps(cfg, START, events);
    var s := Run(cfg, START, events);
    if s.timer { DatasConcat(0, s.sent, cfg.count); }
  }

  /** A confirmation names what was asked for; "trades" and "2330" stand in for what was not. */
  lemma Confirms(cfg: Config, s: State, channel: string, symbol: string)
    requires s.authenticated && s.subscription == None
    ensures var r := Step(cfg, s, Received(Subscribe(channel, symbol)));
      && |r.trace| == |s.trace| + 1 && r.trace[..|s.trace|] == s.trace
      && match r.trace[|s.trace|]
         case Subscribed(c, y) =>
           && (channel != "" ==> c == channel) && (channel == "" ==> c == "trades")
           && (symbol != "" ==> y == symbol) && (symbol == "" ==> y == "2330")
         case _ => false
  {
  }

  /** A finished connection has sent each frame in its place. */
  lemma FinishedTrace(cfg: Config, events: seq<Event>)
    requires Finished(Run(cfg, START, events))
    ensures var s, w := Run(cfg, START, events), cfg.warmup;
      && |s.trace| == 3 + w + cfg.count
      && s.trace[0] == Authenticated && s.subscription == Some(s.trace[1])
      && (forall i :: 0 <= i < w ==> s.trace[2 + i] == Warmup(i))
      && (forall i :: 0 <= i < cfg.count ==> s.trace[2 + w + i] == Data(i))
      && s.trace[2 + w + cfg.count] == BenchDone(cfg.count)
  {
    TraceIsPrefix(cfg, events);
  }

  /** The confirmation of the first subscribe message that follows an auth message. */
  function FirstAccepted(authenticated: bool, events: seq<Event>): Option<Frame>
    decreases |events|
  {
    if events == [] then None
    else
      match events[0]
      case Received(Subscribe(channel, symbol)) =>
        if authenticated then Some(Reply(channel, symbol)) else FirstAccepted(authenticated, events[1..])
      case Received(Auth) => FirstAccepted(true, events[1..])
      case _ => FirstAccepted(authenticated, events[1..])
  }

  /** Whatever arrives in between, that is the subscription a connection serves, and no later one. */
  lemma {:induction false} ServesFirst(cfg: Config, s: State, events: seq<Event>)
    ensures Run(cfg, s, events).subscription
         == if s.subscription.Some? then s.subscription else FirstAccepted(s.authenticated, events)
    decreases |events|
  {
    if events != [] {
      ServesFirst(cfg, Step(cfg, s, events[0]), events[1..]);
    }
  }

  /** An accepted subscription starts with the deferred call, and at a zero rate is then complete. */
  lemma {:induction false} StartsWhenCalled(cfg: Config, s: State, events: seq<Event>)
    requires Valid(cfg, s) && s.starting
    ensures Run(cfg, s, events).starting <==> Immediate !in events
    ensures cfg.rate == 0.0 ==> (Finished(Run(cfg, s, events)) <==> Immediate in events)
    decreases |events|
  {
    if events != [] {
      var next, rest := Step(cfg, s, events[0]), events[1..];
      assert events == [events[0]] + rest;
      StepKeeps(cfg, s, events[0]);
      if events[0].Immediate? {
        StaysStarted(cfg, next, rest);
      } else {
        StartsWhenCalled(cfg, next, rest);
      }
    }
  }

  lemma {:induction false} StaysStarted(cfg: Config, s: State, events: seq<Event>)
    requires s.subscription.Some? && !s.starting
    ensures !Run(cfg, s, events).starting && Run(cfg, s, events).subscription.Some?
    ensures !s.timer ==> !Run(cfg, s, events).timer
    decreases |events|
  {
    if events != [] { StaysStarted(cfg, Step(cfg, s, events[0]), events[1..]); }
  }

  // ---------------------------------------------------------------- burst and timer

  /** The rate decides neither what is accepted nor when sending starts. */
  ghost predicate SameControl(s: State, t: State) {
    s.authenticated == t.authenticated && s.subscription == t.subscription && s.starting == t.starting
  }

  lemma {:induction false} RateIsNoControl(cfg: Config, burst: Config, s: State, t: State, events: seq<Event>)
    requires SameControl(s, t) && !t.timer && burst.rate == 0.0
    ensures SameControl(Run(cfg, s, events), Run(burst, t, events)) && !Run(burst, t, events).timer
    decreases |events|
  {
    if events != [] {
      RateIsNoControl(cfg, burst, Step(cfg, s, events[0]), Step(burst, t, events[0]), events[1..]);
    }
  }

  /** The timer refines the burst: on the same events a throttled connection has sent a prefix
      of what an unthrottled one has, and all of it once it has finished. */
  lemma TimerRefinesBurst(cfg: Config, burst: Config, events: seq<Event>)
    requires burst == cfg.(rate := 0.0)
    ensures Run(cfg, START, events).trace <= Run(burst, START, events).trace
    ensures Finished(Run(cfg, START, events)) ==> Run(cfg, START, events).trace == Run(burst, START, events).trace
  {
    RateIsNoControl(cfg, burst, START, START, events);
    TraceIsPrefix(cfg, events);
    TraceIsPrefix(burst, events);
    RunKeeps(cfg, START, events);
    RunKeeps(burst, START, events);
  }

  function Ticks(events: seq<Event>): nat
    decreases |events|
  {
    if events == [] then 0 else (if events[0].Tick? then 1 else 0) + Ticks(events[1..])
  }

  /** A batch is a hundredth of the rate, rounded up. */
  lemma BatchIsCeiling(rate: real)
    ensures (Batch(rate) - 1) as real < rate / 100.0 <= Batch(rate) as real
  {
    var x := -(rate / 100.0);
    assert x.Floor as real <= x < x.Floor as real + 1.0;
  }

  /** Every positive rate sends at least one message a tick, and no other rate sends any. */
  lemma BatchMeans(rate: real)
    ensures Batch(rate) >= 1 <==> rate > 0.0
  {
    var x := -(rate / 100.0);
    assert x.Floor as real <= x < x.Floor as real + 1.0;
  }

  lemma OneMore(b: int, k: nat, n: nat)
    requires n == k + 1
    ensures n * b == k * b + b
  {
  }

  /** What a tick adds: nothing, if the batch is negative. */
  function Progress(cfg: Config): nat { if Batch(cfg.rate) < 0 then 0 else Batch(cfg.rate) }

  lemma NextMeans(cfg: Config, sent: nat)
    requires sent <= cfg.count
    ensures Next(cfg, sent) >= cfg.count <==> sent + Progress(cfg) >= cfg.count
    ensures sent + Progress(cfg) <= cfg.count ==> Next(cfg, sent) == sent + Progress(cfg)
  {
  }

  /** A started timer finishes at the very tick by which its batches reach the count, at any rate. */
  lemma {:induction false} TimerFinishes(cfg: Config, s: State, events: seq<Event>)
    requires Valid(cfg, s) && s.timer && !s.starting
    ensures Finished(Run(cfg, s, events))
      <==> Ticks(events) >= 1 && s.sent + Ticks(events) * Progress(cfg) >= cfg.count
    decreases |events|
  {
    if events != [] {
      var next, rest, b := Step(cfg, s, events[0]), events[1..], Progress(cfg);
      StepKeeps(cfg, s, events[0]);
      if !events[0].Tick? {
        TimerFinishes(cfg, next, rest);
      } else {
        NextMeans(cfg, s.sent);
        OneMore(b, Ticks(rest), Ticks(events));
        AtLeast(b, Ticks(rest));
        if Finished(next) {
          StaysStarted(cfg, next, rest);
        } else {
          TimerFinishes(cfg, next, rest);
        }
      }
    }
  }

  lemma AtLeast(b: nat, k: nat)
    ensures k * b >= 0 && (k == 0 ==> k * b == 0)
  {
  }

  lemma {:induction false} NeverFinishes(cfg: Config, s: State, events: seq<Event>)
    requires Valid(cfg, s) && !Finished(s) && s.sent == 0 && cfg.rate < 0.0 && cfg.count > 0
    ensures !Finished(Run(cfg, s, events)) && Run(cfg, s, events).sent == 0
    decreases |events|
  {
    BatchMeans(cfg.rate);
    if events != [] {
      StepKeeps(cfg, s, events[0]);
      NeverFinishes(cfg, Step(cfg, s, events[0]), events[1..]);
    }
  }

  function Opening(): seq<Event> { [Received(Auth), Received(Subscribe("", "")), Immediate] }

  function TickTimes(n: nat): (events: seq<Event>)
    ensures Ticks(events) == n
  {
    if n == 0 then [] else [Tick] + TickTimes(n - 1)
  }

  lemma {:induction false} RunConcat(cfg: Config, s: State, a: seq<Event>, b: seq<Event>)
    ensures Run(cfg, s, a + b) == Run(cfg, Run(cfg, s, a), b)
    decreases |a|
  {
    if a == [] {
      assert a + b == b;
    } else {
      assert (a + b)[1..] == a[1..] + b;
      RunConcat(cfg, Step(cfg, s, a[0]), a[1..], b);
    }
  }

  lemma Opened(cfg: Config)
    ensures var s := Run(cfg, START, Opening());
      if cfg.rate == 0.0 then Finished(s) else s.timer && !s.starting && s.sent == 0
  {
    var a := Step(cfg, START, Received(Auth));
    var b := Step(cfg, a, Received(Subscribe("", "")));
    assert Opening()[1..] == [Received(Subscribe("", "")), Immediate];
    assert Opening()[1..][1..] == [Immediate] && [Immediate][1..] == [];
    assert Run(cfg, b, [Immediate]) == Run(cfg, OnStart(cfg, b), []);
  }

  lemma Enough(b: nat, count: nat)
    requires b >= 1
    ensures (count + 1) * b >= count
  {
  }

  /** Some client gets everything, end mark included, if and only if the rate is not negative or
      there is nothing to send. */
  lemma CanFinish(cfg: Config)
    ensures (exists events :: Finished(Run(cfg, START, events))) <==> cfg.rate >= 0.0 || cfg.count == 0
  {
    if cfg.rate >= 0.0 || cfg.count == 0 {
      Opened(cfg);
      if cfg.rate != 0.0 {
        var s, ticks := Run(cfg, START, Opening()), TickTimes(cfg.count + 1);
        RunKeeps(cfg, START, Opening());
        TimerFinishes(cfg, s, ticks);
        BatchMeans(cfg.rate);
        if cfg.rate > 0.0 { Enough(Progress(cfg), cfg.count); }
        RunConcat(cfg, START, Opening(), ticks);
      }
    } else {
      forall events ensures !Finished(Run(cfg, START, events)) { NeverFinishes(cfg, START, events); }
    }
  }
}
