/** `serve` of `core/benches/rest_decode.rs`: pipelined HTTP requests (section 9.3.2 of
    RFC 9112) read in arbitrary pieces into one fixed buffer that is compacted in place. */
module Framing {
  import opened Wrappers
  import opened Bytes

  const CAPACITY: nat := 16 * 1024
  const TERMINATOR: seq<byte> := [13, 10, 13, 10]

  datatype Route = Route(pattern: seq<byte>, response: seq<byte>)

  /** `utf8` is the library's notion of well-formed UTF-8. */
  datatype Config = Config(routes: seq<Route>, utf8: seq<byte> -> bool)

  // ---------------------------------------------------------------- specification

  predicate TerminatorAt(s: seq<byte>, i: nat) {
    i + 4 <= |s| && s[i] == TERMINATOR[0] && s[i + 1] == TERMINATOR[1] && s[i + 2] == TERMINATOR[2]
      && s[i + 3] == TERMINATOR[3]
  }

  /** The position of the first blank line at or after i. */
  function TerminatorFrom(s: seq<byte>, i: nat): (e: Option<nat>)
    ensures e.Some? ==> i <= e.value && TerminatorAt(s, e.value)
    decreases |s| - i
  {
    if i + 4 > |s| then None
    else if TerminatorAt(s, i) then Some(i)
    else TerminatorFrom(s, i + 1)
  }

  function FirstTerminator(s: seq<byte>): (e: Option<nat>)
    ensures e.Some? ==> e.value + 4 <= |s|
  {
    TerminatorFrom(s, 0)
  }

  predicate Contains(s: seq<byte>, p: seq<byte>) {
    exists i :: 0 <= i <= |s| && p <= s[i..]
  }

  /** The response of the first route whose pattern occurs in the text. */
  function FirstRoute(routes: seq<Route>, text: seq<byte>): Option<seq<byte>> {
    if routes == [] then None
    else if Contains(text, routes[0].pattern) then Some(routes[0].response)
    else FirstRoute(routes[1..], text)
  }

  /** A head that is not UTF-8 counts as empty. */
  function Answer(cfg: Config, head: seq<byte>): Option<seq<byte>> {
    FirstRoute(cfg.routes, if cfg.utf8(head) then head else [])
  }

  /** What the server answers to a byte stream taken as a whole: it is split at its blank
      lines, up to the first head that has no route or does not fit the buffer. */
  function Responses(cfg: Config, s: seq<byte>): seq<seq<byte>>
    decreases |s|
  {
    match FirstTerminator(s)
    case None => []
    case Some(e) =>
      if e + 4 > CAPACITY then []
      else
        match Answer(cfg, s[..e])
        case None => []
        case Some(response) => [response] + Responses(cfg, s[e + 4..])
  }

  // ---------------------------------------------------------------- the blank line

  /** Cutting a stream short loses a blank line only if it cuts into it. */
  lemma {:induction false} TerminatorInPrefix(s: seq<byte>, k: nat, i: nat)
    requires k <= |s|
    ensures TerminatorFrom(s[..k], i)
         == match TerminatorFrom(s, i) case Some(e) => (if e + 4 <= k then Some(e) else None) case None => None
    decreases |s| - i
  {
    if i + 4 <= k && !TerminatorAt(s, i) {
      TerminatorInPrefix(s, k, i + 1);
    }
  }

  lemma TerminatorStays(s: seq<byte>, request: seq<byte>)
    requires request <= s && FirstTerminator(request).Some?
    ensures FirstTerminator(s) == FirstTerminator(request)
  {
    assert s[..|request|] == request;
    TerminatorInPrefix(s, |request|, 0);
  }

  /** `buf[..filled].windows(4).position(..)` */
  method FindTerminator(buf: array<byte>, filled: nat) returns (r: Option<nat>)
    requires filled <= buf.Length
    ensures r == FirstTerminator(buf[..filled])
  {
    var i := 0;
    while i + 4 <= filled
      invariant FirstTerminator(buf[..filled]) == TerminatorFrom(buf[..filled], i)
    {
      if buf[i] == TERMINATOR[0] && buf[i + 1] == TERMINATOR[1] && buf[i + 2] == TERMINATOR[2]
        && buf[i + 3] == TERMINATOR[3] {
        return Some(i);
      }
      i := i + 1;
    }
    return None;
  }

  /** `buf.copy_within(from..filled, 0)` */
  method CopyWithin(buf: array<byte>, from: nat, filled: nat)
    requires from <= filled <= buf.Length
    modifies buf
    ensures buf[..filled - from] == old(buf[from..filled])
  {
    var i := 0;
    while i < filled - from
      invariant 0 <= i <= filled - from
      invariant forall k :: 0 <= k < i ==> buf[k] == old(buf[k + from])
      invariant forall k :: i <= k < buf.Length ==> buf[k] == old(buf[k])
    {
      buf[i] := buf[i + from];
      i := i + 1;
    }
  }

  // ---------------------------------------------------------------- one request, byte by byte

  ghost predicate BlankLineAt(s: seq<byte>, i: nat) { i + 4 <= |s| && s[i..i + 4] == [13, 10, 13, 10] }

  /** The blank line is CR LF CR LF, and the first one counts. */
  lemma {:induction false} FirstBlankLine(s: seq<byte>, from: nat, e: nat)
    requires from <= e
    ensures TerminatorFrom(s, from) == Some(e)
      <==> BlankLineAt(s, e) && forall i :: from <= i < e ==> !BlankLineAt(s, i)
    decreases |s| - from
  {
    if from + 4 <= |s| {
      var at := s[from..from + 4];
      assert at == [at[0], at[1], at[2], at[3]];
      assert at[0] == s[from] && at[1] == s[from + 1] && at[2] == s[from + 2] && at[3] == s[from + 3];
      assert TerminatorAt(s, from) <==> BlankLineAt(s, from);
      if from < e && !TerminatorAt(s, from) { FirstBlankLine(s, from + 1, e); }
    }
  }

  lemma ContainsMeans(text: seq<byte>, p: seq<byte>)
    ensures Contains(text, p) <==> exists before, after :: text == before + p + after
  {
    if Contains(text, p) {
      var i :| 0 <= i <= |text| && p <= text[i..];
      assert text == text[..i] + p + text[i + |p|..];
    }
    if before, after :| text == before + p + after {
      assert text[|before|..] == p + after;
      assert p <= text[|before|..];
    }
  }

  /** The first route whose pattern occurs in the text gives the response. */
  lemma {:induction false} FirstRouteWins(routes: seq<Route>, text: seq<byte>, k: nat)
    requires k < |routes|
    requires exists before, after :: text == before + routes[k].pattern + after
    requires forall j, before, after :: 0 <= j < k ==> text != before + routes[j].pattern + after
    ensures FirstRoute(routes, text) == Some(routes[k].response)
  {
    ContainsMeans(text, routes[0].pattern);
    if k > 0 {
      forall j, before, after | 0 <= j < k - 1 ensures text != before + routes[1..][j].pattern + after {
        assert routes[1..][j] == routes[j + 1];
      }
      FirstRouteWins(routes[1..], text, k - 1);
    }
  }

  lemma {:induction false} NoRoute(routes: seq<Route>, text: seq<byte>)
    requires forall j, before, after :: 0 <= j < |routes| ==> text != before + routes[j].pattern + after
    ensures FirstRoute(routes, text) == None
  {
    if routes != [] {
      ContainsMeans(text, routes[0].pattern);
      forall j, before, after | 0 <= j < |routes| - 1 ensures text != before + routes[1..][j].pattern + after {
        assert routes[1..][j] == routes[j + 1];
      }
      NoRoute(routes[1..], text);
    }
  }

  /** What a head, its blank line and whatever follows are answered: a head that is not UTF-8
      routes like an empty one, and a request of more than 16384 bytes ends the connection. */
  lemma FirstRequest(cfg: Config, head: seq<byte>, rest: seq<byte>, seen: seq<byte>)
    requires forall i :: 0 <= i < |head| ==> !BlankLineAt(head + [13, 10, 13, 10], i)
    requires seen == if cfg.utf8(head) then head else []
    ensures var s := head + [13, 10, 13, 10] + rest;
      Responses(cfg, s)
      == if |head| > 16380 || FirstRoute(cfg.routes, seen) == None then []
         else [FirstRoute(cfg.routes, seen).value] + Responses(cfg, rest)
  {
    var request := head + [13, 10, 13, 10];
    var s := request + rest;
    assert request[|head|..|head| + 4] == [13, 10, 13, 10];
    FirstBlankLine(request, 0, |head|);
    TerminatorStays(s, request);
    assert s[..|head|] == head && s[|head| + 4..] == rest;
  }

  // ---------------------------------------------------------------- the connection

  /** The client's end: how many bytes a read delivers, and whether a read or a write
      fails, is up to the network. */
  class Connection {
    var unread: seq<byte>
    var answered: seq<seq<byte>>
    var readFailed: bool
    var writeFailed: bool

    constructor (stream: seq<byte>)
      ensures unread == stream && answered == [] && !readFailed && !writeFailed
    {
      unread, answered, readFailed, writeFailed := stream, [], false, false;
    }

    /** `stream.read(&mut buf[filled..])`; an error reads as 0, like the end of the stream. */
    method Read(buf: array<byte>, filled: nat) returns (n: nat)
      requires filled <= buf.Length
      modifies this, buf
      ensures n <= buf.Length - filled && n <= old(|unread|)
      ensures unread == old(unread)[n..]
      ensures buf[..filled + n] == old(buf[..filled]) + old(unread)[..n]
      ensures n == 0 ==> filled == buf.Length || unread == [] || readFailed
      ensures answered == old(answered) && writeFailed == old(writeFailed)
      ensures n > 0 ==> readFailed == old(readFailed)
    {
      var most := if buf.Length - filled < |unread| then buf.Length - filled else |unread|;
      if * {
        readFailed := true;
        return 0;
      }
      if most == 0 {
        return 0;
      }
      n :| 0 < n <= most;
      var i := 0;
      while i < n
        invariant 0 <= i <= n <= |unread| && filled + n <= buf.Length
        invariant buf[..filled + i] == old(buf[..filled]) + unread[..i]
        invariant unread == old(unread) && answered == old(answered)
        invariant readFailed == old(readFailed) && writeFailed == old(writeFailed)
      {
        buf[filled + i] := unread[i];
        i := i + 1;
      }
      unread := unread[n..];
    }

    /** `stream.write_all(body)` */
    method WriteAll(body: seq<byte>) returns (ok: bool)
      modifies this
      ensures unread == old(unread) && readFailed == old(readFailed)
      ensures answered == if ok then old(answered) + [body] else old(answered)
      ensures writeFailed == (old(writeFailed) || !ok)
    {
      if * {
        writeFailed := true;
        return false;
      }
      answered := answered + [body];
      return true;
    }
  }

  /** The bytes `done` are exactly what the responses `out` answer: whatever follows is
      answered as if it came first. */
  ghost predicate Answers(cfg: Config, done: seq<byte>, out: seq<seq<byte>>) {
    forall rest {:trigger Responses(cfg, done + rest)} :: Responses(cfg, done + rest) == out + Responses(cfg, rest)
  }

  /** A request that fits and has a route is answered before anything that follows it. */
  lemma AnswersFirst(cfg: Config, request: seq<byte>, response: seq<byte>, rest: seq<byte>)
    requires 4 <= |request| <= CAPACITY && FirstTerminator(request) == Some(|request| - 4)
    requires Answer(cfg, request[..|request| - 4]) == Some(response)
    ensures Responses(cfg, request + rest) == [response] + Responses(cfg, rest)
  {
    var s := request + rest;
    TerminatorStays(s, request);
    assert s[..|request| - 4] == request[..|request| - 4];
    assert s[|request|..] == rest;
  }

  lemma Associative<T>(a: seq<T>, b: seq<T>, c: seq<T>)
    ensures a + b + c == a + (b + c)
  {
  }

  lemma AnswersMore(cfg: Config, done: seq<byte>, out: seq<seq<byte>>, request: seq<byte>, response: seq<byte>)
    requires Answers(cfg, done, out)
    requires 4 <= |request| <= CAPACITY && FirstTerminator(request) == Some(|request| - 4)
    requires Answer(cfg, request[..|request| - 4]) == Some(response)
    ensures Answers(cfg, done + request, out + [response])
  {
    forall rest ensures Responses(cfg, done + request + rest) == out + [response] + Responses(cfg, rest) {
      AnswersFirst(cfg, request, response, rest);
      Associative(done, request, rest);
      Associative(out, [response], Responses(cfg, rest));
    }
  }

  /** The last blank line of `buf` is past its end, and more bytes cannot change that once it is full. */
  lemma NothingMore(cfg: Config, done: seq<byte>, out: seq<seq<byte>>, buffered: seq<byte>, unread: seq<byte>)
    requires Answers(cfg, done, out) && FirstTerminator(buffered).None?
    requires unread == [] || |buffered| == CAPACITY
    ensures Responses(cfg, done + buffered + unread) == out
  {
    var s := buffered + unread;
    assert s[..|buffered|] == buffered;
    TerminatorInPrefix(s, |buffered|, 0);
    if unread == [] { assert s == buffered; }
    assert done + buffered + unread == done + s;
    assert Responses(cfg, done + s) == out + Responses(cfg, s);
    assert Responses(cfg, s) == [];
  }

  /** A head without a route ends the connection. */
  lemma Unroutable(cfg: Config, done: seq<byte>, out: seq<seq<byte>>, buffered: seq<byte>, unread: seq<byte>)
    requires Answers(cfg, done, out) && FirstTerminator(buffered).Some?
    requires Answer(cfg, buffered[..FirstTerminator(buffered).value]).None?
    ensures Responses(cfg, done + buffered + unread) == out
  {
    var s := buffered + unread;
    TerminatorStays(s, buffered);
    var e := FirstTerminator(s).value;
    assert s[..e] == buffered[..e];
    assert done + buffered + unread == done + s;
    assert Responses(cfg, done + s) == out + Responses(cfg, s);
  }

  lemma AnswersPrefix(cfg: Config, done: seq<byte>, out: seq<seq<byte>>, rest: seq<byte>)
    requires Answers(cfg, done, out)
    ensures out <= Responses(cfg, done + rest)
  {
  }

  /** What a connection may look like when the server leaves it: the responses are those
      to the whole stream; if a read failed, those to the bytes that arrived; if a write
      failed, the first of them. */
  ghost predicate Served(cfg: Config, stream: seq<byte>, unread: seq<byte>, answered: seq<seq<byte>>,
                         readFailed: bool, writeFailed: bool) {
    && |unread| <= |stream|
    && var arrived := stream[..|stream| - |unread|];
       && stream == arrived + unread
       && answered <= Responses(cfg, stream)
       && (!writeFailed ==> answered == Responses(cfg, arrived))
       && (!writeFailed && !readFailed ==> answered == Responses(cfg, stream))
  }

  /** Between two reads: `done` has been answered, `buffered` is left in the buffer. */
  ghost predicate Between(cfg: Config, stream: seq<byte>, done: seq<byte>, buffered: seq<byte>, conn: Connection)
    reads conn
  {
    && stream == done + buffered + conn.unread
    && Answers(cfg, done, conn.answered)
    && !conn.readFailed && !conn.writeFailed
  }

  lemma LeaveAtEnd(cfg: Config, stream: seq<byte>, done: seq<byte>, buffered: seq<byte>, unread: seq<byte>,
                   out: seq<seq<byte>>, readFailed: bool)
    requires stream == done + buffered + unread && Answers(cfg, done, out) && FirstTerminator(buffered).None?
    requires readFailed || unread == [] || |buffered| == CAPACITY
    ensures Served(cfg, stream, unread, out, readFailed, false)
  {
    NothingMore(cfg, done, out, buffered, []);
    assert stream[..|stream| - |unread|] == done + buffered + [];
    AnswersPrefix(cfg, done, out, buffered + unread);
    Associative(done, buffered, unread);
    if !readFailed { NothingMore(cfg, done, out, buffered, unread); }
  }

  lemma LeaveUnroutable(cfg: Config, stream: seq<byte>, done: seq<byte>, buffered: seq<byte>, unread: seq<byte>,
                        out: seq<seq<byte>>)
    requires stream == done + buffered + unread && Answers(cfg, done, out) && FirstTerminator(buffered).Some?
    requires Answer(cfg, buffered[..FirstTerminator(buffered).value]).None?
    ensures Served(cfg, stream, unread, out, false, false)
  {
    Unroutable(cfg, done, out, buffered, []);
    Unroutable(cfg, done, out, buffered, unread);
    assert stream[..|stream| - |unread|] == done + buffered + [];
  }

  lemma LeaveUnwritten(cfg: Config, stream: seq<byte>, done: seq<byte>, buffered: seq<byte>, unread: seq<byte>,
                       out: seq<seq<byte>>)
    requires stream == done + buffered + unread && Answers(cfg, done, out)
    ensures Served(cfg, stream, unread, out, false, true)
  {
    AnswersPrefix(cfg, done, out, buffered + unread);
    Associative(done, buffered, unread);
    assert stream[..|stream| - |unread|] == done + buffered;
  }

  /** The inner loop of `serve`: answers every complete request in the buffer. */
  method AnswerBuffered(cfg: Config, conn: Connection, buf: array<byte>, filled: nat, ghost stream: seq<byte>,
                        ghost done: seq<byte>)
    returns (open: bool, left: nat, ghost done': seq<byte>)
    requires buf.Length == CAPACITY && filled <= CAPACITY
    requires Between(cfg, stream, done, buf[..filled], conn)
    modifies conn, buf
    ensures conn.unread == old(conn.unread) && left <= filled
    ensures open ==> Between(cfg, stream, done', buf[..left], conn) && FirstTerminator(buf[..left]).None?
    ensures !open ==> Served(cfg, stream, conn.unread, conn.answered, conn.readFailed, conn.writeFailed)
  {
    left := filled;
    done' := done;
    var end := FindTerminator(buf, left);
    while end.Some?
      invariant left <= filled
      invariant conn.unread == old(conn.unread)
      invariant Between(cfg, stream, done', buf[..left], conn)
      invariant end == FirstTerminator(buf[..left])
      decreases left
    {
      var e := end.value;
      ghost var buffered, request, rest := buf[..left], buf[..e + 4], buf[e + 4..left];
      assert buffered == request + rest && buffered[..e] == buf[..e] == request[..e];
      var response := Answer(cfg, buf[..e]);
      if response.None? {
        LeaveUnroutable(cfg, stream, done', buffered, conn.unread, conn.answered);
        return false, left, done';
      }
      ghost var out := conn.answered;
      var ok := conn.WriteAll(response.value);
      if !ok {
        LeaveUnwritten(cfg, stream, done', buffered, conn.unread, conn.answered);
        return false, left, done';
      }
      assert buffered[..e + 4] == request;
      TerminatorInPrefix(buffered, e + 4, 0);
      AnswersMore(cfg, done', out, request, response.value);
      Associative(done', request, rest);
      CopyWithin(buf, e + 4, left);
      left := left - (e + 4);
      done' := done' + request;
      end := FindTerminator(buf, left);
    }
    open := true;
  }

  lemma BytesArrived(done: seq<byte>, buffered: seq<byte>, unread: seq<byte>, n: nat)
    requires n <= |unread|
    ensures done + buffered + unread == done + (buffered + unread[..n]) + unread[n..]
  {
    assert unread == unread[..n] + unread[n..];
  }

  lemma NothingYet(cfg: Config)
    ensures Answers(cfg, [], [])
  {
    forall rest ensures Responses(cfg, [] + rest) == [] + Responses(cfg, rest) {
      assert [] + rest == rest;
    }
  }

  /** `serve`, in whatever pieces the stream arrives. */
  method Serve(cfg: Config, conn: Connection)
    requires conn.answered == [] && !conn.readFailed && !conn.writeFailed
    modifies conn
    ensures Served(cfg, old(conn.unread), conn.unread, conn.answered, conn.readFailed, conn.writeFailed)
  {
    ghost var stream := conn.unread;
    ghost var done: seq<byte> := [];
    var buf := new byte[CAPACITY](_ => 0);
    var filled: nat := 0;
    var open := true;
    NothingYet(cfg);
    assert buf[..filled] == [] && stream == done + [] + stream;
    while open
      invariant filled <= CAPACITY
      invariant open ==> Between(cfg, stream, done, buf[..filled], conn) && FirstTerminator(buf[..filled]).None?
      invariant !open ==> Served(cfg, stream, conn.unread, conn.answered, conn.readFailed, conn.writeFailed)
      decreases |conn.unread|, open
    {
      ghost var buffered, unread := buf[..filled], conn.unread;
      var n := conn.Read(buf, filled);
      if n == 0 {
        assert conn.unread == unread;
        LeaveAtEnd(cfg, stream, done, buffered, conn.unread, conn.answered, conn.readFailed);
        return;
      }
      BytesArrived(done, buffered, unread, n);
      filled := filled + n;
      assert buf[..filled] == buffered + unread[..n];
      assert Between(cfg, stream, done, buf[..filled], conn);
      open, filled, done := AnswerBuffered(cfg, conn, buf, filled, stream, done);
    }
  }

  // ---------------------------------------------------------------- the buffer's size

  /** The same splitting without a bound on the length of a head. */
  function Unbounded(cfg: Config, s: seq<byte>): seq<seq<byte>>
    decreases |s|
  {
    match FirstTerminator(s)
    case None => []
    case Some(e) =>
      match Answer(cfg, s[..e])
      case None => []
      case Some(response) => [response] + Unbounded(cfg, s[e + 4..])
  }

  /** Every request that has a route fits the buffer, blank line included. */
  predicate Fits(cfg: Config, s: seq<byte>)
    decreases |s|
  {
    match FirstTerminator(s)
    case None => true
    case Some(e) => Answer(cfg, s[..e]).Some? ==> e + 4 <= CAPACITY && Fits(cfg, s[e + 4..])
  }

  /** The buffer's size shows exactly when a request that has a route does not fit. */
  lemma {:induction false} SizeShows(cfg: Config, s: seq<byte>)
    ensures Responses(cfg, s) == Unbounded(cfg, s) <==> Fits(cfg, s)
    decreases |s|
  {
    var t := FirstTerminator(s);
    if t.Some? && Answer(cfg, s[..t.value]).Some? && t.value + 4 <= CAPACITY {
      SizeShows(cfg, s[t.value + 4..]);
      var a, b := Responses(cfg, s), Unbounded(cfg, s);
      assert a[1..] == Responses(cfg, s[t.value + 4..]) && b[1..] == Unbounded(cfg, s[t.value + 4..]);
    }
  }

  // ---------------------------------------------------------------- pipelining

  /** A request the server can answer: one head, its blank line, and nothing after it. */
  predicate Request(cfg: Config, r: seq<byte>) {
    4 <= |r| <= CAPACITY && FirstTerminator(r) == Some(|r| - 4) && Answer(cfg, r[..|r| - 4]).Some?
  }

  function Concat(requests: seq<seq<byte>>): seq<byte> {
    if requests == [] then [] else requests[0] + Concat(requests[1..])
  }

  function Bodies(cfg: Config, requests: seq<seq<byte>>): seq<seq<byte>>
    requires forall r <- requests :: Request(cfg, r)
  {
    if requests == [] then []
    else
      var r := requests[0];
      assert Request(cfg, r);
      [Answer(cfg, r[..|r| - 4]).value] + Bodies(cfg, requests[1..])
  }

  /** Pipelined requests are answered one by one, in order, and a trailing piece of a
      request not at all. */
  lemma {:induction false} Pipelining(cfg: Config, requests: seq<seq<byte>>, tail: seq<byte>)
    requires forall r <- requests :: Request(cfg, r)
    requires FirstTerminator(tail).None?
    ensures Responses(cfg, Concat(requests) + tail) == Bodies(cfg, requests)
    decreases |requests|
  {
    if requests == [] {
      assert Concat(requests) + tail == tail;
    } else {
      var r, rest := requests[0], requests[1..];
      assert Request(cfg, r);
      Pipelining(cfg, rest, tail);
      AnswersFirst(cfg, r, Answer(cfg, r[..|r| - 4]).value, Concat(rest) + tail);
      Associative(r, Concat(rest), tail);
    }
  }
}
