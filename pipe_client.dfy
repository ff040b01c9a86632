/** The display's end of the named pipe: a client that connects, reads messages while
    connected, and after every attempt, whatever its outcome, waits 5 s before the next
    one, until it is stopped. */
module PipeClient {
  import opened Wrappers
  import opened Ipc

  /** The fields of the client: `_isListening`, `_isConnected`, `_pipeClient`,
      `_messageHandler`, whether the current cancellation token is cancelled, and what has
      been observed so far. */
  datatype ClientState = ClientState(listening: bool, connected: bool, pipe: Pipe, handler: Option<HandlerId>,
                                     cancelled: bool, trace: seq<Observation>)

  /** `IsConnected`: the client's own flag is set and its pipe reports connected. */
  predicate Linked(s: ClientState): (r: bool)
    ensures r <==> s.connected && s.pipe.Open? && s.pipe.connected
    ensures s.pipe == NoPipe ==> !r
  {
    s.connected && s.pipe.Open? && s.pipe.connected
  }

  // ---------------------------------------------------------------------------------
  // The operations on values

  /** `StartListening`: ignored while listening; otherwise the handler is stored, a fresh
      cancellation token made and listening set. */
  function Started(s: ClientState, h: Option<HandlerId>): (r: ClientState)
    ensures r.listening && r.pipe == s.pipe && r.trace == s.trace
    ensures s.listening ==> r == s
    ensures !s.listening ==> r.handler == h && !r.cancelled
  {
    if s.listening then s else s.(listening := true, handler := h, cancelled := false)
  }

  /** `StopListening`: ignored when not listening; otherwise listening is cleared, the token
      cancelled, the pipe disposed, the flag cleared and "disconnected" reported. */
  function Stopped(s: ClientState): (r: ClientState)
    ensures !r.listening && r.handler == s.handler
    ensures s.listening ==> r.cancelled && !r.connected && r.pipe == NoPipe && !Linked(r)
                            && r.trace == s.trace + [StatusChanged(false)]
    ensures !s.listening ==> r == s
  {
    if !s.listening then s
    else s.(listening := false, cancelled := true, pipe := NoPipe, connected := false,
            trace := s.trace + [StatusChanged(false)])
  }

  /** `SendMessageAsync`'s outcome: an exception when not connected, an exception when the
      write throws, otherwise written. */
  function SendResult(s: ClientState, writeFails: bool): (o: SendOutcome)
    ensures o == Threw(NotConnected) <==> !Linked(s)
    ensures o == Written <==> Linked(s) && !writeFails
    ensures o != Dropped
  {
    if !Linked(s) then Threw(NotConnected) else if writeFails then Threw(WriteFailed) else Written
  }

  /** `ConnectAsync` with `e` the outcome of the wait: a new pipe is made; a connection sets
      the flag and reports "connected"; anything else (an error, the time-out, a
      cancellation from `StopListening`) clears the flag and reports "disconnected" before
      the exception leaves. */
  function Connect(s: ClientState, e: Event): (r: ClientState)
    ensures r.handler == s.handler
    ensures r.connected <==> e == Attach
    ensures Linked(r) <==> e == Attach
  {
    var s1 := s.(pipe := Open(false));
    match e
    case Attach => s1.(pipe := Open(true), connected := true, trace := s1.trace + [StatusChanged(true)])
    case Stop =>
      var s2 := Stopped(s1);
      s2.(connected := false, trace := s2.trace + [StatusChanged(false)])
    case _ => s1.(connected := false, trace := s1.trace + [StatusChanged(false)])
  }

  /** `ListenForMessagesAsync`: while listening, connected and not cancelled, read a
      message and deliver it; any read error ends the loop. A `Stop` while reading disposes
      the pipe under the read, which then throws. */
  function ReadLoop(s: ClientState, script: seq<Event>): (r: (ClientState, seq<Event>))
    ensures r.0.handler == s.handler && |r.1| <= |script|
    decreases |script|
  {
    if !(s.listening && Linked(s) && !s.cancelled) then (s, script)
    else
      match Head(script)
      case Stop => (Stopped(s), Tail(script))
      case Receive(m, open) =>
        ReadLoop(s.(pipe := Open(open), trace := s.trace + Deliver(s.handler, m)), Tail(script))
      case _ => (s, Tail(script))
  }

  /** `ConnectAndListenAsync`: while listening and not cancelled, try to connect and, when
      connected, read; then, still listening, wait 5 s (a cancellation during the wait ends
      the loop). A failed connection's exception is caught by the loop, so each attempt is
      followed by the wait. */
  function ConnectLoop(s: ClientState, script: seq<Event>): (r: (ClientState, seq<Event>))
    ensures r.0.handler == s.handler
    decreases |script|
  {
    if !(s.listening && !s.cancelled) then (s, script)
    else
      var s1 := Connect(s, Head(script));
      var read := if s1.connected then ReadLoop(s1, Tail(script)) else (s1, Tail(script));
      var s2 := read.0;
      if !(s2.listening && !s2.cancelled) then read
      else if Head(read.1) == Stop then (Stopped(s2), Tail(read.1))
      else ConnectLoop(s2.(trace := s2.trace + [Backoff(ReconnectDelayMs)]), Tail(read.1))
  }

  /** `n` failed attempts, each followed by the full delay. */
  function Failures(n: nat): (script: seq<Event>)
    ensures |script| == 2 * n
  {
    if n == 0 then [] else [Fail, Elapse] + Failures(n - 1)
  }

  /** What `n` failed attempts are seen as: "disconnected" and a delay, `n` times. */
  function RetryTrace(n: nat): (t: seq<Observation>)
    ensures |t| == 2 * n
  {
    if n == 0 then [] else [StatusChanged(false), Backoff(ReconnectDelayMs)] + RetryTrace(n - 1)
  }

  // ---------------------------------------------------------------------------------
  // The order of observations

  /** Where the client's observations have got to: before an attempt's outcome, reading
      after a connection, between a message's callback and its event, after a failed
      attempt, or stopped. */
  datatype Phase = Attempt | Reading | Handling(m: Message) | Failed | Ended

  /** The attempts of the connect loop as an automaton: an attempt is "connected" followed
      by deliveries, or "disconnected"; exactly one delay separates an attempt from the
      next; the stopping "disconnected" ends everything. */
  function Step(h: Option<HandlerId>, q: Phase, o: Observation): (r: Option<Phase>)
  {
    match q
    case Attempt =>
      if o == StatusChanged(true) then Some(Reading)
      else if o == StatusChanged(false) then Some(Failed)
      else None
    case Reading =>
      if o == StatusChanged(false) then Some(Ended)
      else if o == Backoff(ReconnectDelayMs) then Some(Attempt)
      else if o.Handled? && h == Some(o.handler) then Some(Handling(o.m))
      else if o.Received? && h.None? then Some(Reading)
      else None
    case Handling(m) => if o == Received(m) then Some(Reading) else None
    case Failed =>
      if o == Backoff(ReconnectDelayMs) then Some(Attempt)
      else if o == StatusChanged(false) then Some(Ended)
      else None
    case Ended => None
  }

  /** The automaton for the client's handler. */
  function Attempts(h: Option<HandlerId>): (Phase, Observation) -> Option<Phase>
  {
    (q, o) => Step(h, q, o)
  }

  lemma DeliverWhileReading(h: Option<HandlerId>, m: Message)
    ensures Run(Attempts(h), Reading, Deliver(h, m)) == Some(Reading)
  {
    var t := Deliver(h, m);
    if h.Some? {
      assert t == [Handled(h.value, m), Received(m)];
      assert t[1..] == [Received(m)] && t[1..][1..] == [];
      assert Run(Attempts(h), Handling(m), t[1..]) == Some(Reading);
    } else {
      assert t[1..] == [];
    }
  }

  /** The read loop observes deliveries, callback first, and, when it was stopped, the
      stopping "disconnected" last. */
  lemma {:induction false} ReadLoopOrder(s: ClientState, script: seq<Event>)
    ensures var r := ReadLoop(s, script).0;
      Emits(Attempts(s.handler), Reading, s.trace, r.trace, if s.listening && !r.listening then Ended else Reading)
    ensures var r := ReadLoop(s, script).0;
      r.listening ==> r.cancelled == s.cancelled
    decreases |script|
  {
    var h := s.handler;
    if s.listening && Linked(s) && !s.cancelled && Head(script).Receive? {
      var m := Head(script).m;
      var s' := s.(pipe := Open(Head(script).open), trace := s.trace + Deliver(h, m));
      DeliverWhileReading(h, m);
      EmitsChunk(Attempts(h), Reading, s.trace, Deliver(h, m), Reading);
      ReadLoopOrder(s', Tail(script));
      var r := ReadLoop(s, script).0;
      EmitsTrans(Attempts(h), Reading, s.trace, s'.trace, Reading, r.trace,
                 if s.listening && !r.listening then Ended else Reading);
    } else if s.listening && Linked(s) && !s.cancelled && Head(script) == Stop {
      EmitsChunk(Attempts(h), Reading, s.trace, [StatusChanged(false)], Ended);
    } else {
      EmitsChunk(Attempts(h), Reading, s.trace, [], Reading);
      assert s.trace + [] == s.trace;
    }
  }

  /** After a connection: deliveries, then either the stop or a delay followed by the
      remaining attempts, ending stopped. */
  lemma {:induction false} AfterConnect(s: ClientState, rest: seq<Event>)
    requires s.listening && !s.cancelled
    ensures Emits(Attempts(s.handler), Reading, Connect(s, Attach).trace, ConnectLoop(s, [Attach] + rest).0.trace, Ended)
    decreases |rest| + 1, 0
  {
    var h := s.handler;
    var script := [Attach] + rest;
    assert Head(script) == Attach && Tail(script) == rest;
    var s1 := Connect(s, Attach);
    var read := ReadLoop(s1, rest);
    var s2 := read.0;
    var r := ConnectLoop(s, script).0;
    ReadLoopOrder(s1, rest);
    if !(s2.listening && !s2.cancelled) {
      assert r == s2;
    } else if Head(read.1) == Stop {
      EmitsChunk(Attempts(h), Reading, s2.trace, [StatusChanged(false)], Ended);
      EmitsTrans(Attempts(h), Reading, s1.trace, s2.trace, Reading, r.trace, Ended);
    } else {
      var s3 := s2.(trace := s2.trace + [Backoff(ReconnectDelayMs)]);
      EmitsChunk(Attempts(h), Reading, s2.trace, [Backoff(ReconnectDelayMs)], Attempt);
      EmitsTrans(Attempts(h), Reading, s1.trace, s2.trace, Reading, s3.trace, Attempt);
      ConnectLoopOrder(s3, Tail(read.1));
      EmitsTrans(Attempts(h), Reading, s1.trace, s3.trace, Attempt, r.trace, Ended);
    }
  }

  /** The connect loop, once started, observes whole attempts separated by exactly one
      5 s delay each, reads only after "connected", and ends with the stop. */
  lemma {:induction false} ConnectLoopOrder(s: ClientState, script: seq<Event>)
    requires s.listening && !s.cancelled
    ensures Emits(Attempts(s.handler), Attempt, s.trace, ConnectLoop(s, script).0.trace, Ended)
    decreases |script|, 1
  {
    var h := s.handler;
    var r := ConnectLoop(s, script).0;
    var s1 := Connect(s, Head(script));
    match Head(script)
    case Attach =>
      assert script == [Attach] + Tail(script);
      EmitsChunk(Attempts(h), Attempt, s.trace, [StatusChanged(true)], Reading);
      AfterConnect(s, Tail(script));
      EmitsTrans(Attempts(h), Attempt, s.trace, s1.trace, Reading, r.trace, Ended);
    case Stop =>
      assert s1.trace == s.trace + [StatusChanged(false), StatusChanged(false)];
      EmitsChunk(Attempts(h), Attempt, s.trace, [StatusChanged(false), StatusChanged(false)], Ended);
    case _ =>
      EmitsChunk(Attempts(h), Attempt, s.trace, [StatusChanged(false)], Failed);
      var wait := Tail(script);
      if Head(wait) == Stop {
        EmitsChunk(Attempts(h), Failed, s1.trace, [StatusChanged(false)], Ended);
        EmitsTrans(Attempts(h), Attempt, s.trace, s1.trace, Failed, r.trace, Ended);
      } else {
        var s3 := s1.(trace := s1.trace + [Backoff(ReconnectDelayMs)]);
        EmitsChunk(Attempts(h), Failed, s1.trace, [Backoff(ReconnectDelayMs)], Attempt);
        EmitsTrans(Attempts(h), Attempt, s.trace, s1.trace, Failed, s3.trace, Attempt);
        ConnectLoopOrder(s3, Tail(wait));
        EmitsTrans(Attempts(h), Attempt, s.trace, s3.trace, Attempt, r.trace, Ended);
      }
  }

  /** The connect loop, once started, returns only after `StopListening`: no longer
      listening, the flag cleared, no pipe, the last observation "disconnected"; a send
      after that throws. */
  lemma {:induction false} ConnectLoopEnds(s: ClientState, script: seq<Event>, writeFails: bool)
    requires s.listening && !s.cancelled
    ensures var r := ConnectLoop(s, script).0;
      && !r.listening && !r.connected && r.pipe == NoPipe
      && |r.trace| > |s.trace| && r.trace[|r.trace| - 1] == StatusChanged(false)
      && SendResult(r, writeFails) == Threw(NotConnected)
    decreases |script|
  {
    var s1 := Connect(s, Head(script));
    var read := if s1.connected then ReadLoop(s1, Tail(script)) else (s1, Tail(script));
    var s2 := read.0;
    AttemptEnds(s, script);
    if !(s2.listening && !s2.cancelled) {
      assert ConnectLoop(s, script) == read;
    } else if Head(read.1) == Stop {
      assert ConnectLoop(s, script) == (Stopped(s2), Tail(read.1));
    } else {
      var s3 := s2.(trace := s2.trace + [Backoff(ReconnectDelayMs)]);
      assert ConnectLoop(s, script) == ConnectLoop(s3, Tail(read.1));
      ConnectLoopEnds(s3, Tail(read.1), writeFails);
    }
  }

  /** One attempt, connect and any reading after it, observes something; when it ends the
      loop it leaves the client not listening, with the flag cleared, no pipe and "disconnected" observed last. */
  lemma AttemptEnds(s: ClientState, script: seq<Event>)
    requires s.listening && !s.cancelled
    ensures var s1 := Connect(s, Head(script));
      var s2 := if s1.connected then ReadLoop(s1, Tail(script)).0 else s1;
      && |s2.trace| > |s.trace|
      && (!(s2.listening && !s2.cancelled) ==>
            !s2.listening && !s2.connected && s2.pipe == NoPipe && s2.trace[|s2.trace| - 1] == StatusChanged(false))
  {
    var s1 := Connect(s, Head(script));
    if s1.connected {
      ReadLoopOrder(s1, Tail(script));
      ReadStops(s1, Tail(script));
    } else if !(s1.listening && !s1.cancelled) {
      assert Head(script) == Stop;
    }
  }

  /** A read loop that leaves the client not listening was stopped while reading: the
      flag cleared, the pipe gone, "disconnected" observed last. */
  lemma {:induction false} ReadStops(s: ClientState, script: seq<Event>)
    requires s.listening
    ensures var r := ReadLoop(s, script).0;
      !r.listening ==> !r.connected && r.pipe == NoPipe && |r.trace| > |s.trace|
                       && r.trace[|r.trace| - 1] == StatusChanged(false)
    decreases |script|
  {
    if s.listening && Linked(s) && !s.cancelled && Head(script).Receive? {
      var s' := s.(pipe := Open(Head(script).open), trace := s.trace + Deliver(s.handler, Head(script).m));
      ReadStops(s', Tail(script));
    }
  }

  /** `StartListening` while listening changes nothing, so starting twice is starting once;
      after `StopListening` a new start installs the new handler. */
  lemma StartTwice(s: ClientState, h: Option<HandlerId>, h': Option<HandlerId>)
    ensures Started(Started(s, h), h') == Started(s, h)
    ensures var r := Started(Stopped(s), h'); r.listening && r.handler == h' && !r.cancelled
  {
  }

  /** `StopListening` twice is `StopListening` once: the second call reports nothing. */
  lemma StopTwice(s: ClientState)
    ensures Stopped(Stopped(s)) == Stopped(s)
  {
  }

  /** A connection is announced as "connected"; a failed or timed-out one as
      "disconnected"; one cancelled by `StopListening` as "disconnected" twice, once by the
      stop and once by the failed connect. */
  lemma ConnectReports(s: ClientState, e: Event)
    requires s.listening
    ensures var r := Connect(s, e);
      && (e == Attach ==> Linked(r) && r.trace == s.trace + [StatusChanged(true)])
      && (e != Attach && e != Stop ==> !Linked(r) && r.listening && r.trace == s.trace + [StatusChanged(false)])
      && (e == Stop ==> !Linked(r) && !r.listening
                        && r.trace == s.trace + [StatusChanged(false), StatusChanged(false)])
  {
  }

  /** Where reading `m` while connected leaves the client: `m` delivered. */
  function Got(s: ClientState, m: Message): (r: ClientState)
  {
    s.(trace := s.trace + Deliver(s.handler, m))
  }

  /** Where reading the run `ms` while connected leaves the client. */
  function GotAll(s: ClientState, ms: seq<Message>): (r: ClientState)
    decreases |ms|
  {
    if ms == [] then s else GotAll(Got(s, ms[0]), ms[1..])
  }

  /** Reading a run of messages changes only the trace, which gains their deliveries. */
  lemma {:induction false} GotAllState(s: ClientState, ms: seq<Message>)
    ensures GotAll(s, ms) == s.(trace := s.trace + Deliveries(s.handler, ms))
    decreases |ms|
  {
    if ms == [] {
      assert s.trace + [] == s.trace;
    } else {
      GotAllState(Got(s, ms[0]), ms[1..]);
      assert Got(s, ms[0]).trace + Deliveries(s.handler, ms[1..]) == s.trace + Deliveries(s.handler, ms);
    }
  }

  lemma ReadOne(s: ClientState, m: Message, rest: seq<Event>)
    requires s.listening && Linked(s) && !s.cancelled
    ensures ReadLoop(s, [Receive(m, true)] + rest) == ReadLoop(Got(s, m), rest)
  {
    var script := [Receive(m, true)] + rest;
    assert Head(script) == Receive(m, true) && Tail(script) == rest;
    assert s.(pipe := Open(true), trace := s.trace + Deliver(s.handler, m)) == Got(s, m);
  }

  /** Reading a run of messages while connected delivers each of them, callback first. */
  lemma {:induction false} ClientReads(s: ClientState, ms: seq<Message>, rest: seq<Event>)
    requires s.listening && Linked(s) && !s.cancelled
    ensures ReadLoop(s, Arrivals(ms) + rest) == ReadLoop(GotAll(s, ms), rest)
    decreases |ms|
  {
    if ms == [] {
      assert Arrivals(ms) + rest == rest;
    } else {
      assert Arrivals(ms) + rest == [Receive(ms[0], true)] + (Arrivals(ms[1..]) + rest);
      ReadOne(s, ms[0], Arrivals(ms[1..]) + rest);
      ClientReads(Got(s, ms[0]), ms[1..], rest);
    }
  }

  /** A read error ends the read loop right after the messages before it. */
  lemma ClientReadsUntilError(s: ClientState, ms: seq<Message>, rest: seq<Event>)
    requires s.listening && Linked(s) && !s.cancelled
    ensures ReadLoop(s, Arrivals(ms) + [Fail] + rest) == (s.(trace := s.trace + Deliveries(s.handler, ms)), rest)
  {
    assert Arrivals(ms) + [Fail] + rest == Arrivals(ms) + ([Fail] + rest);
    ClientReads(s, ms, [Fail] + rest);
    GotAllState(s, ms);
    assert Head([Fail] + rest) == Fail && Tail([Fail] + rest) == rest;
  }

  /** Where a failed attempt and its full delay leave the client: a fresh pipe that is not
      connected, the flag cleared, "disconnected" and the delay observed. */
  function AfterFailure(s: ClientState): (r: ClientState)
  {
    s.(pipe := Open(false), connected := false,
       trace := s.trace + [StatusChanged(false), Backoff(ReconnectDelayMs)])
  }

  /** Where `n` failed attempts leave the client. */
  function AfterFailures(s: ClientState, n: nat): (r: ClientState)
    decreases n
  {
    if n == 0 then s else AfterFailures(AfterFailure(s), n - 1)
  }

  /** After at least one failed attempt the client holds an unconnected pipe, its flag is
      cleared, and it has observed "disconnected" and a 5 s delay once per attempt. */
  lemma {:induction false} AfterFailuresState(s: ClientState, n: nat)
    requires 0 < n
    ensures AfterFailures(s, n)
      == s.(pipe := Open(false), connected := false, trace := s.trace + RetryTrace(n))
    decreases n
  {
    if n == 1 {
      assert RetryTrace(0) == [];
      assert RetryTrace(1) == [StatusChanged(false), Backoff(ReconnectDelayMs)] + RetryTrace(0);
    } else {
      AfterFailuresState(AfterFailure(s), n - 1);
      assert AfterFailure(s).trace + RetryTrace(n - 1) == s.trace + RetryTrace(n);
    }
  }

  /** One failed attempt and the full delay: "disconnected", a 5 s backoff, next attempt. */
  lemma ClientRetry(s: ClientState, rest: seq<Event>)
    requires s.listening && !s.cancelled
    ensures ConnectLoop(s, [Fail, Elapse] + rest) == ConnectLoop(AfterFailure(s), rest)
  {
    var script := [Fail, Elapse] + rest;
    assert Head(script) == Fail && Tail(script) == [Elapse] + rest;
    assert Head(Tail(script)) == Elapse && Tail(Tail(script)) == rest;
    var s1 := Connect(s, Fail);
    NextAttempt(s, script, s1, [Elapse] + rest);
    assert s1.(trace := s1.trace + [Backoff(ReconnectDelayMs)]) == AfterFailure(s);
  }

  /** `n` failed attempts, each with its full delay, lead to the next attempt from
      `AfterFailures(s, n)`. */
  lemma {:induction false} ClientRetries(s: ClientState, n: nat, rest: seq<Event>)
    requires s.listening && !s.cancelled
    ensures ConnectLoop(s, Failures(n) + rest) == ConnectLoop(AfterFailures(s, n), rest)
    decreases n
  {
    if n == 0 {
      assert Failures(0) + rest == rest;
    } else {
      assert Failures(n) + rest == [Fail, Elapse] + (Failures(n - 1) + rest);
      ClientRetry(s, Failures(n - 1) + rest);
      ClientRetries(AfterFailure(s), n - 1, rest);
    }
  }

  /** `n` failed attempts followed by a connection: the client observes "disconnected"
      and a delay `n` times, then "connected", and from there only a well-formed
      continuation ending with the stop. */
  lemma ClientReconnects(s: ClientState, n: nat, rest: seq<Event>)
    requires s.listening && !s.cancelled
    ensures Emits(Attempts(s.handler), Reading, s.trace + RetryTrace(n) + [StatusChanged(true)],
                  ConnectLoop(s, Failures(n) + [Attach] + rest).0.trace, Ended)
  {
    assert Failures(n) + [Attach] + rest == Failures(n) + ([Attach] + rest);
    ClientRetries(s, n, [Attach] + rest);
    var s' := AfterFailures(s, n);
    if n == 0 {
      assert s.trace + RetryTrace(0) == s.trace;
    } else {
      AfterFailuresState(s, n);
    }
    AfterConnect(s', rest);
  }

  /** One round of the connect loop that goes on to the next attempt. */
  lemma NextAttempt(s: ClientState, script: seq<Event>, s2: ClientState, left: seq<Event>)
    requires s.listening && !s.cancelled
    requires var s1 := Connect(s, Head(script));
      (if s1.connected then ReadLoop(s1, Tail(script)) else (s1, Tail(script))) == (s2, left)
    requires s2.listening && !s2.cancelled && Head(left) != Stop
    ensures ConnectLoop(s, script) == ConnectLoop(s2.(trace := s2.trace + [Backoff(ReconnectDelayMs)]), Tail(left))
  {
  }

  /** A read error while connected ends the read loop and changes nothing. */
  lemma ReadFails(s: ClientState, rest: seq<Event>)
    requires s.listening && Linked(s) && !s.cancelled
    ensures ReadLoop(s, [Fail] + rest) == (s, rest)
  {
    assert Head([Fail] + rest) == Fail && Tail([Fail] + rest) == rest;
  }

  /** As written, a read loop that ends with the pipe still up is not reported: the client
      says "connected", waits 5 s still claiming to be connected, and tries again. */
  lemma SilentDisconnect(s: ClientState, rest: seq<Event>)
    requires s.listening && !s.cancelled
    ensures var s1 := Connect(s, Attach);
      var after := s1.(trace := s1.trace + [Backoff(ReconnectDelayMs)]);
      && Linked(after)
      && after.trace == s.trace + [StatusChanged(true), Backoff(ReconnectDelayMs)]
      && ConnectLoop(s, [Attach, Fail, Elapse] + rest) == ConnectLoop(after, rest)
  {
    var script := [Attach, Fail, Elapse] + rest;
    var s1 := Connect(s, Attach);
    assert Head(script) == Attach && Tail(script) == [Fail] + ([Elapse] + rest);
    ReadFails(s1, [Elapse] + rest);
    assert Head([Elapse] + rest) == Elapse && Tail([Elapse] + rest) == rest;
    NextAttempt(s, script, s1, [Elapse] + rest);
  }

  // ---------------------------------------------------------------------------------
  // The client

  class NamedPipeClient {
    var isListening: bool
    var isConnected: bool
    var pipe: Pipe
    var handler: Option<HandlerId>
    var cancelled: bool
    var trace: seq<Observation>

    constructor ()
      ensures State() == ClientState(false, false, NoPipe, None, false, [])
    {
      isListening, isConnected, pipe, handler, cancelled, trace := false, false, NoPipe, None, false, [];
    }

    function State(): (s: ClientState)
      reads this
    {
      ClientState(isListening, isConnected, pipe, handler, cancelled, trace)
    }

    function IsConnected(): (r: bool)
      reads this
      ensures r == Linked(State())
    {
      isConnected && pipe.Open? && pipe.connected
    }

    /** Writes `m` when connected; `writeFails` says whether the write throws. */
    method SendMessage(m: Message, writeFails: bool) returns (outcome: SendOutcome)
      modifies this
      ensures outcome == SendResult(old(State()), writeFails)
      ensures State() == if outcome == Written then old(State()).(trace := old(trace) + [Sent(m)]) else old(State())
    {
      if !IsConnected() {
        return Threw(NotConnected);
      }
      if writeFails {
        return Threw(WriteFailed);
      }
      trace := trace + [Sent(m)];
      return Written;
    }

    /** The connect loop is started by calling `ConnectAndListen` afterwards. */
    method StartListening(h: Option<HandlerId>)
      modifies this
      ensures State() == Started(old(State()), h)
    {
      if isListening {
        return;
      }
      handler := h;
      cancelled := false;
      isListening := true;
    }

    method StopListening()
      modifies this
      ensures State() == Stopped(old(State()))
    {
      if !isListening {
        return;
      }
      isListening := false;
      cancelled := true;
      pipe := NoPipe;
      isConnected := false;
      trace := trace + [StatusChanged(false)];
    }

    /** Consumes the outcome of the connection wait; `threw` says whether the wrapped
        exception leaves the method, which happens for every outcome but a connection. */
    method ConnectAsync(script: seq<Event>) returns (rest: seq<Event>, threw: bool)
      modifies this
      ensures State() == Connect(old(State()), Head(script)) && rest == Tail(script)
      ensures threw <==> Head(script) != Attach
    {
      pipe := Open(false);
      var e := Head(script);
      rest := Tail(script);
      threw := !e.Attach?;
      if e.Attach? {
        pipe := Open(true);
        isConnected := true;
        trace := trace + [StatusChanged(true)];
      } else {
        if e.Stop? {
          StopListening();
        }
        isConnected := false;
        trace := trace + [StatusChanged(false)];
      }
    }

    method ListenForMessages(script: seq<Event>) returns (rest: seq<Event>)
      modifies this
      ensures (State(), rest) == ReadLoop(old(State()), script)
    {
      rest := script;
      while isListening && IsConnected() && !cancelled
        invariant ReadLoop(State(), rest) == ReadLoop(old(State()), script)
        decreases |rest|
      {
        var e := Head(rest);
        rest := Tail(rest);
        if e.Stop? {
          StopListening();
          return;
        } else if e.Receive? {
          trace := trace + Deliver(handler, e.m);
          pipe := Open(e.open);
        } else {
          return;
        }
      }
    }

    method ConnectAndListen(script: seq<Event>) returns (rest: seq<Event>)
      modifies this
      ensures (State(), rest) == ConnectLoop(old(State()), script)
    {
      rest := script;
      while isListening && !cancelled
        invariant ConnectLoop(State(), rest) == ConnectLoop(old(State()), script)
        decreases |rest|
      {
        var threw;
        rest, threw := ConnectAsync(rest);
        // A thrown connection failure is caught by the loop's generic handler.
        if !threw && isConnected {
          rest := ListenForMessages(rest);
        }
        if isListening && !cancelled {
          var e := Head(rest);
          rest := Tail(rest);
          if e.Stop? {
            StopListening();
            return;
          }
          trace := trace + [Backoff(ReconnectDelayMs)];
        } else {
          return;
        }
      }
    }
  }

}
