/** The service's end of the named pipe: a listener that accepts one client at a time,
    reads its messages until the pipe breaks or closes, tears the pipe down after every
    round, and waits 5 s before retrying only when accepting failed. */
module PipeServer {
  import opened Wrappers
  import opened Ipc

  /** The fields of the listener: `_isListening`, `_pipeServer`, `_messageHandler`, whether
      the current cancellation token is cancelled, and what has been observed so far. */
  datatype ServerState = ServerState(listening: bool, pipe: Pipe, handler: Option<HandlerId>,
                                     cancelled: bool, trace: seq<Observation>)

  /** `IsConnected`: there is a pipe and it reports connected. */
  predicate Connected(s: ServerState): (r: bool)
    ensures s.pipe == NoPipe ==> !r
    ensures s.pipe.Open? ==> (r <==> s.pipe.connected)
  {
    s.pipe.Open? && s.pipe.connected
  }

  // ---------------------------------------------------------------------------------
  // The operations on values

  /** `StartListening`: ignored while listening; otherwise the handler is stored, a fresh
      cancellation token made and listening set. */
  function Started(s: ServerState, h: Option<HandlerId>): (r: ServerState)
    ensures r.listening && r.pipe == s.pipe && r.trace == s.trace
    ensures s.listening ==> r == s
    ensures !s.listening ==> r.handler == h && !r.cancelled
  {
    if s.listening then s else s.(listening := true, handler := h, cancelled := false)
  }

  /** `StopListening`: ignored when not listening; otherwise listening is cleared, the token
      cancelled and the pipe disposed. */
  function Stopped(s: ServerState): (r: ServerState)
    ensures !r.listening && r.trace == s.trace && r.handler == s.handler
    ensures s.listening ==> r.cancelled && !Connected(r)
    ensures !s.listening ==> r == s
  {
    if !s.listening then s else s.(listening := false, cancelled := true, pipe := NoPipe)
  }

  /** `SendMessageAsync`'s outcome: dropped without a word when not connected, otherwise
      written or, when the write throws, rethrown. */
  function SendResult(s: ServerState, writeFails: bool): (o: SendOutcome)
    ensures o == Dropped <==> !Connected(s)
    ensures o == Written <==> Connected(s) && !writeFails
    ensures o != Threw(NotConnected)
  {
    if !Connected(s) then Dropped else if writeFails then Threw(WriteFailed) else Written
  }

  /** The `finally` of every round: the pipe is disposed and "disconnected" reported. */
  function Teardown(s: ServerState): (r: ServerState)
    ensures !Connected(r) && r.trace == s.trace + [StatusChanged(false)]
    ensures r.listening == s.listening && r.handler == s.handler && r.cancelled == s.cancelled
  {
    s.(pipe := NoPipe, trace := s.trace + [StatusChanged(false)])
  }

  /** `HandleClientMessagesAsync`: while listening, connected and not cancelled, read a
      message and deliver it; any read error ends the loop. A `Stop` while reading disposes
      the pipe under the read, which then throws. Returns the state and the unread script. */
  function ReadLoop(s: ServerState, script: seq<Event>): (r: (ServerState, seq<Event>))
    ensures r.0.handler == s.handler && |r.1| <= |script|
    decreases |script|
  {
    if !(s.listening && Connected(s) && !s.cancelled) then (s, script)
    else
      match Head(script)
      case Stop => (Stopped(s), Tail(script))
      case Receive(m, open) =>
        ReadLoop(s.(pipe := Open(open), trace := s.trace + Deliver(s.handler, m)), Tail(script))
      case _ => (s, Tail(script))
  }

  /** `ListenForConnectionsAsync`: while listening and not cancelled, create a pipe and wait
      for a client. Cancellation ends the loop; an accept error waits 5 s (unless cancelled
      meanwhile) and retries; an accepted client is announced and read from. Every round
      ends with the teardown. */
  function AcceptLoop(s: ServerState, script: seq<Event>): (r: (ServerState, seq<Event>))
    ensures r.0.handler == s.handler
    decreases |script|
  {
    if !(s.listening && !s.cancelled) then (s, script)
    else
      var s1 := s.(pipe := Open(false));
      match Head(script)
      case Stop => (Teardown(Stopped(s1)), Tail(script))
      case Attach =>
        var s2 := s1.(pipe := Open(true), trace := s1.trace + [StatusChanged(true)]);
        var read := ReadLoop(s2, Tail(script));
        AcceptLoop(Teardown(read.0), read.1)
      case _ =>
        var wait := Tail(script);
        if Head(wait) == Stop then (Teardown(Stopped(s1)), Tail(wait))
        else AcceptLoop(Teardown(s1.(trace := s1.trace + [Backoff(ReconnectDelayMs)])), Tail(wait))
  }

  // ---------------------------------------------------------------------------------
  // The order of observations

  /** Where the listener's observations have got to: between rounds, inside a session,
      between a message's callback and its event, or after a retry delay. */
  datatype Phase = Idle | Session | Handling(m: Message) | Waiting

  /** The rounds of the accept loop as an automaton: a session is "connected", then
      deliveries, then "disconnected"; a failed accept is a 5 s delay, then
      "disconnected"; a cancelled one is "disconnected" alone. */
  function Step(h: Option<HandlerId>, q: Phase, o: Observation): (r: Option<Phase>)
  {
    match q
    case Idle =>
      if o == StatusChanged(false) then Some(Idle)
      else if o == StatusChanged(true) then Some(Session)
      else if o == Backoff(ReconnectDelayMs) then Some(Waiting)
      else None
    case Waiting => if o == StatusChanged(false) then Some(Idle) else None
    case Session =>
      if o == StatusChanged(false) then Some(Idle)
      else if o.Handled? && h == Some(o.handler) then Some(Handling(o.m))
      else if o.Received? && h.None? then Some(Session)
      else None
    case Handling(m) => if o == Received(m) then Some(Session) else None
  }

  /** The automaton for the listener's handler. */
  function Rounds(h: Option<HandlerId>): (Phase, Observation) -> Option<Phase>
  {
    (q, o) => Step(h, q, o)
  }

  lemma DeliverInSession(h: Option<HandlerId>, m: Message)
    ensures Run(Rounds(h), Session, Deliver(h, m)) == Some(Session)
  {
    var t := Deliver(h, m);
    if h.Some? {
      assert t == [Handled(h.value, m), Received(m)];
      assert t[1..] == [Received(m)] && t[1..][1..] == [];
      assert Run(Rounds(h), Handling(m), t[1..]) == Some(Session);
    } else {
      assert t[1..] == [];
    }
  }

  /** Everything the read loop observes is deliveries, each the callback (when there is
      one) followed by the event for the same message. */
  lemma {:induction false} ReadLoopOrder(s: ServerState, script: seq<Event>)
    ensures Emits(Rounds(s.handler), Session, s.trace, ReadLoop(s, script).0.trace, Session)
    decreases |script|
  {
    if s.listening && Connected(s) && !s.cancelled && Head(script).Receive? {
      var m := Head(script).m;
      var s' := s.(pipe := Open(Head(script).open), trace := s.trace + Deliver(s.handler, m));
      DeliverInSession(s.handler, m);
      EmitsChunk(Rounds(s.handler), Session, s.trace, Deliver(s.handler, m), Session);
      ReadLoopOrder(s', Tail(script));
      EmitsTrans(Rounds(s.handler), Session, s.trace, s'.trace, Session, ReadLoop(s, script).0.trace, Session);
    } else {
      EmitsChunk(Rounds(s.handler), Session, s.trace, [], Session);
      assert s.trace + [] == s.trace;
    }
  }

  /** The accept loop observes whole rounds only: "connected" is announced only once a
      client is accepted and is always followed, after the deliveries of that session, by
      "disconnected"; a delay comes only after a failed accept and is followed by
      "disconnected"; every round, cancelled ones included, ends with "disconnected". */
  lemma {:induction false} AcceptLoopOrder(s: ServerState, script: seq<Event>)
    ensures Emits(Rounds(s.handler), Idle, s.trace, AcceptLoop(s, script).0.trace, Idle)
    decreases |script|
  {
    var h := s.handler;
    var r := AcceptLoop(s, script).0;
    if !(s.listening && !s.cancelled) {
      EmitsChunk(Rounds(h), Idle, s.trace, [], Idle);
      assert s.trace + [] == s.trace;
    } else {
      var s1 := s.(pipe := Open(false));
      match Head(script)
      case Stop =>
        EmitsChunk(Rounds(h), Idle, s.trace, [StatusChanged(false)], Idle);
      case Attach =>
        var s2 := s1.(pipe := Open(true), trace := s1.trace + [StatusChanged(true)]);
        var read := ReadLoop(s2, Tail(script));
        SessionOrder(s, s2, Tail(script));
        AcceptLoopOrder(Teardown(read.0), read.1);
        EmitsTrans(Rounds(h), Idle, s.trace, Teardown(read.0).trace, Idle, r.trace, Idle);
      case _ =>
        var wait := Tail(script);
        if Head(wait) == Stop {
          EmitsChunk(Rounds(h), Idle, s.trace, [StatusChanged(false)], Idle);
        } else {
          var s2 := Teardown(s1.(trace := s1.trace + [Backoff(ReconnectDelayMs)]));
          assert s2.trace == s.trace + [Backoff(ReconnectDelayMs), StatusChanged(false)];
          EmitsChunk(Rounds(h), Idle, s.trace, [Backoff(ReconnectDelayMs), StatusChanged(false)], Idle);
          AcceptLoopOrder(s2, Tail(wait));
          EmitsTrans(Rounds(h), Idle, s.trace, s2.trace, Idle, r.trace, Idle);
        }
    }
  }

  /** One session, from "connected" to the teardown, is a whole round. */
  lemma SessionOrder(s: ServerState, s2: ServerState, script: seq<Event>)
    requires s2 == s.(pipe := Open(true), trace := s.trace + [StatusChanged(true)])
    ensures Emits(Rounds(s.handler), Idle, s.trace, Teardown(ReadLoop(s2, script).0).trace, Idle)
  {
    var h := s.handler;
    var read := ReadLoop(s2, script);
    EmitsChunk(Rounds(h), Idle, s.trace, [StatusChanged(true)], Session);
    ReadLoopOrder(s2, script);
    EmitsTrans(Rounds(h), Idle, s.trace, s2.trace, Session, read.0.trace, Session);
    EmitsChunk(Rounds(h), Session, read.0.trace, [StatusChanged(false)], Idle);
    EmitsTrans(Rounds(h), Idle, s.trace, read.0.trace, Session, Teardown(read.0).trace, Idle);
  }

  /** A read loop keeps the token as it was unless it was stopped. */
  lemma {:induction false} ReadLoopCancels(s: ServerState, script: seq<Event>)
    ensures var r := ReadLoop(s, script).0;
      r.listening ==> r.listening == s.listening && r.cancelled == s.cancelled
    decreases |script|
  {
    if s.listening && Connected(s) && !s.cancelled && Head(script).Receive? {
      ReadLoopCancels(s.(pipe := Open(Head(script).open), trace := s.trace + Deliver(s.handler, Head(script).m)),
                      Tail(script));
    }
  }

  /** The accept loop, once started, returns only after `StopListening`: it is then no
      longer listening, holds no pipe, and its last observation is "disconnected". A send
      after that is dropped. */
  lemma {:induction false} AcceptLoopEnds(s: ServerState, script: seq<Event>, writeFails: bool)
    requires s.listening && !s.cancelled
    ensures var r := AcceptLoop(s, script).0;
      && !r.listening && r.pipe == NoPipe && !Connected(r)
      && |r.trace| > |s.trace| && r.trace[|r.trace| - 1] == StatusChanged(false)
      && SendResult(r, writeFails) == Dropped
    decreases |script|
  {
    var s1 := s.(pipe := Open(false));
    match Head(script)
    case Stop =>
    case Attach =>
      var s2 := s1.(pipe := Open(true), trace := s1.trace + [StatusChanged(true)]);
      var read := ReadLoop(s2, Tail(script));
      ReadLoopOrder(s2, Tail(script));
      ReadLoopCancels(s2, Tail(script));
      if read.0.listening {
        AcceptLoopEnds(Teardown(read.0), read.1, writeFails);
      }
    case _ =>
      var wait := Tail(script);
      if Head(wait) != Stop {
        AcceptLoopEnds(Teardown(s1.(trace := s1.trace + [Backoff(ReconnectDelayMs)])), Tail(wait), writeFails);
      }
  }

  /** `StartListening` while listening changes nothing, so starting twice is starting once;
      after `StopListening` a new start installs the new handler. */
  lemma StartTwice(s: ServerState, h: Option<HandlerId>, h': Option<HandlerId>)
    ensures Started(Started(s, h), h') == Started(s, h)
    ensures var r := Started(Stopped(s), h'); r.listening && r.handler == h' && !r.cancelled
  {
  }

  /** `StopListening` twice is `StopListening` once. */
  lemma StopTwice(s: ServerState)
    ensures Stopped(Stopped(s)) == Stopped(s)
  {
  }

  /** Where reading `m` while connected leaves the listener: `m` delivered. */
  function Got(s: ServerState, m: Message): (r: ServerState)
  {
    s.(trace := s.trace + Deliver(s.handler, m))
  }

  /** Where reading the run `ms` while connected leaves the listener. */
  function GotAll(s: ServerState, ms: seq<Message>): (r: ServerState)
    decreases |ms|
  {
    if ms == [] then s else GotAll(Got(s, ms[0]), ms[1..])
  }

  /** Reading a run of messages changes only the trace, which gains their deliveries. */
  lemma {:induction false} GotAllState(s: ServerState, ms: seq<Message>)
    ensures GotAll(s, ms) == s.(trace := s.trace + Deliveries(s.handler, ms))
    decreases |ms|
  {
    if ms == [] {
      assert s.trace + [] == s.trace;
    } else {
      GotAllState(Got(s, ms[0]), ms[1..]);
      assert Got(s, ms[0]).trace + Deliveries(s.handler, ms[1..]) == s.trace + Deliveries(s.handler, ms);
    }
  }

  lemma ReadOne(s: ServerState, m: Message, rest: seq<Event>)
    requires s.listening && Connected(s) && !s.cancelled
    ensures ReadLoop(s, [Receive(m, true)] + rest) == ReadLoop(Got(s, m), rest)
  {
    var script := [Receive(m, true)] + rest;
    assert Head(script) == Receive(m, true) && Tail(script) == rest;
    assert s.(pipe := Open(true), trace := s.trace + Deliver(s.handler, m)) == Got(s, m);
  }

  /** Reading a run of messages while connected delivers each of them, callback first,
      and the loop goes on with the rest of the script. */
  lemma {:induction false} ServerReads(s: ServerState, ms: seq<Message>, rest: seq<Event>)
    requires s.listening && Connected(s) && !s.cancelled
    ensures ReadLoop(s, Arrivals(ms) + rest) == ReadLoop(GotAll(s, ms), rest)
    decreases |ms|
  {
    if ms == [] {
      assert Arrivals(ms) + rest == rest;
    } else {
      assert Arrivals(ms) + rest == [Receive(ms[0], true)] + (Arrivals(ms[1..]) + rest);
      ReadOne(s, ms[0], Arrivals(ms[1..]) + rest);
      ServerReads(Got(s, ms[0]), ms[1..], rest);
    }
  }

  /** A read error ends the read loop right after the messages before it. */
  lemma ServerReadsUntilError(s: ServerState, ms: seq<Message>, rest: seq<Event>)
    requires s.listening && Connected(s) && !s.cancelled
    ensures ReadLoop(s, Arrivals(ms) + [Fail] + rest) == (s.(trace := s.trace + Deliveries(s.handler, ms)), rest)
  {
    assert Arrivals(ms) + [Fail] + rest == Arrivals(ms) + ([Fail] + rest);
    ServerReads(s, ms, [Fail] + rest);
    GotAllState(s, ms);
    assert Head([Fail] + rest) == Fail && Tail([Fail] + rest) == rest;
  }

  /** An accept error followed by the full delay is observed as a 5 s backoff and a
      teardown, and the loop accepts again. */
  lemma ServerRetries(s: ServerState, rest: seq<Event>)
    requires s.listening && !s.cancelled
    ensures AcceptLoop(s, [Fail, Elapse] + rest)
      == AcceptLoop(s.(pipe := NoPipe, trace := s.trace + [Backoff(ReconnectDelayMs), StatusChanged(false)]), rest)
  {
    var script := [Fail, Elapse] + rest;
    assert Head(script) == Fail && Tail(script) == [Elapse] + rest;
    assert Head(Tail(script)) == Elapse && Tail(Tail(script)) == rest;
    var s1 := s.(pipe := Open(false));
    assert Teardown(s1.(trace := s1.trace + [Backoff(ReconnectDelayMs)]))
      == s.(pipe := NoPipe, trace := s.trace + [Backoff(ReconnectDelayMs), StatusChanged(false)]);
  }

  /** Cancellation while waiting for a client ends the loop: torn down, nothing more
      consumed. */
  lemma ServerCancelled(s: ServerState, rest: seq<Event>)
    requires s.listening && !s.cancelled
    ensures AcceptLoop(s, [Stop] + rest)
      == (s.(listening := false, cancelled := true, pipe := NoPipe, trace := s.trace + [StatusChanged(false)]), rest)
  {
    assert Head([Stop] + rest) == Stop && Tail([Stop] + rest) == rest;
  }

  /** A session whose client closes the pipe after its last message: "connected", the
      deliveries, "disconnected", and the loop accepts again at once, with no delay. */
  lemma SessionWithoutBackoff(s: ServerState, ms: seq<Message>, m: Message, rest: seq<Event>)
    requires s.listening && !s.cancelled
    ensures AcceptLoop(s, [Attach] + Arrivals(ms) + [Receive(m, false)] + rest)
      == AcceptLoop(s.(pipe := NoPipe, trace := s.trace + [StatusChanged(true)] + Deliveries(s.handler, ms)
                                                  + Deliver(s.handler, m) + [StatusChanged(false)]), rest)
  {
    var script := [Attach] + Arrivals(ms) + [Receive(m, false)] + rest;
    var tail := Arrivals(ms) + ([Receive(m, false)] + rest);
    assert Head(script) == Attach && Tail(script) == tail;
    var s2 := s.(pipe := Open(true), trace := s.trace + [StatusChanged(true)]);
    ServerReads(s2, ms, [Receive(m, false)] + rest);
    GotAllState(s2, ms);
    var s3 := s2.(trace := s2.trace + Deliveries(s.handler, ms));
    assert Head([Receive(m, false)] + rest) == Receive(m, false) && Tail([Receive(m, false)] + rest) == rest;
    assert ReadLoop(s3, [Receive(m, false)] + rest)
      == (s3.(pipe := Open(false), trace := s3.trace + Deliver(s.handler, m)), rest);
  }

  // ---------------------------------------------------------------------------------
  // The listener

  class NamedPipeServer {
    var isListening: bool
    var pipe: Pipe
    var handler: Option<HandlerId>
    var cancelled: bool
    var trace: seq<Observation>

    constructor ()
      ensures State() == ServerState(false, NoPipe, None, false, [])
    {
      isListening, pipe, handler, cancelled, trace := false, NoPipe, None, false, [];
    }

    function State(): (s: ServerState)
      reads this
    {
      ServerState(isListening, pipe, handler, cancelled, trace)
    }

    function IsConnected(): (r: bool)
      reads this
      ensures r == Connected(State())
    {
      pipe.Open? && pipe.connected
    }

    /** Writes `m` when connected; `writeFails` says whether the write throws. */
    method SendMessage(m: Message, writeFails: bool) returns (outcome: SendOutcome)
      modifies this
      ensures outcome == SendResult(old(State()), writeFails)
      ensures State() == if outcome == Written then old(State()).(trace := old(trace) + [Sent(m)]) else old(State())
    {
      if !IsConnected() {
        return Dropped;
      }
      if writeFails {
        return Threw(WriteFailed);
      }
      trace := trace + [Sent(m)];
      return Written;
    }

    /** The accept loop is started by calling `ListenForConnections` afterwards. */
    method StartListening(h: Option<HandlerId>)
      modifies this
      ensures State() == Started(old(State()), h)
    {
      if isListening {
        return;
      }
      handler := h;
      cancelled := false;
      isListening := true;
    }

    method StopListening()
      modifies this
      ensures State() == Stopped(old(State()))
    {
      if !isListening {
        return;
      }
      isListening := false;
      cancelled := true;
      pipe := NoPipe;
    }

    method ReleasePipe()
      modifies this
      ensures State() == Teardown(old(State()))
    {
      pipe := NoPipe;
      trace := trace + [StatusChanged(false)];
    }

    method HandleClientMessages(script: seq<Event>) returns (rest: seq<Event>)
      modifies this
      ensures (State(), rest) == ReadLoop(old(State()), script)
    {
      rest := script;
      while isListening && IsConnected() && !cancelled
        invariant ReadLoop(State(), rest) == ReadLoop(old(State()), script)
        decreases |rest|
      {
        var e := Head(rest);
        rest := Tail(rest);
        if e.Stop? {
          StopListening();
          return;
        } else if e.Receive? {
          trace := trace + Deliver(handler, e.m);
          pipe := Open(e.open);
        } else {
          return;
        }
      }
    }

    method ListenForConnections(script: seq<Event>) returns (rest: seq<Event>)
      modifies this
      ensures (State(), rest) == AcceptLoop(old(State()), script)
    {
      rest := script;
      while isListening && !cancelled
        invariant AcceptLoop(State(), rest) == AcceptLoop(old(State()), script)
        decreases |rest|
      {
        pipe := Open(false);
        var e := Head(rest);
        rest := Tail(rest);
        if e.Stop? {
          StopListening();
          ReleasePipe();
          return;
        } else if e.Attach? {
          pipe := Open(true);
          trace := trace + [StatusChanged(true)];
          rest := HandleClientMessages(rest);
          ReleasePipe();
        } else {
          var d := Head(rest);
          rest := Tail(rest);
          if d.Stop? {
            StopListening();
            ReleasePipe();
            return;
          }
          trace := trace + [Backoff(ReconnectDelayMs)];
          ReleasePipe();
        }
      }
    }
  }

}
