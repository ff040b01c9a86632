/** What the two pipe endpoints exchange and what they can be seen doing. The operating
    system's pipe and the peer are abstracted into a script of events, one consumed at
    every point where an endpoint waits; what the endpoint does is recorded as a trace of
    observations. */
module Ipc {
  import opened Wrappers

  datatype MessageType =
    NewPhotosAvailable | StatusUpdate | CameraEvent | ServiceStarted | ServiceStopped
    | PrintRequest | Error | Heartbeat

  /** A message on the pipe; the payload is the opaque JSON text in `data`. */
  datatype Message = Message(kind: MessageType, data: string, timestamp: int, messageId: string,
                             sender: string, receiver: string)

  /** The identity of a message callback passed to `StartListening`. */
  type HandlerId = nat

  /** The wait before a retry, in milliseconds. */
  const ReconnectDelayMs: nat := 5000

  /** What happens while an endpoint waits:
      - `Attach`: the pending accept or connect completes;
      - `Fail`: the awaited operation throws (an accept or connect error or time-out, a read
        error); at a delay it is read as `Elapse`;
      - `Receive(m, open)`: a read returns `m`, after which the pipe reports connected
        exactly when `open`;
      - `Elapse`: a delay runs out (at an accept, connect or read it is read as `Fail`);
      - `Stop`: `StopListening` is called meanwhile; an exhausted script reads as `Stop`. */
  datatype Event = Attach | Fail | Receive(m: Message, open: bool) | Elapse | Stop

  /** The observable effects: a `ConnectionStatusChanged` event, a call of the message
      callback, a `MessageReceived` event, a retry delay, a message written to the pipe. */
  datatype Observation =
    | StatusChanged(connected: bool)
    | Handled(handler: HandlerId, m: Message)
    | Received(m: Message)
    | Backoff(ms: nat)
    | Sent(m: Message)

  /** The endpoint's pipe stream: none (null), or one that reports whether it is connected. */
  datatype Pipe = NoPipe | Open(connected: bool)

  datatype SendError = NotConnected | WriteFailed

  /** How `SendMessageAsync` ends: the message is written, dropped silently, or an
      exception reaches the caller. */
  datatype SendOutcome = Written | Dropped | Threw(error: SendError)

  /** The event at the head of the script; an exhausted script means the endpoint is
      stopped. */
  function Head(script: seq<Event>): (e: Event)
    ensures e != Stop ==> script != []
  {
    if script == [] then Stop else script[0]
  }

  function Tail(script: seq<Event>): (r: seq<Event>)
    ensures script != [] ==> |r| == |script| - 1
    ensures script == [] ==> r == []
  {
    if script == [] then [] else script[1..]
  }

  /** What reading one message causes: the callback first (when there is one), then the
      `MessageReceived` event. */
  function Deliver(h: Option<HandlerId>, m: Message): (t: seq<Observation>)
    ensures 1 <= |t| && t[|t| - 1] == Received(m)
    ensures h.Some? <==> |t| == 2
    ensures h.Some? ==> t[0] == Handled(h.value, m)
  {
    (if h.Some? then [Handled(h.value, m)] else []) + [Received(m)]
  }

  /** The deliveries of a run of messages, in order. */
  function Deliveries(h: Option<HandlerId>, ms: seq<Message>): (t: seq<Observation>)
    ensures |t| == (if h.Some? then 2 else 1) * |ms|
  {
    if ms == [] then [] else Deliver(h, ms[0]) + Deliveries(h, ms[1..])
  }

  /** A run of reads returning `ms`, the pipe staying connected. */
  function Arrivals(ms: seq<Message>): (script: seq<Event>)
    ensures |script| == |ms|
    ensures forall i :: 0 <= i < |ms| ==> script[i] == Receive(ms[i], true)
  {
    if ms == [] then [] else [Receive(ms[0], true)] + Arrivals(ms[1..])
  }

  // ---------------------------------------------------------------------------------
  // Traces read by an automaton

  /** The phase an automaton reaches reading `t` from `q`, or None if it rejects `t`. */
  function Run<Q>(step: (Q, Observation) -> Option<Q>, q: Q, t: seq<Observation>): (r: Option<Q>)
    decreases |t|
  {
    if t == [] then Some(q)
    else
      match step(q, t[0])
      case None => None
      case Some(q') => Run(step, q', t[1..])
  }

  lemma {:induction false} RunAppend<Q>(step: (Q, Observation) -> Option<Q>, q: Q, a: seq<Observation>, b: seq<Observation>)
    ensures Run(step, q, a + b) == if Run(step, q, a).None? then None else Run(step, Run(step, q, a).value, b)
    decreases |a|
  {
    if a == [] {
      assert a + b == b;
    } else {
      assert (a + b)[0] == a[0] && (a + b)[1..] == a[1..] + b;
      if step(q, a[0]).Some? {
        RunAppend(step, step(q, a[0]).value, a[1..], b);
      }
    }
  }

  /** Going from `before` to `after`, an endpoint appended observations that take the
      automaton from `q` to `q'`. */
  ghost predicate Emits<Q>(step: (Q, Observation) -> Option<Q>, q: Q, before: seq<Observation>, after: seq<Observation>, q': Q)
  {
    |before| <= |after| && after[..|before|] == before && Run(step, q, after[|before|..]) == Some(q')
  }

  lemma EmitsChunk<Q>(step: (Q, Observation) -> Option<Q>, q: Q, t: seq<Observation>, chunk: seq<Observation>, q': Q)
    requires Run(step, q, chunk) == Some(q')
    ensures Emits(step, q, t, t + chunk, q')
  {
    assert (t + chunk)[..|t|] == t && (t + chunk)[|t|..] == chunk;
  }

  lemma EmitsTrans<Q>(step: (Q, Observation) -> Option<Q>, q1: Q, a: seq<Observation>, b: seq<Observation>, q2: Q,
                      c: seq<Observation>, q3: Q)
    requires Emits(step, q1, a, b, q2) && Emits(step, q2, b, c, q3)
    ensures Emits(step, q1, a, c, q3)
  {
    assert c[..|a|] == c[..|b|][..|a|];
    assert c[|a|..] == b[|a|..] + c[|b|..];
    RunAppend(step, q1, b[|a|..], c[|b|..]);
  }

}
