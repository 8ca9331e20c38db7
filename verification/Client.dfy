/**
 The worker client: one child process, one outstanding request, and the frame decoder, under any
 interleaving of calls, data chunks, timers, aborts and process events.
 */
module Client {
  import opened Basics
  import opened Protocol
  import Wire

  datatype Fault =
    | Cancelled
    | DeadlinePassed
    | WorkerExit
    | WorkerProtocol
    | WorkerBusy
    | WorkerClosed
    | WorkerRestarting
    | RootChanged
    | BadRequest

  datatype Identity = Identity(dev: bytes, ino: bytes)
  datatype Hello = Hello(pid: nat, identity: Identity)
  datatype Reply = Refused(code: Code) | Answered(success: Success)

  /** How frames parse: a greeting, or a reply that passes the check against a request. */
  datatype Codec = Codec(hello: bytes -> Option<Hello>, reply: (bytes, Request) -> Option<Reply>, pid: nat -> nat)

  /** How a promise is settled; a reply remembers the process it came from. */
  datatype Outcome = Opened | Replied(child: nat, reply: Reply) | Rejected(fault: Fault)
  datatype Settlement = Settlement(promise: nat, outcome: Outcome)

  /** A spawned process: whether it has exited and closed, whether its close ends a retirement, and how it greeted. */
  datatype Process = Process(exited: bool, closed: bool, retired: bool, greeted: Option<Identity>)

  /** A request written to a process. */
  datatype Write = Write(child: nat, sequence: nat, request: Request)

  /** What the client has done to its surroundings. Timers and abort listeners go by the promise they serve. */
  datatype Host = Host(
    processes: seq<Process>,
    timers: set<nat>,
    listeners: set<nat>,
    promises: nat,
    log: seq<Settlement>,
    writes: seq<Write>)

  datatype Pending = Pending(promise: nat, request: Request, sequence: nat)

  datatype State = State(
    child: Option<nat>,
    pending: Option<Pending>,
    ready: bool,
    disposed: bool,
    retiring: bool,
    input: bytes,
    sequence: nat,
    root: Option<Identity>,
    opening: Option<nat>,
    host: Host)

  function Initial(expected: Option<Identity>): State {
    State(None, None, false, false, false, [], 0, expected, None, Host([], {}, {}, 0, [], []))
  }

  function Settled(h: Host, promise: nat, outcome: Outcome): Host {
    h.(timers := h.timers - {promise}, listeners := h.listeners - {promise}, log := h.log + [Settlement(promise, outcome)])
  }

  /** The calls that settle at once neither arm nor clear anything. */
  function Immediate(s: State, outcome: Outcome): State {
    s.(host := s.host.(promises := s.host.promises + 1, log := s.host.log + [Settlement(s.host.promises, outcome)]))
  }

  predicate Running(h: Host, k: nat) { k < |h.processes| && !h.processes[k].exited }

  function RejectOpening(s: State, fault: Fault): State {
    if s.opening.None? then s else s.(opening := None, host := Settled(s.host, s.opening.value, Rejected(fault)))
  }

  function RejectPending(s: State, fault: Fault): State {
    if s.pending.None? then s else s.(pending := None, host := Settled(s.host, s.pending.value.promise, Rejected(fault)))
  }

  /** Killing a child that still runs; its close will end the retirement. */
  function Drop(s: State): State {
    var t := s.(child := None, ready := false, input := []);
    if s.child.Some? && Running(s.host, s.child.value) then
      t.(retiring := true, host := s.host.(processes := s.host.processes[s.child.value := s.host.processes[s.child.value].(retired := true)]))
    else t
  }

  function FailAt(s: State, fault: Fault): (t: State)
    ensures t.child.None? && t.input == [] && |t.host.processes| == |s.host.processes|
  {
    RejectPending(RejectOpening(Drop(s), fault), fault)
  }

  function StartAt(s: State): State {
    s.(input := [], ready := false, child := Some(|s.host.processes|),
       host := s.host.(processes := s.host.processes + [Process(false, false, false, None)]))
  }

  /** Sending with what is left of the deadline, in whole milliseconds. */
  function SendAt(s: State, remaining: int): (t: State)
    ensures |t.input| <= |s.input| && |t.host.processes| == |s.host.processes|
  {
    if s.pending.None? || s.child.None? then s
    else if remaining <= 0 then FailAt(s, DeadlinePassed)
    else s.(host := s.host.(writes := s.host.writes + [Write(s.child.value, s.pending.value.sequence, s.pending.value.request.(deadlineMs := remaining))]))
  }

  function OpenAt(s: State): State {
    if s.disposed then Immediate(s, Rejected(WorkerClosed))
    else if s.ready then Immediate(s, Opened)
    else if s.opening.Some? || s.pending.Some? then Immediate(s, Rejected(WorkerBusy))
    else if s.retiring then Immediate(s, Rejected(WorkerRestarting))
    else
      var p := s.host.promises;
      StartAt(s.(opening := Some(p), host := s.host.(promises := p + 1, timers := s.host.timers + {p})))
  }

  /** A signal is absent, or present and aborted or not when the call starts and once its listener is in place. */
  datatype Signal = Absent | Present(aborted: bool, abortedSince: bool)

  const DIGIT: byte := 0x30

  function Decimal(n: nat): bytes { if n < 10 then [DIGIT + n] else Decimal(n / 10) + [DIGIT + n % 10] }

  function RequestId(n: nat): bytes { [0x71, 0x2D] + Decimal(n) }

  /** A request has its promise, its number and its timer, and listens for an abort if it can be aborted. */
  function IssuedAt(s: State, input: Request, listens: bool): State {
    var p := s.host.promises;
    var n := s.sequence + 1;
    s.(sequence := n, pending := Some(Pending(p, input.(v := 1, id := RequestId(n)), n)),
       host := s.host.(promises := p + 1, timers := s.host.timers + {p},
                       listeners := if listens then s.host.listeners + {p} else s.host.listeners))
  }

  function SearchAt(s: State, input: Request, signal: Signal, remaining: int): State {
    if s.disposed then Immediate(s, Rejected(WorkerClosed))
    else if s.pending.Some? || s.opening.Some? then Immediate(s, Rejected(WorkerBusy))
    else if s.retiring then Immediate(s, Rejected(WorkerRestarting))
    else if signal.Present? && signal.aborted then Immediate(s, Rejected(Cancelled))
    else if !ClientAccepts(input) then Immediate(s, Rejected(BadRequest))
    else
      var t := IssuedAt(s, input, signal.Present?);
      if signal.Present? && signal.abortedSince then FailAt(t, Cancelled)
      else if t.child.None? then StartAt(t)
      else if t.ready then SendAt(t, remaining)
      else t
  }

  /** What is left of the deadline when a request is sent, and whether it has passed when its reply arrives. */
  datatype Clock = Clock(remaining: int, replyLate: bool)

  datatype Handled = Handled(state: State, stop: bool)

  /** The state just after a greeting is accepted, before the outstanding request is sent. */
  function Greeted(s: State, k: nat, identity: Identity): State
    requires k < |s.host.processes|
  {
    var t := s.(root := Some(identity), ready := true, opening := None,
                host := s.host.(processes := s.host.processes[k := s.host.processes[k].(greeted := Some(identity))]));
    if s.opening.Some? then t.(host := Settled(t.host, s.opening.value, Opened)) else t
  }

  function GreetAt(c: Codec, s: State, k: nat, frame: bytes, clock: Clock): (h: Handled)
    requires k < |s.host.processes|
    ensures |h.state.input| <= |s.input| && |h.state.host.processes| == |s.host.processes|
  {
    var hello := c.hello(frame);
    if hello.None? || hello.value.pid != c.pid(k) then Handled(FailAt(s, WorkerProtocol), true)
    else
      var identity := hello.value.identity;
      if s.root.Some? && s.root.value != identity then Handled(FailAt(s, RootChanged), true)
      else Handled(SendAt(Greeted(s, k, identity), clock.remaining), false)
  }

  function ReplyAt(c: Codec, s: State, k: nat, frame: bytes, clock: Clock): (h: Handled)
    ensures |h.state.input| <= |s.input| && |h.state.host.processes| == |s.host.processes|
  {
    if s.pending.None? then Handled(FailAt(s, WorkerProtocol), true)
    else
      var reply := c.reply(frame, s.pending.value.request);
      if reply.None? then Handled(FailAt(s, WorkerProtocol), true)
      else if clock.replyLate then Handled(FailAt(s, DeadlinePassed), true)
      else Handled(s.(pending := None, host := Settled(s.host, s.pending.value.promise, Replied(k, reply.value))), false)
  }

  function HandleAt(c: Codec, s: State, k: nat, frame: bytes, clock: Clock): (h: Handled)
    requires k < |s.host.processes|
    ensures |h.state.input| <= |s.input| && |h.state.host.processes| == |s.host.processes|
  {
    if !s.ready then GreetAt(c, s, k, frame, clock) else ReplyAt(c, s, k, frame, clock)
  }

  const HEADER: nat := 4

  function Announced(input: bytes): nat
    requires |input| >= HEADER
  {
    Wire.Value(input[..HEADER])
  }

  /** The decoder's loop over the buffered input. */
  function ConsumeAt(c: Codec, s: State, k: nat, clock: Clock): State
    requires k < |s.host.processes|
    decreases |s.input|
  {
    if |s.input| < HEADER then s
    else
      var size := Announced(s.input);
      if size == 0 || size > FRAME_CAP then FailAt(s, WorkerProtocol)
      else if |s.input| < size + HEADER then s
      else
        var h := HandleAt(c, s.(input := s.input[size + HEADER..]), k, s.input[HEADER..size + HEADER], clock);
        if h.stop then h.state else ConsumeAt(c, h.state, k, clock)
  }

  function DataAt(c: Codec, s: State, k: nat, data: bytes, clock: Clock): State
    requires k < |s.host.processes|
  {
    if s.child != Some(k) then s
    else if |s.input| + |data| > FRAME_CAP + HEADER then FailAt(s, WorkerProtocol)
    else ConsumeAt(c, s.(input := s.input + data), k, clock)
  }

  function BrokenAt(s: State, k: nat): State { if s.child == Some(k) then FailAt(s, WorkerExit) else s }

  function ExitedAt(s: State, k: nat): State
    requires k < |s.host.processes|
  {
    s.(host := s.host.(processes := s.host.processes[k := s.host.processes[k].(exited := true)]))
  }

  function ClosedAt(s: State, k: nat): State
    requires k < |s.host.processes|
  {
    var t := BrokenAt(s, k);
    t.(retiring := t.retiring && !t.host.processes[k].retired,
       host := t.host.(processes := t.host.processes[k := t.host.processes[k].(closed := true)]))
  }

  function DisposeAt(s: State): State { FailAt(s.(disposed := true), WorkerClosed) }

  datatype Event =
    | Open
    | Search(input: Request, signal: Signal, remaining: int)
    | Data(child: nat, data: bytes, clock: Clock)
    | Broken(child: nat)
    | Exited(child: nat)
    | Closed(child: nat)
    | TimerFired(promise: nat)
    | Aborted(promise: nat)
    | Dispose

  /**
   What the platform can raise: armed timers, registered listeners, process events in process order, and clock
   readings that do not run backwards.
   */
  predicate Legal(s: State, event: Event) {
    match event
    case Open => true
    case Search(input, _, remaining) => remaining <= input.deadlineMs
    case Data(k, _, clock) =>
      && k < |s.host.processes| && !s.host.processes[k].closed
      && (s.pending.Some? ==> clock.remaining <= s.pending.value.request.deadlineMs)
    case Broken(k) => k < |s.host.processes|
    case Exited(k) => Running(s.host, k)
    case Closed(k) => k < |s.host.processes| && s.host.processes[k].exited && !s.host.processes[k].closed
    case TimerFired(p) => p in s.host.timers
    case Aborted(p) => p in s.host.listeners
    case Dispose => true
  }

  function StepAt(c: Codec, s: State, event: Event): State
    requires Legal(s, event)
  {
    match event
    case Open => OpenAt(s)
    case Search(input, signal, remaining) => SearchAt(s, input, signal, remaining)
    case Data(k, data, clock) => DataAt(c, s, k, data, clock)
    case Broken(k) => BrokenAt(s, k)
    case Exited(k) => ExitedAt(s, k)
    case Closed(k) => ClosedAt(s, k)
    case TimerFired(p) => FailAt(s.(host := s.host.(timers := s.host.timers - {p})), DeadlinePassed)
    case Aborted(p) => FailAt(s.(host := s.host.(listeners := s.host.listeners - {p})), Cancelled)
    case Dispose => DisposeAt(s)
  }

  /** The client object. */
  class NativeWorker {
    const codec: Codec
    var child: Option<nat>
    var pending: Option<Pending>
    var ready: bool
    var disposed: bool
    var retiring: bool
    var input: bytes
    var sequence: nat
    var root: Option<Identity>
    var opening: Option<nat>
    var host: Host

    function Current(): State
      reads this
    {
      State(child, pending, ready, disposed, retiring, input, sequence, root, opening, host)
    }

    constructor (codec: Codec, expected: Option<Identity>)
      ensures this.codec == codec && Current() == Initial(expected)
    {
      this.codec := codec;
      child, pending, ready, disposed, retiring := None, None, false, false, false;
      input, sequence, root, opening := [], 0, expected, None;
      host := Host([], {}, {}, 0, [], []);
    }

    method Settle(promise: nat, outcome: Outcome)
      modifies `host
      ensures host == Settled(old(host), promise, outcome)
    {
      host := host.(timers := host.timers - {promise}, listeners := host.listeners - {promise},
                    log := host.log + [Settlement(promise, outcome)]);
    }

    /** Letting go of the child: killed if it still runs, and then not replaced until it closes. */
    method Retire()
      modifies this
      ensures Current() == Drop(old(Current()))
    {
      var was := child;
      child, ready, input := None, false, [];
      if was.Some? && Running(host, was.value) {
        retiring := true;
        host := host.(processes := host.processes[was.value := host.processes[was.value].(retired := true)]);
      }
    }

    method Fail(fault: Fault)
      modifies this
      ensures Current() == FailAt(old(Current()), fault)
    {
      hide Settled, Drop;
      Retire();
      ghost var dropped := Current();
      var opener := opening;
      opening := None;
      if opener.Some? {
        Settle(opener.value, Rejected(fault));
      }
      assert Current() == RejectOpening(dropped, fault);
      var asked := pending;
      pending := None;
      if asked.Some? {
        Settle(asked.value.promise, Rejected(fault));
      }
    }

    method Start()
      modifies this
      ensures Current() == StartAt(old(Current()))
    {
      input, ready := [], false;
      child := Some(|host.processes|);
      host := host.(processes := host.processes + [Process(false, false, false, None)]);
    }

    method Send(remaining: int)
      modifies this
      ensures Current() == SendAt(old(Current()), remaining)
    {
      if pending.None? || child.None? {
        return;
      }
      if remaining <= 0 {
        Fail(DeadlinePassed);
        return;
      }
      var request := pending.value.request.(deadlineMs := remaining);
      host := host.(writes := host.writes + [Write(child.value, pending.value.sequence, request)]);
    }

    /** A promise that is settled before it is returned. */
    method Answer(outcome: Outcome)
      modifies `host
      ensures Current() == Immediate(old(Current()), outcome)
    {
      host := host.(promises := host.promises + 1, log := host.log + [Settlement(host.promises, outcome)]);
    }

    method Open()
      modifies this
      ensures Current() == OpenAt(old(Current()))
    {
      if disposed {
        Answer(Rejected(WorkerClosed));
      } else if ready {
        Answer(Opened);
      } else if opening.Some? || pending.Some? {
        Answer(Rejected(WorkerBusy));
      } else if retiring {
        Answer(Rejected(WorkerRestarting));
      } else {
        var p := host.promises;
        opening := Some(p);
        host := host.(promises := p + 1, timers := host.timers + {p});
        Start();
      }
    }

    method Search(request: Request, signal: Signal, remaining: int)
      modifies this
      ensures Current() == SearchAt(old(Current()), request, signal, remaining)
    {
      hide FailAt, StartAt, SendAt, RequestId, Immediate, ClientAccepts;
      if disposed {
        Answer(Rejected(WorkerClosed));
        return;
      }
      if pending.Some? || opening.Some? {
        Answer(Rejected(WorkerBusy));
        return;
      }
      if retiring {
        Answer(Rejected(WorkerRestarting));
        return;
      }
      if signal.Present? && signal.aborted {
        Answer(Rejected(Cancelled));
        return;
      }
      if !ClientAccepts(request) {
        Answer(Rejected(BadRequest));
        return;
      }
      var p := host.promises;
      sequence := sequence + 1;
      pending := Some(Pending(p, request.(v := 1, id := RequestId(sequence)), sequence));
      host := host.(promises := p + 1, timers := host.timers + {p});
      if signal.Present? {
        host := host.(listeners := host.listeners + {p});
        if signal.abortedSince {
          Fail(Cancelled);
          return;
        }
      }
      if child.None? {
        Start();
      } else if ready {
        Send(remaining);
      }
    }

    method Greet(k: nat, frame: bytes, clock: Clock) returns (stop: bool)
      requires k < |host.processes|
      modifies this
      ensures Handled(Current(), stop) == GreetAt(codec, old(Current()), k, frame, clock)
    {
      hide FailAt, SendAt;
      var hello := codec.hello(frame);
      if hello.None? || hello.value.pid != codec.pid(k) {
        Fail(WorkerProtocol);
        return true;
      }
      var identity := hello.value.identity;
      if root.Some? && root.value != identity {
        Fail(RootChanged);
        return true;
      }
      root, ready := Some(identity), true;
      host := host.(processes := host.processes[k := host.processes[k].(greeted := Some(identity))]);
      var opener := opening;
      opening := None;
      if opener.Some? {
        Settle(opener.value, Opened);
      }
      Send(clock.remaining);
      return false;
    }

    method Receive(k: nat, frame: bytes, clock: Clock) returns (stop: bool)
      modifies this
      ensures Handled(Current(), stop) == ReplyAt(codec, old(Current()), k, frame, clock)
    {
      if pending.None? {
        Fail(WorkerProtocol);
        return true;
      }
      var reply := codec.reply(frame, pending.value.request);
      if reply.None? {
        Fail(WorkerProtocol);
        return true;
      }
      if clock.replyLate {
        Fail(DeadlinePassed);
        return true;
      }
      var p := pending.value.promise;
      pending := None;
      Settle(p, Replied(k, reply.value));
      return false;
    }

    method Data(k: nat, data: bytes, clock: Clock)
      requires k < |host.processes|
      modifies this
      ensures Current() == DataAt(codec, old(Current()), k, data, clock)
    {
      hide GreetAt, ReplyAt, FailAt;
      if child != Some(k) {
        return;
      }
      if |input| + |data| > FRAME_CAP + HEADER {
        Fail(WorkerProtocol);
        return;
      }
      input := input + data;
      while |input| >= HEADER
        invariant k < |host.processes|
        invariant ConsumeAt(codec, Current(), k, clock) == DataAt(codec, old(Current()), k, data, clock)
        decreases |input|
      {
        ghost var before := Current();
        var size := Announced(input);
        if size == 0 || size > FRAME_CAP {
          Fail(WorkerProtocol);
          return;
        }
        if |input| < size + HEADER {
          break;
        }
        var frame := input[HEADER..size + HEADER];
        input := input[size + HEADER..];
        ghost var h := HandleAt(codec, Current(), k, frame, clock);
        var stop;
        if !ready {
          stop := Greet(k, frame, clock);
        } else {
          stop := Receive(k, frame, clock);
        }
        assert h == Handled(Current(), stop);
        if stop {
          return;
        }
      }
    }

    method Broken(k: nat)
      modifies this
      ensures Current() == BrokenAt(old(Current()), k)
    {
      if child == Some(k) {
        Fail(WorkerExit);
      }
    }

    method Closed(k: nat)
      requires k < |host.processes|
      modifies this
      ensures Current() == ClosedAt(old(Current()), k)
    {
      Broken(k);
      if host.processes[k].retired {
        retiring := false;
      }
      host := host.(processes := host.processes[k := host.processes[k].(closed := true)]);
    }

    method Close()
      modifies this
      ensures Current() == DisposeAt(old(Current()))
    {
      disposed := true;
      Fail(WorkerClosed);
    }
  }
}
