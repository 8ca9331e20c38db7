/** Why a promise of the client is settled as it is: every settlement of every run has its cause. */
module ClientCauses {
  import opened Basics
  import opened Protocol
  import opened Client
  import opened ClientSafety
  import opened ClientRuns

  // ---- Failing ------------------------------------------------------------------------------------------------

  /** Whoever waits is rejected: the opener, then the outstanding request. */
  function Rejections(s: State, fault: Fault): seq<Settlement> {
    (if s.opening.Some? then [Settlement(s.opening.value, Rejected(fault))] else [])
    + (if s.pending.Some? then [Settlement(s.pending.value.promise, Rejected(fault))] else [])
  }

  /** Everyone who waited is rejected with the fault, no child is left, and one that still runs is being retired. */
  ghost predicate Failed(s: State, t: State, fault: Fault) {
    && t.host.log == s.host.log + Rejections(s, fault) && t.opening.None? && t.pending.None?
    && t.child.None? && !t.ready && t.input == []
    && (s.child.Some? && Running(s.host, s.child.value) ==> t.retiring && Dying(t.host, s.child.value))
  }

  lemma FailFails(s: State, fault: Fault)
    requires Processes(s)
    ensures Failed(s, FailAt(s, fault), fault) && FailAt(s, fault).disposed == s.disposed
  {
  }

  /** A timer, an abort, the end of the child and closing each end all waiting, with their own fault. */
  lemma EndsOfWaiting(c: Codec, s: State, e: Event)
    requires Safe(s) && Legal(s, e)
    ensures e.TimerFired? ==> Failed(s, StepAt(c, s, e), DeadlinePassed)
    ensures e.Aborted? ==> Failed(s, StepAt(c, s, e), Cancelled)
    ensures e.Dispose? ==> Failed(s, StepAt(c, s, e), WorkerClosed) && StepAt(c, s, e).disposed
    ensures e.Broken? && s.child == Some(e.child) ==> Failed(s, StepAt(c, s, e), WorkerExit)
    ensures e.Closed? && s.child == Some(e.child) ==> StepAt(c, s, e).host.log == s.host.log + Rejections(s, WorkerExit)
    ensures (e.Broken? || e.Closed? || e.Data?) && s.child != Some(e.child) ==> StepAt(c, s, e).host.log == s.host.log
    ensures e.Exited? ==> StepAt(c, s, e).host.log == s.host.log
  {
    hide Accounted, Ledger, Written, Rooted, Resting, Engaged, FailAt, ConsumeAt;
    forall u: State, fault | Processes(u)
      ensures Failed(u, FailAt(u, fault), fault) && FailAt(u, fault).disposed == u.disposed
    {
      FailFails(u, fault);
    }
    match e
    case TimerFired(p) => ProcessesFrom(s, s.(host := s.host.(timers := s.host.timers - {p})));
    case Aborted(p) => ProcessesFrom(s, s.(host := s.host.(listeners := s.host.listeners - {p})));
    case Dispose => ProcessesFrom(s, s.(disposed := true));
    case _ =>
  }

  // ---- Data ---------------------------------------------------------------------------------------------------

  ghost predicate SomeReply(c: Codec, s: State, reply: Reply) {
    s.pending.Some? && exists frame :: c.reply(frame, s.pending.value.request) == Some(reply)
  }

  /** A greeting of the process from a root other than the one expected. */
  ghost predicate OtherRoot(c: Codec, s: State, k: nat) {
    s.root.Some? && exists frame, hello :: c.hello(frame) == Some(hello) && hello.pid == c.pid(k) && hello.identity != s.root.value
  }

  ghost predicate RightRoot(c: Codec, s: State, k: nat) {
    exists frame, hello :: c.hello(frame) == Some(hello) && hello.pid == c.pid(k) && (s.root.Some? ==> hello.identity == s.root.value)
  }

  /** What data from process `k` may settle, and why. */
  ghost predicate DataCause(c: Codec, s: State, k: nat, clock: Clock, x: Settlement) {
    && x.promise in Waiting(s)
    && match x.outcome
       case Opened => !s.ready && s.opening == Some(x.promise) && RightRoot(c, s, k)
       case Replied(child, reply) =>
         child == k && !clock.replyLate && s.pending.Some? && x.promise == s.pending.value.promise && SomeReply(c, s, reply)
       case Rejected(DeadlinePassed) =>
         (clock.replyLate && exists reply :: SomeReply(c, s, reply)) || (!s.ready && s.pending.Some? && clock.remaining <= 0)
       case Rejected(RootChanged) => !s.ready && OtherRoot(c, s, k)
       case Rejected(fault) => fault == WorkerProtocol
  }

  ghost predicate DataCauses(c: Codec, s: State, k: nat, clock: Clock, t: State) {
    s.host.log <= t.host.log && forall i :: |s.host.log| <= i < |t.host.log| ==> DataCause(c, s, k, clock, t.host.log[i])
  }

  lemma FailCauses(c: Codec, s: State, k: nat, clock: Clock, fault: Fault)
    requires Processes(s)
    requires fault == WorkerProtocol || (fault == RootChanged && !s.ready && OtherRoot(c, s, k))
             || (fault == DeadlinePassed
                 && ((clock.replyLate && exists reply :: SomeReply(c, s, reply)) || (!s.ready && s.pending.Some? && clock.remaining <= 0)))
    ensures DataCauses(c, s, k, clock, FailAt(s, fault))
  {
    FailFails(s, fault);
    hide FailAt, Processes, SomeReply, OtherRoot, RightRoot;
  }

  lemma ReplyCauses(c: Codec, s: State, k: nat, frame: bytes, clock: Clock)
    requires Processes(s)
    ensures DataCauses(c, s, k, clock, ReplyAt(c, s, k, frame, clock).state)
  {
    hide FailAt, Processes;
    FailCauses(c, s, k, clock, WorkerProtocol);
    if s.pending.Some? && c.reply(frame, s.pending.value.request).Some? {
      assert SomeReply(c, s, c.reply(frame, s.pending.value.request).value);
      if clock.replyLate {
        FailCauses(c, s, k, clock, DeadlinePassed);
      }
    }
    hide SomeReply;
  }

  lemma GreetCauses(c: Codec, s: State, k: nat, frame: bytes, clock: Clock)
    requires Processes(s) && !s.ready && k < |s.host.processes| && s.child == Some(k) && (s.opening.Some? ==> s.pending.None?)
    ensures DataCauses(c, s, k, clock, GreetAt(c, s, k, frame, clock).state)
  {
    hide FailAt, Processes;
    FailCauses(c, s, k, clock, WorkerProtocol);
    var hello := c.hello(frame);
    if hello.Some? && hello.value.pid == c.pid(k) {
      if s.root.Some? && s.root.value != hello.value.identity {
        assert OtherRoot(c, s, k);
        FailCauses(c, s, k, clock, RootChanged);
      } else {
        assert RightRoot(c, s, k);
        if s.pending.Some? && clock.remaining <= 0 {
          GreetedFails(s, k, hello.value.identity);
        }
      }
    }
    hide OtherRoot, RightRoot, SomeReply;
  }

  /** A greeting whose outstanding request can no longer be sent. */
  lemma GreetedFails(s: State, k: nat, identity: Identity)
    requires Processes(s) && k < |s.host.processes| && s.child == Some(k) && s.opening.None?
    ensures FailAt(Greeted(s, k, identity), DeadlinePassed).host.log == s.host.log + Rejections(s, DeadlinePassed)
  {
  }

  lemma HandleCauses(c: Codec, s: State, k: nat, frame: bytes, clock: Clock)
    requires Core(s) && s.child == Some(k) && k < |s.host.processes|
    ensures var h := HandleAt(c, s, k, frame, clock);
            && DataCauses(c, s, k, clock, h.state)
            && (h.state.opening.Some? ==> h.state.opening == s.opening) && (h.state.pending.Some? ==> h.state.pending == s.pending)
            && (!h.stop && h.state.child.Some? ==> h.state.ready)
  {
    hide Accounted, Ledger, Written, Rooted, Armed, DataCauses;
    HandleLeaves(c, s, k, frame, clock);
    if s.ready {
      ReplyCauses(c, s, k, frame, clock);
    } else {
      GreetCauses(c, s, k, frame, clock);
    }
  }

  lemma HandleLeaves(c: Codec, s: State, k: nat, frame: bytes, clock: Clock)
    requires k < |s.host.processes|
    ensures var h := HandleAt(c, s, k, frame, clock);
            && (h.state.opening.Some? ==> h.state.opening == s.opening) && (h.state.pending.Some? ==> h.state.pending == s.pending)
            && (!h.stop && h.state.child.Some? ==> h.state.ready)
  {
    hide FailAt, SendAt, Settled, Greeted;
    FailEmpties(s, WorkerProtocol);
    FailEmpties(s, RootChanged);
    FailEmpties(s, DeadlinePassed);
    if !s.ready && c.hello(frame).Some? {
      GreetedLeaves(s, k, c.hello(frame).value.identity, clock.remaining);
    }
  }

  lemma FailEmpties(s: State, fault: Fault)
    ensures var t := FailAt(s, fault); t.child.None? && t.opening.None? && t.pending.None?
  {
  }

  lemma GreetedLeaves(s: State, k: nat, identity: Identity, remaining: int)
    requires k < |s.host.processes|
    ensures var t := SendAt(Greeted(s, k, identity), remaining);
            t.opening.None? && (t.pending.Some? ==> t.pending == s.pending) && (t.child.Some? ==> t.ready)
  {
    hide FailAt, Settled;
    FailEmpties(Greeted(s, k, identity), DeadlinePassed);
  }

  /** What a ready client settles later in the same loop, it settles for a cause it already had. */
  lemma CausesThen(c: Codec, s: State, t: State, u: State, k: nat, clock: Clock)
    requires DataCauses(c, s, k, clock, t) && DataCauses(c, t, k, clock, u) && t.ready
    requires (t.opening.Some? ==> t.opening == s.opening) && (t.pending.Some? ==> t.pending == s.pending)
    ensures DataCauses(c, s, k, clock, u)
  {
    forall i | |s.host.log| <= i < |u.host.log|
      ensures DataCause(c, s, k, clock, u.host.log[i])
    {
      if i < |t.host.log| {
        assert u.host.log[i] == t.host.log[i];
      } else {
        CauseBefore(c, s, t, k, clock, u.host.log[i]);
      }
    }
  }

  lemma CauseBefore(c: Codec, s: State, t: State, k: nat, clock: Clock, x: Settlement)
    requires DataCause(c, t, k, clock, x) && t.ready
    requires (t.opening.Some? ==> t.opening == s.opening) && (t.pending.Some? ==> t.pending == s.pending)
    ensures DataCause(c, s, k, clock, x)
  {
    forall reply | SomeReply(c, t, reply)
      ensures SomeReply(c, s, reply)
    {
    }
    hide SomeReply, OtherRoot, RightRoot;
  }

  lemma {:induction false} ConsumeCauses(c: Codec, s: State, k: nat, clock: Clock)
    requires Core(s) && Owns(s, k) && k < |s.host.processes|
    ensures DataCauses(c, s, k, clock, ConsumeAt(c, s, k, clock))
    decreases |s.input|
  {
    hide GreetAt, ReplyAt, FailAt, Core, Advances, HandleAt, DataCause;
    if |s.input| >= HEADER {
      var size := Announced(s.input);
      CoreProcesses(s);
      FailCauses(c, s, k, clock, WorkerProtocol);
      ChildIsOwn(s, k);
      if 0 < size <= FRAME_CAP && |s.input| >= size + HEADER {
        var t := s.(input := s.input[size + HEADER..]);
        var frame := s.input[HEADER..size + HEADER];
        CoreIgnoresInput(s, t.input);
        var h := HandleAt(c, t, k, frame, clock);
        HandleKeeps(c, t, k, frame, clock);
        HandleCauses(c, t, k, frame, clock);
        InputImmaterial(c, s, t.input, k, clock, h.state);
        if !h.stop {
          if h.state.child.Some? {
            ConsumeCauses(c, h.state, k, clock);
            CausesThen(c, s, h.state, ConsumeAt(c, h.state, k, clock), k, clock);
          } else {
            assert ConsumeAt(c, h.state, k, clock) == h.state;
          }
        }
      }
    }
  }

  lemma CoreProcesses(s: State)
    requires Core(s)
    ensures Processes(s)
  {
  }

  lemma InputImmaterial(c: Codec, s: State, input: bytes, k: nat, clock: Clock, u: State)
    requires DataCauses(c, s.(input := input), k, clock, u)
    ensures DataCauses(c, s, k, clock, u)
  {
    forall i | |s.host.log| <= i < |u.host.log|
      ensures DataCause(c, s, k, clock, u.host.log[i])
    {
      var x := u.host.log[i];
      assert DataCause(c, s.(input := input), k, clock, x);
      forall reply
        ensures SomeReply(c, s.(input := input), reply) == SomeReply(c, s, reply)
      {
      }
      assert OtherRoot(c, s.(input := input), k) == OtherRoot(c, s, k) && RightRoot(c, s.(input := input), k) == RightRoot(c, s, k);
      hide SomeReply, OtherRoot, RightRoot;
    }
  }

  // ---- Every event ---------------------------------------------------------------------------------------------

  /** What the event may settle in this state, and why. */
  ghost predicate Because(c: Codec, s: State, e: Event, x: Settlement)
    requires Legal(s, e)
  {
    match e
    case Open =>
      && x.promise == s.host.promises
      && x.outcome == (if s.disposed then Rejected(WorkerClosed)
                       else if s.ready then Opened
                       else if s.opening.Some? || s.pending.Some? then Rejected(WorkerBusy)
                       else Rejected(WorkerRestarting))
    case Search(input, signal, remaining) =>
      && x.promise == s.host.promises
      && x.outcome == (if s.disposed then Rejected(WorkerClosed)
                       else if s.opening.Some? || s.pending.Some? then Rejected(WorkerBusy)
                       else if s.retiring then Rejected(WorkerRestarting)
                       else if signal.Present? && signal.aborted then Rejected(Cancelled)
                       else if !ClientAccepts(input) then Rejected(BadRequest)
                       else if signal.Present? && signal.abortedSince then Rejected(Cancelled)
                       else Rejected(DeadlinePassed))
      && (x.outcome == Rejected(DeadlinePassed) ==> s.ready && remaining <= 0)
    case Data(k, _, clock) => s.child == Some(k) && DataCause(c, s, k, clock, x)
    case Broken(k) => s.child == Some(k) && x.promise in Waiting(s) && x.outcome == Rejected(WorkerExit)
    case Closed(k) => s.child == Some(k) && x.promise in Waiting(s) && x.outcome == Rejected(WorkerExit)
    case TimerFired(p) => x == Settlement(p, Rejected(DeadlinePassed))
    case Aborted(p) => x == Settlement(p, Rejected(Cancelled))
    case Dispose => x.promise in Waiting(s) && x.outcome == Rejected(WorkerClosed)
    case Exited(_) => false
  }

  lemma OneWaits(s: State, p: nat)
    requires Safe(s) && (p in s.host.timers || p in s.host.listeners)
    ensures Waiting(s) == {p}
  {
    hide Processes, Accounted, Ledger, Written, Rooted, Resting;
  }

  lemma CallCauses(c: Codec, s: State, e: Event)
    requires Safe(s) && Legal(s, e) && (e.Open? || e.Search?)
    ensures var t := StepAt(c, s, e);
            s.host.log <= t.host.log && forall i :: |s.host.log| <= i < |t.host.log| ==> Because(c, s, e, t.host.log[i])
  {
    hide Accounted, Ledger, Written, Rooted, Resting, FailAt, ClientAccepts, RequestId;
    if e.Search? {
      var t := IssuedAt(s, e.input, e.signal.Present?);
      ProcessesFrom(s, t);
      FailFails(t, Cancelled);
      FailFails(t, DeadlinePassed);
    }
  }

  lemma StepCauses(c: Codec, s: State, e: Event)
    requires Safe(s) && Legal(s, e)
    ensures var t := StepAt(c, s, e);
            s.host.log <= t.host.log && forall i :: |s.host.log| <= i < |t.host.log| ==> Because(c, s, e, t.host.log[i])
  {
    hide Safe, OpenAt, SearchAt, DataAt, BrokenAt, ClosedAt, FailAt, DisposeAt, DataCause;
    EndsOfWaiting(c, s, e);
    match e
    case Open => CallCauses(c, s, e);
    case Search(_, _, _) => CallCauses(c, s, e);
    case Data(k, data, clock) =>
      if s.child == Some(k) {
        ChunkCauses(c, s, k, data, clock);
      }
    case TimerFired(p) => OneWaits(s, p);
    case Aborted(p) => OneWaits(s, p);
    case _ =>
  }

  lemma ChunkCauses(c: Codec, s: State, k: nat, data: bytes, clock: Clock)
    requires Safe(s) && s.child == Some(k) && k < |s.host.processes|
    ensures DataCauses(c, s, k, clock, DataAt(c, s, k, data, clock))
  {
    hide Core, ConsumeAt, FailAt, DataCause;
    CoreProcesses(s);
    FailCauses(c, s, k, clock, WorkerProtocol);
    if |s.input| + |data| <= FRAME_CAP + HEADER {
      var t := s.(input := s.input + data);
      CoreIgnoresInput(s, t.input);
      ConsumeCauses(c, t, k, clock);
      InputImmaterial(c, s, t.input, k, clock, ConsumeAt(c, t, k, clock));
    }
  }

  /**
   In any run, every settlement was made by some event, for its cause in the state that event found: a reply by data that
   was not late from the current child, and a rejection only for what its fault says.
   */
  lemma {:induction false} EverySettlementHasItsCause(c: Codec, s: State, events: seq<Event>, x: Settlement) returns (i: nat)
    requires Safe(s) && LegalRun(c, s, events) && x in RunAll(c, s, events).host.log && x !in s.host.log
    ensures i < |events| && LegalRun(c, s, events[..i])
    ensures var u := RunAll(c, s, events[..i]); Legal(u, events[i]) && Because(c, u, events[i], x)
    decreases |events|
  {
    hide Safe, StepAt, Because, Legal;
    var t := StepAt(c, s, events[0]);
    StepCauses(c, s, events[0]);
    StepKeeps(c, s, events[0]);
    if x in t.host.log {
      assert t.host.log == s.host.log + t.host.log[|s.host.log|..];
      var k :| 0 <= k < |t.host.log[|s.host.log|..]| && t.host.log[|s.host.log|..][k] == x;
      assert t.host.log[|s.host.log| + k] == x;
      i := 0;
      assert events[..0] == [];
    } else {
      var k := EverySettlementHasItsCause(c, t, events[1..], x);
      i := k + 1;
      assert events[..i][0] == events[0] && events[..i][1..] == events[1..][..k];
    }
  }
}
