/** What every event keeps: one live process, each promise settled once, nothing delivered from a retired child. */
module ClientSafety {
  import opened Basics
  import opened Protocol
  import opened Client

  /** Promises not yet settled: the opener's and the outstanding request's. */
  function Waiting(s: State): set<nat> {
    (if s.opening.Some? then {s.opening.value} else {}) + (if s.pending.Some? then {s.pending.value.promise} else {})
  }

  /** Killed and not yet closed. */
  predicate Dying(h: Host, k: nat) { k < |h.processes| && h.processes[k].retired && !h.processes[k].closed }

  /** Every process but the current one has exited or is the single one being retired. */
  ghost predicate Processes(s: State) {
    && (s.child.Some? ==> s.child.value < |s.host.processes| && !s.host.processes[s.child.value].closed && !s.host.processes[s.child.value].retired)
    && (forall k: nat :: k < |s.host.processes| && s.host.processes[k].closed ==> s.host.processes[k].exited)
    && (forall k: nat :: Running(s.host, k) ==> s.child == Some(k) || s.host.processes[k].retired)
    && (forall i: nat, j: nat :: Dying(s.host, i) && Dying(s.host, j) ==> i == j)
    && (forall k: nat :: Dying(s.host, k) ==> s.retiring)
    && (s.retiring ==> s.child.None? && exists k: nat :: Dying(s.host, k))
  }

  /** A child that has not greeted has someone waiting for it, and only one of the two kinds of promise waits. */
  ghost predicate Engaged(s: State) {
    && (s.opening.Some? ==> s.pending.None? && s.child.Some? && !s.ready)
    && (s.pending.Some? ==> s.child.Some?)
    && (s.ready ==> s.child.Some?)
    && (s.child.Some? && !s.ready ==> s.opening.Some? || s.pending.Some?)
    && (s.child.None? ==> s.input == [])
    && (s.disposed ==> s.child.None?)
  }

  /** Every promise issued is settled exactly once or still waiting. */
  ghost predicate Accounted(s: State) {
    && (forall i, j :: 0 <= i < j < |s.host.log| ==> s.host.log[i].promise != s.host.log[j].promise)
    && (forall x :: x in s.host.log ==> x.promise < s.host.promises && x.promise !in Waiting(s))
    && (forall p :: p in Waiting(s) ==> p < s.host.promises)
    && (forall p: nat :: p < s.host.promises && p !in Waiting(s) ==> exists x :: x in s.host.log && x.promise == p)
  }

  /** Armed timers and listeners serve promises still waiting; each of those has its timer. */
  ghost predicate Armed(s: State) {
    s.host.timers == Waiting(s) && s.host.listeners <= Waiting(s)
  }

  /** The buffer holds less than one whole frame, whose header is acceptable. */
  predicate Resting(input: bytes) {
    |input| < HEADER || (1 <= Announced(input) <= FRAME_CAP && |input| < Announced(input) + HEADER)
  }

  /** Requests are written in order, each at most once. */
  ghost predicate Ledger(s: State) {
    && (forall i, j :: 0 <= i < j < |s.host.writes| ==> s.host.writes[i].sequence < s.host.writes[j].sequence)
    && (forall w :: w in s.host.writes ==> w.sequence <= s.sequence)
    && (s.pending.Some? ==> s.pending.value.sequence == s.sequence)
  }

  ghost predicate Unsent(s: State) { forall w :: w in s.host.writes ==> w.sequence < s.sequence }

  /** The write holds the outstanding request, with whatever was left of its deadline. */
  predicate Carries(w: Write, child: nat, p: Pending) {
    w.child == child && w.sequence == p.sequence && w.request == p.request.(deadlineMs := w.request.deadlineMs)
  }

  /** The outstanding request has been written, to the current child, exactly when that child is ready. */
  ghost predicate Written(s: State) {
    s.pending.Some? && s.child.Some? ==>
      if s.ready then |s.host.writes| > 0 && Carries(s.host.writes[|s.host.writes| - 1], s.child.value, s.pending.value) else Unsent(s)
  }

  /** Every process that was accepted greeted with the pinned root identity, and only those delivered replies. */
  ghost predicate Rooted(s: State) {
    && (forall k: nat :: k < |s.host.processes| && s.host.processes[k].greeted.Some? ==> s.host.processes[k].greeted == s.root)
    && (s.ready && s.child.Some? && s.child.value < |s.host.processes| ==> s.host.processes[s.child.value].greeted.Some?)
    && (forall x :: x in s.host.log && x.outcome.Replied? ==>
          x.outcome.child < |s.host.processes| && s.host.processes[x.outcome.child].greeted.Some?)
  }

  ghost predicate Core(s: State) {
    Processes(s) && Engaged(s) && Accounted(s) && Armed(s) && Ledger(s) && Written(s) && Rooted(s)
  }

  ghost predicate Safe(s: State) { Core(s) && Resting(s.input) }

  lemma InitialSafe(expected: Option<Identity>)
    ensures Safe(Initial(expected))
  {
  }

  // ---- Failing ------------------------------------------------------------------------------------------

  /** What `FailAt` needs: everything but the timers and listeners that may just have fired, and the sent mark. */
  ghost predicate Fallible(s: State) {
    && Processes(s) && Accounted(s) && Ledger(s) && Rooted(s)
    && (s.opening.Some? ==> s.pending.None?)
    && s.host.timers <= Waiting(s) && s.host.listeners <= Waiting(s)
  }

  lemma DropKeeps(s: State)
    requires Processes(s) && Rooted(s)
    ensures Processes(Drop(s)) && Rooted(Drop(s)) && Drop(s).child.None?
  {
    var t := Drop(s);
    if s.child.Some? && Running(s.host, s.child.value) {
      var k := s.child.value;
      assert Dying(t.host, k);
      forall i: nat | Dying(t.host, i)
        ensures i == k
      {
        assert i != k ==> Dying(s.host, i);
      }
    } else {
      assert t.host == s.host;
    }
  }

  lemma RejectKeeps(s: State, fault: Fault)
    requires Accounted(s) && (s.opening.Some? ==> s.pending.None?)
    requires s.host.timers <= Waiting(s) && s.host.listeners <= Waiting(s)
    ensures var t := RejectPending(RejectOpening(s, fault), fault);
            && Accounted(t) && Armed(t) && Waiting(t) == {}
            && t == s.(opening := None, pending := None, host := t.host)
            && t.host.processes == s.host.processes && t.host.writes == s.host.writes && s.host.log <= t.host.log
            && (forall x :: x in t.host.log ==> x in s.host.log || x.outcome == Rejected(fault))
            && (forall p :: p in Waiting(s) ==> Settlement(p, Rejected(fault)) in t.host.log)
  {
  }

  lemma FailKeeps(s: State, fault: Fault)
    requires Fallible(s)
    ensures var t := FailAt(s, fault);
            && Safe(t) && t.child.None? && t.pending.None? && t.opening.None? && t.disposed == s.disposed && t.root == s.root
            && s.host.log <= t.host.log
            && (forall x :: x in t.host.log ==> x in s.host.log || x.outcome == Rejected(fault))
            && (forall p :: p in Waiting(s) ==> Settlement(p, Rejected(fault)) in t.host.log)
  {
    DropKeeps(s);
    var d := Drop(s);
    SentAccounted(s, d);
    hide Accounted, Processes, Rooted, Ledger, Drop;
    RejectKeeps(d, fault);
    var t := FailAt(s, fault);
    ProcessesFrom(d, t);
    RootedFrom(d, t);
    LedgerSame(d, t);
  }

  lemma ProcessesFrom(s: State, t: State)
    requires Processes(s)
    requires t.child == s.child && t.retiring == s.retiring && t.host.processes == s.host.processes
    ensures Processes(t)
  {
    forall k: nat
      ensures Dying(t.host, k) == Dying(s.host, k) && Running(t.host, k) == Running(s.host, k)
    {
    }
  }

  lemma RootedFrom(s: State, t: State)
    requires Rooted(s)
    requires t.root == s.root && t.host.processes == s.host.processes && (t.ready ==> s.ready && t.child == s.child)
    requires forall x :: x in t.host.log && x.outcome.Replied? ==> x in s.host.log
    ensures Rooted(t)
  {
  }

  lemma CoreFails(s: State, fault: Fault)
    requires Core(s)
    ensures Safe(FailAt(s, fault)) && Advances(s, FailAt(s, fault), None) && Advances(s, FailAt(s, fault), s.child)
  {
    hide FailAt, Processes, Accounted, Ledger, Rooted, Written;
    FailKeeps(s, fault);
    RejectedOnly(s, fault);
  }

  // ---- Calls ----------------------------------------------------------------------------------------------

  lemma ImmediateKeeps(s: State, outcome: Outcome)
    requires Safe(s) && !outcome.Replied?
    ensures Safe(Immediate(s, outcome))
  {
    var t := Immediate(s, outcome);
    ProcessesFrom(s, t);
    RootedFrom(s, t);
    hide Processes, Rooted, Ledger, Written;
    assert Waiting(t) == Waiting(s);
    forall p: nat | p < t.host.promises && p !in Waiting(t)
      ensures exists x :: x in t.host.log && x.promise == p
    {
      if p == s.host.promises {
        assert Settlement(p, outcome) in t.host.log;
      } else {
        var x :| x in s.host.log && x.promise == p;
        assert x in t.host.log;
      }
    }
    LedgerFrom(s, t);
  }

  lemma LedgerFrom(s: State, t: State)
    requires Ledger(s) && Written(s)
    requires t.host.writes == s.host.writes && t.sequence == s.sequence && t.pending == s.pending && t.child == s.child && t.ready == s.ready
    ensures Ledger(t) && Written(t)
  {
  }

  /** A promise has just been issued, with its timer and nothing else, by a client that had none outstanding. */
  ghost predicate Issued(s: State, t: State) {
    && Waiting(s) == {} && Waiting(t) == {s.host.promises}
    && t.host.promises == s.host.promises + 1 && t.host.log == s.host.log
    && t.host.timers == s.host.timers + {s.host.promises}
    && t.host.listeners <= s.host.listeners + {s.host.promises}
  }

  lemma IssuedAccounted(s: State, t: State)
    requires Accounted(s) && Armed(s) && Issued(s, t)
    ensures Accounted(t) && Armed(t)
  {
  }

  /** A child is started only when none is running, so that none is ever abandoned. */
  lemma StartKeeps(s: State)
    requires s.child.None? && !s.retiring && !s.disposed
    requires Processes(s) && Accounted(s) && Armed(s) && Ledger(s) && Rooted(s)
    requires s.opening.Some? <==> s.pending.None?
    requires s.pending.Some? ==> Unsent(s)
    ensures Safe(StartAt(s)) && forall k: nat :: !Running(s.host, k)
  {
    var t := StartAt(s);
    assert forall k: nat :: !Dying(s.host, k);
    forall k: nat | k < |s.host.processes|
      ensures s.host.processes[k].exited
    {
      var running, dying := Running(s.host, k), Dying(s.host, k);
    }
    forall k: nat
      ensures Running(t.host, k) <==> k == |s.host.processes|
      ensures !Dying(t.host, k)
    {
      assert k < |s.host.processes| ==> (Running(t.host, k) <==> Running(s.host, k)) && (Dying(t.host, k) <==> Dying(s.host, k));
    }
    hide Accounted, Ledger;
    assert Waiting(t) == Waiting(s);
    StartAccounted(s);
  }

  lemma StartAccounted(s: State)
    requires Accounted(s) && Ledger(s)
    ensures Accounted(StartAt(s)) && Ledger(StartAt(s))
  {
    SentAccounted(s, StartAt(s));
    hide Accounted;
  }

  /** Sending to a ready child: the request is written once, or the deadline ends it. */
  lemma SendKeeps(s: State, remaining: int)
    requires Processes(s) && Engaged(s) && Accounted(s) && Armed(s) && Ledger(s) && Rooted(s)
    requires s.ready && (s.pending.Some? ==> Unsent(s))
    ensures Core(SendAt(s, remaining)) && Advances(s, SendAt(s, remaining), None)
    ensures SendAt(s, remaining).child == s.child || (SendAt(s, remaining).child.None? && SendAt(s, remaining).input == [])
  {
    var t := SendAt(s, remaining);
    if s.pending.Some? && remaining <= 0 {
      FailKeeps(s, DeadlinePassed);
    } else {
      ProcessesFrom(s, t);
      RootedFrom(s, t);
      hide Processes, Rooted, FailAt;
      SentAccounted(s, t);
    }
  }

  lemma SentAccounted(s: State, t: State)
    requires Accounted(s) && Waiting(t) == Waiting(s) && t.host.promises == s.host.promises && t.host.log == s.host.log
    ensures Accounted(t)
  {
  }

  /** The record only grows, the pinned root stays, and new replies come from one process at most. */
  ghost predicate Advances(s: State, t: State, from: Option<nat>) {
    && s.host.log <= t.host.log
    && (s.root.Some? ==> t.root == s.root)
    && |s.host.processes| <= |t.host.processes|
    && forall i :: |s.host.log| <= i < |t.host.log| && t.host.log[i].outcome.Replied? ==> from == Some(t.host.log[i].outcome.child)
  }

  lemma OpenKeeps(s: State)
    requires Safe(s)
    ensures Safe(OpenAt(s)) && Advances(s, OpenAt(s), None)
  {
    hide Processes, Accounted, Ledger, Rooted, Resting, StartAt, Immediate;
    ImmediateKeeps(s, Rejected(WorkerClosed));
    ImmediateKeeps(s, Rejected(WorkerBusy));
    ImmediateKeeps(s, Rejected(WorkerRestarting));
    ImmediateKeeps(s, Opened);
    ImmediateAdvances(s);
    if !s.disposed && !s.ready && s.opening.None? && s.pending.None? && !s.retiring {
      var p := s.host.promises;
      var t := s.(opening := Some(p), host := s.host.(promises := p + 1, timers := s.host.timers + {p}));
      IssuedAccounted(s, t);
      ProcessesFrom(s, t);
      RootedFrom(s, t);
      LedgerSame(s, t);
      StartKeeps(t);
      StartAdvances(s, t);
    }
  }

  lemma LedgerSame(s: State, t: State)
    requires Ledger(s) && t.host.writes == s.host.writes && t.sequence == s.sequence && t.pending.None?
    ensures Ledger(t)
  {
  }

  lemma ImmediateAdvances(s: State)
    ensures forall o: Outcome :: !o.Replied? ==> Advances(s, Immediate(s, o), None)
  {
  }

  lemma StartAdvances(s: State, t: State)
    requires t.host.log == s.host.log && t.root == s.root && t.host.processes == s.host.processes
    ensures Advances(s, StartAt(t), None)
  {
  }

  lemma FailAdvances(s: State, t: State, fault: Fault)
    requires Fallible(t) && t.host.log == s.host.log && t.root == s.root && |t.host.processes| == |s.host.processes|
    ensures Advances(s, FailAt(t, fault), None)
  {
    hide FailAt, Processes, Accounted, Ledger, Rooted;
    FailKeeps(t, fault);
    var u := FailAt(t, fault);
    RejectedOnly(t, fault);
  }

  lemma RejectedOnly(s: State, fault: Fault)
    ensures s.host.log <= FailAt(s, fault).host.log
    ensures forall i :: |s.host.log| <= i < |FailAt(s, fault).host.log| ==> FailAt(s, fault).host.log[i].outcome == Rejected(fault)
  {
  }

  lemma SearchKeeps(s: State, input: Request, signal: Signal, remaining: int)
    requires Safe(s)
    ensures Safe(SearchAt(s, input, signal, remaining)) && Advances(s, SearchAt(s, input, signal, remaining), None)
  {
    hide Processes, Accounted, Rooted, Resting, StartAt, Immediate, FailAt, SendAt, ClientAccepts;
    ImmediateKeeps(s, Rejected(WorkerClosed));
    ImmediateKeeps(s, Rejected(WorkerBusy));
    ImmediateKeeps(s, Rejected(WorkerRestarting));
    ImmediateKeeps(s, Rejected(Cancelled));
    ImmediateKeeps(s, Rejected(BadRequest));
    ImmediateAdvances(s);
    if !s.disposed && s.opening.None? && s.pending.None? && !s.retiring && !(signal.Present? && signal.aborted) && ClientAccepts(input) {
      var p, n := s.host.promises, s.sequence + 1;
      var t := s.(sequence := n, pending := Some(Pending(p, input.(v := 1, id := RequestId(n)), n)),
                  host := s.host.(promises := p + 1, timers := s.host.timers + {p},
                                  listeners := if signal.Present? then s.host.listeners + {p} else s.host.listeners));
      IssuedAccounted(s, t);
      ProcessesFrom(s, t);
      RootedFrom(s, t);
      assert Ledger(t) && Unsent(t);
      hide Ledger, Unsent;
      if signal.Present? && signal.abortedSince {
        FailKeeps(t, Cancelled);
        FailAdvances(s, t, Cancelled);
      } else if t.child.None? {
        StartKeeps(t);
        StartAdvances(s, t);
      } else {
        SendKeeps(t, remaining);
        SendRests(t, remaining);
      }
    }
  }

  lemma SendRests(s: State, remaining: int)
    requires Resting(s.input)
    ensures Resting(SendAt(s, remaining).input)
  {
  }

  // ---- Frames -----------------------------------------------------------------------------------------------

  /** The child still owns the buffer, or is gone and the buffer with it. */
  predicate Owns(s: State, k: nat) { s.child == Some(k) || (s.child.None? && s.input == []) }

  lemma GreetKeeps(c: Codec, s: State, k: nat, frame: bytes, clock: Clock)
    requires Core(s) && s.child == Some(k) && !s.ready
    requires k < |s.host.processes|
    ensures var h := GreetAt(c, s, k, frame, clock);
            Core(h.state) && Owns(h.state, k) && Advances(s, h.state, None) && (h.stop ==> h.state.input == [])
  {
    hide SendAt, FailAt, Core, Resting, Greeted, Advances;
    CoreFails(s, WorkerProtocol);
    CoreFails(s, RootChanged);
    var hello := c.hello(frame);
    if hello.Some? && hello.value.pid == c.pid(k) && !(s.root.Some? && s.root.value != hello.value.identity) {
      AcceptedKeeps(s, k, hello.value.identity, clock.remaining);
    }
  }

  /** A greeting is accepted and the outstanding request sent. */
  lemma AcceptedKeeps(s: State, k: nat, identity: Identity, remaining: int)
    requires Core(s) && s.child == Some(k) && !s.ready && k < |s.host.processes|
    requires s.root.Some? ==> s.root.value == identity
    ensures var t := SendAt(Greeted(s, k, identity), remaining);
            Core(t) && Owns(t, k) && Advances(s, t, None)
  {
    hide SendAt, FailAt, Core, Processes, Engaged, Accounted, Armed, Ledger, Written, Rooted, Greeted, Unsent, Resting;
    GreetedKeeps(s, k, identity);
    SendKeeps(Greeted(s, k, identity), remaining);
  }

  lemma GreetedKeeps(s: State, k: nat, identity: Identity)
    requires Core(s) && s.child == Some(k) && !s.ready && k < |s.host.processes|
    requires s.root.Some? ==> s.root.value == identity
    ensures var u := Greeted(s, k, identity);
            && Processes(u) && Engaged(u) && Accounted(u) && Armed(u) && Ledger(u) && Rooted(u)
            && u.ready && (u.pending.Some? ==> Unsent(u)) && u.child == s.child && u.input == s.input && Advances(s, u, None)
  {
    var u := Greeted(s, k, identity);
    GreetedProcesses(s, k, identity);
    hide Processes;
    GreetedAccounted(s, k, identity);
    hide Accounted, Armed;
  }

  lemma GreetedProcesses(s: State, k: nat, identity: Identity)
    requires Processes(s) && k < |s.host.processes|
    ensures Processes(Greeted(s, k, identity))
  {
    var u := Greeted(s, k, identity);
    forall i: nat
      ensures Dying(u.host, i) == Dying(s.host, i) && Running(u.host, i) == Running(s.host, i)
    {
    }
  }

  lemma GreetedAccounted(s: State, k: nat, identity: Identity)
    requires Accounted(s) && Armed(s) && k < |s.host.processes| && (s.opening.Some? ==> s.pending.None?)
    ensures Accounted(Greeted(s, k, identity)) && Armed(Greeted(s, k, identity))
  {
    var u := Greeted(s, k, identity);
    if s.opening.Some? {
      assert Settlement(s.opening.value, Opened) in u.host.log;
    }
  }

  lemma ReplyKeeps(c: Codec, s: State, k: nat, frame: bytes, clock: Clock)
    requires Core(s) && s.child == Some(k) && s.ready
    ensures var h := ReplyAt(c, s, k, frame, clock);
            Core(h.state) && Owns(h.state, k) && Advances(s, h.state, Some(k)) && (h.stop ==> h.state.input == [])
  {
    hide FailAt, Resting, Settled, Core, Advances;
    CoreFails(s, WorkerProtocol);
    CoreFails(s, DeadlinePassed);
    if s.pending.Some? && c.reply(frame, s.pending.value.request).Some? && !clock.replyLate {
      RepliedKeeps(s, k, c.reply(frame, s.pending.value.request).value);
    }
  }

  lemma RepliedKeeps(s: State, k: nat, reply: Reply)
    requires Core(s) && s.child == Some(k) && s.ready && s.pending.Some?
    ensures var t := s.(pending := None, host := Settled(s.host, s.pending.value.promise, Replied(k, reply)));
            Core(t) && Advances(s, t, Some(k))
  {
    var p, o := s.pending.value.promise, Replied(k, reply);
    var t := s.(pending := None, host := Settled(s.host, p, o));
    ProcessesFrom(s, t);
    hide Processes;
    assert Settlement(p, o) in t.host.log;
  }

  lemma AdvancesTrans(s: State, t: State, u: State, from: Option<nat>)
    requires Advances(s, t, from) && Advances(t, u, from)
    ensures Advances(s, u, from)
  {
    forall i | |s.host.log| <= i < |u.host.log| && u.host.log[i].outcome.Replied?
      ensures from == Some(u.host.log[i].outcome.child)
    {
      assert i < |t.host.log| ==> u.host.log[i] == t.host.log[i];
    }
  }

  lemma AdvancesWeaken(s: State, t: State, from: Option<nat>)
    requires Advances(s, t, None)
    ensures Advances(s, t, from)
  {
  }

  /** Only the buffer differs. */
  lemma CoreIgnoresInput(s: State, input: bytes)
    requires Core(s) && s.child.Some?
    ensures Core(s.(input := input))
  {
    var t := s.(input := input);
    ProcessesFrom(s, t);
    RootedFrom(s, t);
    hide Processes, Rooted;
    assert Waiting(t) == Waiting(s);
    SentAccounted(s, t);
    hide Accounted;
  }

  /** Consuming buffered frames keeps everything, and leaves less than a frame. */
  lemma {:induction false} ConsumeKeeps(c: Codec, s: State, k: nat, clock: Clock)
    requires Core(s) && Owns(s, k) && k < |s.host.processes|
    ensures Safe(ConsumeAt(c, s, k, clock)) && Advances(s, ConsumeAt(c, s, k, clock), Some(k))
    decreases |s.input|
  {
    hide GreetAt, ReplyAt, FailAt, Core, Advances;
    SelfAdvances(s, Some(k));
    if |s.input| >= HEADER {
      var size := Announced(s.input);
      CoreFails(s, WorkerProtocol);
      ChildIsOwn(s, k);
      if 0 < size <= FRAME_CAP && |s.input| >= size + HEADER {
        var t := s.(input := s.input[size + HEADER..]);
        var frame := s.input[HEADER..size + HEADER];
        CoreIgnoresInput(s, t.input);
        var h := HandleAt(c, t, k, frame, clock);
        HandleKeeps(c, t, k, frame, clock);
        SameRecord(s, t, h.state, Some(k));
        if !h.stop {
          ConsumeKeeps(c, h.state, k, clock);
          AdvancesTrans(s, h.state, ConsumeAt(c, h.state, k, clock), Some(k));
        }
      }
    }
  }

  lemma SelfAdvances(s: State, from: Option<nat>)
    ensures Advances(s, s, from)
  {
  }

  lemma ChildIsOwn(s: State, k: nat)
    requires Owns(s, k) && s.input != []
    ensures s.child == Some(k)
  {
  }

  lemma SameRecord(s: State, t: State, u: State, from: Option<nat>)
    requires t.host == s.host && t.root == s.root && Advances(t, u, from)
    ensures Advances(s, u, from)
  {
  }

  lemma HandleKeeps(c: Codec, s: State, k: nat, frame: bytes, clock: Clock)
    requires Core(s) && s.child == Some(k) && k < |s.host.processes|
    ensures var h := HandleAt(c, s, k, frame, clock);
            Core(h.state) && Owns(h.state, k) && Advances(s, h.state, Some(k)) && (h.stop ==> h.state.input == [])
  {
    hide GreetAt, ReplyAt, Core, Advances;
    if s.ready {
      ReplyKeeps(c, s, k, frame, clock);
    } else {
      GreetKeeps(c, s, k, frame, clock);
      AdvancesWeaken(s, GreetAt(c, s, k, frame, clock).state, Some(k));
    }
  }

  /** A chunk from the current child keeps everything; a chunk from any other process changes nothing. */
  lemma DataKeeps(c: Codec, s: State, k: nat, data: bytes, clock: Clock)
    requires Safe(s) && k < |s.host.processes|
    ensures Safe(DataAt(c, s, k, data, clock)) && Advances(s, DataAt(c, s, k, data, clock), s.child)
    ensures s.child != Some(k) ==> DataAt(c, s, k, data, clock) == s
  {
    hide ConsumeAt, Core, Advances, FailAt;
    SelfAdvances(s, s.child);
    CoreFails(s, WorkerProtocol);
    if s.child == Some(k) && |s.input| + |data| <= FRAME_CAP + HEADER {
      var t := s.(input := s.input + data);
      CoreIgnoresInput(s, t.input);
      ConsumeKeeps(c, t, k, clock);
      SameRecord(s, t, ConsumeAt(c, t, k, clock), Some(k));
    }
  }

  // ---- Process events -----------------------------------------------------------------------------------------

  lemma ExitedKeeps(s: State, k: nat)
    requires Safe(s) && Running(s.host, k)
    ensures Safe(ExitedAt(s, k)) && Advances(s, ExitedAt(s, k), None)
  {
    var t := ExitedAt(s, k);
    forall i: nat
      ensures Dying(t.host, i) == Dying(s.host, i) && (Running(t.host, i) ==> Running(s.host, i))
    {
    }
    RootedSame(s, t);
    hide Rooted;
    SentAccounted(s, t);
    hide Accounted;
  }

  lemma RootedSame(s: State, t: State)
    requires Rooted(s) && t.root == s.root && t.host.log == s.host.log && (t.ready ==> s.ready) && (t.child == s.child || t.child == None)
    requires |t.host.processes| == |s.host.processes|
    requires forall k: nat :: k < |s.host.processes| ==> t.host.processes[k].greeted == s.host.processes[k].greeted
    ensures Rooted(t)
  {
  }

  /** When the current child has already exited, dropping it retires nothing. */
  lemma ClosedKeeps(s: State, k: nat)
    requires Safe(s) && k < |s.host.processes| && s.host.processes[k].exited && !s.host.processes[k].closed
    ensures Safe(ClosedAt(s, k)) && Advances(s, ClosedAt(s, k), None)
  {
    var b := BrokenAt(s, k);
    BrokenKeeps(s, k);
    BrokenProcesses(s, k);
    hide FailAt, BrokenAt;
    var t := ClosedAt(s, k);
    MarkClosed(b, t, k);
    SameRecordAfter(s, b, t);
  }

  lemma BrokenProcesses(s: State, k: nat)
    requires k < |s.host.processes| && s.host.processes[k].exited
    ensures BrokenAt(s, k).host.processes == s.host.processes && BrokenAt(s, k).child != Some(k)
  {
  }

  lemma BrokenKeeps(s: State, k: nat)
    requires Safe(s)
    ensures Safe(BrokenAt(s, k)) && Advances(s, BrokenAt(s, k), None)
  {
    hide Core, Advances, FailAt;
    SelfAdvances(s, None);
    CoreFails(s, WorkerExit);
  }

  lemma SameRecordAfter(s: State, b: State, t: State)
    requires Advances(s, b, None) && t.host.log == b.host.log && t.root == b.root && |t.host.processes| == |b.host.processes|
    ensures Advances(s, t, None)
  {
  }

  lemma MarkClosed(b: State, t: State, k: nat)
    requires Safe(b) && k < |b.host.processes| && b.host.processes[k].exited && !b.host.processes[k].closed && b.child != Some(k)
    requires t == b.(retiring := b.retiring && !b.host.processes[k].retired,
                     host := b.host.(processes := b.host.processes[k := b.host.processes[k].(closed := true)]))
    ensures Safe(t)
  {
    MarkClosedProcesses(b, t, k);
    RootedSame(b, t);
    hide Processes, Rooted;
    SentAccounted(b, t);
    hide Accounted;
  }

  lemma MarkClosedProcesses(b: State, t: State, k: nat)
    requires Processes(b) && k < |b.host.processes| && b.host.processes[k].exited && !b.host.processes[k].closed && b.child != Some(k)
    requires t == b.(retiring := b.retiring && !b.host.processes[k].retired,
                     host := b.host.(processes := b.host.processes[k := b.host.processes[k].(closed := true)]))
    ensures Processes(t)
  {
    forall i: nat
      ensures Running(t.host, i) == Running(b.host, i) && (Dying(t.host, i) <==> Dying(b.host, i) && i != k)
    {
    }
    assert b.host.processes[k].retired ==> Dying(b.host, k);
  }

  lemma FiredKeeps(s: State, t: State, fault: Fault)
    requires Safe(s) && t == s.(host := s.host.(timers := t.host.timers, listeners := t.host.listeners))
    requires t.host.timers <= s.host.timers && t.host.listeners <= s.host.listeners
    ensures Safe(FailAt(t, fault)) && Advances(s, FailAt(t, fault), None)
  {
    hide FailAt, Rooted;
    ProcessesFrom(s, t);
    RootedFrom(s, t);
    hide Processes;
    assert Waiting(t) == Waiting(s);
    SentAccounted(s, t);
    hide Accounted;
    FailKeeps(t, fault);
    FailAdvances(s, t, fault);
  }

  lemma DisposeKeeps(s: State)
    requires Safe(s)
    ensures Safe(DisposeAt(s)) && Advances(s, DisposeAt(s), None)
  {
    hide FailAt, Rooted;
    var t := s.(disposed := true);
    ProcessesFrom(s, t);
    RootedFrom(s, t);
    hide Processes;
    assert Waiting(t) == Waiting(s);
    SentAccounted(s, t);
    hide Accounted;
    FailKeeps(t, WorkerClosed);
    FailAdvances(s, t, WorkerClosed);
  }

  /** Every legal event keeps the client safe, and delivers replies only from the process that was current. */
  lemma StepKeeps(c: Codec, s: State, event: Event)
    requires Safe(s) && Legal(s, event)
    ensures Safe(StepAt(c, s, event)) && Advances(s, StepAt(c, s, event), s.child)
  {
    hide Core, Resting, OpenAt, SearchAt, DataAt, BrokenAt, ExitedAt, ClosedAt, FailAt, DisposeAt, Advances;
    var t := StepAt(c, s, event);
    match event
    case Open => OpenKeeps(s); AdvancesWeaken(s, t, s.child);
    case Search(input, signal, remaining) => SearchKeeps(s, input, signal, remaining); AdvancesWeaken(s, t, s.child);
    case Data(k, data, clock) => DataKeeps(c, s, k, data, clock);
    case Broken(k) => BrokenKeeps(s, k); AdvancesWeaken(s, t, s.child);
    case Exited(k) => ExitedKeeps(s, k); AdvancesWeaken(s, t, s.child);
    case Closed(k) => ClosedKeeps(s, k); AdvancesWeaken(s, t, s.child);
    case TimerFired(p) =>
      FiredKeeps(s, s.(host := s.host.(timers := s.host.timers - {p})), DeadlinePassed);
      AdvancesWeaken(s, t, s.child);
    case Aborted(p) =>
      FiredKeeps(s, s.(host := s.host.(listeners := s.host.listeners - {p})), Cancelled);
      AdvancesWeaken(s, t, s.child);
    case Dispose => DisposeKeeps(s); AdvancesWeaken(s, t, s.child);
  }
}
