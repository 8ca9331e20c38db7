/** What becomes of registry calls: each is answered by the worker it was put to, and no registration waits in vain. */
module RegistryCalls {
  import opened Basics
  import opened Service
  import opened Registry
  import opened RegistryProofs
  import Client
  import ClientSafety
  import Policies
  import Protocol

  // ---- Workers only go on ---------------------------------------------------------------------------------

  /** What was answered since answers the request that was outstanding. */
  ghost predicate Replies(c: Client.Codec, a: Client.State, b: Client.State) {
    && a.host.log <= b.host.log
    && forall i :: |a.host.log| <= i < |b.host.log| && b.host.log[i].outcome.Replied? ==>
         && a.pending.Some? && b.host.log[i].promise == a.pending.value.promise
         && ReplyTo(c, a.pending.value.request, b.host.log[i].outcome.reply)
  }

  /** Some frame is this reply to the request. */
  ghost predicate ReplyTo(c: Client.Codec, r: Protocol.Request, reply: Client.Reply) {
    exists frame :: c.reply(frame, r) == Some(reply)
  }

  /** Promises and settlements only accumulate, and an outstanding request is an old one or serves a new promise. */
  ghost predicate Moves(c: Client.Codec, a: Client.State, b: Client.State) {
    && a.host.promises <= b.host.promises && Replies(c, a, b)
    && (b.pending.Some? ==> b.pending == a.pending || b.pending.value.promise >= a.host.promises)
  }

  /** Moving on without a new promise. */
  ghost predicate Stays(c: Client.Codec, a: Client.State, b: Client.State) {
    && a.host.promises == b.host.promises && Replies(c, a, b)
    && (b.pending.Some? ==> b.pending == a.pending)
  }

  /** Moving on without a new promise or a reply. */
  ghost predicate Quiet(a: Client.State, b: Client.State) {
    && a.host.promises == b.host.promises && a.host.log <= b.host.log
    && (forall i :: |a.host.log| <= i < |b.host.log| ==> !b.host.log[i].outcome.Replied?)
    && (b.pending.Some? ==> b.pending == a.pending)
  }

  lemma QuietStays(c: Client.Codec, a: Client.State, b: Client.State)
    requires Quiet(a, b)
    ensures Stays(c, a, b)
  {
    hide ReplyTo;
  }

  lemma FailQuiet(w: Client.State, fault: Client.Fault)
    ensures Quiet(w, Client.FailAt(w, fault))
  {
  }

  lemma SendQuiet(w: Client.State, remaining: int)
    ensures Quiet(w, Client.SendAt(w, remaining))
  {
    hide Client.FailAt;
    FailQuiet(w, Client.DeadlinePassed);
  }

  lemma GreetedQuiet(w: Client.State, k: nat, identity: Client.Identity, remaining: int)
    requires k < |w.host.processes|
    ensures Quiet(w, Client.SendAt(Client.Greeted(w, k, identity), remaining))
  {
    hide Client.SendAt;
    SendQuiet(Client.Greeted(w, k, identity), remaining);
  }

  lemma FailStays(c: Client.Codec, w: Client.State, fault: Client.Fault)
    ensures Stays(c, w, Client.FailAt(w, fault))
  {
    hide Client.FailAt, Stays;
    FailQuiet(w, fault);
    QuietStays(c, w, Client.FailAt(w, fault));
  }

  /** A reply is accepted for the request outstanding. */
  lemma ReplyStays(c: Client.Codec, w: Client.State, k: nat, frame: bytes, clock: Client.Clock)
    ensures Stays(c, w, Client.ReplyAt(c, w, k, frame, clock).state)
  {
    hide Client.FailAt;
    FailStays(c, w, Client.WorkerProtocol);
    FailStays(c, w, Client.DeadlinePassed);
    if w.pending.Some? && c.reply(frame, w.pending.value.request).Some? {
      assert ReplyTo(c, w.pending.value.request, c.reply(frame, w.pending.value.request).value);
    }
    hide ReplyTo;
  }

  lemma HandleStays(c: Client.Codec, w: Client.State, k: nat, frame: bytes, clock: Client.Clock)
    requires k < |w.host.processes|
    ensures Stays(c, w, Client.HandleAt(c, w, k, frame, clock).state)
  {
    hide Client.FailAt, Client.SendAt, Client.Greeted, Stays;
    if w.ready {
      ReplyStays(c, w, k, frame, clock);
    } else {
      FailStays(c, w, Client.WorkerProtocol);
      FailStays(c, w, Client.RootChanged);
      if c.hello(frame).Some? {
        var identity := c.hello(frame).value.identity;
        GreetedQuiet(w, k, identity, clock.remaining);
        QuietStays(c, w, Client.SendAt(Client.Greeted(w, k, identity), clock.remaining));
      }
    }
  }

  lemma {:induction false} ConsumeStays(c: Client.Codec, w: Client.State, k: nat, clock: Client.Clock)
    requires k < |w.host.processes|
    ensures Stays(c, w, Client.ConsumeAt(c, w, k, clock))
    decreases |w.input|
  {
    hide Client.FailAt, Client.HandleAt, ReplyTo;
    FailStays(c, w, Client.WorkerProtocol);
    if |w.input| >= Client.HEADER {
      var size := Client.Announced(w.input);
      if 0 < size <= Protocol.FRAME_CAP && |w.input| >= size + Client.HEADER {
        var t := w.(input := w.input[size + Client.HEADER..]);
        var frame := w.input[Client.HEADER..size + Client.HEADER];
        HandleStays(c, t, k, frame, clock);
        var h := Client.HandleAt(c, t, k, frame, clock);
        if !h.stop {
          ConsumeStays(c, h.state, k, clock);
        }
      }
    }
  }

  lemma DisposeStays(c: Client.Codec, w: Client.State)
    ensures Stays(c, w, Client.DisposeAt(w))
  {
    FailStays(c, w.(disposed := true), Client.WorkerClosed);
    hide Client.FailAt;
  }

  lemma DisposeMoves(c: Client.Codec, w: Client.State)
    ensures Moves(c, w, Client.DisposeAt(w))
  {
    hide Client.DisposeAt, Replies;
    DisposeStays(c, w);
  }

  /** Two states with the same promises, settlements and outstanding request. */
  predicate Alike(a: Client.State, b: Client.State) {
    a.host.promises == b.host.promises && a.host.log == b.host.log && a.pending == b.pending
  }

  lemma StaysAlike(c: Client.Codec, a: Client.State, u: Client.State, v: Client.State, b: Client.State)
    requires Alike(a, u) && Stays(c, u, v) && Alike(v, b)
    ensures Stays(c, a, b)
  {
    hide ReplyTo;
  }

  lemma SelfStays(c: Client.Codec, w: Client.State)
    ensures Stays(c, w, w)
  {
    hide ReplyTo;
  }

  lemma EventStays(c: Client.Codec, w: Client.State, event: Client.Event)
    requires Client.Legal(w, event) && !event.Open? && !event.Search?
    ensures Stays(c, w, Client.StepAt(c, w, event))
  {
    hide Client.FailAt, Client.ConsumeAt, Client.DisposeAt, Stays;
    var t := Client.StepAt(c, w, event);
    SelfStays(c, w);
    FailStays(c, w, Client.WorkerProtocol);
    FailStays(c, w, Client.WorkerExit);
    match event
    case Data(k, data, clock) =>
      var u := w.(input := w.input + data);
      ConsumeStays(c, u, k, clock);
      StaysAlike(c, w, u, Client.ConsumeAt(c, u, k, clock), Client.ConsumeAt(c, u, k, clock));
    case Broken(k) =>
    case Exited(k) => StaysAlike(c, w, w, w, t);
    case Closed(k) => StaysAlike(c, w, w, Client.BrokenAt(w, k), t);
    case TimerFired(p) =>
      var u := w.(host := w.host.(timers := w.host.timers - {p}));
      FailStays(c, u, Client.DeadlinePassed);
      StaysAlike(c, w, u, t, t);
    case Aborted(p) =>
      var u := w.(host := w.host.(listeners := w.host.listeners - {p}));
      FailStays(c, u, Client.Cancelled);
      StaysAlike(c, w, u, t, t);
    case Dispose => DisposeStays(c, w);
  }

  /** A search takes the next promise, answers nothing, and while it waits the outstanding request is the one asked for. */
  ghost predicate Takes(c: Client.Codec, a: Client.State, b: Client.State, request: Protocol.Request) {
    && Moves(c, a, b) && b.host.promises == a.host.promises + 1
    && (forall i :: |a.host.log| <= i < |b.host.log| ==> !b.host.log[i].outcome.Replied?)
    && (b.pending.Some? && b.pending.value.promise == a.host.promises ==> Bears(b.pending.value.request, request))
  }

  /** The request asked for, under the version and number the client gives it. */
  predicate Bears(r: Protocol.Request, request: Protocol.Request) { r == request.(v := r.v, id := r.id) }

  lemma ImmediateTakes(c: Client.Codec, w: Client.State, fault: Client.Fault, request: Protocol.Request)
    requires w.pending.Some? ==> w.pending.value.promise < w.host.promises
    ensures Takes(c, w, Client.Immediate(w, Client.Rejected(fault)), request)
  {
    hide ReplyTo;
  }

  lemma IssuedTakes(c: Client.Codec, w: Client.State, input: Protocol.Request, listens: bool, t: Client.State)
    requires Quiet(Client.IssuedAt(w, input, listens), t)
    ensures Takes(c, w, t, input)
  {
    hide Client.RequestId, ReplyTo;
  }

  lemma StartQuiet(w: Client.State)
    ensures Quiet(w, Client.StartAt(w)) && Quiet(w, w)
  {
  }

  lemma SearchTakes(c: Client.Codec, w: Client.State, request: Protocol.Request, signal: Client.Signal, remaining: int)
    requires w.pending.Some? ==> w.pending.value.promise < w.host.promises
    ensures Takes(c, w, Client.SearchAt(w, request, signal, remaining), request)
  {
    hide Client.FailAt, Client.SendAt, Client.StartAt, Client.RequestId, Client.Immediate, Client.IssuedAt, Protocol.ClientAccepts,
      Takes, Quiet;
    if w.disposed || w.pending.Some? || w.opening.Some? || w.retiring || (signal.Present? && signal.aborted) || !Protocol.ClientAccepts(request) {
      forall fault
        ensures Takes(c, w, Client.Immediate(w, Client.Rejected(fault)), request)
      {
        ImmediateTakes(c, w, fault, request);
      }
    } else {
      var t := Client.IssuedAt(w, request, signal.Present?);
      FailQuiet(t, Client.Cancelled);
      StartQuiet(t);
      SendQuiet(t, remaining);
      IssuedTakes(c, w, request, signal.Present?, Client.SearchAt(w, request, signal, remaining));
    }
  }

  // ---- The registry only goes on -----------------------------------------------------------------------------

  /** The policy was compiled from an input a caller gave. */
  ghost predicate Created(policy: Policies.Policy) { exists input :: Policies.CreatePolicy(input) == Some(policy) }

  ghost predicate Onward(c: Client.Codec, s: State, t: State) {
    && |s.workers| <= |t.workers| && s.issued <= t.issued && s.calls <= t.calls
    && (forall w: nat :: w < |s.workers| ==> Moves(c, s.workers[w], t.workers[w]))
    && (forall x: nat :: x in t.tasks ==>
          if x in s.tasks then t.tasks[x].policy == s.tasks[x].policy else x >= s.issued && Created(t.tasks[x].policy))
    && (forall x: nat :: x in t.entries ==>
          (x in s.entries && t.entries[x] == s.entries[x]) || (x in s.tasks && t.entries[x].policy == s.tasks[x].policy))
  }

  ghost predicate AllCreated(s: State) {
    && (forall x :: x in s.tasks ==> Created(s.tasks[x].policy))
    && (forall x :: x in s.entries ==> Created(s.entries[x].policy))
  }

  lemma CreatedOnward(c: Client.Codec, s: State, t: State)
    requires AllCreated(s) && Onward(c, s, t)
    ensures AllCreated(t)
  {
    hide Created, Moves;
  }

  /** What the settlement of `promise` says, if it is a reply, answers the request put. */
  ghost predicate AnswersPut(c: Client.Codec, log: seq<Client.Settlement>, promise: nat, request: Protocol.Request) {
    forall x :: x in log && x.promise == promise && x.outcome.Replied? ==>
      exists r :: Bears(r, request) && ReplyTo(c, r, x.outcome.reply)
  }

  /**
   The call's id is spent and its request lies within its policy; its worker knows its promise, the request is the one
   outstanding while that waits, and what is replied answers it.
   */
  ghost predicate Filed(c: Client.Codec, s: State, call: Call) {
    call.Put? ==>
      && call.id < s.issued && call.id !in s.tasks
      && (call.id in s.entries ==> s.entries[call.id].policy == call.policy && s.entries[call.id].worker == call.worker)
      && Within(call.policy, call.request)
      && call.worker < |s.workers| && call.promise < s.workers[call.worker].host.promises
      && (var p := s.workers[call.worker].pending; p.Some? && p.value.promise == call.promise ==> Bears(p.value.request, call.request))
      && AnswersPut(c, s.workers[call.worker].host.log, call.promise, call.request)
  }

  /** The call was put to a workspace still registered. */
  predicate Registered(s: State, call: Call) { call.Put? ==> call.id in s.entries }

  /** The policy was created, and the request searches under its size limit and some narrowing of its scope. */
  ghost predicate Within(policy: Policies.Policy, r: Protocol.Request) {
    && Created(policy) && r.maxFileBytes == policy.maxFileBytes && !r.validateScopeOnly
    && exists n :: Policies.NarrowPolicy(policy, n) == Some(r.scope)
  }

  ghost predicate AllFiled(c: Client.Codec, s: State) { forall call :: call in s.calls ==> Filed(c, s, call) }

  /** A registration that waits for a promise waits for one its worker has issued. */
  predicate PhasePromised(s: State, phase: Phase) {
    phase.Greeting? || phase.Validating? ==> phase.worker < |s.workers| && phase.promise < s.workers[phase.worker].host.promises
  }

  ghost predicate Promised(s: State) { forall x :: x in s.tasks ==> PhasePromised(s, s.tasks[x].phase) }

  lemma AnswersOnward(c: Client.Codec, a: Client.State, b: Client.State, promise: nat, request: Protocol.Request)
    requires Moves(c, a, b) && AnswersPut(c, a.host.log, promise, request)
    requires a.pending.Some? && a.pending.value.promise == promise ==> Bears(a.pending.value.request, request)
    ensures AnswersPut(c, b.host.log, promise, request)
  {
    hide Bears, ReplyTo;
    forall x | x in b.host.log && x.promise == promise && x.outcome.Replied?
      ensures exists r :: Bears(r, request) && ReplyTo(c, r, x.outcome.reply)
    {
      var i :| 0 <= i < |b.host.log| && b.host.log[i] == x;
      if i < |a.host.log| {
        assert x == a.host.log[i];
      }
    }
  }

  lemma FiledOnward(c: Client.Codec, s: State, t: State)
    requires AllFiled(c, s) && Onward(c, s, t)
    requires forall call :: call in t.calls && call !in s.calls ==> Filed(c, t, call)
    ensures AllFiled(c, t)
  {
    hide Within, Bears, AnswersPut, Created, Replies;
    forall call | call in s.calls
      ensures Filed(c, t, call)
    {
      assert Filed(c, s, call);
      if call.Put? {
        assert Moves(c, s.workers[call.worker], t.workers[call.worker]);
        AnswersOnward(c, s.workers[call.worker], t.workers[call.worker], call.promise, call.request);
      }
    }
  }

  lemma PhaseOnward(c: Client.Codec, s: State, t: State, phase: Phase)
    requires PhasePromised(s, phase) && Onward(c, s, t)
    ensures PhasePromised(t, phase)
  {
    hide Created, Replies;
    if phase.Greeting? || phase.Validating? {
      assert Moves(c, s.workers[phase.worker], t.workers[phase.worker]);
    }
  }

  /** Tasks that stay in the phase they were in keep waiting for promises that exist; a rephased one is looked at. */
  lemma PromisedOnward(c: Client.Codec, s: State, t: State, id: nat)
    requires Promised(s) && Onward(c, s, t)
    requires forall x :: x in t.tasks && x != id ==> x in s.tasks && t.tasks[x].phase == s.tasks[x].phase
    requires id in t.tasks ==> PhasePromised(t, t.tasks[id].phase)
    ensures Promised(t)
  {
    hide Onward, PhasePromised;
    forall x | x in t.tasks && x != id
      ensures PhasePromised(t, t.tasks[x].phase)
    {
      PhaseOnward(c, s, t, s.tasks[x].phase);
    }
  }

  lemma SteadyPromised(c: Client.Codec, s: State, t: State)
    requires Promised(s) && Onward(c, s, t)
    requires forall x :: x in t.tasks ==> x in s.tasks && t.tasks[x].phase == s.tasks[x].phase
    ensures Promised(t)
  {
    hide Onward, PhasePromised;
    if 0 in t.tasks {
      PhaseOnward(c, s, t, s.tasks[0].phase);
    }
    PromisedOnward(c, s, t, 0);
  }

  lemma UnwindOnward(c: Client.Codec, s: State, id: nat, fault: WorkspaceFault)
    requires id in s.tasks && PhaseOk(s, s.tasks[id].phase) && Promised(s)
    ensures Onward(c, s, UnwindAt(s, id, fault)) && Promised(UnwindAt(s, id, fault)) && UnwindAt(s, id, fault).calls == s.calls
  {
    hide Client.DisposeAt, Moves, Created, Promised;
    MovesAll(c, s);
    forall w: nat | w < |s.workers|
      ensures Moves(c, s.workers[w], Client.DisposeAt(s.workers[w]))
    {
      DisposeMoves(c, s.workers[w]);
    }
    assert Onward(c, s, UnwindAt(s, id, fault));
    PromisedOnward(c, s, UnwindAt(s, id, fault), id);
  }

  /** Nothing but a registration's phase changes. */
  lemma RephasedOnward(c: Client.Codec, s: State, t: State, id: nat)
    requires Promised(s) && id in s.tasks && id in t.tasks && t.tasks == s.tasks[id := t.tasks[id]] && t.entries == s.entries
    requires t.workers == s.workers && t.issued == s.issued && t.calls == s.calls
    requires t.tasks[id].policy == s.tasks[id].policy && !t.tasks[id].phase.Greeting? && !t.tasks[id].phase.Validating?
    ensures Onward(c, s, t) && Promised(t)
  {
    assert Onward(c, s, t);
    PromisedOnward(c, s, t, id);
  }

  lemma BeginOnward(c: Client.Codec, s: State, rootOk: bool, policy: Option<Policies.Policy>)
    requires Promised(s) && s.issued !in s.tasks && (policy.Some? ==> Created(policy.value))
    ensures Onward(c, s, BeginAt(s, rootOk, policy)) && Promised(BeginAt(s, rootOk, policy)) && BeginAt(s, rootOk, policy).calls == s.calls
  {
    assert Onward(c, s, BeginAt(s, rootOk, policy));
    PromisedOnward(c, s, BeginAt(s, rootOk, policy), s.issued);
  }

  lemma CompiledCreated(input: Option<Policies.PolicyInput>)
    ensures Compiled(input).Some? ==> Created(Compiled(input).value)
  {
    hide Policies.CreatePolicy;
  }

  lemma ResolvedOnward(c: Client.Codec, s: State, id: nat, ok: bool)
    requires Promised(s) && id in s.tasks && s.tasks[id].phase.Resolving?
    ensures var t := ResolvedAt(s, id, ok); Onward(c, s, t) && Promised(t) && t.calls == s.calls
  {
    hide Onward, Promised, UnwindAt;
    UnwindOnward(c, s, id, WorkspaceUnavailable);
    if ok {
      RephasedOnward(c, s, ResolvedAt(s, id, ok), id);
    }
  }

  lemma LeasedOnward(c: Client.Codec, s: State, id: nat, ok: bool)
    requires Promised(s) && id in s.tasks && s.tasks[id].phase.Leasing?
    ensures var t := LeasedAt(s, id, ok); Onward(c, s, t) && Promised(t) && t.calls == s.calls
  {
    hide Onward, Promised, UnwindAt;
    UnwindOnward(c, s, id, WorkspaceUnavailable);
    if ok {
      RephasedOnward(c, s, LeasedAt(s, id, ok), id);
    }
  }

  lemma FirstPromise(identity: Client.Identity)
    ensures Client.OpenAt(Client.Initial(Some(identity))).host.promises == 1
  {
  }

  lemma InspectedOnward(c: Client.Codec, s: State, id: nat, stat: Option<Stat>)
    requires Promised(s) && id in s.tasks && s.tasks[id].phase.Inspecting? && PhaseOk(s, s.tasks[id].phase)
    ensures var t := InspectedAt(s, id, stat); Onward(c, s, t) && Promised(t) && t.calls == s.calls
  {
    if stat.None? || !stat.value.directory {
      UnwindOnward(c, s, id, WorkspaceUnavailable);
    } else if s.closed {
      UnwindOnward(c, s, id, RegistryClosed);
    } else {
      FirstPromise(stat.value.identity);
      hide Client.OpenAt, Client.Initial, UnwindAt;
      var t := InspectedAt(s, id, stat);
      assert forall w: nat :: w < |s.workers| ==> t.workers[w] == s.workers[w];
      assert Onward(c, s, t);
      PromisedOnward(c, s, t, id);
    }
  }

  lemma WorkerOnward(c: Client.Codec, s: State, t: State, w: nat)
    requires w < |s.workers| && |t.workers| == |s.workers| && Moves(c, s.workers[w], t.workers[w])
    requires forall i: nat :: i < |s.workers| && i != w ==> t.workers[i] == s.workers[i]
    requires t.issued == s.issued && s.calls <= t.calls && t.entries == s.entries
    requires forall x :: x in t.tasks ==> x in s.tasks && t.tasks[x].policy == s.tasks[x].policy
    ensures Onward(c, s, t)
  {
  }

  lemma GreetedOnward(c: Client.Codec, s: State, id: nat, check: Ask)
    requires Promised(s) && id in s.tasks && s.tasks[id].phase.Greeting? && PhaseOk(s, s.tasks[id].phase)
    requires Settled(s, s.tasks[id].phase.worker, s.tasks[id].phase.promise)
    requires ClientSafety.Safe(s.workers[s.tasks[id].phase.worker])
    ensures var t := GreetedAt(s, id, check); Onward(c, s, t) && Promised(t) && t.calls == s.calls
  {
    hide Awaited;
    var phase := s.tasks[id].phase;
    if Awaited(s.workers[phase.worker].host.log, phase.promise) != Some(Client.Opened) {
      UnwindOnward(c, s, id, WorkspaceUnavailable);
    } else {
      var t := GreetedAt(s, id, check);
      var request := Authorised(s.tasks[id].policy, check.request, Policies.UNNARROWED, true);
      PendingIssued(s.workers[phase.worker]);
      SearchTakes(c, s.workers[phase.worker], request, Client.Absent, check.remaining);
      hide Client.SearchAt, Authorised, Moves, Bears, UnwindAt, ClientSafety.Safe;
      WorkerOnward(c, s, t, phase.worker);
      PromisedOnward(c, s, t, id);
    }
  }

  lemma PendingIssued(w: Client.State)
    requires ClientSafety.Safe(w)
    ensures w.pending.Some? ==> w.pending.value.promise < w.host.promises
  {
    hide ClientSafety.Processes, ClientSafety.Engaged, ClientSafety.Armed, ClientSafety.Ledger, ClientSafety.Written,
      ClientSafety.Rooted, ClientSafety.Resting;
    assert w.pending.Some? ==> w.pending.value.promise in ClientSafety.Waiting(w);
  }

  lemma ValidatedOnward(c: Client.Codec, s: State, id: nat)
    requires Promised(s) && id in s.tasks && s.tasks[id].phase.Validating? && PhaseOk(s, s.tasks[id].phase)
    requires Settled(s, s.tasks[id].phase.worker, s.tasks[id].phase.promise)
    ensures var t := ValidatedAt(s, id); Onward(c, s, t) && Promised(t) && t.calls == s.calls
  {
    hide Awaited;
    var phase := s.tasks[id].phase;
    var outcome := Awaited(s.workers[phase.worker].host.log, phase.promise).value;
    if outcome.Replied? && outcome.reply.Answered? && !s.closed {
      assert Onward(c, s, ValidatedAt(s, id));
      PromisedOnward(c, s, ValidatedAt(s, id), id);
    } else {
      hide UnwindAt, Onward, Promised;
      UnwindOnward(c, s, id, RegistryClosed);
      UnwindOnward(c, s, id, BadWorkspaceRequest);
      UnwindOnward(c, s, id, WorkspaceUnavailable);
    }
  }

  lemma UnwoundOnward(c: Client.Codec, s: State, id: nat)
    requires Promised(s) && id in s.tasks && s.tasks[id].phase.Unwinding?
    ensures var t := UnwoundAt(s, id); Onward(c, s, t) && Promised(t) && t.calls == s.calls
  {
    assert Onward(c, s, UnwoundAt(s, id));
    PromisedOnward(c, s, UnwoundAt(s, id), id);
  }

  lemma CloseOnward(c: Client.Codec, s: State)
    requires Promised(s)
    ensures Onward(c, s, CloseAt(s)) && Promised(CloseAt(s)) && CloseAt(s).calls == s.calls
  {
    var t := CloseAt(s);
    CloseLength(s);
    forall w: nat | w < |s.workers|
      ensures Moves(c, s.workers[w], t.workers[w])
    {
      DisposeStays(c, s.workers[w]);
    }
    hide Client.DisposeAt, OwnedWorkers, OwnedLeases;
    assert Onward(c, s, t);
    SteadyPromised(c, s, t);
  }

  lemma UnregisterOnward(c: Client.Codec, s: State, id: nat)
    requires Promised(s) && EntriesOk(s)
    ensures var t := UnregisterAt(s, id);
            && Onward(c, s, t) && Promised(t) && forall call :: call in t.calls && call !in s.calls ==> Filed(c, t, call) && Registered(t, call)
  {
    if id !in s.entries {
      RefusedOnward(c, s, WorkspaceOutOfScope);
    } else {
      var t := UnregisterAt(s, id);
      DisposeStays(c, s.workers[s.entries[id].worker]);
      MovesAll(c, s);
      hide Client.DisposeAt, Moves;
      assert Onward(c, s, t);
      SteadyPromised(c, s, t);
    }
  }

  lemma MovesAll(c: Client.Codec, s: State)
    ensures forall w: nat :: w < |s.workers| ==> Moves(c, s.workers[w], s.workers[w])
  {
    hide ReplyTo;
  }

  lemma RefusedOnward(c: Client.Codec, s: State, fault: WorkspaceFault)
    requires Promised(s)
    ensures Onward(c, s, RefuseCall(s, fault)) && Promised(RefuseCall(s, fault))
  {
    assert Onward(c, s, RefuseCall(s, fault));
    SteadyPromised(c, s, RefuseCall(s, fault));
  }

  lemma QueryOnward(c: Client.Codec, s: State, id: nat, samePolicy: bool, wellFormed: bool, ask: Ask, signal: Client.Signal)
    requires Promised(s) && Orderly(s) && AllCreated(s) && EntriesOk(s)
    ensures var t := QueryAt(s, id, samePolicy, wellFormed, ask, signal);
            && Onward(c, s, t) && Promised(t)
            && (forall call :: call in t.calls && call !in s.calls ==> Filed(c, t, call) && Registered(t, call))
  {
    hide NarrowAcceptable, Orderly;
    var t := QueryAt(s, id, samePolicy, wellFormed, ask, signal);
    if t.workers == s.workers && t == RefuseCall(s, RegistryClosed) {
      RefusedOnward(c, s, RegistryClosed);
    } else if t == RefuseCall(s, BadWorkspaceRequest) {
      RefusedOnward(c, s, BadWorkspaceRequest);
    } else if t == RefuseCall(s, WorkspaceOutOfScope) {
      RefusedOnward(c, s, WorkspaceOutOfScope);
    } else {
      PutOnward(c, s, t, id, ask, signal);
    }
  }

  lemma PutOnward(c: Client.Codec, s: State, t: State, id: nat, ask: Ask, signal: Client.Signal)
    requires Promised(s) && Orderly(s) && AllCreated(s) && EntriesOk(s) && id in s.entries && NarrowAcceptable(ask.narrow)
    requires var e := s.entries[id];
             var request := Authorised(e.policy, ask.request, ask.narrow, false);
             t == WithWorker(s, e.worker, Client.SearchAt(s.workers[e.worker], request, signal, ask.remaining)).(
               calls := s.calls + [Put(id, e.policy, request, e.worker, s.workers[e.worker].host.promises)])
    ensures Onward(c, s, t) && Promised(t)
    ensures forall call :: call in t.calls && call !in s.calls ==> Filed(c, t, call) && Registered(t, call)
  {
    hide Client.SearchAt, Orderly, Policies.NarrowPolicy, Bears, ClientSafety.Safe, NarrowAcceptable, Promised, Moves, Takes,
      Filed, Onward, Created, Authorised, AllCreated;
    var e := s.entries[id];
    var w := s.workers[e.worker];
    var request := Authorised(e.policy, ask.request, ask.narrow, false);
    EntrySafe(s, id);
    PendingIssued(w);
    SearchTakes(c, w, request, signal, ask.remaining);
    TakesMoves(c, w, t.workers[e.worker], request);
    WorkerOnward(c, s, t, e.worker);
    SteadyPromised(c, s, t);
    EntryIsSpent(s, id);
    AuthorisedWithin(s, id, ask);
    PutFiled(c, s, t, Put(id, e.policy, request, e.worker, w.host.promises));
  }

  lemma EntrySafe(s: State, id: nat)
    requires Orderly(s) && EntriesOk(s) && id in s.entries
    ensures ClientSafety.Safe(s.workers[s.entries[id].worker])
  {
    hide LeasesOwned, WorkersOwned, Counted, ClientSafety.Safe;
    SafeWorker(s, s.entries[id].worker);
  }

  lemma TakesMoves(c: Client.Codec, a: Client.State, b: Client.State, request: Protocol.Request)
    requires Takes(c, a, b, request)
    ensures Moves(c, a, b)
  {
    hide Moves, Bears;
  }

  lemma AuthorisedWithin(s: State, id: nat, ask: Ask)
    requires AllCreated(s) && id in s.entries && NarrowAcceptable(ask.narrow)
    ensures Within(s.entries[id].policy, Authorised(s.entries[id].policy, ask.request, ask.narrow, false))
  {
    hide Created, Policies.PatternsAcceptable, Policies.Canonical;
    var policy := s.entries[id].policy;
    assert Policies.NarrowPolicy(policy, ask.narrow) == Some(Authorised(policy, ask.request, ask.narrow, false).scope);
  }

  /** The call just put is on file. */
  lemma PutFiled(c: Client.Codec, s: State, t: State, call: Call)
    requires call.Put? && t.calls == s.calls + [call] && call.id in s.entries && call.id < s.issued && call.id !in s.tasks
    requires t.entries == s.entries && t.tasks == s.tasks && t.issued == s.issued && |t.workers| == |s.workers|
    requires s.entries[call.id].policy == call.policy && s.entries[call.id].worker == call.worker && Within(call.policy, call.request)
    requires call.worker < |s.workers| && call.promise == s.workers[call.worker].host.promises
    requires ClientSafety.Safe(s.workers[call.worker]) && Takes(c, s.workers[call.worker], t.workers[call.worker], call.request)
    ensures forall x :: x in t.calls && x !in s.calls ==> Filed(c, t, x) && Registered(t, x)
  {
    hide Within, Bears, ReplyTo, ClientSafety.Safe;
    var a, b := s.workers[call.worker], t.workers[call.worker];
    LoggedBefore(a);
    assert forall i :: 0 <= i < |a.host.log| ==> b.host.log[i] == a.host.log[i];
    assert forall x :: x in b.host.log && x.promise == call.promise ==> !x.outcome.Replied?;
  }

  lemma LoggedBefore(w: Client.State)
    requires ClientSafety.Safe(w)
    ensures forall x :: x in w.host.log ==> x.promise < w.host.promises
  {
    hide ClientSafety.Processes, ClientSafety.Engaged, ClientSafety.Armed, ClientSafety.Ledger, ClientSafety.Written,
      ClientSafety.Rooted, ClientSafety.Resting, ClientSafety.Waiting;
  }

  lemma EntryIsSpent(s: State, id: nat)
    requires Orderly(s) && id in s.entries
    ensures id < s.issued && id !in s.tasks
  {
    hide LeasesOwned, WorkersOwned, Pinned;
  }

  lemma WorkerEventOnward(c: Client.Codec, s: State, w: nat, event: Client.Event)
    requires Promised(s) && Legal(s, WorkerEvent(w, event))
    ensures var t := WithWorker(s, w, Client.StepAt(c, s.workers[w], event));
            Onward(c, s, t) && Promised(t) && t.calls == s.calls
  {
    EventStays(c, s.workers[w], event);
    hide Client.StepAt, Client.Legal;
    var t := WithWorker(s, w, Client.StepAt(c, s.workers[w], event));
    WorkerOnward(c, s, t, w);
    SteadyPromised(c, s, t);
  }

  lemma NextIsNew(s: State)
    requires Orderly(s)
    ensures s.issued !in s.tasks
  {
    hide LeasesOwned, WorkersOwned, Pinned;
  }

  lemma StepOnward(c: Client.Codec, s: State, e: Event)
    requires Orderly(s) && Promised(s) && AllCreated(s) && Legal(s, e)
    ensures var t := StepAt(c, s, e);
            && Onward(c, s, t) && Promised(t)
            && (forall call :: call in t.calls && call !in s.calls ==> Filed(c, t, call) && Registered(t, call))
  {
    hide Orderly, Promised, Onward, Filed, AllCreated, BeginAt, ResolvedAt, LeasedAt, InspectedAt, GreetedAt, ValidatedAt, UnwoundAt, QueryAt,
      CloseAt, UnregisterAt, WithWorker, Awaited, Client.Legal, Client.StepAt, ClientSafety.Safe, Created, Compiled;
    OrderlyWorkers(s);
    match e
    case Begin(rootOk, input) =>
      NextIsNew(s);
      CompiledCreated(input);
      BeginOnward(c, s, rootOk, Compiled(input));
    case Resolved(id, ok) => ResolvedOnward(c, s, id, ok);
    case Leased(id, ok) => LeasedOnward(c, s, id, ok);
    case Inspected(id, stat) => InspectedOnward(c, s, id, stat);
    case Greeted(id, check) => GreetedOnward(c, s, id, check);
    case Validated(id) => ValidatedOnward(c, s, id);
    case Unwound(id) => UnwoundOnward(c, s, id);
    case Query(id, samePolicy, wellFormed, ask, signal) => QueryOnward(c, s, id, samePolicy, wellFormed, ask, signal);
    case Unregister(id) => UnregisterOnward(c, s, id);
    case Close => CloseOnward(c, s);
    case WorkerEvent(w, event) => WorkerEventOnward(c, s, w, event);
  }

  /** The settlements only accumulate, and so does the record of calls. */
  ghost predicate Later(s: State, t: State) {
    && s.calls <= t.calls && |s.workers| <= |t.workers|
    && forall w: nat :: w < |s.workers| ==> s.workers[w].host.log <= t.workers[w].host.log
  }

  lemma OnwardLater(c: Client.Codec, s: State, t: State, u: State)
    requires Onward(c, s, t) && Later(t, u)
    ensures Later(s, u)
  {
    assert forall w: nat :: w < |s.workers| ==> Moves(c, s.workers[w], t.workers[w]);
  }

  lemma {:induction false} RunFiled(c: Client.Codec, s: State, events: seq<Event>)
    requires Orderly(s) && Promised(s) && AllCreated(s) && AllFiled(c, s) && LegalRun(c, s, events)
    ensures var t := RunAll(c, s, events);
            Orderly(t) && Promised(t) && AllCreated(t) && AllFiled(c, t) && Later(s, t)
    decreases |events|
  {
    hide Orderly, Promised, AllFiled, AllCreated, StepAt, Legal, Filed, Onward;
    if |events| > 0 {
      StepKeeps(c, s, events[0]);
      StepOnward(c, s, events[0]);
      var t := StepAt(c, s, events[0]);
      FiledOnward(c, s, t);
      CreatedOnward(c, s, t);
      RunFiled(c, t, events[1..]);
      OnwardLater(c, s, t, RunAll(c, t, events[1..]));
    }
  }

  lemma EmptyFiled(c: Client.Codec)
    ensures Orderly(EMPTY) && Promised(EMPTY) && AllCreated(EMPTY) && AllFiled(c, EMPTY)
  {
    EmptyOrderly();
  }

  // ---- Calls ------------------------------------------------------------------------------------------------------

  /** The promise waits at the worker with its timer armed, or has been settled, once. */
  ghost predicate WaitsOrSettled(w: Client.State, p: nat) {
    if p in ClientSafety.Waiting(w) then p in w.host.timers && Awaited(w.host.log, p).None? else Awaited(w.host.log, p).Some?
  }

  lemma {:induction false} AwaitedIff(log: seq<Client.Settlement>, p: nat)
    ensures Awaited(log, p).Some? <==> exists x :: x in log && x.promise == p
    ensures Awaited(log, p).Some? ==> Client.Settlement(p, Awaited(log, p).value) in log
  {
    if |log| > 0 {
      var n := |log| - 1;
      AwaitedIff(log[..n], p);
      assert log == log[..n] + [log[n]];
    }
  }

  lemma IssuedWaitsOrSettled(w: Client.State, p: nat)
    requires ClientSafety.Safe(w) && p < w.host.promises
    ensures WaitsOrSettled(w, p)
  {
    hide ClientSafety.Processes, ClientSafety.Engaged, ClientSafety.Ledger, ClientSafety.Written, ClientSafety.Rooted,
      ClientSafety.Resting;
    AwaitedIff(w.host.log, p);
    hide Awaited, ClientSafety.Waiting;
  }

  /** A settlement is never taken back. */
  lemma AwaitedLasts(a: seq<Client.Settlement>, w: Client.State, p: nat)
    requires ClientSafety.Safe(w) && a <= w.host.log && Awaited(a, p).Some?
    ensures Awaited(w.host.log, p) == Awaited(a, p)
  {
    hide ClientSafety.Processes, ClientSafety.Engaged, ClientSafety.Ledger, ClientSafety.Written, ClientSafety.Rooted,
      ClientSafety.Resting, ClientSafety.Armed, ClientSafety.Waiting;
    AwaitedIff(a, p);
    AwaitedIff(w.host.log, p);
    hide Awaited;
    var x := Client.Settlement(p, Awaited(a, p).value);
    var y := Client.Settlement(p, Awaited(w.host.log, p).value);
    var i :| 0 <= i < |a| && a[i] == x;
    assert w.host.log[i] == x;
    var k :| 0 <= k < |w.host.log| && w.host.log[k] == y;
    assert i == k;
  }

  /**
   After any run, a call that was not refused has a scope that narrows the policy it names, which is the workspace's own
   as long as that is registered. Its answer is a promise of that workspace's worker: it waits with its timer armed, its
   request bearing that scope while outstanding, or it is settled; once settled it stays as it is in every later run;
   and a reply comes from a process that greeted with the worker's pinned root.
   */
  lemma CallsAreAnswered(c: Client.Codec, before: seq<Event>, after: seq<Event>, call: Call)
    requires LegalRun(c, EMPTY, before) && call in RunAll(c, EMPTY, before).calls && call.Put?
    requires LegalRun(c, RunAll(c, EMPTY, before), after)
    ensures var s := RunAll(c, EMPTY, before);
            var t := RunAll(c, s, after);
            && Filed(c, s, call) && call in t.calls && Filed(c, t, call)
            && WaitsOrSettled(s.workers[call.worker], call.promise)
            && (var outcome := Awaited(s.workers[call.worker].host.log, call.promise);
                outcome.Some? ==>
                  && Awaited(t.workers[call.worker].host.log, call.promise) == outcome
                  && (outcome.value.Replied? ==>
                        && outcome.value.child < |s.workers[call.worker].host.processes|
                        && s.workers[call.worker].root.Some?
                        && s.workers[call.worker].host.processes[outcome.value.child].greeted == s.workers[call.worker].root))
  {
    EmptyFiled(c);
    hide Orderly, RunAll, LegalRun, Promised, Bears;
    RunFiled(c, EMPTY, before);
    var s := RunAll(c, EMPTY, before);
    RunFiled(c, s, after);
    var t := RunAll(c, s, after);
    assert Filed(c, s, call);
    assert call in t.calls;
    OrderlyWorkers(s);
    OrderlyWorkers(t);
    hide ClientSafety.Safe, Filed;
    var w := s.workers[call.worker];
    IssuedWaitsOrSettled(w, call.promise);
    hide WaitsOrSettled;
    if Awaited(w.host.log, call.promise).Some? {
      AwaitedLasts(w.host.log, t.workers[call.worker], call.promise);
      AwaitedIff(w.host.log, call.promise);
      RepliesRooted(w);
    }
  }

  // ---- Callers and registrations are never stuck ---------------------------------------------------------------------

  /** The registration can go on, whatever it is told; or it waits for its worker, whose timer for that promise is armed. */
  ghost predicate CanGoOn(s: State, id: nat)
    requires id in s.tasks
  {
    match s.tasks[id].phase
    case Resolving => forall ok :: Legal(s, Resolved(id, ok))
    case Leasing => forall ok :: Legal(s, Leased(id, ok))
    case Inspecting(_) => forall stat :: Legal(s, Inspected(id, stat))
    case Greeting(_, w, p) => w < |s.workers| && WaitsOrSettled(s.workers[w], p) && (Settled(s, w, p) ==> forall check :: Legal(s, Greeted(id, check)))
    case Validating(_, w, p) => w < |s.workers| && WaitsOrSettled(s.workers[w], p) && (Settled(s, w, p) ==> Legal(s, Validated(id)))
    case Unwinding(_) => Legal(s, Unwound(id))
  }

  lemma WaitsForPromise(s: State, id: nat)
    requires Orderly(s) && Promised(s) && id in s.tasks
    requires s.tasks[id].phase.Greeting? || s.tasks[id].phase.Validating?
    ensures s.tasks[id].phase.worker < |s.workers|
    ensures WaitsOrSettled(s.workers[s.tasks[id].phase.worker], s.tasks[id].phase.promise)
  {
    hide Orderly, ClientSafety.Safe, WaitsOrSettled;
    OrderlyWorkers(s);
    IssuedWaitsOrSettled(s.workers[s.tasks[id].phase.worker], s.tasks[id].phase.promise);
  }

  lemma TaskCanGoOn(s: State, id: nat)
    requires Orderly(s) && Promised(s) && id in s.tasks
    ensures CanGoOn(s, id)
  {
    hide Orderly, Promised, WaitsOrSettled, EntriesOk, Apart, Awaited;
    OrderlyPoints(s);
    assert PhaseOk(s, s.tasks[id].phase);
    if s.tasks[id].phase.Greeting? || s.tasks[id].phase.Validating? {
      WaitsForPromise(s, id);
    }
  }

  /**
   At every await point of any interleaving, callers may search, unregister or close, no two entries share a worker or
   lease, and every registration in flight can go on or waits for a promise whose timer is armed.
   */
  lemma NothingIsStuck(c: Client.Codec, events: seq<Event>)
    requires LegalRun(c, EMPTY, events)
    ensures var s := RunAll(c, EMPTY, events);
            && Apart(s.entries) && Legal(s, Close)
            && (forall id :: Legal(s, Unregister(id)))
            && (forall id, samePolicy, wellFormed, ask, signal :: Legal(s, Query(id, samePolicy, wellFormed, ask, signal)))
            && (forall id :: id in s.tasks ==> CanGoOn(s, id))
  {
    hide RunAll, LegalRun, Orderly, AllFiled, AllCreated, Promised, CanGoOn, EntriesOk, Apart, PhaseOk;
    EmptyFiled(c);
    RunFiled(c, EMPTY, events);
    var s := RunAll(c, EMPTY, events);
    OrderlyPoints(s);
    CallersMayCall(s);
    forall id | id in s.tasks
      ensures CanGoOn(s, id)
    {
      TaskCanGoOn(s, id);
    }
  }

  lemma CallersMayCall(s: State)
    requires EntriesOk(s)
    ensures Legal(s, Close) && (forall id :: Legal(s, Unregister(id)))
    ensures forall id, samePolicy, wellFormed, ask, signal :: Legal(s, Query(id, samePolicy, wellFormed, ask, signal))
  {
    hide EntriesOk;
  }
}
