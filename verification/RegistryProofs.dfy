/** Registry lifecycle: capacity, closing, ownership of workers and leases, and pinned root identity. */
module RegistryProofs {
  import opened Basics
  import opened Service
  import opened Registry
  import Client
  import ClientSafety
  import Policies
  import Protocol

  // ---- Ownership ------------------------------------------------------------------------------------------

  function PhaseLease(p: Phase): Option<nat> {
    match p
    case Inspecting(l) => Some(l)
    case Greeting(l, _, _) => Some(l)
    case Validating(l, _, _) => Some(l)
    case _ => None
  }

  function PhaseWorker(p: Phase): Option<nat> {
    match p
    case Greeting(_, w, _) => Some(w)
    case Validating(_, w, _) => Some(w)
    case _ => None
  }

  /** The lease and worker held under an id, by an entry or by a registration in flight. */
  function LeaseOf(s: State, id: nat): Option<nat> {
    if id in s.entries then Some(s.entries[id].lease)
    else if id in s.tasks then PhaseLease(s.tasks[id].phase)
    else None
  }

  function WorkerOf(s: State, id: nat): Option<nat> {
    if id in s.entries then Some(s.entries[id].worker)
    else if id in s.tasks then PhaseWorker(s.tasks[id].phase)
    else None
  }

  /** Exactly the held leases have an owner, and only one. */
  ghost predicate LeasesOwned(s: State) {
    && (forall id: nat :: LeaseOf(s, id).Some? ==> LeaseOf(s, id).value < |s.leases| && s.leases[LeaseOf(s, id).value].held)
    && (forall l: nat :: l < |s.leases| && s.leases[l].held ==> exists id: nat :: LeaseOf(s, id) == Some(l))
    && (forall a: nat, b: nat :: a != b && LeaseOf(s, a).Some? ==> LeaseOf(s, a) != LeaseOf(s, b))
  }

  /** Exactly the workers not closed have an owner, and only one. */
  ghost predicate WorkersOwned(s: State) {
    && (forall id: nat :: WorkerOf(s, id).Some? ==> WorkerOf(s, id).value < |s.workers| && !s.workers[WorkerOf(s, id).value].disposed)
    && (forall w: nat :: w < |s.workers| && !s.workers[w].disposed ==> exists id: nat :: WorkerOf(s, id) == Some(w))
    && (forall a: nat, b: nat :: a != b && WorkerOf(s, a).Some? ==> WorkerOf(s, a) != WorkerOf(s, b))
  }

  /** A worker is rooted at the identity read from the lease held with it. */
  ghost predicate Pinned(s: State) {
    && (forall w: nat :: w < |s.workers| ==> ClientSafety.Safe(s.workers[w]) && s.workers[w].root.Some?)
    && (forall id: nat :: WorkerOf(s, id).Some? ==>
          && LeaseOf(s, id).Some? && WorkerOf(s, id).value < |s.workers| && LeaseOf(s, id).value < |s.leases|
          && s.leases[LeaseOf(s, id).value].identity == s.workers[WorkerOf(s, id).value].root)
  }

  ghost predicate Counted(s: State) {
    && s.registering == |s.tasks|
    && |s.entries| + s.registering <= CAPACITY
    && (s.closed ==> s.entries == map[])
    && s.entries.Keys !! s.tasks.Keys
    && (forall id :: id in s.entries || id in s.tasks ==> id < s.issued)
  }

  ghost predicate Orderly(s: State) { Counted(s) && LeasesOwned(s) && WorkersOwned(s) && Pinned(s) }

  lemma EmptyOrderly()
    ensures Orderly(EMPTY)
  {
  }

  // ---- Counting ----------------------------------------------------------------------------------------------

  lemma RemovedTask(tasks: map<nat, Task>, t: nat)
    requires t in tasks
    ensures |tasks - {t}| == |tasks| - 1 && |tasks| >= 1
  {
    assert (tasks - {t}).Keys == tasks.Keys - {t};
    assert |tasks - {t}| == |(tasks - {t}).Keys| && |tasks| == |tasks.Keys|;
  }

  lemma AddedEntry(entries: map<nat, Entry>, id: nat, e: Entry)
    requires id !in entries
    ensures |entries[id := e]| == |entries| + 1
  {
    assert entries[id := e].Keys == entries.Keys + {id};
    assert |entries[id := e]| == |entries[id := e].Keys| && |entries| == |entries.Keys|;
  }

  lemma AddedTask(tasks: map<nat, Task>, id: nat, t: Task)
    ensures |tasks[id := t]| == |tasks| + if id in tasks then 0 else 1
  {
    assert tasks[id := t].Keys == tasks.Keys + {id};
    assert |tasks[id := t]| == |tasks[id := t].Keys| && |tasks| == |tasks.Keys|;
  }

  lemma RemovedEntry(entries: map<nat, Entry>, id: nat)
    requires id in entries
    ensures |entries - {id}| == |entries| - 1
  {
    assert (entries - {id}).Keys == entries.Keys - {id};
    assert |entries - {id}| == |(entries - {id}).Keys| && |entries| == |entries.Keys|;
  }

  // ---- One id changes -------------------------------------------------------------------------------------------

  /** Only what `id` holds may differ, and lists only grow. */
  ghost predicate OnlyId(s: State, t: State, id: nat) {
    && (forall x: nat :: x != id ==> LeaseOf(t, x) == LeaseOf(s, x) && WorkerOf(t, x) == WorkerOf(s, x))
    && |s.leases| <= |t.leases| && |s.workers| <= |t.workers|
  }

  /** Leases change only under `id`: the old one is released unless kept, and a new one is held. */
  lemma LeasesStep(s: State, t: State, id: nat)
    requires LeasesOwned(s) && OnlyId(s, t, id)
    requires forall l: nat :: l < |s.leases| && LeaseOf(s, id) != Some(l) ==> t.leases[l].held == s.leases[l].held
    requires forall l: nat :: l < |t.leases| && (l >= |s.leases| || LeaseOf(s, id) == Some(l)) ==> (t.leases[l].held <==> LeaseOf(t, id) == Some(l))
    requires LeaseOf(t, id).Some? ==> LeaseOf(t, id).value < |t.leases| && (LeaseOf(t, id) == LeaseOf(s, id) || LeaseOf(t, id).value >= |s.leases|)
    ensures LeasesOwned(t)
  {
    forall l: nat | l < |t.leases| && t.leases[l].held
      ensures exists x: nat :: LeaseOf(t, x) == Some(l)
    {
      if l < |s.leases| && LeaseOf(s, id) != Some(l) {
        var x: nat :| LeaseOf(s, x) == Some(l);
        assert LeaseOf(t, x) == Some(l);
      } else {
        assert LeaseOf(t, id) == Some(l);
      }
    }
    forall a: nat, b: nat | a != b && LeaseOf(t, a).Some?
      ensures LeaseOf(t, a) != LeaseOf(t, b)
    {
      assert a != id ==> LeaseOf(s, a) == LeaseOf(t, a) && LeaseOf(s, a).value < |s.leases|;
      assert b != id && LeaseOf(t, b).Some? ==> LeaseOf(s, b) == LeaseOf(t, b) && LeaseOf(s, b).value < |s.leases|;
    }
  }

  lemma WorkersStep(s: State, t: State, id: nat)
    requires WorkersOwned(s) && OnlyId(s, t, id)
    requires forall w: nat :: w < |s.workers| && WorkerOf(s, id) != Some(w) ==> t.workers[w].disposed == s.workers[w].disposed
    requires forall w: nat :: w < |t.workers| && (w >= |s.workers| || WorkerOf(s, id) == Some(w)) ==> (!t.workers[w].disposed <==> WorkerOf(t, id) == Some(w))
    requires WorkerOf(t, id).Some? ==> WorkerOf(t, id).value < |t.workers| && (WorkerOf(t, id) == WorkerOf(s, id) || WorkerOf(t, id).value >= |s.workers|)
    ensures WorkersOwned(t)
  {
    forall w: nat | w < |t.workers| && !t.workers[w].disposed
      ensures exists x: nat :: WorkerOf(t, x) == Some(w)
    {
      if w < |s.workers| && WorkerOf(s, id) != Some(w) {
        var x: nat :| WorkerOf(s, x) == Some(w);
        assert WorkerOf(t, x) == Some(w);
      } else {
        assert WorkerOf(t, id) == Some(w);
      }
    }
    forall a: nat, b: nat | a != b && WorkerOf(t, a).Some?
      ensures WorkerOf(t, a) != WorkerOf(t, b)
    {
      assert a != id ==> WorkerOf(s, a) == WorkerOf(t, a) && WorkerOf(s, a).value < |s.workers|;
      assert b != id && WorkerOf(t, b).Some? ==> WorkerOf(s, b) == WorkerOf(t, b) && WorkerOf(s, b).value < |s.workers|;
    }
  }

  /** Workers keep their root, and identities of leases other than `id`'s stay. */
  lemma PinnedStep(s: State, t: State, id: nat)
    requires Pinned(s) && OnlyId(s, t, id)
    requires forall w: nat :: w < |t.workers| ==> ClientSafety.Safe(t.workers[w]) && t.workers[w].root.Some?
    requires forall w: nat :: w < |s.workers| ==> t.workers[w].root == s.workers[w].root
    requires forall l: nat :: l < |s.leases| && LeaseOf(s, id) != Some(l) ==> t.leases[l].identity == s.leases[l].identity
    requires LeasesOwned(s)
    requires WorkerOf(t, id).Some? ==>
      && LeaseOf(t, id).Some? && WorkerOf(t, id).value < |t.workers| && LeaseOf(t, id).value < |t.leases|
      && t.leases[LeaseOf(t, id).value].identity == t.workers[WorkerOf(t, id).value].root
    ensures Pinned(t)
  {
    hide ClientSafety.Safe;
    forall x: nat | WorkerOf(t, x).Some? && x != id
      ensures LeaseOf(t, x).Some? && t.leases[LeaseOf(t, x).value].identity == t.workers[WorkerOf(t, x).value].root
    {
      assert WorkerOf(s, x) == WorkerOf(t, x) && LeaseOf(s, x) == LeaseOf(t, x);
      assert LeaseOf(s, id) != LeaseOf(s, x);
    }
  }

  // ---- What the registry does to a worker ----------------------------------------------------------------------

  /** A worker keeps its safety and its root, and is closed exactly when it was or is being. */
  ghost predicate Kept(a: Client.State, b: Client.State, disposed: bool) {
    ClientSafety.Safe(b) && (a.root.Some? ==> b.root == a.root) && b.disposed == disposed
  }

  lemma DisposeKept(w: Client.State)
    requires ClientSafety.Safe(w)
    ensures Kept(w, Client.DisposeAt(w), true)
  {
    hide ClientSafety.Core, ClientSafety.Resting;
    ClientSafety.DisposeKeeps(w);
  }

  lemma OpenKept(identity: Client.Identity)
    ensures var w := Client.OpenAt(Client.Initial(Some(identity)));
            ClientSafety.Safe(w) && w.root == Some(identity) && !w.disposed
  {
    hide ClientSafety.Core, ClientSafety.Resting;
    ClientSafety.InitialSafe(Some(identity));
    ClientSafety.OpenKeeps(Client.Initial(Some(identity)));
  }

  lemma SearchKept(w: Client.State, request: Protocol.Request, signal: Client.Signal, remaining: int)
    requires ClientSafety.Safe(w)
    ensures Kept(w, Client.SearchAt(w, request, signal, remaining), w.disposed)
  {
    ClientSafety.SearchKeeps(w, request, signal, remaining);
    hide ClientSafety.Core, ClientSafety.Resting, Client.Settled, Client.RequestId;
  }

  lemma {:induction false} ConsumeDisposed(c: Client.Codec, s: Client.State, k: nat, clock: Client.Clock)
    requires k < |s.host.processes|
    ensures Client.ConsumeAt(c, s, k, clock).disposed == s.disposed
    decreases |s.input|
  {
    hide Client.FailAt, Client.HandleAt;
    FailDisposed(s, Client.WorkerProtocol);
    if |s.input| >= Client.HEADER {
      var size := Client.Announced(s.input);
      if 0 < size <= Protocol.FRAME_CAP && |s.input| >= size + Client.HEADER {
        var t := s.(input := s.input[size + Client.HEADER..]);
        var frame := s.input[Client.HEADER..size + Client.HEADER];
        HandleDisposed(c, t, k, frame, clock);
        var h := Client.HandleAt(c, t, k, frame, clock);
        if !h.stop {
          ConsumeDisposed(c, h.state, k, clock);
        }
      }
    }
  }

  lemma FailDisposed(s: Client.State, fault: Client.Fault)
    ensures Client.FailAt(s, fault).disposed == s.disposed
  {
  }

  lemma HandleDisposed(c: Client.Codec, s: Client.State, k: nat, frame: bytes, clock: Client.Clock)
    requires k < |s.host.processes|
    ensures Client.HandleAt(c, s, k, frame, clock).state.disposed == s.disposed
  {
    forall u: Client.State, fault
      ensures Client.FailAt(u, fault).disposed == u.disposed
    {
      FailDisposed(u, fault);
    }
    hide Client.FailAt, Client.Settled;
  }

  lemma EventKept(c: Client.Codec, w: Client.State, event: Client.Event)
    requires ClientSafety.Safe(w) && Client.Legal(w, event) && !event.Open? && !event.Search? && !event.Dispose?
    ensures Kept(w, Client.StepAt(c, w, event), w.disposed)
  {
    ClientSafety.StepKeeps(c, w, event);
    hide ClientSafety.Core, ClientSafety.Resting, Client.ConsumeAt;
    forall u: Client.State, fault
      ensures Client.FailAt(u, fault).disposed == u.disposed
    {
      FailDisposed(u, fault);
    }
    hide Client.FailAt;
    match event
    case Data(k, data, clock) => ConsumeDisposed(c, w.(input := w.input + data), k, clock);
    case _ =>
  }

  // ---- Steps ----------------------------------------------------------------------------------------------------

  lemma BeginKeeps(s: State, rootOk: bool, policy: Option<Policies.Policy>)
    requires Orderly(s)
    ensures Orderly(BeginAt(s, rootOk, policy))
  {
    hide ClientSafety.Safe;
    var t := BeginAt(s, rootOk, policy);
    assert s.issued !in s.entries && s.issued !in s.tasks;
    if policy.Some? {
      AddedTask(s.tasks, s.issued, Task(policy.value, Resolving));
    }
    SameHoldings(s, t);
  }

  /** Nothing held changes. */
  lemma SameHoldings(s: State, t: State)
    requires LeasesOwned(s) && WorkersOwned(s) && Pinned(s)
    requires t.workers == s.workers && t.leases == s.leases
    requires forall x: nat :: LeaseOf(t, x) == LeaseOf(s, x) && WorkerOf(t, x) == WorkerOf(s, x)
    ensures LeasesOwned(t) && WorkersOwned(t) && Pinned(t)
  {
    hide ClientSafety.Safe;
    forall l: nat | l < |t.leases| && t.leases[l].held
      ensures exists id: nat :: LeaseOf(t, id) == Some(l)
    {
      var id: nat :| LeaseOf(s, id) == Some(l);
      assert LeaseOf(t, id) == Some(l);
    }
    forall w: nat | w < |t.workers| && !t.workers[w].disposed
      ensures exists id: nat :: WorkerOf(t, id) == Some(w)
    {
      var id: nat :| WorkerOf(s, id) == Some(w);
      assert WorkerOf(t, id) == Some(w);
    }
  }

  /** The id lets go of everything it held; nobody else is touched. */
  ghost predicate Freed(s: State, t: State, id: nat) {
    && OnlyId(s, t, id) && LeaseOf(t, id) == None && WorkerOf(t, id) == None
    && (LeaseOf(s, id).Some? ==> LeaseOf(s, id).value < |s.leases|)
    && (WorkerOf(s, id).Some? ==> WorkerOf(s, id).value < |s.workers|)
    && t.leases == (if LeaseOf(s, id).Some? then Release(s.leases, LeaseOf(s, id).value) else s.leases)
    && t.workers == (if WorkerOf(s, id).Some? then Disposed(s.workers, WorkerOf(s, id).value) else s.workers)
  }

  lemma FreedLeases(s: State, t: State, id: nat)
    requires LeasesOwned(s) && Freed(s, t, id)
    ensures LeasesOwned(t)
  {
    hide Client.DisposeAt, LeasesOwned;
    LeasesStep(s, t, id);
  }

  lemma FreedWorkers(s: State, t: State, id: nat)
    requires WorkersOwned(s) && Pinned(s) && Freed(s, t, id)
    ensures WorkersOwned(t)
  {
    if WorkerOf(s, id).Some? {
      SafeWorker(s, WorkerOf(s, id).value);
      DisposeKept(s.workers[WorkerOf(s, id).value]);
    }
    hide Client.DisposeAt, WorkersOwned, Pinned, ClientSafety.Safe;
    WorkersStep(s, t, id);
  }

  lemma FreedPinned(s: State, t: State, id: nat)
    requires LeasesOwned(s) && Pinned(s) && Freed(s, t, id)
    ensures Pinned(t)
  {
    forall w: nat | w < |s.workers|
      ensures ClientSafety.Safe(t.workers[w]) && t.workers[w].root.Some? && t.workers[w].root == s.workers[w].root
    {
      SafeWorker(s, w);
      DisposeKept(s.workers[w]);
    }
    hide Client.DisposeAt, LeasesOwned, Pinned, ClientSafety.Safe;
    PinnedStep(s, t, id);
  }

  lemma SafeWorkers(s: State)
    requires Pinned(s)
    ensures forall w: nat :: w < |s.workers| ==> ClientSafety.Safe(s.workers[w]) && s.workers[w].root.Some?
  {
    hide ClientSafety.Safe;
  }

  lemma SafeWorker(s: State, w: nat)
    requires Pinned(s) && w < |s.workers|
    ensures ClientSafety.Safe(s.workers[w]) && s.workers[w].root.Some?
  {
    hide ClientSafety.Safe;
  }

  /** A registration goes on to another phase. */
  lemma Rephased(s: State, t: State, id: nat)
    requires Counted(s) && id in s.tasks && id in t.tasks && t.tasks == s.tasks[id := t.tasks[id]]
    requires t.entries == s.entries && t.registering == s.registering && t.closed == s.closed && t.issued == s.issued
    ensures Counted(t)
  {
    AddedTask(s.tasks, id, t.tasks[id]);
  }

  lemma UnwindFrees(s: State, id: nat, fault: WorkspaceFault)
    requires id !in s.entries && id in s.tasks && PhaseOk(s, s.tasks[id].phase)
    ensures Freed(s, UnwindAt(s, id, fault), id)
  {
    hide Client.DisposeAt;
    var t := UnwindAt(s, id, fault);
    assert LeaseOf(s, id) == PhaseLease(s.tasks[id].phase) && WorkerOf(s, id) == PhaseWorker(s.tasks[id].phase);
    assert t.tasks == s.tasks[id := s.tasks[id].(phase := Unwinding(fault))] && t.entries == s.entries;
    hide UnwindAt;
    OthersUntouched(s, t, id);
  }

  lemma OthersUntouched(s: State, t: State, id: nat)
    requires id in t.tasks && id !in s.entries && t.entries == s.entries && t.tasks == s.tasks[id := t.tasks[id]]
    ensures forall x: nat :: x != id ==> LeaseOf(t, x) == LeaseOf(s, x) && WorkerOf(t, x) == WorkerOf(s, x)
  {
  }

  lemma TaskIsNoEntry(s: State, id: nat)
    requires Counted(s) && id in s.tasks
    ensures id !in s.entries
  {
  }

  /** Going on to a phase that holds the same changes no holdings. */
  lemma RephasedHoldings(s: State, t: State, id: nat)
    requires id !in s.entries && id in s.tasks && id in t.tasks && t.tasks == s.tasks[id := t.tasks[id]] && t.entries == s.entries
    requires PhaseLease(t.tasks[id].phase) == PhaseLease(s.tasks[id].phase)
    requires PhaseWorker(t.tasks[id].phase) == PhaseWorker(s.tasks[id].phase)
    ensures forall x: nat :: LeaseOf(t, x) == LeaseOf(s, x) && WorkerOf(t, x) == WorkerOf(s, x)
  {
  }

  lemma UnregisterFrees(s: State, id: nat)
    requires Counted(s) && id in s.entries && EntriesOk(s)
    ensures Freed(s, UnregisterAt(s, id), id) && Counted(UnregisterAt(s, id))
  {
    RemovedEntry(s.entries, id);
    hide Client.DisposeAt;
  }

  /** What the catch block leaves: the id holds nothing any more. */
  lemma UnwindKeeps(s: State, id: nat, fault: WorkspaceFault)
    requires Orderly(s) && id in s.tasks && PhaseOk(s, s.tasks[id].phase)
    ensures Orderly(UnwindAt(s, id, fault))
  {
    var t := UnwindAt(s, id, fault);
    hide LeasesOwned, WorkersOwned, Pinned, Client.DisposeAt, Counted, Freed;
    Rephased(s, t, id);
    TaskIsNoEntry(s, id);
    UnwindFrees(s, id, fault);
    FreedLeases(s, t, id);
    FreedWorkers(s, t, id);
    FreedPinned(s, t, id);
  }

  /** A registration takes a new lease, of no known identity yet. */
  ghost predicate Takes(s: State, t: State, id: nat) {
    && OnlyId(s, t, id) && LeaseOf(s, id) == None && LeaseOf(t, id) == Some(|s.leases|)
    && WorkerOf(s, id) == None && WorkerOf(t, id) == None
    && t.leases == s.leases + [Lease(true, None)] && t.workers == s.workers
  }

  lemma TakesLease(s: State, id: nat)
    requires id in s.tasks && id !in s.entries && s.tasks[id].phase.Leasing?
    ensures Takes(s, LeasedAt(s, id, true), id)
  {
  }

  lemma TakenLeases(s: State, t: State, id: nat)
    requires LeasesOwned(s) && Takes(s, t, id)
    ensures LeasesOwned(t)
  {
    hide LeasesOwned;
    LeasesStep(s, t, id);
  }

  lemma TakenWorkers(s: State, t: State, id: nat)
    requires WorkersOwned(s) && Takes(s, t, id)
    ensures WorkersOwned(t)
  {
    hide WorkersOwned;
    WorkersStep(s, t, id);
  }

  lemma TakenRoots(s: State, t: State, id: nat)
    requires LeasesOwned(s) && Pinned(s) && Takes(s, t, id)
    ensures Pinned(t)
  {
    SafeWorkers(s);
    hide LeasesOwned, Pinned, ClientSafety.Safe;
    PinnedStep(s, t, id);
  }

  lemma LeasedKeeps(s: State, id: nat, ok: bool)
    requires Orderly(s) && id in s.tasks && s.tasks[id].phase.Leasing?
    ensures Orderly(LeasedAt(s, id, ok))
  {
    if ok {
      hide LeasesOwned, WorkersOwned, Pinned, Counted, Takes;
      Rephased(s, LeasedAt(s, id, ok), id);
      TaskIsNoEntry(s, id);
      TakesLease(s, id);
      TakenLeases(s, LeasedAt(s, id, ok), id);
      TakenWorkers(s, LeasedAt(s, id, ok), id);
      TakenRoots(s, LeasedAt(s, id, ok), id);
    } else {
      UnwindKeeps(s, id, WorkspaceUnavailable);
    }
  }

  lemma ResolvedKeeps(s: State, id: nat, ok: bool)
    requires Orderly(s) && id in s.tasks && s.tasks[id].phase.Resolving?
    ensures Orderly(ResolvedAt(s, id, ok))
  {
    if ok {
      var t := ResolvedAt(s, id, ok);
      hide LeasesOwned, WorkersOwned, Pinned;
      Rephased(s, t, id);
      SameHoldings(s, t);
    } else {
      UnwindKeeps(s, id, WorkspaceUnavailable);
    }
  }

  lemma InspectedKeeps(s: State, id: nat, stat: Option<Stat>)
    requires Orderly(s) && id in s.tasks && s.tasks[id].phase.Inspecting? && PhaseOk(s, s.tasks[id].phase)
    ensures Orderly(InspectedAt(s, id, stat))
  {
    if stat.None? || !stat.value.directory {
      UnwindKeeps(s, id, WorkspaceUnavailable);
    } else if s.closed {
      UnwindKeeps(s, id, RegistryClosed);
    } else {
      var t := InspectedAt(s, id, stat);
      Rephased(s, t, id);
      hide ClientSafety.Safe, Client.OpenAt, Client.Initial, LeasesOwned, WorkersOwned, Pinned;
      PinsRoot(s, t, id, stat.value.identity);
      PinnedLeases(s, t, id, stat.value.identity);
      PinnedWorkers(s, t, id, stat.value.identity);
      PinnedRoots(s, t, id, stat.value.identity);
    }
  }

  /** A registration reads its root's identity and gives it to a new worker. */
  ghost predicate Pins(s: State, t: State, id: nat, identity: Client.Identity) {
    && OnlyId(s, t, id)
    && LeaseOf(s, id).Some? && LeaseOf(t, id) == LeaseOf(s, id) && LeaseOf(s, id).value < |s.leases|
    && WorkerOf(s, id) == None && WorkerOf(t, id) == Some(|s.workers|)
    && t.leases == s.leases[LeaseOf(s, id).value := s.leases[LeaseOf(s, id).value].(identity := Some(identity))]
    && t.workers == s.workers + [Client.OpenAt(Client.Initial(Some(identity)))]
  }

  lemma PinsRoot(s: State, t: State, id: nat, identity: Client.Identity)
    requires Counted(s) && id in s.tasks && s.tasks[id].phase.Inspecting? && PhaseOk(s, s.tasks[id].phase) && !s.closed
    requires t == InspectedAt(s, id, Some(Stat(true, identity)))
    ensures Pins(s, t, id, identity)
  {
    hide Client.OpenAt, Client.Initial;
  }

  lemma PinnedLeases(s: State, t: State, id: nat, identity: Client.Identity)
    requires LeasesOwned(s) && Pins(s, t, id, identity)
    ensures LeasesOwned(t)
  {
    HoldsItsLease(s, id);
    hide Client.OpenAt, Client.Initial, LeasesOwned;
    LeasesStep(s, t, id);
  }

  lemma HoldsItsLease(s: State, id: nat)
    requires LeasesOwned(s) && LeaseOf(s, id).Some?
    ensures LeaseOf(s, id).value < |s.leases| && s.leases[LeaseOf(s, id).value].held
  {
  }

  lemma PinnedWorkers(s: State, t: State, id: nat, identity: Client.Identity)
    requires WorkersOwned(s) && Pins(s, t, id, identity)
    ensures WorkersOwned(t)
  {
    OpenKept(identity);
    hide Client.OpenAt, Client.Initial, WorkersOwned, ClientSafety.Safe;
    WorkersStep(s, t, id);
  }

  lemma PinnedRoots(s: State, t: State, id: nat, identity: Client.Identity)
    requires LeasesOwned(s) && Pinned(s) && Pins(s, t, id, identity)
    ensures Pinned(t)
  {
    OpenKept(identity);
    hide Client.OpenAt, Client.Initial, LeasesOwned, ClientSafety.Safe;
    PinnedStep(s, t, id);
  }

  /** One worker moved on, with nothing gained, lost or closed. */
  lemma WorkerMoves(s: State, t: State, w: nat, id: nat)
    requires LeasesOwned(s) && WorkersOwned(s) && Pinned(s) && w < |s.workers|
    requires t.leases == s.leases && |t.workers| == |s.workers|
    requires forall i: nat :: i < |s.workers| && i != w ==> t.workers[i] == s.workers[i]
    requires Kept(s.workers[w], t.workers[w], s.workers[w].disposed)
    requires forall x: nat :: LeaseOf(t, x) == LeaseOf(s, x) && WorkerOf(t, x) == WorkerOf(s, x)
    ensures LeasesOwned(t) && WorkersOwned(t) && Pinned(t)
  {
    hide ClientSafety.Safe;
    assert OnlyId(s, t, id);
    LeasesStep(s, t, id);
    WorkersStep(s, t, id);
    PinnedStep(s, t, id);
  }

  lemma GreetedKeeps(s: State, id: nat, check: Ask)
    requires Orderly(s) && id in s.tasks && s.tasks[id].phase.Greeting? && PhaseOk(s, s.tasks[id].phase)
    requires Settled(s, s.tasks[id].phase.worker, s.tasks[id].phase.promise)
    ensures Orderly(GreetedAt(s, id, check))
  {
    var phase := s.tasks[id].phase;
    hide Awaited;
    if Awaited(s.workers[phase.worker].host.log, phase.promise) != Some(Client.Opened) {
      UnwindKeeps(s, id, WorkspaceUnavailable);
    } else {
      var t := GreetedAt(s, id, check);
      hide Counted, LeaseOf, WorkerOf;
      Rephased(s, t, id);
      TaskIsNoEntry(s, id);
      RephasedHoldings(s, t, id);
      SafeWorker(s, phase.worker);
      var request := Authorised(s.tasks[id].policy, check.request, Policies.UNNARROWED, true);
      SearchKept(s.workers[phase.worker], request, Client.Absent, check.remaining);
      hide ClientSafety.Safe, Client.SearchAt, LeasesOwned, WorkersOwned, Pinned;
      WorkerMoves(s, t, phase.worker, id);
    }
  }

  /** A registration that becomes an entry keeps the count and what it holds. */
  lemma Entered(s: State, t: State, id: nat)
    requires Counted(s) && !s.closed && id in s.tasks && s.tasks[id].phase.Validating?
    requires var p := s.tasks[id].phase;
             t.entries == s.entries[id := Entry(s.tasks[id].policy, p.worker, p.lease)]
    requires t.tasks == s.tasks - {id} && t.registering == (if s.registering > 0 then s.registering - 1 else 0)
    requires t.closed == s.closed && t.issued == s.issued
    ensures Counted(t)
    ensures forall x: nat :: LeaseOf(t, x) == LeaseOf(s, x) && WorkerOf(t, x) == WorkerOf(s, x)
  {
    RemovedTask(s.tasks, id);
    AddedEntry(s.entries, id, t.entries[id]);
  }

  lemma ValidatedKeeps(s: State, id: nat)
    requires Orderly(s) && id in s.tasks && s.tasks[id].phase.Validating? && PhaseOk(s, s.tasks[id].phase)
    requires Settled(s, s.tasks[id].phase.worker, s.tasks[id].phase.promise)
    ensures Orderly(ValidatedAt(s, id))
  {
    var phase := s.tasks[id].phase;
    hide Awaited;
    var outcome := Awaited(s.workers[phase.worker].host.log, phase.promise).value;
    if outcome.Replied? && outcome.reply.Answered? && !s.closed {
      hide LeasesOwned, WorkersOwned, Pinned, Counted;
      Entered(s, ValidatedAt(s, id), id);
      SameHoldings(s, ValidatedAt(s, id));
    } else {
      hide Orderly, UnwindAt;
      UnwindKeeps(s, id, RegistryClosed);
      UnwindKeeps(s, id, BadWorkspaceRequest);
      UnwindKeeps(s, id, WorkspaceUnavailable);
    }
  }

  lemma UnwoundKeeps(s: State, id: nat)
    requires Orderly(s) && id in s.tasks && s.tasks[id].phase.Unwinding?
    ensures Orderly(UnwoundAt(s, id))
  {
    hide LeasesOwned, WorkersOwned, Pinned;
    UnwoundCounted(s, id);
    hide Counted;
    SameHoldings(s, UnwoundAt(s, id));
  }

  lemma UnwoundCounted(s: State, id: nat)
    requires Counted(s) && id in s.tasks && s.tasks[id].phase.Unwinding?
    ensures Counted(UnwoundAt(s, id))
    ensures forall x: nat :: LeaseOf(UnwoundAt(s, id), x) == LeaseOf(s, x) && WorkerOf(UnwoundAt(s, id), x) == WorkerOf(s, x)
  {
    RemovedTask(s.tasks, id);
  }

  /** The record of calls holds nothing that order depends on. */
  lemma CallsImmaterial(s: State, calls: seq<Call>)
    requires Orderly(s)
    ensures Orderly(s.(calls := calls))
  {
    var t := s.(calls := calls);
    assert Counted(t);
    hide Counted;
    SameMaps(s, t);
    SameHoldings(s, t);
  }

  lemma QueryKeeps(s: State, id: nat, samePolicy: bool, wellFormed: bool, ask: Ask, signal: Client.Signal)
    requires Orderly(s) && EntriesOk(s)
    ensures Orderly(QueryAt(s, id, samePolicy, wellFormed, ask, signal))
  {
    var t := QueryAt(s, id, samePolicy, wellFormed, ask, signal);
    CallsImmaterial(s, t.calls);
    if id in s.entries {
      var w := s.entries[id].worker;
      var request := Authorised(s.entries[id].policy, ask.request, ask.narrow, false);
      OrderlyWorkers(s);
      SearchKept(s.workers[w], request, signal, ask.remaining);
      hide Client.SearchAt, Orderly, NarrowAcceptable, Authorised, WithWorker;
      var u := WithWorker(s, w, Client.SearchAt(s.workers[w], request, signal, ask.remaining));
      WithWorkerKeeps(s, w, Client.SearchAt(s.workers[w], request, signal, ask.remaining));
      CallsImmaterial(u, t.calls);
    }
  }

  lemma UnregisterKeeps(s: State, id: nat)
    requires Orderly(s) && EntriesOk(s)
    ensures Orderly(UnregisterAt(s, id))
  {
    hide LeasesOwned, WorkersOwned, Pinned, Client.DisposeAt, Counted, Freed;
    var t := UnregisterAt(s, id);
    if id in s.entries {
      UnregisterFrees(s, id);
      FreedLeases(s, t, id);
      FreedWorkers(s, t, id);
      FreedPinned(s, t, id);
    } else {
      CallsImmaterial(s, t.calls);
    }
  }

  /** Closing ends every entry, and leaves registrations in flight what they hold. */
  lemma CloseKeeps(s: State)
    requires Orderly(s) && EntriesOk(s)
    ensures Orderly(CloseAt(s))
  {
    ClosePinned(s);
    CloseLeases(s);
    CloseWorkers(s);
    hide LeasesOwned, WorkersOwned, Pinned, DisposedAll, ReleasedAll, OwnedWorkers, OwnedLeases;
  }

  lemma ClosedWorkers(s: State, w: nat)
    requires Pinned(s) && w < |s.workers|
    ensures |CloseAt(s).workers| == |s.workers|
    ensures Kept(s.workers[w], CloseAt(s).workers[w], s.workers[w].disposed || w in OwnedWorkers(s.entries))
  {
    SafeWorker(s, w);
    DisposeKept(s.workers[w]);
    hide Client.DisposeAt, ClientSafety.Safe, Pinned, OwnedWorkers;
  }

  lemma ClosePinned(s: State)
    requires Pinned(s) && s.entries.Keys !! s.tasks.Keys
    ensures Pinned(CloseAt(s))
  {
    var t := CloseAt(s);
    CloseLength(s);
    CloseIdentities(s);
    forall w: nat | w < |s.workers|
      ensures ClientSafety.Safe(t.workers[w]) && t.workers[w].root == s.workers[w].root && t.workers[w].root.Some?
    {
      SafeWorker(s, w);
      ClosedWorkers(s, w);
    }
    forall id: nat
      ensures WorkerOf(t, id) == None || (WorkerOf(s, id) == WorkerOf(t, id) && LeaseOf(s, id) == LeaseOf(t, id))
    {
      CloseHoldings(s, id);
    }
    hide CloseAt, ClientSafety.Safe, LeaseOf, WorkerOf;
  }

  lemma CloseIdentities(s: State)
    ensures |CloseAt(s).leases| == |s.leases|
    ensures forall l: nat :: l < |s.leases| ==> CloseAt(s).leases[l].identity == s.leases[l].identity
  {
    hide Client.DisposeAt, OwnedLeases, OwnedWorkers, DisposedAll;
  }

  lemma CloseLeases(s: State)
    requires LeasesOwned(s) && EntriesOk(s) && s.entries.Keys !! s.tasks.Keys
    ensures LeasesOwned(CloseAt(s))
  {
    hide Client.DisposeAt;
    var t := CloseAt(s);
    forall id: nat
      ensures LeaseOf(t, id) == if id in s.entries then None else LeaseOf(s, id)
    {
    }
    forall id: nat | LeaseOf(t, id).Some?
      ensures t.leases[LeaseOf(t, id).value].held
    {
      forall e | e in s.entries
        ensures s.entries[e].lease != LeaseOf(t, id).value
      {
        assert LeaseOf(s, e) != LeaseOf(s, id);
      }
    }
    forall l: nat | l < |t.leases| && t.leases[l].held
      ensures exists id: nat :: LeaseOf(t, id) == Some(l)
    {
      var id: nat :| LeaseOf(s, id) == Some(l);
      assert id in s.entries ==> l in OwnedLeases(s.entries);
      assert LeaseOf(t, id) == Some(l);
    }
  }

  /** Closing takes what entries held and leaves what registrations in flight hold. */
  lemma CloseHoldings(s: State, id: nat)
    requires s.entries.Keys !! s.tasks.Keys
    ensures WorkerOf(CloseAt(s), id) == (if id in s.entries then None else WorkerOf(s, id))
    ensures LeaseOf(CloseAt(s), id) == (if id in s.entries then None else LeaseOf(s, id))
  {
    hide DisposedAll, ReleasedAll, OwnedWorkers, OwnedLeases;
  }

  lemma CloseWorkers(s: State)
    requires WorkersOwned(s) && Pinned(s) && EntriesOk(s) && s.entries.Keys !! s.tasks.Keys
    ensures WorkersOwned(CloseAt(s))
  {
    var t := CloseAt(s);
    LengthKept(s.workers, OwnedWorkers(s.entries));
    forall id: nat
      ensures WorkerOf(t, id) == if id in s.entries then None else WorkerOf(s, id)
    {
      CloseHoldings(s, id);
    }
    forall w: nat | w < |s.workers|
      ensures t.workers[w].disposed <==> s.workers[w].disposed || w in OwnedWorkers(s.entries)
    {
      ClosedWorkers(s, w);
    }
    hide CloseAt, Client.DisposeAt, Pinned, WorkersOwned, DisposedAll, ReleasedAll, OwnedWorkers, OwnedLeases, WorkerOf;
    WorkersLeft(s, t);
  }

  /** Once every worker of an entry is closed and the entries are gone, the rest is owned as before. */
  lemma WorkersLeft(s: State, t: State)
    requires WorkersOwned(s) && |t.workers| == |s.workers|
    requires forall id: nat :: WorkerOf(t, id) == if id in s.entries then None else WorkerOf(s, id)
    requires forall w: nat :: w < |s.workers| ==> (t.workers[w].disposed <==> s.workers[w].disposed || w in OwnedWorkers(s.entries))
    ensures WorkersOwned(t)
  {
    forall id: nat | WorkerOf(t, id).Some?
      ensures !t.workers[WorkerOf(t, id).value].disposed
    {
      forall e | e in s.entries
        ensures s.entries[e].worker != WorkerOf(t, id).value
      {
        assert WorkerOf(s, e) != WorkerOf(s, id);
      }
    }
    forall w: nat | w < |t.workers| && !t.workers[w].disposed
      ensures exists id: nat :: WorkerOf(t, id) == Some(w)
    {
      var id: nat :| WorkerOf(s, id) == Some(w);
      assert id in s.entries ==> w in OwnedWorkers(s.entries);
      assert WorkerOf(t, id) == Some(w);
    }
  }

  lemma LengthKept(workers: seq<Client.State>, ws: set<nat>)
    ensures |DisposedAll(workers, ws)| == |workers|
  {
  }

  lemma WithWorkerKeeps(s: State, w: nat, v: Client.State)
    requires Orderly(s) && w < |s.workers| && Kept(s.workers[w], v, s.workers[w].disposed)
    ensures Orderly(WithWorker(s, w, v))
  {
    hide Kept, LeasesOwned, WorkersOwned, Pinned;
    var t := WithWorker(s, w, v);
    assert Counted(t);
    hide Counted;
    SameMaps(s, t);
    hide LeaseOf, WorkerOf;
    WorkerMoves(s, t, w, 0);
  }

  lemma SameMaps(s: State, t: State)
    requires t.entries == s.entries && t.tasks == s.tasks
    ensures forall x: nat :: LeaseOf(t, x) == LeaseOf(s, x) && WorkerOf(t, x) == WorkerOf(s, x)
  {
  }

  /** In an orderly registry every entry and registration points at what exists, so that any step a caller may take is legal. */
  lemma OrderlyPoints(s: State)
    requires Orderly(s)
    ensures EntriesOk(s) && Apart(s.entries)
    ensures forall t :: t in s.tasks ==> PhaseOk(s, s.tasks[t].phase)
  {
    hide ClientSafety.Safe;
    forall a | a in s.entries
      ensures s.entries[a].worker < |s.workers| && s.entries[a].lease < |s.leases|
    {
      assert WorkerOf(s, a) == Some(s.entries[a].worker) && LeaseOf(s, a) == Some(s.entries[a].lease);
    }
    forall a, b | a in s.entries && b in s.entries && a != b
      ensures s.entries[a].worker != s.entries[b].worker && s.entries[a].lease != s.entries[b].lease
    {
      assert WorkerOf(s, a) != WorkerOf(s, b) && LeaseOf(s, a) != LeaseOf(s, b);
    }
    forall t | t in s.tasks
      ensures PhaseOk(s, s.tasks[t].phase)
    {
      assert t !in s.entries;
      assert LeaseOf(s, t) == PhaseLease(s.tasks[t].phase) && WorkerOf(s, t) == PhaseWorker(s.tasks[t].phase);
    }
  }

  /** Every step, however registrations, uses, closes and worker events interleave, keeps the registry orderly. */
  lemma StepKeeps(c: Client.Codec, s: State, e: Event)
    requires Orderly(s) && Legal(s, e)
    ensures Orderly(StepAt(c, s, e)) && (s.closed ==> StepAt(c, s, e).closed)
  {
    hide Orderly, BeginAt, ResolvedAt, LeasedAt, InspectedAt, GreetedAt, ValidatedAt, UnwoundAt, QueryAt,
      UnregisterAt, Awaited, Client.Legal, Client.StepAt, ClientSafety.Safe, WithWorker, CloseAt;
    ClosedStays(c, s, e);
    match e
    case Begin(rootOk, input) => BeginKeeps(s, rootOk, Compiled(input));
    case Resolved(t, ok) => ResolvedKeeps(s, t, ok);
    case Leased(t, ok) => LeasedKeeps(s, t, ok);
    case Inspected(t, stat) => InspectedKeeps(s, t, stat);
    case Greeted(t, check) => GreetedKeeps(s, t, check);
    case Validated(t) => ValidatedKeeps(s, t);
    case Unwound(t) => UnwoundKeeps(s, t);
    case Query(id, samePolicy, wellFormed, ask, signal) => QueryKeeps(s, id, samePolicy, wellFormed, ask, signal);
    case Unregister(id) => UnregisterKeeps(s, id);
    case Close => CloseKeeps(s);
    case WorkerEvent(w, event) =>
      OrderlyWorkers(s);
      EventKept(c, s.workers[w], event);
      WithWorkerKeeps(s, w, Client.StepAt(c, s.workers[w], event));
  }

  lemma ClosedStays(c: Client.Codec, s: State, e: Event)
    requires Legal(s, e)
    ensures s.closed ==> StepAt(c, s, e).closed
  {
    hide Client.StepAt, Client.SearchAt, Client.DisposeAt, Client.OpenAt, Awaited;
  }

  // ---- Runs -------------------------------------------------------------------------------------------------------

  /** No step ever changes the root identity a worker is pinned to. */
  ghost predicate RootsFixed(s: State, t: State) {
    |s.workers| <= |t.workers| && forall w: nat :: w < |s.workers| ==> t.workers[w].root == s.workers[w].root
  }

  lemma UnwindRoots(s: State, id: nat, fault: WorkspaceFault)
    requires Orderly(s) && id in s.tasks && PhaseOk(s, s.tasks[id].phase)
    ensures RootsFixed(s, UnwindAt(s, id, fault))
  {
    hide Orderly, ClientSafety.Safe, Client.DisposeAt;
    OrderlyWorkers(s);
    forall w: nat | w < |s.workers|
      ensures Client.DisposeAt(s.workers[w]).root == s.workers[w].root
    {
      DisposeKept(s.workers[w]);
    }
  }

  lemma StepRoots(c: Client.Codec, s: State, e: Event)
    requires Orderly(s) && Legal(s, e)
    ensures RootsFixed(s, StepAt(c, s, e))
  {
    hide Orderly, ClientSafety.Safe, UnwindAt, Awaited, Client.SearchAt, Client.StepAt, Client.Legal, Client.OpenAt,
      Client.DisposeAt, CloseAt, NarrowAcceptable, Authorised;
    forall id, fault | id in s.tasks && PhaseOk(s, s.tasks[id].phase)
      ensures RootsFixed(s, UnwindAt(s, id, fault))
    {
      UnwindRoots(s, id, fault);
    }
    OrderlyWorkers(s);
    match e
    case Greeted(t, check) =>
      var request := Authorised(s.tasks[t].policy, check.request, Policies.UNNARROWED, true);
      SearchKept(s.workers[s.tasks[t].phase.worker], request, Client.Absent, check.remaining);
    case Query(id, _, _, ask, signal) =>
      if id in s.entries {
        var request := Authorised(s.entries[id].policy, ask.request, ask.narrow, false);
        SearchKept(s.workers[s.entries[id].worker], request, signal, ask.remaining);
      }
    case Unregister(id) =>
      if id in s.entries {
        DisposeKept(s.workers[s.entries[id].worker]);
      }
    case Close =>
      CloseRoots(s);
    case WorkerEvent(w, event) =>
      EventKept(c, s.workers[w], event);
    case _ =>
  }

  lemma OrderlyWorkers(s: State)
    requires Orderly(s)
    ensures forall w: nat :: w < |s.workers| ==> ClientSafety.Safe(s.workers[w]) && s.workers[w].root.Some?
  {
    SafeWorkers(s);
  }

  lemma CloseRoots(s: State)
    requires Orderly(s)
    ensures RootsFixed(s, CloseAt(s))
  {
    forall w: nat | w < |s.workers|
      ensures CloseAt(s).workers[w].root == s.workers[w].root
    {
      SafeWorker(s, w);
      ClosedWorkers(s, w);
    }
    CloseLength(s);
  }

  lemma CloseLength(s: State)
    ensures |CloseAt(s).workers| == |s.workers|
  {
    hide Client.DisposeAt;
  }

  ghost predicate LegalRun(c: Client.Codec, s: State, events: seq<Event>)
    decreases |events|
  {
    |events| == 0 || (Legal(s, events[0]) && LegalRun(c, StepAt(c, s, events[0]), events[1..]))
  }

  ghost function RunAll(c: Client.Codec, s: State, events: seq<Event>): State
    requires LegalRun(c, s, events)
    decreases |events|
  {
    if |events| == 0 then s else RunAll(c, StepAt(c, s, events[0]), events[1..])
  }

  lemma {:induction false} RunKeeps(c: Client.Codec, s: State, events: seq<Event>)
    requires Orderly(s) && LegalRun(c, s, events)
    ensures var t := RunAll(c, s, events);
            Orderly(t) && RootsFixed(s, t) && (s.closed ==> t.closed && t.entries == map[])
    decreases |events|
  {
    hide LeasesOwned, WorkersOwned, Pinned, StepAt, Legal;
    if |events| > 0 {
      StepKeeps(c, s, events[0]);
      StepRoots(c, s, events[0]);
      RunKeeps(c, StepAt(c, s, events[0]), events[1..]);
    }
  }

  /**
   At every await point of any interleaving: at most 32 registrations, counting those in flight; no entry once closed;
   exactly the held leases and the open workers have an owner, and only one.
   */
  lemma EveryRun(c: Client.Codec, events: seq<Event>)
    requires LegalRun(c, EMPTY, events)
    ensures var s := RunAll(c, EMPTY, events);
            && |s.entries| + |s.tasks| <= 32 && s.registering == |s.tasks|
            && (s.closed ==> s.entries == map[])
            && LeasesOwned(s) && WorkersOwned(s)
  {
    EmptyOrderly();
    RunKeeps(c, EMPTY, events);
    hide Pinned, LegalRun, RunAll;
  }

  /** Whatever happens after the registry is closed, no entry appears. */
  lemma NoEntryAfterClose(c: Client.Codec, before: seq<Event>, after: seq<Event>)
    requires LegalRun(c, EMPTY, before) && RunAll(c, EMPTY, before).closed
    requires LegalRun(c, RunAll(c, EMPTY, before), after)
    ensures RunAll(c, RunAll(c, EMPTY, before), after).entries == map[]
  {
    EmptyOrderly();
    RunKeeps(c, EMPTY, before);
    hide Orderly, RunAll, LegalRun;
    RunKeeps(c, RunAll(c, EMPTY, before), after);
  }

  /** After any run, once closed and with nothing in flight, every worker is closed and every lease released. */
  lemma NothingLeaks(c: Client.Codec, events: seq<Event>)
    requires LegalRun(c, EMPTY, events)
    ensures var s := RunAll(c, EMPTY, events);
            s.closed && s.tasks == map[] ==>
              && (forall l: nat :: l < |s.leases| ==> !s.leases[l].held)
              && (forall w: nat :: w < |s.workers| ==> s.workers[w].disposed)
  {
    EmptyOrderly();
    RunKeeps(c, EMPTY, events);
    hide Pinned, LegalRun, RunAll;
    var s := RunAll(c, EMPTY, events);
    assert s.closed && s.tasks == map[] ==> forall id: nat :: LeaseOf(s, id) == None && WorkerOf(s, id) == None;
  }

  /**
   Every reply that an entry's worker ever delivered came from a process that greeted with the identity read from the
   root lease at registration, and a later restart is held to the same one.
   */
  lemma RepliesComeFromPinnedRoot(c: Client.Codec, before: seq<Event>, after: seq<Event>, id: nat)
    requires LegalRun(c, EMPTY, before) && id in RunAll(c, EMPTY, before).entries
    requires LegalRun(c, RunAll(c, EMPTY, before), after)
    ensures var s := RunAll(c, EMPTY, before);
            var t := RunAll(c, s, after);
            var e := s.entries[id];
            && e.lease < |s.leases| && e.worker < |s.workers| && e.worker < |t.workers|
            && s.leases[e.lease].identity.Some?
            && forall x :: x in t.workers[e.worker].host.log && x.outcome.Replied? ==>
                 && x.outcome.child < |t.workers[e.worker].host.processes|
                 && t.workers[e.worker].host.processes[x.outcome.child].greeted == s.leases[e.lease].identity
  {
    EmptyOrderly();
    RunKeeps(c, EMPTY, before);
    var s := RunAll(c, EMPTY, before);
    hide RunAll, LegalRun;
    EntryPinned(s, id);
    RunKeeps(c, s, after);
    var t := RunAll(c, s, after);
    var w := s.entries[id].worker;
    SafeWorker(t, w);
    RepliesRooted(t.workers[w]);
  }

  lemma EntryPinned(s: State, id: nat)
    requires Orderly(s) && id in s.entries
    ensures var e := s.entries[id];
            && e.worker < |s.workers| && e.lease < |s.leases|
            && s.workers[e.worker].root.Some? && s.leases[e.lease].identity == s.workers[e.worker].root
  {
    hide ClientSafety.Safe;
    assert WorkerOf(s, id) == Some(s.entries[id].worker) && LeaseOf(s, id) == Some(s.entries[id].lease);
  }

  lemma RepliesRooted(w: Client.State)
    requires ClientSafety.Safe(w)
    ensures forall x :: x in w.host.log && x.outcome.Replied? ==>
              && x.outcome.child < |w.host.processes| && w.host.processes[x.outcome.child].greeted == w.root
  {
    hide ClientSafety.Processes, ClientSafety.Accounted, ClientSafety.Ledger, ClientSafety.Written;
  }
}
