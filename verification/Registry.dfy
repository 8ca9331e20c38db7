/** The workspace registry as steps between awaits: registrations in flight, entries, their workers and root leases. */
module Registry {
  import opened Basics
  import opened Protocol
  import opened Service
  import Client
  import Policies

  const CAPACITY: nat := 32

  /** A registered workspace: its policy, its worker, and the root lease it keeps open. */
  datatype Entry = Entry(policy: Policies.Policy, worker: nat, lease: nat)

  /** What a registration in flight is waiting for. A worker promise is one issued by the worker it names. */
  datatype Phase =
    | Resolving
    | Leasing
    | Inspecting(lease: nat)
    | Greeting(lease: nat, worker: nat, promise: nat)
    | Validating(lease: nat, worker: nat, promise: nat)
    | Unwinding(fault: WorkspaceFault)

  datatype Task = Task(policy: Policies.Policy, phase: Phase)

  datatype Lease = Lease(held: bool, identity: Option<Client.Identity>)
  datatype Stat = Stat(directory: bool, identity: Client.Identity)

  /** A search, read or unregistering asked for: refused, or a request put to a worker, whose promise is the answer. */
  datatype Call =
    | Failed(fault: WorkspaceFault)
    | Put(id: nat, policy: Policies.Policy, request: Request, worker: nat, promise: nat)

  datatype State = State(
    entries: map<nat, Entry>,
    closed: bool,
    registering: nat,
    tasks: map<nat, Task>,
    workers: seq<Client.State>,
    leases: seq<Lease>,
    results: map<nat, Option<WorkspaceFault>>,
    issued: nat,
    calls: seq<Call>)

  const EMPTY := State(map[], false, 0, map[], [], [], map[], 0, [])

  function Release(leases: seq<Lease>, l: nat): seq<Lease>
    requires l < |leases|
  {
    leases[l := leases[l].(held := false)]
  }

  function Disposed(workers: seq<Client.State>, w: nat): seq<Client.State>
    requires w < |workers|
  {
    workers[w := Client.DisposeAt(workers[w])]
  }

  // ---- Registering ----------------------------------------------------------------------------------

  /** A call that fails before it waits for anything. */
  function Refuse(s: State, fault: WorkspaceFault): State {
    s.(results := s.results[s.issued := Some(fault)], issued := s.issued + 1)
  }

  /** The policy a caller's input compiles to, if it has the right shape and does. */
  function Compiled(input: Option<Policies.PolicyInput>): Option<Policies.Policy> {
    if input.None? then None else Policies.CreatePolicy(input.value)
  }

  function BeginAt(s: State, rootOk: bool, policy: Option<Policies.Policy>): State {
    if s.closed then Refuse(s, RegistryClosed)
    else if !rootOk || policy.None? then Refuse(s, BadWorkspaceRequest)
    else if |s.entries| + s.registering >= CAPACITY then Refuse(s, RegistryFull)
    else s.(registering := s.registering + 1, tasks := s.tasks[s.issued := Task(policy.value, Resolving)], issued := s.issued + 1)
  }

  function SetPhase(s: State, t: nat, phase: Phase): State
    requires t in s.tasks
  {
    s.(tasks := s.tasks[t := s.tasks[t].(phase := phase)])
  }

  /** Indices a phase holds exist. */
  predicate PhaseOk(s: State, p: Phase) {
    match p
    case Resolving => true
    case Leasing => true
    case Inspecting(l) => l < |s.leases|
    case Greeting(l, w, _) => l < |s.leases| && w < |s.workers|
    case Validating(l, w, _) => l < |s.leases| && w < |s.workers|
    case Unwinding(_) => true
  }

  /** The catch block up to its await: the worker is closed and the lease is being closed. */
  function UnwindAt(s: State, t: nat, fault: WorkspaceFault): State
    requires t in s.tasks && PhaseOk(s, s.tasks[t].phase)
  {
    var u := SetPhase(s, t, Unwinding(fault));
    match s.tasks[t].phase
    case Resolving => u
    case Leasing => u
    case Inspecting(l) => u.(leases := Release(s.leases, l))
    case Greeting(l, w, _) => u.(leases := Release(s.leases, l), workers := Disposed(s.workers, w))
    case Validating(l, w, _) => u.(leases := Release(s.leases, l), workers := Disposed(s.workers, w))
    case Unwinding(_) => u
  }

  function ResolvedAt(s: State, t: nat, ok: bool): State
    requires t in s.tasks && s.tasks[t].phase.Resolving?
  {
    if ok then SetPhase(s, t, Leasing) else UnwindAt(s, t, WorkspaceUnavailable)
  }

  function LeasedAt(s: State, t: nat, ok: bool): State
    requires t in s.tasks && s.tasks[t].phase.Leasing?
  {
    if ok then SetPhase(s, t, Inspecting(|s.leases|)).(leases := s.leases + [Lease(true, None)])
    else UnwindAt(s, t, WorkspaceUnavailable)
  }

  /** The root's identity is read from the open lease and pinned into the worker, which is then opened. */
  function InspectedAt(s: State, t: nat, stat: Option<Stat>): State
    requires t in s.tasks && s.tasks[t].phase.Inspecting? && PhaseOk(s, s.tasks[t].phase)
  {
    if stat.None? || !stat.value.directory then UnwindAt(s, t, WorkspaceUnavailable)
    else if s.closed then UnwindAt(s, t, RegistryClosed)
    else
      var l := s.tasks[t].phase.lease;
      var identity := stat.value.identity;
      SetPhase(s, t, Greeting(l, |s.workers|, 0)).(
        leases := s.leases[l := s.leases[l].(identity := Some(identity))],
        workers := s.workers + [Client.OpenAt(Client.Initial(Some(identity)))])
  }

  /** How a worker's promise was settled, if it has been. */
  function Awaited(log: seq<Client.Settlement>, p: nat): Option<Client.Outcome> {
    if |log| == 0 then None
    else if log[|log| - 1].promise == p then Some(log[|log| - 1].outcome)
    else Awaited(log[..|log| - 1], p)
  }

  predicate Settled(s: State, w: nat, p: nat) { w < |s.workers| && Awaited(s.workers[w].host.log, p).Some? }

  /** What a caller may choose of a search: never the root, the file-size limit, or more than the policy admits. */
  datatype Ask = Ask(request: Request, narrow: Policies.Narrow, remaining: int)

  /** The request sent for an ask under a policy. */
  function Authorised(policy: Policies.Policy, request: Request, narrow: Policies.Narrow, validateOnly: bool): Request {
    request.(scope := Policies.Narrowed(policy, narrow), maxFileBytes := policy.maxFileBytes, validateScopeOnly := validateOnly)
  }

  /** Once the worker has greeted, it is asked to validate the unnarrowed scope. */
  function GreetedAt(s: State, t: nat, check: Ask): State
    requires t in s.tasks && s.tasks[t].phase.Greeting? && PhaseOk(s, s.tasks[t].phase)
    requires Settled(s, s.tasks[t].phase.worker, s.tasks[t].phase.promise)
  {
    var phase := s.tasks[t].phase;
    if Awaited(s.workers[phase.worker].host.log, phase.promise) != Some(Client.Opened) then UnwindAt(s, t, WorkspaceUnavailable)
    else
      var w := s.workers[phase.worker];
      SetPhase(s, t, Validating(phase.lease, phase.worker, w.host.promises)).(
        workers := s.workers[phase.worker :=
          Client.SearchAt(w, Authorised(s.tasks[t].policy, check.request, Policies.UNNARROWED, true), Client.Absent, check.remaining)])
  }

  function ValidatedAt(s: State, t: nat): State
    requires t in s.tasks && s.tasks[t].phase.Validating? && PhaseOk(s, s.tasks[t].phase)
    requires Settled(s, s.tasks[t].phase.worker, s.tasks[t].phase.promise)
  {
    var phase := s.tasks[t].phase;
    match Awaited(s.workers[phase.worker].host.log, phase.promise).value
    case Replied(_, Answered(_)) =>
      if s.closed then UnwindAt(s, t, RegistryClosed)
      else s.(entries := s.entries[t := Entry(s.tasks[t].policy, phase.worker, phase.lease)],
              tasks := s.tasks - {t}, registering := if s.registering > 0 then s.registering - 1 else 0, results := s.results[t := None])
    case Replied(_, Refused(_)) => UnwindAt(s, t, BadWorkspaceRequest)
    case _ => UnwindAt(s, t, WorkspaceUnavailable)
  }

  function UnwoundAt(s: State, t: nat): State
    requires t in s.tasks && s.tasks[t].phase.Unwinding?
  {
    s.(tasks := s.tasks - {t}, registering := if s.registering > 0 then s.registering - 1 else 0,
       results := s.results[t := Some(s.tasks[t].phase.fault)])
  }

  function WithWorker(s: State, w: nat, v: Client.State): State
    requires w < |s.workers|
  {
    s.(workers := s.workers[w := v])
  }

  // ---- Using and ending registrations -----------------------------------------------------------------

  predicate NarrowAcceptable(narrow: Policies.Narrow) {
    Policies.PatternsAcceptable(narrow.includes) && Policies.PatternsAcceptable(narrow.excludes)
  }

  function RefuseCall(s: State, fault: WorkspaceFault): State { s.(calls := s.calls + [Failed(fault)]) }

  /** A search or read by ids goes to that workspace's worker, under its policy narrowed as asked. */
  function QueryAt(s: State, id: nat, samePolicy: bool, wellFormed: bool, ask: Ask, signal: Client.Signal): State
    requires id in s.entries ==> s.entries[id].worker < |s.workers|
  {
    if s.closed then RefuseCall(s, RegistryClosed)
    else if !wellFormed || !NarrowAcceptable(ask.narrow) then RefuseCall(s, BadWorkspaceRequest)
    else if id !in s.entries || !samePolicy then RefuseCall(s, WorkspaceOutOfScope)
    else
      var e := s.entries[id];
      var w := s.workers[e.worker];
      var request := Authorised(e.policy, ask.request, ask.narrow, false);
      WithWorker(s, e.worker, Client.SearchAt(w, request, signal, ask.remaining)).(
        calls := s.calls + [Put(id, e.policy, request, e.worker, w.host.promises)])
  }

  /** What names and fingerprints stand for: the ids handed out at registration, and hashes of policies and scopes. */
  datatype Names = Names(
    workspaceId: nat -> bytes,
    scopePolicyId: nat -> bytes,
    policyHash: Policies.Policy -> bytes,
    effectivePolicyHash: (bytes, ScopeInput) -> bytes)

  /** What a call's caller gets, once its promise is settled. */
  function AnswerTo(n: Names, s: State, call: Call): Option<Reached> {
    match call
    case Failed(fault) => Some(Raised(FromWorkspace(fault)))
    case Put(id, policy, request, w, p) =>
      if w >= |s.workers| then None
      else
        match Awaited(s.workers[w].host.log, p)
        case Some(Replied(_, reply)) =>
          var hash := n.policyHash(policy);
          Some(Returned(Scoped(n.workspaceId(id), n.scopePolicyId(id), hash, n.effectivePolicyHash(hash, request.scope), policy, request.scope, reply)))
        case Some(Rejected(fault)) => Some(Raised(FromClient(fault)))
        case _ => None
  }

  function UnregisterAt(s: State, id: nat): State
    requires id in s.entries ==> s.entries[id].worker < |s.workers| && s.entries[id].lease < |s.leases|
  {
    if id !in s.entries then RefuseCall(s, WorkspaceOutOfScope)
    else
      var e := s.entries[id];
      s.(workers := Disposed(s.workers, e.worker), leases := Release(s.leases, e.lease), entries := s.entries - {id})
  }

  predicate EntriesOk(s: State) {
    forall id :: id in s.entries ==> s.entries[id].worker < |s.workers| && s.entries[id].lease < |s.leases|
  }

  function OwnedWorkers(entries: map<nat, Entry>): set<nat> { set id | id in entries :: entries[id].worker }
  function OwnedLeases(entries: map<nat, Entry>): set<nat> { set id | id in entries :: entries[id].lease }

  function DisposedAll(workers: seq<Client.State>, ws: set<nat>): seq<Client.State> {
    seq(|workers|, i requires 0 <= i < |workers| => if i in ws then Client.DisposeAt(workers[i]) else workers[i])
  }

  function ReleasedAll(leases: seq<Lease>, ls: set<nat>): seq<Lease> {
    seq(|leases|, i requires 0 <= i < |leases| => if i in ls then leases[i].(held := false) else leases[i])
  }

  /** No two entries share a worker or a lease. */
  ghost predicate Apart(entries: map<nat, Entry>) {
    forall a, b :: a in entries && b in entries && a != b ==>
      entries[a].worker != entries[b].worker && entries[a].lease != entries[b].lease
  }

  /** The entries already ended and those left, while closing. */
  ghost predicate Halves(entries: map<nat, Entry>, done: map<nat, Entry>, rest: map<nat, Entry>) {
    && Apart(entries)
    && (forall id :: id in done ==> id in entries && entries[id] == done[id] && id !in rest)
    && (forall id :: id in rest ==> id in entries && entries[id] == rest[id])
    && (forall id :: id in entries ==> id in done || id in rest)
  }

  lemma HalvesStart(entries: map<nat, Entry>)
    requires Apart(entries)
    ensures Halves(entries, map[], entries)
  {
  }

  lemma HalvesStep(entries: map<nat, Entry>, done: map<nat, Entry>, rest: map<nat, Entry>, id: nat)
    requires Halves(entries, done, rest) && id in rest
    ensures Halves(entries, done[id := rest[id]], rest - {id})
    ensures id in entries && entries[id] == rest[id] && id !in done && |rest - {id}| < |rest|
    ensures rest[id].worker !in OwnedWorkers(done) && rest[id].lease !in OwnedLeases(done)
  {
    SmallerMap(rest, id);
    forall a | a in done
      ensures done[a].worker != rest[id].worker && done[a].lease != rest[id].lease
    {
      assert a in entries && a != id;
    }
  }

  lemma SmallerMap(rest: map<nat, Entry>, id: nat)
    requires id in rest
    ensures |rest - {id}| < |rest| && (rest - {id}).Keys == rest.Keys - {id}
  {
    assert (rest - {id}).Keys == rest.Keys - {id};
    assert |rest| == |rest.Keys| && |rest - {id}| == |(rest - {id}).Keys|;
  }

  lemma HalvesEnd(entries: map<nat, Entry>, done: map<nat, Entry>)
    requires Halves(entries, done, map[])
    ensures done == entries
  {
    assert done.Keys == entries.Keys;
  }

  lemma DisposedNone(workers: seq<Client.State>, leases: seq<Lease>)
    ensures DisposedAll(workers, OwnedWorkers(map[])) == workers
    ensures ReleasedAll(leases, OwnedLeases(map[])) == leases
  {
    hide Client.DisposeAt;
  }

  /** Ending one more entry that shares nothing with those already ended. */
  lemma DisposedOneMore(workers: seq<Client.State>, leases: seq<Lease>, done: map<nat, Entry>, id: nat, e: Entry)
    requires id !in done && e.worker < |workers| && e.lease < |leases|
    requires e.worker !in OwnedWorkers(done) && e.lease !in OwnedLeases(done)
    ensures Disposed(DisposedAll(workers, OwnedWorkers(done)), e.worker) == DisposedAll(workers, OwnedWorkers(done[id := e]))
    ensures Release(ReleasedAll(leases, OwnedLeases(done)), e.lease) == ReleasedAll(leases, OwnedLeases(done[id := e]))
  {
    hide Client.DisposeAt;
    var more := done[id := e];
    assert OwnedWorkers(more) == OwnedWorkers(done) + {e.worker} by {
      forall x | x in OwnedWorkers(done)
        ensures x in OwnedWorkers(more)
      {
        var d :| d in done && done[d].worker == x;
        assert d in more && more[d].worker == x;
      }
      assert id in more && more[id].worker == e.worker;
    }
    assert OwnedLeases(more) == OwnedLeases(done) + {e.lease} by {
      forall x | x in OwnedLeases(done)
        ensures x in OwnedLeases(more)
      {
        var d :| d in done && done[d].lease == x;
        assert d in more && more[d].lease == x;
      }
      assert id in more && more[id].lease == e.lease;
    }
  }

  function CloseAt(s: State): State {
    s.(closed := true, workers := DisposedAll(s.workers, OwnedWorkers(s.entries)), leases := ReleasedAll(s.leases, OwnedLeases(s.entries)),
       entries := map[])
  }

  datatype Event =
    | Begin(rootOk: bool, input: Option<Policies.PolicyInput>)
    | Resolved(task: nat, ok: bool)
    | Leased(task: nat, ok: bool)
    | Inspected(task: nat, stat: Option<Stat>)
    | Greeted(task: nat, check: Ask)
    | Validated(task: nat)
    | Unwound(task: nat)
    | Query(id: nat, samePolicy: bool, wellFormed: bool, ask: Ask, signal: Client.Signal)
    | Unregister(id: nat)
    | Close
    | WorkerEvent(worker: nat, event: Client.Event)

  /** A registration resumes only from the await it is in; a worker promise only once settled; worker events as the platform raises them. */
  predicate Legal(s: State, e: Event) {
    match e
    case Begin(_, _) => true
    case Resolved(t, _) => t in s.tasks && s.tasks[t].phase.Resolving?
    case Leased(t, _) => t in s.tasks && s.tasks[t].phase.Leasing?
    case Inspected(t, _) => t in s.tasks && s.tasks[t].phase.Inspecting? && PhaseOk(s, s.tasks[t].phase)
    case Greeted(t, _) =>
      && t in s.tasks && s.tasks[t].phase.Greeting? && PhaseOk(s, s.tasks[t].phase)
      && Settled(s, s.tasks[t].phase.worker, s.tasks[t].phase.promise)
    case Validated(t) =>
      && t in s.tasks && s.tasks[t].phase.Validating? && PhaseOk(s, s.tasks[t].phase)
      && Settled(s, s.tasks[t].phase.worker, s.tasks[t].phase.promise)
    case Unwound(t) => t in s.tasks && s.tasks[t].phase.Unwinding?
    case Query(_, _, _, _, _) => EntriesOk(s)
    case Unregister(id) => EntriesOk(s)
    case Close => EntriesOk(s)
    case WorkerEvent(w, event) =>
      w < |s.workers| && Client.Legal(s.workers[w], event) && !event.Open? && !event.Search? && !event.Dispose?
  }

  function StepAt(c: Client.Codec, s: State, e: Event): State
    requires Legal(s, e)
  {
    match e
    case Begin(rootOk, input) => BeginAt(s, rootOk, Compiled(input))
    case Resolved(t, ok) => ResolvedAt(s, t, ok)
    case Leased(t, ok) => LeasedAt(s, t, ok)
    case Inspected(t, stat) => InspectedAt(s, t, stat)
    case Greeted(t, check) => GreetedAt(s, t, check)
    case Validated(t) => ValidatedAt(s, t)
    case Unwound(t) => UnwoundAt(s, t)
    case Query(id, samePolicy, wellFormed, ask, signal) => QueryAt(s, id, samePolicy, wellFormed, ask, signal)
    case Unregister(id) => UnregisterAt(s, id)
    case Close => CloseAt(s)
    case WorkerEvent(w, event) => WithWorker(s, w, Client.StepAt(c, s.workers[w], event))
  }

  /** The registry object. Its tasks are the suspended calls of `register`; workers and leases are the objects it made. */
  class WorkspaceRegistry {
    var entries: map<nat, Entry>
    var closed: bool
    var registering: nat
    var tasks: map<nat, Task>
    var workers: seq<Client.State>
    var leases: seq<Lease>
    var results: map<nat, Option<WorkspaceFault>>
    var issued: nat
    var calls: seq<Call>

    function Current(): State
      reads this
    {
      State(entries, closed, registering, tasks, workers, leases, results, issued, calls)
    }

    constructor ()
      ensures Current() == EMPTY
    {
      entries, closed, registering, tasks, workers, leases, results, issued := map[], false, 0, map[], [], [], map[], 0;
      calls := [];
    }

    method Register(rootOk: bool, input: Option<Policies.PolicyInput>)
      modifies this
      ensures Current() == BeginAt(old(Current()), rootOk, Compiled(input))
    {
      hide Compiled;
      var policy := Compiled(input);
      var t := issued;
      issued := issued + 1;
      if closed {
        results := results[t := Some(RegistryClosed)];
      } else if !rootOk || policy.None? {
        results := results[t := Some(BadWorkspaceRequest)];
      } else if |entries| + registering >= CAPACITY {
        results := results[t := Some(RegistryFull)];
      } else {
        registering := registering + 1;
        tasks := tasks[t := Task(policy.value, Resolving)];
      }
    }

    method ResumeResolved(t: nat, ok: bool)
      requires t in tasks && tasks[t].phase.Resolving?
      modifies this
      ensures Current() == ResolvedAt(old(Current()), t, ok)
    {
      if ok {
        tasks := tasks[t := tasks[t].(phase := Leasing)];
      } else {
        Unwind(t, WorkspaceUnavailable);
      }
    }

    method ResumeLeased(t: nat, ok: bool)
      requires t in tasks && tasks[t].phase.Leasing?
      modifies this
      ensures Current() == LeasedAt(old(Current()), t, ok)
    {
      if ok {
        tasks := tasks[t := tasks[t].(phase := Inspecting(|leases|))];
        leases := leases + [Lease(true, None)];
      } else {
        Unwind(t, WorkspaceUnavailable);
      }
    }

    method ResumeInspected(t: nat, stat: Option<Stat>)
      requires t in tasks && tasks[t].phase.Inspecting? && PhaseOk(Current(), tasks[t].phase)
      modifies this
      ensures Current() == InspectedAt(old(Current()), t, stat)
    {
      hide UnwindAt, Client.OpenAt, Client.Initial;
      if stat.None? || !stat.value.directory {
        Unwind(t, WorkspaceUnavailable);
        return;
      }
      if closed {
        Unwind(t, RegistryClosed);
        return;
      }
      var l := tasks[t].phase.lease;
      tasks := tasks[t := tasks[t].(phase := Greeting(l, |workers|, 0))];
      leases := leases[l := leases[l].(identity := Some(stat.value.identity))];
      workers := workers + [Client.OpenAt(Client.Initial(Some(stat.value.identity)))];
    }

    method ResumeGreeted(t: nat, check: Ask)
      requires t in tasks && tasks[t].phase.Greeting? && PhaseOk(Current(), tasks[t].phase)
      requires Settled(Current(), tasks[t].phase.worker, tasks[t].phase.promise)
      modifies this
      ensures Current() == GreetedAt(old(Current()), t, check)
    {
      hide UnwindAt, Client.SearchAt, Awaited, Authorised;
      var phase := tasks[t].phase;
      if Awaited(workers[phase.worker].host.log, phase.promise) != Some(Client.Opened) {
        Unwind(t, WorkspaceUnavailable);
        return;
      }
      var w := workers[phase.worker];
      var request := Authorised(tasks[t].policy, check.request, Policies.UNNARROWED, true);
      tasks := tasks[t := tasks[t].(phase := Validating(phase.lease, phase.worker, w.host.promises))];
      workers := workers[phase.worker := Client.SearchAt(w, request, Client.Absent, check.remaining)];
    }

    /** Resuming after the scope validation: the one place where an entry appears. */
    method FinishRegister(t: nat)
      requires t in tasks && tasks[t].phase.Validating? && PhaseOk(Current(), tasks[t].phase)
      requires Settled(Current(), tasks[t].phase.worker, tasks[t].phase.promise)
      modifies this
      ensures Current() == ValidatedAt(old(Current()), t)
    {
      hide Client.DisposeAt;
      var phase := tasks[t].phase;
      var outcome := Awaited(workers[phase.worker].host.log, phase.promise).value;
      if outcome.Replied? && outcome.reply.Answered? {
        if closed {
          Unwind(t, RegistryClosed);
          return;
        }
        entries := entries[t := Entry(tasks[t].policy, phase.worker, phase.lease)];
        tasks := tasks - {t};
        registering := if registering > 0 then registering - 1 else 0;
        results := results[t := None];
      } else if outcome.Replied? {
        Unwind(t, BadWorkspaceRequest);
      } else {
        Unwind(t, WorkspaceUnavailable);
      }
    }

    method Unwind(t: nat, fault: WorkspaceFault)
      requires t in tasks && PhaseOk(Current(), tasks[t].phase)
      modifies this
      ensures Current() == UnwindAt(old(Current()), t, fault)
    {
      hide Client.DisposeAt;
      var phase := tasks[t].phase;
      if phase.Greeting? || phase.Validating? {
        workers := workers[phase.worker := Client.DisposeAt(workers[phase.worker])];
      }
      if phase.Inspecting? || phase.Greeting? || phase.Validating? {
        leases := leases[phase.lease := leases[phase.lease].(held := false)];
      }
      tasks := tasks[t := tasks[t].(phase := Unwinding(fault))];
    }

    method Search(id: nat, samePolicy: bool, wellFormed: bool, ask: Ask, signal: Client.Signal)
      requires EntriesOk(Current())
      modifies this
      ensures Current() == QueryAt(old(Current()), id, samePolicy, wellFormed, ask, signal)
    {
      hide Client.SearchAt, NarrowAcceptable, Authorised;
      if closed {
        calls := calls + [Failed(RegistryClosed)];
        return;
      }
      if !wellFormed || !NarrowAcceptable(ask.narrow) {
        calls := calls + [Failed(BadWorkspaceRequest)];
        return;
      }
      if id !in entries || !samePolicy {
        calls := calls + [Failed(WorkspaceOutOfScope)];
        return;
      }
      var e := entries[id];
      var request := Authorised(e.policy, ask.request, ask.narrow, false);
      var promise := workers[e.worker].host.promises;
      workers := workers[e.worker := Client.SearchAt(workers[e.worker], request, signal, ask.remaining)];
      calls := calls + [Put(id, e.policy, request, e.worker, promise)];
    }

    /** A search after its await: the reply with the policy and the scope it was asked under. */
    method FinishSearch(n: Names, call: Call) returns (reached: Option<Reached>)
      ensures reached == AnswerTo(n, Current(), call)
    {
      if call.Failed? {
        return Some(Raised(FromWorkspace(call.fault)));
      }
      if call.worker >= |workers| {
        return None;
      }
      var outcome := Awaited(workers[call.worker].host.log, call.promise);
      if outcome.None? || outcome.value.Opened? {
        return None;
      }
      if outcome.value.Rejected? {
        return Some(Raised(FromClient(outcome.value.fault)));
      }
      var hash := n.policyHash(call.policy);
      return Some(Returned(Scoped(n.workspaceId(call.id), n.scopePolicyId(call.id), hash,
                                  n.effectivePolicyHash(hash, call.request.scope), call.policy, call.request.scope, outcome.value.reply)));
    }

    /** Closing an entry's worker and its root lease. */
    method End(e: Entry)
      requires e.worker < |workers| && e.lease < |leases|
      modifies `workers, `leases
      ensures workers == Disposed(old(workers), e.worker) && leases == Release(old(leases), e.lease)
    {
      workers := workers[e.worker := Client.DisposeAt(workers[e.worker])];
      leases := leases[e.lease := leases[e.lease].(held := false)];
    }

    method Unregister(id: nat)
      requires EntriesOk(Current())
      modifies this
      ensures Current() == UnregisterAt(old(Current()), id)
    {
      hide Client.DisposeAt;
      if id !in entries {
        calls := calls + [Failed(WorkspaceOutOfScope)];
        return;
      }
      End(entries[id]);
      entries := entries - {id};
    }

    method Close()
      requires EntriesOk(Current()) && Apart(entries)
      modifies this
      ensures Current() == CloseAt(old(Current()))
    {
      hide Client.DisposeAt, DisposedAll, ReleasedAll, OwnedWorkers, OwnedLeases, Apart, Halves;
      closed := true;
      var rest := entries;
      ghost var done: map<nat, Entry> := map[];
      DisposedNone(workers, leases);
      HalvesStart(entries);
      while rest != map[]
        invariant Halves(entries, done, rest)
        invariant |workers| == old(|workers|) && |leases| == old(|leases|)
        invariant workers == DisposedAll(old(workers), OwnedWorkers(done))
        invariant leases == ReleasedAll(old(leases), OwnedLeases(done))
        modifies `workers, `leases
        decreases |rest|
      {
        var id :| id in rest;
        HalvesStep(entries, done, rest, id);
        DisposedOneMore(old(workers), old(leases), done, id, rest[id]);
        End(rest[id]);
        done := done[id := rest[id]];
        rest := rest - {id};
      }
      HalvesEnd(entries, done);
      entries := map[];
    }
  }
}
