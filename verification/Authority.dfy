/** What a registered workspace can be asked: never more than its policy, and what is found lies within that policy. */
module Authority {
  import opened Basics
  import opened Registry
  import opened RegistryProofs
  import opened Requests
  import Client
  import Engines
  import FaultyReads
  import Policies
  import Protocol
  import Reads
  import Refinement
  import Scoping
  import Searching
  import Service
  import Trees
  import World

  // ---- Authority -------------------------------------------------------------------------------------------

  /** The request searches under the policy's own size limit and some narrowing of the policy's scope. */
  ghost predicate RequestWithin(policy: Policies.Policy, r: Protocol.Request) {
    r.maxFileBytes == policy.maxFileBytes && exists n :: Policies.NarrowPolicy(policy, n) == Some(r.scope)
  }

  function PolicyOf(s: State, id: nat): Option<Policies.Policy> {
    if id in s.entries then Some(s.entries[id].policy)
    else if id in s.tasks then Some(s.tasks[id].policy)
    else None
  }

  ghost predicate Permitted(policy: Option<Policies.Policy>, w: Client.State) {
    policy.Some? && forall r :: r in Asked(w) ==> RequestWithin(policy.value, r)
  }

  /** Every worker held under an id has been given only requests within that id's policy. */
  ghost predicate Confined(s: State) {
    forall id: nat :: WorkerOf(s, id).Some? ==> WorkerOf(s, id).value < |s.workers| && Permitted(PolicyOf(s, id), s.workers[WorkerOf(s, id).value])
  }

  /** What a worker held in `t` may have been given beyond what it had been given in `s`. */
  ghost predicate Carries(s: State, t: State, id: nat)
    requires WorkerOf(t, id).Some? && WorkerOf(t, id).value < |t.workers|
  {
    var w := WorkerOf(t, id).value;
    && PolicyOf(t, id).Some?
    && if WorkerOf(s, id) == Some(w) && w < |s.workers| then
         PolicyOf(s, id) == PolicyOf(t, id)
         && forall r :: r in Asked(t.workers[w]) ==> r in Asked(s.workers[w]) || RequestWithin(PolicyOf(t, id).value, r)
       else Asked(t.workers[w]) == {}
  }

  lemma ConfinedStep(s: State, t: State)
    requires Confined(s)
    requires forall id: nat :: WorkerOf(t, id).Some? ==> WorkerOf(t, id).value < |t.workers| && Carries(s, t, id)
    ensures Confined(t)
  {
    hide RequestWithin, Asked, PolicyOf, WorkerOf;
    forall id: nat | WorkerOf(t, id).Some?
      ensures Permitted(PolicyOf(t, id), t.workers[WorkerOf(t, id).value])
    {
      assert Carries(s, t, id);
    }
  }

  /** Holdings and policies survive for every id that still holds a worker, and no worker was given more. */
  lemma ConfinedIfNoMore(s: State, t: State)
    requires Confined(s) && |s.workers| <= |t.workers|
    requires forall id: nat :: WorkerOf(t, id).Some? ==> WorkerOf(s, id) == WorkerOf(t, id) && PolicyOf(s, id) == PolicyOf(t, id)
    requires forall w: nat :: w < |s.workers| ==> Asked(t.workers[w]) <= Asked(s.workers[w])
    ensures Confined(t)
  {
    hide RequestWithin, Asked, PolicyOf, WorkerOf;
    forall id: nat | WorkerOf(t, id).Some?
      ensures WorkerOf(t, id).value < |t.workers| && Carries(s, t, id)
    {
      assert WorkerOf(s, id).Some?;
    }
    ConfinedStep(s, t);
  }

  lemma UnwindConfined(s: State, id: nat, fault: Service.WorkspaceFault)
    requires Confined(s) && id in s.tasks && id !in s.entries && PhaseOk(s, s.tasks[id].phase)
    ensures Confined(UnwindAt(s, id, fault))
  {
    forall w: nat | w < |s.workers|
      ensures Asked(Client.DisposeAt(s.workers[w])) <= Asked(s.workers[w])
    {
      DisposeAsks(s.workers[w]);
    }
    hide Client.DisposeAt, Asked, Confined;
    var t := UnwindAt(s, id, fault);
    UnwindFrees(s, id, fault);
    forall x: nat | WorkerOf(t, x).Some?
      ensures WorkerOf(s, x) == WorkerOf(t, x) && PolicyOf(s, x) == PolicyOf(t, x)
    {
    }
    ConfinedIfNoMore(s, t);
  }

  lemma NumberedWithin(w: Client.State, policy: Policies.Policy, request: Protocol.Request, narrow: Policies.Narrow, validateOnly: bool)
    requires Policies.NarrowPolicy(policy, narrow).Some?
    ensures RequestWithin(policy, Undated(Numbered(w, Authorised(policy, request, narrow, validateOnly))))
  {
    hide Client.RequestId, Policies.PatternsAcceptable, Policies.Canonical;
  }

  lemma UnnarrowedAccepted(policy: Policies.Policy)
    ensures Policies.NarrowPolicy(policy, Policies.UNNARROWED).Some?
  {
  }

  /** Asking one held worker for one thing within its policy. */
  lemma AskConfined(s: State, t: State, id: nat, v: Client.State, r: Protocol.Request)
    requires Confined(s) && WorkersOwned(s) && WorkerOf(s, id).Some? && WorkerOf(s, id).value < |s.workers|
    requires t.workers == s.workers[WorkerOf(s, id).value := v]
    requires Asked(v) <= Asked(s.workers[WorkerOf(s, id).value]) + {r}
    requires PolicyOf(s, id).Some? && RequestWithin(PolicyOf(s, id).value, r)
    requires forall x: nat :: WorkerOf(t, x) == WorkerOf(s, x) && PolicyOf(t, x) == PolicyOf(s, x)
    ensures Confined(t)
  {
    hide RequestWithin, Asked, PolicyOf, WorkerOf;
    forall x: nat | WorkerOf(t, x).Some?
      ensures WorkerOf(t, x).value < |t.workers| && Carries(s, t, x)
    {
      assert WorkerOf(s, x).Some? && Permitted(PolicyOf(s, x), s.workers[WorkerOf(s, x).value]);
      assert x != id ==> WorkerOf(s, x) != WorkerOf(s, id);
    }
    ConfinedStep(s, t);
  }

  lemma GreetedConfined(s: State, id: nat, check: Ask)
    requires Orderly(s) && Confined(s) && id in s.tasks && s.tasks[id].phase.Greeting? && PhaseOk(s, s.tasks[id].phase)
    requires Settled(s, s.tasks[id].phase.worker, s.tasks[id].phase.promise)
    ensures Confined(GreetedAt(s, id, check))
  {
    hide LeasesOwned, Pinned, WorkersOwned, Awaited, Confined, RequestWithin, Asked;
    var phase := s.tasks[id].phase;
    TaskIsNoEntry(s, id);
    hide Counted;
    if Awaited(s.workers[phase.worker].host.log, phase.promise) != Some(Client.Opened) {
      UnwindConfined(s, id, Service.WorkspaceUnavailable);
    } else {
      var policy := s.tasks[id].policy;
      var t := GreetedAt(s, id, check);
      var w := s.workers[phase.worker];
      var request := Authorised(policy, check.request, Policies.UNNARROWED, true);
      UnnarrowedAccepted(policy);
      NumberedWithin(w, policy, check.request, Policies.UNNARROWED, true);
      SearchAsks(w, request, Client.Absent, check.remaining);
      hide Client.SearchAt, Authorised, Numbered;
      RephasedHoldings(s, t, id);
      RephasedPolicies(s, t, id);
      AskConfined(s, t, id, t.workers[phase.worker], Undated(Numbered(w, request)));
    }
  }

  lemma RephasedPolicies(s: State, t: State, id: nat)
    requires id in s.tasks && id in t.tasks && t.tasks == s.tasks[id := t.tasks[id]] && t.entries == s.entries
    requires t.tasks[id].policy == s.tasks[id].policy
    ensures forall x: nat :: PolicyOf(t, x) == PolicyOf(s, x)
  {
  }

  lemma QueryConfined(s: State, id: nat, samePolicy: bool, wellFormed: bool, ask: Ask, signal: Client.Signal)
    requires Orderly(s) && Confined(s) && EntriesOk(s)
    ensures Confined(QueryAt(s, id, samePolicy, wellFormed, ask, signal))
  {
    hide LeasesOwned, Pinned, WorkersOwned, Counted, Confined, RequestWithin, Asked;
    var t := QueryAt(s, id, samePolicy, wellFormed, ask, signal);
    if t.workers == s.workers {
      QuietConfined(s, t);
    } else {
      var policy := s.entries[id].policy;
      var w := s.workers[s.entries[id].worker];
      var request := Authorised(policy, ask.request, ask.narrow, false);
      NumberedWithin(w, policy, ask.request, ask.narrow, false);
      SearchAsks(w, request, signal, ask.remaining);
      hide Client.SearchAt, Authorised, Numbered;
      AskConfined(s, t, id, t.workers[s.entries[id].worker], Undated(Numbered(w, request)));
    }
  }

  /** A new worker has been asked nothing. */
  lemma NewWorkerConfined(s: State, t: State, id: nat, identity: Client.Identity)
    requires Confined(s) && Pins(s, t, id, identity) && id in t.tasks
    requires t.entries == s.entries && t.tasks.Keys == s.tasks.Keys && forall x :: x in t.tasks ==> t.tasks[x].policy == s.tasks[x].policy
    ensures Confined(t)
  {
    NothingAskedYet(identity);
    hide Client.OpenAt, Client.Initial, Asked, RequestWithin;
    forall x: nat
      ensures PolicyOf(t, x) == PolicyOf(s, x)
    {
    }
    hide PolicyOf;
    forall x: nat | WorkerOf(t, x).Some?
      ensures WorkerOf(t, x).value < |t.workers| && Carries(s, t, x)
    {
      if x == id {
        NewPolicy(t, id);
      } else {
        assert WorkerOf(s, x) == WorkerOf(t, x) && Permitted(PolicyOf(s, x), s.workers[WorkerOf(s, x).value]);
      }
    }
    ConfinedStep(s, t);
  }

  lemma NewPolicy(t: State, id: nat)
    requires id in t.tasks
    ensures PolicyOf(t, id).Some?
  {
  }

  lemma InspectedConfined(s: State, id: nat, stat: Option<Stat>)
    requires Orderly(s) && Confined(s) && id in s.tasks && s.tasks[id].phase.Inspecting? && PhaseOk(s, s.tasks[id].phase)
    ensures Confined(InspectedAt(s, id, stat))
  {
    TaskIsNoEntry(s, id);
    hide LeasesOwned, Pinned, WorkersOwned, Counted;
    if stat.None? || !stat.value.directory {
      UnwindConfined(s, id, Service.WorkspaceUnavailable);
    } else if s.closed {
      UnwindConfined(s, id, Service.RegistryClosed);
    } else {
      hide Client.OpenAt, Client.Initial, Asked, RequestWithin, Confined, Orderly;
      PinsRoot(s, InspectedAt(s, id, stat), id, stat.value.identity);
      NewWorkerConfined(s, InspectedAt(s, id, stat), id, stat.value.identity);
    }
  }

  lemma NothingAskedYet(identity: Client.Identity)
    ensures Asked(Client.OpenAt(Client.Initial(Some(identity)))) == {}
  {
  }

  lemma CloseConfined(s: State)
    requires Confined(s) && s.entries.Keys !! s.tasks.Keys
    ensures Confined(CloseAt(s))
  {
    var t := CloseAt(s);
    CloseLength(s);
    forall w: nat | w < |s.workers|
      ensures Asked(t.workers[w]) <= Asked(s.workers[w])
    {
      DisposeAsks(s.workers[w]);
    }
    hide Client.DisposeAt, Asked, Confined, DisposedAll, ReleasedAll, OwnedWorkers, OwnedLeases;
    forall id: nat | WorkerOf(t, id).Some?
      ensures WorkerOf(s, id) == WorkerOf(t, id) && PolicyOf(s, id) == PolicyOf(t, id)
    {
    }
    ConfinedIfNoMore(s, t);
  }

  lemma UnregisteredPolicies(s: State, t: State, id: nat)
    requires id in s.entries && id !in s.tasks && t.entries == s.entries - {id} && t.tasks == s.tasks
    ensures forall x: nat :: WorkerOf(t, x).Some? ==> WorkerOf(s, x) == WorkerOf(t, x) && PolicyOf(s, x) == PolicyOf(t, x)
  {
  }

  /** Ending one worker and letting its entry go. */
  lemma EndedConfined(s: State, t: State, id: nat, w: nat)
    requires Confined(s) && id in s.entries && id !in s.tasks && t.entries == s.entries - {id} && t.tasks == s.tasks
    requires w < |s.workers| && t.workers == Disposed(s.workers, w)
    ensures Confined(t)
  {
    hide Client.DisposeAt, Asked, Confined, WorkerOf, PolicyOf;
    DisposeAsks(s.workers[w]);
    UnregisteredPolicies(s, t, id);
    ConfinedIfNoMore(s, t);
  }

  lemma UnregisterConfined(s: State, id: nat)
    requires Orderly(s) && Confined(s) && EntriesOk(s)
    ensures Confined(UnregisterAt(s, id))
  {
    hide LeasesOwned, Pinned, WorkersOwned, Confined, Disposed, Release;
    if id !in s.entries {
      QuietConfined(s, UnregisterAt(s, id));
    } else {
      EndedConfined(s, UnregisterAt(s, id), id, s.entries[id].worker);
    }
  }

  lemma EnteredPolicies(s: State, t: State, id: nat)
    requires id in s.tasks && id !in s.entries && s.tasks[id].phase.Validating?
    requires t.entries == s.entries[id := Entry(s.tasks[id].policy, s.tasks[id].phase.worker, s.tasks[id].phase.lease)]
    requires t.tasks == s.tasks - {id}
    ensures forall x: nat :: WorkerOf(s, x) == WorkerOf(t, x) && PolicyOf(s, x) == PolicyOf(t, x)
  {
  }

  lemma ValidatedConfined(s: State, id: nat)
    requires Orderly(s) && Confined(s) && id in s.tasks && s.tasks[id].phase.Validating? && PhaseOk(s, s.tasks[id].phase)
    requires Settled(s, s.tasks[id].phase.worker, s.tasks[id].phase.promise)
    ensures Confined(ValidatedAt(s, id))
  {
    TaskIsNoEntry(s, id);
    hide Awaited, LeasesOwned, Pinned, WorkersOwned, Counted, Confined;
    var phase := s.tasks[id].phase;
    var outcome := Awaited(s.workers[phase.worker].host.log, phase.promise).value;
    if outcome.Replied? && outcome.reply.Answered? && !s.closed {
      var t := ValidatedAt(s, id);
      EnteredPolicies(s, t, id);
      QuietConfined(s, t);
    } else {
      hide UnwindAt, Orderly, WorkerOf, PolicyOf;
      UnwindConfined(s, id, Service.RegistryClosed);
      UnwindConfined(s, id, Service.BadWorkspaceRequest);
      UnwindConfined(s, id, Service.WorkspaceUnavailable);
    }
  }

  lemma WorkerEventConfined(c: Client.Codec, s: State, w: nat, event: Client.Event)
    requires Confined(s) && Legal(s, WorkerEvent(w, event))
    ensures Confined(WithWorker(s, w, Client.StepAt(c, s.workers[w], event)))
  {
    EventAsks(c, s.workers[w], event);
    hide Client.StepAt, Client.Legal, Asked, Confined;
    var t := WithWorker(s, w, Client.StepAt(c, s.workers[w], event));
    SameMaps(s, t);
    SamePolicies(s, t);
    hide WorkerOf, PolicyOf;
    ConfinedIfNoMore(s, t);
  }

  lemma SamePolicies(s: State, t: State)
    requires t.entries == s.entries && t.tasks == s.tasks
    ensures forall x: nat :: PolicyOf(t, x) == PolicyOf(s, x)
  {
  }

  /** Steps of a registration that touch no worker. */
  lemma QuietConfined(s: State, t: State)
    requires Confined(s) && t.workers == s.workers
    requires forall x: nat :: WorkerOf(t, x).Some? ==> WorkerOf(s, x) == WorkerOf(t, x) && PolicyOf(s, x) == PolicyOf(t, x)
    ensures Confined(t)
  {
    hide Asked, Confined;
    ConfinedIfNoMore(s, t);
  }

  lemma BeginConfined(s: State, rootOk: bool, policy: Option<Policies.Policy>)
    requires Confined(s) && s.issued !in s.entries && s.issued !in s.tasks
    ensures Confined(BeginAt(s, rootOk, policy))
  {
    hide Confined;
    QuietConfined(s, BeginAt(s, rootOk, policy));
  }

  lemma ResolvedConfined(s: State, id: nat, ok: bool)
    requires Confined(s) && id in s.tasks && id !in s.entries && s.tasks[id].phase.Resolving?
    ensures Confined(ResolvedAt(s, id, ok))
  {
    hide Confined, UnwindAt;
    UnwindConfined(s, id, Service.WorkspaceUnavailable);
    if ok {
      QuietConfined(s, ResolvedAt(s, id, ok));
    }
  }

  lemma LeasedConfined(s: State, id: nat, ok: bool)
    requires Confined(s) && id in s.tasks && id !in s.entries && s.tasks[id].phase.Leasing?
    ensures Confined(LeasedAt(s, id, ok))
  {
    hide Confined, UnwindAt;
    UnwindConfined(s, id, Service.WorkspaceUnavailable);
    if ok {
      QuietConfined(s, LeasedAt(s, id, ok));
    }
  }

  lemma UnwoundConfined(s: State, id: nat)
    requires Confined(s) && id in s.tasks && id !in s.entries && s.tasks[id].phase.Unwinding?
    ensures Confined(UnwoundAt(s, id))
  {
    hide Confined;
    QuietConfined(s, UnwoundAt(s, id));
  }

  lemma StepConfined(c: Client.Codec, s: State, e: Event)
    requires Orderly(s) && Confined(s) && Legal(s, e)
    ensures Confined(StepAt(c, s, e))
  {
    EntriesApart(s);
    hide Orderly, Confined, BeginAt, ResolvedAt, LeasedAt, InspectedAt, GreetedAt, ValidatedAt, UnwoundAt, QueryAt,
      UnregisterAt, CloseAt, WithWorker, Awaited, Client.Legal, Client.StepAt;
    match e
    case Begin(rootOk, input) => BeginConfined(s, rootOk, Compiled(input));
    case Resolved(id, ok) => ResolvedConfined(s, id, ok);
    case Leased(id, ok) => LeasedConfined(s, id, ok);
    case Inspected(id, stat) => InspectedConfined(s, id, stat);
    case Greeted(id, check) => GreetedConfined(s, id, check);
    case Validated(id) => ValidatedConfined(s, id);
    case Unwound(id) => UnwoundConfined(s, id);
    case Query(id, samePolicy, wellFormed, ask, signal) => QueryConfined(s, id, samePolicy, wellFormed, ask, signal);
    case Unregister(id) => UnregisterConfined(s, id);
    case Close => CloseConfined(s);
    case WorkerEvent(w, event) => WorkerEventConfined(c, s, w, event);
  }

  lemma EntriesApart(s: State)
    requires Orderly(s)
    ensures s.entries.Keys !! s.tasks.Keys && s.issued !in s.entries && s.issued !in s.tasks
  {
    hide LeasesOwned, WorkersOwned, Pinned;
  }

  lemma {:induction false} RunConfined(c: Client.Codec, s: State, events: seq<Event>)
    requires Orderly(s) && Confined(s) && LegalRun(c, s, events)
    ensures Orderly(RunAll(c, s, events)) && Confined(RunAll(c, s, events))
    decreases |events|
  {
    hide Orderly, Confined, StepAt, Legal;
    if |events| > 0 {
      StepKeeps(c, s, events[0]);
      StepConfined(c, s, events[0]);
      RunConfined(c, StepAt(c, s, events[0]), events[1..]);
    }
  }

  /** The worker was sent the request, or it is the one outstanding. */
  ghost predicate Given(w: Client.State, r: Protocol.Request) {
    (exists x :: x in w.host.writes && x.request == r) || (w.pending.Some? && w.pending.value.request == r)
  }

  lemma GivenIsAsked(w: Client.State, policy: Policies.Policy, r: Protocol.Request)
    requires Given(w, r) && forall x :: x in Asked(w) ==> RequestWithin(policy, x)
    ensures RequestWithin(policy, r)
  {
    assert Undated(r) in Asked(w);
    assert RequestWithin(policy, Undated(r));
  }

  /** At every await point of any interleaving, whatever an entry's worker was ever given lies within that entry's policy. */
  lemma RequestsStayWithinPolicy(c: Client.Codec, events: seq<Event>, id: nat, r: Protocol.Request)
    requires LegalRun(c, EMPTY, events) && id in RunAll(c, EMPTY, events).entries
    ensures var s := RunAll(c, EMPTY, events);
            && s.entries[id].worker < |s.workers|
            && (Given(s.workers[s.entries[id].worker], r) ==> RequestWithin(s.entries[id].policy, r))
  {
    EmptyOrderly();
    hide Orderly, RunAll, LegalRun, RequestWithin, Asked, Given;
    RunConfined(c, EMPTY, events);
    var s := RunAll(c, EMPTY, events);
    assert WorkerOf(s, id) == Some(s.entries[id].worker) && PolicyOf(s, id) == Some(s.entries[id].policy);
    if Given(s.workers[s.entries[id].worker], r) {
      GivenIsAsked(s.workers[s.entries[id].worker], s.entries[id].policy, r);
    }
  }

  lemma ValidatingFindsNothing(j: Searching.Job, fd: World.Ino)
    requires Engines.Sound(j.e) && Searching.SearchAt(j, fd).Ok? && j.r.validateScopeOnly
    ensures Searching.SearchAt(j, fd).value.matches == []
  {
    hide Engines.Sound, Searching.WalkAt, Protocol.Validate, Scoping.VerifyAt;
  }

  /** What a search within a policy finds on a static tree lies in files that the policy alone admits. */
  lemma HitsStayWithinPolicy(j: Searching.Job, fd: World.Ino, es: seq<Trees.Entry>, policy: Policies.Policy, h: Protocol.Hit) returns (src: Trees.Source)
    requires Engines.Sound(j.e) && j.r.read.None? && RequestWithin(policy, j.r)
    requires Trees.MirrorsFolder(j.w, fd, [], es) && Policies.ProperNames(es)
    requires Searching.SearchAt(j, fd).Ok? && h in Searching.SearchAt(j, fd).value.matches
    ensures src in Trees.FolderPlan(Policies.KnobsUnder(j.e, policy, Policies.UNNARROWED), [], es, []).sources && h.path == src.path
  {
    if j.r.validateScopeOnly {
      ValidatingFindsNothing(j, fd);
    }
    hide Engines.Sound, Searching.SearchAt, Trees.MirrorsFolder, Trees.FolderPlan, Trees.AllHits,
      Policies.ProperNames, Policies.Canonical, Policies.SparedBelow, Policies.PatternsAcceptable;
    Refinement.SearchRefines(j, fd, es);
    var n :| Policies.NarrowPolicy(policy, n) == Some(j.r.scope);
    var k := Refinement.KnobsOf(j);
    assert k == Policies.KnobsUnder(j.e, policy, n);
    var sources := Trees.FolderPlan(k, [], es, []).sources;
    SubMember(Searching.SearchAt(j, fd).value.matches, Trees.AllHits(j.e, j.r, sources), h);
    var m;
    src, m := Reads.HitHasSource(j.e, j.r, sources, h);
    Policies.NarrowingIsExact(j.e, policy, n, es, src);
  }

  /** What a read within a policy delivers, through any failures, is its range of a file that the policy alone admits. */
  lemma ReadsStayWithinPolicy(q: Searching.Job, fd: World.Ino, es: seq<Trees.Entry>, policy: Policies.Policy, h: Protocol.Hit) returns (src: Trees.Source)
    requires Engines.Sound(q.e) && q.r.read.Some? && RequestWithin(policy, q.r)
    requires Trees.MirrorsFolder(q.w, fd, [], es) && Policies.ProperNames(es)
    requires Searching.SearchAt(q, fd).Ok? && h in Searching.SearchAt(q, fd).value.matches
    ensures src in Trees.FolderPlan(Policies.KnobsUnder(q.e, policy, Policies.UNNARROWED), [], es, []).sources
    ensures src.path == q.r.read.value.path && Reads.InFile(src.content, q.r.read.value.range)
    ensures h == Searching.ReadHit(src.path, Engines.Digest(q.e, src.content), src.content, q.r.read.value.range)
  {
    hide Engines.Sound, Searching.SearchAt, Trees.MirrorsFolder, Trees.FolderPlan, Policies.ProperNames,
      Policies.Canonical, Policies.SparedBelow, Policies.PatternsAcceptable, Reads.InFile, Engines.Digest, Protocol.Validate;
    src := FaultyReads.ReadHitsArePlanned(q, fd, es, h);
    var n :| Policies.NarrowPolicy(policy, n) == Some(q.r.scope);
    assert Refinement.KnobsOf(q) == Policies.KnobsUnder(q.e, policy, n);
    Policies.NarrowingIsExact(q.e, policy, n, es, src);
  }
}
