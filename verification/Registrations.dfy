/** What a registration's own input comes to: in every request of every run, in what is found, and in how it is refused. */
module Registrations {
  import opened Basics
  import opened Paths
  import opened Registry
  import opened RegistryProofs
  import opened RegistryCalls
  import opened Authority
  import opened Service
  import Client
  import ClientSafety
  import Engines
  import FaultyReads
  import Findings
  import Policies
  import Protocol
  import Searching
  import Trees
  import World

  // ---- Requests honour the registration ---------------------------------------------------------------------------

  /**
   The request reads hidden names, minds ignore files and bounds files as registered; its first include group lists
   exactly what was registered, and all that was excluded is.
   */
  ghost predicate Honours(input: Policies.PolicyInput, r: Protocol.Request) {
    && r.scope.hidden == input.hidden && r.scope.respectIgnore == input.respectIgnore && r.maxFileBytes == input.maxFileBytes
    && |r.scope.includeGroups| == 2 && (forall p :: p in r.scope.includeGroups[0] <==> p in input.includes)
    && (forall p :: p in input.excludes ==> p in r.scope.exclude)
  }

  lemma NarrowedHonours(input: Policies.PolicyInput, policy: Policies.Policy, narrow: Policies.Narrow, r: Protocol.Request)
    requires Policies.CreatePolicy(input) == Some(policy) && r.scope == Policies.Narrowed(policy, narrow) && r.maxFileBytes == policy.maxFileBytes
    ensures Honours(input, r)
  {
    hide Policies.Canonical, Policies.PatternsAcceptable;
    forall p
      ensures p in policy.includes <==> p in input.includes
      ensures p in policy.excludes <==> p in input.excludes
      ensures p in r.scope.exclude <==> p in policy.excludes + narrow.excludes
    {
      Policies.CanonicalMembers(input.includes, p);
      Policies.CanonicalMembers(input.excludes, p);
      Policies.CanonicalMembers(policy.excludes + narrow.excludes, p);
    }
  }

  lemma WithinHonours(input: Policies.PolicyInput, policy: Policies.Policy, r: Protocol.Request)
    requires Policies.CreatePolicy(input) == Some(policy) && RequestWithin(policy, r)
    ensures Honours(input, r)
  {
    hide Policies.CreatePolicy, Honours, Policies.PatternsAcceptable, Policies.Narrowed;
    var n :| Policies.NarrowPolicy(policy, n) == Some(r.scope);
    NarrowedHonours(input, policy, n, r);
  }

  /** The id is spent, and whatever is held or asked under it is under this policy. */
  ghost predicate Bound(s: State, id: nat, policy: Policies.Policy) {
    && id < s.issued
    && (id in s.tasks ==> s.tasks[id].policy == policy)
    && (id in s.entries ==> s.entries[id].policy == policy)
    && (forall call :: call in s.calls && call.Put? && call.id == id ==> call.policy == policy)
  }

  lemma BoundOnward(c: Client.Codec, s: State, t: State, id: nat, policy: Policies.Policy)
    requires Bound(s, id, policy) && Onward(c, s, t)
    requires forall call :: call in t.calls && call !in s.calls ==> Filed(c, t, call) && Registered(t, call)
    ensures Bound(t, id, policy)
  {
    hide Moves, Created, Within, AnswersPut, Bears;
    forall call | call in t.calls && call !in s.calls && call.Put? && call.id == id
      ensures call.policy == policy
    {
      assert Filed(c, t, call) && Registered(t, call);
    }
  }

  lemma {:induction false} RunBound(c: Client.Codec, s: State, events: seq<Event>, id: nat, policy: Policies.Policy)
    requires Orderly(s) && Promised(s) && AllCreated(s) && LegalRun(c, s, events) && Bound(s, id, policy)
    ensures Bound(RunAll(c, s, events), id, policy)
    decreases |events|
  {
    hide Orderly, Promised, AllCreated, StepAt, Legal, Filed, Onward, Bound, Registered;
    if |events| > 0 {
      var t := StepAt(c, s, events[0]);
      StepKeeps(c, s, events[0]);
      StepOnward(c, s, events[0]);
      CreatedOnward(c, s, t);
      BoundOnward(c, s, t, id, policy);
      RunBound(c, t, events[1..], id, policy);
    }
  }

  lemma BeginBound(c: Client.Codec, s: State, rootOk: bool, input: Policies.PolicyInput)
    requires Orderly(s) && AllFiled(c, s)
    requires s.issued in BeginAt(s, rootOk, Compiled(Some(input))).tasks
    ensures Policies.CreatePolicy(input).Some? && Bound(BeginAt(s, rootOk, Compiled(Some(input))), s.issued, Policies.CreatePolicy(input).value)
  {
    hide LeasesOwned, WorkersOwned, Pinned, Policies.CreatePolicy, Within, AnswersPut, Bears;
    forall call | call in s.calls && call.Put?
      ensures call.id != s.issued
    {
      assert Filed(c, s, call);
    }
  }

  /**
   In any run, after any registration: whatever its worker is ever given, the validation included, and whatever call is put
   to it, honours the input it was registered with.
   */
  lemma RegistrationIsHonoured(c: Client.Codec, before: seq<Event>, rootOk: bool, input: Policies.PolicyInput, after: seq<Event>)
    requires LegalRun(c, EMPTY, before)
    requires var s := RunAll(c, EMPTY, before);
             s.issued in BeginAt(s, rootOk, Compiled(Some(input))).tasks && LegalRun(c, StepAt(c, s, Begin(rootOk, Some(input))), after)
    ensures var s := RunAll(c, EMPTY, before);
            var id := s.issued;
            var t := RunAll(c, StepAt(c, s, Begin(rootOk, Some(input))), after);
            && (WorkerOf(t, id).Some? ==>
                  && WorkerOf(t, id).value < |t.workers|
                  && forall r :: Given(t.workers[WorkerOf(t, id).value], r) ==> Honours(input, r))
            && (forall call :: call in t.calls && call.Put? && call.id == id ==> Honours(input, call.request))
  {
    hide Orderly, Promised, AllCreated, AllFiled, RunAll, LegalRun, BeginAt, Compiled, Bound, Honours, Given, RequestWithin, Confined,
      Permitted, WorkerOf, Policies.CreatePolicy, Within;
    EmptyFiled(c);
    RunFiled(c, EMPTY, before);
    var s := RunAll(c, EMPTY, before);
    var e := Begin(rootOk, Some(input));
    var u := StepAt(c, s, e);
    BeginBound(c, s, rootOk, input);
    BeginFiled(c, s, e);
    var policy := Policies.CreatePolicy(input).value;
    RunBound(c, u, after, s.issued, policy);
    RunFiled(c, u, after);
    EmptyConfined();
    RunConfined(c, EMPTY, before);
    StepConfined(c, s, e);
    RunConfined(c, u, after);
    var t := RunAll(c, u, after);
    if WorkerOf(t, s.issued).Some? {
      WorkerHonours(t, s.issued, input, policy);
    }
    forall call | call in t.calls && call.Put? && call.id == s.issued
      ensures Honours(input, call.request)
    {
      CallHonours(c, t, call, input, policy);
    }
  }

  lemma EmptyConfined()
    ensures Orderly(EMPTY) && Confined(EMPTY)
  {
    EmptyOrderly();
  }

  lemma BeginFiled(c: Client.Codec, s: State, e: Event)
    requires Orderly(s) && Promised(s) && AllCreated(s) && AllFiled(c, s) && Legal(s, e)
    ensures var t := StepAt(c, s, e); Orderly(t) && Promised(t) && AllCreated(t) && AllFiled(c, t)
  {
    hide Orderly, Promised, AllCreated, AllFiled, Legal, StepAt, Filed, Onward, Registered;
    StepKeeps(c, s, e);
    StepOnward(c, s, e);
    CreatedOnward(c, s, StepAt(c, s, e));
    FiledOnward(c, s, StepAt(c, s, e));
  }

  lemma WorkerHonours(t: State, id: nat, input: Policies.PolicyInput, policy: Policies.Policy)
    requires Confined(t) && WorkerOf(t, id).Some? && Bound(t, id, policy) && Policies.CreatePolicy(input) == Some(policy)
    ensures WorkerOf(t, id).value < |t.workers|
    ensures forall r :: Given(t.workers[WorkerOf(t, id).value], r) ==> Honours(input, r)
  {
    hide RequestWithin, Honours, Given, WorkerOf, Policies.CreatePolicy;
    var w := t.workers[WorkerOf(t, id).value];
    assert PolicyOf(t, id) == Some(policy);
    forall r | Given(w, r)
      ensures Honours(input, r)
    {
      GivenIsAsked(w, policy, r);
      WithinHonours(input, policy, r);
    }
  }

  lemma CallHonours(c: Client.Codec, t: State, call: Call, input: Policies.PolicyInput, policy: Policies.Policy)
    requires AllFiled(c, t) && call in t.calls && call.Put? && Bound(t, call.id, policy) && Policies.CreatePolicy(input) == Some(policy)
    ensures Honours(input, call.request)
  {
    hide Honours, AnswersPut, Bears, Policies.CreatePolicy, Policies.NarrowPolicy, Created;
    assert Filed(c, t, call);
    WithinHonours(input, policy, call.request);
  }

  // ---- Every entry was validated ------------------------------------------------------------------------------------

  /** The worker's promise concerns this request: it is the one outstanding while that waits, and what is replied answers it. */
  ghost predicate Concerns(c: Client.Codec, w: Client.State, p: nat, q: Protocol.Request) {
    && p < w.host.promises
    && (w.pending.Some? && w.pending.value.promise == p ==> Bears(w.pending.value.request, q))
    && AnswersPut(c, w.host.log, p, q)
  }

  lemma ConcernsOnward(c: Client.Codec, a: Client.State, b: Client.State, p: nat, q: Protocol.Request)
    requires Moves(c, a, b) && Concerns(c, a, p, q)
    ensures Concerns(c, b, p, q)
  {
    hide Bears, Replies;
    AnswersOnward(c, a, b, p, q);
  }

  /** A request that asks only for the validation of the policy's own scope. */
  ghost predicate Validates(policy: Policies.Policy, q: Protocol.Request) {
    && q.validateScopeOnly && q.maxFileBytes == policy.maxFileBytes
    && q.scope.includeGroups == [policy.includes, []] && (forall p :: p in q.scope.exclude <==> p in policy.excludes)
    && q.scope.hidden == policy.hidden && q.scope.respectIgnore == policy.respectIgnore
  }

  lemma UnnarrowedValidates(policy: Policies.Policy, request: Protocol.Request)
    ensures Validates(policy, Authorised(policy, request, Policies.UNNARROWED, true))
  {
    assert Policies.Canonical([]) == [];
    hide Policies.Canonical;
    assert policy.excludes + [] == policy.excludes;
    forall p
      ensures p in Policies.Canonical(policy.excludes) <==> p in policy.excludes
    {
      Policies.CanonicalMembers(policy.excludes, p);
    }
  }

  ghost predicate AwaitsValidation(c: Client.Codec, s: State, task: Task) {
    task.phase.Validating? ==>
      && task.phase.worker < |s.workers|
      && exists q :: Validates(task.policy, q) && Concerns(c, s.workers[task.phase.worker], task.phase.promise, q)
  }

  ghost predicate WasValidated(c: Client.Codec, s: State, e: Entry) {
    && e.worker < |s.workers|
    && exists p, q, k, success ::
         && Validates(e.policy, q) && Concerns(c, s.workers[e.worker], p, q)
         && Client.Settlement(p, Client.Replied(k, Client.Answered(success))) in s.workers[e.worker].host.log
  }

  ghost predicate AllValidated(c: Client.Codec, s: State) {
    && (forall id :: id in s.tasks ==> AwaitsValidation(c, s, s.tasks[id]))
    && (forall id :: id in s.entries ==> WasValidated(c, s, s.entries[id]))
  }

  lemma AwaitsOnward(c: Client.Codec, s: State, t: State, task: Task)
    requires Onward(c, s, t) && AwaitsValidation(c, s, task)
    ensures AwaitsValidation(c, t, task)
  {
    hide Moves, Concerns, Created, Validates;
    if task.phase.Validating? {
      var w := task.phase.worker;
      var q :| Validates(task.policy, q) && Concerns(c, s.workers[w], task.phase.promise, q);
      ConcernsOnward(c, s.workers[w], t.workers[w], task.phase.promise, q);
    }
  }

  lemma ValidatedOnward(c: Client.Codec, s: State, t: State, e: Entry)
    requires Onward(c, s, t) && WasValidated(c, s, e)
    ensures WasValidated(c, t, e)
  {
    hide Concerns, Created, Validates, ReplyTo;
    var p, q, k, success :|
      && Validates(e.policy, q) && Concerns(c, s.workers[e.worker], p, q)
      && Client.Settlement(p, Client.Replied(k, Client.Answered(success))) in s.workers[e.worker].host.log;
    assert Moves(c, s.workers[e.worker], t.workers[e.worker]);
    ConcernsOnward(c, s.workers[e.worker], t.workers[e.worker], p, q);
    var x := Client.Settlement(p, Client.Replied(k, Client.Answered(success)));
    var i :| 0 <= i < |s.workers[e.worker].host.log| && s.workers[e.worker].host.log[i] == x;
    assert t.workers[e.worker].host.log[i] == x;
  }

  /** A phase in which validation is awaited was there before, or is entered from the greeting just now. */
  lemma ValidatingFrom(c: Client.Codec, s: State, e: Event, id: nat)
    requires Legal(s, e)
    ensures var t := StepAt(c, s, e);
            id in t.tasks && t.tasks[id].phase.Validating? ==>
              id in s.tasks && t.tasks[id].policy == s.tasks[id].policy
              && (t.tasks[id].phase == s.tasks[id].phase || (e.Greeted? && e.task == id && t == GreetedAt(s, id, e.check)))
  {
    hide Client.SearchAt, Client.DisposeAt, Client.StepAt, Client.OpenAt, Awaited, Client.Legal, EntriesOk, NarrowAcceptable, Compiled,
      GreetedAt, DisposedAll, ReleasedAll, OwnedWorkers, OwnedLeases;
    if e.Greeted? {
      GreetedPhases(s, e.task, e.check);
    }
  }

  lemma GreetedPhases(s: State, id: nat, check: Ask)
    requires Legal(s, Greeted(id, check))
    ensures var t := GreetedAt(s, id, check);
            && t.tasks.Keys == s.tasks.Keys
            && forall x :: x in s.tasks ==> t.tasks[x].policy == s.tasks[x].policy && (x != id ==> t.tasks[x] == s.tasks[x])
  {
    hide Client.SearchAt, Client.DisposeAt, Awaited;
  }

  /** The validation just asked for is what is outstanding. */
  lemma GreetedConcerns(c: Client.Codec, s: State, id: nat, check: Ask)
    requires Orderly(s) && Legal(s, Greeted(id, check)) && GreetedAt(s, id, check).tasks[id].phase.Validating?
    ensures AwaitsValidation(c, GreetedAt(s, id, check), GreetedAt(s, id, check).tasks[id])
  {
    hide LeasesOwned, WorkersOwned, Pinned, Counted, Awaited, Client.SearchAt, Authorised, Validates, ClientSafety.Safe, Orderly,
      RegistryCalls.Takes, Concerns,
      UnwindAt;
    var phase := s.tasks[id].phase;
    OrderlyWorkers(s);
    NotUnwound(s, id, check);
    var w := s.workers[phase.worker];
    var q := Authorised(s.tasks[id].policy, check.request, Policies.UNNARROWED, true);
    PendingIssued(w);
    SearchTakes(c, w, q, Client.Absent, check.remaining);
    UnnarrowedValidates(s.tasks[id].policy, check.request);
    TakenConcerns(c, w, Client.SearchAt(w, q, Client.Absent, check.remaining), q);
  }

  lemma NotUnwound(s: State, id: nat, check: Ask)
    requires Legal(s, Greeted(id, check)) && GreetedAt(s, id, check).tasks[id].phase.Validating?
    ensures Awaited(s.workers[s.tasks[id].phase.worker].host.log, s.tasks[id].phase.promise) == Some(Client.Opened)
  {
    hide Awaited, Client.SearchAt, Client.DisposeAt;
  }

  lemma TakenConcerns(c: Client.Codec, a: Client.State, b: Client.State, q: Protocol.Request)
    requires RegistryCalls.Takes(c, a, b, q) && ClientSafety.Safe(a)
    ensures Concerns(c, b, a.host.promises, q)
  {
    hide Bears, ReplyTo, ClientSafety.Safe;
    LoggedBefore(a);
    assert forall i :: 0 <= i < |a.host.log| ==> b.host.log[i] == a.host.log[i];
    assert forall x :: x in b.host.log && x.promise == a.host.promises ==> !x.outcome.Replied?;
  }

  lemma UnwindEntries(s: State, id: nat, fault: WorkspaceFault)
    requires id in s.tasks && PhaseOk(s, s.tasks[id].phase)
    ensures UnwindAt(s, id, fault).entries == s.entries
  {
    hide Client.DisposeAt;
  }

  lemma SteadyEntries(c: Client.Codec, s: State, e: Event)
    requires Legal(s, e) && !e.Validated? && !e.Unregister? && !e.Close?
    ensures StepAt(c, s, e).entries == s.entries
  {
    hide Client.SearchAt, Client.StepAt, Client.OpenAt, Awaited, Client.Legal, EntriesOk, NarrowAcceptable, Compiled, UnwindAt, Authorised;
    if e.Resolved? || e.Leased? || e.Inspected? || e.Greeted? {
      UnwindEntries(s, e.task, WorkspaceUnavailable);
      UnwindEntries(s, e.task, RegistryClosed);
    }
  }

  /** The registration has just been answered with success. */
  ghost predicate Passed(s: State, id: nat) {
    && id in s.tasks && s.tasks[id].phase.Validating? && s.tasks[id].phase.worker < |s.workers|
    && var outcome := Awaited(s.workers[s.tasks[id].phase.worker].host.log, s.tasks[id].phase.promise);
       outcome.Some? && outcome.value.Replied? && outcome.value.reply.Answered?
  }

  lemma ValidatedEntries(s: State, id: nat, x: nat)
    requires Legal(s, Validated(id)) && x in ValidatedAt(s, id).entries
    ensures var t := ValidatedAt(s, id);
            || (x in s.entries && t.entries[x] == s.entries[x])
            || (x == id && Passed(s, id) && t.workers == s.workers && t.entries[id].policy == s.tasks[id].policy
                && t.entries[id].worker == s.tasks[id].phase.worker)
  {
    hide Awaited, UnwindAt;
    UnwindEntries(s, id, WorkspaceUnavailable);
    UnwindEntries(s, id, RegistryClosed);
    UnwindEntries(s, id, BadWorkspaceRequest);
  }

  /** An entry was there before, or is the registration whose validation was answered just now. */
  lemma EntryFrom(c: Client.Codec, s: State, e: Event, id: nat)
    requires Legal(s, e) && id in StepAt(c, s, e).entries
    ensures var t := StepAt(c, s, e);
            || (id in s.entries && t.entries[id] == s.entries[id])
            || (Passed(s, id) && t.workers == s.workers && t.entries[id].policy == s.tasks[id].policy
                && t.entries[id].worker == s.tasks[id].phase.worker)
  {
    hide ValidatedAt, Passed, Awaited, EntriesOk, Client.DisposeAt, DisposedAll, ReleasedAll, OwnedWorkers, OwnedLeases;
    if e.Validated? {
      ValidatedEntries(s, e.task, id);
    } else if !e.Unregister? && !e.Close? {
      SteadyEntries(c, s, e);
    }
  }

  lemma ValidatedEnters(c: Client.Codec, s: State, t: State, id: nat)
    requires Passed(s, id) && AwaitsValidation(c, s, s.tasks[id]) && id in t.entries
    requires t.workers == s.workers && t.entries[id].policy == s.tasks[id].policy && t.entries[id].worker == s.tasks[id].phase.worker
    ensures WasValidated(c, t, t.entries[id])
  {
    hide Awaited, Concerns, Validates;
    var phase := s.tasks[id].phase;
    var log := s.workers[phase.worker].host.log;
    AwaitedIff(log, phase.promise);
    var q :| Validates(s.tasks[id].policy, q) && Concerns(c, s.workers[phase.worker], phase.promise, q);
    var outcome := Awaited(log, phase.promise).value;
    assert Client.Settlement(phase.promise, Client.Replied(outcome.child, Client.Answered(outcome.reply.success))) in log;
  }

  lemma PassedTask(s: State, id: nat)
    requires Passed(s, id)
    ensures id in s.tasks
  {
  }

  lemma StepValidated(c: Client.Codec, s: State, e: Event)
    requires Orderly(s) && Promised(s) && AllCreated(s) && Legal(s, e) && AllValidated(c, s)
    ensures AllValidated(c, StepAt(c, s, e))
  {
    hide Orderly, Promised, AllCreated, Legal, StepAt, Onward, AwaitsValidation, WasValidated, GreetedAt, Filed, Registered, Passed;
    StepOnward(c, s, e);
    var t := StepAt(c, s, e);
    forall id | id in t.tasks
      ensures AwaitsValidation(c, t, t.tasks[id])
    {
      ValidatingFrom(c, s, e, id);
      if !t.tasks[id].phase.Validating? {
        NothingAwaited(c, t, t.tasks[id]);
      } else if t.tasks[id].phase == s.tasks[id].phase {
        assert t.tasks[id] == s.tasks[id];
        AwaitsOnward(c, s, t, s.tasks[id]);
      } else {
        GreetedConcerns(c, s, id, e.check);
      }
    }
    forall id | id in t.entries
      ensures WasValidated(c, t, t.entries[id])
    {
      EntryFrom(c, s, e, id);
      if id in s.entries && t.entries[id] == s.entries[id] {
        ValidatedOnward(c, s, t, s.entries[id]);
      } else {
        PassedTask(s, id);
        ValidatedEnters(c, s, t, id);
      }
    }
  }

  lemma NothingAwaited(c: Client.Codec, t: State, task: Task)
    requires !task.phase.Validating?
    ensures AwaitsValidation(c, t, task)
  {
  }

  lemma {:induction false} RunValidated(c: Client.Codec, s: State, events: seq<Event>)
    requires Orderly(s) && Promised(s) && AllCreated(s) && LegalRun(c, s, events) && AllValidated(c, s)
    ensures AllValidated(c, RunAll(c, s, events))
    decreases |events|
  {
    hide Orderly, Promised, AllCreated, StepAt, Legal, Filed, Onward, AllValidated, Registered;
    if |events| > 0 {
      StepKeeps(c, s, events[0]);
      StepOnward(c, s, events[0]);
      CreatedOnward(c, s, StepAt(c, s, events[0]));
      StepValidated(c, s, events[0]);
      RunValidated(c, StepAt(c, s, events[0]), events[1..]);
    }
  }

  /**
   In any run: the worker of every entry has answered, with success, a request to validate exactly the scope of the entry's
   policy.
   */
  lemma EveryEntryWasValidated(c: Client.Codec, events: seq<Event>, id: nat) returns (p: nat, k: nat, r: Protocol.Request, success: Protocol.Success)
    requires LegalRun(c, EMPTY, events) && id in RunAll(c, EMPTY, events).entries
    ensures var s := RunAll(c, EMPTY, events);
            var e := s.entries[id];
            && e.worker < |s.workers| && Validates(e.policy, r)
            && Client.Settlement(p, Client.Replied(k, Client.Answered(success))) in s.workers[e.worker].host.log
            && exists frame :: c.reply(frame, r) == Some(Client.Answered(success))
  {
    hide Orderly, Promised, AllCreated, LegalRun, RunAll, AllFiled, Validates;
    EmptyFiled(c);
    RunValidated(c, EMPTY, events);
    var s := RunAll(c, EMPTY, events);
    var e := s.entries[id];
    assert WasValidated(c, s, e);
    var p0, q, k0, found :|
      && Validates(e.policy, q) && Concerns(c, s.workers[e.worker], p0, q)
      && Client.Settlement(p0, Client.Replied(k0, Client.Answered(found))) in s.workers[e.worker].host.log;
    var x := Client.Settlement(p0, Client.Replied(k0, Client.Answered(found)));
    var sent :| Bears(sent, q) && ReplyTo(c, sent, x.outcome.reply);
    p, k, r, success := p0, k0, sent, found;
    BearsValidates(e.policy, sent, q);
  }

  lemma BearsValidates(policy: Policies.Policy, r: Protocol.Request, q: Protocol.Request)
    requires Bears(r, q) && Validates(policy, q)
    ensures Validates(policy, r)
  {
  }

  // ---- What is found was registered -----------------------------------------------------------------------------------

  /** The terms of a registration, before any narrowing. */
  function Terms(e: Engines.Engine, input: Policies.PolicyInput): Trees.Knobs {
    Trees.Knobs(e, Protocol.ScopeInput([input.includes], input.excludes, input.hidden, input.respectIgnore), input.maxFileBytes)
  }

  lemma AdmissibleAsRegistered(e: Engines.Engine, input: Policies.PolicyInput, r: Protocol.Request, chain: seq<Trees.Level>,
                             path: Path, directory: bool)
    requires Honours(input, r) && Findings.Admissible(e, r.scope, chain, path, directory)
    ensures Findings.Admissible(e, Terms(e, input).input, chain, path, directory)
  {
    hide Findings.Ignores, Findings.Silent;
    var g := r.scope.includeGroups[0];
    assert g in r.scope.includeGroups;
    assert g == [] ==> input.includes == [] by {
      HeadIsMember(input.includes);
    }
  }

  lemma {:induction false} OfferedAsRegistered(e: Engines.Engine, input: Policies.PolicyInput, r: Protocol.Request, prefix: Path, es: seq<Trees.Entry>,
                                               chain: seq<Trees.Level>, trail: seq<Trees.Entry>, src: Trees.Source)
    requires Honours(input, r)
    requires Findings.Offers(Trees.Knobs(e, r.scope, r.maxFileBytes), prefix, es, chain, trail, src)
    ensures Findings.Offers(Terms(e, input), prefix, es, chain, trail, src)
    decreases |trail|
  {
    hide Findings.Admissible, Honours, Findings.Declares;
    var k := Trees.Knobs(e, r.scope, r.maxFileBytes);
    var path := Findings.Joined(prefix, trail[0].name);
    var extended :| Findings.Extends(k, prefix, es, chain, extended) && Findings.Yields(k, path, extended, trail, src);
    SameFlags(input, r);
    assert Findings.Extends(Terms(e, input), prefix, es, chain, extended);
    AdmissibleAsRegistered(e, input, r, extended, path, trail[0].node.Folder?);
    if trail[0].node.Folder? {
      OfferedAsRegistered(e, input, r, path, trail[0].node.entries, extended, trail[1..], src);
    }
    assert Findings.Yields(Terms(e, input), path, extended, trail, src);
  }

  lemma SameFlags(input: Policies.PolicyInput, r: Protocol.Request)
    requires Honours(input, r)
    ensures r.scope.hidden == input.hidden && r.scope.respectIgnore == input.respectIgnore && r.maxFileBytes == input.maxFileBytes
  {
  }

  /**
   What a search or read that honours a registration delivers from a static tree, through any failures, is of a file that
   some trail offers under the registration's own terms.
   */
  lemma HitsHonourRegistration(j: Searching.Job, fd: World.Ino, es: seq<Trees.Entry>, input: Policies.PolicyInput, h: Protocol.Hit)
    returns (trail: seq<Trees.Entry>, src: Trees.Source)
    requires Engines.Sound(j.e) && Honours(input, j.r) && Trees.MirrorsFolder(j.w, fd, [], es)
    requires Searching.SearchAt(j, fd).Ok? && h in Searching.SearchAt(j, fd).value.matches
    ensures Findings.Offers(Terms(j.e, input), [], es, [], trail, src) && h.path == src.path
  {
    hide Engines.Sound, Searching.SearchAt, Trees.MirrorsFolder, Findings.Offers, Findings.Quotes, Honours, Trees.FolderPlan;
    var k := Trees.Knobs(j.e, j.r.scope, j.r.maxFileBytes);
    if j.r.validateScopeOnly {
      ValidatingFindsNothing(j, fd);
    }
    if j.r.read.None? {
      Findings.FindingsExactly(j, fd, es, h);
      var way, found, m :|
        && Findings.Offers(k, [], es, [], way, found) && found.content != []
        && m in j.e.find(j.r, found.content).found && Findings.Quotes(h, found.path, Engines.Digest(j.e, found.content), found.content, m);
      QuotedPath(h, found.path, Engines.Digest(j.e, found.content), found.content, m);
      trail, src := way, found;
    } else {
      src := FaultyReads.ReadHitsArePlanned(j, fd, es, h);
      Findings.FolderOffers(k, [], es, [], src);
      trail :| Findings.Offers(k, [], es, [], trail, src);
    }
    OfferedAsRegistered(j.e, input, j.r, [], es, [], trail, src);
  }

  lemma QuotedPath(h: Protocol.Hit, path: Path, digest: bytes, content: bytes, m: Engines.Match)
    requires Findings.Quotes(h, path, digest, content, m)
    ensures h.path == path
  {
  }

  // ---- Why a registration or a call fails ---------------------------------------------------------------------------

  /** The event at which a registration fails, and the one fault that has there. */
  ghost predicate FailsBy(s: State, e: Event, id: nat, fault: WorkspaceFault)
    requires Legal(s, e)
  {
    match e
    case Begin(rootOk, input) =>
      && id == s.issued
      && (if s.closed then fault == RegistryClosed
          else if !rootOk || input.None? || Policies.CreatePolicy(input.value).None? then fault == BadWorkspaceRequest
          else fault == RegistryFull && |s.entries| + |s.tasks| >= 32)
    case Resolved(t, ok) => t == id && !ok && fault == WorkspaceUnavailable
    case Leased(t, ok) => t == id && !ok && fault == WorkspaceUnavailable
    case Inspected(t, stat) =>
      && t == id
      && (if stat.None? || !stat.value.directory then fault == WorkspaceUnavailable else s.closed && fault == RegistryClosed)
    case Greeted(t, _) =>
      && t == id && fault == WorkspaceUnavailable
      && Awaited(s.workers[s.tasks[t].phase.worker].host.log, s.tasks[t].phase.promise) != Some(Client.Opened)
    case Validated(t) =>
      && t == id
      && (match Awaited(s.workers[s.tasks[t].phase.worker].host.log, s.tasks[t].phase.promise)
          case Some(Replied(_, Answered(_))) => s.closed && fault == RegistryClosed
          case Some(Replied(_, Refused(_))) => fault == BadWorkspaceRequest
          case _ => fault == WorkspaceUnavailable)
    case _ => false
  }

  lemma UnwindStates(s: State, id: nat, fault: WorkspaceFault)
    requires id in s.tasks && PhaseOk(s, s.tasks[id].phase)
    ensures var t := UnwindAt(s, id, fault);
            && t.results == s.results && t.tasks == s.tasks[id := s.tasks[id].(phase := Unwinding(fault))] && t.calls == s.calls
  {
    hide Client.DisposeAt;
  }

  /** A registration starts to unwind only at such an event, and with that fault. */
  lemma UnwindsBecause(c: Client.Codec, s: State, e: Event, id: nat)
    requires Orderly(s) && Legal(s, e) && id in StepAt(c, s, e).tasks && StepAt(c, s, e).tasks[id].phase.Unwinding?
    ensures var fault := StepAt(c, s, e).tasks[id].phase.fault;
            (id in s.tasks && s.tasks[id].phase == Unwinding(fault)) || FailsBy(s, e, id, fault)
  {
    hide Orderly, Client.SearchAt, Client.StepAt, Client.OpenAt, Client.DisposeAt, Awaited, Client.Legal, EntriesOk, NarrowAcceptable,
      Compiled, UnwindAt, Authorised, DisposedAll, ReleasedAll, OwnedWorkers, OwnedLeases;
    if e.Resolved? || e.Leased? || e.Inspected? || e.Greeted? || e.Validated? {
      UnwindStates(s, e.task, WorkspaceUnavailable);
      UnwindStates(s, e.task, RegistryClosed);
      UnwindStates(s, e.task, BadWorkspaceRequest);
    }
  }

  /**
   What a registration comes to: success, at its validation in a registry still open, where its entry appears; or a fault, at
   once when it begins, or once it has unwound with that fault.
   */
  lemma EndsBecause(c: Client.Codec, s: State, e: Event, id: nat)
    requires Orderly(s) && Legal(s, e)
    requires var t := StepAt(c, s, e); id in t.results && (id !in s.results || t.results[id] != s.results[id])
    ensures match StepAt(c, s, e).results[id]
            case None => e == Validated(id) && Passed(s, id) && !s.closed && id in StepAt(c, s, e).entries
            case Some(fault) => (e.Begin? && FailsBy(s, e, id, fault)) || (e == Unwound(id) && s.tasks[id].phase == Unwinding(fault))
  {
    hide Orderly, Client.SearchAt, Client.StepAt, Client.OpenAt, Client.DisposeAt, Awaited, Client.Legal, EntriesOk, NarrowAcceptable,
      Policies.CreatePolicy, UnwindAt, Authorised, DisposedAll, ReleasedAll, OwnedWorkers, OwnedLeases, ValidatedAt, FailsBy, Passed, BeginAt;
    if e.Begin? {
      RefusedBecause(s, e, id);
    } else if e.Validated? {
      ValidatedBecause(s, e.task, id);
    } else if !e.Unwound? {
      SteadyResults(c, s, e);
    }
  }

  /** And whenever one of these is so, the registration does fail with that fault, at once or by starting to unwind. */
  lemma FailsIndeed(c: Client.Codec, s: State, e: Event, id: nat, fault: WorkspaceFault)
    requires Orderly(s) && Legal(s, e) && FailsBy(s, e, id, fault)
    ensures var t := StepAt(c, s, e);
            if e.Begin? then t.results == s.results[id := Some(fault)] && t.tasks == s.tasks
            else id in t.tasks && t.tasks[id].phase == Unwinding(fault) && t.entries == s.entries
  {
    hide Orderly, Client.SearchAt, Client.StepAt, Client.OpenAt, Client.DisposeAt, Awaited, Client.Legal, Policies.CreatePolicy, Authorised,
      DisposedAll, ReleasedAll, OwnedWorkers, OwnedLeases;
    OrderlyCount(s);
  }

  lemma RefusedBecause(s: State, e: Event, id: nat)
    requires Orderly(s) && e.Begin?
    requires var t := BeginAt(s, e.rootOk, Compiled(e.input)); id in t.results && (id !in s.results || t.results[id] != s.results[id])
    ensures BeginAt(s, e.rootOk, Compiled(e.input)).results[id].Some?
    ensures FailsBy(s, e, id, BeginAt(s, e.rootOk, Compiled(e.input)).results[id].value)
  {
    hide Orderly, Policies.CreatePolicy, Client.Legal;
    OrderlyCount(s);
  }

  lemma ValidatedBecause(s: State, task: nat, id: nat)
    requires Legal(s, Validated(task))
    requires var t := ValidatedAt(s, task); id in t.results && (id !in s.results || t.results[id] != s.results[id])
    ensures id == task && ValidatedAt(s, task).results[id] == None && Passed(s, id) && !s.closed && id in ValidatedAt(s, task).entries
  {
    hide Awaited, UnwindAt;
    UnwindStates(s, task, WorkspaceUnavailable);
    UnwindStates(s, task, RegistryClosed);
    UnwindStates(s, task, BadWorkspaceRequest);
  }

  lemma SteadyResults(c: Client.Codec, s: State, e: Event)
    requires Legal(s, e) && !e.Begin? && !e.Validated? && !e.Unwound?
    ensures StepAt(c, s, e).results == s.results
  {
    hide Client.SearchAt, Client.StepAt, Client.OpenAt, Client.DisposeAt, Awaited, Client.Legal, EntriesOk, NarrowAcceptable,
      UnwindAt, Authorised, DisposedAll, ReleasedAll, OwnedWorkers, OwnedLeases;
    if e.Resolved? || e.Leased? || e.Inspected? || e.Greeted? {
      UnwindStates(s, e.task, WorkspaceUnavailable);
      UnwindStates(s, e.task, RegistryClosed);
    }
  }

  lemma OrderlyCount(s: State)
    requires Orderly(s)
    ensures s.registering == |s.tasks|
  {
    hide LeasesOwned, WorkersOwned, Pinned;
  }

  /** A query is refused exactly for one of four causes, and is otherwise a request to the worker of the workspace it names. */
  lemma QueryIsAnswered(c: Client.Codec, s: State, e: Event)
    requires Legal(s, e) && e.Query?
    ensures var t := StepAt(c, s, e);
            && |t.calls| == |s.calls| + 1
            && var call := t.calls[|s.calls|];
               if s.closed || !e.wellFormed || !NarrowAcceptable(e.ask.narrow) || e.id !in s.entries || !e.samePolicy then call.Failed?
               else call.Put? && call.id == e.id && call.policy == s.entries[e.id].policy && call.worker == s.entries[e.id].worker
  {
    hide Client.SearchAt, Client.Legal, NarrowAcceptable, Authorised;
  }

  /** A call is refused for one of three causes: the registry is closed, the request is malformed, or no such workspace is held. */
  lemma CallFailsBecause(c: Client.Codec, s: State, e: Event, fault: WorkspaceFault)
    requires Legal(s, e)
    requires var t := StepAt(c, s, e); |t.calls| > |s.calls| && t.calls[|t.calls| - 1] == Failed(fault)
    ensures match e
            case Query(id, samePolicy, wellFormed, ask, _) =>
              if s.closed then fault == RegistryClosed
              else if !wellFormed || !NarrowAcceptable(ask.narrow) then fault == BadWorkspaceRequest
              else fault == WorkspaceOutOfScope && (id !in s.entries || !samePolicy)
            case Unregister(id) => fault == WorkspaceOutOfScope && id !in s.entries
            case _ => false
  {
    hide Client.SearchAt, Client.StepAt, Client.OpenAt, Client.DisposeAt, Awaited, Client.Legal, NarrowAcceptable,
      Policies.CreatePolicy, UnwindAt, Authorised, DisposedAll, ReleasedAll, OwnedWorkers, OwnedLeases;
    if e.Resolved? || e.Leased? || e.Inspected? || e.Greeted? || e.Validated? {
      UnwindStates(s, e.task, WorkspaceUnavailable);
      UnwindStates(s, e.task, RegistryClosed);
      UnwindStates(s, e.task, BadWorkspaceRequest);
    }
  }
}
