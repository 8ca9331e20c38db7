/** The service over the registry: what a run of the registry hands it, when its workers answer with searches. */
module Serving {
  import opened Basics
  import opened Contracts
  import opened Registry
  import opened RegistryProofs
  import opened RegistryCalls
  import opened Service
  import opened ServiceAnswers
  import opened ServiceProofs
  import Client
  import Engines
  import Policies
  import Protocol
  import Searching
  import WorkerLoop
  import World

  // ---- Workers that answer with searches ------------------------------------------------------------------------

  /** The same request, whatever was left of its deadline. */
  predicate SentAs(sent: Protocol.Request, r: Protocol.Request) { sent == r.(deadlineMs := sent.deadlineMs) }

  /** The reply is the outcome of a search for the request, in whatever file system. */
  ghost predicate FromSearch(r: Protocol.Request, reply: Client.Reply) {
    exists j: Searching.Job, fd ::
      Engines.Sound(j.e) && SentAs(j.r, r) && reply == WorkerLoop.ReplyOf(Searching.SearchAt(j, fd))
  }

  /** The codec that hears only such replies. */
  ghost function Attentive(c: Client.Codec): Client.Codec {
    c.(reply := (frame, r) => if c.reply(frame, r).Some? && FromSearch(r, c.reply(frame, r).value) then c.reply(frame, r) else None)
  }

  /** A frame accepted as the reply to the outstanding request comes from a search for it. */
  ghost predicate Honest(c: Client.Codec, w: Client.State, frame: bytes) {
    w.ready && w.pending.Some? ==>
      var r := w.pending.value.request; c.reply(frame, r).Some? ==> FromSearch(r, c.reply(frame, r).value)
  }

  /** So does every frame the decoder's loop handles. */
  ghost predicate Heard(c: Client.Codec, w: Client.State, k: nat, clock: Client.Clock)
    requires k < |w.host.processes|
    decreases |w.input|
  {
    if |w.input| < Client.HEADER then true
    else
      var size := Client.Announced(w.input);
      if size == 0 || size > Protocol.FRAME_CAP || |w.input| < size + Client.HEADER then true
      else
        var t := w.(input := w.input[size + Client.HEADER..]);
        var frame := w.input[Client.HEADER..size + Client.HEADER];
        var h := Client.HandleAt(c, t, k, frame, clock);
        Honest(c, t, frame) && (h.stop || Heard(c, h.state, k, clock))
  }

  ghost predicate HeardEvent(c: Client.Codec, s: State, e: Event)
    requires Legal(s, e)
  {
    e.WorkerEvent? && e.event.Data? ==>
      var w := s.workers[e.worker];
      Heard(c, w.(input := w.input + e.event.data), e.event.child, e.event.clock)
  }

  /** Throughout the run, workers answer with searches. */
  ghost predicate Attended(c: Client.Codec, s: State, events: seq<Event>)
    requires LegalRun(c, s, events)
    decreases |events|
  {
    |events| > 0 ==> HeardEvent(c, s, events[0]) && Attended(c, StepAt(c, s, events[0]), events[1..])
  }

  /** A worker that serves the outstanding request answers it so. */
  lemma WorkersAreHonest(v: WorkerLoop.Server, n: nat, c: Client.Codec, w: Client.State, body: bytes, deadline: nat)
    requires Engines.Sound(v.e) && WorkerLoop.Sized(v) && WorkerLoop.Faithful(v, c)
    requires w.pending.Some? && Protocol.ClientAccepts(w.pending.value.request) && 1 <= |w.pending.value.request.id| <= 128
    requires v.serializer.request(body) == Some(w.pending.value.request.(deadlineMs := deadline))
    ensures Honest(c, w, WorkerLoop.AnswerTo(v, n, body))
  {
    hide Engines.Sound, WorkerLoop.Sized, WorkerLoop.Faithful, WorkerLoop.AnswerTo, WorkerLoop.Delivers, Protocol.ClientAccepts,
      Searching.SearchAt;
    var r := w.pending.value.request;
    WorkerLoop.ReplyUnderstood(v, n, c, r, body, deadline);
    var j := Searching.Job(v.world(n), v.e, r.(deadlineMs := deadline));
    assert SentAs(j.r, r);
    assert WorkerLoop.Found(v, n, j.r) == Searching.SearchAt(j, v.root);
  }

  // ---- Hearing only searches changes nothing --------------------------------------------------------------------

  lemma HonestHandled(c: Client.Codec, w: Client.State, k: nat, frame: bytes, clock: Client.Clock)
    requires k < |w.host.processes| && Honest(c, w, frame)
    ensures Client.HandleAt(Attentive(c), w, k, frame, clock) == Client.HandleAt(c, w, k, frame, clock)
  {
    hide FromSearch, Client.FailAt, Client.SendAt;
  }

  lemma {:induction false} HeardConsumed(c: Client.Codec, w: Client.State, k: nat, clock: Client.Clock)
    requires k < |w.host.processes| && Heard(c, w, k, clock)
    ensures Client.ConsumeAt(Attentive(c), w, k, clock) == Client.ConsumeAt(c, w, k, clock)
    decreases |w.input|
  {
    hide Attentive, Honest, Client.HandleAt, Client.FailAt;
    if |w.input| >= Client.HEADER {
      var size := Client.Announced(w.input);
      if 0 < size <= Protocol.FRAME_CAP && |w.input| >= size + Client.HEADER {
        var t := w.(input := w.input[size + Client.HEADER..]);
        var frame := w.input[Client.HEADER..size + Client.HEADER];
        HonestHandled(c, t, k, frame, clock);
        var h := Client.HandleAt(c, t, k, frame, clock);
        if !h.stop {
          HeardConsumed(c, h.state, k, clock);
        }
      }
    }
  }

  lemma HeardStep(c: Client.Codec, s: State, e: Event)
    requires Legal(s, e) && HeardEvent(c, s, e)
    ensures StepAt(Attentive(c), s, e) == StepAt(c, s, e)
  {
    hide Attentive, Heard, Client.ConsumeAt, Client.FailAt, Client.OpenAt, Client.SearchAt, Client.DisposeAt, BeginAt, ResolvedAt, LeasedAt,
      InspectedAt, GreetedAt, ValidatedAt, UnwoundAt, QueryAt, UnregisterAt, CloseAt, PhaseOk, Settled, EntriesOk;
    if e.WorkerEvent? && e.event.Data? {
      var w := s.workers[e.worker];
      HeardConsumed(c, w.(input := w.input + e.event.data), e.event.child, e.event.clock);
    }
  }

  lemma {:induction false} AttendedRun(c: Client.Codec, s: State, events: seq<Event>)
    requires LegalRun(c, s, events) && Attended(c, s, events)
    ensures LegalRun(Attentive(c), s, events) && RunAll(Attentive(c), s, events) == RunAll(c, s, events)
    decreases |events|
  {
    hide Attentive, HeardEvent, StepAt, Legal;
    if |events| > 0 {
      HeardStep(c, s, events[0]);
      AttendedRun(c, StepAt(c, s, events[0]), events[1..]);
    }
  }

  // ---- What the service is given ------------------------------------------------------------------------------------

  /** The request the service hands the registry, which chooses scope and file-size limit itself. */
  function WorkerRequest(request: PublicRequest, budget: nat, remaining: nat): Protocol.Request
    requires !request.Discover?
  {
    var scope := Protocol.ScopeInput([], [], false, false);
    match request
    case Exact(_, kind, text, caseSensitive, maxMatches) =>
      Protocol.Request(1, [], text, kind, caseSensitive, maxMatches, 1, budget, remaining, 100_000, 64, scope, false, None)
    case Read(_, path, range, _, expected) =>
      Protocol.Request(1, [], SCOPED_READ, Protocol.Literal, true, 100, 1, budget, remaining, 100_000, 64, scope, false,
                       Some(Protocol.ReadRequest(path, range, expected)))
  }

  /** The pattern a read is sent with: `scoped-read`. */
  const SCOPED_READ: bytes := [0x73, 0x63, 0x6F, 0x70, 0x65, 0x64, 0x2D, 0x72, 0x65, 0x61, 0x64]

  function NarrowOf(request: PublicRequest): Policies.Narrow {
    if request.head.narrow.Some? then request.head.narrow.value else Policies.UNNARROWED
  }

  function AskFor(request: PublicRequest, budget: nat, remaining: nat): Ask
    requires !request.Discover?
  {
    Ask(WorkerRequest(request, budget, remaining), NarrowOf(request), remaining)
  }

  /** The workspace found by the request's id, under the policy id it names. */
  predicate Addressed(n: Names, request: PublicRequest, id: nat) {
    n.workspaceId(id) == request.head.workspaceId && n.scopePolicyId(id) == request.head.scopePolicyId
  }

  /** The call puts the public request to the workspace it addresses. */
  ghost predicate PutFor(n: Names, request: PublicRequest, budget: nat, remaining: nat, call: Call)
    requires !request.Discover?
  {
    && call.Put? && Addressed(n, request, call.id)
    && call.request == Authorised(call.policy, WorkerRequest(request, budget, remaining), NarrowOf(request), false)
  }

  /** Asking the registry records a refusal or such a call. */
  lemma QueryPuts(n: Names, s: State, id: nat, samePolicy: bool, wellFormed: bool, signal: Client.Signal,
                  request: PublicRequest, budget: nat, remaining: nat)
    requires EntriesOk(s) && !request.Discover?
    requires n.workspaceId(id) == request.head.workspaceId && (samePolicy <==> n.scopePolicyId(id) == request.head.scopePolicyId)
    ensures var t := QueryAt(s, id, samePolicy, wellFormed, AskFor(request, budget, remaining), signal);
            && |t.calls| == |s.calls| + 1 && t.calls[..|s.calls|] == s.calls
            && (t.calls[|s.calls|].Put? ==>
                  PutFor(n, request, budget, remaining, t.calls[|s.calls|]) && t.calls[|s.calls|].request.deadlineMs == remaining)
  {
    hide Client.SearchAt, Policies.Narrowed, NarrowOf, NarrowAcceptable;
  }

  /** Fingerprints are digests. */
  ghost predicate Fingerprints(n: Names) {
    && (forall policy :: Protocol.DigestText(n.policyHash(policy)))
    && (forall hash, scope :: Protocol.DigestText(n.effectivePolicyHash(hash, scope)))
  }

  /** A call's reply comes from a search for the request it put. */
  lemma ReplyFromSearch(c: Client.Codec, s: State, call: Call, k: nat, reply: Client.Reply)
    requires call.Put? && Filed(Attentive(c), s, call)
    requires Awaited(s.workers[call.worker].host.log, call.promise) == Some(Client.Replied(k, reply))
    ensures exists r :: Bears(r, call.request) && FromSearch(r, reply)
  {
    hide FromSearch, Within, Awaited, Bears;
    var log := s.workers[call.worker].host.log;
    AwaitedIff(log, call.promise);
    var x := Client.Settlement(call.promise, Client.Replied(k, reply));
    assert x in log;
    var r :| Bears(r, call.request) && ReplyTo(Attentive(c), r, x.outcome.reply);
    var frame :| Attentive(c).reply(frame, r) == Some(reply);
  }

  /** A search for what the call put is a search on the public request's terms. */
  lemma TermsMet(n: Names, request: PublicRequest, budget: nat, remaining: nat, call: Call, r: Protocol.Request, sent: Protocol.Request,
                 scoped: Scoped)
    requires !request.Discover? && PutFor(n, request, budget, remaining, call) && Bears(r, call.request) && SentAs(sent, r)
    requires scoped.scope == call.request.scope && scoped.policy == call.policy
    ensures WorkerTerms(request, budget, scoped, sent)
  {
    hide Policies.Narrowed, Addressed, NarrowOf;
  }

  /** Over this run, whose workers answer with searches, the call has returned. */
  ghost predicate Returns(c: Client.Codec, events: seq<Event>, n: Names, call: Call, scoped: Scoped) {
    && LegalRun(c, EMPTY, events) && Attended(c, EMPTY, events)
    && var s := RunAll(c, EMPTY, events);
       call in s.calls && AnswerTo(n, s, call) == Some(Returned(scoped))
  }

  /**
   What a run of the registry returns to the service comes from a search on the request's own terms, under a policy that
   was created and a narrowing of it.
   */
  lemma RegistryAnswers(c: Client.Codec, events: seq<Event>, n: Names, request: PublicRequest, budget: nat, remaining: nat, call: Call,
                        scoped: Scoped)
    returns (j: Searching.Job, fd: World.Ino, input: Policies.PolicyInput, narrow: Policies.Narrow)
    requires !request.Discover? && PutFor(n, request, budget, remaining, call) && Fingerprints(n) && Returns(c, events, n, call, scoped)
    ensures AnsweredBy(request, budget, scoped, j, fd) && ScopedFor(request, scoped, input, narrow)
    ensures scoped.policyHash == n.policyHash(scoped.policy) && scoped.effectivePolicyHash == n.effectivePolicyHash(scoped.policyHash, scoped.scope)
  {
    hide RunAll, LegalRun, Attended, Orderly, Promised, AllCreated, Engines.Sound, Searching.SearchAt, WorkerTerms, Policies.CreatePolicy,
      Policies.NarrowPolicy, Attentive, Awaited, Protocol.DigestText, Authorised, AnswersPut, Bears;
    AttendedRun(c, EMPTY, events);
    EmptyFiled(Attentive(c));
    RunFiled(Attentive(c), EMPTY, events);
    var s := RunAll(c, EMPTY, events);
    assert Filed(Attentive(c), s, call);
    input :| Policies.CreatePolicy(input) == Some(call.policy);
    narrow :| Policies.NarrowPolicy(call.policy, narrow) == Some(call.request.scope);
    var k :| Awaited(s.workers[call.worker].host.log, call.promise) == Some(Client.Replied(k, scoped.reply));
    ReplyFromSearch(c, s, call, k, scoped.reply);
    var r :| Bears(r, call.request) && FromSearch(r, scoped.reply);
    var job: Searching.Job, at :|
      Engines.Sound(job.e) && SentAs(job.r, r) && scoped.reply == WorkerLoop.ReplyOf(Searching.SearchAt(job, at));
    j, fd := job, at;
    TermsMet(n, request, budget, remaining, call, r, j.r, scoped);
  }

  /** Nothing stopped the execution before or while the registry answered. */
  predicate Undisturbed(env: Env) { !env.abortedFirst && env.remaining >= 1 && !env.abortedLater && !env.late }

  /**
   How the service conveys the registry's answer. A refusal is shown as its code's public counterpart. A search is reported
   complete exactly when the worker completed it and nothing was trimmed, and otherwise with the partial reasons of the
   worker's; only what does not fit is trimmed, and there is no answer only when nothing fits or a deadline has passed. A
   read's passage is the answer if it fits in time. Answers present the worker's hits under their identities.
   */
  ghost predicate Conveyed(z: Sizer, mint: Mint, request: PublicRequest, budget: nat, scoped: Scoped, env: Env, response: PublicResponse)
    requires !request.Discover?
  {
    match scoped.reply
    case Refused(code) => RefusedFor(response, request.head.requestId, FromWorker(code))
    case Answered(success) =>
      && (response.Reply? ==> Presents(mint, request, scoped, success, env, response))
      && (response.Problem? ==> Refuses(response, request.head.requestId, response.error.code))
      && if request.Exact? then
           && ExactOutcome(z, mint, request, budget, scoped, success, env, response)
           && (response.Reply? ==>
                 var trimmed := |response.finding.matches| < |success.matches|;
                 && IssuesTold(response.issues, success.reasons, trimmed)
                 && ReasonsTold(if response.finding.coverage.Complete? then [] else response.finding.coverage.reasons, success.reasons, trimmed))
         else
           && success.matches != []
           && var passage := ReadReply(mint, request, scoped, success);
              if Size(z, passage) > budget then response.Problem? && response.error.code == IssueCode.ByteLimit
              else if env.lateEnd then response.Problem? && response.error.code == IssueCode.Deadline
              else response == passage && passage.issues == []
  }

  /** A request executed over any run of the registry whose workers answer with searches is conveyed so. */
  lemma ExecutedOverRegistry(z: Sizer, mint: Mint, caps: Context, c: Client.Codec, events: seq<Event>, n: Names,
                             request: PublicRequest, context: Context, call: Call, timing: Timing, scoped: Scoped)
    requires ContextAccepted(caps) && ContextAccepted(context) && RequestAccepted(request) && !request.Discover?
    requires Undisturbed(Seen(timing, Clamped(context, caps).deadlineMs)) && timing.reached == Returned(scoped)
    requires PutFor(n, request, Clamped(context, caps).responseBytes, Remaining(timing.first, Clamped(context, caps).deadlineMs), call)
    requires Fingerprints(n) && Minted(mint) && Returns(c, events, n, call, scoped)
    ensures Conveyed(z, mint, request, Clamped(context, caps).responseBytes, scoped, Seen(timing, Clamped(context, caps).deadlineMs),
                     ExecuteAt(z, mint, caps, Shaped(request), Some(context), timing))
  {
    hide Returns, PutFor, Fingerprints, Minted, RequestAccepted, AnsweredBy, ScopedFor, ExactOutcome, FinishExact,
      FinishRead, Size, ReadReply, Presents, IssuesTold, ReasonsTold;
    var budget := Clamped(context, caps).responseBytes;
    var env := Seen(timing, Clamped(context, caps).deadlineMs);
    var j, fd, input, narrow := RegistryAnswers(c, events, n, request, budget, env.remaining, call, scoped);
    if scoped.reply.Refused? {
      FaultShown(request, FromWorker(scoped.reply.code));
    } else {
      AnswerPresents(z, mint, request, scoped, scoped.reply.success, budget, env);
      ProblemsAreShown(z, mint, request, scoped, scoped.reply.success, budget, env);
      if request.Exact? {
        ExactFinishes(z, mint, request, budget, scoped, j, fd, input, narrow, env);
        if FinishExact(z, mint, request, scoped, scoped.reply.success, budget, env).Reply? {
          AnswerTells(z, mint, request, scoped, scoped.reply.success, budget, env);
        }
      } else {
        ReadFinishes(z, mint, request, budget, scoped, j, fd, input, narrow, env);
      }
    }
  }
}
