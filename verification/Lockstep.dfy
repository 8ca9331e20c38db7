/** Client and worker together: from the greeting on, each request is answered by the search it asked for, one at a time. */
module Lockstep {
  import opened Basics
  import opened Protocol
  import opened ClientRuns
  import opened WorkerLoop
  import Client
  import ClientSafety
  import Engines
  import Searching

  /** A call of the client's search, the bytes that reach the worker, and how its answer is cut on the way back. */
  datatype Round = Round(input: Request, remaining: nat, body: bytes, chunks: seq<bytes>, clock: Client.Clock)

  /** A started client between requests. */
  ghost predicate Idle(s: Client.State, k: nat) {
    ClientSafety.Safe(s) && s.child == Some(k) && s.ready && s.pending.None? && s.input == []
  }

  /** The request as it is written, under number `q`, with what is left of its deadline. */
  function WrittenAs(q: nat, round: Round): Request {
    round.input.(v := 1, id := Client.RequestId(q), deadlineMs := round.remaining)
  }

  /**
   An acceptable request, in time, whose bytes parse to what was written; the worker serves it as its `n`-th, the answer
   passes the client's check, and the chunks carry that answer.
   */
  ghost predicate Carried(v: Server, n: nat, q: nat, round: Round)
    requires Engines.Sound(v.e)
  {
    && ClientAccepts(round.input) && round.remaining >= 1 && |Client.RequestId(q)| <= 128
    && v.serializer.request(round.body) == Some(WrittenAs(q, round))
    && Serves(v, n, round.body) && Delivers(v, n, WrittenAs(q, round))
    && Joined(round.chunks) == Frame(AnswerTo(v, n, round.body)) && !round.clock.replyLate
  }

  ghost predicate AllCarried(v: Server, n: nat, q: nat, rounds: seq<Round>)
    requires Engines.Sound(v.e)
    decreases |rounds|
  {
    |rounds| > 0 ==> Carried(v, n, q, rounds[0]) && AllCarried(v, n + 1, q + 1, rounds[1..])
  }

  // ---- The client's side ------------------------------------------------------------------------------

  function AskedAt(s: Client.State, round: Round): Client.State { Client.SearchAt(s, round.input, Client.Absent, round.remaining) }

  function RoundAt(c: Client.Codec, s: Client.State, k: nat, round: Round): Client.State {
    var t := AskedAt(s, round);
    if k < |t.host.processes| then DataAll(c, t, k, round.chunks, round.clock) else t
  }

  function RoundsAt(c: Client.Codec, s: Client.State, k: nat, rounds: seq<Round>): Client.State
    decreases |rounds|
  {
    if |rounds| == 0 then s else RoundsAt(c, RoundAt(c, s, k, rounds[0]), k, rounds[1..])
  }

  /** The settlement of each round's promise: the reply of the search the worker ran for it. */
  ghost function Answers(v: Server, n: nat, k: nat, p: nat, q: nat, rounds: seq<Round>): seq<Client.Settlement>
    requires Engines.Sound(v.e)
    decreases |rounds|
  {
    if |rounds| == 0 then []
    else
      var found := Found(v, n, WrittenAs(q, rounds[0]));
      [Client.Settlement(p, Client.Replied(k, ReplyOf(found)))] + Answers(v, n + 1, k, p + 1, q + 1, rounds[1..])
  }

  function Writes(k: nat, q: nat, rounds: seq<Round>): seq<Client.Write>
    decreases |rounds|
  {
    if |rounds| == 0 then [] else [Client.Write(k, q, WrittenAs(q, rounds[0]))] + Writes(k, q + 1, rounds[1..])
  }

  /** An idle client takes an acceptable request and writes it at once. */
  lemma IdleAsks(s: Client.State, k: nat, round: Round)
    requires Idle(s, k) && ClientAccepts(round.input) && round.remaining >= 1
    ensures var t := AskedAt(s, round);
            var q := s.sequence + 1;
            && ClientSafety.Safe(t) && t.child == Some(k) && t.ready && t.input == []
            && t.pending == Some(Client.Pending(s.host.promises, round.input.(v := 1, id := Client.RequestId(q)), q)) && t.sequence == q
            && t.host.promises == s.host.promises + 1 && t.host.log == s.host.log
            && t.host.writes == s.host.writes + [Client.Write(k, q, WrittenAs(q, round))]
  {
    hide ClientAccepts, Client.RequestId, ClientSafety.Accounted, ClientSafety.Armed, ClientSafety.Ledger, ClientSafety.Written,
      ClientSafety.Rooted, ClientSafety.Resting;
    ClientSafety.SearchKeeps(s, round.input, Client.Absent, round.remaining);
  }

  lemma NumberingImmaterial(r: Request, version: nat, id: bytes)
    ensures ClientAccepts(r.(v := version, id := id)) == ClientAccepts(r)
  {
    hide ScopeSchema;
  }

  lemma AnswerNotEmpty(v: Server, n: nat, body: bytes)
    requires Engines.Sound(v.e) && Sized(v)
    ensures |AnswerTo(v, n, body)| >= 1
  {
    hide Searching.SearchAt, Sized, Engines.Sound;
    match v.serializer.request(body)
    case None => FailureSized(v, INVALID_ID, InvalidRequest);
    case Some(r) =>
      match Searching.SearchAt(Searching.Job(v.world(n), v.e, r), v.root)
      case Ok(s) => SuccessNotEmpty(v, s);
      case Err(code) => FailureSized(v, r.id, code);
  }

  lemma DecimalNotEmpty(q: nat)
    ensures |Client.RequestId(q)| >= 1
  {
  }

  /** Settling the outstanding request makes the client idle again. */
  lemma SettlesIdle(c: Client.Codec, s: Client.State, k: nat, chunks: seq<bytes>, clock: Client.Clock, reply: Client.Outcome)
    requires ClientSafety.Safe(s) && s.child == Some(k) && s.ready && s.pending.Some? && s.input == [] && k < |s.host.processes|
    requires DataAll(c, s, k, chunks, clock) == s.(pending := None, host := Client.Settled(s.host, s.pending.value.promise, reply))
    ensures Idle(DataAll(c, s, k, chunks, clock), k)
  {
    DataAllKeeps(c, s, k, chunks, clock);
    hide DataAll, ClientSafety.Safe;
  }

  lemma {:induction false} DataAllKeeps(c: Client.Codec, s: Client.State, k: nat, chunks: seq<bytes>, clock: Client.Clock)
    requires ClientSafety.Safe(s) && k < |s.host.processes|
    ensures ClientSafety.Safe(DataAll(c, s, k, chunks, clock))
    decreases |chunks|
  {
    hide ClientSafety.Safe, Client.DataAt;
    if |chunks| > 0 {
      ClientSafety.DataKeeps(c, s, k, chunks[0], clock);
      var t := Client.DataAt(c, s, k, chunks[0], clock);
      if k < |t.host.processes| {
        DataAllKeeps(c, t, k, chunks[1..], clock);
      }
    }
  }

  /** One request and its answer. */
  lemma RoundTrip(v: Server, n: nat, c: Client.Codec, s: Client.State, k: nat, round: Round)
    requires Engines.Sound(v.e) && Sized(v) && Faithful(v, c) && Idle(s, k) && Carried(v, n, s.sequence + 1, round)
    ensures var t := RoundAt(c, s, k, round);
            var q := s.sequence + 1;
            && Idle(t, k) && t.sequence == q && t.host.promises == s.host.promises + 1
            && t.host.log == s.host.log
                           + [Client.Settlement(s.host.promises, Client.Replied(k, ReplyOf(Found(v, n, WrittenAs(q, round)))))]
            && t.host.writes == s.host.writes + [Client.Write(k, q, WrittenAs(q, round))]
  {
    hide ClientAccepts, Client.RequestId, Client.SearchAt, ClientSafety.Safe, Sized, Faithful, Engines.Sound, Found, Delivers,
      AnswerTo, Frame, Joined, DataAll, ReplyOf, AskedAt, Client.FailAt;
    var t := AskedAt(s, round);
    IdleAsks(s, k, round);
    NumberingImmaterial(round.input, 1, Client.RequestId(s.sequence + 1));
    AnswerNotEmpty(v, n, round.body);
    DecimalNotEmpty(s.sequence + 1);
    AnswerReachesCaller(v, n, c, t, k, round.body, round.remaining, round.chunks, round.clock);
    SettlesIdle(c, t, k, round.chunks, round.clock, Client.Replied(k, ReplyOf(Found(v, n, WrittenAs(s.sequence + 1, round)))));
  }

  lemma Regroup<T>(a: seq<T>, b: seq<T>, all: seq<T>, rest: seq<T>)
    requires |all| > 0 && b == a + [all[0]] && all == [all[0]] + rest
    ensures b + rest == a + all
  {
  }

  /** Request after request, each promise is settled with the reply of the search that its own request asked for. */
  lemma {:induction false} InLockstep(v: Server, n: nat, c: Client.Codec, s: Client.State, k: nat, rounds: seq<Round>)
    requires Engines.Sound(v.e) && Sized(v) && Faithful(v, c) && Idle(s, k) && AllCarried(v, n, s.sequence + 1, rounds)
    ensures var t := RoundsAt(c, s, k, rounds);
            && Idle(t, k)
            && t.host.log == s.host.log + Answers(v, n, k, s.host.promises, s.sequence + 1, rounds)
            && t.host.writes == s.host.writes + Writes(k, s.sequence + 1, rounds)
    decreases |rounds|
  {
    hide Idle, Sized, Faithful, Engines.Sound, Found, Carried, RoundAt, WrittenAs, ReplyOf;
    if |rounds| > 0 {
      RoundTrip(v, n, c, s, k, rounds[0]);
      var t := RoundAt(c, s, k, rounds[0]);
      InLockstep(v, n + 1, c, t, k, rounds[1..]);
      var q := s.sequence + 1;
      var p := s.host.promises;
      Regroup(s.host.log, t.host.log, Answers(v, n, k, p, q, rounds), Answers(v, n + 1, k, p + 1, q + 1, rounds[1..]));
      Regroup(s.host.writes, t.host.writes, Writes(k, q, rounds), Writes(k, q + 1, rounds[1..]));
    }
  }

  // ---- The worker's side ------------------------------------------------------------------------------

  function Bodies(rounds: seq<Round>): seq<bytes> { if |rounds| == 0 then [] else [rounds[0].body] + Bodies(rounds[1..]) }

  function AllChunks(rounds: seq<Round>): bytes { if |rounds| == 0 then [] else Joined(rounds[0].chunks) + AllChunks(rounds[1..]) }

  lemma {:induction false} BodiesServed(v: Server, n: nat, q: nat, rounds: seq<Round>)
    requires Engines.Sound(v.e) && AllCarried(v, n, q, rounds)
    ensures |Bodies(rounds)| == |rounds| && forall i :: 0 <= i < |rounds| ==> |Bodies(rounds)[i]| <= FRAME_CAP
    ensures ServedCount(v, n, Bodies(rounds)) == |rounds|
    ensures AnswerFrames(v, n, Bodies(rounds)) == AllChunks(rounds)
    decreases |rounds|
  {
    hide Engines.Sound, AnswerTo, Delivers, ClientAccepts, WrittenAs, Joined, Frame, Client.RequestId;
    if |rounds| > 0 {
      BodiesServed(v, n + 1, q + 1, rounds[1..]);
      assert Bodies(rounds)[1..] == Bodies(rounds[1..]);
    }
  }

  /** What the client was fed is what the worker wrote for those requests, frame for frame. */
  lemma WorkerWritesChunks(v: Server, q: nat, rounds: seq<Round>, greeting: seq<bytes>)
    requires Engines.Sound(v.e) && AllCarried(v, 0, q, rounds)
    requires |v.serializer.ready| <= FRAME_CAP && Joined(greeting) == Frame(v.serializer.ready)
    ensures SessionAt(v, Frames(Bodies(rounds))) == Served(Joined(greeting) + AllChunks(rounds), Clean)
  {
    hide Engines.Sound, AllCarried, AnswerFrames, ServedCount, Frames, Joined, Frame, AllChunks, Bodies, ServeAt;
    BodiesServed(v, 0, q, rounds);
    var bodies := Bodies(rounds);
    assert Frames(bodies)[0..] == Frames(bodies) && bodies[..|bodies|] == bodies;
    OneAnswerEach(v, 0, bodies, Frames(bodies), 0);
  }

  // ---- The greeting -----------------------------------------------------------------------------------

  /** The ready frame is a greeting of process `k` from the root the client expects, if it expects one. */
  predicate Greets(v: Server, c: Client.Codec, s: Client.State, k: nat, identity: Client.Identity) {
    && 1 <= |v.serializer.ready| <= FRAME_CAP && c.hello(v.serializer.ready) == Some(Client.Hello(c.pid(k), identity))
    && (s.root.Some? ==> s.root.value == identity)
  }

  /** A client whose opening waits for its process to greet. */
  ghost predicate Opening(s: Client.State, k: nat) {
    ClientSafety.Safe(s) && s.child == Some(k) && !s.ready && s.opening.Some? && s.input == []
  }

  lemma OpeningWaits(s: Client.State, k: nat)
    requires Opening(s, k)
    ensures s.pending.None? && k < |s.host.processes|
  {
    hide ClientSafety.Accounted, ClientSafety.Armed, ClientSafety.Ledger, ClientSafety.Written, ClientSafety.Rooted, ClientSafety.Resting;
  }

  /** A fresh client that is opened waits for its first process. */
  lemma OpensWaiting(expected: Option<Client.Identity>)
    ensures Opening(Client.OpenAt(Client.Initial(expected)), 0)
  {
    hide ClientSafety.Safe, Client.OpenAt;
    ClientSafety.InitialSafe(expected);
    ClientSafety.OpenKeeps(Client.Initial(expected));
    OpensFirst(expected);
  }

  lemma OpensFirst(expected: Option<Client.Identity>)
    ensures var s := Client.OpenAt(Client.Initial(expected));
            s.child == Some(0) && !s.ready && s.opening.Some? && s.input == []
  {
  }

  /** The greeting, however cut, resolves the opening and pins the root. */
  lemma GreetingOpens(v: Server, c: Client.Codec, s: Client.State, k: nat, identity: Client.Identity, greeting: seq<bytes>,
                      clock: Client.Clock)
    requires Opening(s, k) && Greets(v, c, s, k, identity) && Joined(greeting) == Frame(v.serializer.ready)
    ensures k < |s.host.processes|
    ensures var t := DataAll(c, s, k, greeting, clock);
            && Idle(t, k) && t.root == Some(identity) && t.sequence == s.sequence && t.host.promises == s.host.promises
            && t.host.log == s.host.log + [Client.Settlement(s.opening.value, Client.Opened)] && t.host.writes == s.host.writes
  {
    OpeningWaits(s, k);
    hide ClientSafety.Core, DataAll, Frame, Joined, Client.FailAt, ClientSafety.Resting;
    FrameRecovered(c, s, k, v.serializer.ready, greeting, clock);
    DataAllKeeps(c, s, k, greeting, clock);
  }

  /**
   A whole session. The opening resolves; then every request is written once, in order, and its promise is settled with
   the outcome of the worker's search for exactly that request; and the bytes the client read are the bytes the worker
   writes when those requests are its input.
   */
  lemma SessionRuns(v: Server, c: Client.Codec, s: Client.State, k: nat, identity: Client.Identity, greeting: seq<bytes>,
                    clock: Client.Clock, rounds: seq<Round>)
    requires Engines.Sound(v.e) && Sized(v) && Faithful(v, c)
    requires Opening(s, k) && Greets(v, c, s, k, identity) && Joined(greeting) == Frame(v.serializer.ready)
    requires AllCarried(v, 0, s.sequence + 1, rounds)
    ensures k < |s.host.processes|
    ensures var t := RoundsAt(c, DataAll(c, s, k, greeting, clock), k, rounds);
            && Idle(t, k)
            && t.host.log == s.host.log + [Client.Settlement(s.opening.value, Client.Opened)]
                           + Answers(v, 0, k, s.host.promises, s.sequence + 1, rounds)
            && t.host.writes == s.host.writes + Writes(k, s.sequence + 1, rounds)
    ensures SessionAt(v, Frames(Bodies(rounds))) == Served(Joined(greeting) + AllChunks(rounds), Clean)
  {
    hide Idle, Sized, Faithful, Engines.Sound, AllCarried, RoundsAt, DataAll, Joined, Frame, Answers, Writes, SessionAt, Opening, AllChunks,
      Bodies;
    GreetingOpens(v, c, s, k, identity, greeting, clock);
    InLockstep(v, 0, c, DataAll(c, s, k, greeting, clock), k, rounds);
    WorkerWritesChunks(v, s.sequence + 1, rounds, greeting);
  }
}
