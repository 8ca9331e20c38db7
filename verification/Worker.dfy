/** The worker's session: its ready frame, its request loop over the input stream, and an answer carried to the caller. */
module WorkerLoop {
  import opened Basics
  import opened World
  import opened Protocol
  import opened Engines
  import opened Searching
  import opened Responses
  import opened Acceptance
  import opened ClientRuns
  import Client
  import ClientCauses
  import ClientSafety
  import Wire

  /** How messages become bytes, and bytes requests. The ready message names the process and the root it opened. */
  datatype Serializer = Serializer(
    ready: bytes,
    request: bytes -> Option<Request>,
    success: Success -> bytes,
    failure: (bytes, Code) -> bytes)

  const INVALID_ID: bytes := [0x69, 0x6E, 0x76, 0x61, 0x6C, 0x69, 0x64]

  /** A worker serving its `n`-th request runs against `world(n)`. */
  datatype Server = Server(world: nat -> World, e: Engine, root: Ino, serializer: Serializer)

  datatype Ending = Clean | Failed
  datatype Served = Served(output: bytes, ending: Ending)

  ghost function AnswerTo(v: Server, n: nat, body: bytes): bytes
    requires Sound(v.e)
  {
    match v.serializer.request(body)
    case None => v.serializer.failure(INVALID_ID, InvalidRequest)
    case Some(r) =>
      match SearchAt(Job(v.world(n), v.e, r), v.root)
      case Ok(s) => v.serializer.success(s)
      case Err(code) => v.serializer.failure(r.id, code)
  }

  /** Each request is answered by its own search, a failure under its id, and what is no request under the id `invalid`. */
  lemma AnswerExactly(v: Server, n: nat, body: bytes)
    requires Sound(v.e)
    ensures match v.serializer.request(body)
            case None => AnswerTo(v, n, body) == v.serializer.failure(Octets("invalid"), InvalidRequest)
            case Some(r) =>
              var found := SearchAt(Job(v.world(n), v.e, r), v.root);
              AnswerTo(v, n, body) == if found.Ok? then v.serializer.success(found.value) else v.serializer.failure(r.id, found.error)
  {
    hide SearchAt, Sound;
    assert INVALID_ID == Octets("invalid");
  }

  /** The loop from offset `at` of the input, about to serve request `n`. */
  ghost function ServeAt(v: Server, n: nat, input: bytes, at: nat): Served
    requires Sound(v.e) && at <= |input|
    decreases |input| - at
  {
    if at == |input| then Served([], Clean)
    else if |input| - at < Client.HEADER then Served([], Failed)
    else
      var size := Wire.Value(input[at..at + Client.HEADER]);
      var start := at + Client.HEADER;
      if size == 0 || size > FRAME_CAP || |input| - start < size then Served([], Failed)
      else
        var answer := AnswerTo(v, n, input[start..start + size]);
        if |answer| > FRAME_CAP then Served([], Failed)
        else
          var rest := ServeAt(v, n + 1, input, start + size);
          Served(Frame(answer) + rest.output, rest.ending)
  }

  /** The whole session: the ready frame, and then the answers. */
  ghost function SessionAt(v: Server, input: bytes): Served
    requires Sound(v.e)
  {
    if |v.serializer.ready| > FRAME_CAP then Served([], Failed)
    else
      var rest := ServeAt(v, 0, input, 0);
      Served(Frame(v.serializer.ready) + rest.output, rest.ending)
  }

  /** The session itself. */
  method Serve(v: Server, input: bytes) returns (output: bytes, ending: Ending)
    requires Sound(v.e)
    ensures Served(output, ending) == SessionAt(v, input)
  {
    hide Sound, AnswerTo, Frame, Wire.Value;
    if |v.serializer.ready| > FRAME_CAP {
      return [], Failed;
    }
    output := Frame(v.serializer.ready);
    var at, n := 0, 0;
    while at < |input|
      invariant 0 <= at <= |input|
      invariant var rest := ServeAt(v, n, input, at);
                Served(output + rest.output, rest.ending) == SessionAt(v, input)
      decreases |input| - at
    {
      assert output + [] == output;
      if |input| - at < Client.HEADER {
        return output, Failed;
      }
      var size := Wire.Value(input[at..at + Client.HEADER]);
      var start := at + Client.HEADER;
      if size == 0 || size > FRAME_CAP || |input| - start < size {
        return output, Failed;
      }
      var answer := Answer(v, n, input[start..start + size]);
      if |answer| > FRAME_CAP {
        return output, Failed;
      }
      ghost var rest := ServeAt(v, n + 1, input, start + size);
      assert output + (Frame(answer) + rest.output) == output + Frame(answer) + rest.output;
      output := output + Frame(answer);
      at, n := start + size, n + 1;
    }
    assert output + [] == output;
    return output, Clean;
  }

  method Answer(v: Server, n: nat, body: bytes) returns (answer: bytes)
    requires Sound(v.e)
    ensures answer == AnswerTo(v, n, body)
  {
    hide SearchAt, Sound;
    var request := v.serializer.request(body);
    if request.None? {
      return v.serializer.failure(INVALID_ID, InvalidRequest);
    }
    var outcome := Run(v.world(n), v.e, request.value, v.root);
    match outcome
    case Ok(s) => return v.serializer.success(s);
    case Err(code) => return v.serializer.failure(request.value.id, code);
  }

  /** Serialized sizes: additive for a success, bounded for a failure whose id is cut to 128 characters. */
  ghost predicate Sized(v: Server) {
    && (forall s :: exists elapsed :: 0 <= elapsed <= ELAPSED_WIDTH && |v.serializer.success(s)| == SuccessBytes(v.e, s, elapsed))
    && (forall id, code :: exists escaped: nat :: escaped <= 6 * 128 && |v.serializer.failure(id, code)| == FailureBytes(escaped, code))
  }

  /** A read is served over listings that repeat no name on its path; a search needs no such thing. */
  ghost predicate Listed(v: Server, n: nat, body: bytes) {
    v.serializer.request(body).Some? && v.serializer.request(body).value.read.Some? ==>
      ListsOnce(v.world(n), v.serializer.request(body).value.read.value.path)
  }

  /** Whatever the request and the file system, the answer is a frame within the cap. */
  lemma AnswersFit(v: Server, n: nat, body: bytes)
    requires Sound(v.e) && Sized(v) && Listed(v, n, body)
    ensures 1 <= |AnswerTo(v, n, body)| <= 1_048_576
  {
    hide SearchAt, Sound, ListsOnce, EnvelopeBytes, HitsBytes, SuccessAccepted;
    match v.serializer.request(body)
    case None => FailureSized(v, INVALID_ID, InvalidRequest);
    case Some(r) =>
      match SearchAt(Job(v.world(n), v.e, r), v.root)
      case Ok(s) =>
        ListedDelivers(v, n, r);
        SuccessNotEmpty(v, s);
      case Err(code) => FailureSized(v, r.id, code);
  }

  lemma FailureSized(v: Server, id: bytes, code: Code)
    requires Sized(v)
    ensures 1 <= |v.serializer.failure(id, code)| <= ENVELOPE_RESERVE
  {
    hide SuccessBytes;
    var escaped: nat :| escaped <= 6 * 128 && |v.serializer.failure(id, code)| == FailureBytes(escaped, code);
    FailureFits(escaped, code);
  }

  lemma SuccessNotEmpty(v: Server, s: Success)
    requires Sized(v)
    ensures |v.serializer.success(s)| >= 1
  {
    var elapsed :| 0 <= elapsed <= ELAPSED_WIDTH && |v.serializer.success(s)| == SuccessBytes(v.e, s, elapsed);
  }

  // ---- Streams of requests ----------------------------------------------------------------------------

  function Frames(bodies: seq<bytes>): bytes { if |bodies| == 0 then [] else Frame(bodies[0]) + Frames(bodies[1..]) }

  ghost function AnswerFrames(v: Server, n: nat, bodies: seq<bytes>): bytes
    requires Sound(v.e)
    decreases |bodies|
  {
    if |bodies| == 0 then [] else Frame(AnswerTo(v, n, bodies[0])) + AnswerFrames(v, n + 1, bodies[1..])
  }

  /** The request is a frame of legal size, and so is its answer. */
  ghost predicate Serves(v: Server, n: nat, body: bytes)
    requires Sound(v.e)
  {
    1 <= |body| <= FRAME_CAP && |AnswerTo(v, n, body)| <= FRAME_CAP
  }

  /** How many requests of a stream are served: all before the first that is not. */
  ghost function ServedCount(v: Server, n: nat, bodies: seq<bytes>): (k: nat)
    requires Sound(v.e)
    ensures k <= |bodies|
    decreases |bodies|
  {
    if |bodies| == 0 || !Serves(v, n, bodies[0]) then 0 else 1 + ServedCount(v, n + 1, bodies[1..])
  }

  /** A stream of request frames is answered frame for frame, in order, up to the first that cannot be served. */
  lemma {:induction false} OneAnswerEach(v: Server, n: nat, bodies: seq<bytes>, input: bytes, at: nat)
    requires Sound(v.e)
    requires forall i :: 0 <= i < |bodies| ==> |bodies[i]| < 0x1_0000_0000
    requires at <= |input| && input[at..] == Frames(bodies)
    ensures var k := ServedCount(v, n, bodies);
            ServeAt(v, n, input, at) == Served(AnswerFrames(v, n, bodies[..k]), if k == |bodies| then Clean else Failed)
    decreases |bodies|
  {
    hide Sound, AnswerTo, Wire.BigEndian, Wire.Value;
    if |bodies| > 0 {
      var body := bodies[0];
      FrontFrame(body, Frames(bodies[1..]), input, at);
      if Serves(v, n, body) {
        OneAnswerEach(v, n + 1, bodies[1..], input, at + Client.HEADER + |body|);
        var k := ServedCount(v, n + 1, bodies[1..]);
        assert bodies[..1 + k][1..] == bodies[1..][..k];
      }
    }
  }

  lemma FrontFrame(body: bytes, more: bytes, input: bytes, at: nat)
    requires |body| < 0x1_0000_0000 && at <= |input| && input[at..] == Frame(body) + more
    ensures |input| - at >= Client.HEADER + |body|
    ensures Wire.Value(input[at..at + Client.HEADER]) == |body|
    ensures input[at + Client.HEADER..at + Client.HEADER + |body|] == body
    ensures input[at + Client.HEADER + |body|..] == more
  {
    hide Wire.Value, Wire.BigEndian;
    assert Wire.Pow256(Client.HEADER) == 4_294_967_296;
    var header := Wire.BigEndian(|body|, Client.HEADER);
    Wire.HeaderRoundTrip(|body|, Client.HEADER, body + more);
    assert Frame(body) + more == header + (body + more);
    assert input[at..at + Client.HEADER] == input[at..][..Client.HEADER];
    assert input[at + Client.HEADER..at + Client.HEADER + |body|] == input[at..][Client.HEADER..][..|body|];
    assert input[at + Client.HEADER + |body|..] == input[at..][Client.HEADER..][|body|..];
  }

  /** Requests over listings that repeat no name on a read's path are all served. */
  lemma {:induction false} ListedServed(v: Server, n: nat, bodies: seq<bytes>)
    requires Sound(v.e) && Sized(v)
    requires forall i :: 0 <= i < |bodies| ==> 1 <= |bodies[i]| <= FRAME_CAP && Listed(v, n + i, bodies[i])
    ensures ServedCount(v, n, bodies) == |bodies|
    decreases |bodies|
  {
    hide Sound, Sized, Listed, AnswerTo;
    if |bodies| > 0 {
      AnswersFit(v, n, bodies[0]);
      forall i | 0 <= i < |bodies[1..]|
        ensures 1 <= |bodies[1..][i]| <= FRAME_CAP && Listed(v, n + 1 + i, bodies[1..][i])
      {
        assert bodies[1..][i] == bodies[i + 1];
        var later := Listed(v, n + (i + 1), bodies[i + 1]);
      }
      ListedServed(v, n + 1, bodies[1..]);
    }
  }

  // ---- End to end -------------------------------------------------------------------------------------

  /** The client reads back what the worker serialized, and checks it as it must. */
  ghost predicate Faithful(v: Server, c: Client.Codec) {
    && (forall s, r :: c.reply(v.serializer.success(s), r)
                    == if SuccessAccepted(r, s, |v.serializer.success(s)|) then Some(Client.Answered(s)) else None)
    && (forall code, r: Request :: 1 <= |r.id| <= 128 && |v.serializer.failure(r.id, code)| <= r.responseBytes ==>
          c.reply(v.serializer.failure(r.id, code), r) == Some(Client.Refused(code)))
  }

  /** The client's check does not look at the deadline, the one field that changes on the way to the worker. */
  lemma DeadlineImmaterial(r: Request, deadline: nat, s: Success, n: nat)
    ensures SuccessAccepted(r.(deadlineMs := deadline), s, n) <==> SuccessAccepted(r, s, n)
  {
    var t := r.(deadlineMs := deadline);
    assert forall h :: HitAccepted(t, h) == HitAccepted(r, h);
  }

  /** What a search's outcome is to the client. */
  function ReplyOf(found: Result<Success, Code>): Client.Reply {
    match found
    case Ok(s) => Client.Answered(s)
    case Err(code) => Client.Refused(code)
  }

  /** The worker's search for a request that went out with a deadline of its own. */
  ghost function Found(v: Server, n: nat, r: Request): Result<Success, Code>
    requires Sound(v.e)
  {
    SearchAt(Job(v.world(n), v.e, r), v.root)
  }

  /** The answer passes the check of the client that asked. Failures always do. */
  ghost predicate Delivers(v: Server, n: nat, r: Request)
    requires Sound(v.e)
  {
    Found(v, n, r).Ok? ==> SuccessAccepted(r, Found(v, n, r).value, |v.serializer.success(Found(v, n, r).value)|)
  }

  /** Every search's answer does, and every read's over listings that repeat no name on its path. */
  lemma ListedDelivers(v: Server, n: nat, r: Request)
    requires Sound(v.e) && Sized(v)
    requires r.read.Some? ==> ListsOnce(v.world(n), r.read.value.path)
    ensures Delivers(v, n, r)
    ensures Found(v, n, r).Ok? ==> |v.serializer.success(Found(v, n, r).value)| <= 1_048_576
  {
    hide SearchAt, Sound, ListsOnce, SuccessAccepted, SuccessBytes;
    if Found(v, n, r).Ok? {
      var s := Found(v, n, r).value;
      var elapsed :| 0 <= elapsed <= ELAPSED_WIDTH && |v.serializer.success(s)| == SuccessBytes(v.e, s, elapsed);
      SuccessPassesClient(Job(v.world(n), v.e, r), v.root, elapsed);
    }
  }

  /** What the client makes of an answer whose frame it has received. */
  lemma ReplyUnderstood(v: Server, n: nat, c: Client.Codec, r: Request, body: bytes, deadline: nat)
    requires Sound(v.e) && Sized(v) && Faithful(v, c) && ClientAccepts(r) && 1 <= |r.id| <= 128
    requires v.serializer.request(body) == Some(r.(deadlineMs := deadline))
    ensures c.reply(AnswerTo(v, n, body), r)
         == if Delivers(v, n, r.(deadlineMs := deadline)) then Some(ReplyOf(Found(v, n, r.(deadlineMs := deadline)))) else None
  {
    hide SearchAt, Sound, SuccessAccepted, Sized;
    var sent := r.(deadlineMs := deadline);
    match Found(v, n, sent)
    case Ok(s) => DeadlineImmaterial(r, deadline, s, |v.serializer.success(s)|);
    case Err(code) => FailureSized(v, r.id, code);
  }

  lemma LiveProcesses(s: Client.State)
    requires ClientSafety.Safe(s)
    ensures ClientSafety.Processes(s)
  {
  }

  /**
   A ready client with a request outstanding, and a worker that served it: however the answer's bytes are cut, the
   caller's promise is resolved with exactly what the search returned, success or failure, if the answer passes the
   client's check and is in time; late, it is rejected for its deadline, and one that does not pass for the protocol.
   */
  lemma AnswerReachesCaller(v: Server, n: nat, c: Client.Codec, s: Client.State, k: nat, body: bytes, deadline: nat, chunks: seq<bytes>,
                            clock: Client.Clock)
    requires Sound(v.e) && Sized(v) && Faithful(v, c)
    requires ClientSafety.Safe(s) && s.child == Some(k) && s.ready && s.pending.Some? && s.input == []
    requires ClientAccepts(s.pending.value.request) && 1 <= |s.pending.value.request.id| <= 128
    requires v.serializer.request(body) == Some(s.pending.value.request.(deadlineMs := deadline))
    requires 1 <= |AnswerTo(v, n, body)| <= FRAME_CAP && Joined(chunks) == Frame(AnswerTo(v, n, body))
    ensures k < |s.host.processes|
    ensures var sent := s.pending.value.request.(deadlineMs := deadline);
            var reply := Client.Replied(k, ReplyOf(Found(v, n, sent)));
            var t := DataAll(c, s, k, chunks, clock);
            && (Delivers(v, n, sent) && !clock.replyLate ==>
                  t == s.(pending := None, host := Client.Settled(s.host, s.pending.value.promise, reply)))
            && (Delivers(v, n, sent) && clock.replyLate ==> ClientCauses.Failed(s, t, Client.DeadlinePassed))
            && (!Delivers(v, n, sent) ==> ClientCauses.Failed(s, t, Client.WorkerProtocol))
  {
    hide ClientCauses.Failed, ClientSafety.Processes, Found, Sound, Sized, Faithful, Delivers, AnswerTo, ReplyOf, ClientAccepts, ClientSafety.Core, DataAll, Frame, Joined,
      Client.FailAt, Client.Settled;
    LiveProcesses(s);
    ClientCauses.FailFails(s, Client.DeadlinePassed);
    ClientCauses.FailFails(s, Client.WorkerProtocol);
    FrameRecovered(c, s, k, AnswerTo(v, n, body), chunks, clock);
    ReplyUnderstood(v, n, c, s.pending.value.request, body, deadline);
  }
}
