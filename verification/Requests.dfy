/**
 What the client really sends: every request of a run passed the client's check, and what the worker makes of it,
 its own check and the size of its frame included.
 */
module Requests {
  import opened Basics
  import opened Paths
  import opened Protocol
  import opened Responses
  import opened ClientRuns
  import opened WorkerLoop
  import Client
  import Engines
  import Utf8

  // ---- Requests a worker has been given ---------------------------------------------------------------

  /** A request apart from its deadline, which shrinks on the way to the worker. */
  function Undated(r: Request): Request { r.(deadlineMs := 0) }

  /** Every request written to a process or outstanding. */
  function Asked(w: Client.State): set<Request> {
    (set x | x in w.host.writes :: Undated(x.request)) + (if w.pending.Some? then {Undated(w.pending.value.request)} else {})
  }

  lemma FailAsks(w: Client.State, fault: Client.Fault)
    ensures Asked(Client.FailAt(w, fault)) <= Asked(w)
  {
  }

  lemma SendAsks(w: Client.State, remaining: int)
    ensures Asked(Client.SendAt(w, remaining)) <= Asked(w)
  {
    FailAsks(w, Client.DeadlinePassed);
    hide Client.FailAt;
  }

  lemma HandleAsks(c: Client.Codec, w: Client.State, k: nat, frame: bytes, clock: Client.Clock)
    requires k < |w.host.processes|
    ensures Asked(Client.HandleAt(c, w, k, frame, clock).state) <= Asked(w)
  {
    forall u: Client.State, fault
      ensures Asked(Client.FailAt(u, fault)) <= Asked(u)
    {
      FailAsks(u, fault);
    }
    if c.hello(frame).Some? {
      SendAsks(Client.Greeted(w, k, c.hello(frame).value.identity), clock.remaining);
    }
    hide Client.FailAt, Client.SendAt;
  }

  lemma {:induction false} ConsumeAsks(c: Client.Codec, w: Client.State, k: nat, clock: Client.Clock)
    requires k < |w.host.processes|
    ensures Asked(Client.ConsumeAt(c, w, k, clock)) <= Asked(w)
    decreases |w.input|
  {
    hide Client.FailAt, Client.HandleAt;
    FailAsks(w, Client.WorkerProtocol);
    if |w.input| >= Client.HEADER {
      var size := Client.Announced(w.input);
      if 0 < size <= FRAME_CAP && |w.input| >= size + Client.HEADER {
        var t := w.(input := w.input[size + Client.HEADER..]);
        var frame := w.input[Client.HEADER..size + Client.HEADER];
        HandleAsks(c, t, k, frame, clock);
        var h := Client.HandleAt(c, t, k, frame, clock);
        if !h.stop {
          ConsumeAsks(c, h.state, k, clock);
        }
      }
    }
  }

  /** Nothing but a search adds to what a worker has been given. */
  lemma EventAsks(c: Client.Codec, w: Client.State, event: Client.Event)
    requires Client.Legal(w, event) && !event.Search?
    ensures Asked(Client.StepAt(c, w, event)) <= Asked(w)
  {
    forall u: Client.State, fault
      ensures Asked(Client.FailAt(u, fault)) <= Asked(u)
    {
      FailAsks(u, fault);
    }
    hide Client.FailAt, Client.ConsumeAt;
    match event
    case Data(k, data, clock) => ConsumeAsks(c, w.(input := w.input + data), k, clock);
    case _ =>
  }

  lemma DisposeAsks(w: Client.State)
    ensures Asked(Client.DisposeAt(w)) <= Asked(w)
  {
    FailAsks(w.(disposed := true), Client.WorkerClosed);
    hide Client.FailAt;
  }

  /** The request as numbered by the client. */
  function Numbered(w: Client.State, request: Request): Request {
    request.(v := 1, id := Client.RequestId(w.sequence + 1))
  }

  lemma IssuedAsks(w: Client.State, request: Request, listens: bool)
    ensures Asked(Client.IssuedAt(w, request, listens)) <= Asked(w) + {Undated(Numbered(w, request))}
  {
    hide Client.RequestId;
  }

  lemma OtherwiseAsks(w: Client.State, outcome: Client.Outcome)
    ensures Asked(Client.Immediate(w, outcome)) == Asked(w)
    ensures Asked(Client.StartAt(w)) == Asked(w)
  {
  }

  lemma SearchAsks(w: Client.State, request: Request, signal: Client.Signal, remaining: int)
    ensures Asked(Client.SearchAt(w, request, signal, remaining)) <= Asked(w) + {Undated(Numbered(w, request))}
  {
    hide Client.FailAt, Client.SendAt, Client.StartAt, Client.IssuedAt, Client.Immediate, Asked, Numbered, Undated,
      ClientAccepts;
    forall outcome
      ensures Asked(Client.Immediate(w, outcome)) == Asked(w)
    {
      OtherwiseAsks(w, outcome);
    }
    var t := Client.IssuedAt(w, request, signal.Present?);
    IssuedAsks(w, request, signal.Present?);
    FailAsks(t, Client.Cancelled);
    OtherwiseAsks(t, Client.Opened);
    SendAsks(t, remaining);
  }

  // ---- Requests of a run ---------------------------------------------------------------------------------

  /** The request passed the client's check and is number `n`. */
  predicate Vetted(r: Request, n: nat) { ClientAccepts(r) && n >= 1 && r.v == 1 && r.id == Client.RequestId(n) }

  ghost predicate AllVetted(s: Client.State) {
    && (forall w :: w in s.host.writes ==> Vetted(w.request, w.sequence))
    && (s.pending.Some? ==> Vetted(s.pending.value.request, s.pending.value.sequence))
  }

  /** The clock reading is no more than the outstanding request was given. */
  predicate InTime(s: Client.State, remaining: int) { s.pending.Some? ==> remaining <= s.pending.value.request.deadlineMs }

  lemma FailVetted(s: Client.State, fault: Client.Fault)
    requires AllVetted(s)
    ensures AllVetted(Client.FailAt(s, fault)) && Client.FailAt(s, fault).pending.None?
  {
    hide Vetted;
  }

  lemma SendVetted(s: Client.State, remaining: int)
    requires AllVetted(s) && InTime(s, remaining)
    ensures AllVetted(Client.SendAt(s, remaining))
    ensures Client.SendAt(s, remaining).pending == s.pending || Client.SendAt(s, remaining).pending.None?
  {
    FailVetted(s, Client.DeadlinePassed);
    hide Client.FailAt, ScopeSchema, PathSchema, Utf8.Valid;
  }

  lemma HandleVetted(c: Client.Codec, s: Client.State, k: nat, frame: bytes, clock: Client.Clock)
    requires k < |s.host.processes| && AllVetted(s) && InTime(s, clock.remaining)
    ensures AllVetted(Client.HandleAt(c, s, k, frame, clock).state)
    ensures InTime(Client.HandleAt(c, s, k, frame, clock).state, clock.remaining)
  {
    hide Client.FailAt, Client.SendAt, Client.Greeted, AllVetted;
    FailVetted(s, Client.WorkerProtocol);
    FailVetted(s, Client.RootChanged);
    FailVetted(s, Client.DeadlinePassed);
    if s.ready {
      SettledVetted(s);
    } else if c.hello(frame).Some? {
      GreetedVetted(s, k, c.hello(frame).value.identity, clock.remaining);
      SendVetted(Client.Greeted(s, k, c.hello(frame).value.identity), clock.remaining);
    }
  }

  lemma SettledVetted(s: Client.State)
    requires AllVetted(s)
    ensures forall p, outcome :: AllVetted(s.(pending := None, host := Client.Settled(s.host, p, outcome)))
  {
    hide Vetted;
  }

  lemma GreetedVetted(s: Client.State, k: nat, identity: Client.Identity, remaining: int)
    requires k < |s.host.processes| && AllVetted(s) && InTime(s, remaining)
    ensures AllVetted(Client.Greeted(s, k, identity)) && InTime(Client.Greeted(s, k, identity), remaining)
  {
    hide Vetted;
  }

  lemma {:induction false} ConsumeVetted(c: Client.Codec, s: Client.State, k: nat, clock: Client.Clock)
    requires k < |s.host.processes| && AllVetted(s) && InTime(s, clock.remaining)
    ensures AllVetted(Client.ConsumeAt(c, s, k, clock))
    decreases |s.input|
  {
    hide Vetted, Client.FailAt, Client.HandleAt;
    FailVetted(s, Client.WorkerProtocol);
    if |s.input| >= Client.HEADER {
      var size := Client.Announced(s.input);
      if 0 < size <= FRAME_CAP && |s.input| >= size + Client.HEADER {
        var t := s.(input := s.input[size + Client.HEADER..]);
        var frame := s.input[Client.HEADER..size + Client.HEADER];
        HandleVetted(c, t, k, frame, clock);
        var h := Client.HandleAt(c, t, k, frame, clock);
        if !h.stop {
          ConsumeVetted(c, h.state, k, clock);
        }
      }
    }
  }

  lemma SearchVetted(s: Client.State, input: Request, signal: Client.Signal, remaining: int)
    requires AllVetted(s) && remaining <= input.deadlineMs
    ensures AllVetted(Client.SearchAt(s, input, signal, remaining))
  {
    hide Client.FailAt, Client.SendAt, Client.StartAt, Client.Immediate, Client.IssuedAt, ClientAccepts, AllVetted, InTime;
    forall outcome
      ensures AllVetted(Client.Immediate(s, outcome))
    {
      OtherwiseVetted(s, outcome);
    }
    if ClientAccepts(input) {
      var t := Client.IssuedAt(s, input, signal.Present?);
      IssuedVetted(s, input, signal.Present?, remaining);
      FailVetted(t, Client.Cancelled);
      OtherwiseVetted(t, Client.Opened);
      SendVetted(t, remaining);
    }
  }

  lemma IssuedVetted(s: Client.State, input: Request, listens: bool, remaining: int)
    requires AllVetted(s) && ClientAccepts(input) && remaining <= input.deadlineMs
    ensures AllVetted(Client.IssuedAt(s, input, listens)) && InTime(Client.IssuedAt(s, input, listens), remaining)
  {
    hide Client.RequestId, ScopeSchema, PathSchema, Utf8.Valid;
  }

  lemma OtherwiseVetted(s: Client.State, outcome: Client.Outcome)
    requires AllVetted(s)
    ensures AllVetted(Client.Immediate(s, outcome)) && AllVetted(Client.StartAt(s))
  {
    hide Vetted;
  }

  lemma StepVetted(c: Client.Codec, s: Client.State, event: Client.Event)
    requires AllVetted(s) && Client.Legal(s, event)
    ensures AllVetted(Client.StepAt(c, s, event))
  {
    forall u: Client.State, fault | AllVetted(u)
      ensures AllVetted(Client.FailAt(u, fault))
    {
      FailVetted(u, fault);
    }
    hide Vetted, Client.FailAt, Client.ConsumeAt, Client.SearchAt;
    match event
    case Search(input, signal, remaining) => SearchVetted(s, input, signal, remaining);
    case Data(k, data, clock) => ConsumeVetted(c, s.(input := s.input + data), k, clock);
    case _ =>
  }

  lemma {:induction false} RunVetted(c: Client.Codec, s: Client.State, events: seq<Client.Event>)
    requires AllVetted(s) && LegalRun(c, s, events)
    ensures AllVetted(RunAll(c, s, events))
    decreases |events|
  {
    hide AllVetted, Client.StepAt, Client.Legal;
    if |events| > 0 {
      StepVetted(c, s, events[0]);
      RunVetted(c, Client.StepAt(c, s, events[0]), events[1..]);
    }
  }

  // ---- Requests ------------------------------------------------------------------------------------------

  const MAX_SAFE_INTEGER: nat := 9_007_199_254_740_991

  /** The request as written to the worker. */
  function Sent(r: Request, sequence: nat, remaining: nat): Request {
    r.(v := 1, id := Client.RequestId(sequence), deadlineMs := remaining)
  }

  lemma {:induction false} DecimalShape(n: nat)
    ensures forall b :: b in Client.Decimal(n) ==> IdByte(b)
    ensures |Client.Decimal(n)| == Digits(n)
  {
    if n >= 10 {
      DecimalShape(n / 10);
    }
  }

  lemma SafeDigits(n: nat)
    requires n <= MAX_SAFE_INTEGER
    ensures Digits(n) <= 30
  {
    assert Power10(16) > MAX_SAFE_INTEGER by {
      assert Power10(4) == 10_000;
      assert Power10(8) == 10_000 * Power10(4);
      assert Power10(12) == 10_000 * Power10(8);
      assert Power10(16) == 10_000 * Power10(12);
    }
    DigitsBound(n, 16, Power10(16));
  }

  /** What the worker's check still looks at once the client has accepted a request. */
  predicate LeftToWorker(r: Request) {
    && (r.read.Some? ==>
          && NoDotSegment(r.read.value.path) && |r.read.value.path| <= 4096
          && r.read.value.range.start <= r.read.value.range.end <= r.maxFileBytes
          && r.read.value.range.end - r.read.value.range.start <= EXCERPT_BYTES)
    && !(r.kind == Regex && DeclinedRegex(r.pattern))
  }

  /**
   A request the client accepts is refused by the worker's check exactly when it reads a path with a dot segment the
   schema overlooks or too long in bytes, a disordered or too distant range, too long a range, or is a declined regex.
   */
  lemma WorkerRefusal(r: Request, sequence: nat, remaining: nat)
    requires ClientAccepts(r) && 1 <= sequence <= MAX_SAFE_INTEGER && 1 <= remaining <= r.deadlineMs
    ensures var sent := Sent(r, sequence, remaining);
            BoundsAcceptable(sent) && (Validate(sent).None? <==> LeftToWorker(sent))
  {
    hide PathSchema, NoDotSegment, ValidPath, Utf8.Valid, DeclinedRegex, ScopeSchema, DigestText;
    DecimalShape(sequence);
    SafeDigits(sequence);
    if r.read.Some? {
      ValidPathMeetsSchema(r.read.value.path);
    }
  }

  /** Every request written in any run is within the worker's bounds, and refused by its check exactly for those causes. */
  lemma WrittenRequestsMeetWorker(c: Client.Codec, expected: Option<Client.Identity>, events: seq<Client.Event>, w: Client.Write)
    requires LegalRun(c, Client.Initial(expected), events)
    requires w in RunAll(c, Client.Initial(expected), events).host.writes && w.sequence <= MAX_SAFE_INTEGER
    ensures ClientAccepts(w.request) && BoundsAcceptable(w.request)
    ensures Validate(w.request).None? <==> LeftToWorker(w.request)
  {
    hide LegalRun, RunAll, ClientAccepts, BoundsAcceptable, NoDotSegment, DeclinedRegex, Client.RequestId, Validate;
    RunVetted(c, Client.Initial(expected), events);
    DeadlineLeft(w.request);
    WorkerRefusal(w.request, w.sequence, w.request.deadlineMs);
    assert Sent(w.request, w.sequence, w.request.deadlineMs) == w.request;
  }

  lemma DeadlineLeft(r: Request)
    requires ClientAccepts(r)
    ensures 1 <= r.deadlineMs
  {
    hide ScopeSchema, PathSchema, Utf8.Valid;
  }

  // ---- A path the schema lets through ----------------------------------------------------------------------

  /** "a", U+2028, "/../b": the look-ahead cannot cross the separator, so it never sees the dot segment. */
  const OVERLOOKED: Path := [0x61, 0xE2, 0x80, 0xA8, 0x2F, 0x2E, 0x2E, 0x2F, 0x62]

  lemma SchemaOverlooks()
    ensures Utf8.Valid(OVERLOOKED) && PathSchema(OVERLOOKED) && !NoDotSegment(OVERLOOKED) && !ValidPath(OVERLOOKED)
  {
    OverlookedText();
    LookAheadPasses();
    OverlookedSegments();
    ValidPathMeetsSchema(OVERLOOKED);
    hide Utf8.Valid, Utf8.Utf16Length, ValidPath, LookAheadTrips, CleanBytes, DotSegmentAt, EmptySegmentAt;
  }

  lemma OverlookedSegments()
    ensures CleanBytes(OVERLOOKED) && forall i: nat :: i <= |OVERLOOKED| ==> !EmptySegmentAt(OVERLOOKED, i)
    ensures DotSegmentAt(OVERLOOKED, 5)
  {
  }

  lemma LookAheadPasses()
    ensures !LookAheadTrips(OVERLOOKED)
  {
    var p := OVERLOOKED;
    assert SeparatorAt(p, 1);
    forall i: nat | i <= |p| && DotSegmentAt(p, i)
      ensures !DotStarReaches(p, i)
    {
      assert i == 5;
      var k: nat := 1;
      assert k < i - 1 && SeparatorAt(p, k);
    }
  }

  lemma OverlookedText()
    ensures Utf8.Valid(OVERLOOKED) && Utf8.Utf16Length(OVERLOOKED) == 7
  {
    var p := OVERLOOKED;
    assert p[1..] == [0xE2, 0x80, 0xA8, 0x2F, 0x2E, 0x2E, 0x2F, 0x62];
    assert p[1..][3..] == [0x2F, 0x2E, 0x2E, 0x2F, 0x62];
    Ascii(p[1..][3..]);
  }

  lemma {:induction false} Ascii(b: bytes)
    requires forall i :: 0 <= i < |b| ==> b[i] <= 0x7F
    ensures Utf8.Valid(b) && Utf8.Utf16Length(b) == |b|
    decreases |b|
  {
    if |b| > 0 {
      Ascii(b[1..]);
    }
  }

  /** A small literal search in the given scope, or a read. */
  function Small(scope: ScopeInput, read: Option<ReadRequest>): Request {
    Request(1, [0x78], [0x78], Literal, true, 1, 1, 2048, 1, 1, 1, scope, false, read)
  }

  lemma SmallAccepted(scope: ScopeInput, read: Option<ReadRequest>)
    requires ScopeSchema(scope)
    requires read.Some? ==> PathSchema(read.value.path) && Utf8.Valid(read.value.path) && read.value.expectedFileSha256.None?
    ensures ClientAccepts(Small(scope, read))
  {
    Ascii([0x78]);
    hide ScopeSchema, PathSchema, Utf8.Valid;
  }

  function OverlookedRead(path: Path): Request {
    Small(ScopeInput([], [], false, false), Some(ReadRequest(path, Range(0, 0), None)))
  }

  /** The client sends a read of that path, and the worker refuses it. */
  lemma OverlookedReadIsRefused()
    ensures ClientAccepts(OverlookedRead(OVERLOOKED))
    ensures Validate(Sent(OverlookedRead(OVERLOOKED), 1, 1)) == Some(InvalidRequest)
  {
    SchemaOverlooks();
    hide PathSchema, Utf8.Valid;
    SmallAccepted(ScopeInput([], [], false, false), Some(ReadRequest(OVERLOOKED, Range(0, 0), None)));
    hide ClientAccepts;
    UnreadablePath(OVERLOOKED);
  }

  lemma UnreadablePath(path: Path)
    requires ClientAccepts(OverlookedRead(path)) && !ValidPath(path)
    ensures Validate(Sent(OverlookedRead(path), 1, 1)) == Some(InvalidRequest)
  {
    hide ValidPath, ClientAccepts, Client.RequestId, NoDotSegment;
    WorkerRefusal(OverlookedRead(path), 1, 1);
    hide BoundsAcceptable;
  }

  // ---- The size of a request frame --------------------------------------------------------------------------

  function TextList(ps: seq<bytes>): nat {
    if |ps| == 0 then 0 else TextList(ps[..|ps| - 1]) + Escaped(ps[|ps| - 1]) + 2
  }

  function ListBytes(ps: seq<bytes>): nat { 2 + TextList(ps) + Separators(|ps|) }

  function GroupList(gs: seq<seq<bytes>>): nat {
    if |gs| == 0 then 0 else GroupList(gs[..|gs| - 1]) + ListBytes(gs[|gs| - 1])
  }

  const REQUEST_FIXED: nat := 207

  /** Serialized size of a request. */
  function RequestBytes(r: Request): nat {
    REQUEST_FIXED + |r.id| + Escaped(r.pattern) + (if r.kind == Literal then 7 else 5) + Flag(r.caseSensitive)
    + Digits(r.maxMatches) + Digits(r.maxFileBytes) + Digits(r.responseBytes) + Digits(r.deadlineMs) + Digits(r.maxEntries) + Digits(r.maxDepth)
    + 2 + GroupList(r.scope.includeGroups) + Separators(|r.scope.includeGroups|) + ListBytes(r.scope.exclude)
    + Flag(r.scope.hidden) + Flag(r.scope.respectIgnore)
    + (if r.validateScopeOnly then 25 else 0)
    + (match r.read
       case None => 0
       case Some(read) => 45 + Escaped(read.path) + Digits(read.range.start) + Digits(read.range.end)
                          + if read.expectedFileSha256.Some? then 24 + |read.expectedFileSha256.value| else 0)
  }

  /** A request is answered exactly when it and its answer fit the frame cap; otherwise it ends the worker unanswered. */
  lemma ServedIffItFits(v: Server, n: nat, r: Request, body: bytes)
    requires Engines.Sound(v.e)
    requires v.serializer.request(body) == Some(r) && |body| == RequestBytes(r) < 0x1_0000_0000
    ensures ServeAt(v, n, Frame(body), 0)
         == if RequestBytes(r) <= 1_048_576 && |AnswerTo(v, n, body)| <= 1_048_576 then Served(Frame(AnswerTo(v, n, body)), Clean)
            else Served([], Failed)
    ensures Sized(v) && Listed(v, n, body) ==> |AnswerTo(v, n, body)| <= 1_048_576
  {
    hide Engines.Sound, Sized, Listed, AnswerTo, RequestBytes;
    SomeBytes(r);
    var input := Frame(body);
    assert input[0..] == input;
    assert [body][1..] == [];
    assert Frame(body) + [] == Frame(body);
    OneAnswerEach(v, n, [body], input, 0);
    assert Frame(AnswerTo(v, n, body)) + [] == Frame(AnswerTo(v, n, body));
    if Sized(v) && Listed(v, n, body) {
      AnswersFit(v, n, body);
    }
  }

  lemma SomeBytes(r: Request)
    ensures RequestBytes(r) >= 1
  {
  }

  /** No control characters. */
  predicate Calm(t: bytes) { forall i :: 0 <= i < |t| ==> t[i] >= 0x20 }

  lemma {:induction false} EscapedConcat(a: bytes, b: bytes)
    ensures Escaped(a + b) == Escaped(a) + Escaped(b)
    decreases |b|
  {
    if |b| == 0 {
      assert a + b == a;
    } else {
      assert (a + b)[..|a + b| - 1] == a + b[..|b| - 1];
      EscapedConcat(a, b[..|b| - 1]);
    }
  }

  lemma {:induction false} EscapedOctets(t: bytes)
    ensures Escaped(t) <= 6 * |t| && (Calm(t) ==> Escaped(t) <= 2 * |t|)
  {
    if |t| > 0 {
      EscapedOctets(t[..|t| - 1]);
    }
  }

  lemma {:induction false} EscapedHigh(t: bytes)
    requires forall i :: 0 <= i < |t| ==> t[i] >= 0x80
    ensures Escaped(t) == |t|
  {
    if |t| > 0 {
      EscapedHigh(t[..|t| - 1]);
    }
  }

  lemma EscapedHead(b: bytes)
    requires Utf8.Width(b) > 0
    ensures var units := if Utf8.Width(b) == 4 then 2 else 1;
            && Escaped(b[..Utf8.Width(b)]) <= 6 * units
            && (Calm(b) ==> Escaped(b[..Utf8.Width(b)]) <= 3 * units)
  {
    hide Escaped;
    if Utf8.Width(b) == 1 {
      EscapedOctets(b[..1]);
    } else {
      EscapedHigh(b[..Utf8.Width(b)]);
    }
  }

  /** Escaping makes at most six octets of a UTF-16 unit, and at most three without control characters. */
  lemma {:induction false} EscapedWithin(b: bytes)
    requires Utf8.Valid(b)
    ensures Escaped(b) <= 6 * Utf8.Utf16Length(b)
    ensures Calm(b) ==> Escaped(b) <= 3 * Utf8.Utf16Length(b)
    decreases |b|
  {
    if |b| > 0 {
      var n := Utf8.Width(b);
      EscapedHead(b);
      EscapedWithin(b[n..]);
      assert b == b[..n] + b[n..];
      EscapedConcat(b[..n], b[n..]);
      hide Escaped;
    }
  }

  predicate AllCalm(ps: seq<bytes>) { forall p :: p in ps ==> Calm(p) }

  /** No text of the request holds a control character. */
  predicate CalmRequest(r: Request) {
    && Calm(r.pattern) && AllCalm(r.scope.exclude)
    && (forall g :: g in r.scope.includeGroups ==> AllCalm(g))
    && (r.read.Some? ==> Calm(r.read.value.path))
  }

  lemma {:induction false} TextListWithin(ps: seq<bytes>)
    requires forall p :: p in ps ==> PatternSchema(p)
    ensures TextList(ps) <= 6146 * |ps|
    ensures AllCalm(ps) ==> TextList(ps) <= 3074 * |ps|
  {
    hide PatternSchema, Escaped, Calm;
    if |ps| > 0 {
      var last := ps[|ps| - 1];
      PatternEscaped(last);
      TextListWithin(ps[..|ps| - 1]);
    }
  }

  lemma PatternEscaped(p: bytes)
    requires PatternSchema(p)
    ensures Escaped(p) <= 6144 && (Calm(p) ==> Escaped(p) <= 3072)
  {
    EscapedWithin(p);
    hide Escaped, Utf8.Valid, Utf8.Utf16Length;
  }

  lemma GroupListWithin(gs: seq<seq<bytes>>)
    requires |gs| <= 2 && forall g :: g in gs ==> |g| <= 64 && forall p :: p in g ==> PatternSchema(p)
    ensures GroupList(gs) <= 2 * (6146 * 64 + 66)
    ensures (forall g :: g in gs ==> AllCalm(g)) ==> GroupList(gs) <= 2 * (3074 * 64 + 66)
  {
    hide PatternSchema, TextList, AllCalm;
    forall g | g in gs
      ensures ListBytes(g) <= 6146 * 64 + 66 && (AllCalm(g) ==> ListBytes(g) <= 3074 * 64 + 66)
    {
      TextListWithin(g);
    }
    assert |gs| == 2 ==> gs[..1][..0] == [];
    assert |gs| == 1 ==> gs[..0] == [];
    assert |gs| == 2 ==> gs[..1][0] in gs && gs[1] in gs;
    hide ListBytes;
  }

  lemma PathEscaped(p: Path)
    requires PathSchema(p) && Utf8.Valid(p)
    ensures Escaped(p) <= 6 * 4096 && (Calm(p) ==> Escaped(p) <= 3 * 4096)
  {
    EscapedWithin(p);
    hide Escaped, Utf8.Valid, Utf8.Utf16Length, LookAheadTrips, EmptySegmentAt;
  }

  /** Offsets are integers the client's language represents exactly, as its schema demands. */
  predicate OffsetsSafe(r: Request) {
    r.read.Some? ==> r.read.value.range.start <= MAX_SAFE_INTEGER && r.read.value.range.end <= MAX_SAFE_INTEGER
  }

  /** Everything in a request but its texts. */
  lemma NumbersFit(r: Request)
    requires ClientAccepts(r) && OffsetsSafe(r)
    ensures Digits(r.maxMatches) + Digits(r.maxFileBytes) + Digits(r.responseBytes) + Digits(r.deadlineMs) + Digits(r.maxEntries) + Digits(r.maxDepth) <= 90
    ensures r.read.Some? ==> Digits(r.read.value.range.start) + Digits(r.read.value.range.end) <= 60
  {
    hide ScopeSchema, PathSchema, Utf8.Valid;
    SmallNumberDigits(r.maxMatches);
    SmallNumberDigits(r.maxFileBytes);
    SmallNumberDigits(r.responseBytes);
    SmallNumberDigits(r.deadlineMs);
    SmallNumberDigits(r.maxEntries);
    SmallNumberDigits(r.maxDepth);
    if r.read.Some? {
      SafeDigits(r.read.value.range.start);
      SafeDigits(r.read.value.range.end);
    }
  }

  /** The client's check bounds a request's size, and below the frame cap when no text holds a control character. */
  lemma CalmRequestsFit(r: Request)
    requires ClientAccepts(r) && |r.id| <= 128
    requires OffsetsSafe(r)
    ensures RequestBytes(r) < 0x1_0000_0000
    ensures CalmRequest(r) ==> RequestBytes(r) <= 1_048_576
  {
    NumbersFit(r);
    PatternFits(r);
    ScopeFits(r);
    ReadFits(r);
    hide Escaped, ListBytes, GroupList, Digits, ClientAccepts, CalmRequest;
  }

  lemma PatternFits(r: Request)
    requires ClientAccepts(r)
    ensures Escaped(r.pattern) <= 49_152 && (CalmRequest(r) ==> Escaped(r.pattern) <= 16_384)
  {
    EscapedOctets(r.pattern);
    hide Escaped, Calm, ScopeSchema, PathSchema, Utf8.Valid;
  }

  lemma ScopeFits(r: Request)
    requires ClientAccepts(r)
    ensures var bytes := GroupList(r.scope.includeGroups) + Separators(|r.scope.includeGroups|) + ListBytes(r.scope.exclude);
            bytes <= 1_574_000 && (CalmRequest(r) ==> bytes <= 788_000)
  {
    TextListWithin(r.scope.exclude);
    GroupListWithin(r.scope.includeGroups);
    hide TextList, GroupList, AllCalm, PatternSchema, PathSchema, Utf8.Valid, Calm;
  }

  lemma ReadFits(r: Request)
    requires ClientAccepts(r)
    ensures r.read.Some? ==>
              && Escaped(r.read.value.path) <= 24_576 && (CalmRequest(r) ==> Escaped(r.read.value.path) <= 12_288)
              && (r.read.value.expectedFileSha256.Some? ==> |r.read.value.expectedFileSha256.value| == 64)
  {
    if r.read.Some? {
      PathEscaped(r.read.value.path);
    }
    hide Escaped, PathSchema, Utf8.Valid, Calm, ScopeSchema;
  }

  // ---- A request too long to send ------------------------------------------------------------------------------

  /** A pattern of 1024 control characters. */
  function Bells(): (p: bytes)
    ensures |p| == 1024
  {
    seq(1024, i => 0x07)
  }

  function Repeated(n: nat): (ps: seq<bytes>)
    ensures |ps| == n && forall p :: p in ps ==> p == Bells()
  {
    if n == 0 then [] else Repeated(n - 1) + [Bells()]
  }

  function Oversized(): Request {
    Small(ScopeInput([Repeated(64), Repeated(64)], Repeated(128), false, false), None)
  }

  lemma {:induction false} BellsEscaped(t: bytes)
    requires forall i :: 0 <= i < |t| ==> t[i] == 0x07
    ensures Escaped(t) == 6 * |t|
  {
    if |t| > 0 {
      BellsEscaped(t[..|t| - 1]);
    }
  }

  lemma {:induction false} RepeatedBytes(n: nat)
    ensures TextList(Repeated(n)) == 6146 * n
  {
    hide Escaped, Bells;
    if n > 0 {
      BellsAre();
      BellsEscaped(Bells());
      RepeatedBytes(n - 1);
      assert Repeated(n)[..n - 1] == Repeated(n - 1);
    }
  }

  lemma BellsAre()
    ensures forall i :: 0 <= i < 1024 ==> Bells()[i] == 0x07
    ensures PatternSchema(Bells())
  {
    Ascii(Bells());
  }

  lemma GroupPair(a: seq<bytes>, b: seq<bytes>)
    ensures GroupList([a, b]) == ListBytes(a) + ListBytes(b)
  {
    hide ListBytes;
    var one := [a, b][..1];
    var none := one[..0];
    assert one == [a] && none == [];
    assert GroupList(one) == GroupList(none) + ListBytes(a);
  }

  /** The client accepts a request whose frame the worker refuses: the size test is missing on the sending side. */
  lemma AcceptedRequestTooLong()
    ensures ClientAccepts(Oversized()) && RequestBytes(Oversized()) > 1_048_576
  {
    OversizedAccepted();
    RepeatedBytes(64);
    RepeatedBytes(128);
    GroupPair(Repeated(64), Repeated(64));
    hide Repeated, TextList, Escaped, GroupList, Digits, ClientAccepts;
  }

  lemma OversizedAccepted()
    ensures ClientAccepts(Oversized())
  {
    hide Repeated, Bells, PatternSchema, Utf8.Valid, ClientAccepts;
    BellsAre();
    SmallAccepted(Oversized().scope, None);
  }
}
