/** Whole runs of the worker client, and independence from how frames are cut into chunks. */
module ClientRuns {
  import opened Basics
  import opened Protocol
  import opened Client
  import opened ClientSafety
  import Wire

  // ---- Runs --------------------------------------------------------------------------------------------

  ghost predicate LegalRun(c: Codec, s: State, events: seq<Event>)
    decreases |events|
  {
    |events| == 0 || (Legal(s, events[0]) && LegalRun(c, StepAt(c, s, events[0]), events[1..]))
  }

  ghost function RunAll(c: Codec, s: State, events: seq<Event>): State
    requires LegalRun(c, s, events)
    decreases |events|
  {
    if |events| == 0 then s else RunAll(c, StepAt(c, s, events[0]), events[1..])
  }

  lemma {:induction false} RunKeeps(c: Codec, s: State, events: seq<Event>)
    requires Safe(s) && LegalRun(c, s, events)
    ensures Safe(RunAll(c, s, events)) && (s.root.Some? ==> RunAll(c, s, events).root == s.root) && s.host.log <= RunAll(c, s, events).host.log
    decreases |events|
  {
    hide Core, Resting, StepAt;
    if |events| > 0 {
      StepKeeps(c, s, events[0]);
      RunKeeps(c, StepAt(c, s, events[0]), events[1..]);
    }
  }

  /** Settlements of one promise. */
  function Settlements(log: seq<Settlement>, p: nat): nat {
    if |log| == 0 then 0 else Settlements(log[..|log| - 1], p) + if log[|log| - 1].promise == p then 1 else 0
  }

  lemma {:induction false} SettledAtMostOnce(log: seq<Settlement>, p: nat)
    requires forall i, j :: 0 <= i < j < |log| ==> log[i].promise != log[j].promise
    ensures Settlements(log, p) == if (exists x :: x in log && x.promise == p) then 1 else 0
  {
    if |log| > 0 {
      var n := |log| - 1;
      SettledAtMostOnce(log[..n], p);
      if exists x :: x in log && x.promise == p {
        var x :| x in log && x.promise == p;
        assert x in log[..n] || x == log[n];
      }
      assert forall x :: x in log[..n] ==> x in log;
      assert log[n].promise == p ==> !exists x :: x in log[..n] && x.promise == p;
    }
  }

  /** No two processes are alive at once. */
  lemma OneLiveProcess(s: State, i: nat, j: nat)
    requires Safe(s) && Running(s.host, i) && Running(s.host, j)
    ensures i == j
  {
    hide Engaged, Accounted, Armed, Ledger, Written, Rooted, Resting;
    assert s.child != Some(i) ==> Dying(s.host, i);
    assert s.child != Some(j) ==> Dying(s.host, j);
  }

  /**
   After any legal run: one live process at most; a child that has not greeted has someone waiting; every promise is
   settled exactly once, or waits with its timer armed; replies come only from processes rooted where registration said.
   */
  lemma EveryRun(c: Codec, expected: Option<Identity>, events: seq<Event>)
    requires LegalRun(c, Initial(expected), events)
    ensures var s := RunAll(c, Initial(expected), events);
            && (forall i: nat, j: nat :: Running(s.host, i) && Running(s.host, j) ==> i == j)
            && !(s.opening.Some? && s.pending.Some?)
            && (s.child.Some? && !s.ready ==> s.opening.Some? || s.pending.Some?)
            && (forall p: nat :: p < s.host.promises ==>
                  if p in Waiting(s) then p in s.host.timers && Settlements(s.host.log, p) == 0 else Settlements(s.host.log, p) == 1)
            && s.host.timers == Waiting(s) && s.host.listeners <= Waiting(s)
            && |s.input| < 1_048_576 + 4
            && (forall x :: x in s.host.log && x.outcome.Replied? ==>
                  x.outcome.child < |s.host.processes|
                  && s.host.processes[x.outcome.child].greeted.Some? && s.host.processes[x.outcome.child].greeted == s.root)
            && (expected.Some? ==> s.root == expected)
  {
    InitialSafe(expected);
    RunKeeps(c, Initial(expected), events);
    hide Processes, Written, Ledger, LegalRun, RunAll;
    var s := RunAll(c, Initial(expected), events);
    forall i: nat, j: nat | Running(s.host, i) && Running(s.host, j)
      ensures i == j
    {
      OneLiveProcess(s, i, j);
    }
    forall p: nat | p < s.host.promises
      ensures if p in Waiting(s) then Settlements(s.host.log, p) == 0 else Settlements(s.host.log, p) == 1
    {
      SettledAtMostOnce(s.host.log, p);
    }
  }

  /** Requests are written to ready children in order, each at most once. */
  lemma EachRequestWrittenOnce(c: Codec, expected: Option<Identity>, events: seq<Event>)
    requires LegalRun(c, Initial(expected), events)
    ensures var s := RunAll(c, Initial(expected), events);
            && (forall i, j :: 0 <= i < j < |s.host.writes| ==> s.host.writes[i].sequence < s.host.writes[j].sequence)
            && (s.pending.Some? && s.ready ==>
                  && |s.host.writes| > 0 && s.child.Some?
                  && Carries(s.host.writes[|s.host.writes| - 1], s.child.value, s.pending.value))
  {
    InitialSafe(expected);
    RunKeeps(c, Initial(expected), events);
    hide Processes, Rooted, Accounted, LegalRun, RunAll;
  }

  /** The chain of events that makes waiting end: the armed timer may fire, and then exactly this promise is rejected. */
  lemma WaitingEnds(c: Codec, s: State, p: nat)
    requires Safe(s) && p in Waiting(s)
    ensures Legal(s, TimerFired(p))
    ensures var t := StepAt(c, s, TimerFired(p));
            Safe(t) && p !in Waiting(t) && Settlement(p, Rejected(DeadlinePassed)) in t.host.log
  {
    hide Processes, Rooted, Written, FailAt;
    StepKeeps(c, s, TimerFired(p));
    var u := s.(host := s.host.(timers := s.host.timers - {p}));
    ProcessesFrom(s, u);
    RootedFrom(s, u);
    assert Waiting(u) == Waiting(s);
    SentAccounted(s, u);
    hide Accounted;
    FailKeeps(u, DeadlinePassed);
  }

  /** A retirement ends when the killed process closes, and only then can another be started. */
  lemma RetirementEnds(s: State) returns (k: nat)
    requires Safe(s) && s.retiring
    ensures Dying(s.host, k) && s.child.None?
    ensures !ClosedAt(s, k).retiring
    ensures forall i: nat :: Running(s.host, i) ==> i == k
  {
    hide Accounted, Armed, Ledger, Written, Rooted, Resting;
    k :| Dying(s.host, k);
    assert BrokenAt(s, k) == s;
    forall i: nat | Running(s.host, i)
      ensures i == k
    {
      assert Dying(s.host, i);
    }
  }

  // ---- Chunks ----------------------------------------------------------------------------------------------

  /** A failure forgets the buffer; otherwise handling a frame leaves the rest of the buffer alone. */
  lemma HandleIgnoresInput(c: Codec, s: State, k: nat, frame: bytes, clock: Clock, input: bytes)
    requires s.child == Some(k) && k < |s.host.processes|
    ensures var h := HandleAt(c, s, k, frame, clock);
            && HandleAt(c, s.(input := input), k, frame, clock)
               == (if h.state.child.Some? then Handled(h.state.(input := input), h.stop) else h)
            && (h.state.child.Some? ==> h.state.child == Some(k) && h.state.input == s.input)
            && (h.state.child.None? ==> h.state.input == [])
            && (h.stop ==> h.state.child.None?)
  {
    hide Settled;
    FailIgnoresInput(s, input, WorkerProtocol);
    FailIgnoresInput(s, input, RootChanged);
    FailIgnoresInput(s, input, DeadlinePassed);
    hide FailAt;
    if !s.ready {
      GreetIgnoresInput(c, s, k, frame, clock, input);
    }
  }

  lemma FailIgnoresInput(s: State, input: bytes, fault: Fault)
    ensures FailAt(s.(input := input), fault) == FailAt(s, fault)
  {
  }

  /** How a handled frame compares with handling it over another buffer. */
  ghost predicate SameButInput(s: State, k: nat, h: Handled, g: Handled, input: bytes) {
    && g == (if h.state.child.Some? then Handled(h.state.(input := input), h.stop) else h)
    && (h.state.child.Some? ==> h.state.child == Some(k) && h.state.input == s.input)
    && (h.stop ==> h.state.child.None?)
  }

  lemma FailedGreeting(s: State, k: nat, input: bytes, fault: Fault)
    ensures SameButInput(s, k, Handled(FailAt(s, fault), true), Handled(FailAt(s.(input := input), fault), true), input)
  {
    FailIgnoresInput(s, input, fault);
    hide FailAt;
  }

  lemma AcceptedGreeting(s: State, k: nat, identity: Identity, remaining: int, input: bytes)
    requires s.child == Some(k) && k < |s.host.processes|
    ensures SameButInput(s, k, Handled(SendAt(Greeted(s, k, identity), remaining), false),
                         Handled(SendAt(Greeted(s.(input := input), k, identity), remaining), false), input)
  {
    hide FailAt, Greeted, SendAt;
    GreetedIgnoresInput(s, k, identity, input);
    SendIgnoresInput(Greeted(s, k, identity), remaining, input);
  }

  lemma GreetIgnoresInput(c: Codec, s: State, k: nat, frame: bytes, clock: Clock, input: bytes)
    requires s.child == Some(k) && k < |s.host.processes|
    ensures SameButInput(s, k, GreetAt(c, s, k, frame, clock), GreetAt(c, s.(input := input), k, frame, clock), input)
  {
    hide FailAt, Greeted, SendAt, SameButInput;
    var hello := c.hello(frame);
    if hello.None? || hello.value.pid != c.pid(k) {
      FailedGreeting(s, k, input, WorkerProtocol);
    } else if s.root.Some? && s.root.value != hello.value.identity {
      FailedGreeting(s, k, input, RootChanged);
    } else {
      AcceptedGreeting(s, k, hello.value.identity, clock.remaining, input);
    }
  }

  lemma GreetedIgnoresInput(s: State, k: nat, identity: Identity, input: bytes)
    requires k < |s.host.processes|
    ensures Greeted(s.(input := input), k, identity) == Greeted(s, k, identity).(input := input)
    ensures Greeted(s, k, identity).child == s.child && Greeted(s, k, identity).input == s.input
  {
  }

  lemma SendIgnoresInput(s: State, remaining: int, input: bytes)
    requires s.child.Some?
    ensures var t := SendAt(s, remaining);
            && SendAt(s.(input := input), remaining) == (if t.child.Some? then t.(input := input) else t)
            && (t.child.Some? ==> t.child == s.child && t.input == s.input)
  {
    FailIgnoresInput(s, input, DeadlinePassed);
    hide FailAt;
  }

  lemma {:induction false} ConsumeSplit(c: Codec, s: State, k: nat, clock: Clock, more: bytes)
    requires s.child == Some(k) && k < |s.host.processes|
    ensures var t := ConsumeAt(c, s, k, clock);
            && |t.host.processes| == |s.host.processes| && |t.input| <= |s.input|
            && ConsumeAt(c, s.(input := s.input + more), k, clock)
               == (if t.child == Some(k) then ConsumeAt(c, t.(input := t.input + more), k, clock) else t)
    decreases |s.input|
  {
    hide HandleAt, FailAt;
    var joined := s.(input := s.input + more);
    if |s.input| >= HEADER {
      assert joined.input[..HEADER] == s.input[..HEADER];
      var size := Announced(s.input);
      FailIgnoresInput(s, joined.input, WorkerProtocol);
      if 0 < size <= FRAME_CAP && |s.input| >= size + HEADER {
        var rest := s.input[size + HEADER..];
        var frame := s.input[HEADER..size + HEADER];
        assert joined.input[HEADER..size + HEADER] == frame && joined.input[size + HEADER..] == rest + more;
        var t := s.(input := rest);
        HandleIgnoresInput(c, t, k, frame, clock, rest + more);
        assert t.(input := rest + more) == joined.(input := rest + more);
        var h := HandleAt(c, t, k, frame, clock);
        if !h.stop && h.state.child.Some? {
          ConsumeSplit(c, h.state, k, clock, more);
        }
      }
    }
  }

  /** Two chunks have the effect of one, whatever their boundary, unless together they exceed the buffer. */
  lemma TwoChunks(c: Codec, s: State, k: nat, a: bytes, b: bytes, clock: Clock)
    requires Safe(s) && s.child == Some(k) && |s.input| + |a| + |b| <= FRAME_CAP + HEADER
    ensures k < |s.host.processes|
    ensures |DataAt(c, s, k, a, clock).host.processes| == |s.host.processes|
    ensures DataAt(c, DataAt(c, s, k, a, clock), k, b, clock) == DataAt(c, s, k, a + b, clock)
  {
    hide ConsumeAt, Processes, Accounted, Ledger, Written, Rooted;
    ChildExists(s);
    ConsumeSplit(c, s.(input := s.input + a), k, clock, b);
    assert s.input + (a + b) == s.input + a + b;
  }

  lemma ChildExists(s: State)
    requires Safe(s) && s.child.Some?
    ensures s.child.value < |s.host.processes|
  {
    hide Accounted, Ledger, Written, Rooted, Resting;
  }

  function Joined(chunks: seq<bytes>): bytes { if |chunks| == 0 then [] else chunks[0] + Joined(chunks[1..]) }

  function DataAll(c: Codec, s: State, k: nat, chunks: seq<bytes>, clock: Clock): State
    requires k < |s.host.processes|
    decreases |chunks|
  {
    if |chunks| == 0 then s
    else
      var t := DataAt(c, s, k, chunks[0], clock);
      if k < |t.host.processes| then DataAll(c, t, k, chunks[1..], clock) else t
  }

  lemma NoData(c: Codec, s: State, k: nat, clock: Clock)
    requires Safe(s) && k < |s.host.processes|
    ensures DataAt(c, s, k, [], clock) == s
  {
    hide Processes, Engaged, Accounted, Armed, Ledger, Written, Rooted;
    assert s.input + [] == s.input;
  }

  lemma {:induction false} AfterChild(c: Codec, s: State, k: nat, chunks: seq<bytes>, clock: Clock)
    requires k < |s.host.processes| && s.child != Some(k)
    ensures DataAll(c, s, k, chunks, clock) == s
    decreases |chunks|
  {
    if |chunks| > 0 {
      AfterChild(c, s, k, chunks[1..], clock);
    }
  }

  /** However a byte stream is cut into chunks, its effect is that of one chunk. */
  lemma {:induction false} ChunksIrrelevant(c: Codec, s: State, k: nat, chunks: seq<bytes>, clock: Clock)
    requires Safe(s) && s.child == Some(k) && k < |s.host.processes| && |s.input| + |Joined(chunks)| <= FRAME_CAP + HEADER
    ensures DataAll(c, s, k, chunks, clock) == DataAt(c, s, k, Joined(chunks), clock)
    decreases |chunks|
  {
    hide ConsumeAt, Core;
    if |chunks| == 0 {
      NoData(c, s, k, clock);
    } else {
      var t := DataAt(c, s, k, chunks[0], clock);
      TwoChunks(c, s, k, chunks[0], Joined(chunks[1..]), clock);
      DataKeeps(c, s, k, chunks[0], clock);
      if t.child == Some(k) {
        ConsumeShrinks(c, s, k, chunks[0], clock);
        ChunksIrrelevant(c, t, k, chunks[1..], clock);
      } else {
        AfterChild(c, t, k, chunks[1..], clock);
      }
    }
  }

  lemma ConsumeShrinks(c: Codec, s: State, k: nat, data: bytes, clock: Clock)
    requires s.child == Some(k) && k < |s.host.processes| && |s.input| + |data| <= FRAME_CAP + HEADER
    ensures |DataAt(c, s, k, data, clock).input| <= |s.input| + |data|
  {
    hide ConsumeAt;
    ConsumeSplit(c, s.(input := s.input + data), k, clock, []);
  }

  /** A frame as both ends write it. */
  function Frame(body: bytes): bytes { Wire.BigEndian(|body|, HEADER) + body }

  /** Any cutting of one frame, of any legal size, makes the client handle exactly that frame. */
  lemma FrameRecovered(c: Codec, s: State, k: nat, body: bytes, chunks: seq<bytes>, clock: Clock)
    requires Safe(s) && s.child == Some(k) && s.input == [] && 1 <= |body| <= FRAME_CAP
    requires Joined(chunks) == Frame(body)
    ensures k < |s.host.processes|
    ensures DataAll(c, s, k, chunks, clock) == HandleAt(c, s, k, body, clock).state
  {
    hide Core, HandleAt, DataAll, Wire.BigEndian, Joined;
    ChildExists(s);
    assert Wire.Pow256(HEADER) == 4_294_967_296;
    Wire.HeaderRoundTrip(|body|, HEADER, body);
    ChunksIrrelevant(c, s, k, chunks, clock);
    var input := Frame(body);
    assert s.input + input == input;
    HandleIgnoresInput(c, s, k, body, clock, []);
    OneFrame(c, s.(input := input), k, body, clock);
  }

  lemma OneFrame(c: Codec, s: State, k: nat, body: bytes, clock: Clock)
    requires s.child == Some(k) && k < |s.host.processes| && |s.input| == |body| + HEADER && 1 <= |body| <= FRAME_CAP
    requires Announced(s.input) == |body| && s.input[HEADER..] == body
    ensures ConsumeAt(c, s, k, clock) == HandleAt(c, s.(input := []), k, body, clock).state
  {
    hide HandleAt, Wire.Value;
    var t := s.(input := []);
    assert s.input[HEADER..|body| + HEADER] == body && s.input[|body| + HEADER..] == [];
    HandleIgnoresInput(c, t, k, body, clock, []);
    var h := HandleAt(c, t, k, body, clock);
    assert h.state.input == [];
  }
}
