/** From the walk's invariants to what leaves the worker: coverage, counts, serialized size, and the client's check. */
module Responses {
  import opened Basics
  import opened World
  import opened Protocol
  import opened Engines
  import opened Scoping
  import opened Searching
  import opened SearchInvariants

  function NameLength(c: Code): nat {
    match c
    case InvalidRequest => 15
    case RegexInvalid => 13
    case MatchEncoding => 14
    case ReadFailed => 11
    case SourceMutated => 14
    case Deadline => 8
    case LimitReached => 13
    case ByteLimit => 10
    case EntryLimit => 11
    case DepthLimit => 11
    case PolicyChanged => 14
    case OutOfScope => 12
    case RevisionMismatch => 17
  }

  /** Decimal digits of a count. */
  function Digits(n: nat): nat { if n < 10 then 1 else 1 + Digits(n / 10) }

  function Separators(n: nat): nat { if n == 0 then 0 else n - 1 }

  function CodesBytes(cs: seq<Code>): nat {
    if |cs| == 0 then 0 else NameLength(cs[0]) + 2 + CodesBytes(cs[1..])
  }

  function HitsBytes(e: Engine, hits: seq<Hit>): nat {
    if |hits| == 0 then 0 else HitsBytes(e, hits[..|hits| - 1]) + e.hitSize(hits[|hits| - 1])
  }

  /** Octets that JSON writes one octet as: six for a control character without a short form, two for a short escape. */
  function EscapedOctet(b: byte): nat {
    if b == 0x22 || b == 0x5C || b == 0x08 || b == 0x09 || b == 0x0A || b == 0x0C || b == 0x0D then 2
    else if b < 0x20 then 6
    else 1
  }

  function Escaped(t: bytes): nat {
    if |t| == 0 then 0 else Escaped(t[..|t| - 1]) + EscapedOctet(t[|t| - 1])
  }

  function Flag(b: bool): nat { if b then 4 else 5 }

  const SUCCESS_FIXED: nat := 212
  const FAILURE_FIXED: nat := 42

  const HIT_FIXED: nat := 114

  /** Serialized size of a hit. */
  function HitBytes(h: Hit): nat {
    HIT_FIXED + Escaped(h.path) + |h.fileSha256| + Digits(h.range.start) + Digits(h.range.end)
    + Digits(h.excerpt.range.start) + Digits(h.excerpt.range.end) + Escaped(h.excerpt.text) + Flag(h.excerpt.truncated)
  }

  /** Serialized size of everything in a success but its hits; `elapsed` is the printed width of the elapsed time. */
  function EnvelopeBytes(s: Success, elapsed: nat): nat {
    SUCCESS_FIXED + |s.id| + (if s.complete then 8 else 7) + CodesBytes(s.reasons) + Separators(|s.reasons|)
    + Digits(s.counts.visited) + Digits(s.counts.searched) + Digits(s.counts.excluded) + Digits(s.counts.failed) + Digits(s.counts.bytesRead)
    + elapsed + |s.policySnapshotHash|
  }

  function SuccessBytes(e: Engine, s: Success, elapsed: nat): nat {
    EnvelopeBytes(s, elapsed) + HitsBytes(e, s.matches) + Separators(|s.matches|)
  }

  /** A failure frame; `escaped` is the id's width after JSON escaping. */
  function FailureBytes(escaped: nat, code: Code): nat { FAILURE_FIXED + escaped + NameLength(code) }

  /** Width of the longest elapsed time `serde_json` prints. */
  const ELAPSED_WIDTH: nat := 24

  lemma {:induction false} DigitsBound(n: nat, k: nat, power: nat)
    requires 1 <= k && n < power && power == Power10(k)
    ensures Digits(n) <= k
    decreases k
  {
    if 10 <= n {
      DigitsBound(n / 10, k - 1, Power10(k - 1));
    }
  }

  function Power10(k: nat): (p: nat)
    ensures p >= 1
  {
    if k == 0 then 1 else 10 * Power10(k - 1)
  }

  lemma SmallNumberDigits(n: nat)
    requires n < 1_000_000_000_000_000
    ensures Digits(n) <= 15
  {
    assert Power10(15) == 1_000_000_000_000_000 by {
      assert Power10(5) == 100_000;
      assert Power10(10) == 100_000 * Power10(5);
      assert Power10(15) == 100_000 * Power10(10);
    }
    DigitsBound(n, 15, Power10(15));
  }

  const ALL_CODES: set<Code> := {InvalidRequest, RegexInvalid, MatchEncoding, ReadFailed, SourceMutated, Deadline, LimitReached,
                                 ByteLimit, EntryLimit, DepthLimit, PolicyChanged, OutOfScope, RevisionMismatch}

  lemma {:induction false} DistinctCardinality<T>(xs: seq<T>)
    requires Distinct(xs)
    ensures |set x | x in xs| == |xs|
  {
    if |xs| > 0 {
      var rest := xs[1..];
      DistinctCardinality(rest);
      assert (set x | x in xs) == {xs[0]} + set x | x in rest;
    }
  }

  lemma SubsetCardinality<T>(a: set<T>, b: set<T>)
    requires a <= b
    ensures |a| <= |b|
  {
    assert |b| == |a| + |b - a| by {
      assert b == a + (b - a);
    }
  }

  lemma EveryCode(c: Code)
    ensures c in ALL_CODES
  {
    match c
    case InvalidRequest =>
    case RegexInvalid =>
    case MatchEncoding =>
    case ReadFailed =>
    case SourceMutated =>
    case Deadline =>
    case LimitReached =>
    case ByteLimit =>
    case EntryLimit =>
    case DepthLimit =>
    case PolicyChanged =>
    case OutOfScope =>
    case RevisionMismatch =>
  }

  lemma FewCodes(cs: seq<Code>)
    requires Distinct(cs)
    ensures |cs| <= 13
  {
    DistinctCardinality(cs);
    forall c | c in cs
      ensures c in ALL_CODES
    {
      EveryCode(c);
    }
    SubsetCardinality((set c | c in cs), ALL_CODES);
  }

  lemma {:induction false} CodesBytesBound(cs: seq<Code>)
    ensures CodesBytes(cs) <= 19 * |cs|
  {
    if |cs| > 0 {
      CodesBytesBound(cs[1..]);
    }
  }

  lemma {:induction false} HitsWithinWeight(e: Engine, hits: seq<Hit>)
    ensures HitsBytes(e, hits) + |hits| == Weight(e, hits)
  {
    if |hits| > 0 {
      HitsWithinWeight(e, hits[..|hits| - 1]);
    }
  }

  /** Reasons an exact search may report; every one has a public counterpart. */
  predicate ExactReason(c: Code) {
    || c == ReadFailed || c == SourceMutated || c == Deadline || c == LimitReached
    || c == ByteLimit || c == EntryLimit || c == DepthLimit || c == PolicyChanged
  }

  ghost predicate Truthful(r: Request, s: Success) {
    && s.id == r.id
    && Distinct(s.reasons)
    && (s.complete <==> s.reasons == [])
    && (s.complete ==> s.counts.failed == 0)
    && s.counts.visited <= r.maxEntries
    && s.counts.searched <= s.counts.visited
    && s.counts.searched + s.counts.excluded + s.counts.failed <= s.counts.visited + 1
    && s.counts.bytesRead <= s.counts.searched * r.maxFileBytes
    && DigestText(s.policySnapshotHash)
    && (forall c :: c in s.reasons ==> ExactReason(c))
    && (forall h :: h in s.matches ==> HitAccepted(r, h))
  }

  /** The reserve of 2048 bytes covers every envelope the worker can build. */
  lemma EnvelopeFits(r: Request, s: Success, elapsed: nat)
    requires Validate(r).None? && Truthful(r, s) && elapsed <= ELAPSED_WIDTH
    ensures EnvelopeBytes(s, elapsed) <= 2048
  {
    hide HitAccepted, Vouched;
    FewCodes(s.reasons);
    CodesBytesBound(s.reasons);
    CountProduct(s.counts.searched, r.maxFileBytes);
    SmallNumberDigits(s.counts.visited);
    SmallNumberDigits(s.counts.searched);
    SmallNumberDigits(s.counts.excluded);
    SmallNumberDigits(s.counts.failed);
    SmallNumberDigits(s.counts.bytesRead);
  }

  lemma MulMonotone(a: nat, b: nat, c: nat)
    requires a <= b
    ensures a * c <= b * c
  {
    assert b * c == a * c + (b - a) * c;
  }

  lemma CountProduct(a: nat, b: nat)
    requires a <= 100_000 && b <= 16_777_216
    ensures a * b <= 1_677_721_600_000
  {
    MulMonotone(a, 100_000, b);
  }

  /** Failure frames fit the smallest budget a request may carry, whatever the id's escaping. */
  lemma FailureFits(escaped: nat, code: Code)
    requires escaped <= 6 * 128
    ensures FailureBytes(escaped, code) <= 2048
  {
  }

  /** A fault survives as a reason only when the answer does not have to be that fault. */
  lemma AbsorbTruth(j: Job, s: State, fault: Code)
    requires Inv(j, s) && WalkFault(j.r, fault) && !FaultIsAnswer(j.r, s, fault)
    ensures var t := Absorb(s, fault);
            && Distinct(t.reasons) && t.reasons != [] && !t.complete
            && (forall c :: c in t.reasons ==> ExactReason(c))
            && t.now == s.now && t.matches == s.matches && t.used == s.used && t.counts == s.counts.(failed := t.counts.failed) && t.counts.failed <= s.counts.failed + 1
  {
    hide HitAccepted, Vouched, Weight;
  }

  lemma {:induction false} VerifyFaults(w: World, os: seq<Observation>, now: nat)
    ensures var f := VerifyAt(w, os, now).fault; f.Some? ==> ExactReason(f.value)
    decreases |os|
  {
    if |os| > 0 {
      PolicyFaults(w, now, os[0].path);
      var c := PolicyAt(w, now, os[0].path);
      VerifyFaults(w, os[1..], c.now);
    }
  }

  /** What `Conclude` needs to know about the state it reports. */
  ghost predicate Reportable(j: Job, s: State) {
    && Distinct(s.reasons)
    && (s.complete <==> s.reasons == [])
    && (s.complete ==> s.counts.failed == 0)
    && (forall c :: c in s.reasons ==> ExactReason(c))
    && s.counts.visited <= j.r.maxEntries
    && s.counts.searched <= s.counts.visited
    && s.counts.searched + s.counts.excluded + s.counts.failed <= s.counts.visited + 1
    && s.counts.bytesRead <= s.counts.searched * j.r.maxFileBytes
    && Substantiated(j, s)
  }

  lemma ConcludeTruth(j: Job, s: State)
    requires JobOk(j) && Reportable(j, s) && Conclude(j, s).Ok?
    ensures Truthful(j.r, Conclude(j, s).value) && Conclude(j, s).value.matches == s.matches
    ensures Conclude(j, s).value.complete ==> VerifyAt(j.w, s.scope.observations, s.now).fault.None?
  {
    hide HitAccepted, Genuine, Weight, VerifyAt, Preimage, Validate;
    VerifyFaults(j.w, s.scope.observations, s.now);
  }

  /** The state that a successful search reports. */
  ghost function Reported(j: Job, fd: Ino): State
    requires JobOk(j)
  {
    var walked := if j.r.validateScopeOnly then Step(Initial(j.r), None) else WalkAt(j, Initial(j.r), fd, [], 0);
    if walked.fault.None? then walked.state else Absorb(walked.state, walked.fault.value)
  }

  lemma SearchReports(j: Job, fd: Ino)
    requires Sound(j.e) && SearchAt(j, fd).Ok?
    ensures JobOk(j) && Reportable(j, Reported(j, fd)) && SearchAt(j, fd) == Conclude(j, Reported(j, fd))
  {
    hide HitAccepted, Vouched, Weight, WalkAt, Conclude, ScopeAcceptable, Absorb, FaultIsAnswer, BoundsAcceptable;
    InitialInv(j);
    if !j.r.validateScopeOnly {
      WalkKeeps(j, Initial(j.r), fd, [], 0);
      var walked := WalkAt(j, Initial(j.r), fd, [], 0);
      if walked.fault.Some? {
        AbsorbTruth(j, walked.state, walked.fault.value);
      }
    }
  }

  /** Whatever the file system does, a success tells the truth about its coverage, counts and evidence. */
  lemma SuccessIsTruthful(j: Job, fd: Ino)
    requires Sound(j.e) && SearchAt(j, fd).Ok?
    ensures Truthful(j.r, SearchAt(j, fd).value)
  {
    SearchReports(j, fd);
    ConcludeTruth(j, Reported(j, fd));
  }
}
