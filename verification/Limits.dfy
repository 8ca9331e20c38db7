/** The numbers and spellings that both sides rely on, written out: what each side accepts, and how long messages are. */
module Limits {
  import opened Basics
  import opened Paths
  import opened Protocol
  import opened Engines
  import opened Scoping
  import opened Eligible
  import opened Responses
  import opened Requests
  import Client
  import Ordered
  import Policies
  import Utf8
  import Wire

  // ---- Requests -------------------------------------------------------------------------------------------------

  predicate OccursAt(pattern: bytes, text: bytes, i: nat) { i + |text| <= |pattern| && pattern[i..i + |text|] == text }

  /** The text occurs in the pattern. */
  ghost predicate Occurs(pattern: bytes, text: bytes) { exists i: nat :: OccursAt(pattern, text, i) }

  lemma {:induction false} ContainsExactly(pattern: bytes, text: bytes)
    ensures Contains(pattern, text) <==> Occurs(pattern, text)
    decreases |pattern|
  {
    hide OccursAt;
    OccursFirst(pattern, text);
    if |pattern| > 0 {
      ContainsExactly(pattern[1..], text);
      forall i: nat
        ensures OccursAt(pattern, text, i + 1) <==> OccursAt(pattern[1..], text, i)
      {
        OccursLater(pattern, text, i);
      }
      if i: nat :| OccursAt(pattern[1..], text, i) {
        assert OccursAt(pattern, text, i + 1);
      }
      if i: nat :| OccursAt(pattern, text, i) {
        assert i > 0 ==> OccursAt(pattern[1..], text, i - 1);
      }
    }
  }

  lemma OccursFirst(pattern: bytes, text: bytes)
    ensures OccursAt(pattern, text, 0) <==> text <= pattern
    ensures pattern == [] ==> forall i: nat :: OccursAt(pattern, text, i) ==> i == 0
  {
  }

  lemma OccursLater(pattern: bytes, text: bytes, i: nat)
    requires |pattern| > 0
    ensures OccursAt(pattern, text, i + 1) <==> OccursAt(pattern[1..], text, i)
  {
    if i + 1 + |text| <= |pattern| {
      assert pattern[1..][i..i + |text|] == pattern[i + 1..i + 1 + |text|];
    }
  }

  /** Within the bounds of the worker, whose ids have letters, digits, dots, underscores and hyphens. */
  ghost predicate InBounds(r: Request) {
    && r.v == 1 && 1 <= |r.id| <= 128
    && (forall b :: b in r.id ==>
          'a' as int <= b <= 'z' as int || 'A' as int <= b <= 'Z' as int || '0' as int <= b <= '9' as int
          || b == '.' as int || b == '_' as int || b == '-' as int)
    && 1 <= |r.pattern| <= 8192 && (forall b :: b in r.pattern ==> b != 0 && b != 13 && b != 10)
    && 1 <= r.maxMatches <= 1000 && 1 <= r.maxFileBytes <= 16_777_216 && 2048 <= r.responseBytes <= 1_048_576
    && 1 <= r.deadlineMs <= 30_000 && 1 <= r.maxEntries <= 100_000 && 1 <= r.maxDepth <= 64
  }

  /** A regular expression with a whole-text anchor or a flag turned off. */
  ghost predicate Undeclared(pattern: bytes) {
    Occurs(pattern, Octets("\\A")) || Occurs(pattern, Octets("\\z")) || Occurs(pattern, Octets("\\Z")) || Occurs(pattern, Octets("(?-"))
  }

  /** What the worker's check says, in its order. */
  lemma ValidateExactly(r: Request)
    ensures Validate(r)
         == if !InBounds(r) then Some(InvalidRequest)
            else if r.read.Some? && (!WellNamed(r.read.value.path) || r.read.value.range.start > r.read.value.range.end
                                     || r.read.value.range.end > r.maxFileBytes) then Some(InvalidRequest)
            else if r.read.Some? && r.read.value.range.end - r.read.value.range.start > 4096 then Some(ByteLimit)
            else if r.kind == Regex && Undeclared(r.pattern) then Some(RegexInvalid)
            else None
  {
    if r.read.Some? {
      WellNamedExactly(r.read.value.path);
    }
    DeclinedExactly(r.pattern);
    hide ValidPath, WellNamed, DeclinedRegex, Undeclared;
  }

  lemma DeclinedExactly(pattern: bytes)
    ensures DeclinedRegex(pattern) <==> Undeclared(pattern)
  {
    hide Contains, Occurs;
    assert Octets("\\A") == [0x5C, 0x41] && Octets("\\z") == [0x5C, 0x7A] && Octets("\\Z") == [0x5C, 0x5A] && Octets("(?-") == [0x28, 0x3F, 0x2D];
    ContainsExactly(pattern, Octets("\\A"));
    ContainsExactly(pattern, Octets("\\z"));
    ContainsExactly(pattern, Octets("\\Z"));
    ContainsExactly(pattern, Octets("(?-"));
  }

  /** A glob the worker takes: of 1 to 1024 octets, relative and not negated, well named, and one the library builds. */
  ghost predicate Relative(p: bytes) { 1 <= |p| <= 1024 && p[0] != '/' as int && p[0] != '!' as int && WellNamed(p) }

  lemma GlobExactly(e: Engine, p: bytes)
    ensures GlobAcceptable(e, p) <==> Relative(p) && e.globOk(p)
  {
    if 1 <= |p| <= 1024 {
      WellNamedExactly(p);
    }
    hide WellNamed;
  }

  /** The worker takes a scope of at most two groups of 64 globs and 128 excludes. */
  lemma ScopeExactly(e: Engine, s: ScopeInput)
    ensures ScopeAcceptable(e, s)
       <==> && |s.includeGroups| <= 2 && |s.exclude| <= 128
            && (forall g :: g in s.includeGroups ==> |g| <= 64 && forall p :: p in g ==> Relative(p) && e.globOk(p))
            && (forall p :: p in s.exclude ==> Relative(p) && e.globOk(p))
  {
    hide GlobAcceptable, Relative;
    forall p
      ensures GlobAcceptable(e, p) <==> Relative(p) && e.globOk(p)
    {
      GlobExactly(e, p);
    }
  }

  /** A pattern that registration and requests take: valid text that is such a glob, but for whether the library builds it. */
  lemma PatternExactly(p: bytes)
    ensures Policies.PatternAcceptable(p) <==> Utf8.Valid(p) && Relative(p)
  {
    hide Utf8.Valid;
    if 1 <= |p| <= 1024 {
      WellNamedExactly(p);
    }
    hide WellNamed;
  }

  /** A policy is created exactly from lists of at most 64 such patterns and a size limit of at most 16 MiB. */
  lemma PolicyExactly(input: Policies.PolicyInput)
    ensures Policies.CreatePolicy(input).Some?
       <==> && |input.includes| <= 64 && |input.excludes| <= 64 && 1 <= input.maxFileBytes <= 16_777_216
            && forall p :: p in input.includes || p in input.excludes ==> Utf8.Valid(p) && Relative(p)
  {
    hide Policies.PatternAcceptable, Relative, Utf8.Valid, Policies.Canonical;
    forall p
      ensures Policies.PatternAcceptable(p) <==> Utf8.Valid(p) && Relative(p)
    {
      PatternExactly(p);
    }
  }

  // ---- Numbers of requests ------------------------------------------------------------------------------------------

  lemma {:induction false} DecimalsDiffer(m: nat, n: nat)
    requires m != n
    ensures Client.Decimal(m) != Client.Decimal(n)
    decreases m
  {
    var a, b := Client.Decimal(m), Client.Decimal(n);
    if m >= 10 && n >= 10 {
      assert a[..|a| - 1] == Client.Decimal(m / 10) && b[..|b| - 1] == Client.Decimal(n / 10);
      if m / 10 != n / 10 {
        DecimalsDiffer(m / 10, n / 10);
      } else {
        assert m % 10 != n % 10;
        assert a[|a| - 1] != b[|b| - 1];
      }
    } else if m >= 10 {
      assert |Client.Decimal(m / 10)| >= 1 && |a| >= 2 && |b| == 1;
    } else if n >= 10 {
      assert |Client.Decimal(n / 10)| >= 1 && |b| >= 2 && |a| == 1;
    }
  }

  /** Requests of one client never share an id, so no answer to one passes for an answer to another. */
  lemma IdsDiffer(m: nat, n: nat)
    requires m != n
    ensures Client.RequestId(m) != Client.RequestId(n) && Client.RequestId(m)[..2] == Octets("q-")
  {
    DecimalsDiffer(m, n);
    assert Client.RequestId(m)[2..] == Client.Decimal(m) && Client.RequestId(n)[2..] == Client.Decimal(n);
    assert Octets("q-") == [0x71, 0x2D];
  }

  // ---- Lengths of messages ------------------------------------------------------------------------------------------

  /** A code as the worker spells it. */
  function Spelling(c: Code): string {
    match c
    case InvalidRequest => "INVALID_REQUEST"
    case RegexInvalid => "REGEX_INVALID"
    case MatchEncoding => "MATCH_ENCODING"
    case ReadFailed => "READ_FAILED"
    case SourceMutated => "SOURCE_MUTATED"
    case Deadline => "DEADLINE"
    case LimitReached => "LIMIT_REACHED"
    case ByteLimit => "BYTE_LIMIT"
    case EntryLimit => "ENTRY_LIMIT"
    case DepthLimit => "DEPTH_LIMIT"
    case PolicyChanged => "POLICY_CHANGED"
    case OutOfScope => "OUT_OF_SCOPE"
    case RevisionMismatch => "REVISION_MISMATCH"
  }

  lemma CodesAreSpelled(c: Code)
    ensures NameLength(c) == |Spelling(c)|
  {
  }

  /** What a failure, a hit, a success and a request are made of besides their values. */
  lemma FailureTemplate()
    ensures FAILURE_FIXED == |"{\"v\":1,\"id\":\"\",\"status\":\"error\",\"code\":\"\"}"|
  {
  }

  lemma HitTemplate()
    ensures HIT_FIXED == |"{\"path\":\"\",\"fileSha256\":\"\",\"range\":{\"start\":,\"end\":},"|
                       + |"\"excerpt\":{\"range\":{\"start\":,\"end\":},\"text\":\"\",\"truncated\":}}"|
  {
  }

  lemma SuccessTemplate()
    ensures SUCCESS_FIXED == |"{\"v\":1,\"id\":\"\",\"status\":\"ok\",\"coverage\":\"\",\"reasons\":[],\"matches\":[],"|
                           + |"\"counts\":{\"visited\":,\"searched\":,\"excluded\":,\"failed\":,\"bytesRead\":},"|
                           + |"\"elapsedMs\":,\"policySnapshotHash\":\"\",\"matcherVersion\":\"grep-regex-0.1.14\"}"|
  {
  }

  lemma RequestTemplate()
    ensures REQUEST_FIXED == |"{\"v\":1,\"id\":\"\",\"pattern\":\"\",\"kind\":\"\",\"caseSensitive\":,\"maxMatches\":,\"maxFileBytes\":,"|
                           + |"\"responseBytes\":,\"deadlineMs\":,\"maxEntries\":,\"maxDepth\":,"|
                           + |"\"scope\":{\"includeGroups\":,\"exclude\":,\"hidden\":,\"respectIgnore\":}}"|
  {
  }

  // ---- Order and the snapshot ---------------------------------------------------------------------------------------

  /** Lexicographic order: a proper prefix comes first, and else the first octet that differs decides. */
  ghost predicate Before(a: bytes, b: bytes) { a < b || exists i: nat :: SmallerAt(a, b, i) }

  predicate SmallerAt(a: bytes, b: bytes, i: nat) { i < |a| && i < |b| && a[..i] == b[..i] && a[i] < b[i] }

  lemma {:induction false} LessExactly(a: bytes, b: bytes)
    ensures Ordered.Less(a, b) <==> Before(a, b)
    decreases |a|
  {
    hide SmallerAt;
    SmallerFirst(a, b);
    if |a| > 0 && |b| > 0 && a[0] == b[0] {
      LessExactly(a[1..], b[1..]);
      assert a < b <==> a[1..] < b[1..] by {
        assert a == [a[0]] + a[1..] && b == [b[0]] + b[1..];
      }
      forall i: nat
        ensures SmallerAt(a, b, i + 1) <==> SmallerAt(a[1..], b[1..], i)
      {
        SmallerLater(a, b, i);
      }
      if i: nat :| SmallerAt(a[1..], b[1..], i) {
        assert SmallerAt(a, b, i + 1);
      }
      if i: nat :| SmallerAt(a, b, i) {
        assert i > 0 ==> SmallerAt(a[1..], b[1..], i - 1);
      }
    }
  }

  lemma SmallerFirst(a: bytes, b: bytes)
    ensures SmallerAt(a, b, 0) <==> |a| > 0 && |b| > 0 && a[0] < b[0]
    ensures forall i: nat :: SmallerAt(a, b, i) && i > 0 ==> |a| > 0 && |b| > 0 && a[0] == b[0]
  {
    forall i: nat | SmallerAt(a, b, i) && i > 0
      ensures a[0] == b[0]
    {
      assert a[..i][0] == b[..i][0];
    }
  }

  lemma SmallerLater(a: bytes, b: bytes, i: nat)
    requires |a| > 0 && |b| > 0 && a[0] == b[0]
    ensures SmallerAt(a, b, i + 1) <==> SmallerAt(a[1..], b[1..], i)
  {
    if i + 1 < |a| && i + 1 < |b| {
      assert a[..i + 1] == [a[0]] + a[1..][..i] && b[..i + 1] == [b[0]] + b[1..][..i];
      assert a[1..][..i] == a[..i + 1][1..] && b[1..][..i] == b[..i + 1][1..];
    }
  }

  /** Canonical lists are sorted by that order, without repetitions. */
  lemma {:induction false} CanonicalSorted(ps: seq<bytes>, i: nat, k: nat)
    requires i < k < |Policies.Canonical(ps)|
    ensures Before(Policies.Canonical(ps)[i], Policies.Canonical(ps)[k])
  {
    hide Policies.Canonical, Before, Ordered.Less;
    Policies.CanonicalIncreasing(ps);
    IncreasingSorted(Policies.Canonical(ps), i, k);
    LessExactly(Policies.Canonical(ps)[i], Policies.Canonical(ps)[k]);
  }

  lemma {:induction false} IncreasingSorted(xs: seq<bytes>, i: nat, k: nat)
    requires Ordered.Increasing(xs) && i < k < |xs|
    ensures Ordered.Less(xs[i], xs[k])
    decreases |xs|
  {
    hide Ordered.Less;
    if i == 0 {
      assert xs[k] == xs[1..][k - 1];
    } else {
      IncreasingSorted(xs[1..], i - 1, k - 1);
    }
  }

  /** The snapshot's hash input: a versioned domain, and each record with its lengths in eight octets. */
  lemma PreimageExactly(os: seq<Observation>, o: Observation)
    ensures Preimage([]) == Octets("jev-ignore-snapshot-v1") + [0]
    ensures Preimage(os + [o])
         == Preimage(os) + Wire.BigEndian(|o.path|, 8) + o.path
            + match o.captured case None => [0] case Some(text) => [1] + Wire.BigEndian(|text|, 8) + text
  {
    assert SNAPSHOT_DOMAIN == Octets("jev-ignore-snapshot-v1") + [0];
    hide Wire.BigEndian;
    EncodedAppend(os, o);
    var more := match o.captured case None => [0] case Some(text) => [1] + Wire.BigEndian(|text|, 8) + text;
    assert EncodeObservation(o) == Wire.BigEndian(|o.path|, 8) + o.path + more;
    assert SNAPSHOT_DOMAIN + [] == SNAPSHOT_DOMAIN;
    assert Preimage(os) + (Wire.BigEndian(|o.path|, 8) + o.path + more) == Preimage(os) + Wire.BigEndian(|o.path|, 8) + o.path + more;
  }

  lemma {:induction false} EncodedAppend(os: seq<Observation>, o: Observation)
    ensures EncodeObservations(os + [o]) == EncodeObservations(os) + EncodeObservation(o)
  {
    hide EncodeObservation;
    if |os| == 0 {
      assert os + [o] == [o];
    } else {
      EncodedAppend(os[1..], o);
      assert (os + [o])[1..] == os[1..] + [o];
    }
  }
}
