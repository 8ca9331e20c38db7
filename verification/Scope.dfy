/** Library behaviour the worker relies on but does not define. */
module Engines {
  import opened Basics
  import opened Paths
  import opened Protocol

  datatype Match = Match(start: nat, end: nat)

  /** Matches in the order the matcher reports them; `ok` is false when it fails after the last one. */
  datatype Scan = Scan(found: seq<Match>, ok: bool)

  datatype Ruling = Unmatched | Ignored | Whitelisted

  datatype Engine = Engine(
    patternOk: Request -> bool,
    find: (Request, bytes) -> Scan,
    globOk: bytes -> bool,
    glob: (bytes, Path) -> bool,
    lines: bytes -> seq<bytes>,
    lineOk: bytes -> bool,
    buildOk: (Path, seq<bytes>) -> bool,
    ruling: (Path, seq<bytes>, Path, bool) -> Ruling,
    sha256: bytes -> bytes,
    hitSize: Hit -> nat)

  const DIGITS: bytes := [0x30, 0x31, 0x32, 0x33, 0x34, 0x35, 0x36, 0x37, 0x38, 0x39, 0x61, 0x62, 0x63, 0x64, 0x65, 0x66]

  function Hex(b: bytes): (h: bytes)
    ensures |h| == 2 * |b|
    ensures forall d :: d in h ==> HexDigit(d)
  {
    if |b| == 0 then [] else [DIGITS[b[0] / 16], DIGITS[b[0] % 16]] + Hex(b[1..])
  }

  /** The lower-case hexadecimal digest of `b`. */
  function Digest(e: Engine, b: bytes): bytes { Hex(e.sha256(b)) }

  /** What the matcher, the hash and the serializer promise. */
  ghost predicate Sound(e: Engine) {
    && (forall r, b, m :: m in e.find(r, b).found ==> m.start <= m.end <= |b|)
    && (forall b :: |e.sha256(b)| == 32)
  }
}

/** Which files a search may read: fixed exclusions, explicit globs, and captured ignore files. */
module Scoping {
  import opened Basics
  import opened Paths
  import opened World
  import opened Protocol
  import opened Engines
  import Capture
  import Ordered
  import Wire

  const POLICY_FILE_BYTES: nat := 65_536
  const POLICY_BYTES: nat := 1_048_576
  const POLICY_LINES: nat := 4096
  const OBSERVATIONS: nat := 4096

  predicate GlobAcceptable(e: Engine, p: bytes) {
    && 1 <= |p| <= 1024
    && p[0] != SLASH && p[0] != 0x21
    && CleanBytes(p)
    && (forall s :: s in Split(p) ==> s != [] && !IsDots(s))
    && e.globOk(p)
  }

  predicate GlobsAcceptable(e: Engine, ps: seq<bytes>) {
    |ps| <= 128 && forall p :: p in ps ==> GlobAcceptable(e, p)
  }

  /** `Scope::new` succeeds. */
  predicate ScopeAcceptable(e: Engine, input: ScopeInput) {
    && |input.includeGroups| <= 2
    && (forall g :: g in input.includeGroups ==> |g| <= 64 && GlobsAcceptable(e, g))
    && GlobsAcceptable(e, input.exclude)
  }

  predicate MatchesAny(e: Engine, ps: seq<bytes>, path: Path) {
    exists p :: p in ps && e.glob(p, path)
  }

  /** Lines of a directory's two ignore files. */
  datatype Rules = Rules(gitignore: seq<bytes>, ignore: seq<bytes>)

  datatype Observation = Observation(path: Path, captured: Option<bytes>)

  datatype View = View(
    input: ScopeInput,
    rules: map<Path, Rules>,
    observations: seq<Observation>,
    policyBytes: nat,
    policyLines: nat)

  function Fresh(input: ScopeInput): View { View(input, map[], [], 0, 0) }

  /** Insertion into the path-ordered observation record; a later observation of a path replaces the earlier. */
  function Observe(os: seq<Observation>, o: Observation): (r: seq<Observation>)
    ensures |r| <= |os| + 1
  {
    if |os| == 0 then [o]
    else if os[0].path == o.path then [o] + os[1..]
    else if Ordered.Less(o.path, os[0].path) then [o] + os
    else [os[0]] + Observe(os[1..], o)
  }

  /** Reading one ignore file: confined, bounded, and failing closed on anything but text or absence. */
  function PolicyAt(w: World, now: nat, path: Path): (c: Capture.Captured)
    ensures now < c.now
  {
    if w.expired(now) then Capture.Captured(Err(Deadline), now + 1)
    else if w.fails(now + 1) then Capture.Captured(Err(ReadFailed), now + 2)
    else if w.resolve(now + 1, path).None? then Capture.Captured(Ok(None), now + 2)
    else
      var c := Capture.CaptureAt(w, now + 2, w.resolve(now + 1, path).value, POLICY_FILE_BYTES);
      if c.outcome.Err? then Capture.Captured(Err(if c.outcome.error == SourceMutated then PolicyChanged else c.outcome.error), c.now)
      else if c.outcome.value.None? then Capture.Captured(Err(ReadFailed), c.now)
      else c
  }

  datatype Added = Added(count: nat, now: nat, fault: Option<Code>)

  function AddLines(w: World, e: Engine, count: nat, now: nat, lines: seq<bytes>): (a: Added)
    ensures now <= a.now && count <= a.count
    decreases |lines|
  {
    if |lines| == 0 then Added(count, now, None)
    else if w.expired(now) then Added(count, now + 1, Some(Deadline))
    else if count + 1 > POLICY_LINES then Added(count + 1, now + 1, Some(EntryLimit))
    else if !e.lineOk(lines[0]) then Added(count + 1, now + 1, Some(ReadFailed))
    else AddLines(w, e, count + 1, now + 1, lines[1..])
  }

  datatype Loaded = Loaded(view: View, now: nat, outcome: Result<seq<bytes>, Code>)

  function LoadAt(w: World, e: Engine, s: View, now: nat, prefix: Path, name: Name): (l: Loaded)
    ensures now < l.now
  {
    var path := Child(prefix, name);
    var c := PolicyAt(w, now, path);
    if c.outcome.Err? then Loaded(s, c.now, Err(c.outcome.error))
    else
      var size := if c.outcome.value.Some? then |c.outcome.value.value| else 0;
      var lines := if c.outcome.value.Some? then e.lines(c.outcome.value.value) else [];
      var weighed := s.(policyBytes := s.policyBytes + size);
      if c.outcome.value.Some? && weighed.policyBytes > POLICY_BYTES then Loaded(weighed, c.now, Err(EntryLimit))
      else
        var a := AddLines(w, e, s.policyLines, c.now, lines);
        var counted := weighed.(policyLines := a.count);
        if a.fault.Some? then Loaded(counted, a.now, Err(a.fault.value))
        else
          var observed := counted.(observations := Observe(s.observations, Observation(path, c.outcome.value)));
          if !e.buildOk(prefix, lines) then Loaded(observed, a.now, Err(ReadFailed))
          else Loaded(observed, a.now, Ok(lines))
  }

  datatype Entered = Entered(view: View, now: nat, fault: Option<Code>)

  /** Entering a directory: both ignore files are loaded, or the directory is refused. */
  function EnterAt(w: World, e: Engine, s: View, now: nat, prefix: Path): (r: Entered)
    ensures now <= r.now
  {
    if !s.input.respectIgnore then Entered(s, now, None)
    else if |s.observations| >= OBSERVATIONS then Entered(s, now, Some(EntryLimit))
    else
      var one := LoadAt(w, e, s, now, prefix, GITIGNORE);
      if one.outcome.Err? then Entered(one.view, one.now, Some(one.outcome.error))
      else
        var two := LoadAt(w, e, one.view, one.now, prefix, IGNORE);
        if two.outcome.Err? then Entered(two.view, two.now, Some(two.outcome.error))
        else Entered(two.view.(rules := two.view.rules[prefix := Rules(one.outcome.value, two.outcome.value)]), two.now, None)
  }

  datatype Layer = GitIgnore | DotIgnore

  function LayerOf(r: Rules, layer: Layer): seq<bytes> { if layer == DotIgnore then r.ignore else r.gitignore }

  /** The nearest ancestor whose rules of one kind decide, by the rules loaded so far. */
  function FindRuling(e: Engine, rules: map<Path, Rules>, layer: Layer, path: Path, directory: bool, from: Path): Ruling
    decreases |from|
  {
    var here := if from in rules then e.ruling(from, LayerOf(rules[from], layer), path, directory) else Unmatched;
    if here != Unmatched then here
    else if from == [] then Unmatched
    else FindRuling(e, rules, layer, path, directory, Parent(from))
  }

  predicate ExplicitlyAllowed(e: Engine, input: ScopeInput, path: Path, directory: bool) {
    && !MatchesAny(e, input.exclude, path)
    && (directory || forall g :: g in input.includeGroups ==> g == [] || MatchesAny(e, g, path))
  }

  /** `.ignore` rulings at any depth come before `.gitignore` rulings at any depth. */
  predicate RulingsAllow(ignore: Ruling, gitignore: Ruling) {
    if ignore != Unmatched then ignore == Whitelisted else gitignore != Ignored
  }

  predicate AllowsIn(e: Engine, s: View, path: Path, directory: bool) {
    && ExplicitlyAllowed(e, s.input, path, directory)
    && (s.input.respectIgnore ==>
          RulingsAllow(
            FindRuling(e, s.rules, DotIgnore, path, directory, Parent(path)),
            FindRuling(e, s.rules, GitIgnore, path, directory, Parent(path))))
  }

  datatype Verified = Verified(now: nat, fault: Option<Code>)

  /** Re-reading every observation in order. */
  function VerifyAt(w: World, os: seq<Observation>, now: nat): Verified {
    if |os| == 0 then Verified(now, None)
    else
      var c := PolicyAt(w, now, os[0].path);
      if c.outcome.Err? then Verified(c.now, Some(c.outcome.error))
      else if c.outcome.value != os[0].captured then Verified(c.now, Some(PolicyChanged))
      else VerifyAt(w, os[1..], c.now)
  }

  const SNAPSHOT_DOMAIN: bytes := [0x6A, 0x65, 0x76, 0x2D, 0x69, 0x67, 0x6E, 0x6F, 0x72, 0x65, 0x2D, 0x73, 0x6E, 0x61, 0x70, 0x73, 0x68, 0x6F, 0x74, 0x2D, 0x76, 0x31, 0x00]

  function EncodeObservation(o: Observation): bytes {
    Wire.BigEndian(|o.path|, 8) + o.path
    + if o.captured.None? then [0] else [1] + Wire.BigEndian(|o.captured.value|, 8) + o.captured.value
  }

  function EncodeObservations(os: seq<Observation>): bytes {
    if |os| == 0 then [] else EncodeObservation(os[0]) + EncodeObservations(os[1..])
  }

  /** What the snapshot hash is computed over. */
  function Preimage(os: seq<Observation>): bytes { SNAPSHOT_DOMAIN + EncodeObservations(os) }

  /** The worker's scope state, updated in place as the walk enters directories. */
  class Scope {
    const input: ScopeInput
    var rules: map<Path, Rules>
    var observations: seq<Observation>
    var policyBytes: nat
    var policyLines: nat

    function Current(): View
      reads this
    {
      View(input, rules, observations, policyBytes, policyLines)
    }

    constructor (input: ScopeInput)
      ensures Current() == Fresh(input)
    {
      this.input := input;
      rules := map[];
      observations := [];
      policyBytes := 0;
      policyLines := 0;
    }

    method AddAll(w: World, e: Engine, start: nat, lines: seq<bytes>) returns (now: nat, fault: Option<Code>)
      modifies this`policyLines
      ensures Added(policyLines, now, fault) == AddLines(w, e, old(policyLines), start, lines)
    {
      now := start;
      var i := 0;
      while i < |lines|
        invariant 0 <= i <= |lines|
        invariant AddLines(w, e, policyLines, now, lines[i..]) == AddLines(w, e, old(policyLines), start, lines)
      {
        if w.expired(now) {
          return now + 1, Some(Deadline);
        }
        policyLines := policyLines + 1;
        now := now + 1;
        if policyLines > POLICY_LINES {
          return now, Some(EntryLimit);
        }
        if !e.lineOk(lines[i]) {
          return now, Some(ReadFailed);
        }
        assert lines[i..][1..] == lines[i + 1..];
        i := i + 1;
      }
      return now, None;
    }

    method Load(w: World, e: Engine, start: nat, prefix: Path, name: Name) returns (now: nat, outcome: Result<seq<bytes>, Code>)
      modifies this
      ensures Loaded(Current(), now, outcome) == LoadAt(w, e, old(Current()), start, prefix, name)
    {
      var path := Child(prefix, name);
      var c := PolicyAt(w, start, path);
      now := c.now;
      if c.outcome.Err? {
        return now, Err(c.outcome.error);
      }
      var lines: seq<bytes> := [];
      if c.outcome.value.Some? {
        policyBytes := policyBytes + |c.outcome.value.value|;
        if policyBytes > POLICY_BYTES {
          return now, Err(EntryLimit);
        }
        lines := e.lines(c.outcome.value.value);
        var fault;
        now, fault := AddAll(w, e, now, lines);
        if fault.Some? {
          return now, Err(fault.value);
        }
      }
      observations := Observe(observations, Observation(path, c.outcome.value));
      if !e.buildOk(prefix, lines) {
        return now, Err(ReadFailed);
      }
      return now, Ok(lines);
    }

    method Enter(w: World, e: Engine, start: nat, prefix: Path) returns (now: nat, fault: Option<Code>)
      modifies this
      ensures Entered(Current(), now, fault) == EnterAt(w, e, old(Current()), start, prefix)
    {
      if !input.respectIgnore {
        return start, None;
      }
      if |observations| >= OBSERVATIONS {
        return start, Some(EntryLimit);
      }
      var mid, one := Load(w, e, start, prefix, GITIGNORE);
      if one.Err? {
        return mid, Some(one.error);
      }
      var end, two := Load(w, e, mid, prefix, IGNORE);
      if two.Err? {
        return end, Some(two.error);
      }
      rules := rules[prefix := Rules(one.value, two.value)];
      return end, None;
    }

    method Find(e: Engine, layer: Layer, path: Path, directory: bool) returns (ruling: Ruling)
      ensures ruling == FindRuling(e, rules, layer, path, directory, Parent(path))
    {
      var from := Parent(path);
      while true
        invariant FindRuling(e, rules, layer, path, directory, from) == FindRuling(e, rules, layer, path, directory, Parent(path))
        decreases |from|
      {
        if from in rules {
          ruling := e.ruling(from, LayerOf(rules[from], layer), path, directory);
          if ruling != Unmatched {
            return;
          }
        }
        if from == [] {
          return Unmatched;
        }
        from := Parent(from);
      }
    }

    method Allows(e: Engine, path: Path, directory: bool) returns (allowed: bool)
      ensures allowed == AllowsIn(e, Current(), path, directory)
    {
      if !ExplicitlyAllowed(e, input, path, directory) {
        return false;
      }
      if input.respectIgnore {
        var ignore := Find(e, DotIgnore, path, directory);
        if ignore != Unmatched {
          return ignore == Whitelisted;
        }
        var gitignore := Find(e, GitIgnore, path, directory);
        return gitignore != Ignored;
      }
      return true;
    }

    method Verify(w: World, start: nat) returns (now: nat, fault: Option<Code>)
      ensures Verified(now, fault) == VerifyAt(w, observations, start)
    {
      now := start;
      var i := 0;
      while i < |observations|
        invariant 0 <= i <= |observations|
        invariant VerifyAt(w, observations[i..], now) == VerifyAt(w, observations, start)
      {
        var c := PolicyAt(w, now, observations[i].path);
        now := c.now;
        if c.outcome.Err? {
          return now, Some(c.outcome.error);
        }
        if c.outcome.value != observations[i].captured {
          return now, Some(PolicyChanged);
        }
        assert observations[i..][1..] == observations[i + 1..];
        i := i + 1;
      }
      return now, None;
    }

    method SnapshotHash(e: Engine) returns (hash: bytes)
      ensures hash == Digest(e, Preimage(observations))
    {
      var input := SNAPSHOT_DOMAIN;
      var i := 0;
      while i < |observations|
        invariant 0 <= i <= |observations|
        invariant input + EncodeObservations(observations[i..]) == Preimage(observations)
      {
        assert observations[i..][1..] == observations[i + 1..];
        input := input + EncodeObservation(observations[i]);
        i := i + 1;
      }
      assert input + [] == input;
      hash := Digest(e, input);
    }
  }
}
