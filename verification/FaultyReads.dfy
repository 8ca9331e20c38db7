/** Reads of a static tree in a file system where anything may fail at any time: never more than the tree offers. */
module FaultyReads {
  import opened Basics
  import opened Paths
  import opened World
  import opened Protocol
  import opened Engines
  import opened Scoping
  import opened Searching
  import opened SearchInvariants
  import opened ScopeInvariants
  import opened Acceptance
  import opened Trees
  import opened Refinement
  import opened Responses
  import opened ReadAgreement
  import opened Reads
  import Utf8
  import Capture

  /** Codes that say the file system or a limit got in the way, and nothing about the file asked for. */
  predicate Interference(c: Code) {
    c == Deadline || c == ReadFailed || c == SourceMutated || c == EntryLimit || c == DepthLimit || c == PolicyChanged
  }

  /** Why a read declines to deliver this content, if it does. */
  function Declined(q: Job, content: bytes): Option<Code>
    requires JobOk(q) && q.r.read.Some?
  {
    Deliver(q, Initial(q.r), q.r.read.value, Target(q), Digest(q.e, content), content).fault
  }

  /** The hit quotes exactly the requested range of a planned file at the requested path. */
  ghost predicate Planned(q: Job, sources: seq<Source>, h: Hit)
    requires JobOk(q) && q.r.read.Some?
  {
    exists content :: Quotes(q, sources, content, h)
  }

  ghost predicate Quotes(q: Job, sources: seq<Source>, content: bytes, h: Hit)
    requires JobOk(q) && q.r.read.Some?
  {
    && Source(Target(q), content) in sources && Declined(q, content).None?
    && q.r.read.value.range.end <= |content|
    && h == ReadHit(Target(q), Digest(q.e, content), content, q.r.read.value.range)
  }

  /** A planned file at the requested path is declined for this reason. */
  ghost predicate DeclinedFor(q: Job, sources: seq<Source>, code: Code)
    requires JobOk(q) && q.r.read.Some?
  {
    exists content :: Source(Target(q), content) in sources && Declined(q, content) == Some(code)
  }

  /** How many files the tree offers at this path: more than one only where a listing repeats a name. */
  function CountAt(sources: seq<Source>, target: Path): nat {
    if |sources| == 0 then 0 else (if sources[0].path == target then 1 else 0) + CountAt(sources[1..], target)
  }

  lemma {:induction false} CountJoin(a: seq<Source>, b: seq<Source>, target: Path)
    ensures CountAt(a + b, target) == CountAt(a, target) + CountAt(b, target)
  {
    if |a| == 0 {
      assert a + b == b;
    } else {
      CountJoin(a[1..], b, target);
      assert (a + b)[1..] == a[1..] + b;
    }
  }

  lemma {:induction false} CountFound(sources: seq<Source>, target: Path)
    ensures CountAt(sources, target) > 0 <==> Lookup(sources, target).Some?
  {
    if |sources| > 0 {
      CountFound(sources[1..], target);
    }
  }

  /** What a step of a read adds is planned, without a reason to the contrary once for each file offered; and a fault has its cause. */
  ghost predicate ReadRefines(q: Job, s: State, r: Step, p: Plan)
    requires JobOk(q) && q.r.read.Some?
  {
    && s.reasons <= r.state.reasons && r.state.used == s.used
    && s.matches <= r.state.matches
    && (forall h :: h in r.state.matches[|s.matches|..] ==> Planned(q, p.sources, h))
    && (r.fault.None? && r.state.reasons == [] ==> |r.state.matches| == |s.matches| + CountAt(p.sources, Target(q)))
    && (r.fault.Some? ==> Interference(r.fault.value) || DeclinedFor(q, p.sources, r.fault.value))
  }

  // ---- Composition ------------------------------------------------------------------------------------

  lemma PlannedMore(q: Job, a: seq<Source>, b: seq<Source>)
    requires JobOk(q) && q.r.read.Some?
    ensures forall h :: Planned(q, a, h) || Planned(q, b, h) ==> Planned(q, a + b, h)
    ensures forall c :: DeclinedFor(q, a, c) || DeclinedFor(q, b, c) ==> DeclinedFor(q, a + b, c)
  {
    hide Declined, ReadHit, JobOk;
    forall h | Planned(q, a, h) || Planned(q, b, h)
      ensures Planned(q, a + b, h)
    {
      if Planned(q, a, h) {
        var content :| Quotes(q, a, content, h);
        assert Quotes(q, a + b, content, h);
      } else {
        var content :| Quotes(q, b, content, h);
        assert Quotes(q, a + b, content, h);
      }
    }
    forall c | DeclinedFor(q, a, c) || DeclinedFor(q, b, c)
      ensures DeclinedFor(q, a + b, c)
    {
      var content :| (Source(Target(q), content) in a || Source(Target(q), content) in b) && Declined(q, content) == Some(c);
      assert Source(Target(q), content) in a + b;
    }
  }

  lemma ReadThen(q: Job, s: State, a: Step, b: Step, p: Plan, o: Plan)
    requires JobOk(q) && q.r.read.Some? && a.fault.None?
    requires ReadRefines(q, s, a, p) && ReadRefines(q, a.state, b, o)
    ensures ReadRefines(q, s, b, Join(p, o))
  {
    PlannedMore(q, p.sources, o.sources);
    CountJoin(p.sources, o.sources, Target(q));
    hide Planned, DeclinedFor, JobOk, CountAt;
    assert b.state.matches[|s.matches|..] == a.state.matches[|s.matches|..] + b.state.matches[|a.state.matches|..];
  }

  lemma ReadStop(q: Job, s: State, a: Step, p: Plan, o: Plan)
    requires JobOk(q) && q.r.read.Some? && a.fault.Some? && ReadRefines(q, s, a, p)
    ensures ReadRefines(q, s, a, Join(p, o))
  {
    PlannedMore(q, p.sources, o.sources);
    hide Planned, DeclinedFor, JobOk, CountAt;
  }

  /** A step that meets nothing: interfered with, or with nothing planned to meet. */
  lemma ReadNothing(q: Job, s: State, r: Step, p: Plan)
    requires JobOk(q) && q.r.read.Some?
    requires r.state.matches == s.matches && s.reasons <= r.state.reasons && r.state.used == s.used
    requires if r.fault.Some? then Interference(r.fault.value) else r.state.reasons != [] || CountAt(p.sources, Target(q)) == 0
    ensures ReadRefines(q, s, r, p)
  {
    hide Planned, DeclinedFor, JobOk, CountAt;
    assert r.state.matches[|s.matches|..] == [];
  }

  lemma ReadSettles(q: Job, s: State, r: Step, p: Plan)
    requires JobOk(q) && q.r.read.Some? && ReadRefines(q, s, r, p)
    ensures ReadRefines(q, s, Settle(r), p)
  {
    hide Planned, DeclinedFor, JobOk, CountAt;
  }

  /** Refinement does not look at the clock, the counts or the scope. */
  lemma ReadFrom(q: Job, s: State, t: State, r: Step, p: Plan)
    requires JobOk(q) && q.r.read.Some? && ReadRefines(q, t, r, p)
    requires t.matches == s.matches && t.reasons == s.reasons && t.used == s.used
    ensures ReadRefines(q, s, r, p)
  {
    hide Planned, DeclinedFor, JobOk, CountAt;
  }

  // ---- One entry -----------------------------------------------------------------------------------------

  /** Delivering depends on nothing but the content, as long as no hit is charged. */
  lemma DeliverAnywhere(q: Job, s: State, content: bytes)
    requires JobOk(q) && q.r.read.Some? && s.used == ENVELOPE_RESERVE
    ensures var d := Deliver(q, s, q.r.read.value, Target(q), Digest(q.e, content), content);
            && d.fault == Declined(q, content)
            && (if d.fault.Some? then d.state == s
                else q.r.read.value.range.end <= |content|
                     && d.state == s.(matches := s.matches + [ReadHit(Target(q), Digest(q.e, content), content, q.r.read.value.range)]))
  {
    hide Digest, ReadHit, Utf8.IsCharBoundary, BoundsAcceptable;
  }

  lemma OneOffered(src: Source)
    ensures CountAt([src], src.path) == 1
  {
    assert [src][1..] == [];
  }

  /** A read that has captured a file: delivered, declined, or too late. */
  lemma ExamineReads(q: Job, s: State, content: bytes)
    requires JobOk(q) && q.r.read.Some? && s.used == ENVELOPE_RESERVE
    ensures ReadRefines(q, s, Examine(q, s, Target(q), content), Plan([Source(Target(q), content)], 0))
  {
    assert MatchesInRange(q.e, q.r, content);
    hide Deliver, Declined, Digest, ReadHit, Utf8.IsCharBoundary, Sound, BoundsAcceptable;
    var r := Examine(q, s, Target(q), content);
    var p := Plan([Source(Target(q), content)], 0);
    OneOffered(Source(Target(q), content));
    if q.w.expired(s.now) {
      ReadNothing(q, s, r, p);
    } else {
      var t := Searched(s.(now := s.now + 1), content);
      DeliverAnywhere(q, t, content);
      hide Searched;
      if r.fault.None? {
        var h := ReadHit(Target(q), Digest(q.e, content), content, q.r.read.value.range);
        assert r.state.matches[|s.matches|..] == [h];
        assert Quotes(q, p.sources, content, h);
      } else {
        assert r.state.matches[|s.matches|..] == [];
        assert Source(Target(q), content) in p.sources;
      }
    }
  }

  lemma FileReads(q: Job, s: State, t: State, fd: Ino, path: Path, content: bytes, chain: seq<Level>)
    requires JobOk(q) && q.r.read.Some? && Follows(s, t) && t.used == s.used == ENVELOPE_RESERVE
    requires Capture.StaticFile(q.w, fd, content)
    requires forall n: nat :: q.w.resolve(n, path) == Some(fd)
    ensures ReadRefines(q, s, SearchFileAt(q, t, fd, path), NodePlan(KnobsOf(q), path, File(content), chain))
  {
    hide CaptureTwice, Examine, Validate, Sound, Capture.Textual;
    CaptureTwiceMirrors(q, t.now, fd, path, content);
    var r := SearchFileAt(q, t, fd, path);
    var p := NodePlan(KnobsOf(q), path, File(content), chain);
    var c := CaptureTwice(q, t.now, fd, path);
    assert [Source(path, content)][1..] == [];
    if path == Target(q) && c.outcome.Ok? && c.outcome.value.Some? {
      ExamineReads(q, t.(now := c.now), content);
      ReadFrom(q, s, t.(now := c.now), r, p);
    } else {
      hide Capture.Offered;
      ReadNothing(q, s, r, p);
    }
  }

  /** A mirrored entry is classified as the tree classifies it, unless resolving it fails. */
  lemma ClassifyReads(q: Job, s: State, t: State, prefix: Path, entry: Entry, chain: seq<Level>)
    requires JobOk(q) && q.r.read.Some? && Follows(s, t) && t.used == s.used && t.scope.input == q.r.scope
    requires MirrorsEntry(q.w, prefix, entry) && !IsDots(entry.name) && InForce(t.scope, prefix, chain)
    requires Nameable(q.r.scope, prefix, entry.name)
    ensures var path := Child(prefix, entry.name);
            match Classify(q, t, path)
            case Done(r) => ReadRefines(q, s, r, EntryPlan(KnobsOf(q), prefix, entry, chain))
            case Descend(u, f, p) =>
              && q.w.resolve(0, path) == Some(f) && p == path && Follows(s, u) && u.used == s.used && entry.node.Folder?
              && EntryPlan(KnobsOf(q), prefix, entry, chain) == NodePlan(KnobsOf(q), path, entry.node, chain)
            case Inspect(u, f, p) =>
              && q.w.resolve(0, path) == Some(f) && p == path && Follows(s, u) && u.used == s.used && entry.node.File?
              && EntryPlan(KnobsOf(q), prefix, entry, chain) == NodePlan(KnobsOf(q), path, entry.node, chain)
  {
    hide JobOk, AllowsIn, Verdict, InForce, Nameable, Child, FolderPlan, ReadRefines;
    var path := Child(prefix, entry.name);
    assert AnchorAt(q.w, t.now, path) == if q.w.fails(t.now) then Err(ReadFailed) else Ok(q.w.resolve(0, path).value);
    VerdictIsPure(q.e, t.scope, prefix, chain, entry.name, entry.node.Folder?);
    KindMirrors(q.w, t.now + 1, prefix, entry);
    var k := KnobsOf(q);
    assert EntryPlan(k, prefix, entry, chain)
        == if Verdict(q.e, q.r.scope, chain, path, entry.node.Folder?) then NodePlan(k, path, entry.node, chain) else NOTHING;
    assert entry.node.Other? ==> NodePlan(k, path, entry.node, chain) == NOTHING;
    match Classify(q, t, path)
    case Done(r) => ReadNothing(q, s, r, EntryPlan(k, prefix, entry, chain));
    case Descend(u, f, p) =>
    case Inspect(u, f, p) =>
  }

  /** An entry the name-level tests turn away. */
  lemma TurnedAway(q: Job, s: State, prefix: Path, entry: Entry, depth: nat, chain: seq<Level>)
    requires JobOk(q) && q.r.read.Some? && depth <= q.r.maxDepth
    requires !AdmittedByName(q, s, prefix, entry.name) || PassesByName(q, prefix, entry.name)
    ensures ReadRefines(q, s, EntryAt(q, s, entry.name, prefix, depth), EntryPlan(KnobsOf(q), prefix, entry, chain))
  {
    hide Sound, Validate, ValidPath, ExcludedPath, Utf8.Valid, IsDots, Verdict, ReadRefines, Classify, NodePlan, WalkAt,
      SearchFileAt, Relevant, Child, Lookup, CountAt;
    var r := EntryAt(q, s, entry.name, prefix, depth);
    assert r == Dispatch(q, Admit(q, s, prefix, entry.name), depth);
    if PassesByName(q, prefix, entry.name) {
      UnplannedByName(q, q, prefix, entry, chain);
      CountFound(EntryPlan(KnobsOf(q), prefix, entry, chain).sources, Target(q));
    }
    ReadNothing(q, s, r, EntryPlan(KnobsOf(q), prefix, entry, chain));
  }

  // ---- The walk ---------------------------------------------------------------------------------------------

  lemma {:induction false} EntryReads(q: Job, s: State, prefix: Path, entry: Entry, depth: nat, chain: seq<Level>)
    requires JobOk(q) && q.r.read.Some? && depth <= q.r.maxDepth && s.scope.input == q.r.scope && s.used == ENVELOPE_RESERVE
    requires MirrorsEntry(q.w, prefix, entry) && InForce(s.scope, prefix, chain)
    ensures ReadRefines(q, s, EntryAt(q, s, entry.name, prefix, depth), EntryPlan(KnobsOf(q), prefix, entry, chain))
    decreases entry, 1
  {
    hide Sound, Validate, InForce, ReadRefines, Classify, EntryPlan, NodePlan, FolderPlan, SearchFileAt, WalkAt,
      MirrorsEntry, MirrorsNode, Relevant;
    var path := Child(prefix, entry.name);
    if AdmittedByName(q, s, prefix, entry.name) && !PassesByName(q, prefix, entry.name) {
      var t := Visit(s.(now := s.now + 2));
      ClassifyReads(q, s, t, prefix, entry, chain);
      assert Admit(q, s, prefix, entry.name) == Classify(q, t, path);
      MirrorsUnfold(q.w, prefix, entry);
      NameableNotDots(q, prefix, entry.name);
      var fd := q.w.resolve(0, path).value;
      match Classify(q, t, path)
      case Done(r) =>
      case Inspect(u, f, p) => FileReads(q, s, u, fd, path, entry.node.content, chain);
      case Descend(u, f, p) => FolderReads(q, s, u, fd, path, entry.node, depth, chain, prefix, entry.name);
    } else {
      TurnedAway(q, s, prefix, entry, depth, chain);
    }
  }

  lemma {:induction false} FolderReads(q: Job, s: State, u: State, fd: Ino, path: Path, node: Node, depth: nat, chain: seq<Level>, prefix: Path, name: Name)
    requires JobOk(q) && q.r.read.Some? && depth <= q.r.maxDepth && s.scope.input == q.r.scope
    requires Follows(s, u) && u.used == s.used == ENVELOPE_RESERVE && node.Folder? && MirrorsNode(q.w, fd, path, node)
    requires InForce(s.scope, prefix, chain) && path == Child(prefix, name) && SlashFree(name) && path != []
    ensures ReadRefines(q, s, Settle(WalkAt(q, u, fd, path, depth + 1)), NodePlan(KnobsOf(q), path, node, chain))
    decreases node, 0
  {
    hide Sound, Validate, ReadRefines, FolderPlan, WalkAt, Settle, Linked, Agrees, MirrorsFolder;
    ParentOfChild(prefix, name);
    WalkReads(q, u, fd, path, node.entries, depth + 1, chain);
    var r := WalkAt(q, u, fd, path, depth + 1);
    var p := FolderPlan(KnobsOf(q), path, node.entries, chain);
    ReadSettles(q, u, r, p);
    ReadFrom(q, s, u, Settle(r), p);
    SamePlan(q, s, Settle(r), p, Join(Plan([], 1), p));
  }

  /** Refinement looks only at the sources planned. */
  lemma SamePlan(q: Job, s: State, r: Step, p: Plan, o: Plan)
    requires JobOk(q) && q.r.read.Some? && ReadRefines(q, s, r, p) && o.sources == [] + p.sources
    ensures ReadRefines(q, s, r, o)
  {
    assert o.sources == p.sources;
    hide JobOk, Planned, DeclinedFor, Lookup;
  }

  lemma {:induction false} WalkReads(q: Job, s: State, fd: Ino, prefix: Path, es: seq<Entry>, depth: nat, up: seq<Level>)
    requires JobOk(q) && q.r.read.Some? && s.scope.input == q.r.scope && s.used == ENVELOPE_RESERVE
    requires MirrorsFolder(q.w, fd, prefix, es) && Above(s.scope, prefix, up)
    ensures ReadRefines(q, s, WalkAt(q, s, fd, prefix, depth), FolderPlan(KnobsOf(q), prefix, es, up))
    decreases es, 3
  {
    hide Sound, Validate, ReadRefines, EnterAt, EntriesAt, EntriesPlan, Linked, Agrees, FolderRules, MirrorsEntries,
      ShowsPolicy, IssueIn, CountAt;
    var plan := FolderPlan(KnobsOf(q), prefix, es, up);
    var r := WalkAt(q, s, fd, prefix, depth);
    if q.w.expired(s.now) {
      ReadNothing(q, s, r, plan);
    } else if depth > q.r.maxDepth {
      IssueShows(s.(now := s.now + 1), DepthLimit);
      IssueSpends(s.(now := s.now + 1), DepthLimit);
      ReadNothing(q, s, r, plan);
    } else {
      var n := EnterAt(q.w, q.e, s.scope, s.now + 1, prefix);
      var t := s.(now := n.now + 1, scope := n.view);
      EnterFaults(q.w, q.e, s.scope, s.now + 1, prefix);
      if n.fault.Some? || q.w.fails(n.now) {
        ReadNothing(q, s, r, plan);
      } else {
        var chain := EnteredChain(q, s, prefix, es, up);
        EntriesRead(q, t, prefix, es, depth, chain);
        assert q.w.listing(n.now, fd) == Names(es);
        ReadFrom(q, s, t, r, plan);
      }
    }
  }

  lemma IssueSpends(s: State, code: Code)
    ensures IssueIn(s, code).used == s.used
  {
  }

  lemma {:induction false} EntriesRead(q: Job, s: State, prefix: Path, es: seq<Entry>, depth: nat, chain: seq<Level>)
    requires JobOk(q) && q.r.read.Some? && depth <= q.r.maxDepth && s.scope.input == q.r.scope && s.used == ENVELOPE_RESERVE
    requires MirrorsEntries(q.w, prefix, es) && InForce(s.scope, prefix, chain)
    ensures ReadRefines(q, s, EntriesAt(q, s, Names(es), prefix, depth), EntriesPlan(KnobsOf(q), prefix, es, chain))
    decreases es, 2
  {
    hide Sound, Validate, ReadRefines, EntryAt, EntryPlan, InForce, MirrorsEntry, Grows;
    var k := KnobsOf(q);
    if |es| == 0 {
      ReadNothing(q, s, Step(s, None), NOTHING);
    } else {
      EntryReads(q, s, prefix, es[0], depth, chain);
      var r := EntryAt(q, s, es[0].name, prefix, depth);
      var p, o := EntryPlan(k, prefix, es[0], chain), EntriesPlan(k, prefix, es[1..], chain);
      NamesTail(es);
      if r.fault.Some? {
        ReadStop(q, s, r, p, o);
      } else {
        EntryGrows(q, s, es[0].name, prefix, depth);
        InForceKept(s.scope, r.state.scope, prefix, chain);
        GrowsInput(s.scope, r.state.scope, |prefix| + 1);
        ReadSpends(q, s, r, p);
        EntriesRead(q, r.state, prefix, es[1..], depth, chain);
        ReadThen(q, s, r, EntriesAt(q, r.state, Names(es[1..]), prefix, depth), p, o);
      }
    }
  }

  lemma ReadSpends(q: Job, s: State, r: Step, p: Plan)
    requires JobOk(q) && q.r.read.Some? && ReadRefines(q, s, r, p)
    ensures r.state.used == s.used
  {
    hide JobOk, Planned, DeclinedFor, Lookup;
  }

  // ---- The answer --------------------------------------------------------------------------------------------

  lemma WholeWalkReads(q: Job, fd: Ino, es: seq<Entry>)
    requires JobOk(q) && q.r.read.Some? && MirrorsFolder(q.w, fd, [], es)
    ensures ReadRefines(q, Initial(q.r), WalkAt(q, Initial(q.r), fd, [], 0), FolderPlan(KnobsOf(q), [], es, []))
  {
    hide JobOk, WalkAt, MirrorsFolder, FolderPlan, ReadRefines;
    WalkReads(q, Initial(q.r), fd, [], es, 0, []);
  }

  /** What a successful read delivers, through any failures: the requested range of a file the tree offers at that path. */
  lemma ReadHitsArePlanned(q: Job, fd: Ino, es: seq<Entry>, h: Hit) returns (src: Source)
    requires Sound(q.e) && q.r.read.Some? && MirrorsFolder(q.w, fd, [], es)
    requires SearchAt(q, fd).Ok? && h in SearchAt(q, fd).value.matches
    ensures src in FolderPlan(KnobsOf(q), [], es, []).sources && src.path == q.r.read.value.path
    ensures Validate(q.r).None? && InFile(src.content, q.r.read.value.range)
    ensures var range := q.r.read.value.range;
            h == Hit(src.path, Digest(q.e, src.content), range, Excerpt(range, src.content[range.start..range.end], false))
    ensures q.r.read.value.expectedFileSha256.Some? ==> h.fileSha256 == q.r.read.value.expectedFileSha256.value
  {
    hide WalkAt, MirrorsFolder, FolderPlan, VerifyAt, Preimage, ScopeAcceptable, BoundsAcceptable, Sound, Digest, Planned,
      DeclinedFor, Lookup, Utf8.IsCharBoundary;
    WholeWalkReads(q, fd, es);
    var walked := WalkAt(q, Initial(q.r), fd, [], 0);
    assert walked.state.matches[0..] == walked.state.matches;
    src := Quoted(q, FolderPlan(KnobsOf(q), [], es, []).sources, h);
  }

  lemma Quoted(q: Job, sources: seq<Source>, h: Hit) returns (src: Source)
    requires JobOk(q) && q.r.read.Some? && Planned(q, sources, h)
    ensures src in sources && src.path == q.r.read.value.path && InFile(src.content, q.r.read.value.range)
    ensures h == ReadHit(src.path, Digest(q.e, src.content), src.content, q.r.read.value.range)
    ensures q.r.read.value.expectedFileSha256.Some? ==> h.fileSha256 == q.r.read.value.expectedFileSha256.value
  {
    hide Digest, Utf8.IsCharBoundary, BoundsAcceptable, Sound;
    var content :| Quotes(q, sources, content, h);
    src := Source(Target(q), content);
  }

  lemma {:induction false} VerifyInterferes(w: World, os: seq<Observation>, now: nat)
    ensures var f := VerifyAt(w, os, now).fault; f.Some? ==> Interference(f.value)
    decreases |os|
  {
    if |os| > 0 {
      PolicyFaults(w, now, os[0].path);
      var c := PolicyAt(w, now, os[0].path);
      VerifyInterferes(w, os[1..], c.now);
    }
  }

  // ---- Files offered more than once ---------------------------------------------------------------------------

  /** The file system shows this content at the source's path. */
  ghost predicate Shown(w: World, src: Source) {
    w.resolve(0, src.path).Some? && Capture.StaticFile(w, w.resolve(0, src.path).value, src.content)
  }

  lemma {:induction false} FolderShows(k: Knobs, w: World, fd: Ino, prefix: Path, es: seq<Entry>, chain: seq<Level>, src: Source)
    requires MirrorsFolder(w, fd, prefix, es) && src in FolderPlan(k, prefix, es, chain).sources
    ensures Shown(w, src)
    decreases es, 3
  {
    hide EntriesPlan, MirrorsEntries, FolderRules, Shown;
    if !k.input.respectIgnore {
      EntriesShow(k, w, prefix, es, chain, src);
    } else {
      EntriesShow(k, w, prefix, es, chain + [Level(prefix, FolderRules(k.e, prefix, es).value)], src);
    }
  }

  lemma {:induction false} EntriesShow(k: Knobs, w: World, prefix: Path, es: seq<Entry>, chain: seq<Level>, src: Source)
    requires MirrorsEntries(w, prefix, es) && src in EntriesPlan(k, prefix, es, chain).sources
    ensures Shown(w, src)
    decreases es, 2
  {
    hide EntryPlan, MirrorsEntry, Shown;
    if src in EntryPlan(k, prefix, es[0], chain).sources {
      EntryShows(k, w, prefix, es[0], chain, src);
    } else {
      EntriesShow(k, w, prefix, es[1..], chain, src);
    }
  }

  lemma {:induction false} EntryShows(k: Knobs, w: World, prefix: Path, entry: Entry, chain: seq<Level>, src: Source)
    requires MirrorsEntry(w, prefix, entry) && src in EntryPlan(k, prefix, entry, chain).sources
    ensures Shown(w, src)
    decreases entry, 1
  {
    hide Verdict, FolderPlan, MirrorsFolder, Utf8.Valid, ValidPath, ExcludedPath, Capture.Textual;
    match entry.node
    case Folder(es) =>
      assert src in FolderPlan(k, Child(prefix, entry.name), es, chain).sources;
      FolderShows(k, w, w.resolve(0, Child(prefix, entry.name)).value, Child(prefix, entry.name), es, chain, src);
    case File(content) =>
    case Other =>
  }

  /** However often listings repeat a name, one path offers one content. */
  lemma OneContent(k: Knobs, w: World, fd: Ino, es: seq<Entry>, src: Source)
    requires MirrorsFolder(w, fd, [], es) && src in FolderPlan(k, [], es, []).sources
    ensures Lookup(FolderPlan(k, [], es, []).sources, src.path) == Some(src.content)
  {
    hide MirrorsFolder, FolderPlan, Lookup;
    var sources := FolderPlan(k, [], es, []).sources;
    LookupSome(sources, src);
    LookupMember(sources, src.path);
    var first := Source(src.path, Lookup(sources, src.path).value);
    FolderShows(k, w, fd, [], es, [], src);
    FolderShows(k, w, fd, [], es, [], first);
    assert w.inode(0, w.resolve(0, src.path).value).content == src.content;
  }

  lemma {:induction false} LookupSome(sources: seq<Source>, src: Source)
    requires src in sources
    ensures Lookup(sources, src.path).Some?
  {
    if sources[0].path != src.path {
      LookupSome(sources[1..], src);
    }
  }

  lemma CopiesUnique<T>(xs: seq<T>, x: T)
    requires forall y :: y in xs ==> y == x
    ensures xs == Copies(x, |xs|)
  {
    assert forall i :: 0 <= i < |xs| ==> xs[i] in xs;
  }

  /** Everything a read added quotes the one content, so that the same hit is repeated. */
  lemma SameHits(q: Job, sources: seq<Source>, hits: seq<Hit>, content: bytes)
    requires JobOk(q) && q.r.read.Some? && hits != [] && (forall h :: h in hits ==> Planned(q, sources, h))
    requires forall src :: src in sources && src.path == Target(q) ==> src.content == content
    ensures InFile(content, q.r.read.value.range) && Declined(q, content).None?
    ensures hits == Copies(ReadHit(Target(q), Digest(q.e, content), content, q.r.read.value.range), |hits|)
  {
    hide Digest, BoundsAcceptable, Sound, ReadHit, Utf8.IsCharBoundary;
    forall h | h in hits
      ensures Quotes(q, sources, content, h)
    {
      var other :| Quotes(q, sources, other, h);
    }
    assert Quotes(q, sources, content, hits[0]);
    CopiesUnique(hits, ReadHit(Target(q), Digest(q.e, content), content, q.r.read.value.range));
  }

  /** A planned file is the one found; declining it, or delivering it once for each entry, is what the read must answer. */
  lemma FoundAnswers(q: Job, sources: seq<Source>, s: State, r: Step)
    requires JobOk(q) && q.r.read.Some? && s == Initial(q.r) && ReadRefines(q, s, r, Plan(sources, 0))
    requires forall src :: src in sources ==> Lookup(sources, src.path) == Some(src.content)
    requires r.state.complete <==> r.state.reasons == []
    requires r.fault.None? ==> r.state.reasons == [] && VerifyAt(q.w, r.state.scope.observations, r.state.now).fault.None?
    requires r.fault.Some? ==> !Interference(r.fault.value)
    ensures ReadAnswered(q, Lookup(sources, Target(q)), CountAt(sources, Target(q)),
                         if r.fault.Some? then Err(r.fault.value) else Conclude(q, r.state))
  {
    hide Digest, Preimage, VerifyAt, Utf8.IsCharBoundary, BoundsAcceptable, Sound, Lookup, ReadHit, CountAt, Planned;
    assert r.state.matches[0..] == r.state.matches;
    CountFound(sources, Target(q));
    if r.fault.Some? {
      var content :| Source(Target(q), content) in sources && Declined(q, content) == r.fault;
      assert Lookup(sources, Target(q)) == Some(content);
    } else if r.state.matches != [] {
      SameHits(q, sources, r.state.matches, Lookup(sources, Target(q)).value);
    }
  }

  lemma ConcludeInterfered(q: Job, s: State)
    requires q.r.read.Some? && (forall c :: c in s.reasons ==> Interference(c))
    requires s.reasons != [] || VerifyAt(q.w, s.scope.observations, s.now).fault.Some?
    ensures Conclude(q, s).Err? && Interference(Conclude(q, s).error)
  {
    VerifyInterferes(q.w, s.scope.observations, s.now);
    hide VerifyAt, Preimage, Digest;
  }

  /**
   A read of a static tree, whatever fails meanwhile: it answers for the one content the tree offers at that path, once
   for each entry that leads there, or says that the file system or a limit got in the way. It never says "out of scope"
   of a file it might have read.
   */
  lemma ReadsAnswerOrSayWhy(q: Job, fd: Ino, es: seq<Entry>)
    requires Sound(q.e) && Validate(q.r).None? && q.r.read.Some? && !q.r.validateScopeOnly
    requires q.e.patternOk(q.r) && ScopeAcceptable(q.e, q.r.scope)
    requires MirrorsFolder(q.w, fd, [], es)
    ensures var sources := FolderPlan(KnobsOf(q), [], es, []).sources;
            var answer := SearchAt(q, fd);
            || ReadAnswered(q, Lookup(sources, Target(q)), CountAt(sources, Target(q)), answer)
            || (answer.Err? && Interference(answer.error))
  {
    hide WalkAt, MirrorsFolder, FolderPlan, VerifyAt, Preimage, ScopeAcceptable, Validate, Sound, Digest, Lookup, CountAt,
      ReadRefines, ReadAnswered, Conclude, HitAccepted, Substantiated;
    WholeWalkReads(q, fd, es);
    var plan := FolderPlan(KnobsOf(q), [], es, []);
    var r := WalkAt(q, Initial(q.r), fd, [], 0);
    InitialInv(q);
    WalkKeeps(q, Initial(q.r), fd, [], 0);
    if r.fault.None? && (r.state.reasons != [] || VerifyAt(q.w, r.state.scope.observations, r.state.now).fault.Some?) {
      ConcludeInterfered(q, r.state);
    } else if r.fault.None? || !Interference(r.fault.value) {
      forall src | src in plan.sources
        ensures Lookup(plan.sources, src.path) == Some(src.content)
      {
        OneContent(KnobsOf(q), q.w, fd, es, src);
      }
      assert Plan(plan.sources, 0).sources == [] + plan.sources;
      SamePlan(q, Initial(q.r), r, plan, Plan(plan.sources, 0));
      FoundAnswers(q, plan.sources, Initial(q.r), r);
    }
  }

  /**
   A read under the terms of a complete search of the same tree, in a file system of its own: it answers for exactly the
   files that search covered, or was interfered with, which takes a fault, a change, or a repeated listing.
   */
  lemma ReadsBesideSearch(j: Job, q: Job, fj: Ino, fq: Ino, es: seq<Entry>)
    requires LikeTerms(j, q)
    requires !j.r.validateScopeOnly && !q.r.validateScopeOnly && q.e.patternOk(q.r)
    requires MirrorsFolder(j.w, fj, [], es) && MirrorsFolder(q.w, fq, [], es)
    requires SearchAt(j, fj).Ok? && SearchAt(j, fj).value.complete
    ensures var sources := FolderPlan(KnobsOf(j), [], es, []).sources;
            var answer := SearchAt(q, fq);
            || ReadAnswered(q, Lookup(sources, Target(q)), CountAt(sources, Target(q)), answer)
            || (answer.Err? && Interference(answer.error) && !(Capture.Frozen(q.w) && ProperListings(q.w)))
  {
    hide MirrorsFolder, FolderPlan, Validate, Sound, Lookup, CountAt, SearchAt, Capture.Frozen, ProperListings, Digest,
      ScopeAcceptable, InFile;
    SucceedsInScope(j, fj);
    ReadsAnswerOrSayWhy(q, fq, es);
    if Capture.Frozen(q.w) && ProperListings(q.w) {
      ReadsFollowSearch(j, q, fj, fq, es);
    }
  }

  lemma SucceedsInScope(j: Job, fd: Ino)
    requires Sound(j.e) && SearchAt(j, fd).Ok?
    ensures ScopeAcceptable(j.e, j.r.scope)
  {
    hide WalkAt, ScopeAcceptable, Conclude, Validate, Sound;
  }

  // ---- When a read is accepted -----------------------------------------------------------------------------------

  lemma {:induction false} CopiesWeigh(e: Engine, h: Hit, n: nat)
    ensures HitsBytes(e, Copies(h, n)) == n * e.hitSize(h)
  {
    if n > 0 {
      assert Copies(h, n)[..n - 1] == Copies(h, n - 1);
      CopiesWeigh(e, h, n - 1);
      assert n * e.hitSize(h) == (n - 1) * e.hitSize(h) + e.hitSize(h);
    } else {
      assert Copies(h, 0) == [];
    }
  }

  /**
   A successful read of a static tree holds one hit, repeated for every entry that leads to its path; so the client
   accepts it exactly when that many are asked for and their serialized sizes fit. With one entry they always do.
   */
  lemma ReadAcceptedIff(q: Job, fd: Ino, es: seq<Entry>, elapsed: nat) returns (h: Hit, n: nat)
    requires Sound(q.e) && q.r.read.Some? && MirrorsFolder(q.w, fd, [], es)
    requires SearchAt(q, fd).Ok? && elapsed <= ELAPSED_WIDTH
    ensures n == CountAt(FolderPlan(KnobsOf(q), [], es, []).sources, Target(q)) && n >= 1
    ensures var s := SearchAt(q, fd).value;
            && s.matches == Copies(h, n)
            && (SuccessAccepted(q.r, s, SuccessBytes(q.e, s, elapsed))
                <==> n <= q.r.maxMatches && EnvelopeBytes(s, elapsed) + n * q.e.hitSize(h) + (n - 1) <= q.r.responseBytes)
            && (n == 1 ==> SuccessAccepted(q.r, s, SuccessBytes(q.e, s, elapsed)))
  {
    hide MirrorsFolder, FolderPlan, ScopeAcceptable, Sound, SearchAt, Digest, Lookup, CountAt, HitAccepted, EnvelopeBytes,
      HitsBytes, ReadHit, Utf8.IsCharBoundary, Interference;
    ReadSucceeds(q, fd);
    ReadsAnswerOrSayWhy(q, fd, es);
    var s := SearchAt(q, fd).value;
    n := CountAt(FolderPlan(KnobsOf(q), [], es, []).sources, Target(q));
    h := s.matches[0];
    assert s.matches == Copies(h, n);
    SuccessIsTruthful(q, fd);
    FewCodes(s.reasons);
    CopiesWeigh(q.e, h, n);
    if n == 1 {
      EnvelopeFits(q.r, s, elapsed);
    }
  }

  lemma ReadSucceeds(q: Job, fd: Ino)
    requires Sound(q.e) && q.r.read.Some? && SearchAt(q, fd).Ok?
    ensures Validate(q.r).None? && q.e.patternOk(q.r) && ScopeAcceptable(q.e, q.r.scope) && !q.r.validateScopeOnly
    ensures SearchAt(q, fd).value.matches != []
  {
    hide WalkAt, ScopeAcceptable, VerifyAt, Preimage, Digest, BoundsAcceptable, Sound;
  }
}
