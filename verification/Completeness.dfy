/** When nothing interferes and no limit is met, a search is complete: partial results always have a cause. */
module Completeness {
  import opened Basics
  import opened Paths
  import opened World
  import opened Protocol
  import opened Engines
  import opened Scoping
  import opened Searching
  import opened SearchInvariants
  import opened ScopeInvariants
  import opened Trees
  import opened Refinement
  import opened ReadAgreement
  import Reads
  import Utf8
  import Capture

  // ---- What a tree asks for -----------------------------------------------------------------------

  /** Entries visited, ignore bytes and lines read, and ignore files recorded. */
  datatype Need = Need(visits: nat, bytes: nat, lines: nat, records: nat)

  const NO_NEED := Need(0, 0, 0, 0)
  const ONE_VISIT := Need(1, 0, 0, 0)

  function Plus(a: Need, b: Need): Need { Need(a.visits + b.visits, a.bytes + b.bytes, a.lines + b.lines, a.records + b.records) }

  function Both(a: Option<Need>, b: Option<Need>): Option<Need> {
    if a.Some? && b.Some? then Some(Plus(a.value, b.value)) else None
  }

  /** The matcher gets through the text, and every match it reports lies on scalar boundaries. */
  predicate Readable(e: Engine, r: Request, content: bytes) {
    content == [] || (e.find(r, content).ok && AllOnBoundaries(content, e.find(r, content).found))
  }

  predicate AllOnBoundaries(content: bytes, found: seq<Match>) {
    forall m :: m in found ==> Phantom(content, m) || (Utf8.IsCharBoundary(content, m.start) && Utf8.IsCharBoundary(content, m.end))
  }

  function IgnoreNeed(e: Engine, prefix: Path, es: seq<Entry>, name: Name): Need {
    var d := Declared(es, name);
    var lines := DeclaredLines(e, prefix, es, name);
    Need(0, if d.Some? && d.value.Some? then |d.value.value| else 0, if lines.Some? then |lines.value| else 0, 1)
  }

  /** What walking a directory takes; `None` when it is too deep, its ignore files are unusable, or a file is unreadable. */
  function FolderNeed(e: Engine, r: Request, prefix: Path, es: seq<Entry>, chain: seq<Level>, depth: nat): Option<Need>
    decreases es, 3
  {
    if depth > r.maxDepth then None
    else if !r.scope.respectIgnore then EntriesNeed(e, r, prefix, es, chain, depth)
    else
      var rules := FolderRules(e, prefix, es);
      if rules.None? then None
      else
        Both(Some(Plus(IgnoreNeed(e, prefix, es, GITIGNORE), IgnoreNeed(e, prefix, es, IGNORE))),
             EntriesNeed(e, r, prefix, es, chain + [Level(prefix, rules.value)], depth))
  }

  function EntriesNeed(e: Engine, r: Request, prefix: Path, es: seq<Entry>, chain: seq<Level>, depth: nat): Option<Need>
    decreases es, 2
  {
    if |es| == 0 then Some(NO_NEED)
    else Both(EntryNeed(e, r, prefix, es[0], chain, depth), EntriesNeed(e, r, prefix, es[1..], chain, depth))
  }

  function EntryNeed(e: Engine, r: Request, prefix: Path, entry: Entry, chain: seq<Level>, depth: nat): Option<Need>
    decreases entry, 1
  {
    var path := Child(prefix, entry.name);
    if IsDots(entry.name) then Some(NO_NEED)
    else if !Nameable(r.scope, prefix, entry.name) || !Verdict(e, r.scope, chain, path, entry.node.Folder?) then Some(ONE_VISIT)
    else
      match entry.node
      case Folder(es) => Both(Some(ONE_VISIT), FolderNeed(e, r, path, es, chain, depth + 1))
      case File(content) =>
        if Capture.Offered(content, r.maxFileBytes).Some? && !Readable(e, r, content) then None else Some(ONE_VISIT)
      case Other => Some(ONE_VISIT)
  }

  // ---- Spending it -----------------------------------------------------------------------------------

  /** Records are in order and can be read again at any time. */
  ghost predicate Ready(j: Job, s: State) {
    s.scope.input == j.r.scope && BehindView(j.w, s.scope, s.scope)
  }

  /** What is needed and found still fits every limit. */
  ghost predicate Room(j: Job, s: State, n: Need, hits: seq<Hit>) {
    && s.counts.visited + n.visits <= j.r.maxEntries
    && s.scope.policyBytes + n.bytes <= POLICY_BYTES
    && s.scope.policyLines + n.lines <= POLICY_LINES
    && |s.scope.observations| + n.records <= OBSERVATIONS
    && |s.matches| + |hits| <= j.r.maxMatches
    && s.used + Weight(j.e, hits) <= j.r.responseBytes
  }

  ghost predicate Spent(j: Job, s: State, t: State, n: Need, hits: seq<Hit>) {
    && t.counts.visited == s.counts.visited + n.visits
    && t.scope.policyBytes <= s.scope.policyBytes + n.bytes
    && t.scope.policyLines <= s.scope.policyLines + n.lines
    && |t.scope.observations| <= |s.scope.observations| + n.records
    && t.matches == s.matches + hits
    && t.used == s.used + Weight(j.e, hits)
    && t.reasons == s.reasons
  }

  ghost predicate Goes(j: Job, s: State, r: Step, n: Need, hits: seq<Hit>) {
    r.fault.None? && Ready(j, r.state) && Spent(j, s, r.state, n, hits)
  }

  lemma {:induction false} WeightConcat(e: Engine, a: seq<Hit>, b: seq<Hit>)
    ensures Weight(e, a + b) == Weight(e, a) + Weight(e, b)
  {
    if |b| == 0 {
      assert a + b == a;
    } else {
      var n := |b| - 1;
      assert a + b == (a + b[..n]) + [b[n]];
      WeightPush(e, a + b[..n], b[n]);
      WeightConcat(e, a, b[..n]);
    }
  }

  lemma RoomSplits(j: Job, s: State, m: Need, n: Need, f: seq<Hit>, g: seq<Hit>)
    requires Room(j, s, Plus(m, n), f + g)
    ensures Room(j, s, m, f)
    ensures forall t :: Spent(j, s, t, m, f) ==> Room(j, t, n, g)
  {
    WeightConcat(j.e, f, g);
    hide Weight;
  }

  lemma SpentChain(j: Job, s: State, t: State, u: State, m: Need, n: Need, f: seq<Hit>, g: seq<Hit>)
    requires Spent(j, s, t, m, f) && Spent(j, t, u, n, g)
    ensures Spent(j, s, u, Plus(m, n), f + g)
  {
    WeightConcat(j.e, f, g);
    hide Weight;
    assert u.matches == s.matches + (f + g);
  }

  // ---- Files --------------------------------------------------------------------------------------------

  lemma {:induction false} CollectGoes(j: Job, s: State, path: Path, digest: bytes, content: bytes, found: seq<Match>)
    requires forall m :: m in found ==> m.start <= m.end <= |content|
    requires AllOnBoundaries(content, found) && forall t: nat :: !j.w.expired(t)
    requires |s.matches| + |HitsOf(path, digest, content, found)| <= j.r.maxMatches
    requires s.used + Weight(j.e, HitsOf(path, digest, content, found)) <= j.r.responseBytes
    ensures var r := Collect(j, s, path, digest, content, found, true);
            var hits := HitsOf(path, digest, content, found);
            && r.fault.None?
            && r.state == s.(now := r.state.now, matches := s.matches + hits, used := s.used + Weight(j.e, hits))
    decreases |found|
  {
    hide HitOf, Phantom, Utf8.IsCharBoundary, Weight;
    WeightNil(j.e);
    if |found| > 0 {
      var m := found[0];
      var t := s.(now := s.now + 1);
      var rest := HitsOf(path, digest, content, found[1..]);
      if Phantom(content, m) {
        CollectGoes(j, t, path, digest, content, found[1..]);
      } else {
        var h := HitOf(path, digest, content, m);
        WeightConcat(j.e, [h], rest);
        WeightOne(j.e, h);
        CollectGoes(j, Push(j, t, h), path, digest, content, found[1..]);
        assert s.matches + [h] + rest == s.matches + ([h] + rest);
      }
    }
  }

  lemma WeightNil(e: Engine)
    ensures Weight(e, []) == 0
  {
  }

  lemma WeightOne(e: Engine, h: Hit)
    ensures Weight(e, [h]) == e.hitSize(h) + 1
  {
    assert [h][..0] == [];
  }

  lemma ExamineGoes(j: Job, s: State, path: Path, content: bytes)
    requires JobOk(j) && j.r.read.None? && (forall t: nat :: !j.w.expired(t)) && Readable(j.e, j.r, content)
    requires |s.matches| + |SourceHits(j.e, j.r, Source(path, content))| <= j.r.maxMatches
    requires s.used + Weight(j.e, SourceHits(j.e, j.r, Source(path, content))) <= j.r.responseBytes
    ensures var r := Examine(j, s, path, content);
            var hits := SourceHits(j.e, j.r, Source(path, content));
            && r.fault.None?
            && r.state == s.(now := r.state.now, counts := r.state.counts, matches := s.matches + hits, used := s.used + Weight(j.e, hits))
            && r.state.counts.visited == s.counts.visited
  {
    hide Collect, HitsOf, Digest, Validate, AllOnBoundaries, Weight;
    WeightNil(j.e);
    if content != [] {
      CollectGoes(j, Searched(s.(now := s.now + 1), content), path, Digest(j.e, content), content, j.e.find(j.r, content).found);
    }
  }

  lemma FileGoes(j: Job, s: State, t: State, fd: Ino, path: Path, content: bytes)
    requires JobOk(j) && j.r.read.None? && Capture.Frozen(j.w) && Capture.StaticFile(j.w, fd, content)
    requires Ready(j, s) && Follows(s, t) && t.used == s.used
    requires Capture.Offered(content, j.r.maxFileBytes).Some? ==> Readable(j.e, j.r, content)
    requires var hits := if Capture.Offered(content, j.r.maxFileBytes).Some? then SourceHits(j.e, j.r, Source(path, content)) else [];
             Room(j, s, ONE_VISIT, hits)
    ensures var hits := if Capture.Offered(content, j.r.maxFileBytes).Some? then SourceHits(j.e, j.r, Source(path, content)) else [];
            Goes(j, s, SearchFileAt(j, t, fd, path), ONE_VISIT, hits)
  {
    hide CaptureTwice, Examine, Validate, Sound, Readable, SourceHits, Capture.Textual, BehindView, Weight;
    WeightNil(j.e);
    CaptureTwiceFrozen(j, t.now, fd, path, content);
    if Capture.Offered(content, j.r.maxFileBytes).Some? {
      var u := t.(now := CaptureTwice(j, t.now, fd, path).now);
      ExamineGoes(j, u, path, content);
    }
  }

  // ---- Ignore files -------------------------------------------------------------------------------------

  /** Loading one usable ignore file, within the budgets. */
  lemma LoadGoes(w: World, e: Engine, s: View, now: nat, prefix: Path, es: seq<Entry>, name: Name)
    requires Capture.Frozen(w) && MirrorsEntries(w, prefix, es) && ShowsPolicy(w, prefix, es, name) && !IsDots(name)
    requires Declared(es, name).Some? && DeclaredLines(e, prefix, es, name).Some? && BehindView(w, s, s)
    requires s.policyBytes + IgnoreNeed(e, prefix, es, name).bytes <= POLICY_BYTES
    requires s.policyLines + IgnoreNeed(e, prefix, es, name).lines <= POLICY_LINES
    ensures var l := LoadAt(w, e, s, now, prefix, name);
            && l.outcome == Ok(DeclaredLines(e, prefix, es, name).value)
            && BehindView(w, l.view, l.view) && l.view.input == s.input
            && l.view.policyBytes == s.policyBytes + IgnoreNeed(e, prefix, es, name).bytes
            && l.view.policyLines == s.policyLines + IgnoreNeed(e, prefix, es, name).lines
            && |l.view.observations| <= |s.observations| + 1
  {
    hide LoadAt, PolicyAt, Declared, DeclaredLines, MirrorsEntries, ShowsPolicy, BehindView, Capture.Frozen;
    var captured, lines := Declared(es, name).value, DeclaredLines(e, prefix, es, name).value;
    LoadFrozen(w, e, s, now, prefix, es, name);
    forall t: nat
      ensures PolicyAt(w, t, Child(prefix, name)).outcome == Ok(captured)
    {
      PolicyFrozen(w, t, prefix, es, name);
    }
    var l := LoadAt(w, e, s, now, prefix, name);
    LoadStaysBehind(w, s, s, l, l, Child(prefix, name), captured, lines);
  }

  lemma UsableRules(e: Engine, prefix: Path, es: seq<Entry>)
    requires FolderRules(e, prefix, es).Some?
    ensures Declared(es, GITIGNORE).Some? && DeclaredLines(e, prefix, es, GITIGNORE).Some?
    ensures Declared(es, IGNORE).Some? && DeclaredLines(e, prefix, es, IGNORE).Some?
  {
    hide Declared;
  }

  lemma EnterGoes(w: World, e: Engine, s: View, now: nat, prefix: Path, es: seq<Entry>)
    requires s.input.respectIgnore && Capture.Frozen(w) && MirrorsEntries(w, prefix, es)
    requires ShowsPolicy(w, prefix, es, GITIGNORE) && ShowsPolicy(w, prefix, es, IGNORE)
    requires FolderRules(e, prefix, es).Some? && BehindView(w, s, s)
    requires var n := Plus(IgnoreNeed(e, prefix, es, GITIGNORE), IgnoreNeed(e, prefix, es, IGNORE));
             s.policyBytes + n.bytes <= POLICY_BYTES && s.policyLines + n.lines <= POLICY_LINES && |s.observations| + n.records <= OBSERVATIONS
    ensures var n := Plus(IgnoreNeed(e, prefix, es, GITIGNORE), IgnoreNeed(e, prefix, es, IGNORE));
            var v := EnterAt(w, e, s, now, prefix);
            && v.fault.None? && BehindView(w, v.view, v.view) && v.view.input == s.input
            && v.view.policyBytes == s.policyBytes + n.bytes && v.view.policyLines == s.policyLines + n.lines
            && |v.view.observations| <= |s.observations| + n.records
  {
    hide LoadAt, MirrorsEntries, ShowsPolicy, BehindView, Capture.Frozen, FolderRules, Declared, DeclaredLines;
    UsableRules(e, prefix, es);
    LoadGoes(w, e, s, now, prefix, es, GITIGNORE);
    var one := LoadAt(w, e, s, now, prefix, GITIGNORE);
    LoadGoes(w, e, one.view, one.now, prefix, es, IGNORE);
    var two := LoadAt(w, e, one.view, one.now, prefix, IGNORE);
    var rules := two.view.rules[prefix := Rules(one.outcome.value, two.outcome.value)];
    BehindIgnoresRules(w, two.view, two.view, rules, rules);
  }

  // ---- The walk ---------------------------------------------------------------------------------------------

  lemma {:induction false} WalkGoes(j: Job, s: State, fd: Ino, prefix: Path, es: seq<Entry>, depth: nat, up: seq<Level>)
    requires JobOk(j) && j.r.read.None? && Capture.Frozen(j.w) && Ready(j, s)
    requires MirrorsFolder(j.w, fd, prefix, es) && Above(s.scope, prefix, up)
    requires FolderNeed(j.e, j.r, prefix, es, up, depth).Some?
    requires Room(j, s, FolderNeed(j.e, j.r, prefix, es, up, depth).value, AllHits(j.e, j.r, FolderPlan(KnobsOf(j), prefix, es, up).sources))
    ensures Goes(j, s, WalkAt(j, s, fd, prefix, depth), FolderNeed(j.e, j.r, prefix, es, up, depth).value,
                 AllHits(j.e, j.r, FolderPlan(KnobsOf(j), prefix, es, up).sources))
    decreases es, 3
  {
    hide Validate, Sound, EnterAt, EntriesAt, BehindView, InForce, Above, EntriesPlan, FolderPlan, MirrorsEntries,
      ShowsPolicy, AllHits, EntriesNeed, FolderRules, IgnoreNeed, Weight;
    FrozenNeverFails(j.w, s.now, EnterAt(j.w, j.e, s.scope, s.now + 1, prefix).now);
    var n := EnterAt(j.w, j.e, s.scope, s.now + 1, prefix);
    var hits := AllHits(j.e, j.r, FolderPlan(KnobsOf(j), prefix, es, up).sources);
    var own := if j.r.scope.respectIgnore then Plus(IgnoreNeed(j.e, prefix, es, GITIGNORE), IgnoreNeed(j.e, prefix, es, IGNORE)) else NO_NEED;
    if j.r.scope.respectIgnore {
      EnterGoes(j.w, j.e, s.scope, s.now + 1, prefix, es);
      NoVisits(j.e, prefix, es);
    } else {
      hide FolderRules;
      NothingEntered(j, s, prefix);
    }
    var chain := EnteredChain(j, s, prefix, es, up);
    var t := AfterEnter(j, s, prefix);
    assert j.w.listing(n.now, fd) == Names(es);
    var rest := EntriesNeed(j.e, j.r, prefix, es, chain, depth);
    PlusNothing(FolderNeed(j.e, j.r, prefix, es, up, depth), own, rest);
    EntriesGo(j, t, prefix, es, depth, chain);
  }

  lemma NoVisits(e: Engine, prefix: Path, es: seq<Entry>)
    ensures IgnoreNeed(e, prefix, es, GITIGNORE).visits == 0 && IgnoreNeed(e, prefix, es, IGNORE).visits == 0
  {
  }

  lemma NothingEntered(j: Job, s: State, prefix: Path)
    requires !s.scope.input.respectIgnore
    ensures EnterAt(j.w, j.e, s.scope, s.now + 1, prefix) == Entered(s.scope, s.now + 1, None)
  {
  }

  lemma PlusNothing(whole: Option<Need>, own: Need, rest: Option<Need>)
    requires whole.Some? && (whole == Both(Some(own), rest) || (own == NO_NEED && whole == rest))
    ensures rest.Some? && whole.value == Plus(own, rest.value)
  {
  }

  lemma {:induction false} EntriesGo(j: Job, s: State, prefix: Path, es: seq<Entry>, depth: nat, chain: seq<Level>)
    requires JobOk(j) && j.r.read.None? && Capture.Frozen(j.w) && Ready(j, s) && depth <= j.r.maxDepth
    requires MirrorsEntries(j.w, prefix, es) && InForce(s.scope, prefix, chain)
    requires EntriesNeed(j.e, j.r, prefix, es, chain, depth).Some?
    requires Room(j, s, EntriesNeed(j.e, j.r, prefix, es, chain, depth).value, AllHits(j.e, j.r, EntriesPlan(KnobsOf(j), prefix, es, chain).sources))
    ensures Goes(j, s, EntriesAt(j, s, Names(es), prefix, depth), EntriesNeed(j.e, j.r, prefix, es, chain, depth).value,
                 AllHits(j.e, j.r, EntriesPlan(KnobsOf(j), prefix, es, chain).sources))
    decreases es, 2
  {
    hide Validate, Sound, EntryAt, BehindView, InForce, EntryPlan, AllHits, EntryNeed, Room, Spent, Capture.Frozen,
      MirrorsEntry, Grows, Weight;
    if |es| == 0 {
      NothingSpent(j, s);
      NoSourcesNoHits(j);
    } else {
      var k := KnobsOf(j);
      var p, q := EntryPlan(k, prefix, es[0], chain), EntriesPlan(k, prefix, es[1..], chain);
      var f, g := AllHits(j.e, j.r, p.sources), AllHits(j.e, j.r, q.sources);
      var m, n := EntryNeed(j.e, j.r, prefix, es[0], chain, depth).value, EntriesNeed(j.e, j.r, prefix, es[1..], chain, depth).value;
      AllHitsConcat(j.e, j.r, p.sources, q.sources);
      RoomSplits(j, s, m, n, f, g);
      EntryGoes(j, s, prefix, es[0], depth, chain);
      var r := EntryAt(j, s, es[0].name, prefix, depth);
      EntryGrows(j, s, es[0].name, prefix, depth);
      InForceKept(s.scope, r.state.scope, prefix, chain);
      NamesTail(es);
      EntriesGo(j, r.state, prefix, es[1..], depth, chain);
      SpentChain(j, s, r.state, EntriesAt(j, r.state, Names(es[1..]), prefix, depth).state, m, n, f, g);
    }
  }

  lemma NothingSpent(j: Job, s: State)
    ensures Spent(j, s, s, NO_NEED, [])
  {
    assert s.matches + [] == s.matches;
  }

  lemma NoSourcesNoHits(j: Job)
    requires Sound(j.e)
    ensures AllHits(j.e, j.r, []) == []
  {
  }

  lemma {:induction false} EntryGoes(j: Job, s: State, prefix: Path, entry: Entry, depth: nat, chain: seq<Level>)
    requires JobOk(j) && j.r.read.None? && Capture.Frozen(j.w) && Ready(j, s) && depth <= j.r.maxDepth
    requires MirrorsEntry(j.w, prefix, entry) && InForce(s.scope, prefix, chain)
    requires EntryNeed(j.e, j.r, prefix, entry, chain, depth).Some?
    requires Room(j, s, EntryNeed(j.e, j.r, prefix, entry, chain, depth).value, AllHits(j.e, j.r, EntryPlan(KnobsOf(j), prefix, entry, chain).sources))
    ensures Goes(j, s, EntryAt(j, s, entry.name, prefix, depth), EntryNeed(j.e, j.r, prefix, entry, chain, depth).value,
                 AllHits(j.e, j.r, EntryPlan(KnobsOf(j), prefix, entry, chain).sources))
    decreases entry, 1
  {
    hide Validate, Sound, BehindView, InForce, AllHits, Capture.Frozen, MirrorsEntry, Weight, Verdict, Nameable,
      EntryAt, EntryPlan, EntryNeed, IsDots, Goes, Room, Ready;
    if IsDots(entry.name) || !Nameable(j.r.scope, prefix, entry.name) {
      RefusedGoes(j, s, prefix, entry, depth, chain);
    } else {
      OneVisitAtLeast(j, prefix, entry, chain, depth);
      RoomToVisit(j, s, EntryNeed(j.e, j.r, prefix, entry, chain, depth).value, AllHits(j.e, j.r, EntryPlan(KnobsOf(j), prefix, entry, chain).sources));
      ClassifiedAs(j, s, prefix, entry, depth, chain);
      if !Verdict(j.e, j.r.scope, chain, Child(prefix, entry.name), entry.node.Folder?) || entry.node.Other? {
        ExcludedGoes(j, s, prefix, entry, depth, chain);
      } else if entry.node.File? {
        FileEntryGoes(j, s, prefix, entry, depth, chain);
      } else {
        FolderEntryGoes(j, s, prefix, entry, depth, chain);
      }
    }
  }

  /** The entry is refused by its name alone. */
  lemma RefusedGoes(j: Job, s: State, prefix: Path, entry: Entry, depth: nat, chain: seq<Level>)
    requires JobOk(j) && j.r.read.None? && Capture.Frozen(j.w) && Ready(j, s) && depth <= j.r.maxDepth
    requires IsDots(entry.name) || !Nameable(j.r.scope, prefix, entry.name)
    requires EntryNeed(j.e, j.r, prefix, entry, chain, depth).Some?
    requires Room(j, s, EntryNeed(j.e, j.r, prefix, entry, chain, depth).value, AllHits(j.e, j.r, EntryPlan(KnobsOf(j), prefix, entry, chain).sources))
    ensures Goes(j, s, EntryAt(j, s, entry.name, prefix, depth), EntryNeed(j.e, j.r, prefix, entry, chain, depth).value,
                 AllHits(j.e, j.r, EntryPlan(KnobsOf(j), prefix, entry, chain).sources))
  {
    hide Validate, Sound, BehindView, Weight, Verdict, Child, ValidPath, ExcludedPath, Utf8.Valid, IsDots, Classify,
      NodePlan;
    NoSourcesNoHits(j);
    WeightNil(j.e);
    FrozenNeverFails(j.w, s.now, s.now + 1);
    assert EntryPlan(KnobsOf(j), prefix, entry, chain) == NOTHING;
    assert EntryAt(j, s, entry.name, prefix, depth) == Dispatch(j, Admit(j, s, prefix, entry.name), depth);
    hide AllHits;
    assert s.matches + [] == s.matches;
  }

  /** How an entry with an acceptable name goes on. */
  lemma ClassifiedAs(j: Job, s: State, prefix: Path, entry: Entry, depth: nat, chain: seq<Level>)
    requires JobOk(j) && j.r.read.None? && Capture.Frozen(j.w) && depth <= j.r.maxDepth
    requires s.scope.input == j.r.scope && s.counts.visited != j.r.maxEntries
    requires MirrorsEntry(j.w, prefix, entry) && InForce(s.scope, prefix, chain)
    requires !IsDots(entry.name) && Nameable(j.r.scope, prefix, entry.name)
    ensures var path := Child(prefix, entry.name);
            && j.w.resolve(0, path).Some?
            && EntryAt(j, s, entry.name, prefix, depth)
               == Dispatch(j, Outcome(Visit(s.(now := s.now + 2)), path, entry.node, j.w.resolve(0, path).value,
                                      Verdict(j.e, j.r.scope, chain, path, entry.node.Folder?)), depth)
  {
    hide Validate, Sound, Verdict, Child, ValidPath, ExcludedPath, Utf8.Valid, IsDots, Classify, MirrorsEntry,
      InForce, WalkAt, SearchFileAt, Outcome, Dispatch, Capture.Frozen;
    var t := Visit(s.(now := s.now + 2));
    FrozenNeverFails(j.w, s.now, s.now + 1);
    FrozenClassify(j, t, prefix, entry, chain);
    assert Admit(j, s, prefix, entry.name) == Classify(j, t, Child(prefix, entry.name));
  }

  /** An entry the tree excludes is visited and nothing more. */
  lemma ExcludedGoes(j: Job, s: State, prefix: Path, entry: Entry, depth: nat, chain: seq<Level>)
    requires JobOk(j) && j.r.read.None? && Ready(j, s) && depth <= j.r.maxDepth
    requires !IsDots(entry.name) && Nameable(j.r.scope, prefix, entry.name)
    requires !Verdict(j.e, j.r.scope, chain, Child(prefix, entry.name), entry.node.Folder?) || entry.node.Other?
    requires var path := Child(prefix, entry.name);
             && j.w.resolve(0, path).Some?
             && EntryAt(j, s, entry.name, prefix, depth)
                == Dispatch(j, Outcome(Visit(s.(now := s.now + 2)), path, entry.node, j.w.resolve(0, path).value,
                                       Verdict(j.e, j.r.scope, chain, path, entry.node.Folder?)), depth)
    ensures EntryNeed(j.e, j.r, prefix, entry, chain, depth) == Some(ONE_VISIT)
    ensures Goes(j, s, EntryAt(j, s, entry.name, prefix, depth), ONE_VISIT, AllHits(j.e, j.r, EntryPlan(KnobsOf(j), prefix, entry, chain).sources))
  {
    hide Validate, Sound, BehindView, Verdict, Child, Nameable, IsDots, FolderNeed, FolderPlan, WalkAt, SearchFileAt,
      EntryAt, Spent, Weight, AllHits, Readable;
    NoSourcesNoHits(j);
    assert EntryPlan(KnobsOf(j), prefix, entry, chain) == NOTHING;
    var u := Exclude(Visit(s.(now := s.now + 4)));
    assert EntryAt(j, s, entry.name, prefix, depth) == Step(u, None);
    OneVisitSpent(j, s, u);
  }

  lemma RoomToVisit(j: Job, s: State, n: Need, hits: seq<Hit>)
    requires Room(j, s, n, hits) && n.visits >= 1 && Ready(j, s)
    ensures s.counts.visited != j.r.maxEntries && s.scope.input == j.r.scope
  {
    hide BehindView, Weight;
  }

  lemma OneVisitAtLeast(j: Job, prefix: Path, entry: Entry, chain: seq<Level>, depth: nat)
    requires !IsDots(entry.name) && EntryNeed(j.e, j.r, prefix, entry, chain, depth).Some?
    ensures EntryNeed(j.e, j.r, prefix, entry, chain, depth).value.visits >= 1
  {
    hide Verdict, Nameable, FolderNeed, Readable, Capture.Offered, IsDots, Child;
  }

  lemma FileEntryGoes(j: Job, s: State, prefix: Path, entry: Entry, depth: nat, chain: seq<Level>)
    requires JobOk(j) && j.r.read.None? && Capture.Frozen(j.w) && Ready(j, s) && depth <= j.r.maxDepth
    requires MirrorsEntry(j.w, prefix, entry) && entry.node.File?
    requires !IsDots(entry.name) && Nameable(j.r.scope, prefix, entry.name)
    requires Verdict(j.e, j.r.scope, chain, Child(prefix, entry.name), false)
    requires EntryNeed(j.e, j.r, prefix, entry, chain, depth).Some?
    requires Room(j, s, EntryNeed(j.e, j.r, prefix, entry, chain, depth).value, AllHits(j.e, j.r, EntryPlan(KnobsOf(j), prefix, entry, chain).sources))
    requires var path := Child(prefix, entry.name);
             && j.w.resolve(0, path).Some?
             && EntryAt(j, s, entry.name, prefix, depth)
                == Dispatch(j, Outcome(Visit(s.(now := s.now + 2)), path, entry.node, j.w.resolve(0, path).value, true), depth)
    ensures Goes(j, s, EntryAt(j, s, entry.name, prefix, depth), EntryNeed(j.e, j.r, prefix, entry, chain, depth).value,
                 AllHits(j.e, j.r, EntryPlan(KnobsOf(j), prefix, entry, chain).sources))
  {
    hide Validate, Sound, Verdict, Nameable, Child, IsDots, SearchFileAt, Goes, Room, Ready, Readable, SourceHits,
      MirrorsEntry, Capture.Frozen, EntryAt, Capture.Textual;
    var path := Child(prefix, entry.name);
    var content := entry.node.content;
    MirrorsUnfold(j.w, prefix, entry);
    NoSourcesNoHits(j);
    SingleSource(j, Source(path, content));
    assert EntryNeed(j.e, j.r, prefix, entry, chain, depth) == Some(ONE_VISIT);
    assert EntryPlan(KnobsOf(j), prefix, entry, chain)
        == if Capture.Offered(content, j.r.maxFileBytes).Some? then Plan([Source(path, content)], 0) else NOTHING;
    FileGoes(j, s, Visit(s.(now := s.now + 2)).(now := s.now + 4), j.w.resolve(0, path).value, path, content);
  }

  lemma {:induction false} FolderEntryGoes(j: Job, s: State, prefix: Path, entry: Entry, depth: nat, chain: seq<Level>)
    requires JobOk(j) && j.r.read.None? && Capture.Frozen(j.w) && Ready(j, s) && depth <= j.r.maxDepth
    requires MirrorsEntry(j.w, prefix, entry) && InForce(s.scope, prefix, chain) && entry.node.Folder?
    requires !IsDots(entry.name) && Nameable(j.r.scope, prefix, entry.name)
    requires Verdict(j.e, j.r.scope, chain, Child(prefix, entry.name), true)
    requires EntryNeed(j.e, j.r, prefix, entry, chain, depth).Some?
    requires Room(j, s, EntryNeed(j.e, j.r, prefix, entry, chain, depth).value, AllHits(j.e, j.r, EntryPlan(KnobsOf(j), prefix, entry, chain).sources))
    requires var path := Child(prefix, entry.name);
             && j.w.resolve(0, path).Some?
             && EntryAt(j, s, entry.name, prefix, depth)
                == Dispatch(j, Outcome(Visit(s.(now := s.now + 2)), path, entry.node, j.w.resolve(0, path).value, true), depth)
    ensures Goes(j, s, EntryAt(j, s, entry.name, prefix, depth), EntryNeed(j.e, j.r, prefix, entry, chain, depth).value,
                 AllHits(j.e, j.r, EntryPlan(KnobsOf(j), prefix, entry, chain).sources))
    decreases entry, 0
  {
    hide Validate, Sound, Verdict, Nameable, Child, IsDots, WalkAt, Room, Spent, BehindView, MirrorsEntry,
      Capture.Frozen, EntryAt, FolderNeed, FolderPlan, AllHits, Linked, Agrees, MirrorsFolder;
    var path := Child(prefix, entry.name);
    var es := entry.node.entries;
    var fd := j.w.resolve(0, path).value;
    MirrorsUnfold(j.w, prefix, entry);
    NotRoot(j.r.scope, prefix, entry.name);
    ParentOfChild(prefix, entry.name);
    var plan := FolderPlan(KnobsOf(j), path, es, chain);
    var hits := AllHits(j.e, j.r, plan.sources);
    var need := FolderNeed(j.e, j.r, path, es, chain, depth + 1);
    assert [] + plan.sources == plan.sources;
    assert EntryPlan(KnobsOf(j), prefix, entry, chain) == Join(Plan([], 1), plan);
    assert EntryNeed(j.e, j.r, prefix, entry, chain, depth) == Both(Some(ONE_VISIT), need);
    assert [] + hits == hits;
    RoomSplits(j, s, ONE_VISIT, need.value, [], hits);
    var u := Visit(s.(now := s.now + 2)).(now := s.now + 4);
    OneVisitSpent(j, s, u);
    WalkGoes(j, u, fd, path, es, depth + 1, chain);
    SpentChain(j, s, u, WalkAt(j, u, fd, path, depth + 1).state, ONE_VISIT, need.value, [], hits);
  }

  lemma NotRoot(input: ScopeInput, prefix: Path, name: Name)
    requires Nameable(input, prefix, name)
    ensures Child(prefix, name) != []
  {
    hide Utf8.Valid, ExcludedPath, Split;
  }

  lemma OneVisitSpent(j: Job, s: State, u: State)
    requires u == s.(now := u.now, counts := u.counts) && u.counts.visited == s.counts.visited + 1
    ensures Spent(j, s, u, ONE_VISIT, [])
  {
    assert s.matches + [] == s.matches;
  }

  // ---- The search ---------------------------------------------------------------------------------------------

  /**
   In a frozen file system that mirrors the tree, when the tree's needs fit the limits, the search is complete, and so
   returns exactly the tree's qualifying matches.
   */
  lemma SearchCompletes(j: Job, fd: Ino, es: seq<Entry>)
    requires JobOk(j) && j.r.read.None? && !j.r.validateScopeOnly && j.e.patternOk(j.r) && ScopeAcceptable(j.e, j.r.scope)
    requires Capture.Frozen(j.w) && MirrorsFolder(j.w, fd, [], es)
    requires FolderNeed(j.e, j.r, [], es, [], 0).Some?
    requires Room(j, Initial(j.r), FolderNeed(j.e, j.r, [], es, [], 0).value, AllHits(j.e, j.r, FolderPlan(KnobsOf(j), [], es, []).sources))
    ensures SearchAt(j, fd).Ok? && SearchAt(j, fd).value.complete
    ensures SearchAt(j, fd).value.matches == AllHits(j.e, j.r, FolderPlan(KnobsOf(j), [], es, []).sources)
  {
    hide Sound, Capture.Frozen, MirrorsFolder, WalkAt, FolderNeed, FolderPlan, AllHits, Room, Spent, ScopeAcceptable,
      BoundsAcceptable, Above, Preimage, Digest;
    StartsReady(j);
    InitialInv(j);
    WalkKeeps(j, Initial(j.r), fd, [], 0);
    WalkGoes(j, Initial(j.r), fd, [], es, 0, []);
    var r := WalkAt(j, Initial(j.r), fd, [], 0);
    hide HitAccepted, Vouched, Weight;
    SpentReasons(j, Initial(j.r), r.state, FolderNeed(j.e, j.r, [], es, [], 0).value, AllHits(j.e, j.r, FolderPlan(KnobsOf(j), [], es, []).sources));
    Reads.LastingVerifies(j.w, r.state.scope.observations, r.state.now);
  }

  lemma SpentReasons(j: Job, s: State, t: State, n: Need, hits: seq<Hit>)
    requires Spent(j, s, t, n, hits)
    ensures t.reasons == s.reasons && t.matches == s.matches + hits
  {
  }

  lemma StartsReady(j: Job)
    ensures Ready(j, Initial(j.r)) && Above(Initial(j.r).scope, [], [])
  {
    hide PolicyAt;
  }
}
