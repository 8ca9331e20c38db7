/** On a static tree, a search finds what the tree says it should, or says that it did not. */
module Refinement {
  import opened Basics
  import opened Paths
  import opened World
  import opened Protocol
  import opened Engines
  import opened Scoping
  import opened Searching
  import opened SearchInvariants
  import opened ScopeInvariants
  import opened Trees
  import opened Responses
  import Utf8
  import Capture

  function KnobsOf(j: Job): Knobs { Knobs(j.e, j.r.scope, j.r.maxFileBytes) }

  // ---- Ignore files -------------------------------------------------------------------------

  lemma {:induction false} FindMirrors(w: World, path: Path, es: seq<Entry>, name: Name)
    requires MirrorsEntries(w, path, es) && !IsDots(name) && Find(es, name).Some?
    ensures var at := w.resolve(0, Child(path, name));
            at.Some? && (forall t: nat :: w.resolve(t, Child(path, name)) == at)
            && MirrorsNode(w, at.value, Child(path, name), Find(es, name).value)
    decreases |es|
  {
    if es[0].name != name {
      FindMirrors(w, path, es[1..], name);
    }
  }

  /** Reading an ignore file yields what the tree declares, or a fault. */
  lemma PolicyMirrors(w: World, now: nat, path: Path, es: seq<Entry>, name: Name)
    requires MirrorsEntries(w, path, es) && ShowsPolicy(w, path, es, name) && !IsDots(name)
    requires PolicyAt(w, now, Child(path, name)).outcome.Ok?
    ensures Declared(es, name) == Some(PolicyAt(w, now, Child(path, name)).outcome.value)
  {
    hide Capture.CaptureAt, Capture.Textual;
    if Find(es, name).Some? {
      FindMirrors(w, path, es, name);
      var fd := w.resolve(0, Child(path, name)).value;
      assert w.resolve(now + 1, Child(path, name)) == Some(fd);
      match Find(es, name).value
      case File(content) => Capture.CaptureOfStatic(w, now + 2, fd, POLICY_FILE_BYTES, content);
      case Folder(_) => Capture.CaptureOfOther(w, now + 2, fd, POLICY_FILE_BYTES);
      case Other => Capture.CaptureOfOther(w, now + 2, fd, POLICY_FILE_BYTES);
    }
  }

  lemma {:induction false} LinesAccepted(w: World, e: Engine, count: nat, now: nat, lines: seq<bytes>)
    requires AddLines(w, e, count, now, lines).fault.None?
    ensures forall l :: l in lines ==> e.lineOk(l)
    decreases |lines|
  {
    if |lines| > 0 {
      LinesAccepted(w, e, count + 1, now + 1, lines[1..]);
      assert lines == [lines[0]] + lines[1..];
    }
  }

  lemma LoadMirrors(w: World, e: Engine, s: View, now: nat, path: Path, es: seq<Entry>, name: Name)
    requires MirrorsEntries(w, path, es) && ShowsPolicy(w, path, es, name) && !IsDots(name)
    ensures var l := LoadAt(w, e, s, now, path, name);
            l.outcome.Ok? ==> DeclaredLines(e, path, es, name) == Some(l.outcome.value)
    ensures LoadAt(w, e, s, now, path, name).view.rules == s.rules && LoadAt(w, e, s, now, path, name).view.input == s.input
  {
    hide PolicyAt, AddLines, Declared, Observe, MirrorsEntries, ShowsPolicy;
    var c := PolicyAt(w, now, Child(path, name));
    if c.outcome.Ok? {
      PolicyMirrors(w, now, path, es, name);
      var lines := if c.outcome.value.Some? then e.lines(c.outcome.value.value) else [];
      if AddLines(w, e, s.policyLines, c.now, lines).fault.None? {
        LinesAccepted(w, e, s.policyLines, c.now, lines);
      }
    }
  }

  lemma EnterMirrors(w: World, e: Engine, s: View, now: nat, path: Path, es: seq<Entry>)
    requires s.input.respectIgnore
    requires MirrorsEntries(w, path, es) && ShowsPolicy(w, path, es, GITIGNORE) && ShowsPolicy(w, path, es, IGNORE)
    ensures var n := EnterAt(w, e, s, now, path);
            && (n.fault.None? ==> FolderRules(e, path, es).Some? && n.view.rules == s.rules[path := FolderRules(e, path, es).value])
            && (n.fault.Some? ==> n.view.rules == s.rules)
            && n.view.input == s.input
  {
    hide LoadAt, DeclaredLines, MirrorsEntries, ShowsPolicy;
    LoadMirrors(w, e, s, now, path, es, GITIGNORE);
    var one := LoadAt(w, e, s, now, path, GITIGNORE);
    LoadMirrors(w, e, one.view, one.now, path, es, IGNORE);
  }

  // ---- The rules map against the chain of ancestors ------------------------------------------

  /** Levels run from the root down, each the parent of the next. */
  ghost predicate Linked(chain: seq<Level>) {
    && (|chain| > 0 ==> chain[0].path == [])
    && (forall i :: 0 < i < |chain| ==> chain[i].path != [] && Parent(chain[i].path) == chain[i - 1].path)
  }

  ghost predicate Agrees(rules: map<Path, Rules>, chain: seq<Level>) {
    forall i :: 0 <= i < |chain| ==> chain[i].path in rules && rules[chain[i].path] == chain[i].rules
  }

  /** Looking rulings up through parent paths reads exactly the chain. */
  lemma {:induction false} RulingIsChain(e: Engine, rules: map<Path, Rules>, chain: seq<Level>, layer: Layer, path: Path, directory: bool)
    requires Linked(chain) && Agrees(rules, chain) && |chain| > 0
    ensures FindRuling(e, rules, layer, path, directory, chain[|chain| - 1].path) == ChainRuling(e, chain, layer, path, directory)
    decreases |chain|
  {
    var last := chain[|chain| - 1];
    if |chain| > 1 {
      var up := chain[..|chain| - 1];
      assert Linked(up) && Agrees(rules, up);
      RulingIsChain(e, rules, up, layer, path, directory);
    } else {
      assert chain[..0] == [];
    }
  }

  /** The chain describes the rules in force for entries of the directory `prefix`. */
  ghost predicate InForce(v: View, prefix: Path, chain: seq<Level>) {
    v.input.respectIgnore ==> |chain| > 0 && chain[|chain| - 1].path == prefix && Linked(chain) && Agrees(v.rules, chain)
  }

  /** The verdict the walk acts on is the pure verdict of the tree. */
  lemma VerdictIsPure(e: Engine, v: View, prefix: Path, chain: seq<Level>, name: Name, directory: bool)
    requires InForce(v, prefix, chain) && SlashFree(name)
    ensures AllowsIn(e, v, Child(prefix, name), directory) <==> Verdict(e, v.input, chain, Child(prefix, name), directory)
  {
    hide FindRuling, ChainRuling, ExplicitlyAllowed, Linked, Agrees;
    ParentOfChild(prefix, name);
    if v.input.respectIgnore {
      RulingIsChain(e, v.rules, chain, DotIgnore, Child(prefix, name), directory);
      RulingIsChain(e, v.rules, chain, GitIgnore, Child(prefix, name), directory);
    }
  }

  /** Levels of a chain are no longer than its end. */
  lemma {:induction false} LinkedLengths(chain: seq<Level>, i: nat)
    requires Linked(chain) && i < |chain|
    ensures |chain[i].path| <= |chain[|chain| - 1].path|
    decreases |chain| - i
  {
    if i + 1 < |chain| {
      LinkedLengths(chain, i + 1);
    }
  }

  lemma InForceKept(a: View, b: View, prefix: Path, chain: seq<Level>)
    requires InForce(a, prefix, chain) && Grows(a, b, |prefix| + 1)
    ensures InForce(b, prefix, chain)
  {
    hide Bounded;
    if a.input.respectIgnore {
      forall i | 0 <= i < |chain|
        ensures chain[i].path in b.rules && b.rules[chain[i].path] == chain[i].rules
      {
        LinkedLengths(chain, i);
      }
    }
  }

  /** Entering a directory extends the chain in force by that directory's level. */
  lemma InForceExtended(rules: map<Path, Rules>, prefix: Path, up: seq<Level>, r: Rules)
    requires Linked(up) && Agrees(rules, up)
    requires if |up| == 0 then prefix == [] else prefix != [] && Parent(prefix) == up[|up| - 1].path
    ensures Linked(up + [Level(prefix, r)]) && Agrees(rules[prefix := r], up + [Level(prefix, r)])
  {
    forall i | 0 <= i < |up|
      ensures up[i].path != prefix
    {
      LinkedLengths(up, i);
      assert |up[|up| - 1].path| < |prefix|;
    }
  }

  // ---- Matches --------------------------------------------------------------------------------

  /** What a step added, against what the tree plans. */
  ghost predicate Refines(j: Job, s: State, r: Step, p: Plan)
    requires Sound(j.e)
  {
    && s.matches <= r.state.matches
    && s.reasons <= r.state.reasons
    && Sub(r.state.matches[|s.matches|..], AllHits(j.e, j.r, p.sources))
    && (r.state.reasons == [] ==> r.state.matches[|s.matches|..] <= AllHits(j.e, j.r, p.sources))
    && (r.state.reasons == [] && r.fault.None? ==> Exactly(j, s, r.state, p))
  }

  ghost predicate Exactly(j: Job, s: State, t: State, p: Plan)
    requires Sound(j.e)
  {
    && t.matches == s.matches + AllHits(j.e, j.r, p.sources)
    && t.counts.searched == s.counts.searched + |p.sources|
    && t.counts.visited - s.counts.visited == |p.sources| + (t.counts.excluded - s.counts.excluded) + p.folders
  }

  lemma OneMore<T>(a: seq<T>, h: T, b: seq<T>, rest: seq<T>)
    requires a + [h] <= b && b[|a| + 1..] <= rest
    ensures a <= b && b[|a|..] <= [h] + rest
    ensures b == (a + [h]) + rest ==> b == a + ([h] + rest)
  {
    assert b[|a|..] == [h] + b[|a| + 1..];
  }

  lemma {:induction false} CollectRefines(j: Job, s: State, path: Path, digest: bytes, content: bytes, found: seq<Match>, ok: bool)
    requires forall m :: m in found ==> m.start <= m.end <= |content|
    ensures var r := Collect(j, s, path, digest, content, found, ok);
            && r.state.reasons == s.reasons && r.state.counts == s.counts && r.state.scope == s.scope
            && s.matches <= r.state.matches
            && r.state.matches[|s.matches|..] <= HitsOf(path, digest, content, found)
            && (r.fault.None? ==> r.state.matches == s.matches + HitsOf(path, digest, content, found))
    decreases |found|
  {
    hide HitOf, Phantom, Utf8.IsCharBoundary;
    if |found| > 0 && !j.w.expired(s.now) {
      var m := found[0];
      var t := s.(now := s.now + 1);
      var r := Collect(j, s, path, digest, content, found, ok);
      if Phantom(content, m) {
        CollectRefines(j, t, path, digest, content, found[1..], ok);
      } else if Utf8.IsCharBoundary(content, m.start) && Utf8.IsCharBoundary(content, m.end) && |s.matches| != j.r.maxMatches {
        var h := HitOf(path, digest, content, m);
        if s.used + j.e.hitSize(h) + 1 <= j.r.responseBytes {
          var u := Push(j, t, h);
          CollectRefines(j, u, path, digest, content, found[1..], ok);
          OneMore(s.matches, h, r.state.matches, HitsOf(path, digest, content, found[1..]));
        }
      }
    }
  }

  lemma SingleSource(j: Job, src: Source)
    requires Sound(j.e)
    ensures AllHits(j.e, j.r, [src]) == SourceHits(j.e, j.r, src)
  {
    hide SourceHits;
    assert [src][1..] == [];
    assert SourceHits(j.e, j.r, src) + [] == SourceHits(j.e, j.r, src);
  }

  lemma ExamineRefines(j: Job, s: State, path: Path, content: bytes)
    requires JobOk(j) && j.r.read.None?
    ensures var r := Examine(j, s, path, content);
            && r.state.reasons == s.reasons && s.matches <= r.state.matches
            && r.state.matches[|s.matches|..] <= SourceHits(j.e, j.r, Source(path, content))
            && (r.fault.None? ==>
                  r.state.matches == s.matches + SourceHits(j.e, j.r, Source(path, content))
                  && r.state.counts == s.counts.(searched := s.counts.searched + 1, bytesRead := s.counts.bytesRead + |content|))
  {
    hide Collect, Validate, HitsOf, Digest;
    if !j.w.expired(s.now) && content != [] {
      CollectRefines(j, Searched(s.(now := s.now + 1), content), path, Digest(j.e, content), content,
                     j.e.find(j.r, content).found, j.e.find(j.r, content).ok);
    }
  }

  lemma CaptureTwiceMirrors(j: Job, now: nat, fd: Ino, path: Path, content: bytes)
    requires Capture.StaticFile(j.w, fd, content)
    requires forall t: nat :: j.w.resolve(t, path) == Some(fd)
    ensures var o := CaptureTwice(j, now, fd, path).outcome;
            if o.Err? then Capture.CaptureFault(o.error) else o.value == Capture.Offered(content, j.r.maxFileBytes)
  {
    hide Capture.CaptureAt, Capture.Offered;
    Capture.CaptureOfStatic(j.w, now, fd, j.r.maxFileBytes, content);
    var first := Capture.CaptureAt(j.w, now, fd, j.r.maxFileBytes);
    Capture.CaptureOfStatic(j.w, first.now + 1, fd, j.r.maxFileBytes, content);
  }

  /** `t` is `s` with one more entry visited. */
  predicate Follows(s: State, t: State) {
    && t.matches == s.matches && t.reasons == s.reasons && t.scope == s.scope
    && t.counts == s.counts.(visited := s.counts.visited + 1)
  }

  lemma FileRefines(j: Job, s: State, t: State, fd: Ino, path: Path, content: bytes, chain: seq<Level>)
    requires JobOk(j) && j.r.read.None? && Follows(s, t)
    requires Capture.StaticFile(j.w, fd, content)
    requires forall n: nat :: j.w.resolve(n, path) == Some(fd)
    ensures Refines(j, s, SearchFileAt(j, t, fd, path), NodePlan(KnobsOf(j), path, File(content), chain))
  {
    hide CaptureTwice, Examine, Validate, SourceHits, Capture.Textual;
    CaptureTwiceMirrors(j, t.now, fd, path, content);
    SingleSource(j, Source(path, content));
    var c := CaptureTwice(j, t.now, fd, path);
    if c.outcome.Ok? && c.outcome.value.Some? {
      ExamineRefines(j, t.(now := c.now), path, content);
      SubPrefix(SearchFileAt(j, t, fd, path).state.matches[|s.matches|..], SourceHits(j.e, j.r, Source(path, content)));
    }
  }

  // ---- Composition ----------------------------------------------------------------------------

  lemma RefinesThen(j: Job, s: State, a: Step, b: Step, p: Plan, q: Plan)
    requires Sound(j.e) && a.fault.None?
    requires Refines(j, s, a, p) && Refines(j, a.state, b, q)
    ensures Refines(j, s, b, Join(p, q))
  {
    hide Sound, AllHits;
    AllHitsConcat(j.e, j.r, p.sources, q.sources);
    var n := |s.matches|;
    var first := a.state.matches[n..];
    var second := b.state.matches[|a.state.matches|..];
    assert b.state.matches[n..] == first + second;
    SubConcat(first, AllHits(j.e, j.r, p.sources), second, AllHits(j.e, j.r, q.sources));
    if b.state.reasons == [] {
      assert first == AllHits(j.e, j.r, p.sources);
    }
  }

  lemma RefinesStop(j: Job, s: State, a: Step, p: Plan, q: Plan)
    requires Sound(j.e) && a.fault.Some?
    requires Refines(j, s, a, p)
    ensures Refines(j, s, a, Join(p, q))
  {
    hide Sound, AllHits;
    AllHitsConcat(j.e, j.r, p.sources, q.sources);
    var delta := a.state.matches[|s.matches|..];
    SubConcat(delta, AllHits(j.e, j.r, p.sources), [], AllHits(j.e, j.r, q.sources));
    assert delta + [] == delta;
  }

  /** A step that adds no match, and whose counts say so unless it gives a reason. */
  lemma RefinesNothing(j: Job, s: State, r: Step, p: Plan)
    requires Sound(j.e)
    requires r.state.matches == s.matches && s.reasons <= r.state.reasons
    requires r.state.reasons != [] || r.fault.Some? || (p == NOTHING && Exactly(j, s, r.state, p))
    ensures Refines(j, s, r, p)
  {
    assert r.state.matches[|s.matches|..] == [];
  }

  lemma SettleRefines(j: Job, s: State, r: Step, p: Plan)
    requires Sound(j.e) && Refines(j, s, r, p)
    ensures Refines(j, s, Settle(r), p)
  {
    hide Sound, AllHits, Sub;
  }

  /** A walked subdirectory counts as one visit of its own. */
  lemma DescendRefines(j: Job, s: State, t: State, r: Step, p: Plan)
    requires Sound(j.e) && Follows(s, t) && Refines(j, t, r, p)
    ensures Refines(j, s, r, Join(Plan([], 1), p))
  {
    hide Sound, AllHits, Sub;
    assert [] + p.sources == p.sources;
  }

  // ---- The walk ---------------------------------------------------------------------------------

  /** A mirrored entry is classified as the tree classifies it, unless resolving it fails. */
  lemma ClassifyRefines(j: Job, s: State, t: State, prefix: Path, entry: Entry, chain: seq<Level>)
    requires JobOk(j) && Follows(s, t) && t.scope.input == j.r.scope
    requires MirrorsEntry(j.w, prefix, entry) && !IsDots(entry.name) && InForce(t.scope, prefix, chain)
    requires Nameable(j.r.scope, prefix, entry.name)
    ensures var path := Child(prefix, entry.name);
            var fd := j.w.resolve(0, path).value;
            match Classify(j, t, path)
            case Done(r) => Refines(j, s, r, EntryPlan(KnobsOf(j), prefix, entry, chain)) && r.state.scope == s.scope
            case Descend(u, f, p) =>
              && f == fd && p == path && Follows(s, u) && entry.node.Folder?
              && EntryPlan(KnobsOf(j), prefix, entry, chain) == NodePlan(KnobsOf(j), path, entry.node, chain)
            case Inspect(u, f, p) =>
              && f == fd && p == path && Follows(s, u) && entry.node.File?
              && EntryPlan(KnobsOf(j), prefix, entry, chain) == NodePlan(KnobsOf(j), path, entry.node, chain)
  {
    hide Sound, Validate, AllowsIn, Verdict, InForce, Nameable, Child, FolderPlan, Refines;
    var path := Child(prefix, entry.name);
    assert AnchorAt(j.w, t.now, path) == if j.w.fails(t.now) then Err(ReadFailed) else Ok(j.w.resolve(0, path).value);
    VerdictIsPure(j.e, t.scope, prefix, chain, entry.name, entry.node.Folder?);
    KindMirrors(j.w, t.now + 1, prefix, entry);
    var k := KnobsOf(j);
    assert EntryPlan(k, prefix, entry, chain)
        == if Verdict(j.e, j.r.scope, chain, path, entry.node.Folder?) then NodePlan(k, path, entry.node, chain) else NOTHING;
    assert entry.node.Other? ==> NodePlan(k, path, entry.node, chain) == NOTHING;
    match Classify(j, t, path)
    case Done(r) => ExcludedRefines(j, s, t, r, prefix, entry, chain);
    case Descend(u, f, p) =>
    case Inspect(u, f, p) =>
  }

  lemma KindMirrors(w: World, now: nat, prefix: Path, entry: Entry)
    requires MirrorsEntry(w, prefix, entry) && !IsDots(entry.name)
    ensures w.inode(now, w.resolve(0, Child(prefix, entry.name)).value).stat.kind
         == match entry.node { case Folder(_) => Directory case File(_) => Regular case Other => Special }
  {
    hide Child, IsDots;
    var path := Child(prefix, entry.name);
    var fd := w.resolve(0, path).value;
    assert MirrorsNode(w, fd, path, entry.node);
    match entry.node
    case Folder(es) => assert MirrorsFolder(w, fd, path, es);
    case File(content) =>
    case Other =>
  }

  /** A final classification either gives a reason or excludes an entry the tree excludes too. */
  lemma ExcludedRefines(j: Job, s: State, t: State, r: Step, prefix: Path, entry: Entry, chain: seq<Level>)
    requires Sound(j.e) && Follows(s, t)
    requires r.fault.None? && r.state.matches == s.matches && s.reasons <= r.state.reasons
    requires r.state.reasons != [] || (EntryPlan(KnobsOf(j), prefix, entry, chain) == NOTHING && r.state.counts == Exclude(t).counts)
    ensures Refines(j, s, r, EntryPlan(KnobsOf(j), prefix, entry, chain))
  {
    hide Sound, EntryPlan;
    RefinesNothing(j, s, r, EntryPlan(KnobsOf(j), prefix, entry, chain));
  }

  /** Refinement of one entry, given refinement of the directory it may descend into. */
  lemma {:induction false} EntryRefines(j: Job, s: State, prefix: Path, entry: Entry, depth: nat, chain: seq<Level>)
    requires JobOk(j) && j.r.read.None? && depth <= j.r.maxDepth && s.scope.input == j.r.scope
    requires MirrorsEntry(j.w, prefix, entry) && InForce(s.scope, prefix, chain)
    ensures Refines(j, s, EntryAt(j, s, entry.name, prefix, depth), EntryPlan(KnobsOf(j), prefix, entry, chain))
    decreases entry, 1
  {
    hide Sound, Validate, InForce, Refines, Classify, EntryPlan, NodePlan, FolderPlan, SearchFileAt, WalkAt,
      MirrorsEntry, MirrorsNode;
    var k := KnobsOf(j);
    var path := Child(prefix, entry.name);
    if AdmittedByName(j, s, prefix, entry.name) {
      var t := Visit(s.(now := s.now + 2));
      ClassifyRefines(j, s, t, prefix, entry, chain);
      assert Admit(j, s, prefix, entry.name) == Classify(j, t, path);
      MirrorsUnfold(j.w, prefix, entry);
      var fd := j.w.resolve(0, path).value;
      match Classify(j, t, path)
      case Done(r) =>
      case Inspect(u, f, p) =>
        FileRefines(j, s, u, fd, path, entry.node.content, chain);
      case Descend(u, f, p) =>
        DescendTo(j, s, u, fd, path, entry.node, depth, chain, prefix, entry.name);
    } else {
      RefusedByName(j, s, prefix, entry, depth, chain);
    }
  }

  lemma MirrorsUnfold(w: World, prefix: Path, entry: Entry)
    requires MirrorsEntry(w, prefix, entry) && !IsDots(entry.name)
    ensures var path := Child(prefix, entry.name);
            && SlashFree(entry.name)
            && w.resolve(0, path).Some?
            && (forall n: nat :: w.resolve(n, path) == Some(w.resolve(0, path).value))
            && MirrorsNode(w, w.resolve(0, path).value, path, entry.node)
            && (entry.node.File? ==> Capture.StaticFile(w, w.resolve(0, path).value, entry.node.content))
  {
    hide Child, IsDots;
  }

  /** The name-level tests of the walk all pass. */
  predicate AdmittedByName(j: Job, s: State, prefix: Path, name: Name) {
    && !j.w.expired(s.now) && !j.w.fails(s.now + 1)
    && s.counts.visited != j.r.maxEntries
    && Nameable(j.r.scope, prefix, name)
  }

  lemma RefusedByName(j: Job, s: State, prefix: Path, entry: Entry, depth: nat, chain: seq<Level>)
    requires JobOk(j) && j.r.read.None? && depth <= j.r.maxDepth
    requires !AdmittedByName(j, s, prefix, entry.name)
    ensures Refines(j, s, EntryAt(j, s, entry.name, prefix, depth), EntryPlan(KnobsOf(j), prefix, entry, chain))
  {
    hide Sound, Validate, ValidPath, ExcludedPath, Utf8.Valid, IsDots, Verdict, Refines, Classify, NodePlan, WalkAt,
      SearchFileAt;
    var r := EntryAt(j, s, entry.name, prefix, depth);
    assert r == Dispatch(j, Admit(j, s, prefix, entry.name), depth);
    if !Nameable(j.r.scope, prefix, entry.name) {
      assert EntryPlan(KnobsOf(j), prefix, entry, chain) == NOTHING;
    }
    RefinesNothing(j, s, r, EntryPlan(KnobsOf(j), prefix, entry, chain));
  }

  lemma {:induction false} DescendTo(j: Job, s: State, u: State, fd: Ino, path: Path, node: Node, depth: nat, chain: seq<Level>, prefix: Path, name: Name)
    requires JobOk(j) && j.r.read.None? && depth <= j.r.maxDepth && s.scope.input == j.r.scope
    requires Follows(s, u) && node.Folder? && MirrorsNode(j.w, fd, path, node)
    requires InForce(s.scope, prefix, chain) && path == Child(prefix, name) && SlashFree(name) && path != []
    ensures Refines(j, s, Settle(WalkAt(j, u, fd, path, depth + 1)), NodePlan(KnobsOf(j), path, node, chain))
    decreases node, 0
  {
    hide Sound, Validate, Refines, FolderPlan, WalkAt, Settle, Linked, Agrees, MirrorsFolder;
    ParentOfChild(prefix, name);
    WalkRefines(j, u, fd, path, node.entries, depth + 1, chain);
    var r := WalkAt(j, u, fd, path, depth + 1);
    var p := FolderPlan(KnobsOf(j), path, node.entries, chain);
    SettleRefines(j, u, r, p);
    DescendRefines(j, s, u, Settle(r), p);
  }

  /** The chain `up` describes the directories above `prefix`. */
  ghost predicate Above(v: View, prefix: Path, up: seq<Level>) {
    v.input.respectIgnore ==>
      && Linked(up) && Agrees(v.rules, up)
      && if |up| == 0 then prefix == [] else prefix != [] && Parent(prefix) == up[|up| - 1].path
  }

  lemma {:induction false} WalkRefines(j: Job, s: State, fd: Ino, prefix: Path, es: seq<Entry>, depth: nat, up: seq<Level>)
    requires JobOk(j) && j.r.read.None? && s.scope.input == j.r.scope
    requires MirrorsFolder(j.w, fd, prefix, es) && Above(s.scope, prefix, up)
    ensures Refines(j, s, WalkAt(j, s, fd, prefix, depth), FolderPlan(KnobsOf(j), prefix, es, up))
    decreases es, 3
  {
    hide Sound, Validate, Refines, EnterAt, EntriesAt, EntriesPlan, Linked, Agrees, FolderRules, MirrorsEntries,
      ShowsPolicy, IssueIn;
    var plan := FolderPlan(KnobsOf(j), prefix, es, up);
    var r := WalkAt(j, s, fd, prefix, depth);
    if j.w.expired(s.now) {
      RefinesNothing(j, s, r, plan);
    } else if depth > j.r.maxDepth {
      IssueShows(s.(now := s.now + 1), DepthLimit);
      RefinesNothing(j, s, r, plan);
    } else {
      var n := EnterAt(j.w, j.e, s.scope, s.now + 1, prefix);
      var t := s.(now := n.now + 1, scope := n.view);
      if n.fault.Some? || j.w.fails(n.now) {
        RefinesNothing(j, s, r, plan);
      } else {
        var chain := EnteredChain(j, s, prefix, es, up);
        EntriesRefine(j, t, prefix, es, depth, chain);
        assert j.w.listing(n.now, fd) == Names(es);
        RefinesFrom(j, s, t, r, plan);
      }
    }
  }

  lemma IssueShows(s: State, code: Code)
    ensures IssueIn(s, code).reasons != [] && s.reasons <= IssueIn(s, code).reasons && IssueIn(s, code).matches == s.matches
  {
  }

  /** The chain in force for the entries of a directory, given the chain above it. */
  function Deepened(k: Knobs, prefix: Path, es: seq<Entry>, up: seq<Level>): seq<Level> {
    if k.input.respectIgnore && FolderRules(k.e, prefix, es).Some? then up + [Level(prefix, FolderRules(k.e, prefix, es).value)] else up
  }

  /** Entering a mirrored directory puts its chain in force. */
  lemma EnteredChain(j: Job, s: State, prefix: Path, es: seq<Entry>, up: seq<Level>) returns (chain: seq<Level>)
    requires s.scope.input == j.r.scope && Above(s.scope, prefix, up)
    requires MirrorsEntries(j.w, prefix, es) && ShowsPolicy(j.w, prefix, es, GITIGNORE) && ShowsPolicy(j.w, prefix, es, IGNORE)
    requires EnterAt(j.w, j.e, s.scope, s.now + 1, prefix).fault.None?
    ensures var v := EnterAt(j.w, j.e, s.scope, s.now + 1, prefix).view;
            && v.input == j.r.scope && InForce(v, prefix, chain)
            && chain == Deepened(KnobsOf(j), prefix, es, up)
            && FolderPlan(KnobsOf(j), prefix, es, up) == EntriesPlan(KnobsOf(j), prefix, es, chain)
  {
    hide LoadAt, FolderRules, MirrorsEntries, ShowsPolicy, Linked, Agrees, EntriesPlan;
    chain := Deepened(KnobsOf(j), prefix, es, up);
    if j.r.scope.respectIgnore {
      EnterMirrors(j.w, j.e, s.scope, s.now + 1, prefix, es);
      InForceExtended(s.scope.rules, prefix, up, FolderRules(j.e, prefix, es).value);
    }
  }

  /** Refinement does not look at the clock or the scope. */
  lemma RefinesFrom(j: Job, s: State, t: State, r: Step, p: Plan)
    requires Sound(j.e) && Refines(j, t, r, p)
    requires t.matches == s.matches && t.reasons == s.reasons && t.counts == s.counts
    ensures Refines(j, s, r, p)
  {
    hide Sound, AllHits, Sub;
  }

  lemma {:induction false} EntriesRefine(j: Job, s: State, prefix: Path, es: seq<Entry>, depth: nat, chain: seq<Level>)
    requires JobOk(j) && j.r.read.None? && depth <= j.r.maxDepth && s.scope.input == j.r.scope
    requires MirrorsEntries(j.w, prefix, es) && InForce(s.scope, prefix, chain)
    ensures Refines(j, s, EntriesAt(j, s, Names(es), prefix, depth), EntriesPlan(KnobsOf(j), prefix, es, chain))
    decreases es, 2
  {
    hide Sound, Validate, Refines, EntryAt, EntryPlan, InForce, MirrorsEntry, Grows;
    var k := KnobsOf(j);
    if |es| == 0 {
      RefinesNothing(j, s, Step(s, None), NOTHING);
    } else {
      EntryRefines(j, s, prefix, es[0], depth, chain);
      var r := EntryAt(j, s, es[0].name, prefix, depth);
      var p, q := EntryPlan(k, prefix, es[0], chain), EntriesPlan(k, prefix, es[1..], chain);
      NamesTail(es);
      if r.fault.Some? {
        RefinesStop(j, s, r, p, q);
      } else {
        EntryGrows(j, s, es[0].name, prefix, depth);
        InForceKept(s.scope, r.state.scope, prefix, chain);
        GrowsInput(s.scope, r.state.scope, |prefix| + 1);
        EntriesRefine(j, r.state, prefix, es[1..], depth, chain);
        RefinesThen(j, s, r, EntriesAt(j, r.state, Names(es[1..]), prefix, depth), p, q);
      }
    }
  }

  lemma GrowsInput(a: View, b: View, n: nat)
    requires Grows(a, b, n)
    ensures b.input == a.input
  {
  }

  lemma NamesTail(es: seq<Entry>)
    requires |es| > 0
    ensures Names(es) == [es[0].name] + Names(es[1..]) && Names(es)[0] == es[0].name && Names(es)[1..] == Names(es[1..])
  {
  }

  // ---- The search -------------------------------------------------------------------------------

  /** Reasons that may leave gaps before later matches; every other reason stops the walk. */
  predicate Gapping(c: Code) { c == ReadFailed || c == SourceMutated || c == DepthLimit }

  lemma ReportKeepsReasons(j: Job, fd: Ino)
    requires Sound(j.e) && SearchAt(j, fd).Ok? && !j.r.validateScopeOnly
    ensures var walked := WalkAt(j, Initial(j.r), fd, [], 0);
            var s := SearchAt(j, fd).value;
            && (forall c :: c in walked.state.reasons ==> c in s.reasons && Gapping(c))
            && (walked.fault.Some? ==> s.reasons != [])
            && s.matches == walked.state.matches
            && (s.complete ==> s.counts == walked.state.counts)
  {
    hide Sound, HitAccepted, Weight, WalkAt, VerifyAt, Preimage, ScopeAcceptable, BoundsAcceptable;
    InitialInv(j);
    WalkKeeps(j, Initial(j.r), fd, [], 0);
    SearchReports(j, fd);
    ConcludeTruth(j, Reported(j, fd));
  }

  /**
   A search of a static tree reports complete coverage only with exactly the tree's qualifying matches, in
   traversal order; otherwise it reports a subsequence of them, and a prefix unless a reason admits gaps.
   */
  lemma SearchRefines(j: Job, fd: Ino, es: seq<Entry>)
    requires Sound(j.e) && j.r.read.None? && !j.r.validateScopeOnly
    requires MirrorsFolder(j.w, fd, [], es)
    requires SearchAt(j, fd).Ok?
    ensures var s := SearchAt(j, fd).value;
            var plan := FolderPlan(KnobsOf(j), [], es, []);
            var want := AllHits(j.e, j.r, plan.sources);
            && (s.complete ==>
                  && s.matches == want
                  && s.counts.searched == |plan.sources|
                  && s.counts.visited == s.counts.searched + s.counts.excluded + plan.folders)
            && Sub(s.matches, want)
            && ((forall c :: c in s.reasons ==> !Gapping(c)) ==> s.matches <= want)
  {
    hide Sound, WalkAt, AllHits, FolderPlan, MirrorsFolder, Conclude, ScopeAcceptable, BoundsAcceptable, Sub, Absorb;
    SuccessIsTruthful(j, fd);
    hide Truthful;
    ReportKeepsReasons(j, fd);
    WalkRefines(j, Initial(j.r), fd, [], es, 0, []);
    var walked := WalkAt(j, Initial(j.r), fd, [], 0);
    assert walked.state.matches[0..] == walked.state.matches;
    HeadIsMember(walked.state.reasons);
  }
}
