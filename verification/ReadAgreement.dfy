/** A read follows the walk of a search under the same terms, and meets exactly the files that search covered. */
module ReadAgreement {
  import opened Basics
  import opened Paths
  import opened World
  import opened Protocol
  import opened Engines
  import opened Scoping
  import opened Searching
  import opened SearchInvariants
  import opened ScopeInvariants
  import opened Acceptance
  import opened Trees
  import opened Refinement
  import opened Responses
  import Utf8
  import Capture
  import Ordered

  // ---- Where planned sources lie ----------------------------------------------------------------

  lemma {:induction false} FolderPlanUnder(k: Knobs, prefix: Path, es: seq<Entry>, chain: seq<Level>, src: Source)
    requires src in FolderPlan(k, prefix, es, chain).sources
    ensures exists i :: 0 <= i < |es| && Relevant(Child(prefix, es[i].name), src.path)
    decreases es, 3
  {
    if !k.input.respectIgnore {
      EntriesPlanUnder(k, prefix, es, chain, src);
    } else {
      EntriesPlanUnder(k, prefix, es, chain + [Level(prefix, FolderRules(k.e, prefix, es).value)], src);
    }
  }

  lemma {:induction false} EntriesPlanUnder(k: Knobs, prefix: Path, es: seq<Entry>, chain: seq<Level>, src: Source)
    requires src in EntriesPlan(k, prefix, es, chain).sources
    ensures exists i :: 0 <= i < |es| && Relevant(Child(prefix, es[i].name), src.path)
    decreases es, 2
  {
    hide EntryPlan, Relevant;
    if src in EntryPlan(k, prefix, es[0], chain).sources {
      EntryPlanUnder(k, prefix, es[0], chain, src);
    } else {
      EntriesPlanUnder(k, prefix, es[1..], chain, src);
      var i :| 0 <= i < |es[1..]| && Relevant(Child(prefix, es[1..][i].name), src.path);
      assert es[1..][i] == es[i + 1];
    }
  }

  /** Everything planned for an entry is the entry itself or lies below it. */
  lemma {:induction false} EntryPlanUnder(k: Knobs, prefix: Path, entry: Entry, chain: seq<Level>, src: Source)
    requires src in EntryPlan(k, prefix, entry, chain).sources
    ensures Relevant(Child(prefix, entry.name), src.path)
    decreases entry, 1
  {
    hide Verdict, FolderPlan, Utf8.Valid, ExcludedPath;
    var path := Child(prefix, entry.name);
    match entry.node
    case Folder(es) =>
      assert src in FolderPlan(k, path, es, chain).sources;
      FolderPlanUnder(k, path, es, chain, src);
      var i :| 0 <= i < |es| && Relevant(Child(path, es[i].name), src.path);
      IrrelevantBelow(path, es[i].name, src.path);
    case File(content) =>
    case Other =>
  }

  function Lookup(sources: seq<Source>, target: Path): Option<bytes> {
    if |sources| == 0 then None
    else if sources[0].path == target then Some(sources[0].content)
    else Lookup(sources[1..], target)
  }

  lemma {:induction false} LookupJoin(a: seq<Source>, b: seq<Source>, target: Path)
    ensures Lookup(a + b, target) == if Lookup(a, target).Some? then Lookup(a, target) else Lookup(b, target)
  {
    if |a| == 0 {
      assert a + b == b;
    } else {
      LookupJoin(a[1..], b, target);
      assert (a + b)[1..] == a[1..] + b;
    }
  }

  lemma {:induction false} LookupMember(sources: seq<Source>, target: Path)
    requires Lookup(sources, target).Some?
    ensures Source(target, Lookup(sources, target).value) in sources
  {
    if sources[0].path != target {
      LookupMember(sources[1..], target);
    }
  }

  /** Nothing is planned for the target below an entry off its path. */
  lemma OffPathPlansNothing(k: Knobs, prefix: Path, entry: Entry, chain: seq<Level>, target: Path)
    requires !Relevant(Child(prefix, entry.name), target)
    ensures Lookup(EntryPlan(k, prefix, entry, chain).sources, target) == None
  {
    hide EntryPlan, Relevant;
    var sources := EntryPlan(k, prefix, entry, chain).sources;
    if Lookup(sources, target).Some? {
      LookupMember(sources, target);
      EntryPlanUnder(k, prefix, entry, chain, Source(target, Lookup(sources, target).value));
    }
  }

  lemma {:induction false} OffPathEntriesPlanNothing(k: Knobs, prefix: Path, es: seq<Entry>, chain: seq<Level>, target: Path)
    requires forall i :: 0 <= i < |es| ==> !Relevant(Child(prefix, es[i].name), target)
    ensures Lookup(EntriesPlan(k, prefix, es, chain).sources, target) == None
    decreases |es|
  {
    hide EntryPlan, Relevant;
    if |es| > 0 {
      OffPathPlansNothing(k, prefix, es[0], chain, target);
      OffPathEntriesPlanNothing(k, prefix, es[1..], chain, target);
      LookupJoin(EntryPlan(k, prefix, es[0], chain).sources, EntriesPlan(k, prefix, es[1..], chain).sources, target);
    }
  }

  // ---- Ignore budgets: the read stays behind the search ------------------------------------------

  lemma {:induction false} SortedKeys(os: seq<Observation>)
    requires Sorted(os)
    ensures |Keys(os)| == |os|
  {
    if |os| > 0 {
      SortedKeys(os[1..]);
      assert os == [os[0]] + os[1..];
      assert Keys(os) == {os[0].path} + Keys(os[1..]);
      if os[0].path in Keys(os[1..]) {
        var o :| o in os[1..] && o.path == os[0].path;
        Ordered.LessIrreflexive(o.path);
      }
    }
  }

  /** Every record can be read back at any time. */
  ghost predicate Lasting(w: World, os: seq<Observation>) {
    forall o, t: nat :: o in os ==> PolicyAt(w, t, o.path).outcome == Ok(o.captured)
  }

  /** The read's state `a` is no further along than the search's state `b`. */
  ghost predicate Behind(w: World, a: State, b: State) {
    && a.reasons == []
    && a.counts.visited <= b.counts.visited
    && BehindView(w, a.scope, b.scope)
  }

  ghost predicate BehindView(w: World, a: View, b: View) {
    && a.input == b.input
    && a.policyBytes <= b.policyBytes && a.policyLines <= b.policyLines
    && Keys(a.observations) <= Keys(b.observations)
    && Sorted(a.observations) && Sorted(b.observations)
    && Lasting(w, a.observations)
  }

  lemma BehindCount(w: World, a: View, b: View)
    requires BehindView(w, a, b)
    ensures |a.observations| <= |b.observations|
  {
    SortedKeys(a.observations);
    SortedKeys(b.observations);
    SubsetCardinality(Keys(a.observations), Keys(b.observations));
  }

  lemma {:induction false} AddLinesExact(w: World, e: Engine, count: nat, now: nat, lines: seq<bytes>)
    requires AddLines(w, e, count, now, lines).fault.None?
    ensures AddLines(w, e, count, now, lines).count == count + |lines|
    ensures lines == [] || count + |lines| <= POLICY_LINES
    decreases |lines|
  {
    if |lines| > 0 {
      AddLinesExact(w, e, count + 1, now + 1, lines[1..]);
    }
  }

  lemma {:induction false} AddLinesSucceeds(w: World, e: Engine, count: nat, now: nat, lines: seq<bytes>)
    requires forall t: nat :: !w.expired(t)
    requires (forall l :: l in lines ==> e.lineOk(l)) && (lines == [] || count + |lines| <= POLICY_LINES)
    ensures AddLines(w, e, count, now, lines).fault.None?
    decreases |lines|
  {
    if |lines| > 0 {
      AddLinesSucceeds(w, e, count + 1, now + 1, lines[1..]);
    }
  }

  /** In a frozen mirror an ignore file the tree declares is read as declared, at any time. */
  lemma PolicyFrozen(w: World, now: nat, path: Path, es: seq<Entry>, name: Name)
    requires Capture.Frozen(w) && MirrorsEntries(w, path, es) && ShowsPolicy(w, path, es, name) && !IsDots(name)
    requires Declared(es, name).Some?
    ensures PolicyAt(w, now, Child(path, name)).outcome == Ok(Declared(es, name).value)
  {
    hide Capture.CaptureAt, Capture.Textual;
    if Find(es, name).Some? {
      FindMirrors(w, path, es, name);
      var fd := w.resolve(0, Child(path, name)).value;
      assert w.resolve(now + 1, Child(path, name)) == Some(fd);
      Capture.CaptureOfFrozen(w, now + 2, fd, POLICY_FILE_BYTES, Find(es, name).value.content);
    }
  }

  /** What a successful load leaves behind. */
  ghost predicate LoadedExactly(s: View, l: Loaded, path: Path, captured: Option<bytes>, lines: seq<bytes>) {
    && l.outcome == Ok(lines)
    && l.view == s.(
         policyBytes := s.policyBytes + Size(Observation(path, captured)),
         policyLines := s.policyLines + |lines|,
         observations := Observe(s.observations, Observation(path, captured)))
  }

  ghost predicate WithinBudget(s: View, captured: Option<bytes>, lines: seq<bytes>) {
    && (captured.Some? ==> s.policyBytes + |captured.value| <= POLICY_BYTES)
    && (lines == [] || s.policyLines + |lines| <= POLICY_LINES)
  }

  lemma LoadDetails(w: World, e: Engine, s: View, now: nat, path: Path, es: seq<Entry>, name: Name)
    requires MirrorsEntries(w, path, es) && ShowsPolicy(w, path, es, name) && !IsDots(name)
    requires LoadAt(w, e, s, now, path, name).outcome.Ok?
    ensures Declared(es, name).Some? && DeclaredLines(e, path, es, name).Some?
    ensures LoadedExactly(s, LoadAt(w, e, s, now, path, name), Child(path, name), Declared(es, name).value, DeclaredLines(e, path, es, name).value)
    ensures WithinBudget(s, Declared(es, name).value, DeclaredLines(e, path, es, name).value)
  {
    hide PolicyAt, AddLines, Declared, Observe, MirrorsEntries, ShowsPolicy;
    var c := PolicyAt(w, now, Child(path, name));
    PolicyMirrors(w, now, path, es, name);
    LoadMirrors(w, e, s, now, path, es, name);
    AddLinesExact(w, e, s.policyLines, c.now, if c.outcome.value.Some? then e.lines(c.outcome.value.value) else []);
  }

  lemma LoadFrozen(w: World, e: Engine, s: View, now: nat, path: Path, es: seq<Entry>, name: Name)
    requires Capture.Frozen(w) && MirrorsEntries(w, path, es) && ShowsPolicy(w, path, es, name) && !IsDots(name)
    requires Declared(es, name).Some? && DeclaredLines(e, path, es, name).Some?
    requires WithinBudget(s, Declared(es, name).value, DeclaredLines(e, path, es, name).value)
    ensures LoadedExactly(s, LoadAt(w, e, s, now, path, name), Child(path, name), Declared(es, name).value, DeclaredLines(e, path, es, name).value)
  {
    hide PolicyAt, AddLines, Declared, Observe, MirrorsEntries, ShowsPolicy;
    PolicyFrozen(w, now, path, es, name);
    var c := PolicyAt(w, now, Child(path, name));
    var lines := DeclaredLines(e, path, es, name).value;
    AddLinesSucceeds(w, e, s.policyLines, c.now, lines);
    AddLinesExact(w, e, s.policyLines, c.now, lines);
  }

  lemma LoadStaysBehind(w: World, a: View, b: View, la: Loaded, lb: Loaded, path: Path, captured: Option<bytes>, lines: seq<bytes>)
    requires BehindView(w, a, b)
    requires LoadedExactly(a, la, path, captured, lines) && LoadedExactly(b, lb, path, captured, lines)
    requires forall t: nat :: PolicyAt(w, t, path).outcome == Ok(captured)
    ensures BehindView(w, la.view, lb.view)
  {
    hide PolicyAt, Keys, Sorted;
    var o := Observation(path, captured);
    ObserveKeys(a.observations, o);
    ObserveKeys(b.observations, o);
    ObserveSorted(a.observations, o);
    ObserveSorted(b.observations, o);
    forall x, t: nat | x in la.view.observations
      ensures PolicyAt(w, t, x.path).outcome == Ok(x.captured)
    {
      ObserveMembers(a.observations, o, x);
    }
  }

  /** Both walks load the same ignore file of the same directory. */
  lemma LoadBehind(v: World, w: World, e: Engine, a: View, b: View, na: nat, nb: nat, path: Path, es: seq<Entry>, name: Name)
    requires MirrorsEntries(v, path, es) && ShowsPolicy(v, path, es, name)
    requires Capture.Frozen(w) && MirrorsEntries(w, path, es) && ShowsPolicy(w, path, es, name) && !IsDots(name)
    requires BehindView(w, a, b) && LoadAt(v, e, b, nb, path, name).outcome.Ok?
    ensures LoadAt(w, e, a, na, path, name).outcome == LoadAt(v, e, b, nb, path, name).outcome
    ensures BehindView(w, LoadAt(w, e, a, na, path, name).view, LoadAt(v, e, b, nb, path, name).view)
    ensures |LoadAt(v, e, b, nb, path, name).view.observations| <= |b.observations| + 1
  {
    hide LoadAt, PolicyAt, Declared, DeclaredLines, MirrorsEntries, ShowsPolicy, BehindView;
    LoadDetails(v, e, b, nb, path, es, name);
    var captured, lines := Declared(es, name).value, DeclaredLines(e, path, es, name).value;
    BehindNumbers(w, a, b);
    LoadFrozen(w, e, a, na, path, es, name);
    forall t: nat
      ensures PolicyAt(w, t, Child(path, name)).outcome == Ok(captured)
    {
      PolicyFrozen(w, t, path, es, name);
    }
    LoadStaysBehind(w, a, b, LoadAt(w, e, a, na, path, name), LoadAt(v, e, b, nb, path, name), Child(path, name), captured, lines);
  }

  lemma BehindNumbers(w: World, a: View, b: View)
    requires BehindView(w, a, b)
    ensures a.policyBytes <= b.policyBytes && a.policyLines <= b.policyLines && a.input == b.input
  {
  }

  lemma EnterBehind(v: World, w: World, e: Engine, a: View, b: View, na: nat, nb: nat, path: Path, es: seq<Entry>)
    requires MirrorsEntries(v, path, es) && ShowsPolicy(v, path, es, GITIGNORE) && ShowsPolicy(v, path, es, IGNORE)
    requires Capture.Frozen(w) && MirrorsEntries(w, path, es) && ShowsPolicy(w, path, es, GITIGNORE) && ShowsPolicy(w, path, es, IGNORE)
    requires BehindView(w, a, b) && EnterAt(v, e, b, nb, path).fault.None?
    ensures EnterAt(w, e, a, na, path).fault.None?
    ensures BehindView(w, EnterAt(w, e, a, na, path).view, EnterAt(v, e, b, nb, path).view)
  {
    hide LoadAt, MirrorsEntries, ShowsPolicy, BehindView;
    BehindNumbers(w, a, b);
    if a.input.respectIgnore {
      BehindCount(w, a, b);
      LoadBehind(v, w, e, a, b, na, nb, path, es, GITIGNORE);
      var oneA, oneB := LoadAt(w, e, a, na, path, GITIGNORE), LoadAt(v, e, b, nb, path, GITIGNORE);
      LoadBehind(v, w, e, oneA.view, oneB.view, oneA.now, oneB.now, path, es, IGNORE);
      var twoA, twoB := LoadAt(w, e, oneA.view, oneA.now, path, IGNORE), LoadAt(v, e, oneB.view, oneB.now, path, IGNORE);
      var rules := Rules(oneA.outcome.value, twoA.outcome.value);
      BehindIgnoresRules(w, twoA.view, twoB.view, twoA.view.rules[path := rules], twoB.view.rules[path := rules]);
    }
  }

  lemma BehindIgnoresRules(w: World, a: View, b: View, ra: map<Path, Rules>, rb: map<Path, Rules>)
    requires BehindView(w, a, b)
    ensures BehindView(w, a.(rules := ra), b.(rules := rb))
  {
    hide Keys, Sorted;
  }

  // ---- One entry, walked by both ------------------------------------------------------------------

  /** A search job and a read job under the same terms. */
  ghost predicate LikeTerms(j: Job, q: Job) {
    && JobOk(j) && JobOk(q) && j.r.read.None? && q.r.read.Some?
    && q.e == j.e
    && q.r.scope == j.r.scope && q.r.maxFileBytes == j.r.maxFileBytes
    && q.r.maxEntries == j.r.maxEntries && q.r.maxDepth == j.r.maxDepth
  }

  /** The same, with the read in a frozen file system. */
  ghost predicate SameTerms(j: Job, q: Job) { LikeTerms(j, q) && Capture.Frozen(q.w) }

  /** The step `r` of a read met `found`, or passed by when there is nothing to meet. */
  ghost predicate ReadsAs(q: Job, s: State, r: Step, found: Option<bytes>)
    requires JobOk(q) && q.r.read.Some?
  {
    && r.state.reasons == s.reasons && r.state.complete == s.complete && r.state.used == s.used
    && match found
       case None => r.fault.None? && r.state.matches == s.matches
       case Some(content) =>
         var d := Deliver(q, s, q.r.read.value, Target(q), Digest(q.e, content), content);
         r.fault == d.fault && r.state.matches == d.state.matches
  }

  function Outcome(t: State, path: Path, node: Node, fd: Ino, allowed: bool): Admission {
    var u := t.(now := t.now + 2);
    if !allowed || node.Other? then Done(Step(Exclude(u), None))
    else if node.Folder? then Descend(u, fd, path)
    else Inspect(u, fd, path)
  }

  lemma FrozenClassify(q: Job, t: State, prefix: Path, entry: Entry, chain: seq<Level>)
    requires Capture.Frozen(q.w) && t.scope.input == q.r.scope
    requires MirrorsEntry(q.w, prefix, entry) && !IsDots(entry.name) && InForce(t.scope, prefix, chain)
    ensures var path := Child(prefix, entry.name);
            q.w.resolve(0, path).Some?
            && Classify(q, t, path) == Outcome(t, path, entry.node, q.w.resolve(0, path).value,
                                               Verdict(q.e, q.r.scope, chain, path, entry.node.Folder?))
  {
    hide AllowsIn, Verdict, InForce, Child, MirrorsNode;
    var path := Child(prefix, entry.name);
    VerdictIsPure(q.e, t.scope, prefix, chain, entry.name, entry.node.Folder?);
    KindMirrors(q.w, t.now + 1, prefix, entry);
    assert q.w.resolve(t.now, path) == q.w.resolve(0, path);
  }

  lemma CaptureTwiceFrozen(q: Job, now: nat, fd: Ino, path: Path, content: bytes)
    requires Capture.Frozen(q.w) && Capture.StaticFile(q.w, fd, content)
    ensures CaptureTwice(q, now, fd, path).outcome == Ok(Capture.Offered(content, q.r.maxFileBytes))
  {
    hide Capture.CaptureAt, Capture.Offered;
    Capture.CaptureOfFrozen(q.w, now, fd, q.r.maxFileBytes, content);
  }

  /** The target file is delivered when it is text within bounds, and passed by otherwise. */
  lemma FrozenFile(q: Job, s: State, t: State, fd: Ino, path: Path, content: bytes)
    requires JobOk(q) && q.r.read.Some? && Capture.Frozen(q.w) && Capture.StaticFile(q.w, fd, content)
    requires Follows(s, t) && t.used == s.used && t.complete == s.complete
    ensures var r := SearchFileAt(q, t, fd, path);
            && ReadsAs(q, s, r, if path == Target(q) then Capture.Offered(content, q.r.maxFileBytes) else None)
            && r.state.scope == s.scope && r.state.counts.visited == t.counts.visited
  {
    hide CaptureTwice, Validate, Capture.Textual, Collect, Digest;
    CaptureTwiceFrozen(q, t.now, fd, path, content);
  }

  lemma BehindGrown(w: World, a: State, b: State, t: State, u: State)
    requires Behind(w, a, b) && t.reasons == [] && t.scope == a.scope
    requires t.counts.visited <= a.counts.visited + 1
    requires u.counts.visited >= b.counts.visited + (t.counts.visited - a.counts.visited)
    requires Bounded(b.scope) && Grows(b.scope, u.scope, 0)
    ensures Behind(w, t, u)
  {
    hide Lasting, Keys;
  }

  /** A search entry that leaves no reason visits it, and keeps going only below its entry budget. */
  lemma ExactVisits(j: Job, s: State, name: Name, prefix: Path, depth: nat)
    requires JobOk(j) && Inv(j, s) && Utf8.Valid(prefix) && depth <= j.r.maxDepth
    requires EntryAt(j, s, name, prefix, depth).fault.None?
    ensures !IsDots(name) ==> s.counts.visited != j.r.maxEntries && EntryAt(j, s, name, prefix, depth).state.counts.visited >= s.counts.visited + 1
    ensures EntryAt(j, s, name, prefix, depth).state.counts.visited >= s.counts.visited
    ensures Inv(j, EntryAt(j, s, name, prefix, depth).state)
  {
    hide Validate, Inv, Slack, Admit, WalkAt, SearchFileAt, IsDots, Utf8.Valid, ValidPath;
    EntryKeeps(j, s, name, prefix, depth);
    AdmitKeeps(j, s, prefix, name);
    AdmitCounts(j, s, prefix, name);
    match Admit(j, s, prefix, name)
    case Done(r) =>
    case Inspect(t, fd, path) =>
      SlackPositive(j, s, t);
      FileKeeps(j, t, fd, path);
    case Descend(t, fd, path) => WalkKeeps(j, t, fd, path, depth + 1);
  }

  lemma SlackPositive(j: Job, s: State, t: State)
    requires Inv(j, s) && Slack(t) == Slack(s) + 1
    ensures Slack(t) >= 1
  {
  }

  lemma AdmitCounts(j: Job, s: State, prefix: Path, name: Name)
    ensures match Admit(j, s, prefix, name)
            case Done(r) => r.fault.None? && !IsDots(name) ==> r.state.counts.visited == s.counts.visited + 1 && s.counts.visited != j.r.maxEntries
            case Descend(t, _, _) => t.counts.visited == s.counts.visited + 1 && s.counts.visited != j.r.maxEntries
            case Inspect(t, _, _) => t.counts.visited == s.counts.visited + 1 && s.counts.visited != j.r.maxEntries
  {
    hide AllowsIn, ValidPath, ExcludedPath, Utf8.Valid, Relevant, Child, IsDots;
  }

  /** A clean search entry over an allowed directory is exactly a clean walk of that directory. */
  lemma ExactDescends(j: Job, s: State, prefix: Path, entry: Entry, depth: nat, chain: seq<Level>) returns (u: State)
    requires JobOk(j) && j.r.read.None? && depth <= j.r.maxDepth && s.scope.input == j.r.scope
    requires Inv(j, s) && Utf8.Valid(prefix)
    requires MirrorsEntry(j.w, prefix, entry) && InForce(s.scope, prefix, chain) && entry.node.Folder?
    requires Nameable(j.r.scope, prefix, entry.name) && Verdict(j.e, j.r.scope, chain, Child(prefix, entry.name), true)
    requires EntryAt(j, s, entry.name, prefix, depth).fault.None? && EntryAt(j, s, entry.name, prefix, depth).state.reasons == []
    ensures var path := Child(prefix, entry.name);
            && Follows(s, u) && Inv(j, u) && Utf8.Valid(path) && j.w.resolve(0, path).Some?
            && WalkAt(j, u, j.w.resolve(0, path).value, path, depth + 1) == EntryAt(j, s, entry.name, prefix, depth)
  {
    hide Validate, Inv, WalkAt, SearchFileAt, ValidPath, ExcludedPath, Utf8.Valid, IsDots, Verdict, InForce, AllowsIn,
      Child, MirrorsNode, Admitted;
    var path := Child(prefix, entry.name);
    ExactVisits(j, s, entry.name, prefix, depth);
    AdmitKeeps(j, s, prefix, entry.name);
    KindMirrors(j.w, s.now + 3, prefix, entry);
    VerdictIsPure(j.e, s.scope, prefix, chain, entry.name, true);
    var a := Admit(j, s, prefix, entry.name);
    assert !j.w.expired(s.now) && !j.w.fails(s.now + 1);
    assert a == Classify(j, Visit(s.(now := s.now + 2)), path);
    assert j.w.resolve(s.now + 2, path) == j.w.resolve(0, path);
    assert a.Descend?;
    u := a.state;
    DescendPending(j, s, a);
  }

  lemma DescendPending(j: Job, s: State, a: Admission)
    requires a.Descend? && Admitted(j, Slack(s), s.counts.visited, a)
    ensures Inv(j, a.state) && Utf8.Valid(a.path)
  {
  }

  // ---- The two walks together ----------------------------------------------------------------------

  /** What a read step met, and that the read is still no further along than the search. */
  ghost predicate Meets(q: Job, s: State, r: Step, found: Option<bytes>, t: State)
    requires JobOk(q) && q.r.read.Some?
  {
    ReadsAs(q, s, r, found) && (r.fault.None? ==> Behind(q.w, r.state, t))
  }

  /** The read at `a` and the search at `b` are about to look at entries of the same directory. */
  ghost predicate Together(j: Job, q: Job, a: State, b: State, prefix: Path, chain: seq<Level>) {
    && Inv(j, b) && Behind(q.w, a, b) && Bounded(b.scope) && b.scope.input == j.r.scope
    && InForce(a.scope, prefix, chain) && InForce(b.scope, prefix, chain)
    && Utf8.Valid(prefix)
  }

  ghost predicate Clean(r: Step) { r.fault.None? && r.state.reasons == [] }

  /** An entry the read passes by without looking at content. */
  lemma PassedBy(q: Job, a: State, b: State, r: Step, t: State)
    requires JobOk(q) && q.r.read.Some? && Behind(q.w, a, b)
    requires r.fault.None? && r.state == a.(now := r.state.now, counts := r.state.counts)
    requires r.state.counts.visited <= a.counts.visited + 1
    requires t.counts.visited >= b.counts.visited + (r.state.counts.visited - a.counts.visited)
    requires Bounded(b.scope) && Grows(b.scope, t.scope, 0)
    ensures Meets(q, a, r, None, t)
  {
    hide Validate, Sound, Deliver, Bounded, Grows, BehindView;
    BehindGrown(q.w, a, b, r.state, t);
  }

  predicate PassesByName(q: Job, prefix: Path, name: Name)
    requires q.r.read.Some?
  {
    !Nameable(q.r.scope, prefix, name) || !Relevant(Child(prefix, name), Target(q))
  }

  /** Entries refused by name are passed by. */
  lemma NamePassedBy(q: Job, a: State, prefix: Path, name: Name, depth: nat)
    requires JobOk(q) && q.r.read.Some? && Capture.Frozen(q.w) && depth <= q.r.maxDepth
    requires !IsDots(name) ==> a.counts.visited != q.r.maxEntries
    requires PassesByName(q, prefix, name)
    ensures var r := EntryAt(q, a, name, prefix, depth);
            && r.fault.None? && r.state == a.(now := r.state.now, counts := r.state.counts)
            && r.state.counts.visited == a.counts.visited + if IsDots(name) then 0 else 1
  {
    hide Validate, Sound, ValidPath, ExcludedPath, Utf8.Valid, Relevant, Child, IsDots, Classify;
    assert !q.w.expired(a.now) && !q.w.fails(a.now + 1);
    assert EntryAt(q, a, name, prefix, depth) == Dispatch(q, Admit(q, a, prefix, name), depth);
  }

  /** One entry, seen by a clean search and by a read. */
  lemma {:induction false} SimEntry(j: Job, q: Job, a: State, b: State, prefix: Path, entry: Entry, depth: nat, chain: seq<Level>)
    requires SameTerms(j, q) && ProperListings(q.w) && depth <= j.r.maxDepth && Together(j, q, a, b, prefix, chain)
    requires MirrorsEntry(j.w, prefix, entry) && MirrorsEntry(q.w, prefix, entry)
    requires Clean(EntryAt(j, b, entry.name, prefix, depth))
    ensures Meets(q, a, EntryAt(q, a, entry.name, prefix, depth), Lookup(EntryPlan(KnobsOf(j), prefix, entry, chain).sources, Target(q)),
                  EntryAt(j, b, entry.name, prefix, depth).state)
    decreases entry, 1
  {
    hide Validate, Sound, Capture.Frozen, Inv, Meets, EntryAt, BehindView, Bounded, InForce, Utf8.Valid, EntryPlan,
      Nameable, Relevant, IsDots, MirrorsEntry, ProperListings, Verdict, Grows, Child;
    var found := Lookup(EntryPlan(KnobsOf(j), prefix, entry, chain).sources, Target(q));
    var t := EntryAt(j, b, entry.name, prefix, depth).state;
    ExactVisits(j, b, entry.name, prefix, depth);
    EntryGrows(j, b, entry.name, prefix, depth);
    WeakerFrame(b.scope, t.scope, |prefix| + 1, 0);
    BehindTerms(q.w, a, b);
    RoomLeft(j, b);
    if !PassesByName(q, prefix, entry.name) {
      NameableNotDots(q, prefix, entry.name);
    }
    if PassesByName(q, prefix, entry.name) {
      NamePassedBy(q, a, prefix, entry.name, depth);
      UnplannedByName(j, q, prefix, entry, chain);
      PassedBy(q, a, b, EntryAt(q, a, entry.name, prefix, depth), t);
    } else if !Verdict(j.e, j.r.scope, chain, Child(prefix, entry.name), entry.node.Folder?) || entry.node.Other? {
      RefusedByTree(j, q, a, prefix, entry, depth, chain);
      PassedBy(q, a, b, EntryAt(q, a, entry.name, prefix, depth), t);
    } else if entry.node.File? {
      SimFile(j, q, a, b, prefix, entry, depth, chain);
    } else {
      SimFolder(j, q, a, b, prefix, entry, depth, chain);
    }
  }

  lemma UnplannedByName(j: Job, q: Job, prefix: Path, entry: Entry, chain: seq<Level>)
    requires q.r.read.Some? && q.r.scope == j.r.scope && PassesByName(q, prefix, entry.name)
    ensures Lookup(EntryPlan(KnobsOf(j), prefix, entry, chain).sources, Target(q)) == None
  {
    hide Nameable, Relevant, Verdict, Child, NodePlan;
    if !Nameable(j.r.scope, prefix, entry.name) {
      assert EntryPlan(KnobsOf(j), prefix, entry, chain) == NOTHING;
    } else {
      OffPathPlansNothing(KnobsOf(j), prefix, entry, chain, Target(q));
    }
  }

  /** A read reaches the classification of an entry on its path. */
  lemma ReadClassifies(q: Job, a: State, prefix: Path, entry: Entry, depth: nat, chain: seq<Level>) returns (t: State)
    requires JobOk(q) && q.r.read.Some? && Capture.Frozen(q.w) && depth <= q.r.maxDepth
    requires a.counts.visited != q.r.maxEntries && a.scope.input == q.r.scope
    requires !PassesByName(q, prefix, entry.name)
    requires MirrorsEntry(q.w, prefix, entry) && InForce(a.scope, prefix, chain)
    ensures t == Visit(a.(now := a.now + 2))
    ensures var path := Child(prefix, entry.name);
            && q.w.resolve(0, path).Some?
            && EntryAt(q, a, entry.name, prefix, depth)
               == Dispatch(q, Outcome(t, path, entry.node, q.w.resolve(0, path).value,
                                      Verdict(q.e, q.r.scope, chain, path, entry.node.Folder?)), depth)
  {
    hide Validate, Sound, ValidPath, ExcludedPath, Utf8.Valid, Relevant, Child, IsDots, Classify, MirrorsEntry,
      InForce, Verdict, Outcome, Dispatch;
    t := Visit(a.(now := a.now + 2));
    FrozenClassify(q, t, prefix, entry, chain);
    assert !q.w.expired(a.now) && !q.w.fails(a.now + 1);
    assert Admit(q, a, prefix, entry.name) == Classify(q, t, Child(prefix, entry.name));
  }

  lemma RefusedByTree(j: Job, q: Job, a: State, prefix: Path, entry: Entry, depth: nat, chain: seq<Level>)
    requires SameTerms(j, q) && depth <= q.r.maxDepth
    requires a.counts.visited != q.r.maxEntries && a.scope.input == q.r.scope
    requires !PassesByName(q, prefix, entry.name)
    requires MirrorsEntry(q.w, prefix, entry) && InForce(a.scope, prefix, chain)
    requires !Verdict(j.e, j.r.scope, chain, Child(prefix, entry.name), entry.node.Folder?) || entry.node.Other?
    ensures Lookup(EntryPlan(KnobsOf(j), prefix, entry, chain).sources, Target(q)) == None
    ensures var r := EntryAt(q, a, entry.name, prefix, depth);
            && r.fault.None? && r.state == a.(now := r.state.now, counts := r.state.counts)
            && r.state.counts.visited == a.counts.visited + 1
  {
    hide Validate, Sound, Capture.Frozen, Relevant, Child, MirrorsEntry, InForce, Verdict, Nameable, EntryAt;
    var t := ReadClassifies(q, a, prefix, entry, depth, chain);
    assert EntryPlan(KnobsOf(j), prefix, entry, chain) == NOTHING;
  }

  lemma SimFile(j: Job, q: Job, a: State, b: State, prefix: Path, entry: Entry, depth: nat, chain: seq<Level>)
    requires SameTerms(j, q) && depth <= j.r.maxDepth && Together(j, q, a, b, prefix, chain)
    requires MirrorsEntry(q.w, prefix, entry) && entry.node.File?
    requires !PassesByName(q, prefix, entry.name) && a.counts.visited != q.r.maxEntries
    requires Verdict(j.e, j.r.scope, chain, Child(prefix, entry.name), false)
    requires EntryAt(j, b, entry.name, prefix, depth).state.counts.visited >= b.counts.visited + 1
    requires Grows(b.scope, EntryAt(j, b, entry.name, prefix, depth).state.scope, 0)
    ensures Meets(q, a, EntryAt(q, a, entry.name, prefix, depth), Lookup(EntryPlan(KnobsOf(j), prefix, entry, chain).sources, Target(q)),
                  EntryAt(j, b, entry.name, prefix, depth).state)
  {
    hide Validate, Sound, Capture.Frozen, Inv, EntryAt, BehindView, Bounded, InForce, Utf8.Valid, Nameable, Relevant,
      IsDots, MirrorsEntry, Verdict, Grows, Child, SearchFileAt, ReadsAs, Capture.Offered, Behind;
    var path := Child(prefix, entry.name);
    BehindTerms(q.w, a, b);
    var t := ReadClassifies(q, a, prefix, entry, depth, chain);
    var u := t.(now := t.now + 2);
    NameableNotDots(q, prefix, entry.name);
    MirrorsUnfold(q.w, prefix, entry);
    var fd := q.w.resolve(0, path).value;
    FrozenFile(q, a, u, fd, path, entry.node.content);
    var r := SearchFileAt(q, u, fd, path);
    assert EntryAt(q, a, entry.name, prefix, depth) == r;
    FilePlanLookup(KnobsOf(j), prefix, entry, chain, Target(q));
    ReadKeepsReasons(q, a, r, if path == Target(q) then Capture.Offered(entry.node.content, q.r.maxFileBytes) else None);
    BehindGrown(q.w, a, b, r.state, EntryAt(j, b, entry.name, prefix, depth).state);
  }

  lemma BehindTerms(w: World, a: State, b: State)
    requires Behind(w, a, b)
    ensures a.scope.input == b.scope.input && a.reasons == [] && a.counts.visited <= b.counts.visited
  {
    hide Lasting, Keys, Sorted;
  }

  lemma RoomLeft(j: Job, s: State)
    requires Inv(j, s)
    ensures s.counts.visited <= j.r.maxEntries
  {
  }

  /** What a read meets depends on the hits and bytes so far, not on the clock, counts or scope. */
  lemma ReadsFrom(q: Job, s: State, t: State, r: Step, found: Option<bytes>)
    requires JobOk(q) && q.r.read.Some? && ReadsAs(q, t, r, found)
    requires t == s.(now := t.now, counts := t.counts, scope := t.scope)
    ensures ReadsAs(q, s, r, found)
  {
    hide Utf8.IsCharBoundary, Digest, ReadHit;
  }

  lemma ReadsThen(q: Job, s: State, a: Step, b: Step, x: Option<bytes>, y: Option<bytes>)
    requires JobOk(q) && q.r.read.Some? && a.fault.None?
    requires ReadsAs(q, s, a, x) && ReadsAs(q, a.state, b, y) && (x.Some? ==> y.None?)
    ensures ReadsAs(q, s, b, if x.Some? then x else y)
  {
    hide Utf8.IsCharBoundary, Digest, ReadHit;
  }

  lemma ReadKeepsReasons(q: Job, s: State, r: Step, found: Option<bytes>)
    requires JobOk(q) && q.r.read.Some? && ReadsAs(q, s, r, found)
    ensures r.state.reasons == s.reasons
  {
  }

  lemma NameableNotDots(q: Job, prefix: Path, name: Name)
    requires q.r.read.Some? && !PassesByName(q, prefix, name)
    ensures !IsDots(name) && Child(prefix, name) != [] && Nameable(q.r.scope, prefix, name)
  {
    hide Utf8.Valid, Split, ExcludedPath;
  }

  lemma FilePlanLookup(k: Knobs, prefix: Path, entry: Entry, chain: seq<Level>, target: Path)
    requires entry.node.File? && Nameable(k.input, prefix, entry.name)
    requires Verdict(k.e, k.input, chain, Child(prefix, entry.name), false)
    ensures Lookup(EntryPlan(k, prefix, entry, chain).sources, target)
         == if Child(prefix, entry.name) == target then Capture.Offered(entry.node.content, k.maxFileBytes) else None
  {
    hide Nameable, Verdict, Child, Capture.Textual;
    var src := Source(Child(prefix, entry.name), entry.node.content);
    assert [src][1..] == [];
  }

  lemma {:induction false} SimFolder(j: Job, q: Job, a: State, b: State, prefix: Path, entry: Entry, depth: nat, chain: seq<Level>)
    requires SameTerms(j, q) && ProperListings(q.w) && depth <= j.r.maxDepth && Together(j, q, a, b, prefix, chain)
    requires MirrorsEntry(j.w, prefix, entry) && MirrorsEntry(q.w, prefix, entry) && entry.node.Folder?
    requires !PassesByName(q, prefix, entry.name) && a.counts.visited != q.r.maxEntries
    requires Verdict(j.e, j.r.scope, chain, Child(prefix, entry.name), true)
    requires Clean(EntryAt(j, b, entry.name, prefix, depth))
    ensures Meets(q, a, EntryAt(q, a, entry.name, prefix, depth), Lookup(EntryPlan(KnobsOf(j), prefix, entry, chain).sources, Target(q)),
                  EntryAt(j, b, entry.name, prefix, depth).state)
    decreases entry, 0
  {
    hide Validate, Sound, Capture.Frozen, Inv, EntryAt, BehindView, Bounded, Linked, Agrees, Utf8.Valid, Nameable,
      Relevant, IsDots, MirrorsEntry, Verdict, Child, WalkAt, FolderPlan, MirrorsFolder, ProperListings;
    var path := Child(prefix, entry.name);
    var es := entry.node.entries;
    BehindTerms(q.w, a, b);
    var t := ReadClassifies(q, a, prefix, entry, depth, chain);
    var u := t.(now := t.now + 2);
    NameableNotDots(q, prefix, entry.name);
    var v := ExactDescends(j, b, prefix, entry, depth, chain);
    BehindVisited(q.w, a, b, u, v);
    MirrorsUnfold(j.w, prefix, entry);
    MirrorsUnfold(q.w, prefix, entry);
    ParentOfChild(prefix, entry.name);
    SimWalk(j, q, u, v, q.w.resolve(0, path).value, j.w.resolve(0, path).value, path, es, depth + 1, chain);
    FolderPlanLookup(KnobsOf(j), prefix, entry, chain, Target(q));
    var r := WalkAt(q, u, q.w.resolve(0, path).value, path, depth + 1);
    ReadsFrom(q, a, u, r, Lookup(FolderPlan(KnobsOf(j), path, es, chain).sources, Target(q)));
    ReadNeverFails(q, a, r, Lookup(FolderPlan(KnobsOf(j), path, es, chain).sources, Target(q)));
  }

  lemma BehindVisited(w: World, a: State, b: State, u: State, v: State)
    requires Behind(w, a, b) && Follows(b, v)
    requires u == a.(now := u.now, counts := u.counts) && u.counts.visited == a.counts.visited + 1
    ensures Behind(w, u, v)
  {
    hide Lasting, Keys, Sorted;
  }

  lemma ReadNeverFails(q: Job, s: State, r: Step, found: Option<bytes>)
    requires JobOk(q) && q.r.read.Some? && ReadsAs(q, s, r, found)
    ensures r.fault != Some(ReadFailed)
  {
    hide Utf8.IsCharBoundary, Digest, ReadHit;
  }

  lemma FolderPlanLookup(k: Knobs, prefix: Path, entry: Entry, chain: seq<Level>, target: Path)
    requires entry.node.Folder? && Nameable(k.input, prefix, entry.name)
    requires Verdict(k.e, k.input, chain, Child(prefix, entry.name), true)
    ensures Lookup(EntryPlan(k, prefix, entry, chain).sources, target)
         == Lookup(FolderPlan(k, Child(prefix, entry.name), entry.node.entries, chain).sources, target)
  {
    hide Nameable, Verdict, Child, FolderPlan;
    var p := FolderPlan(k, Child(prefix, entry.name), entry.node.entries, chain);
    assert [] + p.sources == p.sources;
  }

  lemma {:induction false} SimWalk(j: Job, q: Job, a: State, b: State, fa: Ino, fb: Ino, prefix: Path, es: seq<Entry>, depth: nat, up: seq<Level>)
    requires SameTerms(j, q) && ProperListings(q.w)
    requires Inv(j, b) && Behind(q.w, a, b) && Bounded(b.scope) && b.scope.input == j.r.scope && Utf8.Valid(prefix)
    requires Above(a.scope, prefix, up) && Above(b.scope, prefix, up)
    requires MirrorsFolder(j.w, fb, prefix, es) && MirrorsFolder(q.w, fa, prefix, es)
    requires Clean(WalkAt(j, b, fb, prefix, depth))
    ensures Meets(q, a, WalkAt(q, a, fa, prefix, depth), Lookup(FolderPlan(KnobsOf(j), prefix, es, up).sources, Target(q)),
                  WalkAt(j, b, fb, prefix, depth).state)
    decreases es, 3
  {
    hide Validate, Sound, Inv, EnterAt, EntriesAt, Behind, Bounded, Above, Utf8.Valid, EntriesPlan, FolderPlan,
      MirrorsEntries, ShowsPolicy, IssueIn, ReadsAs, Together, Capture.Frozen, ProperListings, Lookup;
    IssueShows(b.(now := b.now + 1), DepthLimit);
    FrozenNeverFails(q.w, a.now, EnterAt(q.w, q.e, a.scope, a.now + 1, prefix).now);
    var c := SimEnter(j, q, a, b, prefix, es, depth, up);
    var t, u := AfterEnter(q, a, prefix), AfterEnter(j, b, prefix);
    assert q.w.listing(t.now - 1, fa) == Names(es) && j.w.listing(u.now - 1, fb) == Names(es);
    ProperNamesListed(q.w, t.now - 1, fa);
    SimEntries(j, q, t, u, prefix, es, depth, c);
    ReadsFrom(q, a, t, EntriesAt(q, t, Names(es), prefix, depth), Lookup(FolderPlan(KnobsOf(j), prefix, es, up).sources, Target(q)));
  }

  lemma FrozenNeverFails(w: World, s: nat, t: nat)
    requires Capture.Frozen(w)
    ensures !w.expired(s) && !w.fails(t)
  {
  }

  lemma ProperNamesListed(w: World, t: nat, fd: Ino)
    requires ProperListings(w)
    ensures Distinct(w.listing(t, fd))
  {
  }

  /** The state in which a walk starts on a directory's entries. */
  function AfterEnter(j: Job, s: State, prefix: Path): State {
    var n := EnterAt(j.w, j.e, s.scope, s.now + 1, prefix);
    s.(now := n.now + 1, scope := n.view)
  }

  /** Entering a directory keeps the two walks together. */
  lemma SimEnter(j: Job, q: Job, a: State, b: State, prefix: Path, es: seq<Entry>, depth: nat, up: seq<Level>) returns (chain: seq<Level>)
    requires SameTerms(j, q)
    requires Inv(j, b) && Behind(q.w, a, b) && Bounded(b.scope) && b.scope.input == j.r.scope && Utf8.Valid(prefix)
    requires Above(a.scope, prefix, up) && Above(b.scope, prefix, up)
    requires MirrorsEntries(j.w, prefix, es) && ShowsPolicy(j.w, prefix, es, GITIGNORE) && ShowsPolicy(j.w, prefix, es, IGNORE)
    requires MirrorsEntries(q.w, prefix, es) && ShowsPolicy(q.w, prefix, es, GITIGNORE) && ShowsPolicy(q.w, prefix, es, IGNORE)
    requires EnterAt(j.w, j.e, b.scope, b.now + 1, prefix).fault.None?
    ensures EnterAt(q.w, q.e, a.scope, a.now + 1, prefix).fault.None?
    ensures Together(j, q, AfterEnter(q, a, prefix), AfterEnter(j, b, prefix), prefix, chain)
    ensures FolderPlan(KnobsOf(j), prefix, es, up) == EntriesPlan(KnobsOf(j), prefix, es, chain)
  {
    hide Validate, Sound, Inv, EnterAt, BehindView, Bounded, InForce, Above, Utf8.Valid, EntriesPlan, FolderPlan,
      MirrorsEntries, ShowsPolicy, Deepened, Keys, Capture.Frozen;
    EnterBehind(j.w, q.w, j.e, a.scope, b.scope, a.now + 1, b.now + 1, prefix, es);
    BehindTerms(q.w, a, b);
    chain := EnteredChain(j, b, prefix, es, up);
    var d := EnteredChain(q, a, prefix, es, up);
    EnterGrows(j.w, j.e, b.scope, b.now + 1, prefix);
    MoveKeeps(j, b, AfterEnter(j, b, prefix));
  }

  lemma {:induction false} SimEntries(j: Job, q: Job, a: State, b: State, prefix: Path, es: seq<Entry>, depth: nat, chain: seq<Level>)
    requires SameTerms(j, q) && ProperListings(q.w) && depth <= j.r.maxDepth && Together(j, q, a, b, prefix, chain)
    requires MirrorsEntries(j.w, prefix, es) && MirrorsEntries(q.w, prefix, es) && Distinct(Names(es))
    requires Clean(EntriesAt(j, b, Names(es), prefix, depth))
    ensures Meets(q, a, EntriesAt(q, a, Names(es), prefix, depth), Lookup(EntriesPlan(KnobsOf(j), prefix, es, chain).sources, Target(q)),
                  EntriesAt(j, b, Names(es), prefix, depth).state)
    decreases es, 2
  {
    hide Validate, Sound, Inv, EntryAt, BehindView, Bounded, InForce, Utf8.Valid, EntryPlan, MirrorsEntry, Grows,
      ProperListings, Refines, Relevant, Child, Capture.Frozen, Deliver;
    if |es| > 0 {
      var k := KnobsOf(j);
      NamesTail(es);
      var r := EntryAt(j, b, es[0].name, prefix, depth);
      CleanSoFar(j, b, prefix, es, depth, chain);
      SimEntry(j, q, a, b, prefix, es[0], depth, chain);
      var p := EntryAt(q, a, es[0].name, prefix, depth);
      LookupJoin(EntryPlan(k, prefix, es[0], chain).sources, EntriesPlan(k, prefix, es[1..], chain).sources, Target(q));
      if p.fault.None? {
        TogetherAfter(j, q, a, b, prefix, es[0].name, depth, chain);
        SimEntries(j, q, p.state, r.state, prefix, es[1..], depth, chain);
        var x, y := Lookup(EntryPlan(k, prefix, es[0], chain).sources, Target(q)), Lookup(EntriesPlan(k, prefix, es[1..], chain).sources, Target(q));
        if x.Some? {
          FoundOnce(k, q.w, prefix, es, chain, Target(q));
        }
        ReadsThen(q, a, p, EntriesAt(q, p.state, Names(es[1..]), prefix, depth), x, y);
      }
    }
  }

  /** A clean directory starts with a clean entry. */
  lemma CleanSoFar(j: Job, b: State, prefix: Path, es: seq<Entry>, depth: nat, chain: seq<Level>)
    requires JobOk(j) && j.r.read.None? && depth <= j.r.maxDepth && b.scope.input == j.r.scope && |es| > 0
    requires MirrorsEntries(j.w, prefix, es) && InForce(b.scope, prefix, chain)
    requires Clean(EntriesAt(j, b, Names(es), prefix, depth))
    ensures var r := EntryAt(j, b, es[0].name, prefix, depth);
            Clean(r) && EntriesAt(j, b, Names(es), prefix, depth) == EntriesAt(j, r.state, Names(es[1..]), prefix, depth)
  {
    hide Validate, Sound, EntryAt, InForce, EntriesPlan, MirrorsEntry, Grows;
    NamesTail(es);
    var r := EntryAt(j, b, es[0].name, prefix, depth);
    EntryGrows(j, b, es[0].name, prefix, depth);
    InForceKept(b.scope, r.state.scope, prefix, chain);
    GrowsInput(b.scope, r.state.scope, |prefix| + 1);
    EntriesRefine(j, r.state, prefix, es[1..], depth, chain);
  }

  lemma TogetherAfter(j: Job, q: Job, a: State, b: State, prefix: Path, name: Name, depth: nat, chain: seq<Level>)
    requires JobOk(j) && JobOk(q) && q.r.maxDepth == j.r.maxDepth && depth <= j.r.maxDepth && Together(j, q, a, b, prefix, chain)
    requires EntryAt(j, b, name, prefix, depth).fault.None?
    requires Behind(q.w, EntryAt(q, a, name, prefix, depth).state, EntryAt(j, b, name, prefix, depth).state)
    ensures Together(j, q, EntryAt(q, a, name, prefix, depth).state, EntryAt(j, b, name, prefix, depth).state, prefix, chain)
  {
    hide Validate, Sound, Inv, EntryAt, Behind, Bounded, InForce, Utf8.Valid, RulesFrame, Keys;
    ExactVisits(j, b, name, prefix, depth);
    EntryGrows(j, b, name, prefix, depth);
    EntryGrows(q, a, name, prefix, depth);
    InForceKept(a.scope, EntryAt(q, a, name, prefix, depth).state.scope, prefix, chain);
    InForceKept(b.scope, EntryAt(j, b, name, prefix, depth).state.scope, prefix, chain);
  }

  /** Once an entry leads to the target, no later entry of the directory does. */
  lemma FoundOnce(k: Knobs, w: World, prefix: Path, es: seq<Entry>, chain: seq<Level>, target: Path)
    requires |es| > 0 && Distinct(Names(es)) && MirrorsEntries(w, prefix, es)
    requires Lookup(EntryPlan(k, prefix, es[0], chain).sources, target).Some?
    ensures Lookup(EntriesPlan(k, prefix, es[1..], chain).sources, target) == None
  {
    hide EntryPlan, EntriesPlan, Relevant, Child, MirrorsEntries, Lookup, Names;
    LookupMember(EntryPlan(k, prefix, es[0], chain).sources, target);
    EntryPlanUnder(k, prefix, es[0], chain, Source(target, Lookup(EntryPlan(k, prefix, es[0], chain).sources, target).value));
    forall i | 0 <= i < |es[1..]|
      ensures !Relevant(Child(prefix, es[1..][i].name), target)
    {
      assert es[1..][i] == es[i + 1] && Names(es)[i + 1] == es[i + 1].name && Names(es)[0] == es[0].name;
      SlashFreeNames(w, prefix, es, 0);
      SlashFreeNames(w, prefix, es, i + 1);
      if Relevant(Child(prefix, es[i + 1].name), target) {
        RelevantChildUnique(prefix, es[0].name, es[i + 1].name, target);
      }
    }
    OffPathEntriesPlanNothing(k, prefix, es[1..], chain, target);
  }

  lemma {:induction false} SlashFreeNames(w: World, prefix: Path, es: seq<Entry>, i: nat)
    requires MirrorsEntries(w, prefix, es) && i < |es|
    ensures SlashFree(es[i].name)
  {
    hide MirrorsNode, Child, IsDots;
    if i > 0 {
      assert es[1..][i - 1] == es[i];
      SlashFreeNames(w, prefix, es[1..], i - 1);
    }
  }
}
