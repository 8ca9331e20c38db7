/** Scope verdicts over a whole walk: what is loaded when one is given, and that none is ever overturned. */
module Verdicts {
  import opened Basics
  import opened Paths
  import opened World
  import opened Protocol
  import opened Engines
  import opened Scoping
  import opened Searching
  import opened ScopeInvariants
  import opened SearchInvariants
  import opened Acceptance
  import Utf8

  // ---- Where verdicts are given --------------------------------------------------------------------------

  /** A verdict asked for: on which path, as a directory or not, and by which rules. */
  datatype Consult = Consult(path: Path, directory: bool, view: View)

  /** Whether admitting this entry gets as far as its verdict. */
  predicate Judged(j: Job, s: State, prefix: Path, name: Name) {
    var path := Child(prefix, name);
    && !j.w.expired(s.now) && !j.w.fails(s.now + 1)
    && !IsDots(name) && s.counts.visited != j.r.maxEntries
    && Utf8.Valid(name) && ValidPath(path) && !ExcludedPath(j.r.scope.hidden, path)
    && (j.r.read.Some? ==> Relevant(path, j.r.read.value.path))
    && AnchorAt(j.w, s.now + 2, path).Ok? && !j.w.fails(s.now + 3)
  }

  function JudgedAs(j: Job, s: State, prefix: Path, name: Name): Consult
    requires Judged(j, s, prefix, name)
  {
    var path := Child(prefix, name);
    Consult(path, j.w.inode(s.now + 3, AnchorAt(j.w, s.now + 2, path).value).stat.kind == Directory, s.scope)
  }

  ghost function WalkConsults(j: Job, s: State, fd: Ino, prefix: Path, depth: nat): seq<Consult>
    requires JobOk(j)
    decreases if depth <= j.r.maxDepth then j.r.maxDepth + 1 - depth else 0, 1, 0
  {
    if j.w.expired(s.now) || depth > j.r.maxDepth then []
    else
      var n := EnterAt(j.w, j.e, s.scope, s.now + 1, prefix);
      if n.fault.Some? || j.w.fails(n.now) then []
      else EntriesConsults(j, s.(now := n.now + 1, scope := n.view), j.w.listing(n.now, fd), prefix, depth)
  }

  ghost function EntriesConsults(j: Job, s: State, names: seq<Name>, prefix: Path, depth: nat): seq<Consult>
    requires JobOk(j) && depth <= j.r.maxDepth
    decreases j.r.maxDepth + 1 - depth, 0, |names| + 2
  {
    if |names| == 0 then []
    else
      var r := EntryAt(j, s, names[0], prefix, depth);
      EntryConsults(j, s, names[0], prefix, depth) + if r.fault.Some? then [] else EntriesConsults(j, r.state, names[1..], prefix, depth)
  }

  ghost function EntryConsults(j: Job, s: State, name: Name, prefix: Path, depth: nat): seq<Consult>
    requires JobOk(j) && depth <= j.r.maxDepth
    decreases j.r.maxDepth + 1 - depth, 0, 1
  {
    (if Judged(j, s, prefix, name) then [JudgedAs(j, s, prefix, name)] else [])
    + match Admit(j, s, prefix, name)
      case Descend(t, fd, path) => WalkConsults(j, t, fd, path, depth + 1)
      case _ => []
  }

  /** Nothing is walked or searched but on an affirmative verdict, given here. */
  lemma AdmittedByVerdict(j: Job, s: State, prefix: Path, name: Name)
    ensures var a := Admit(j, s, prefix, name);
            !a.Done? ==>
              && Judged(j, s, prefix, name)
              && var c := JudgedAs(j, s, prefix, name);
                 c.path == a.path && c.directory == a.Descend? && AllowsIn(j.e, c.view, c.path, c.directory)
    ensures var a := Admit(j, s, prefix, name);
            Judged(j, s, prefix, name) && a.Done? ==>
              var c := JudgedAs(j, s, prefix, name);
              a.step.fault.None? && a.step.state.counts.excluded == s.counts.excluded + 1
              && (AllowsIn(j.e, c.view, c.path, c.directory) ==> j.w.inode(s.now + 3, AnchorAt(j.w, s.now + 2, c.path).value).stat.kind == Special)
  {
    hide AllowsIn, ValidPath, ExcludedPath, Utf8.Valid, IsDots, Relevant, Child;
  }

  // ---- Rules of every ancestor are loaded ------------------------------------------------------------------

  /** The directory and everything above it has rules. */
  predicate AllLoaded(rules: map<Path, Rules>, from: Path)
    decreases |from|
  {
    from in rules && (from == [] || AllLoaded(rules, Parent(from)))
  }

  lemma {:induction false} LoadedAbove(rules: map<Path, Rules>, from: Path, a: Path)
    requires AllLoaded(rules, from) && (a == [] || Relevant(a, from))
    ensures a in rules
    decreases |from|
  {
    if from != [] && a != from {
      if a != [] {
        AboveParent(from, a);
      }
      LoadedAbove(rules, Parent(from), a);
    }
  }

  /** What lies above a path is its parent or lies above that. */
  lemma {:induction false} AboveParent(path: Path, a: Path)
    requires path != [] && a + [SLASH] <= path
    ensures Relevant(a, Parent(path))
    decreases |path|
  {
    var up := path[..|path| - 1];
    if |a| + 1 == |path| {
      assert path[|a|] == (a + [SLASH])[|a|];
      assert up == a;
    } else if path[|path| - 1] == SLASH {
      assert a + [SLASH] <= up;
    } else {
      assert a + [SLASH] <= up;
      AboveParent(up, a);
    }
  }

  lemma {:induction false} LoadedFrame(a: map<Path, Rules>, b: map<Path, Rules>, from: Path)
    requires RulesFrame(a, b, |from| + 1) && AllLoaded(a, from)
    ensures AllLoaded(b, from)
    decreases |from|
  {
    if from != [] {
      LoadedFrame(a, b, Parent(from));
    }
  }

  lemma {:induction false} LoadedMore(a: map<Path, Rules>, from: Path, prefix: Path, r: Rules)
    requires AllLoaded(a, from)
    ensures AllLoaded(a[prefix := r], from)
    decreases |from|
  {
    if from != [] {
      LoadedMore(a, Parent(from), prefix, r);
    }
  }

  /** Directory listings give names without slashes. */
  ghost predicate PlainListings(w: World) {
    forall t: nat, i: nat, n :: n in w.listing(t, i) ==> SlashFree(n)
  }

  /** A verdict under these settings, given with the rules of everything above the path loaded. */
  ghost predicate Informed(c: Consult, input: ScopeInput) {
    c.view.input == input && (input.respectIgnore ==> AllLoaded(c.view.rules, Parent(c.path)))
  }

  ghost predicate AllInformed(cs: seq<Consult>, input: ScopeInput) { forall c :: c in cs ==> Informed(c, input) }

  lemma EnterLoads(w: World, e: Engine, s: View, now: nat, prefix: Path)
    requires s.input.respectIgnore ==> prefix == [] || AllLoaded(s.rules, Parent(prefix))
    ensures var n := EnterAt(w, e, s, now, prefix);
            n.view.input == s.input && (n.fault.None? && s.input.respectIgnore ==> AllLoaded(n.view.rules, prefix))
  {
    hide LoadAt;
    if s.input.respectIgnore {
      LoadKeepsRules(w, e, s, now, prefix, GITIGNORE);
      var one := LoadAt(w, e, s, now, prefix, GITIGNORE);
      if one.outcome.Ok? {
        LoadKeepsRules(w, e, one.view, one.now, prefix, IGNORE);
        var two := LoadAt(w, e, one.view, one.now, prefix, IGNORE);
        if two.outcome.Ok? && prefix != [] {
          LoadedMore(s.rules, Parent(prefix), prefix, Rules(one.outcome.value, two.outcome.value));
        }
      }
    }
  }

  lemma LoadKeepsRules(w: World, e: Engine, s: View, now: nat, prefix: Path, name: Name)
    ensures LoadAt(w, e, s, now, prefix, name).view.rules == s.rules && LoadAt(w, e, s, now, prefix, name).view.input == s.input
  {
    hide PolicyAt, AddLines, Observe, Child;
  }

  lemma {:induction false} WalkInformed(j: Job, s: State, fd: Ino, prefix: Path, depth: nat)
    requires JobOk(j) && PlainListings(j.w)
    requires s.scope.input.respectIgnore ==> prefix == [] || AllLoaded(s.scope.rules, Parent(prefix))
    ensures AllInformed(WalkConsults(j, s, fd, prefix, depth), s.scope.input)
    decreases if depth <= j.r.maxDepth then j.r.maxDepth + 1 - depth else 0, 1, 0
  {
    hide Validate, EnterAt, EntriesConsults, Informed, AllLoaded;
    if !j.w.expired(s.now) && depth <= j.r.maxDepth {
      EnterLoads(j.w, j.e, s.scope, s.now + 1, prefix);
      var n := EnterAt(j.w, j.e, s.scope, s.now + 1, prefix);
      if n.fault.None? && !j.w.fails(n.now) {
        EntriesInformed(j, s.(now := n.now + 1, scope := n.view), j.w.listing(n.now, fd), prefix, depth);
      }
    }
  }

  lemma {:induction false} EntriesInformed(j: Job, s: State, names: seq<Name>, prefix: Path, depth: nat)
    requires JobOk(j) && depth <= j.r.maxDepth && PlainListings(j.w) && forall n :: n in names ==> SlashFree(n)
    requires s.scope.input.respectIgnore ==> AllLoaded(s.scope.rules, prefix)
    ensures AllInformed(EntriesConsults(j, s, names, prefix, depth), s.scope.input)
    decreases j.r.maxDepth + 1 - depth, 0, |names| + 2
  {
    hide Validate, EntryAt, EntryConsults, Informed, AllLoaded, SlashFree, Bounded, Keys;
    if |names| > 0 {
      EntryInformed(j, s, names[0], prefix, depth);
      var r := EntryAt(j, s, names[0], prefix, depth);
      if r.fault.None? {
        EntryGrows(j, s, names[0], prefix, depth);
        if s.scope.input.respectIgnore {
          LoadedFrame(s.scope.rules, r.state.scope.rules, prefix);
        }
        EntriesInformed(j, r.state, names[1..], prefix, depth);
      }
    }
  }

  lemma {:induction false} EntryInformed(j: Job, s: State, name: Name, prefix: Path, depth: nat)
    requires JobOk(j) && depth <= j.r.maxDepth && PlainListings(j.w) && SlashFree(name)
    requires s.scope.input.respectIgnore ==> AllLoaded(s.scope.rules, prefix)
    ensures AllInformed(EntryConsults(j, s, name, prefix, depth), s.scope.input)
    decreases j.r.maxDepth + 1 - depth, 0, 1
  {
    hide Validate, Admit, WalkConsults, AllLoaded, Judged;
    ParentOfChild(prefix, name);
    AdmitScope(j, s, prefix, name);
    match Admit(j, s, prefix, name)
    case Descend(t, fd, path) => WalkInformed(j, t, fd, path, depth + 1);
    case _ =>
  }

  /**
   In any file system whose listings give plain names: wherever a walk asks for a verdict, the rules of the root and of
   every directory above the path are loaded.
   */
  lemma AncestorsLoaded(j: Job, fd: Ino, c: Consult, a: Path)
    requires JobOk(j) && PlainListings(j.w) && j.r.scope.respectIgnore
    requires c in WalkConsults(j, Initial(j.r), fd, [], 0) && (a == [] || a + [SLASH] <= c.path)
    ensures a in c.view.rules
  {
    hide Validate, WalkConsults;
    WalkInformed(j, Initial(j.r), fd, [], 0);
    assert Informed(c, j.r.scope);
    if a != [] {
      AboveParent(c.path, a);
    }
    LoadedAbove(c.view.rules, Parent(c.path), a);
  }

  // ---- Nothing is reached but through allowed directories -----------------------------------------------------

  ghost predicate Approved(j: Job, c: Consult, path: Path, directory: bool) {
    c.path == path && c.directory == directory && AllowsIn(j.e, c.view, path, directory)
  }

  ghost predicate ApprovedBefore(j: Job, cs: seq<Consult>, i: int, path: Path) {
    exists k :: 0 <= k < i && k < |cs| && Approved(j, cs[k], path, true)
  }

  /** Consultations within `prefix`, each after an affirmative one of every directory between. */
  ghost predicate Guarded(j: Job, prefix: Path, cs: seq<Consult>) { forall i :: 0 <= i < |cs| ==> GuardedAt(j, prefix, cs, i) }

  ghost predicate GuardedAt(j: Job, prefix: Path, cs: seq<Consult>, i: nat)
    requires i < |cs|
  {
    && Stem(prefix) <= cs[i].path
    && forall a: Path :: |a| > |prefix| && a + [SLASH] <= cs[i].path ==> ApprovedBefore(j, cs, i, a)
  }

  lemma GuardedConcat(j: Job, prefix: Path, a: seq<Consult>, b: seq<Consult>)
    requires Guarded(j, prefix, a) && Guarded(j, prefix, b)
    ensures Guarded(j, prefix, a + b)
  {
    hide GuardedAt;
    forall i | 0 <= i < |a + b|
      ensures GuardedAt(j, prefix, a + b, i)
    {
      if i < |a| {
        GuardedLeft(j, prefix, a, b, i);
      } else {
        GuardedRight(j, prefix, a, b, i - |a|);
      }
    }
  }

  lemma GuardedLeft(j: Job, prefix: Path, a: seq<Consult>, b: seq<Consult>, i: nat)
    requires i < |a| && GuardedAt(j, prefix, a, i)
    ensures GuardedAt(j, prefix, a + b, i)
  {
    hide Approved;
    forall p: Path | ApprovedBefore(j, a, i, p)
      ensures ApprovedBefore(j, a + b, i, p)
    {
      var k :| 0 <= k < i && k < |a| && Approved(j, a[k], p, true);
      assert (a + b)[k] == a[k];
    }
    hide ApprovedBefore;
  }

  lemma GuardedRight(j: Job, prefix: Path, a: seq<Consult>, b: seq<Consult>, i: nat)
    requires i < |b| && GuardedAt(j, prefix, b, i)
    ensures GuardedAt(j, prefix, a + b, |a| + i)
  {
    forall p: Path | ApprovedBefore(j, b, i, p)
      ensures ApprovedBefore(j, a + b, |a| + i, p)
    {
      ApprovedLater(j, a, b, i, p);
    }
    hide ApprovedBefore;
  }

  lemma ApprovedLater(j: Job, a: seq<Consult>, b: seq<Consult>, i: nat, p: Path)
    requires ApprovedBefore(j, b, i, p)
    ensures ApprovedBefore(j, a + b, |a| + i, p)
  {
    hide Approved;
    var k :| 0 <= k < i && k < |b| && Approved(j, b[k], p, true);
    assert (a + b)[|a| + k] == b[k];
  }

  /** Between a directory and one of its entries lies nothing. */
  lemma NothingBetween(prefix: Path, name: Name, a: Path)
    requires SlashFree(name) && |a| > |prefix|
    ensures !(a + [SLASH] <= Child(prefix, name))
  {
    var c := Child(prefix, name);
    assert c == Stem(prefix) + name;
    if |a| < |c| {
      assert c[|a|] == name[|a| - |Stem(prefix)|];
    }
  }

  lemma OwnGuarded(j: Job, prefix: Path, name: Name, c: Consult)
    requires SlashFree(name) && c.path == Child(prefix, name)
    ensures Guarded(j, prefix, [c])
  {
    forall a: Path | |a| > |prefix| && a + [SLASH] <= c.path
      ensures false
    {
      NothingBetween(prefix, name, a);
    }
  }

  lemma ApprovedFirst(j: Job, c: Consult, cs: seq<Consult>, i: nat, a: Path)
    requires Approved(j, c, a, true) && i > 0
    ensures ApprovedBefore(j, [c] + cs, i, a)
  {
    hide Approved;
    assert ([c] + cs)[0] == c;
  }

  lemma StemBelow(prefix: Path, name: Name, path: Path)
    requires Stem(Child(prefix, name)) <= path && Child(prefix, name) != []
    ensures Stem(prefix) <= path
  {
    assert Stem(prefix) <= Child(prefix, name);
  }

  /** What is guarded below an approved directory is guarded from where that directory lies. */
  lemma GuardedUp(j: Job, prefix: Path, name: Name, c: Consult, cs: seq<Consult>)
    requires SlashFree(name) && Child(prefix, name) != [] && Approved(j, c, Child(prefix, name), true)
    requires Guarded(j, Child(prefix, name), cs)
    ensures Guarded(j, prefix, [c] + cs)
  {
    hide Approved, GuardedAt, Child;
    ApprovedPath(j, c, Child(prefix, name));
    OwnGuarded(j, prefix, name, c);
    forall i | 0 <= i < |[c] + cs|
      ensures GuardedAt(j, prefix, [c] + cs, i)
    {
      if i == 0 {
        GuardedLeft(j, prefix, [c], cs, 0);
      } else {
        GuardedStep(j, prefix, name, c, cs, i - 1);
      }
    }
  }

  lemma GuardedStep(j: Job, prefix: Path, name: Name, c: Consult, cs: seq<Consult>, i: nat)
    requires SlashFree(name) && Child(prefix, name) != [] && Approved(j, c, Child(prefix, name), true)
    requires i < |cs| && GuardedAt(j, Child(prefix, name), cs, i)
    ensures GuardedAt(j, prefix, [c] + cs, i + 1)
  {
    hide Approved, ApprovedBefore, Child, SlashFree, GuardedAt;
    var path := cs[i].path;
    assert ([c] + cs)[i + 1] == cs[i];
    GuardedStem(j, Child(prefix, name), cs, i);
    StemBelow(prefix, name, path);
    forall a: Path | |a| > |prefix| && a + [SLASH] <= path
      ensures ApprovedBefore(j, [c] + cs, i + 1, a)
    {
      GuardedBetween(j, prefix, name, c, cs, i, a);
    }
    GuardedBy(j, prefix, [c] + cs, i + 1);
  }

  lemma GuardedStem(j: Job, prefix: Path, cs: seq<Consult>, i: nat)
    requires i < |cs| && GuardedAt(j, prefix, cs, i)
    ensures Stem(prefix) <= cs[i].path
  {
    hide ApprovedBefore, Stem;
  }

  lemma GuardedBy(j: Job, prefix: Path, cs: seq<Consult>, i: nat)
    requires i < |cs| && Stem(prefix) <= cs[i].path
    requires forall a: Path :: |a| > |prefix| && a + [SLASH] <= cs[i].path ==> ApprovedBefore(j, cs, i, a)
    ensures GuardedAt(j, prefix, cs, i)
  {
    hide ApprovedBefore, Stem;
  }

  lemma GuardedBetween(j: Job, prefix: Path, name: Name, c: Consult, cs: seq<Consult>, i: nat, a: Path)
    requires SlashFree(name) && Child(prefix, name) != [] && Approved(j, c, Child(prefix, name), true)
    requires i < |cs| && GuardedAt(j, Child(prefix, name), cs, i) && |a| > |prefix| && a + [SLASH] <= cs[i].path
    ensures ApprovedBefore(j, [c] + cs, i + 1, a)
  {
    hide Approved, ApprovedBefore, Child, SlashFree;
    BetweenSteps(prefix, name, a, cs[i].path);
    if a == Child(prefix, name) {
      ApprovedFirst(j, c, cs, i + 1, a);
    } else {
      ApprovedLater(j, [c], cs, i, a);
    }
  }

  lemma ApprovedPath(j: Job, c: Consult, path: Path)
    requires Approved(j, c, path, true)
    ensures c.path == path
  {
    hide AllowsIn;
  }

  lemma BetweenSteps(prefix: Path, name: Name, a: Path, path: Path)
    requires SlashFree(name) && Child(prefix, name) != [] && Child(prefix, name) + [SLASH] <= path && a + [SLASH] <= path && |a| > |prefix|
    ensures a == Child(prefix, name) || |a| > |Child(prefix, name)|
  {
    var c := Child(prefix, name);
    if |a| == |c| {
      assert a == path[..|a|] && c == path[..|c|];
    } else if |a| < |c| {
      assert a + [SLASH] == path[..|a| + 1] && c == path[..|c|];
      assert a + [SLASH] <= c;
      NothingBetween(prefix, name, a);
    }
  }

  lemma {:induction false} WalkGuarded(j: Job, s: State, fd: Ino, prefix: Path, depth: nat)
    requires JobOk(j) && PlainListings(j.w)
    ensures Guarded(j, prefix, WalkConsults(j, s, fd, prefix, depth))
    decreases if depth <= j.r.maxDepth then j.r.maxDepth + 1 - depth else 0, 1, 0
  {
    hide Validate, EnterAt, EntriesConsults, ApprovedBefore;
    if !j.w.expired(s.now) && depth <= j.r.maxDepth {
      var n := EnterAt(j.w, j.e, s.scope, s.now + 1, prefix);
      if n.fault.None? && !j.w.fails(n.now) {
        EntriesGuarded(j, s.(now := n.now + 1, scope := n.view), j.w.listing(n.now, fd), prefix, depth);
      }
    }
  }

  lemma {:induction false} EntriesGuarded(j: Job, s: State, names: seq<Name>, prefix: Path, depth: nat)
    requires JobOk(j) && depth <= j.r.maxDepth && PlainListings(j.w) && forall n :: n in names ==> SlashFree(n)
    ensures Guarded(j, prefix, EntriesConsults(j, s, names, prefix, depth))
    decreases j.r.maxDepth + 1 - depth, 0, |names| + 2
  {
    hide Validate, EntryAt, EntryConsults, SlashFree, Guarded;
    GuardedNothing(j, prefix);
    if |names| > 0 {
      EntryGuarded(j, s, names[0], prefix, depth);
      var r := EntryAt(j, s, names[0], prefix, depth);
      var first := EntryConsults(j, s, names[0], prefix, depth);
      if r.fault.None? {
        EntriesGuarded(j, r.state, names[1..], prefix, depth);
        GuardedConcat(j, prefix, first, EntriesConsults(j, r.state, names[1..], prefix, depth));
      } else {
        assert first + [] == first;
      }
    }
  }

  lemma GuardedNothing(j: Job, prefix: Path)
    ensures Guarded(j, prefix, [])
  {
  }

  lemma {:induction false} EntryGuarded(j: Job, s: State, name: Name, prefix: Path, depth: nat)
    requires JobOk(j) && depth <= j.r.maxDepth && PlainListings(j.w) && SlashFree(name)
    ensures Guarded(j, prefix, EntryConsults(j, s, name, prefix, depth))
    decreases j.r.maxDepth + 1 - depth, 0, 1
  {
    hide Validate, Admit, WalkConsults, AllowsIn, Guarded, ValidPath, Child, SlashFree, PlainListings;
    GuardedNothing(j, prefix);
    AdmitScope(j, s, prefix, name);
    AdmittedByVerdict(j, s, prefix, name);
    JudgedHere(j, s, prefix, name);
    if Judged(j, s, prefix, name) {
      OwnGuarded(j, prefix, name, JudgedAs(j, s, prefix, name));
    }
    var own := if Judged(j, s, prefix, name) then [JudgedAs(j, s, prefix, name)] else [];
    assert own + [] == own;
    match Admit(j, s, prefix, name)
    case Descend(t, fd, path) =>
      WalkGuarded(j, t, fd, path, depth + 1);
      DescentNamed(prefix, name);
      GuardedUp(j, prefix, name, JudgedAs(j, s, prefix, name), WalkConsults(j, t, fd, path, depth + 1));
    case _ =>
  }

  lemma DescentNamed(prefix: Path, name: Name)
    ensures ValidPath(Child(prefix, name)) ==> Child(prefix, name) != []
  {
  }

  // ---- Hits come from allowed files ----------------------------------------------------------------------------

  /** Every hit is of a file the trace allowed, or was there before. */
  ghost predicate HitsApproved(j: Job, before: seq<Hit>, after: seq<Hit>, cs: seq<Consult>) {
    forall h :: h in after ==> h in before || exists c :: c in cs && Approved(j, c, h.path, false)
  }

  lemma HitsThen(j: Job, x: seq<Hit>, a: seq<Consult>, y: seq<Hit>, b: seq<Consult>, z: seq<Hit>)
    requires HitsApproved(j, x, y, a) && HitsApproved(j, y, z, b)
    ensures HitsApproved(j, x, z, a + b)
  {
    hide Approved;
    forall h | h in z && h !in x
      ensures exists c :: c in a + b && Approved(j, c, h.path, false)
    {
      if h in y {
        var c :| c in a && Approved(j, c, h.path, false);
        assert c in a + b;
      } else {
        var c :| c in b && Approved(j, c, h.path, false);
        assert c in a + b;
      }
    }
  }

  lemma HitsSame(j: Job, x: seq<Hit>, cs: seq<Consult>)
    ensures HitsApproved(j, x, x, cs)
  {
  }

  lemma {:induction false} CollectPaths(j: Job, s: State, path: Path, digest: bytes, content: bytes, found: seq<Match>, ok: bool)
    requires forall m :: m in found ==> m.start <= m.end <= |content|
    ensures forall h :: h in Collect(j, s, path, digest, content, found, ok).state.matches ==> h in s.matches || h.path == path
    decreases |found|
  {
    hide Phantom, Utf8.IsCharBoundary;
    if |found| > 0 {
      var m := found[0];
      var t := s.(now := s.now + 1);
      if Phantom(content, m) {
        CollectPaths(j, t, path, digest, content, found[1..], ok);
      } else if Utf8.IsCharBoundary(content, m.start) && Utf8.IsCharBoundary(content, m.end) {
        CollectPaths(j, Push(j, t, HitOf(path, digest, content, m)), path, digest, content, found[1..], ok);
      }
    }
  }

  lemma FilePaths(j: Job, s: State, fd: Ino, path: Path)
    requires JobOk(j)
    ensures forall h :: h in SearchFileAt(j, s, fd, path).state.matches ==> h in s.matches || h.path == path
  {
    hide CaptureTwice, Validate, Collect, Digest, Utf8.IsCharBoundary;
    var c := CaptureTwice(j, s.now, fd, path);
    if c.outcome.Ok? && c.outcome.value.Some? {
      var content := c.outcome.value.value;
      var t := Searched(s.(now := c.now + 1), content);
      CollectPaths(j, t, path, Digest(j.e, content), content, j.e.find(j.r, content).found, j.e.find(j.r, content).ok);
    }
  }

  lemma {:induction false} WalkApproves(j: Job, s: State, fd: Ino, prefix: Path, depth: nat)
    requires JobOk(j)
    ensures HitsApproved(j, s.matches, WalkAt(j, s, fd, prefix, depth).state.matches, WalkConsults(j, s, fd, prefix, depth))
    decreases if depth <= j.r.maxDepth then j.r.maxDepth + 1 - depth else 0, 1, 0
  {
    hide Validate, EnterAt, EntriesAt, EntriesConsults, HitsApproved;
    HitsSame(j, s.matches, []);
    if !j.w.expired(s.now) && depth <= j.r.maxDepth {
      var n := EnterAt(j.w, j.e, s.scope, s.now + 1, prefix);
      if n.fault.None? && !j.w.fails(n.now) {
        EntriesApprove(j, s.(now := n.now + 1, scope := n.view), j.w.listing(n.now, fd), prefix, depth);
      }
    }
  }

  lemma {:induction false} EntriesApprove(j: Job, s: State, names: seq<Name>, prefix: Path, depth: nat)
    requires JobOk(j) && depth <= j.r.maxDepth
    ensures HitsApproved(j, s.matches, EntriesAt(j, s, names, prefix, depth).state.matches, EntriesConsults(j, s, names, prefix, depth))
    decreases j.r.maxDepth + 1 - depth, 0, |names| + 2
  {
    hide Validate, EntryAt, EntryConsults, HitsApproved;
    HitsSame(j, s.matches, []);
    if |names| > 0 {
      EntryApproves(j, s, names[0], prefix, depth);
      var r := EntryAt(j, s, names[0], prefix, depth);
      var first := EntryConsults(j, s, names[0], prefix, depth);
      if r.fault.None? {
        EntriesApprove(j, r.state, names[1..], prefix, depth);
        HitsThen(j, s.matches, first, r.state.matches, EntriesConsults(j, r.state, names[1..], prefix, depth),
                 EntriesAt(j, r.state, names[1..], prefix, depth).state.matches);
      } else {
        assert first + [] == first;
      }
    }
  }

  lemma {:induction false} EntryApproves(j: Job, s: State, name: Name, prefix: Path, depth: nat)
    requires JobOk(j) && depth <= j.r.maxDepth
    ensures HitsApproved(j, s.matches, EntryAt(j, s, name, prefix, depth).state.matches, EntryConsults(j, s, name, prefix, depth))
    decreases j.r.maxDepth + 1 - depth, 0, 1
  {
    hide Validate, Admit, SearchFileAt, WalkAt, WalkConsults, AllowsIn, HitsApproved;
    AdmitMatches(j, s, prefix, name);
    AdmittedByVerdict(j, s, prefix, name);
    hide Judged, JudgedAs;
    var own := if Judged(j, s, prefix, name) then [JudgedAs(j, s, prefix, name)] else [];
    HitsSame(j, s.matches, own);
    assert own + [] == own;
    match Admit(j, s, prefix, name)
    case Done(r) =>
    case Inspect(t, fd, path) =>
      FilePaths(j, t, fd, path);
      InspectApproves(j, s.matches, SearchFileAt(j, t, fd, path).state.matches, own[0], path);
    case Descend(t, fd, path) =>
      WalkApproves(j, t, fd, path, depth + 1);
      HitsThen(j, s.matches, own, s.matches, WalkConsults(j, t, fd, path, depth + 1), WalkAt(j, t, fd, path, depth + 1).state.matches);
  }

  lemma InspectApproves(j: Job, before: seq<Hit>, after: seq<Hit>, c: Consult, path: Path)
    requires Approved(j, c, path, false) && forall h :: h in after ==> h in before || h.path == path
    ensures HitsApproved(j, before, after, [c])
  {
    hide Approved;
    assert c in [c];
  }

  lemma AdmitMatches(j: Job, s: State, prefix: Path, name: Name)
    ensures match Admit(j, s, prefix, name)
            case Done(r) => r.state.matches == s.matches
            case Descend(t, _, _) => t.matches == s.matches
            case Inspect(t, _, _) => t.matches == s.matches
  {
    hide AllowsIn, ValidPath, ExcludedPath, Utf8.Valid, Relevant, Child, IsDots;
  }

  /**
   In any file system whose listings give plain names, every hit of every search and read is of a file that was allowed
   when the walk came to it, after every directory between the root and that file had been allowed.
   */
  lemma HitsLieInScope(j: Job, fd: Ino, h: Hit) returns (i: nat)
    requires Sound(j.e) && PlainListings(j.w) && SearchAt(j, fd).Ok? && h in SearchAt(j, fd).value.matches
    ensures Validate(j.r).None?
    ensures var cs := WalkConsults(j, Initial(j.r), fd, [], 0);
            && i < |cs| && Approved(j, cs[i], h.path, false)
            && forall a: Path :: a != [] && a + [SLASH] <= h.path ==> ApprovedBefore(j, cs, i, a)
  {
    hide WalkAt, WalkConsults, VerifyAt, Preimage, ScopeAcceptable, BoundsAcceptable, Sound, Digest, AllowsIn, PlainListings,
      ApprovedBefore;
    WalkApproves(j, Initial(j.r), fd, [], 0);
    WalkGuarded(j, Initial(j.r), fd, [], 0);
    var cs := WalkConsults(j, Initial(j.r), fd, [], 0);
    var c :| c in cs && Approved(j, c, h.path, false);
    i :| 0 <= i < |cs| && cs[i] == c;
    assert GuardedAt(j, [], cs, i);
  }

  // ---- What a walk can touch ---------------------------------------------------------------------------------

  /** Rules of paths that do not lie in the directory are as they were. */
  ghost predicate TouchesBelow(a: View, b: View, prefix: Path) {
    b.input == a.input && forall p :: prefix != [] && !Relevant(prefix, p) ==> SameAt(a, b, p)
  }

  predicate SameAt(a: View, b: View, p: Path) {
    (p in a.rules <==> p in b.rules) && (p in a.rules ==> a.rules[p] == b.rules[p])
  }

  /** The path lies in none of these entries. */
  predicate OutsideAll(prefix: Path, names: seq<Name>, p: Path) {
    forall n :: n in names && ValidPath(Child(prefix, n)) ==> !Relevant(Child(prefix, n), p)
  }

  ghost predicate TouchesEntries(a: View, b: View, prefix: Path, names: seq<Name>) {
    b.input == a.input && forall p :: OutsideAll(prefix, names, p) ==> SameAt(a, b, p)
  }

  lemma EnterTouches(w: World, e: Engine, s: View, now: nat, prefix: Path)
    ensures var n := EnterAt(w, e, s, now, prefix);
            && n.view.input == s.input
            && (n.view.rules == s.rules || (prefix in n.view.rules && n.view.rules == s.rules[prefix := n.view.rules[prefix]]))
            && (n.fault.Some? || !s.input.respectIgnore ==> n.view.rules == s.rules)
  {
    hide LoadAt;
    if s.input.respectIgnore {
      LoadKeepsRules(w, e, s, now, prefix, GITIGNORE);
      var one := LoadAt(w, e, s, now, prefix, GITIGNORE);
      if one.outcome.Ok? {
        LoadKeepsRules(w, e, one.view, one.now, prefix, IGNORE);
      }
    }
  }

  lemma {:induction false} WalkTouches(j: Job, s: State, fd: Ino, prefix: Path, depth: nat)
    requires JobOk(j)
    ensures TouchesBelow(s.scope, WalkAt(j, s, fd, prefix, depth).state.scope, prefix)
    decreases if depth <= j.r.maxDepth then j.r.maxDepth + 1 - depth else 0, 1, 0
  {
    hide Validate, EnterAt, EntriesAt, ValidPath, Child, Relevant;
    EnterTouches(j.w, j.e, s.scope, s.now + 1, prefix);
    Reflexive(prefix);
    if !j.w.expired(s.now) && depth <= j.r.maxDepth {
      var n := EnterAt(j.w, j.e, s.scope, s.now + 1, prefix);
      if n.fault.None? && !j.w.fails(n.now) {
        var t := s.(now := n.now + 1, scope := n.view);
        var names := j.w.listing(n.now, fd);
        EntriesTouch(j, t, names, prefix, depth);
        forall p | prefix != [] && !Relevant(prefix, p)
          ensures SameAt(s.scope, EntriesAt(j, t, names, prefix, depth).state.scope, p)
        {
          NothingBelow(prefix, names, p);
        }
      }
    }
  }

  lemma Reflexive(p: Path)
    ensures Relevant(p, p)
  {
  }

  lemma NothingBelow(prefix: Path, names: seq<Name>, p: Path)
    requires prefix != [] && !Relevant(prefix, p)
    ensures OutsideAll(prefix, names, p)
  {
    forall n | n in names
      ensures !Relevant(Child(prefix, n), p)
    {
      IrrelevantBelow(prefix, n, p);
    }
    hide Relevant, Child, ValidPath;
  }

  lemma {:induction false} EntriesTouch(j: Job, s: State, names: seq<Name>, prefix: Path, depth: nat)
    requires JobOk(j) && depth <= j.r.maxDepth
    ensures TouchesEntries(s.scope, EntriesAt(j, s, names, prefix, depth).state.scope, prefix, names)
    decreases j.r.maxDepth + 1 - depth, 0, |names| + 2
  {
    hide Validate, EntryAt, ValidPath, Child, Relevant;
    if |names| > 0 {
      EntryTouches(j, s, names[0], prefix, depth);
      var r := EntryAt(j, s, names[0], prefix, depth);
      OutsideFewer(prefix, names);
      hide OutsideAll;
      if r.fault.None? {
        EntriesTouch(j, r.state, names[1..], prefix, depth);
      }
    }
  }

  lemma OutsideFewer(prefix: Path, names: seq<Name>)
    requires |names| > 0
    ensures forall p :: OutsideAll(prefix, names, p) ==> OutsideAll(prefix, [names[0]], p) && OutsideAll(prefix, names[1..], p)
  {
    hide ValidPath, Child, Relevant;
  }

  lemma {:induction false} EntryTouches(j: Job, s: State, name: Name, prefix: Path, depth: nat)
    requires JobOk(j) && depth <= j.r.maxDepth
    ensures TouchesEntries(s.scope, EntryAt(j, s, name, prefix, depth).state.scope, prefix, [name])
    decreases j.r.maxDepth + 1 - depth, 0, 1
  {
    hide Validate, Admit, SearchFileAt, WalkAt, Relevant;
    AdmitScope(j, s, prefix, name);
    match Admit(j, s, prefix, name)
    case Done(r) =>
    case Inspect(t, fd, path) => FileScope(j, t, fd, path);
    case Descend(t, fd, path) =>
      AdmittedByVerdict(j, s, prefix, name);
      WalkTouches(j, t, fd, path, depth + 1);
      assert name in [name] && path != [];
      hide ValidPath, Child;
  }

  // ---- Verdicts on what an earlier sibling holds ----------------------------------------------------------------

  lemma {:induction false} RulingSame(e: Engine, a: View, b: View, layer: Layer, path: Path, directory: bool, from: Path)
    requires forall p :: p == [] || Relevant(p, from) ==> SameAt(a, b, p)
    ensures FindRuling(e, a.rules, layer, path, directory, from) == FindRuling(e, b.rules, layer, path, directory, from)
    decreases |from|
  {
    Reflexive(from);
    if from != [] {
      forall p | Relevant(p, Parent(from))
        ensures p == [] || Relevant(p, from)
      {
        ParentAbove(from, p);
      }
      hide Relevant;
      RulingSame(e, a, b, layer, path, directory, Parent(from));
    }
  }

  /** A parent is empty or a proper stretch before a slash. */
  lemma {:induction false} ParentCut(path: Path)
    ensures Parent(path) == [] || Parent(path) + [SLASH] <= path
    decreases |path|
  {
    if path != [] {
      var up := path[..|path| - 1];
      if path[|path| - 1] == SLASH {
        assert up + [SLASH] == path;
      } else {
        ParentCut(up);
        assert Parent(up) + [SLASH] <= up ==> Parent(up) + [SLASH] <= path;
      }
    }
  }

  lemma ParentAbove(path: Path, p: Path)
    requires Relevant(p, Parent(path))
    ensures p == [] || Relevant(p, path)
  {
    ParentCut(path);
    if Parent(path) != [] && p != Parent(path) {
      assert p + [SLASH] <= Parent(path) <= path;
    }
  }

  lemma AllowsSame(e: Engine, a: View, b: View, path: Path, directory: bool)
    requires a.input == b.input
    requires forall p :: p == [] || Relevant(p, Parent(path)) ==> SameAt(a, b, p)
    ensures AllowsIn(e, a, path, directory) <==> AllowsIn(e, b, path, directory)
  {
    hide FindRuling, Relevant, ExplicitlyAllowed, SameAt;
    RulingSame(e, a, b, DotIgnore, path, directory, Parent(path));
    RulingSame(e, a, b, GitIgnore, path, directory, Parent(path));
  }

  /** In any file system: walking other entries never changes a verdict on an entry of the same directory or below it. */
  lemma SiblingVerdictStands(j: Job, s: State, names: seq<Name>, prefix: Path, depth: nat, earlier: Name, path: Path, directory: bool)
    requires JobOk(j) && depth <= j.r.maxDepth
    requires SlashFree(earlier) && earlier !in names && forall n :: n in names ==> SlashFree(n)
    requires Relevant(Child(prefix, earlier), path)
    ensures AllowsIn(j.e, s.scope, path, directory) <==> AllowsIn(j.e, EntriesAt(j, s, names, prefix, depth).state.scope, path, directory)
  {
    hide Validate, EntriesAt, AllowsIn, SameAt;
    EntriesTouch(j, s, names, prefix, depth);
    var t := EntriesAt(j, s, names, prefix, depth).state;
    forall p | p == [] || Relevant(p, Parent(path))
      ensures SameAt(s.scope, t.scope, p)
    {
      if p != [] {
        ParentAbove(path, p);
      }
      AboveIsOutside(prefix, names, earlier, path, p);
    }
    AllowsSame(j.e, s.scope, t.scope, path, directory);
  }

  lemma AboveIsOutside(prefix: Path, names: seq<Name>, earlier: Name, path: Path, p: Path)
    requires SlashFree(earlier) && earlier !in names && forall n :: n in names ==> SlashFree(n)
    requires Relevant(Child(prefix, earlier), path) && (p == [] || Relevant(p, path))
    ensures OutsideAll(prefix, names, p)
  {
    forall n | n in names && ValidPath(Child(prefix, n))
      ensures !Relevant(Child(prefix, n), p)
    {
      if Relevant(Child(prefix, n), p) {
        RelevantThrough(Child(prefix, n), p, path);
        RelevantChildUnique(prefix, n, earlier, path);
      }
    }
  }

  lemma RelevantThrough(a: Path, b: Path, c: Path)
    requires a != [] && Relevant(a, b) && (b == [] || Relevant(b, c))
    ensures Relevant(a, c)
  {
    if a != b && b != c {
      assert a + [SLASH] <= b <= c;
    }
  }

  // ---- No verdict is overturned -----------------------------------------------------------------------------------

  /** Rules are added and never replaced. */
  ghost predicate Extends(a: View, b: View) {
    b.input == a.input && forall p :: p in a.rules ==> p in b.rules && b.rules[p] == a.rules[p]
  }

  /** The views at which verdicts were given lie in order between two views. */
  ghost predicate Between(a: View, cs: seq<Consult>, b: View) {
    && Extends(a, b)
    && (forall i :: 0 <= i < |cs| ==> Extends(a, cs[i].view) && Extends(cs[i].view, b))
    && (forall i, k :: 0 <= i < k < |cs| ==> Extends(cs[i].view, cs[k].view))
  }

  lemma ExtendsChain(a: View, b: View, c: View)
    requires Extends(a, b) && Extends(b, c)
    ensures Extends(a, c)
  {
  }

  lemma BetweenConcat(a: View, cs: seq<Consult>, b: View, ds: seq<Consult>, c: View)
    requires Between(a, cs, b) && Between(b, ds, c)
    ensures Between(a, cs + ds, c)
  {
    hide Extends;
    ExtendsChain(a, b, c);
    var es := cs + ds;
    forall i | 0 <= i < |es|
      ensures Extends(a, es[i].view) && Extends(es[i].view, c)
    {
      if i < |cs| {
        ExtendsChain(es[i].view, b, c);
      } else {
        ExtendsChain(a, b, es[i].view);
      }
    }
    forall i, k | 0 <= i < k < |es|
      ensures Extends(es[i].view, es[k].view)
    {
      if i < |cs| <= k {
        ExtendsChain(es[i].view, b, es[k].view);
      }
    }
  }

  lemma BetweenNothing(a: View, b: View)
    requires Extends(a, b)
    ensures Between(a, [], b)
  {
  }

  /** No rules are loaded in the directory yet. */
  ghost predicate Untouched(v: View, prefix: Path) { forall p :: p in v.rules ==> prefix != [] && !Relevant(prefix, p) }

  ghost predicate UntouchedEntries(v: View, prefix: Path, names: seq<Name>) {
    forall n :: n in names && ValidPath(Child(prefix, n)) ==> Untouched(v, Child(prefix, n))
  }

  /** Entering a directory for the first time leaves its entries untouched. */
  lemma EnteredUntouched(w: World, e: Engine, s: View, now: nat, prefix: Path, names: seq<Name>)
    requires Untouched(s, prefix)
    ensures var v := EnterAt(w, e, s, now, prefix).view;
            Extends(s, v) && UntouchedEntries(v, prefix, names)
  {
    EnterTouches(w, e, s, now, prefix);
    hide EnterAt;
    var v := EnterAt(w, e, s, now, prefix).view;
    Reflexive(prefix);
    forall n, p | n in names && ValidPath(Child(prefix, n)) && p in v.rules
      ensures Child(prefix, n) != [] && !Relevant(Child(prefix, n), p)
    {
      NotWithin(s, prefix, n, p);
    }
  }

  lemma NotWithin(s: View, prefix: Path, n: Name, p: Path)
    requires Untouched(s, prefix) && ValidPath(Child(prefix, n)) && (p == prefix || p in s.rules)
    ensures !Relevant(Child(prefix, n), p)
  {
    ChildLonger(prefix, n);
    if p in s.rules {
      IrrelevantBelow(prefix, n, p);
    }
  }

  /** Walking one entry leaves its siblings untouched. */
  lemma SiblingsUntouched(a: View, b: View, prefix: Path, names: seq<Name>)
    requires |names| > 0 && Distinct(names) && (forall n :: n in names ==> SlashFree(n))
    requires UntouchedEntries(a, prefix, names) && TouchesEntries(a, b, prefix, [names[0]])
    ensures UntouchedEntries(b, prefix, names[1..])
  {
    forall n, p | n in names[1..] && ValidPath(Child(prefix, n)) && p in b.rules
      ensures Child(prefix, n) != [] && !Relevant(Child(prefix, n), p)
    {
      assert n in names && n != names[0];
      if Relevant(Child(prefix, n), p) {
        assert p !in a.rules;
        SameOutside(a, b, prefix, names[0], p);
        RelevantChildUnique(prefix, n, names[0], p);
      }
    }
  }

  lemma SameOutside(a: View, b: View, prefix: Path, name: Name, p: Path)
    requires TouchesEntries(a, b, prefix, [name]) && p in b.rules && p !in a.rules
    ensures Relevant(Child(prefix, name), p)
  {
    hide ValidPath, Child, Relevant;
    assert !OutsideAll(prefix, [name], p);
  }

  lemma {:induction false} WalkExtends(j: Job, s: State, fd: Ino, prefix: Path, depth: nat)
    requires JobOk(j) && ProperListings(j.w) && Untouched(s.scope, prefix)
    ensures Between(s.scope, WalkConsults(j, s, fd, prefix, depth), WalkAt(j, s, fd, prefix, depth).state.scope)
    decreases if depth <= j.r.maxDepth then j.r.maxDepth + 1 - depth else 0, 1, 0
  {
    hide Validate, EnterAt, EntriesAt, EntriesConsults, Between, Extends, Untouched, UntouchedEntries;
    ExtendsRefl(s.scope);
    BetweenNothing(s.scope, s.scope);
    if !j.w.expired(s.now) && depth <= j.r.maxDepth {
      var n := EnterAt(j.w, j.e, s.scope, s.now + 1, prefix);
      var names := j.w.listing(n.now, fd);
      EnteredUntouched(j.w, j.e, s.scope, s.now + 1, prefix, names);
      BetweenNothing(s.scope, n.view);
      if n.fault.None? && !j.w.fails(n.now) {
        var t := s.(now := n.now + 1, scope := n.view);
        EntriesExtend(j, t, names, prefix, depth);
        var cs := EntriesConsults(j, t, names, prefix, depth);
        BetweenConcat(s.scope, [], n.view, cs, EntriesAt(j, t, names, prefix, depth).state.scope);
        assert [] + cs == cs;
      }
    }
  }

  lemma ExtendsRefl(a: View)
    ensures Extends(a, a)
  {
  }

  lemma {:induction false} EntriesExtend(j: Job, s: State, names: seq<Name>, prefix: Path, depth: nat)
    requires JobOk(j) && depth <= j.r.maxDepth && ProperListings(j.w)
    requires Distinct(names) && (forall n :: n in names ==> SlashFree(n)) && UntouchedEntries(s.scope, prefix, names)
    ensures Between(s.scope, EntriesConsults(j, s, names, prefix, depth), EntriesAt(j, s, names, prefix, depth).state.scope)
    decreases j.r.maxDepth + 1 - depth, 0, |names| + 2
  {
    hide Validate, EntryAt, EntryConsults, Between, Extends, Untouched, TouchesEntries, SlashFree, ProperListings;
    if |names| == 0 {
      ExtendsRefl(s.scope);
      BetweenNothing(s.scope, s.scope);
    } else {
      EntryExtends(j, s, names[0], prefix, depth);
      var r := EntryAt(j, s, names[0], prefix, depth);
      var cs := EntryConsults(j, s, names[0], prefix, depth);
      if r.fault.Some? {
        assert cs + [] == cs;
      } else {
        EntryTouches(j, s, names[0], prefix, depth);
        SiblingsUntouched(s.scope, r.state.scope, prefix, names);
        EntriesExtend(j, r.state, names[1..], prefix, depth);
        BetweenConcat(s.scope, cs, r.state.scope, EntriesConsults(j, r.state, names[1..], prefix, depth),
                      EntriesAt(j, r.state, names[1..], prefix, depth).state.scope);
      }
    }
  }

  lemma {:induction false} EntryExtends(j: Job, s: State, name: Name, prefix: Path, depth: nat)
    requires JobOk(j) && depth <= j.r.maxDepth && ProperListings(j.w)
    requires ValidPath(Child(prefix, name)) ==> Untouched(s.scope, Child(prefix, name))
    ensures Between(s.scope, EntryConsults(j, s, name, prefix, depth), EntryAt(j, s, name, prefix, depth).state.scope)
    decreases j.r.maxDepth + 1 - depth, 0, 1
  {
    hide Validate, Admit, SearchFileAt, WalkAt, WalkConsults, Untouched, Extends, ProperListings, ValidPath, Child;
    ExtendsRefl(s.scope);
    AdmitScope(j, s, prefix, name);
    AdmittedByVerdict(j, s, prefix, name);
    JudgedHere(j, s, prefix, name);
    var own := if Judged(j, s, prefix, name) then [JudgedAs(j, s, prefix, name)] else [];
    assert Between(s.scope, own, s.scope);
    hide Judged, JudgedAs, Between;
    assert own + [] == own;
    match Admit(j, s, prefix, name)
    case Done(r) =>
    case Inspect(t, fd, path) => FileScope(j, t, fd, path);
    case Descend(t, fd, path) =>
      WalkExtends(j, t, fd, path, depth + 1);
      BetweenConcat(s.scope, own, s.scope, WalkConsults(j, t, fd, path, depth + 1), WalkAt(j, t, fd, path, depth + 1).state.scope);
  }

  lemma JudgedHere(j: Job, s: State, prefix: Path, name: Name)
    ensures Judged(j, s, prefix, name) ==> JudgedAs(j, s, prefix, name).view == s.scope && ValidPath(Child(prefix, name))
  {
    hide ValidPath, ExcludedPath, Utf8.Valid, IsDots, Relevant, Child, AnchorAt;
  }

  /** With every ancestor's rules loaded, rules added later change nothing. */
  lemma VerdictExtends(e: Engine, a: View, b: View, path: Path, directory: bool)
    requires Extends(a, b) && (a.input.respectIgnore ==> AllLoaded(a.rules, Parent(path)))
    ensures AllowsIn(e, a, path, directory) <==> AllowsIn(e, b, path, directory)
  {
    hide AllLoaded, Relevant, FindRuling, ExplicitlyAllowed;
    if a.input.respectIgnore {
      forall p | p == [] || Relevant(p, Parent(path))
        ensures SameAt(a, b, p)
      {
        LoadedAbove(a.rules, Parent(path), p);
      }
      AllowsSame(e, a, b, path, directory);
    }
  }

  /**
   With listings that give each entry once: every verdict a walk asks for is the one it would get at any later point of
   the walk, and at its end.
   */
  lemma VerdictsStand(j: Job, fd: Ino, i: nat, directory: bool)
    requires JobOk(j) && ProperListings(j.w)
    requires i < |WalkConsults(j, Initial(j.r), fd, [], 0)|
    ensures var cs := WalkConsults(j, Initial(j.r), fd, [], 0);
            && (AllowsIn(j.e, cs[i].view, cs[i].path, directory)
                <==> AllowsIn(j.e, WalkAt(j, Initial(j.r), fd, [], 0).state.scope, cs[i].path, directory))
            && (forall k :: i < k < |cs| ==>
                  (AllowsIn(j.e, cs[i].view, cs[i].path, directory) <==> AllowsIn(j.e, cs[k].view, cs[i].path, directory)))
  {
    hide Validate, WalkAt, WalkConsults, Extends, AllowsIn, AllLoaded, Sound;
    WalkExtends(j, Initial(j.r), fd, [], 0);
    WalkInformed(j, Initial(j.r), fd, [], 0);
    var cs := WalkConsults(j, Initial(j.r), fd, [], 0);
    assert Informed(cs[i], j.r.scope);
    VerdictExtends(j.e, cs[i].view, WalkAt(j, Initial(j.r), fd, [], 0).state.scope, cs[i].path, directory);
    forall k | i < k < |cs|
      ensures AllowsIn(j.e, cs[i].view, cs[i].path, directory) <==> AllowsIn(j.e, cs[k].view, cs[i].path, directory)
    {
      VerdictExtends(j.e, cs[i].view, cs[k].view, cs[i].path, directory);
    }
  }
}
