/** When the bound of 4096 ignore-file records holds, and what one directory must be like to pass it. */
module PolicyLimits {
  import opened Basics
  import opened Paths
  import opened World
  import opened Protocol
  import opened Engines
  import opened Scoping
  import opened Searching
  import opened ScopeInvariants
  import opened ReadAgreement
  import Refinement

  // ---- One entry ---------------------------------------------------------------------------------

  /** Loading an ignore file gets as far as recording what it read. */
  ghost predicate Recordable(w: World, e: Engine, s: View, now: nat, prefix: Path, name: Name) {
    var c := PolicyAt(w, now, Child(prefix, name));
    && c.outcome.Ok?
    && (c.outcome.value.Some? ==> s.policyBytes + |c.outcome.value.value| <= POLICY_BYTES)
    && AddLines(w, e, s.policyLines, c.now, LinesRead(e, c.outcome.value)).fault.None?
  }

  function LinesRead(e: Engine, captured: Option<bytes>): seq<bytes> {
    if captured.Some? then e.lines(captured.value) else []
  }

  lemma RecordedIff(w: World, e: Engine, s: View, now: nat, prefix: Path, name: Name)
    ensures var l := LoadAt(w, e, s, now, prefix, name);
            && (l.outcome.Ok? ==> Recordable(w, e, s, now, prefix, name))
            && Keys(l.view.observations)
               == if Recordable(w, e, s, now, prefix, name) then Keys(s.observations) + {Child(prefix, name)} else Keys(s.observations)
  {
    hide PolicyAt, AddLines, Keys, Child;
    var c := PolicyAt(w, now, Child(prefix, name));
    if c.outcome.Ok? {
      ObserveKeys(s.observations, Observation(Child(prefix, name), c.outcome.value));
    }
  }

  /** 4095 records so far; the directory's `.gitignore` is new and loads; its `.ignore` can be recorded. */
  ghost predicate TwoTooMany(w: World, e: Engine, s: View, now: nat, prefix: Path) {
    && s.input.respectIgnore
    && |s.observations| == 4095
    && Child(prefix, GITIGNORE) !in Keys(s.observations)
    && var one := LoadAt(w, e, s, now, prefix, GITIGNORE);
       one.outcome.Ok? && Recordable(w, e, one.view, one.now, prefix, IGNORE)
  }

  /** What entering a directory leaves recorded. */
  lemma EnterKeys(w: World, e: Engine, s: View, now: nat, prefix: Path)
    requires s.input.respectIgnore && |s.observations| < OBSERVATIONS
    ensures var one := LoadAt(w, e, s, now, prefix, GITIGNORE);
            var two := one.outcome.Ok? && Recordable(w, e, one.view, one.now, prefix, IGNORE);
            && (one.outcome.Ok? ==> Recordable(w, e, s, now, prefix, GITIGNORE))
            && Keys(EnterAt(w, e, s, now, prefix).view.observations)
               == Keys(s.observations)
                  + (if Recordable(w, e, s, now, prefix, GITIGNORE) then {Child(prefix, GITIGNORE)} else {})
                  + (if two then {Child(prefix, IGNORE)} else {})
  {
    hide LoadAt, Keys, Recordable, Child;
    RecordedIff(w, e, s, now, prefix, GITIGNORE);
    var one := LoadAt(w, e, s, now, prefix, GITIGNORE);
    RecordedIff(w, e, one.view, one.now, prefix, IGNORE);
  }

  lemma EnterStands(w: World, e: Engine, s: View, now: nat, prefix: Path)
    requires !s.input.respectIgnore || |s.observations| >= OBSERVATIONS
    ensures EnterAt(w, e, s, now, prefix).view == s
  {
    hide LoadAt;
  }

  /** Entering a directory passes the documented 4096 exactly then. */
  lemma EnterPassesBound(w: World, e: Engine, s: View, now: nat, prefix: Path)
    requires Bounded(s) && |s.observations| <= OBSERVATIONS
    ensures |EnterAt(w, e, s, now, prefix).view.observations| > 4096 <==> TwoTooMany(w, e, s, now, prefix)
  {
    hide LoadAt, Keys, ObservedBytes, Recordable, Child, EnterAt;
    if !s.input.respectIgnore || |s.observations| >= OBSERVATIONS {
      EnterStands(w, e, s, now, prefix);
    } else {
      EnterGrows(w, e, s, now, prefix);
      EnterKeys(w, e, s, now, prefix);
      IgnoreFollows(Keys(s.observations), prefix);
      SiblingsDiffer(prefix);
      var v := EnterAt(w, e, s, now, prefix).view;
      SortedKeys(s.observations);
      SortedKeys(v.observations);
      TwoMore(Keys(s.observations), Keys(v.observations), Child(prefix, GITIGNORE), Child(prefix, IGNORE));
    }
  }

  /** A directory's `.ignore` is new when its `.gitignore` is. */
  lemma IgnoreFollows(keys: set<Path>, prefix: Path)
    requires Laid(keys)
    ensures Child(prefix, IGNORE) in keys ==> Child(prefix, GITIGNORE) in keys
  {
    ParentOfChild(prefix, IGNORE);
  }

  lemma TwoMore(old_: set<Path>, new_: set<Path>, a: Path, b: Path)
    requires old_ <= new_ <= old_ + {a, b} && a != b
    ensures |new_| <= |old_| + 2
    ensures |new_| == |old_| + 2 <==> a in new_ - old_ && b in new_ - old_
  {
    var more := new_ - old_;
    assert new_ == old_ + more && old_ !! more;
    if a in more && b in more {
      assert more == {a, b};
    } else if a in more {
      assert more == {a};
    } else if b in more {
      assert more == {b};
    } else {
      assert more == {};
    }
  }

  lemma SiblingsDiffer(prefix: Path)
    ensures Child(prefix, GITIGNORE) != Child(prefix, IGNORE)
  {
    assert |Child(prefix, GITIGNORE)| == |Child(prefix, IGNORE)| + 3;
  }

  // ---- A whole walk --------------------------------------------------------------------------------

  function ChildrenNamed(dirs: set<Path>, name: Name): set<Path> { set d | d in dirs :: Child(d, name) }

  lemma {:induction false} ChildrenCount(dirs: set<Path>, name: Name)
    requires SlashFree(name)
    ensures |ChildrenNamed(dirs, name)| == |dirs|
  {
    if dirs == {} {
      assert ChildrenNamed(dirs, name) == {};
    } else {
      var d :| d in dirs;
      var rest := dirs - {d};
      ChildrenCount(rest, name);
      forall x | x in rest
        ensures Child(x, name) != Child(d, name)
      {
        ParentOfChild(x, name);
        ParentOfChild(d, name);
      }
      assert ChildrenNamed(dirs, name) == ChildrenNamed(rest, name) + {Child(d, name)};
    }
  }

  /** Every recorded `.gitignore` has its `.ignore` recorded beside it. */
  ghost predicate Paired(keys: set<Path>) {
    forall p :: p in keys && GitIgnorePath(p) ==> Child(Parent(p), IGNORE) in keys
  }

  /** Directories whose `.gitignore` is recorded. */
  function Entries(keys: set<Path>): set<Path> { set p | p in keys && GitIgnorePath(p) :: Parent(p) }

  lemma PairedKeys(keys: set<Path>, p: Path)
    requires Laid(keys) && Paired(keys)
    ensures p in keys <==> p in ChildrenNamed(Entries(keys), GITIGNORE) || p in ChildrenNamed(Entries(keys), IGNORE)
  {
    hide Child, Parent;
    if p in keys && IgnorePath(p) {
      var g := Child(Parent(p), GITIGNORE);
      ParentOfChild(Parent(p), GITIGNORE);
      assert g in keys && GitIgnorePath(g);
      assert Parent(p) in Entries(keys);
    }
  }

  lemma KindsDisjoint(dirs: set<Path>)
    ensures ChildrenNamed(dirs, GITIGNORE) !! ChildrenNamed(dirs, IGNORE)
  {
    hide Child, Parent;
    forall d, f | d in dirs && f in dirs
      ensures Child(d, GITIGNORE) != Child(f, IGNORE)
    {
      ParentOfChild(d, GITIGNORE);
      ParentOfChild(f, IGNORE);
      SiblingsDiffer(d);
    }
  }

  lemma PairedIsEven(keys: set<Path>)
    requires Laid(keys) && Paired(keys)
    ensures |keys| % 2 == 0
  {
    hide Laid, Paired, ChildrenNamed, Entries;
    var dirs := Entries(keys);
    ChildrenCount(dirs, GITIGNORE);
    ChildrenCount(dirs, IGNORE);
    KindsDisjoint(dirs);
    forall p
      ensures p in keys <==> p in ChildrenNamed(dirs, GITIGNORE) + ChildrenNamed(dirs, IGNORE)
    {
      PairedKeys(keys, p);
    }
    assert keys == ChildrenNamed(dirs, GITIGNORE) + ChildrenNamed(dirs, IGNORE);
  }

  lemma StartLaid(j: Job)
    ensures Bounded(Initial(j.r).scope)
  {
  }

  /** A directory entered by a walk: with which records, when and where. */
  datatype Entering = Entering(view: View, now: nat, prefix: Path)

  ghost function WalkEnters(j: Job, s: State, fd: Ino, prefix: Path, depth: nat): seq<Entering>
    requires JobOk(j)
    decreases if depth <= j.r.maxDepth then j.r.maxDepth + 1 - depth else 0, 1, 0
  {
    if j.w.expired(s.now) || depth > j.r.maxDepth then []
    else
      var n := EnterAt(j.w, j.e, s.scope, s.now + 1, prefix);
      [Entering(s.scope, s.now + 1, prefix)]
      + if n.fault.Some? || j.w.fails(n.now) then []
        else EntriesEnter(j, s.(now := n.now + 1, scope := n.view), j.w.listing(n.now, fd), prefix, depth)
  }

  ghost function EntriesEnter(j: Job, s: State, names: seq<Name>, prefix: Path, depth: nat): seq<Entering>
    requires JobOk(j) && depth <= j.r.maxDepth
    decreases j.r.maxDepth + 1 - depth, 0, |names| + 2
  {
    if |names| == 0 then []
    else
      var r := EntryAt(j, s, names[0], prefix, depth);
      EntryEnters(j, s, names[0], prefix, depth) + if r.fault.Some? then [] else EntriesEnter(j, r.state, names[1..], prefix, depth)
  }

  ghost function EntryEnters(j: Job, s: State, name: Name, prefix: Path, depth: nat): seq<Entering>
    requires JobOk(j) && depth <= j.r.maxDepth
    decreases j.r.maxDepth + 1 - depth, 0, 1
  {
    match Admit(j, s, prefix, name)
    case Descend(t, fd, path) => WalkEnters(j, t, fd, path, depth + 1)
    case _ => []
  }

  ghost predicate SomePasses(j: Job, es: seq<Entering>) {
    exists x :: x in es && TwoTooMany(j.w, j.e, x.view, x.now, x.prefix)
  }

  lemma SomePassesConcat(j: Job, a: seq<Entering>, b: seq<Entering>)
    ensures SomePasses(j, a + b) <==> SomePasses(j, a) || SomePasses(j, b)
  {
    hide TwoTooMany;
  }

  /** From within the bound, the record ends beyond it exactly when one of these directories passed it. */
  ghost predicate Accounts(j: Job, s: View, es: seq<Entering>, t: View) {
    Bounded(s) ==> (|t.observations| > OBSERVATIONS <==> |s.observations| > OBSERVATIONS || SomePasses(j, es))
  }

  lemma AccountsThen(j: Job, s: View, a: seq<Entering>, t: View, b: seq<Entering>, u: View)
    requires Accounts(j, s, a, t) && Accounts(j, t, b, u) && (Bounded(s) ==> Bounded(t))
    ensures Accounts(j, s, a + b, u)
  {
    SomePassesConcat(j, a, b);
    hide Bounded, SomePasses;
  }

  lemma AccountsNothing(j: Job, s: View, t: View)
    requires t.observations == s.observations
    ensures Accounts(j, s, [], t)
  {
    hide TwoTooMany, Bounded;
  }

  lemma EnterAccounts(j: Job, s: View, now: nat, prefix: Path)
    ensures Accounts(j, s, [Entering(s, now, prefix)], EnterAt(j.w, j.e, s, now, prefix).view)
  {
    var x := Entering(s, now, prefix);
    hide EnterAt, Bounded;
    if Bounded(s) {
      if |s.observations| <= OBSERVATIONS {
        EnterPassesBound(j.w, j.e, s, now, prefix);
        hide TwoTooMany;
        assert x in [x];
      } else {
        EnterStands(j.w, j.e, s, now, prefix);
      }
    }
  }

  lemma {:induction false} WalkAccounts(j: Job, s: State, fd: Ino, prefix: Path, depth: nat)
    requires JobOk(j)
    ensures Accounts(j, s.scope, WalkEnters(j, s, fd, prefix, depth), WalkAt(j, s, fd, prefix, depth).state.scope)
    decreases if depth <= j.r.maxDepth then j.r.maxDepth + 1 - depth else 0, 1, 0
  {
    hide Validate, EnterAt, EntriesAt, EntriesEnter, Accounts, Bounded, Keys;
    AccountsNothing(j, s.scope, s.scope);
    if !j.w.expired(s.now) && depth <= j.r.maxDepth {
      var n := EnterAt(j.w, j.e, s.scope, s.now + 1, prefix);
      var one := [Entering(s.scope, s.now + 1, prefix)];
      EnterAccounts(j, s.scope, s.now + 1, prefix);
      EnterGrows(j.w, j.e, s.scope, s.now + 1, prefix);
      if n.fault.None? && !j.w.fails(n.now) {
        var t := s.(now := n.now + 1, scope := n.view);
        var names := j.w.listing(n.now, fd);
        EntriesAccount(j, t, names, prefix, depth);
        AccountsThen(j, s.scope, one, n.view, EntriesEnter(j, t, names, prefix, depth), EntriesAt(j, t, names, prefix, depth).state.scope);
      } else {
        assert one + [] == one;
      }
    }
  }

  lemma {:induction false} EntriesAccount(j: Job, s: State, names: seq<Name>, prefix: Path, depth: nat)
    requires JobOk(j) && depth <= j.r.maxDepth
    ensures Accounts(j, s.scope, EntriesEnter(j, s, names, prefix, depth), EntriesAt(j, s, names, prefix, depth).state.scope)
    decreases j.r.maxDepth + 1 - depth, 0, |names| + 2
  {
    hide Validate, EntryAt, EntryEnters, Accounts, Bounded, Keys;
    AccountsNothing(j, s.scope, s.scope);
    if |names| > 0 {
      EntryAccounts(j, s, names[0], prefix, depth);
      EntryGrows(j, s, names[0], prefix, depth);
      var r := EntryAt(j, s, names[0], prefix, depth);
      var first := EntryEnters(j, s, names[0], prefix, depth);
      if r.fault.None? {
        EntriesAccount(j, r.state, names[1..], prefix, depth);
        AccountsThen(j, s.scope, first, r.state.scope, EntriesEnter(j, r.state, names[1..], prefix, depth),
                     EntriesAt(j, r.state, names[1..], prefix, depth).state.scope);
      } else {
        assert first + [] == first;
      }
    }
  }

  lemma {:induction false} EntryAccounts(j: Job, s: State, name: Name, prefix: Path, depth: nat)
    requires JobOk(j) && depth <= j.r.maxDepth
    ensures Accounts(j, s.scope, EntryEnters(j, s, name, prefix, depth), EntryAt(j, s, name, prefix, depth).state.scope)
    decreases j.r.maxDepth + 1 - depth, 0, 1
  {
    hide Validate, Admit, SearchFileAt, WalkAt, WalkEnters, Accounts;
    AdmitScope(j, s, prefix, name);
    AccountsNothing(j, s.scope, s.scope);
    match Admit(j, s, prefix, name)
    case Done(r) =>
    case Inspect(t, fd, path) => FileScope(j, t, fd, path);
    case Descend(t, fd, path) => WalkAccounts(j, t, fd, path, depth + 1);
  }

  /** A walk's record passes the documented bound exactly when it enters some directory with two records too many to come. */
  lemma WalkPassesBound(j: Job, fd: Ino)
    requires JobOk(j)
    ensures |WalkAt(j, Initial(j.r), fd, [], 0).state.scope.observations| > 4096
       <==> exists x :: x in WalkEnters(j, Initial(j.r), fd, [], 0) && TwoTooMany(j.w, j.e, x.view, x.now, x.prefix)
  {
    hide Validate, WalkAt, WalkEnters, TwoTooMany, Sound;
    StartLaid(j);
    WalkAccounts(j, Initial(j.r), fd, [], 0);
  }

  /**
   In this directory a readable `.gitignore` builds, and the `.ignore` beside it is absent or usable text: reading it
   may be cut short by the clock, a change or a budget, all of which end the walk, but does not merely fail.
   */
  ghost predicate Dependable(w: World, e: Engine, prefix: Path) {
    forall t: nat, u: nat {:trigger PolicyAt(w, t, Child(prefix, GITIGNORE)), PolicyAt(w, u, Child(prefix, IGNORE))} ::
      t < u && PolicyAt(w, t, Child(prefix, GITIGNORE)).outcome.Ok? ==>
        && Builds(e, prefix, LinesRead(e, PolicyAt(w, t, Child(prefix, GITIGNORE)).outcome.value))
        && Usable(e, PolicyAt(w, u, Child(prefix, IGNORE)).outcome)
  }

  predicate AllLinesOk(e: Engine, lines: seq<bytes>) { forall l :: l in lines ==> e.lineOk(l) }

  predicate Builds(e: Engine, prefix: Path, lines: seq<bytes>) { AllLinesOk(e, lines) ==> e.buildOk(prefix, lines) }

  predicate Usable(e: Engine, read: Result<Option<bytes>, Code>) {
    read != Err(ReadFailed) && (read.Ok? ==> AllLinesOk(e, LinesRead(e, read.value)))
  }

  /** A fault after which the walk goes on, or none. */
  predicate GoesOn(fault: Option<Code>) { fault.None? || fault == Some(ReadFailed) }

  lemma {:induction false} GoodLinesAdd(w: World, e: Engine, count: nat, now: nat, lines: seq<bytes>)
    requires AllLinesOk(e, lines)
    ensures AddLines(w, e, count, now, lines).fault != Some(ReadFailed)
    decreases |lines|
  {
    if |lines| > 0 {
      GoodLinesAdd(w, e, count + 1, now + 1, lines[1..]);
    }
  }

  /** A `.gitignore` that builds is recorded only when it loads. */
  lemma BuiltIsLoaded(w: World, e: Engine, s: View, now: nat, prefix: Path)
    requires PolicyAt(w, now, Child(prefix, GITIGNORE)).outcome.Ok? ==>
      Builds(e, prefix, LinesRead(e, PolicyAt(w, now, Child(prefix, GITIGNORE)).outcome.value))
    ensures Recordable(w, e, s, now, prefix, GITIGNORE) ==> LoadAt(w, e, s, now, prefix, GITIGNORE).outcome.Ok?
  {
    hide PolicyAt, AddLines, Child;
    var c := PolicyAt(w, now, Child(prefix, GITIGNORE));
    if Recordable(w, e, s, now, prefix, GITIGNORE) {
      Refinement.LinesAccepted(w, e, s.policyLines, c.now, LinesRead(e, c.outcome.value));
    }
  }

  /** A usable `.ignore` that cannot be recorded ends the walk. */
  lemma UsableIsRecorded(w: World, e: Engine, s: View, now: nat, prefix: Path)
    requires Usable(e, PolicyAt(w, now, Child(prefix, IGNORE)).outcome)
    ensures LoadAt(w, e, s, now, prefix, IGNORE).outcome == Err(ReadFailed) ==> Recordable(w, e, s, now, prefix, IGNORE)
  {
    hide PolicyAt, AddLines, Child;
    var c := PolicyAt(w, now, Child(prefix, IGNORE));
    if c.outcome.Ok? {
      GoodLinesAdd(w, e, s.policyLines, c.now, LinesRead(e, c.outcome.value));
    }
  }

  lemma PairAdded(keys: set<Path>, prefix: Path)
    requires Paired(keys)
    ensures Paired(keys + {Child(prefix, GITIGNORE)} + {Child(prefix, IGNORE)})
  {
    ParentOfChild(prefix, GITIGNORE);
    ParentOfChild(prefix, IGNORE);
    SiblingsDiffer(prefix);
    hide Child, Parent;
  }

  /** Pairs recorded so far: the bound holds, with room for a pair or none. */
  ghost predicate InPairs(v: View) { Bounded(v) && Paired(Keys(v.observations)) }

  lemma InPairsEven(v: View)
    requires InPairs(v)
    ensures |v.observations| <= OBSERVATIONS && |v.observations| % 2 == 0
  {
    hide Laid, Paired, ObservedBytes, Keys;
    SortedKeys(v.observations);
    PairedIsEven(Keys(v.observations));
  }

  /** Within the bound, and in pairs unless the walk ends here. */
  ghost predicate StaysPaired(v: View, fault: Option<Code>) {
    Bounded(v) && |v.observations| <= OBSERVATIONS && (GoesOn(fault) ==> InPairs(v))
  }

  lemma EnterPaired(w: World, e: Engine, s: View, now: nat, prefix: Path)
    requires InPairs(s) && Dependable(w, e, prefix)
    ensures var r := EnterAt(w, e, s, now, prefix); StaysPaired(r.view, r.fault)
  {
    hide LoadAt, Keys, Recordable, Child, Paired, Usable, Builds, PolicyAt, Laid, ObservedBytes, Sorted;
    InPairsEven(s);
    EnterGrows(w, e, s, now, prefix);
    if s.input.respectIgnore && |s.observations| < OBSERVATIONS {
      EnterPassesBound(w, e, s, now, prefix);
      RecordedIff(w, e, s, now, prefix, GITIGNORE);
      var one := LoadAt(w, e, s, now, prefix, GITIGNORE);
      if PolicyAt(w, now, Child(prefix, GITIGNORE)).outcome.Ok? {
        DependableAt(w, e, prefix, now, one.now);
      }
      BuiltIsLoaded(w, e, s, now, prefix);
      if one.outcome.Ok? {
        RecordedIff(w, e, one.view, one.now, prefix, IGNORE);
        LoadedWasRead(w, e, s, now, prefix);
        UsableIsRecorded(w, e, one.view, one.now, prefix);
        PairAdded(Keys(s.observations), prefix);
      }
    }
  }

  lemma DependableAt(w: World, e: Engine, prefix: Path, t: nat, u: nat)
    requires Dependable(w, e, prefix) && t < u && PolicyAt(w, t, Child(prefix, GITIGNORE)).outcome.Ok?
    ensures Builds(e, prefix, LinesRead(e, PolicyAt(w, t, Child(prefix, GITIGNORE)).outcome.value))
    ensures Usable(e, PolicyAt(w, u, Child(prefix, IGNORE)).outcome)
  {
    hide PolicyAt, Builds, Usable, Child;
    var later := PolicyAt(w, u, Child(prefix, IGNORE));
  }

  lemma LoadedWasRead(w: World, e: Engine, s: View, now: nat, prefix: Path)
    requires LoadAt(w, e, s, now, prefix, GITIGNORE).outcome.Ok?
    ensures PolicyAt(w, now, Child(prefix, GITIGNORE)).outcome.Ok?
  {
    hide PolicyAt, AddLines, Child;
  }

  lemma {:induction false} WalkPaired(j: Job, s: State, fd: Ino, prefix: Path, depth: nat)
    requires JobOk(j) && InPairs(s.scope) && forall p :: Dependable(j.w, j.e, p)
    ensures var r := WalkAt(j, s, fd, prefix, depth); StaysPaired(r.state.scope, r.fault)
    decreases if depth <= j.r.maxDepth then j.r.maxDepth + 1 - depth else 0, 1, 0
  {
    hide Validate, EnterAt, EntriesAt, InPairs, Bounded, Dependable;
    PairedStays(s.scope, None);
    if !j.w.expired(s.now) && depth <= j.r.maxDepth {
      EnterPaired(j.w, j.e, s.scope, s.now + 1, prefix);
      var n := EnterAt(j.w, j.e, s.scope, s.now + 1, prefix);
      if n.fault.None? && !j.w.fails(n.now) {
        EntriesPaired(j, s.(now := n.now + 1, scope := n.view), j.w.listing(n.now, fd), prefix, depth);
      }
    }
  }

  lemma PairedStays(v: View, fault: Option<Code>)
    requires InPairs(v)
    ensures StaysPaired(v, fault)
  {
    InPairsEven(v);
    hide Bounded, Paired, Keys;
  }

  lemma {:induction false} EntriesPaired(j: Job, s: State, names: seq<Name>, prefix: Path, depth: nat)
    requires JobOk(j) && depth <= j.r.maxDepth && InPairs(s.scope) && forall p :: Dependable(j.w, j.e, p)
    ensures var r := EntriesAt(j, s, names, prefix, depth); StaysPaired(r.state.scope, r.fault)
    decreases j.r.maxDepth + 1 - depth, 0, |names| + 2
  {
    hide Validate, EntryAt, InPairs, Bounded, Dependable;
    PairedStays(s.scope, None);
    if |names| > 0 {
      EntryPaired(j, s, names[0], prefix, depth);
      var r := EntryAt(j, s, names[0], prefix, depth);
      if r.fault.None? {
        EntriesPaired(j, r.state, names[1..], prefix, depth);
      }
    }
  }

  lemma {:induction false} EntryPaired(j: Job, s: State, name: Name, prefix: Path, depth: nat)
    requires JobOk(j) && depth <= j.r.maxDepth && InPairs(s.scope) && forall p :: Dependable(j.w, j.e, p)
    ensures var r := EntryAt(j, s, name, prefix, depth); StaysPaired(r.state.scope, r.fault)
    decreases j.r.maxDepth + 1 - depth, 0, 1
  {
    hide Validate, Admit, SearchFileAt, WalkAt, InPairs, Bounded, Dependable;
    AdmitScope(j, s, prefix, name);
    PairedStays(s.scope, None);
    match Admit(j, s, prefix, name)
    case Done(r) =>
    case Inspect(t, fd, path) => FileScope(j, t, fd, path);
    case Descend(t, fd, path) => WalkPaired(j, t, fd, path, depth + 1);
  }

  /** Where every readable `.gitignore` builds and has an absent or usable `.ignore` beside it, the documented bound holds. */
  lemma DependableWithinBound(j: Job, fd: Ino)
    requires JobOk(j) && forall p :: Dependable(j.w, j.e, p)
    ensures |WalkAt(j, Initial(j.r), fd, [], 0).state.scope.observations| <= 4096
  {
    hide Validate, WalkAt, Sound, Dependable;
    assert InPairs(Initial(j.r).scope);
    WalkPaired(j, Initial(j.r), fd, [], 0);
  }
}
