/** What entering directories does to the scope state: budgets, records, and which rules it can touch. */
module ScopeInvariants {
  import opened Basics
  import opened Paths
  import opened World
  import opened Protocol
  import opened Engines
  import opened Scoping
  import opened Searching
  import Capture
  import Ordered
  import Utf8

  function Keys(os: seq<Observation>): set<Path> { set o | o in os :: o.path }

  function ObservedBytes(os: seq<Observation>): nat {
    if |os| == 0 then 0 else Size(os[0]) + ObservedBytes(os[1..])
  }

  function Size(o: Observation): nat { if o.captured.Some? then |o.captured.value| else 0 }

  /** Path order, strictly increasing: at most one record of each path. */
  predicate Sorted(os: seq<Observation>) {
    |os| == 0 || ((forall o :: o in os[1..] ==> Ordered.Less(os[0].path, o.path)) && Sorted(os[1..]))
  }

  lemma {:induction false} ObserveMembers(os: seq<Observation>, o: Observation, x: Observation)
    ensures x in Observe(os, o) ==> x == o || x in os
    ensures x == o || (x in os && x.path != o.path) ==> x in Observe(os, o)
  {
    if |os| > 0 {
      assert os == [os[0]] + os[1..];
      ObserveMembers(os[1..], o, x);
    }
  }

  lemma ObserveKeys(os: seq<Observation>, o: Observation)
    ensures Keys(Observe(os, o)) == Keys(os) + {o.path}
  {
    forall p
      ensures p in Keys(Observe(os, o)) <==> p in Keys(os) + {o.path}
    {
      if p in Keys(Observe(os, o)) {
        var x :| x in Observe(os, o) && x.path == p;
        ObserveMembers(os, o, x);
      }
      if p == o.path {
        ObserveMembers(os, o, o);
      } else if p in Keys(os) {
        var x :| x in os && x.path == p;
        ObserveMembers(os, o, x);
      }
    }
  }

  lemma {:induction false} ObserveSorted(os: seq<Observation>, o: Observation)
    requires Sorted(os)
    ensures Sorted(Observe(os, o))
  {
    if |os| > 0 {
      if os[0].path == o.path {
        assert ([o] + os[1..])[1..] == os[1..];
      } else if Ordered.Less(o.path, os[0].path) {
        forall x | x in os
          ensures Ordered.Less(o.path, x.path)
        {
          if x != os[0] {
            Ordered.LessTransitive(o.path, os[0].path, x.path);
          }
        }
        assert ([o] + os)[1..] == os;
      } else {
        Ordered.LessTotal(o.path, os[0].path);
        ObserveSorted(os[1..], o);
        forall x | x in Observe(os[1..], o)
          ensures Ordered.Less(os[0].path, x.path)
        {
          ObserveMembers(os[1..], o, x);
        }
        assert ([os[0]] + Observe(os[1..], o))[1..] == Observe(os[1..], o);
      }
    }
  }

  lemma {:induction false} ObserveBytes(os: seq<Observation>, o: Observation)
    ensures ObservedBytes(Observe(os, o)) <= ObservedBytes(os) + Size(o)
  {
    if |os| > 0 {
      if os[0].path == o.path {
        assert ([o] + os[1..])[1..] == os[1..];
      } else if Ordered.Less(o.path, os[0].path) {
        assert ([o] + os)[1..] == os;
      } else {
        ObserveBytes(os[1..], o);
        assert ([os[0]] + Observe(os[1..], o))[1..] == Observe(os[1..], o);
      }
    }
  }

  /** Two rule maps agree on every path shorter than `n`. */
  ghost predicate RulesFrame(a: map<Path, Rules>, b: map<Path, Rules>, n: nat) {
    forall p: Path :: |p| < n ==> (p in a <==> p in b) && (p in a ==> a[p] == b[p])
  }

  predicate GitIgnorePath(p: Path) { p == Child(Parent(p), GITIGNORE) }
  predicate IgnorePath(p: Path) { p == Child(Parent(p), IGNORE) }

  /** Only ignore files are recorded, and a directory's `.gitignore` before its `.ignore`. */
  ghost predicate Laid(keys: set<Path>) {
    && (forall p :: p in keys ==> GitIgnorePath(p) || IgnorePath(p))
    && (forall p :: p in keys && IgnorePath(p) ==> Child(Parent(p), GITIGNORE) in keys)
  }

  /** No recorded file is longer than 65536 octets. */
  predicate Small(os: seq<Observation>) { forall o :: o in os && o.captured.Some? ==> |o.captured.value| <= 65_536 }

  lemma ObserveSmall(os: seq<Observation>, o: Observation)
    requires Small(os) && (o.captured.Some? ==> |o.captured.value| <= 65_536)
    ensures Small(Observe(os, o))
  {
    forall x | x in Observe(os, o)
      ensures x == o || x in os
    {
      ObserveMembers(os, o, x);
    }
  }

  lemma PolicySmall(w: World, now: nat, path: Path)
    ensures var c := PolicyAt(w, now, path); c.outcome.Ok? && c.outcome.value.Some? ==> |c.outcome.value.value| <= 65_536
  {
    hide Capture.CaptureAt, Capture.Textual;
    if w.resolve(now + 1, path).Some? {
      Capture.CaptureShape(w, now + 2, w.resolve(now + 1, path).value, POLICY_FILE_BYTES);
    }
  }

  /** Recorded bytes and records stay within the documented budgets, but for one extra absence record. */
  ghost predicate Bounded(v: View) {
    && Sorted(v.observations)
    && Laid(Keys(v.observations))
    && Small(v.observations)
    && |v.observations| <= OBSERVATIONS + 1
    && ObservedBytes(v.observations) <= v.policyBytes
    && ObservedBytes(v.observations) <= POLICY_BYTES
  }

  /** Scope state only accumulates, and touches no rules of paths shorter than `n`. */
  ghost predicate Grows(a: View, b: View, n: nat) {
    && b.input == a.input
    && RulesFrame(a.rules, b.rules, n)
    && a.policyBytes <= b.policyBytes && a.policyLines <= b.policyLines
    && Keys(a.observations) <= Keys(b.observations)
    && (Bounded(a) ==> Bounded(b))
  }

  lemma GrowsChain(a: View, b: View, c: View, n: nat, m: nat)
    requires Grows(a, b, n) && Grows(b, c, m) && n <= m
    ensures Grows(a, c, n)
  {
    hide Bounded;
  }

  /** Where a directory's next ignore file may be recorded. */
  ghost predicate NextToLoad(keys: set<Path>, prefix: Path, name: Name) {
    name == GITIGNORE || (name == IGNORE && Child(prefix, GITIGNORE) in keys)
  }

  lemma LaidOn(keys: set<Path>, prefix: Path, name: Name)
    requires Laid(keys) && NextToLoad(keys, prefix, name)
    ensures Laid(keys + {Child(prefix, name)})
  {
    ParentOfChild(prefix, name);
  }

  lemma LoadRecords(w: World, e: Engine, s: View, now: nat, prefix: Path, name: Name)
    ensures var l := LoadAt(w, e, s, now, prefix, name);
            && (l.outcome.Ok? ==> Keys(l.view.observations) == Keys(s.observations) + {Child(prefix, name)})
            && (Keys(l.view.observations) == Keys(s.observations) || Keys(l.view.observations) == Keys(s.observations) + {Child(prefix, name)})
  {
    hide PolicyAt, AddLines, Keys, Child;
    var c := PolicyAt(w, now, Child(prefix, name));
    if c.outcome.Ok? {
      ObserveKeys(s.observations, Observation(Child(prefix, name), c.outcome.value));
    }
  }

  lemma LoadGrows(w: World, e: Engine, s: View, now: nat, prefix: Path, name: Name)
    requires |s.observations| <= OBSERVATIONS && NextToLoad(Keys(s.observations), prefix, name)
    ensures var l := LoadAt(w, e, s, now, prefix, name);
            && l.view.input == s.input && l.view.rules == s.rules
            && s.policyBytes <= l.view.policyBytes && s.policyLines <= l.view.policyLines
            && Keys(s.observations) <= Keys(l.view.observations)
            && |l.view.observations| <= |s.observations| + 1
            && (Bounded(s) ==> Bounded(l.view))
  {
    hide PolicyAt, AddLines, Keys, Sorted, ObservedBytes, Laid, NextToLoad, Child, Small;
    PolicySmall(w, now, Child(prefix, name));
    var path := Child(prefix, name);
    var c := PolicyAt(w, now, path);
    if Laid(Keys(s.observations)) {
      LaidOn(Keys(s.observations), prefix, name);
    }
    if c.outcome.Ok? {
      var o := Observation(path, c.outcome.value);
      ObserveKeys(s.observations, o);
      ObserveBytes(s.observations, o);
      if Sorted(s.observations) {
        ObserveSorted(s.observations, o);
      }
      if Small(s.observations) {
        ObserveSmall(s.observations, o);
      }
    }
  }

  lemma EnterGrows(w: World, e: Engine, s: View, now: nat, prefix: Path)
    ensures Grows(s, EnterAt(w, e, s, now, prefix).view, |prefix|)
  {
    hide LoadAt, Keys, Bounded;
    if s.input.respectIgnore && |s.observations| < OBSERVATIONS {
      LoadGrows(w, e, s, now, prefix, GITIGNORE);
      var one := LoadAt(w, e, s, now, prefix, GITIGNORE);
      LoadRecords(w, e, s, now, prefix, GITIGNORE);
      if one.outcome.Ok? {
        LoadGrows(w, e, one.view, one.now, prefix, IGNORE);
        var two := LoadAt(w, e, one.view, one.now, prefix, IGNORE);
        if two.outcome.Ok? {
          BoundedIgnoresRules(two.view, Rules(one.outcome.value, two.outcome.value), prefix);
        }
      }
    }
  }

  lemma BoundedIgnoresRules(v: View, r: Rules, prefix: Path)
    ensures Bounded(v) ==> Bounded(v.(rules := v.rules[prefix := r]))
  {
  }

  lemma {:induction false} CollectScope(j: Job, s: State, path: Path, digest: bytes, content: bytes, found: seq<Match>, ok: bool)
    requires forall m :: m in found ==> m.start <= m.end <= |content|
    ensures Collect(j, s, path, digest, content, found, ok).state.scope == s.scope
    decreases |found|
  {
    hide HitOf, Phantom, Utf8.IsCharBoundary;
    if |found| > 0 {
      var m := found[0];
      var t := s.(now := s.now + 1);
      if Phantom(content, m) {
        CollectScope(j, t, path, digest, content, found[1..], ok);
      } else if !j.w.expired(s.now) && |s.matches| != j.r.maxMatches {
        if Utf8.IsCharBoundary(content, m.start) && Utf8.IsCharBoundary(content, m.end) {
          var h := HitOf(path, digest, content, m);
          CollectScope(j, t.(used := s.used + j.e.hitSize(h) + 1, matches := s.matches + [h]), path, digest, content, found[1..], ok);
        }
      }
    }
  }

  lemma FileScope(j: Job, s: State, fd: Ino, path: Path)
    requires JobOk(j)
    ensures SearchFileAt(j, s, fd, path).state.scope == s.scope
  {
    hide CaptureTwice, Validate, Collect, Deliver;
    var c := CaptureTwice(j, s.now, fd, path);
    if c.outcome.Ok? && c.outcome.value.Some? {
      ExamineScope(j, s.(now := c.now), path, c.outcome.value.value);
    }
  }

  lemma ExamineScope(j: Job, s: State, path: Path, content: bytes)
    requires JobOk(j)
    ensures Examine(j, s, path, content).state.scope == s.scope
  {
    hide Validate, Collect;
    var t := Searched(s.(now := s.now + 1), content);
    CollectScope(j, t, path, Digest(j.e, content), content, j.e.find(j.r, content).found, j.e.find(j.r, content).ok);
  }

  lemma AdmitScope(j: Job, s: State, prefix: Path, name: Name)
    ensures match Admit(j, s, prefix, name)
            case Done(r) => r.state.scope == s.scope
            case Descend(t, _, path) => t.scope == s.scope && path == Child(prefix, name) && |path| > |prefix|
            case Inspect(t, _, path) => t.scope == s.scope && path == Child(prefix, name) && |path| > |prefix|
  {
    ChildLonger(prefix, name);
    hide AllowsIn, ValidPath, ExcludedPath, Utf8.Valid, Relevant, Child;
  }

  lemma ChildLonger(prefix: Path, name: Name)
    ensures ValidPath(Child(prefix, name)) ==> |Child(prefix, name)| > |prefix|
  {
  }

  /** A whole walk only adds to the scope state, and only below where it started. */
  lemma {:induction false} WalkGrows(j: Job, s: State, fd: Ino, prefix: Path, depth: nat)
    requires JobOk(j)
    ensures Grows(s.scope, WalkAt(j, s, fd, prefix, depth).state.scope, |prefix|)
    decreases if depth <= j.r.maxDepth then j.r.maxDepth + 1 - depth else 0, 1, 0
  {
    hide Validate, EnterAt, EntriesAt, Bounded, Keys;
    if !j.w.expired(s.now) && depth <= j.r.maxDepth {
      EnterGrows(j.w, j.e, s.scope, s.now + 1, prefix);
      var n := EnterAt(j.w, j.e, s.scope, s.now + 1, prefix);
      var t := s.(now := n.now + 1, scope := n.view);
      if n.fault.None? && !j.w.fails(n.now) {
        EntriesGrow(j, t, j.w.listing(n.now, fd), prefix, depth);
        GrowsChain(s.scope, n.view, EntriesAt(j, t, j.w.listing(n.now, fd), prefix, depth).state.scope, |prefix|, |prefix| + 1);
      }
    }
  }

  lemma GrowsRefl(a: View, n: nat)
    ensures Grows(a, a, n)
  {
    hide Bounded, Keys;
  }

  lemma {:induction false} EntriesGrow(j: Job, s: State, names: seq<Name>, prefix: Path, depth: nat)
    requires JobOk(j) && depth <= j.r.maxDepth
    ensures Grows(s.scope, EntriesAt(j, s, names, prefix, depth).state.scope, |prefix| + 1)
    decreases j.r.maxDepth + 1 - depth, 0, |names| + 2
  {
    hide Validate, EntryAt, Grows;
    GrowsRefl(s.scope, |prefix| + 1);
    if |names| > 0 {
      EntryGrows(j, s, names[0], prefix, depth);
      var r := EntryAt(j, s, names[0], prefix, depth);
      if r.fault.None? {
        EntriesGrow(j, r.state, names[1..], prefix, depth);
        GrowsChain(s.scope, r.state.scope, EntriesAt(j, r.state, names[1..], prefix, depth).state.scope, |prefix| + 1, |prefix| + 1);
      }
    }
  }

  lemma {:induction false} EntryGrows(j: Job, s: State, name: Name, prefix: Path, depth: nat)
    requires JobOk(j) && depth <= j.r.maxDepth
    ensures Grows(s.scope, EntryAt(j, s, name, prefix, depth).state.scope, |prefix| + 1)
    decreases j.r.maxDepth + 1 - depth, 0, 1
  {
    hide Validate, Admit, SearchFileAt, WalkAt;
    AdmitScope(j, s, prefix, name);
    GrowsRefl(s.scope, |prefix| + 1);
    match Admit(j, s, prefix, name)
    case Done(r) =>
    case Inspect(t, fd, path) => FileScope(j, t, fd, path);
    case Descend(t, fd, path) =>
      WalkGrows(j, t, fd, path, depth + 1);
      WeakerFrame(s.scope, WalkAt(j, t, fd, path, depth + 1).state.scope, |path|, |prefix| + 1);
  }

  lemma WeakerFrame(a: View, b: View, n: nat, m: nat)
    requires Grows(a, b, n)
    ensures m <= n ==> Grows(a, b, m)
  {
    hide Bounded, Keys;
  }

  /**
   Whatever is walked, at most 1 MiB of ignore text in files of at most 64 KiB and 4097 observations are recorded, each path
   once and in order.
   */
  lemma PolicyBudget(j: Job, fd: Ino)
    requires JobOk(j)
    ensures var v := WalkAt(j, Initial(j.r), fd, [], 0).state.scope;
            && Sorted(v.observations) && |v.observations| <= 4097 && ObservedBytes(v.observations) <= 1_048_576
            && forall o :: o in v.observations && o.captured.Some? ==> |o.captured.value| <= 65_536
  {
    hide Validate, WalkAt;
    WalkGrows(j, Initial(j.r), fd, [], 0);
  }

  // ---- One ignore file ----------------------------------------------------------------------------------------

  /** What reading an ignore file comes to, by what its path leads to and what a capture of that comes to. */
  lemma PolicyExactly(w: World, now: nat, path: Path)
    requires !w.expired(now) && !w.fails(now + 1)
    ensures var o := PolicyAt(w, now, path).outcome;
            if w.resolve(now + 1, path).None? then o == Ok(None)
            else match Capture.CaptureAt(w, now + 2, w.resolve(now + 1, path).value, 65_536).outcome
                 case Ok(Some(text)) => o == Ok(Some(text))
                 case Ok(None) => o == Err(ReadFailed)
                 case Err(SourceMutated) => o == Err(PolicyChanged)
                 case Err(code) => o == Err(code)
  {
    hide Capture.CaptureAt;
  }

  lemma {:induction false} LinesExactly(w: World, e: Engine, count: nat, now: nat, lines: seq<bytes>)
    requires forall t: nat :: now <= t < now + |lines| ==> !w.expired(t)
    ensures var a := AddLines(w, e, count, now, lines);
            && (a.fault.None? <==> (forall l :: l in lines ==> e.lineOk(l)) && (lines == [] || count + |lines| <= 4096))
            && (a.fault.None? ==> a.count == count + |lines|)
            && (a.fault.Some? ==> (a.fault.value == EntryLimit && count + |lines| > 4096) || (a.fault.value == ReadFailed && exists l :: l in lines && !e.lineOk(l)))
    decreases |lines|
  {
    if |lines| > 0 {
      assert lines == [lines[0]] + lines[1..];
      if count + 1 <= 4096 && e.lineOk(lines[0]) {
        LinesExactly(w, e, count + 1, now + 1, lines[1..]);
      }
    }
  }

  /**
   An ignore file that was read is loaded exactly when the octets read so far stay within 1048576 and the lines within 4096,
   every line is a rule and they build; and then its octets and lines are counted and it is recorded.
   */
  lemma LoadExactly(w: World, e: Engine, s: View, now: nat, prefix: Path, name: Name)
    requires PolicyAt(w, now, Child(prefix, name)).outcome.Ok?
    requires var c := PolicyAt(w, now, Child(prefix, name));
             c.outcome.value.Some? ==> forall t: nat :: c.now <= t < c.now + |e.lines(c.outcome.value.value)| ==> !w.expired(t)
    ensures var captured := PolicyAt(w, now, Child(prefix, name)).outcome.value;
            var text := if captured.Some? then captured.value else [];
            var lines := if captured.Some? then e.lines(captured.value) else [];
            var l := LoadAt(w, e, s, now, prefix, name);
            && (l.outcome.Ok? <==>
                  && (captured.Some? ==> s.policyBytes + |text| <= 1_048_576)
                  && (forall x :: x in lines ==> e.lineOk(x)) && (lines == [] || s.policyLines + |lines| <= 4096) && e.buildOk(prefix, lines))
            && (l.outcome.Ok? ==>
                  && l.outcome.value == lines
                  && l.view.policyBytes == s.policyBytes + |text| && l.view.policyLines == s.policyLines + |lines|
                  && Observation(Child(prefix, name), captured) in l.view.observations)
            && (l.outcome == Err(EntryLimit) ==> s.policyBytes + |text| > 1_048_576 || s.policyLines + |lines| > 4096)
  {
    hide PolicyAt, AddLines, Child, Observe;
    var c := PolicyAt(w, now, Child(prefix, name));
    var lines := if c.outcome.value.Some? then e.lines(c.outcome.value.value) else [];
    LinesExactly(w, e, s.policyLines, c.now, lines);
    var o := Observation(Child(prefix, name), c.outcome.value);
    ObserveMembers(s.observations, o, o);
  }
}
