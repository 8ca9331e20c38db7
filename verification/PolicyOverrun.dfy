/** A run that passes the documented bound of 4096 ignore-file records. */
module PolicyOverrun {
  import opened Basics
  import opened Paths
  import opened World
  import opened Protocol
  import opened Engines
  import opened Scoping
  import opened Searching
  import opened ScopeInvariants
  import opened ReadAgreement
  import opened PolicyLimits
  import Utf8

  const FOLDERS: nat := 2048
  const UNREADABLE: Ino := 9999

  /** Letters a to h. */
  predicate Spelled(p: Path) { forall i :: 0 <= i < |p| ==> 0x61 <= p[i] <= 0x68 }

  /** The number that four letters spell in base eight, counted from one; zero for anything else. */
  function Rank(p: Path): nat {
    if |p| == 4 && Spelled(p) then 1 + Letter(p[3]) + 8 * (Letter(p[2]) + 8 * (Letter(p[1]) + 8 * Letter(p[0]))) else 0
  }

  function Letter(b: int): nat
    requires 0x61 <= b
  {
    b - 0x61
  }

  /** The root, and folders aaaa, aaab, …, each named by four letters. */
  function Called(n: nat): (p: Path)
    requires n <= FOLDERS
    ensures Spelled(p) && Rank(p) == n && |p| == if n == 0 then 0 else 4
  {
    if n == 0 then []
    else
      var i := n - 1;
      var k := i / 8;
      var l := k / 8;
      var m := l / 8;
      [0x61 + m, 0x61 + (l - 8 * m), 0x61 + (k - 8 * l), 0x61 + (i - 8 * k)]
  }

  function CalledUpTo(n: nat): (ns: seq<Name>)
    requires n <= FOLDERS
    ensures |ns| == n && forall i :: 0 <= i < n ==> ns[i] == Called(i + 1)
  {
    if n == 0 then [] else CalledUpTo(n - 1) + [Called(n)]
  }

  /** 2048 empty folders below the root, the first of them with a special file for `.ignore`. */
  function Crowded(): World {
    World(
      (t: nat) => false,
      (t: nat) => false,
      (t: nat, p: Path) =>
        if p == Child(Called(1), IGNORE) then Some(UNREADABLE)
        else if Rank(p) > 0 then Some(Rank(p))
        else None,
      (t: nat, i: Ino) => Inode(Stat(if i == UNREADABLE then Special else Directory, 0, 0, 0, 0, 0, 0, 0), []),
      (t: nat, i: Ino) => if i == 0 then CalledUpTo(FOLDERS) else [],
      (t: nat) => 1)
  }

  function Indifferent(): Engine {
    Engine(
      (r: Request) => true,
      (r: Request, b: bytes) => Scan([], true),
      (p: bytes) => true,
      (p: bytes, path: Path) => false,
      (b: bytes) => [],
      (l: bytes) => true,
      (p: Path, ls: seq<bytes>) => true,
      (p: Path, ls: seq<bytes>, path: Path, d: bool) => Unmatched,
      (b: bytes) => seq(32, i => 0),
      (h: Hit) => 0)
  }

  function Plain(): Request {
    Request(1, [0x71, 0x2D, 0x31], [0x61], Literal, true, 1, 1, 2048, 1, 100_000, 1, ScopeInput([], [], false, true), false, None)
  }

  function Overrun(): Job { Job(Crowded(), Indifferent(), Plain()) }

  lemma {:induction false} LettersValid(p: Path)
    requires Spelled(p)
    ensures Utf8.Valid(p)
    decreases |p|
  {
    if p != [] {
      LettersValid(p[1..]);
    }
  }

  lemma {:induction false} LettersHaveNoSlash(p: Path, i: nat)
    requires Spelled(p) && i <= |p|
    ensures NextSlash(p, i) == |p|
    decreases |p| - i
  {
    if i < |p| {
      LettersHaveNoSlash(p, i + 1);
    }
  }

  lemma LettersNameable(p: Path)
    requires Spelled(p) && 1 <= |p| <= 4096
    ensures Utf8.Valid(p) && ValidPath(p) && !ExcludedPath(false, p) && !IsDots(p)
  {
    hide Utf8.Valid;
    LettersValid(p);
    LettersHaveNoSlash(p, 0);
    assert p[0..|p|] == p;
    assert Split(p) == [p];
  }

  lemma {:induction false} NothingRules(rules: map<Path, Rules>, layer: Layer, path: Path, from: Path)
    ensures FindRuling(Indifferent(), rules, layer, path, true, from) == Unmatched
    decreases |from|
  {
    if from != [] {
      NothingRules(rules, layer, path, Parent(from));
    }
  }

  lemma AllAllowed(s: View, path: Path)
    requires s.input == Plain().scope
    ensures AllowsIn(Indifferent(), s, path, true)
  {
    NothingRules(s.rules, DotIgnore, path, Parent(path));
    NothingRules(s.rules, GitIgnore, path, Parent(path));
  }

  /** After `n` folders: the root left two records, the first folder one, every other folder two. */
  ghost predicate Passed(s: State, n: nat) {
    && s.scope.input == Plain().scope && s.counts.visited == n
    && Sorted(s.scope.observations)
    && |s.scope.observations| == (if n == 0 then 2 else 2 * n + 1)
    && (forall p :: p in Keys(s.scope.observations) ==> Rank(Parent(p)) <= n)
  }

  lemma NotLetters(prefix: Path, name: Name)
    requires name == GITIGNORE || name == IGNORE
    ensures !Spelled(Child(prefix, name))
  {
    var path := Child(prefix, name);
    assert path[|path| - |name|] == name[0];
  }

  lemma RecordsAbsence(s: View, now: nat, n: nat, name: Name)
    requires n <= FOLDERS && Sorted(s.observations) && (name == GITIGNORE || name == IGNORE)
    requires name == IGNORE ==> n != 1
    ensures var l := LoadAt(Crowded(), Indifferent(), s, now, Called(n), name);
            var path := Child(Called(n), name);
            && l.outcome == Ok([]) && l.view.input == s.input
            && Sorted(l.view.observations) && Keys(l.view.observations) == Keys(s.observations) + {path}
            && (path !in Keys(s.observations) ==> |l.view.observations| == |s.observations| + 1)
  {
    hide Keys, Sorted, CalledUpTo, Child, Called;
    var path := Child(Called(n), name);
    NotLetters(Called(n), name);
    ParentOfChild(Called(n), name);
    ParentOfChild(Called(1), IGNORE);
    NamesDiffer(n, name);
    var o := Observation(path, None);
    ObserveKeys(s.observations, o);
    ObserveSorted(s.observations, o);
    SortedKeys(s.observations);
    SortedKeys(Observe(s.observations, o));
  }

  lemma NamesDiffer(n: nat, name: Name)
    requires n <= FOLDERS && (name == GITIGNORE || name == IGNORE) && (name == IGNORE ==> n != 1)
    ensures Child(Called(n), name) != Child(Called(1), IGNORE)
  {
    hide Called;
    ParentOfChild(Called(n), name);
    ParentOfChild(Called(1), IGNORE);
    if n == 1 {
      SiblingsDiffer(Called(1));
    }
  }

  lemma UnreadableIgnore(s: View, now: nat)
    ensures var l := LoadAt(Crowded(), Indifferent(), s, now, Called(1), IGNORE);
            l.outcome == Err(ReadFailed) && l.view == s
  {
    hide CalledUpTo, Child, Called;
    assert Crowded().resolve(now + 1, Child(Called(1), IGNORE)) == Some(UNREADABLE);
  }

  /** Entering the next folder, given what is recorded so far. */
  lemma EnterNext(s: View, now: nat, n: nat)
    requires n <= FOLDERS && s.input == Plain().scope && Sorted(s.observations) && |s.observations| < OBSERVATIONS
    requires forall p :: p in Keys(s.observations) ==> n > 0 && Rank(Parent(p)) < n
    ensures var r := EnterAt(Crowded(), Indifferent(), s, now, Called(n));
            && r.fault == (if n == 1 then Some(ReadFailed) else None)
            && r.view.input == s.input && Sorted(r.view.observations)
            && |r.view.observations| == |s.observations| + (if n == 1 then 1 else 2)
            && (forall p :: p in Keys(r.view.observations) ==> Rank(Parent(p)) <= n)
  {
    hide LoadAt, Keys, Sorted, Child, Crowded, Indifferent, Called, Rank;
    ParentOfChild(Called(n), GITIGNORE);
    ParentOfChild(Called(n), IGNORE);
    SiblingsDiffer(Called(n));
    RecordsAbsence(s, now, n, GITIGNORE);
    var one := LoadAt(Crowded(), Indifferent(), s, now, Called(n), GITIGNORE);
    if n == 1 {
      UnreadableIgnore(one.view, one.now);
    } else {
      RecordsAbsence(one.view, one.now, n, IGNORE);
    }
  }

  lemma PassNext(s: State, n: nat)
    requires Passed(s, n) && n < FOLDERS && JobOk(Overrun())
    ensures var r := EntryAt(Overrun(), s, Called(n + 1), [], 0);
            r.fault.None? && Passed(r.state, n + 1)
  {
    hide Keys, Sorted, EnterAt, ValidPath, ExcludedPath, Utf8.Valid, IsDots, AllowsIn, CalledUpTo, WalkAt,
      Indifferent, Called;
    var j := Overrun();
    var path := Called(n + 1);
    LettersNameable(path);
    AllAllowed(s.scope, path);
    NotLettersButFolder(n + 1);
    var t := Visit(s.(now := s.now + 4));
    assert Admit(j, s, [], path) == Descend(t, n + 1, path);
    FolderStep(t, n + 1);
  }

  lemma NotLettersButFolder(n: nat)
    requires 1 <= n <= FOLDERS
    ensures forall t: nat :: Crowded().resolve(t, Called(n)) == Some(n)
  {
    hide Called, CalledUpTo, Child;
    NotLetters(Called(1), IGNORE);
  }

  lemma FolderStep(t: State, n: nat)
    requires 1 <= n <= FOLDERS && t.scope.input == Plain().scope && Sorted(t.scope.observations)
    requires |t.scope.observations| < OBSERVATIONS
    requires forall p :: p in Keys(t.scope.observations) ==> Rank(Parent(p)) < n
    ensures JobOk(Overrun())
    ensures var r := Settle(WalkAt(Overrun(), t, n, Called(n), 1));
            && r.fault.None? && r.state.counts.visited == t.counts.visited
            && r.state.scope.input == t.scope.input && Sorted(r.state.scope.observations)
            && |r.state.scope.observations| == |t.scope.observations| + (if n == 1 then 1 else 2)
            && (forall p :: p in Keys(r.state.scope.observations) ==> Rank(Parent(p)) <= n)
  {
    hide Keys, Sorted, EnterAt, CalledUpTo, Called;
    OverrunOk();
    EnterNext(t.scope, t.now + 1, n);
  }

  lemma OverrunOk()
    ensures JobOk(Overrun())
  {
    hide Crowded;
  }

  lemma {:induction false} PassAll(s: State, n: nat)
    requires Passed(s, n) && n <= FOLDERS && JobOk(Overrun())
    ensures var r := EntriesAt(Overrun(), s, CalledUpTo(FOLDERS)[n..], [], 0);
            r.fault.None? && Passed(r.state, FOLDERS)
    decreases FOLDERS - n
  {
    hide Passed, EntryAt, JobOk, Called, Overrun;
    var names := CalledUpTo(FOLDERS);
    if n < FOLDERS {
      PassNext(s, n);
      assert names[n..][0] == Called(n + 1) && names[n..][1..] == names[n + 1..];
      PassAll(EntryAt(Overrun(), s, Called(n + 1), [], 0).state, n + 1);
    }
  }

  /** The state in which the walk meets the first folder. */
  function Started(): State {
    var n := EnterAt(Crowded(), Indifferent(), Fresh(Plain().scope), 1, []);
    Initial(Plain()).(now := n.now + 1, scope := n.view)
  }

  lemma StartedPasses()
    ensures Passed(Started(), 0) && EnterAt(Crowded(), Indifferent(), Fresh(Plain().scope), 1, []).fault.None?
  {
    assert Called(0) == [];
    hide EnterAt, Keys, Sorted, Called, Rank, Crowded, Indifferent;
    StartsEmpty(Fresh(Plain().scope));
    EnterNext(Fresh(Plain().scope), 1, 0);
  }

  lemma StartsWalk()
    requires JobOk(Overrun()) && EnterAt(Crowded(), Indifferent(), Fresh(Plain().scope), 1, []).fault.None?
    ensures WalkAt(Overrun(), Initial(Plain()), 0, [], 0) == EntriesAt(Overrun(), Started(), CalledUpTo(FOLDERS), [], 0)
  {
    hide EnterAt, EntriesAt, CalledUpTo, Called, JobOk, Indifferent;
  }

  /** The documented bound fails: this walk ends without a fault and with 4097 records. */
  lemma BoundIsPassed()
    ensures JobOk(Overrun())
    ensures var r := WalkAt(Overrun(), Initial(Plain()), 0, [], 0);
            r.fault.None? && |r.state.scope.observations| == OBSERVATIONS + 1
  {
    OverrunOk();
    StartedPasses();
    StartsWalk();
    hide EnterAt, EntriesAt, WalkAt, CalledUpTo, Keys, Sorted, Started, Overrun, JobOk;
    PassAll(Started(), 0);
    assert CalledUpTo(FOLDERS)[0..] == CalledUpTo(FOLDERS);
  }

  lemma StartsEmpty(v: View)
    requires v == Fresh(Plain().scope)
    ensures Keys(v.observations) == {} && Sorted(v.observations)
  {
  }
}
