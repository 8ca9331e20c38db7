/** Registered policies, canonical pattern lists, and request narrowing, which can only shrink what a search may read. */
module Policies {
  import opened Basics
  import opened Paths
  import opened Protocol
  import opened Engines
  import opened Scoping
  import opened Trees
  import opened Evidence
  import Ordered
  import ReadAgreement
  import Utf8
  import Capture

  const PATTERN_BYTES: nat := 1024
  const LIST_LENGTH: nat := 64

  /** One pattern as registration and requests accept it. */
  predicate PatternAcceptable(p: bytes) {
    && Utf8.Valid(p) && 1 <= |p| <= PATTERN_BYTES
    && p[0] != 0x21 && p[0] != SLASH && CleanBytes(p)
    && !(exists s :: s in Split(p) && (s == [] || IsDots(s)))
  }

  predicate PatternsAcceptable(ps: seq<bytes>) { |ps| <= LIST_LENGTH && forall p :: p in ps ==> PatternAcceptable(p) }

  datatype PolicyInput = PolicyInput(includes: seq<bytes>, excludes: seq<bytes>, hidden: bool, respectIgnore: bool, maxFileBytes: nat)
  datatype Policy = Policy(includes: seq<bytes>, excludes: seq<bytes>, hidden: bool, respectIgnore: bool, maxFileBytes: nat)
  datatype Narrow = Narrow(includes: seq<bytes>, excludes: seq<bytes>)

  const UNNARROWED := Narrow([], [])

  /** Deduplicated and sorted. */
  function Canonical(ps: seq<bytes>): (c: seq<bytes>)
    ensures |c| <= |ps|
  {
    if |ps| == 0 then [] else
      InsertLength(Canonical(ps[1..]), ps[0]);
      Ordered.Insert(Canonical(ps[1..]), ps[0])
  }

  lemma {:induction false} InsertLength(xs: seq<bytes>, k: bytes)
    ensures |Ordered.Insert(xs, k)| <= |xs| + 1
  {
    if |xs| > 0 {
      InsertLength(xs[1..], k);
    }
  }

  function CreatePolicy(input: PolicyInput): Option<Policy> {
    if PatternsAcceptable(input.includes) && PatternsAcceptable(input.excludes) && 1 <= input.maxFileBytes <= FILE_BYTES then
      Some(Policy(Canonical(input.includes), Canonical(input.excludes), input.hidden, input.respectIgnore, input.maxFileBytes))
    else None
  }

  function NarrowPolicy(policy: Policy, narrow: Narrow): Option<ScopeInput> {
    if PatternsAcceptable(narrow.includes) && PatternsAcceptable(narrow.excludes) then Some(Narrowed(policy, narrow)) else None
  }

  /** Registered and requested includes stay separate groups; excludes are united. */
  function Narrowed(policy: Policy, narrow: Narrow): ScopeInput {
    ScopeInput([policy.includes, Canonical(narrow.includes)], Canonical(policy.excludes + narrow.excludes), policy.hidden, policy.respectIgnore)
  }

  // ---- Canonical lists --------------------------------------------------------------------------------

  lemma {:induction false} CanonicalMembers(ps: seq<bytes>, x: bytes)
    ensures x in Canonical(ps) <==> x in ps
  {
    if |ps| > 0 {
      Ordered.InsertMembers(Canonical(ps[1..]), ps[0], x);
      CanonicalMembers(ps[1..], x);
    }
  }

  lemma {:induction false} CanonicalIncreasing(ps: seq<bytes>)
    ensures Ordered.Increasing(Canonical(ps))
  {
    if |ps| > 0 {
      CanonicalIncreasing(ps[1..]);
      Ordered.InsertIncreasing(Canonical(ps[1..]), ps[0]);
    }
  }

  predicate SameSet(a: seq<bytes>, b: seq<bytes>) { (forall x :: x in a ==> x in b) && (forall x :: x in b ==> x in a) }

  /** A canonical list tells the set of patterns and nothing else. */
  lemma CanonicalIsSet(a: seq<bytes>, b: seq<bytes>)
    ensures Canonical(a) == Canonical(b) <==> SameSet(a, b)
  {
    hide Canonical;
    forall x
      ensures x in Canonical(a) <==> x in a
      ensures x in Canonical(b) <==> x in b
    {
      CanonicalMembers(a, x);
      CanonicalMembers(b, x);
    }
    if SameSet(a, b) {
      CanonicalIncreasing(a);
      CanonicalIncreasing(b);
      Ordered.IncreasingUnique(Canonical(a), Canonical(b));
    }
  }

  /** Order and repetition of patterns never change a policy or a narrowed scope, hence none of their fingerprints. */
  lemma SpellingIrrelevant(p: PolicyInput, q: PolicyInput, m: Narrow, n: Narrow)
    requires CreatePolicy(p).Some? && CreatePolicy(q).Some? && q == p.(includes := q.includes, excludes := q.excludes)
    requires SameSet(p.includes, q.includes) && SameSet(p.excludes, q.excludes)
    requires SameSet(m.includes, n.includes) && SameSet(m.excludes, n.excludes)
    ensures CreatePolicy(p) == CreatePolicy(q)
    ensures Narrowed(CreatePolicy(p).value, m) == Narrowed(CreatePolicy(q).value, n)
  {
    hide Canonical, PatternAcceptable;
    CanonicalIsSet(p.includes, q.includes);
    CanonicalIsSet(p.excludes, q.excludes);
    CanonicalIsSet(m.includes, n.includes);
    var c := Canonical(p.excludes);
    CanonicalIsSet(c + m.excludes, c + n.excludes);
  }

  // ---- The worker accepts what narrowing builds -------------------------------------------------------------

  predicate Compile(e: Engine, ps: seq<bytes>) { forall p :: p in ps ==> e.globOk(p) }

  lemma AcceptableGlob(e: Engine, p: bytes)
    requires PatternAcceptable(p)
    ensures GlobAcceptable(e, p) <==> e.globOk(p)
  {
    hide Split, Utf8.Valid;
  }

  lemma AcceptableGlobs(e: Engine, ps: seq<bytes>, canon: seq<bytes>)
    requires |canon| <= 128 && SameSet(canon, ps) && forall p :: p in ps ==> PatternAcceptable(p)
    ensures GlobsAcceptable(e, canon) <==> Compile(e, ps)
  {
    hide PatternAcceptable, GlobAcceptable;
    forall p | p in ps
      ensures GlobAcceptable(e, p) <==> e.globOk(p)
    {
      AcceptableGlob(e, p);
    }
  }

  lemma CanonicalSameSet(ps: seq<bytes>)
    ensures SameSet(Canonical(ps), ps)
  {
    hide Canonical;
    forall x
      ensures x in Canonical(ps) <==> x in ps
    {
      CanonicalMembers(ps, x);
    }
  }

  /** The worker refuses a narrowed scope exactly when some glob does not compile; the sizes always fit. */
  lemma NarrowedScopeAcceptable(e: Engine, input: PolicyInput, narrow: Narrow)
    requires CreatePolicy(input).Some? && NarrowPolicy(CreatePolicy(input).value, narrow).Some?
    ensures ScopeAcceptable(e, Narrowed(CreatePolicy(input).value, narrow))
       <==> Compile(e, input.includes) && Compile(e, input.excludes) && Compile(e, narrow.includes) && Compile(e, narrow.excludes)
  {
    hide Canonical, PatternAcceptable, GlobsAcceptable;
    var policy := CreatePolicy(input).value;
    CanonicalSameSet(input.includes);
    CanonicalSameSet(input.excludes);
    CanonicalSameSet(narrow.includes);
    CanonicalSameSet(policy.excludes + narrow.excludes);
    AcceptableGlobs(e, input.includes, policy.includes);
    AcceptableGlobs(e, narrow.includes, Canonical(narrow.includes));
    AcceptableGlobs(e, input.excludes + narrow.excludes, Canonical(policy.excludes + narrow.excludes));
    var s := Narrowed(policy, narrow);
    assert s.includeGroups[0] == policy.includes && s.includeGroups[1] == Canonical(narrow.includes);
  }

  // ---- Narrowing over a whole tree ---------------------------------------------------------------------------

  /** What narrowing asks of one path besides what the policy asks. */
  predicate Spared(e: Engine, narrow: Narrow, path: Path, directory: bool) {
    && !MatchesAny(e, narrow.excludes, path)
    && (directory || narrow.includes == [] || MatchesAny(e, narrow.includes, path))
  }

  lemma SameMatches(e: Engine, a: seq<bytes>, b: seq<bytes>, path: Path)
    requires SameSet(a, b)
    ensures MatchesAny(e, a, path) <==> MatchesAny(e, b, path)
  {
  }

  lemma {:induction false} CanonicalEmpty(ps: seq<bytes>)
    ensures Canonical(ps) == [] <==> ps == []
  {
    CanonicalSameSet(ps);
    if ps != [] {
      assert ps[0] in Canonical(ps);
    }
  }

  lemma NarrowedAllows(e: Engine, policy: Policy, narrow: Narrow, path: Path, directory: bool)
    ensures ExplicitlyAllowed(e, Narrowed(policy, narrow), path, directory)
       <==> ExplicitlyAllowed(e, Narrowed(policy, UNNARROWED), path, directory) && Spared(e, narrow, path, directory)
  {
    hide Canonical;
    CanonicalSameSet(narrow.includes);
    CanonicalEmpty(narrow.includes);
    CanonicalEmpty([]);
    CanonicalSameSet(policy.excludes + narrow.excludes);
    CanonicalSameSet(policy.excludes + []);
    assert policy.excludes + [] == policy.excludes;
    SameMatches(e, Canonical(narrow.includes), narrow.includes, path);
    SameMatches(e, Canonical(policy.excludes + narrow.excludes), policy.excludes + narrow.excludes, path);
    SameMatches(e, Canonical(policy.excludes), policy.excludes, path);
    var a, b := Narrowed(policy, narrow), Narrowed(policy, UNNARROWED);
    assert a.includeGroups[0] == policy.includes && a.includeGroups[1] == Canonical(narrow.includes);
    assert b.includeGroups[0] == policy.includes && b.includeGroups[1] == Canonical([]);
  }

  /** Names hold no slashes, at every depth. */
  predicate ProperNames(es: seq<Entry>)
    decreases es, 0
  {
    forall entry :: entry in es ==> SlashFree(entry.name) && (entry.node.Folder? ==> ProperNames(entry.node.entries))
  }

  /** The narrowing spares the file and every directory on its path below `prefix`. */
  ghost predicate SparedBelow(e: Engine, narrow: Narrow, prefix: Path, path: Path) {
    && Spared(e, narrow, path, false)
    && forall a :: |a| > |prefix| && Relevant(a, path) && a != path ==> Spared(e, narrow, a, true)
  }

  /** Between a directory and anything below one of its entries, the entry is the first step. */
  lemma NoStepBefore(prefix: Path, name: Name, a: Path, path: Path)
    requires SlashFree(name) && Relevant(Child(prefix, name), path) && Relevant(a, path) && |a| > |prefix|
    ensures |a| >= |Child(prefix, name)|
  {
    var c := Child(prefix, name);
    var n := |c| - |name|;
    assert c == path[..|c|];
    assert forall k :: n <= k < |c| ==> c[k] == name[k - n];
    assert a == path || (|a| < |path| && path[|a|] == (a + [SLASH])[|a|]);
    assert |a| >= n;
  }

  lemma RelevantSameLength(a: Path, b: Path, path: Path)
    requires Relevant(a, path) && Relevant(b, path) && |a| == |b|
    ensures a == b
  {
    assert a == path[..|a|] && b == path[..|b|];
  }

  /** Sparing below a directory splits into sparing the next step and sparing below that. */
  lemma SparedStep(e: Engine, narrow: Narrow, prefix: Path, name: Name, path: Path)
    requires SlashFree(name) && Relevant(Child(prefix, name), path) && Child(prefix, name) != path && |Child(prefix, name)| > |prefix|
    ensures SparedBelow(e, narrow, prefix, path) <==> Spared(e, narrow, Child(prefix, name), true) && SparedBelow(e, narrow, Child(prefix, name), path)
  {
    hide Spared, Relevant;
    var c := Child(prefix, name);
    forall a | |a| > |prefix| && Relevant(a, path) && a != path
      ensures a == c || |a| > |c|
    {
      NoStepBefore(prefix, name, a, path);
      if |a| == |c| {
        RelevantSameLength(a, c, path);
      }
    }
  }

  function KnobsUnder(e: Engine, policy: Policy, narrow: Narrow): Knobs {
    Knobs(e, Narrowed(policy, narrow), policy.maxFileBytes)
  }

  lemma {:induction false} FolderNarrowing(e: Engine, policy: Policy, narrow: Narrow, prefix: Path, es: seq<Entry>, chain: seq<Level>, src: Source)
    requires ProperNames(es)
    ensures src in FolderPlan(KnobsUnder(e, policy, narrow), prefix, es, chain).sources
       <==> src in FolderPlan(KnobsUnder(e, policy, UNNARROWED), prefix, es, chain).sources && SparedBelow(e, narrow, prefix, src.path)
    decreases es, 3
  {
    hide EntriesPlan, SparedBelow, FolderRules, Canonical;
    var inner := if policy.respectIgnore && FolderRules(e, prefix, es).Some? then chain + [Level(prefix, FolderRules(e, prefix, es).value)] else chain;
    EntriesNarrowing(e, policy, narrow, prefix, es, inner, src);
  }

  lemma {:induction false} EntriesNarrowing(e: Engine, policy: Policy, narrow: Narrow, prefix: Path, es: seq<Entry>, chain: seq<Level>, src: Source)
    requires ProperNames(es)
    ensures src in EntriesPlan(KnobsUnder(e, policy, narrow), prefix, es, chain).sources
       <==> src in EntriesPlan(KnobsUnder(e, policy, UNNARROWED), prefix, es, chain).sources && SparedBelow(e, narrow, prefix, src.path)
    decreases es, 2
  {
    hide EntryPlan, SparedBelow, KnobsUnder;
    if |es| > 0 {
      assert es[0] in es;
      EntryNarrowing(e, policy, narrow, prefix, es[0], chain, src);
      assert forall entry :: entry in es[1..] ==> entry in es;
      EntriesNarrowing(e, policy, narrow, prefix, es[1..], chain, src);
    }
  }

  lemma {:induction false} EntryNarrowing(e: Engine, policy: Policy, narrow: Narrow, prefix: Path, entry: Entry, chain: seq<Level>, src: Source)
    requires SlashFree(entry.name) && (entry.node.Folder? ==> ProperNames(entry.node.entries))
    ensures src in EntryPlan(KnobsUnder(e, policy, narrow), prefix, entry, chain).sources
       <==> src in EntryPlan(KnobsUnder(e, policy, UNNARROWED), prefix, entry, chain).sources && SparedBelow(e, narrow, prefix, src.path)
    decreases entry, 1
  {
    hide SparedBelow, Spared, Relevant, Canonical, Utf8.Valid, ExplicitlyAllowed, ChainRuling, FolderPlan,
      ExcludedPath, Child, Capture.Textual;
    var path := Child(prefix, entry.name);
    var a, b := KnobsUnder(e, policy, narrow), KnobsUnder(e, policy, UNNARROWED);
    NarrowedAllows(e, policy, narrow, path, entry.node.Folder?);
    assert Verdict(e, a.input, chain, path, entry.node.Folder?)
      <==> Verdict(e, b.input, chain, path, entry.node.Folder?) && Spared(e, narrow, path, entry.node.Folder?);
    assert Nameable(a.input, prefix, entry.name) <==> Nameable(b.input, prefix, entry.name);
    if Nameable(b.input, prefix, entry.name) {
      ChildGrows(prefix, entry.name);
      match entry.node
      case Folder(es) =>
        FolderNarrowing(e, policy, narrow, path, es, chain, src);
        if src in FolderPlan(b, path, es, chain).sources {
          BelowFolder(b, path, es, chain, src);
          SparedStep(e, narrow, prefix, entry.name, src.path);
        }
      case File(content) =>
        if src == Source(path, content) {
          SparedFile(e, narrow, prefix, path);
        }
      case Other =>
    }
  }

  lemma ChildGrows(prefix: Path, name: Name)
    requires ValidPath(Child(prefix, name))
    ensures |Child(prefix, name)| > |prefix| && Child(prefix, name) != []
  {
  }

  /** Everything planned for a directory lies strictly below it. */
  lemma BelowFolder(k: Knobs, path: Path, es: seq<Entry>, chain: seq<Level>, src: Source)
    requires path != [] && src in FolderPlan(k, path, es, chain).sources
    ensures Relevant(path, src.path) && path != src.path
  {
    hide FolderPlan;
    ReadAgreement.FolderPlanUnder(k, path, es, chain, src);
    var i :| 0 <= i < |es| && Relevant(Child(path, es[i].name), src.path);
    IrrelevantBelow(path, es[i].name, src.path);
    assert |Child(path, es[i].name)| > |path|;
  }

  lemma SparedFile(e: Engine, narrow: Narrow, prefix: Path, path: Path)
    requires |path| > |prefix|
    requires exists name :: SlashFree(name) && path == Child(prefix, name)
    ensures SparedBelow(e, narrow, prefix, path) <==> Spared(e, narrow, path, false)
  {
    hide Spared;
    var name :| SlashFree(name) && path == Child(prefix, name);
    forall a | |a| > |prefix| && Relevant(a, path) && a != path
      ensures false
    {
      NoStepBefore(prefix, name, a, path);
    }
  }

  /**
   Narrowing a policy keeps exactly those files of any tree that the policy alone admits and that the narrowing
   spares together with every directory above them.
   */
  lemma NarrowingIsExact(e: Engine, policy: Policy, narrow: Narrow, es: seq<Entry>, src: Source)
    requires ProperNames(es)
    ensures src in FolderPlan(KnobsUnder(e, policy, narrow), [], es, []).sources
       <==> src in FolderPlan(KnobsUnder(e, policy, UNNARROWED), [], es, []).sources && SparedBelow(e, narrow, [], src.path)
  {
    FolderNarrowing(e, policy, narrow, [], es, [], src);
  }
}
