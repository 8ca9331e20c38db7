/** A static tree, and what a search of it should find, defined from the tree alone. */
module Trees {
  import opened Basics
  import opened Paths
  import opened World
  import opened Protocol
  import opened Engines
  import opened Scoping
  import opened Searching
  import Utf8
  import Capture

  datatype Node = Folder(entries: seq<Entry>) | File(content: bytes) | Other
  datatype Entry = Entry(name: Name, node: Node)

  function Names(es: seq<Entry>): (ns: seq<Name>)
    ensures |ns| == |es| && forall i :: 0 <= i < |es| ==> ns[i] == es[i].name
  {
    if |es| == 0 then [] else [es[0].name] + Names(es[1..])
  }

  function Find(es: seq<Entry>, name: Name): Option<Node> {
    if |es| == 0 then None
    else if es[0].name == name then Some(es[0].node)
    else Find(es[1..], name)
  }

  /** A directory's ignore file: absent, readable text, or unusable (the outer `None`). */
  function Declared(es: seq<Entry>, name: Name): Option<Option<bytes>> {
    match Find(es, name)
    case None => Some(None)
    case Some(File(content)) => if Capture.Offered(content, POLICY_FILE_BYTES).Some? then Some(Some(content)) else None
    case Some(_) => None
  }

  function DeclaredLines(e: Engine, prefix: Path, es: seq<Entry>, name: Name): Option<seq<bytes>> {
    var d := Declared(es, name);
    if d.None? then None
    else
      var lines := if d.value.Some? then e.lines(d.value.value) else [];
      if (forall l :: l in lines ==> e.lineOk(l)) && e.buildOk(prefix, lines) then Some(lines) else None
  }

  function FolderRules(e: Engine, prefix: Path, es: seq<Entry>): Option<Rules> {
    var g := DeclaredLines(e, prefix, es, GITIGNORE);
    var i := DeclaredLines(e, prefix, es, IGNORE);
    if g.Some? && i.Some? then Some(Rules(g.value, i.value)) else None
  }

  /** An ancestor directory with its rules. */
  datatype Level = Level(path: Path, rules: Rules)

  /** The deepest level whose rules of one kind decide. */
  function ChainRuling(e: Engine, chain: seq<Level>, layer: Layer, path: Path, directory: bool): Ruling {
    if |chain| == 0 then Unmatched
    else
      var last := chain[|chain| - 1];
      var here := e.ruling(last.path, LayerOf(last.rules, layer), path, directory);
      if here != Unmatched then here else ChainRuling(e, chain[..|chain| - 1], layer, path, directory)
  }

  /** The scope verdict as a function of the tree above the path. */
  predicate Verdict(e: Engine, input: ScopeInput, chain: seq<Level>, path: Path, directory: bool) {
    && ExplicitlyAllowed(e, input, path, directory)
    && (input.respectIgnore ==>
          RulingsAllow(ChainRuling(e, chain, DotIgnore, path, directory), ChainRuling(e, chain, GitIgnore, path, directory)))
  }

  datatype Knobs = Knobs(e: Engine, input: ScopeInput, maxFileBytes: nat)

  /** An eligible file. */
  datatype Source = Source(path: Path, content: bytes)

  /** What to search below some point, in traversal order, and how many subdirectories that walks. */
  datatype Plan = Plan(sources: seq<Source>, folders: nat)

  const NOTHING := Plan([], 0)

  function Join(a: Plan, b: Plan): Plan { Plan(a.sources + b.sources, a.folders + b.folders) }

  function FolderPlan(k: Knobs, prefix: Path, es: seq<Entry>, chain: seq<Level>): Plan
    decreases es, 3
  {
    if !k.input.respectIgnore then EntriesPlan(k, prefix, es, chain)
    else
      var r := FolderRules(k.e, prefix, es);
      if r.None? then NOTHING else EntriesPlan(k, prefix, es, chain + [Level(prefix, r.value)])
  }

  function EntriesPlan(k: Knobs, prefix: Path, es: seq<Entry>, chain: seq<Level>): Plan
    decreases es, 2
  {
    if |es| == 0 then NOTHING
    else Join(EntryPlan(k, prefix, es[0], chain), EntriesPlan(k, prefix, es[1..], chain))
  }

  predicate Nameable(input: ScopeInput, prefix: Path, name: Name) {
    !IsDots(name) && Utf8.Valid(name) && ValidPath(Child(prefix, name)) && !ExcludedPath(input.hidden, Child(prefix, name))
  }

  function EntryPlan(k: Knobs, prefix: Path, entry: Entry, chain: seq<Level>): Plan
    decreases entry, 1
  {
    var path := Child(prefix, entry.name);
    if !Nameable(k.input, prefix, entry.name) || !Verdict(k.e, k.input, chain, path, entry.node.Folder?) then NOTHING
    else NodePlan(k, path, entry.node, chain)
  }

  function NodePlan(k: Knobs, path: Path, node: Node, chain: seq<Level>): Plan
    decreases node, 0
  {
    match node
    case Folder(es) => Join(Plan([], 1), FolderPlan(k, path, es, chain))
    case File(content) => if Capture.Offered(content, k.maxFileBytes).Some? then Plan([Source(path, content)], 0) else NOTHING
    case Other => NOTHING
  }

  /** Evidence for the reported matches of one file: all but a phantom last line, where both ends are scalar boundaries. */
  function HitsOf(path: Path, digest: bytes, content: bytes, found: seq<Match>): seq<Hit>
    requires forall m :: m in found ==> m.start <= m.end <= |content|
  {
    if |found| == 0 then []
    else if Phantom(content, found[0]) || !Utf8.IsCharBoundary(content, found[0].start) || !Utf8.IsCharBoundary(content, found[0].end) then
      HitsOf(path, digest, content, found[1..])
    else [HitOf(path, digest, content, found[0])] + HitsOf(path, digest, content, found[1..])
  }

  function SourceHits(e: Engine, r: Request, src: Source): seq<Hit>
    requires MatchesInRange(e, r, src.content)
  {
    if src.content == [] then []
    else HitsOf(src.path, Digest(e, src.content), src.content, e.find(r, src.content).found)
  }

  /** All qualifying matches of the sources, in order. */
  ghost function AllHits(e: Engine, r: Request, sources: seq<Source>): seq<Hit>
    requires Sound(e)
  {
    if |sources| == 0 then [] else SourceHits(e, r, sources[0]) + AllHits(e, r, sources[1..])
  }

  lemma {:induction false} AllHitsConcat(e: Engine, r: Request, a: seq<Source>, b: seq<Source>)
    requires Sound(e)
    ensures AllHits(e, r, a + b) == AllHits(e, r, a) + AllHits(e, r, b)
  {
    hide Sound, SourceHits;
    if |a| == 0 {
      assert a + b == b;
    } else {
      AllHitsConcat(e, r, a[1..], b);
      assert (a + b)[1..] == a[1..] + b;
    }
  }

  /** The file system shows this node under `path` at every moment, through the descriptor `fd`. */
  ghost predicate MirrorsNode(w: World, fd: Ino, path: Path, node: Node)
    decreases node, 0
  {
    match node
    case Folder(es) => MirrorsFolder(w, fd, path, es)
    case File(content) => Capture.StaticFile(w, fd, content)
    case Other => forall t: nat :: w.inode(t, fd).stat.kind == Special
  }

  ghost predicate MirrorsFolder(w: World, fd: Ino, path: Path, es: seq<Entry>)
    decreases es, 2
  {
    && (forall t: nat :: w.inode(t, fd).stat.kind == Directory && w.listing(t, fd) == Names(es))
    && MirrorsEntries(w, path, es)
    && ShowsPolicy(w, path, es, GITIGNORE)
    && ShowsPolicy(w, path, es, IGNORE)
  }

  ghost predicate MirrorsEntries(w: World, path: Path, es: seq<Entry>)
    decreases es, 1
  {
    |es| == 0 || (MirrorsEntry(w, path, es[0]) && MirrorsEntries(w, path, es[1..]))
  }

  ghost predicate MirrorsEntry(w: World, path: Path, entry: Entry)
    decreases entry, 0
  {
    SlashFree(entry.name) &&
    (!IsDots(entry.name) ==>
       var at := w.resolve(0, Child(path, entry.name));
       && at.Some?
       && (forall t: nat :: w.resolve(t, Child(path, entry.name)) == at)
       && MirrorsNode(w, at.value, Child(path, entry.name), entry.node))
  }

  /** An ignore file the tree lacks never resolves. */
  ghost predicate ShowsPolicy(w: World, path: Path, es: seq<Entry>, name: Name) {
    Find(es, name).None? ==> forall t: nat :: w.resolve(t, Child(path, name)) == None
  }
}
