/** What a complete search of a static tree finds, told from the tree, the request and the libraries alone. */
module Findings {
  import opened Basics
  import opened Paths
  import opened World
  import opened Protocol
  import opened Engines
  import opened Scoping
  import opened Searching
  import opened Trees
  import opened Refinement
  import opened Eligible
  import Utf8
  import Capture

  // ---- Ignore files -----------------------------------------------------------------------------------------

  /** Text of at most `limit` octets: no NUL, and valid UTF-8. */
  predicate BoundedText(content: bytes, limit: nat) { |content| <= limit && (forall b :: b in content ==> b != 0) && Utf8.Valid(content) }

  /** These are the lines of the directory's file of that name, which is absent or text of at most 65536 octets, and they build. */
  predicate Declares(e: Engine, prefix: Path, es: seq<Entry>, name: Name, lines: seq<bytes>) {
    && (match Find(es, name)
        case None => lines == []
        case Some(File(content)) => BoundedText(content, 65_536) && lines == e.lines(content)
        case Some(_) => false)
    && (forall l :: l in lines ==> e.lineOk(l)) && e.buildOk(prefix, lines)
  }

  lemma RulesExactly(e: Engine, prefix: Path, es: seq<Entry>, r: Rules)
    ensures FolderRules(e, prefix, es) == Some(r)
       <==> Declares(e, prefix, es, Octets(".gitignore"), r.gitignore) && Declares(e, prefix, es, Octets(".ignore"), r.ignore)
  {
    assert GITIGNORE == Octets(".gitignore") && IGNORE == Octets(".ignore");
    hide Find, Utf8.Valid, Octets;
  }

  // ---- Verdicts ---------------------------------------------------------------------------------------------

  /** What one level's `.ignore`, or else `.gitignore`, says of a path. */
  function Says(e: Engine, level: Level, dot: bool, path: Path, directory: bool): Ruling {
    e.ruling(level.path, if dot then level.rules.ignore else level.rules.gitignore, path, directory)
  }

  /** Level `i` ignores the path and no deeper level says anything. */
  predicate Ignores(e: Engine, chain: seq<Level>, dot: bool, path: Path, directory: bool, i: nat) {
    && i < |chain| && Says(e, chain[i], dot, path, directory) == Ignored
    && forall k :: i < k < |chain| ==> Says(e, chain[k], dot, path, directory) == Unmatched
  }

  predicate Silent(e: Engine, chain: seq<Level>, dot: bool, path: Path, directory: bool) {
    forall k :: 0 <= k < |chain| ==> Says(e, chain[k], dot, path, directory) == Unmatched
  }

  /**
   No exclude matches; a file matches each non-empty include group; and neither does the deepest `.ignore` that says
   anything ignore the path, nor, when none does, the deepest such `.gitignore`.
   */
  ghost predicate Admissible(e: Engine, input: ScopeInput, chain: seq<Level>, path: Path, directory: bool) {
    && (forall p :: p in input.exclude ==> !e.glob(p, path))
    && (directory || forall g :: g in input.includeGroups ==> g == [] || exists p :: p in g && e.glob(p, path))
    && (input.respectIgnore ==>
          && (forall i: nat :: !Ignores(e, chain, true, path, directory, i))
          && (Silent(e, chain, true, path, directory) ==> forall i: nat :: !Ignores(e, chain, false, path, directory, i)))
  }

  lemma SilentLast(e: Engine, chain: seq<Level>, dot: bool, path: Path, directory: bool)
    requires |chain| > 0 && Says(e, chain[|chain| - 1], dot, path, directory) == Unmatched
    ensures var up := chain[..|chain| - 1];
            && (Silent(e, chain, dot, path, directory) <==> Silent(e, up, dot, path, directory))
            && forall i: nat :: Ignores(e, chain, dot, path, directory, i) <==> Ignores(e, up, dot, path, directory, i)
  {
    hide Says;
    var up := chain[..|chain| - 1];
    assert forall k: nat :: k < |up| ==> chain[k] == up[k];
  }

  lemma {:induction false} DeepestSays(e: Engine, chain: seq<Level>, dot: bool, path: Path, directory: bool)
    ensures var r := ChainRuling(e, chain, if dot then DotIgnore else GitIgnore, path, directory);
            && (r == Unmatched <==> Silent(e, chain, dot, path, directory))
            && (r == Ignored <==> exists i: nat :: Ignores(e, chain, dot, path, directory, i))
    decreases |chain|
  {
    if |chain| > 0 {
      var n := |chain| - 1;
      DeepestSays(e, chain[..n], dot, path, directory);
      if Says(e, chain[n], dot, path, directory) == Unmatched {
        SilentLast(e, chain, dot, path, directory);
        assert forall i: nat :: Ignores(e, chain[..n], dot, path, directory, i) ==> Ignores(e, chain, dot, path, directory, i);
      } else if Says(e, chain[n], dot, path, directory) == Ignored {
        assert Ignores(e, chain, dot, path, directory, n);
      }
    }
  }

  lemma VerdictExactly(e: Engine, input: ScopeInput, chain: seq<Level>, path: Path, directory: bool)
    ensures Verdict(e, input, chain, path, directory) <==> Admissible(e, input, chain, path, directory)
  {
    DeepestSays(e, chain, true, path, directory);
    DeepestSays(e, chain, false, path, directory);
    hide ChainRuling, Ignores, Silent;
  }

  // ---- Eligible files ---------------------------------------------------------------------------------------

  function Joined(prefix: Path, name: Name): Path { if prefix == [] then name else prefix + Octets("/") + name }

  /** The entry's name may be followed, and the scope admits it. */
  ghost predicate Followed(k: Knobs, path: Path, entry: Entry, chain: seq<Level>) {
    && entry.name != Octets(".") && entry.name != Octets("..") && Utf8.Valid(entry.name)
    && Reachable(k.input.hidden, path) && Admissible(k.e, k.input, chain, path, entry.node.Folder?)
  }

  /** The ancestors of what the directory holds: with the rules it declares, where ignore files count. */
  ghost predicate Extends(k: Knobs, prefix: Path, es: seq<Entry>, chain: seq<Level>, extended: seq<Level>) {
    if !k.input.respectIgnore then extended == chain
    else exists r: Rules ::
      && extended == chain + [Level(prefix, r)]
      && Declares(k.e, prefix, es, Octets(".gitignore"), r.gitignore) && Declares(k.e, prefix, es, Octets(".ignore"), r.ignore)
  }

  /** The trail leads from the directory, through entries each of which may be followed, to a file of admissible text. */
  ghost predicate Offers(k: Knobs, prefix: Path, es: seq<Entry>, chain: seq<Level>, trail: seq<Entry>, src: Source)
    decreases |trail|, 1
  {
    && |trail| > 0 && trail[0] in es
    && exists extended :: Extends(k, prefix, es, chain, extended) && Yields(k, Joined(prefix, trail[0].name), extended, trail, src)
  }

  ghost predicate Yields(k: Knobs, path: Path, chain: seq<Level>, trail: seq<Entry>, src: Source)
    requires |trail| > 0
    decreases |trail|, 0
  {
    && Followed(k, path, trail[0], chain)
    && match trail[0].node
       case Folder(below) => Offers(k, path, below, chain, trail[1..], src)
       case File(content) => |trail| == 1 && src == Source(path, content) && BoundedText(content, k.maxFileBytes)
       case Other => false
  }

  lemma FollowedExactly(k: Knobs, prefix: Path, entry: Entry, chain: seq<Level>)
    ensures Joined(prefix, entry.name) == Child(prefix, entry.name)
    ensures Followed(k, Joined(prefix, entry.name), entry, chain)
       <==> Nameable(k.input, prefix, entry.name) && Verdict(k.e, k.input, chain, Child(prefix, entry.name), entry.node.Folder?)
  {
    hide Reachable, ValidPath, ExcludedPath, Verdict, Admissible, Utf8.Valid;
    DotsAndSlash();
    hide Octets;
    ReachableExactly(k.input.hidden, Child(prefix, entry.name));
    VerdictExactly(k.e, k.input, chain, Child(prefix, entry.name), entry.node.Folder?);
  }

  lemma ExtendsExactly(k: Knobs, prefix: Path, es: seq<Entry>, chain: seq<Level>, extended: seq<Level>)
    ensures Extends(k, prefix, es, chain, extended)
       <==> if !k.input.respectIgnore then extended == chain
            else FolderRules(k.e, prefix, es).Some? && extended == chain + [Level(prefix, FolderRules(k.e, prefix, es).value)]
  {
    hide FolderRules, Declares, Octets;
    if k.input.respectIgnore {
      forall r
        ensures FolderRules(k.e, prefix, es) == Some(r)
           <==> Declares(k.e, prefix, es, Octets(".gitignore"), r.gitignore) && Declares(k.e, prefix, es, Octets(".ignore"), r.ignore)
      {
        RulesExactly(k.e, prefix, es, r);
      }
    }
  }

  /** The plan of a directory holds exactly what some trail from it offers. */
  lemma {:induction false} FolderOffers(k: Knobs, prefix: Path, es: seq<Entry>, chain: seq<Level>, src: Source)
    ensures src in FolderPlan(k, prefix, es, chain).sources <==> exists trail :: Offers(k, prefix, es, chain, trail, src)
    decreases es, 3
  {
    hide EntriesPlan, FolderRules, Extends, Yields;
    forall extended
      ensures Extends(k, prefix, es, chain, extended)
         <==> if !k.input.respectIgnore then extended == chain
              else FolderRules(k.e, prefix, es).Some? && extended == chain + [Level(prefix, FolderRules(k.e, prefix, es).value)]
    {
      ExtendsExactly(k, prefix, es, chain, extended);
    }
    if !k.input.respectIgnore || FolderRules(k.e, prefix, es).Some? {
      var extended := if !k.input.respectIgnore then chain else chain + [Level(prefix, FolderRules(k.e, prefix, es).value)];
      assert Extends(k, prefix, es, chain, extended);
      EntriesOffer(k, prefix, es, extended, src);
      if src in EntriesPlan(k, prefix, es, extended).sources {
        var trail: seq<Entry> :| |trail| > 0 && trail[0] in es && Yields(k, Joined(prefix, trail[0].name), extended, trail, src);
        assert Offers(k, prefix, es, chain, trail, src);
      }
    }
  }

  /** The plan of some entries holds exactly what a trail yields that starts with one of them. */
  lemma {:induction false} EntriesOffer(k: Knobs, prefix: Path, es: seq<Entry>, chain: seq<Level>, src: Source)
    ensures src in EntriesPlan(k, prefix, es, chain).sources
       <==> exists trail: seq<Entry> :: |trail| > 0 && trail[0] in es && Yields(k, Joined(prefix, trail[0].name), chain, trail, src)
    decreases es, 2
  {
    hide EntryPlan, Yields;
    if |es| > 0 {
      EntryOffers(k, prefix, es[0], chain, src);
      EntriesOffer(k, prefix, es[1..], chain, src);
    }
  }

  lemma Prepended(k: Knobs, path: Path, entry: Entry, chain: seq<Level>, trail: seq<Entry>, src: Source)
    requires Followed(k, path, entry, chain) && entry.node.Folder? && Offers(k, path, entry.node.entries, chain, trail, src)
    ensures ([entry] + trail)[0] == entry && Yields(k, path, chain, [entry] + trail, src)
  {
    hide Followed, Offers;
    assert ([entry] + trail)[1..] == trail;
  }

  lemma {:induction false} EntryOffers(k: Knobs, prefix: Path, entry: Entry, chain: seq<Level>, src: Source)
    ensures src in EntryPlan(k, prefix, entry, chain).sources
       <==> exists trail: seq<Entry> :: |trail| > 0 && trail[0] == entry && Yields(k, Joined(prefix, entry.name), chain, trail, src)
    decreases entry, 1
  {
    hide Followed, Verdict, Nameable, Capture.Offered, Offers, BoundedText, FolderPlan;
    FollowedExactly(k, prefix, entry, chain);
    var path := Child(prefix, entry.name);
    match entry.node
    case Folder(below) =>
      FolderOffers(k, path, below, chain, src);
      if Followed(k, path, entry, chain) && exists trail :: Offers(k, path, below, chain, trail, src) {
        var trail :| Offers(k, path, below, chain, trail, src);
        Prepended(k, path, entry, chain, trail, src);
      }
    case File(content) =>
      OfferedExactly(content, k.maxFileBytes);
      assert [entry][0] == entry;
      assert Yields(k, path, chain, [entry], src)
        <==> Followed(k, path, entry, chain) && src == Source(path, content) && BoundedText(content, k.maxFileBytes);
    case Other =>
  }

  lemma OfferedExactly(content: bytes, limit: nat)
    ensures Capture.Offered(content, limit).Some? <==> BoundedText(content, limit)
  {
    hide Utf8.Valid;
  }

  // ---- Hits -------------------------------------------------------------------------------------------------

  /**
   The hit quotes the match: which is not the empty one after a final line feed, and lies on scalar boundaries; its
   excerpt is the longest part of it, from its start, of at most 4096 octets that ends on one.
   */
  ghost predicate Quotes(h: Hit, path: Path, digest: bytes, content: bytes, m: Match) {
    && m.start <= m.end <= |content| && !(m.start == |content| && |content| > 0 && content[|content| - 1] == 10)
    && Utf8.IsCharBoundary(content, m.start) && Utf8.IsCharBoundary(content, m.end)
    && h.path == path && h.fileSha256 == digest && h.range.start == m.start && h.range.end == m.end
    && var end := h.excerpt.range.end;
       && h.excerpt.range.start == m.start <= end <= m.end && end - m.start <= 4096 && Utf8.IsCharBoundary(content, end)
       && (forall i :: end < i <= m.end && i - m.start <= 4096 ==> !Utf8.IsCharBoundary(content, i))
       && h.excerpt.text == content[m.start..end] && (h.excerpt.truncated <==> end < m.end)
  }

  /** A match that the matcher reports in a file of admissible text that some trail leads to. */
  ghost predicate Finding(j: Job, es: seq<Entry>, h: Hit) {
    exists trail, src, m ::
      && Offers(Knobs(j.e, j.r.scope, j.r.maxFileBytes), [], es, [], trail, src) && src.content != []
      && m in j.e.find(j.r, src.content).found && Quotes(h, src.path, Digest(j.e, src.content), src.content, m)
  }

  lemma QuotesExactly(h: Hit, path: Path, digest: bytes, content: bytes, m: Match)
    requires m.start <= m.end <= |content|
    ensures Quotes(h, path, digest, content, m)
       <==> !Phantom(content, m) && Utf8.IsCharBoundary(content, m.start) && Utf8.IsCharBoundary(content, m.end)
            && h == HitOf(path, digest, content, m)
  {
    hide Utf8.IsCharBoundary;
    if Utf8.IsCharBoundary(content, m.start) {
      StepBackNotBefore(content, Min(m.end, m.start + EXCERPT_BYTES), m.start);
    }
  }

  lemma {:induction false} HitsQuote(path: Path, digest: bytes, content: bytes, found: seq<Match>, h: Hit)
    requires forall m :: m in found ==> m.start <= m.end <= |content|
    ensures h in HitsOf(path, digest, content, found) <==> exists m :: m in found && Quotes(h, path, digest, content, m)
    decreases |found|
  {
    hide Quotes, HitOf, Phantom, Utf8.IsCharBoundary;
    if |found| > 0 {
      QuotesExactly(h, path, digest, content, found[0]);
      HitsQuote(path, digest, content, found[1..], h);
    }
  }

  lemma {:induction false} AllHitsQuote(j: Job, sources: seq<Source>, h: Hit)
    requires Sound(j.e)
    ensures h in AllHits(j.e, j.r, sources) <==> exists src :: src in sources && h in SourceHits(j.e, j.r, src)
    decreases |sources|
  {
    hide Sound, SourceHits;
    if |sources| > 0 {
      AllHitsQuote(j, sources[1..], h);
    }
  }

  /**
   A search of a static tree reports only findings, and all of them when it is complete, whatever fails or expires
   meanwhile.
   */
  lemma FindingsExactly(j: Job, fd: Ino, es: seq<Entry>, h: Hit)
    requires Sound(j.e) && j.r.read.None? && !j.r.validateScopeOnly
    requires MirrorsFolder(j.w, fd, [], es) && SearchAt(j, fd).Ok?
    ensures h in SearchAt(j, fd).value.matches ==> Finding(j, es, h)
    ensures SearchAt(j, fd).value.complete ==> (h in SearchAt(j, fd).value.matches <==> Finding(j, es, h))
  {
    hide SearchAt, MirrorsFolder, FolderPlan, AllHits, Finding, Sound;
    SearchRefines(j, fd, es);
    var want := AllHits(j.e, j.r, FolderPlan(KnobsOf(j), [], es, []).sources);
    FindingPlanned(j, es, h);
    if h in SearchAt(j, fd).value.matches {
      SubMember(SearchAt(j, fd).value.matches, want, h);
    }
  }

  lemma FindingPlanned(j: Job, es: seq<Entry>, h: Hit)
    requires Sound(j.e)
    ensures h in AllHits(j.e, j.r, FolderPlan(KnobsOf(j), [], es, []).sources) <==> Finding(j, es, h)
  {
    hide FolderPlan, Quotes, Offers, AllHits, HitsOf, Digest;
    var k := KnobsOf(j);
    var sources := FolderPlan(k, [], es, []).sources;
    AllHitsQuote(j, sources, h);
    forall src: Source
      ensures src in sources <==> exists trail :: Offers(k, [], es, [], trail, src)
      ensures src.content != [] ==>
                (h in SourceHits(j.e, j.r, src) <==>
                   exists m :: m in j.e.find(j.r, src.content).found && Quotes(h, src.path, Digest(j.e, src.content), src.content, m))
    {
      FolderOffers(k, [], es, [], src);
      HitsQuote(src.path, Digest(j.e, src.content), src.content, j.e.find(j.r, src.content).found, h);
    }
  }

  // ---- Digests ----------------------------------------------------------------------------------------------

  /** A digest spells each octet of the hash with two lower-case hexadecimal digits, the high one first. */
  lemma DigestExactly(e: Engine, b: bytes)
    ensures |Digest(e, b)| == 2 * |e.sha256(b)|
    ensures forall i :: 0 <= i < |e.sha256(b)| ==>
              && Digest(e, b)[2 * i] == "0123456789abcdef"[e.sha256(b)[i] / 16] as int
              && Digest(e, b)[2 * i + 1] == "0123456789abcdef"[e.sha256(b)[i] % 16] as int
  {
    HexExactly(e.sha256(b));
  }

  lemma {:induction false} HexExactly(b: bytes)
    ensures forall i :: 0 <= i < |b| ==>
              && Hex(b)[2 * i] == "0123456789abcdef"[b[i] / 16] as int
              && Hex(b)[2 * i + 1] == "0123456789abcdef"[b[i] % 16] as int
    decreases |b|
  {
    if |b| > 0 {
      HexExactly(b[1..]);
      assert DIGITS == Octets("0123456789abcdef");
      forall i | 0 < i < |b|
        ensures Hex(b)[2 * i] == Hex(b[1..])[2 * (i - 1)] && Hex(b)[2 * i + 1] == Hex(b[1..])[2 * (i - 1) + 1]
      {
      }
    }
  }
}
