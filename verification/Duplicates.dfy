/** Why a read's budget needs proper listings: a directory that lists its entry twice makes a read report it twice. */
module Duplicates {
  import opened Basics
  import opened Paths
  import opened World
  import opened Protocol
  import opened Engines
  import opened Scoping
  import opened Searching
  import opened Trees
  import opened Responses
  import opened ReadAgreement
  import Capture
  import Utf8
  import PolicyOverrun

  const NAME: Name := [0x61]
  const FILE: Ino := 1
  const LENGTH: nat := 2000
  const HIT_SIZE: nat := 2194

  /** The letter a, 2000 times. */
  function Content(): (b: bytes)
    ensures |b| == LENGTH && PolicyOverrun.Spelled(b)
  {
    seq(LENGTH, i => 0x61)
  }

  /** A file under the root, listed twice. */
  function Twice(): World {
    World(
      (t: nat) => false,
      (t: nat) => false,
      (t: nat, p: Path) => if p == NAME then Some(FILE) else None,
      (t: nat, i: Ino) =>
        if i == FILE then Inode(Stat(Regular, 0, 0, LENGTH, 0, 0, 0, 0), Content())
        else Inode(Stat(Directory, 0, 0, 0, 0, 0, 0, 0), []),
      (t: nat, i: Ino) => [NAME, NAME],
      (t: nat) => LENGTH)
  }

  /** Hits weigh what they serialize to. */
  function Serializing(): Engine { PolicyOverrun.Indifferent().(hitSize := (h: Hit) => HitBytes(h)) }

  /** A read of the whole file, with room for its one hit. */
  function ReadIt(): Request {
    PolicyOverrun.Plain().(scope := ScopeInput([], [], false, false), maxFileBytes := LENGTH,
                           responseBytes := ENVELOPE_RESERVE + HIT_SIZE + 1,
                           read := Some(ReadRequest(NAME, Range(0, LENGTH), None)))
  }

  function TheHit(): Hit { ReadHit(NAME, Digest(Serializing(), Content()), Content(), Range(0, LENGTH)) }

  function Job2(): Job { Job(Twice(), Serializing(), ReadIt()) }

  lemma JobOk2()
    ensures JobOk(Job2()) && Capture.Frozen(Twice())
    ensures MirrorsEntry(Twice(), [], Entry(NAME, File(Content()))) && SlashFree(NAME)
    ensures ScopeAcceptable(Serializing(), ReadIt().scope)
  {
    NameIsPlain();
    var w := Twice();
    assert forall t: nat, p: Path :: w.resolve(t, p) == w.resolve(0, p);
    assert Capture.StaticFile(w, FILE, Content());
    assert MirrorsNode(w, FILE, NAME, File(Content()));
  }

  lemma NameIsPlain()
    ensures ValidPath(NAME) && Utf8.Valid(NAME) && !ExcludedPath(false, NAME) && !IsDots(NAME)
  {
    PolicyOverrun.LettersNameable(NAME);
  }

  /** Meeting the entry once more reports its hit once more. */
  lemma MeetsAgain(s: State)
    requires s.counts.visited < 2 && s.scope.input == ReadIt().scope && s.used == ENVELOPE_RESERVE && JobOk(Job2())
    ensures var r := EntryAt(Job2(), s, NAME, [], 0);
            && r.fault.None? && r.state.matches == s.matches + [TheHit()]
            && r.state.counts.visited == s.counts.visited + 1 && r.state.used == s.used && r.state.reasons == s.reasons
            && r.state.scope == s.scope && r.state.complete == s.complete
  {
    JobOk2();
    NameIsPlain();
    var q := Job2();
    hide JobOk, Capture.Frozen, MirrorsEntry, ExcludedPath, ValidPath, Utf8.Valid, SearchFileAt, Verdict, Digest,
      EntryAt;
    var t := ReadClassifies(q, s, [], Entry(NAME, File(Content())), 0, []);
    assert Verdict(Serializing(), ReadIt().scope, [], NAME, false) by {
      PlainVerdict();
    }
    FrozenFile(q, s, t.(now := t.now + 2), FILE, NAME, Content());
    ContentIsOffered();
    Delivered(s);
  }

  lemma ContentIsOffered()
    ensures Capture.Offered(Content(), LENGTH) == Some(Content())
  {
    PolicyOverrun.LettersValid(Content());
    hide Utf8.Valid;
  }

  lemma {:induction false} LettersPlain(t: bytes)
    requires PolicyOverrun.Spelled(t)
    ensures Escaped(t) == |t|
  {
    if |t| > 0 {
      LettersPlain(t[..|t| - 1]);
    }
  }

  /** What the one hit weighs. */
  lemma HitWeighs()
    ensures HitBytes(TheHit()) == HIT_SIZE
  {
    LettersPlain(NAME);
    LettersPlain(Content());
    hide Escaped, Digest, Content;
    assert Content()[0..LENGTH] == Content();
    assert Digits(LENGTH) == 4 && Digits(0) == 1;
    DigestLength();
  }

  lemma DigestLength()
    ensures |Digest(Serializing(), Content())| == 64
  {
  }

  lemma Delivered(s: State)
    requires s.used == ENVELOPE_RESERVE
    ensures Deliver(Job2(), s, ReadIt().read.value, NAME, Digest(Serializing(), Content()), Content())
         == Step(s.(matches := s.matches + [TheHit()]), None)
  {
    HitWeighs();
    hide Digest, HitBytes, Content;
    assert Utf8.IsCharBoundary(Content(), 0) && Utf8.IsCharBoundary(Content(), LENGTH);
    hide Utf8.IsCharBoundary;
  }

  lemma PlainVerdict()
    ensures Verdict(Serializing(), ReadIt().scope, [], NAME, false)
  {
  }

  /** The walk meets the file twice. */
  lemma WalkMeetsTwice()
    ensures JobOk(Job2())
    ensures var h := TheHit();
            var r := WalkAt(Job2(), Initial(ReadIt()), 0, [], 0);
            && r.fault.None? && r.state.matches == [h, h] && r.state.reasons == [] && r.state.complete
            && r.state.scope == Fresh(ReadIt().scope)
  {
    JobOk2();
    hide EntriesAt, JobOk, MirrorsEntry, ScopeAcceptable, ReadHit, Digest;
    EntriesMeetTwice(Initial(ReadIt()).(now := 2));
  }

  lemma EntriesMeetTwice(a: State)
    requires a.counts.visited == 0 && a.scope.input == ReadIt().scope && a.used == ENVELOPE_RESERVE && JobOk(Job2())
    ensures var h := TheHit();
            var r := EntriesAt(Job2(), a, [NAME, NAME], [], 0);
            && r.fault.None? && r.state.matches == a.matches + [h] + [h] && r.state.reasons == a.reasons && r.state.complete == a.complete
            && r.state.scope == a.scope
  {
    hide EntryAt, JobOk, ReadHit, Digest;
    var q := Job2();
    MeetsAgain(a);
    var b := EntryAt(q, a, NAME, [], 0).state;
    MeetsAgain(b);
    var c := EntryAt(q, b, NAME, [], 0).state;
    assert [NAME, NAME][0] == NAME && [NAME, NAME][1..] == [NAME] && [NAME][1..] == [];
    assert EntriesAt(q, b, [NAME], [], 0) == EntriesAt(q, c, [], [], 0);
  }

  /** A successful read whose serialized response exceeds its budget, so that the client refuses it. */
  lemma ReadExceedsBudget(elapsed: nat)
    ensures Sound(Serializing()) && SearchAt(Job2(), 0).Ok?
    ensures var s := SearchAt(Job2(), 0).value;
            && |s.matches| == 2
            && SuccessBytes(Serializing(), s, elapsed) > ReadIt().responseBytes
            && !SuccessAccepted(ReadIt(), s, SuccessBytes(Serializing(), s, elapsed))
  {
    JobOk2();
    WalkMeetsTwice();
    hide WalkAt, Capture.Frozen, MirrorsEntry, ReadHit, Digest, Preimage, ScopeAcceptable, BoundsAcceptable,
      ReadAcceptable, HitAccepted;
    var h := TheHit();
    TwoHits([h, h]);
  }

  lemma TwoHits(hits: seq<Hit>)
    requires hits == [TheHit(), TheHit()]
    ensures HitsBytes(Serializing(), hits) == 2 * HIT_SIZE
  {
    HitWeighs();
    hide HitBytes, TheHit;
    assert hits[..1] == [TheHit()];
    assert hits[..1][..0] == [];
    assert HitsBytes(Serializing(), hits[..1]) == HIT_SIZE;
  }
}
