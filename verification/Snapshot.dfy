/** The ignore snapshot: its hash input determines the record, and complete coverage means every record was re-read equal. */
module Snapshot {
  import opened Basics
  import opened World
  import opened Protocol
  import opened Engines
  import opened Scoping
  import opened Searching
  import opened SearchInvariants
  import opened Responses
  import Wire

  // ---- Reading the hash input back ------------------------------------------------------------------

  const LENGTH_WIDTH: nat := 8

  datatype Parsed = Parsed(observation: Observation, rest: bytes)

  /** A length-prefixed text off the front of a stream. */
  function ParseText(b: bytes): Option<(bytes, bytes)> {
    if |b| < LENGTH_WIDTH || |b| < LENGTH_WIDTH + Wire.Value(b[..LENGTH_WIDTH]) then None
    else
      var n := Wire.Value(b[..LENGTH_WIDTH]);
      Some((b[LENGTH_WIDTH..][..n], b[LENGTH_WIDTH..][n..]))
  }

  function ParseObservation(b: bytes): Option<Parsed> {
    match ParseText(b)
    case None => None
    case Some((path, rest)) =>
      if rest == [] || rest[0] > 1 then None
      else if rest[0] == 0 then Some(Parsed(Observation(path, None), rest[1..]))
      else
        match ParseText(rest[1..])
        case None => None
        case Some((content, after)) => Some(Parsed(Observation(path, Some(content)), after))
  }

  function ParseObservations(b: bytes): Option<seq<Observation>>
    decreases |b|
  {
    if b == [] then Some([])
    else
      match ParseObservation(b)
      case None => None
      case Some(p) =>
        if |p.rest| >= |b| then None
        else
          match ParseObservations(p.rest)
          case None => None
          case Some(more) => Some([p.observation] + more)
  }

  /** Lengths fit the 64 bits they are written in, as any text in memory does. */
  predicate Sizeable(o: Observation) {
    |o.path| < Wire.Pow256(LENGTH_WIDTH) && (o.captured.Some? ==> |o.captured.value| < Wire.Pow256(LENGTH_WIDTH))
  }

  lemma TextRoundTrip(text: bytes, rest: bytes)
    requires |text| < Wire.Pow256(LENGTH_WIDTH)
    ensures ParseText(Wire.BigEndian(|text|, LENGTH_WIDTH) + text + rest) == Some((text, rest))
  {
    var header := Wire.BigEndian(|text|, LENGTH_WIDTH);
    Wire.HeaderRoundTrip(|text|, LENGTH_WIDTH, text + rest);
    assert header + text + rest == header + (text + rest);
    assert (text + rest)[..|text|] == text && (text + rest)[|text|..] == rest;
  }

  lemma ObservationRoundTrip(o: Observation, rest: bytes)
    requires Sizeable(o)
    ensures ParseObservation(EncodeObservation(o) + rest) == Some(Parsed(o, rest))
    ensures |EncodeObservation(o)| > 0
  {
    hide ParseText, Wire.Pow256, Wire.BigEndian, Wire.Value;
    var header := Wire.BigEndian(|o.path|, LENGTH_WIDTH);
    var body := if o.captured.None? then [0] else [1] + Wire.BigEndian(|o.captured.value|, LENGTH_WIDTH) + o.captured.value;
    assert EncodeObservation(o) + rest == header + o.path + (body + rest);
    TextRoundTrip(o.path, body + rest);
    if o.captured.None? {
      assert (body + rest)[1..] == rest;
    } else {
      TextRoundTrip(o.captured.value, rest);
      assert (body + rest)[1..] == Wire.BigEndian(|o.captured.value|, LENGTH_WIDTH) + o.captured.value + rest;
    }
  }

  /** The parser recovers exactly the record that was written. */
  lemma {:induction false} RecordRoundTrip(os: seq<Observation>)
    requires forall o :: o in os ==> Sizeable(o)
    ensures ParseObservations(EncodeObservations(os)) == Some(os)
  {
    hide ParseObservation, EncodeObservation, Sizeable;
    if |os| > 0 {
      ObservationRoundTrip(os[0], EncodeObservations(os[1..]));
      RecordRoundTrip(os[1..]);
      assert os == [os[0]] + os[1..];
    }
  }

  /** Different records, absence included, are never hashed from the same bytes. */
  lemma PreimageInjective(a: seq<Observation>, b: seq<Observation>)
    requires forall o :: o in a ==> Sizeable(o)
    requires forall o :: o in b ==> Sizeable(o)
    ensures Preimage(a) == Preimage(b) <==> a == b
  {
    hide Sizeable;
    if Preimage(a) == Preimage(b) {
      assert EncodeObservations(a) == Preimage(a)[|SNAPSHOT_DOMAIN|..];
      assert EncodeObservations(b) == Preimage(b)[|SNAPSHOT_DOMAIN|..];
      RecordRoundTrip(a);
      RecordRoundTrip(b);
    }
  }

  // ---- Re-reading ---------------------------------------------------------------------------------------

  /** Reading the file again, at `t`, gave the recorded outcome. */
  predicate ReadAgain(w: World, o: Observation, t: nat) { PolicyAt(w, t, o.path).outcome == Ok(o.captured) }

  lemma {:induction false} VerifyReadsAgain(w: World, os: seq<Observation>, now: nat, o: Observation) returns (t: nat)
    requires VerifyAt(w, os, now).fault.None? && o in os
    ensures now <= t && ReadAgain(w, o, t)
    decreases |os|
  {
    hide PolicyAt;
    if o == os[0] {
      t := now;
    } else {
      t := VerifyReadsAgain(w, os[1..], PolicyAt(w, now, os[0].path).now, o);
    }
  }

  /** A record that cannot be read again as it was leaves the result incomplete. */
  lemma {:induction false} VerifyCatches(w: World, os: seq<Observation>, now: nat, o: Observation)
    requires o in os && forall t: nat :: now <= t ==> !ReadAgain(w, o, t)
    ensures VerifyAt(w, os, now).fault.Some?
  {
    if VerifyAt(w, os, now).fault.None? {
      var t := VerifyReadsAgain(w, os, now, o);
      assert false;
    }
  }

  /** Complete coverage means that after the walk every record, absence included, was read again unchanged. */
  lemma CompleteMeansReadAgain(j: Job, fd: Ino, o: Observation) returns (t: nat)
    requires Sound(j.e) && SearchAt(j, fd).Ok? && SearchAt(j, fd).value.complete
    requires o in Reported(j, fd).scope.observations
    ensures Reported(j, fd).now <= t && ReadAgain(j.w, o, t)
  {
    hide HitAccepted, Vouched, WalkAt, Conclude, ScopeAcceptable, Reported, SearchAt, VerifyAt, ReadAgain;
    SearchReports(j, fd);
    ConcludeTruth(j, Reported(j, fd));
    t := VerifyReadsAgain(j.w, Reported(j, fd).scope.observations, Reported(j, fd).now, o);
  }

  /** The reported hash is the digest of exactly the record that coverage was judged by. */
  lemma SnapshotIsOfRecord(j: Job, fd: Ino)
    requires Sound(j.e) && SearchAt(j, fd).Ok?
    ensures SearchAt(j, fd).value.policySnapshotHash == Digest(j.e, Preimage(Reported(j, fd).scope.observations))
  {
    hide HitAccepted, Vouched, WalkAt, ScopeAcceptable, Reported, SearchAt, VerifyAt, Preimage, Digest;
    SearchReports(j, fd);
  }
}
