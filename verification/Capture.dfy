/** The file system the worker runs against, operation by operation. */
module World {
  import opened Basics
  import opened Paths

  /** An inode; holding its number is holding a descriptor pinned to it. */
  type Ino = nat

  datatype Kind = Directory | Regular | Special

  datatype Stat = Stat(kind: Kind, dev: int, ino: int, size: int, mtime: int, mtimeNsec: int, ctime: int, ctimeNsec: int)

  datatype Inode = Inode(stat: Stat, content: bytes)

  /**
   Operation number `t` sees the deadline as `expired(t)`, fails as `fails(t)` says, and otherwise sees
   the paths, inodes and directory listings of that moment. Writers may change them between any two operations.
   A read at `t` returns `burst(t)` bytes, clamped to at least one and at most what is wanted and left.
   */
  datatype World = World(
    expired: nat -> bool,
    fails: nat -> bool,
    resolve: (nat, Path) -> Option<Ino>,
    inode: (nat, Ino) -> Inode,
    listing: (nat, Ino) -> seq<Name>,
    burst: nat -> nat)

  function ReadCount(w: World, t: nat, fd: Ino, offset: nat, wanted: nat): (n: nat)
    ensures n <= wanted
    ensures n == 0 <==> wanted == 0 || |w.inode(t, fd).content| <= offset
    ensures n > 0 ==> offset + n <= |w.inode(t, fd).content|
  {
    var left := |w.inode(t, fd).content| - offset;
    if left <= 0 || wanted == 0 then 0
    else if w.burst(t) == 0 then 1
    else Min(w.burst(t), Min(left, wanted))
  }
}

/** Reading one whole file at one revision while writers may interfere between any two operations. */
module Capture {
  import opened Basics
  import Utf8
  import opened World
  import opened Protocol

  const CHUNK: nat := 65_536

  predicate SameRevision(a: Stat, b: Stat) {
    && a.dev == b.dev && a.ino == b.ino && a.size == b.size
    && a.mtime == b.mtime && a.mtimeNsec == b.mtimeNsec
    && a.ctime == b.ctime && a.ctimeNsec == b.ctimeNsec
  }

  datatype Slurped = Slurped(outcome: Result<bytes, Code>, now: nat)
  datatype Captured = Captured(outcome: Result<Option<bytes>, Code>, now: nat)

  /** The read loop from operation `now`, with `got` already buffered. */
  function Slurp(w: World, now: nat, fd: Ino, limit: nat, got: bytes): (s: Slurped)
    requires |got| <= limit
    ensures now < s.now
    ensures s.outcome.Ok? ==> |s.outcome.value| <= limit
    decreases limit - |got|
  {
    if w.expired(now) then Slurped(Err(Deadline), now + 1)
    else if w.fails(now + 1) then Slurped(Err(ReadFailed), now + 2)
    else
      var n := ReadCount(w, now + 1, fd, |got|, Min(CHUNK, limit + 1 - |got|));
      if n == 0 then Slurped(Ok(got), now + 2)
      else
        var more := got + w.inode(now + 1, fd).content[|got|..|got| + n];
        if |more| > limit then Slurped(Err(SourceMutated), now + 2)
        else Slurp(w, now + 2, fd, limit, more)
  }

  predicate Oversized(stat: Stat, limit: nat) { stat.size < 0 || stat.size > limit }

  /** Text the worker searches: no NUL byte and valid UTF-8. */
  predicate Textual(b: bytes) { 0 !in b && Utf8.Valid(b) }

  function CaptureAt(w: World, start: nat, fd: Ino, limit: nat): (c: Captured)
    ensures start < c.now
  {
    if w.expired(start) then Captured(Err(Deadline), start + 1)
    else if w.fails(start + 1) then Captured(Err(ReadFailed), start + 2)
    else
      var before := w.inode(start + 1, fd).stat;
      if before.kind != Regular || Oversized(before, limit) then Captured(Ok(None), start + 2)
      else if w.expired(start + 2) then Captured(Err(Deadline), start + 3)
      else if w.fails(start + 3) then Captured(Err(ReadFailed), start + 4)
      else if w.fails(start + 4) then Captured(Err(ReadFailed), start + 5)
      else
        var reopened := w.inode(start + 4, fd).stat;
        if reopened.kind != Regular || !SameRevision(before, reopened) then Captured(Err(SourceMutated), start + 5)
        else
          var s := Slurp(w, start + 5, fd, limit, []);
          if s.outcome.Err? then Captured(Err(s.outcome.error), s.now)
          else if w.fails(s.now) then Captured(Err(ReadFailed), s.now + 1)
          else if !SameRevision(before, w.inode(s.now, fd).stat) then Captured(Err(SourceMutated), s.now + 1)
          else Captured(Ok(if Textual(s.outcome.value) then Some(s.outcome.value) else None), s.now + 1)
  }

  /** The capture itself, looping over bounded reads. */
  method Run(w: World, start: nat, fd: Ino, limit: nat) returns (outcome: Result<Option<bytes>, Code>, now: nat)
    ensures Captured(outcome, now) == CaptureAt(w, start, fd, limit)
  {
    if w.expired(start) {
      return Err(Deadline), start + 1;
    }
    if w.fails(start + 1) {
      return Err(ReadFailed), start + 2;
    }
    var before := w.inode(start + 1, fd).stat;
    if before.kind != Regular || Oversized(before, limit) {
      return Ok(None), start + 2;
    }
    if w.expired(start + 2) {
      return Err(Deadline), start + 3;
    }
    if w.fails(start + 3) {
      return Err(ReadFailed), start + 4;
    }
    if w.fails(start + 4) {
      return Err(ReadFailed), start + 5;
    }
    var reopened := w.inode(start + 4, fd).stat;
    if reopened.kind != Regular || !SameRevision(before, reopened) {
      return Err(SourceMutated), start + 5;
    }
    var got: bytes := [];
    now := start + 5;
    while true
      invariant |got| <= limit
      invariant Slurp(w, now, fd, limit, got) == Slurp(w, start + 5, fd, limit, [])
      decreases limit - |got|
    {
      if w.expired(now) {
        return Err(Deadline), now + 1;
      }
      var wanted := Min(CHUNK, limit + 1 - |got|);
      if w.fails(now + 1) {
        return Err(ReadFailed), now + 2;
      }
      var n := ReadCount(w, now + 1, fd, |got|, wanted);
      if n == 0 {
        now := now + 2;
        break;
      }
      var more := got + w.inode(now + 1, fd).content[|got|..|got| + n];
      if |more| > limit {
        return Err(SourceMutated), now + 2;
      }
      got := more;
      now := now + 2;
    }
    if w.fails(now) {
      return Err(ReadFailed), now + 1;
    }
    if !SameRevision(before, w.inode(now, fd).stat) {
      return Err(SourceMutated), now + 1;
    }
    return Ok(if Textual(got) then Some(got) else None), now + 1;
  }

  /** One read of the loop: operation `at` asked for `wanted` bytes from `offset` on and got `count`. */
  datatype ReadCall = ReadCall(at: nat, offset: nat, wanted: nat, count: nat)

  function ReadCalls(w: World, now: nat, fd: Ino, limit: nat, got: bytes): seq<ReadCall>
    requires |got| <= limit
    decreases limit - |got|
  {
    if w.expired(now) || w.fails(now + 1) then []
    else
      var wanted := Min(CHUNK, limit + 1 - |got|);
      var n := ReadCount(w, now + 1, fd, |got|, wanted);
      [ReadCall(now + 1, |got|, wanted, n)]
      + if n == 0 || |got| + n > limit then []
        else ReadCalls(w, now + 2, fd, limit, got + w.inode(now + 1, fd).content[|got|..|got| + n])
  }

  /** At least one byte, at most a chunk, and none beyond the byte after the limit; nothing only at the end of the file. */
  predicate CallBounded(w: World, fd: Ino, limit: nat, c: ReadCall) {
    && 1 <= c.wanted <= 65_536 && c.offset + c.wanted <= limit + 1 && c.count <= c.wanted
    && (c.count == 0 ==> |w.inode(c.at, fd).content| <= c.offset)
  }

  /** Each read continues where the one before it stopped, and only the last may get nothing. */
  ghost predicate Contiguous(calls: seq<ReadCall>) {
    forall i, k :: 0 <= i < k < |calls| && k == i + 1 ==> calls[i].count > 0 && calls[k].offset == calls[i].offset + calls[i].count
  }

  lemma ContiguousFrom(c: ReadCall, calls: seq<ReadCall>)
    requires Contiguous(calls) && c.count > 0 && (calls != [] ==> calls[0].offset == c.offset + c.count)
    ensures Contiguous([c] + calls)
  {
    var all := [c] + calls;
    forall i, k | 0 <= i < k < |all| && k == i + 1
      ensures all[i].count > 0 && all[k].offset == all[i].offset + all[i].count
    {
      if i > 0 {
        assert all[i] == calls[i - 1] && all[k] == calls[k - 1];
      }
    }
  }

  /** The loop's reads stay within the limit and one byte, follow one another without gaps, and end at the end of the file. */
  lemma {:induction false} ReadsBounded(w: World, now: nat, fd: Ino, limit: nat, got: bytes)
    requires |got| <= limit
    ensures var calls := ReadCalls(w, now, fd, limit, got);
            && (forall c :: c in calls ==> CallBounded(w, fd, limit, c))
            && Contiguous(calls) && (calls != [] ==> calls[0].offset == |got|)
    ensures Slurp(w, now, fd, limit, got).outcome.Ok? ==>
              var calls := ReadCalls(w, now, fd, limit, got);
              calls != [] && calls[|calls| - 1].count == 0 && |Slurp(w, now, fd, limit, got).outcome.value| == calls[|calls| - 1].offset
    decreases limit - |got|
  {
    hide Contiguous;
    var wanted := Min(CHUNK, limit + 1 - |got|);
    var n := ReadCount(w, now + 1, fd, |got|, wanted);
    var first := ReadCall(now + 1, |got|, wanted, n);
    assert Contiguous([first]) && Contiguous([]) by {
      ContiguousShort(first);
    }
    if n > 0 && |got| + n <= limit {
      var more := got + w.inode(now + 1, fd).content[|got|..|got| + n];
      ReadsBounded(w, now + 2, fd, limit, more);
      var rest := ReadCalls(w, now + 2, fd, limit, more);
      ContiguousFrom(first, rest);
    } else {
      assert [first] + [] == [first];
    }
  }

  lemma ContiguousShort(c: ReadCall)
    ensures Contiguous([c]) && Contiguous([])
  {
  }

  ghost predicate Steady(w: World, fd: Ino, from: nat, to: nat) {
    forall k: nat :: from <= k <= to ==> w.inode(k, fd).content == w.inode(from, fd).content
  }

  /** What a writer moves by writing: the size and the two times, each with its nanoseconds. */
  datatype Stamp = Stamp(size: int, mtime: int, mtimeNsec: int, ctime: int, ctimeNsec: int)

  function StampAt(w: World, t: nat, fd: Ino): Stamp {
    var stat := w.inode(t, fd).stat;
    Stamp(stat.size, stat.mtime, stat.mtimeNsec, stat.ctime, stat.ctimeNsec)
  }

  /** A change of content changes the stamp, and a stamp once left does not return. */
  ghost predicate Honest(w: World, fd: Ino) {
    && (forall t: nat, u: nat :: u == t + 1 && StampAt(w, t, fd) == StampAt(w, u, fd) ==> w.inode(t, fd).content == w.inode(u, fd).content)
    && (forall i: nat, k: nat, j: nat :: i <= k <= j && StampAt(w, i, fd) == StampAt(w, j, fd) ==> StampAt(w, k, fd) == StampAt(w, i, fd))
  }

  lemma {:induction false} StampHolds(w: World, fd: Ino, from: nat, last: nat)
    requires Honest(w, fd) && from <= last && StampAt(w, from, fd) == StampAt(w, last, fd)
    ensures Steady(w, fd, from, last)
    decreases last
  {
    if from < last {
      assert StampAt(w, last - 1, fd) == StampAt(w, from, fd);
      StampHolds(w, fd, from, last - 1);
      assert w.inode(last - 1, fd).content == w.inode(last, fd).content;
    }
  }

  /**
   When a capture delivers bytes, its three inspections showed one regular file of admissible size whose device, inode,
   size and times, to the nanosecond, were the same.
   */
  lemma InspectionsAgree(w: World, start: nat, fd: Ino, limit: nat)
    requires CaptureAt(w, start, fd, limit).outcome.Ok? && CaptureAt(w, start, fd, limit).outcome.value.Some?
    ensures start + 6 < CaptureAt(w, start, fd, limit).now
    ensures var before := w.inode(start + 1, fd).stat;
            var reopened := w.inode(start + 4, fd).stat;
            var after := w.inode(CaptureAt(w, start, fd, limit).now - 1, fd).stat;
            && before.kind == Regular && reopened.kind == Regular && 0 <= before.size <= limit
            && before.dev == reopened.dev == after.dev && before.ino == reopened.ino == after.ino
            && before.size == reopened.size == after.size
            && before.mtime == reopened.mtime == after.mtime && before.mtimeNsec == reopened.mtimeNsec == after.mtimeNsec
            && before.ctime == reopened.ctime == after.ctime && before.ctimeNsec == reopened.ctimeNsec == after.ctimeNsec
  {
    hide Slurp, Textual;
  }

  /** What a capture comes to when no deadline passes and no call fails. */
  lemma UndisturbedCapture(w: World, start: nat, fd: Ino, limit: nat)
    requires forall t: nat :: start <= t <= Slurp(w, start + 5, fd, limit, []).now ==> !w.expired(t) && !w.fails(t)
    ensures var s := Slurp(w, start + 5, fd, limit, []);
            var before := w.inode(start + 1, fd).stat;
            var reopened := w.inode(start + 4, fd).stat;
            var after := w.inode(s.now, fd).stat;
            CaptureAt(w, start, fd, limit).outcome
              == if before.kind != Regular || before.size < 0 || before.size > limit then Ok(None)
                 else if reopened.kind == Regular
                    && before.dev == reopened.dev && before.ino == reopened.ino && before.size == reopened.size
                    && before.mtime == reopened.mtime && before.mtimeNsec == reopened.mtimeNsec
                    && before.ctime == reopened.ctime && before.ctimeNsec == reopened.ctimeNsec
                    && s.outcome.Ok?
                    && before.dev == after.dev && before.ino == after.ino && before.size == after.size
                    && before.mtime == after.mtime && before.mtimeNsec == after.mtimeNsec
                    && before.ctime == after.ctime && before.ctimeNsec == after.ctimeNsec
                 then Ok(if (forall b :: b in s.outcome.value ==> b != 0x00) && Utf8.Valid(s.outcome.value) then Some(s.outcome.value) else None)
                 else Err(SourceMutated)
  {
    OnlyTooLong(w, start + 5, fd, limit, []);
    hide Slurp, Utf8.Valid;
  }

  /** With no deadline and no failure, reading stops short only past the limit. */
  lemma {:induction false} OnlyTooLong(w: World, now: nat, fd: Ino, limit: nat, got: bytes)
    requires |got| <= limit && forall t: nat :: now <= t < Slurp(w, now, fd, limit, got).now ==> !w.expired(t) && !w.fails(t)
    ensures var s := Slurp(w, now, fd, limit, got); s.outcome.Err? ==> s.outcome.error == SourceMutated
    decreases limit - |got|
  {
    var n := ReadCount(w, now + 1, fd, |got|, Min(CHUNK, limit + 1 - |got|));
    if n > 0 && |got| + n <= limit {
      OnlyTooLong(w, now + 2, fd, limit, got + w.inode(now + 1, fd).content[|got|..|got| + n]);
    }
  }

  /** A read loop that sees one unchanging content returns all of it. */
  lemma {:induction false} SlurpReadsAll(w: World, now: nat, fd: Ino, limit: nat, got: bytes, whole: bytes)
    requires |got| <= limit && got <= whole
    requires Slurp(w, now, fd, limit, got).outcome.Ok?
    requires forall k: nat :: now <= k < Slurp(w, now, fd, limit, got).now ==> w.inode(k, fd).content == whole
    ensures Slurp(w, now, fd, limit, got).outcome.value == whole
    decreases limit - |got|
  {
    var n := ReadCount(w, now + 1, fd, |got|, Min(CHUNK, limit + 1 - |got|));
    if n > 0 {
      var more := got + w.inode(now + 1, fd).content[|got|..|got| + n];
      SlurpReadsAll(w, now + 2, fd, limit, more, whole);
    }
  }

  /** Captured bytes are the whole file at a single revision that lasted through every read, and are bounded text. */
  lemma SingleRevision(w: World, start: nat, fd: Ino, limit: nat)
    requires Honest(w, fd)
    requires CaptureAt(w, start, fd, limit).outcome.Ok? && CaptureAt(w, start, fd, limit).outcome.value.Some?
    ensures var c := CaptureAt(w, start, fd, limit);
            && (forall k: nat :: start < k < c.now ==> w.inode(k, fd).content == c.outcome.value.value)
            && |c.outcome.value.value| <= limit
            && Textual(c.outcome.value.value)
            && w.inode(start + 1, fd).stat.kind == Regular
  {
    var c := CaptureAt(w, start, fd, limit);
    var s := Slurp(w, start + 5, fd, limit, []);
    InspectionsAgree(w, start, fd, limit);
    StampHolds(w, fd, start + 1, s.now);
    hide Slurp, Honest;
    SlurpReadsAll(w, start + 5, fd, limit, [], w.inode(start + 1, fd).content);
  }

  predicate CaptureFault(c: Code) { c == Deadline || c == ReadFailed || c == SourceMutated }

  lemma {:induction false} SlurpFaults(w: World, now: nat, fd: Ino, limit: nat, got: bytes)
    requires |got| <= limit
    ensures var s := Slurp(w, now, fd, limit, got); s.outcome.Err? ==> CaptureFault(s.outcome.error)
    decreases limit - |got|
  {
    var n := ReadCount(w, now + 1, fd, |got|, Min(CHUNK, limit + 1 - |got|));
    if n > 0 && |got| + n <= limit {
      SlurpFaults(w, now + 2, fd, limit, got + w.inode(now + 1, fd).content[|got|..|got| + n]);
    }
  }

  /** Whatever writers do, a capture yields bounded text, declines, or reports one of three faults. */
  lemma CaptureShape(w: World, start: nat, fd: Ino, limit: nat)
    ensures var o := CaptureAt(w, start, fd, limit).outcome;
            && (o.Err? ==> CaptureFault(o.error))
            && (o.Ok? && o.value.Some? ==> |o.value.value| <= limit && Textual(o.value.value))
  {
    SlurpFaults(w, start + 5, fd, limit, []);
  }

  /** What a static file offers: its content when it is bounded text. */
  function Offered(content: bytes, limit: nat): Option<bytes> {
    if |content| <= limit && Textual(content) then Some(content) else None
  }

  ghost predicate StaticFile(w: World, fd: Ino, content: bytes) {
    forall t: nat :: w.inode(t, fd).stat.kind == Regular && w.inode(t, fd).content == content && w.inode(t, fd).stat.size == |content|
  }

  ghost predicate StaticOther(w: World, fd: Ino) {
    forall t: nat :: w.inode(t, fd).stat.kind != Regular
  }

  lemma CaptureOfStatic(w: World, start: nat, fd: Ino, limit: nat, content: bytes)
    requires StaticFile(w, fd, content)
    ensures var o := CaptureAt(w, start, fd, limit).outcome;
            if o.Err? then CaptureFault(o.error) else o.value == Offered(content, limit)
  {
    CaptureShape(w, start, fd, limit);
    var s := Slurp(w, start + 5, fd, limit, []);
    if s.outcome.Ok? {
      SlurpReadsAll(w, start + 5, fd, limit, [], content);
    }
    assert w.inode(start + 1, fd).stat.size == |content|;
  }

  lemma CaptureOfOther(w: World, start: nat, fd: Ino, limit: nat)
    requires StaticOther(w, fd)
    ensures var o := CaptureAt(w, start, fd, limit).outcome;
            o.Err? ==> CaptureFault(o.error)
    ensures var o := CaptureAt(w, start, fd, limit).outcome;
            o.Ok? ==> o.value == None
  {
  }

  /** No operation fails, no deadline passes, and nothing changes. */
  ghost predicate Frozen(w: World) {
    && (forall t: nat :: !w.expired(t) && !w.fails(t))
    && (forall t: nat, p :: w.resolve(t, p) == w.resolve(0, p))
    && (forall t: nat, i: nat :: w.inode(t, i) == w.inode(0, i) && w.listing(t, i) == w.listing(0, i))
  }

  lemma {:induction false} SlurpSucceeds(w: World, now: nat, fd: Ino, limit: nat, got: bytes)
    requires Frozen(w)
    requires |got| <= limit && |w.inode(0, fd).content| <= limit
    ensures Slurp(w, now, fd, limit, got).outcome.Ok?
    decreases limit - |got|
  {
    var n := ReadCount(w, now + 1, fd, |got|, Min(CHUNK, limit + 1 - |got|));
    assert w.inode(now + 1, fd) == w.inode(0, fd);
    if n > 0 {
      SlurpSucceeds(w, now + 2, fd, limit, got + w.inode(now + 1, fd).content[|got|..|got| + n]);
    }
  }

  /** On a frozen world a capture always delivers what the file offers. */
  lemma CaptureOfFrozen(w: World, start: nat, fd: Ino, limit: nat, content: bytes)
    requires Frozen(w) && StaticFile(w, fd, content)
    ensures CaptureAt(w, start, fd, limit).outcome == Ok(Offered(content, limit))
  {
    CaptureOfStatic(w, start, fd, limit, content);
    assert w.inode(start + 1, fd) == w.inode(0, fd) && w.inode(start + 4, fd) == w.inode(0, fd);
    if |content| <= limit {
      SlurpSucceeds(w, start + 5, fd, limit, []);
    }
  }
}
