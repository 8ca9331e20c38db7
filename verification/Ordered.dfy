/** Byte texts in lexicographic order, and sequences kept strictly increasing by it. */
module Ordered {
  import opened Basics

  predicate Less(a: bytes, b: bytes)
    decreases |a|
  {
    |b| > 0 && (|a| == 0 || a[0] < b[0] || (a[0] == b[0] && Less(a[1..], b[1..])))
  }

  lemma {:induction false} LessIrreflexive(a: bytes)
    ensures !Less(a, a)
    decreases |a|
  {
    if |a| > 0 {
      LessIrreflexive(a[1..]);
    }
  }

  lemma {:induction false} LessTransitive(a: bytes, b: bytes, c: bytes)
    requires Less(a, b) && Less(b, c)
    ensures Less(a, c)
    decreases |a|
  {
    if |a| > 0 && a[0] == b[0] == c[0] {
      LessTransitive(a[1..], b[1..], c[1..]);
    }
  }

  lemma {:induction false} LessTotal(a: bytes, b: bytes)
    ensures a == b || Less(a, b) || Less(b, a)
    decreases |a|
  {
    if |a| > 0 && |b| > 0 && a[0] == b[0] {
      LessTotal(a[1..], b[1..]);
      assert a == [a[0]] + a[1..] && b == [b[0]] + b[1..];
    }
  }

  /** The head precedes everything after it, and the rest is increasing. */
  predicate Increasing(xs: seq<bytes>) {
    |xs| == 0 || ((forall x :: x in xs[1..] ==> Less(xs[0], x)) && Increasing(xs[1..]))
  }

  function Insert(xs: seq<bytes>, k: bytes): seq<bytes> {
    if |xs| == 0 then [k]
    else if xs[0] == k then xs
    else if Less(k, xs[0]) then [k] + xs
    else [xs[0]] + Insert(xs[1..], k)
  }

  lemma {:induction false} InsertMembers(xs: seq<bytes>, k: bytes, x: bytes)
    ensures x in Insert(xs, k) <==> x == k || x in xs
  {
    if |xs| > 0 {
      assert xs == [xs[0]] + xs[1..];
      InsertMembers(xs[1..], k, x);
    }
  }

  lemma {:induction false} InsertIncreasing(xs: seq<bytes>, k: bytes)
    requires Increasing(xs)
    ensures Increasing(Insert(xs, k))
  {
    if |xs| > 0 && xs[0] != k {
      if Less(k, xs[0]) {
        forall x | x in ([k] + xs)[1..]
          ensures Less(k, x)
        {
          if x != xs[0] {
            assert x in xs[1..];
            LessTransitive(k, xs[0], x);
          }
        }
        assert ([k] + xs)[1..] == xs;
      } else {
        LessTotal(k, xs[0]);
        InsertIncreasing(xs[1..], k);
        forall x | x in Insert(xs[1..], k)
          ensures Less(xs[0], x)
        {
          InsertMembers(xs[1..], k, x);
        }
        assert ([xs[0]] + Insert(xs[1..], k))[1..] == Insert(xs[1..], k);
      }
    }
  }

  /** An increasing sequence is determined by its members. */
  lemma {:induction false} IncreasingUnique(a: seq<bytes>, b: seq<bytes>)
    requires Increasing(a) && Increasing(b)
    requires forall x :: x in a <==> x in b
    ensures a == b
  {
    assert |a| > 0 ==> a[0] in b;
    assert |b| > 0 ==> b[0] in a;
    if |a| > 0 {
      if a[0] != b[0] {
        assert a[0] in b[1..] && b[0] in a[1..];
        LessTransitive(a[0], b[0], a[0]);
        LessIrreflexive(a[0]);
        assert false;
      }
      forall x
        ensures x in a[1..] <==> x in b[1..]
      {
        LessIrreflexive(a[0]);
        assert x in a <==> x == a[0] || x in a[1..];
        assert x in b <==> x == b[0] || x in b[1..];
      }
      IncreasingUnique(a[1..], b[1..]);
      assert a == [a[0]] + a[1..] && b == [b[0]] + b[1..];
    }
  }
}
