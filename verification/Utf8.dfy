/**
 UTF-8 as RFC 3629 defines it: the octet grammar of section 4 decides validity,
 and a scalar boundary is an offset that decoding from the start reaches.
 */
module Utf8 {
  import opened Basics

  predicate Tail(b: byte) { 0x80 <= b <= 0xBF }

  predicate SecondOfThree(lead: byte, b: byte) {
    || (lead == 0xE0 && 0xA0 <= b <= 0xBF)
    || ((0xE1 <= lead <= 0xEC || 0xEE <= lead <= 0xEF) && Tail(b))
    || (lead == 0xED && 0x80 <= b <= 0x9F)
  }

  predicate SecondOfFour(lead: byte, b: byte) {
    || (lead == 0xF0 && 0x90 <= b <= 0xBF)
    || (0xF1 <= lead <= 0xF3 && Tail(b))
    || (lead == 0xF4 && 0x80 <= b <= 0x8F)
  }

  /** Octets in the well-formed sequence at the head of `b`; 0 when there is none. */
  function Width(b: bytes): (n: nat)
    ensures n <= 4 && n <= |b|
  {
    if |b| == 0 then 0
    else if b[0] <= 0x7F then 1
    else if |b| < 2 then 0
    else if 0xC2 <= b[0] <= 0xDF && Tail(b[1]) then 2
    else if |b| < 3 || !Tail(b[2]) then 0
    else if SecondOfThree(b[0], b[1]) then 3
    else if |b| < 4 || !Tail(b[3]) then 0
    else if SecondOfFour(b[0], b[1]) then 4
    else 0
  }

  predicate Valid(b: bytes)
    decreases |b|
  {
    |b| == 0 || (Width(b) > 0 && Valid(b[Width(b)..]))
  }

  /** Decoding `b` from its start stops at offset `i`. */
  predicate ScalarBoundary(b: bytes, i: nat)
    decreases i
  {
    i == 0 || (0 < Width(b) <= i && ScalarBoundary(b[Width(b)..], i - Width(b)))
  }

  /** UTF-16 code units a decoder produces: two for a four-octet sequence, else one. */
  function Utf16Length(b: bytes): nat
    decreases |b|
  {
    if Width(b) == 0 then 0
    else (if Width(b) == 4 then 2 else 1) + Utf16Length(b[Width(b)..])
  }

  /** The test the implementation makes on one octet, `(b & 0xc0) != 0x80`. */
  predicate NotContinuation(b: byte) { !Tail(b) }

  /** The mask leaves 0x80 exactly for the octets 0x80 to 0xBF, those that `NotContinuation` excludes. */
  lemma MaskIsNotContinuation(b: bv8)
    ensures (b & 0xC0 != 0x80) <==> (b < 0x80 || 0xBF < b)
  {
  }

  /** The offset test of both the worker and the evidence verifier. */
  predicate IsCharBoundary(b: bytes, i: int)
  {
    i == 0 || i == |b| || (0 < i < |b| && NotContinuation(b[i]))
  }

  lemma HeadShape(b: bytes)
    requires Width(b) > 0
    ensures NotContinuation(b[0])
    ensures forall k :: 0 < k < Width(b) ==> !NotContinuation(b[k])
  {
  }

  /** On valid UTF-8 the one-octet test finds exactly the scalar boundaries. */
  lemma {:induction false} BoundaryTestIsExact(b: bytes, i: nat)
    requires Valid(b) && i <= |b|
    ensures IsCharBoundary(b, i) <==> ScalarBoundary(b, i)
    decreases |b|
  {
    if 0 < i {
      var n := Width(b);
      HeadShape(b);
      if n <= i {
        var rest := b[n..];
        BoundaryTestIsExact(rest, i - n);
        if n < i < |b| {
          assert rest[i - n] == b[i];
        } else if i == n && n < |b| {
          HeadShape(rest);
          assert rest[0] == b[n];
        }
      }
    }
  }

  lemma {:induction false} SuffixValid(b: bytes, i: nat)
    requires Valid(b) && i <= |b| && ScalarBoundary(b, i)
    ensures Valid(b[i..])
    decreases |b|
  {
    if 0 < i {
      var n := Width(b);
      SuffixValid(b[n..], i - n);
      assert b[n..][i - n..] == b[i..];
    }
  }

  lemma WidthOfPrefix(b: bytes, j: nat)
    requires Width(b) <= j <= |b| && Width(b) > 0
    ensures Width(b[..j]) == Width(b)
  {
  }

  lemma {:induction false} PrefixValid(b: bytes, j: nat)
    requires Valid(b) && j <= |b| && ScalarBoundary(b, j)
    ensures Valid(b[..j])
    decreases |b|
  {
    if 0 < j {
      var n := Width(b);
      WidthOfPrefix(b, j);
      PrefixValid(b[n..], j - n);
      assert b[..j][n..] == b[n..][..j - n];
    }
  }

  lemma {:induction false} BoundaryOfPrefix(b: bytes, i: nat, j: nat)
    requires Valid(b) && i <= j <= |b| && ScalarBoundary(b, i) && ScalarBoundary(b, j)
    ensures ScalarBoundary(b[..j], i)
    decreases |b|
  {
    if 0 < i {
      var n := Width(b);
      WidthOfPrefix(b, j);
      BoundaryOfPrefix(b[n..], i - n, j - n);
      assert b[..j][n..] == b[n..][..j - n];
    }
  }

  /** A slice between two offsets that pass the test is itself valid UTF-8. */
  lemma SliceValid(b: bytes, i: nat, j: nat)
    requires Valid(b) && i <= j <= |b| && IsCharBoundary(b, i) && IsCharBoundary(b, j)
    ensures Valid(b[i..j])
  {
    BoundaryTestIsExact(b, i);
    BoundaryTestIsExact(b, j);
    PrefixValid(b, j);
    BoundaryOfPrefix(b, i, j);
    SuffixValid(b[..j], i);
    assert b[..j][i..] == b[i..j];
  }

  /** No four neighbouring offsets of valid UTF-8 all fall inside scalars. */
  lemma {:induction false} BoundaryWithinThree(b: bytes, i: nat)
    requires Valid(b) && 3 <= i < |b|
    ensures exists k :: i - 3 <= k <= i && IsCharBoundary(b, k)
    decreases |b|
  {
    var n := Width(b);
    HeadShape(b);
    if i < n {
      assert IsCharBoundary(b, 0) && i - 3 <= 0 <= i;
    } else if i - n < 3 {
      BoundaryTestIsExact(b, n);
      assert ScalarBoundary(b[n..], 0);
      assert IsCharBoundary(b, n) && i - 3 <= n <= i;
    } else {
      BoundaryWithinThree(b[n..], i - n);
      var k :| i - n - 3 <= k <= i - n && IsCharBoundary(b[n..], k);
      BoundaryTestIsExact(b[n..], k);
      BoundaryTestIsExact(b, k + n);
      assert IsCharBoundary(b, k + n) && i - 3 <= k + n <= i;
    }
  }

  lemma WidthOfAppend(a: bytes, b: bytes)
    requires Width(a) > 0
    ensures Width(a + b) == Width(a)
  {
    assert forall k :: 0 <= k < |a| ==> (a + b)[k] == a[k];
  }

  /** Validity goes head by head. */
  lemma ValidByHead(b: bytes)
    requires |b| > 0
    ensures Valid(b) <==> Width(b) > 0 && Valid(b[Width(b)..])
  {
    hide Width;
  }

  lemma {:induction false} AppendValid(a: bytes, b: bytes)
    requires Valid(a) && Valid(b)
    ensures Valid(a + b)
    decreases |a|
  {
    hide Width, Valid;
    if |a| == 0 {
      assert a + b == b;
    } else {
      var n := Width(a);
      ValidByHead(a);
      WidthOfAppend(a, b);
      AppendValid(a[n..], b);
      assert (a + b)[n..] == a[n..] + b;
      ValidByHead(a + b);
    }
  }

  lemma {:induction false} Utf16NotLonger(b: bytes)
    requires Valid(b)
    ensures Utf16Length(b) <= |b|
    decreases |b|
  {
    if |b| > 0 {
      Utf16NotLonger(b[Width(b)..]);
    }
  }

  /** The first step-back target at or below `i` that passes the test. */
  function StepBack(b: bytes, i: nat): (k: nat)
    requires i <= |b|
    ensures k <= i && IsCharBoundary(b, k)
    ensures forall m :: k < m <= i ==> !IsCharBoundary(b, m)
  {
    if IsCharBoundary(b, i) then i else StepBack(b, i - 1)
  }

  lemma StepBackAtMostThree(b: bytes, i: nat)
    requires Valid(b) && i <= |b|
    ensures i - 3 <= StepBack(b, i) <= i
  {
    if i < |b| {
      if 3 <= i {
        BoundaryWithinThree(b, i);
      }
    }
  }
}
