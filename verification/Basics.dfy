/** Vocabulary shared by every layer: bytes, optional and failing values, subsequences. */
module Basics {
  type byte = x: int | 0 <= x < 256
  type bytes = seq<byte>

  datatype Option<+T> = None | Some(value: T)
  datatype Result<+T, +E> = Ok(value: T) | Err(error: E)

  function Min(a: int, b: int): int { if a < b then a else b }

  /** The octets of a text in ASCII. */
  function Octets(s: string): (b: bytes)
    requires forall i :: 0 <= i < |s| ==> s[i] as int < 128
    ensures |b| == |s| && forall i :: 0 <= i < |s| ==> b[i] == s[i] as int
  {
    seq(|s|, i requires 0 <= i < |s| => s[i] as int)
  }

  lemma HeadIsMember<T>(xs: seq<T>)
    ensures xs == [] || xs[0] in xs
  {
  }

  function Copies<T>(x: T, n: nat): (xs: seq<T>)
    ensures |xs| == n && forall i :: 0 <= i < n ==> xs[i] == x
  {
    seq(n, i => x)
  }

  /** `a` can be obtained from `b` by deleting elements. */
  ghost predicate Sub<T>(a: seq<T>, b: seq<T>)
    decreases |b|
  {
    if |a| == 0 then true
    else if |b| == 0 then false
    else (a[0] == b[0] && Sub(a[1..], b[1..])) || Sub(a, b[1..])
  }

  lemma {:induction false} SubRefl<T>(a: seq<T>)
    ensures Sub(a, a)
  {
    if |a| > 0 {
      SubRefl(a[1..]);
    }
  }

  lemma {:induction false} SubAppendRight<T>(a: seq<T>, b: seq<T>, c: seq<T>)
    requires Sub(a, c)
    ensures Sub(a, b + c)
  {
    if |b| == 0 {
      assert b + c == c;
    } else {
      SubAppendRight(a, b[1..], c);
      assert (b + c)[1..] == b[1..] + c;
    }
  }

  /** Subsequences compose with concatenation. */
  lemma {:induction false} SubConcat<T>(a: seq<T>, b: seq<T>, c: seq<T>, d: seq<T>)
    requires Sub(a, b) && Sub(c, d)
    ensures Sub(a + c, b + d)
    decreases |b|
  {
    if |a| == 0 {
      assert a + c == c;
      SubAppendRight(c, b, d);
    } else {
      assert (b + d)[1..] == b[1..] + d;
      if a[0] == b[0] && Sub(a[1..], b[1..]) {
        SubConcat(a[1..], b[1..], c, d);
        assert (a + c)[1..] == a[1..] + c;
      } else {
        SubConcat(a, b[1..], c, d);
      }
    }
  }

  lemma SubPrefix<T>(a: seq<T>, b: seq<T>)
    requires a <= b
    ensures Sub(a, b)
  {
    SubRefl(a);
    SubConcat(a, a, [], b[|a|..]);
    assert a + [] == a;
    assert b == a + b[|a|..];
  }

  lemma {:induction false} SubMember<T>(a: seq<T>, b: seq<T>, x: T)
    requires Sub(a, b) && x in a
    ensures x in b
    decreases |b|
  {
    if a[0] == b[0] && Sub(a[1..], b[1..]) {
      if x != a[0] {
        SubMember(a[1..], b[1..], x);
      }
    } else {
      SubMember(a, b[1..], x);
    }
  }
}
