/** Fixed-width big-endian integers, as frame headers and the ignore snapshot write them. */
module Wire {
  import opened Basics

  function Pow256(width: nat): (p: nat)
    ensures p >= 1
  {
    if width == 0 then 1 else 256 * Pow256(width - 1)
  }

  function BigEndian(n: nat, width: nat): (b: bytes)
    ensures |b| == width
  {
    if width == 0 then [] else BigEndian(n / 256, width - 1) + [n % 256]
  }

  function Value(b: bytes): nat {
    if b == [] then 0 else 256 * Value(b[..|b| - 1]) + b[|b| - 1]
  }

  /** The most significant octet comes first. */
  lemma {:induction false} MostSignificantFirst(n: nat, width: nat, i: nat)
    requires i < width
    ensures BigEndian(n, width)[i] == n / Pow256(width - 1 - i) % 256
  {
    if i < width - 1 {
      MostSignificantFirst(n / 256, width - 1, i);
      DividedTwice(n, Pow256(width - 2 - i));
    }
  }

  lemma DividedTwice(n: nat, p: nat)
    requires p > 0
    ensures n / 256 / p == n / (256 * p)
  {
    var q, r := n / 256 / p, n / 256 % p;
    assert n == (256 * p) * q + (256 * r + n % 256) by {
      assert n / 256 == p * q + r;
      assert 256 * (p * q) == (256 * p) * q;
    }
    Quotient(n, 256 * p, q, 256 * r + n % 256);
  }

  lemma Quotient(n: nat, d: nat, q: nat, r: nat)
    requires n == d * q + r && r < d
    ensures n / d == q
  {
    var k := n / d;
    assert n == d * k + n % d;
    MultiplesApart(d, k, q);
    MultiplesApart(d, q, k);
  }

  lemma MultiplesApart(d: nat, a: nat, b: nat)
    ensures a < b ==> d * a + d <= d * b
  {
    if a < b {
      assert d * b == d * (a + 1) + d * (b - a - 1);
      assert d * (b - a - 1) >= 0;
    }
  }

  lemma {:induction false} ValueOfBigEndian(n: nat, width: nat)
    requires n < Pow256(width)
    ensures Value(BigEndian(n, width)) == n
  {
    if width > 0 {
      var b := BigEndian(n, width);
      var high := n / 256;
      assert n == 256 * high + n % 256 && high < Pow256(width - 1);
      assert b[..width - 1] == BigEndian(high, width - 1);
      ValueOfBigEndian(high, width - 1);
    }
  }

  /** Reading a header off the front of a stream gives back the number written. */
  lemma HeaderRoundTrip(n: nat, width: nat, rest: bytes)
    requires n < Pow256(width)
    ensures Value((BigEndian(n, width) + rest)[..width]) == n
    ensures (BigEndian(n, width) + rest)[width..] == rest
  {
    assert (BigEndian(n, width) + rest)[..width] == BigEndian(n, width);
    ValueOfBigEndian(n, width);
  }
}
