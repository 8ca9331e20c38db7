/** Valid UTF-8 is exactly what encodes Unicode scalar values: section 3 of RFC 3629 against the grammar of section 4. */
module Scalars {
  import opened Basics
  import opened Utf8

  /** A code point that is not a surrogate. */
  predicate Scalar(c: int) { 0 <= c <= 0x10FFFF && !(0xD800 <= c <= 0xDFFF) }

  /** The octets of one scalar value. */
  function Encoding(c: int): (b: bytes)
    requires Scalar(c)
    ensures 1 <= |b| <= 4
  {
    if c < 0x80 then [c]
    else if c < 0x800 then [0xC0 + c / 64, 0x80 + c % 64]
    else if c < 0x10000 then [0xE0 + c / 64 / 64, 0x80 + c / 64 % 64, 0x80 + c % 64]
    else [0xF0 + c / 64 / 64 / 64, 0x80 + c / 64 / 64 % 64, 0x80 + c / 64 % 64, 0x80 + c % 64]
  }

  predicate AllScalars(cs: seq<int>) { forall c :: c in cs ==> Scalar(c) }

  function Encodings(cs: seq<int>): bytes
    requires AllScalars(cs)
  {
    if |cs| == 0 then [] else Encoding(cs[0]) + Encodings(cs[1..])
  }

  /** UTF-16 takes one code unit below 0x10000 and two above. */
  function Units(cs: seq<int>): nat { if |cs| == 0 then 0 else (if cs[0] < 0x10000 then 1 else 2) + Units(cs[1..]) }

  /** The grammar reads off the head exactly what the encoding put there. */
  lemma HeadOfEncoding(c: int, rest: bytes)
    requires Scalar(c)
    ensures Width(Encoding(c) + rest) == |Encoding(c)| && (Encoding(c) + rest)[|Encoding(c)|..] == rest
  {
    var b := Encoding(c) + rest;
    assert forall i :: 0 <= i < |Encoding(c)| ==> b[i] == Encoding(c)[i];
  }

  function Low(b: byte): int { b as int - 0x80 }

  function Decoded(b: bytes): int
    requires Width(b) > 0
  {
    match Width(b)
    case 1 => b[0]
    case 2 => (b[0] as int - 0xC0) * 64 + Low(b[1])
    case 3 => ((b[0] as int - 0xE0) * 64 + Low(b[1])) * 64 + Low(b[2])
    case _ => (((b[0] as int - 0xF0) * 64 + Low(b[1])) * 64 + Low(b[2])) * 64 + Low(b[3])
  }

  lemma Digit(high: int, low: int)
    requires 0 <= low < 64
    ensures (high * 64 + low) / 64 == high && (high * 64 + low) % 64 == low
  {
  }

  /** And what it reads off encodes a scalar value. */
  lemma EncodingOfHead(b: bytes)
    requires Width(b) > 0
    ensures Scalar(Decoded(b)) && Encoding(Decoded(b)) == b[..Width(b)]
  {
    match Width(b)
    case 1 =>
    case 2 => Digit(b[0] as int - 0xC0, Low(b[1]));
    case 3 => ThreeOctets(b);
    case _ => FourOctets(b);
  }

  lemma ThreeOctets(b: bytes)
    requires Width(b) == 3
    ensures Scalar(Decoded(b)) && Encoding(Decoded(b)) == b[..3]
  {
    var one := b[0] as int - 0xE0;
    var two := one * 64 + Low(b[1]);
    Digit(one, Low(b[1]));
    Digit(two, Low(b[2]));
    assert Decoded(b) == two * 64 + Low(b[2]);
  }

  lemma FourOctets(b: bytes)
    requires Width(b) == 4
    ensures Scalar(Decoded(b)) && Encoding(Decoded(b)) == b[..4]
  {
    var one := b[0] as int - 0xF0;
    var two := one * 64 + Low(b[1]);
    var three := two * 64 + Low(b[2]);
    Digit(one, Low(b[1]));
    Digit(two, Low(b[2]));
    Digit(three, Low(b[3]));
    assert Decoded(b) == three * 64 + Low(b[3]);
  }

  lemma {:induction false} EncodingsAreValid(cs: seq<int>)
    requires AllScalars(cs)
    ensures Valid(Encodings(cs)) && Utf16Length(Encodings(cs)) == Units(cs)
  {
    hide Width;
    if |cs| > 0 {
      EncodingsAreValid(cs[1..]);
      HeadOfEncoding(cs[0], Encodings(cs[1..]));
    }
  }

  lemma {:induction false} ValidIsEncoded(b: bytes) returns (cs: seq<int>)
    requires Valid(b)
    ensures AllScalars(cs) && Encodings(cs) == b
    decreases |b|
  {
    hide Width;
    if b == [] {
      cs := [];
    } else {
      EncodingOfHead(b);
      var rest := ValidIsEncoded(b[Width(b)..]);
      cs := [Decoded(b)] + rest;
      assert cs[1..] == rest;
      assert b == b[..Width(b)] + b[Width(b)..];
    }
  }

  lemma ValidExactly(b: bytes)
    ensures Valid(b) <==> exists cs :: AllScalars(cs) && Encodings(cs) == b
  {
    hide Valid, Encodings;
    if Valid(b) {
      var cs := ValidIsEncoded(b);
    }
    forall cs | AllScalars(cs) && Encodings(cs) == b
      ensures Valid(b)
    {
      EncodingsAreValid(cs);
    }
  }
}
