/** RSA key parameters as base64url integers (RFC 7518, section 2). */
module KeyEncoding {
  import opened Arith
  import opened Options
  import opened Base64Url

  function BitLength(n: nat): nat { if n == 0 then 0 else 1 + BitLength(n / 2) }

  function Pow256(k: nat): nat { if k == 0 then 1 else 256 * Pow256(k - 1) }

  /** `n.to_bytes(k, "big")`, the k low octets of n; which raises when n does not fit. */
  function ToBytes(n: nat, k: nat): seq<byte> {
    if k == 0 then [] else ToBytes(n / 256, k - 1) + [(n % 256) as byte]
  }

  /** The integer an octet string stands for, most significant octet first. */
  function FromBytes(b: seq<byte>): nat {
    if b == [] then 0 else FromBytes(b[..|b| - 1]) * 256 + b[|b| - 1] as int
  }

  function Octets(n: nat): seq<byte> { ToBytes(n, (BitLength(n) + 7) / 8) }

  function UIntEncoding(n: nat): string { Unpadded(Encode(Octets(n))) }

  /**
    What the standard asks for: an octet string that stands for the number, big end
    first, has at least one octet, and has no more than any other such.
  */
  ghost predicate Represents(b: seq<byte>, n: nat) {
    b != [] && FromBytes(b) == n && forall other: seq<byte> :: other != [] && FromBytes(other) == n ==> |b| <= |other|
  }

  /** Text is a standard encoding when it is the unpadded encoding of such a string. */
  ghost predicate Conforms(s: string, n: nat) {
    var b := Decode(Padded(s));
    b.Some? && s == Unpadded(Encode(b.value)) && Represents(b.value, n)
  }

  lemma BitsDropByEight(n: nat)
    requires 256 <= n
    ensures BitLength(n) == BitLength(n / 256) + 8
  {
    var a, b, c, d := n / 2, n / 4, n / 8, n / 16;
    var e, f, g, h := n / 32, n / 64, n / 128, n / 256;
    assert a / 2 == b && b / 2 == c && c / 2 == d && d / 2 == e && e / 2 == f && f / 2 == g && g / 2 == h;
    assert BitLength(n) == BitLength(b) + 2;
    assert BitLength(b) == BitLength(d) + 2;
    assert BitLength(d) == BitLength(f) + 2;
    assert BitLength(f) == BitLength(h) + 2;
  }

  lemma {:induction false} OctetCount(n: nat)
    ensures var k := (BitLength(n) + 7) / 8;
      if n == 0 then k == 0 else if n < 256 then k == 1 else k == (BitLength(n / 256) + 7) / 8 + 1
  {
    if n >= 256 { BitsDropByEight(n); }
    else if n > 0 { SmallBits(n); }
  }

  lemma SmallBits(n: nat)
    requires 0 < n < 256
    ensures 1 <= BitLength(n) <= 8
  {
    assert Pow2(8) == 256 by { assert Pow2(4) == 16; }
    AtMostBits(n, 8);
  }

  lemma {:induction false} AtMostBits(n: nat, k: nat)
    requires n < Pow2(k)
    ensures BitLength(n) <= k
    decreases k
  {
    if k > 0 { AtMostBits(n / 2, k - 1); }
  }

  lemma OctetsUnfold(n: nat)
    ensures Octets(n) == if n == 0 then [] else Octets(n / 256) + [(n % 256) as byte]
  {
    hide BitLength;
    OctetCount(n);
    if n < 256 { OctetCount(n / 256); }
  }

  /** The octets stand for the number and start with a nonzero one. */
  lemma {:induction false} OctetsStandFor(n: nat)
    ensures FromBytes(Octets(n)) == n && (0 < n ==> Octets(n) != [] && Octets(n)[0] != 0) && (n == 0 ==> Octets(n) == [])
    decreases n
  {
    hide Octets;
    OctetsUnfold(n);
    if n > 0 {
      OctetsStandFor(n / 256);
      var b := Octets(n);
      assert b[..|b| - 1] == Octets(n / 256);
    }
  }

  lemma {:induction false} AtLeast(b: seq<byte>)
    requires b != [] && b[0] != 0
    ensures Pow256(|b| - 1) <= FromBytes(b)
  {
    if |b| > 1 { AtLeast(b[..|b| - 1]); }
  }

  lemma {:induction false} LessThan(b: seq<byte>)
    ensures FromBytes(b) < Pow256(|b|)
  {
    if b != [] { LessThan(b[..|b| - 1]); }
  }

  lemma {:induction false} PowGrows(j: nat, k: nat)
    requires j <= k
    ensures Pow256(j) <= Pow256(k)
    decreases k
  {
    if j < k { PowGrows(j, k - 1); }
  }

  /** Decoding an encoded parameter gives the number back. */
  lemma UIntRoundTrip(n: nat)
    ensures var b := Decode(Padded(UIntEncoding(n))); b.Some? && FromBytes(b.value) == n
  {
    PaddingIsRestored(Octets(n));
    DecodeEncode(Octets(n));
    OctetsStandFor(n);
  }

  /** No octet string that stands for the number is shorter. */
  lemma OctetsAreFewest(n: nat, b: seq<byte>)
    requires FromBytes(b) == n
    ensures |Octets(n)| <= |b|
  {
    hide Octets, Pow256, FromBytes;
    OctetsStandFor(n);
    if |b| < |Octets(n)| {
      AtLeast(Octets(n));
      LessThan(b);
      PowGrows(|b|, |Octets(n)| - 1);
    }
  }

  lemma {:induction false} SameLengthSameBytes(a: seq<byte>, b: seq<byte>)
    requires |a| == |b| && FromBytes(a) == FromBytes(b)
    ensures a == b
  {
    if a != [] {
      var m := |a| - 1;
      SameLengthSameBytes(a[..m], b[..m]);
      assert a == a[..m] + [a[m]] && b == b[..m] + [b[m]];
    }
  }

  /** The encoded text decodes to the number's octets. */
  lemma EncodingDecodes(n: nat)
    ensures Decode(Padded(UIntEncoding(n))) == Some(Octets(n)) && UIntEncoding(n) == Unpadded(Encode(Octets(n)))
  {
    PaddingIsRestored(Octets(n));
    DecodeEncode(Octets(n));
  }

  /** The encoding is a standard one exactly when the number is positive. */
  lemma ConformsExactlyWhenPositive(n: nat)
    ensures Conforms(UIntEncoding(n), n) <==> 0 < n
  {
    hide Octets, Encode, Decode, Padded, Unpadded, UIntEncoding, FromBytes;
    EncodingDecodes(n);
    OctetsStandFor(n);
    forall other: seq<byte> | FromBytes(other) == n ensures |Octets(n)| <= |other| {
      OctetsAreFewest(n, other);
    }
  }

  /** And then it is the only one. */
  lemma ConformingIsUnique(n: nat, s: string)
    ensures 0 < n ==> (Conforms(s, n) <==> s == UIntEncoding(n))
  {
    hide Octets, Encode, Decode, Padded, Unpadded, UIntEncoding, FromBytes;
    ConformsExactlyWhenPositive(n);
    if 0 < n && Conforms(s, n) {
      var b := Decode(Padded(s)).value;
      EncodingDecodes(n);
      OctetsStandFor(n);
      OctetsAreFewest(n, b);
      SameLengthSameBytes(b, Octets(n));
    }
  }

  lemma ZeroText()
    ensures Unpadded(Encode([0])) == "AA" && Decode(Padded("AA")) == Some([0])
  {
    hide Decode;
    assert Encode([0]) == "AA==";
    UnpaddedDrops("AA==", 2);
    PaddingIsRestored([0]);
    DecodeEncode([0]);
  }

  /** The standard's encoding of zero, which `_b64url_uint` never gives. */
  lemma ZeroConformsAsOneOctet(s: string)
    ensures Conforms(s, 0) <==> s == "AA"
  {
    hide Encode, Decode, Padded, Unpadded;
    var b: seq<byte> := [0];
    ZeroText();
    assert FromBytes(b[..0]) == 0 && FromBytes(b) == 0;
    if Conforms(s, 0) {
      var other := Decode(Padded(s)).value;
      assert |other| <= |b|;
      SameLengthSameBytes(other, b);
    }
  }
}
