/** `createCertificate` never fails over a length: every request of sane size is built. */
module CertificateSize {
  import opened Bytes
  import opened Der
  import opened DerTypes
  import opened Certificate

  /** The element was built, in at most `n` octets. */
  ghost predicate Fits(b: Built, n: nat) {
    b.Some? && |b.value| <= n
  }

  ghost predicate AllFit(values: seq<Built>, n: nat) {
    forall i | 0 <= i < |values| :: Fits(values[i], n)
  }

  // ---------------------------------------------------------------- elements

  lemma {:induction false} ElementFits(tag: byte, value: seq<byte>, n: nat)
    requires |value| <= n <= MAX_SAFE_INTEGER
    ensures Fits(Element(tag, value), n + 9)
  {
    if |value| >= 128 {
      DigitsOfSafeInteger(|value|);
    }
  }

  lemma {:induction false} WrapFits(tag: byte, value: Built, n: nat)
    requires Fits(value, n) && n <= MAX_SAFE_INTEGER
    ensures Fits(Wrap(tag, value), n + 9)
  {
    ElementFits(tag, value.value, n);
    hide Element;
  }

  lemma {:induction false} JoinedFits(values: seq<Built>, n: nat)
    requires AllFit(values, n)
    ensures Fits(Joined(values), |values| * n)
  {
    if values != [] {
      assert Fits(values[0], n);
      JoinedFits(values[1..], n);
      assert |values| * n == n + (|values| - 1) * n;
    }
  }

  lemma {:induction false} SequenceFits(values: seq<Built>, n: nat, total: nat)
    requires AllFit(values, n) && |values| * n <= total <= MAX_SAFE_INTEGER
    ensures Fits(Sequence(values), total + 9)
  {
    JoinedFits(values, n);
    WrapFits(0x30, Joined(values), total);
    hide Joined, Wrap;
  }

  // ---------------------------------------------------------------- object identifiers

  ghost function Power128(k: nat): nat {
    if k == 0 then 1 else 128 * Power128(k - 1)
  }

  lemma {:induction false} HighGroupsFit(n: nat, k: nat)
    requires n < Power128(k)
    ensures |HighGroups(n)| <= k
  {
    if n > 0 {
      HighGroupsFit(n / 128, k - 1);
    }
  }

  lemma {:induction false} Base128Fits(n: nat)
    requires n <= MAX_SAFE_INTEGER + 121
    ensures |Base128(n)| <= 9
  {
    assert Power128(2) == 128 * 128;
    assert Power128(4) == 128 * 128 * Power128(2);
    assert Power128(6) == 128 * 128 * Power128(4);
    assert Power128(8) == 128 * 128 * Power128(6);
    HighGroupsFit(n / 128, 8);
  }

  lemma {:induction false} GroupsFit(ids: seq<nat>)
    requires forall i | 0 <= i < |ids| :: ids[i] <= MAX_SAFE_INTEGER + 121
    ensures |Groups(ids)| <= 9 * |ids|
  {
    if ids != [] {
      Base128Fits(ids[0]);
      GroupsFit(ids[1..]);
    }
  }

  lemma {:induction false} OidFits(arcs: seq<int>)
    requires ValidArcs(arcs) && |arcs| <= 100
    ensures Fits(ObjectIdentifier(arcs), 909)
  {
    var first := DoubleSum(arcs[0] * 40, arcs[1]);
    Base128Fits(first);
    GroupsFit(Naturals(arcs[2..]));
    WrapFits(0x06, OidContent(arcs), 900);
    hide Wrap, Base128, Groups;
  }

  // ---------------------------------------------------------------- the parts of a certificate

  lemma {:induction false} IntegerFits(value: seq<byte>, n: nat)
    requires |value| <= n && n + 1 <= MAX_SAFE_INTEGER
    ensures Fits(Integer(value), n + 10)
  {
    StrippedIsShorter(value);
    ElementFits(0x02, IntegerContent(value), n + 1);
    hide Element, Stripped;
  }

  lemma {:induction false} StrippedIsShorter(value: seq<byte>)
    ensures |Stripped(value)| <= |value|
  {
    if |value| > 1 && value[0] == 0 && value[1] < 128 {
      StrippedIsShorter(value[1..]);
    }
  }

  lemma {:induction false} NameFits(commonName: seq<byte>, n: nat)
    requires |commonName| <= n && 900 <= n <= 0x1_0000_0000
    ensures Fits(DistinguishedName(commonName), 2 * n + 45)
  {
    OidFits([2, 5, 4, 3]);
    ElementFits(0x0c, commonName, n);
    var inner := [ObjectIdentifier([2, 5, 4, 3]), Element(0x0c, commonName)];
    var middle := [Sequence(inner)];
    hide ObjectIdentifier, Element, Joined, Wrap, Sequence;
    SequenceFits(inner, n + 9, 2 * n + 18);
    JoinedFits(middle, 2 * n + 27);
    WrapFits(0x31, Joined(middle), 2 * n + 27);
    SequenceFits([Wrap(0x31, Joined(middle))], 2 * n + 36, 2 * n + 36);
  }

  lemma {:induction false} ExtensionFits(identifier: seq<int>, value: Built, critical: bool, n: nat)
    requires ValidArcs(identifier) && |identifier| <= 100
    requires Fits(value, n) && 909 <= n <= 0x1000_0000_0000
    ensures Fits(Extension(identifier, value, critical), 3 * n + 36)
  {
    OidFits(identifier);
    ElementFits(0x01, [0xff], 1);
    WrapFits(0x04, value, n);
    var values := [ObjectIdentifier(identifier)] + (if critical then [Boolean(true)] else []) + [Wrap(0x04, value)];
    hide ObjectIdentifier, Wrap, Element, Joined, Sequence, ValidArcs;
    assert AllFit(values, n + 9);
    SequenceFits(values, n + 9, 3 * n + 27);
  }

  /** Every text, address and random string of a request, and how many names it has. */
  ghost predicate Sane(r: Request) {
    && |r.commonName| <= 0x10_0000 && |r.issuerCommonName| <= 0x10_0000
    && |r.validFrom| <= 0x10_0000 && |r.validTo| <= 0x10_0000 && |r.random| <= 0x10_0000
    && |r.dnsNames| + |r.addresses| <= 0x10_0000
    && (forall i | 0 <= i < |r.dnsNames| :: |r.dnsNames[i]| <= 0x10_0000)
    && (forall i | 0 <= i < |r.addresses| :: |r.addresses[i]| <= 0x10_0000)
  }

  lemma {:induction false} NamesFit(r: Request)
    requires Sane(r)
    ensures Fits(Sequence(Elements(0x82, r.dnsNames) + Elements(0x87, r.addresses)), 0x200_0000_0000)
  {
    var values := Elements(0x82, r.dnsNames) + Elements(0x87, r.addresses);
    forall i | 0 <= i < |values| ensures Fits(values[i], 0x10_0009) {
      if i < |r.dnsNames| {
        ElementFits(0x82, r.dnsNames[i], 0x10_0000);
      } else {
        ElementFits(0x87, r.addresses[i - |r.dnsNames|], 0x10_0000);
      }
    }
    hide Sequence, Element;
    assert |values| * 0x10_0009 <= 0x10_0000 * 0x10_0009;
    SequenceFits(values, 0x10_0009, 0x100_0090_0000);
  }

  lemma {:induction false} ExtensionsFit(r: Request)
    requires Sane(r)
    ensures Fits(Extensions(r), 0x2000_0000_0000)
  {
    hide Extension, Sequence, Joined, Wrap, Element, ObjectIdentifier, Elements, Sane;
    var n := 0x200_0000_0000;
    if r.authority {
      ElementFits(0x01, [0xff], 1);
      SequenceFits([Boolean(true)], 10, 10);
      ElementFits(0x03, [1] + [0x06], 2);
      var ca, usage := Sequence([Boolean(true)]), BitString(Some([0x06]), 1);
      ExtensionFits([2, 5, 29, 19], ca, true, n);
      ExtensionFits([2, 5, 29, 15], usage, true, n);
      SequenceFits([Extension([2, 5, 29, 19], ca, true), Extension([2, 5, 29, 15], usage, true)], 3 * n + 36,
                   6 * n + 72);
    } else {
      NamesFit(r);
      SequenceFits([], 0, 0);
      ElementFits(0x03, [7] + [0x80], 2);
      OidFits([1, 3, 6, 1, 5, 5, 7, 3, 1]);
      SequenceFits([ObjectIdentifier([1, 3, 6, 1, 5, 5, 7, 3, 1])], 909, 909);
      var names := Sequence(Elements(0x82, r.dnsNames) + Elements(0x87, r.addresses));
      var usage, purpose := BitString(Some([0x80]), 7), Sequence([ObjectIdentifier([1, 3, 6, 1, 5, 5, 7, 3, 1])]);
      ExtensionFits([2, 5, 29, 17], names, false, n);
      ExtensionFits([2, 5, 29, 19], Sequence([]), true, n);
      ExtensionFits([2, 5, 29, 15], usage, true, n);
      ExtensionFits([2, 5, 29, 37], purpose, false, n);
      SequenceFits(
        [Extension([2, 5, 29, 17], names, false), Extension([2, 5, 29, 19], Sequence([]), true),
         Extension([2, 5, 29, 15], usage, true), Extension([2, 5, 29, 37], purpose, false)],
        3 * n + 36, 12 * n + 144);
    }
  }

  lemma {:induction false} AlgorithmFits()
    ensures Fits(SignatureAlgorithm(), 918)
  {
    OidFits([1, 2, 840, 10045, 4, 3, 2]);
    hide ObjectIdentifier, Sequence;
    SequenceFits([ObjectIdentifier([1, 2, 840, 10045, 4, 3, 2])], 909, 909);
  }

  lemma {:induction false} TbsFits(r: Request, spki: seq<byte>)
    requires Sane(r) && |spki| <= 0x10_0000
    ensures Fits(TbsCertificate(r, spki), 0x1_1000_0000_0000)
  {
    hide Integer, SignatureAlgorithm, DistinguishedName, Element, Extensions, Sequence, Wrap, Serial, TbsCertificate,
         Fits;
    var n := 0x2000_0000_0009;
    SerialFits(r.random, n);
    AlgorithmFits();
    Larger(SignatureAlgorithm(), 918, n);
    NameFits(r.issuerCommonName, 0x10_0000);
    Larger(DistinguishedName(r.issuerCommonName), 0x20_002d, n);
    NameFits(r.commonName, 0x10_0000);
    Larger(DistinguishedName(r.commonName), 0x20_002d, n);
    ValidityFits(r, n);
    ExtensionsFit(r);
    WrapFits(0xa3, Extensions(r), 0x2000_0000_0000);
    TbsJoinsFit(r, spki, n);
  }

  lemma {:induction false} SerialFits(random: seq<byte>, n: nat)
    requires |random| <= 0x10_0000 && n >= 0x10_0009 + 1
    ensures Fits(Wrap(0xa0, Integer([2])), n) && Fits(Integer(Serial(random)), n)
  {
    IntegerFits([2], 1);
    SerialLength(random);
    IntegerFits(Serial(random), 0x10_0000);
    hide Integer, Serial, Wrap;
    WrapFits(0xa0, Integer([2]), 11);
  }

  lemma {:induction false} ValidityFits(r: Request, n: nat)
    requires |r.validFrom| <= 0x10_0000 && |r.validTo| <= 0x10_0000 && n >= 0x20_001b
    ensures Fits(Sequence([Element(0x17, r.validFrom), Element(0x17, r.validTo)]), n)
  {
    ElementFits(0x17, r.validFrom, 0x10_0000);
    ElementFits(0x17, r.validTo, 0x10_0000);
    hide Element, Sequence;
    SequenceFits([Element(0x17, r.validFrom), Element(0x17, r.validTo)], 0x10_0009, 0x20_0012);
  }

  lemma {:induction false} TbsJoinsFit(r: Request, spki: seq<byte>, n: nat)
    requires Fits(Wrap(0xa0, Integer([2])), n) && Fits(Integer(Serial(r.random)), n)
    requires Fits(SignatureAlgorithm(), n)
    requires Fits(DistinguishedName(r.issuerCommonName), n) && Fits(DistinguishedName(r.commonName), n)
    requires Fits(Sequence([Element(0x17, r.validFrom), Element(0x17, r.validTo)]), n)
    requires |spki| <= n && Fits(Wrap(0xa3, Extensions(r)), n)
    requires n <= 0x2000_0000_0009
    ensures Fits(TbsCertificate(r, spki), 0x1_1000_0000_0000)
  {
    hide Wrap, Integer, SignatureAlgorithm, DistinguishedName, Extensions, Serial, Element, Joined;
    assert Fits(Some(spki), n);
    hide Fits;
    SequenceFits(
      [Wrap(0xa0, Integer([2])), Integer(Serial(r.random)), SignatureAlgorithm(), DistinguishedName(r.issuerCommonName),
       Sequence([Element(0x17, r.validFrom), Element(0x17, r.validTo)]), DistinguishedName(r.commonName), Some(spki),
       Wrap(0xa3, Extensions(r))],
      n, 0x1_0000_0000_0048);
    Larger(TbsCertificate(r, spki), 0x1_0000_0000_0051, 0x1_1000_0000_0000);
  }

  lemma {:induction false} Larger(b: Built, n: nat, m: nat)
    requires Fits(b, n) && n <= m
    ensures Fits(b, m)
  {
  }

  lemma {:induction false} SerialLength(random: seq<byte>)
    ensures |Serial(random)| == |random|
  {
  }

  // ---------------------------------------------------------------- the theorems

  /** Every raw signature of 64 bytes is encoded. */
  lemma {:induction false} SignatureFits(raw: seq<byte>)
    requires |raw| == 64
    ensures Fits(EcdsaSignature(raw), 93)
  {
    IntegerFits(raw[..32], 32);
    IntegerFits(raw[32..], 32);
    hide Integer, Sequence;
    SequenceFits([Integer(raw[..32]), Integer(raw[32..])], 42, 84);
  }

  lemma {:induction false} BitStringFits(value: Built, unused: byte, n: nat)
    requires Fits(value, n) && n < MAX_SAFE_INTEGER
    ensures Fits(BitString(value, unused), n + 10)
  {
    ElementFits(0x03, [unused] + value.value, n + 1);
    hide Element;
  }

  lemma {:induction false} ThreeFit(tbs: Built, algorithm: Built, signature: Built)
    requires Fits(tbs, 0x1_1000_0000_0000) && Fits(algorithm, 918) && Fits(signature, 103)
    ensures Sequence([tbs, algorithm, signature]).Some?
  {
    hide Sequence;
    SequenceFits([tbs, algorithm, signature], 0x1_1000_0000_0000, 0x3_3000_0000_0000);
  }

  /** Every request of sane size is built: no length is ever too long to encode. */
  lemma {:induction false} CertificateIsBuilt(r: Request, spki: seq<byte>, raw: seq<byte>)
    requires Sane(r) && |spki| <= 0x10_0000 && |raw| == 64
    ensures CertificateDer(r, spki, raw).Some?
  {
    hide TbsCertificate, SignatureAlgorithm, EcdsaSignature, BitString, Sequence, Sane, Fits;
    TbsFits(r, spki);
    AlgorithmFits();
    SignatureFits(raw);
    BitStringFits(EcdsaSignature(raw), 0, 93);
    ThreeFit(TbsCertificate(r, spki), SignatureAlgorithm(), BitString(EcdsaSignature(raw), 0));
  }

  /** Every raw signature is built, and decodes to the r and s that were signed with. */
  lemma {:induction false} SignatureKeepsValues(raw: seq<byte>)
    requires |raw| == 64
    ensures EcdsaSignature(raw).Some?
    ensures var content := [IntegerContent(raw[..32]), IntegerContent(raw[32..])];
            && Decode(EcdsaSignature(raw).value)
               == Some((Constructed(0x30, [Primitive(0x02, content[0]), Primitive(0x02, content[1])]), []))
            && MinimalInteger(content[0]) && TwosComplement(content[0]) == BigEndian(raw[..32])
            && MinimalInteger(content[1]) && TwosComplement(content[1]) == BigEndian(raw[32..])
  {
    SignatureFits(raw);
    SignatureDenotes(raw);
    IntegerKeepsValue(raw[..32]);
    IntegerKeepsValue(raw[32..]);
    hide IntegerContent, Joined;
    DenotedDecodes(EcdsaSignature(raw), SignatureNode(raw));
  }
}
