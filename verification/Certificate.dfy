/** `createCertificate`: the bytes that are signed and sent, spliced together call by call,
    and the tree they are the one encoding of. */
module Certificate {
  import opened Bytes
  import opened Der
  import opened DerTypes

  // ---------------------------------------------------------------- the builder's calls

  type Built = Option<seq<byte>>

  /** Built elements one after another, if all of them were built. */
  function Joined(values: seq<Built>): Built {
    if values == [] then Some([]) else
    var rest := Joined(values[1..]);
    if values[0].None? || rest.None? then None else Some(values[0].value + rest.value)
  }

  function Wrap(tag: byte, value: Built): Built {
    if value.None? then None else Element(tag, value.value)
  }

  function Sequence(values: seq<Built>): Built {
    Wrap(0x30, Joined(values))
  }

  function ObjectIdentifier(arcs: seq<int>): Built {
    Wrap(0x06, OidContent(arcs))
  }

  function Integer(value: seq<byte>): Built {
    Element(0x02, IntegerContent(value))
  }

  function BitString(value: Built, unusedBits: byte): Built {
    if value.None? then None else Element(0x03, [unusedBits] + value.value)
  }

  function Boolean(value: bool): Built {
    Element(0x01, [if value then 0xff else 0])
  }

  function Extension(identifier: seq<int>, value: Built, critical: bool): Built {
    Sequence([ObjectIdentifier(identifier)] + (if critical then [Boolean(true)] else []) + [Wrap(0x04, value)])
  }

  function DistinguishedName(commonName: seq<byte>): Built {
    Sequence([Wrap(0x31, Joined([Sequence([ObjectIdentifier([2, 5, 4, 3]), Element(0x0c, commonName)])]))])
  }

  /** A raw P-256 signature, 32 bytes of r and 32 of s. */
  function EcdsaSignature(raw: seq<byte>): Built {
    if |raw| != 64 then None else Sequence([Integer(raw[..32]), Integer(raw[32..])])
  }

  /** What `createCertificate` encodes: texts are in UTF-8 and times already printed. */
  datatype Request = Request(
    authority: bool,
    commonName: seq<byte>,
    issuerCommonName: seq<byte>,
    validFrom: seq<byte>,
    validTo: seq<byte>,
    dnsNames: seq<seq<byte>>,
    addresses: seq<seq<byte>>,
    random: seq<byte>)

  /** The random bytes with the top bit of the first cleared, and a first byte of zero made one. */
  function Serial(random: seq<byte>): seq<byte> {
    if random == [] then [] else [if random[0] % 128 == 0 then 1 else random[0] % 128] + random[1..]
  }

  function SignatureAlgorithm(): Built {
    Sequence([ObjectIdentifier([1, 2, 840, 10045, 4, 3, 2])])
  }

  function Elements(tag: byte, values: seq<seq<byte>>): seq<Built> {
    seq(|values|, i requires 0 <= i < |values| => Element(tag, values[i]))
  }

  function Extensions(r: Request): Built {
    if r.authority then
      Sequence([
        Extension([2, 5, 29, 19], Sequence([Boolean(true)]), true),
        Extension([2, 5, 29, 15], BitString(Some([0x06]), 1), true)])
    else
      Sequence([
        Extension([2, 5, 29, 17], Sequence(Elements(0x82, r.dnsNames) + Elements(0x87, r.addresses)), false),
        Extension([2, 5, 29, 19], Sequence([]), true),
        Extension([2, 5, 29, 15], BitString(Some([0x80]), 7), true),
        Extension([2, 5, 29, 37], Sequence([ObjectIdentifier([1, 3, 6, 1, 5, 5, 7, 3, 1])]), false)])
  }

  /** The bytes that are signed; `spki` is the exported public key, spliced in as it is. */
  function TbsCertificate(r: Request, spki: seq<byte>): Built {
    Sequence([
      Wrap(0xa0, Integer([2])),
      Integer(Serial(r.random)),
      SignatureAlgorithm(),
      DistinguishedName(r.issuerCommonName),
      Sequence([Element(0x17, r.validFrom), Element(0x17, r.validTo)]),
      DistinguishedName(r.commonName),
      Some(spki),
      Wrap(0xa3, Extensions(r))])
  }

  function CertificateDer(r: Request, spki: seq<byte>, rawSignature: seq<byte>): Built {
    Sequence([TbsCertificate(r, spki), SignatureAlgorithm(), BitString(EcdsaSignature(rawSignature), 0)])
  }

  // ---------------------------------------------------------------- the tree it builds

  /** The octets a string type carries when it holds an encoded value. */
  function Octets(node: Node): seq<byte> {
    match Encode(node)
    case Some(b) => b
    case None => []
  }

  function SequenceNode(children: seq<Node>): Node {
    Constructed(0x30, children)
  }

  function OidNode(arcs: seq<int>): Node {
    Primitive(0x06, match OidContent(arcs) case Some(c) => c case None => [])
  }

  function IntegerNode(value: seq<byte>): Node {
    Primitive(0x02, IntegerContent(value))
  }

  function BooleanNode(value: bool): Node {
    Primitive(0x01, [if value then 0xff else 0])
  }

  function ExtensionNode(identifier: seq<int>, value: Node, critical: bool): Node {
    var flag := if critical then [BooleanNode(true)] else [];
    SequenceNode([OidNode(identifier)] + flag + [Primitive(0x04, Octets(value))])
  }

  function NameNode(commonName: seq<byte>): Node {
    SequenceNode([Constructed(0x31, [SequenceNode([OidNode([2, 5, 4, 3]), Primitive(0x0c, commonName)])])])
  }

  function SignatureNode(raw: seq<byte>): Node
    requires |raw| == 64
  {
    SequenceNode([IntegerNode(raw[..32]), IntegerNode(raw[32..])])
  }

  function AlgorithmNode(): Node {
    SequenceNode([OidNode([1, 2, 840, 10045, 4, 3, 2])])
  }

  function Primitives(tag: byte, values: seq<seq<byte>>): seq<Node> {
    seq(|values|, i requires 0 <= i < |values| => Primitive(tag, values[i]))
  }

  function ExtensionsNode(r: Request): Node {
    if r.authority then
      SequenceNode([
        ExtensionNode([2, 5, 29, 19], SequenceNode([BooleanNode(true)]), true),
        ExtensionNode([2, 5, 29, 15], Primitive(0x03, [1, 0x06]), true)])
    else
      SequenceNode([
        ExtensionNode([2, 5, 29, 17],
                      SequenceNode(Primitives(0x82, r.dnsNames) + Primitives(0x87, r.addresses)), false),
        ExtensionNode([2, 5, 29, 19], SequenceNode([]), true),
        ExtensionNode([2, 5, 29, 15], Primitive(0x03, [7, 0x80]), true),
        ExtensionNode([2, 5, 29, 37], SequenceNode([OidNode([1, 3, 6, 1, 5, 5, 7, 3, 1])]), false)])
  }

  function TbsNode(r: Request, spki: Node): Node {
    SequenceNode([
      Constructed(0xa0, [IntegerNode([2])]),
      IntegerNode(Serial(r.random)),
      AlgorithmNode(),
      NameNode(r.issuerCommonName),
      SequenceNode([Primitive(0x17, r.validFrom), Primitive(0x17, r.validTo)]),
      NameNode(r.commonName),
      spki,
      Constructed(0xa3, [ExtensionsNode(r)])])
  }

  function CertificateNode(r: Request, spki: Node, raw: seq<byte>): Node
    requires |raw| == 64
  {
    SequenceNode([TbsNode(r, spki), AlgorithmNode(), Primitive(0x03, [0] + Octets(SignatureNode(raw)))])
  }

  // ---------------------------------------------------------------- bytes and tree agree

  /** What was built, if it was, is the encoding of `node`. */
  ghost predicate Denotes(b: Built, node: Node) {
    WellFormed(node) && (b.Some? ==> b == Encode(node))
  }

  ghost predicate AllDenote(values: seq<Built>, nodes: seq<Node>) {
    |values| == |nodes| && forall i | 0 <= i < |values| :: Denotes(values[i], nodes[i])
  }

  lemma {:induction false} JoinedDenotes(values: seq<Built>, nodes: seq<Node>)
    requires AllDenote(values, nodes)
    ensures AllWellFormed(nodes)
    ensures Joined(values).Some? ==> Joined(values) == EncodeAll(nodes)
  {
    if values != [] {
      assert Denotes(values[0], nodes[0]);
      JoinedDenotes(values[1..], nodes[1..]);
    }
  }

  lemma {:induction false} WrapDenotes(tag: byte, values: seq<Built>, nodes: seq<Node>)
    requires AllDenote(values, nodes) && IsConstructed(tag)
    ensures Denotes(Wrap(tag, Joined(values)), Constructed(tag, nodes))
  {
    JoinedDenotes(values, nodes);
  }

  /** A single element inside an explicit tag. */
  lemma {:induction false} TaggedDenotes(tag: byte, value: Built, node: Node)
    requires Denotes(value, node) && IsConstructed(tag)
    ensures Denotes(Wrap(tag, value), Constructed(tag, [node]))
  {
    WrapDenotes(tag, [value], [node]);
    assert [value][1..] == [] && Joined([]) == Some([]);
    if value.Some? {
      assert value.value + [] == value.value;
      assert Joined([value]) == value;
    }
  }

  lemma {:induction false} ExtensionDenotes(identifier: seq<int>, value: Built, node: Node, critical: bool)
    requires Denotes(value, node)
    ensures Denotes(Extension(identifier, value, critical), ExtensionNode(identifier, node, critical))
  {
    hide OidContent, Joined, Encode, Element;
    var middle, inner := if critical then [Boolean(true)] else [], if critical then [BooleanNode(true)] else [];
    LeafDenotes(0x01, [0xff]);
    OidDenotes(identifier);
    OctetsDenote(value, node);
    WrapDenotes(0x30, [ObjectIdentifier(identifier)] + middle + [Wrap(0x04, value)],
                [OidNode(identifier)] + inner + [Primitive(0x04, Octets(node))]);
  }

  lemma {:induction false} LeafDenotes(tag: byte, content: seq<byte>)
    requires !IsConstructed(tag)
    ensures Denotes(Element(tag, content), Primitive(tag, content))
  {
  }

  lemma {:induction false} OidDenotes(arcs: seq<int>)
    ensures Denotes(ObjectIdentifier(arcs), OidNode(arcs))
  {
    hide OidContent;
  }

  lemma {:induction false} OctetsDenote(value: Built, node: Node)
    requires Denotes(value, node)
    ensures Denotes(Wrap(0x04, value), Primitive(0x04, Octets(node)))
  {
  }

  lemma {:induction false} NameDenotes(commonName: seq<byte>)
    ensures Denotes(DistinguishedName(commonName), NameNode(commonName))
  {
    hide OidContent, Joined, Encode, Element;
    OidDenotes([2, 5, 4, 3]);
    LeafDenotes(0x0c, commonName);
    WrapDenotes(0x30, [ObjectIdentifier([2, 5, 4, 3]), Element(0x0c, commonName)],
                [OidNode([2, 5, 4, 3]), Primitive(0x0c, commonName)]);
    var inner, node := Sequence([ObjectIdentifier([2, 5, 4, 3]), Element(0x0c, commonName)]),
                       SequenceNode([OidNode([2, 5, 4, 3]), Primitive(0x0c, commonName)]);
    WrapDenotes(0x31, [inner], [node]);
    WrapDenotes(0x30, [Wrap(0x31, Joined([inner]))], [Constructed(0x31, [node])]);
  }

  lemma {:induction false} AlgorithmDenotes()
    ensures Denotes(SignatureAlgorithm(), AlgorithmNode())
  {
    hide OidContent, Joined, Encode, Element;
    OidDenotes([1, 2, 840, 10045, 4, 3, 2]);
    WrapDenotes(0x30, [ObjectIdentifier([1, 2, 840, 10045, 4, 3, 2])], [OidNode([1, 2, 840, 10045, 4, 3, 2])]);
  }

  lemma {:induction false} SignatureDenotes(raw: seq<byte>)
    requires |raw| == 64
    ensures Denotes(EcdsaSignature(raw), SignatureNode(raw))
    ensures Denotes(BitString(EcdsaSignature(raw), 0), Primitive(0x03, [0] + Octets(SignatureNode(raw))))
  {
    hide IntegerContent, Joined;
    WrapDenotes(0x30, [Integer(raw[..32]), Integer(raw[32..])], [IntegerNode(raw[..32]), IntegerNode(raw[32..])]);
  }

  lemma {:induction false} ElementsDenote(tag: byte, values: seq<seq<byte>>)
    requires !IsConstructed(tag)
    ensures AllDenote(Elements(tag, values), Primitives(tag, values))
  {
  }

  lemma {:induction false} ExtensionsDenote(r: Request)
    ensures Denotes(Extensions(r), ExtensionsNode(r))
  {
    hide Extension, ExtensionNode, Encode, Element, OidContent, Joined;
    if r.authority {
      var ca, usage := Sequence([Boolean(true)]), BitString(Some([0x06]), 1);
      var caNode, usageNode := SequenceNode([BooleanNode(true)]), Primitive(0x03, [1, 0x06]);
      LeafDenotes(0x01, [0xff]);
      WrapDenotes(0x30, [Boolean(true)], [BooleanNode(true)]);
      LeafDenotes(0x03, [1, 0x06]);
      assert [1] + [0x06] == [1, 0x06];
      ExtensionDenotes([2, 5, 29, 19], ca, caNode, true);
      ExtensionDenotes([2, 5, 29, 15], usage, usageNode, true);
      WrapDenotes(0x30,
                  [Extension([2, 5, 29, 19], ca, true), Extension([2, 5, 29, 15], usage, true)],
                  [ExtensionNode([2, 5, 29, 19], caNode, true), ExtensionNode([2, 5, 29, 15], usageNode, true)]);
    } else {
      var names := Elements(0x82, r.dnsNames) + Elements(0x87, r.addresses);
      var nameNodes := Primitives(0x82, r.dnsNames) + Primitives(0x87, r.addresses);
      ElementsDenote(0x82, r.dnsNames);
      ElementsDenote(0x87, r.addresses);
      WrapDenotes(0x30, names, nameNodes);
      WrapDenotes(0x30, [], []);
      LeafDenotes(0x03, [7, 0x80]);
      assert [7] + [0x80] == [7, 0x80];
      OidDenotes([1, 3, 6, 1, 5, 5, 7, 3, 1]);
      WrapDenotes(0x30, [ObjectIdentifier([1, 3, 6, 1, 5, 5, 7, 3, 1])], [OidNode([1, 3, 6, 1, 5, 5, 7, 3, 1])]);
      ServerExtensionsDenote(
        Sequence(names), SequenceNode(nameNodes),
        BitString(Some([0x80]), 7), Primitive(0x03, [7, 0x80]),
        Sequence([ObjectIdentifier([1, 3, 6, 1, 5, 5, 7, 3, 1])]),
        SequenceNode([OidNode([1, 3, 6, 1, 5, 5, 7, 3, 1])]));
    }
  }

  lemma {:induction false} ServerExtensionsDenote(names: Built, nameNode: Node, usage: Built, usageNode: Node,
                                                  purpose: Built, purposeNode: Node)
    requires Denotes(names, nameNode) && Denotes(usage, usageNode) && Denotes(purpose, purposeNode)
    requires Denotes(Sequence([]), SequenceNode([]))
    ensures Denotes(
              Sequence([Extension([2, 5, 29, 17], names, false), Extension([2, 5, 29, 19], Sequence([]), true),
                        Extension([2, 5, 29, 15], usage, true), Extension([2, 5, 29, 37], purpose, false)]),
              SequenceNode([ExtensionNode([2, 5, 29, 17], nameNode, false),
                            ExtensionNode([2, 5, 29, 19], SequenceNode([]), true),
                            ExtensionNode([2, 5, 29, 15], usageNode, true),
                            ExtensionNode([2, 5, 29, 37], purposeNode, false)]))
  {
    hide Extension, ExtensionNode, Denotes, Joined, Wrap;
    ExtensionDenotes([2, 5, 29, 17], names, nameNode, false);
    ExtensionDenotes([2, 5, 29, 19], Sequence([]), SequenceNode([]), true);
    ExtensionDenotes([2, 5, 29, 15], usage, usageNode, true);
    ExtensionDenotes([2, 5, 29, 37], purpose, purposeNode, false);
    WrapDenotes(0x30,
      [Extension([2, 5, 29, 17], names, false), Extension([2, 5, 29, 19], Sequence([]), true),
       Extension([2, 5, 29, 15], usage, true), Extension([2, 5, 29, 37], purpose, false)],
      [ExtensionNode([2, 5, 29, 17], nameNode, false), ExtensionNode([2, 5, 29, 19], SequenceNode([]), true),
       ExtensionNode([2, 5, 29, 15], usageNode, true), ExtensionNode([2, 5, 29, 37], purposeNode, false)]);
  }

  /** The signed bytes are the encoding of the to-be-signed tree, the public key being
      any one well-formed element. */
  lemma {:induction false} TbsDenotes(r: Request, spki: seq<byte>, key: Node)
    requires Denotes(Some(spki), key)
    ensures Denotes(TbsCertificate(r, spki), TbsNode(r, key))
  {
    hide IntegerContent, Extensions, ExtensionsNode, DistinguishedName, NameNode, SignatureAlgorithm, AlgorithmNode,
         Joined;
    LeafDenotes(0x02, IntegerContent([2]));
    TaggedDenotes(0xa0, Integer([2]), IntegerNode([2]));
    LeafDenotes(0x02, IntegerContent(Serial(r.random)));
    AlgorithmDenotes();
    NameDenotes(r.issuerCommonName);
    NameDenotes(r.commonName);
    LeafDenotes(0x17, r.validFrom);
    LeafDenotes(0x17, r.validTo);
    WrapDenotes(0x30, [Element(0x17, r.validFrom), Element(0x17, r.validTo)],
                [Primitive(0x17, r.validFrom), Primitive(0x17, r.validTo)]);
    ExtensionsDenote(r);
    TaggedDenotes(0xa3, Extensions(r), ExtensionsNode(r));
    TbsJoins(r, spki, key);
  }

  lemma {:induction false} TbsJoins(r: Request, spki: seq<byte>, key: Node)
    requires Denotes(Wrap(0xa0, Integer([2])), Constructed(0xa0, [IntegerNode([2])]))
    requires Denotes(Integer(Serial(r.random)), IntegerNode(Serial(r.random)))
    requires Denotes(SignatureAlgorithm(), AlgorithmNode())
    requires Denotes(DistinguishedName(r.issuerCommonName), NameNode(r.issuerCommonName))
    requires Denotes(DistinguishedName(r.commonName), NameNode(r.commonName))
    requires Denotes(Sequence([Element(0x17, r.validFrom), Element(0x17, r.validTo)]),
                     SequenceNode([Primitive(0x17, r.validFrom), Primitive(0x17, r.validTo)]))
    requires Denotes(Some(spki), key)
    requires Denotes(Wrap(0xa3, Extensions(r)), Constructed(0xa3, [ExtensionsNode(r)]))
    ensures Denotes(TbsCertificate(r, spki), TbsNode(r, key))
  {
    hide Denotes, Wrap, Integer, IntegerNode, SignatureAlgorithm, AlgorithmNode, DistinguishedName, NameNode,
         Extensions,
         ExtensionsNode, Serial, Element, Joined;
    WrapDenotes(0x30,
      [Wrap(0xa0, Integer([2])), Integer(Serial(r.random)), SignatureAlgorithm(), DistinguishedName(r.issuerCommonName),
       Sequence([Element(0x17, r.validFrom), Element(0x17, r.validTo)]), DistinguishedName(r.commonName), Some(spki),
       Wrap(0xa3, Extensions(r))],
      [Constructed(0xa0, [IntegerNode([2])]), IntegerNode(Serial(r.random)), AlgorithmNode(),
       NameNode(r.issuerCommonName),
       SequenceNode([Primitive(0x17, r.validFrom), Primitive(0x17, r.validTo)]), NameNode(r.commonName), key,
       Constructed(0xa3, [ExtensionsNode(r)])]);
  }

  // ---------------------------------------------------------------- the theorems

  /** The certificate that is sent is one element, decodes to the intended tree and to no
      other, and the part that was signed is the encoding of its first child. */
  lemma {:induction false} CertificateDecodes(r: Request, spki: seq<byte>, key: Node, raw: seq<byte>)
    requires |spki| <= MAX_SAFE_INTEGER && Decode(spki) == Some((key, []))
    requires |raw| == 64
    ensures CertificateDer(r, spki, raw).Some? ==>
            var der := CertificateDer(r, spki, raw).value;
            && Decode(der) == Some((CertificateNode(r, key, raw), []))
            && Encode(CertificateNode(r, key, raw)) == Some(der)
            && TbsCertificate(r, spki) == Encode(TbsNode(r, key))
  {
    EncodeInvertsDecode(spki);
    assert Encode(key).value + [] == Encode(key).value;
    TbsDenotes(r, spki, key);
    AlgorithmDenotes();
    SignatureDenotes(raw);
    CertificateJoins(TbsCertificate(r, spki), TbsNode(r, key), SignatureAlgorithm(), AlgorithmNode(),
                     BitString(EcdsaSignature(raw), 0), Primitive(0x03, [0] + Octets(SignatureNode(raw))));
    hide TbsCertificate, TbsNode, SignatureAlgorithm, AlgorithmNode, BitString, SignatureNode, Octets, Joined, Wrap;
    if CertificateDer(r, spki, raw).Some? {
      DenotedDecodes(CertificateDer(r, spki, raw), CertificateNode(r, key, raw));
    }
  }

  lemma {:induction false} CertificateJoins(tbs: Built, tbsNode: Node, algorithm: Built, algorithmNode: Node,
                                            signature: Built, signatureNode: Node)
    requires Denotes(tbs, tbsNode) && Denotes(algorithm, algorithmNode) && Denotes(signature, signatureNode)
    ensures Denotes(Sequence([tbs, algorithm, signature]), SequenceNode([tbsNode, algorithmNode, signatureNode]))
    ensures Sequence([tbs, algorithm, signature]).Some? ==> tbs == Encode(tbsNode)
  {
    hide Encode;
    WrapDenotes(0x30, [tbs, algorithm, signature], [tbsNode, algorithmNode, signatureNode]);
  }

  lemma {:induction false} DenotedDecodes(b: Built, node: Node)
    requires Denotes(b, node) && b.Some?
    ensures Decode(b.value) == Some((node, [])) && Encode(node) == b
  {
    DecodeInvertsEncode(node, []);
    assert Encode(node).value + [] == Encode(node).value;
  }

  /** A serial number is positive and keeps its sixteen octets. */
  lemma {:induction false} SerialIsPositive(random: seq<byte>)
    requires |random| == 16
    ensures var content := IntegerContent(Serial(random));
            && content == Serial(random) && |content| == 16 && TwosComplement(content) > 0
            && content[1..] == random[1..] && (content[0] % 128 == random[0] % 128 || random[0] in {0, 128})
  {
    var s := Serial(random);
    IntegerKeepsValue(s);
    assert s == [s[0]] + s[1..];
    BigEndianSplit([s[0]], s[1..]);
    assert [s[0]][..0] == [];
    assert BigEndian([s[0]]) == s[0];
    PositiveProduct(s[0], Pow256(|s[1..]|));
    hide BigEndian, Pow256, IntegerContent;
  }

  lemma {:induction false} PositiveProduct(a: nat, b: nat)
    requires a > 0 && b > 0
    ensures a * b > 0
  {
  }
}
