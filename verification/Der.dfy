/** DER as the certificate builder writes it, ITU-T X.690 sections 8.1 and 10.1: nested
    tag-length-value elements, and a strict reference decoder for them. */
module Der {
  import opened Bytes

  /** A data value as a tree; whether a tag is constructed is bit 6 of the tag. */
  datatype Node = Primitive(tag: byte, content: seq<byte>) | Constructed(tag: byte, children: seq<Node>)

  predicate IsConstructed(tag: byte) {
    (tag / 32) % 2 == 1
  }

  /** Every tag agrees with the form of its node. */
  ghost predicate WellFormed(node: Node)
    decreases node, 0
  {
    match node
    case Primitive(tag, _) => !IsConstructed(tag)
    case Constructed(tag, children) => IsConstructed(tag) && AllWellFormed(children)
  }

  ghost predicate AllWellFormed(nodes: seq<Node>)
    decreases nodes, 1
  {
    nodes == [] || (WellFormed(nodes[0]) && AllWellFormed(nodes[1..]))
  }

  // ---------------------------------------------------------------- lengths

  /** The digits of n in base 256, without a leading zero. */
  function Digits(n: nat): (d: seq<byte>)
    ensures n == 0 <==> d == []
  {
    if n == 0 then [] else Digits(n / 256) + [n % 256]
  }

  lemma {:induction false} DigitsValue(n: nat)
    ensures BigEndian(Digits(n)) == n
    ensures n > 0 ==> Digits(n)[0] != 0
  {
    if n > 0 {
      DigitsValue(n / 256);
      assert Digits(n)[..|Digits(n)| - 1] == Digits(n / 256);
      if n < 256 {
        assert Digits(n) == [n % 256];
      }
    }
  }

  lemma {:induction false} DigitsBound(n: nat, width: nat)
    requires n < Pow256(width)
    ensures |Digits(n)| <= width
  {
    if n > 0 {
      DigitsBound(n / 256, width - 1);
    }
  }

  /** Digits without a leading zero are the digits of their value. */
  lemma {:induction false} DigitsUnique(d: seq<byte>)
    requires d == [] || d[0] != 0
    ensures Digits(BigEndian(d)) == d
  {
    if d != [] {
      var high := d[..|d| - 1];
      DigitsUnique(high);
      if high == [] {
        assert BigEndian(high) == 0;
      }
      assert d == high + [d[|d| - 1]];
      assert BigEndian(d) / 256 == BigEndian(high) && BigEndian(d) % 256 == d[|d| - 1];
    }
  }

  /** Definite form, the fewest octets: section 10.1. */
  function LengthOctets(n: nat): (octets: seq<byte>)
    requires n <= MAX_SAFE_INTEGER
    ensures octets != []
  {
    if n < 128 then [n]
    else
      DigitsOfSafeInteger(n);
      [128 + |Digits(n)|] + Digits(n)
  }

  lemma {:induction false} DigitsOfSafeInteger(n: nat)
    requires n <= MAX_SAFE_INTEGER
    ensures |Digits(n)| <= 7
  {
    assert Pow256(3) == 256 * 256 * 256;
    assert Pow256(5) == 256 * 256 * Pow256(3);
    assert Pow256(7) == 256 * 256 * Pow256(5);
    DigitsBound(n, 7);
  }

  /** `encodeLength`: nothing for a length that is no safe integer. */
  method EncodeLength(length: nat) returns (octets: Option<seq<byte>>)
    ensures octets == if length <= MAX_SAFE_INTEGER then Some(LengthOctets(length)) else None
  {
    if length > MAX_SAFE_INTEGER {
      return None;
    }
    if length < 128 {
      return Some([length]);
    }
    var digits: seq<byte> := [];
    var value := length;
    DigitsOfSafeInteger(length);
    assert Digits(length) + [] == Digits(length);
    while value > 0
      invariant Digits(value) + digits == Digits(length)
    {
      Associate(Digits(value / 256), [value % 256], digits);
      digits := [value % 256] + digits;
      value := value / 256;
    }
    assert [] + digits == digits;
    octets := Some([128 + |digits|] + digits);
  }

  /** The strict reading of a length: definite, minimal. */
  function DecodeLength(b: seq<byte>): Option<(nat, nat)> {
    if b == [] then None
    else if b[0] < 128 then Some((b[0], 1))
    else
      var k := b[0] - 128;
      if k == 0 || |b| < 1 + k || b[1] == 0 || BigEndian(b[1..1 + k]) < 128 then None
      else Some((BigEndian(b[1..1 + k]), 1 + k))
  }

  lemma {:induction false} LengthDecodes(n: nat, rest: seq<byte>)
    requires n <= MAX_SAFE_INTEGER
    ensures DecodeLength(LengthOctets(n) + rest) == Some((n, |LengthOctets(n)|))
  {
    if n >= 128 {
      DigitsValue(n);
      var b := LengthOctets(n) + rest;
      assert b[1..1 + |Digits(n)|] == Digits(n);
    }
  }

  lemma {:induction false} DecodedLengthIsMinimal(b: seq<byte>)
    requires DecodeLength(b).Some? && DecodeLength(b).value.0 <= MAX_SAFE_INTEGER
    ensures var (n, size) := DecodeLength(b).value; size <= |b| && b[..size] == LengthOctets(n)
  {
    var (n, size) := DecodeLength(b).value;
    if b[0] >= 128 {
      DigitsUnique(b[1..size]);
      hide BigEndian, Digits;
      assert LengthOctets(n) == [b[0]] + b[1..size];
    }
  }

  // ---------------------------------------------------------------- elements

  /** The source's `element`, unless the value is too long to have a length. */
  function Element(tag: byte, value: seq<byte>): Option<seq<byte>> {
    if |value| <= MAX_SAFE_INTEGER then Some([tag] + LengthOctets(|value|) + value) else None
  }

  method BuildElement(tag: byte, value: seq<byte>) returns (r: Option<seq<byte>>)
    ensures r == Element(tag, value)
  {
    var length := EncodeLength(|value|);
    if length.None? {
      return None;
    }
    var bytes := Concat([[tag], length.value, value]);
    FlattenShort(length.value, value);
    assert [[tag], length.value, value][1..] == [length.value, value];
    Associate([tag], length.value, value);
    r := Some(bytes[..]);
  }

  function Encode(node: Node): Option<seq<byte>>
    decreases node, 0
  {
    match node
    case Primitive(tag, content) => Element(tag, content)
    case Constructed(tag, children) =>
      var content := EncodeAll(children);
      if content.None? then None else Element(tag, content.value)
  }

  function EncodeAll(nodes: seq<Node>): Option<seq<byte>>
    decreases nodes, 1
  {
    if nodes == [] then Some([]) else
    var first, rest := Encode(nodes[0]), EncodeAll(nodes[1..]);
    if first.None? || rest.None? then None else Some(first.value + rest.value)
  }

  // ---------------------------------------------------------------- the reference decoder

  /** The first element of `b`: tag, content and what follows. */
  function Split(b: seq<byte>): (r: Option<(byte, seq<byte>, seq<byte>)>)
    ensures r.Some? ==> |r.value.1| < |b| && |r.value.2| < |b|
  {
    if b == [] then None else
    match DecodeLength(b[1..])
    case None => None
    case Some((n, size)) =>
      if |b| < 1 + size + n then None
      else Some((b[0], b[1 + size..1 + size + n], b[1 + size + n..]))
  }

  function Decode(b: seq<byte>): (r: Option<(Node, seq<byte>)>)
    ensures r.Some? ==> |r.value.1| < |b|
    decreases |b|, 0
  {
    match Split(b)
    case None => None
    case Some((tag, content, rest)) =>
      if !IsConstructed(tag) then Some((Primitive(tag, content), rest))
      else
        var children := DecodeAll(content);
        if children.None? then None else Some((Constructed(tag, children.value), rest))
  }

  function DecodeAll(b: seq<byte>): Option<seq<Node>>
    decreases |b|, 1
  {
    if b == [] then Some([]) else
    match Decode(b)
    case None => None
    case Some((node, rest)) =>
      var nodes := DecodeAll(rest);
      if nodes.None? then None else Some([node] + nodes.value)
  }

  lemma {:induction false} SplitParts(tag: byte, octets: seq<byte>, value: seq<byte>, suffix: seq<byte>)
    requires DecodeLength(octets + (value + suffix)) == Some((|value|, |octets|))
    ensures Split([tag] + octets + value + suffix) == Some((tag, value, suffix))
  {
    hide DecodeLength;
    var b := [tag] + octets + value + suffix;
    assert b[1..] == octets + (value + suffix);
    assert b[1 + |octets|..1 + |octets| + |value|] == value;
    assert b[1 + |octets| + |value|..] == suffix;
  }

  lemma {:induction false} SplitInvertsElement(tag: byte, value: seq<byte>, suffix: seq<byte>)
    requires Element(tag, value).Some?
    ensures Split(Element(tag, value).value + suffix) == Some((tag, value, suffix))
  {
    LengthDecodes(|value|, value + suffix);
    SplitParts(tag, LengthOctets(|value|), value, suffix);
    hide Split, LengthOctets, DecodeLength;
  }

  lemma {:induction false} ElementInvertsSplit(b: seq<byte>)
    requires |b| <= MAX_SAFE_INTEGER && Split(b).Some?
    ensures var (tag, content, rest) := Split(b).value;
            Element(tag, content).Some? && b == Element(tag, content).value + rest
  {
    var (tag, content, rest) := Split(b).value;
    var (n, size) := DecodeLength(b[1..]).value;
    DecodedLengthIsMinimal(b[1..]);
    assert b == [b[0]] + b[1..][..size] + b[1 + size..1 + size + n] + b[1 + size + n..];
  }

  // ---------------------------------------------------------------- the theorems

  /** Every tree comes back from its bytes, and so does whatever follows them: the
      encoding delimits itself. */
  lemma {:induction false} DecodeInvertsEncode(node: Node, suffix: seq<byte>)
    requires WellFormed(node) && Encode(node).Some?
    ensures Decode(Encode(node).value + suffix) == Some((node, suffix))
    decreases node, 0
  {
    match node
    case Primitive(tag, content) =>
      SplitInvertsElement(tag, content, suffix);
    case Constructed(tag, children) =>
      SplitInvertsElement(tag, EncodeAll(children).value, suffix);
      DecodeAllInverts(children);
  }

  lemma {:induction false} DecodeAllInverts(nodes: seq<Node>)
    requires AllWellFormed(nodes) && EncodeAll(nodes).Some?
    ensures DecodeAll(EncodeAll(nodes).value) == Some(nodes)
    decreases nodes, 1
  {
    if nodes != [] {
      DecodeInvertsEncode(nodes[0], EncodeAll(nodes[1..]).value);
      DecodeAllInverts(nodes[1..]);
      assert nodes == [nodes[0]] + nodes[1..];
    }
  }

  /** Nothing else decodes: a byte string the decoder accepts is the one encoding of the
      tree it denotes, with minimal lengths at every level. */
  lemma {:induction false} EncodeInvertsDecode(b: seq<byte>)
    requires |b| <= MAX_SAFE_INTEGER && Decode(b).Some?
    ensures var (node, rest) := Decode(b).value;
            WellFormed(node) && Encode(node).Some? && b == Encode(node).value + rest
    decreases |b|, 0
  {
    ElementInvertsSplit(b);
    var (tag, content, rest) := Split(b).value;
    if IsConstructed(tag) {
      EncodeAllInverts(content);
    }
  }

  lemma {:induction false} EncodeAllInverts(b: seq<byte>)
    requires |b| <= MAX_SAFE_INTEGER && DecodeAll(b).Some?
    ensures AllWellFormed(DecodeAll(b).value) && EncodeAll(DecodeAll(b).value) == Some(b)
    decreases |b|, 1
  {
    if b != [] {
      EncodeInvertsDecode(b);
      var (node, rest) := Decode(b).value;
      EncodeAllInverts(rest);
      var nodes := DecodeAll(b).value;
      assert nodes[0] == node && nodes[1..] == DecodeAll(rest).value;
    }
  }

  /** Two different trees never share their bytes, nor is one encoding a prefix of another. */
  lemma {:induction false} EncodingsArePrefixFree(a: Node, b: Node, suffix: seq<byte>)
    requires WellFormed(a) && WellFormed(b) && Encode(a).Some? && Encode(b).Some?
    requires Encode(a).value + suffix == Encode(b).value
    ensures a == b && suffix == []
  {
    DecodeInvertsEncode(a, suffix);
    DecodeInvertsEncode(b, []);
    assert Encode(b).value + [] == Encode(b).value;
  }
}
