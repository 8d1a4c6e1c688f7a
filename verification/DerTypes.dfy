/** The contents of the typed DER values the builder writes: integers, object identifiers
    and bit strings, X.690 sections 8.3, 8.6 and 8.19. */
module DerTypes {
  import opened Bytes
  import opened Der

  // ---------------------------------------------------------------- INTEGER

  /** What the octets of an integer mean: two's complement, section 8.3. */
  function TwosComplement(content: seq<byte>): int
    requires content != []
  {
    BigEndian(content) - if content[0] >= 128 then Power(|content|) else 0
  }

  function Power(n: nat): nat {
    if n == 0 then 1 else 256 * Power(n - 1)
  }

  /** Section 8.3.2: the first nine bits are neither all zero nor all one. */
  predicate MinimalInteger(content: seq<byte>) {
    && content != []
    && (|content| > 1 ==> !(content[0] == 0 && content[1] < 128) && !(content[0] == 255 && content[1] >= 128))
  }

  /** Drops leading zeros while the sign bit stays clear, as the loop in `integer` does. */
  function Stripped(bytes: seq<byte>): seq<byte> {
    if |bytes| > 1 && bytes[0] == 0 && bytes[1] < 128 then Stripped(bytes[1..]) else bytes
  }

  function IntegerContent(value: seq<byte>): seq<byte> {
    var bytes := Stripped(value);
    if bytes != [] && bytes[0] >= 128 then [0] + bytes else bytes
  }

  method BuildInteger(value: seq<byte>) returns (r: Option<seq<byte>>)
    ensures r == Element(0x02, IntegerContent(value))
  {
    var bytes := value;
    while |bytes| > 1 && bytes[0] == 0 && bytes[1] < 128
      invariant Stripped(bytes) == Stripped(value)
    {
      bytes := bytes[1..];
    }
    if bytes != [] && bytes[0] >= 128 {
      FlattenShort([0], bytes);
      var padded := Concat([[0], bytes]);
      bytes := padded[..];
    }
    r := BuildElement(0x02, bytes);
  }

  lemma {:induction false} LeadingZero(bytes: seq<byte>)
    ensures BigEndian([0] + bytes) == BigEndian(bytes)
  {
    BigEndianSplit([0], bytes);
    assert [0][..0] == [];
    assert BigEndian([0]) == 0;
  }

  lemma {:induction false} StrippedKeeps(bytes: seq<byte>)
    requires bytes != []
    ensures var s := Stripped(bytes);
            && s != [] && BigEndian(s) == BigEndian(bytes)
            && (|s| > 1 ==> !(s[0] == 0 && s[1] < 128))
    decreases |bytes|
  {
    if |bytes| > 1 && bytes[0] == 0 && bytes[1] < 128 {
      StrippedKeeps(bytes[1..]);
      LeadingZero(bytes[1..]);
      assert bytes == [0] + bytes[1..];
    }
  }

  /** `integer` writes the unsigned value of any nonempty byte string, never a negative
      number, and never more octets than needed. */
  lemma {:induction false} IntegerKeepsValue(value: seq<byte>)
    requires value != []
    ensures var content := IntegerContent(value);
            MinimalInteger(content) && TwosComplement(content) == BigEndian(value)
  {
    StrippedKeeps(value);
    LeadingZero(Stripped(value));
  }

  /** There is no other minimal content for a value that is not negative. */
  lemma {:induction false} MinimalIntegerUnique(a: seq<byte>, b: seq<byte>)
    requires MinimalInteger(a) && MinimalInteger(b) && a[0] < 128 && b[0] < 128
    requires BigEndian(a) == BigEndian(b)
    ensures a == b
  {
    Unpadded(a);
    Unpadded(b);
  }

  /** A content that is not negative is its digits, with a zero only to keep the sign. */
  lemma {:induction false} Unpadded(a: seq<byte>)
    requires MinimalInteger(a) && a[0] < 128
    ensures var d := Digits(BigEndian(a));
            a == if d == [] then [0] else if d[0] >= 128 then [0] + d else d
  {
    if a[0] != 0 {
      DigitsUnique(a);
      DigitsValue(BigEndian(a));
    } else {
      LeadingZero(a[1..]);
      assert a == [0] + a[1..];
      DigitsUnique(a[1..]);
    }
  }

  // ---------------------------------------------------------------- OBJECT IDENTIFIER

  /** The groups above the last: each has bit 8 set. */
  function HighGroups(n: nat): seq<byte> {
    if n == 0 then [] else HighGroups(n / 128) + [128 + n % 128]
  }

  function Base128(n: nat): seq<byte> {
    HighGroups(n / 128) + [n % 128]
  }

  /** `encodeBase128`. */
  method EncodeBase128(value: nat) returns (bytes: seq<byte>)
    ensures bytes == Base128(value)
  {
    bytes := [value % 128];
    var remaining: nat := value / 128;
    while remaining > 0
      invariant HighGroups(remaining) + bytes == Base128(value)
    {
      Associate(HighGroups(remaining / 128), [128 + remaining % 128], bytes);
      bytes := [128 + remaining % 128] + bytes;
      remaining := remaining / 128;
    }
    assert [] + bytes == bytes;
  }

  /** One subidentifier, section 8.19.2, with `high` already read. */
  function ReadGroups(b: seq<byte>, high: nat): Option<(nat, seq<byte>)> {
    if b == [] then None
    else if b[0] < 128 then Some((128 * high + b[0], b[1..]))
    else ReadGroups(b[1..], 128 * high + b[0] - 128)
  }

  /** All subidentifiers; none may start with 0x80. */
  function ReadAll(b: seq<byte>): Option<seq<nat>>
    decreases |b|
  {
    if b == [] then Some([])
    else if b[0] == 0x80 then None
    else
      match ReadGroups(b, 0)
      case None => None
      case Some((n, rest)) =>
        if |rest| >= |b| then None else
        var more := ReadAll(rest);
        if more.None? then None else Some([n] + more.value)
  }

  lemma {:induction false} HighGroupsRead(n: nat, rest: seq<byte>)
    ensures ReadGroups(HighGroups(n) + rest, 0) == ReadGroups(rest, n)
    ensures n > 0 ==> HighGroups(n) != [] && HighGroups(n)[0] > 128
  {
    if n == 0 {
      assert [] + rest == rest;
    } else {
      var last: seq<byte> := [128 + n % 128];
      HighGroupsRead(n / 128, last + rest);
      Associate(HighGroups(n / 128), last, rest);
      assert (last + rest)[1..] == rest;
      assert 128 * (n / 128) + n % 128 == n;
      if n < 128 {
        assert HighGroups(n) == last;
      }
    }
  }

  lemma {:induction false} Base128Reads(n: nat, rest: seq<byte>)
    ensures ReadGroups(Base128(n) + rest, 0) == Some((n, rest))
    ensures Base128(n) != [] && Base128(n)[0] != 0x80
  {
    var high, low: byte := n / 128, n % 128;
    HighGroupsRead(high, [low] + rest);
    Associate(HighGroups(high), [low], rest);
    LastGroup(high, low, rest);
    assert 128 * high + low == n;
    hide HighGroups, ReadGroups;
  }

  lemma {:induction false} LastGroup(high: nat, low: byte, rest: seq<byte>)
    requires low < 128
    ensures ReadGroups([low] + rest, high) == Some((128 * high + low, rest))
  {
    assert ([low] + rest)[1..] == rest;
  }

  function Groups(ids: seq<nat>): seq<byte> {
    if ids == [] then [] else Base128(ids[0]) + Groups(ids[1..])
  }

  lemma {:induction false} GroupsRead(ids: seq<nat>)
    ensures ReadAll(Groups(ids)) == Some(ids)
  {
    if ids != [] {
      Base128Reads(ids[0], Groups(ids[1..]));
      GroupsRead(ids[1..]);
      assert ids == [ids[0]] + ids[1..];
    }
  }

  const TWO_TO_53 := MAX_SAFE_INTEGER + 1

  /** The sum of two safe integers as a double: exact up to 2^53, then rounded to the
      nearest even number, ties to a multiple of four. */
  function DoubleSum(a: nat, b: nat): nat
    requires a + b <= 2 * MAX_SAFE_INTEGER
  {
    var sum := a + b;
    if sum <= MAX_SAFE_INTEGER + 1 || sum % 2 == 0 then sum
    else if (sum - 1) % 4 == 0 then sum - 1 else sum + 1
  }

  /** What `objectIdentifier` demands of the arcs. */
  predicate ValidArcs(arcs: seq<int>) {
    && |arcs| >= 2
    && (forall i | 0 <= i < |arcs| :: 0 <= arcs[i] <= MAX_SAFE_INTEGER)
    && arcs[0] <= 2 && (arcs[0] < 2 ==> arcs[1] < 40)
  }

  function Naturals(arcs: seq<int>): (ids: seq<nat>)
    requires forall i | 0 <= i < |arcs| :: 0 <= arcs[i]
    ensures |ids| == |arcs| && forall i | 0 <= i < |arcs| :: ids[i] == arcs[i]
  {
    seq(|arcs|, i requires 0 <= i < |arcs| => arcs[i])
  }

  /** The content octets, or nothing where the source throws a TypeError. */
  function OidContent(arcs: seq<int>): Option<seq<byte>> {
    if !ValidArcs(arcs) then None
    else Some(Base128(DoubleSum(arcs[0] * 40, arcs[1])) + Groups(Naturals(arcs[2..])))
  }

  /** The arcs after the second, each in its own groups. */
  method EncodeArcs(arcs: seq<int>) returns (content: seq<byte>)
    requires forall i | 0 <= i < |arcs| :: 0 <= arcs[i]
    ensures content == Groups(Naturals(arcs))
  {
    hide Base128;
    ghost var ids := Naturals(arcs);
    assert ids[0..] == ids && [] + Groups(ids) == Groups(ids);
    content := [];
    for i := 0 to |arcs|
      invariant content + Groups(ids[i..]) == Groups(ids)
    {
      var group := EncodeBase128(arcs[i]);
      assert ids[i..][1..] == ids[i + 1..];
      Associate(content, group, Groups(ids[i + 1..]));
      content := content + group;
    }
    assert content + [] == content;
  }

  method BuildObjectIdentifier(arcs: seq<int>) returns (r: Option<seq<byte>>)
    ensures r == if OidContent(arcs).None? then None else Element(0x06, OidContent(arcs).value)
  {
    hide Base128, Groups, Element;
    if |arcs| < 2 || (exists i | 0 <= i < |arcs| :: !(0 <= arcs[i] <= MAX_SAFE_INTEGER))
       || arcs[0] > 2 || (arcs[0] < 2 && arcs[1] >= 40)
    {
      return None;
    }
    var first := EncodeBase128(DoubleSum(arcs[0] * 40, arcs[1]));
    var others := EncodeArcs(arcs[2..]);
    r := BuildElement(0x06, first + others);
  }

  /** Section 8.19.4: the first subidentifier packs two arcs. */
  function DecodeOid(content: seq<byte>): Option<seq<int>> {
    match ReadAll(content)
    case None => None
    case Some(ids) =>
      if ids == [] then None else
      var first := if ids[0] < 40 then 0 else if ids[0] < 80 then 1 else 2;
      Some([first, ids[0] - 40 * first] + seq(|ids| - 1, i requires 0 <= i < |ids| - 1 => ids[i + 1]))
  }

  /** The packed sum is a number a double can hold. */
  predicate ExactSum(arcs: seq<int>)
    requires ValidArcs(arcs)
  {
    var sum := arcs[0] * 40 + arcs[1];
    sum <= TWO_TO_53 || sum % 2 == 0
  }

  lemma {:induction false} OidDecodesTo(arcs: seq<int>)
    requires ValidArcs(arcs)
    ensures var sum := DoubleSum(arcs[0] * 40, arcs[1]);
            DecodeOid(OidContent(arcs).value)
            == Some([arcs[0], sum - 40 * arcs[0]] + arcs[2..])
  {
    hide Base128, Groups, ReadAll, DoubleSum;
    var sum := DoubleSum(arcs[0] * 40, arcs[1]);
    var ids := [sum] + Naturals(arcs[2..]);
    FirstGroup(sum, Naturals(arcs[2..]));
    GroupsRead(ids);
    FirstArc(arcs[0], arcs[1]);
    assert DecodeOid(Groups(ids)).value[2..] == arcs[2..];
    assert DecodeOid(Groups(ids)).value == [arcs[0], sum - 40 * arcs[0]] + DecodeOid(Groups(ids)).value[2..];
  }

  lemma {:induction false} FirstGroup(first: nat, rest: seq<nat>)
    ensures Groups([first] + rest) == Base128(first) + Groups(rest)
  {
    hide Base128;
    assert ([first] + rest)[1..] == rest;
  }

  /** The packed sum tells the first arc. */
  lemma {:induction false} FirstArc(first: int, second: int)
    requires 0 <= first <= 2 && 0 <= second <= MAX_SAFE_INTEGER && (first < 2 ==> second < 40)
    ensures var sum := DoubleSum(first * 40, second);
            first == if sum < 40 then 0 else if sum < 80 then 1 else 2
    ensures DoubleSum(first * 40, second) >= 40 * first
  {
  }

  /** The content decodes back to the same arcs exactly when the sum of the first two is a
      number a double can hold: always, short of a second arc within 81 of 2^53. */
  lemma {:induction false} OidRoundTrip(arcs: seq<int>)
    requires ValidArcs(arcs)
    ensures DecodeOid(OidContent(arcs).value) == Some(arcs) <==> ExactSum(arcs)
    ensures arcs[1] <= MAX_SAFE_INTEGER - 80 ==> ExactSum(arcs)
  {
    hide OidContent, DecodeOid;
    OidDecodesTo(arcs);
    var sum := DoubleSum(arcs[0] * 40, arcs[1]);
    var back := [arcs[0], sum - 40 * arcs[0]] + arcs[2..];
    assert arcs == [arcs[0], arcs[1]] + arcs[2..];
    assert back[1] == sum - 40 * arcs[0];
    assert back == arcs <==> sum == arcs[0] * 40 + arcs[1];
  }

  /** Two different identifiers the function accepts, with one encoding: 2.9007199254740913 and
      2.9007199254740912. The module itself passes only short literal identifiers, so they
      cannot be reached through its exports. */
  lemma {:induction false} OidCollision()
    ensures var a, b := [2, MAX_SAFE_INTEGER - 78], [2, MAX_SAFE_INTEGER - 79];
            ValidArcs(a) && ValidArcs(b) && OidContent(a) == OidContent(b)
  {
    assert [2, MAX_SAFE_INTEGER - 78][2..] == [] == [2, MAX_SAFE_INTEGER - 79][2..];
    assert DoubleSum(80, MAX_SAFE_INTEGER - 78) == DoubleSum(80, MAX_SAFE_INTEGER - 79);
  }

  /** No subidentifier starts with a padding octet. */
  lemma {:induction false} NoPaddingOctet(arcs: seq<int>)
    requires ValidArcs(arcs)
    ensures ReadAll(OidContent(arcs).value).Some?
    ensures |ReadAll(OidContent(arcs).value).value| == |arcs| - 1
  {
    var ids := [DoubleSum(arcs[0] * 40, arcs[1])] + Naturals(arcs[2..]);
    assert ids[1..] == Naturals(arcs[2..]);
    GroupsRead(ids);
  }

  /** Up to 2^54, the whole numbers a double holds are those up to 2^53 and the even ones. */
  predicate Representable(n: nat) {
    n <= 0x20_0000_0000_0000 || n % 2 == 0
  }

  function Distance(x: nat, y: nat): nat {
    if x < y then y - x else x - y
  }

  /** The sum of two safe integers is the nearest number a double holds, and of two as near the
      multiple of four. */
  lemma {:induction false} DoubleSumIsNearest(a: nat, b: nat, n: nat)
    requires a <= 0x1F_FFFF_FFFF_FFFF && b <= 0x1F_FFFF_FFFF_FFFF && Representable(n)
    ensures var sum := DoubleSum(a, b);
            && Representable(sum) && Distance(sum, a + b) <= Distance(n, a + b)
            && (Distance(sum, a + b) == Distance(n, a + b) && n != sum ==> sum % 4 == 0)
  {
    var exact := a + b;
    if Representable(exact) {
      assert DoubleSum(a, b) == exact;
    } else {
      var q := exact / 4;
      Quarters(q, exact % 4);
      Quarters(q, 0);
      Quarters(q, 2);
      Quarters(q + 1, 0);
      assert DoubleSum(a, b) == if exact % 4 == 1 then 4 * q else 4 * q + 4;
      assert n != exact;
    }
  }

  lemma {:induction false} Quarters(q: nat, r: nat)
    requires r < 4
    ensures (4 * q + r) % 4 == r && (4 * q + r) % 2 == r % 2
  {
    Remainder(4 * q + r, 4, q, r);
    Remainder(4 * q + r, 2, 2 * q + r / 2, r % 2);
  }

  lemma {:induction false} Remainder(n: nat, m: nat, q: nat, r: nat)
    requires n == m * q + r && r < m && (m == 2 || m == 4)
    ensures n % m == r
  {
    if m == 2 {
      assert n == 2 * q + r;
    } else {
      assert n == 4 * q + r;
    }
  }

  /** The identifiers refused are those with fewer than two arcs, an arc that is negative or no safe
      integer, a first arc above two, or a second one above 39 under a first of zero or one. */
  lemma {:induction false} OidRefusals(arcs: seq<int>)
    ensures OidContent(arcs).None?
            <==> |arcs| < 2 || (exists i | 0 <= i < |arcs| :: arcs[i] < 0 || arcs[i] > 0x1F_FFFF_FFFF_FFFF)
                 || arcs[0] > 2 || (arcs[0] <= 1 && arcs[1] > 39)
  {
    hide Base128, Groups;
  }
}
