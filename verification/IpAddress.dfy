/** Textual IP addresses: dotted quads, and the text forms of section 2.2 of RFC 4291. */
module IpAddress {
  import opened Bytes

  // ---------------------------------------------------------------- splitting text

  /** The pieces between single characters, empty ones included. */
  function SplitOn(s: string, separator: char): (parts: seq<string>)
    ensures parts != []
  {
    if s == "" then [""] else
    var rest := SplitOn(s[1..], separator);
    if s[0] == separator then [""] + rest else [[s[0]] + rest[0]] + rest[1..]
  }

  function Join(parts: seq<string>, separator: char): string {
    if parts == [] then ""
    else if |parts| == 1 then parts[0]
    else parts[0] + [separator] + Join(parts[1..], separator)
  }

  ghost predicate NoneContains(parts: seq<string>, c: char) {
    forall i | 0 <= i < |parts| :: c !in parts[i]
  }

  lemma {:induction false} SplitUnbroken(s: string, separator: char)
    requires separator !in s
    ensures SplitOn(s, separator) == [s]
  {
    if s != "" {
      SplitUnbroken(s[1..], separator);
      assert s == [s[0]] + s[1..];
    }
  }

  lemma {:induction false} SplitAtFirst(s: string, separator: char, rest: string)
    requires separator !in s
    ensures SplitOn(s + [separator] + rest, separator) == [s] + SplitOn(rest, separator)
  {
    var whole := s + [separator] + rest;
    if s == "" {
      assert whole[1..] == rest;
    } else {
      SplitAtFirst(s[1..], separator, rest);
      assert whole[1..] == s[1..] + [separator] + rest;
      assert s == [s[0]] + s[1..];
    }
  }

  /** Splitting undoes joining. */
  lemma {:induction false} SplitJoin(parts: seq<string>, separator: char)
    requires parts != [] && NoneContains(parts, separator)
    ensures SplitOn(Join(parts, separator), separator) == parts
  {
    if |parts| == 1 {
      SplitUnbroken(parts[0], separator);
    } else {
      SplitJoin(parts[1..], separator);
      SplitAtFirst(parts[0], separator, Join(parts[1..], separator));
    }
  }

  /** Joining undoes splitting, and no part holds the separator. */
  lemma {:induction false} JoinSplit(s: string, separator: char)
    ensures Join(SplitOn(s, separator), separator) == s
    ensures NoneContains(SplitOn(s, separator), separator)
  {
    if s != "" {
      JoinSplit(s[1..], separator);
      var rest := SplitOn(s[1..], separator);
      assert s == [s[0]] + s[1..];
      if s[0] == separator {
        JoinEmptyFirst(rest, separator);
      } else {
        JoinLongerFirst(s[0], rest, separator);
      }
    }
  }

  lemma {:induction false} JoinEmptyFirst(rest: seq<string>, separator: char)
    requires rest != []
    ensures Join([""] + rest, separator) == [separator] + Join(rest, separator)
  {
    assert ([""] + rest)[1..] == rest;
    assert "" + [separator] == [separator];
  }

  lemma {:induction false} JoinLongerFirst(c: char, rest: seq<string>, separator: char)
    requires rest != []
    ensures Join([[c] + rest[0]] + rest[1..], separator) == [c] + Join(rest, separator)
  {
    var all := [[c] + rest[0]] + rest[1..];
    assert all[1..] == rest[1..];
    if |rest| > 1 {
      Regrouped([c], rest[0], [separator], Join(rest[1..], separator));
    }
  }

  lemma {:induction false} Regrouped(a: string, b: string, c: string, d: string)
    ensures (a + b) + c + d == a + (b + c + d)
  {
  }

  // ---------------------------------------------------------------- IPv4

  predicate IsDigit(c: char) {
    '0' <= c <= '9'
  }

  predicate AllDigits(s: string) {
    forall i | 0 <= i < |s| :: IsDigit(s[i])
  }

  function DigitValue(c: char): nat
    requires IsDigit(c)
  {
    (c as int) - ('0' as int)
  }

  function Decimal(s: string): nat
    requires AllDigits(s)
  {
    if s == "" then 0 else 10 * Decimal(s[..|s| - 1]) + DigitValue(s[|s| - 1])
  }

  /** One part of a dotted quad: no sign, no leading zero, at most 255. */
  function ParseOctet(part: string): Option<byte> {
    if !(1 <= |part| <= 3) || !AllDigits(part) || (part[0] == '0' && |part| > 1) then None
    else if Decimal(part) > 255 then None
    else Some(Decimal(part))
  }

  function DigitChar(n: nat): char
    requires n < 10
  {
    (n + '0' as int) as char
  }

  function PrintOctet(n: byte): string {
    if n < 10 then [DigitChar(n)]
    else if n < 100 then [DigitChar(n / 10), DigitChar(n % 10)]
    else [DigitChar(n / 100), DigitChar(n / 10 % 10), DigitChar(n % 10)]
  }

  lemma {:induction false} DecimalShort(s: string)
    requires 1 <= |s| <= 3 && AllDigits(s)
    ensures |s| == 1 ==> Decimal(s) == DigitValue(s[0])
    ensures |s| == 2 ==> Decimal(s) == 10 * DigitValue(s[0]) + DigitValue(s[1])
    ensures |s| == 3 ==> Decimal(s) == 100 * DigitValue(s[0]) + 10 * DigitValue(s[1]) + DigitValue(s[2])
  {
    var a := s[..|s| - 1];
    if |s| > 1 {
      var b := a[..|a| - 1];
      assert Decimal(s) == 10 * Decimal(a) + DigitValue(s[|s| - 1]);
      assert Decimal(a) == 10 * Decimal(b) + DigitValue(a[|a| - 1]);
      if |s| == 3 {
        assert b[..0] == "";
        assert Decimal(b) == DigitValue(b[0]);
      }
    }
  }

  lemma {:induction false} OneDigitParses(a: nat)
    requires a < 10
    ensures ParseOctet([DigitChar(a)]) == Some(a) && AllDigits([DigitChar(a)])
  {
    assert AllDigits([DigitChar(a)]);
    DecimalShort([DigitChar(a)]);
    hide Decimal;
  }

  lemma {:induction false} TwoDigitsParse(a: nat, b: nat)
    requires 1 <= a < 10 && b < 10
    ensures ParseOctet([DigitChar(a), DigitChar(b)]) == Some(10 * a + b) && AllDigits([DigitChar(a), DigitChar(b)])
  {
    assert AllDigits([DigitChar(a), DigitChar(b)]);
    DecimalShort([DigitChar(a), DigitChar(b)]);
    hide Decimal;
  }

  lemma {:induction false} ThreeDigitsParse(a: nat, b: nat, c: nat)
    requires 1 <= a < 10 && b < 10 && c < 10 && 100 * a + 10 * b + c <= 255
    ensures var part := [DigitChar(a), DigitChar(b), DigitChar(c)];
            ParseOctet(part) == Some(100 * a + 10 * b + c) && AllDigits(part)
  {
    var part := [DigitChar(a), DigitChar(b), DigitChar(c)];
    assert AllDigits(part);
    DecimalShort(part);
    hide Decimal;
  }

  lemma {:induction false} OctetParses(n: byte)
    ensures ParseOctet(PrintOctet(n)) == Some(n)
    ensures AllDigits(PrintOctet(n))
  {
    hide ParseOctet, DigitChar, AllDigits;
    if n < 10 {
      OneDigitParses(n);
    } else if n < 100 {
      TwoDigitsParse(n / 10, n % 10);
    } else {
      assert n / 10 / 10 == n / 100;
      ThreeDigitsParse(n / 100, n / 10 % 10, n % 10);
    }
  }

  lemma {:induction false} ThreeDigits(a: nat, b: nat, c: nat)
    requires a < 10 && b < 10 && c < 10
    ensures var n := 100 * a + 10 * b + c; n / 100 == a && n / 10 % 10 == b && n % 10 == c
  {
    assert (100 * a + 10 * b + c) / 10 == 10 * a + b;
  }

  /** No other spelling of an octet is accepted. */
  lemma {:induction false} OctetPrints(part: string)
    requires ParseOctet(part).Some?
    ensures PrintOctet(ParseOctet(part).value) == part
  {
    DecimalShort(part);
    var n := Decimal(part);
    assert forall i | 0 <= i < |part| :: DigitChar(DigitValue(part[i])) == part[i];
    if |part| == 1 {
      assert part == [part[0]];
    } else if |part| == 2 {
      assert part == [part[0], part[1]];
    } else {
      assert part == [part[0], part[1], part[2]];
      assert DigitValue(part[0]) >= 1;
      ThreeDigits(DigitValue(part[0]), DigitValue(part[1]), DigitValue(part[2]));
    }
  }

  function ParseIPv4(address: string): Option<seq<byte>> {
    var parts := SplitOn(address, '.');
    if |parts| != 4 || (exists i | 0 <= i < 4 :: ParseOctet(parts[i]).None?) then None
    else Some(seq(4, i requires 0 <= i < 4 => ParseOctet(parts[i]).value))
  }

  function PrintIPv4(b: seq<byte>): string
    requires |b| == 4
  {
    Join([PrintOctet(b[0]), PrintOctet(b[1]), PrintOctet(b[2]), PrintOctet(b[3])], '.')
  }

  /** Printing and parsing are inverse: four bytes and accepted strings, one to one. */
  lemma {:induction false} IPv4Parses(b: seq<byte>)
    requires |b| == 4
    ensures ParseIPv4(PrintIPv4(b)) == Some(b)
  {
    var parts := [PrintOctet(b[0]), PrintOctet(b[1]), PrintOctet(b[2]), PrintOctet(b[3])];
    forall i | 0 <= i < 4 ensures '.' !in parts[i] && ParseOctet(parts[i]) == Some(b[i]) {
      OctetParses(b[i]);
    }
    SplitJoin(parts, '.');
    hide ParseOctet, PrintOctet, SplitOn, Join;
    assert SplitOn(PrintIPv4(b), '.') == parts;
    assert ParseIPv4(PrintIPv4(b)).value == b;
  }

  lemma {:induction false} IPv4Prints(address: string)
    requires ParseIPv4(address).Some?
    ensures |ParseIPv4(address).value| == 4 && PrintIPv4(ParseIPv4(address).value) == address
  {
    var parts := SplitOn(address, '.');
    JoinSplit(address, '.');
    var b := ParseIPv4(address).value;
    forall i | 0 <= i < 4 ensures PrintOctet(b[i]) == parts[i] {
      OctetPrints(parts[i]);
    }
    hide ParseOctet, PrintOctet, SplitOn, Join;
    assert parts == [PrintOctet(b[0]), PrintOctet(b[1]), PrintOctet(b[2]), PrintOctet(b[3])];
  }

  // ---------------------------------------------------------------- IPv6

  type word = w: int | 0 <= w < 0x1_0000

  predicate IsHex(c: char) {
    IsDigit(c) || 'a' <= c <= 'f' || 'A' <= c <= 'F'
  }

  function HexDigit(c: char): (d: nat)
    requires IsHex(c)
    ensures d < 16
  {
    if IsDigit(c) then (c as int) - ('0' as int)
    else if 'a' <= c <= 'f' then (c as int) - ('a' as int) + 10
    else (c as int) - ('A' as int) + 10
  }

  ghost function Pow16(n: nat): nat {
    if n == 0 then 1 else 16 * Pow16(n - 1)
  }

  predicate AllHex(s: string) {
    forall i | 0 <= i < |s| :: IsHex(s[i])
  }

  function HexValue(s: string): nat
    requires AllHex(s)
  {
    if s == "" then 0 else 16 * HexValue(s[..|s| - 1]) + HexDigit(s[|s| - 1])
  }

  lemma {:induction false} HexBound(s: string)
    requires AllHex(s)
    ensures HexValue(s) < Pow16(|s|)
  {
    if s != "" {
      HexBound(s[..|s| - 1]);
    }
  }

  /** One to four hexadecimal digits. */
  predicate IsGroup(token: string) {
    1 <= |token| <= 4 && AllHex(token)
  }

  function GroupValue(token: string): word
    requires IsGroup(token)
  {
    HexBound(token);
    assert Pow16(2) == 256 && Pow16(3) == 4096 && Pow16(4) == 16 * Pow16(3);
    HexValue(token)
  }

  /** Two octets as one word. */
  function Pair(high: byte, low: byte): word {
    var h: int, l: int := high, low;
    256 * h + l
  }

  /** The words a token stands for: two for a dotted quad, one for a group. */
  function TokenWords(token: string): Option<seq<word>> {
    if '.' in token then
      match ParseIPv4(token)
      case None => None
      case Some(b) => if |b| == 4 then Some([Pair(b[0], b[1]), Pair(b[2], b[3])]) else None
    else if IsGroup(token) then Some([GroupValue(token)])
    else None
  }

  /** The tokens of one side of an address: groups, and a dotted quad at most at the end. */
  function WordsOf(tokens: seq<string>): Option<seq<word>> {
    if tokens == [] then Some([])
    else if '.' in tokens[0] && |tokens| > 1 then None
    else
      var first, rest := TokenWords(tokens[0]), WordsOf(tokens[1..]);
      if first.None? || rest.None? then None else Some(first.value + rest.value)
  }

  function Tokens(part: string): seq<string> {
    if part == "" then [] else SplitOn(part, ':')
  }

  /** `parseIPv6Part`: walk the tokens, pushing words. */
  method ParsePart(part: string) returns (r: Option<seq<word>>)
    ensures r == WordsOf(Tokens(part))
    ensures match r
            case Some(words) => Spells(Tokens(part), words)
            case None => forall words :: !Spells(Tokens(part), words)
  {
    PartSpells(Tokens(part));
    hide Spells, TokenWords;
    if part == "" {
      return Some([]);
    }
    var tokens := SplitOn(part, ':');
    var words: seq<word> := [];
    assert tokens[0..] == tokens;
    assert WordsOf(tokens).Some? ==> words + WordsOf(tokens).value == WordsOf(tokens).value;
    for index := 0 to |tokens|
      invariant var rest := WordsOf(tokens[index..]);
                WordsOf(tokens) == if rest.None? then None else Some(words + rest.value)
    {
      var token := tokens[index];
      assert tokens[index..][1..] == tokens[index + 1..];
      if '.' in token && index != |tokens| - 1 {
        return None;
      }
      var pushed := TokenWords(token);
      if pushed.None? {
        return None;
      }
      ghost var rest := WordsOf(tokens[index + 1..]);
      if rest.Some? {
        Associate(words, pushed.value, rest.value);
      }
      words := words + pushed.value;
    }
    assert words + [] == words;
    r := Some(words);
  }

  /** The pieces between double colons, found from the left. */
  function SplitDouble(s: string): (parts: seq<string>)
    ensures parts != []
  {
    if |s| < 2 then [s]
    else if s[0] == ':' && s[1] == ':' then [""] + SplitDouble(s[2..])
    else
      var rest := SplitDouble(s[1..]);
      [[s[0]] + rest[0]] + rest[1..]
  }

  function WordBytes(words: seq<word>): seq<byte> {
    if words == [] then [] else [words[0] / 256, words[0] % 256] + WordBytes(words[1..])
  }

  function Zeros(n: nat): seq<word> {
    seq(n, _ => 0)
  }

  function ParseIPv6(address: string): Option<seq<byte>> {
    if '%' in address then None else
    var halves := SplitDouble(address);
    if |halves| > 2 then None else
    var left := WordsOf(Tokens(halves[0]));
    var right := WordsOf(Tokens(if |halves| == 2 then halves[1] else ""));
    if left.None? || right.None? then None else
    var omitted := 8 - |left.value| - |right.value|;
    if (|halves| == 1 && omitted != 0) || (|halves| == 2 && omitted < 1) then None
    else Some(WordBytes(left.value + Zeros(omitted) + right.value))
  }

  /** `parseIPv6`, with its byte-filling loop. */
  method ParseAddress(address: string) returns (r: Option<seq<byte>>)
    ensures r == ParseIPv6(address)
  {
    hide SplitDouble, SplitOn, WordsOf, WordBytes, Tokens, Spells;
    if '%' in address {
      return None;
    }
    var halves := SplitDouble(address);
    if |halves| > 2 {
      return None;
    }
    var left := ParsePart(halves[0]);
    var right := ParsePart(if |halves| == 2 then halves[1] else "");
    if left.None? || right.None? {
      return None;
    }
    var omitted := 8 - |left.value| - |right.value|;
    if (|halves| == 1 && omitted != 0) || (|halves| == 2 && omitted < 1) {
      return None;
    }
    var bytes := FillBytes(left.value + Zeros(omitted) + right.value);
    r := Some(bytes[..]);
  }

  method FillBytes(words: seq<word>) returns (bytes: array<byte>)
    requires |words| == 8
    ensures fresh(bytes) && bytes[..] == WordBytes(words)
  {
    hide WordBytes;
    bytes := new byte[16](_ => 0);
    for index := 0 to |words|
      invariant forall i | 0 <= i < index :: bytes[2 * i] == words[i] / 256 && bytes[2 * i + 1] == words[i] % 256
    {
      bytes[2 * index] := words[index] / 256;
      bytes[2 * index + 1] := words[index] % 256;
    }
    BytesOfWords(words, bytes[..]);
  }

  /** The bytes of the words are fixed by their places. */
  lemma {:induction false} BytesOfWords(words: seq<word>, bytes: seq<byte>)
    requires |bytes| == 2 * |words|
    requires forall i | 0 <= i < |words| :: bytes[2 * i] == words[i] / 256 && bytes[2 * i + 1] == words[i] % 256
    ensures bytes == WordBytes(words)
  {
    if words != [] {
      var rest := bytes[2..];
      forall i | 0 <= i < |words| - 1
        ensures rest[2 * i] == words[1..][i] / 256 && rest[2 * i + 1] == words[1..][i] % 256
      {
        assert rest[2 * i] == bytes[2 * (i + 1)] && rest[2 * i + 1] == bytes[2 * (i + 1) + 1];
      }
      BytesOfWords(words[1..], rest);
      assert bytes == [bytes[2 * 0], bytes[2 * 0 + 1]] + rest;
    }
  }

  // ---------------------------------------------------------------- what the text forms denote

  /** No two colons in a row. */
  ghost predicate NoDouble(s: string) {
    forall i | 0 <= i < |s| - 1 :: !(s[i] == ':' && s[i + 1] == ':')
  }

  lemma {:induction false} NoDoubleTail(s: string)
    requires NoDouble(s) && s != ""
    ensures NoDouble(s[1..])
  {
    var t := s[1..];
    forall i | 0 <= i < |t| - 1 ensures !(t[i] == ':' && t[i + 1] == ':') {
      assert t[i] == s[i + 1] && t[i + 1] == s[i + 2];
    }
  }

  lemma {:induction false} SplitDoubleNone(s: string)
    requires NoDouble(s)
    ensures SplitDouble(s) == [s]
  {
    if |s| >= 2 {
      var t := s[1..];
      NoDoubleTail(s);
      SplitDoubleNone(t);
      assert s == [s[0]] + t;
    }
  }

  lemma {:induction false} SplitDoubleOnce(a: string, b: string)
    requires NoDouble(a) && (a == "" || a[|a| - 1] != ':')
    ensures SplitDouble(a + "::" + b) == [a] + SplitDouble(b)
  {
    var whole := a + "::" + b;
    if a == "" {
      assert whole[2..] == b;
    } else {
      var t := a[1..];
      NoDoubleTail(a);
      SplitDoubleOnce(t, b);
      assert whole[1..] == t + "::" + b;
      assert a == [a[0]] + t;
    }
  }

  /** Joining the halves gives the text back. */
  lemma {:induction false} SplitDoubleJoins(s: string)
    ensures |SplitDouble(s)| == 1 ==> SplitDouble(s)[0] == s
    ensures |SplitDouble(s)| == 2 ==> SplitDouble(s)[0] + "::" + SplitDouble(s)[1] == s
  {
    if |s| < 2 {
    } else if s[0] == ':' && s[1] == ':' {
      var rest := SplitDouble(s[2..]);
      SplitDoubleJoins(s[2..]);
      assert SplitDouble(s) == [""] + rest;
      assert "" + "::" + s[2..] == s;
    } else {
      var rest := SplitDouble(s[1..]);
      SplitDoubleJoins(s[1..]);
      assert SplitDouble(s) == [[s[0]] + rest[0]] + rest[1..];
      assert [s[0]] + s[1..] == s;
      if |rest| == 2 {
        Regrouped([s[0]], rest[0], "::", rest[1]);
      }
    }
    hide SplitDouble;
  }

  // ---------------------------------------------------------------- how a word may be spelled

  function HexChar(d: nat): (c: char)
    requires d < 16
    ensures IsHex(c) && HexDigit(c) == d
  {
    if d < 10 then (d + '0' as int) as char else (d - 10 + 'a' as int) as char
  }

  /** A number in hexadecimal without leading zeros. */
  function Hex(n: nat): (s: string)
    ensures s != "" && AllHex(s) && HexValue(s) == n
  {
    if n < 16 then
      assert [HexChar(n)][..0] == "";
      [HexChar(n)]
    else
      var s := Hex(n / 16) + [HexChar(n % 16)];
      assert s[..|s| - 1] == Hex(n / 16);
      s
  }

  function Lower(c: char): char {
    if 'A' <= c <= 'Z' then (c as int - 'A' as int + 'a' as int) as char else c
  }

  function LowerAll(s: string): (r: string)
    ensures |r| == |s| && forall i | 0 <= i < |s| :: r[i] == Lower(s[i])
  {
    seq(|s|, i requires 0 <= i < |s| => Lower(s[i]))
  }

  function Trimmed(s: string): string {
    if |s| > 1 && s[0] == '0' then Trimmed(s[1..]) else s
  }

  /** A group of at most four characters: the word in hexadecimal, letters in either case and
      zeros in front. */
  ghost predicate SpellsWord(token: string, w: word) {
    |token| <= 4 && Trimmed(LowerAll(token)) == Hex(w)
  }

  /** A dotted quad, which stands for two words. */
  ghost predicate SpellsPair(token: string, high: word, low: word) {
    token == PrintIPv4([high / 256, high % 256, low / 256, low % 256])
  }

  /** One side of an address as written: groups, and a dotted quad at most at the end. */
  ghost predicate Spells(tokens: seq<string>, words: seq<word>) {
    if tokens == [] then words == []
    else if |tokens| == 1 && |words| == 2 then SpellsPair(tokens[0], words[0], words[1])
    else words != [] && SpellsWord(tokens[0], words[0]) && Spells(tokens[1..], words[1..])
  }

  /** Sixteen bits at a time, high byte first. */
  ghost predicate Denotes(bytes: seq<byte>, words: seq<word>) {
    && |bytes| == 2 * |words|
    && forall i | 0 <= i < |words| :: bytes[2 * i] == words[i] / 256 && bytes[2 * i + 1] == words[i] % 256
  }

  lemma {:induction false} WordBytesDenote(words: seq<word>)
    ensures Denotes(WordBytes(words), words)
  {
    if words != [] {
      WordBytesDenote(words[1..]);
      var b, rest := WordBytes(words), WordBytes(words[1..]);
      forall i | 0 <= i < |words| ensures b[2 * i] == words[i] / 256 && b[2 * i + 1] == words[i] % 256 {
        if i > 0 {
          assert b[2 * i] == rest[2 * (i - 1)] && b[2 * i + 1] == rest[2 * (i - 1) + 1];
        }
      }
    }
  }

  lemma {:induction false} LowerDigit(c: char)
    ensures IsHex(Lower(c)) <==> IsHex(c)
    ensures IsHex(c) ==> HexDigit(Lower(c)) == HexDigit(c) && HexChar(HexDigit(c)) == Lower(c)
  {
  }

  lemma {:induction false} LowerValue(s: string)
    ensures AllHex(LowerAll(s)) <==> AllHex(s)
    ensures AllHex(s) ==> HexValue(LowerAll(s)) == HexValue(s)
  {
    forall i | 0 <= i < |s| ensures IsHex(LowerAll(s)[i]) <==> IsHex(s[i]) {
      LowerDigit(s[i]);
    }
    if s != "" && AllHex(s) {
      var k := |s| - 1;
      LowerValue(s[..k]);
      LowerDigit(s[k]);
      assert LowerAll(s)[..k] == LowerAll(s[..k]);
    }
  }

  lemma {:induction false} ZeroInFront(s: string)
    requires AllHex(s)
    ensures AllHex("0" + s) && HexValue("0" + s) == HexValue(s)
  {
    var z := "0" + s;
    if s == "" {
      assert z[..0] == "" && HexValue("") == 0;
    } else {
      ZeroInFront(s[..|s| - 1]);
      assert z[..|z| - 1] == "0" + s[..|s| - 1];
    }
  }

  lemma {:induction false} TrimmedValue(s: string)
    ensures AllHex(Trimmed(s)) <==> AllHex(s)
    ensures AllHex(s) ==> HexValue(Trimmed(s)) == HexValue(s)
    ensures s != "" ==> Trimmed(s) != "" && (Trimmed(s)[0] == '0' ==> Trimmed(s) == "0")
    ensures s == "" ==> Trimmed(s) == ""
  {
    if |s| > 1 && s[0] == '0' {
      TrimmedValue(s[1..]);
      assert s == "0" + s[1..];
      if AllHex(s[1..]) {
        ZeroInFront(s[1..]);
      }
    }
  }

  /** Lower-case digits without leading zeros are the number's own. */
  lemma {:induction false} HexUnique(s: string)
    requires s != "" && AllHex(s) && (s[0] == '0' ==> s == "0") && LowerAll(s) == s
    ensures Hex(HexValue(s)) == s
    decreases |s|
  {
    var k := |s| - 1;
    LowerDigit(s[k]);
    assert s == s[..k] + [s[k]];
    assert Lower(s[k]) == LowerAll(s)[k] == s[k];
    if k == 0 {
      assert s[..0] == "" && HexValue("") == 0;
    } else {
      var high := s[..k];
      assert LowerAll(high) == LowerAll(s)[..k];
      HexUnique(high);
      HexPositive(high);
      assert HexValue(s) / 16 == HexValue(high) && HexValue(s) % 16 == HexDigit(s[k]);
    }
  }

  lemma {:induction false} HexPositive(s: string)
    requires s != "" && AllHex(s) && s[0] != '0'
    ensures HexValue(s) > 0
  {
    var k := |s| - 1;
    if k == 0 {
      assert s[..0] == "" && HexValue("") == 0;
    } else {
      HexPositive(s[..k]);
    }
  }

  /** The tokens without a dot that are read as a word are the spellings of that word. */
  lemma {:induction false} GroupSpelled(token: string, w: word)
    ensures SpellsWord(token, w) <==> IsGroup(token) && GroupValue(token) == w
  {
    var lower := LowerAll(token);
    LowerValue(token);
    TrimmedValue(lower);
    if SpellsWord(token, w) {
      assert IsGroup(token);
    } else if IsGroup(token) && GroupValue(token) == w {
      var s := Trimmed(lower);
      LowerTwice(token);
      HexUnique(s);
    }
  }

  lemma {:induction false} LowerTwice(s: string)
    ensures LowerAll(Trimmed(LowerAll(s))) == Trimmed(LowerAll(s))
  {
    TrimmedIsLower(LowerAll(s));
  }

  lemma {:induction false} TrimmedIsLower(s: string)
    requires forall i | 0 <= i < |s| :: Lower(s[i]) == s[i]
    ensures LowerAll(Trimmed(s)) == Trimmed(s)
  {
    if |s| > 1 && s[0] == '0' {
      TrimmedIsLower(s[1..]);
    }
  }

  lemma {:induction false} PairSpelled(token: string, high: word, low: word)
    ensures TokenWords(token) == Some([high, low]) <==> SpellsPair(token, high, low)
  {
    hide ParseIPv4, PrintIPv4;
    var b := [high / 256, high % 256, low / 256, low % 256];
    IPv4Parses(b);
    QuadHasDot(b);
    assert Pair(b[0], b[1]) == high && Pair(b[2], b[3]) == low;
    if TokenWords(token) == Some([high, low]) {
      IPv4Prints(token);
      var a := ParseIPv4(token).value;
      assert [Pair(a[0], a[1]), Pair(a[2], a[3])][1] == low && Pair(a[0], a[1]) == high;
      assert a == b;
    }
  }

  lemma {:induction false} WordSpelled(token: string, w: word)
    ensures '.' !in token && TokenWords(token) == Some([w]) <==> SpellsWord(token, w)
  {
    hide SpellsWord, ParseIPv4;
    GroupSpelled(token, w);
  }

  /** A token is read as one word or as two. */
  lemma {:induction false} TokenWordsCount(token: string)
    requires TokenWords(token).Some?
    ensures |TokenWords(token).value| == if '.' in token then 2 else 1
  {
    hide ParseIPv4;
  }

  lemma {:induction false} FirstToken(tokens: seq<string>, words: seq<word>)
    requires |tokens| > 1
    ensures WordsOf(tokens) == Some(words)
            <==> words != [] && SpellsWord(tokens[0], words[0]) && WordsOf(tokens[1..]) == Some(words[1..])
  {
    hide TokenWords, SpellsWord;
    if words != [] {
      WordSpelled(tokens[0], words[0]);
      assert words == [words[0]] + words[1..];
    }
    if TokenWords(tokens[0]).Some? {
      TokenWordsCount(tokens[0]);
      var first := TokenWords(tokens[0]).value;
      if '.' !in tokens[0] && WordsOf(tokens[1..]).Some? {
        assert WordsOf(tokens) == Some(first + WordsOf(tokens[1..]).value);
        assert first == [first[0]];
        assert (first + WordsOf(tokens[1..]).value)[1..] == WordsOf(tokens[1..]).value;
      }
    }
  }

  lemma {:induction false} OnlyToken(token: string, words: seq<word>)
    ensures WordsOf([token]) == Some(words) <==> Spells([token], words)
  {
    hide TokenWords, SpellsWord, SpellsPair;
    assert [token][1..] == [] && WordsOf([]) == Some([]);
    if TokenWords(token).Some? {
      TokenWordsCount(token);
      assert TokenWords(token).value + [] == TokenWords(token).value;
    }
    if |words| == 1 {
      WordSpelled(token, words[0]);
      assert words == [words[0]];
    } else if |words| == 2 {
      PairSpelled(token, words[0], words[1]);
      assert words == [words[0], words[1]];
    }
  }

  /** The sides the parser accepts are the spellings, and it reads them as what they spell. */
  lemma {:induction false} SpellsExactly(tokens: seq<string>, words: seq<word>)
    ensures WordsOf(tokens) == Some(words) <==> Spells(tokens, words)
    decreases |tokens|
  {
    hide TokenWords, SpellsWord, SpellsPair, WordsOf;
    if tokens == [] {
      NoWords();
    } else if |tokens| == 1 {
      assert tokens == [tokens[0]];
      OnlyToken(tokens[0], words);
    } else {
      FirstToken(tokens, words);
      if words != [] {
        SpellsExactly(tokens[1..], words[1..]);
      }
    }
  }

  lemma {:induction false} PartSpells(tokens: seq<string>)
    ensures match WordsOf(tokens)
            case Some(words) => Spells(tokens, words)
            case None => forall words :: !Spells(tokens, words)
  {
    hide Spells, WordsOf;
    match WordsOf(tokens)
    case Some(words) => SpellsExactly(tokens, words);
    case None =>
      forall words ensures !Spells(tokens, words) {
        SpellsExactly(tokens, words);
      }
  }

  ghost predicate Plain(c: char) {
    c != ':' && c != '%'
  }

  ghost predicate AllPlain(s: string) {
    forall i | 0 <= i < |s| :: Plain(s[i])
  }

  lemma {:induction false} QuadIsPlain(token: string)
    requires ParseIPv4(token).Some?
    ensures token != "" && AllPlain(token)
  {
    IPv4Prints(token);
    var b := ParseIPv4(token).value;
    OctetParses(b[0]);
    OctetParses(b[1]);
    OctetParses(b[2]);
    OctetParses(b[3]);
    var p0, p1, p2, p3 := PrintOctet(b[0]), PrintOctet(b[1]), PrintOctet(b[2]), PrintOctet(b[3]);
    hide PrintOctet, ParseIPv4;
    assert [p0, p1, p2, p3][1..] == [p1, p2, p3] && [p1, p2, p3][1..] == [p2, p3] && [p2, p3][1..] == [p3];
    assert Join([p2, p3], '.') == p2 + "." + p3;
    assert Join([p1, p2, p3], '.') == p1 + "." + (p2 + "." + p3);
    assert token == p0 + "." + (p1 + "." + (p2 + "." + p3));
  }

  lemma {:induction false} TokensArePlain(tokens: seq<string>, i: nat)
    requires WordsOf(tokens).Some? && i < |tokens|
    ensures tokens[i] != "" && AllPlain(tokens[i])
  {
    if i > 0 {
      TokensArePlain(tokens[1..], i - 1);
    } else if '.' in tokens[0] {
      QuadIsPlain(tokens[0]);
    }
  }

  /** A side in print: no percent sign, no double colon, no colon at either end. */
  ghost predicate CleanSide(s: string) {
    && '%' !in s && NoDouble(s)
    && (s != "" ==> s[0] != ':' && s[|s| - 1] != ':')
  }

  lemma {:induction false} JoinIsClean(tokens: seq<string>)
    requires forall i | 0 <= i < |tokens| :: tokens[i] != "" && AllPlain(tokens[i])
    ensures CleanSide(Join(tokens, ':'))
    ensures tokens != [] ==> Join(tokens, ':') != ""
  {
    if |tokens| > 1 {
      assert forall i | 0 <= i < |tokens[1..]| :: tokens[1..][i] == tokens[i + 1];
      JoinIsClean(tokens[1..]);
      var a, b := tokens[0], Join(tokens[1..], ':');
      var s := a + ":" + b;
      assert Join(tokens, ':') == s;
      forall i | 0 <= i < |s| - 1 ensures !(s[i] == ':' && s[i + 1] == ':') {
        if i < |a| {
          assert Plain(a[i]);
        } else if i > |a| {
          assert s[i] == b[i - |a| - 1] && s[i + 1] == b[i - |a|];
        }
      }
    }
  }

  /** What a side spells is what its printed form parses to. */
  lemma {:induction false} SideParses(tokens: seq<string>)
    requires WordsOf(tokens).Some?
    ensures CleanSide(Join(tokens, ':')) && Tokens(Join(tokens, ':')) == tokens
  {
    forall i | 0 <= i < |tokens| ensures tokens[i] != "" && AllPlain(tokens[i]) && ':' !in tokens[i] {
      TokensArePlain(tokens, i);
    }
    JoinIsClean(tokens);
    if tokens != [] {
      SplitJoin(tokens, ':');
    }
  }

  // ---------------------------------------------------------------- the theorems

  /** Eight words in any spelling, a dotted quad at the end allowed, are parsed to exactly
      their sixteen bytes. */
  lemma {:induction false} FullAddressParses(tokens: seq<string>, words: seq<word>)
    requires |words| == 8 && Spells(tokens, words)
    ensures var r := ParseIPv6(Join(tokens, ':')); r.Some? && Denotes(r.value, words)
  {
    hide SplitOn, Join, SplitDouble, WordsOf, WordBytes, Spells, Denotes;
    var address := Join(tokens, ':');
    SpellsExactly(tokens, words);
    SideParses(tokens);
    SplitDoubleNone(address);
    assert Tokens("") == [];
    NoWords();
    assert words + Zeros(0) + [] == words;
    WordBytesDenote(words);
    assert ParseIPv6(address) == Some(WordBytes(words + Zeros(0) + []));
  }

  lemma {:induction false} NoWords()
    ensures WordsOf([]) == Some([])
  {
  }

  /** And so they are with any run of one or more zero words elided. */
  lemma {:induction false} ElidedAddressParses(left: seq<string>, right: seq<string>, words: seq<word>, i: nat, j: nat)
    requires |words| == 8 && i < j <= 8 && forall k | i <= k < j :: words[k] == 0
    requires Spells(left, words[..i]) && Spells(right, words[j..])
    ensures var r := ParseIPv6(Join(left, ':') + "::" + Join(right, ':')); r.Some? && Denotes(r.value, words)
  {
    hide SplitOn, Join, SplitDouble, WordsOf, WordBytes, Tokens, Spells, Denotes;
    SpellsExactly(left, words[..i]);
    SpellsExactly(right, words[j..]);
    SideParses(left);
    SideParses(right);
    var a, b := Join(left, ':'), Join(right, ':');
    SplitDoubleOnce(a, b);
    SplitDoubleNone(b);
    assert words == words[..i] + Zeros(j - i) + words[j..];
    WordBytesDenote(words);
    assert '%' !in a + "::" + b;
  }

  /** Nothing else is accepted: an accepted text is a full or an elided spelling of the
      bytes returned, in the sense of the two lemmas above. */
  lemma {:induction false} AcceptedParts(address: string)
    returns (left: seq<string>, right: seq<string>, lw: seq<word>, rw: seq<word>)
    requires ParseIPv6(address).Some?
    ensures Spells(left, lw) && Spells(right, rw) && |lw| + |rw| <= 8
    ensures Denotes(ParseIPv6(address).value, lw + seq(8 - |lw| - |rw|, _ => 0) + rw)
    ensures if |lw| + |rw| < 8 then address == Join(left, ':') + "::" + Join(right, ':')
            else right == [] && address == Join(left, ':')
  {
    hide SplitOn, Join, SplitDouble, WordsOf, WordBytes, Spells, Denotes;
    var halves := SplitDouble(address);
    SplitDoubleJoins(address);
    NoWords();
    left, right := Tokens(halves[0]), Tokens(if |halves| == 2 then halves[1] else "");
    lw, rw := WordsOf(left).value, WordsOf(right).value;
    SpellsExactly(left, lw);
    SpellsExactly(right, rw);
    TokensJoin(halves[0]);
    if |halves| == 2 {
      TokensJoin(halves[1]);
    }
    var words := lw + seq(8 - |lw| - |rw|, _ => 0) + rw;
    assert words == lw + Zeros(8 - |lw| - |rw|) + rw;
    WordBytesDenote(words);
  }

  lemma {:induction false} TokensJoin(part: string)
    ensures Join(Tokens(part), ':') == part
  {
    JoinSplit(part, ':');
  }

  // ---------------------------------------------------------------- printed addresses

  lemma {:induction false} HexLength(n: nat, digits: nat)
    requires 1 <= digits && n < Pow16(digits)
    ensures |Hex(n)| <= digits
  {
    if n >= 16 {
      assert digits > 1 && n / 16 < Pow16(digits - 1);
      HexLength(n / 16, digits - 1);
    }
  }

  /** One side in print: every word in hexadecimal, or the last two as a dotted quad. */
  function PrintSide(words: seq<word>, quad: bool): seq<string> {
    if words == [] then []
    else if quad && |words| == 2 then
      [PrintIPv4([words[0] / 256, words[0] % 256, words[1] / 256, words[1] % 256])]
    else [Hex(words[0])] + PrintSide(words[1..], quad)
  }

  lemma {:induction false} PrintedSideSpells(words: seq<word>, quad: bool)
    ensures Spells(PrintSide(words, quad), words)
  {
    hide SpellsWord, SpellsPair;
    if words == [] {
    } else if quad && |words| == 2 {
      assert SpellsPair(PrintSide(words, quad)[0], words[0], words[1]) by {
        hide PrintIPv4;
        PrintedPair(words[0], words[1]);
      }
    } else {
      var tokens := PrintSide(words, quad);
      PrintedWord(words[0]);
      PrintedSideSpells(words[1..], quad);
      assert tokens[1..] == PrintSide(words[1..], quad) && tokens[0] == Hex(words[0]);
      NotOneForTwo(words, quad);
    }
  }

  lemma {:induction false} PrintedPair(high: word, low: word)
    ensures SpellsPair(PrintIPv4([high / 256, high % 256, low / 256, low % 256]), high, low)
  {
  }

  lemma {:induction false} PrintedWord(w: word)
    ensures SpellsWord(Hex(w), w)
  {
    assert Pow16(2) == 256 && Pow16(3) == 4096 && Pow16(4) == 16 * Pow16(3);
    HexLength(w, 4);
    HexIsLower(w);
  }

  /** Printed digits are lower case, and there is no zero in front. */
  lemma {:induction false} HexIsLower(n: nat)
    ensures LowerAll(Hex(n)) == Hex(n) && Trimmed(Hex(n)) == Hex(n)
    ensures n > 0 ==> Hex(n)[0] != '0'
  {
    if n >= 16 {
      HexIsLower(n / 16);
    }
  }

  lemma {:induction false} NotOneForTwo(words: seq<word>, quad: bool)
    requires words != [] && !(quad && |words| == 2)
    ensures |PrintSide(words, quad)| == 1 ==> |words| != 2
  {
    if |words| == 2 {
      assert PrintSide(words[1..], quad) == [Hex(words[1])] + PrintSide(words[1..][1..], quad);
    }
  }

  /** Every eight words, printed in full, with or without the last two as a dotted quad, are
      parsed to exactly their sixteen bytes. */
  lemma {:induction false} PrintedFullParses(words: seq<word>, quad: bool)
    requires |words| == 8
    ensures var r := ParseIPv6(Join(PrintSide(words, quad), ':')); r.Some? && Denotes(r.value, words)
  {
    hide ParseIPv6, PrintSide, Join, Spells, Denotes;
    PrintedSideSpells(words, quad);
    FullAddressParses(PrintSide(words, quad), words);
  }

  /** And so they are printed with any run of one or more zero words elided. */
  lemma {:induction false} PrintedElidedParses(words: seq<word>, i: nat, j: nat, quad: bool)
    requires |words| == 8 && i < j <= 8 && forall k | i <= k < j :: words[k] == 0
    ensures var r := ParseIPv6(Join(PrintSide(words[..i], false), ':') + "::" + Join(PrintSide(words[j..], quad), ':'));
            r.Some? && Denotes(r.value, words)
  {
    hide ParseIPv6, PrintSide, Join, Spells, Denotes;
    PrintedSideSpells(words[..i], false);
    PrintedSideSpells(words[j..], quad);
    ElidedAddressParses(PrintSide(words[..i], false), PrintSide(words[j..], quad), words, i, j);
  }

  /** Wider than section 2.2 of RFC 4291: a dotted quad may also end the left side. `IpGrammar`
      says exactly which accepted texts that makes wider. */
  lemma {:induction false} QuadBeforeElision(b: seq<byte>)
    requires |b| == 4
    ensures ParseIPv6(PrintIPv4(b) + "::") == Some(b + seq(12, _ => 0))
  {
    hide PrintIPv4, ParseIPv6;
    var quad := PrintIPv4(b);
    var words := [Pair(b[0], b[1]), Pair(b[2], b[3])] + Zeros(6);
    assert [quad][1..] == [] && words[8..] == [];
    assert SpellsPair(quad, words[0], words[1]) by {
      assert [words[0] / 256, words[0] % 256, words[1] / 256, words[1] % 256] == b;
    }
    assert Spells([quad], words[..2]);
    ElidedAddressParses([quad], [], words, 2, 8);
    assert quad + "::" + "" == quad + "::";
    var bytes := ParseIPv6(quad + "::").value;
    QuadBytes(b, words, bytes);
  }

  lemma {:induction false} QuadBytes(b: seq<byte>, words: seq<word>, bytes: seq<byte>)
    requires |b| == 4 && words == [Pair(b[0], b[1]), Pair(b[2], b[3])] + Zeros(6) && Denotes(bytes, words)
    ensures bytes == b + seq(12, _ => 0)
  {
    forall i | 0 <= i < 8 ensures bytes[2 * i..2 * i + 2] == (b + seq(12, _ => 0))[2 * i..2 * i + 2] {
      assert bytes[2 * i] == words[i] / 256 && bytes[2 * i + 1] == words[i] % 256;
    }
    forall k | 0 <= k < 16 ensures bytes[k] == (b + seq(12, _ => 0))[k] {
      var i := k / 2;
      assert bytes[2 * i..2 * i + 2][k - 2 * i] == bytes[k];
    }
  }

  lemma {:induction false} QuadHasDot(b: seq<byte>)
    requires |b| == 4
    ensures '.' in PrintIPv4(b)
  {
    var parts := [PrintOctet(b[0]), PrintOctet(b[1]), PrintOctet(b[2]), PrintOctet(b[3])];
    hide PrintOctet;
    assert Join(parts, '.') == parts[0] + ['.'] + Join(parts[1..], '.');
    assert Join(parts, '.')[|parts[0]|] == '.';
  }
}