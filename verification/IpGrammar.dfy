/** The grammar of section 2.2 of RFC 4291, and how far the parser agrees with it. */
module IpGrammar {
  import opened Bytes
  import opened IpAddress

  // ---------------------------------------------------------------- section 2.2

  ghost predicate IsQuad(token: string) {
    exists b: seq<byte> | |b| == 4 :: token == PrintIPv4(b)
  }

  /** Groups of one to four hexadecimal digits, the last of which may be a dotted quad. */
  ghost predicate IsSide(tokens: seq<string>, quad: bool) {
    forall i | 0 <= i < |tokens| :: IsGroup(tokens[i]) || (quad && i == |tokens| - 1 && IsQuad(tokens[i]))
  }

  /** How many sixteen-bit pieces a side stands for: a dotted quad is two. */
  ghost function Pieces(tokens: seq<string>): nat {
    |tokens| + if tokens != [] && IsQuad(tokens[|tokens| - 1]) then 1 else 0
  }

  /** Form 1, or form 3 without an elision: eight pieces. */
  ghost predicate IsFull(address: string, tokens: seq<string>) {
    IsSide(tokens, true) && Pieces(tokens) == 8 && address == Join(tokens, ':')
  }

  /** Form 2, or form 3 with an elision: at most seven pieces and one `::`, and a dotted quad
      only at the end of the address. */
  ghost predicate IsElided(address: string, left: seq<string>, right: seq<string>) {
    && IsSide(left, false) && IsSide(right, true) && Pieces(left) + Pieces(right) <= 7
    && address == Join(left, ':') + "::" + Join(right, ':')
  }

  ghost predicate InGrammar(address: string) {
    || (exists tokens :: IsFull(address, tokens))
    || (exists left, right :: IsElided(address, left, right))
  }

  // ---------------------------------------------------------------- sides of an address

  lemma {:induction false} QuadIsToken(token: string)
    ensures IsQuad(token) <==> '.' in token && ParseIPv4(token).Some?
    ensures ParseIPv4(token).Some? ==> '.' in token && |ParseIPv4(token).value| == 4
  {
    if b: seq<byte> :| |b| == 4 && token == PrintIPv4(b) {
      IPv4Parses(b);
      QuadHasDot(b);
    }
    if ParseIPv4(token).Some? {
      IPv4Prints(token);
      QuadHasDot(ParseIPv4(token).value);
    }
  }

  lemma {:induction false} GroupHasNoDot(token: string)
    requires IsGroup(token)
    ensures '.' !in token
  {
  }

  /** What the token loop accepts is what the grammar calls a side, piece for piece. */
  lemma {:induction false} SideIsAccepted(tokens: seq<string>)
    ensures WordsOf(tokens).Some? <==> IsSide(tokens, true)
    ensures WordsOf(tokens).Some? ==> |WordsOf(tokens).value| == Pieces(tokens)
  {
    hide ParseIPv4, PrintIPv4, IsQuad;
    if tokens != [] {
      var rest := tokens[1..];
      SideIsAccepted(rest);
      QuadIsToken(tokens[0]);
      if IsGroup(tokens[0]) {
        GroupHasNoDot(tokens[0]);
      }
      assert forall i | 0 <= i < |rest| :: rest[i] == tokens[i + 1];
      assert IsSide(tokens, true) ==> IsSide(rest, true);
    }
  }

  /** A side holds a dotted quad exactly if its text holds a dot. */
  lemma {:induction false} DotInJoin(tokens: seq<string>)
    ensures '.' in Join(tokens, ':') <==> exists i | 0 <= i < |tokens| :: '.' in tokens[i]
  {
    if |tokens| > 1 {
      DotInJoin(tokens[1..]);
      assert forall i | 0 <= i < |tokens[1..]| :: tokens[1..][i] == tokens[i + 1];
    }
  }

  lemma {:induction false} PlainSide(tokens: seq<string>)
    requires IsSide(tokens, true)
    ensures IsSide(tokens, false) <==> '.' !in Join(tokens, ':')
  {
    hide ParseIPv4, PrintIPv4, IsQuad, Join, IsGroup;
    DotInJoin(tokens);
    forall i | 0 <= i < |tokens|
      ensures IsGroup(tokens[i]) <==> '.' !in tokens[i]
    {
      QuadIsToken(tokens[i]);
      if IsGroup(tokens[i]) {
        GroupHasNoDot(tokens[i]);
      }
    }
  }

  // ---------------------------------------------------------------- the theorem

  lemma {:induction false} FullIsParsed(address: string, tokens: seq<string>)
    requires IsFull(address, tokens)
    ensures ParseIPv6(address).Some? && |SplitDouble(address)| == 1
  {
    SideIsAccepted(tokens);
    hide ParseIPv6, SplitDouble, WordsOf, Join, Pieces, IsSide;
    SpellsExactly(tokens, WordsOf(tokens).value);
    FullAddressParses(tokens, WordsOf(tokens).value);
    SideParses(tokens);
    SplitDoubleNone(address);
  }

  lemma {:induction false} ElidedIsParsed(address: string, left: seq<string>, right: seq<string>)
    requires IsElided(address, left, right)
    ensures ParseIPv6(address).Some? && |SplitDouble(address)| == 2 && SplitDouble(address)[0] == Join(left, ':')
    ensures '.' !in SplitDouble(address)[0]
  {
    hide ParseIPv6, SplitDouble, WordsOf, Join, Pieces, IsSide, Spells, Denotes;
    WiderSide(left);
    PlainSide(left);
    SideIsAccepted(left);
    SideIsAccepted(right);
    var lw, rw := WordsOf(left).value, WordsOf(right).value;
    var i, j := |lw|, 8 - |rw|;
    var words := lw + Zeros(j - i) + rw;
    assert words[..i] == lw && words[j..] == rw;
    SpellsExactly(left, lw);
    SpellsExactly(right, rw);
    ElidedAddressParses(left, right, words, i, j);
    SideParses(left);
    SideParses(right);
    SplitDoubleOnce(Join(left, ':'), Join(right, ':'));
    SplitDoubleNone(Join(right, ':'));
  }

  lemma {:induction false} WiderSide(tokens: seq<string>)
    requires IsSide(tokens, false)
    ensures IsSide(tokens, true)
  {
  }

  /** A condition to be read off the text: without an elision, or with no dot before it. */
  predicate NoQuadBeforeElision(address: string) {
    |SplitDouble(address)| == 1 || '.' !in SplitDouble(address)[0]
  }

  /** A text is in the grammar exactly if the parser accepts it and no dotted quad stands
      before the elision. */
  lemma {:induction false} GrammarIsAcceptedWithoutEarlyQuad(address: string)
    ensures InGrammar(address) <==> ParseIPv6(address).Some? && NoQuadBeforeElision(address)
  {
    hide ParseIPv6, SplitDouble, IsFull, IsElided;
    if InGrammar(address) {
      if tokens :| IsFull(address, tokens) {
        FullIsParsed(address, tokens);
      } else {
        var left, right :| IsElided(address, left, right);
        ElidedIsParsed(address, left, right);
      }
    }
    if ParseIPv6(address).Some? && NoQuadBeforeElision(address) {
      AcceptedIsInGrammar(address);
    }
  }

  lemma {:induction false} AcceptedIsInGrammar(address: string)
    requires ParseIPv6(address).Some? && NoQuadBeforeElision(address)
    ensures InGrammar(address)
  {
    var halves := SplitDouble(address);
    var left, right := Tokens(halves[0]), Tokens(if |halves| == 2 then halves[1] else "");
    assert WordsOf(left).Some? && WordsOf(right).Some?;
    hide SplitDouble, WordsOf, Tokens, Join, Pieces, IsSide, WordBytes;
    SideIsAccepted(left);
    SplitDoubleJoins(address);
    TokensJoin(halves[0]);
    if |halves| == 1 {
      NoTokens();
      assert IsFull(address, left);
    } else {
      SideIsAccepted(right);
      TokensJoin(halves[1]);
      PlainSide(left);
      assert IsElided(address, left, right);
    }
  }

  lemma {:induction false} NoTokens()
    ensures Tokens("") == [] && WordsOf([]) == Some([])
  {
  }

  /** What the parser accepts beyond the grammar is a text with a dotted quad that ends the
      left half, however many groups stand before it. */
  lemma {:induction false} AcceptedBeyondGrammar(address: string)
    requires ParseIPv6(address).Some? && !InGrammar(address)
    ensures |SplitDouble(address)| == 2
    ensures var left := Tokens(SplitDouble(address)[0]);
            left != [] && IsSide(left[..|left| - 1], false) && IsQuad(left[|left| - 1])
  {
    hide InGrammar;
    GrammarIsAcceptedWithoutEarlyQuad(address);
    LeftIsSide(address);
    var left := Tokens(SplitDouble(address)[0]);
    assert |SplitDouble(address)| == 2;
    hide SplitDouble, Tokens, ParseIPv6, IsQuad, IsGroup;
  }

  lemma {:induction false} LeftIsSide(address: string)
    requires ParseIPv6(address).Some?
    ensures var left := Tokens(SplitDouble(address)[0]);
            IsSide(left, true) && (IsSide(left, false) <==> '.' !in SplitDouble(address)[0])
  {
    var half := SplitDouble(address)[0];
    var left := Tokens(half);
    assert WordsOf(left).Some?;
    hide SplitDouble, ParseIPv6, WordsOf, Tokens, Join, IsSide;
    SideIsAccepted(left);
    TokensJoin(half);
    PlainSide(left);
  }
}
