/** What the endpoint waits on: input that may still become a frame, and input that never will. */
module Waiting {
  import opened Bytes
  import opened Wire

  function Ones(n: nat): (s: seq<byte>)
    ensures |s| == n
  {
    if n == 0 then [] else Ones(n - 1) + [255]
  }

  function Nulls(n: nat): (s: seq<byte>)
    ensures |s| == n
  {
    seq(n, _ => 0)
  }

  /** Bytes that no continuation turns into a frame of section 5.2: an eight-byte length of
      which enough has come to know that it is too long, or too short for its form. */
  predicate DeadLength(b: seq<byte>) {
    && 3 <= |b| < 10 && b[1] % 128 == 127
    && (b[2] >= 128 || BigEndian(b[2..] + Ones(10 - |b|)) <= 0xffff)
  }

  ghost predicate Completable(b: seq<byte>) {
    exists more: seq<byte> :: Decode(b + more).Complete?
  }

  // ---------------------------------------------------------------- dead input stays dead

  lemma {:induction false} OnesAreMost(y: seq<byte>)
    ensures BigEndian(y) <= BigEndian(Ones(|y|))
  {
    if y != [] {
      OnesAreMost(y[..|y| - 1]);
      assert Ones(|y|)[..|y| - 1] == Ones(|y| - 1);
    }
  }

  lemma {:induction false} FilledIsMost(x: seq<byte>, y: seq<byte>)
    ensures BigEndian(x + y) <= BigEndian(x + Ones(|y|))
  {
    BigEndianSplit(x, y);
    BigEndianSplit(x, Ones(|y|));
    OnesAreMost(y);
  }

  lemma {:induction false} DeadStaysDead(b: seq<byte>, more: seq<byte>)
    requires DeadLength(b)
    ensures !Decode(b + more).Complete?
  {
    var c := b + more;
    LengthAt(c);
    if |c| >= 10 {
      var y := c[|b|..10];
      assert c[2..10] == b[2..] + y;
      FilledIsMost(b[2..], y);
    }
    hide BigEndian, DecodeBody;
  }

  // ---------------------------------------------------------------- all other input can be completed

  /** A known length stays known. */
  lemma {:induction false} LengthStays(b: seq<byte>, more: seq<byte>)
    requires |b| >= 2 && DecodeLength(b[1..]).Length?
    ensures DecodeLength((b + more)[1..]) == DecodeLength(b[1..])
  {
    var c := b + more;
    LengthAt(b);
    LengthAt(c);
    var e := ExtendedSize(b[1] % 128);
    SliceOfPrefix(b, more, 2, 2 + e);
    hide DecodeLength, BigEndian;
  }

  /** With the length known, any key and any application data complete the frame. */
  lemma {:induction false} BodyCompletes(b: seq<byte>)
    requires |b| >= 2 && DecodeLength(b[1..]).Length?
    ensures Completable(b)
  {
    var Length(masked, n, size) := DecodeLength(b[1..]);
    var more := Nulls(4 + n);
    LengthStays(b, more);
    LengthFits(b);
    var c := b + more;
    assert |c[1 + size..]| >= 4 + n;
    hide DecodeLength;
    assert Decode(c).Complete?;
  }

  lemma {:induction false} LengthFits(b: seq<byte>)
    requires |b| >= 2 && DecodeLength(b[1..]).Length?
    ensures 1 + DecodeLength(b[1..]).size <= |b|
  {
  }

  lemma {:induction false} LongerCompletes(b: seq<byte>, more: seq<byte>)
    requires Completable(b + more)
    ensures Completable(b)
  {
    var rest :| Decode(b + more + rest).Complete?;
    assert b + more + rest == b + (more + rest);
  }

  /** A two-byte length completed by 255s is at least 126. */
  lemma {:induction false} ShortLengthCompletes(b: seq<byte>)
    requires 2 <= |b| < 4 && b[1] % 128 == 126
    ensures Completable(b)
  {
    var more := Ones(4 - |b|);
    var c := b + more;
    LengthAt(c);
    TwoBytes(c[2..4]);
    assert Ones(1) == [255] && Ones(2) == [255, 255];
    assert c[3] == 255;
    BodyCompletes(c);
    LongerCompletes(b, more);
  }

  lemma {:induction false} TwoBytes(s: seq<byte>)
    requires |s| == 2
    ensures BigEndian(s) == 256 * (s[0] as int) + s[1]
  {
    assert s[..1] == [s[0]] && [s[0]][..0] == [];
    assert BigEndian([s[0]]) == s[0];
  }

  lemma {:induction false} LongLengthCompletes(b: seq<byte>)
    requires 3 <= |b| < 10 && b[1] % 128 == 127 && !DeadLength(b)
    ensures Completable(b)
  {
    var more := Ones(10 - |b|);
    var c := b + more;
    LengthAt(c);
    assert c[2..10] == b[2..] + more;
    BodyCompletes(c);
    LongerCompletes(b, more);
  }

  lemma {:induction false} NoLengthYet(b: seq<byte>)
    requires |b| == 2 && b[1] % 128 == 127
    ensures Completable(b)
  {
    var c := b + [127];
    assert c[2..] + Ones(7) == [127] + Ones(7);
    BigEndianSplit([127], Ones(7));
    assert [127][..0] == [] && BigEndian([127]) == 127;
    assert Pow256(2) == 65536;
    assert Pow256(7) >= Pow256(2) by {
      assert Pow256(4) == 65536 * Pow256(2) && Pow256(7) == 256 * 256 * 256 * Pow256(4);
    }
    LongLengthCompletes(c);
    LongerCompletes(b, [127]);
  }

  /** Input on which the endpoint waits is a proper prefix of a frame, except for a dead length:
      the endpoint goes on waiting for the rest of that one. */
  lemma {:induction false} WaitingIsPrefixUnlessDead(b: seq<byte>)
    requires Decode(b).Incomplete?
    ensures Completable(b) <==> !DeadLength(b)
  {
    if DeadLength(b) {
      forall more: seq<byte> ensures !Decode(b + more).Complete? {
        DeadStaysDead(b, more);
      }
    } else if |b| < 2 {
      var more: seq<byte> := if |b| == 0 then [0, 0] else [0];
      BodyCompletes(b + more);
      LongerCompletes(b, more);
    } else {
      LengthAt(b);
      if DecodeLength(b[1..]).Length? {
        BodyCompletes(b);
      } else if b[1] % 128 == 126 {
        ShortLengthCompletes(b);
      } else if |b| == 2 {
        NoLengthYet(b);
      } else {
        LongLengthCompletes(b);
      }
    }
  }

  /** Three bytes on which the endpoint waits although no frame starts with them. */
  lemma {:induction false} DeadInputIsAwaited(maxMessageBytes: nat)
    ensures ReadFrame([0x82, 0xff, 0xff], maxMessageBytes) == NeedMore && !Completable([0x82, 0xff, 0xff])
  {
    forall more: seq<byte> ensures !Decode([0x82, 0xff, 0xff] + more).Complete? {
      DeadStaysDead([0x82, 0xff, 0xff], more);
    }
  }
}
