/** Byte strings: fixed-width big-endian numbers, concatenation and exclusive or. */
module Bytes {

  type byte = b: int | 0 <= b < 256

  datatype Option<+T> = None | Some(value: T)

  /** Number.MAX_SAFE_INTEGER. */
  const MAX_SAFE_INTEGER := 0x1F_FFFF_FFFF_FFFF

  ghost function Pow256(n: nat): (p: nat)
    ensures p > 0
  {
    if n == 0 then 1 else 256 * Pow256(n - 1)
  }

  /** The unsigned value of a byte string, most significant byte first. */
  function BigEndian(s: seq<byte>): nat {
    if s == [] then 0 else 256 * BigEndian(s[..|s| - 1]) + s[|s| - 1]
  }

  function ToBigEndian(n: nat, width: nat): (s: seq<byte>)
    ensures |s| == width
  {
    if width == 0 then [] else ToBigEndian(n / 256, width - 1) + [n % 256]
  }

  lemma {:induction false} BigEndianInverts(n: nat, width: nat)
    requires n < Pow256(width)
    ensures BigEndian(ToBigEndian(n, width)) == n
  {
    if width > 0 {
      BigEndianInverts(n / 256, width - 1);
      assert ToBigEndian(n, width)[..width - 1] == ToBigEndian(n / 256, width - 1);
    }
  }

  lemma {:induction false} ToBigEndianInverts(s: seq<byte>)
    ensures BigEndian(s) < Pow256(|s|)
    ensures ToBigEndian(BigEndian(s), |s|) == s
  {
    if s != [] {
      ToBigEndianInverts(s[..|s| - 1]);
      assert s == s[..|s| - 1] + [s[|s| - 1]];
    }
  }

  lemma {:induction false} BigEndianSplit(a: seq<byte>, b: seq<byte>)
    ensures BigEndian(a + b) == BigEndian(a) * Pow256(|b|) + BigEndian(b)
  {
    if b == [] {
      assert a + b == a;
    } else {
      var b' := b[..|b| - 1];
      BigEndianSplit(a, b');
      assert (a + b)[..|a + b| - 1] == a + b';
      calc {
        BigEndian(a + b);
        256 * (BigEndian(a) * Pow256(|b'|) + BigEndian(b')) + b[|b| - 1];
        { assert 256 * (BigEndian(a) * Pow256(|b'|)) == BigEndian(a) * (256 * Pow256(|b'|)); }
        BigEndian(a) * Pow256(|b|) + BigEndian(b);
      }
    }
  }

  function Flatten(parts: seq<seq<byte>>): seq<byte> {
    if parts == [] then [] else parts[0] + Flatten(parts[1..])
  }

  lemma {:induction false} FlattenAppend(xs: seq<seq<byte>>, ys: seq<seq<byte>>)
    ensures Flatten(xs + ys) == Flatten(xs) + Flatten(ys)
  {
    if xs == [] {
      assert xs + ys == ys;
    } else {
      FlattenAppend(xs[1..], ys);
      assert (xs + ys)[1..] == xs[1..] + ys;
      Associate(xs[0], Flatten(xs[1..]), Flatten(ys));
    }
  }

  lemma {:induction false} Associate<T>(a: seq<T>, b: seq<T>, c: seq<T>)
    ensures a + (b + c) == (a + b) + c
  {
  }

  lemma {:induction false} Reslice<T>(s: seq<T>, i: nat, j: nat, k: nat)
    requires j <= k && i + k <= |s|
    ensures s[i..][j..k] == s[i + j..i + k]
  {
  }

  function TotalLength(parts: seq<seq<byte>>): nat {
    if parts == [] then 0 else |parts[0]| + TotalLength(parts[1..])
  }

  lemma {:induction false} FlattenLength(parts: seq<seq<byte>>)
    ensures |Flatten(parts)| == TotalLength(parts)
  {
    if parts != [] {
      FlattenLength(parts[1..]);
    }
  }

  lemma {:induction false} TotalLengthAppend(xs: seq<seq<byte>>, ys: seq<seq<byte>>)
    ensures TotalLength(xs + ys) == TotalLength(xs) + TotalLength(ys)
  {
    FlattenAppend(xs, ys);
    FlattenLength(xs + ys);
    FlattenLength(xs);
    FlattenLength(ys);
  }

  /** Copies one part into place. */
  method CopyInto(target: array<byte>, offset: nat, part: seq<byte>)
    requires offset + |part| <= target.Length
    modifies target
    ensures target[..] == old(target[..offset]) + part + old(target[offset + |part|..])
    ensures target[..offset + |part|] == old(target[..offset]) + part
  {
    for k := 0 to |part|
      invariant target[..offset] == old(target[..offset])
      invariant target[offset..offset + k] == part[..k]
      invariant target[offset + |part|..] == old(target[offset + |part|..])
    {
      target[offset + k] := part[k];
    }
  }

  lemma {:induction false} FlattenShort(a: seq<byte>, b: seq<byte>)
    ensures Flatten([a]) == a
    ensures Flatten([a, b]) == a + b
  {
    assert [a][1..] == [] && [a, b][1..] == [b] && [b][1..] == [];
    assert Flatten([b]) == b + [] == b;
  }

  lemma {:induction false} FlattenPrefix(parts: seq<seq<byte>>, i: nat)
    requires i < |parts|
    ensures Flatten(parts[..i + 1]) == Flatten(parts[..i]) + parts[i]
    ensures TotalLength(parts[..i + 1]) == TotalLength(parts[..i]) + |parts[i]| <= TotalLength(parts)
  {
    assert parts[..i + 1] == parts[..i] + [parts[i]];
    FlattenAppend(parts[..i], [parts[i]]);
    TotalLengthAppend(parts[..i], [parts[i]]);
    assert parts == parts[..i + 1] + parts[i + 1..];
    TotalLengthAppend(parts[..i + 1], parts[i + 1..]);
    FlattenShort(parts[i], []);
  }

  /** The source's `concat`: allocate the total, then copy part after part. */
  method Concat(parts: seq<seq<byte>>) returns (output: array<byte>)
    ensures fresh(output) && output[..] == Flatten(parts)
  {
    var length := 0;
    for i := 0 to |parts|
      invariant length == TotalLength(parts[..i])
    {
      FlattenPrefix(parts, i);
      length := length + |parts[i]|;
    }
    assert parts[..|parts|] == parts;
    output := new byte[length](_ => 0);
    var offset := 0;
    for i := 0 to |parts|
      invariant offset == TotalLength(parts[..i]) <= output.Length
      invariant output[..offset] == Flatten(parts[..i])
    {
      FlattenPrefix(parts, i);
      CopyInto(output, offset, parts[i]);
      offset := offset + |parts[i]|;
    }
    assert output[..] == output[..offset];
  }

  /** Exclusive or of the `bits` low-order bits of two numbers. */
  function XorBits(a: nat, b: nat, bits: nat): nat
  {
    if bits == 0 then 0
    else (if a % 2 == b % 2 then 0 else 1) + 2 * XorBits(a / 2, b / 2, bits - 1)
  }

  ghost function Pow2(n: nat): (p: nat)
    ensures p > 0
  {
    if n == 0 then 1 else 2 * Pow2(n - 1)
  }

  lemma {:induction false} XorBitsInvolutive(a: nat, b: nat, bits: nat)
    requires a < Pow2(bits)
    ensures XorBits(a, b, bits) < Pow2(bits)
    ensures XorBits(XorBits(a, b, bits), b, bits) == a
  {
    if bits > 0 {
      XorBitsInvolutive(a / 2, b / 2, bits - 1);
      assert XorBits(a, b, bits) / 2 == XorBits(a / 2, b / 2, bits - 1);
    }
  }

  lemma {:induction false} Pow2Of8()
    ensures Pow2(8) == 256
  {
    assert Pow2(4) == 16;
    assert Pow2(8) == 16 * Pow2(4);
  }

  function Xor(a: byte, b: byte): byte {
    Pow2Of8();
    XorBitsInvolutive(a, b, 8);
    XorBits(a, b, 8)
  }

  lemma {:induction false} XorInvolutive(a: byte, b: byte)
    ensures Xor(Xor(a, b), b) == a
  {
    Pow2Of8();
    XorBitsInvolutive(a, b, 8);
  }

  /** Bit `k` of a number, the lowest being bit 0. */
  function Bit(n: nat, k: nat): nat {
    if k == 0 then n % 2 else Bit(n / 2, k - 1)
  }

  lemma {:induction false} XorBitsByBit(a: nat, b: nat, bits: nat, k: nat)
    requires k < bits
    ensures Bit(XorBits(a, b, bits), k) == if Bit(a, k) == Bit(b, k) then 0 else 1
  {
    assert XorBits(a, b, bits) / 2 == XorBits(a / 2, b / 2, bits - 1);
    if k > 0 {
      XorBitsByBit(a / 2, b / 2, bits - 1, k - 1);
    }
  }

  /** Exclusive or, bit by bit. */
  lemma {:induction false} XorByBit(a: byte, b: byte, k: nat)
    requires k < 8
    ensures Bit(Xor(a, b), k) == if Bit(a, k) == Bit(b, k) then 0 else 1
  {
    XorBitsByBit(a, b, 8, k);
  }
}
