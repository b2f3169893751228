/**
 * Disk blocks as the kernel sees them: BSIZE bytes, also read through casts as an array of
 * little-endian 32-bit words (log header, indirect blocks, inodes) and as an array of bits (free map).
 */
module Blocks {
  const BSIZE := 512
  const NWORDS := 128
  const WORD := 0x1_0000_0000

  type Byte = x: int | 0 <= x < 256
  type Block = b: seq<Byte> | |b| == BSIZE witness seq(BSIZE, _ => 0)

  /** A block of zero bytes. */
  function Zeroes(): (b: Block)
    ensures forall i | 0 <= i < BSIZE :: b[i] == 0
  {
    seq(BSIZE, _ => 0)
  }

  /** Little-endian digits in base 256. */
  function Value(digits: seq<Byte>): nat {
    if digits == [] then 0 else digits[0] + 256 * Value(digits[1..])
  }

  function Digits(w: nat, n: nat): (r: seq<Byte>)
    ensures |r| == n
  {
    if n == 0 then [] else [w % 256] + Digits(w / 256, n - 1)
  }

  /** 256 to the power `n`. */
  function Span(n: nat): nat {
    if n == 0 then 1 else 256 * Span(n - 1)
  }

  lemma {:induction false} DigitsValue(w: nat, n: nat)
    requires w < Span(n)
    ensures Value(Digits(w, n)) == w
  {
    if n > 0 {
      DigitsValue(w / 256, n - 1);
    }
  }

  lemma {:induction false} ValueBound(digits: seq<Byte>)
    ensures Value(digits) < Span(|digits|)
  {
    if digits != [] {
      ValueBound(digits[1..]);
    }
  }

  /** The `i`th 32-bit word of a block. */
  function Word(b: Block, i: nat): (w: nat)
    requires i < NWORDS
    ensures w < WORD
  {
    ValueBound(b[4 * i..4 * i + 4]);
    Value(b[4 * i..4 * i + 4])
  }

  function PutWord(b: Block, i: nat, w: nat): Block
    requires i < NWORDS && w < WORD
  {
    b[..4 * i] + Digits(w, 4) + b[4 * i + 4..]
  }

  /** Storing a word changes that word and no other. */
  lemma WordPut(b: Block, i: nat, w: nat, j: nat)
    requires i < NWORDS && j < NWORDS && w < WORD
    ensures Word(PutWord(b, i, w), j) == if i == j then w else Word(b, j)
  {
    var c := PutWord(b, i, w);
    if i == j {
      assert c[4 * j..4 * j + 4] == Digits(w, 4);
      DigitsValue(w, 4);
    } else {
      assert c[4 * j..4 * j + 4] == b[4 * j..4 * j + 4];
    }
  }

  lemma {:induction false} ZeroValue(n: nat)
    ensures Value(seq(n, _ => 0)) == 0
  {
    if n > 0 {
      ZeroValue(n - 1);
      assert seq(n, _ => 0)[1..] == seq(n - 1, _ => 0);
    }
  }

  lemma WordZero(i: nat)
    requires i < NWORDS
    ensures Word(Zeroes(), i) == 0
  {
    ZeroValue(4);
    assert Zeroes()[4 * i..4 * i + 4] == seq(4, _ => 0);
  }

  const NBITS := 4096

  /** `1 << k`. */
  function Mask(k: nat): (m: nat)
    ensures m >= 1
  {
    if k == 0 then 1 else 2 * Mask(k - 1)
  }

  /** Bit `k` of `x`. */
  predicate TestBit(x: nat, k: nat) {
    if k == 0 then x % 2 == 1 else TestBit(x / 2, k - 1)
  }

  /** `data[bi/8] & m` with `m = 1 << (bi % 8)`. */
  predicate Bit(b: Block, bi: nat)
    requires bi < NBITS
  {
    TestBit(b[bi / 8], bi % 8)
  }

  /** `data[bi/8] |= m`, for a bit that is clear. */
  function SetBit(b: Block, bi: nat): Block
    requires bi < NBITS && !Bit(b, bi)
  {
    MaskFits(b[bi / 8], bi % 8, 8);
    b[bi / 8 := b[bi / 8] + Mask(bi % 8)]
  }

  /** `data[bi/8] &= ~m`, for a bit that is set. */
  function ClearBit(b: Block, bi: nat): Block
    requires bi < NBITS && Bit(b, bi)
  {
    MaskBelow(b[bi / 8], bi % 8);
    b[bi / 8 := b[bi / 8] - Mask(bi % 8)]
  }

  lemma {:induction false} MaskFits(x: nat, k: nat, width: nat)
    requires k < width && x < Mask(width) && !TestBit(x, k)
    ensures x + Mask(k) < Mask(width)
  {
    var half := Mask(width - 1);
    assert Mask(width) == 2 * half && x / 2 < half && x == 2 * (x / 2) + x % 2;
    if k > 0 {
      MaskFits(x / 2, k - 1, width - 1);
      assert Mask(k) == 2 * Mask(k - 1);
    }
  }

  lemma {:induction false} MaskBelow(x: nat, k: nat)
    requires TestBit(x, k)
    ensures Mask(k) <= x
  {
    if k > 0 {
      MaskBelow(x / 2, k - 1);
    }
  }

  /** Adding the mask of a clear bit sets that bit alone. */
  lemma {:induction false} FlipUp(x: nat, k: nat, j: nat)
    requires !TestBit(x, k)
    ensures TestBit(x + Mask(k), j) == (j == k || TestBit(x, j))
  {
    if k > 0 {
      assert (x + Mask(k)) / 2 == x / 2 + Mask(k - 1) && (x + Mask(k)) % 2 == x % 2;
      if j > 0 {
        FlipUp(x / 2, k - 1, j - 1);
      }
    } else {
      assert (x + 1) / 2 == x / 2;
    }
  }

  /** Subtracting the mask of a set bit clears that bit alone. */
  lemma {:induction false} FlipDown(x: nat, k: nat, j: nat)
    requires TestBit(x, k)
    ensures Mask(k) <= x && TestBit(x - Mask(k), j) == (j != k && TestBit(x, j))
  {
    MaskBelow(x, k);
    if k > 0 {
      assert (x - Mask(k)) / 2 == x / 2 - Mask(k - 1) && (x - Mask(k)) % 2 == x % 2;
      if j > 0 {
        FlipDown(x / 2, k - 1, j - 1);
      }
    } else {
      assert (x - 1) / 2 == x / 2;
    }
  }

  lemma BitSet(b: Block, bi: nat, bj: nat)
    requires bi < NBITS && bj < NBITS && !Bit(b, bi)
    ensures Bit(SetBit(b, bi), bj) == (bi == bj || Bit(b, bj))
  {
    FlipUp(b[bi / 8], bi % 8, bj % 8);
  }

  lemma BitClear(b: Block, bi: nat, bj: nat)
    requires bi < NBITS && bj < NBITS && Bit(b, bi)
    ensures Bit(ClearBit(b, bi), bj) == (bi != bj && Bit(b, bj))
  {
    FlipDown(b[bi / 8], bi % 8, bj % 8);
  }
}
