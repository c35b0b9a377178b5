/**
  The on-disk representation: bytes, 1024-byte blocks, little-endian 32-bit words
  and single bits inside a block (kernel/fs.h, kernel/types.h).
 */
module Layout {

  const BSIZE: nat := 1024
  const NWORDS: nat := 256       // BSIZE / sizeof(uint)
  const BPB: nat := 8192         // bitmap bits per block, BSIZE * 8
  const UINT_LIMIT: nat := 0x1_0000_0000

  type Byte = x: int | 0 <= x < 256
  type Uint = x: int | 0 <= x < UINT_LIMIT
  datatype MaybeByte = None | Some(byte: Byte)

  type Block = b: seq<Byte> | |b| == BSIZE witness seq(BSIZE, i => 0)

  function ZeroBlock(): (b: Block)
    ensures forall i :: 0 <= i < 1024 ==> b[i] == 0
  {
    seq(BSIZE, i => 0)
  }

  function Pack(b0: int, b1: int, b2: int, b3: int): int {
    b0 + 0x100 * b1 + 0x1_0000 * b2 + 0x100_0000 * b3
  }

  function Digit0(v: Uint): Byte { v % 0x100 }
  function Digit1(v: Uint): Byte { v / 0x100 % 0x100 }
  function Digit2(v: Uint): Byte { v / 0x1_0000 % 0x100 }
  function Digit3(v: Uint): Byte { v / 0x100_0000 }

  lemma PackDigits(v: Uint)
    ensures Pack(Digit0(v), Digit1(v), Digit2(v), Digit3(v)) == v
  {
    assert v / 0x100 / 0x100 == v / 0x1_0000;
    assert v / 0x1_0000 / 0x100 == v / 0x100_0000;
  }

  /** The i-th little-endian 32-bit word of a block, `((uint*)data)[i]`. */
  function WordAt(b: Block, i: nat): Uint
    requires i < NWORDS
  {
    Pack(b[4 * i], b[4 * i + 1], b[4 * i + 2], b[4 * i + 3])
  }

  /** Stores a word; no other word of the block changes. */
  function PutWord(b: Block, i: nat, v: Uint): (r: Block)
    requires i < NWORDS
    ensures WordAt(r, i) == v
    ensures forall j: nat :: j < NWORDS && j != i ==> WordAt(r, j) == WordAt(b, j)
  {
    PackDigits(v);
    b[..4 * i] + [Digit0(v), Digit1(v), Digit2(v), Digit3(v)] + b[4 * i + 4..]
  }

  lemma ZeroWord(i: nat)
    requires i < NWORDS
    ensures WordAt(ZeroBlock(), i) == 0
  {
  }

  function Pow2(m: nat): (p: nat)
    ensures 1 <= p
  {
    if m == 0 then 1 else 2 * Pow2(m - 1)
  }

  /** Bit k of x, `x & (1 << k)` non-zero. */
  predicate BitOf(x: nat, k: nat) {
    if k == 0 then x % 2 == 1 else BitOf(x / 2, k - 1)
  }

  /** `x | (1 << k)` when v holds and `x & ~(1 << k)` otherwise, for an m-bit x. */
  function PutBitOf(x: nat, m: nat, k: nat, v: bool): (y: nat)
    requires k < m && x < Pow2(m)
    ensures y < Pow2(m)
    ensures BitOf(y, k) == v
  {
    if k == 0 then 2 * (x / 2) + (if v then 1 else 0)
    else x % 2 + 2 * PutBitOf(x / 2, m - 1, k - 1, v)
  }

  lemma {:induction false} PutBitOfFrame(x: nat, m: nat, k: nat, v: bool, j: nat)
    requires k < m && x < Pow2(m) && j != k
    ensures BitOf(PutBitOf(x, m, k, v), j) == BitOf(x, j)
  {
    if k > 0 && j > 0 {
      PutBitOfFrame(x / 2, m - 1, k - 1, v, j - 1);
    }
  }

  /** Bit i of a bitmap block, `data[i/8] & (1 << (i%8))`. */
  predicate BitAt(b: Block, i: nat)
    requires i < BPB
  {
    BitOf(b[i / 8], i % 8)
  }

  /** Sets or clears one bit; every other bit of the block stays as it was. */
  function PutBit(b: Block, i: nat, v: bool): (r: Block)
    requires i < BPB
    ensures BitAt(r, i) == v
    ensures forall j: nat :: j < BPB && j != i ==> BitAt(r, j) == BitAt(b, j)
  {
    assert Pow2(8) == 256;
    var r: Block := b[i / 8 := PutBitOf(b[i / 8], 8, i % 8, v)];
    assert forall j: nat :: j < BPB && j != i ==> BitAt(r, j) == BitAt(b, j) by {
      forall j: nat | j < BPB && j != i
        ensures BitAt(r, j) == BitAt(b, j)
      {
        if j / 8 == i / 8 {
          PutBitOfFrame(b[i / 8], 8, i % 8, v, j % 8);
        }
      }
    }
    r
  }
}
