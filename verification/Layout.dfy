/** On-disk data layout shared by the log and the file layer: a block is BSIZE bytes, read
    either as bytes, as little-endian 32-bit words, or as allocation bits. */
module Layout {

  const BSIZE := 512
  const NWORDS := 128      // BSIZE / sizeof(uint)
  const BPB := 4096        // bitmap bits per block
  const UINT_LIMIT := 0x1_0000_0000

  type Byte = x: int | 0 <= x < 256
  type Uint = x: int | 0 <= x < UINT_LIMIT
  type Block = b: seq<Byte> | |b| == BSIZE witness seq(512, _ => 0)

  function Zeros(n: nat): (r: seq<Byte>)
    ensures |r| == n && forall k :: 0 <= k < n ==> r[k] == 0
  {
    if n == 0 then [] else Zeros(n - 1) + [0]
  }

  const ZERO_BLOCK: Block := Zeros(BSIZE)

  /** The k-th uint of a block, as the C code sees it through a cast of the data pointer. */
  function Word(b: Block, k: nat): (w: Uint)
    requires k < NWORDS
  {
    (b[4 * k] as int) + 256 * (b[4 * k + 1] as int) + 65536 * (b[4 * k + 2] as int) + 16777216 * (b[4 * k + 3] as int)
  }

  function SetWord(b: Block, k: nat, v: Uint): (r: Block)
    requires k < NWORDS
  {
    b[4 * k := v % 256][4 * k + 1 := v / 256 % 256][4 * k + 2 := v / 65536 % 256][4 * k + 3 := v / 16777216]
  }

  lemma WordRoundTrip(b: Block, k: nat, v: Uint)
    requires k < NWORDS
    ensures Word(SetWord(b, k, v), k) == v
  {
    var r := SetWord(b, k, v);
    assert r[4 * k] == v % 256 && r[4 * k + 1] == v / 256 % 256;
    assert r[4 * k + 2] == v / 65536 % 256 && r[4 * k + 3] == v / 16777216;
    assert v / 256 == v / 65536 * 256 + v / 256 % 256;
    assert v / 65536 == v / 16777216 * 256 + v / 65536 % 256;
  }

  lemma WordFrame(b: Block, k: nat, v: Uint, j: nat)
    requires k < NWORDS && j < NWORDS && j != k
    ensures Word(SetWord(b, k, v), j) == Word(b, j)
  {
  }

  lemma ZeroWords(k: nat)
    requires k < NWORDS
    ensures Word(ZERO_BLOCK, k) == 0
  {
  }

  /** 1 << m */
  function Mask(m: nat): (r: nat)
    ensures r > 0
  {
    if m == 0 then 1 else 2 * Mask(m - 1)
  }

  /** x & (1 << m) */
  predicate Bit(x: nat, m: nat)
  {
    if m == 0 then x % 2 == 1 else Bit(x / 2, m - 1)
  }

  /** data[i/8] & (1 << (i%8)) */
  predicate BlockBit(b: Block, i: nat)
    requires i < BPB
  {
    Bit(b[i / 8], i % 8)
  }

  /** data[i/8] |= m, where the bit was clear. */
  function SetBit(b: Block, i: nat): (r: Block)
    requires i < BPB && !BlockBit(b, i)
  {
    MaskOfByte();
    MaskFits(b[i / 8], i % 8, 8);
    b[i / 8 := b[i / 8] + Mask(i % 8)]
  }

  /** data[i/8] &= ~m, where the bit was set. */
  function ClearBit(b: Block, i: nat): (r: Block)
    requires i < BPB && BlockBit(b, i)
  {
    MaskBelow(b[i / 8], i % 8);
    b[i / 8 := b[i / 8] - Mask(i % 8)]
  }

  lemma {:induction false} MaskFits(x: nat, m: nat, n: nat)
    requires m < n && x < Mask(n) && !Bit(x, m)
    ensures x + Mask(m) < Mask(n)
  {
    assert Mask(n) == 2 * Mask(n - 1);
    if m > 0 {
      MaskFits(x / 2, m - 1, n - 1);
    }
  }

  lemma MaskOfByte()
    ensures Mask(8) == 256
  {
    assert Mask(2) == 4 && Mask(4) == 16;
    assert Mask(6) == 64;
  }

  lemma {:induction false} MaskBelow(x: nat, m: nat)
    requires Bit(x, m)
    ensures Mask(m) <= x
    ensures !Bit(x - Mask(m), m)
  {
    if m > 0 {
      MaskBelow(x / 2, m - 1);
      assert (x - Mask(m)) / 2 == x / 2 - Mask(m - 1);
    }
  }

  lemma {:induction false} MaskToggles(x: nat, m: nat, j: nat)
    requires !Bit(x, m)
    ensures Bit(x + Mask(m), m)
    ensures j != m ==> Bit(x + Mask(m), j) == Bit(x, j)
  {
    if m == 0 {
      assert (x + 1) / 2 == x / 2;
    } else {
      assert (x + Mask(m)) / 2 == x / 2 + Mask(m - 1);
      MaskToggles(x / 2, m - 1, if j == 0 then m else j - 1);
    }
  }

  lemma SetBitEffect(b: Block, i: nat)
    requires i < BPB && !BlockBit(b, i)
    ensures BlockBit(SetBit(b, i), i)
    ensures forall j: nat :: j < BPB && j != i ==> BlockBit(SetBit(b, i), j) == BlockBit(b, j)
  {
    MaskToggles(b[i / 8], i % 8, i % 8);
    forall j: nat | j < BPB && j != i
      ensures BlockBit(SetBit(b, i), j) == BlockBit(b, j)
    {
      MaskToggles(b[i / 8], i % 8, j % 8);
    }
  }

  lemma ClearBitEffect(b: Block, i: nat)
    requires i < BPB && BlockBit(b, i)
    ensures !BlockBit(ClearBit(b, i), i)
    ensures forall j: nat :: j < BPB && j != i ==> BlockBit(ClearBit(b, i), j) == BlockBit(b, j)
  {
    MaskBelow(b[i / 8], i % 8);
    forall j: nat | j < BPB && j != i
      ensures BlockBit(ClearBit(b, i), j) == BlockBit(b, j)
    {
      MaskToggles(b[i / 8] - Mask(i % 8), i % 8, j % 8);
    }
  }
}
