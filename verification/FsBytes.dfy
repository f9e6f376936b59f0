/**
 The bytes of a file system block: bitmap bits (kernel/fs.c reads them with shifts and masks)
 and the 32-bit entries of an indirect table (read through a cast to uint*).
 */
module FsBytes {
  import opened Params

  const BSIZE: nat := 1024
  const BPB: nat := 8192            // BSIZE * 8
  const NINDIRECT: nat := 256       // BSIZE / sizeof(uint)

  type byte = x: int | 0 <= x < 256

  type Data = b: seq<byte> | |b| == 1024 witness seq(1024, _ => 0)

  const ZERO: Data := seq(1024, _ => 0)

  // ---- Bits of a byte: v & (1 << k), v | (1 << k), v & ~(1 << k)

  predicate Bit(v: nat, k: nat) {
    if k == 0 then v % 2 == 1 else Bit(v / 2, k - 1)
  }

  function WithBit(v: nat, k: nat): nat {
    if k == 0 then v - v % 2 + 1 else 2 * WithBit(v / 2, k - 1) + v % 2
  }

  function WithoutBit(v: nat, k: nat): nat {
    if k == 0 then v - v % 2 else 2 * WithoutBit(v / 2, k - 1) + v % 2
  }

  lemma {:induction false} WithBitAt(v: nat, k: nat, j: nat)
    ensures Bit(WithBit(v, k), j) == (j == k || Bit(v, j))
  {
    if k > 0 && j > 0 {
      WithBitAt(v / 2, k - 1, j - 1);
      assert WithBit(v, k) / 2 == WithBit(v / 2, k - 1);
    } else if j > 0 {
      assert (v - v % 2 + 1) / 2 == v / 2;
    }
  }

  lemma {:induction false} WithoutBitAt(v: nat, k: nat, j: nat)
    ensures Bit(WithoutBit(v, k), j) == (j != k && Bit(v, j))
  {
    if k > 0 && j > 0 {
      WithoutBitAt(v / 2, k - 1, j - 1);
      assert WithoutBit(v, k) / 2 == WithoutBit(v / 2, k - 1);
    } else if j > 0 {
      assert (v - v % 2) / 2 == v / 2;
    }
  }

  /** A set or cleared bit below 8 leaves a byte a byte. */
  lemma {:induction false} BitFits(v: nat, k: nat, w: nat)
    requires v < Pow(w) && k < w
    ensures WithBit(v, k) < Pow(w) && WithoutBit(v, k) < Pow(w)
  {
    if k > 0 {
      BitFits(v / 2, k - 1, w - 1);
    }
  }

  function Pow(w: nat): nat {
    if w == 0 then 1 else 2 * Pow(w - 1)
  }

  /** 1 << k */
  function Mask(k: nat): (m: nat)
    requires k < 8
    ensures m > 0
  {
    [1, 2, 4, 8, 16, 32, 64, 128][k]
  }

  /** Bit k is the one that the kernel's mask tests. */
  lemma BitIs(v: nat, k: nat)
    requires k < 8
    ensures Bit(v, k) <==> v / Mask(k) % 2 == 1
  {
    assert v / 4 == v / 2 / 2 && v / 8 == v / 4 / 2 && v / 16 == v / 8 / 2 && v / 32 == v / 16 / 2;
    assert v / 64 == v / 32 / 2 && v / 128 == v / 64 / 2;
    BitStep(v, k);
    if k > 1 { BitStep(v / 2, k - 1); }
    if k > 2 { BitStep(v / 4, k - 2); }
    if k > 3 { BitStep(v / 8, k - 3); }
    if k > 4 { BitStep(v / 16, k - 4); }
    if k > 5 { BitStep(v / 32, k - 5); }
    if k > 6 { BitStep(v / 64, k - 6); }
    assert v / 1 == v;
  }

  lemma BitStep(v: nat, k: nat)
    ensures if k == 0 then Bit(v, k) == (v % 2 == 1) else Bit(v, k) == Bit(v / 2, k - 1)
  {
  }

  // ---- Bits of a block

  predicate TestBit(d: Data, bi: nat)
    requires bi < BPB
  {
    Bit(d[bi / 8], bi % 8)
  }

  function SetBit(d: Data, bi: nat): (r: Data)
    requires bi < BPB
    ensures forall j :: 0 <= j < BPB ==> TestBit(r, j) == (j == bi || TestBit(d, j))
  {
    BitsOf(d[bi / 8], bi % 8);
    d[bi / 8 := WithBit(d[bi / 8], bi % 8)]
  }

  function ClearBit(d: Data, bi: nat): (r: Data)
    requires bi < BPB
    ensures forall j :: 0 <= j < BPB ==> TestBit(r, j) == (j != bi && TestBit(d, j))
  {
    BitsOf(d[bi / 8], bi % 8);
    d[bi / 8 := WithoutBit(d[bi / 8], bi % 8)]
  }

  lemma BitsOf(v: nat, k: nat)
    requires v < 256 && k < 8
    ensures WithBit(v, k) < 256 && WithoutBit(v, k) < 256
    ensures forall j: nat :: Bit(WithBit(v, k), j) == (j == k || Bit(v, j))
    ensures forall j: nat :: Bit(WithoutBit(v, k), j) == (j != k && Bit(v, j))
  {
    assert Pow(8) == 256;
    BitFits(v, k, 8);
    forall j: nat
      ensures Bit(WithBit(v, k), j) == (j == k || Bit(v, j)) && Bit(WithoutBit(v, k), j) == (j != k && Bit(v, j))
    {
      WithBitAt(v, k, j);
      WithoutBitAt(v, k, j);
    }
  }

  // ---- Words of a block

  function LittleEndian(b0: int, b1: int, b2: int, b3: int): int {
    b0 + 0x100 * b1 + 0x1_0000 * b2 + 0x100_0000 * b3
  }

  /** ((uint*)d)[i] */
  function Word(d: Data, i: nat): (w: nat)
    requires i < NINDIRECT
    ensures w < UINT
  {
    LittleEndian(d[4 * i], d[4 * i + 1], d[4 * i + 2], d[4 * i + 3])
  }

  /** ((uint*)d)[i] = w */
  function SetWord(d: Data, i: nat, w: nat): (r: Data)
    requires i < NINDIRECT && w < UINT
    ensures forall j :: 0 <= j < NINDIRECT ==> Word(r, j) == if j == i then w else Word(d, j)
  {
    SplitWord(w);
    d[..4 * i] + [w % 0x100, w / 0x100 % 0x100, w / 0x1_0000 % 0x100, w / 0x100_0000] + d[4 * i + 4..]
  }

  lemma SplitWord(w: nat)
    requires w < UINT
    ensures w / 0x100_0000 < 0x100
    ensures LittleEndian(w % 0x100, w / 0x100 % 0x100, w / 0x1_0000 % 0x100, w / 0x100_0000) == w
  {
    assert w / 0x1_0000 == (w / 0x100) / 0x100;
    assert w / 0x100_0000 == (w / 0x1_0000) / 0x100;
  }

  lemma ZeroBits(bi: nat)
    requires bi < BPB
    ensures !TestBit(ZERO, bi)
  {
    NoBits(bi % 8);
  }

  lemma {:induction false} NoBits(k: nat)
    ensures !Bit(0, k)
  {
    if k > 0 {
      NoBits(k - 1);
    }
  }

  lemma ZeroWords(i: nat)
    requires i < NINDIRECT
    ensures Word(ZERO, i) == 0
  {
  }
}
