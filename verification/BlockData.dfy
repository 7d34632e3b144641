/** A disk block as BSIZE bytes, and the two ways fs.c overlays structure on those bytes: the unsigned
    words of an indirect block and the bits of the free bitmap. */
module BlockData {

  const BSIZE: nat := 2048
  const NWORDS: nat := 512         // BSIZE / sizeof(uint)
  const BPB: nat := 16384          // BSIZE * 8

  type Byte = x: int | 0 <= x < 256
  type Bytes = b: seq<Byte> | |b| == BSIZE witness seq(BSIZE, _ => 0)
  type UInt = x: int | 0 <= x < 0x1_0000_0000

  /** What bzero leaves in a block. */
  function Zeroes(): (b: Bytes)
    ensures forall k :: 0 <= k < BSIZE ==> b[k] == 0
  {
    seq(BSIZE, _ => 0)
  }

  // ---- words, least significant byte first

  function Word(b: Bytes, k: nat): UInt
    requires k < NWORDS
  {
    var b0: int, b1: int, b2: int, b3: int := b[4 * k], b[4 * k + 1], b[4 * k + 2], b[4 * k + 3];
    b0 + 0x100 * b1 + 0x1_0000 * b2 + 0x100_0000 * b3
  }

  function SetWord(b: Bytes, k: nat, v: UInt): Bytes
    requires k < NWORDS
  {
    b[4 * k := v % 0x100][4 * k + 1 := v / 0x100 % 0x100]
     [4 * k + 2 := v / 0x1_0000 % 0x100][4 * k + 3 := v / 0x100_0000]
  }

  lemma Digits(v: UInt)
    ensures v % 0x100 + 0x100 * (v / 0x100 % 0x100) + 0x1_0000 * (v / 0x1_0000 % 0x100) + 0x100_0000 * (v / 0x100_0000) == v
  {
  }

  lemma WordOfSet(b: Bytes, k: nat, v: UInt, j: nat)
    requires k < NWORDS && j < NWORDS
    ensures Word(SetWord(b, k, v), j) == if j == k then v else Word(b, j)
  {
    var r := SetWord(b, k, v);
    if j == k {
      Digits(v);
    } else {
      assert r[4 * j] == b[4 * j] && r[4 * j + 1] == b[4 * j + 1];
      assert r[4 * j + 2] == b[4 * j + 2] && r[4 * j + 3] == b[4 * j + 3];
    }
  }

  lemma WordOfZero(k: nat)
    requires k < NWORDS
    ensures Word(Zeroes(), k) == 0
  {
  }

  // ---- bits: bit i is bit i % 8 of byte i / 8

  /** 2 to the n */
  function Power(n: nat): nat {
    if n == 0 then 1 else 2 * Power(n - 1)
  }

  /** (x & (1 << i)) != 0 */
  predicate Test(x: nat, i: nat) {
    if i == 0 then x % 2 == 1 else Test(x / 2, i - 1)
  }

  /** x | (1 << i) */
  function Or(x: nat, i: nat): nat {
    if i == 0 then x / 2 * 2 + 1 else 2 * Or(x / 2, i - 1) + x % 2
  }

  /** x & ~(1 << i) */
  function AndNot(x: nat, i: nat): nat {
    if i == 0 then x / 2 * 2 else 2 * AndNot(x / 2, i - 1) + x % 2
  }

  lemma {:induction false} TestAfter(x: nat, i: nat, j: nat)
    ensures Test(Or(x, i), j) <==> Test(x, j) || j == i
    ensures Test(AndNot(x, i), j) <==> Test(x, j) && j != i
    decreases i, j
  {
    if i > 0 && j > 0 {
      TestAfter(x / 2, i - 1, j - 1);
    }
  }

  lemma {:induction false} StaysBelow(x: nat, i: nat, n: nat)
    requires x < Power(n) && i < n
    ensures Or(x, i) < Power(n) && AndNot(x, i) < Power(n)
  {
    if i > 0 {
      StaysBelow(x / 2, i - 1, n - 1);
    }
  }

  function OrByte(x: Byte, i: nat): Byte
    requires i < 8
  {
    StaysBelow(x, i, 8);
    Or(x, i)
  }

  function AndNotByte(x: Byte, i: nat): Byte
    requires i < 8
  {
    StaysBelow(x, i, 8);
    AndNot(x, i)
  }

  predicate Bit(b: Bytes, i: nat)
    requires i < BPB
  {
    Test(b[i / 8], i % 8)
  }

  function SetBit(b: Bytes, i: nat): Bytes
    requires i < BPB
  {
    b[i / 8 := OrByte(b[i / 8], i % 8)]
  }

  function ClearBit(b: Bytes, i: nat): Bytes
    requires i < BPB
  {
    b[i / 8 := AndNotByte(b[i / 8], i % 8)]
  }

  lemma BitOfSet(b: Bytes, i: nat, j: nat)
    requires i < BPB && j < BPB
    ensures Bit(SetBit(b, i), j) <==> Bit(b, j) || j == i
  {
    if i / 8 == j / 8 {
      TestAfter(b[i / 8], i % 8, j % 8);
    }
  }

  lemma BitOfClear(b: Bytes, i: nat, j: nat)
    requires i < BPB && j < BPB
    ensures Bit(ClearBit(b, i), j) <==> Bit(b, j) && j != i
  {
    if i / 8 == j / 8 {
      TestAfter(b[i / 8], i % 8, j % 8);
    }
  }
}
