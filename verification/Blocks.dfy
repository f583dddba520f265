/** Disk blocks as bytes, and the 32-bit little-endian words the kernel overlays on them. */
module Blocks {

  const BSIZE := 512
  const WORDS := BSIZE / 4

  type Byte = x: int | 0 <= x < 256
  type Word = x: int | 0 <= x < 0x1_0000_0000
  type Block = b: seq<Byte> | |b| == BSIZE witness seq(BSIZE, _ => 0)

  function ZeroBlock(): (b: Block)
    ensures forall i :: 0 <= i < BSIZE ==> b[i] == 0
  {
    seq(BSIZE, _ => 0)
  }

  /** The `j`-th `uint` of a block, as read through a `(uint*)b->data` cast. */
  function GetWord(b: Block, j: nat): (w: Word)
    requires j < WORDS
  {
    var b0: int, b1: int, b2: int, b3: int := b[4*j], b[4*j+1], b[4*j+2], b[4*j+3];
    b0 + 0x100 * b1 + 0x1_0000 * b2 + 0x100_0000 * b3
  }

  /** The block after storing `w` through the same cast. */
  function SetWord(b: Block, j: nat, w: Word): (r: Block)
    requires j < WORDS
  {
    b[4*j := w % 0x100][4*j+1 := w / 0x100 % 0x100][4*j+2 := w / 0x1_0000 % 0x100][4*j+3 := w / 0x100_0000]
  }

  lemma BytesOfWord(w: Word)
    ensures w == w % 0x100 + 0x100 * (w / 0x100 % 0x100)
                 + 0x1_0000 * (w / 0x1_0000 % 0x100) + 0x100_0000 * (w / 0x100_0000)
  {
    var q1 := w / 0x100;
    var q2 := q1 / 0x100;
    assert w / 0x1_0000 == q2;
    assert w / 0x100_0000 == q2 / 0x100;
  }

  /** A stored word reads back, and every other word is left as it was. */
  lemma SetWordGetWord(b: Block, j: nat, w: Word, k: nat)
    requires j < WORDS && k < WORDS
    ensures GetWord(SetWord(b, j, w), k) == if k == j then w else GetWord(b, k)
  {
    if k == j {
      BytesOfWord(w);
    }
  }

  lemma ZeroBlockWord(k: nat)
    requires k < WORDS
    ensures GetWord(ZeroBlock(), k) == 0
  {
  }
}
