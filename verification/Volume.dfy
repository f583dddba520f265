/** The volume fs.c maintains: free bitmap, blocks, inodes, and who owns each block. */
module Volume {
  import opened Blocks

  const NDIRECT := 12
  const NINDIRECT := WORDS
  const MAXFILE := NDIRECT + NINDIRECT
  const IND := MAXFILE            // the slot `addrs[NDIRECT]`, which holds the indirect block
  const BPB := BSIZE * 8

  /** struct dinode. */
  datatype Inode = Inode(kind: int, major: int, minor: int, nlink: int, size: Word, addrs: seq<Word>)

  /** `core` is every inode as its cache entry holds it, or would once read. */
  datatype Vol = Vol(used: seq<bool>, data: seq<Block>, core: seq<Inode>)

  datatype Slot = Slot(i: nat, s: nat)

  ghost predicate Shape(v: Vol) {
    && |v.used| == |v.data| <= 0x1_0000_0000
    && forall i :: 0 <= i < |v.core| ==> |v.core[i].addrs| == NDIRECT + 1
  }

  /** The block held by slot `s` of inode `i`, 0 when none. Slots below MAXFILE are the file's blocks in order. */
  function AddrOf(v: Vol, i: nat, s: nat): (b: nat)
    requires Shape(v) && i < |v.core| && s <= IND
  {
    var a := v.core[i].addrs;
    if s < NDIRECT then a[s]
    else if s == IND then a[NDIRECT]
    else if a[NDIRECT] == 0 || a[NDIRECT] >= |v.data| then 0
    else GetWord(v.data[a[NDIRECT]], s - NDIRECT)
  }

  /** Every nonzero address is a used data block with exactly one owning slot, and nothing else is owned. */
  ghost predicate Owned(v: Vol, owner: map<nat, Slot>) {
    && Shape(v)
    && (forall i, s :: 0 <= i < |v.core| && 0 <= s <= IND && AddrOf(v, i, s) != 0 ==>
          AddrOf(v, i, s) in owner && owner[AddrOf(v, i, s)] == Slot(i, s))
    && (forall b :: b in owner ==> Owns(v, owner[b], b))
  }

  ghost predicate Owns(v: Vol, o: Slot, b: nat)
    requires Shape(v)
  {
    && o.i < |v.core| && o.s <= IND && AddrOf(v, o.i, o.s) == b
    && 0 < b < |v.used| && v.used[b]
  }

  /** No block leaks: a used block is below `ds` (boot block, log, inodes, bitmap), owned,
      or in the allocator's hands. */
  ghost predicate Accounted(v: Vol, owner: map<nat, Slot>, ds: nat, inHand: set<nat>) {
    && 0 < ds <= |v.used|
    && (forall b :: 0 <= b < ds ==> v.used[b] && b !in owner)
    && (forall b :: ds <= b < |v.used| ==> (v.used[b] <==> b in owner || b in inHand))
    && (forall b :: b in inHand ==> ds <= b < |v.used| && b !in owner)
  }

  /** The first `m` blocks of file `i` are mapped and no others, and the indirect block exists just when needed. */
  ghost predicate Mapped(v: Vol, i: nat, m: nat)
    requires Shape(v) && i < |v.core|
  {
    && m <= MAXFILE
    && (forall s :: 0 <= s < MAXFILE ==> (AddrOf(v, i, s) != 0 <==> s < m))
    && (AddrOf(v, i, IND) != 0 <==> m > NDIRECT)
  }

  function NBlocks(size: nat): (m: nat) {
    (size + BSIZE - 1) / BSIZE
  }

  /** No holes: each file has exactly the blocks its size calls for. */
  ghost predicate NoHoles(v: Vol)
    requires Shape(v)
  {
    forall i :: 0 <= i < |v.core| ==> Mapped(v, i, NBlocks(v.core[i].size))
  }

  /** Byte `k` of file `i`, zero past its last block. */
  function ByteAt(v: Vol, i: nat, k: nat): (c: Byte)
    requires Shape(v) && i < |v.core| && k < MAXFILE * BSIZE
  {
    var b := AddrOf(v, i, k / BSIZE);
    if b == 0 || b >= |v.data| then 0 else v.data[b][k % BSIZE]
  }

  /** The contents of file `i`, padded with zeroes to the largest file size. */
  ghost function File(v: Vol, i: nat): (f: seq<Byte>)
    requires Shape(v) && i < |v.core|
  {
    seq(MAXFILE * BSIZE, k requires 0 <= k < MAXFILE * BSIZE => ByteAt(v, i, k))
  }

  ghost function Files(v: Vol): (f: seq<seq<Byte>>)
    requires Shape(v)
  {
    seq(|v.core|, i requires 0 <= i < |v.core| => File(v, i))
  }

  /** `f` with `src` written over it at `off`. */
  function Splice(f: seq<Byte>, off: nat, src: seq<Byte>): (r: seq<Byte>)
    requires off + |src| <= |f|
    ensures |r| == |f|
  {
    f[..off] + src + f[off + |src|..]
  }

  /** Two volumes hold the same bytes in every file. */
  ghost predicate SameBytes(v: Vol, w: Vol) {
    Shape(v) && Shape(w) && |v.core| == |w.core| && Files(w) == Files(v)
  }

  lemma SameBytesIntro(v: Vol, w: Vol)
    requires Shape(v) && Shape(w) && |v.core| == |w.core|
    requires forall i, k :: 0 <= i < |v.core| && 0 <= k < MAXFILE * BSIZE ==> ByteAt(w, i, k) == ByteAt(v, i, k)
    ensures SameBytes(v, w)
  {
    forall i | 0 <= i < |v.core|
      ensures File(w, i) == File(v, i)
    {
    }
  }

  // ---- The updates fs.c makes ----

  function MarkUsed(v: Vol, b: nat): (w: Vol)
    requires b < |v.used| == |v.data|
  {
    v.(used := v.used[b := true], data := v.data[b := ZeroBlock()])
  }

  function PutAddr(v: Vol, i: nat, n: nat, b: Word): (w: Vol)
    requires Shape(v) && i < |v.core| && n <= NDIRECT
  {
    v.(core := v.core[i := v.core[i].(addrs := v.core[i].addrs[n := b])])
  }

  function PutBlock(v: Vol, b: nat, data: Block): (w: Vol)
    requires b < |v.data|
  {
    v.(data := v.data[b := data])
  }

  // ---- Allocation disturbs no file ----

  lemma MarkUsedAddr(v: Vol, owner: map<nat, Slot>, b: nat, i: nat, s: nat)
    requires Owned(v, owner) && b < |v.used| && !v.used[b] && i < |v.core| && s <= IND
    ensures Shape(MarkUsed(v, b)) && AddrOf(MarkUsed(v, b), i, s) == AddrOf(v, i, s)
  {
    assert AddrOf(v, i, IND) != 0 ==> Owns(v, owner[AddrOf(v, i, IND)], AddrOf(v, i, IND));
  }

  /** balloc's effect: the block is in hand, zeroed, and no slot or file byte changed. */
  lemma MarkUsedKeeps(v: Vol, owner: map<nat, Slot>, ds: nat, hand: set<nat>, b: nat)
    requires Owned(v, owner) && Accounted(v, owner, ds, hand) && b < |v.used| && !v.used[b]
    ensures Owned(MarkUsed(v, b), owner) && Accounted(MarkUsed(v, b), owner, ds, hand + {b})
    ensures SameBytes(v, MarkUsed(v, b)) && b !in hand && b !in owner && ds <= b
    ensures forall i, m :: 0 <= i < |v.core| && Mapped(v, i, m) ==> Mapped(MarkUsed(v, b), i, m)
  {
    var w := MarkUsed(v, b);
    assert forall c :: c in owner ==> Owns(v, owner[c], c);
    forall i, s | 0 <= i < |v.core| && 0 <= s <= IND
      ensures AddrOf(w, i, s) == AddrOf(v, i, s)
    {
      MarkUsedAddr(v, owner, b, i, s);
    }
    forall c | c in owner
      ensures Owns(w, owner[c], c)
    {
      assert Owns(v, owner[c], c);
    }
    forall i, k | 0 <= i < |v.core| && 0 <= k < MAXFILE * BSIZE
      ensures ByteAt(w, i, k) == ByteAt(v, i, k)
    {
      var c := AddrOf(v, i, k / BSIZE);
      assert c != 0 ==> c in owner && Owns(v, owner[c], c);
    }
    SameBytesIntro(v, w);
  }

  // ---- Handing a block to a slot ----

  /** `w` is `v` with block `b` put into the empty slot `o`; only `o`'s own indirect block may have been rewritten. */
  ghost predicate Given(v: Vol, w: Vol, o: Slot, b: nat) {
    && Shape(v) && Shape(w) && |w.core| == |v.core| && |w.data| == |v.data| && w.used == v.used
    && o.i < |v.core| && o.s <= IND
    && (forall i, s :: 0 <= i < |v.core| && 0 <= s <= IND ==>
          AddrOf(w, i, s) == if i == o.i && s == o.s then b else AddrOf(v, i, s))
    && (forall c :: 0 <= c < |v.data| && c != AddrOf(v, o.i, IND) ==> w.data[c] == v.data[c])
    && (o.s < NDIRECT || o.s == IND ==> w.data == v.data)
  }

  lemma GiveDirect(v: Vol, o: Slot, b: nat)
    requires Shape(v) && o.i < |v.core| && o.s < NDIRECT && b < |v.data|
    ensures Given(v, PutAddr(v, o.i, o.s, b), o, b)
  {
  }

  /** A fresh indirect block is all zeroes, so it maps nothing yet. */
  lemma GiveIndirect(v: Vol, o: Slot, b: nat)
    requires Shape(v) && o.i < |v.core| && o.s == IND && 0 < b < |v.data|
    requires AddrOf(v, o.i, IND) == 0 && v.data[b] == ZeroBlock()
    ensures Given(v, PutAddr(v, o.i, NDIRECT, b), o, b)
  {
  }

  lemma GiveEntry(v: Vol, owner: map<nat, Slot>, o: Slot, b: nat)
    requires Owned(v, owner) && o.i < |v.core| && NDIRECT <= o.s < MAXFILE && b < |v.data|
    requires AddrOf(v, o.i, IND) != 0
    ensures AddrOf(v, o.i, IND) < |v.data|
    ensures var ind := AddrOf(v, o.i, IND);
            Given(v, PutBlock(v, ind, SetWord(v.data[ind], o.s - NDIRECT, b)), o, b)
  {
    var ind := AddrOf(v, o.i, IND);
    assert Owns(v, owner[ind], ind);
    var w := PutBlock(v, ind, SetWord(v.data[ind], o.s - NDIRECT, b));
    forall i, s | 0 <= i < |v.core| && 0 <= s <= IND
      ensures AddrOf(w, i, s) == if i == o.i && s == o.s then b else AddrOf(v, i, s)
    {
      assert AddrOf(v, i, IND) != 0 ==> owner[AddrOf(v, i, IND)] == Slot(i, IND);
      if i == o.i && NDIRECT <= s < IND {
        SetWordGetWord(v.data[ind], o.s - NDIRECT, b, s - NDIRECT);
      }
    }
  }

  /** Handing over a block in hand gives it its one owner. */
  lemma GivenOwned(v: Vol, w: Vol, owner: map<nat, Slot>, ds: nat, hand: set<nat>, o: Slot, b: nat)
    requires Owned(v, owner) && Accounted(v, owner, ds, hand) && b in hand && Given(v, w, o, b)
    requires AddrOf(v, o.i, o.s) == 0
    ensures Owned(w, owner[b := o]) && Accounted(w, owner[b := o], ds, hand - {b})
  {
    forall c | c in owner
      ensures Owns(w, owner[c], c)
    {
      assert Owns(v, owner[c], c);
    }
    assert Owns(w, o, b);
  }

  /** A zeroed block reads the same as the hole it fills. */
  lemma GivenBytes(v: Vol, w: Vol, owner: map<nat, Slot>, o: Slot, b: nat)
    requires Owned(v, owner) && Given(v, w, o, b) && AddrOf(v, o.i, o.s) == 0
    requires 0 < b < |v.data| && b !in owner && v.data[b] == ZeroBlock()
    ensures SameBytes(v, w)
  {
    var ind := AddrOf(v, o.i, IND);
    assert ind != 0 ==> ind in owner && owner[ind] == Slot(o.i, IND);
    forall i, k | 0 <= i < |v.core| && 0 <= k < MAXFILE * BSIZE
      ensures ByteAt(w, i, k) == ByteAt(v, i, k)
    {
      var c := AddrOf(v, i, k / BSIZE);
      assert c != 0 ==> c in owner && owner[c] == Slot(i, k / BSIZE) && Owns(v, owner[c], c);
      if i == o.i && k / BSIZE == o.s {
        assert ByteAt(v, i, k) == 0;
        assert w.data[b] == v.data[b];
      } else {
        assert AddrOf(w, i, k / BSIZE) == c;
      }
    }
    SameBytesIntro(v, w);
  }

  /** From `v` to `w` one empty slot got block `b`, and no file byte and no other slot changed. */
  ghost predicate Placed(v: Vol, w: Vol, o: Slot, b: nat) {
    && SameBytes(v, w) && |w.data| == |v.data|
    && o.i < |v.core| && o.s <= IND && 0 < b < |v.data| && AddrOf(v, o.i, o.s) == 0
    && (forall j :: 0 <= j < |v.core| && j != o.i ==> w.core[j] == v.core[j])
    && w.core[o.i].(addrs := []) == v.core[o.i].(addrs := [])
    && (forall i, s :: 0 <= i < |v.core| && 0 <= s <= IND ==>
          AddrOf(w, i, s) == if i == o.i && s == o.s then b else AddrOf(v, i, s))
  }

  /** balloc, then storing the block in a slot: ownership is restored and only the slot changed. */
  lemma PlaceKeeps(v: Vol, w: Vol, owner: map<nat, Slot>, ds: nat, o: Slot, b: nat)
    requires Owned(v, owner) && Accounted(v, owner, ds, {}) && b < |v.used| && !v.used[b]
    requires Given(MarkUsed(v, b), w, o, b) && AddrOf(v, o.i, o.s) == 0
    requires forall j :: 0 <= j < |v.core| && j != o.i ==> w.core[j] == v.core[j]
    requires w.core[o.i].(addrs := []) == v.core[o.i].(addrs := [])
    ensures Owned(w, owner[b := o]) && Accounted(w, owner[b := o], ds, {})
    ensures Placed(v, w, o, b)
  {
    var u := MarkUsed(v, b);
    MarkUsedKeeps(v, owner, ds, {}, b);
    MarkUsedAddr(v, owner, b, o.i, o.s);
    GivenOwned(u, w, owner, ds, {} + {b}, o, b);
    assert {} + {b} - {b} == {};
    GivenBytes(u, w, owner, o, b);
    forall i, s | 0 <= i < |v.core| && 0 <= s <= IND
      ensures AddrOf(w, i, s) == if i == o.i && s == o.s then b else AddrOf(v, i, s)
    {
      MarkUsedAddr(v, owner, b, i, s);
    }
  }

  lemma PlaceAddr(v: Vol, owner: map<nat, Slot>, ds: nat, i: nat, n: nat, b: nat)
    requires Owned(v, owner) && Accounted(v, owner, ds, {}) && b < |v.used| && !v.used[b]
    requires i < |v.core| && n <= NDIRECT && v.core[i].addrs[n] == 0
    ensures var o, w := Slot(i, if n < NDIRECT then n else IND), PutAddr(MarkUsed(v, b), i, n, b);
            Owned(w, owner[b := o]) && Accounted(w, owner[b := o], ds, {}) && Placed(v, w, o, b)
  {
    var o, u := Slot(i, if n < NDIRECT then n else IND), MarkUsed(v, b);
    MarkUsedKeeps(v, owner, ds, {}, b);
    if n < NDIRECT {
      GiveDirect(u, o, b);
    } else {
      GiveIndirect(u, o, b);
    }
    PlaceKeeps(v, PutAddr(u, i, n, b), owner, ds, o, b);
  }

  /** balloc returned `b`, which bmap stores as entry `j` of indirect block `ind`. */
  function WithEntry(v: Vol, ind: nat, j: nat, b: nat): (w: Vol)
    requires b < |v.used| == |v.data| <= 0x1_0000_0000 && ind < |v.data| && j < NINDIRECT
  {
    PutBlock(MarkUsed(v, b), ind, SetWord(MarkUsed(v, b).data[ind], j, b))
  }

  lemma PlaceEntry(v: Vol, owner: map<nat, Slot>, ds: nat, i: nat, j: nat, s: nat, b: nat)
    requires Owned(v, owner) && Accounted(v, owner, ds, {}) && b < |v.used| && !v.used[b]
    requires i < |v.core| && j < NINDIRECT && s == NDIRECT + j && AddrOf(v, i, IND) != 0 && AddrOf(v, i, s) == 0
    ensures AddrOf(v, i, IND) < |v.data|
    ensures var o, w := Slot(i, s), WithEntry(v, AddrOf(v, i, IND), j, b);
            Owned(w, owner[b := o]) && Accounted(w, owner[b := o], ds, {}) && Placed(v, w, o, b)
  {
    var o, u, ind := Slot(i, s), MarkUsed(v, b), AddrOf(v, i, IND);
    MarkUsedKeeps(v, owner, ds, {}, b);
    MarkUsedAddr(v, owner, b, i, IND);
    GiveEntry(u, owner, o, b);
    PlaceKeeps(v, PutBlock(u, ind, SetWord(u.data[ind], j, b)), owner, ds, o, b);
  }

  // ---- Overwriting file data ----

  /** Rewriting one block of one file changes that block's bytes and no slot anywhere. */
  lemma PutDataKeeps(v: Vol, owner: map<nat, Slot>, ds: nat, i: nat, s: nat, data: Block)
    requires Owned(v, owner) && Accounted(v, owner, ds, {}) && i < |v.core| && s < MAXFILE && AddrOf(v, i, s) != 0
    ensures AddrOf(v, i, s) < |v.data|
    ensures var w := PutBlock(v, AddrOf(v, i, s), data);
            && Owned(w, owner) && Accounted(w, owner, ds, {})
            && (forall i', s' :: 0 <= i' < |v.core| && 0 <= s' <= IND ==> AddrOf(w, i', s') == AddrOf(v, i', s'))
            && (forall i', k :: 0 <= i' < |v.core| && 0 <= k < MAXFILE * BSIZE ==>
                  ByteAt(w, i', k) == if i' == i && k / BSIZE == s then data[k % BSIZE] else ByteAt(v, i', k))
  {
    var b := AddrOf(v, i, s);
    assert Owns(v, owner[b], b);
    var w := PutBlock(v, b, data);
    forall i', s' | 0 <= i' < |v.core| && 0 <= s' <= IND
      ensures AddrOf(w, i', s') == AddrOf(v, i', s')
    {
      assert AddrOf(v, i', IND) != 0 ==> owner[AddrOf(v, i', IND)] == Slot(i', IND);
    }
    forall c | c in owner
      ensures Owns(w, owner[c], c)
    {
      assert Owns(v, owner[c], c);
    }
    forall i', k | 0 <= i' < |v.core| && 0 <= k < MAXFILE * BSIZE
      ensures ByteAt(w, i', k) == if i' == i && k / BSIZE == s then data[k % BSIZE] else ByteAt(v, i', k)
    {
      var c := AddrOf(v, i', k / BSIZE);
      assert AddrOf(w, i', k / BSIZE) == c;
      assert c != 0 ==> c in owner && owner[c] == Slot(i', k / BSIZE);
    }
  }

  // ---- What bmap may change ----

  /** `w` is `v` with slot `bn` of inode `i` filled if it was empty, and the indirect block with it when needed. */
  ghost predicate Grown(v: Vol, w: Vol, i: nat, bn: nat) {
    && Shape(v) && Shape(w) && |w.core| == |v.core| && |w.data| == |v.data|
    && i < |v.core| && bn < MAXFILE
    && (forall j :: 0 <= j < |v.core| && j != i ==> w.core[j] == v.core[j])
    && w.core[i].(addrs := []) == v.core[i].(addrs := [])
    && (forall j, s :: 0 <= j < |v.core| && 0 <= s <= IND && (j != i || (s != bn && (s != IND || bn < NDIRECT))) ==>
          AddrOf(w, j, s) == AddrOf(v, j, s))
    && AddrOf(w, i, bn) != 0
    && (AddrOf(v, i, bn) != 0 ==> AddrOf(w, i, bn) == AddrOf(v, i, bn))
    && (bn >= NDIRECT ==> AddrOf(w, i, IND) != 0)
    && (AddrOf(v, i, IND) != 0 ==> AddrOf(w, i, IND) == AddrOf(v, i, IND))
  }

  lemma PlacedGrown(v: Vol, w: Vol, i: nat, bn: nat, b: nat)
    requires Placed(v, w, Slot(i, bn), b) && bn < MAXFILE && (bn >= NDIRECT ==> AddrOf(v, i, IND) != 0)
    ensures Grown(v, w, i, bn)
  {
  }

  lemma PlacedTwiceGrown(v: Vol, u: Vol, w: Vol, i: nat, bn: nat, ind: nat, b: nat)
    requires Placed(v, u, Slot(i, IND), ind) && Placed(u, w, Slot(i, bn), b) && NDIRECT <= bn < MAXFILE
    ensures Grown(v, w, i, bn) && SameBytes(v, w)
  {
  }

  lemma GrownMapped(v: Vol, w: Vol, i: nat, bn: nat, m: nat)
    requires Grown(v, w, i, bn) && Mapped(v, i, m) && bn <= m
    ensures Mapped(w, i, if bn < m then m else m + 1)
    ensures forall j, n :: 0 <= j < |v.core| && j != i && Mapped(v, j, n) ==> Mapped(w, j, n)
  {
  }

  // ---- Truncation ----

  /** `w` is `v` with every block of inode `i` free and every slot of it empty. */
  ghost predicate Truncated(v: Vol, w: Vol, i: nat) {
    && Shape(v) && Shape(w) && i < |v.core| && w.data == v.data && |w.used| == |v.used| && |w.core| == |v.core|
    && (forall j :: 0 <= j < |v.core| && j != i ==> w.core[j] == v.core[j])
    && w.core[i] == v.core[i].(size := 0, addrs := w.core[i].addrs)
    && (forall s :: 0 <= s <= NDIRECT ==> w.core[i].addrs[s] == 0)
    && FreedExactly(v, w.used, i)
  }

  /** `used` is the bitmap of `v` with exactly the blocks of inode `i` marked free. */
  ghost predicate FreedExactly(v: Vol, used: seq<bool>, i: nat)
    requires Shape(v) && i < |v.core|
  {
    && |used| == |v.used|
    && forall b :: 0 <= b < |v.used| ==>
         (used[b] <==> v.used[b] && !exists s :: 0 <= s <= IND && AddrOf(v, i, s) == b && b != 0)
  }

  /** `used` is the bitmap of `v` after freeing the blocks in the slots of inode `i` below `s`. */
  ghost predicate FreedBelow(v: Vol, used: seq<bool>, owner: map<nat, Slot>, i: nat, s: nat) {
    && |used| == |v.used|
    && forall b :: 0 <= b < |used| ==>
         (used[b] <==> v.used[b] && !(b in owner && owner[b].i == i && owner[b].s < s))
  }

  /** itrunc frees slots in increasing order; each block it frees is still marked used. */
  lemma FreeNext(v: Vol, used: seq<bool>, owner: map<nat, Slot>, i: nat, s: nat, t: nat)
    requires Owned(v, owner) && FreedBelow(v, used, owner, i, s) && i < |v.core| && s <= IND && t == s + 1
    ensures AddrOf(v, i, s) == 0 ==> FreedBelow(v, used, owner, i, t)
    ensures AddrOf(v, i, s) != 0 ==>
              && AddrOf(v, i, s) < |used| && used[AddrOf(v, i, s)]
              && FreedBelow(v, used[AddrOf(v, i, s) := false], owner, i, t)
  {
  }

  lemma {:induction false} FreeNone(v: Vol, used: seq<bool>, owner: map<nat, Slot>, i: nat, s: nat)
    requires Owned(v, owner) && FreedBelow(v, used, owner, i, s) && i < |v.core| && NDIRECT <= s <= IND + 1
    requires AddrOf(v, i, IND) == 0
    ensures FreedBelow(v, used, owner, i, IND + 1)
    decreases IND - s
  {
  }

  /** itrunc has zeroed the first `n` entries of `addrs` of inode `i`. */
  ghost predicate Cleared(v: Vol, w: Vol, i: nat, n: nat) {
    && Shape(v) && Shape(w) && i < |v.core| && |w.core| == |v.core| && w.data == v.data
    && w.core == v.core[i := v.core[i].(addrs := w.core[i].addrs)]
    && forall s :: 0 <= s <= NDIRECT ==> w.core[i].addrs[s] == if s < n then 0 else v.core[i].addrs[s]
  }

  lemma ClearNext(v: Vol, w: Vol, i: nat, n: nat, used: seq<bool>)
    requires Cleared(v, w, i, n) && n <= NDIRECT && |used| == |w.used|
    ensures Cleared(v, PutAddr(w, i, n, 0).(used := used), i, n + 1)
    ensures w.core[i].addrs[n] == 0 ==> Cleared(v, w.(used := used), i, n + 1)
  {
  }

  lemma FreedTruncated(v: Vol, w: Vol, owner: map<nat, Slot>, i: nat)
    requires Owned(v, owner) && Cleared(v, w, i, NDIRECT + 1) && FreedBelow(v, w.used, owner, i, IND + 1)
    ensures Truncated(v, w.(core := w.core[i := w.core[i].(size := 0)]), i)
  {
  }

  ghost function Without(owner: map<nat, Slot>, i: nat): (r: map<nat, Slot>) {
    map b | b in owner && owner[b].i != i :: owner[b]
  }

  /** itrunc returns exactly the inode's blocks to the allocator. */
  lemma TruncatedOwned(v: Vol, w: Vol, owner: map<nat, Slot>, ds: nat, i: nat)
    requires Owned(v, owner) && Accounted(v, owner, ds, {}) && Truncated(v, w, i)
    ensures Owned(w, Without(owner, i)) && Accounted(w, Without(owner, i), ds, {})
    ensures Mapped(w, i, 0)
    ensures forall j, m :: 0 <= j < |v.core| && j != i && Mapped(v, j, m) ==> Mapped(w, j, m)
    ensures forall j :: 0 <= j < |v.core| && j != i ==> File(w, j) == File(v, j)
  {
    var rest := Without(owner, i);
    forall b | b in owner && owner[b].i == i
      ensures exists s :: 0 <= s <= IND && AddrOf(v, i, s) == b && b != 0
    {
      assert Owns(v, owner[b], b);
    }
    forall j, s | 0 <= j < |v.core| && 0 <= s <= IND
      ensures AddrOf(w, j, s) == if j == i then 0 else AddrOf(v, j, s)
    {
    }
    forall b | b in rest
      ensures Owns(w, rest[b], b)
    {
      assert Owns(v, owner[b], b);
    }
  }

  // ---- Files as byte sequences ----

  /** memmove of `src` into a block at offset `o`. */
  function Patch(b: Block, o: nat, src: seq<Byte>): (r: Block)
    requires o + |src| <= BSIZE
    ensures forall k :: 0 <= k < BSIZE ==> r[k] == if o <= k < o + |src| then src[k - o] else b[k]
  {
    b[..o] + src + b[o + |src|..]
  }

  /** `w` holds `src` at offset `off` of file `i`, and every other byte of every file is as in `v`. */
  ghost predicate Spliced(v: Vol, w: Vol, i: nat, off: nat, src: seq<Byte>) {
    && Shape(v) && Shape(w) && |w.core| == |v.core| && i < |v.core| && off + |src| <= MAXFILE * BSIZE
    && Files(w) == Files(v)[i := Splice(File(v, i), off, src)]
  }

  /** Byte `k` of a file after patching the block that holds offset `off`. */
  lemma SpliceByte(f: seq<Byte>, b: Block, off: nat, bn: nat, piece: seq<Byte>, k: nat)
    requires |f| == MAXFILE * BSIZE && bn == off / BSIZE && bn < MAXFILE && off % BSIZE + |piece| <= BSIZE && k < |f|
    requires forall t :: 0 <= t < BSIZE ==> b[t] == f[bn * BSIZE + t]
    ensures off + |piece| <= |f|
    ensures Splice(f, off, piece)[k] == if k / BSIZE == bn then Patch(b, off % BSIZE, piece)[k % BSIZE] else f[k]
  {
  }

  /** Patching the block that holds offset `off` splices the piece into the file. */
  lemma SpliceBlock(v: Vol, w: Vol, i: nat, off: nat, bn: nat, piece: seq<Byte>, b: Block)
    requires Shape(v) && Shape(w) && |w.core| == |v.core| && i < |v.core|
    requires bn == off / BSIZE && bn < MAXFILE && off % BSIZE + |piece| <= BSIZE
    requires forall k :: 0 <= k < BSIZE ==> b[k] == ByteAt(v, i, bn * BSIZE + k)
    requires forall j, k :: 0 <= j < |v.core| && 0 <= k < MAXFILE * BSIZE ==>
               ByteAt(w, j, k) == if j == i && k / BSIZE == bn then Patch(b, off % BSIZE, piece)[k % BSIZE]
                                  else ByteAt(v, j, k)
    ensures Spliced(v, w, i, off, piece)
  {
    var f := File(v, i);
    SpliceByte(f, b, off, bn, piece, 0);
    forall k | 0 <= k < MAXFILE * BSIZE
      ensures ByteAt(w, i, k) == Splice(f, off, piece)[k]
    {
      SpliceByte(f, b, off, bn, piece, k);
    }
    assert File(w, i) == Splice(f, off, piece);
    forall j | 0 <= j < |v.core| && j != i
      ensures File(w, j) == File(v, j)
    {
    }
  }

  lemma SpliceTwice(f: seq<Byte>, off: nat, src: seq<Byte>, piece: seq<Byte>)
    requires off + |src| + |piece| <= |f|
    ensures Splice(Splice(f, off, src), off + |src|, piece) == Splice(f, off, src + piece)
  {
  }

  lemma SpliceNothing(v: Vol, i: nat, off: nat)
    requires Shape(v) && i < |v.core| && off <= MAXFILE * BSIZE
    ensures Spliced(v, v, i, off, [])
  {
    assert Splice(File(v, i), off, []) == File(v, i) == Files(v)[i];
  }

  lemma SpliceJoin(v: Vol, u: Vol, w: Vol, i: nat, off: nat, src: seq<Byte>, piece: seq<Byte>)
    requires Spliced(v, u, i, off, src) && Spliced(u, w, i, off + |src|, piece)
    ensures Spliced(v, w, i, off, src + piece)
  {
    SpliceTwice(File(v, i), off, src, piece);
    assert Files(u)[i] == File(u, i);
  }

  /** The contents of the block holding byte `o` of file `i`. */
  lemma BlockBytes(v: Vol, i: nat, bn: nat)
    requires Shape(v) && i < |v.core| && bn < MAXFILE && 0 < AddrOf(v, i, bn) < |v.data|
    ensures forall k :: 0 <= k < BSIZE ==> v.data[AddrOf(v, i, bn)][k] == ByteAt(v, i, bn * BSIZE + k)
  {
  }

  lemma ChunkBytes(v: Vol, i: nat, off: nat, piece: seq<Byte>)
    requires Shape(v) && i < |v.core| && off / BSIZE < MAXFILE && off % BSIZE + |piece| <= BSIZE
    requires 0 < AddrOf(v, i, off / BSIZE) < |v.data|
    requires piece == v.data[AddrOf(v, i, off / BSIZE)][off % BSIZE..off % BSIZE + |piece|]
    ensures off + |piece| <= MAXFILE * BSIZE
    ensures piece == Part(File(v, i), off, |piece|)
  {
  }

  /** memmove into a mapped block: ownership stays, the piece is spliced in, no slot changes. */
  lemma PatchKeeps(v: Vol, u: Vol, owner: map<nat, Slot>, ds: nat, i: nat, off: nat, bn: nat, piece: seq<Byte>)
    requires Owned(u, owner) && Accounted(u, owner, ds, {}) && i < |u.core|
    requires bn == off / BSIZE && bn < MAXFILE && off % BSIZE + |piece| <= BSIZE
    requires Grown(v, u, i, bn) && SameBytes(v, u)
    ensures AddrOf(u, i, bn) < |u.data|
    ensures var b := AddrOf(u, i, bn);
            var w := PutBlock(u, b, Patch(u.data[b], off % BSIZE, piece));
            && Owned(w, owner) && Accounted(w, owner, ds, {}) && Grown(v, w, i, bn) && Spliced(v, w, i, off, piece)
            && AddrOf(w, i, bn) == b && AddrOf(w, i, IND) == AddrOf(u, i, IND)
  {
    var b := AddrOf(u, i, bn);
    assert Owns(u, owner[b], b);
    var w := PutBlock(u, b, Patch(u.data[b], off % BSIZE, piece));
    assert Files(u)[i] == File(u, i) && Files(v)[i] == File(v, i);
    BlockBytes(u, i, bn);
    PutDataKeeps(u, owner, ds, i, bn, Patch(u.data[b], off % BSIZE, piece));
    SpliceBlock(u, w, i, off, bn, piece, u.data[b]);
  }

  function Max(a: nat, b: nat): (r: nat) {
    if a < b then b else a
  }

  /** `w` is `v` after writei put `src` at offset `off` of file `i`, before it updates the size. */
  ghost predicate Written(v: Vol, w: Vol, i: nat, off: nat, src: seq<Byte>) {
    && Shape(v) && Shape(w) && i < |v.core| == |w.core| && |w.data| == |v.data|
    && Spliced(v, w, i, off, src)
    && (forall j :: 0 <= j < |w.core| && j != i ==> w.core[j] == v.core[j] && Mapped(w, j, NBlocks(w.core[j].size)))
    && w.core[i].(addrs := []) == v.core[i].(addrs := [])
    && (forall s :: 0 <= s <= IND && AddrOf(v, i, s) != 0 ==> AddrOf(w, i, s) == AddrOf(v, i, s))
  }

  /** `n` bytes of `f` from offset `off`. */
  function Part(f: seq<Byte>, off: nat, n: nat): (r: seq<Byte>)
    requires off + n <= |f|
  {
    f[off..off + n]
  }

  /** A range of a spliced file: the bytes written inside it and the old bytes around them. */
  lemma PartSpliced(f: seq<Byte>, off: nat, src: seq<Byte>, a: nat, n: nat)
    requires off + |src| <= |f| && a + n <= |f|
    ensures forall k :: 0 <= k < n ==>
              Part(Splice(f, off, src), a, n)[k] ==
                (if off <= a + k < off + |src| then src[a + k - off] else Part(f, a, n)[k])
    ensures a == off && n == |src| ==> Part(Splice(f, off, src), a, n) == src
  {
    var g := Splice(f, off, src);
    forall k | 0 <= k < n
      ensures Part(g, a, n)[k] == (if off <= a + k < off + |src| then src[a + k - off] else Part(f, a, n)[k])
    {
      SpliceAt(f, off, src, a + k);
    }
  }

  lemma SpliceAt(f: seq<Byte>, off: nat, src: seq<Byte>, k: nat)
    requires off + |src| <= |f| && k < |f|
    ensures Splice(f, off, src)[k] == (if off <= k < off + |src| then src[k - off] else f[k])
  {
  }

  /** A later read of any range sees the bytes written inside it and the old bytes around them;
      every other file reads as before. */
  lemma ReadBack(v: Vol, w: Vol, i: nat, off: nat, src: seq<Byte>, a: nat, n: nat)
    requires Spliced(v, w, i, off, src) && a + n <= MAXFILE * BSIZE
    ensures forall k :: 0 <= k < n ==>
              Part(File(w, i), a, n)[k] ==
                (if off <= a + k < off + |src| then src[a + k - off] else Part(File(v, i), a, n)[k])
    ensures a == off && n == |src| ==> Part(File(w, i), a, n) == src
    ensures forall j :: 0 <= j < |v.core| && j != i ==> File(w, j) == File(v, j)
  {
    assert File(w, i) == Files(w)[i] == Splice(File(v, i), off, src);
    PartSpliced(File(v, i), off, src, a, n);
    forall j | 0 <= j < |v.core| && j != i
      ensures File(w, j) == File(v, j)
    {
      assert Files(w)[j] == Files(v)[j];
    }
  }

  lemma PartMore(f: seq<Byte>, off: nat, n: nat, o: nat, m: nat, next: nat)
    requires off + n + m <= |f| && o == off + n && next == n + m
    ensures Part(f, off, n) + Part(f, o, m) == Part(f, off, next)
  {
  }

  lemma PrefixMore(src: seq<Byte>, tot: nat, next: nat)
    requires tot <= next <= |src|
    ensures src[..tot] + src[tot..next] == src[..next]
  {
  }

  lemma WrittenMore(v: Vol, u: Vol, w: Vol, i: nat, off: nat, src: seq<Byte>, o: nat, piece: seq<Byte>, both: seq<Byte>,
                    bn: nat, m: nat, m': nat)
    requires Written(v, u, i, off, src) && Mapped(u, i, m) && bn <= m && o == off + |src| && both == src + piece
    requires Grown(u, w, i, bn) && Spliced(u, w, i, o, piece) && m' == if bn < m then m else m + 1
    ensures Written(v, w, i, off, both) && Mapped(w, i, m')
  {
    SpliceJoin(v, u, w, i, off, src, piece);
    GrownMapped(u, w, i, bn, m);
  }

  lemma ResizeKeeps(v: Vol, owner: map<nat, Slot>, ds: nat, i: nat, size: Word)
    requires Owned(v, owner) && Accounted(v, owner, ds, {}) && i < |v.core|
    ensures var w := v.(core := v.core[i := v.core[i].(size := size)]);
            && Owned(w, owner) && Accounted(w, owner, ds, {}) && SameBytes(v, w)
            && forall j, m :: 0 <= j < |v.core| && Mapped(v, j, m) ==> Mapped(w, j, m)
  {
    SameAddrsKeeps(v, v.(core := v.core[i := v.core[i].(size := size)]), owner, ds);
  }

  /** A write that stays inside the file leaves the inode exactly as it was. */
  lemma OverwriteKeepsInode(v: Vol, w: Vol, i: nat, off: nat, src: seq<Byte>, m: nat)
    requires Written(v, w, i, off, src) && Mapped(v, i, m) && Mapped(w, i, m) && m == NBlocks(v.core[i].size)
    ensures w.core == v.core && NoHoles(w)
  {
    var a, b := v.core[i].addrs, w.core[i].addrs;
    forall s | 0 <= s <= NDIRECT
      ensures a[s] == b[s]
    {
      var t := if s < NDIRECT then s else IND;
      assert AddrOf(v, i, t) == a[s] && AddrOf(w, i, t) == b[s];
    }
    assert a == b;
    assert w.core[i] == v.core[i];
  }

  /** Setting the new size closes the gap the write opened: no holes again. */
  lemma GrowKeepsNoHoles(v: Vol, w: Vol, owner: map<nat, Slot>, ds: nat, i: nat, off: nat, src: seq<Byte>, end: nat,
                         m: nat)
    requires Written(v, w, i, off, src) && Owned(w, owner) && Accounted(w, owner, ds, {})
    requires Mapped(w, i, m) && m == NBlocks(end) && end < 0x1_0000_0000
    ensures var x := w.(core := w.core[i := w.core[i].(size := end)]);
            && Owned(x, owner) && Accounted(x, owner, ds, {}) && NoHoles(x) && Spliced(v, x, i, off, src)
  {
    ResizeKeeps(w, owner, ds, i, end);
    var x := w.(core := w.core[i := w.core[i].(size := end)]);
    forall j | 0 <= j < |x.core|
      ensures Mapped(x, j, NBlocks(x.core[j].size))
    {
      assert Mapped(w, j, NBlocks(x.core[j].size));
    }
  }

  /** Changing an inode's type disturbs no block. */
  lemma RetypeKeeps(v: Vol, owner: map<nat, Slot>, ds: nat, i: nat, kind: int)
    requires Owned(v, owner) && Accounted(v, owner, ds, {}) && i < |v.core|
    ensures var w := v.(core := v.core[i := v.core[i].(kind := kind)]);
            && Owned(w, owner) && Accounted(w, owner, ds, {}) && SameBytes(v, w)
            && forall j, m :: 0 <= j < |v.core| && Mapped(v, j, m) ==> Mapped(w, j, m)
  {
    SameAddrsKeeps(v, v.(core := v.core[i := v.core[i].(kind := kind)]), owner, ds);
  }

  /** What ialloc writes: memset to zero, then the type. */
  function Blank(kind: int): (n: Inode) {
    Inode(kind, 0, 0, 0, 0, seq(NDIRECT + 1, _ => 0))
  }

  lemma BlankKeeps(v: Vol, owner: map<nat, Slot>, ds: nat, i: nat, kind: int)
    requires Owned(v, owner) && Accounted(v, owner, ds, {}) && i < |v.core| && NoHoles(v) && v.core[i].size == 0
    ensures var w := v.(core := v.core[i := Blank(kind)]);
            Owned(w, owner) && Accounted(w, owner, ds, {}) && SameBytes(v, w) && NoHoles(w)
  {
    var w := v.(core := v.core[i := Blank(kind)]);
    assert Mapped(v, i, 0);
    forall s | 0 <= s <= NDIRECT
      ensures v.core[i].addrs[s] == 0
    {
      assert AddrOf(v, i, if s < NDIRECT then s else IND) == 0;
    }
    assert v.core[i].addrs == Blank(kind).addrs;
    SameAddrsKeeps(v, w, owner, ds);
    forall j | 0 <= j < |w.core|
      ensures Mapped(w, j, NBlocks(w.core[j].size))
    {
      assert Mapped(v, j, NBlocks(w.core[j].size));
    }
  }

  /** Only `addrs` and block contents matter to ownership and file bytes. */
  lemma SameAddrsKeeps(v: Vol, w: Vol, owner: map<nat, Slot>, ds: nat)
    requires Owned(v, owner) && Accounted(v, owner, ds, {})
    requires Shape(w) && |w.core| == |v.core| && w.used == v.used && w.data == v.data
    requires forall j :: 0 <= j < |v.core| ==> w.core[j].addrs == v.core[j].addrs
    ensures Owned(w, owner) && Accounted(w, owner, ds, {}) && SameBytes(v, w)
    ensures forall j, m :: 0 <= j < |v.core| && Mapped(v, j, m) ==> Mapped(w, j, m)
  {
    forall j, s | 0 <= j < |v.core| && 0 <= s <= IND
      ensures AddrOf(w, j, s) == AddrOf(v, j, s)
    {
    }
    forall c | c in owner
      ensures Owns(w, owner[c], c)
    {
      assert Owns(v, owner[c], c);
    }
    SameBytesIntro(v, w);
  }
}
