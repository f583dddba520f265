/** The on-disk redo log of log.c: header block, log blocks, and what a disk means to recovery. */
module LogDisk {
  import opened Blocks
  import opened Params

  type Disk = seq<Block>

  /** The superblock fields the log uses: `sb.logstart`, `sb.nlog` and `sb.size`. */
  datatype Layout = Layout(start: nat, size: nat, blocks: nat) {
    ghost predicate Valid() {
      1 <= size && start + size <= blocks <= 0x1_0000_0000
    }

    /** A block outside the log area, which transactions may update. */
    predicate Home(b: nat) {
      b < blocks && !(start <= b < start + size)
    }

    /** In-memory block numbers `log.lh.block[0..n]` that fit the log. */
    ghost predicate Fits(lh: seq<nat>) {
      && |lh| <= LOGSIZE && |lh| < size
      && forall i :: 0 <= i < |lh| ==> Home(lh[i])
    }
  }

  /** `hb->n` of a header block. */
  function HeadCount(b: Block): (n: Word) {
    GetWord(b, 0)
  }

  /** `hb->block[0..k]` of a header block. */
  function HeadBlocks(b: Block, k: nat): (s: seq<nat>)
    requires k < WORDS
    ensures |s| == k
    ensures forall i :: 0 <= i < k ==> s[i] == GetWord(b, 1 + i)
  {
    seq(k, i requires 0 <= i < k => GetWord(b, 1 + i))
  }

  /** The block numbers the header on disk commits; meaningful when the count is at most LOGSIZE. */
  function Committed(L: Layout, d: Disk): (s: seq<nat>)
    requires L.start < |d|
  {
    if HeadCount(d[L.start]) <= LOGSIZE then HeadBlocks(d[L.start], HeadCount(d[L.start])) else []
  }

  /** Every disk mkfs or the log code leaves behind: the header lists home blocks only. */
  ghost predicate HeadOK(L: Layout, d: Disk) {
    && L.Valid()
    && |d| == L.blocks
    && HeadCount(d[L.start]) <= LOGSIZE
    && L.Fits(Committed(L, d))
  }

  /** What recovery must leave in home block `b`: the last of the first `k` log slots naming it,
      else its own contents. */
  function Redo(L: Layout, d: Disk, lh: seq<nat>, b: nat): (c: Block)
    requires L.start + |lh| < |d| && b < |d|
    decreases |lh|
  {
    if |lh| == 0 then d[b]
    else if lh[|lh|-1] == b then d[L.start + |lh|]
    else Redo(L, d, lh[..|lh|-1], b)
  }

  /** After a crash on `d`, completed recovery must show exactly the home blocks of `h`. */
  ghost predicate Shows(L: Layout, d: Disk, h: Disk) {
    && HeadOK(L, d)
    && |h| == L.blocks
    && forall b: nat {:trigger h[b]} {:trigger Redo(L, d, Committed(L, d), b)} :: L.Home(b) ==>
         Redo(L, d, Committed(L, d), b) == h[b]
  }

  ghost predicate SameHome(L: Layout, d: Disk, h: Disk) {
    |d| == |h| == L.blocks && forall b: nat {:trigger d[b]} {:trigger h[b]} :: L.Home(b) ==> d[b] == h[b]
  }

  // ---- The three kinds of write the log code issues ----

  /** `write_head`'s in-place edit of the header buffer. */
  function PutBlocks(b: Block, lh: seq<nat>, k: nat): (r: Block)
    requires k <= |lh| < WORDS
    requires forall i :: 0 <= i < |lh| ==> lh[i] < 0x1_0000_0000
  {
    if k == 0 then b else SetWord(PutBlocks(b, lh, k - 1), k, lh[k-1])
  }

  function PutHead(b: Block, lh: seq<nat>): (r: Block)
    requires |lh| < WORDS
    requires forall i :: 0 <= i < |lh| ==> lh[i] < 0x1_0000_0000
  {
    PutBlocks(SetWord(b, 0, |lh|), lh, |lh|)
  }

  function WriteHead(L: Layout, d: Disk, lh: seq<nat>): (r: Disk)
    requires L.start < |d| && |lh| < WORDS
    requires forall i :: 0 <= i < |lh| ==> lh[i] < 0x1_0000_0000
  {
    d[L.start := PutHead(d[L.start], lh)]
  }

  function WriteSlot(L: Layout, d: Disk, t: nat, data: Block): (r: Disk)
    requires L.start + 1 + t < |d|
  {
    d[L.start + 1 + t := data]
  }

  function InstallSlot(L: Layout, d: Disk, lh: seq<nat>, t: nat): (r: Disk)
    requires t < |lh| && L.start + 1 + t < |d| && lh[t] < |d|
  {
    d[lh[t] := d[L.start + 1 + t]]
  }

  // ---- Header round trip ----

  lemma {:induction false} PutBlocksWord(b: Block, lh: seq<nat>, k: nat, j: nat)
    requires k <= |lh| < WORDS && j < WORDS
    requires forall i :: 0 <= i < |lh| ==> lh[i] < 0x1_0000_0000
    ensures GetWord(PutBlocks(b, lh, k), j) == if 1 <= j <= k then lh[j-1] else GetWord(b, j)
  {
    if k > 0 {
      PutBlocksWord(b, lh, k - 1, j);
      SetWordGetWord(PutBlocks(b, lh, k - 1), k, lh[k-1], j);
    }
  }

  /** read_head returns exactly what write_head stored, whatever the header block held before. */
  lemma HeadRoundTrip(L: Layout, d: Disk, lh: seq<nat>)
    requires L.Valid() && |d| == L.blocks && L.Fits(lh)
    ensures HeadCount(WriteHead(L, d, lh)[L.start]) == |lh|
    ensures Committed(L, WriteHead(L, d, lh)) == lh
  {
    var b := SetWord(d[L.start], 0, |lh|);
    SetWordGetWord(d[L.start], 0, |lh|, 0);
    PutBlocksWord(b, lh, |lh|, 0);
    forall i | 0 <= i < |lh|
      ensures GetWord(PutHead(d[L.start], lh), 1 + i) == lh[i]
    {
      PutBlocksWord(b, lh, |lh|, 1 + i);
    }
  }

  // ---- What Redo depends on ----

  lemma {:induction false} RedoSlot(L: Layout, d: Disk, lh: seq<nat>, t: nat)
    requires L.start + |lh| < |d| && t < |lh| && lh[t] < |d|
    requires forall i :: t < i < |lh| ==> lh[i] != lh[t]
    ensures Redo(L, d, lh, lh[t]) == d[L.start + 1 + t]
    decreases |lh|
  {
    if lh[|lh|-1] != lh[t] {
      assert lh[..|lh|-1][t] == lh[t];
      RedoSlot(L, d, lh[..|lh|-1], t);
    }
  }

  lemma {:induction false} RedoMiss(L: Layout, d: Disk, lh: seq<nat>, b: nat)
    requires L.start + |lh| < |d| && b < |d| && b !in lh
    ensures Redo(L, d, lh, b) == d[b]
    decreases |lh|
  {
    if |lh| > 0 {
      RedoMiss(L, d, lh[..|lh|-1], b);
    }
  }

  /** Redo of `b` reads only the log slots, and home block `b` itself when no slot names it. */
  lemma {:induction false} RedoFrame(L: Layout, d: Disk, e: Disk, lh: seq<nat>, b: nat)
    requires L.start + |lh| < |d| == |e| && b < |d|
    requires forall s :: L.start < s <= L.start + |lh| ==> d[s] == e[s]
    requires b !in lh ==> d[b] == e[b]
    ensures Redo(L, d, lh, b) == Redo(L, e, lh, b)
    decreases |lh|
  {
    if |lh| > 0 && lh[|lh|-1] != b {
      assert lh == lh[..|lh|-1] + [lh[|lh|-1]];
      RedoFrame(L, d, e, lh[..|lh|-1], b);
    } else if |lh| > 0 {
      assert d[L.start + |lh|] == e[L.start + |lh|];
    }
  }

  // ---- The effect of each write on what recovery would show ----

  /** Before the commit point the log slots are dead storage: writing them changes nothing. */
  lemma WriteSlotShows(L: Layout, d: Disk, h: Disk, t: nat, data: Block)
    requires Shows(L, d, h) && HeadCount(d[L.start]) == 0 && t + 1 < L.size
    ensures Shows(L, WriteSlot(L, d, t, data), h)
    ensures WriteSlot(L, d, t, data)[L.start] == d[L.start]
  {
  }

  /** Writing the header is the commit point: from here recovery shows the logged contents. */
  lemma WriteHeadShows(L: Layout, d: Disk, lh: seq<nat>, h: Disk)
    requires L.Valid() && |d| == |h| == L.blocks && L.Fits(lh)
    requires forall b: nat :: L.Home(b) ==> Redo(L, d, lh, b) == h[b]
    ensures Shows(L, WriteHead(L, d, lh), h)
    ensures Committed(L, WriteHead(L, d, lh)) == lh
  {
    var e := WriteHead(L, d, lh);
    HeadRoundTrip(L, d, lh);
    forall b: nat | L.Home(b)
      ensures Redo(L, e, lh, b) == h[b]
    {
      RedoFrame(L, d, e, lh, b);
    }
  }

  /** Installing a committed slot never changes what recovery shows, so it may be repeated after any crash. */
  lemma InstallShows(L: Layout, d: Disk, h: Disk, t: nat)
    requires Shows(L, d, h) && t < |Committed(L, d)|
    ensures Shows(L, InstallSlot(L, d, Committed(L, d), t), h)
    ensures InstallSlot(L, d, Committed(L, d), t)[L.start] == d[L.start]
  {
    var lh := Committed(L, d);
    var e := InstallSlot(L, d, lh, t);
    assert L.Home(lh[t]);
    forall b: nat | L.Home(b)
      ensures Redo(L, e, lh, b) == h[b]
    {
      RedoFrame(L, d, e, lh, b);
    }
  }

  /** Clearing the header is safe exactly when the home blocks already hold what recovery would show. */
  lemma ClearShows(L: Layout, d: Disk, h: Disk)
    requires L.Valid() && SameHome(L, d, h)
    ensures Shows(L, WriteHead(L, d, []), h)
    ensures Committed(L, WriteHead(L, d, [])) == []
  {
  }
}
