/** fs.c's block layer as it runs: balloc, bfree, bmap, itrunc, iupdate, ilock, readi and writei. */
module FileSystem {
  import opened Common
  import opened Blocks
  import opened Volume
  import opened Params

  datatype Outcome<+T> = Ok(value: T) | Panic

  const IPB := BSIZE / 64          // sizeof(struct dinode) is 64
  const T_DEV := 3
  const CHUNK := ((MAXOPBLOCKS - 1 - 1 - 2) / 2) * 512    // filewrite's `max`

  /** readi and writei: a device call (not modelled further), -1, a panic in balloc, or the transfer. */
  datatype Transfer<+T> = Device | Refused | Halted | Moved(value: T)

  /** A free inode (type 0) has no contents. */
  ghost predicate FreeInodesEmpty(core: seq<Inode>) {
    forall i :: 0 <= i < |core| && core[i].kind == 0 ==> core[i].size == 0
  }

  /** `a + b` in a `uint`. */
  function Add32(a: nat, b: nat): (r: nat) {
    (a + b) % UINT
  }

  /** writei's -1 cases, apart from devices: past the end, 32-bit overflow, or beyond the largest file. */
  predicate WriteRefused(size: nat, off: nat, n: nat) {
    off > size || off + n >= UINT || off + n > MAXFILE * BSIZE
  }

  /** How many blocks `n` bytes at offset `off` touch. */
  function Span(off: nat, n: nat): (t: nat)
    ensures n > 0 ==> t > 0
  {
    if n == 0 then 0 else (off + n - 1) / BSIZE - off / BSIZE + 1
  }

  /** How many blocks a file of `size` bytes has once `n` bytes are written at `off`. */
  function Extent(size: nat, off: nat, n: nat): (m: nat) {
    NBlocks(Max(size, off + n))
  }

  /** Between iterations writei has finished, not started, or is at the start of a block. */
  predicate AtBoundary(off: nat, tot: nat, n: nat) {
    tot == n || tot == 0 || (off + tot) % BSIZE == 0
  }

  /** How much of `n` bytes at offset `o` falls in the block `o` is in. */
  function ChunkLen(o: nat, n: nat): (m: nat) {
    if n < BSIZE - o % BSIZE then n else BSIZE - o % BSIZE
  }

  /** The arithmetic of one iteration of writei's loop. */
  lemma NextChunk(size: nat, off: nat, tot: nat, n: nat, p: nat, next: nat)
    requires off <= size && tot < n && off + n <= MAXFILE * BSIZE && AtBoundary(off, tot, n)
    requires p == ChunkLen(off + tot, n - tot) && next == tot + p
    ensures tot < next <= n && (off + tot) % BSIZE + p <= BSIZE
    ensures (off + tot) / BSIZE < MAXFILE && (off + tot) / BSIZE <= Extent(size, off, tot)
    ensures AtBoundary(off, next, n)
    ensures Span(off, next) == Span(off, tot) + 1
    ensures Extent(size, off, next) ==
            var m := Extent(size, off, tot); if (off + tot) / BSIZE < m then m else m + 1
  {
  }

  /** Distinct blocks one writei may log: the data blocks, a bitmap block per new block, the indirect block
      and its bitmap block, and the inode block. An unaligned start means the first block already exists. */
  function WriteCost(off: nat, n: nat): (c: int) {
    Span(off, n) + (Span(off, n) - if off % BSIZE != 0 then 1 else 0) + 3
  }

  /** A filewrite chunk costs at most MAXOPBLOCKS blocks, whatever its offset. */
  lemma ChunkFits(off: nat, n: nat)
    requires 0 < n <= CHUNK
    ensures WriteCost(off, n) <= MAXOPBLOCKS
  {
  }

  /** `h` accounts for a set of logged blocks: data, bitmap and indirect ones. */
  datatype Ledger = Ledger(data: set<nat>, bitmap: set<nat>, indirect: set<nat>) {
    ghost function All(): (s: set<nat>) {
      data + bitmap + indirect
    }

    /** After `t` blocks touched, growing the file from `m0` to `m` blocks. */
    ghost predicate Within(t: nat, m0: nat, m: nat) {
      && m0 <= m
      && |data| <= t
      && |bitmap| <= m - m0 + (if m0 <= NDIRECT < m then 1 else 0)
      && |indirect| <= if m0 < m then 1 else 0
    }
  }

  lemma UnionSize(a: set<nat>, b: set<nat>)
    ensures |a + b| <= |a| + |b|
  {
  }

  lemma Adjoin(s: set<nat>, a: nat, b: nat, c: nat)
    ensures s + {a, b} + {c} == s + {a, b, c}
  {
  }

  function BBlock(bm: nat, b: nat): (r: nat) {
    b / BPB + bm
  }

  /** The blocks bmap logs to fill slot `bn` of inode `i`. */
  ghost function BmapLog(bm: nat, v: Vol, w: Vol, i: nat, bn: nat): (s: set<nat>)
    requires Shape(v) && Shape(w) && i < |v.core| == |w.core| && bn < MAXFILE
  {
    var b, ind := AddrOf(w, i, bn), AddrOf(w, i, IND);
    if AddrOf(v, i, bn) != 0 then {}
    else if bn < NDIRECT then {BBlock(bm, b), b}
    else if AddrOf(v, i, IND) != 0 then {BBlock(bm, b), b, ind}
    else {BBlock(bm, ind), ind, BBlock(bm, b), b}
  }

  /** bmap past the direct blocks: an indirect block if there was none, then an entry if there was none. */
  lemma EntryGrown(bm: nat, v: Vol, u: Vol, w: Vol, i: nat, bn: nat, ind: nat, b: nat, isNew: bool)
    requires Shape(v) && Shape(u) && Shape(w) && i < |v.core| == |u.core| == |w.core| && NDIRECT <= bn < MAXFILE
    requires AddrOf(u, i, IND) == ind != 0
    requires isNew == (AddrOf(v, i, IND) == 0) && if isNew then Placed(v, u, Slot(i, IND), ind) else u == v
    requires if AddrOf(v, i, bn) == 0 then Placed(u, w, Slot(i, bn), b) else w == u
    ensures Grown(v, w, i, bn) && SameBytes(v, w)
    ensures BmapLog(bm, v, w, i, bn) == (if isNew then {BBlock(bm, ind), ind} else {})
                                        + (if AddrOf(v, i, bn) == 0 then {BBlock(bm, b), b, ind} else {})
  {
    if AddrOf(v, i, bn) == 0 {
      if isNew {
        PlacedTwiceGrown(v, u, w, i, bn, ind, b);
      } else {
        PlacedGrown(v, w, i, bn, b);
      }
    }
  }

  lemma BmapLogSame(bm: nat, v: Vol, u: Vol, w: Vol, i: nat, bn: nat)
    requires Shape(v) && Shape(u) && Shape(w) && i < |v.core| == |u.core| == |w.core| && bn < MAXFILE
    requires AddrOf(w, i, bn) == AddrOf(u, i, bn) && AddrOf(w, i, IND) == AddrOf(u, i, IND)
    ensures BmapLog(bm, v, w, i, bn) == BmapLog(bm, v, u, i, bn)
  {
  }

  /** The blocks itrunc has logged once it is past slot `s` of inode `i`: a bitmap block for every block freed. */
  ghost function TruncLog(bm: nat, v: Vol, i: nat, s: nat, before: set<nat>): (r: set<nat>)
    requires Shape(v) && i < |v.core| && s <= IND + 1
    ensures before <= r
  {
    if s == 0 then before
    else
      var was := TruncLog(bm, v, i, s - 1, before);
      if AddrOf(v, i, s - 1) == 0 then was else was + {BBlock(bm, AddrOf(v, i, s - 1))}
  }

  lemma {:induction false} TruncLogDirect(bm: nat, v: Vol, i: nat, s: nat, before: set<nat>)
    requires Shape(v) && i < |v.core| && NDIRECT <= s <= IND + 1 && AddrOf(v, i, IND) == 0
    ensures TruncLog(bm, v, i, s, before) == TruncLog(bm, v, i, NDIRECT, before)
  {
    if s > NDIRECT {
      TruncLogDirect(bm, v, i, s - 1, before);
      assert AddrOf(v, i, s - 1) == 0;
    }
  }

  /** What itrunc logs, by the blocks of the file: the bitmap blocks they have their bits in, and nothing else. */
  lemma {:induction false} TruncLogIs(bm: nat, v: Vol, i: nat, s: nat, before: set<nat>, b: nat)
    requires Shape(v) && i < |v.core| && s <= IND + 1
    ensures b in TruncLog(bm, v, i, s, before) <==>
              b in before || exists k :: 0 <= k < s && AddrOf(v, i, k) != 0 && BBlock(bm, AddrOf(v, i, k)) == b
  {
    if s > 0 {
      TruncLogIs(bm, v, i, s - 1, before, b);
    }
  }

  ghost function Interval(lo: nat, n: nat): (s: set<nat>)
    ensures |s| == n && forall b :: b in s <==> lo <= b < lo + n
  {
    if n == 0 then {} else Interval(lo, n - 1) + {lo + n - 1}
  }

  /** A freed block has its bit in one of the `n` bitmap blocks of the disk. */
  lemma TruncLogWithin(bm: nat, v: Vol, owner: map<nat, Slot>, i: nat, n: nat, b: nat)
    requires Owned(v, owner) && i < |v.core| && |v.used| <= n * BPB && b in TruncLog(bm, v, i, IND + 1, {})
    ensures bm <= b < bm + n
  {
    TruncLogIs(bm, v, i, IND + 1, {}, b);
    var k :| 0 <= k < IND + 1 && AddrOf(v, i, k) != 0 && BBlock(bm, AddrOf(v, i, k)) == b;
    assert Owns(v, owner[AddrOf(v, i, k)], AddrOf(v, i, k));
  }

  /** itrunc, and with it iput, logs the inode block and every bitmap block that has a bit of one of the file's blocks.
      So a transaction that does nothing else stays within its reservation exactly when these are fewer than
      MAXOPBLOCKS, as they are on every disk that has fewer bitmap blocks than that. */
  lemma TruncCost(bm: nat, v: Vol, owner: map<nat, Slot>, i: nat, inode: nat, n: nat)
    requires Owned(v, owner) && i < |v.core| && inode < bm && |v.used| <= n * BPB
    ensures var r := TruncLog(bm, v, i, IND + 1, {});
            |r| <= n && (|r + {inode}| <= MAXOPBLOCKS <==> |r| < MAXOPBLOCKS)
  {
    var r := TruncLog(bm, v, i, IND + 1, {});
    forall b | b in r
      ensures bm <= b < bm + n
    {
      TruncLogWithin(bm, v, owner, i, n, b);
    }
    assert |r + {inode}| == |r| + 1;
    SubsetSize(r, Interval(bm, n));
  }

  /** The ledger after one more chunk. */
  ghost function Enter(bm: nat, l: Ledger, v: Vol, w: Vol, i: nat, bn: nat): (r: Ledger)
    requires Shape(v) && Shape(w) && i < |v.core| == |w.core| && bn < MAXFILE
  {
    var b, ind := AddrOf(w, i, bn), AddrOf(w, i, IND);
    if AddrOf(v, i, bn) != 0 then l.(data := l.data + {b})
    else if bn < NDIRECT then l.(data := l.data + {b}, bitmap := l.bitmap + {BBlock(bm, b)})
    else if AddrOf(v, i, IND) != 0 then
      l.(data := l.data + {b}, bitmap := l.bitmap + {BBlock(bm, b)}, indirect := l.indirect + {ind})
    else
      l.(data := l.data + {b}, bitmap := l.bitmap + {BBlock(bm, b), BBlock(bm, ind)}, indirect := l.indirect + {ind})
  }

  lemma EnterAll(bm: nat, l: Ledger, v: Vol, w: Vol, i: nat, bn: nat, base: set<nat>)
    requires Shape(v) && Shape(w) && i < |v.core| == |w.core| && bn < MAXFILE
    ensures base + l.All() + BmapLog(bm, v, w, i, bn) + {AddrOf(w, i, bn)} == base + Enter(bm, l, v, w, i, bn).All()
  {
  }

  lemma EnterWithin(bm: nat, l: Ledger, v: Vol, w: Vol, i: nat, bn: nat, t: nat, t': nat, m0: nat, m: nat, m': nat)
    requires Grown(v, w, i, bn) && Mapped(v, i, m) && bn <= m && LedgerOK(l, v, i, t, m0, m)
    requires t' == t + 1 && m' == if bn < m then m else m + 1
    ensures LedgerOK(Enter(bm, l, v, w, i, bn), w, i, t', m0, m')
  {
  }

  /** After touching `t` blocks and growing the file from `m0` to `m` blocks, `l` is within bounds. */
  ghost predicate LedgerOK(l: Ledger, w: Vol, i: nat, t: nat, m0: nat, m: nat)
    requires Shape(w) && i < |w.core|
  {
    l.Within(t, m0, m) && forall b :: b in l.indirect ==> AddrOf(w, i, IND) == b != 0
  }

  /** What a write may log in all; nothing when it writes nothing. */
  function Cost(off: nat, n: nat): (c: int) {
    if n == 0 then 0 else WriteCost(off, n)
  }

  /** The blocks a write adds stay within its cost. */
  lemma LedgerCost(l: Ledger, size: nat, off: nat, n: nat, base: set<nat>, inode: nat)
    requires l.Within(Span(off, n), NBlocks(size), Extent(size, off, n)) && off <= size
    ensures |base + l.All()| <= |base| + Cost(off, n)
    ensures n > 0 ==> |base + l.All() + {inode}| <= |base| + Cost(off, n)
  {
    UnionSize(l.data, l.bitmap);
    UnionSize(l.data + l.bitmap, l.indirect);
    UnionSize(base, l.All());
    UnionSize(base + l.All(), {inode});
    if n > 0 {
      NewBlocks(size, off, n);
    }
  }

  lemma NewBlocks(size: nat, off: nat, n: nat)
    requires off <= size && 0 < n
    ensures NBlocks(Max(size, off + n)) - NBlocks(size) <= Span(off, n) - if off % BSIZE != 0 then 1 else 0
  {
  }

  class FileSystem {
    const bmapstart: nat
    const inodestart: nat
    const ds: nat                  // first data block
    var used: seq<bool>
    var data: seq<Block>
    var core: seq<Inode>
    var dinodes: seq<Inode>        // the copies in the inode blocks
    ghost var owner: map<nat, Slot>
    ghost var logged: set<nat>     // blocks given to log_write in the current transaction

    ghost function V(): (v: Vol)
      reads this
    {
      Vol(used, data, core)
    }

    function IBlock(i: nat): (r: nat) {
      i / IPB + inodestart
    }

    /** Ownership, with `hand` allocated but not yet placed. */
    ghost predicate Sound(hand: set<nat>)
      reads this
    {
      Owned(V(), owner) && Accounted(V(), owner, ds, hand) && |dinodes| == |core|
    }

    ghost predicate Valid()
      reads this
    {
      Sound({}) && NoHoles(V()) && FreeInodesEmpty(core)
    }

    /** Every inode block agrees with the cached inode, as it must whenever the inode is unlocked. */
    ghost predicate WriteThrough()
      reads this
    {
      dinodes == core
    }

    /** An inode that is free on disk is free in core: InodeCache.Marked shows that no cache entry says otherwise. */
    ghost predicate FreeAgree()
      reads this
    {
      |dinodes| == |core| && forall i :: 0 <= i < |core| && dinodes[i].kind == 0 ==> core[i].kind == 0
    }

    /** balloc: the lowest free block, zeroed; panics exactly when none is free. */
    method Balloc() returns (r: Outcome<nat>)
      requires |used| == |data|
      modifies `used, `data, `logged
      ensures r == Panic <==> forall b :: 0 <= b < |old(used)| ==> old(used)[b]
      ensures r == Panic ==> V() == old(V()) && logged == old(logged)
      ensures r.Ok? ==> r.value < |old(used)| && !old(used)[r.value] && V() == MarkUsed(old(V()), r.value)
      ensures r.Ok? ==> forall b :: 0 <= b < r.value ==> old(used)[b]
      ensures r.Ok? ==> logged == old(logged) + {BBlock(bmapstart, r.value), r.value}
    {
      var b := 0;
      while b < |used|
        invariant 0 <= b && b % BPB == 0
        invariant V() == old(V()) && logged == old(logged)
        invariant forall c :: 0 <= c < |used| && c < b ==> used[c]
      {
        var bi := 0;
        while bi < BPB && b + bi < |used|
          invariant 0 <= bi <= BPB
          invariant V() == old(V()) && logged == old(logged)
          invariant forall c :: 0 <= c < |used| && c < b + bi ==> used[c]
        {
          if !used[b + bi] {
            used := used[b + bi := true];
            logged := logged + {BBlock(bmapstart, b)};
            BitmapBlock(b, bi);
            data := data[b + bi := ZeroBlock()];
            logged := logged + {b + bi};
            return Ok(b + bi);
          }
          bi := bi + 1;
        }
        b := b + BPB;
      }
      return Panic;
    }

    lemma BitmapBlock(b: nat, bi: nat)
      requires b % BPB == 0 && bi < BPB
      ensures BBlock(bmapstart, b) == BBlock(bmapstart, b + bi)
    {
    }

    /** bfree: panics exactly when the block is already free. */
    method Bfree(b: nat) returns (r: Outcome<()>)
      requires b < |used|
      modifies `used, `logged
      ensures r == Panic <==> !old(used)[b]
      ensures r == Panic ==> used == old(used) && logged == old(logged)
      ensures r.Ok? ==> used == old(used)[b := false] && logged == old(logged) + {BBlock(bmapstart, b)}
    {
      if !used[b] {
        return Panic;
      }
      used := used[b := false];
      logged := logged + {BBlock(bmapstart, b)};
      return Ok(());
    }

    /** balloc followed by the store of the new address in `addrs[n]`. */
    method AllocAddr(i: nat, n: nat, ghost s: nat) returns (r: Outcome<nat>)
      requires Sound({}) && i < |core| && n <= NDIRECT && s == (if n < NDIRECT then n else IND)
      requires core[i].addrs[n] == 0
      modifies `used, `data, `core, `owner, `logged
      ensures r == Panic ==> forall b :: 0 <= b < |used| ==> used[b]
      ensures r.Ok? ==> Sound({}) && Placed(old(V()), V(), Slot(i, s), r.value)
      ensures r.Ok? ==> logged == old(logged) + {BBlock(bmapstart, r.value), r.value}
    {
      r := Balloc();
      if r.Ok? {
        var b := r.value;
        PlaceAddr(old(V()), owner, ds, i, n, b);
        core := core[i := core[i].(addrs := core[i].addrs[n := b])];
        owner := owner[b := Slot(i, s)];
        assert V() == PutAddr(MarkUsed(old(V()), b), i, n, b);
      }
    }

    /** balloc followed by the store of the new address in the indirect block. */
    method AllocEntry(i: nat, j: nat, ghost s: nat) returns (r: Outcome<nat>)
      requires Sound({}) && i < |core| && j < NINDIRECT && s == NDIRECT + j
      requires AddrOf(V(), i, IND) != 0 && AddrOf(V(), i, s) == 0
      modifies `used, `data, `owner, `logged
      ensures r == Panic ==> forall b :: 0 <= b < |used| ==> used[b]
      ensures r.Ok? ==> Sound({}) && Placed(old(V()), V(), Slot(i, s), r.value)
      ensures r.Ok? ==> logged == old(logged) + {BBlock(bmapstart, r.value), r.value, AddrOf(old(V()), i, IND)}
    {
      ghost var v := V();
      r := Balloc();
      if r.Ok? {
        Adjoin(old(logged), BBlock(bmapstart, r.value), r.value, AddrOf(v, i, IND));
        SetEntry(i, j, s, r.value, v);
      }
    }

    /** The store of a new address in the indirect block. */
    method SetEntry(i: nat, j: nat, ghost s: nat, b: nat, ghost v: Vol)
      requires Owned(v, owner) && Accounted(v, owner, ds, {}) && |dinodes| == |core| && b < |v.used| && !v.used[b]
      requires i < |v.core| && j < NINDIRECT && s == NDIRECT + j && AddrOf(v, i, IND) != 0 && AddrOf(v, i, s) == 0
      requires |v.used| == |v.data| && V() == MarkUsed(v, b)
      modifies `data, `owner, `logged
      ensures Sound({}) && Placed(v, V(), Slot(i, s), b) && logged == old(logged) + {AddrOf(v, i, IND)}
    {
      var ind := core[i].addrs[NDIRECT];
      PlaceEntry(v, owner, ds, i, j, s, b);
      data := data[ind := SetWord(data[ind], j, b)];
      logged := logged + {ind};
      owner := owner[b := Slot(i, s)];
      assert V() == WithEntry(v, ind, j, b);
    }

    /** bmap: the disk block holding block `bn` of the file, allocated if there is none.
        It panics only past MAXFILE or when every block is in use. */
    method Bmap(i: nat, bn: nat) returns (r: Outcome<nat>)
      requires Sound({}) && i < |core|
      modifies `used, `data, `core, `owner, `logged
      ensures r == Panic ==> bn >= MAXFILE || forall b :: 0 <= b < |used| ==> used[b]
      ensures r.Ok? ==> Sound({}) && Grown(old(V()), V(), i, bn) && r.value == AddrOf(V(), i, bn) < |data|
      ensures r.Ok? ==> SameBytes(old(V()), V())
      ensures r.Ok? ==> logged == old(logged) + BmapLog(bmapstart, old(V()), V(), i, bn)
      ensures bn < MAXFILE && AddrOf(old(V()), i, bn) != 0 ==> r.Ok? && V() == old(V()) && owner == old(owner)
    {
      if bn < NDIRECT {
        var addr := core[i].addrs[bn];
        if addr == 0 {
          r := AllocAddr(i, bn, bn);
          if r.Ok? {
            PlacedGrown(old(V()), V(), i, bn, r.value);
          }
          return;
        }
        assert Owns(V(), owner[AddrOf(V(), i, bn)], addr);
        return Ok(addr);
      }
      var j := bn - NDIRECT;
      if j < NINDIRECT {
        r := BmapIndirect(i, j, bn);
        return;
      }
      return Panic;
    }

    /** The indirect block of an inode, allocated if there is none. */
    method Indirect(i: nat) returns (r: Outcome<nat>, ghost fresh': bool)
      requires Sound({}) && i < |core|
      modifies `used, `data, `core, `owner, `logged
      ensures r == Panic ==> forall b :: 0 <= b < |used| ==> used[b]
      ensures r.Ok? ==> Sound({}) && |core| == |old(core)| && AddrOf(V(), i, IND) == r.value != 0 && r.value < |data|
      ensures fresh' == (AddrOf(old(V()), i, IND) == 0)
      ensures !fresh' ==> r.Ok? && V() == old(V()) && owner == old(owner) && logged == old(logged)
      ensures fresh' && r.Ok? ==> Placed(old(V()), V(), Slot(i, IND), r.value)
      ensures fresh' && r.Ok? ==> logged == old(logged) + {BBlock(bmapstart, r.value), r.value}
    {
      var ind := core[i].addrs[NDIRECT];
      fresh' := ind == 0;
      if ind == 0 {
        r := AllocAddr(i, NDIRECT, IND);
      } else {
        r := Ok(ind);
      }
      if r.Ok? {
        assert Owns(V(), owner[AddrOf(V(), i, IND)], r.value);
      }
    }

    method BmapIndirect(i: nat, j: nat, ghost bn: nat) returns (r: Outcome<nat>)
      requires Sound({}) && i < |core| && j < NINDIRECT && bn == NDIRECT + j
      modifies `used, `data, `core, `owner, `logged
      ensures r == Panic ==> forall b :: 0 <= b < |used| ==> used[b]
      ensures r.Ok? ==> Sound({}) && Grown(old(V()), V(), i, bn) && r.value == AddrOf(V(), i, bn) < |data|
      ensures r.Ok? ==> SameBytes(old(V()), V())
      ensures r.Ok? ==> logged == old(logged) + BmapLog(bmapstart, old(V()), V(), i, bn)
      ensures AddrOf(old(V()), i, bn) != 0 ==> r.Ok? && V() == old(V()) && owner == old(owner)
    {
      ghost var v := V();
      ghost var isNew;
      r, isNew := Indirect(i);
      if r.Ok? {
        ghost var u, ind := V(), r.value;
        assert AddrOf(u, i, bn) == AddrOf(v, i, bn);
        r := Entry(i, j, bn);
        if r.Ok? {
          EntryGrown(bmapstart, v, u, V(), i, bn, ind, r.value, isNew);
        }
      }
    }

    /** An entry of an indirect block that is there, allocated if it is zero. */
    method Entry(i: nat, j: nat, ghost bn: nat) returns (r: Outcome<nat>)
      requires Sound({}) && i < |core| && j < NINDIRECT && bn == NDIRECT + j && AddrOf(V(), i, IND) != 0
      modifies `used, `data, `owner, `logged
      ensures r == Panic ==> forall b :: 0 <= b < |used| ==> used[b]
      ensures r.Ok? ==> Sound({}) && r.value == AddrOf(V(), i, bn) < |data|
      ensures AddrOf(old(V()), i, bn) != 0 ==> r.Ok? && V() == old(V()) && owner == old(owner) && logged == old(logged)
      ensures AddrOf(old(V()), i, bn) == 0 && r.Ok? ==> Placed(old(V()), V(), Slot(i, bn), r.value)
      ensures AddrOf(old(V()), i, bn) == 0 && r.Ok? ==>
                logged == old(logged) + {BBlock(bmapstart, r.value), r.value, AddrOf(old(V()), i, IND)}
    {
      assert Owns(V(), owner[AddrOf(V(), i, IND)], AddrOf(V(), i, IND));
      var addr := GetWord(data[core[i].addrs[NDIRECT]], j);
      if addr == 0 {
        r := AllocEntry(i, j, bn);
      } else {
        assert Owns(V(), owner[AddrOf(V(), i, bn)], addr);
        r := Ok(addr);
      }
    }

    /** iupdate: the inode block gets the in-core copy. */
    method Iupdate(i: nat)
      requires i < |core| == |dinodes|
      modifies `dinodes, `logged
      ensures dinodes == old(dinodes)[i := core[i]]
      ensures logged == old(logged) + {IBlock(i)}
    {
      dinodes := dinodes[i := core[i]];
      logged := logged + {IBlock(i)};
    }

    /** The half of itrunc that walks `addrs`. */
    method FreeDirect(i: nat) returns (ok: bool)
      requires Owned(V(), owner) && i < |core|
      modifies `used, `core, `logged
      ensures ok && Cleared(old(V()), V(), i, NDIRECT) && FreedBelow(old(V()), used, owner, i, NDIRECT)
      ensures logged == TruncLog(bmapstart, old(V()), i, NDIRECT, old(logged))
    {
      ghost var v := V();
      var k := 0;
      ok := true;
      while k < NDIRECT
        invariant 0 <= k <= NDIRECT && ok
        invariant Cleared(v, V(), i, k) && FreedBelow(v, used, owner, i, k)
        invariant logged == TruncLog(bmapstart, v, i, k, old(logged))
      {
        FreeNext(v, used, owner, i, k, k + 1);
        ghost var w := V();
        if core[i].addrs[k] != 0 {
          var x := Bfree(core[i].addrs[k]);
          ok := ok && x.Ok?;
          core := core[i := core[i].(addrs := core[i].addrs[k := 0])];
        }
        ClearNext(v, w, i, k, used);
        k := k + 1;
      }
    }

    /** The half of itrunc that walks the indirect block. */
    method FreeIndirect(i: nat, ghost v: Vol, ghost before: set<nat>) returns (ok: bool)
      requires Owned(v, owner) && Cleared(v, V(), i, NDIRECT) && FreedBelow(v, used, owner, i, NDIRECT)
      requires core[i].addrs[NDIRECT] != 0 && logged == TruncLog(bmapstart, v, i, NDIRECT, before)
      modifies `used, `core, `logged
      ensures ok && Cleared(v, V(), i, NDIRECT + 1) && FreedBelow(v, used, owner, i, IND + 1)
      ensures logged == TruncLog(bmapstart, v, i, IND + 1, before)
    {
      ok := FreeListed(i, v, core[i].addrs[NDIRECT], before);
      ClearNext(v, old(V()), i, NDIRECT, used);
      core := core[i := core[i].(addrs := core[i].addrs[NDIRECT := 0])];
    }

    /** The indirect block `ind` of inode `i` and every block it names. */
    method FreeListed(i: nat, ghost v: Vol, ind: nat, ghost before: set<nat>) returns (ok: bool)
      requires Owned(v, owner) && i < |v.core| && data == v.data && ind == AddrOf(v, i, IND) != 0
      requires FreedBelow(v, used, owner, i, NDIRECT) && logged == TruncLog(bmapstart, v, i, NDIRECT, before)
      modifies `used, `logged
      ensures ok && FreedBelow(v, used, owner, i, IND + 1) && logged == TruncLog(bmapstart, v, i, IND + 1, before)
    {
      assert Owns(v, owner[AddrOf(v, i, IND)], ind);
      ok := FreeEntries(i, v, data[ind], before);
      var x := FreeSlot(i, v, IND, IND + 1, ind, before);
      ok := ok && x;
    }

    /** Every block the indirect block `a` of inode `i` names. */
    method FreeEntries(i: nat, ghost v: Vol, a: Block, ghost before: set<nat>) returns (ok: bool)
      requires Owned(v, owner) && i < |v.core| && FreedBelow(v, used, owner, i, NDIRECT)
      requires forall j, s :: 0 <= j < NINDIRECT && s == NDIRECT + j ==> AddrOf(v, i, s) == GetWord(a, j)
      requires logged == TruncLog(bmapstart, v, i, NDIRECT, before)
      modifies `used, `logged
      ensures ok && FreedBelow(v, used, owner, i, IND)
      ensures logged == TruncLog(bmapstart, v, i, IND, before)
    {
      ok := true;
      var j := 0;
      ghost var s := NDIRECT;
      while j < NINDIRECT
        invariant 0 <= j <= NINDIRECT && ok && s == NDIRECT + j && FreedBelow(v, used, owner, i, s)
        invariant logged == TruncLog(bmapstart, v, i, s, before)
      {
        var x := FreeSlot(i, v, s, s + 1, GetWord(a, j), before);
        ok := ok && x;
        j, s := j + 1, s + 1;
      }
    }

    /** The block `a` in slot `s` of inode `i`, if there is one. */
    method FreeSlot(i: nat, ghost v: Vol, ghost s: nat, ghost next: nat, a: nat, ghost before: set<nat>)
      returns (ok: bool)
      requires Owned(v, owner) && i < |v.core| && next == s + 1 <= IND + 1 && FreedBelow(v, used, owner, i, s)
      requires a == AddrOf(v, i, s) && logged == TruncLog(bmapstart, v, i, s, before)
      modifies `used, `logged
      ensures ok && FreedBelow(v, used, owner, i, next) && logged == TruncLog(bmapstart, v, i, next, before)
    {
      FreeNext(v, used, owner, i, s, next);
      ok := true;
      if a != 0 {
        var x := Bfree(a);
        ok := x.Ok?;
      }
    }

    /** itrunc: frees exactly the inode's blocks. `ok` says that no bfree panicked. */
    method Itrunc(i: nat) returns (ok: bool)
      requires Sound({}) && i < |core|
      modifies `used, `core, `dinodes, `owner, `logged
      ensures ok && Sound({}) && Truncated(old(V()), V(), i) && owner == Without(old(owner), i)
      ensures dinodes == old(dinodes)[i := core[i]]
      ensures logged == TruncLog(bmapstart, old(V()), i, IND + 1, old(logged)) + {IBlock(i)}
    {
      ghost var v := V();
      ok := FreeAll(i);
      FreedTruncated(v, V(), owner, i);
      core := core[i := core[i].(size := 0)];
      TruncatedOwned(v, V(), owner, ds, i);
      owner := Without(owner, i);
      Iupdate(i);
    }

    /** The part of itrunc that frees blocks. */
    method FreeAll(i: nat) returns (ok: bool)
      requires Owned(V(), owner) && i < |core|
      modifies `used, `core, `logged
      ensures ok && Cleared(old(V()), V(), i, NDIRECT + 1) && FreedBelow(old(V()), used, owner, i, IND + 1)
      ensures logged == TruncLog(bmapstart, old(V()), i, IND + 1, old(logged))
    {
      ghost var v := V();
      ok := FreeDirect(i);
      if core[i].addrs[NDIRECT] != 0 {
        var rest := FreeIndirect(i, v, old(logged));
        ok := ok && rest;
      } else {
        FreeNone(v, used, owner, i, NDIRECT);
        TruncLogDirect(bmapstart, v, i, IND + 1, old(logged));
        ClearNext(v, V(), i, NDIRECT, used);
      }
    }

    /** One iteration of readi's loop: `m` bytes from within one mapped block. */
    method ReadChunk(i: nat, off: nat, m: nat) returns (piece: seq<Byte>)
      requires Sound({}) && i < |core| && off / BSIZE < MAXFILE && off % BSIZE + m <= BSIZE
      requires AddrOf(V(), i, off / BSIZE) != 0
      modifies `used, `data, `core, `owner, `logged
      ensures V() == old(V()) && owner == old(owner) && logged == old(logged)
      ensures off + m <= MAXFILE * BSIZE && piece == Part(File(V(), i), off, m)
    {
      var b := Bmap(i, off / BSIZE);
      piece := data[b.value][off % BSIZE..off % BSIZE + m];
      ChunkBytes(V(), i, off, piece);
    }

    /** readi: min(n, size - off) bytes from the file, allocating nothing. */
    method Readi(i: nat, off: nat, n: nat) returns (r: Transfer<seq<Byte>>)
      requires Valid() && i < |core| && off < UINT && n < UINT
      modifies `used, `data, `core, `owner, `logged
      ensures V() == old(V()) && owner == old(owner) && logged == old(logged)
      ensures r == Device <==> core[i].kind == T_DEV
      ensures r == Refused <==> core[i].kind != T_DEV && (off > core[i].size || off + n >= UINT)
      ensures r != Halted
      ensures r.Moved? ==> |r.value| == if off + n > core[i].size then core[i].size - off else n
      ensures r.Moved? ==> off + |r.value| <= MAXFILE * BSIZE && r.value == Part(File(V(), i), off, |r.value|)
    {
      if core[i].kind == T_DEV {
        return Device;
      }
      if off > core[i].size || Add32(off, n) < off {
        return Refused;
      }
      var n' := if off + n > core[i].size then core[i].size - off else n;
      ghost var v := V();
      assert Mapped(v, i, NBlocks(core[i].size));
      var tot, dst := 0, [];
      while tot < n'
        invariant 0 <= tot <= n' && off + n' <= MAXFILE * BSIZE
        invariant V() == v && owner == old(owner) && logged == old(logged)
        invariant dst == Part(File(v, i), off, tot)
      {
        var o := off + tot;
        assert o / BSIZE < NBlocks(v.core[i].size);
        var m := ChunkLen(o, n' - tot);
        var piece := ReadChunk(i, o, m);
        var next := tot + m;
        PartMore(File(v, i), off, tot, o, m, next);
        dst, tot := dst + piece, next;
      }
      return Moved(dst);
    }

    /** One iteration of writei's loop: the part of the write that falls in one block. */
    method WriteChunk(i: nat, off: nat, bn: nat, piece: seq<Byte>) returns (r: Outcome<()>)
      requires Sound({}) && i < |core| && bn == off / BSIZE && bn < MAXFILE && off % BSIZE + |piece| <= BSIZE
      modifies `used, `data, `core, `owner, `logged
      ensures r == Panic ==> forall b :: 0 <= b < |used| ==> used[b]
      ensures r.Ok? ==> Sound({}) && Grown(old(V()), V(), i, bn) && Spliced(old(V()), V(), i, off, piece)
      ensures r.Ok? ==> logged == old(logged) + BmapLog(bmapstart, old(V()), V(), i, bn) + {AddrOf(V(), i, bn)}
    {
      var b := Bmap(i, bn);
      if b == Panic {
        return Panic;
      }
      ghost var u := V();
      PatchKeeps(old(V()), u, owner, ds, i, off, bn, piece);
      ghost var w := PutBlock(u, b.value, Patch(u.data[b.value], off % BSIZE, piece));
      BmapLogSame(bmapstart, old(V()), u, w, i, bn);
      data := data[b.value := Patch(data[b.value], off % BSIZE, piece)];
      logged := logged + {b.value};
      assert V() == w;
      return Ok(());
    }
  
    /** Where writei stands after writing `src`: `t` blocks touched, `m` blocks mapped, `l` logged. */
    ghost predicate Progress(v: Vol, base: set<nat>, i: nat, off: nat, src: seq<Byte>, l: Ledger, t: nat, m0: nat,
                             m: nat)
      reads this
    {
      && Sound({}) && Written(v, V(), i, off, src) && Mapped(V(), i, m)
      && LedgerOK(l, V(), i, t, m0, m) && logged == base + l.All()
    }

    /** One iteration of writei's loop, which brings `tot` to `next`. */
    method WriteNext(i: nat, off: nat, src: seq<Byte>, tot: nat, next: nat, bn: nat,
                     ghost v: Vol, ghost base: set<nat>, ghost l: Ledger,
                     ghost t: nat, ghost t': nat, ghost m0: nat, ghost m: nat, ghost m': nat)
      returns (r: Outcome<()>, ghost l': Ledger)
      requires i < |core| && tot <= next <= |src| && Progress(v, base, i, off, src[..tot], l, t, m0, m)
      requires bn == (off + tot) / BSIZE && bn < MAXFILE && bn <= m && (off + tot) % BSIZE + (next - tot) <= BSIZE
      requires t' == t + 1 && m' == if bn < m then m else m + 1
      modifies `used, `data, `core, `owner, `logged
      ensures r == Panic ==> forall b :: 0 <= b < |used| ==> used[b]
      ensures r.Ok? ==> i < |core| && Progress(v, base, i, off, src[..next], l', t', m0, m')
    {
      ghost var u := V();
      var piece := src[tot..next];
      var o := off + tot;
      r := WriteChunk(i, o, bn, piece);
      l' := l;
      if r.Ok? {
        PrefixMore(src, tot, next);
        WrittenMore(v, u, V(), i, off, src[..tot], o, piece, src[..next], bn, m, m');
        EnterWithin(bmapstart, l, u, V(), i, bn, t, t', m0, m, m');
        EnterAll(bmapstart, l, u, V(), i, bn, base);
        l' := Enter(bmapstart, l, u, V(), i, bn);
      }
    }

    /** What a completed writei of `src` at `off` leaves, from volume `v`, inode blocks `din` and transaction `base`:
        the bytes spliced in, no holes, nothing else changed, the disk inode current if it was, and a bounded log. */
    ghost predicate Done(v: Vol, din: seq<Inode>, base: set<nat>, i: nat, off: nat, src: seq<Byte>, end: nat)
      reads this
    {
      && Valid() && Spliced(v, V(), i, off, src) && |core| == |v.core| == |din| && end < UINT
      && core[i].(addrs := []) == v.core[i].(addrs := [], size := Max(v.core[i].size, end))
      && (forall j :: 0 <= j < |core| && j != i ==> core[j] == v.core[j] && dinodes[j] == din[j])
      && (din[i] == v.core[i] ==> dinodes[i] == core[i])
      && (din == v.core ==> WriteThrough())
      && |logged| <= |base| + Cost(off, |src|)
    }

    /** writei's tail is about to run: everything is written and logged, only size and inode block remain. */
    ghost predicate Ready(v: Vol, base: set<nat>, i: nat, off: nat, src: seq<Byte>, end: nat, l: Ledger, m: nat)
      reads this
    {
      && i < |core| && Shape(v) && i < |v.core| && off <= v.core[i].size && end == off + |src| < UINT
      && Progress(v, base, i, off, src, l, Span(off, |src|), NBlocks(v.core[i].size), m)
      && NoHoles(v) && FreeInodesEmpty(v.core) && v.core[i].kind != 0 && m == Extent(v.core[i].size, off, |src|)
    }

    /** The tail of writei: the size and, when it grew, the inode block. */
    method FinishWrite(i: nat, off: nat, src: seq<Byte>, end: nat, ghost v: Vol, ghost base: set<nat>, ghost l: Ledger,
                       ghost m: nat)
      requires Ready(v, base, i, off, src, end, l, m)
      modifies `core, `dinodes, `logged
      ensures Done(v, old(dinodes), base, i, off, src, end)
    {
      if |src| > 0 && end > core[i].size {
        FinishGrowing(i, off, src, end, v, base, l, m);
      } else {
        FinishInPlace(i, off, src, end, v, base, l, m);
      }
    }

    lemma FinishInPlace(i: nat, off: nat, src: seq<Byte>, end: nat, v: Vol, base: set<nat>, l: Ledger, m: nat)
      requires Ready(v, base, i, off, src, end, l, m) && !(|src| > 0 && end > core[i].size)
      ensures Done(v, dinodes, base, i, off, src, end)
    {
      LedgerCost(l, v.core[i].size, off, |src|, base, IBlock(i));
      OverwriteKeepsInode(v, V(), i, off, src, m);
    }

    method FinishGrowing(i: nat, off: nat, src: seq<Byte>, end: nat, ghost v: Vol, ghost base: set<nat>,
                         ghost l: Ledger, ghost m: nat)
      requires Ready(v, base, i, off, src, end, l, m) && |src| > 0 && end > core[i].size
      modifies `core, `dinodes, `logged
      ensures Done(v, old(dinodes), base, i, off, src, end)
    {
      LedgerCost(l, v.core[i].size, off, |src|, base, IBlock(i));
      ghost var c := core;
      assert c[i].(addrs := []) == v.core[i].(addrs := []);
      Grow(i, off, src, end, v, m);
      GrownIsDone(v, old(dinodes), base, i, off, src, end, c);
    }

    lemma GrownIsDone(v: Vol, din: seq<Inode>, base: set<nat>, i: nat, off: nat, src: seq<Byte>, end: nat,
                      c: seq<Inode>)
      requires Valid() && Spliced(v, V(), i, off, src) && i < |c| == |v.core| == |din| && end < UINT
      requires c[i].(addrs := []) == v.core[i].(addrs := []) && end > c[i].size
      requires forall j :: 0 <= j < |c| && j != i ==> c[j] == v.core[j]
      requires core == c[i := c[i].(size := end)] && dinodes == din[i := core[i]]
      requires |logged| <= |base| + Cost(off, |src|)
      ensures Done(v, din, base, i, off, src, end)
    {
    }

    /** writei's size update. */
    method Grow(i: nat, off: nat, src: seq<Byte>, end: nat, ghost v: Vol, ghost m: nat)
      requires Sound({}) && i < |core| && Written(v, V(), i, off, src) && Mapped(V(), i, m) && m == NBlocks(end)
      requires end < UINT
      requires FreeInodesEmpty(v.core) && v.core[i].kind != 0
      modifies `core, `dinodes, `logged
      ensures Valid() && Spliced(v, V(), i, off, src) && core == old(core)[i := old(core)[i].(size := end)]
      ensures dinodes == old(dinodes)[i := core[i]] && logged == old(logged) + {IBlock(i)}
    {
      GrowKeepsNoHoles(v, V(), owner, ds, i, off, src, end, m);
      core := core[i := core[i].(size := end)];
      Iupdate(i);
      assert V() == old(V()).(core := core);
    }

    /** writei: splices `src` into the file at `off`, growing it as needed and no further.
        The inode on disk is brought up to date, and at most Cost blocks join the transaction. */
    method Writei(i: nat, src: seq<Byte>, off: nat) returns (r: Transfer<nat>)
      requires Valid() && i < |core| && core[i].kind != 0 && off < UINT && |src| < UINT    // ilock refuses type 0
      modifies `used, `data, `core, `dinodes, `owner, `logged
      ensures r == Device <==> old(core)[i].kind == T_DEV
      ensures r == Refused <==> old(core)[i].kind != T_DEV && WriteRefused(old(core)[i].size, off, |src|)
      ensures r == Device || r == Refused ==>
                V() == old(V()) && owner == old(owner) && dinodes == old(dinodes) && logged == old(logged)
      ensures r == Halted ==> forall b :: 0 <= b < |used| ==> used[b]
      ensures r.Moved? ==> r.value == |src|
      ensures r.Moved? ==> Done(old(V()), old(dinodes), old(logged), i, off, src, off + |src|)
    {
      if core[i].kind == T_DEV {
        return Device;
      }
      var n := |src|;
      if off > core[i].size || Add32(off, n) < off {
        return Refused;
      }
      if off + n > MAXFILE * BSIZE {
        return Refused;
      }
      var ok := WriteAll(i, src, off);
      return if ok then Moved(n) else Halted;
    }

    /** The invariant of writei's loop: `tot` bytes are written and the next ones start a block. */
    ghost predicate Loop(v: Vol, base: set<nat>, i: nat, off: nat, src: seq<Byte>, tot: nat, l: Ledger)
      reads this
    {
      && i < |core| && Shape(v) && i < |v.core| && off <= v.core[i].size && off + |src| <= MAXFILE * BSIZE
      && tot <= |src|
      && AtBoundary(off, tot, |src|)
      && Progress(v, base, i, off, src[..tot], l, Span(off, tot), NBlocks(v.core[i].size),
                  Extent(v.core[i].size, off, tot))
    }

    lemma StartLoop(i: nat, off: nat, src: seq<Byte>)
      requires Valid() && i < |core| && off <= core[i].size && off + |src| <= MAXFILE * BSIZE
      ensures Loop(V(), logged, i, off, src, 0, Ledger({}, {}, {}))
    {
      assert src[..0] == [];
      assert Mapped(V(), i, NBlocks(core[i].size));
      SpliceNothing(V(), i, off);
    }

    /** The body of writei's loop. */
    method WriteStep(i: nat, off: nat, src: seq<Byte>, tot: nat, ghost v: Vol, ghost base: set<nat>, ghost l: Ledger)
      returns (r: Outcome<nat>, ghost l': Ledger)
      requires Loop(v, base, i, off, src, tot, l) && tot < |src|
      modifies `used, `data, `core, `owner, `logged
      ensures r == Panic ==> forall b :: 0 <= b < |used| ==> used[b]
      ensures r.Ok? ==> tot < r.value && Loop(v, base, i, off, src, r.value, l')
    {
      var o := off + tot;
      var p := ChunkLen(off + tot, |src| - tot);
      ghost var size := v.core[i].size;
      var next := tot + p;
      NextChunk(size, off, tot, |src|, p, next);
      var x;
      x, l' := WriteNext(i, off, src, tot, next, o / BSIZE, v, base, l, Span(off, tot), Span(off, next),
                         NBlocks(size), Extent(size, off, tot), Extent(size, off, next));
      if x == Panic {
        return Panic, l';
      }
      return Ok(next), l';
    }

    /** writei's loop. */
    method WriteBytes(i: nat, src: seq<Byte>, off: nat) returns (ok: bool, ghost l: Ledger)
      requires Valid() && i < |core| && core[i].kind != 0 && off <= core[i].size && off + |src| <= MAXFILE * BSIZE
      modifies `used, `data, `core, `owner, `logged
      ensures !ok ==> forall b :: 0 <= b < |used| ==> used[b]
      ensures ok ==> Loop(old(V()), old(logged), i, off, src, |src|, l)
    {
      l := Ledger({}, {}, {});
      var tot := 0;
      StartLoop(i, off, src);
      while tot < |src|
        invariant 0 <= tot <= |src|
        invariant Loop(old(V()), old(logged), i, off, src, tot, l)
      {
        var x;
        x, l := WriteStep(i, off, src, tot, old(V()), old(logged), l);
        if x == Panic {
          return false, l;
        }
        tot := x.value;
      }
      return true, l;
    }

    /** writei past its argument checks. */
    method WriteAll(i: nat, src: seq<Byte>, off: nat) returns (ok: bool)
      requires Valid() && i < |core| && core[i].kind != 0 && off <= core[i].size && off + |src| <= MAXFILE * BSIZE
      modifies `used, `data, `core, `dinodes, `owner, `logged
      ensures !ok ==> forall b :: 0 <= b < |used| ==> used[b]
      ensures ok ==> Done(old(V()), old(dinodes), old(logged), i, off, src, off + |src|)
    {
      ghost var l;
      ok, l := WriteBytes(i, src, off);
      if ok {
        assert src[..|src|] == src;
        FinishWrite(i, off, src, off + |src|, old(V()), old(logged), l, Extent(old(core)[i].size, off, |src|));
      }
    }
  
    /** iput's freeing of an inode with no links and no other references. */
    method FreeInode(i: nat) returns (ok: bool)
      requires Valid() && i < |core|
      modifies `used, `core, `dinodes, `owner, `logged
      ensures ok && Valid() && |core| == |old(core)| && core == old(core)[i := core[i]] && core[i].kind == 0
      ensures owner == Without(old(owner), i)
      ensures forall j :: 0 <= j < |core| && j != i ==> File(V(), j) == File(old(V()), j)
      ensures core[i].(addrs := []) == old(core)[i].(kind := 0, size := 0, addrs := [])
      ensures forall s :: 0 <= s <= NDIRECT ==> core[i].addrs[s] == 0
      ensures FreedExactly(old(V()), used, i)
      ensures logged == TruncLog(bmapstart, old(V()), i, IND + 1, old(logged)) + {IBlock(i)}
      ensures old(WriteThrough()) ==> WriteThrough()
    {
      ghost var v := V();
      ok := Itrunc(i);
      ghost var w := V();
      TruncatedOwned(v, w, old(owner), ds, i);
      RetypeKeeps(w, owner, ds, i, 0);
      core := core[i := core[i].(kind := 0)];
      Iupdate(i);
      assert V() == w.(core := w.core[i := w.core[i].(kind := 0)]);
    }

    /** ialloc: the lowest free inode, cleared and typed; panics exactly when there is none. */
    method Ialloc(kind: int) returns (r: Outcome<nat>)
      requires Valid() && kind != 0 && FreeAgree()
      modifies `core, `dinodes, `logged
      ensures r == Panic <==> forall i :: 1 <= i < |old(dinodes)| ==> old(dinodes)[i].kind != 0
      ensures r == Panic ==> V() == old(V()) && dinodes == old(dinodes) && logged == old(logged)
      ensures r.Ok? ==> 1 <= r.value < |old(dinodes)| && old(dinodes)[r.value].kind == 0
      ensures r.Ok? ==> forall i :: 1 <= i < r.value ==> old(dinodes)[i].kind != 0
      ensures r.Ok? ==> Valid() && FreeAgree() && (old(WriteThrough()) ==> WriteThrough())
      ensures r.Ok? ==> core == old(core)[r.value := Blank(kind)] && dinodes == old(dinodes)[r.value := Blank(kind)]
      ensures r.Ok? ==> Files(V()) == Files(old(V()))
      ensures r.Ok? ==> logged == old(logged) + {IBlock(r.value)}
    {
      var inum := 1;
      while inum < |dinodes|
        invariant 1 <= inum && V() == old(V()) && dinodes == old(dinodes) && logged == old(logged)
        invariant forall i :: 1 <= i < inum && i < |dinodes| ==> dinodes[i].kind != 0
      {
        if dinodes[inum].kind == 0 {
          BlankKeeps(V(), owner, ds, inum, kind);
          dinodes := dinodes[inum := Blank(kind)];
          core := core[inum := Blank(kind)];
          logged := logged + {IBlock(inum)};
          assert V() == old(V()).(core := old(core)[inum := Blank(kind)]);
          return Ok(inum);
        }
        inum := inum + 1;
      }
      return Panic;
    }
  }
}
