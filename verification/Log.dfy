/** log.c as it runs: the in-memory log header, commit and recovery,
    over a disk that may lose power between any two writes. */
module Log {
  import opened Common
  import opened Blocks
  import opened LogDisk
  import opened Params

  datatype Outcome = Done | Panic

  /** `log.lh.block` after log_write of `b`: appended unless already present. */
  function Absorb(lh: seq<nat>, b: nat): (r: seq<nat>) {
    if b in lh then lh else lh + [b]
  }

  /** begin_op's test that every outstanding operation, plus one more, still fits the log. */
  predicate Admits(n: nat, outstanding: nat, committing: bool) {
    !committing && n + (outstanding + 1) * MAXOPBLOCKS <= LOGSIZE
  }

  /** log_write's test; `size` is `log.size`. */
  predicate TooBig(n: nat, size: nat) {
    n >= LOGSIZE || n >= size - 1
  }

  /** Home blocks as file system code sees them: pinned buffers over the disk. */
  function Overlay(d: Disk, dirty: map<nat, Block>): (h: Disk)
    ensures |h| == |d|
    ensures forall b :: 0 <= b < |d| ==> h[b] == if b in dirty then dirty[b] else d[b]
  {
    seq(|d|, b requires 0 <= b < |d| => if b in dirty then dirty[b] else d[b])
  }

  ghost function Elems(lh: seq<nat>): (s: set<nat>)
    ensures forall b :: b in s <==> b in lh
  {
    set b | b in lh
  }

  /** Every buffer is pinned, so bget panics on a block that is not cached. */
  predicate NoBuffer(dirty: map<nat, Block>) {
    |dirty| >= NBUF
  }

  lemma {:induction false} ElemsSize(lh: seq<nat>)
    requires Distinct(lh)
    ensures |Elems(lh)| == |lh|
  {
    if |lh| > 0 {
      var n := |lh| - 1;
      ElemsSize(lh[..n]);
      assert Elems(lh) == Elems(lh[..n]) + {lh[n]};
    }
  }

  lemma FewerPinned(dirty: map<nat, Block>, b: nat)
    ensures (dirty - {b}).Keys <= dirty.Keys && (!NoBuffer(dirty) ==> !NoBuffer(dirty - {b}))
  {
    assert |(dirty - {b}).Keys| <= |dirty.Keys| by {
      SubsetSize((dirty - {b}).Keys, dirty.Keys);
    }
  }

  lemma UnpinFirst(dirty: map<nat, Block>, lh: seq<nat>, t: nat)
    requires t < |lh| && dirty.Keys <= Elems(lh[t..])
    ensures (dirty - {lh[t]}).Keys <= Elems(lh[t+1..])
  {
    assert lh[t..] == [lh[t]] + lh[t+1..];
  }

  /** Once every slot holds the new contents of its block, redoing the log yields all the new contents. */
  lemma LoggedRedo(L: Layout, d: Disk, lh: seq<nat>, h: Disk)
    requires L.Valid() && |d| == |h| == L.blocks && L.Fits(lh) && Distinct(lh)
    requires forall t :: 0 <= t < |lh| ==> d[L.start + 1 + t] == h[lh[t]]
    requires forall b: nat :: L.Home(b) && b !in lh ==> d[b] == h[b]
    ensures forall b: nat :: L.Home(b) ==> Redo(L, d, lh, b) == h[b]
  {
    forall b: nat | L.Home(b)
      ensures Redo(L, d, lh, b) == h[b]
    {
      if b in lh {
        var t :| 0 <= t < |lh| && lh[t] == b;
        RedoSlot(L, d, lh, t);
      } else {
        RedoMiss(L, d, lh, b);
      }
    }
  }

  function Repeat(h: Disk, k: nat): (s: seq<Disk>)
    ensures |s| == k && forall i :: 0 <= i < k ==> s[i] == h
  {
    seq(k, _ => h)
  }

  lemma RepeatMore(h: Disk, k: nat)
    ensures Repeat(h, k) + [h] == Repeat(h, k + 1)
  {
  }

  lemma RepeatAround(s: seq<Disk>, h: Disk, k: nat)
    ensures s + [h] + Repeat(h, k) + [h] == s + Repeat(h, k + 2)
  {
  }

  /** `e` is `d` after the first `t` log slots were filled from `h`. */
  ghost predicate Logged(L: Layout, d: Disk, e: Disk, lh: seq<nat>, h: Disk, t: nat)
    requires L.Valid() && L.Fits(lh) && t <= |lh| && |d| == |h| == L.blocks
  {
    && SameHome(L, e, d) && e[L.start] == d[L.start]
    && forall i :: 0 <= i < t ==> e[L.start + 1 + i] == h[lh[i]]
  }

  lemma LoggedStep(L: Layout, d: Disk, e: Disk, lh: seq<nat>, h: Disk, t: nat)
    requires L.Valid() && L.Fits(lh) && t < |lh| && |d| == |h| == L.blocks
    requires Logged(L, d, e, lh, h, t)
    requires HeadOK(L, d) && HeadCount(d[L.start]) == 0
    ensures Logged(L, d, WriteSlot(L, e, t, h[lh[t]]), lh, h, t + 1)
    ensures Shows(L, WriteSlot(L, e, t, h[lh[t]]), d)
  {
    assert Committed(L, e) == [];
    WriteSlotShows(L, e, d, t, h[lh[t]]);
  }

  lemma LoggedAll(L: Layout, d: Disk, e: Disk, lh: seq<nat>, h: Disk)
    requires L.Valid() && L.Fits(lh) && Distinct(lh) && |d| == |h| == L.blocks
    requires Logged(L, d, e, lh, h, |lh|)
    requires forall b: nat :: L.Home(b) && b !in lh ==> d[b] == h[b]
    ensures Shows(L, LogDisk.WriteHead(L, e, lh), h)
    ensures Committed(L, LogDisk.WriteHead(L, e, lh)) == lh
  {
    LoggedRedo(L, e, lh, h);
    WriteHeadShows(L, e, lh, h);
  }

  /** `e` is `d` after the first `t` slots were copied home. */
  ghost predicate Installed(L: Layout, d: Disk, e: Disk, lh: seq<nat>, t: nat)
    requires L.Valid() && L.Fits(lh) && t <= |lh| && |d| == L.blocks
  {
    && |e| == |d|
    && (forall s :: L.start <= s < L.start + L.size ==> e[s] == d[s])
    && forall b: nat {:trigger e[b]} :: L.Home(b) ==> e[b] == Redo(L, d, lh[..t], b)
  }

  lemma InstalledStep(L: Layout, d: Disk, e: Disk, lh: seq<nat>, t: nat)
    requires L.Valid() && L.Fits(lh) && t < |lh| && |d| == L.blocks
    requires Installed(L, d, e, lh, t)
    ensures lh[t] < |e| && Installed(L, d, InstallSlot(L, e, lh, t), lh, t + 1)
  {
    assert L.Home(lh[t]);
    assert lh[..t+1][..t] == lh[..t];
  }

  lemma InstalledAll(L: Layout, d: Disk, e: Disk, lh: seq<nat>, h: Disk)
    requires L.Valid() && L.Fits(lh) && Shows(L, d, h) && Committed(L, d) == lh
    requires Installed(L, d, e, lh, |lh|)
    ensures SameHome(L, e, h)
  {
    assert lh[..|lh|] == lh;
  }

  /** Disk `d` and the pins `dirty` while the slots committed on `d0` are copied home, the first `t` of them done. */
  ghost predicate Underway(L: Layout, d0: Disk, d: Disk, dirty: map<nat, Block>, lh: seq<nat>, h: Disk, t: nat) {
    && t <= |lh| && L.Fits(lh) && Shows(L, d0, h) && Committed(L, d0) == lh
    && Shows(L, d, h) && Committed(L, d) == lh && Installed(L, d0, d, lh, t)
    && dirty.Keys <= Elems(lh[t..]) && !NoBuffer(dirty)
  }

  lemma UnderwayStep(L: Layout, d0: Disk, d: Disk, dirty: map<nat, Block>, lh: seq<nat>, h: Disk, t: nat)
    requires Underway(L, d0, d, dirty, lh, h, t) && t < |lh|
    ensures L.Home(lh[t]) && Underway(L, d0, InstallSlot(L, d, lh, t), dirty - {lh[t]}, lh, h, t + 1)
  {
    InstallShows(L, d, h, t);
    InstalledStep(L, d0, d, lh, t);
    UnpinFirst(dirty, lh, t);
    FewerPinned(dirty, lh[t]);
  }

  class Log {
    const L: Layout
    var disk: Disk
    ghost var shown: seq<Disk>    // per write since boot: the home blocks a crash right after it recovers to
    var dirty: map<nat, Block>    // buffers pinned with B_DIRTY, not yet at home
    var n: nat
    const block: array<nat>
    var outstanding: nat
    var committing: bool

    ghost predicate Shape()
      reads this, block
    {
      && L.Valid() && |disk| == L.blocks
      && block.Length == LOGSIZE && n <= LOGSIZE && L.Fits(block[..n])
      && forall b :: b in dirty ==> L.Home(b)
    }

    /** Between commits: header clear on disk, every listed block pinned, nothing else pinned. */
    ghost predicate Valid()
      reads this, block
    {
      && Shape()
      && HeadOK(L, disk) && HeadCount(disk[L.start]) == 0
      && Distinct(block[..n]) && dirty.Keys == Elems(block[..n])
    }

    /** `bwrite`: one synchronous block write, the only place the disk changes.
        The caller must say which home blocks a crash right after the write recovers to. */
    method Bwrite(b: nat, data: Block, ghost h: Disk)
      requires b < |disk| && Shows(L, disk[b := data], h)
      modifies `disk, `shown, `dirty
      ensures disk == old(disk)[b := data] && Shows(L, disk, h)
      ensures shown == old(shown) + [h]
      ensures dirty == old(dirty) - {b}
    {
      disk := disk[b := data];
      dirty := dirty - {b};
      shown := shown + [h];
    }

    /** `bread`, through the buffer cache; None where bget panics because every buffer is pinned. */
    method Bread(b: nat) returns (data: Option<Block>)
      requires b < |disk|
      ensures data.None? <==> b !in dirty && NoBuffer(dirty)
      ensures data.Some? ==> data.value == if b in dirty then dirty[b] else disk[b]
    {
      if b in dirty {
        return Some(dirty[b]);
      }
      data := if |dirty| >= NBUF then None else Some(disk[b]);
    }

    /** Between commits every listed block has a buffer of its own. */
    lemma PinnedCount()
      requires Valid()
      ensures |dirty| == n
    {
      ElemsSize(block[..n]);
      assert |dirty| == |dirty.Keys|;
    }

    method ReadHead()
      requires HeadOK(L, disk) && block.Length == LOGSIZE && dirty == map[]
      modifies `n, block
      ensures Shape() && block[..n] == Committed(L, disk)
    {
      var buf := Bread(L.start);
      var hb := buf.value;
      n := GetWord(hb, 0);
      var i := 0;
      while i < n
        invariant 0 <= i <= n == HeadCount(disk[L.start])
        invariant hb == disk[L.start]
        invariant forall j :: 0 <= j < i ==> block[j] == GetWord(hb, 1 + j)
      {
        block[i] := GetWord(hb, 1 + i);
        i := i + 1;
      }
      assert block[..n] == Committed(L, disk);
    }

    /** write_head's edit of the header buffer, which leaves entries past `n` as they were. */
    method FormatHead(hb0: Block) returns (hb: Block)
      requires Shape()
      ensures hb == PutHead(hb0, block[..n])
    {
      ghost var lh := block[..n];
      hb := SetWord(hb0, 0, n);
      ghost var hb1 := hb;
      var i := 0;
      while i < n
        invariant 0 <= i <= n
        invariant hb == PutBlocks(hb1, lh, i)
      {
        assert block[i] == lh[i] && L.Home(lh[i]);
        hb := SetWord(hb, 1 + i, block[i]);
        i := i + 1;
      }
    }

    method WriteHead(ghost h: Disk)
      requires Shape() && !NoBuffer(dirty) && Shows(L, LogDisk.WriteHead(L, disk, block[..n]), h)
      modifies `disk, `shown, `dirty
      ensures Shape() && disk == LogDisk.WriteHead(L, old(disk), block[..n])
      ensures shown == old(shown) + [h]
      ensures dirty == old(dirty)
    {
      var buf := Bread(L.start);
      var hb := FormatHead(buf.value);
      Bwrite(L.start, hb, h);
    }

    /** write_log has filled the first `tail` slots of the transaction it started on disk `d0`. */
    ghost predicate Logging(d0: Disk, lh: seq<nat>, h: Disk, tail: nat)
      reads this, block
    {
      && Shape() && block[..n] == lh && tail <= n && |h| == L.blocks
      && (forall t :: 0 <= t < n ==> L.Home(lh[t]) && lh[t] in dirty && dirty[lh[t]] == h[lh[t]])
      && HeadOK(L, d0) && HeadCount(d0[L.start]) == 0
      && Logged(L, d0, disk, lh, h, tail)
    }

    lemma StartLogging()
      requires Valid()
      ensures Logging(disk, block[..n], Overlay(disk, dirty), 0)
    {
      forall t | 0 <= t < n
        ensures L.Home(block[..n][t]) && block[..n][t] in dirty
      {
        assert block[..n][t] in block[..n];
      }
    }

    /** One iteration of write_log. */
    method WriteLogBlock(tail: nat, ghost d0: Disk, ghost lh: seq<nat>, ghost h: Disk) returns (r: Outcome)
      requires Logging(d0, lh, h, tail) && tail < n
      modifies `disk, `shown, `dirty
      ensures (r == Panic <==> NoBuffer(dirty)) && dirty == old(dirty)
      ensures r == Panic ==> disk == old(disk) && shown == old(shown)
      ensures r == Done ==> Logging(d0, lh, h, tail + 1) && shown == old(shown) + [d0]
    {
      assert block[tail] == lh[tail] && !L.Home(L.start + tail + 1);
      LoggedStep(L, d0, disk, lh, h, tail);
      var to := Bread(L.start + tail + 1);
      if to.None? {
        return Panic;
      }
      var from := Bread(block[tail]);
      Bwrite(L.start + tail + 1, from.value, d0);
      r := Done;
    }

    /** The loop of write_log. */
    method LogAll(ghost d0: Disk, ghost lh: seq<nat>, ghost h: Disk) returns (r: Outcome)
      requires Logging(d0, lh, h, 0)
      modifies `disk, `shown, `dirty
      ensures (r == Panic <==> n > 0 && NoBuffer(dirty)) && dirty == old(dirty)
      ensures r == Panic ==> disk == old(disk) && shown == old(shown)
      ensures r == Done ==> Logging(d0, lh, h, n) && shown == old(shown) + Repeat(d0, n)
    {
      var tail := 0;
      r := Done;
      while tail < n
        invariant 0 <= tail <= n && dirty == old(dirty) && r == Done
        invariant if tail == 0 then disk == old(disk) else !NoBuffer(dirty)
        invariant Logging(d0, lh, h, tail) && shown == old(shown) + Repeat(d0, tail)
      {
        r := WriteLogBlock(tail, d0, lh, h);
        if r == Panic {
          return;
        }
        RepeatMore(d0, tail);
        tail := tail + 1;
      }
    }

    /** Copy pinned buffers to the log. Nothing recovery can see changes.
        With every buffer pinned bget panics at once. */
    method WriteLog() returns (r: Outcome)
      requires Valid()
      modifies `disk, `shown, `dirty
      ensures r == Panic <==> n >= NBUF
      ensures r == Panic ==> disk == old(disk) && shown == old(shown) && dirty == old(dirty)
      ensures r == Done ==> Shape() && dirty == old(dirty) && !NoBuffer(dirty)
      ensures r == Done ==> Logged(L, old(disk), disk, block[..n], Overlay(old(disk), dirty), n)
      ensures r == Done ==> shown == old(shown) + Repeat(old(disk), n)
    {
      StartLogging();
      PinnedCount();
      r := LogAll(disk, block[..n], Overlay(disk, dirty));
    }

    /** install_trans has copied home the first `tail` slots committed on disk `d0`. */
    ghost predicate Installing(d0: Disk, lh: seq<nat>, h: Disk, tail: nat)
      reads this, block
    {
      Shape() && block[..n] == lh && Underway(L, d0, disk, dirty, lh, h, tail)
    }

    /** One iteration of install_trans. */
    method InstallBlock(tail: nat, ghost d0: Disk, ghost lh: seq<nat>, ghost h: Disk)
      requires Installing(d0, lh, h, tail) && tail < n
      modifies `disk, `shown, `dirty
      ensures Installing(d0, lh, h, tail + 1)
      ensures shown == old(shown) + [h]
    {
      UnderwayStep(L, d0, disk, dirty, lh, h, tail);
      var slot := L.start + tail + 1;
      assert block[tail] == lh[tail] && !L.Home(slot);
      var lbuf := Bread(slot);
      assert disk[lh[tail] := lbuf.value] == InstallSlot(L, disk, lh, tail);
      Bwrite(block[tail], lbuf.value, h);
    }

    /** The loop of install_trans. */
    method InstallAll(ghost d0: Disk, ghost lh: seq<nat>, ghost h: Disk)
      requires Installing(d0, lh, h, 0)
      modifies `disk, `shown, `dirty
      ensures Installing(d0, lh, h, n)
      ensures shown == old(shown) + Repeat(h, n)
    {
      var tail := 0;
      while tail < n
        invariant 0 <= tail <= n
        invariant Installing(d0, lh, h, tail)
        invariant shown == old(shown) + Repeat(h, tail)
      {
        InstallBlock(tail, d0, lh, h);
        RepeatMore(h, tail);
        tail := tail + 1;
      }
    }

    /** Copy committed blocks from the log to their home locations. */
    method InstallTrans(ghost h: Disk)
      requires Shape() && Shows(L, disk, h) && Committed(L, disk) == block[..n]
      requires dirty.Keys <= Elems(block[..n]) && !NoBuffer(dirty)
      modifies `disk, `shown, `dirty
      ensures Shape() && SameHome(L, disk, h) && dirty == map[]
      ensures shown == old(shown) + Repeat(h, n)
    {
      ghost var lh := block[..n];
      assert lh[0..] == lh;
      InstallAll(old(disk), lh, h);
      InstalledAll(L, old(disk), disk, lh, h);
      assert lh[n..] == [] && dirty.Keys == {};
    }

    /** What commit does after the header write, and recovery after reading the header. */
    method FinishTransaction(ghost h: Disk)
      requires Shape() && Shows(L, disk, h) && Committed(L, disk) == block[..n]
      requires dirty.Keys <= Elems(block[..n]) && !NoBuffer(dirty)
      modifies `disk, `shown, `dirty, `n
      ensures Valid() && n == 0 && SameHome(L, disk, h)
      ensures shown == old(shown) + Repeat(h, old(n)) + [h]
    {
      InstallTrans(h);
      n := 0;
      assert block[..n] == [];
      ClearShows(L, disk, h);
      WriteHead(h);
    }

    /** The log blocks, then the header that commits them. */
    method CommitPoint(ghost h: Disk) returns (r: Outcome)
      requires Valid() && n > 0 && h == Overlay(disk, dirty)
      modifies `disk, `shown, `dirty
      ensures (r == Panic <==> n >= NBUF) && dirty == old(dirty)
      ensures r == Panic ==> disk == old(disk) && shown == old(shown)
      ensures r == Done ==> Shape() && Shows(L, disk, h) && Committed(L, disk) == block[..n] && !NoBuffer(dirty)
      ensures r == Done ==> shown == old(shown) + Repeat(old(disk), n) + [h]
    {
      r := WriteLog();
      if r == Done {
        LoggedAll(L, old(disk), disk, block[..n], h);
        WriteHead(h);
      }
    }

    /** Group commit: a crash before the header write recovers to none of the transaction,
        a crash at any later write to all of it. It panics exactly when as many blocks are listed as there are buffers,
        before it writes anything. */
    method Commit() returns (r: Outcome)
      requires Valid()
      modifies `disk, `shown, `dirty, `n
      ensures r == Panic <==> old(n) >= NBUF
      ensures Valid()
      ensures r == Panic ==> disk == old(disk) && shown == old(shown) && dirty == old(dirty) && n == old(n)
      ensures r == Done ==> n == 0 && SameHome(L, disk, Overlay(old(disk), old(dirty)))
      ensures r == Done ==>
        shown == old(shown) + Repeat(old(disk), old(n))
                 + Repeat(Overlay(old(disk), old(dirty)), if old(n) == 0 then 0 else old(n) + 2)
    {
      if n > 0 {
        ghost var h := Overlay(disk, dirty);
        r := CommitPoint(h);
        if r == Done {
          RepeatAround(old(shown) + Repeat(old(disk), n), h, n);
          FinishTransaction(h);
        }
      } else {
        assert dirty.Keys == Elems([]) == {};
        r := Done;
      }
    }

    /** Boot after a crash. Every write keeps what recovery shows, so crashing again inside recovery is harmless. */
    method RecoverFromLog(ghost h: Disk)
      requires L.Valid() && block.Length == LOGSIZE && dirty == map[]
      requires Shows(L, disk, h)
      modifies `disk, `shown, `dirty, `n, block
      ensures Valid() && n == 0
      ensures SameHome(L, disk, h)
      ensures shown == old(shown) + Repeat(h, |Committed(L, old(disk))| + 1)
    {
      ReadHead();
      FinishTransaction(h);
      RepeatMore(h, |Committed(L, old(disk))|);
    }

    /** log_write: list the block once and pin its new contents. */
    method LogWrite(b: nat, data: Block) returns (r: Outcome)
      requires Valid() && L.Home(b)
      modifies `n, `dirty, block
      ensures r == Panic <==> TooBig(old(n), L.size) || outstanding < 1
      ensures r == Panic ==> n == old(n) && dirty == old(dirty) && block[..] == old(block[..])
      ensures r == Done ==> Valid() && block[..n] == Absorb(old(block[..n]), b)
      ensures r == Done ==> dirty == old(dirty)[b := data]
    {
      if n >= LOGSIZE || n >= L.size - 1 {
        return Panic;
      }
      if outstanding < 1 {
        return Panic;
      }
      ghost var lh := block[..n];
      var i := 0;
      while i < n && block[i] != b
        invariant 0 <= i <= n
        invariant forall j :: 0 <= j < i ==> block[j] != b
      {
        i := i + 1;
      }
      block[i] := b;
      if i == n {
        n := n + 1;
        assert block[..n] == lh + [b];
      } else {
        assert block[..n] == lh;
      }
      dirty := dirty[b := data];
      return Done;
    }

    /** One pass of begin_op's loop: admitted, or back to sleep. */
    method BeginOp() returns (admitted: bool)
      requires Valid()
      modifies `outstanding
      ensures Valid()
      ensures admitted <==> Admits(n, old(outstanding), committing)
      ensures outstanding == old(outstanding) + if admitted then 1 else 0
    {
      if committing {
        admitted := false;
      } else if n + (outstanding + 1) * MAXOPBLOCKS > LOGSIZE {
        admitted := false;
      } else {
        outstanding := outstanding + 1;
        admitted := true;
      }
    }

    /** end_op: the last operation out commits for all; Panic where the source panics. */
    method EndOp() returns (r: Outcome)
      requires Valid() && outstanding > 0
      modifies `outstanding, `committing, `disk, `shown, `dirty, `n
      ensures r == Panic <==> old(committing) || (old(outstanding) == 1 && old(n) >= NBUF)
      ensures outstanding == old(outstanding) - 1 && Valid()
      ensures r == Done ==> committing == old(committing)
      ensures r == Panic || outstanding > 0 ==>
                disk == old(disk) && dirty == old(dirty) && n == old(n) && shown == old(shown)
      ensures r == Done && outstanding == 0 ==> n == 0 && SameHome(L, disk, Overlay(old(disk), old(dirty)))
      ensures r == Done && outstanding == 0 ==>
        shown == old(shown) + Repeat(old(disk), old(n))
                 + Repeat(Overlay(old(disk), old(dirty)), if old(n) == 0 then 0 else old(n) + 2)
    {
      outstanding := outstanding - 1;
      if committing {
        return Panic;
      }
      r := Done;
      if outstanding == 0 {
        committing := true;
        r := Commit();
        if r == Done {
          committing := false;
        }
      }
    }
  }
}
