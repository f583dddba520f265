/** System-call atomicity of the group commit log, over whole runs. */
module GroupCommitProofs {
  import opened Common
  import opened Blocks
  import opened LogDisk
  import opened Log
  import opened GroupCommit
  import opened Params

  // ---- Histories ----

  lemma {:induction false} OfAppend(a: seq<Write>, b: seq<Write>, op: nat)
    ensures Of(a + b, op) == Of(a, op) + Of(b, op)
    decreases |b|
  {
    if |b| == 0 {
      assert a + b == a;
    } else {
      OfAppend(a, b[..|b|-1], op);
      assert (a + b)[..|a + b| - 1] == a + b[..|b|-1];
    }
  }

  lemma OfOne(w: Write, op: nat)
    ensures Of([w], op) == if w.op == op then [w] else []
  {
  }

  // ---- Counting ----

  lemma {:induction false} CountUpdate(ops: seq<Op>, i: nat, o: Op)
    requires i < |ops|
    ensures CountRunning(ops[i := o]) == CountRunning(ops) - (if ops[i].state == Running then 1 else 0)
                                         + (if o.state == Running then 1 else 0)
    ensures Room(ops[i := o]) == Room(ops) - RoomOf(ops[i]) + RoomOf(o)
  {
    var n := |ops| - 1;
    if i == n {
      assert ops[i := o][..n] == ops[..n];
    } else {
      CountUpdate(ops[..n], i, o);
      assert ops[i := o][..n] == ops[..n][i := o];
    }
  }

  lemma CountAppend(ops: seq<Op>, o: Op)
    ensures CountRunning(ops + [o]) == CountRunning(ops) + if o.state == Running then 1 else 0
    ensures Room(ops + [o]) == Room(ops) + RoomOf(o)
  {
  }

  lemma {:induction false} RoomBound(ops: seq<Op>)
    ensures Room(ops) <= MAXOPBLOCKS * CountRunning(ops)
  {
    if |ops| > 0 {
      RoomBound(ops[..|ops|-1]);
    }
  }

  lemma {:induction false} RoomAt(ops: seq<Op>, i: nat)
    requires i < |ops|
    ensures RoomOf(ops[i]) <= Room(ops)
    ensures ops[i].state == Running ==> CountRunning(ops) > 0
  {
    if i < |ops| - 1 {
      RoomAt(ops[..|ops|-1], i);
    }
  }

  lemma {:induction false} NoneRunning(ops: seq<Op>)
    requires forall i :: 0 <= i < |ops| ==> ops[i].state != Running
    ensures CountRunning(ops) == 0 && Room(ops) == 0
  {
    if |ops| > 0 {
      NoneRunning(ops[..|ops|-1]);
    }
  }

  lemma IdleOps(ops: seq<Op>)
    requires CountRunning(ops) == 0
    ensures forall i :: 0 <= i < |ops| ==> ops[i].state != Running
    ensures Room(ops) == 0
  {
  }

  // ---- Each kind of step keeps the invariant ----

  lemma InitInv(L: Layout, init: Disk, s: State)
    requires Init(L, init, s)
    ensures Inv(L, init, s)
  {
  }

  /** The disk part of the invariant does not depend on the operation table. */
  lemma DiskFrame(L: Layout, init: Disk, s: State, t: State)
    requires L.Valid() && InvDisk(L, init, s)
    requires t == s.(ops := t.ops, outstanding := t.outstanding, panicked := t.panicked, committing := t.committing)
    ensures InvDisk(L, init, t)
  {
  }

  lemma BeginAccounts(L: Layout, s: State, t: State)
    requires Accounts(L, s) && BeginStep(s, t)
    ensures Accounts(L, t)
  {
    CountAppend(s.ops, NewOp());
    RoomBound(s.ops);
    forall i | 0 <= i < |t.ops|
      ensures InvOp(t, i)
    {
      assert i < |s.ops| ==> InvOp(s, i);
    }
  }

  lemma CheckOps(L: Layout, s: State, op: nat, b: nat, data: Block, t: State)
    requires InvFlags(s) && InvOps(s) && InvRoom(s) && InvPending(L, s) && CheckStep(L, s, op, b, data, t)
    ensures InvFlags(t) && InvOps(t) && InvRoom(t) && InvPending(L, t)
  {
    var o := s.ops[op].(pending := Some(Write(op, b, data)));
    CountUpdate(s.ops, op, o);
    forall i | 0 <= i < |t.ops|
      ensures InvOp(t, i)
      ensures t.ops[i].state == Running ==> InvCharge(t.ops[i], t.lh)
    {
      assert InvOp(s, i);
      assert s.ops[i].state == Running ==> InvCharge(s.ops[i], s.lh);
    }
  }

  /** An operation within its budget always finds a free slot in the header array. */
  lemma SlotFree(s: State, op: nat, b: nat)
    requires IsRunning(s, op) && InvRoom(s) && b !in s.lh
    requires |WrittenBlocks(s.ops[op]) + {b}| <= MAXOPBLOCKS
    ensures s.ops[op].charged < MAXOPBLOCKS && |s.lh| < LOGSIZE
    ensures b !in WrittenBlocks(s.ops[op])
  {
    var o := s.ops[op];
    assert InvCharge(o, s.lh);
    assert b !in WrittenBlocks(o);
    assert |WrittenBlocks(o) + {b}| == |WrittenBlocks(o)| + 1;
    RoomAt(s.ops, op);
  }

  lemma AppendCharge(s: State, op: nat)
    requires InvRoom(s) && IsRunning(s, op) && s.ops[op].pending.Some? && Budgeted(s)
    ensures var o, w := s.ops[op], s.ops[op].pending.value;
            var o' := Appended(o, w, w.b !in s.lh);
            && InvCharge(o', Absorb(s.lh, w.b))
            && |Absorb(s.lh, w.b)| + RoomOf(o') <= |s.lh| + RoomOf(o)
  {
    var o, w := s.ops[op], s.ops[op].pending.value;
    assert Touched(o) == WrittenBlocks(o) + {w.b};
    WrittenAppend(o, w, w.b !in s.lh);
    if w.b !in s.lh {
      SlotFree(s, op, w.b);
    }
    ChargeMore(o, s.lh, w);
  }

  /** A new block costs its operation one slot; a listed one costs nothing. */
  lemma ChargeMore(o: Op, lh: seq<nat>, w: Write)
    requires InvCharge(o, lh) && o.state == Running
    requires w.b !in lh ==> o.charged < MAXOPBLOCKS && w.b !in WrittenBlocks(o)
    requires WrittenBlocks(Appended(o, w, w.b !in lh)) == WrittenBlocks(o) + {w.b}
    ensures var o' := Appended(o, w, w.b !in lh);
            InvCharge(o', Absorb(lh, w.b)) && |Absorb(lh, w.b)| + RoomOf(o') <= |lh| + RoomOf(o)
  {
    SubsetSize(WrittenBlocks(o), WrittenBlocks(o) + {w.b});
  }

  lemma AppendRoom(s: State, op: nat, t: State)
    requires InvRoom(s) && AppendStep(s, op, t) && Budgeted(s)
    ensures InvRoom(t)
  {
    AppendCharge(s, op);
    CountUpdate(s.ops, op, t.ops[op]);
    forall i | 0 <= i < |t.ops| && t.ops[i].state == Running
      ensures InvCharge(t.ops[i], t.lh)
    {
      if i != op {
        assert InvCharge(s.ops[i], s.lh);
      }
    }
  }

  lemma WrittenAppend(o: Op, w: Write, added: bool)
    ensures WrittenBlocks(Appended(o, w, added)) == WrittenBlocks(o) + {w.b}
  {
    var ws := o.writes + [w];
    assert forall i :: 0 <= i < |o.writes| ==> ws[i] == o.writes[i];
    assert ws[|o.writes|] == w;
    forall b | b in WrittenBlocks(o) + {w.b}
      ensures b in WrittenBlocks(Appended(o, w, added))
    {
      if b in WrittenBlocks(o) {
        var i :| 0 <= i < |o.writes| && o.writes[i].b == b;
        assert ws[i].b == b;
      }
    }
  }

  lemma AppendOps(s: State, op: nat, t: State)
    requires InvOps(s) && AppendStep(s, op, t) && s.ops[op].pending.value.op == op
    ensures InvOps(t)
  {
    var w := s.ops[op].pending.value;
    forall i: nat
      ensures Of(t.cur, i) == Of(s.cur, i) + if i == op then [w] else []
    {
      OfAppend(s.cur, [w], i);
      OfOne(w, i);
    }
    forall i | 0 <= i < |t.ops|
      ensures InvOp(t, i)
    {
      assert InvOp(s, i);
    }
  }

  /** A buffer update and its log_write move the cached view one write forward. */
  lemma OverlayWrite(L: Layout, d: Disk, dirty: map<nat, Block>, init: Disk, ws: seq<Write>, w: Write)
    requires |init| == L.blocks && L.Home(w.b)
    requires SameHome(L, Overlay(d, dirty), Replay(init, ws))
    ensures SameHome(L, Overlay(d, dirty[w.b := w.data]), Replay(init, ws + [w]))
  {
  }

  lemma AbsorbLists(L: Layout, lh: seq<nat>, dirty: map<nat, Block>, w: Write)
    requires L.Fits(lh) && L.Home(w.b) && Distinct(lh) && dirty.Keys == Elems(lh)
    requires |Absorb(lh, w.b)| <= LOGSIZE && |Absorb(lh, w.b)| < L.size
    ensures L.Fits(Absorb(lh, w.b)) && Distinct(Absorb(lh, w.b))
    ensures dirty[w.b := w.data].Keys == Elems(Absorb(lh, w.b))
  {
  }

  lemma AppendDisk(L: Layout, init: Disk, s: State, op: nat, t: State)
    requires L.Valid() && InvFlags(s) && InvPending(L, s) && InvDisk(L, init, s)
    requires AppendStep(s, op, t) && |t.lh| <= LOGSIZE && |t.lh| < L.size
    ensures InvDisk(L, init, t)
  {
    RoomAt(s.ops, op);
    var w := s.ops[op].pending.value;
    assert s.done + (s.cur + [w]) == (s.done + s.cur) + [w];
    OverlayWrite(L, s.disk, s.dirty, init, s.done + s.cur, w);
    AbsorbLists(L, s.lh, s.dirty, w);
  }

  lemma AppendFlags(L: Layout, s: State, op: nat, t: State)
    requires InvFlags(s) && InvCur(s) && InvPending(L, s) && AppendStep(s, op, t)
    ensures InvFlags(t) && InvCur(t) && InvPending(L, t)
  {
    RoomAt(s.ops, op);
    CountUpdate(s.ops, op, t.ops[op]);
  }

  lemma AppendAccounts(L: Layout, s: State, op: nat, t: State)
    requires Accounts(L, s) && AppendStep(s, op, t) && Budgeted(s)
    ensures Accounts(L, t)
  {
    AppendFlags(L, s, op, t);
    AppendRoom(s, op, t);
    AppendOps(s, op, t);
  }

  lemma EndFlags(s: State, op: nat, t: State)
    requires InvFlags(s) && EndStep(s, op, t)
    ensures InvFlags(t) && !s.committing
  {
    var ended := s.ops[op := s.ops[op].(state := Ended)];
    RoomAt(s.ops, op);
    CountUpdate(s.ops, op, s.ops[op].(state := Ended));
    if s.outstanding == 1 {
      IdleOps(ended);
      NoneRunning(Harden(ended));
    }
  }

  lemma EndRoom(s: State, op: nat, t: State)
    requires InvFlags(s) && InvRoom(s) && EndStep(s, op, t)
    ensures InvRoom(t)
  {
    var ended := s.ops[op := s.ops[op].(state := Ended)];
    CountUpdate(s.ops, op, s.ops[op].(state := Ended));
    if s.outstanding == 1 {
      IdleOps(ended);
      NoneRunning(Harden(ended));
    }
    forall i | 0 <= i < |t.ops| && t.ops[i].state == Running
      ensures InvCharge(t.ops[i], t.lh)
    {
      assert InvCharge(s.ops[i], s.lh);
    }
  }

  lemma EndOps(s: State, op: nat, t: State)
    requires InvOps(s) && InvCur(s) && EndStep(s, op, t) && !s.committing
    ensures InvOps(t)
  {
    forall i | 0 <= i < |t.ops|
      ensures InvOp(t, i)
    {
      assert InvOp(s, i);
    }
  }

  lemma NothingGathered(s: State)
    requires InvCur(s)
    ensures s.lh == [] ==> s.cur == []
  {
    if s.cur != [] {
      assert s.cur[0].b in s.lh;
    }
  }

  /** end_op's panic on log.committing is unreachable, and ending an operation keeps the books. */
  lemma EndAccounts(L: Layout, s: State, op: nat, t: State)
    requires Accounts(L, s) && EndStep(s, op, t)
    ensures Accounts(L, t) && t.panicked == s.panicked && !s.committing
  {
    EndFlags(s, op, t);
    EndRoom(s, op, t);
    EndOps(s, op, t);
    NothingGathered(s);
  }

  lemma EndDisk(L: Layout, init: Disk, s: State, op: nat, t: State)
    requires L.Valid() && InvFlags(s) && InvCur(s) && InvDisk(L, init, s) && EndStep(s, op, t)
    ensures InvDisk(L, init, t)
  {
    EndFlags(s, op, t);
  }

  // ---- The writes of commit and recovery ----

  /** Log slots are outside the home blocks, so filling one leaves the cached view alone. */
  lemma OverlaySlot(L: Layout, d: Disk, dirty: map<nat, Block>, k: nat, data: Block, h: Disk)
    requires k + 1 < L.size && L.Valid() && SameHome(L, Overlay(d, dirty), h)
    ensures SameHome(L, Overlay(WriteSlot(L, d, k, data), dirty), h)
  {
  }

  lemma SlotFilled(L: Layout, d: Disk, dirty: map<nat, Block>, lh: seq<nat>, k: nat)
    requires k < |lh| && L.start + |lh| < |d| && lh[k] in dirty && SlotsFilled(L, d, dirty, lh, k)
    ensures SlotsFilled(L, WriteSlot(L, d, k, dirty[lh[k]]), dirty, lh, k + 1)
  {
  }

  /** Within the log area a slot is nobody's home block, so its write unpins nothing. */
  lemma SlotUnpins(L: Layout, dirty: map<nat, Block>, lh: seq<nat>, k: nat)
    requires L.Fits(lh) && dirty.Keys == Elems(lh) && k < |lh|
    ensures dirty - {L.start + 1 + k} == dirty
  {
    assert !L.Home(L.start + 1 + k);
  }

  lemma SlotDisk(L: Layout, init: Disk, s: State, t: State)
    requires L.Valid() && InvDisk(L, init, s) && WriteStep(L, s, LogSlot, t)
    ensures InvDisk(L, init, t)
  {
    SlotUnpins(L, s.dirty, s.lh, s.phase.t);
    SlotWritten(L, init, s, s.phase.t, Cached(s, s.lh[s.phase.t]), t);
  }

  lemma SlotWritten(L: Layout, init: Disk, s: State, k: nat, data: Block, t: State)
    requires L.Valid() && InvDisk(L, init, s) && s.phase == WritingLog(k) && k < |s.lh| && s.lh[k] < |s.disk|
    requires data == Cached(s, s.lh[k]) && t == s.(disk := WriteSlot(L, s.disk, k, data), phase := WritingLog(k + 1))
    ensures InvDisk(L, init, t)
  {
    assert s.lh[k] in s.lh;
    WriteSlotShows(L, s.disk, Replay(init, s.done), k, data);
    OverlaySlot(L, s.disk, s.dirty, k, data, Replay(init, s.done + s.cur));
    SlotFilled(L, s.disk, s.dirty, s.lh, k);
  }

  /** write_log is complete: every slot holds the pinned contents of its block, and `h` is the cached view. */
  ghost predicate ReadyToCommit(L: Layout, d: Disk, dirty: map<nat, Block>, lh: seq<nat>, h: Disk) {
    && L.Valid() && L.Fits(lh) && Distinct(lh) && dirty.Keys == Elems(lh) && |d| == L.blocks
    && SameHome(L, Overlay(d, dirty), h)
    && SlotsFilled(L, d, dirty, lh, |lh|)
  }

  /** The header is written: recovery would now show `h`, which the cache shows too. */
  ghost predicate JustCommitted(L: Layout, d: Disk, dirty: map<nat, Block>, lh: seq<nat>, h: Disk) {
    && Shows(L, d, h) && Committed(L, d) == lh && L.Fits(lh) && Distinct(lh) && dirty.Keys == Elems(lh)
    && Copied(L, d, lh, 0, h) && SameHome(L, Overlay(d, dirty), h)
  }

  lemma HeadLogged(L: Layout, d: Disk, dirty: map<nat, Block>, lh: seq<nat>, h: Disk)
    requires ReadyToCommit(L, d, dirty, lh, h)
    ensures forall i :: 0 <= i < |lh| ==> d[L.start + 1 + i] == h[lh[i]]
    ensures forall b: nat :: L.Home(b) && b !in lh ==> d[b] == h[b]
  {
  }

  lemma HeadCopied(L: Layout, d: Disk, dirty: map<nat, Block>, lh: seq<nat>, h: Disk)
    requires ReadyToCommit(L, d, dirty, lh, h)
    ensures Copied(L, WriteHead(L, d, lh), lh, 0, h)
    ensures SameHome(L, Overlay(WriteHead(L, d, lh), dirty), h)
  {
  }

  /** The commit point: the transaction becomes part of what recovery shows, all at once. */
  lemma HeadCommits(L: Layout, d: Disk, dirty: map<nat, Block>, lh: seq<nat>, h: Disk)
    requires ReadyToCommit(L, d, dirty, lh, h)
    ensures JustCommitted(L, WriteHead(L, d, lh), dirty, lh, h)
  {
    HeadLogged(L, d, dirty, lh, h);
    LoggedRedo(L, d, lh, h);
    WriteHeadShows(L, d, lh, h);
    HeadCopied(L, d, dirty, lh, h);
  }

  lemma HeadDisk(L: Layout, init: Disk, s: State, t: State)
    requires L.Valid() && InvDisk(L, init, s) && WriteStep(L, s, Head, t)
    ensures InvDisk(L, init, t)
  {
    var h := Replay(init, s.done + s.cur);
    HeadCommits(L, s.disk, s.dirty, s.lh, h);
    InstallingIntro(L, init, t, h);
  }

  lemma InstallingIntro(L: Layout, init: Disk, t: State, h: Disk)
    requires |init| == L.blocks && h == Replay(init, t.done) && t.cur == [] && t.phase == Installing(0)
    requires JustCommitted(L, t.disk, t.dirty, t.lh, h)
    ensures InvDisk(L, init, t)
  {
    assert t.done + t.cur == t.done;
    assert t.lh[0..] == t.lh;
  }

  lemma SlotContents(L: Layout, d: Disk, lh: seq<nat>, t: nat, h: Disk)
    requires Shows(L, d, h) && Committed(L, d) == lh && Distinct(lh) && t < |lh|
    ensures L.Home(lh[t]) && d[L.start + 1 + t] == h[lh[t]]
  {
    assert L.Home(lh[t]);
    RedoSlot(L, d, lh, t);
    assert Redo(L, d, lh, lh[t]) == h[lh[t]];
  }

  /** Installing slot `t` puts the committed contents of its block at home. */
  lemma InstallCopied(L: Layout, d: Disk, lh: seq<nat>, t: nat, h: Disk)
    requires Shows(L, d, h) && Committed(L, d) == lh && Distinct(lh) && t < |lh| && Copied(L, d, lh, t, h)
    ensures L.Home(lh[t]) && d[L.start + 1 + t] == h[lh[t]]
    ensures Copied(L, InstallSlot(L, d, lh, t), lh, t + 1, h)
    ensures Shows(L, InstallSlot(L, d, lh, t), h) && Committed(L, InstallSlot(L, d, lh, t)) == lh
  {
    InstallShows(L, d, h, t);
    SlotContents(L, d, lh, t, h);
    assert lh[t..] == [lh[t]] + lh[t+1..];
  }

  lemma OverlayInstall(L: Layout, d: Disk, dirty: map<nat, Block>, lh: seq<nat>, t: nat, h: Disk)
    requires t < |lh| && L.Valid() && SameHome(L, Overlay(d, dirty), h)
    requires L.Home(lh[t]) && t + 1 < L.size && d[L.start + 1 + t] == h[lh[t]]
    ensures SameHome(L, Overlay(InstallSlot(L, d, lh, t), dirty - {lh[t]}), h)
  {
  }

  lemma InstallDisk(L: Layout, init: Disk, s: State, t: State)
    requires L.Valid() && InvDisk(L, init, s) && WriteStep(L, s, Install, t)
    ensures InvDisk(L, init, t)
  {
    var k, h := s.phase.t, Replay(init, s.done);
    assert s.done + s.cur == s.done;
    InstallCopied(L, s.disk, s.lh, k, h);
    OverlayInstall(L, s.disk, s.dirty, s.lh, k, h);
    UnpinKeys(s.dirty, s.lh, k);
  }

  lemma UnpinKeys(dirty: map<nat, Block>, lh: seq<nat>, t: nat)
    requires t < |lh| && Distinct(lh) && dirty.Keys == Elems(lh[t..])
    ensures (dirty - {lh[t]}).Keys == Elems(lh[t+1..])
  {
  }

  lemma AllCopied(L: Layout, d: Disk, lh: seq<nat>, h: Disk)
    requires L.Valid() && Copied(L, d, lh, |lh|, h)
    ensures SameHome(L, d, h)
    ensures Shows(L, WriteHead(L, d, []), h) && Committed(L, WriteHead(L, d, [])) == []
    ensures SameHome(L, Overlay(WriteHead(L, d, []), map[]), h)
  {
  }

  lemma ClearDisk(L: Layout, init: Disk, s: State, e: Event, t: State)
    requires L.Valid() && InvDisk(L, init, s) && (e == Clear || e == RecoverClear) && WriteStep(L, s, e, t)
    ensures InvDisk(L, init, t)
  {
    AllCopied(L, s.disk, s.lh, Replay(init, s.done));
    assert s.lh[|s.lh|..] == [];
    assert s.dirty == map[];
    assert s.done + s.cur == s.done;
  }

  lemma ReadHeadDisk(L: Layout, init: Disk, s: State, t: State)
    requires L.Valid() && InvDisk(L, init, s) && WriteStep(L, s, ReadHead, t)
    ensures InvDisk(L, init, t)
  {
    var h := Replay(init, s.done);
    var lh := Committed(L, s.disk);
    assert lh[0..] == lh;
    forall b: nat | L.Home(b) && b !in lh
      ensures s.disk[b] == h[b]
    {
      RedoMiss(L, s.disk, lh, b);
      assert Redo(L, s.disk, lh, b) == h[b];
    }
  }

  lemma ReinstallDisk(L: Layout, init: Disk, s: State, t: State)
    requires L.Valid() && InvDisk(L, init, s) && WriteStep(L, s, Reinstall, t)
    ensures InvDisk(L, init, t)
  {
    InstallCopied(L, s.disk, s.lh, s.phase.t, Replay(init, s.done));
  }

  lemma CrashDisk(L: Layout, init: Disk, s: State)
    requires L.Valid() && InvDisk(L, init, s)
    ensures InvDisk(L, init, Crashed(s))
  {
  }

  // ---- Every step ----

  /** Outside Idle no operation is running, so commit and recovery leave the accounting alone. */
  lemma QuietOps(L: Layout, s: State, e: Event, t: State)
    requires InvFlags(s) && InvRoom(s) && InvPending(L, s) && WriteStep(L, s, e, t)
    ensures InvFlags(t) && InvRoom(t) && InvPending(L, t)
  {
    IdleOps(s.ops);
    if e == Head {
      NoneRunning(Harden(s.ops));
    }
  }

  lemma QuietHistory(L: Layout, s: State, e: Event, t: State)
    requires InvFlags(s) && InvOps(s) && InvCur(s) && WriteStep(L, s, e, t)
    ensures InvOps(t) && InvCur(t)
  {
    IdleOps(s.ops);
    forall i: nat
      ensures e == Head ==> Of(t.done, i) == Of(s.done, i) + Of(s.cur, i)
    {
      OfAppend(s.done, s.cur, i);
    }
    forall i | 0 <= i < |t.ops|
      ensures InvOp(t, i)
    {
      assert InvOp(s, i);
    }
  }

  lemma CommitAccounts(L: Layout, s: State, e: Event, t: State)
    requires Accounts(L, s) && WriteStep(L, s, e, t)
    ensures Accounts(L, t)
  {
    QuietOps(L, s, e, t);
    QuietHistory(L, s, e, t);
  }

  lemma CommitDisk(L: Layout, init: Disk, s: State, e: Event, t: State)
    requires L.Valid() && InvDisk(L, init, s) && WriteStep(L, s, e, t)
    ensures InvDisk(L, init, t)
  {
    match e
    case LogSlot => SlotDisk(L, init, s, t);
    case Head => HeadDisk(L, init, s, t);
    case Install => InstallDisk(L, init, s, t);
    case Clear => ClearDisk(L, init, s, e, t);
    case RecoverClear => ClearDisk(L, init, s, e, t);
    case Close => CloseDisk(L, init, s, t);
    case ReadHead => ReadHeadDisk(L, init, s, t);
    case Reinstall => ReinstallDisk(L, init, s, t);
  }

  lemma CrashAccounts(L: Layout, s: State)
    requires Accounts(L, s)
    ensures Accounts(L, Crashed(s))
  {
    var t := Crashed(s);
    NoneRunning(t.ops);
    forall i | 0 <= i < |t.ops|
      ensures InvOp(t, i)
    {
      assert InvOp(s, i);
    }
  }

  /** A panic changes nothing else. */
  lemma PanicAccounts(L: Layout, s: State, t: State)
    requires Accounts(L, s) && t == s.(panicked := true)
    ensures Accounts(L, t)
  {
    forall i | 0 <= i < |t.ops|
      ensures InvOp(t, i)
    {
      assert InvOp(s, i);
    }
  }

  lemma NextAccounts(L: Layout, s: State, e: Event, t: State)
    requires Accounts(L, s) && Next(L, s, e, t) && Budgeted(s)
    ensures Accounts(L, t)
  {
    match e
    case Crash => CrashAccounts(L, s);
    case Begin => BeginAccounts(L, s, t);
    case Check(op, b, data) => CheckOps(L, s, op, b, data, t);
    case Append(op) => AppendAccounts(L, s, op, t);
    case End(op) => EndAccounts(L, s, op, t);
    case _ =>
      if Starved(s, e) {
        PanicAccounts(L, s, t);
      } else {
        CommitAccounts(L, s, e, t);
      }
  }

  // ---- Pinned buffers ----

  lemma AppendPinned(lh: seq<nat>, dirty: map<nat, Block>, w: Write)
    requires Distinct(lh) && dirty.Keys == Elems(lh)
    ensures Distinct(Absorb(lh, w.b)) && dirty[w.b := w.data].Keys == Elems(Absorb(lh, w.b))
  {
  }

  lemma WritePinned(L: Layout, s: State, e: Event, t: State)
    requires InvPinned(s) && !Starved(s, e) && WriteStep(L, s, e, t)
    ensures InvPinned(t)
  {
    match e
    case LogSlot =>
      FewerPinned(s.dirty, L.start + 1 + s.phase.t);
    case Head =>
      assert s.lh[0..] == s.lh;
    case Install =>
      FewerPinned(s.dirty, s.lh[s.phase.t]);
      UnpinFirst(s.dirty, s.lh, s.phase.t);
    case Clear =>
      assert s.lh[|s.lh|..] == [] && s.dirty == map[];
    case _ =>
  }

  lemma NextPinned(L: Layout, s: State, e: Event, t: State)
    requires InvFlags(s) && InvPinned(s) && Next(L, s, e, t)
    ensures InvPinned(t)
  {
    match e
    case Crash =>
    case Begin =>
    case Check(op, b, data) =>
    case Append(op) =>
      RoomAt(s.ops, op);
      AppendPinned(s.lh, s.dirty, s.ops[op].pending.value);
    case End(op) =>
      EndFlags(s, op, t);
      RoomAt(s.ops, op);
      assert s.lh == [] ==> s.dirty == map[];
    case _ =>
      if !Starved(s, e) {
        WritePinned(L, s, e, t);
      }
  }

  /** Every step of every process, of commit and of recovery, and a crash, keeps the books,
      whatever the size of the log. */
  lemma NextBooks(L: Layout, s: State, e: Event, t: State)
    requires Books(L, s) && Next(L, s, e, t) && Budgeted(s)
    ensures Books(L, t)
  {
    NextAccounts(L, s, e, t);
    NextPinned(L, s, e, t);
  }

  lemma OpDisk(L: Layout, init: Disk, s: State, e: Event, t: State)
    requires L.Valid() && InvFlags(s) && InvCur(s) && InvPending(L, s) && InvDisk(L, init, s)
    requires Next(L, s, e, t) && (e.Begin? || e.Check? || e.Append? || e.End?) && |t.lh| <= LOGSIZE && |t.lh| < L.size
    ensures InvDisk(L, init, t)
  {
    match e
    case Append(op) => AppendDisk(L, init, s, op, t);
    case End(op) => EndDisk(L, init, s, op, t);
    case _ => DiskFrame(L, init, s, t);
  }

  /** What the disk would recover to stays right for as long as the listed blocks fit the log. */
  lemma NextDisk(L: Layout, init: Disk, s: State, e: Event, t: State)
    requires L.Valid() && InvFlags(s) && InvCur(s) && InvPending(L, s) && InvDisk(L, init, s)
    requires Next(L, s, e, t) && |t.lh| <= LOGSIZE && |t.lh| < L.size
    ensures InvDisk(L, init, t)
  {
    if e == Crash {
      CrashDisk(L, init, s);
    } else if e.Begin? || e.Check? || e.Append? || e.End? {
      OpDisk(L, init, s, e, t);
    } else if Starved(s, e) {
      DiskFrame(L, init, s, t);
    } else {
      CommitDisk(L, init, s, e, t);
    }
  }

  /** All of the invariant together. */
  lemma NextInv(L: Layout, init: Disk, s: State, e: Event, t: State)
    requires Inv(L, init, s) && Next(L, s, e, t) && Budgeted(s) && |t.lh| < L.size
    ensures Inv(L, init, t)
  {
    NextBooks(L, s, e, t);
    assert InvRoom(t);
    NextDisk(L, init, s, e, t);
  }

  lemma CloseDisk(L: Layout, init: Disk, s: State, t: State)
    requires L.Valid() && InvDisk(L, init, s) && WriteStep(L, s, Close, t)
    ensures InvDisk(L, init, t)
  {
  }

  // ---- Runs ----

  /** A finite run from boot to its latest state. */
  datatype Trace = Boot(last: State) | Then(past: Trace, event: Event, last: State)

  /** Every step is a step of the system and every operation stays within its budget. */
  ghost predicate Run(L: Layout, init: Disk, r: Trace) {
    match r
    case Boot(s) => Init(L, init, s)
    case Then(p, e, s) => Run(L, init, p) && Next(L, p.last, e, s) && Budgeted(s)
  }

  /** `r` continues `q`. */
  ghost predicate Continues(r: Trace, q: Trace) {
    r == q || (r.Then? && Continues(r.past, q))
  }

  /** The books are right in every run, whatever the size of the log. */
  lemma {:induction false} RunBooks(L: Layout, init: Disk, r: Trace)
    requires Run(L, init, r)
    ensures Books(L, r.last) && Budgeted(r.last)
  {
    match r
    case Boot(s) =>
      assert Books(L, s);
    case Then(p, e, s) =>
      RunBooks(L, init, p);
      NextBooks(L, p.last, e, s);
  }

  /** At no time were as many blocks listed as the log area holds, header included. */
  ghost predicate Fitting(L: Layout, r: Trace) {
    |r.last.lh| < L.size && (r.Then? ==> Fitting(L, r.past))
  }

  /**
   * As many blocks are listed as there are buffers. All of them are pinned, so the commit will panic in bget before it
   * writes anything, and what a crash recovers to is still right, even if the log area could not hold the list.
   */
  ghost predicate Stuck(L: Layout, init: Disk, s: State) {
    && L.Valid() && Books(L, s) && |init| == L.blocks && |s.lh| >= NBUF && (s.phase == Idle || s.phase == WritingLog(0))
    && Shows(L, s.disk, Replay(init, s.done)) && HeadCount(s.disk[L.start]) == 0
  }

  ghost predicate Safe(L: Layout, init: Disk, s: State) {
    Inv(L, init, s) || Stuck(L, init, s)
  }

  lemma StuckCrash(L: Layout, init: Disk, s: State)
    requires Stuck(L, init, s)
    ensures InvDisk(L, init, Crashed(s))
  {
    assert Committed(L, s.disk) == [];
  }

  lemma StuckStays(L: Layout, init: Disk, s: State, e: Event, t: State)
    requires Stuck(L, init, s) && Next(L, s, e, t) && Books(L, t) && e != Crash
    ensures Stuck(L, init, t)
  {
    AllPinned(s);
    if e.End? {
      EndFlags(s, e.op, t);
    }
  }

  /** log_write lists as many blocks as the log area holds. */
  lemma Overfilled(L: Layout, init: Disk, s: State, op: nat, t: State)
    requires Inv(L, init, s) && AppendStep(s, op, t) && Books(L, t) && |t.lh| >= NBUF
    ensures Stuck(L, init, t)
  {
    RoomAt(s.ops, op);
  }

  /** Nothing else does. */
  lemma StillFits(L: Layout, s: State, e: Event, t: State)
    requires L.Fits(s.lh) && HeadOK(L, s.disk) && Next(L, s, e, t) && !e.Append?
    ensures |t.lh| < L.size
  {
  }

  lemma NextSafe(L: Layout, init: Disk, s: State, e: Event, t: State)
    requires Safe(L, init, s) && Next(L, s, e, t) && Budgeted(s) && (L.size >= NBUF || |t.lh| < L.size)
    requires Stuck(L, init, s) ==> L.size >= NBUF
    ensures Safe(L, init, t)
  {
    NextBooks(L, s, e, t);
    if Inv(L, init, s) {
      if !e.Append? {
        StillFits(L, s, e, t);
      }
      if |t.lh| < L.size {
        NextInv(L, init, s, e, t);
      } else {
        Overfilled(L, init, s, e.op, t);
      }
    } else if e == Crash {
      StuckCrash(L, init, s);
    } else {
      StuckStays(L, init, s, e, t);
    }
  }

  /** The log area was never overrun, or the buffers run out first. */
  ghost predicate Contained(L: Layout, r: Trace) {
    L.size >= NBUF || Fitting(L, r)
  }

  lemma {:induction false} RunSafe(L: Layout, init: Disk, r: Trace)
    requires Run(L, init, r) && Contained(L, r)
    ensures Safe(L, init, r.last) && Budgeted(r.last)
  {
    match r
    case Boot(s) =>
      InitInv(L, init, s);
    case Then(p, e, s) =>
      RunSafe(L, init, p);
      NextSafe(L, init, p.last, e, s);
  }

  lemma {:induction false} RunInv(L: Layout, init: Disk, r: Trace)
    requires Run(L, init, r) && Fitting(L, r)
    ensures Inv(L, init, r.last) && Budgeted(r.last)
  {
    match r
    case Boot(s) =>
      InitInv(L, init, s);
    case Then(p, e, s) =>
      RunInv(L, init, p);
      NextInv(L, init, p.last, e, s);
  }

  lemma AllOrNothing(s: State)
    requires InvOps(s)
    ensures forall i :: 0 <= i < |s.ops| ==>
              || Of(s.done, i) == []
              || (Of(s.done, i) == s.ops[i].writes && s.ops[i].state == Durable)
    ensures forall i :: 0 <= i < |s.ops| && s.ops[i].state == Durable ==> Of(s.done, i) == s.ops[i].writes
  {
    forall i | 0 <= i < |s.ops|
      ensures Of(s.done, i) == [] || (Of(s.done, i) == s.ops[i].writes && s.ops[i].state == Durable)
      ensures s.ops[i].state == Durable ==> Of(s.done, i) == s.ops[i].writes
    {
      assert InvOp(s, i);
    }
  }

  /** System-call atomicity: at every instant of every run, of each operation all its writes are done or none of them,
      and a crash recovers to exactly the writes done so far unless a log area smaller than the cache was overrun. */
  lemma Atomicity(L: Layout, init: Disk, r: Trace)
    requires Run(L, init, r)
    ensures Contained(L, r) ==> Shows(L, r.last.disk, Replay(init, r.last.done))
    ensures forall i :: 0 <= i < |r.last.ops| ==>
              || Of(r.last.done, i) == []
              || (Of(r.last.done, i) == r.last.ops[i].writes && r.last.ops[i].state == Durable)
    ensures forall i :: 0 <= i < |r.last.ops| && r.last.ops[i].state == Durable ==>
              Of(r.last.done, i) == r.last.ops[i].writes
  {
    RunBooks(L, init, r);
    AllOrNothing(r.last);
    if Contained(L, r) {
      RunSafe(L, init, r);
    }
  }

  lemma ClearedHome(L: Layout, init: Disk, s: State)
    requires InvDisk(L, init, s) && L.Valid() && HeadCount(s.disk[L.start]) == 0
    ensures SameHome(L, s.disk, Replay(init, s.done))
  {
  }

  lemma Finished(L: Layout, s: State, e: Event, t: State)
    requires InvPinned(s) && Next(L, s, e, t) && (e == RecoverClear || e == Clear)
    ensures t.lh == [] && (t.phase == Idle || t.phase == Closing)
  {
    if e == Clear {
      assert s.lh[|s.lh|..] == [] && s.dirty == map[];
    }
  }

  /** When recovery, or a commit, finishes, the home blocks themselves hold exactly the done writes. */
  lemma Recovered(L: Layout, init: Disk, r: Trace)
    requires Run(L, init, r) && Contained(L, r)
    requires r.Then? && (r.event == RecoverClear || r.event == Clear)
    ensures SameHome(L, r.last.disk, Replay(init, r.last.done))
    ensures L.start < |r.last.disk| && HeadCount(r.last.disk[L.start]) == 0
  {
    RunSafe(L, init, r);
    RunBooks(L, init, r.past);
    Finished(L, r.past.last, r.event, r.last);
    ClearedHome(L, init, r.last);
  }

  lemma StepDurable(L: Layout, s: State, e: Event, t: State, op: nat)
    requires Next(L, s, e, t) && op < |s.ops| && s.ops[op].state == Durable
    ensures op < |t.ops| && t.ops[op] == s.ops[op]
  {
  }

  lemma {:induction false} StaysDurable(L: Layout, init: Disk, q: Trace, r: Trace, op: nat)
    requires Run(L, init, r) && Continues(r, q)
    requires op < |q.last.ops| && q.last.ops[op].state == Durable
    ensures op < |r.last.ops| && r.last.ops[op] == q.last.ops[op]
  {
    if r != q {
      StaysDurable(L, init, q, r.past, op);
      StepDurable(L, r.past.last, r.event, r.last, op);
    }
  }

  /** Once durable, an operation and all its writes survive every later step, crashes included. */
  lemma Durability(L: Layout, init: Disk, q: Trace, r: Trace, op: nat)
    requires Run(L, init, r) && Continues(r, q)
    requires op < |q.last.ops| && q.last.ops[op].state == Durable
    ensures op < |r.last.ops| && r.last.ops[op] == q.last.ops[op]
    ensures Of(r.last.done, op) == q.last.ops[op].writes
  {
    StaysDurable(L, init, q, r, op);
    RunBooks(L, init, r);
    assert InvOp(r.last, op);
  }

  /** A commit only runs while no operation is outstanding, and the end_op that runs it
      returns only after every operation that had ended is durable. */
  lemma EndOpDurable(L: Layout, init: Disk, r: Trace)
    requires Run(L, init, r)
    ensures r.last.committing ==> r.last.outstanding == 0
    ensures r.last.phase == Closing ==>
              forall i :: 0 <= i < |r.last.ops| ==> r.last.ops[i].state == Durable || r.last.ops[i].state == Lost
  {
    RunBooks(L, init, r);
    if r.last.phase == Closing {
      IdleOps(r.last.ops);
    }
  }

  // ---- Panics ----

  /** An in-budget log_write of a new block never panics and always finds a slot,
      however its unlocked size test races. */
  lemma NewBlockNeverPanics(L: Layout, init: Disk, r: Trace, op: nat, b: nat)
    requires Run(L, init, r) && L.size > LOGSIZE
    requires IsRunning(r.last, op) && |WrittenBlocks(r.last.ops[op]) + {b}| <= MAXOPBLOCKS && b !in r.last.lh
    ensures !TooBig(|r.last.lh|, L.size) && r.last.outstanding >= 1
  {
    RunBooks(L, init, r);
    SlotFree(r.last, op, b);
    RoomAt(r.last.ops, op);
  }

  /** When the commit begins, as many buffers are pinned as blocks are listed. */
  lemma AllPinned(s: State)
    requires InvPinned(s) && (s.phase == Idle || s.phase == WritingLog(0))
    ensures |s.dirty| == |s.lh|
  {
    ElemsSize(s.lh);
    assert |s.dirty| == |s.dirty.Keys|;
  }

  /** The two panics: log_write's size test, and bget before the first write of a commit with every buffer pinned. */
  predicate Panics(L: Layout, s: State, e: Event) {
    || (e.Check? && TooBig(|s.lh|, L.size))
    || (e == LogSlot && s.phase == WritingLog(0) && |s.lh| >= NBUF)
  }

  lemma StepPanics(L: Layout, s: State, e: Event, t: State)
    requires Books(L, s) && Next(L, s, e, t) && !s.panicked
    ensures t.panicked <==> Panics(L, s, e)
  {
    match e
    case Check(op, b, data) => RoomAt(s.ops, op);
    case End(op) => EndFlags(s, op, t);
    case LogSlot =>
      if s.phase == WritingLog(0) {
        AllPinned(s);
      }
    case Clear => assert s.lh[|s.lh|..] == [] && s.dirty == map[];
    case _ =>
  }

  /** In every run there are just those two panics. In a log of more than LOGSIZE blocks the size test fires exactly
      when the header array is full, even for a block already listed, which would need no slot. */
  lemma PanicExactly(L: Layout, init: Disk, r: Trace)
    requires Run(L, init, r) && r.Then? && !r.past.last.panicked
    ensures r.last.panicked <==> Panics(L, r.past.last, r.event)
    ensures L.size > LOGSIZE && r.event.Check? ==> (r.last.panicked <==> |r.past.last.lh| == LOGSIZE)
  {
    RunBooks(L, init, r.past);
    StepPanics(L, r.past.last, r.event, r.last);
  }
}
