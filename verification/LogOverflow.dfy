/**
 * log_write tests the size of the log before it takes log.lock and does not test again under it. Two operations can so
 * list one block more than the log area holds, and write_log then writes the last slot over the first home block after
 * the log, unless the list has pinned every buffer and bget panics first. Exactly when each of these can happen, runs
 * in which they do, and what rules them out.
 */
module LogOverflow {
  import opened Common
  import opened Blocks
  import opened LogDisk
  import opened Log
  import opened GroupCommit
  import opened GroupCommitProofs
  import opened LogCapacity
  import opened Params

  // ---- Logs that never overflow ----

  /** log_writes between their size test and their update. */
  function PendingOf(o: Op): (n: nat) {
    if o.state == Running && o.pending.Some? then 1 else 0
  }

  function Pending(ops: seq<Op>): (n: nat) {
    if |ops| == 0 then 0 else Pending(ops[..|ops|-1]) + PendingOf(ops[|ops|-1])
  }

  lemma {:induction false} PendingUpdate(ops: seq<Op>, i: nat, o: Op)
    requires i < |ops|
    ensures Pending(ops[i := o]) == Pending(ops) - PendingOf(ops[i]) + PendingOf(o)
  {
    var n := |ops| - 1;
    if i == n {
      assert ops[i := o][..n] == ops[..n];
    } else {
      PendingUpdate(ops[..n], i, o);
      assert ops[i := o][..n] == ops[..n][i := o];
    }
  }

  lemma {:induction false} NonePending(ops: seq<Op>)
    requires forall i :: 0 <= i < |ops| ==> PendingOf(ops[i]) == 0
    ensures Pending(ops) == 0
  {
    if |ops| > 0 {
      NonePending(ops[..|ops|-1]);
    }
  }

  /** The blocks listed and the log_writes that may still list one fit the log area. */
  ghost predicate Ample(L: Layout, s: State) {
    |s.lh| + Pending(s.ops) < L.size
  }

  /** No log_write passes its size test while those under way could use up what is left of the log. */
  ghost predicate Unhurried(L: Layout, r: Trace) {
    r.Then? ==>
      && Unhurried(L, r.past)
      && (r.event.Check? && !r.last.panicked ==> |r.past.last.lh| + Pending(r.past.last.ops) < L.size - 1)
  }

  /** The size test and the update are one step: no log_write is tested while another is under way. */
  ghost predicate Locked(r: Trace) {
    r.Then? ==> Locked(r.past) && (r.event.Check? ==> Pending(r.past.last.ops) == 0)
  }

  lemma AmpleWrite(L: Layout, s: State, e: Event, t: State)
    requires Ample(L, s) && Next(L, s, e, t) && (e.Check? || e.Append? || e.Begin? || e.End?)
    requires e.Check? && !t.panicked ==> |s.lh| + Pending(s.ops) < L.size - 1
    requires e.End? ==> !s.committing
    ensures Ample(L, t)
  {
    match e
    case Check(op, b, data) =>
      PendingUpdate(s.ops, op, s.ops[op].(pending := Some(Write(op, b, data))));
    case Append(op) =>
      PendingUpdate(s.ops, op, t.ops[op]);
    case Begin =>
      assert t.ops[..|s.ops|] == s.ops;
    case End(op) =>
      var ended := s.ops[op := s.ops[op].(state := Ended)];
      PendingUpdate(s.ops, op, s.ops[op].(state := Ended));
      if t.ops != ended {
        HardenPending(ended);
      }
  }

  lemma {:induction false} HardenPending(ops: seq<Op>)
    ensures Pending(Harden(ops)) == Pending(ops)
  {
    if |ops| > 0 {
      HardenPending(ops[..|ops|-1]);
      assert Harden(ops)[..|ops|-1] == Harden(ops[..|ops|-1]);
    }
  }

  /** Commit, recovery and a crash leave no operation running. */
  lemma QuietPending(L: Layout, s: State, e: Event, t: State)
    requires InvFlags(s) && Next(L, s, e, t) && !(e.Check? || e.Append? || e.Begin? || e.End?)
    ensures Pending(t.ops) == 0
  {
    if e != Crash {
      assert s.outstanding == 0;
      IdleOps(s.ops);
    }
    forall i | 0 <= i < |t.ops|
      ensures t.ops[i].state != Running
    {
    }
    NonePending(t.ops);
  }

  lemma QuietAmple(L: Layout, init: Disk, s: State, e: Event, t: State)
    requires Inv(L, init, s) && Next(L, s, e, t) && !(e.Check? || e.Append? || e.Begin? || e.End?)
    ensures Ample(L, t)
  {
    StillFits(L, s, e, t);
    QuietPending(L, s, e, t);
  }

  lemma {:induction false} UnhurriedAmple(L: Layout, init: Disk, r: Trace)
    requires Run(L, init, r) && Unhurried(L, r)
    ensures Ample(L, r.last) && Fitting(L, r)
  {
    match r
    case Boot(s) =>
    case Then(p, e, s) =>
      UnhurriedAmple(L, init, p);
      RunInv(L, init, p);
      if e.Check? || e.Append? || e.Begin? || e.End? {
        if e.End? {
          EndFlags(p.last, e.op, s);
        }
        AmpleWrite(L, p.last, e, s);
      } else {
        QuietAmple(L, init, p.last, e, s);
      }
  }

  /** What the size test says of the one log_write it is made for. */
  lemma PassedFits(L: Layout, s: State, e: Event, t: State)
    requires Next(L, s, e, t) && e.Check?
    ensures t.panicked || |s.lh| < L.size - 1
  {
  }

  lemma {:induction false} LockedUnhurried(L: Layout, init: Disk, r: Trace)
    requires Run(L, init, r) && Locked(r)
    ensures Unhurried(L, r)
  {
    if r.Then? {
      LockedUnhurried(L, init, r.past);
      if r.event.Check? {
        PassedFits(L, r.past.last, r.event, r.last);
      }
    }
  }

  /** More than LOGSIZE blocks are never listed, so a log with room for more cannot overflow. */
  lemma {:induction false} LargeFits(L: Layout, init: Disk, r: Trace)
    requires Run(L, init, r) && L.size > LOGSIZE
    ensures Fitting(L, r)
  {
    RunBooks(L, init, r);
    if r.Then? {
      LargeFits(L, init, r.past);
    }
  }

  /** A log area of the header alone takes no block at all. */
  lemma {:induction false} HeaderOnlyUnhurried(L: Layout, init: Disk, r: Trace)
    requires Run(L, init, r) && L.size == 1
    ensures Unhurried(L, r)
  {
    if r.Then? {
      HeaderOnlyUnhurried(L, init, r.past);
    }
  }

  /** Atomicity in a log of any size, the one mkfs makes included, while log_writes leave one another room. */
  lemma UnhurriedAtomicity(L: Layout, init: Disk, r: Trace)
    requires Run(L, init, r) && Unhurried(L, r)
    ensures Shows(L, r.last.disk, Replay(init, r.last.done))
  {
    UnhurriedAmple(L, init, r);
    RunInv(L, init, r);
  }

  /** With the size test made under log.lock, a log of any size is atomic. */
  lemma LockedAtomicity(L: Layout, init: Disk, r: Trace)
    requires Run(L, init, r) && Locked(r)
    ensures Shows(L, r.last.disk, Replay(init, r.last.done))
  {
    LockedUnhurried(L, init, r);
    UnhurriedAtomicity(L, init, r);
  }

  // ---- A run that overflows ----

  /** Log_writes by different operations do not disturb one another. */
  lemma Commute(s: State, a: Write, b: Write)
    requires a.op < |s.ops| && b.op < |s.ops| && a.op != b.op
    ensures Listed(Tried(s, b), a) == Tried(Listed(s, a), b)
    ensures Tried(Tried(s, a), b) == Tried(Tried(s, b), a)
  {
    assert s.ops[a.op := s.ops[a.op].(pending := Some(a))][b.op := s.ops[b.op].(pending := Some(b))]
        == s.ops[b.op := s.ops[b.op].(pending := Some(b))][a.op := s.ops[a.op].(pending := Some(a))];
    var o := Appended(s.ops[a.op], a, a.b !in s.lh);
    var p := s.ops[b.op].(pending := Some(b));
    assert s.ops[b.op := p][a.op := o] == s.ops[a.op := o][b.op := p];
  }

  /** Both pass the size test, then both list their block. */
  lemma TwoAtOnce(L: Layout, R: State -> bool, s: State, k: nat, data: Block) returns (t: State)
    requires Roomy(L) && Closed(L, R) && R(s) && Filled(L, s, k) && !TooBig(k, L.size) && k + 1 < LOGSIZE
    ensures R(t) && Filled(L, t, k + 2)
    ensures t.lh[k + 1] in t.dirty && t.dirty[t.lh[k + 1]] == data
  {
    var a, b := Turn(L, k, ZeroBlock()), Turn(L, k + 1, data);
    assert a.op != b.op;
    TurnOpen(L, s, k, ZeroBlock());
    TryReach(L, R, s, a);
    TurnOpens(L, s, k, a, b);
    TryReach(L, R, Tried(s, a), b);
    Commute(s, a, b);
    ListReach(L, R, Tried(s, b), a);
    ListedFilled(L, s, k, ZeroBlock());
    TurnOpen(L, Listed(s, a), k + 1, data);
    ListReach(L, R, Listed(s, a), b);
    ListedFilled(L, Listed(s, a), k + 1, data);
    t := Listed(Listed(s, a), b);
  }

  lemma TurnOpens(L: Layout, s: State, k: nat, a: Write, b: Write)
    requires Roomy(L) && Filled(L, s, k) && k + 1 < LOGSIZE && a == Turn(L, k, a.data) && b == Turn(L, k + 1, b.data)
    ensures Open(L, Tried(s, a), b) && Open(L, Tried(s, b), a)
  {
    TurnShare(L, k, a.data);
    TurnShare(L, k + 1, b.data);
    TriedDealt(L, s, a);
    TriedDealt(L, s, b);
  }

  /** After `n` of the three operations have ended. */
  function AfterEnd(s: State, n: nat): (t: State)
    requires |s.ops| == 3 && n <= 3
  {
    s.(outstanding := 3 - n,
       ops := seq(3, j requires 0 <= j < 3 => if j < n then s.ops[j].(state := Ended) else s.ops[j]),
       committing := n == 3, phase := if n == 3 then WritingLog(0) else s.phase)
  }

  lemma EndedBudget(L: Layout, s: State, n: nat)
    requires AllDealt(L, s) && n <= 3
    ensures Budgeted(AfterEnd(s, n))
  {
    var t := AfterEnd(s, n);
    forall j | 0 <= j < 3
      ensures Dealt(L, t.ops[j], j)
    {
      assert Dealt(L, s.ops[j], j);
      assert Touched(t.ops[j]) == Touched(s.ops[j]);
    }
    DealtBudget(L, t);
  }

  lemma EndReach(L: Layout, R: State -> bool, s: State, k: nat, n: nat)
    requires Closed(L, R) && Filled(L, s, k) && k > 0 && n < 3 && R(AfterEnd(s, n))
    ensures R(AfterEnd(s, n + 1))
  {
    var a, b := AfterEnd(s, n), AfterEnd(s, n + 1);
    assert b.ops == a.ops[n := a.ops[n].(state := Ended)];
    EndedBudget(L, s, n + 1);
    assert Next(L, a, End(n), b);
  }

  lemma EndAll(L: Layout, R: State -> bool, s: State, k: nat)
    requires Closed(L, R) && R(s) && Filled(L, s, k) && k > 0
    ensures R(AfterEnd(s, 3))
  {
    assert AfterEnd(s, 0).ops == s.ops;
    assert AfterEnd(s, 0) == s;
    EndReach(L, R, s, k, 0);
    EndReach(L, R, s, k, 1);
    EndReach(L, R, s, k, 2);
  }

  /** write_log has filled `n` slots, all of them in the log area, and has a buffer for the next. */
  ghost predicate Copying(L: Layout, s: State, n: nat) {
    && L.Valid() && !s.panicked && s.phase == WritingLog(n) && n <= |s.lh| && n < L.size && |s.disk| == L.blocks
    && L.start + |s.lh| < L.blocks && !NoBuffer(s.dirty) && (forall b :: b in s.dirty ==> L.start + L.size <= b)
    && forall i :: 0 <= i < |s.lh| ==> s.lh[i] in s.dirty && s.lh[i] < L.blocks
  }

  /** write_log's next write. */
  function Copy(L: Layout, s: State, n: nat): (t: State)
    requires n < |s.lh| && s.lh[n] in s.dirty && L.start + |s.lh| < |s.disk|
  {
    s.(disk := WriteSlot(L, s.disk, n, s.dirty[s.lh[n]]), dirty := s.dirty - {L.start + 1 + n},
       phase := WritingLog(n + 1))
  }

  lemma CopyReach(L: Layout, R: State -> bool, s: State, n: nat)
    requires Closed(L, R) && R(s) && Copying(L, s, n) && Budgeted(s) && n < |s.lh|
    ensures R(Copy(L, s, n))
  {
    var t := Copy(L, s, n);
    assert WriteStep(L, s, LogSlot, t);
    assert Next(L, s, LogSlot, t);
  }

  lemma CopyKeeps(L: Layout, s: State, n: nat)
    requires Copying(L, s, n) && n < |s.lh| && n + 1 < L.size
    ensures Copy(L, s, n).dirty == s.dirty && Copying(L, Copy(L, s, n), n + 1)
  {
    assert L.start + 1 + n !in s.dirty;
    assert s.dirty - {L.start + 1 + n} == s.dirty;
  }

  /** write_log fills slot after slot of the log area. */
  lemma {:induction false} CopyAll(L: Layout, R: State -> bool, s: State, n: nat) returns (t: State)
    requires Closed(L, R) && R(s) && Copying(L, s, 0) && Budgeted(s) && n <= |s.lh| && n < L.size
    ensures R(t) && Copying(L, t, n) && t == s.(disk := t.disk, phase := WritingLog(n))
    ensures t.disk[L.start] == s.disk[L.start]
  {
    t := s;
    if n > 0 {
      var m := CopyAll(L, R, s, n - 1);
      CopyReach(L, R, m, n - 1);
      CopyKeeps(L, m, n - 1);
      t := Copy(L, m, n - 1);
    }
  }

  /** All three operations have ended with `k` blocks listed, and the commit begins. */
  lemma FilledCommits(L: Layout, R: State -> bool, s: State, k: nat)
    requires Roomy(L) && Closed(L, R) && R(s) && Filled(L, s, k) && 0 < k <= LOGSIZE
    ensures R(AfterEnd(s, 3)) && Budgeted(AfterEnd(s, 3)) && |s.dirty| == k
    ensures k < NBUF ==> Copying(L, AfterEnd(s, 3), 0)
  {
    EndAll(L, R, s, k);
    EndedBudget(L, s, 3);
    ElemsSize(s.lh);
    assert |s.dirty| == |s.dirty.Keys|;
  }

  /**
   * Atomicity fails in every log of fewer than NBUF blocks that holds any block at all. Three operations, each within
   * its budget, list all but one of the blocks that fit; two of them pass the size test together and list one each; all
   * three end. Before the header is written, and with no panic, write_log has replaced the first block after the log.
   */
  lemma AtomicityFails(L: Layout, data: Block) returns (r: Trace)
    requires Roomy(L) && 2 <= L.size < NBUF && data != ZeroBlock()
    ensures Run(L, BlankDisk(L), r) && !r.last.panicked && r.last.done == []
    ensures !Shows(L, r.last.disk, Replay(BlankDisk(L), r.last.done))
  {
    BlankReach(L);
    ReachClosed(L);
    var s := OverflowRun(L, s => Reachable(L, s), data);
    Overwritten(L, s.disk, data);
    r :| Run(L, BlankDisk(L), r) && r.last == s;
  }

  lemma OverflowRun(L: Layout, R: State -> bool, data: Block) returns (t: State)
    requires Roomy(L) && Closed(L, R) && R(Begun(L, 0)) && 2 <= L.size < NBUF
    ensures R(t) && !t.panicked && t.done == []
    ensures |t.disk| == L.blocks && t.disk[L.start] == ZeroBlock() && t.disk[L.start + L.size] == data
  {
    var s := Fill(L, R, L.size - 2);
    s := TwoAtOnce(L, R, s, L.size - 2, data);
    FilledCommits(L, R, s, L.size);
    t := CopyAll(L, R, AfterEnd(s, 3), L.size - 1);
    CopyReach(L, R, t, L.size - 1);
    t := Copy(L, t, L.size - 1);
  }

  // ---- A run in which the buffers run out ----

  /** With a log of NBUF blocks or more, operations within budget can list and pin as many blocks as there are buffers,
      and the commit of all three panics in bget before its first write. */
  lemma CommitPanics(L: Layout) returns (r: Trace)
    requires Roomy(L) && L.size >= NBUF
    ensures Run(L, BlankDisk(L), r) && r.Then? && r.event == LogSlot && !r.past.last.panicked && r.last.panicked
    ensures |r.past.last.dirty| == NBUF && r.last.disk == BlankDisk(L)
  {
    BlankReach(L);
    ReachClosed(L);
    var s := FullRun(L, s => Reachable(L, s));
    var p :| Run(L, BlankDisk(L), p) && p.last == s;
    r := Then(p, LogSlot, s.(panicked := true));
  }

  lemma FullRun(L: Layout, R: State -> bool) returns (t: State)
    requires Roomy(L) && Closed(L, R) && R(Begun(L, 0)) && L.size >= NBUF
    ensures R(t) && Budgeted(t) && !t.panicked && t.phase == WritingLog(0) && t.disk == BlankDisk(L)
    ensures |t.lh| == |t.dirty| == NBUF
  {
    var s := Fill(L, R, NBUF - 2);
    s := TwoAtOnce(L, R, s, NBUF - 2, ZeroBlock());
    FilledCommits(L, R, s, NBUF);
    t := AfterEnd(s, 3);
  }

  lemma Overwritten(L: Layout, d: Disk, data: Block)
    requires Roomy(L) && |d| == L.blocks && d[L.start] == ZeroBlock() && d[L.start + L.size] == data != ZeroBlock()
    ensures !Shows(L, d, BlankDisk(L))
  {
    var b := L.start + L.size;
    ZeroBlockWord(0);
    assert L.Home(b) && Redo(L, d, Committed(L, d), b) == data;
  }

  /** Every run is atomic at every instant. */
  ghost predicate Atomic(L: Layout) {
    forall init, r :: Run(L, init, r) ==> Shows(L, r.last.disk, Replay(init, r.last.done))
  }

  /** What recovery shows is right in every run if and only if the log area has at least as many blocks as the cache has
      buffers, as the one mkfs makes, or holds no block at all. */
  lemma AtomicityIff(L: Layout)
    requires Roomy(L)
    ensures Atomic(L) <==> L.size >= NBUF || L.size == 1
  {
    if L.size >= NBUF || L.size == 1 {
      forall init, r | Run(L, init, r)
        ensures Shows(L, r.last.disk, Replay(init, r.last.done))
      {
        if L.size == 1 {
          HeaderOnlyUnhurried(L, init, r);
          UnhurriedAtomicity(L, init, r);
        } else {
          Atomicity(L, init, r);
        }
      }
    } else {
      var data := SetWord(ZeroBlock(), 0, 1);
      assert data[0] == 1;
      var r := AtomicityFails(L, data);
    }
  }
}
