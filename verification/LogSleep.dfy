/** Processes asleep in begin_op: the sleep protocol of proc.c around the condition of log.c. */
module LogSleep {
  import opened LogDisk
  import Log
  import opened GroupCommit
  import opened GroupCommitProofs
  import Monitor

  /** The condition begin_op tests under log.lock. */
  predicate MustWait(s: State) {
    !Log.Admits(|s.lh|, s.outstanding, s.committing)
  }

  /** With no operation outstanding and no commit under way, or one that is over, there is nothing in the log. */
  predicate Drained(s: State) {
    (s.phase == Idle && s.outstanding == 0) || s.phase == Closing ==> s.lh == []
  }

  lemma StepDrained(L: Layout, s: State, e: Event, t: State)
    requires InvFlags(s) && Drained(s) && Next(L, s, e, t)
    ensures Drained(t)
  {
    if e.Append? {
      RoomAt(s.ops, e.op);
    }
  }

  lemma {:induction false} RunDrained(L: Layout, init: Disk, r: Trace)
    requires Run(L, init, r)
    ensures Drained(r.last)
  {
    match r
    case Boot(s) =>
    case Then(p, e, s) =>
      RunBooks(L, init, p);
      RunDrained(L, init, p);
      StepDrained(L, p.last, e, s);
  }

  /** A state some run passes through with the file system mounted. */
  ghost predicate Reached(L: Layout, init: Disk, s: State) {
    && !s.phase.ReadingHead? && !s.phase.Reinstalling?
    && exists r :: Run(L, init, r) && r.last == s
  }

  /** Steps under log.lock: begin_op, the update of log_write, end_op's two visits. */
  predicate Guarded(e: Event) {
    e.Begin? || e.Append? || e.End? || e.Close?
  }

  /** Steps without it: the size test of log_write, and the writes of commit with the reset of the list that follows. */
  predicate Unguarded(e: Event) {
    e.Check? || e.LogSlot? || e.Head? || e.Install? || e.Clear?
  }

  /** The two calls of wakeup in end_op: while operations remain, and when the commit is over. */
  predicate Wakes(s: State, e: Event) {
    (e.End? && s.outstanding > 1) || e == Close
  }

  ghost predicate Moves(L: Layout, init: Disk, s: State, e: Event, t: State) {
    Reached(L, init, s) && Next(L, s, e, t) && Budgeted(t)
  }

  ghost predicate Locked(L: Layout, init: Disk, s: State, wakes: bool, t: State) {
    exists e :: Guarded(e) && Moves(L, init, s, e, t) && wakes == Wakes(s, e)
  }

  ghost predicate Unlocked(L: Layout, init: Disk, s: State, t: State) {
    exists e :: Unguarded(e) && Moves(L, init, s, e, t)
  }

  /** The log as a client of sleep and wakeup. */
  ghost function Client(L: Layout, init: Disk): (m: Monitor.Client<State>) {
    Monitor.Client(s => Reached(L, init, s), MustWait,
                   (s, wakes, t) => Locked(L, init, s, wakes, t), (s, t) => Unlocked(L, init, s, t))
  }

  /** A step that lets a waiting begin_op through is one of the two that call wakeup. */
  lemma UnblockedByEndOp(L: Layout, init: Disk, s: State, e: Event, t: State)
    requires Moves(L, init, s, e, t) && MustWait(s) && !MustWait(t) && e != Crash
    ensures Wakes(s, e)
  {
    var r :| Run(L, init, r) && r.last == s;
    RunBooks(L, init, r);
    Unblocks(L, s, e, t);
  }

  lemma Unblocks(L: Layout, s: State, e: Event, t: State)
    requires InvFlags(s) && Next(L, s, e, t) && !s.phase.ReadingHead? && !s.phase.Reinstalling?
    requires MustWait(s) && !MustWait(t) && e != Crash
    ensures Wakes(s, e)
  {
    if e.End? {
      EndFlags(s, e.op, t);
    }
  }

  /** log.c does its duty by its sleepers, in every state its runs reach and for a log of any size. */
  lemma LogDutiful(L: Layout, init: Disk)
    ensures Monitor.Dutiful(Client(L, init))
  {
    var m := Client(L, init);
    forall s, wakes, t | m.next(s, wakes, t) && m.blocked(s) && !m.blocked(t)
      ensures wakes
    {
      var e :| Guarded(e) && Moves(L, init, s, e, t) && wakes == Wakes(s, e);
      UnblockedByEndOp(L, init, s, e, t);
    }
    forall s, t | m.drift(s, t) && m.blocked(s)
      ensures m.blocked(t)
    {
      var e :| Unguarded(e) && Moves(L, init, s, e, t);
      if !m.blocked(t) {
        UnblockedByEndOp(L, init, s, e, t);
      }
    }
  }

  lemma StaysMounted(L: Layout, s: State, e: Event, t: State)
    requires Next(L, s, e, t) && (Guarded(e) || Unguarded(e)) && !s.phase.ReadingHead? && !s.phase.Reinstalling?
    ensures !t.phase.ReadingHead? && !t.phase.Reinstalling?
  {
  }

  lemma MovesReached(L: Layout, init: Disk, s: State, e: Event, t: State)
    requires Moves(L, init, s, e, t) && (Guarded(e) || Unguarded(e))
    ensures Reached(L, init, t)
  {
    StaysMounted(L, s, e, t);
    var r :| Run(L, init, r) && r.last == s;
    assert Run(L, init, Then(r, e, t));
  }

  lemma KeepsReached(L: Layout, init: Disk)
    ensures Monitor.Keeps(Client(L, init), s => Reached(L, init, s))
  {
    var m := Client(L, init);
    forall s, wakes, t | m.next(s, wakes, t)
      ensures Reached(L, init, t)
    {
      var e :| Guarded(e) && Moves(L, init, s, e, t) && wakes == Wakes(s, e);
      MovesReached(L, init, s, e, t);
    }
    forall s, t | m.drift(s, t)
      ensures Reached(L, init, t)
    {
      var e :| Unguarded(e) && Moves(L, init, s, e, t);
      MovesReached(L, init, s, e, t);
    }
  }

  /** begin_op only has to wait while a commit or an operation is under way. */
  lemma WaitsForSomeone(L: Layout, init: Disk, s: State)
    requires Reached(L, init, s) && MustWait(s)
    ensures s.committing || s.outstanding > 0
  {
    var r :| Run(L, init, r) && r.last == s;
    RunBooks(L, init, r);
    RunDrained(L, init, r);
  }

  /** In every interleaving, a process asleep in begin_op means a commit, an operation, or a wakeup under way. */
  lemma AsleepInBeginOp(L: Layout, init: Disk, t: Monitor.Trace<State>, p: nat)
    requires Monitor.Runs(Client(L, init), t)
    requires p in t.last.pcs && t.last.pcs[p] == Monitor.Asleep
    ensures t.last.s.committing || t.last.s.outstanding > 0 || Monitor.WakeupDue(t.last)
  {
    LogDutiful(L, init);
    Monitor.NoLostWakeup(Client(L, init), t, p);
    KeepsReached(L, init);
    Monitor.RunKeeps(Client(L, init), s => Reached(L, init, s), t);
    if MustWait(t.last.s) {
      WaitsForSomeone(L, init, t.last.s);
    }
  }
}
