/** sleeplock.c: acquiresleep and releasesleep as clients of sleep and wakeup. */
module SleepLock {
  import Monitor

  datatype Lock = Lock(locked: bool, pid: nat)

  /** acquiresleep past its loop, which calls no wakeup, and releasesleep, which does. */
  predicate Step(s: Lock, wakes: bool, t: Lock) {
    if wakes then t == Lock(false, 0) else !s.locked && t.locked
  }

  function Client(): (m: Monitor.Client<Lock>) {
    Monitor.Client((s: Lock) => s == Lock(false, 0), (s: Lock) => s.locked, (s, wakes, t) => Step(s, wakes, t),
                   (_, _) => false)
  }

  /** In every interleaving, a process asleep in acquiresleep means that the lock is held or a wakeup is on its way. */
  lemma AsleepInAcquire(t: Monitor.Trace<Lock>, p: nat)
    requires Monitor.Runs(Client(), t) && p in t.last.pcs && t.last.pcs[p] == Monitor.Asleep
    ensures t.last.s.locked || Monitor.WakeupDue(t.last)
  {
    assert Monitor.Dutiful(Client());
    Monitor.NoLostWakeup(Client(), t, p);
  }

  /** Where everybody is stuck, nobody waits for a free lock. */
  lemma NobodyStuck(t: Monitor.Trace<Lock>)
    requires Monitor.Runs(Client(), t) && !t.last.s.locked
    requires Monitor.Halted(Client(), t.last)
    ensures forall p :: p in t.last.pcs ==> t.last.pcs[p] == Monitor.Outside
  {
    assert Monitor.Dutiful(Client());
    Monitor.StuckOnlyBlocked(Client(), t);
  }
}
