/**
 * sleep and wakeup (proc.c) around a condition guarded by a spinlock lk, at the granularity of single lock operations,
 * for any number of processes. What the processes do to the guarded state, and when they call wakeup, is a parameter.
 */
module Monitor {
  import opened Common

  /**
   * Where a process is. Entering and Claiming wait for lk, the one to test the condition and the other to change it
   * untested. Testing, Deciding and Changing hold lk; Switching holds both locks; Leaving holds only ptable.lock, about
   * to become SLEEPING. Owing has unblocked the condition and must still call wakeup, and Waking is inside it holding
   * ptable.lock; both say whether lk is held.
   */
  datatype Pc =
    | Outside | Entering | Claiming | Testing | Deciding | Switching | Leaving | Asleep
    | Changing | Owing(locked: bool) | Waking(locked: bool)

  /**
   * A client of sleep and wakeup. `start` holds of the state at first and `blocked` is what a process tests under lk
   * before it sleeps. `next(s, wakes, t)` changes the state under lk, with a call of wakeup before the process leaves
   * exactly when `wakes`. `drift(s, t)` changes it without lk.
   */
  datatype Client<!S> = Client(start: S -> bool, blocked: S -> bool, next: (S, bool, S) -> bool, drift: (S, S) -> bool)

  /** What a client owes its sleepers: whoever unblocks the condition does so under lk and calls wakeup. */
  ghost predicate Dutiful<S(!new)>(m: Client<S>) {
    && (forall s, wakes, t :: m.next(s, wakes, t) && m.blocked(s) && !m.blocked(t) ==> wakes)
    && (forall s, t :: m.drift(s, t) && m.blocked(s) ==> m.blocked(t))
  }

  datatype State<S> = State(s: S, pcs: map<nat, Pc>, lk: Option<nat>, pt: Option<nat>)

  predicate HoldsLk(pc: Pc) {
    pc in {Testing, Deciding, Switching, Changing} || ((pc.Owing? || pc.Waking?) && pc.locked)
  }

  predicate HoldsPt(pc: Pc) {
    pc == Switching || pc == Leaving || pc.Waking?
  }

  /** Asleep, or past the point in sleep where lk has been given up. */
  predicate Sleepy(pc: Pc) {
    pc == Leaving || pc == Asleep
  }

  /** Between unblocking the condition and the end of the wakeup. */
  predicate Owes(pc: Pc) {
    pc.Owing? || pc.Waking?
  }

  datatype Step<S> =
    | Call(test: bool) | TakeLk | Test | TakePt | DropLk | Doze | Change(s: S, wakes: bool) | Drift(s: S)
    | Leave | Wake | Kill

  predicate Enabled<S>(m: Client<S>, st: State<S>, p: nat, step: Step<S>) {
    p in st.pcs &&
    var pc := st.pcs[p];
    match step
    case Call(_) => pc == Outside
    case TakeLk => pc in {Entering, Claiming} && st.lk == None
    case Test => pc == Testing
    case TakePt => (pc == Deciding || pc.Owing?) && st.pt == None
    case DropLk => pc == Switching || pc == Owing(true)
    case Doze => pc == Leaving
    case Change(s, wakes) => pc == Changing && m.next(st.s, wakes, s)
    case Drift(s) => m.drift(st.s, s)
    case Leave => pc == Changing
    case Wake => pc.Waking?
    case Kill => pc == Asleep && st.pt == None
  }

  /** wakeup1: every sleeper becomes RUNNABLE, to take lk again and test again. */
  function Roused(pcs: map<nat, Pc>): (r: map<nat, Pc>) {
    map q | q in pcs :: if pcs[q] == Asleep then Entering else pcs[q]
  }

  function Apply<S>(m: Client<S>, st: State<S>, p: nat, step: Step<S>): (r: State<S>)
    requires Enabled(m, st, p, step)
  {
    var pc := st.pcs[p];
    match step
    case Call(test) => st.(pcs := st.pcs[p := if test then Entering else Claiming])
    case TakeLk => st.(pcs := st.pcs[p := if pc == Entering then Testing else Changing], lk := Some(p))
    case Test => st.(pcs := st.pcs[p := if m.blocked(st.s) then Deciding else Changing])
    case TakePt => st.(pcs := st.pcs[p := if pc == Deciding then Switching else Waking(pc.locked)], pt := Some(p))
    case DropLk => st.(pcs := st.pcs[p := if pc == Switching then Leaving else Owing(false)], lk := None)
    case Doze => st.(pcs := st.pcs[p := Asleep], pt := None)
    case Change(s, wakes) => st.(s := s, pcs := st.pcs[p := if wakes then Owing(true) else Changing])
    case Drift(s) => st.(s := s)
    case Leave => st.(pcs := st.pcs[p := Outside], lk := None)
    case Wake => st.(pcs := Roused(st.pcs)[p := if pc.locked then Changing else Outside], pt := None)
    case Kill => st.(pcs := st.pcs[p := Entering])
  }

  /** lk is held by exactly the process whose place says so. */
  ghost predicate LkHeld<S>(st: State<S>) {
    (st.lk.Some? ==> st.lk.value in st.pcs) && forall p :: p in st.pcs ==> (st.lk == Some(p) <==> HoldsLk(st.pcs[p]))
  }

  /** And ptable.lock. */
  ghost predicate PtHeld<S>(st: State<S>) {
    (st.pt.Some? ==> st.pt.value in st.pcs) && forall p :: p in st.pcs ==> (st.pt == Some(p) <==> HoldsPt(st.pcs[p]))
  }

  ghost predicate Locks<S>(st: State<S>) {
    LkHeld(st) && PtHeld(st)
  }

  ghost predicate WakeupDue<S>(st: State<S>) {
    exists q :: q in st.pcs && Owes(st.pcs[q])
  }

  /** A process that decided to sleep still has reason to; once it gave up lk, that or a wakeup is on its way. */
  ghost predicate Justified<S>(m: Client<S>, st: State<S>) {
    && (forall p :: p in st.pcs && st.pcs[p] in {Deciding, Switching} ==> m.blocked(st.s))
    && (m.blocked(st.s) || WakeupDue(st) || forall p :: p in st.pcs ==> !Sleepy(st.pcs[p]))
  }

  ghost predicate Inv<S>(m: Client<S>, st: State<S>) {
    Locks(st) && Justified(m, st)
  }

  ghost predicate Init<S>(m: Client<S>, st: State<S>) {
    m.start(st.s) && st.lk == None && st.pt == None && forall p :: p in st.pcs ==> st.pcs[p] == Outside
  }

  lemma StepLk<S>(m: Client<S>, st: State<S>, p: nat, step: Step<S>)
    requires LkHeld(st) && Enabled(m, st, p, step)
    ensures LkHeld(Apply(m, st, p, step))
  {
  }

  lemma StepPt<S>(m: Client<S>, st: State<S>, p: nat, step: Step<S>)
    requires PtHeld(st) && Enabled(m, st, p, step)
    ensures PtHeld(Apply(m, st, p, step))
  {
  }

  lemma StepLocks<S>(m: Client<S>, st: State<S>, p: nat, step: Step<S>)
    requires Locks(st) && Enabled(m, st, p, step)
    ensures Locks(Apply(m, st, p, step))
  {
    StepLk(m, st, p, step);
    StepPt(m, st, p, step);
  }

  lemma StepJustified<S(!new)>(m: Client<S>, st: State<S>, p: nat, step: Step<S>)
    requires Dutiful(m) && Locks(st) && Justified(m, st) && Enabled(m, st, p, step)
    ensures Justified(m, Apply(m, st, p, step))
  {
    var r := Apply(m, st, p, step);
    if WakeupDue(st) && !step.Wake? {
      var q :| q in st.pcs && Owes(st.pcs[q]);
      assert q in r.pcs && Owes(r.pcs[q]);
    }
    if step.Change? && step.wakes {
      assert Owes(r.pcs[p]);
    }
  }

  datatype Trace<S> = Start(last: State<S>) | Then(before: Trace<S>, p: nat, step: Step<S>, last: State<S>)

  ghost predicate Runs<S>(m: Client<S>, t: Trace<S>) {
    match t
    case Start(st) => Init(m, st)
    case Then(before, p, step, st) =>
      && Runs(m, before) && Enabled(m, before.last, p, step)
      && st == Apply(m, before.last, p, step)
  }

  lemma {:induction false} RunInv<S(!new)>(m: Client<S>, t: Trace<S>)
    requires Dutiful(m) && Runs(m, t)
    ensures Inv(m, t.last)
  {
    match t
    case Start(st) =>
    case Then(before, p, step, st) =>
      RunInv(m, before);
      StepLocks(m, before.last, p, step);
      StepJustified(m, before.last, p, step);
  }

  /** `P` holds of the state at first and after every change. */
  ghost predicate Keeps<S(!new)>(m: Client<S>, P: S -> bool) {
    && (forall s :: m.start(s) ==> P(s))
    && (forall s, wakes, t :: m.next(s, wakes, t) && P(s) ==> P(t))
    && (forall s, t :: m.drift(s, t) && P(s) ==> P(t))
  }

  lemma {:induction false} RunKeeps<S(!new)>(m: Client<S>, P: S -> bool, t: Trace<S>)
    requires Keeps(m, P) && Runs(m, t)
    ensures P(t.last.s)
  {
    if t.Then? {
      RunKeeps(m, P, t.before);
    }
  }

  /** No lost wakeup: in every run, a process sleeps only while the condition blocks it or a wakeup is on its way. */
  lemma NoLostWakeup<S(!new)>(m: Client<S>, t: Trace<S>, p: nat)
    requires Dutiful(m) && Runs(m, t) && p in t.last.pcs && t.last.pcs[p] == Asleep
    ensures m.blocked(t.last.s) || WakeupDue(t.last)
  {
    RunInv(m, t);
  }

  /** A step a process takes by itself: not entering from outside, not being killed, not a change from elsewhere. */
  predicate Own<S>(step: Step<S>) {
    !step.Call? && !step.Kill? && !step.Drift?
  }

  /** What the holder of ptable.lock does next. */
  lemma PtHolderMoves<S>(m: Client<S>, st: State<S>) returns (p: nat, step: Step<S>)
    requires Inv(m, st) && st.pt.Some?
    ensures Own(step) && Enabled(m, st, p, step)
  {
    p := st.pt.value;
    step := match st.pcs[p] case Switching => DropLk case Leaving => Doze case _ => Wake;
  }

  lemma LkHolderMoves<S>(m: Client<S>, st: State<S>) returns (p: nat, step: Step<S>)
    requires Inv(m, st) && st.lk.Some?
    ensures Own(step) && Enabled(m, st, p, step)
  {
    if st.pt.Some? {
      p, step := PtHolderMoves(m, st);
    } else {
      p := st.lk.value;
      step := match st.pcs[p] case Testing => Test case Deciding => TakePt case Changing => Leave case _ => DropLk;
    }
  }

  /** Deadlock freedom: in every run, a process neither outside nor asleep means that some process can move. */
  lemma SomeoneMoves<S(!new)>(m: Client<S>, t: Trace<S>, p: nat) returns (q: nat, step: Step<S>)
    requires Dutiful(m) && Runs(m, t) && p in t.last.pcs && t.last.pcs[p] !in {Outside, Asleep}
    ensures Own(step) && Enabled(m, t.last, q, step)
  {
    RunInv(m, t);
    if t.last.pt.Some? {
      q, step := PtHolderMoves(m, t.last);
    } else if t.last.lk.Some? {
      q, step := LkHolderMoves(m, t.last);
    } else {
      q := p;
      step := if t.last.pcs[p].Owing? then TakePt else TakeLk;
    }
  }

  /** Nobody can go on by itself. */
  ghost predicate Halted<S(!new)>(m: Client<S>, st: State<S>) {
    forall q, step :: Own(step) ==> !Enabled(m, st, q, step)
  }

  /** Where a run can get stuck: everyone is outside, or asleep on a condition that does block. */
  lemma StuckOnlyBlocked<S(!new)>(m: Client<S>, t: Trace<S>)
    requires Dutiful(m) && Runs(m, t)
    requires Halted(m, t.last)
    ensures forall p :: p in t.last.pcs ==> t.last.pcs[p] == Outside || (t.last.pcs[p] == Asleep && m.blocked(t.last.s))
  {
    RunInv(m, t);
    forall p | p in t.last.pcs
      ensures t.last.pcs[p] in {Outside, Asleep}
    {
      if t.last.pcs[p] !in {Outside, Asleep} {
        var q, step := SomeoneMoves(m, t, p);
      }
    }
  }

  /** After a wakeup nobody is asleep. */
  lemma WakeRouses<S>(m: Client<S>, st: State<S>, p: nat)
    requires Locks(st) && Enabled(m, st, p, Wake)
    ensures forall q :: q in st.pcs ==> !Sleepy(Apply(m, st, p, Wake).pcs[q])
  {
  }
}
