/**
 * The producer and consumer queue of sleep1.p as a client of sleep and wakeup, for any number of each. A consumer tests
 * again when it wakes, as every caller of sleep in the kernel does.
 */
module SleepQueue {
  import Monitor

  /** The items in the queue, and how many were ever put in and taken out. */
  datatype Queue = Queue(value: nat, produced: nat, consumed: nat)

  /** A producer adds an item and calls wakeup; a consumer, having found one, takes it. */
  predicate Step(s: Queue, wakes: bool, t: Queue) {
    if wakes then t == s.(value := s.value + 1, produced := s.produced + 1)
    else s.value > 0 && t == s.(value := s.value - 1, consumed := s.consumed + 1)
  }

  function Client(): (m: Monitor.Client<Queue>) {
    Monitor.Client((s: Queue) => s == Queue(0, 0, 0), (s: Queue) => s.value == 0, (s, wakes, t) => Step(s, wakes, t),
                   (_, _) => false)
  }

  /** Nothing is lost or made up. */
  predicate Balanced(s: Queue) {
    s.value + s.consumed == s.produced
  }

  function Sleepers(st: Monitor.State<Queue>): (r: set<nat>) {
    set p | p in st.pcs && st.pcs[p] == Monitor.Asleep
  }

  lemma QueueDutiful()
    ensures Monitor.Dutiful(Client())
  {
  }

  lemma RunBalanced(t: Monitor.Trace<Queue>)
    requires Monitor.Runs(Client(), t)
    ensures Balanced(t.last.s)
  {
    assert Monitor.Keeps(Client(), s => Balanced(s));
    Monitor.RunKeeps(Client(), s => Balanced(s), t);
  }

  /** Everyone is outside, or asleep because the queue is empty. */
  ghost predicate Spent(st: Monitor.State<Queue>) {
    forall p :: p in st.pcs ==>
      st.pcs[p] == Monitor.Outside || (st.pcs[p] == Monitor.Asleep && st.s.value == 0)
  }

  /** As many items were put in as were taken out or are still waited for. */
  predicate Enough(st: Monitor.State<Queue>) {
    st.s.produced == st.s.consumed + |Sleepers(st)|
  }

  ghost predicate AllOut(st: Monitor.State<Queue>) {
    st.s.value == 0 && forall p :: p in st.pcs ==> st.pcs[p] == Monitor.Outside
  }

  lemma AllServed(st: Monitor.State<Queue>)
    requires Balanced(st.s) && Enough(st) && Spent(st)
    ensures AllOut(st)
  {
    assert st.s.value > 0 ==> Sleepers(st) == {};
    assert |Sleepers(st)| == 0;
    forall p | p in st.pcs
      ensures st.pcs[p] == Monitor.Outside
    {
      assert p !in Sleepers(st);
    }
  }

  lemma HaltedSpent(t: Monitor.Trace<Queue>)
    requires Monitor.Runs(Client(), t) && Monitor.Halted(Client(), t.last)
    ensures Spent(t.last)
  {
    QueueDutiful();
    Monitor.StuckOnlyBlocked(Client(), t);
  }

  /** Where every process has gone as far as it can, with as many items produced as were consumed or are still waited
      for, nobody is left asleep and the queue is empty. */
  lemma NobodyLeftAsleep(t: Monitor.Trace<Queue>)
    requires Monitor.Runs(Client(), t) && Monitor.Halted(Client(), t.last) && Enough(t.last)
    ensures AllOut(t.last)
  {
    RunBalanced(t);
    HaltedSpent(t);
    AllServed(t.last);
  }
}
