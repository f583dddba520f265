/** The invariants of proc.c's process table and what keeps them. */
module ProcTable {
  import opened Common

  const NPROC := 64
  const MIN_TICKETS := 10

  datatype ProcState = Unused | Embryo | Sleeping | Runnable | Running | Zombie

  /** A sleep channel is an address: that of a process slot, or of anything else. */
  datatype Chan = NoChan | OfProc(slot: nat) | Other(addr: nat)

  datatype Proc = Proc(state: ProcState, pid: nat, parent: Option<nat>, chan: Chan, killed: bool, tickets: int)

  type Table = seq<Proc>

  predicate Live(p: Proc) {
    p.state in {Sleeping, Runnable, Running}
  }

  predicate PastEmbryo(p: Proc) {
    Live(p) || p.state == Zombie
  }

  /** Pids in use are distinct, were handed out before nextpid, and have not been reaped. */
  ghost predicate Pids(t: Table, nextpid: nat, reaped: set<nat>) {
    && (forall i :: 0 <= i < |t| ==> t[i].pid < nextpid)
    && (forall i :: 0 <= i < |t| && t[i].state != Unused ==> t[i].pid > 0 && t[i].pid !in reaped)
    && (forall i, j :: 0 <= i < j < |t| && t[i].state != Unused && t[j].state != Unused ==> t[i].pid != t[j].pid)
    && (forall r :: r in reaped ==> r < nextpid)
  }

  ghost predicate HasLiveParent(t: Table, i: nat)
    requires i < |t|
  {
    t[i].parent.Some? && t[i].parent.value < |t| && t[i].parent.value != i && Live(t[t[i].parent.value])
  }

  /** `maker[i]` is the process in fork that is filling in embryo `i`. */
  ghost predicate Made(t: Table, maker: seq<Option<nat>>, i: nat)
    requires |maker| == |t| && i < |t|
  {
    && (maker[i].Some? <==> t[i].state == Embryo)
    && (maker[i].Some? ==> maker[i].value < |t| && Live(t[maker[i].value]) && t[i].parent in {None, maker[i]})
  }

  /** Every process past EMBRYO other than init has a parent that is neither unused, an embryo nor a zombie. */
  ghost predicate Family(t: Table, init: nat, maker: seq<Option<nat>>) {
    && |t| == |maker| == NPROC && init < NPROC && Live(t[init]) && t[init].parent == None
    && (forall i {:trigger Made(t, maker, i)} :: 0 <= i < NPROC ==> Made(t, maker, i))
    && (forall i :: 0 <= i < NPROC && t[i].state == Unused ==> t[i].parent == None)
    && (forall i {:trigger HasLiveParent(t, i)} :: 0 <= i < NPROC && PastEmbryo(t[i]) && i != init ==>
          HasLiveParent(t, i))
  }

  ghost predicate Ticketed(t: Table) {
    forall i :: 0 <= i < |t| && PastEmbryo(t[i]) ==> t[i].tickets >= MIN_TICKETS
  }

  /** Asleep in wait, which sleeps on the caller's own address. */
  predicate InWait(t: Table, i: nat)
    requires i < |t|
  {
    t[i].state == Sleeping && t[i].chan == OfProc(i)
  }

  predicate ZombieChild(t: Table, i: nat, j: nat)
    requires j < |t|
  {
    t[j].parent == Some(i) && t[j].state == Zombie
  }

  /** No process sleeps in wait while it has a zombie child. */
  ghost predicate NoMissedExit(t: Table) {
    forall i, j :: 0 <= i < |t| && 0 <= j < |t| && InWait(t, i) ==> !ZombieChild(t, i, j)
  }

  ghost predicate OnCpu(cpu: seq<Option<nat>>, i: nat) {
    exists c :: 0 <= c < |cpu| && cpu[c] == Some(i)
  }

  /** A process is RUNNING exactly when one CPU has it. */
  ghost predicate Cpus(t: Table, cpu: seq<Option<nat>>) {
    && (forall c :: 0 <= c < |cpu| && cpu[c].Some? ==> cpu[c].value < |t| && t[cpu[c].value].state == Running)
    && (forall c, d :: 0 <= c < d < |cpu| && cpu[c].Some? ==> cpu[c] != cpu[d])
    && (forall i :: 0 <= i < |t| && t[i].state == Running ==> OnCpu(cpu, i))
  }

  /** The slots a CPU's scan still passes before it reaches slot `i`. */
  function Ahead(pos: nat, i: nat): (d: int) {
    if i >= pos then i - pos else NPROC - pos + i
  }

  /** `passes[c][i]`: dispatches CPU `c` has made since slot `i` last became RUNNABLE. */
  ghost predicate Waited(t: Table, pos: seq<nat>, passes: seq<seq<nat>>, c: nat, i: nat)
    requires c < |pos| && c < |passes| && i < |passes[c]| && i < |t|
  {
    t[i].state == Runnable ==> passes[c][i] + Ahead(pos[c], i) < NPROC
  }

  ghost predicate Fair(t: Table, pos: seq<nat>, passes: seq<seq<nat>>) {
    && |passes| == |pos| && |t| == NPROC
    && (forall c :: 0 <= c < |pos| ==> pos[c] <= NPROC && |passes[c]| == NPROC)
    && (forall c, i :: 0 <= c < |pos| && 0 <= i < NPROC ==> Waited(t, pos, passes, c, i))
  }

  ghost predicate Sound(t: Table, nextpid: nat, reaped: set<nat>, init: nat, maker: seq<Option<nat>>) {
    Pids(t, nextpid, reaped) && Family(t, init, maker) && Ticketed(t) && NoMissedExit(t)
  }

  // ---- Changes that only move processes between SLEEPING, RUNNABLE and RUNNING ----

  ghost predicate Moved(p: Proc, q: Proc) {
    && q.pid == p.pid && q.parent == p.parent && q.tickets == p.tickets
    && (q.state == p.state || (Live(p) && Live(q)))
  }

  ghost predicate AllMoved(t: Table, u: Table) {
    |u| == |t| && forall i :: 0 <= i < |t| ==> Moved(t[i], u[i])
  }

  lemma MovedSound(t: Table, u: Table, nextpid: nat, reaped: set<nat>, init: nat, maker: seq<Option<nat>>)
    requires Sound(t, nextpid, reaped, init, maker) && AllMoved(t, u) && NoMissedExit(u)
    ensures Sound(u, nextpid, reaped, init, maker)
  {
    forall i | 0 <= i < NPROC
      ensures Made(u, maker, i)
    {
      assert Made(t, maker, i);
    }
    forall i | 0 <= i < NPROC && PastEmbryo(u[i]) && i != init
      ensures HasLiveParent(u, i)
    {
      assert HasLiveParent(t, i);
    }
  }

  /** wakeup1. */
  function Woken(t: Table, chan: Chan): (u: Table)
    ensures |u| == |t|
  {
    seq(|t|, i requires 0 <= i < |t| =>
      if t[i].state == Sleeping && t[i].chan == chan then t[i].(state := Runnable) else t[i])
  }

  lemma WokenSound(t: Table, chan: Chan, nextpid: nat, reaped: set<nat>, init: nat, maker: seq<Option<nat>>)
    requires Sound(t, nextpid, reaped, init, maker)
    ensures Sound(Woken(t, chan), nextpid, reaped, init, maker)
  {
    var u := Woken(t, chan);
    forall i, j | 0 <= i < |u| && 0 <= j < |u| && InWait(u, i)
      ensures !ZombieChild(u, i, j)
    {
      assert InWait(t, i) && !ZombieChild(t, i, j);
    }
    MovedSound(t, u, nextpid, reaped, init, maker);
  }

  // ---- CPUs ----

  lemma CpusSame(t: Table, u: Table, cpu: seq<Option<nat>>)
    requires Cpus(t, cpu) && |u| == |t|
    requires forall i :: 0 <= i < |t| ==> (t[i].state == Running <==> u[i].state == Running)
    ensures Cpus(u, cpu)
  {
  }

  /** A CPU lets go of its process, which stops RUNNING. */
  lemma CpusOff(t: Table, u: Table, cpu: seq<Option<nat>>, c: nat, i: nat)
    requires Cpus(t, cpu) && c < |cpu| && cpu[c] == Some(i) && |u| == |t|
    requires forall j :: 0 <= j < |t| ==> (u[j].state == Running <==> t[j].state == Running && j != i)
    ensures Cpus(u, cpu[c := None])
  {
    var after := cpu[c := None];
    forall j | 0 <= j < |u| && u[j].state == Running
      ensures OnCpu(after, j)
    {
      assert OnCpu(cpu, j);
      var d :| 0 <= d < |cpu| && cpu[d] == Some(j);
      assert after[d] == Some(j);
    }
  }

  /** An idle CPU takes a process that was not RUNNING. */
  lemma CpusOn(t: Table, u: Table, cpu: seq<Option<nat>>, c: nat, i: nat)
    requires Cpus(t, cpu) && c < |cpu| && cpu[c] == None && |u| == |t| && i < |t| && t[i].state != Running
    requires forall j :: 0 <= j < |t| ==> (u[j].state == Running <==> t[j].state == Running || j == i)
    ensures Cpus(u, cpu[c := Some(i)])
  {
    var after := cpu[c := Some(i)];
    forall j | 0 <= j < |u| && u[j].state == Running
      ensures OnCpu(after, j)
    {
      if j == i {
        assert after[c] == Some(i);
      } else {
        assert OnCpu(cpu, j);
        var d :| 0 <= d < |cpu| && cpu[d] == Some(j);
        assert after[d] == Some(j);
      }
    }
  }

  // ---- Waiting times ----

  /** Slots that have just become RUNNABLE start counting from zero. */
  ghost function Restarted(t: Table, u: Table, passes: seq<seq<nat>>): (r: seq<seq<nat>>)
    requires |t| == |u| == NPROC && forall c :: 0 <= c < |passes| ==> |passes[c]| == NPROC
    ensures |r| == |passes| && forall c :: 0 <= c < |r| ==> |r[c]| == NPROC
  {
    seq(|passes|, c requires 0 <= c < |passes| => seq(NPROC, i requires 0 <= i < NPROC =>
      if u[i].state == Runnable && t[i].state != Runnable then 0 else passes[c][i]))
  }

  lemma FairRestarted(t: Table, u: Table, pos: seq<nat>, passes: seq<seq<nat>>)
    requires Fair(t, pos, passes) && |u| == NPROC
    ensures Fair(u, pos, Restarted(t, u, passes))
  {
    var r := Restarted(t, u, passes);
    forall c, i | 0 <= c < |pos| && 0 <= i < NPROC
      ensures Waited(u, pos, r, c, i)
    {
      assert Waited(t, pos, passes, c, i);
    }
  }

  /** The scan of CPU `c` moves on to slot `p` without passing a RUNNABLE process. */
  lemma FairScan(t: Table, pos: seq<nat>, passes: seq<seq<nat>>, c: nat, p: nat)
    requires Fair(t, pos, passes) && c < |pos| && p <= NPROC
    requires forall i :: 0 <= i < NPROC && t[i].state == Runnable ==> Ahead(p, i) <= Ahead(pos[c], i)
    ensures Fair(t, pos[c := p], passes)
  {
    var after := pos[c := p];
    forall d, i | 0 <= d < |pos| && 0 <= i < NPROC
      ensures Waited(t, after, passes, d, i)
    {
      assert Waited(t, pos, passes, d, i);
    }
  }

  /** Nothing RUNNABLE before the end of the table: the scan starts over. */
  lemma FairOver(t: Table, pos: seq<nat>, passes: seq<seq<nat>>, c: nat)
    requires Fair(t, pos, passes) && c < |pos| && forall i :: pos[c] <= i < NPROC ==> t[i].state != Runnable
    ensures Fair(t, pos[c := 0], passes)
  {
    FairScan(t, pos, passes, c, 0);
  }

  ghost function Counted(passes: seq<seq<nat>>, c: nat): (r: seq<seq<nat>>)
    requires c < |passes| && |passes[c]| == NPROC
  {
    passes[c := seq(NPROC, i requires 0 <= i < NPROC => passes[c][i] + 1)]
  }

  /** CPU `c` dispatches the first RUNNABLE process its scan meets. */
  lemma FairDispatch(t: Table, pos: seq<nat>, passes: seq<seq<nat>>, c: nat, q: nat)
    requires Fair(t, pos, passes) && c < |pos| && pos[c] <= q < NPROC && t[q].state == Runnable
    requires forall i :: pos[c] <= i < q ==> t[i].state != Runnable
    ensures Fair(t[q := t[q].(state := Running)], pos[c := q + 1], Counted(passes, c))
  {
    var u, after, r := t[q := t[q].(state := Running)], pos[c := q + 1], Counted(passes, c);
    forall d, i | 0 <= d < |pos| && 0 <= i < NPROC
      ensures Waited(u, after, r, d, i)
    {
      assert Waited(t, pos, passes, d, i);
    }
  }

  /** No CPU makes NPROC dispatches while a process stays RUNNABLE. */
  lemma BoundedWait(t: Table, pos: seq<nat>, passes: seq<seq<nat>>, c: nat, i: nat)
    requires Fair(t, pos, passes) && c < |pos| && i < NPROC && t[i].state == Runnable
    ensures passes[c][i] < NPROC
  {
    assert Waited(t, pos, passes, c, i);
  }

  // ---- fork ----

  lemma AllocSound(t: Table, nextpid: nat, reaped: set<nat>, init: nat, maker: seq<Option<nat>>, e: nat, cur: nat)
    requires Sound(t, nextpid, reaped, init, maker) && e < NPROC && t[e].state == Unused
    requires cur < NPROC && Live(t[cur]) && nextpid > 0
    ensures Sound(t[e := t[e].(state := Embryo, pid := nextpid)], nextpid + 1, reaped, init, maker[e := Some(cur)])
  {
    var u, m := t[e := t[e].(state := Embryo, pid := nextpid)], maker[e := Some(cur)];
    Changed(t, u, init, maker, m, e);
  }

  /** Slot `e`, neither a live process before nor after, changes and nobody's parent or maker is affected. */
  lemma Changed(t: Table, u: Table, init: nat, maker: seq<Option<nat>>, m: seq<Option<nat>>, e: nat)
    requires Family(t, init, maker) && NoMissedExit(t) && e < NPROC && !Live(t[e])
    requires |u| == NPROC && |m| == NPROC && u == t[e := u[e]] && m == maker[e := m[e]]
    requires Made(u, m, e) && (u[e].state == Unused ==> u[e].parent == None)
    requires (PastEmbryo(u[e]) ==> HasLiveParent(u, e)) && u[e].state != Zombie && u[e].state != Sleeping
    ensures Family(u, init, m) && NoMissedExit(u)
  {
    forall i | 0 <= i < NPROC
      ensures Made(u, m, i)
    {
      assert Made(t, maker, i);
    }
    forall i | 0 <= i < NPROC && PastEmbryo(u[i]) && i != init
      ensures HasLiveParent(u, i)
    {
      assert i != e ==> HasLiveParent(t, i);
    }
    forall i, j | 0 <= i < |u| && 0 <= j < |u| && InWait(u, i)
      ensures !ZombieChild(u, i, j)
    {
      assert InWait(t, i) && !ZombieChild(t, i, j);
    }
  }

  lemma EmbryoSound(t: Table, nextpid: nat, reaped: set<nat>, init: nat, maker: seq<Option<nat>>, e: nat, p: Proc)
    requires Sound(t, nextpid, reaped, init, maker) && e < NPROC && t[e].state == Embryo
    requires p.pid == t[e].pid && p.state in {Unused, Embryo, Runnable}
    requires p.state == Unused ==> p.parent == None
    requires p.state == Embryo ==> p.parent in {None, maker[e]}
    requires p.state == Runnable ==> p.parent == maker[e] && p.tickets >= MIN_TICKETS
    ensures Sound(t[e := p], nextpid, reaped, init, if p.state == Embryo then maker else maker[e := None])
  {
    var u, m := t[e := p], if p.state == Embryo then maker else maker[e := None];
    assert Made(t, maker, e);
    assert m == maker[e := m[e]];
    Changed(t, u, init, maker, m, e);
  }

  // ---- exit and wait ----

  /** Children of `cur` handed to init. */
  function Orphaned(t: Table, cur: nat, init: nat): (u: Table)
    ensures |u| == |t|
  {
    seq(|t|, i requires 0 <= i < |t| => if t[i].parent == Some(cur) then t[i].(parent := Some(init)) else t[i])
  }

  predicate HasZombieChild(t: Table, cur: nat) {
    exists i :: 0 <= i < |t| && ZombieChild(t, cur, i)
  }

  /** After exit's loop over the children of `cur`: init is woken if it inherits a zombie. */
  function Handed(t: Table, cur: nat, init: nat): (u: Table)
    ensures |u| == |t|
  {
    if HasZombieChild(t, cur) then Woken(Orphaned(t, cur, init), OfProc(init)) else Orphaned(t, cur, init)
  }

  /** The table exit leaves behind. */
  function Exited(t: Table, cur: nat, init: nat): (u: Table)
    requires cur < |t| && t[cur].parent.Some?
    ensures |u| == |t|
  {
    var d := Handed(Woken(t, OfProc(t[cur].parent.value)), cur, init);
    d[cur := d[cur].(state := Zombie)]
  }

  lemma WokenZombies(t: Table, chan: Chan, cur: nat)
    ensures HasZombieChild(Woken(t, chan), cur) <==> HasZombieChild(t, cur)
  {
    var a := Woken(t, chan);
    assert forall i :: 0 <= i < |t| ==> ZombieChild(a, cur, i) == ZombieChild(t, cur, i);
  }

  /** What exit does to slot `i`. */
  lemma ExitedAt(t: Table, cur: nat, init: nat, i: nat)
    requires cur < |t| && t[cur].parent.Some? && i < |t|
    ensures var u := Exited(t, cur, init)[i];
      && u.pid == t[i].pid && u.tickets == t[i].tickets && u.chan == t[i].chan
      && u.parent == (if t[i].parent == Some(cur) then Some(init) else t[i].parent)
      && (i == cur ==> u.state == Zombie)
      && (i != cur ==> u.state == t[i].state || (t[i].state == Sleeping && u.state == Runnable))
      && (i != cur && t[i].state == Sleeping && t[i].chan == OfProc(t[cur].parent.value) ==> u.state == Runnable)
      && (i != cur && t[i].state == Sleeping && t[i].chan == OfProc(init) && HasZombieChild(t, cur) ==>
            u.state == Runnable)
  {
    WokenZombies(t, OfProc(t[cur].parent.value), cur);
  }

  lemma ExitedFamily(t: Table, init: nat, maker: seq<Option<nat>>, cur: nat)
    requires Family(t, init, maker) && cur < NPROC && cur != init && Live(t[cur]) && t[cur].parent.Some?
    requires forall e :: 0 <= e < NPROC ==> maker[e] != Some(cur)
    ensures Family(Exited(t, cur, init), init, maker)
  {
    var u := Exited(t, cur, init);
    forall i | 0 <= i < NPROC
      ensures Live(u[i]) <==> Live(t[i]) && i != cur
      ensures u[i].parent == (if t[i].parent == Some(cur) then Some(init) else t[i].parent)
      ensures u[i].state in {Unused, Embryo} || t[i].state in {Unused, Embryo} ==> u[i].state == t[i].state
    {
      ExitedAt(t, cur, init, i);
    }
    forall i | 0 <= i < NPROC
      ensures Made(u, maker, i)
    {
      assert Made(t, maker, i);
    }
    forall i | 0 <= i < NPROC && PastEmbryo(u[i]) && i != init
      ensures HasLiveParent(u, i)
    {
      assert HasLiveParent(t, i);
    }
  }

  lemma ExitedNoMiss(t: Table, init: nat, cur: nat)
    requires NoMissedExit(t) && init < |t| && cur < |t| && cur != init && t[cur].parent.Some?
    requires t[cur].parent != Some(cur)
    ensures NoMissedExit(Exited(t, cur, init))
  {
    var u := Exited(t, cur, init);
    forall i, j | 0 <= i < |u| && 0 <= j < |u| && InWait(u, i)
      ensures !ZombieChild(u, i, j)
    {
      ExitedAt(t, cur, init, i);
      ExitedAt(t, cur, init, j);
      assert ZombieChild(t, cur, j) ==> HasZombieChild(t, cur);
      assert InWait(t, i) && !ZombieChild(t, i, j);
    }
  }

  lemma ExitedSound(t: Table, nextpid: nat, reaped: set<nat>, init: nat, maker: seq<Option<nat>>, cur: nat)
    requires Sound(t, nextpid, reaped, init, maker) && cur < NPROC && cur != init && Live(t[cur])
    requires forall e :: 0 <= e < NPROC ==> maker[e] != Some(cur)
    ensures t[cur].parent.Some? && Sound(Exited(t, cur, init), nextpid, reaped, init, maker)
  {
    assert HasLiveParent(t, cur);
    ExitedFamily(t, init, maker, cur);
    ExitedNoMiss(t, init, cur);
    var u := Exited(t, cur, init);
    forall i | 0 <= i < NPROC
      ensures u[i].pid == t[i].pid && u[i].tickets == t[i].tickets
      ensures (u[i].state == Unused <==> t[i].state == Unused) && (PastEmbryo(u[i]) <==> PastEmbryo(t[i]))
    {
      ExitedAt(t, cur, init, i);
    }
  }

  function Reaped(p: Proc): (q: Proc) {
    p.(pid := 0, parent := None, killed := false, state := Unused)
  }

  lemma ReapedSound(t: Table, nextpid: nat, reaped: set<nat>, init: nat, maker: seq<Option<nat>>, i: nat)
    requires Sound(t, nextpid, reaped, init, maker) && i < NPROC && t[i].state == Zombie
    ensures Sound(t[i := Reaped(t[i])], nextpid, reaped + {t[i].pid}, init, maker) && t[i].pid !in reaped
  {
    var u := t[i := Reaped(t[i])];
    assert Made(t, maker, i);
    Changed(t, u, init, maker, maker, i);
  }
}
