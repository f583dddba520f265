/**
 * proc.c over its process table. Each method is what one process or CPU does while it holds ptable.lock, or one
 * unlocked write to a slot only it can touch, so any sequence of calls is an interleaving of CPUs.
 */
module Processes {
  import opened Common
  import opened ProcTable

  datatype WaitResult = Collected(pid: nat) | Failed | Slept

  const INT_MAX := 0x7FFF_FFFF

  function Killed(p: Proc): (q: Proc) {
    p.(killed := true, state := if p.state == Sleeping then Runnable else p.state)
  }

  /** The new process of a fork by `cur`: its parent's tickets, and no claim about `killed`. */
  function Child(t: Table, e: nat, cur: nat, pid: nat): (q: Proc)
    requires e < |t| && cur < |t|
  {
    t[e].(state := Runnable, pid := pid, parent := Some(cur), tickets := t[cur].tickets)
  }

  lemma KilledSound(t: Table, nextpid: nat, reaped: set<nat>, init: nat, maker: seq<Option<nat>>,
                    cpu: seq<Option<nat>>, pos: seq<nat>, passes: seq<seq<nat>>, p: nat)
    requires Sound(t, nextpid, reaped, init, maker) && Cpus(t, cpu) && Fair(t, pos, passes) && p < NPROC
    ensures var u := t[p := Killed(t[p])];
      Sound(u, nextpid, reaped, init, maker) && Cpus(u, cpu) && Fair(u, pos, Restarted(t, u, passes))
  {
    var u := t[p := Killed(t[p])];
    forall i, j | 0 <= i < |u| && 0 <= j < |u| && InWait(u, i)
      ensures !ZombieChild(u, i, j)
    {
      assert InWait(t, i) && !ZombieChild(t, i, j);
    }
    MovedSound(t, u, nextpid, reaped, init, maker);
    CpusSame(t, u, cpu);
    FairRestarted(t, u, pos, passes);
  }

  lemma Dispatched(t: Table, nextpid: nat, reaped: set<nat>, init: nat, maker: seq<Option<nat>>,
                   cpu: seq<Option<nat>>, pos: seq<nat>, passes: seq<seq<nat>>, c: nat, q: nat)
    requires Sound(t, nextpid, reaped, init, maker) && Cpus(t, cpu) && Fair(t, pos, passes)
    requires c < |cpu| == |pos| && cpu[c] == None && pos[c] <= q < NPROC && t[q].state == Runnable
    requires forall i :: pos[c] <= i < q ==> t[i].state != Runnable
    ensures var u := t[q := t[q].(state := Running)];
      && Sound(u, nextpid, reaped, init, maker) && Cpus(u, cpu[c := Some(q)])
      && Fair(u, pos[c := q + 1], Counted(passes, c))
  {
    var u := t[q := t[q].(state := Running)];
    forall i, j | 0 <= i < |u| && 0 <= j < |u| && InWait(u, i)
      ensures !ZombieChild(u, i, j)
    {
      assert InWait(t, i) && !ZombieChild(t, i, j);
    }
    MovedSound(t, u, nextpid, reaped, init, maker);
    CpusOn(t, u, cpu, c, q);
    FairDispatch(t, pos, passes, c, q);
  }

  /** A change that makes nobody RUNNABLE restarts no count. */
  lemma FairQuiet(t: Table, u: Table, pos: seq<nat>, passes: seq<seq<nat>>)
    requires Fair(t, pos, passes) && |u| == NPROC
    requires forall i :: 0 <= i < NPROC && u[i].state == Runnable ==> t[i].state == Runnable
    ensures Fair(u, pos, passes)
  {
    forall c, i | 0 <= c < |pos| && 0 <= i < NPROC
      ensures Waited(u, pos, passes, c, i)
    {
      assert Waited(t, pos, passes, c, i);
    }
  }

  lemma Allocated(t: Table, nextpid: nat, reaped: set<nat>, init: nat, maker: seq<Option<nat>>,
                  cpu: seq<Option<nat>>, pos: seq<nat>, passes: seq<seq<nat>>, e: nat, cur: nat)
    requires Sound(t, nextpid, reaped, init, maker) && Cpus(t, cpu) && Fair(t, pos, passes)
    requires e < NPROC && t[e].state == Unused && cur < NPROC && Live(t[cur]) && nextpid > 0
    ensures var u := t[e := t[e].(state := Embryo, pid := nextpid)];
      Sound(u, nextpid + 1, reaped, init, maker[e := Some(cur)]) && Cpus(u, cpu) && Fair(u, pos, passes)
  {
    var u := t[e := t[e].(state := Embryo, pid := nextpid)];
    AllocSound(t, nextpid, reaped, init, maker, e, cur);
    CpusSame(t, u, cpu);
    FairQuiet(t, u, pos, passes);
  }

  lemma TicketsSound(t: Table, nextpid: nat, reaped: set<nat>, init: nat, maker: seq<Option<nat>>, p: nat, n: int)
    requires Sound(t, nextpid, reaped, init, maker) && p < NPROC && n >= MIN_TICKETS
    ensures Sound(t[p := t[p].(tickets := n)], nextpid, reaped, init, maker)
  {
    var u := t[p := t[p].(tickets := n)];
    forall i | 0 <= i < NPROC
      ensures Made(u, maker, i)
    {
      assert Made(t, maker, i);
    }
    forall i | 0 <= i < NPROC && PastEmbryo(u[i]) && i != init
      ensures HasLiveParent(u, i)
    {
      assert HasLiveParent(t, i);
    }
    forall i, j | 0 <= i < |u| && 0 <= j < |u| && InWait(u, i)
      ensures !ZombieChild(u, i, j)
    {
      assert InWait(t, i) && !ZombieChild(t, i, j);
    }
  }

  /** exit's loop, done with the slots below `p`. */
  function HandedBelow(t: Table, cur: nat, init: nat, p: nat): (u: Table)
    requires p <= |t|
    ensures |u| == |t|
  {
    var b := Orphaned(t[..p], cur, init) + t[p..];
    if HasZombieChild(t[..p], cur) then Woken(b, OfProc(init)) else b
  }

  /** One turn of exit's loop. */
  function HandedOne(a: Table, cur: nat, init: nat, p: nat): (b: Table)
    requires p < |a|
    ensures |b| == |a|
  {
    if a[p].parent != Some(cur) then a
    else
      var c := a[p := a[p].(parent := Some(init))];
      if a[p].state != Zombie then c else Woken(c, OfProc(init))
  }

  lemma HandedNext(t: Table, cur: nat, init: nat, p: nat)
    requires p < |t|
    ensures HandedBelow(t, cur, init, p + 1) == HandedOne(HandedBelow(t, cur, init, p), cur, init, p)
  {
    ZombieNext(t, cur, p);
    var a := HandedBelow(t, cur, init, p);
    var b, c := HandedBelow(t, cur, init, p + 1), HandedOne(a, cur, init, p);
    HandedAt(t, cur, init, p, p);
    forall j | 0 <= j < |t|
      ensures b[j] == c[j]
    {
      HandedAt(t, cur, init, p, j);
      HandedAt(t, cur, init, p + 1, j);
    }
  }

  /** What exit's loop has done to slot `j` by the time it is at `p`. */
  lemma HandedAt(t: Table, cur: nat, init: nat, p: nat, j: nat)
    requires p <= |t| && j < |t|
    ensures var u := HandedBelow(t, cur, init, p)[j];
      && u == t[j].(parent := u.parent, state := u.state)
      && u.parent == (if j < p && t[j].parent == Some(cur) then Some(init) else t[j].parent)
      && u.state == (if HasZombieChild(t[..p], cur) && t[j].state == Sleeping && t[j].chan == OfProc(init)
                     then Runnable else t[j].state)
  {
  }

  lemma ZombieNext(t: Table, cur: nat, p: nat)
    requires p < |t|
    ensures HasZombieChild(t[..p+1], cur) <==> HasZombieChild(t[..p], cur) || ZombieChild(t, cur, p)
  {
    var s, s' := t[..p], t[..p+1];
    assert forall i :: 0 <= i < p ==> ZombieChild(s, cur, i) == ZombieChild(s', cur, i);
    assert ZombieChild(s', cur, p) == ZombieChild(t, cur, p);
  }

  class Kernel {
    var proc: Table
    var nextpid: nat
    const initproc: nat
    var cpu: seq<Option<nat>>
    /** Per CPU, the slot at which its scheduler's scan goes on. */
    var pos: seq<nat>
    ghost var maker: seq<Option<nat>>
    ghost var reaped: set<nat>
    ghost var passes: seq<seq<nat>>

    ghost predicate Valid()
      reads this
    {
      && nextpid > 0 && |cpu| == |pos|
      && Sound(proc, nextpid, reaped, initproc, maker)
      && Cpus(proc, cpu)
      && Fair(proc, pos, passes)
    }

    /** userinit: one RUNNABLE process, init, in slot 0. */
    constructor (ncpu: nat)
      ensures Valid() && reaped == {} && |cpu| == ncpu && initproc == 0
    {
      var free := Proc(Unused, 0, None, NoChan, false, 0);
      proc := seq(NPROC, _ => free)[0 := Proc(Runnable, 1, None, NoChan, false, MIN_TICKETS)];
      nextpid, initproc := 2, 0;
      cpu, pos := seq(ncpu, _ => None), seq(ncpu, _ => 0);
      maker, reaped, passes := seq(NPROC, _ => None), {}, seq(ncpu, _ => seq(NPROC, _ => 0));
    }

    // ---- sleep, wakeup, kill ----

    method Wakeup1(chan: Chan)
      modifies this`proc
      ensures proc == Woken(old(proc), chan)
    {
      ghost var u := Woken(proc, chan);
      var p := 0;
      while p < |proc|
        invariant 0 <= p <= |proc| == |old(proc)|
        invariant forall i :: 0 <= i < p ==> proc[i] == u[i]
        invariant forall i :: p <= i < |proc| ==> proc[i] == old(proc)[i]
      {
        if proc[p].state == Sleeping && proc[p].chan == chan {
          proc := proc[p := proc[p].(state := Runnable)];
        }
        p := p + 1;
      }
    }

    method Wakeup(chan: Chan)
      requires Valid()
      modifies this`proc, this`passes
      ensures Valid() && proc == Woken(old(proc), chan)
    {
      ghost var t := proc;
      Wakeup1(chan);
      WokenSound(t, chan, nextpid, reaped, initproc, maker);
      CpusSame(t, proc, cpu);
      FairRestarted(t, proc, pos, passes);
      passes := Restarted(t, proc, passes);
    }

    /** The caller of sleep gives up its CPU. Only wait sleeps on the address of a process. */
    method Sleep(c: nat, chan: Chan)
      requires Valid() && c < |cpu| && cpu[c].Some? && !chan.OfProc?
      modifies this`proc, this`cpu, this`passes
      ensures Valid() && cpu == old(cpu)[c := None]
      ensures proc == old(proc)[old(cpu)[c].value := old(proc)[old(cpu)[c].value].(state := Sleeping, chan := chan)]
    {
      var p := cpu[c].value;
      ghost var t, u := proc, proc[p := proc[p].(state := Sleeping, chan := chan)];
      Switched(t, nextpid, reaped, initproc, maker, cpu, pos, passes, c, u[p]);
      proc := proc[p := proc[p].(state := Sleeping, chan := chan)];
      cpu := cpu[c := None];
      passes := Restarted(t, proc, passes);
    }

    method Yield(c: nat)
      requires Valid() && c < |cpu| && cpu[c].Some?
      modifies this`proc, this`cpu, this`passes
      ensures Valid() && cpu == old(cpu)[c := None]
      ensures proc == old(proc)[old(cpu)[c].value := old(proc)[old(cpu)[c].value].(state := Runnable)]
    {
      var p := cpu[c].value;
      ghost var t, u := proc, proc[p := proc[p].(state := Runnable)];
      Switched(t, nextpid, reaped, initproc, maker, cpu, pos, passes, c, u[p]);
      proc := proc[p := proc[p].(state := Runnable)];
      cpu := cpu[c := None];
      passes := Restarted(t, proc, passes);
    }

    /** kill: the first slot with that pid, in whatever state, is marked and roused. */
    method Kill(pid: nat) returns (found: bool, ghost k: nat)
      requires Valid()
      modifies this`proc, this`passes
      ensures Valid()
      ensures found <==> exists i :: 0 <= i < NPROC && old(proc)[i].pid == pid
      ensures !found ==> proc == old(proc)
      ensures found ==> k < NPROC && old(proc)[k].pid == pid && proc == old(proc)[k := Killed(old(proc)[k])]
      ensures found ==> forall i :: 0 <= i < k ==> old(proc)[i].pid != pid
    {
      k := 0;
      var p := 0;
      while p < NPROC
        invariant 0 <= p <= NPROC && proc == old(proc) && passes == old(passes)
        invariant forall i :: 0 <= i < p ==> proc[i].pid != pid
      {
        if proc[p].pid == pid {
          ghost var t := proc;
          KilledSound(t, nextpid, reaped, initproc, maker, cpu, pos, passes, p);
          proc := proc[p := Killed(proc[p])];
          passes := Restarted(t, proc, passes);
          return true, p;
        }
        p := p + 1;
      }
      found := false;
    }

    // ---- scheduler ----

    method NextRunnable(start: nat) returns (r: Option<nat>)
      requires |proc| == NPROC && start <= NPROC
      ensures r.None? ==> forall i :: start <= i < NPROC ==> proc[i].state != Runnable
      ensures r.Some? ==> start <= r.value < NPROC && proc[r.value].state == Runnable
      ensures r.Some? ==> forall i :: start <= i < r.value ==> proc[i].state != Runnable
    {
      var p := start;
      while p < NPROC
        invariant start <= p <= NPROC
        invariant forall i :: start <= i < p ==> proc[i].state != Runnable
      {
        if proc[p].state == Runnable {
          return Some(p);
        }
        p := p + 1;
      }
      r := None;
    }

    /** One stretch of the scheduler's loop: on from where this CPU's scan stood,
        to a dispatch or the end of the table. */
    method Schedule(c: nat) returns (r: Option<nat>)
      requires Valid() && c < |cpu| && cpu[c] == None
      modifies this`proc, this`cpu, this`pos, this`passes
      ensures Valid()
      ensures r.None? <==> forall i :: old(pos)[c] <= i < NPROC ==> old(proc)[i].state != Runnable
      ensures r.None? ==> proc == old(proc) && cpu == old(cpu) && pos == old(pos)[c := 0] && passes == old(passes)
      ensures r.Some? ==> old(pos)[c] <= r.value < NPROC && old(proc)[r.value].state == Runnable
      ensures r.Some? ==> proc == old(proc)[r.value := old(proc)[r.value].(state := Running)]
      ensures r.Some? ==> forall i :: old(pos)[c] <= i < r.value ==> old(proc)[i].state != Runnable
      ensures r.Some? ==>
                cpu == old(cpu)[c := r] && pos == old(pos)[c := r.value + 1] && passes == Counted(old(passes), c)
    {
      r := NextRunnable(pos[c]);
      if r.Some? {
        Dispatch(c, r.value);
      } else {
        FairOver(proc, pos, passes, c);
        pos := pos[c := 0];
      }
    }

    method Dispatch(c: nat, p: nat)
      requires Valid() && c < |cpu| && cpu[c] == None && pos[c] <= p < NPROC && proc[p].state == Runnable
      requires forall i :: pos[c] <= i < p ==> proc[i].state != Runnable
      modifies this`proc, this`cpu, this`pos, this`passes
      ensures Valid() && proc == old(proc)[p := old(proc)[p].(state := Running)] && cpu == old(cpu)[c := Some(p)]
      ensures pos == old(pos)[c := p + 1] && passes == Counted(old(passes), c)
    {
      Dispatched(proc, nextpid, reaped, initproc, maker, cpu, pos, passes, c, p);
      proc := proc[p := proc[p].(state := Running)];
      cpu := cpu[c := Some(p)];
      pos := pos[c := p + 1];
      passes := Counted(passes, c);
    }

    // ---- fork ----

    method FirstUnused() returns (r: Option<nat>)
      requires |proc| == NPROC
      ensures r.None? ==> forall i :: 0 <= i < NPROC ==> proc[i].state != Unused
      ensures r.Some? ==> r.value < NPROC && proc[r.value].state == Unused
      ensures r.Some? ==> forall i :: 0 <= i < r.value ==> proc[i].state != Unused
    {
      var p := 0;
      while p < NPROC
        invariant 0 <= p <= NPROC
        invariant forall i :: 0 <= i < p ==> proc[i].state != Unused
      {
        if proc[p].state == Unused {
          return Some(p);
        }
        p := p + 1;
      }
      r := None;
    }

    method Allocproc(c: nat) returns (r: Option<nat>)
      requires Valid() && c < |cpu| && cpu[c].Some? && nextpid < INT_MAX
      modifies this`proc, this`nextpid, this`maker
      ensures Valid()
      ensures r.None? <==> forall i :: 0 <= i < NPROC ==> old(proc)[i].state != Unused
      ensures r.None? ==> proc == old(proc) && nextpid == old(nextpid) && maker == old(maker)
      ensures r.Some? ==> r.value < NPROC && old(proc)[r.value].state == Unused && nextpid == old(nextpid) + 1
      ensures r.Some? ==> proc == old(proc)[r.value := old(proc)[r.value].(state := Embryo, pid := old(nextpid))]
      ensures r.Some? ==> forall i :: 0 <= i < r.value ==> old(proc)[i].state != Unused
      ensures r.Some? ==> maker == old(maker)[r.value := cpu[c]]
    {
      r := FirstUnused();
      if r.Some? {
        Allocated(proc, nextpid, reaped, initproc, maker, cpu, pos, passes, r.value, cpu[c].value);
        proc := proc[r.value := proc[r.value].(state := Embryo, pid := nextpid)];
        nextpid := nextpid + 1;
        maker := maker[r.value := cpu[c]];
      }
    }

    /** A write to an embryo by the process that is making it: give it up, fill it in, or make it RUNNABLE. */
    method Embryonic(e: nat, q: Proc)
      requires Valid() && e < NPROC && maker[e].Some?
      requires q.pid == proc[e].pid && q.state in {Unused, Embryo, Runnable}
      requires q.state == Unused ==> q.parent == None
      requires q.state == Embryo ==> q.parent in {None, maker[e]}
      requires q.state == Runnable ==> q.parent == maker[e] && q.tickets >= MIN_TICKETS
      modifies this`proc, this`maker, this`passes
      ensures Valid() && proc == old(proc)[e := q]
      ensures maker == if q.state == Embryo then old(maker) else old(maker)[e := None]
    {
      ghost var t, u := proc, proc[e := q];
      assert Made(t, maker, e);
      EmbryoSound(t, nextpid, reaped, initproc, maker, e, q);
      CpusSame(t, u, cpu);
      FairRestarted(t, u, pos, passes);
      proc := proc[e := q];
      maker := if q.state == Embryo then maker else maker[e := None];
      passes := Restarted(t, u, passes);
    }

    /** gettickets finds the one process with that pid. */
    method Gettickets(pid: nat) returns (n: int)
      requires Valid()
      ensures forall i :: 0 <= i < NPROC && proc[i].pid == pid && proc[i].state != Unused ==> n == proc[i].tickets
      ensures (forall i :: 0 <= i < NPROC && proc[i].pid == pid ==> proc[i].state == Unused) ==> n == -1
    {
      var p := 0;
      while p < NPROC
        invariant 0 <= p <= NPROC
        invariant forall i :: 0 <= i < p ==> !(proc[i].pid == pid && proc[i].state != Unused)
      {
        if proc[p].pid == pid && proc[p].state != Unused {
          return proc[p].tickets;
        }
        p := p + 1;
      }
      n := -1;
    }

    /** The second half of fork: parent, tickets by way of the parent's pid, then RUNNABLE. */
    method Populate(p: nat, cur: nat) returns (pid: nat)
      requires Valid() && p < NPROC && maker[p] == Some(cur) && cur < NPROC && Live(proc[cur])
      modifies this`proc, this`maker, this`passes
      ensures Valid() && pid == old(proc)[p].pid && maker == old(maker)[p := None]
      ensures proc == old(proc)[p := Child(old(proc), p, cur, pid)]
    {
      var q := proc[p].(parent := Some(cur));
      assert Made(proc, maker, p) && p != cur;
      Embryonic(p, q);
      Inherit(p, cur);
      pid := proc[p].pid;
      Embryonic(p, proc[p].(state := Runnable));
    }

    /** fork's tickets: the parent's, looked up by the parent's pid. */
    method Inherit(p: nat, cur: nat)
      requires Valid() && p < NPROC && maker[p] == Some(cur) && cur < NPROC && Live(proc[cur]) && p != cur
      modifies this`proc, this`maker, this`passes
      ensures Valid() && maker == old(maker) && proc == old(proc)[p := old(proc)[p].(tickets := old(proc)[cur].tickets)]
      ensures proc[p].tickets >= MIN_TICKETS
    {
      var q := proc[p];
      assert q.state == Embryo && q.parent in {None, maker[p]} by {
        assert Made(proc, maker, p);
      }
      var n := Gettickets(proc[cur].pid);
      assert n == proc[cur].tickets && n >= MIN_TICKETS;
      q := q.(tickets := if n > MIN_TICKETS then n else MIN_TICKETS);
      Embryonic(p, q);
    }

    /** fork, given whether the kernel stack and the copy of memory could be allocated. */
    method Fork(c: nat, stack: bool, memory: bool) returns (r: Option<nat>, ghost e: nat)
      requires Valid() && c < |cpu| && cpu[c].Some? && nextpid < INT_MAX
      modifies this`proc, this`nextpid, this`maker, this`passes
      ensures Valid()
      ensures r.Some? <==> stack && memory && exists i :: 0 <= i < NPROC && old(proc)[i].state == Unused
      ensures r.Some? ==> r.value == old(nextpid) && e < NPROC && old(proc)[e].state == Unused
      ensures r.Some? ==> forall i :: 0 <= i < e ==> old(proc)[i].state != Unused
      ensures r.Some? ==> proc == old(proc)[e := Child(old(proc), e, cpu[c].value, r.value)]
      ensures r.None? ==> forall i :: 0 <= i < NPROC ==> proc[i] == old(proc)[i].(pid := proc[i].pid)
    {
      var cur := cpu[c].value;
      var a := Allocproc(c);
      e := 0;
      if a.None? {
        return None, e;
      }
      var p := a.value;
      e := p;
      assert proc[p].parent == None;
      if !stack || !memory {
        Embryonic(p, proc[p].(state := Unused));
        return None, e;
      }
      var pid := Populate(p, cur);
      r := Some(pid);
    }

    /** sys_settickets by the current process. */
    method Settickets(c: nat, n: int) returns (ok: bool)
      requires Valid() && c < |cpu| && cpu[c].Some?
      modifies this`proc
      ensures Valid() && ok == (n >= MIN_TICKETS)
      ensures proc == if ok then old(proc)[cpu[c].value := old(proc)[cpu[c].value].(tickets := n)] else old(proc)
    {
      if n < MIN_TICKETS {
        return false;
      }
      var p := cpu[c].value;
      ghost var t, u := proc, proc[p := proc[p].(tickets := n)];
      TicketsSound(t, nextpid, reaped, initproc, maker, p, n);
      CpusSame(t, u, cpu);
      FairQuiet(t, u, pos, passes);
      proc := proc[p := proc[p].(tickets := n)];
      ok := true;
    }

    // ---- exit and wait ----

    /** exit's loop over the children of `cur`. */
    method Reparent(cur: nat)
      modifies this`proc
      ensures proc == Handed(old(proc), cur, initproc)
    {
      var p := 0;
      while p < |proc|
        invariant 0 <= p <= |proc| == |old(proc)|
        invariant proc == HandedBelow(old(proc), cur, initproc, p)
      {
        HandedNext(old(proc), cur, initproc, p);
        if proc[p].parent == Some(cur) {
          proc := proc[p := proc[p].(parent := Some(initproc))];
          if proc[p].state == Zombie {
            Wakeup1(OfProc(initproc));
          }
        }
        p := p + 1;
      }
      assert old(proc)[..p] == old(proc) && old(proc)[p..] == [];
    }

    /** exit by the current process; false where init would panic. A process in the middle of fork does not exit. */
    method Exit(c: nat) returns (ok: bool)
      requires Valid() && c < |cpu| && cpu[c].Some?
      requires forall e :: 0 <= e < NPROC ==> maker[e] != cpu[c]
      modifies this`proc, this`cpu, this`passes
      ensures Valid() && ok == (old(cpu)[c] != Some(initproc))
      ensures !ok ==> proc == old(proc) && cpu == old(cpu)
      ensures ok ==> old(proc)[old(cpu)[c].value].parent.Some?
      ensures ok ==> proc == Exited(old(proc), old(cpu)[c].value, initproc) && cpu == old(cpu)[c := None]
    {
      var cur := cpu[c].value;
      if cur == initproc {
        return false;
      }
      ghost var t := proc;
      ExitSwitched(t, nextpid, reaped, initproc, maker, cpu, pos, passes, c);
      Wakeup1(OfProc(proc[cur].parent.value));
      Reparent(cur);
      assert proc[cur := proc[cur].(state := Zombie)] == Exited(t, cur, initproc);
      proc := proc[cur := proc[cur].(state := Zombie)];
      cpu := cpu[c := None];
      passes := Restarted(t, proc, passes);
      ok := true;
    }

    /** wait's scan: the first zombie child, and whether there is any child. */
    method FindZombie(cur: nat) returns (r: Option<nat>, havekids: bool)
      requires |proc| == NPROC
      ensures r.Some? ==> r.value < NPROC && ZombieChild(proc, cur, r.value)
      ensures r.Some? ==> forall i :: 0 <= i < r.value ==> !ZombieChild(proc, cur, i)
      ensures r.None? ==> !HasZombieChild(proc, cur)
      ensures r.None? ==> (havekids <==> exists i :: 0 <= i < NPROC && proc[i].parent == Some(cur))
    {
      havekids := false;
      var p := 0;
      while p < NPROC
        invariant 0 <= p <= NPROC
        invariant forall i :: 0 <= i < p ==> !ZombieChild(proc, cur, i)
        invariant havekids <==> exists i :: 0 <= i < p && proc[i].parent == Some(cur)
      {
        if proc[p].parent == Some(cur) {
          havekids := true;
          if proc[p].state == Zombie {
            return Some(p), true;
          }
        }
        p := p + 1;
      }
      assert forall i :: 0 <= i < NPROC ==> !ZombieChild(proc, cur, i);
      r := None;
    }

    /** One round of wait by the current process: collect a zombie, give up, or sleep. */
    method Wait(c: nat) returns (r: WaitResult, ghost z: nat)
      requires Valid() && c < |cpu| && cpu[c].Some?
      modifies this`proc, this`cpu, this`passes, this`reaped
      ensures Valid()
      ensures var cur := old(cpu)[c].value;
        match r
        case Collected(pid) =>
          && z < NPROC && ZombieChild(old(proc), cur, z) && (forall i :: 0 <= i < z ==> !ZombieChild(old(proc), cur, i))
          && pid == old(proc)[z].pid && pid !in old(reaped)
          && proc == old(proc)[z := ProcTable.Reaped(old(proc)[z])] && reaped == old(reaped) + {pid} && cpu == old(cpu)
        case Failed =>
          && !HasZombieChild(old(proc), cur)
          && (old(proc)[cur].killed || forall i :: 0 <= i < NPROC ==> old(proc)[i].parent != Some(cur))
          && proc == old(proc) && reaped == old(reaped) && cpu == old(cpu)
        case Slept =>
          && !HasZombieChild(old(proc), cur) && !old(proc)[cur].killed
          && (exists i :: 0 <= i < NPROC && old(proc)[i].parent == Some(cur))
          && reaped == old(reaped) && cpu == old(cpu)[c := None]
          && proc == old(proc)[cur := old(proc)[cur].(state := Sleeping, chan := OfProc(cur))]
    {
      var cur := cpu[c].value;
      var found, havekids := FindZombie(cur);
      z := 0;
      ghost var t := proc;
      if found.Some? {
        var p := found.value;
        z := p;
        ReapedSound(t, nextpid, reaped, initproc, maker, p);
        ghost var u := t[p := ProcTable.Reaped(t[p])];
        CpusSame(t, u, cpu);
        FairQuiet(t, u, pos, passes);
        r := Collected(proc[p].pid);
        reaped := reaped + {proc[p].pid};
        proc := proc[p := ProcTable.Reaped(proc[p])];
      } else if !havekids || proc[cur].killed {
        r := Failed;
      } else {
        Switched(t, nextpid, reaped, initproc, maker, cpu, pos, passes, c,
                 t[cur].(state := Sleeping, chan := OfProc(cur)));
        proc := proc[cur := proc[cur].(state := Sleeping, chan := OfProc(cur))];
        cpu := cpu[c := None];
        passes := Restarted(t, proc, passes);
        r := Slept;
      }
    }
  }

  /** exit as seen by the whole table and its CPUs. */
  lemma ExitSwitched(t: Table, nextpid: nat, reaped: set<nat>, init: nat, maker: seq<Option<nat>>,
                     cpu: seq<Option<nat>>, pos: seq<nat>, passes: seq<seq<nat>>, c: nat)
    requires Sound(t, nextpid, reaped, init, maker) && Cpus(t, cpu) && Fair(t, pos, passes)
    requires c < |cpu| && cpu[c].Some? && cpu[c].value != init
    requires forall e :: 0 <= e < NPROC ==> maker[e] != cpu[c]
    ensures t[cpu[c].value].parent.Some?
    ensures var u := Exited(t, cpu[c].value, init);
      Sound(u, nextpid, reaped, init, maker) && Cpus(u, cpu[c := None]) && Fair(u, pos, Restarted(t, u, passes))
  {
    var cur := cpu[c].value;
    ExitedSound(t, nextpid, reaped, init, maker, cur);
    var u := Exited(t, cur, init);
    forall i | 0 <= i < |t|
      ensures u[i].state == Running <==> t[i].state == Running && i != cur
    {
      ExitedAt(t, cur, init, i);
    }
    CpusOff(t, u, cpu, c, cur);
    FairRestarted(t, u, pos, passes);
  }

  /** The process on CPU `c` goes off it, SLEEPING or RUNNABLE. */
  lemma Switched(t: Table, nextpid: nat, reaped: set<nat>, init: nat, maker: seq<Option<nat>>,
                 cpu: seq<Option<nat>>, pos: seq<nat>, passes: seq<seq<nat>>, c: nat, q: Proc)
    requires Sound(t, nextpid, reaped, init, maker) && Cpus(t, cpu) && Fair(t, pos, passes)
    requires c < |cpu| && cpu[c].Some?
    requires Moved(t[cpu[c].value], q) && q.state in {Sleeping, Runnable}
    requires q.state == Sleeping && q.chan == OfProc(cpu[c].value) ==> !HasZombieChild(t, cpu[c].value)
    ensures var u := t[cpu[c].value := q];
      Sound(u, nextpid, reaped, init, maker) && Cpus(u, cpu[c := None]) && Fair(u, pos, Restarted(t, u, passes))
  {
    var p := cpu[c].value;
    var u := t[p := q];
    forall i, j | 0 <= i < |u| && 0 <= j < |u| && InWait(u, i)
      ensures !ZombieChild(u, i, j)
    {
      assert !ZombieChild(t, i, j);
    }
    MovedSound(t, u, nextpid, reaped, init, maker);
    CpusOff(t, u, cpu, c, p);
    FairRestarted(t, u, pos, passes);
  }
}
