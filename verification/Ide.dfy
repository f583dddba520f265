/** ide.c's interrupt-driven request queue and memide.c's synchronous memory disk. */
module Ide {
  import opened Blocks
  import opened Common

  datatype Buf = Buf(blockno: nat, valid: bool, dirty: bool, data: Block)

  type Disk = seq<Block>

  /** Where iderw panics before touching anything: nothing to do, or a block past the end. */
  predicate Refused(b: Buf, size: nat) {
    (b.valid && !b.dirty) || b.blockno >= size
  }

  /** The buffer after memide's iderw. */
  function Synced(b: Buf, disk: Disk): (r: Buf)
    requires b.blockno < |disk|
  {
    b.(valid := true, dirty := false, data := if b.dirty then b.data else disk[b.blockno])
  }

  /** The disk after memide's iderw. */
  function Written(b: Buf, disk: Disk): (r: Disk)
    requires b.blockno < |disk|
    ensures |r| == |disk|
  {
    if b.dirty then disk[b.blockno := b.data] else disk
  }

  predicate InRange(reqs: seq<Buf>, size: nat) {
    forall i :: 0 <= i < |reqs| ==> reqs[i].blockno < size
  }

  /** The disk after memide has served the requests one by one. */
  function After(disk: Disk, reqs: seq<Buf>): (r: Disk)
    requires InRange(reqs, |disk|)
    ensures |r| == |disk|
  {
    if reqs == [] then disk else Written(reqs[|reqs|-1], After(disk, reqs[..|reqs|-1]))
  }

  /** memide.c. */
  class MemDisk {
    var memdisk: array<Block>

    method Iderw(b: Buf) returns (r: Option<Buf>)
      modifies memdisk
      ensures r.None? <==> Refused(b, memdisk.Length)
      ensures r.None? ==> memdisk[..] == old(memdisk[..])
      ensures r.Some? ==> r.value == Synced(b, old(memdisk[..])) && memdisk[..] == Written(b, old(memdisk[..]))
    {
      if b.valid && !b.dirty {
        return None;
      }
      if b.blockno >= memdisk.Length {
        return None;
      }
      var c := b;
      if c.dirty {
        c := c.(dirty := false);
        memdisk[b.blockno] := b.data;
      } else {
        c := c.(data := memdisk[b.blockno]);
      }
      r := Some(c.(valid := true));
    }
  }

  ghost predicate LinkedAt(qnext: map<nat, Option<nat>>, queue: seq<nat>, k: nat)
    requires k < |queue|
  {
    queue[k] in qnext && qnext[queue[k]] == Following(queue, k)
  }

  /** The links from the list head spell out `queue`. */
  ghost predicate Chain(first: Option<nat>, qnext: map<nat, Option<nat>>, queue: seq<nat>) {
    && first == (if queue == [] then None else Some(queue[0]))
    && (forall k :: 0 <= k < |queue| ==> LinkedAt(qnext, queue, k))
    && Distinct(queue)
  }

  function Following(queue: seq<nat>, k: nat): (o: Option<nat>)
    requires k < |queue|
  {
    if k + 1 < |queue| then Some(queue[k+1]) else None
  }

  lemma ChainAppend(first: Option<nat>, qnext: map<nat, Option<nat>>, queue: seq<nat>, b: nat)
    requires Chain(first, qnext, queue) && b !in queue
    ensures queue == [] ==> Chain(Some(b), qnext[b := None], [b])
    ensures queue != [] ==> Chain(first, qnext[b := None][queue[|queue|-1] := Some(b)], queue + [b])
  {
    if queue != [] {
      var after := qnext[b := None][queue[|queue|-1] := Some(b)];
      forall k | 0 <= k < |queue + [b]|
        ensures LinkedAt(after, queue + [b], k)
      {
        assert k < |queue| ==> LinkedAt(qnext, queue, k);
      }
    }
  }

  lemma ChainTail(first: Option<nat>, qnext: map<nat, Option<nat>>, queue: seq<nat>)
    requires Chain(first, qnext, queue) && |queue| > 0
    ensures queue[0] in qnext && Chain(qnext[queue[0]], qnext, queue[1..])
  {
    assert LinkedAt(qnext, queue, 0);
    forall k | 0 <= k < |queue[1..]|
      ensures LinkedAt(qnext, queue[1..], k)
    {
      assert queue[1..][k] == queue[k+1] && LinkedAt(qnext, queue, k + 1);
    }
  }

  /** The controller: nothing to do, working on a command, or done with one interrupt to deliver. */
  datatype Device = Quiet | Busy(cmd: Buf) | Done(cmd: Buf, data: Block)

  /** The queued buffers are as their owners, asleep in iderw, left them: not yet valid and clean. */
  ghost predicate Waiting(buf: map<nat, Buf>, queue: seq<nat>, pending: seq<Buf>) {
    && |pending| == |queue|
    && forall k :: 0 <= k < |queue| ==>
         queue[k] in buf && buf[queue[k]] == pending[k] && !(pending[k].valid && !pending[k].dirty)
  }

  /** The controller is at work exactly while requests are queued, always on the oldest, after all those finished. */
  ghost predicate Working(device: Device, now: Disk, pending: seq<Buf>, disk: Disk)
    requires InRange(pending, |now|)
  {
    match device
    case Quiet => pending == [] && disk == now
    case Busy(cmd) => pending != [] && cmd == pending[0] && disk == now
    case Done(cmd, data) =>
      && pending != [] && cmd == pending[0] && disk == Written(cmd, now)
      && (!cmd.dirty ==> data == now[cmd.blockno])
  }

  lemma AfterOne(disk: Disk, past: seq<Buf>, b: Buf)
    requires InRange(past, |disk|) && b.blockno < |disk|
    ensures InRange(past + [b], |disk|) && After(disk, past + [b]) == Written(b, After(disk, past))
  {
  }

  lemma WaitingTail(buf: map<nat, Buf>, queue: seq<nat>, pending: seq<Buf>, c: Buf,
                    first: Option<nat>, qnext: map<nat, Option<nat>>)
    requires Waiting(buf, queue, pending) && Chain(first, qnext, queue) && |queue| > 0
    ensures Waiting(buf[queue[0] := c], queue[1..], pending[1..])
    ensures queue[0] in qnext && Chain(qnext[queue[0]], qnext, queue[1..])
  {
    ChainTail(first, qnext, queue);
    var q, r := queue[1..], pending[1..];
    forall k | 0 <= k < |q|
      ensures q[k] == queue[k+1] && r[k] == pending[k+1]
    {
    }
  }

  /** A new request goes to the controller exactly when the queue was empty. */
  lemma WorkingMore(device: Device, now: Disk, pending: seq<Buf>, disk: Disk, b: Buf)
    requires InRange(pending, |now|) && InRange(pending + [b], |now|) && Working(device, now, pending, disk)
    ensures Working(if pending == [] then Busy(b) else device, now, pending + [b], disk)
  {
  }

  lemma WaitingMore(buf: map<nat, Buf>, queue: seq<nat>, pending: seq<Buf>, b: nat, size: nat)
    requires Waiting(buf, queue, pending) && InRange(pending, size)
    requires b in buf && buf[b].blockno < size && !(buf[b].valid && !buf[b].dirty)
    ensures Waiting(buf, queue + [b], pending + [buf[b]]) && InRange(pending + [buf[b]], size)
  {
  }

  /** With the oldest request done, the controller takes up the next, if any. */
  lemma WorkingNext(device: Device, now: Disk, pending: seq<Buf>, disk: Disk, buf: map<nat, Buf>, q: seq<nat>)
    requires InRange(pending, |now|) && Working(device, now, pending, disk) && device.Done?
    requires Waiting(buf, q, pending[1..])
    ensures InRange(pending[1..], |now|)
    ensures Working(if q == [] then Quiet else Busy(buf[q[0]]), Written(pending[0], now), pending[1..], disk)
  {
  }

  /** All of this together: the queue, the links and the controller one request later. */
  lemma Served(first: Option<nat>, qnext: map<nat, Option<nat>>, buf: map<nat, Buf>, queue: seq<nat>, pending: seq<Buf>,
               device: Device, now: Disk, disk: Disk, c: Buf, q: seq<nat>, r: seq<Buf>, d: Disk)
    requires InRange(pending, |now|) && Waiting(buf, queue, pending) && Chain(first, qnext, queue)
    requires Working(device, now, pending, disk) && device.Done? && |queue| > 0 && |pending| > 0
    requires q == queue[1..] && r == pending[1..] && d == Written(pending[0], now)
    ensures InRange(r, |d|) && Waiting(buf[queue[0] := c], q, r) && disk == d
    ensures queue[0] in qnext && Chain(qnext[queue[0]], qnext, q)
    ensures Working(if q == [] then Quiet else Busy(buf[queue[0] := c][q[0]]), d, r, disk)
  {
    WaitingTail(buf, queue, pending, c, first, qnext);
    WorkingNext(device, now, pending, disk, buf[queue[0] := c], q);
  }

  class IdeDisk {
    var idequeue: Option<nat>
    var qnext: map<nat, Option<nat>>
    var buf: map<nat, Buf>
    var disk: Disk
    var device: Device
    ghost var disk0: Disk
    ghost var queue: seq<nat>
    /** The requests finished and those still queued, as they were made, oldest first. */
    ghost var past: seq<Buf>
    ghost var pending: seq<Buf>
    /** The disk memide would have after the finished requests. */
    ghost var now: Disk

    ghost predicate InStep()
      reads this
    {
      && InRange(pending, |now|)
      && Waiting(buf, queue, pending)
      && Chain(idequeue, qnext, queue)
      && Working(device, now, pending, disk)
    }

    ghost predicate Valid()
      reads this
    {
      InStep() && InRange(past, |disk0|) && now == After(disk0, past)
    }

    constructor (disk: Disk, buf: map<nat, Buf>)
      ensures Valid() && this.disk == disk && this.buf == buf && disk0 == disk && queue == [] && past == []
    {
      idequeue, qnext, this.buf, this.disk, device := None, map[], buf, disk, Quiet;
      disk0, now, queue, past, pending := disk, disk, [], [], [];
    }

    /** iderw as far as its first sleep: queue the request, and start it when it is alone; false where it panics. */
    method Submit(b: nat) returns (ok: bool)
      requires Valid() && b in buf && b !in queue && buf[b].blockno < |disk0|
      modifies this`idequeue, this`qnext, this`device, this`pending, this`queue
      ensures Valid()
      ensures ok == !(buf[b].valid && !buf[b].dirty)
      ensures pending == old(pending) + if ok then [buf[b]] else []
      ensures queue == old(queue) + if ok then [b] else []
    {
      if buf[b].valid && !buf[b].dirty {
        return false;
      }
      Enqueue(b);
      ok := true;
    }

    method Enqueue(b: nat)
      requires InStep() && b in buf && b !in queue && buf[b].blockno < |now| && !(buf[b].valid && !buf[b].dirty)
      modifies this`idequeue, this`qnext, this`device, this`pending, this`queue
      ensures InStep() && pending == old(pending) + [buf[b]] && queue == old(queue) + [b]
    {
      WaitingMore(buf, queue, pending, b, |now|);
      WorkingMore(device, now, pending, disk, buf[b]);
      ghost var q, r := queue + [b], pending + [buf[b]];
      Append(b);
      if idequeue == Some(b) {
        device := Busy(buf[b]);
      }
      queue, pending := q, r;
    }

    /** The walk to the end of the list. */
    method Append(b: nat)
      requires Chain(idequeue, qnext, queue) && b !in queue
      modifies this`idequeue, this`qnext
      ensures Chain(idequeue, qnext, queue + [b]) && (idequeue == Some(b) <==> queue == [])
    {
      ChainAppend(idequeue, qnext, queue, b);
      qnext := qnext[b := None];
      if idequeue.None? {
        idequeue := Some(b);
        return;
      }
      var p := idequeue.value;
      ghost var k := 0;
      while qnext[p].Some?
        invariant 0 <= k < |queue| && p == queue[k] && LinkedAt(old(qnext), queue, k) && qnext == old(qnext)[b := None]
        decreases |queue| - k
      {
        p := qnext[p].value;
        k := k + 1;
      }
      qnext := qnext[p := Some(b)];
    }

    /** The controller carries out its command, in its own time. */
    method Complete()
      requires Valid() && device.Busy?
      modifies this`disk, this`device
      ensures Valid() && device.Done? && disk == Written(old(device).cmd, old(disk))
    {
      var cmd := device.cmd;
      device := Done(cmd, disk[cmd.blockno]);
      disk := if cmd.dirty then disk[cmd.blockno := cmd.data] else disk;
    }

    /** ideintr: the oldest request ends as memide would have ended it, and the next one starts; with nothing queued
        nothing happens. */
    method Ideintr()
      requires Valid() && !device.Busy?
      modifies this`idequeue, this`buf, this`device, this`queue, this`past, this`pending, this`now
      ensures Valid() && (old(queue) == [] <==> old(device) == Quiet)
      ensures old(queue) == [] ==> queue == [] && buf == old(buf) && past == old(past) && disk == now == old(now)
      ensures old(queue) != [] ==> queue == old(queue)[1..] && pending == old(pending)[1..]
      ensures old(queue) != [] ==>
        && old(queue)[0] in old(buf) && old(buf)[old(queue)[0]].blockno < |old(now)|
        && past == old(past) + [old(buf)[old(queue)[0]]]
        && buf == old(buf)[old(queue)[0] := Synced(old(buf)[old(queue)[0]], old(now))]
        && disk == now == Written(old(buf)[old(queue)[0]], old(now))
    {
      if idequeue == None {
        return;
      }
      AfterOne(disk0, past, pending[0]);
      past := past + [pending[0]];
      Serve();
    }

    /** The oldest request's buffer, with the data read and the flags set. */
    method Finish() returns (b: nat, c: Buf)
      requires InStep() && device.Done?
      ensures |queue| > 0 && |pending| > 0 && b == queue[0] && b in qnext && c == Synced(pending[0], now)
    {
      b := idequeue.value;
      assert LinkedAt(qnext, queue, 0);
      c := buf[b];
      if !c.dirty {
        c := c.(data := device.data);
      }
      c := c.(valid := true, dirty := false);
    }

    method Serve()
      requires InStep() && device.Done?
      modifies this`idequeue, this`buf, this`device, this`queue, this`pending, this`now
      ensures InStep() && |old(queue)| > 0 && queue == old(queue)[1..] && pending == old(pending)[1..]
      ensures buf == old(buf)[old(queue)[0] := Synced(old(pending)[0], old(now))]
      ensures disk == now == Written(old(pending)[0], old(now))
    {
      var b, c := Finish();
      ghost var q, r, d := queue[1..], pending[1..], Written(pending[0], now);
      Served(idequeue, qnext, buf, queue, pending, device, now, disk, c, q, r, d);
      idequeue := qnext[b];
      buf := buf[b := c];
      StartNext(q);
      queue, pending, now := q, r, d;
    }

    /** ideintr starting the disk on the next request. */
    method StartNext(ghost q: seq<nat>)
      requires Chain(idequeue, qnext, q) && forall k :: 0 <= k < |q| ==> q[k] in buf
      modifies this`device
      ensures device == if q == [] then Quiet else Busy(buf[q[0]])
    {
      if idequeue.Some? {
        device := Busy(buf[idequeue.value]);
      } else {
        device := Quiet;
      }
    }

    /** Anyone whose buffer is not queued may change it. */
    method Touch(b: nat, x: Buf)
      requires Valid() && b !in queue
      modifies this`buf
      ensures Valid() && buf == old(buf)[b := x]
    {
      buf := buf[b := x];
    }
  }
}
