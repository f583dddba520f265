/**
 * bio.c's buffer cache with log.c's pinning. Each method is one atomic step taken under bcache.lock or under a
 * buffer's sleep lock, so any sequence of them is an interleaving of processes.
 */
module BufferCache {
  import opened Common
  import opened Blocks
  import opened Ring

  datatype Key = Key(dev: nat, blockno: nat)
  datatype Buf = Buf(key: Key, valid: bool, dirty: bool, refcnt: nat, lock: Option<nat>, data: Block)

  /** Never used since it was given its name, and in nobody's hands. */
  predicate Idle(b: Buf) {
    b.refcnt == 0 && !b.valid
  }

  predicate Recyclable(b: Buf) {
    b.refcnt == 0 && !b.dirty
  }

  /** Position 0 of the ring is the list head, node `n`; the others are the `n` buffers, each once. */
  ghost predicate Shape(n: nat, next: seq<nat>, prev: seq<nat>, c: seq<nat>) {
    && |next| == n + 1 && |c| == n + 1 && c[0] == n
    && Linked(next, prev, c)
    && (forall p :: 0 < p < |c| ==> c[p] < n)
    && (forall i :: 0 <= i < n ==> Listed(c, i))
  }

  ghost predicate Listed(c: seq<nat>, i: nat) {
    exists p :: 0 < p < |c| && c[p] == i
  }

  ghost predicate Within(c: seq<nat>, n: nat) {
    forall p :: 0 < p < |c| ==> c[p] < n
  }

  ghost predicate OnceAt(c: seq<nat>, buf: seq<Buf>, p: nat, q: nat)
    requires Within(c, |buf|) && 0 < p < |c| && 0 < q < |c|
  {
    buf[c[p]].key == buf[c[q]].key ==> Idle(buf[c[q]])
  }

  /** One buffer per block: later buffers of the same name are idle. */
  ghost predicate Once(c: seq<nat>, buf: seq<Buf>)
    requires Within(c, |buf|)
  {
    forall p, q :: 0 < p < q < |c| ==> OnceAt(c, buf, p, q)
  }

  ghost predicate RecentAt(c: seq<nat>, stamp: seq<nat>, p: nat, q: nat)
    requires Within(c, |stamp|) && 0 < p < |c| && 0 < q < |c|
  {
    stamp[c[p]] > stamp[c[q]]
  }

  /** The list runs from the buffer released to zero last to the one released to zero first. */
  ghost predicate Recent(c: seq<nat>, stamp: seq<nat>, clock: nat)
    requires Within(c, |stamp|)
  {
    && (forall p, q :: 0 < p < q < |c| ==> RecentAt(c, stamp, p, q))
    && (forall p :: 0 < p < |c| ==> stamp[c[p]] < clock)
  }

  /** Reference counts are the references held, and a lock is held by one of their owners. */
  ghost predicate Counted(buf: seq<Buf>, refs: seq<multiset<nat>>) {
    && |refs| == |buf|
    && forall i :: 0 <= i < |buf| ==>
      && |refs[i]| == buf[i].refcnt
      && (buf[i].lock.Some? ==> buf[i].lock.value in refs[i])
  }

  ghost predicate Faithful(b: Buf, disk: imap<Key, Block>, store: imap<Key, Block>) {
    && (b.dirty ==> b.valid)
    && b.key in disk && b.key in store
    && (b.valid ==> b.data == store[b.key])
    && (b.valid && !b.dirty && b.lock.None? ==> b.data == disk[b.key])
  }

  ghost predicate Cached(buf: seq<Buf>, k: Key) {
    exists i :: 0 <= i < |buf| && buf[i].valid && buf[i].key == k
  }

  /** The cache stands for the plain store: a valid buffer holds its block, the disk holds every other. */
  ghost predicate Coherent(buf: seq<Buf>, disk: imap<Key, Block>, store: imap<Key, Block>) {
    && (forall k {:trigger k in disk} {:trigger k in store} :: k in disk && k in store)
    && (forall i :: 0 <= i < |buf| ==> Faithful(buf[i], disk, store))
    && (forall k :: !Cached(buf, k) ==> disk[k] == store[k])
  }

  /** A buffer in use is the first of its name. */
  lemma InUseFirst(c: seq<nat>, buf: seq<Buf>, p: nat, q: nat)
    requires Within(c, |buf|) && Once(c, buf) && 0 < p < |c| && 0 < q < |c| && p != q
    requires !Idle(buf[c[p]]) && buf[c[p]].key == buf[c[q]].key
    ensures p < q && Idle(buf[c[q]])
  {
    assert p < q ==> OnceAt(c, buf, p, q);
    assert q < p ==> OnceAt(c, buf, q, p);
  }

  /** Changing a buffer so that it is, or stays, the first of its name. */
  lemma OnceFirst(c: seq<nat>, buf: seq<Buf>, p: nat, b: Buf)
    requires Within(c, |buf|) && Once(c, buf) && Distinct(c) && 0 < p < |c|
    requires forall q :: 0 < q < p ==> buf[c[q]].key != b.key
    requires b.key == buf[c[p]].key || forall q :: 0 < q < |c| ==> buf[c[q]].key != b.key
    ensures Once(c, buf[c[p] := b])
  {
    var r := buf[c[p] := b];
    forall x, y | 0 < x < y < |c|
      ensures OnceAt(c, r, x, y)
    {
      assert OnceAt(c, buf, x, y);
    }
  }

  /** Every other buffer of the same name is idle. */
  ghost predicate Sole(buf: seq<Buf>, i: nat)
    requires i < |buf|
  {
    forall j :: 0 <= j < |buf| && j != i && buf[j].key == buf[i].key ==> Idle(buf[j])
  }

  /** Where entry `y` of the list stood before entry `p` moved to the front. */
  function Was(y: nat, p: nat): (o: nat)
    requires y > 0
  {
    if y == 1 then p else if y <= p then y - 1 else y
  }

  lemma FrontAt(c: seq<nat>, p: nat, y: nat)
    requires 0 < p < |c| && 0 < y < |c|
    ensures 0 < Was(y, p) < |c| && Front(c, p)[y] == c[Was(y, p)] && (y != 1 ==> Was(y, p) != p)
  {
  }

  /** Moving a buffer to the front when the others of its name are idle. */
  lemma OnceFront(c: seq<nat>, buf: seq<Buf>, p: nat)
    requires Within(c, |buf|) && Once(c, buf) && Distinct(c) && 0 < p < |c|
    requires Sole(buf, c[p])
    ensures Within(Front(c, p), |buf|) && Once(Front(c, p), buf)
  {
    var r := Front(c, p);
    forall x, y | 0 < x < y < |r|
      ensures OnceAt(r, buf, x, y)
    {
      FrontAt(c, p, x);
      FrontAt(c, p, y);
      if x > 1 {
        assert OnceAt(c, buf, Was(x, p), Was(y, p));
      }
    }
  }

  lemma RecentFront(c: seq<nat>, stamp: seq<nat>, clock: nat, p: nat)
    requires Within(c, |stamp|) && Recent(c, stamp, clock) && Distinct(c) && 0 < p < |c|
    ensures Within(Front(c, p), |stamp|) && Recent(Front(c, p), stamp[c[p] := clock], clock + 1)
  {
    var r, s := Front(c, p), stamp[c[p] := clock];
    forall x, y | 0 < x < y < |r|
      ensures RecentAt(r, s, x, y)
    {
      FrontAt(c, p, x);
      FrontAt(c, p, y);
      if x > 1 {
        assert RecentAt(c, stamp, Was(x, p), Was(y, p));
      }
    }
  }

  lemma ShapeFront(n: nat, next: seq<nat>, prev: seq<nat>, c: seq<nat>, next': seq<nat>, prev': seq<nat>, p: nat)
    requires Shape(n, next, prev, c) && 0 < p < |c| && |next'| == n + 1 && Linked(next', prev', Front(c, p))
    ensures Shape(n, next', prev', Front(c, p))
  {
    var r := Front(c, p);
    forall i | 0 <= i < n
      ensures Listed(r, i)
    {
      assert Listed(c, i);
      var o :| 0 < o < |c| && c[o] == i;
      var q := if o == p then 1 else if o < p then o + 1 else o;
      assert r[q] == i;
    }
  }

  lemma StillCached(buf: seq<Buf>, i: nat, b: Buf, k: Key)
    requires i < |buf| && b.key == buf[i].key && (buf[i].valid ==> b.valid) && Cached(buf, k)
    ensures Cached(buf[i := b], k)
  {
    var j :| 0 <= j < |buf| && buf[j].valid && buf[j].key == k;
    assert buf[i := b][j].valid && buf[i := b][j].key == k;
  }

  /** A buffer swapped for one of the same name that still holds the block. */
  lemma CoherentSame(buf: seq<Buf>, disk: imap<Key, Block>, store: imap<Key, Block>, i: nat, b: Buf)
    requires Coherent(buf, disk, store) && i < |buf| && Faithful(b, disk, store)
    requires b.key == buf[i].key && (buf[i].valid ==> b.valid)
    ensures Coherent(buf[i := b], disk, store)
  {
    forall k | !Cached(buf[i := b], k)
      ensures disk[k] == store[k]
    {
      if Cached(buf, k) {
        StillCached(buf, i, b, k);
      }
    }
  }

  lemma CoherentIff(buf: seq<Buf>, disk: imap<Key, Block>, store: imap<Key, Block>, i: nat, b: Buf)
    requires Coherent(buf, disk, store) && i < |buf| && b.key == buf[i].key && (buf[i].valid ==> b.valid)
    ensures Coherent(buf[i := b], disk, store) <==> Faithful(b, disk, store)
  {
    if Faithful(b, disk, store) {
      CoherentSame(buf, disk, store, i, b);
    } else {
      assert buf[i := b][i] == b;
    }
  }

  lemma OnlyCached(buf: seq<Buf>, i: nat, b: Buf, k: Key)
    requires i < |buf| && Cached(buf, k)
    ensures Cached(buf[i := b], k) || (buf[i].valid && buf[i].key == k)
  {
    var j :| 0 <= j < |buf| && buf[j].valid && buf[j].key == k;
    if j != i {
      assert buf[i := b][j].valid && buf[i := b][j].key == k;
    }
  }

  /** Evicting a clean buffer loses nothing: its block is on the disk. */
  lemma CoherentEvict(buf: seq<Buf>, disk: imap<Key, Block>, store: imap<Key, Block>, i: nat, b: Buf)
    requires Coherent(buf, disk, store) && i < |buf| && !b.valid && !b.dirty
    requires !buf[i].dirty && buf[i].lock.None?
    ensures Coherent(buf[i := b], disk, store)
  {
    forall k | !Cached(buf[i := b], k)
      ensures disk[k] == store[k]
    {
      if Cached(buf, k) {
        OnlyCached(buf, i, b, k);
        assert Faithful(buf[i], disk, store);
      }
    }
    assert b.key in disk && b.key in store;
  }

  /** Storing into a held buffer stores the block. */
  lemma CoherentStore(buf: seq<Buf>, disk: imap<Key, Block>, store: imap<Key, Block>, i: nat, d: Block)
    requires Coherent(buf, disk, store) && i < |buf| && buf[i].valid && buf[i].lock.Some?
    requires Sole(buf, i)
    ensures Coherent(buf[i := buf[i].(data := d)], disk, store[buf[i].key := d])
  {
    var r, s := buf[i := buf[i].(data := d)], store[buf[i].key := d];
    forall j | 0 <= j < |r|
      ensures Faithful(r[j], disk, s)
    {
      assert Faithful(buf[j], disk, store);
    }
    forall k | !Cached(r, k)
      ensures disk[k] == s[k]
    {
      assert r[i].valid && r[i].key == buf[i].key;
      assert Cached(buf, k) ==> Cached(r, k) by {
        if Cached(buf, k) {
          StillCached(buf, i, r[i], k);
        }
      }
    }
  }

  /** Writing a held buffer through to the disk. */
  lemma CoherentWrite(buf: seq<Buf>, disk: imap<Key, Block>, store: imap<Key, Block>, i: nat)
    requires Coherent(buf, disk, store) && i < |buf| && Sole(buf, i)
    ensures Coherent(buf[i := Clean(buf[i])], disk[buf[i].key := buf[i].data], store[buf[i].key := buf[i].data])
    ensures buf[i].valid ==> store[buf[i].key := buf[i].data] == store
  {
    var r := buf[i := Clean(buf[i])];
    var d, s := disk[buf[i].key := buf[i].data], store[buf[i].key := buf[i].data];
    assert Faithful(buf[i], disk, store);
    forall j | 0 <= j < |r|
      ensures Faithful(r[j], d, s)
    {
      assert Faithful(buf[j], disk, store);
    }
    forall k | !Cached(r, k)
      ensures d[k] == s[k]
    {
      assert r[i].valid && r[i].key == buf[i].key;
      assert Cached(buf, k) ==> Cached(r, k) by {
        if Cached(buf, k) {
          StillCached(buf, i, r[i], k);
        }
      }
    }
  }

  /** A buffer that iderw has written. */
  function Clean(b: Buf): (r: Buf) {
    b.(valid := true, dirty := false)
  }

  /** All the other buffers of an in-use buffer's name are idle. */
  lemma Alone(n: nat, next: seq<nat>, prev: seq<nat>, c: seq<nat>, buf: seq<Buf>, i: nat)
    requires Shape(n, next, prev, c) && |buf| == n && Once(c, buf) && i < n && !Idle(buf[i])
    ensures Sole(buf, i)
  {
    assert Listed(c, i);
    var p :| 0 < p < |c| && c[p] == i;
    forall j | 0 <= j < n && j != i && buf[j].key == buf[i].key
      ensures Idle(buf[j])
    {
      assert Listed(c, j);
      var q :| 0 < q < |c| && c[q] == j;
      InUseFirst(c, buf, p, q);
    }
  }

  /** A change to a buffer in use that keeps its name. */
  lemma OnceSame(n: nat, next: seq<nat>, prev: seq<nat>, c: seq<nat>, buf: seq<Buf>, i: nat, b: Buf)
    requires Shape(n, next, prev, c) && |buf| == n && Once(c, buf) && i < n && !Idle(buf[i]) && b.key == buf[i].key
    ensures Once(c, buf[i := b])
  {
    assert Listed(c, i);
    var p :| 0 < p < |c| && c[p] == i;
    forall q | 0 < q < p
      ensures buf[c[q]].key != b.key
    {
      assert OnceAt(c, buf, q, p);
    }
    OnceFirst(c, buf, p, b);
  }

  /** Recyclable, and released to zero before every other recyclable buffer. */
  ghost predicate Oldest(buf: seq<Buf>, stamp: seq<nat>, i: nat)
    requires |stamp| == |buf|
  {
    && i < |buf| && Recyclable(buf[i])
    && forall j :: 0 <= j < |buf| && Recyclable(buf[j]) ==> stamp[i] <= stamp[j]
  }

  lemma OldestAt(n: nat, next: seq<nat>, prev: seq<nat>, c: seq<nat>, buf: seq<Buf>, stamp: seq<nat>, clock: nat,
                 p: nat)
    requires Shape(n, next, prev, c) && |buf| == n && |stamp| == n && Recent(c, stamp, clock)
    requires 0 < p < |c| && Recyclable(buf[c[p]]) && forall q :: p < q < |c| ==> !Recyclable(buf[c[q]])
    ensures Oldest(buf, stamp, c[p])
  {
    forall j | 0 <= j < n && Recyclable(buf[j])
      ensures stamp[c[p]] <= stamp[j]
    {
      assert Listed(c, j);
      var q :| 0 < q < |c| && c[q] == j;
      assert q < p ==> RecentAt(c, stamp, q, p);
    }
  }

  function Ref(b: Buf): (r: Buf) {
    b.(refcnt := b.refcnt + 1)
  }

  function Renamed(b: Buf, key: Key): (r: Buf) {
    b.(key := key, valid := false, dirty := false, refcnt := 1)
  }

  lemma Referenced(n: nat, next: seq<nat>, prev: seq<nat>, c: seq<nat>, buf: seq<Buf>, refs: seq<multiset<nat>>,
                   disk: imap<Key, Block>, store: imap<Key, Block>, p: nat, pid: nat)
    requires Shape(n, next, prev, c) && |buf| == n && Once(c, buf) && Counted(buf, refs) && Coherent(buf, disk, store)
    requires 0 < p < |c| && forall q :: 0 < q < p ==> buf[c[q]].key != buf[c[p]].key
    ensures var i := c[p];
      && Once(c, buf[i := Ref(buf[i])])
      && Counted(buf[i := Ref(buf[i])], refs[i := refs[i] + multiset{pid}])
      && Coherent(buf[i := Ref(buf[i])], disk, store)
  {
    var i := c[p];
    OnceFirst(c, buf, p, Ref(buf[i]));
    CoherentSame(buf, disk, store, i, Ref(buf[i]));
  }

  lemma Recycled(n: nat, next: seq<nat>, prev: seq<nat>, c: seq<nat>, buf: seq<Buf>, refs: seq<multiset<nat>>,
                 disk: imap<Key, Block>, store: imap<Key, Block>, p: nat, pid: nat, key: Key)
    requires Shape(n, next, prev, c) && |buf| == n && Once(c, buf) && Counted(buf, refs) && Coherent(buf, disk, store)
    requires 0 < p < |c| && Recyclable(buf[c[p]]) && forall i :: 0 <= i < n ==> buf[i].key != key
    ensures var i := c[p];
      && Once(c, buf[i := Renamed(buf[i], key)])
      && Counted(buf[i := Renamed(buf[i], key)], refs[i := refs[i] + multiset{pid}])
      && Coherent(buf[i := Renamed(buf[i], key)], disk, store)
  {
    var i := c[p];
    assert |refs[i]| == 0;
    assert buf[i].lock.None?;
    OnceFirst(c, buf, p, Renamed(buf[i], key));
    CoherentEvict(buf, disk, store, i, Renamed(buf[i], key));
  }

  lemma Unreferenced(n: nat, next: seq<nat>, prev: seq<nat>, c: seq<nat>, buf: seq<Buf>, refs: seq<multiset<nat>>,
                     disk: imap<Key, Block>, store: imap<Key, Block>, i: nat, pid: nat)
    requires Shape(n, next, prev, c) && |buf| == n && Once(c, buf) && Counted(buf, refs) && Coherent(buf, disk, store)
    requires i < n && pid in refs[i] && buf[i].lock != Some(pid)
    ensures buf[i].refcnt > 0
    ensures var b := buf[i].(refcnt := buf[i].refcnt - 1);
      && Once(c, buf[i := b])
      && Counted(buf[i := b], refs[i := refs[i] - multiset{pid}])
      && Coherent(buf[i := b], disk, store)
  {
    assert |refs[i] - multiset{pid}| == |refs[i]| - 1;
    var b := buf[i].(refcnt := buf[i].refcnt - 1);
    CoherentSame(buf, disk, store, i, b);
    OnceSame(n, next, prev, c, buf, i, b);
  }

  lemma FrontKeeps(n: nat, next: seq<nat>, prev: seq<nat>, c: seq<nat>, next': seq<nat>, prev': seq<nat>, buf: seq<Buf>,
                   stamp: seq<nat>, clock: nat, p: nat, r: seq<nat>, s: seq<nat>, now: nat)
    requires Shape(n, next, prev, c) && |buf| == n && |stamp| == n && Once(c, buf) && Recent(c, stamp, clock)
    requires 0 < p < |c| && Sole(buf, c[p]) && r == Front(c, p) && s == stamp[c[p] := clock] && now == clock + 1
    requires |next'| == n + 1 && Linked(next', prev', r)
    ensures Shape(n, next', prev', r) && Once(r, buf) && Recent(r, s, now)
  {
    ShapeFront(n, next, prev, c, next', prev', p);
    OnceFront(c, buf, p);
    RecentFront(c, stamp, clock, p);
  }

  const BLANK := Buf(Key(0, 0), false, false, 0, None, ZeroBlock())

  lemma Initial(n: nat, next: seq<nat>, prev: seq<nat>, c: seq<nat>, buf: seq<Buf>, refs: seq<multiset<nat>>,
                stamp: seq<nat>, disk: imap<Key, Block>)
    requires |next| == n + 1 && |c| == n + 1 && c[0] == n && Linked(next, prev, c)
    requires forall p :: 0 < p <= n ==> c[p] == n - p
    requires buf == seq(n, _ => BLANK) && refs == seq(n, _ => multiset{}) && stamp == seq(n, i => i)
    requires forall k :: k in disk
    ensures Shape(n, next, prev, c) && Once(c, buf) && Recent(c, stamp, n) && Counted(buf, refs)
    ensures Coherent(buf, disk, disk)
  {
    forall i | 0 <= i < n
      ensures Listed(c, i)
    {
      assert c[n - i] == i;
    }
  }

  class Cache {
    const n: nat
    var next: seq<nat>
    var prev: seq<nat>
    var buf: seq<Buf>
    var disk: imap<Key, Block>
    ghost var c: seq<nat>
    ghost var refs: seq<multiset<nat>>
    ghost var stamp: seq<nat>
    ghost var clock: nat
    /** The plain block store the cache stands for. */
    ghost var store: imap<Key, Block>

    ghost predicate Valid()
      reads this
    {
      && Shape(n, next, prev, c) && |buf| == n && |stamp| == n
      && Once(c, buf) && Recent(c, stamp, clock) && Counted(buf, refs) && Coherent(buf, disk, store)
    }

    ghost predicate Holds(pid: nat, i: nat)
      reads this
    {
      i < |buf| && buf[i].lock == Some(pid)
    }

    /** bread's second half: read the block in unless the buffer already holds it. */
    method Fill(pid: nat, i: nat)
      requires Valid() && Holds(pid, i)
      modifies this`buf
      ensures Valid() && buf == old(buf)[i := old(buf)[i].(valid := true, data := store[old(buf)[i].key])]
    {
      if !buf[i].valid {
        ghost var b := buf[i].(valid := true, data := disk[buf[i].key]);
        assert !Cached(buf, buf[i].key) by {
          Alone(n, next, prev, c, buf, i);
        }
        CoherentSame(buf, disk, store, i, b);
        OnceSame(n, next, prev, c, buf, i, b);
        buf := buf[i := buf[i].(valid := true, data := disk[buf[i].key])];
      }
    }

    /** binit: every buffer named block 0 of device 0, pushed onto the list in turn. */
    constructor (n: nat, disk: imap<Key, Block>)
      requires forall k :: k in disk
      ensures Valid() && this.n == n && this.disk == disk && store == disk
      ensures forall i :: 0 <= i < n ==> buf[i].refcnt == 0 && !buf[i].valid
    {
      this.n, this.disk, this.store := n, disk, disk;
      next, prev := seq(n + 1, _ => n), seq(n + 1, _ => n);
      buf := seq(n, _ => BLANK);
      refs := seq(n, _ => multiset{});
      stamp := seq(n, i => i);
      clock := n;
      c := [n];
      new;
      var b := 0;
      while b < n
        invariant 0 <= b <= n && |c| == b + 1 && c[0] == n && |next| == n + 1
        invariant Linked(next, prev, c)
        invariant forall p :: 0 < p <= b ==> c[p] == b - p
        invariant buf == seq(n, _ => BLANK)
        invariant this.disk == disk && store == disk && clock == n
        invariant refs == seq(n, _ => multiset{}) && stamp == seq(n, i => i)
      {
        Pushed(next, prev, c, b);
        next, prev := next[b := next[n]][n := b], prev[b := n][next[n] := b];
        c := [n, b] + c[1..];
        b := b + 1;
      }
      Initial(n, next, prev, c, buf, refs, stamp, disk);
    }

    /** bget's first scan, from the most recently released. */
    method FindNamed(key: Key) returns (r: Option<nat>, ghost p: nat)
      requires Valid()
      ensures r.None? <==> forall i :: 0 <= i < n ==> buf[i].key != key
      ensures r.Some? ==> 0 < p < |c| && r.value == c[p] && buf[c[p]].key == key
      ensures r.Some? ==> forall q :: 0 < q < p ==> buf[c[q]].key != key
    {
      var b := next[n];
      p := 1;
      assert Tied(next, prev, c, 0);
      while b != n
        invariant 0 < p <= |c| && b == (if p < |c| then c[p] else n)
        invariant forall q :: 0 < q < p ==> buf[c[q]].key != key
        decreases |c| - p
      {
        if buf[b].key == key {
          return Some(b), p;
        }
        assert Tied(next, prev, c, p);
        b, p := next[b], p + 1;
      }
      forall i | 0 <= i < n
        ensures buf[i].key != key
      {
        assert Listed(c, i);
      }
      r := None;
    }

    /** bget's second scan, from the least recently released. */
    method FindOldest() returns (r: Option<nat>, ghost p: nat)
      requires Valid()
      ensures r.None? <==> forall i :: 0 <= i < n ==> !Recyclable(buf[i])
      ensures r.Some? ==> 0 < p < |c| && r.value == c[p] && Oldest(buf, stamp, r.value)
    {
      var b := prev[n];
      p := n;
      assert Tied(next, prev, c, n);
      while b != n
        invariant p < |c| && b == c[p]
        invariant forall q :: p < q < |c| ==> !Recyclable(buf[c[q]])
        decreases p
      {
        if buf[b].refcnt == 0 && !buf[b].dirty {
          OldestAt(n, next, prev, c, buf, stamp, clock, p);
          return Some(b), p;
        }
        assert Tied(next, prev, c, p - 1);
        b, p := prev[b], p - 1;
      }
      forall i | 0 <= i < n
        ensures !Recyclable(buf[i])
      {
        assert Listed(c, i);
      }
      r := None;
    }

    /** bget, under bcache.lock: the buffer of that name, or the least recently released one that can be recycled. */
    method Get(pid: nat, key: Key) returns (r: Option<nat>)
      requires Valid()
      modifies this`buf, this`refs
      ensures Valid()
      ensures r.None? <==> forall i :: 0 <= i < n ==> old(buf)[i].key != key && !Recyclable(old(buf)[i])
      ensures r.None? ==> buf == old(buf) && refs == old(refs)
      ensures r.Some? ==> r.value < n && refs == old(refs)[r.value := old(refs)[r.value] + multiset{pid}]
      ensures r.Some? && old(buf)[r.value].key == key ==> buf == old(buf)[r.value := Ref(old(buf)[r.value])]
      ensures r.Some? && old(buf)[r.value].key != key ==>
        && (forall i :: 0 <= i < n ==> old(buf)[i].key != key)
        && Oldest(old(buf), stamp, r.value)
        && buf == old(buf)[r.value := Renamed(old(buf)[r.value], key)]
    {
      ghost var p;
      r, p := FindNamed(key);
      if r.Some? {
        Referenced(n, next, prev, c, buf, refs, disk, store, p, pid);
        buf := buf[r.value := Ref(buf[r.value])];
        refs := refs[r.value := refs[r.value] + multiset{pid}];
        return;
      }
      r, p := FindOldest();
      if r.Some? {
        Recycled(n, next, prev, c, buf, refs, disk, store, p, pid, key);
        buf := buf[r.value := Renamed(buf[r.value], key)];
        refs := refs[r.value := refs[r.value] + multiset{pid}];
      }
    }

    /** acquiresleep returning, for a process that holds a reference. */
    method Acquire(pid: nat, i: nat)
      requires Valid() && i < n && pid in refs[i] && buf[i].lock.None?
      modifies this`buf
      ensures Valid() && buf == old(buf)[i := old(buf)[i].(lock := Some(pid))]
    {
      ghost var b := buf[i].(lock := Some(pid));
      CoherentSame(buf, disk, store, i, b);
      OnceSame(n, next, prev, c, buf, i, b);
      buf := buf[i := buf[i].(lock := Some(pid))];
    }

    /** The holder changes the contents, and with them the block as the rest of the kernel will see it. */
    method Store(pid: nat, i: nat, d: Block)
      requires Valid() && Holds(pid, i) && buf[i].valid
      modifies this`buf, this`store
      ensures Valid() && buf == old(buf)[i := old(buf)[i].(data := d)]
      ensures store == old(store)[old(buf)[i].key := d]
    {
      Alone(n, next, prev, c, buf, i);
      CoherentStore(buf, disk, store, i, d);
      OnceSame(n, next, prev, c, buf, i, buf[i].(data := d));
      store := store[buf[i].key := d];
      buf := buf[i := buf[i].(data := d)];
    }

    /** log_write's mark: the buffer stays cached until the commit writes it home. */
    method Pin(pid: nat, i: nat)
      requires Valid() && Holds(pid, i) && buf[i].valid
      modifies this`buf
      ensures Valid() && buf == old(buf)[i := old(buf)[i].(dirty := true)]
    {
      ghost var b := buf[i].(dirty := true);
      CoherentSame(buf, disk, store, i, b);
      OnceSame(n, next, prev, c, buf, i, b);
      buf := buf[i := buf[i].(dirty := true)];
    }

    /** bwrite; false where the source panics. A buffer that was never read in becomes the block all the same. */
    method Bwrite(pid: nat, i: nat) returns (ok: bool)
      requires Valid() && i < n
      modifies this`buf, this`disk, this`store
      ensures Valid() && ok == old(Holds(pid, i))
      ensures !ok ==> buf == old(buf) && disk == old(disk) && store == old(store)
      ensures ok ==> buf == old(buf)[i := Clean(old(buf)[i])]
      ensures ok ==> disk == old(disk)[old(buf)[i].key := old(buf)[i].data]
      ensures ok ==> store == if old(buf)[i].valid then old(store) else old(store)[old(buf)[i].key := old(buf)[i].data]
    {
      if buf[i].lock != Some(pid) {
        return false;
      }
      Alone(n, next, prev, c, buf, i);
      CoherentWrite(buf, disk, store, i);
      OnceSame(n, next, prev, c, buf, i, Clean(buf[i]));
      disk, store := disk[buf[i].key := buf[i].data], store[buf[i].key := buf[i].data];
      buf := buf[i := Clean(buf[i])];
      ok := true;
    }

    /** brelse giving up the lock; false where the source panics. The cache still stands for the store exactly when what
        the holder changed is pinned or written by now. */
    method Release(pid: nat, i: nat) returns (ok: bool)
      requires Valid() && i < n
      modifies this`buf
      ensures ok == old(Holds(pid, i)) && old(buf)[i].key in disk
      ensures Valid() <==> (ok && old(buf)[i].valid && !old(buf)[i].dirty ==> old(buf)[i].data == disk[old(buf)[i].key])
      ensures buf == if ok then old(buf)[i := old(buf)[i].(lock := None)] else old(buf)
    {
      if buf[i].lock != Some(pid) {
        return false;
      }
      ghost var b := buf[i].(lock := None);
      OnceSame(n, next, prev, c, buf, i, b);
      CoherentIff(buf, disk, store, i, b);
      buf := buf[i := buf[i].(lock := None)];
      ok := true;
    }

    /** brelse's six assignments. */
    method MoveToFront(i: nat, ghost p: nat)
      requires Linked(next, prev, c) && |next| == n + 1 && 0 < p < |c| && c[p] == i && c[0] == n
      modifies this`next, this`prev
      ensures |next| == n + 1 && Linked(next, prev, Front(c, p))
    {
      MovedToFront(next, prev, c, p);
      assert Tied(next, prev, c, p);
      prev := prev[next[i] := prev[i]];
      next := next[prev[i] := next[i]];
      next := next[i := next[n]];
      prev := prev[i := n];
      prev := prev[next[n] := i];
      next := next[n := i];
    }

    method ToFront(i: nat, ghost p: nat)
      requires Valid() && 0 < p < |c| && c[p] == i
      requires Sole(buf, i)
      modifies this`next, this`prev, this`c, this`stamp, this`clock
      ensures Valid() && c == Front(old(c), p) && stamp == old(stamp)[i := old(clock)] && clock == old(clock) + 1
    {
      ghost var next0, prev0 := next, prev;
      MoveToFront(i, p);
      ghost var r, s, now := Front(c, p), stamp[i := clock], clock + 1;
      FrontKeeps(n, next0, prev0, c, next, prev, buf, stamp, clock, p, r, s, now);
      c, stamp, clock := r, s, now;
    }

    method Drop(i: nat, ghost pid: nat)
      requires Valid() && i < n && pid in refs[i] && buf[i].lock != Some(pid)
      modifies this`buf, this`refs
      ensures Valid() && Sole(buf, i) && old(buf)[i].refcnt > 0
      ensures buf == old(buf)[i := old(buf)[i].(refcnt := old(buf)[i].refcnt - 1)]
      ensures refs == old(refs)[i := old(refs)[i] - multiset{pid}]
    {
      DropKeeps(i, pid);
      buf := buf[i := buf[i].(refcnt := buf[i].refcnt - 1)];
      refs := refs[i := refs[i] - multiset{pid}];
    }

    lemma DropKeeps(i: nat, pid: nat)
      requires Valid() && i < n && pid in refs[i] && buf[i].lock != Some(pid)
      ensures buf[i].refcnt > 0
      ensures var bs, rs := buf[i := buf[i].(refcnt := buf[i].refcnt - 1)], refs[i := refs[i] - multiset{pid}];
        Once(c, bs) && Counted(bs, rs) && Coherent(bs, disk, store) && Sole(bs, i)
    {
      Unreferenced(n, next, prev, c, buf, refs, disk, store, i, pid);
      Alone(n, next, prev, c, buf, i);
    }

    /** brelse giving up the reference, under bcache.lock; the last one moves the buffer to the front of the list. */
    method Unref(pid: nat, i: nat) returns (ghost p: nat)
      requires Valid() && i < n && pid in refs[i] && buf[i].lock != Some(pid)
      modifies this`buf, this`refs, this`next, this`prev, this`c, this`stamp, this`clock
      ensures Valid() && old(buf)[i].refcnt > 0
      ensures buf == old(buf)[i := old(buf)[i].(refcnt := old(buf)[i].refcnt - 1)]
      ensures refs == old(refs)[i := old(refs)[i] - multiset{pid}]
      ensures 0 < p < |old(c)| && old(c)[p] == i
      ensures if buf[i].refcnt == 0 then c == Front(old(c), p) && stamp == old(stamp)[i := old(clock)]
              else c == old(c) && stamp == old(stamp)
    {
      assert Listed(c, i);
      p :| 0 < p < |c| && c[p] == i;
      Drop(i, pid);
      if buf[i].refcnt == 0 {
        ToFront(i, p);
      }
    }
  }
}
