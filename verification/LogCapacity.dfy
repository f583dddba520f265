/** Exactly when operations within their budget can still hit log_write's "too big a transaction" panic. */
module LogCapacity {
  import opened Common
  import opened Blocks
  import opened LogDisk
  import opened Log
  import opened GroupCommit
  import opened GroupCommitProofs
  import opened Params

  /** A file system with LOGSIZE home blocks after the log. */
  ghost predicate Roomy(L: Layout) {
    L.Valid() && L.start + L.size + LOGSIZE <= L.blocks
  }

  function BlankDisk(L: Layout): (d: Disk)
    ensures |d| == L.blocks && forall b :: 0 <= b < L.blocks ==> d[b] == ZeroBlock()
  {
    seq(L.blocks, _ => ZeroBlock())
  }

  // ---- Three operations, one block each in turn ----

  /** The `k`-th block logged: the `k`-th after the log area, by operation `k % 3`. */
  function Turn(L: Layout, k: nat, data: Block): (w: Write) {
    Write(k % 3, L.start + L.size + k, data)
  }

  /** The `q`-th block from `lo` that falls to operation `j`. */
  function Third(lo: nat, j: nat, q: nat): (b: nat) {
    lo + 3 * q + j
  }

  /** Block `b` is one of the first `n` that fall to operation `j`. */
  ghost predicate InThird(lo: nat, j: nat, n: nat, b: nat) {
    exists q :: 0 <= q < n && b == Third(lo, j, q)
  }

  lemma {:induction false} ThirdSize(lo: nat, j: nat, n: nat, s: set<nat>)
    requires forall b :: b in s ==> InThird(lo, j, n, b)
    ensures |s| <= n
  {
    if n == 0 {
      assert s == {};
    } else {
      var t := s - {Third(lo, j, n - 1)};
      ThirdSize(lo, j, n - 1, t);
    }
  }

  /** Of the LOGSIZE blocks after the log area, `b` falls to operation `j`. */
  ghost predicate InShare(L: Layout, b: nat, j: nat) {
    j < 3 && InThird(L.start + L.size, j, MAXOPBLOCKS, b)
  }

  /** Operation `j` keeps to its share. */
  ghost predicate Dealt(L: Layout, o: Op, j: nat) {
    j < 3 && forall b :: b in Touched(o) ==> InShare(L, b, j)
  }

  ghost predicate AllDealt(L: Layout, s: State) {
    |s.ops| == 3 && forall j :: 0 <= j < 3 ==> Dealt(L, s.ops[j], j)
  }

  lemma DealtBudget(L: Layout, s: State)
    requires AllDealt(L, s)
    ensures Budgeted(s)
  {
    forall j | 0 <= j < |s.ops|
      ensures |Touched(s.ops[j])| <= MAXOPBLOCKS
    {
      assert Dealt(L, s.ops[j], j);
      ThirdSize(L.start + L.size, j, MAXOPBLOCKS, Touched(s.ops[j]));
    }
  }

  /** Three running operations between log_writes; the first `k` home blocks after the log are listed. */
  ghost predicate Filled(L: Layout, s: State, k: nat) {
    && s.phase == Idle && !s.panicked && !s.committing && s.outstanding == 3
    && s.disk == BlankDisk(L) && s.done == []
    && |s.lh| == k && (forall i :: 0 <= i < k ==> s.lh[i] == L.start + L.size + i) && s.dirty.Keys == Elems(s.lh)
    && AllDealt(L, s) && forall j :: 0 <= j < 3 ==> s.ops[j].state == Running && s.ops[j].pending == None
  }

  // ---- States that runs from a blank disk pass through ----

  ghost predicate Reachable(L: Layout, s: State) {
    exists r :: Run(L, BlankDisk(L), r) && r.last == s
  }

  /** A set of states that no step within budget leaves. */
  ghost predicate Closed(L: Layout, R: State -> bool) {
    forall s, e, t :: R(s) && Next(L, s, e, t) && Budgeted(t) ==> R(t)
  }

  lemma ReachClosed(L: Layout)
    ensures Closed(L, s => Reachable(L, s))
  {
    forall s, e, t | Reachable(L, s) && Next(L, s, e, t) && Budgeted(t)
      ensures Reachable(L, t)
    {
      var r :| Run(L, BlankDisk(L), r) && r.last == s;
      assert Run(L, BlankDisk(L), Then(r, e, t));
    }
  }

  /** A blank disk, mounted, with `n` operations just begun. */
  function Begun(L: Layout, n: nat): (s: State) {
    State(BlankDisk(L), map[], [], n, false, Idle, false, seq(n, _ => NewOp()), [], [])
  }

  lemma BlankReach(L: Layout)
    requires Roomy(L)
    ensures Reachable(L, Begun(L, 0))
  {
    ZeroBlockWord(0);
    assert Committed(L, BlankDisk(L)) == [];
    assert Run(L, BlankDisk(L), Boot(Begun(L, 0)));
  }

  lemma {:induction false} BeginReach(L: Layout, R: State -> bool, n: nat)
    requires Roomy(L) && Closed(L, R) && R(Begun(L, 0)) && n <= 3
    ensures R(Begun(L, n))
  {
    if n > 0 {
      BeginReach(L, R, n - 1);
      assert Begun(L, n).ops == Begun(L, n - 1).ops + [NewOp()];
      assert forall i :: 0 <= i < n ==> Touched(Begun(L, n).ops[i]) == {};
      assert Next(L, Begun(L, n - 1), Begin, Begun(L, n));
    }
  }

  // ---- One log_write, in its two halves ----

  /** After the size test of log_write `w`. */
  function Tried(s: State, w: Write): (t: State)
    requires w.op < |s.ops|
  {
    s.(ops := s.ops[w.op := s.ops[w.op].(pending := Some(w))])
  }

  /** After log_write `w`. */
  function Listed(s: State, w: Write): (t: State)
    requires w.op < |s.ops|
  {
    s.(lh := Absorb(s.lh, w.b), dirty := s.dirty[w.b := w.data], cur := s.cur + [w],
       ops := s.ops[w.op := Appended(s.ops[w.op], w, w.b !in s.lh)])
  }

  lemma TriedDealt(L: Layout, s: State, w: Write)
    requires AllDealt(L, s) && w.op < 3 && InShare(L, w.b, w.op)
    ensures AllDealt(L, Tried(s, w))
  {
    var t := Tried(s, w);
    forall j | 0 <= j < 3
      ensures Dealt(L, t.ops[j], j)
    {
      assert Dealt(L, s.ops[j], j);
      assert j == w.op ==> Touched(t.ops[j]) <= Touched(s.ops[j]) + {w.b};
    }
  }

  lemma ListedDealt(L: Layout, s: State, w: Write)
    requires AllDealt(L, s) && w.op < 3 && InShare(L, w.b, w.op)
    ensures AllDealt(L, Listed(s, w))
  {
    var t := Listed(s, w);
    WrittenAppend(s.ops[w.op], w, w.b !in s.lh);
    forall j | 0 <= j < 3
      ensures Dealt(L, t.ops[j], j)
    {
      assert Dealt(L, s.ops[j], j);
      assert Touched(s.ops[j]) >= WrittenBlocks(s.ops[j]);
      assert j == w.op ==> Touched(t.ops[j]) == WrittenBlocks(t.ops[j]);
    }
  }

  /** Operation `w.op` may log block `w.b`. */
  ghost predicate Open(L: Layout, s: State, w: Write) {
    && AllDealt(L, s) && w.op < 3 && InShare(L, w.b, w.op) && L.Home(w.b)
    && !s.panicked && s.outstanding >= 1 && s.ops[w.op].state == Running && s.ops[w.op].pending == None
  }

  lemma TryReach(L: Layout, R: State -> bool, s: State, w: Write)
    requires Closed(L, R) && R(s) && Open(L, s, w) && !TooBig(|s.lh|, L.size)
    ensures R(Tried(s, w)) && AllDealt(L, Tried(s, w))
  {
    TriedDealt(L, s, w);
    DealtBudget(L, Tried(s, w));
    assert Next(L, s, Check(w.op, w.b, w.data), Tried(s, w));
  }

  lemma ListReach(L: Layout, R: State -> bool, s: State, w: Write)
    requires Closed(L, R) && Open(L, s, w) && R(Tried(s, w))
    ensures R(Listed(s, w)) && AllDealt(L, Listed(s, w))
  {
    var m := Tried(s, w);
    assert Appended(m.ops[w.op], w, w.b !in s.lh) == Appended(s.ops[w.op], w, w.b !in s.lh);
    ListedDealt(L, s, w);
    DealtBudget(L, Listed(s, w));
    assert Next(L, m, Append(w.op), Listed(s, w));
  }

  lemma TurnShare(L: Layout, k: nat, data: Block)
    requires Roomy(L) && k < LOGSIZE
    ensures var w := Turn(L, k, data); InShare(L, w.b, w.op) && L.Home(w.b)
  {
    assert Turn(L, k, data).b == Third(L.start + L.size, k % 3, k / 3);
  }

  lemma FirstShare(L: Layout, b: nat)
    requires b == L.start + L.size
    ensures InShare(L, b, 0)
  {
    assert b == Third(L.start + L.size, 0, 0);
  }

  /** The next block in turn may be logged. */
  lemma TurnOpen(L: Layout, s: State, k: nat, data: Block)
    requires Roomy(L) && Filled(L, s, k) && k < LOGSIZE
    ensures Open(L, s, Turn(L, k, data))
  {
    TurnShare(L, k, data);
  }

  lemma ListedFilled(L: Layout, s: State, k: nat, data: Block)
    requires Roomy(L) && Filled(L, s, k) && k < LOGSIZE
    ensures Filled(L, Listed(s, Turn(L, k, data)), k + 1)
  {
    TurnOpen(L, s, k, data);
    ListedDealt(L, s, Turn(L, k, data));
    assert Turn(L, k, data).b !in s.lh;
  }

  /** Log the first `k` blocks, each in its turn. */
  lemma {:induction false} Fill(L: Layout, R: State -> bool, k: nat) returns (s: State)
    requires Roomy(L) && Closed(L, R) && R(Begun(L, 0)) && (k > 0 ==> !TooBig(k - 1, L.size))
    ensures R(s) && Filled(L, s, k)
  {
    if k == 0 {
      s := Begun(L, 3);
      BeginReach(L, R, 3);
    } else {
      var m := Fill(L, R, k - 1);
      s := FillOne(L, R, m, k - 1);
    }
  }

  lemma FillOne(L: Layout, R: State -> bool, m: State, k: nat) returns (s: State)
    requires Roomy(L) && Closed(L, R) && R(m) && Filled(L, m, k) && !TooBig(k, L.size)
    ensures R(s) && Filled(L, s, k + 1)
  {
    var w := Turn(L, k, ZeroBlock());
    TurnOpen(L, m, k, ZeroBlock());
    TryReach(L, R, m, w);
    ListReach(L, R, m, w);
    ListedFilled(L, m, k, ZeroBlock());
    s := Listed(m, w);
  }

  // ---- Panics ----

  lemma PanicStep(L: Layout, s: State, k: nat, op: nat, b: nat)
    requires Roomy(L) && Filled(L, s, k) && TooBig(k, L.size) && op < 3 && InShare(L, b, op)
    ensures Next(L, s, Check(op, b, ZeroBlock()), s.(panicked := true)) && Budgeted(s.(panicked := true))
    ensures IsRunning(s, op) && |WrittenBlocks(s.ops[op]) + {b}| <= MAXOPBLOCKS
    ensures b !in s.lh <==> b >= L.start + L.size + k
  {
    assert Dealt(L, s.ops[op], op);
    assert Touched(s.ops[op]) >= WrittenBlocks(s.ops[op]);
    ThirdSize(L.start + L.size, op, MAXOPBLOCKS, WrittenBlocks(s.ops[op]) + {b});
    assert b < L.start + L.size + k ==> s.lh[b - L.start - L.size] == b;
    DealtBudget(L, s);
  }

  /** A run whose last event is an in-budget log_write, of a new block or of a listed one, that panics. */
  ghost predicate PanicRun(L: Layout, r: Trace, op: nat, b: nat, newBlock: bool) {
    && Run(L, BlankDisk(L), r) && r.Then?
    && r.event == Check(op, b, ZeroBlock())
    && IsRunning(r.past.last, op) && |WrittenBlocks(r.past.last.ops[op]) + {b}| <= MAXOPBLOCKS
    && (newBlock <==> b !in r.past.last.lh)
    && !r.past.last.panicked && r.last.panicked
  }

  lemma PanicOn(L: Layout, k: nat, op: nat, b: nat, newBlock: bool) returns (r: Trace)
    requires Roomy(L) && (k > 0 ==> !TooBig(k - 1, L.size)) && TooBig(k, L.size)
    requires op < 3 && InShare(L, b, op) && newBlock == (b >= L.start + L.size + k)
    ensures PanicRun(L, r, op, b, newBlock)
  {
    BlankReach(L);
    ReachClosed(L);
    var s := Fill(L, s => Reachable(L, s), k);
    PanicStep(L, s, k, op, b);
    var p :| Run(L, BlankDisk(L), p) && p.last == s;
    r := Then(p, Check(op, b, ZeroBlock()), s.(panicked := true));
  }

  /** begin_op's reservation keeps in-budget appends from panicking exactly when `log.size` exceeds LOGSIZE.
      mkfs makes them equal, so the thirtieth block of a full transaction panics, and that is the lesser harm:
      LogOverflow shows what happens when two operations pass the size test together. */
  lemma ReservationHoldsIff(L: Layout)
    requires Roomy(L)
    ensures L.size > LOGSIZE <==> forall r, op, b :: !PanicRun(L, r, op, b, true)
  {
    if L.size > LOGSIZE {
      forall r, op, b | PanicRun(L, r, op, b, true)
        ensures false
      {
        NewBlockNeverPanics(L, BlankDisk(L), r.past, op, b);
      }
    } else {
      var w := Turn(L, L.size - 1, ZeroBlock());
      TurnShare(L, L.size - 1, ZeroBlock());
      var r := PanicOn(L, L.size - 1, w.op, w.b, true);
    }
  }

  /** However large the log, rewriting a listed block panics once LOGSIZE blocks are listed. */
  lemma AbsorbedWritePanics(L: Layout)
    requires Roomy(L) && L.size > LOGSIZE
    ensures exists r, b :: b == L.start + L.size && PanicRun(L, r, 0, b, false)
  {
    var b := L.start + L.size;
    FirstShare(L, b);
    var r := PanicOn(L, LOGSIZE, 0, b, false);
  }
}
