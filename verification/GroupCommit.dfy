/** Every interleaving of begin_op, log_write, end_op, the writes of commit, crashes, and crashes inside recovery. */
module GroupCommit {
  import opened Common
  import opened Blocks
  import opened LogDisk
  import opened Log
  import opened Params

  /** One log_write by file system operation `op`. */
  datatype Write = Write(op: nat, b: nat, data: Block)

  /** Ended: end_op was called, commit still to come. Durable: past a commit point. Lost: cut off by a crash. */
  datatype OpState = Running | Ended | Durable | Lost

  /** `pending` is a log_write between its unlocked size test and its update under log.lock;
      `charged` counts the header entries this operation added. */
  datatype Op = Op(state: OpState, writes: seq<Write>, pending: Option<Write>, charged: nat)

  datatype Phase =
    | Idle
    | WritingLog(t: nat)      // write_log has filled t slots
    | Installing(t: nat)      // header written, install_trans has copied t blocks home
    | Closing                 // commit() returned, log.committing not yet cleared
    | ReadingHead             // booted, recovery not begun
    | Reinstalling(t: nat)    // recovery has copied t blocks home

  datatype State = State(
    disk: Disk,
    dirty: map<nat, Block>,   // buffers pinned with B_DIRTY
    lh: seq<nat>,             // log.lh.block[..log.lh.n]
    outstanding: nat,
    committing: bool,
    phase: Phase,
    panicked: bool,
    ops: seq<Op>,             // every operation ever begun
    done: seq<Write>,         // writes past their commit point, in order
    cur: seq<Write>)          // writes of the transaction being gathered

  datatype Event =
    | Begin
    | Check(op: nat, b: nat, data: Block)
    | Append(op: nat)
    | End(op: nat)
    | LogSlot | Head | Install | Clear | Close
    | Crash
    | ReadHead | Reinstall | RecoverClear

  // ---- Histories ----

  /** The home blocks after performing `ws` in order. */
  function Replay(d: Disk, ws: seq<Write>): (r: Disk)
    ensures |r| == |d|
  {
    if |ws| == 0 then d
    else
      var w := ws[|ws|-1];
      var e := Replay(d, ws[..|ws|-1]);
      if w.b < |e| then e[w.b := w.data] else e
  }

  /** The writes of operation `op`, in order. */
  function Of(ws: seq<Write>, op: nat): (r: seq<Write>) {
    if |ws| == 0 then []
    else Of(ws[..|ws|-1], op) + if ws[|ws|-1].op == op then [ws[|ws|-1]] else []
  }

  function Touched(o: Op): (s: set<nat>) {
    (set i | 0 <= i < |o.writes| :: o.writes[i].b) + if o.pending.Some? then {o.pending.value.b} else {}
  }

  function CountRunning(ops: seq<Op>): (n: nat) {
    if |ops| == 0 then 0
    else CountRunning(ops[..|ops|-1]) + if ops[|ops|-1].state == Running then 1 else 0
  }

  /** Log slots still reserved for running operations. */
  function Room(ops: seq<Op>): (n: nat) {
    if |ops| == 0 then 0
    else Room(ops[..|ops|-1]) + RoomOf(ops[|ops|-1])
  }

  function RoomOf(o: Op): (n: nat) {
    if o.state == Running && o.charged < MAXOPBLOCKS then MAXOPBLOCKS - o.charged else 0
  }

  /** Ended operations reach their commit point together. */
  function Harden(ops: seq<Op>): (r: seq<Op>)
    ensures |r| == |ops|
    ensures forall i :: 0 <= i < |ops| ==> r[i] == if ops[i].state == Ended then ops[i].(state := Durable) else ops[i]
  {
    seq(|ops|, i requires 0 <= i < |ops| => if ops[i].state == Ended then ops[i].(state := Durable) else ops[i])
  }

  /** A crash cuts off every operation not yet durable. */
  function Lose(ops: seq<Op>): (r: seq<Op>)
    ensures |r| == |ops|
    ensures forall i :: 0 <= i < |ops| ==> r[i] == if ops[i].state == Durable then ops[i] else ops[i].(state := Lost)
  {
    seq(|ops|, i requires 0 <= i < |ops| => if ops[i].state == Durable then ops[i] else ops[i].(state := Lost))
  }

  // ---- Steps ----

  ghost predicate Init(L: Layout, init: Disk, s: State) {
    && Shows(L, init, init) && HeadCount(init[L.start]) == 0
    && s == State(init, map[], [], 0, false, Idle, false, [], [], [])
  }

  ghost predicate IsRunning(s: State, op: nat) {
    op < |s.ops| && s.ops[op].state == Running
  }

  function NewOp(): (o: Op) {
    Op(Running, [], None, 0)
  }

  ghost predicate BeginStep(s: State, t: State) {
    && Admits(|s.lh|, s.outstanding, s.committing)
    && s.phase == Idle    // the file system is mounted
    && t == s.(outstanding := s.outstanding + 1, ops := s.ops + [NewOp()])
  }

  ghost predicate CheckStep(L: Layout, s: State, op: nat, b: nat, data: Block, t: State) {
    && IsRunning(s, op) && s.ops[op].pending == None && L.Home(b)
    && t == if TooBig(|s.lh|, L.size) || s.outstanding < 1 then s.(panicked := true)
            else s.(ops := s.ops[op := s.ops[op].(pending := Some(Write(op, b, data)))])
  }

  function Appended(o: Op, w: Write, added: bool): (r: Op) {
    o.(writes := o.writes + [w], pending := None, charged := o.charged + if added then 1 else 0)
  }

  ghost predicate AppendStep(s: State, op: nat, t: State) {
    && IsRunning(s, op) && s.ops[op].pending.Some?
    && var w := s.ops[op].pending.value;
       t == s.(lh := Absorb(s.lh, w.b), dirty := s.dirty[w.b := w.data], cur := s.cur + [w],
               ops := s.ops[op := Appended(s.ops[op], w, w.b !in s.lh)])
  }

  ghost predicate EndStep(s: State, op: nat, t: State) {
    && IsRunning(s, op) && s.ops[op].pending == None && s.outstanding > 0
    && var ended := s.ops[op := s.ops[op].(state := Ended)];
       t == if s.committing then s.(outstanding := s.outstanding - 1, panicked := true)
            else if s.outstanding > 1 then s.(outstanding := s.outstanding - 1, ops := ended)
            else if |s.lh| == 0 then s.(outstanding := 0, committing := true, phase := Closing, ops := Harden(ended))
            else s.(outstanding := 0, committing := true, phase := WritingLog(0), ops := ended)
  }

  /** A write of commit that needs a buffer for a log block, with none to be had. */
  predicate Starved(s: State, e: Event) {
    && NoBuffer(s.dirty)
    && match e
       case LogSlot => s.phase.WritingLog? && s.phase.t < |s.lh|
       case Head => s.phase == WritingLog(|s.lh|)
       case Install => s.phase.Installing? && s.phase.t < |s.lh|
       case Clear => s.phase == Installing(|s.lh|)
       case _ => false
  }

  ghost predicate CommitStep(L: Layout, s: State, e: Event, t: State) {
    if Starved(s, e) then t == s.(panicked := true) else WriteStep(L, s, e, t)
  }

  /** The writes of commit and recovery. A slot past the log area is a home block, whose cached buffer bwrite unpins. */
  ghost predicate WriteStep(L: Layout, s: State, e: Event, t: State) {
    && |s.disk| == L.blocks && L.start + |s.lh| < |s.disk|
    && match e
       case LogSlot =>
         && s.phase.WritingLog? && s.phase.t < |s.lh| && s.lh[s.phase.t] < |s.disk|
         && t == s.(disk := WriteSlot(L, s.disk, s.phase.t, Cached(s, s.lh[s.phase.t])),
                    dirty := s.dirty - {L.start + 1 + s.phase.t}, phase := WritingLog(s.phase.t + 1))
       case Head =>
         && s.phase == WritingLog(|s.lh|) && Encodable(s.lh)
         && t == s.(disk := WriteHead(L, s.disk, s.lh), phase := Installing(0),
                    ops := Harden(s.ops), done := s.done + s.cur, cur := [])
       case Install =>
         && s.phase.Installing? && s.phase.t < |s.lh| && s.lh[s.phase.t] < |s.disk|
         && t == s.(disk := InstallSlot(L, s.disk, s.lh, s.phase.t), dirty := s.dirty - {s.lh[s.phase.t]},
                    phase := Installing(s.phase.t + 1))
       case Clear =>
         && s.phase == Installing(|s.lh|)
         && t == s.(disk := WriteHead(L, s.disk, []), lh := [], phase := Closing)
       case Close =>
         && s.phase == Closing
         && t == s.(committing := false, phase := Idle)
       case ReadHead =>
         && s.phase == ReadingHead
         && t == s.(lh := Committed(L, s.disk), phase := Reinstalling(0))
       case Reinstall =>
         && s.phase.Reinstalling? && s.phase.t < |s.lh| && s.lh[s.phase.t] < |s.disk|
         && t == s.(disk := InstallSlot(L, s.disk, s.lh, s.phase.t), phase := Reinstalling(s.phase.t + 1))
       case RecoverClear =>
         && s.phase == Reinstalling(|s.lh|)
         && t == s.(disk := WriteHead(L, s.disk, []), lh := [], phase := Idle)
       case _ => false
  }

  ghost predicate Encodable(lh: seq<nat>) {
    |lh| < WORDS && forall i :: 0 <= i < |lh| ==> lh[i] < 0x1_0000_0000
  }

  function Cached(s: State, b: nat): (c: Block)
    requires b < |s.disk|
  {
    if b in s.dirty then s.dirty[b] else s.disk[b]
  }

  /** Power fails: memory is gone, the machine boots into recovery. */
  function Crashed(s: State): (t: State) {
    s.(dirty := map[], lh := [], outstanding := 0, committing := false, phase := ReadingHead,
       panicked := false, ops := Lose(s.ops), cur := [])
  }

  ghost predicate Next(L: Layout, s: State, e: Event, t: State) {
    if e == Crash then t == Crashed(s)
    else
      && !s.panicked
      && match e
         case Begin => BeginStep(s, t)
         case Check(op, b, data) => CheckStep(L, s, op, b, data, t)
         case Append(op) => AppendStep(s, op, t)
         case End(op) => EndStep(s, op, t)
         case _ => CommitStep(L, s, e, t)
  }

  /** What FS code promises the log: no operation logs more than MAXOPBLOCKS distinct blocks. */
  ghost predicate Budgeted(s: State) {
    forall i :: 0 <= i < |s.ops| ==> |Touched(s.ops[i])| <= MAXOPBLOCKS
  }

  // ---- Invariant ----

  ghost predicate InvFlags(s: State) {
    && (s.committing <==> s.phase.WritingLog? || s.phase.Installing? || s.phase.Closing?)
    && s.outstanding == CountRunning(s.ops)
    && (s.phase != Idle ==> s.outstanding == 0)
    && (!(s.phase.Idle? || s.phase.WritingLog?) ==> forall i :: 0 <= i < |s.ops| ==> s.ops[i].state != Ended)
  }

  ghost predicate InvOp(s: State, i: nat)
    requires i < |s.ops|
  {
    match s.ops[i].state
    case Running => Of(s.done, i) == [] && Of(s.cur, i) == s.ops[i].writes
    case Ended => Of(s.done, i) == [] && Of(s.cur, i) == s.ops[i].writes
    case Durable => Of(s.done, i) == s.ops[i].writes && Of(s.cur, i) == []
    case Lost => Of(s.done, i) == [] && Of(s.cur, i) == []
  }

  ghost predicate InvOps(s: State) {
    && (forall i :: 0 <= i < |s.ops| ==> InvOp(s, i))
    && (forall i: nat :: i >= |s.ops| ==> Of(s.done, i) == [] && Of(s.cur, i) == [])
  }

  /** Where running operations stand against their reservation. */
  ghost predicate InvRoom(s: State) {
    && |s.lh| + Room(s.ops) <= LOGSIZE
    && forall i :: 0 <= i < |s.ops| && s.ops[i].state == Running ==> InvCharge(s.ops[i], s.lh)
  }

  ghost predicate InvCharge(o: Op, lh: seq<nat>) {
    && (forall j :: 0 <= j < |o.writes| ==> o.writes[j].b in lh)
    && o.charged <= |WrittenBlocks(o)|
  }

  ghost function WrittenBlocks(o: Op): (s: set<nat>) {
    set i | 0 <= i < |o.writes| :: o.writes[i].b
  }

  /** Home blocks that no entry of `lh` from `t` on names are already at home. */
  ghost predicate Copied(L: Layout, d: Disk, lh: seq<nat>, t: nat, h: Disk) {
    && t <= |lh| && |d| == |h| == L.blocks
    && forall b: nat {:trigger d[b]} {:trigger h[b]} :: L.Home(b) && b !in lh[t..] ==> d[b] == h[b]
  }

  /** The first `t` log slots hold the pinned contents of their blocks. */
  ghost predicate SlotsFilled(L: Layout, d: Disk, dirty: map<nat, Block>, lh: seq<nat>, t: nat)
    requires t <= |lh| && L.start + |lh| < |d|
  {
    forall i :: 0 <= i < t ==> lh[i] in dirty && d[L.start + 1 + i] == dirty[lh[i]]
  }

  ghost predicate InvPhase(L: Layout, init: Disk, s: State)
    requires HeadOK(L, s.disk) && L.Fits(s.lh)
  {
    var h := Replay(init, s.done);
    match s.phase
    case Idle => HeadCount(s.disk[L.start]) == 0 && s.dirty.Keys == Elems(s.lh)
    case WritingLog(t) =>
      && HeadCount(s.disk[L.start]) == 0 && s.dirty.Keys == Elems(s.lh)
      && |s.lh| > 0 && t <= |s.lh|
      && SlotsFilled(L, s.disk, s.dirty, s.lh, t)
    case Installing(t) =>
      && Committed(L, s.disk) == s.lh && Copied(L, s.disk, s.lh, t, h)
      && s.dirty.Keys == Elems(s.lh[t..]) && s.cur == []
    case Closing => HeadCount(s.disk[L.start]) == 0 && s.dirty == map[] && s.lh == [] && s.cur == []
    case ReadingHead => s.dirty == map[] && s.lh == [] && s.cur == []
    case Reinstalling(t) =>
      && Committed(L, s.disk) == s.lh && Copied(L, s.disk, s.lh, t, h)
      && s.dirty == map[] && s.cur == []
  }

  ghost predicate InvDisk(L: Layout, init: Disk, s: State) {
    && |init| == L.blocks
    && Shows(L, s.disk, Replay(init, s.done))
    && L.Fits(s.lh) && Distinct(s.lh) && Distinct(Committed(L, s.disk))
    // recovery reads nothing through the cache, so only a mounted file system constrains it
    && (!(s.phase.ReadingHead? || s.phase.Reinstalling?) ==>
          SameHome(L, Overlay(s.disk, s.dirty), Replay(init, s.done + s.cur)))
    && InvPhase(L, init, s)
  }

  ghost predicate InvPending(L: Layout, s: State) {
    forall i :: 0 <= i < |s.ops| && s.ops[i].pending.Some? ==>
      s.ops[i].pending.value.op == i && L.Home(s.ops[i].pending.value.b)
  }

  /** The gathered writes are all listed, and none are left once the header is written. */
  ghost predicate InvCur(s: State) {
    && (forall j :: 0 <= j < |s.cur| ==> s.cur[j].b in s.lh)
    && (!s.phase.Idle? && !s.phase.WritingLog? ==> s.cur == [])
  }

  /** What is pinned: all that is listed, until the writes of commit unpin it.
      A commit that has written anything found a buffer to spare. */
  ghost predicate InvPinned(s: State) {
    match s.phase
    case Idle => Distinct(s.lh) && s.dirty.Keys == Elems(s.lh)
    case WritingLog(t) =>
      && s.dirty.Keys <= Elems(s.lh)
      && if t == 0 then Distinct(s.lh) && s.dirty.Keys == Elems(s.lh) else !NoBuffer(s.dirty)
    case Installing(t) => t <= |s.lh| && s.dirty.Keys <= Elems(s.lh[t..]) && !NoBuffer(s.dirty)
    case Closing => s.dirty == map[] && s.lh == []
    case ReadingHead => s.dirty == map[]
    case Reinstalling(t) => s.dirty == map[]
  }

  ghost predicate Accounts(L: Layout, s: State) {
    InvFlags(s) && InvOps(s) && InvCur(s) && InvRoom(s) && InvPending(L, s)
  }

  /** The books kept in memory: flags, counts, reservations, pins and histories.
      No disk contents and no log size enter. */
  ghost predicate Books(L: Layout, s: State) {
    Accounts(L, s) && InvPinned(s)
  }

  ghost predicate Inv(L: Layout, init: Disk, s: State) {
    L.Valid() && Books(L, s) && InvDisk(L, init, s)
  }
}
