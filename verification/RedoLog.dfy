/** The write-ahead (redo) log of the file system, `kernel/log.c`.

    The disk is a sequence of atomically written blocks.  The log's behaviour is a
    machine whose events are the lock-protected actions of `begin_op`, `log_write`
    and `end_op`, the individual `bwrite`s of a commit, a crash between any two of
    them, and the individual `bwrite`s of a recovery, which may crash again.

    `hist` and `durable` are history variables: the updates made by file-system
    operations so far, in order, and how many of them a recovery would bring back. */
module RedoLog {
  import Runs

  const MAXOPBLOCKS: nat := 10
  const LOGSIZE: nat := 30

  /** A disk block, seen as `struct logheader` (its `n` live entries) and the other bytes.
      Every block can be read this way; only the header block is meant to be. */
  datatype Block = Block(lh: seq<nat>, rest: seq<nat>)

  datatype Geometry = Geometry(start: nat, size: nat, blocks: nat) {
    ghost predicate Valid() {
      && 1 <= size
      && start + size <= blocks
    }

    /** A block some file-system operation may change: on the disk, outside the log. */
    predicate Home(b: nat) {
      b < blocks && !(start <= b < start + size)
    }

    /** `log_write` refuses to go on once this many blocks are logged. */
    function Limit(): (n: int) {
      if size - 1 < LOGSIZE then size - 1 else LOGSIZE
    }
  }

  datatype Update = Update(op: nat, block: nat, data: Block)
  datatype Op = Op(id: nat, appended: nat)

  datatype Phase =
    | Running
    | WriteLog(tail: nat)
    | WriteHead
    | Install(tail: nat)
    | ClearHead
    | Down
    | RecoverInstall(tail: nat)
  {
    function Tail(): nat {
      if WriteLog? || Install? || RecoverInstall? then tail else 0
    }

    /** The transaction's header is on the disk. */
    predicate Committed() { Install? || ClearHead? || RecoverInstall? }

    predicate Recovering() { Down? || RecoverInstall? }
  }

  datatype State = State(
    g: Geometry,
    disk: seq<Block>,
    cache: map<nat, Block>,  // buffers that are pinned, or changed and still held
    dirty: map<nat, nat>,    // changed and not yet passed to log_write: by which operation
    lh: seq<nat>,            // log.lh, in memory
    ops: seq<Op>,            // operations between begin_op and end_op
    phase: Phase,
    nextOp: nat,
    hist: seq<Update>,
    durable: nat,
    mark: nat)               // operations below it ended before the last commit point
  {
    /** What `bread` returns: the cached buffer, or the disk block. */
    function Bread(b: nat): Block
      requires b < |disk|
    {
      if b in cache then cache[b] else disk[b]
    }
  }

  datatype Event =
    | Begin
    | Modify(i: nat, block: nat, data: Block)
    | Log(i: nat, block: nat)
    | End(i: nat)
    | Commit
    | Crash
    | Recover

  predicate LogAppends(s: State, b: nat) { b !in s.lh }

  /** `begin_op` goes through: no commit running, and room for one more full operation. */
  predicate Admits(s: State) {
    |s.lh| + (|s.ops| + 1) * MAXOPBLOCKS <= LOGSIZE
  }

  /** The guard that makes `log_write` panic. */
  predicate Overfull(s: State) {
    |s.lh| >= LOGSIZE || |s.lh| >= s.g.size - 1
  }

  predicate Can(s: State, e: Event) {
    match e
    case Begin => s.phase.Running? && Admits(s)
    case Modify(i, b, _) =>
      s.phase.Running? && i < |s.ops| && s.g.Home(b) && (b in s.dirty ==> s.dirty[b] == s.ops[i].id)
    case Log(i, b) =>
      && s.phase.Running? && i < |s.ops|
      && b in s.dirty && s.dirty[b] == s.ops[i].id
      && !Overfull(s)
      && (LogAppends(s, b) ==> s.ops[i].appended < MAXOPBLOCKS)
    case End(i) =>
      s.phase.Running? && i < |s.ops| && s.ops[i].id !in s.dirty.Values
    case Commit =>
      s.phase.WriteLog? || s.phase.WriteHead? || s.phase.Install? || s.phase.ClearHead?
    case Crash => true
    case Recover => s.phase.Down? || s.phase.RecoverInstall?
  }

  /** The blocks of a disk never change in number, and every in-memory log entry has a slot. */
  ghost predicate Shape(s: State) {
    && s.g.Valid()
    && |s.disk| == s.g.blocks
    && |s.lh| <= s.g.Limit()
    && s.durable <= |s.hist|
    && s.phase.Tail() <= |s.lh|
    && (forall t :: 0 <= t < |s.lh| ==> s.g.Home(s.lh[t]))
    && (forall t, u :: 0 <= t < u < |s.lh| ==> s.lh[t] != s.lh[u])
    && (forall b :: b in s.dirty ==> s.g.Home(b))
  }

  /** The on-disk header names distinct home blocks, each with a log slot. */
  ghost predicate HeaderFits(g: Geometry, disk: seq<Block>)
    requires g.Valid() && |disk| == g.blocks
  {
    var h := disk[g.start].lh;
    && |h| <= g.Limit()
    && (forall t :: 0 <= t < |h| ==> g.Home(h[t]))
    && (forall t, u :: 0 <= t < u < |h| ==> h[t] != h[u])
  }

  /** One `bwrite` of `commit`, with the bookkeeping up to the next one. */
  function CommitStep(s: State): State
    requires Shape(s) && Can(s, Commit)
  {
    match s.phase
    case WriteLog(t) =>
      if t < |s.lh| then
        s.(disk := s.disk[s.g.start + t + 1 := s.Bread(s.lh[t])], phase := WriteLog(t + 1))
      else
        s.(phase := WriteHead)
    case WriteHead =>
      s.(disk := s.disk[s.g.start := s.disk[s.g.start].(lh := s.lh)],
         phase := Install(0), durable := |s.hist|, mark := s.nextOp)
    case Install(t) =>
      if t < |s.lh| then
        s.(disk := s.disk[s.lh[t] := s.disk[s.g.start + t + 1]],
           cache := s.cache - {s.lh[t]}, phase := Install(t + 1))
      else
        s.(phase := ClearHead)
    case ClearHead =>
      s.(disk := s.disk[s.g.start := s.disk[s.g.start].(lh := [])],
         lh := [], phase := Running)
    case _ => s
  }

  /** One step of `recover_from_log`: load the header, then one `bwrite` at a time. */
  function RecoverStep(s: State): State
    requires Shape(s) && Can(s, Recover)
    requires s.phase.RecoverInstall? || HeaderFits(s.g, s.disk)
  {
    match s.phase
    case Down => s.(lh := s.disk[s.g.start].lh, phase := RecoverInstall(0))
    case RecoverInstall(t) =>
      if t < |s.lh| then
        s.(disk := s.disk[s.lh[t] := s.disk[s.g.start + t + 1]], phase := RecoverInstall(t + 1))
      else
        s.(disk := s.disk[s.g.start := s.disk[s.g.start].(lh := [])], lh := [], phase := Running)
    case _ => s
  }

  /** The effect of one event. */
  function Do(s: State, e: Event): State
    requires Shape(s) && HeaderFits(s.g, s.disk) && Can(s, e)
  {
    match e
    case Begin => s.(ops := s.ops + [Op(s.nextOp, 0)], nextOp := s.nextOp + 1)
    case Modify(i, b, v) =>
      s.(cache := s.cache[b := v], dirty := s.dirty[b := s.ops[i].id],
         hist := s.hist + [Update(s.ops[i].id, b, v)])
    case Log(i, b) =>
      var s' := s.(dirty := s.dirty - {b});
      if LogAppends(s, b) then
        s'.(lh := s.lh + [b], ops := s.ops[i := s.ops[i].(appended := s.ops[i].appended + 1)])
      else
        s'
    case End(i) =>
      var ops := s.ops[..i] + s.ops[i + 1..];
      s.(ops := ops, phase := if ops == [] && s.lh != [] then WriteLog(0) else Running)
    case Commit => CommitStep(s)
    case Crash =>
      s.(cache := map[], dirty := map[], lh := [], ops := [], phase := Down, hist := s.hist[..s.durable])
    case Recover => RecoverStep(s)
  }

  /** A freshly made file system: nothing logged, nothing running. */
  ghost predicate Init(s: State) {
    && s.g.Valid()
    && |s.disk| == s.g.blocks
    && s.disk[s.g.start].lh == []
    && s.cache == map[] && s.dirty == map[] && s.lh == [] && s.ops == []
    && s.phase == Running && s.hist == [] && s.durable == 0 && s.mark == s.nextOp
  }

  /** The updates `h` applied in order to the blocks `d`. */
  function Replay(d: seq<Block>, h: seq<Update>): (r: seq<Block>)
    ensures |r| == |d|
  {
    if h == [] then d
    else
      var p := Replay(d, h[..|h| - 1]);
      var u := h[|h| - 1];
      if u.block < |p| then p[u.block := u.data] else p
  }

  /** `install_trans`: the log slots from `t` on copied to their home blocks. */
  function InstallFrom(g: Geometry, d: seq<Block>, h: seq<nat>, t: nat): (r: seq<Block>)
    requires g.Valid() && |d| == g.blocks && t <= |h| <= g.size - 1
    requires forall i :: 0 <= i < |h| ==> g.Home(h[i])
    ensures |r| == |d|
    decreases |h| - t
  {
    if t == |h| then d
    else assert g.Home(h[t]); InstallFrom(g, d[h[t] := d[g.start + t + 1]], h, t + 1)
  }

  /** What an undisturbed `recover_from_log` makes of the disk `d`. */
  function Recovered(g: Geometry, d: seq<Block>): (r: seq<Block>)
    requires g.Valid() && |d| == g.blocks && HeaderFits(g, d)
    ensures |r| == |d|
  {
    var d' := InstallFrom(g, d, d[g.start].lh, 0);
    d'[g.start := d'[g.start].(lh := [])]
  }

  ghost predicate SameHome(g: Geometry, d: seq<Block>, e: seq<Block>)
    requires |d| == |e| == g.blocks
  {
    forall b: nat {:trigger g.Home(b)} :: g.Home(b) ==> d[b] == e[b]
  }

  /** `install_trans` read pointwise: a logged block gets its slot, any other block stays. */
  lemma {:induction false} InstallFromAt(g: Geometry, d: seq<Block>, h: seq<nat>, t: nat)
    requires g.Valid() && |d| == g.blocks && t <= |h| <= g.size - 1
    requires forall i :: 0 <= i < |h| ==> g.Home(h[i])
    requires forall i, j :: 0 <= i < j < |h| ==> h[i] != h[j]
    ensures forall i :: t <= i < |h| ==> InstallFrom(g, d, h, t)[h[i]] == d[g.start + i + 1]
    ensures forall b: nat {:trigger g.Home(b)} :: g.Home(b) && b !in h[t..] ==> InstallFrom(g, d, h, t)[b] == d[b]
    decreases |h| - t
  {
    if t < |h| {
      var d' := d[h[t] := d[g.start + t + 1]];
      InstallFromAt(g, d', h, t + 1);
      assert h[t..] == [h[t]] + h[t + 1..];
    }
  }

  lemma RecoveredPointwise(g: Geometry, d: seq<Block>)
    requires g.Valid() && |d| == g.blocks && HeaderFits(g, d)
    ensures var h := d[g.start].lh;
            && (forall i :: 0 <= i < |h| ==> Recovered(g, d)[h[i]] == d[g.start + i + 1])
            && (forall b: nat {:trigger g.Home(b)} :: g.Home(b) && b !in h ==> Recovered(g, d)[b] == d[b])
            && Recovered(g, d)[g.start].lh == []
  {
    var h := d[g.start].lh;
    InstallFromAt(g, d, h, 0);
    assert h[0..] == h;
  }

  // ---- The invariant of every run ----

  /** The first `t` log slots hold the wanted contents of the blocks they stand for. */
  ghost predicate SlotsHold(s: State, want: seq<Block>, t: nat)
    requires Shape(s) && |want| == |s.disk| && t <= |s.lh|
  {
    forall i :: 0 <= i < t ==> s.disk[s.g.start + i + 1] == want[s.lh[i]]
  }

  /** How many slots the commit in progress has filled. */
  function Filled(s: State): nat {
    match s.phase
    case WriteLog(t) => t
    case WriteHead => |s.lh|
    case _ => 0
  }

  /** What is on the disk in each phase of a commit or a recovery. */
  ghost predicate PhaseInv(s: State, want: seq<Block>)
    requires Shape(s) && |want| == |s.disk|
  {
    && (s.phase.Down? || s.disk[s.g.start].lh == if s.phase.Committed() then s.lh else [])
    && SlotsHold(s, want, Filled(s))
    && (s.phase.Committed() || s.phase.Down? ==> s.durable == |s.hist|)
    && (s.phase.ClearHead? || s.phase.Recovering() ==> s.cache == map[])
    && (s.phase.Install? ==> forall i :: 0 <= i < s.phase.tail ==> s.lh[i] !in s.cache)
    && (s.phase.RecoverInstall? ==>
          forall i :: 0 <= i < s.phase.tail ==> s.disk[s.lh[i]] == want[s.lh[i]])
  }

  /** Readers see every update made so far. */
  ghost predicate ReadersSee(s: State, want: seq<Block>)
    requires Shape(s) && |want| == |s.disk|
  {
    forall b: nat {:trigger s.g.Home(b)} :: s.g.Home(b) ==> s.Bread(b) == want[b]
  }

  /** Every buffer or update not yet durable is accounted for by the log or its writer. */
  ghost predicate Tracked(s: State)
    requires Shape(s)
  {
    && (forall b :: b in s.cache ==> b in s.lh || b in s.dirty)
    && (forall j :: s.durable <= j < |s.hist| ==> s.hist[j].block in s.lh || s.hist[j].block in s.dirty)
  }

  /** Block by block, what a recovery of disk `d` would bring back is `want`. */
  ghost predicate RecoversTo(g: Geometry, d: seq<Block>, want: seq<Block>)
    requires g.Valid() && |d| == |want| == g.blocks
  {
    && HeaderFits(g, d)
    && var h := d[g.start].lh;
       && (forall i :: 0 <= i < |h| ==> h[i] < |want| && d[g.start + i + 1] == want[h[i]])
       && (forall b: nat {:trigger g.Home(b)} :: g.Home(b) && b !in h ==> d[b] == want[b])
  }

  lemma RecoversToMeaning(g: Geometry, d: seq<Block>, want: seq<Block>)
    requires g.Valid() && |d| == |want| == g.blocks && HeaderFits(g, d)
    ensures RecoversTo(g, d, want) <==> SameHome(g, Recovered(g, d), want)
  {
    var h := d[g.start].lh;
    RecoveredPointwise(g, d);
    if RecoversTo(g, d, want) {
      forall b: nat | g.Home(b) ensures Recovered(g, d)[b] == want[b] {
        if b in h {
          var i :| 0 <= i < |h| && h[i] == b;
        }
      }
    }
  }

  /** Operations in progress are distinct and began after the last commit point. */
  ghost predicate OpsInv(s: State) {
    && s.mark <= s.nextOp
    && (forall i :: 0 <= i < |s.ops| ==> s.mark <= s.ops[i].id < s.nextOp)
    && (forall i, j :: 0 <= i < j < |s.ops| ==> s.ops[i].id != s.ops[j].id)
    && (!s.phase.Running? ==> s.ops == [])
    && (s.phase.Running? && s.ops == [] ==> s.lh == [])
  }

  /** Operations below `mark` are wholly durable, the others wholly not. */
  ghost predicate AtomicInv(s: State)
    requires Shape(s)
  {
    OpsInv(s) && DirtyOwned(s) && MarkInv(s)
  }

  ghost predicate MarkInv(s: State)
    requires Shape(s)
  {
    && (forall j :: 0 <= j < s.durable ==> s.hist[j].op < s.mark)
    && (forall j :: s.durable <= j < |s.hist| ==> s.mark <= s.hist[j].op < s.nextOp)
  }

  /** Log blocks the operations in progress may still append. */
  function Unused(ops: seq<Op>): int {
    if ops == [] then 0 else MAXOPBLOCKS - ops[0].appended + Unused(ops[1..])
  }

  /** The reservation made by `begin_op` covers every append still to come. */
  ghost predicate ReserveInv(s: State) {
    ReserveOk(|s.lh|, s.ops)
  }

  /** `n` logged blocks and all budgets fit the log. */
  ghost predicate ReserveOk(n: nat, ops: seq<Op>) {
    (forall i :: 0 <= i < |ops| ==> ops[i].appended <= MAXOPBLOCKS) && n + Unused(ops) <= LOGSIZE
  }

  /** The part of the invariant that is about block contents: `want` is what readers
      should see, `safe` what a recovery should bring back. */
  ghost predicate DataInv(s: State, want: seq<Block>, safe: seq<Block>) {
    && Shape(s) && |want| == |safe| == |s.disk|
    && PhaseInv(s, want)
    && (s.phase.Recovering() || ReadersSee(s, want))
    && RecoversTo(s.g, s.disk, safe)
  }

  ghost predicate Inv(base: seq<Block>, s: State) {
    && Shape(s) && |base| == |s.disk|
    && DataInv(s, Replay(base, s.hist), Replay(base, s.hist[..s.durable]))
    && Tracked(s) && AtomicInv(s) && ReserveInv(s)
  }

  lemma InitInv(s: State)
    requires Init(s)
    ensures Inv(s.disk, s)
  {
  }

  lemma {:induction false} UnusedAppend(a: seq<Op>, b: seq<Op>)
    ensures Unused(a + b) == Unused(a) + Unused(b)
  {
    if a == [] {
      assert a + b == b;
    } else {
      assert (a + b)[1..] == a[1..] + b;
      UnusedAppend(a[1..], b);
    }
  }

  lemma UnusedSplit(ops: seq<Op>, i: nat)
    requires i < |ops|
    ensures Unused(ops) == Unused(ops[..i] + ops[i + 1..]) + MAXOPBLOCKS - ops[i].appended
  {
    assert ops == ops[..i] + ([ops[i]] + ops[i + 1..]);
    UnusedMiddle(ops[..i], ops[i], ops[i + 1..]);
  }

  lemma UnusedMiddle(a: seq<Op>, x: Op, b: seq<Op>)
    ensures Unused(a + ([x] + b)) == Unused(a + b) + MAXOPBLOCKS - x.appended
  {
    UnusedAppend(a, [x] + b);
    UnusedAppend(a, b);
    assert ([x] + b)[1..] == b;
  }

  lemma UnusedSpend(ops: seq<Op>, i: nat)
    requires i < |ops|
    ensures Unused(ops[i := ops[i].(appended := ops[i].appended + 1)]) == Unused(ops) - 1
  {
    var ops' := ops[i := ops[i].(appended := ops[i].appended + 1)];
    UnusedSplit(ops, i);
    UnusedSplit(ops', i);
    assert ops'[..i] + ops'[i + 1..] == ops[..i] + ops[i + 1..];
  }

  lemma {:induction false} UnusedBounds(ops: seq<Op>)
    requires forall i :: 0 <= i < |ops| ==> ops[i].appended <= MAXOPBLOCKS
    ensures 0 <= Unused(ops) <= |ops| * MAXOPBLOCKS
  {
    if ops != [] { UnusedBounds(ops[1..]); }
  }

  /** One more update on top of a history. */
  lemma ReplayStep(d: seq<Block>, h: seq<Update>, u: Update)
    requires u.block < |d|
    ensures Replay(d, h + [u]) == Replay(d, h)[u.block := u.data]
  {
    assert (h + [u])[..|h|] == h;
  }

  // ---- Shape, reservation and operation identity, kept by every event ----

  lemma ShapeKeeps(s: State, e: Event)
    requires Shape(s) && HeaderFits(s.g, s.disk) && Can(s, e)
    ensures Shape(Do(s, e))
  {
    if e.Log? {
      assert s.g.Home(e.block);
    } else if e.Recover? {
      if s.phase.Down? {
        assert |s.disk[s.g.start].lh| <= s.g.Limit();
      }
    }
  }

  lemma ReserveKeeps(s: State, e: Event)
    requires Shape(s) && HeaderFits(s.g, s.disk) && Can(s, e)
    requires ReserveInv(s) && (!s.phase.Running? ==> s.ops == [])
    ensures ReserveInv(Do(s, e))
  {
    var s' := Do(s, e);
    if e.Begin? {
      ReserveBegin(|s.lh|, s.ops, s.nextOp);
      assert s'.lh == s.lh && s'.ops == s.ops + [Op(s.nextOp, 0)];
    } else if e.Log? {
      if LogAppends(s, e.block) {
        ReserveLog(|s.lh|, s.ops, e.i);
        assert |s'.lh| == |s.lh| + 1 && s'.ops == s.ops[e.i := s.ops[e.i].(appended := s.ops[e.i].appended + 1)];
      } else {
        assert s'.lh == s.lh && s'.ops == s.ops;
      }
    } else if e.End? {
      ReserveEnd(|s.lh|, s.ops, e.i);
      assert s'.lh == s.lh && s'.ops == s.ops[..e.i] + s.ops[e.i + 1..];
    } else {
      assert s'.ops == s.ops || s'.ops == [];
    }
  }

  lemma ReserveBegin(n: nat, ops: seq<Op>, id: nat)
    requires ReserveOk(n, ops) && n + (|ops| + 1) * MAXOPBLOCKS <= LOGSIZE
    ensures ReserveOk(n, ops + [Op(id, 0)])
  {
    UnusedBounds(ops);
    UnusedAppend(ops, [Op(id, 0)]);
  }

  lemma ReserveLog(n: nat, ops: seq<Op>, i: nat)
    requires ReserveOk(n, ops) && i < |ops| && ops[i].appended < MAXOPBLOCKS
    ensures ReserveOk(n + 1, ops[i := ops[i].(appended := ops[i].appended + 1)])
  {
    UnusedSpend(ops, i);
  }

  lemma ReserveEnd(n: nat, ops: seq<Op>, i: nat)
    requires ReserveOk(n, ops) && i < |ops|
    ensures ReserveOk(n, ops[..i] + ops[i + 1..])
  {
    UnusedSplit(ops, i);
  }

  /** Every changed and unlogged buffer belongs to an operation still in progress. */
  ghost predicate DirtyOwned(s: State) {
    forall b :: b in s.dirty ==> OwnsOp(s.ops, s.dirty[b])
  }

  ghost predicate OwnsOp(ops: seq<Op>, id: nat) {
    exists i :: 0 <= i < |ops| && ops[i].id == id
  }

  lemma DirtyOwnedKeeps(s: State, e: Event)
    requires Shape(s) && HeaderFits(s.g, s.disk) && Can(s, e) && DirtyOwned(s)
    ensures DirtyOwned(Do(s, e))
  {
    var s' := Do(s, e);
    forall b | b in s'.dirty ensures OwnsOp(s'.ops, s'.dirty[b]) {
      if e.Modify? && b == e.block {
        assert s'.ops[e.i].id == s'.dirty[b];
      } else {
        var i :| 0 <= i < |s.ops| && s.ops[i].id == s.dirty[b];
        if e.End? {
          assert s.dirty[b] in s.dirty.Values;
          assert s'.ops[if i < e.i then i else i - 1].id == s'.dirty[b];
        } else {
          assert s'.ops[i].id == s'.dirty[b];
        }
      }
    }
  }

  lemma OpsKeepEnd(s: State, i: nat)
    requires Shape(s) && HeaderFits(s.g, s.disk) && Can(s, End(i)) && OpsInv(s)
    ensures OpsInv(Do(s, End(i)))
  {
    var s' := Do(s, End(i));
    assert forall k :: 0 <= k < |s'.ops| ==> s'.ops[k] == s.ops[if k < i then k else k + 1];
  }

  lemma OpsKeep(s: State, e: Event)
    requires Shape(s) && HeaderFits(s.g, s.disk) && Can(s, e) && OpsInv(s)
    ensures OpsInv(Do(s, e))
  {
    match e
    case Log(i, b) =>
      var s' := Do(s, e);
      assert |s'.ops| == |s.ops| && forall k :: 0 <= k < |s.ops| ==> s'.ops[k].id == s.ops[k].id;
    case End(i) => OpsKeepEnd(s, i);
    case _ =>
  }

  lemma MarkKeeps(s: State, e: Event)
    requires Shape(s) && HeaderFits(s.g, s.disk) && Can(s, e) && OpsInv(s) && MarkInv(s)
    requires Shape(Do(s, e))
    ensures MarkInv(Do(s, e))
  {
  }

  lemma AtomicKeeps(s: State, e: Event)
    requires Shape(s) && HeaderFits(s.g, s.disk) && Can(s, e) && AtomicInv(s)
    ensures Shape(Do(s, e)) && AtomicInv(Do(s, e))
  {
    ShapeKeeps(s, e);
    DirtyOwnedKeeps(s, e);
    OpsKeep(s, e);
    MarkKeeps(s, e);
  }

  lemma TrackedKeeps(s: State, e: Event)
    requires Shape(s) && HeaderFits(s.g, s.disk) && Can(s, e) && Tracked(s)
    requires s.phase.Committed() || s.phase.Down? ==> s.durable == |s.hist|
    requires s.phase.ClearHead? || s.phase.Recovering() ==> s.cache == map[]
    ensures Shape(Do(s, e)) && Tracked(Do(s, e))
  {
    var s' := Do(s, e);
    ShapeKeeps(s, e);
    if e.Log? {
      assert forall b :: b in s.lh ==> b in s'.lh;
      assert e.block in s'.lh;
    }
  }

  // ---- Block contents, event by event ----

  lemma OpEventKeeps(s: State, e: Event, want: seq<Block>, safe: seq<Block>)
    requires DataInv(s, want, safe) && Can(s, e) && (e.Begin? || e.Log? || e.End?)
    ensures DataInv(Do(s, e), want, safe)
  {
    ShapeKeeps(s, e);
  }

  lemma ModifyKeeps(s: State, e: Event, want: seq<Block>, safe: seq<Block>)
    requires DataInv(s, want, safe) && e.Modify? && Can(s, e)
    ensures DataInv(Do(s, e), want[e.block := e.data], safe)
  {
    ShapeKeeps(s, e);
  }

  /** Filling a log slot while the header is empty is invisible to a recovery. */
  lemma SlotOne(g: Geometry, d: seq<Block>, lh: seq<nat>, t: nat, want: seq<Block>, safe: seq<Block>)
    requires g.Valid() && |d| == |want| == |safe| == g.blocks && t < |lh| < g.size
    requires forall i :: 0 <= i < |lh| ==> lh[i] < |want|
    requires forall i :: 0 <= i < t ==> d[g.start + i + 1] == want[lh[i]]
    requires d[g.start].lh == [] && RecoversTo(g, d, safe)
    ensures var d' := d[g.start + t + 1 := want[lh[t]]];
            && d'[g.start].lh == [] && RecoversTo(g, d', safe)
            && (forall i :: 0 <= i < t + 1 ==> d'[g.start + i + 1] == want[lh[i]])
            && (forall b: nat {:trigger g.Home(b)} :: g.Home(b) ==> d'[b] == d[b])
  {
  }

  lemma WriteLogKeeps(s: State, want: seq<Block>, safe: seq<Block>)
    requires DataInv(s, want, safe) && s.phase.WriteLog? && s.phase.tail < |s.lh|
    ensures DataInv(CommitStep(s), want, safe)
  {
    var t := s.phase.tail;
    assert s.g.Home(s.lh[t]);
    var d' := s.disk[s.g.start + t + 1 := want[s.lh[t]]];
    SlotOne(s.g, s.disk, s.lh, t, want, safe);
    assert CommitStep(s) == s.(disk := d', phase := WriteLog(t + 1));
    ReadersStill(s, CommitStep(s), want);
  }

  /** Readers do not see what is written to the log. */
  lemma ReadersStill(s: State, s': State, want: seq<Block>)
    requires Shape(s) && Shape(s') && |want| == |s.disk| == |s'.disk| && ReadersSee(s, want) && s'.g == s.g
             && s'.cache == s.cache
    requires forall b: nat {:trigger s.g.Home(b)} :: s.g.Home(b) ==> s'.disk[b] == s.disk[b]
    ensures ReadersSee(s', want)
  {
  }

  lemma WriteLogDoneKeeps(s: State, want: seq<Block>, safe: seq<Block>)
    requires DataInv(s, want, safe) && s.phase.WriteLog? && s.phase.tail == |s.lh|
    ensures DataInv(CommitStep(s), want, safe)
  {
  }

  /** A header naming `lh` makes a recovery copy every slot home. */
  lemma HeadOne(g: Geometry, d: seq<Block>, lh: seq<nat>, want: seq<Block>)
    requires g.Valid() && |d| == |want| == g.blocks && |lh| <= g.Limit()
    requires forall t :: 0 <= t < |lh| ==> g.Home(lh[t]) && lh[t] < |want|
    requires forall t, u :: 0 <= t < u < |lh| ==> lh[t] != lh[u]
    requires forall t :: 0 <= t < |lh| ==> d[g.start + t + 1] == want[lh[t]]
    requires forall b: nat {:trigger g.Home(b)} :: g.Home(b) && b !in lh ==> d[b] == want[b]
    ensures var d' := d[g.start := d[g.start].(lh := lh)];
            && d'[g.start].lh == lh && RecoversTo(g, d', want)
            && (forall b: nat {:trigger g.Home(b)} :: g.Home(b) ==> d'[b] == d[b])
  {
  }

  /** The commit point: one header write makes `want` what a recovery brings back. */
  lemma WriteHeadKeeps(s: State, want: seq<Block>, safe: seq<Block>)
    requires DataInv(s, want, safe) && s.phase.WriteHead?
    requires forall b :: b in s.cache ==> b in s.lh
    ensures DataInv(CommitStep(s), want, want)
  {
    HeadOne(s.g, s.disk, s.lh, want);
  }

  /** Copying a slot home does not change what a recovery would bring back. */
  lemma InstallOne(g: Geometry, d: seq<Block>, h: seq<nat>, t: nat, want: seq<Block>)
    requires g.Valid() && |d| == |want| == g.blocks
    requires d[g.start].lh == h && RecoversTo(g, d, want) && t < |h|
    ensures g.Home(h[t])
    ensures var d' := d[h[t] := d[g.start + t + 1]];
            && (forall b: nat {:trigger g.Home(b)} :: g.Home(b) ==> d'[b] == if b == h[t] then want[b] else d[b])
            && d'[g.start].lh == h && RecoversTo(g, d', want)
  {
    assert g.Home(h[t]);
  }

  lemma InstallKeeps(s: State, want: seq<Block>)
    requires DataInv(s, want, want) && s.phase.Install? && s.phase.tail < |s.lh|
    ensures DataInv(CommitStep(s), want, want)
  {
    InstallOne(s.g, s.disk, s.lh, s.phase.tail, want);
  }

  lemma InstallDoneKeeps(s: State, want: seq<Block>)
    requires DataInv(s, want, want) && s.phase.Install? && s.phase.tail == |s.lh|
    requires forall b :: b in s.cache ==> b in s.lh
    ensures DataInv(CommitStep(s), want, want)
  {
    assert s.cache == map[];
  }

  lemma ClearHeadKeeps(s: State, want: seq<Block>)
    requires DataInv(s, want, want) && s.phase.ClearHead?
    ensures DataInv(CommitStep(s), want, want)
  {
    assert forall b: nat {:trigger s.g.Home(b)} :: s.g.Home(b) ==> s.Bread(b) == s.disk[b];
  }

  lemma RecoverBeginKeeps(s: State, want: seq<Block>)
    requires DataInv(s, want, want) && s.phase.Down?
    ensures DataInv(RecoverStep(s), want, want)
  {
  }

  /** Copying one slot home again during a recovery changes nothing a later one would see. */
  lemma RecoverInstallKeeps(s: State, want: seq<Block>)
    requires DataInv(s, want, want) && s.phase.RecoverInstall? && s.phase.tail < |s.lh|
    ensures DataInv(RecoverStep(s), want, want)
  {
    var t := s.phase.tail;
    InstallOne(s.g, s.disk, s.lh, t, want);
    ReinstallPhase(s, want, t);
  }

  lemma ReinstallShape(s: State, t: nat)
    requires Shape(s) && s.phase == RecoverInstall(t) && t < |s.lh|
    ensures s.g.Home(s.lh[t]) && Shape(RecoverStep(s))
    ensures RecoverStep(s) == s.(disk := s.disk[s.lh[t] := s.disk[s.g.start + t + 1]], phase := RecoverInstall(t + 1))
  {
    assert s.g.Home(s.lh[t]);
  }

  /** A recovery's writes go to home blocks and leave the slots alone. */
  lemma ReinstallPhase(s: State, want: seq<Block>, t: nat)
    requires Shape(s) && |want| == |s.disk| && PhaseInv(s, want) && s.phase == RecoverInstall(t) && t < |s.lh|
    requires RecoversTo(s.g, s.disk, want)
    ensures Shape(RecoverStep(s)) && PhaseInv(RecoverStep(s), want)
  {
    ReinstallShape(s, t);
    var s' := RecoverStep(s);
    assert s.disk[s.g.start + t + 1] == want[s.lh[t]];
    forall i | 0 <= i < t + 1 ensures s'.disk[s.lh[i]] == want[s.lh[i]] {
      assert i < t ==> s.lh[i] != s.lh[t];
    }
  }

  lemma RecoverDoneKeeps(s: State, want: seq<Block>)
    requires DataInv(s, want, want) && s.phase.RecoverInstall? && s.phase.tail == |s.lh|
    ensures DataInv(RecoverStep(s), want, want)
  {
    forall b: nat | s.g.Home(b) ensures s.disk[b] == want[b] {
      if b in s.lh {
        var i :| 0 <= i < |s.lh| && s.lh[i] == b;
      }
    }
  }

  lemma NothingDirty(s: State)
    requires Shape(s) && AtomicInv(s) && s.ops == []
    ensures s.dirty == map[]
  {
    assert forall b :: b in s.dirty ==> false;
  }

  lemma CommitKeeps(base: seq<Block>, s: State)
    requires Inv(base, s) && Can(s, Commit)
    ensures var s' := Do(s, Commit);
            DataInv(s', Replay(base, s'.hist), Replay(base, s'.hist[..s'.durable]))
  {
    var want, safe := Replay(base, s.hist), Replay(base, s.hist[..s.durable]);
    assert s.hist[..|s.hist|] == s.hist;
    NothingDirty(s);
    match s.phase
    case WriteLog(t) => if t < |s.lh| { WriteLogKeeps(s, want, safe); } else { WriteLogDoneKeeps(s, want, safe); }
    case WriteHead => WriteHeadKeeps(s, want, safe);
    case Install(t) => if t < |s.lh| { InstallKeeps(s, want); } else { InstallDoneKeeps(s, want); }
    case ClearHead => ClearHeadKeeps(s, want);
  }

  lemma RecoverKeeps(base: seq<Block>, s: State)
    requires Inv(base, s) && Can(s, Recover)
    ensures var s' := Do(s, Recover);
            DataInv(s', Replay(base, s'.hist), Replay(base, s'.hist[..s'.durable]))
  {
    var want := Replay(base, s.hist);
    assert s.hist[..|s.hist|] == s.hist;
    if s.phase.Down? {
      RecoverBeginKeeps(s, want);
    } else if s.phase.tail < |s.lh| {
      RecoverInstallKeeps(s, want);
    } else {
      RecoverDoneKeeps(s, want);
    }
  }

  lemma OtherKeeps(base: seq<Block>, s: State, e: Event)
    requires Inv(base, s) && Can(s, e) && !e.Commit? && !e.Recover?
    ensures var s' := Do(s, e);
            DataInv(s', Replay(base, s'.hist), Replay(base, s'.hist[..s'.durable]))
  {
    var want, safe := Replay(base, s.hist), Replay(base, s.hist[..s.durable]);
    var s' := Do(s, e);
    match e
    case Modify(i, b, v) =>
      ModifyKeeps(s, e, want, safe);
      ReplayStep(base, s.hist, Update(s.ops[i].id, b, v));
      assert s'.hist[..s.durable] == s.hist[..s.durable];
    case Crash =>
      assert s'.hist[..s'.durable] == s'.hist;
    case _ => OpEventKeeps(s, e, want, safe);
  }

  lemma StepKeeps(base: seq<Block>, s: State, e: Event)
    requires Inv(base, s) && Can(s, e)
    ensures Inv(base, Do(s, e))
  {
    AtomicKeeps(s, e);
    ReserveKeeps(s, e);
    TrackedKeeps(s, e);
    match e
    case Commit => CommitKeeps(base, s);
    case Recover => RecoverKeeps(base, s);
    case _ => OtherKeeps(base, s, e);
  }

  // ---- Whole runs ----

  ghost predicate Ready(s: State) { Shape(s) && HeaderFits(s.g, s.disk) }

  ghost predicate Steps(m: State, e: Event, s: State) {
    Ready(m) && Can(m, e) && s == Do(m, e)
  }

  /** `s` is reached from `s0` by the events `evs`, crashes and recoveries included. */
  ghost predicate Reaches(s0: State, evs: seq<Event>, s: State) {
    Runs.Reaches(Steps, s0, evs, s)
  }

  lemma RunInv(s0: State, evs: seq<Event>, s: State)
    requires Init(s0) && Reaches(s0, evs, s)
    ensures Inv(s0.disk, s)
  {
    InitInv(s0);
    var inv := x => Inv(s0.disk, x);
    forall m, e, n | e in evs && inv(m) && Steps(m, e, n) ensures inv(n) {
      StepKeeps(s0.disk, m, e);
    }
    Runs.Invariant(Steps, inv, s0, evs, s);
  }

  /** Crash atomicity: wherever a run stops, a recovery of its disk brings the home blocks to
      exactly the first `durable` updates, and no operation has updates on both sides. */
  lemma CrashAtomicity(s0: State, evs: seq<Event>, s: State)
    requires Init(s0) && Reaches(s0, evs, s)
    ensures Ready(s) && |s0.disk| == s.g.blocks
    ensures SameHome(s.g, Recovered(s.g, s.disk), Replay(s0.disk, s.hist[..s.durable]))
    ensures forall i, j :: 0 <= i < s.durable <= j < |s.hist| ==> s.hist[i].op != s.hist[j].op
  {
    RunInv(s0, evs, s);
    RecoversToMeaning(s.g, s.disk, Replay(s0.disk, s.hist[..s.durable]));
  }

  /** While the system runs, every reader sees all updates made so far. */
  lemma ReadersSeeEverything(s0: State, evs: seq<Event>, s: State, b: nat)
    requires Init(s0) && Reaches(s0, evs, s) && !s.phase.Recovering() && s.g.Home(b)
    ensures b < |s.disk| == |s0.disk| && s.Bread(b) == Replay(s0.disk, s.hist)[b]
  {
    RunInv(s0, evs, s);
  }

  /** Once no operation is in progress and no commit is running, nothing can be lost. */
  lemma QuiescentIsDurable(s0: State, evs: seq<Event>, s: State)
    requires Init(s0) && Reaches(s0, evs, s) && s.phase.Running? && s.ops == []
    ensures s.durable == |s.hist|
  {
    RunInv(s0, evs, s);
    NothingDirty(s);
  }

  /** The durable updates of `m` are still durable in `s`. */
  ghost predicate KeepsDurable(m: State, s: State) {
    m.durable <= |m.hist| && m.durable <= s.durable <= |s.hist| && m.hist[..m.durable] <= s.hist
  }

  lemma DurableStep(m: State, n: State, e: Event)
    requires Ready(n) && Can(n, e) && KeepsDurable(m, n)
    ensures KeepsDurable(m, Do(n, e))
  {
  }

  /** Durable updates stay durable through every event, a crash included. */
  lemma DurableStays(s0: State, evs: seq<Event>, m: State, more: seq<Event>, s: State)
    requires Init(s0) && Reaches(s0, evs, m) && Reaches(m, more, s)
    ensures KeepsDurable(m, s)
  {
    RunInv(s0, evs, m);
    var inv := x => KeepsDurable(m, x);
    forall n, e, n' | e in more && inv(n) && Steps(n, e, n') ensures inv(n') {
      DurableStep(m, n, e);
    }
    Runs.Invariant(Steps, inv, m, more, s);
  }

  ghost predicate OnlyRecovery(evs: seq<Event>) {
    forall e :: e in evs ==> e.Crash? || e.Recover?
  }

  /** Down, recovering, or just recovered, with nothing in memory. */
  ghost predicate Resting(s: State, g: Geometry, hist: seq<Update>) {
    && s.g == g && s.hist == hist && s.durable == |hist| && s.cache == map[]
    && (s.phase.Recovering() || s.phase.Running?)
  }

  lemma RecoveryRests(m: State, rec: seq<Event>, s: State)
    requires Resting(m, m.g, m.hist) && OnlyRecovery(rec) && Reaches(m, rec, s)
    ensures Resting(s, m.g, m.hist)
  {
    var inv := x => Resting(x, m.g, m.hist);
    forall n, e, n' | e in rec && inv(n) && Steps(n, e, n') ensures inv(n') {
      assert n.hist[..n.durable] == n.hist;
    }
    Runs.Invariant(Steps, inv, m, rec, s);
  }

  lemma CrashThenRest(m: State, rec: seq<Event>, s: State)
    requires OnlyRecovery(rec) && rec != [] && rec[0].Crash? && Reaches(m, rec, s) && Ready(m)
    ensures Resting(s, m.g, m.hist[..m.durable])
  {
    var c := Runs.First(Steps, m, rec, s);
    assert Resting(c, c.g, c.hist) && c.hist == m.hist[..m.durable];
    RecoveryRests(c, rec[1..], s);
  }

  lemma RestingHome(s0: State, evs: seq<Event>, s: State)
    requires Init(s0) && Reaches(s0, evs, s) && s.phase.Running? && s.cache == map[]
    ensures |s.disk| == |s0.disk| == s.g.blocks && SameHome(s.g, s.disk, Replay(s0.disk, s.hist))
  {
    RunInv(s0, evs, s);
    assert forall b: nat {:trigger s.g.Home(b)} :: s.g.Home(b) ==> s.Bread(b) == s.disk[b];
  }

  /** However often a recovery is cut short by another crash, once one finishes the home
      blocks are what an undisturbed recovery makes of the disk at the first crash. */
  lemma RecoveryIdempotent(s0: State, evs: seq<Event>, m: State, rec: seq<Event>, s: State)
    requires Init(s0) && Reaches(s0, evs, m)
    requires OnlyRecovery(rec) && rec != [] && rec[0].Crash? && Reaches(m, rec, s) && s.phase.Running?
    ensures Ready(m) && |s.disk| == m.g.blocks
    ensures SameHome(m.g, s.disk, Recovered(m.g, m.disk))
  {
    CrashAtomicity(s0, evs, m);
    CrashThenRest(m, rec, s);
    Runs.Through(Steps, s0, evs, m, rec, s);
    RestingHome(s0, evs + rec, s);
  }

  // ---- Log space ----

  /** The reservation made by `begin_op`: logged blocks plus every unused budget fit the log,
      so an operation within its budget finds a free entry. */
  lemma Reservation(s0: State, evs: seq<Event>, s: State, i: nat)
    requires Init(s0) && Reaches(s0, evs, s)
    requires i < |s.ops| && s.ops[i].appended < MAXOPBLOCKS
    ensures |s.lh| + Unused(s.ops) <= LOGSIZE
    ensures |s.lh| < LOGSIZE
    ensures s.g.size > LOGSIZE ==> !Overfull(s)
  {
    RunInv(s0, evs, s);
    UnusedSplit(s.ops, i);
    UnusedBounds(s.ops[..i] + s.ops[i + 1..]);
  }

  /** How much of its budget the `i`th of three operations has used when `k` blocks are logged. */
  function Spent(k: nat, i: nat): nat {
    if k <= 10 * i then 0 else if k - 10 * i < 10 then k - 10 * i else 10
  }

  /** Three operations in progress that have logged `k` distinct blocks between them. */
  ghost predicate Filling(s: State, k: nat) {
    && Ready(s) && s.phase.Running? && s.dirty == map[]
    && |s.ops| == 3 && (forall i :: 0 <= i < 3 ==> s.ops[i].appended == Spent(k, i))
    && |s.lh| == k && (forall i :: 0 <= i < k ==> s.lh[i] == s.g.start + s.g.size + i)
  }

  lemma StartThree(s0: State) returns (evs: seq<Event>, s: State)
    requires Init(s0)
    ensures Reaches(s0, evs, s) && Filling(s, 0) && s.g == s0.g
  {
    var s1 := Do(s0, Begin);
    var s2 := Do(s1, Begin);
    s := Do(s2, Begin);
    Runs.Extend(Steps, s0, [], s0, Begin, s1);
    Runs.Extend(Steps, s0, [] + [Begin], s1, Begin, s2);
    Runs.Extend(Steps, s0, [] + [Begin] + [Begin], s2, Begin, s);
    evs := [] + [Begin] + [Begin] + [Begin];
  }

  lemma LogOneMore(s: State, k: nat) returns (e1: Event, m: State, e2: Event, n: State)
    requires Filling(s, k) && k < s.g.Limit() && s.g.start + s.g.size + k < s.g.blocks
    ensures Steps(s, e1, m) && Steps(m, e2, n) && Filling(n, k + 1) && n.g == s.g
  {
    var b := s.g.start + s.g.size + k;
    e1 := Modify(k / 10, b, s.disk[b]);
    m := Do(s, e1);
    e2 := Log(k / 10, b);
    assert b !in s.lh;
    n := Do(m, e2);
    ShapeKeeps(m, e2);
  }

  lemma {:induction false} FillLog(s0: State, k: nat) returns (evs: seq<Event>, s: State)
    requires Init(s0) && k <= s0.g.Limit() && s0.g.start + s0.g.size + k <= s0.g.blocks
    ensures Reaches(s0, evs, s) && Filling(s, k) && s.g == s0.g
  {
    if k == 0 {
      evs, s := StartThree(s0);
    } else {
      var evs', s' := FillLog(s0, k - 1);
      var e1, m, e2, n := LogOneMore(s', k - 1);
      Runs.Extend(Steps, s0, evs', s', e1, m);
      Runs.Extend(Steps, s0, evs' + [e1], m, e2, n);
      evs, s := evs' + [e1] + [e2], n;
    }
  }

  /** Operation `i` keeps to its budget and calls `log_write` for block `b`, which it has changed. */
  predicate MayLog(s: State, i: nat, b: nat) {
    && s.phase.Running? && i < |s.ops| && b in s.dirty && s.dirty[b] == s.ops[i].id
    && (LogAppends(s, b) ==> s.ops[i].appended < MAXOPBLOCKS)
  }

  /** Such a call panics exactly when the log is full.  In a log of more than LOGSIZE blocks that
      takes LOGSIZE entries; every budget is spent then, and the block is logged already: the
      guard comes before the search for it. */
  lemma GuardExact(s0: State, evs: seq<Event>, s: State, i: nat, b: nat)
    requires Init(s0) && Reaches(s0, evs, s) && MayLog(s, i, b)
    ensures Overfull(s) <==> |s.lh| == s.g.Limit()
    ensures s.g.size > LOGSIZE ==> (Overfull(s) <==> |s.lh| == LOGSIZE)
    ensures s.g.size > LOGSIZE && Overfull(s) ==> b in s.lh && forall j :: 0 <= j < |s.ops| ==>
              s.ops[j].appended == MAXOPBLOCKS
  {
    RunInv(s0, evs, s);
    if s.g.size > LOGSIZE && Overfull(s) {
      forall j | 0 <= j < |s.ops| ensures s.ops[j].appended == MAXOPBLOCKS {
        if s.ops[j].appended < MAXOPBLOCKS { Reservation(s0, evs, s, j); }
      }
    }
  }

  /** Calls that add a block never panic, in any run, if and only if the log has more than LOGSIZE
      blocks.  (`mkfs` makes it LOGSIZE blocks.) */
  lemma AppendGuardExact(s0: State)
    requires Init(s0) && s0.g.start + s0.g.size + LOGSIZE <= s0.g.blocks
    ensures s0.g.size > LOGSIZE <==>
            forall evs, s, i, b :: Reaches(s0, evs, s) && MayLog(s, i, b) && LogAppends(s, b) ==> !Overfull(s)
  {
    if s0.g.size > LOGSIZE {
      forall evs, s, i, b | Reaches(s0, evs, s) && MayLog(s, i, b) && LogAppends(s, b) ensures !Overfull(s) {
        GeometryFixed(s0, evs, s);
        GuardExact(s0, evs, s, i, b);
      }
    } else {
      var k := s0.g.Limit();
      var evs, s := FullLog(s0, 2, s0.g.start + s0.g.size + k);
      assert MayLog(s, 2, s0.g.start + s0.g.size + k);
    }
  }

  /** A call for a block that is logged already panics in some run, however large the log is. */
  lemma AbsorbedPanics(s0: State) returns (evs: seq<Event>, s: State, b: nat)
    requires Init(s0) && s0.g.size >= 2 && s0.g.start + s0.g.size + LOGSIZE <= s0.g.blocks
    ensures Reaches(s0, evs, s) && MayLog(s, 0, b) && b in s.lh && Overfull(s)
  {
    b := s0.g.start + s0.g.size;
    evs, s := FullLog(s0, 0, b);
    assert s.lh[0] == b;
  }

  /** A full log, and operation `i` has just changed block `b`. */
  lemma FullLog(s0: State, i: nat, b: nat) returns (evs: seq<Event>, s: State)
    requires Init(s0) && s0.g.start + s0.g.size + LOGSIZE <= s0.g.blocks && i < 3 && s0.g.Home(b)
    ensures Reaches(s0, evs, s) && s.g == s0.g && Overfull(s) && s.phase.Running? && |s.lh| == s0.g.Limit()
            && |s.ops| == 3
    ensures b in s.dirty && s.dirty[b] == s.ops[i].id && s.ops[i].appended == Spent(s0.g.Limit(), i)
    ensures forall j :: 0 <= j < |s.lh| ==> s.lh[j] == s.g.start + s.g.size + j
  {
    var evs', s' := FillLog(s0, s0.g.Limit());
    var e := Modify(i, b, s'.disk[b]);
    s := Do(s', e);
    Runs.Extend(Steps, s0, evs', s', e, s);
    evs := evs' + [e];
  }

  lemma GeometryFixed(s0: State, evs: seq<Event>, s: State)
    requires Reaches(s0, evs, s)
    ensures s.g == s0.g
  {
    Runs.Invariant(Steps, (x: State) => x.g == s0.g, s0, evs, s);
  }
}
