/** `kernel/log.c` as code: the global `log` structure and the functions that change it.

    A ghost copy of the machine of `RedoLog` runs along.  Every method records the events it
    takes, so the object's state is always the end of a run of that machine, and every disk
    write in between is a point where the machine may take `Crash`. */
module RedoLogCode {
  import opened RedoLog
  import Runs

  datatype LogWriteResult = Logged | PanicTooBig | PanicOutsideTransaction

  /** The values of the fields are what the machine says. */
  ghost predicate Mirrors(m: State, g: Geometry, disk: seq<Block>, cache: map<nat, Block>, entries: seq<nat>,
                          outstanding: nat, committing: bool)
  {
    && g == m.g && disk == m.disk && cache == m.cache && entries == m.lh && outstanding == |m.ops|
    && committing == (m.phase.WriteLog? || m.phase.WriteHead? || m.phase.Install? || m.phase.ClearHead?)
  }

  lemma MirrorInstalled(m: State, t: nat, disk: seq<Block>, cache: map<nat, Block>, entries: seq<nat>)
    requires t < |m.lh| && m.lh[t] < |m.disk| && m.g.start + t + 1 < |m.disk| && m.phase == Install(t)
    requires Mirrors(m, m.g, disk, cache, entries, |m.ops|, true)
    ensures Mirrors(Installed(m, t), m.g, disk[entries[t] := disk[m.g.start + t + 1]], cache - {entries[t]}, entries,
                    |m.ops|, true)
  {
  }

  lemma MirrorReinstalled(m: State, t: nat, disk: seq<Block>, cache: map<nat, Block>, entries: seq<nat>)
    requires t < |m.lh| && m.lh[t] < |m.disk| && m.g.start + t + 1 < |m.disk| && m.phase == RecoverInstall(t)
    requires Mirrors(m, m.g, disk, cache, entries, |m.ops|, false)
    ensures Mirrors(Reinstalled(m, t), m.g, disk[entries[t] := disk[m.g.start + t + 1]], cache, entries, |m.ops|, false)
  {
  }

  class LogDevice {
    const g: Geometry
    var disk: seq<Block>
    var cache: map<nat, Block>
    var n: nat                 // log.lh.n
    const block: array<nat>    // log.lh.block
    var outstanding: nat
    var committing: bool

    ghost const s0: State
    ghost var evs: seq<Event>
    ghost var m: State

    /** The fields are what the machine says, and the machine got there by the recorded run. */
    ghost predicate Valid()
      reads this, block
    {
      && Init(s0) && Reaches(s0, evs, m) && Ready(m)
      && g == s0.g && block.Length == LOGSIZE && n <= LOGSIZE
      && Mirrors(m, g, disk, cache, block[..n], outstanding, committing)
    }

    /** Between calls: neither down nor in the middle of a commit. */
    ghost predicate Up()
      reads this, block
    {
      Valid() && m.phase.Running?
    }

    /** A freshly made disk whose header block holds no entries. */
    constructor (geometry: Geometry, image: seq<Block>)
      requires geometry.Valid() && |image| == geometry.blocks && image[geometry.start].lh == []
      ensures Up() && m == s0 && g == geometry && disk == image && outstanding == 0
    {
      g, disk, cache, n, outstanding, committing := geometry, image, map[], 0, 0, false;
      block := new nat[LOGSIZE](_ => 0);
      s0 := State(geometry, image, map[], map[], [], [], Running, 0, [], 0, 0);
      evs := [];
      m := State(geometry, image, map[], map[], [], [], Running, 0, [], 0, 0);
      new;
      RunInv(s0, [], s0);
    }

    /** The machine takes one event. */
    ghost method Take(e: Event)
      requires Init(s0) && Reaches(s0, evs, m) && Ready(m) && Can(m, e)
      modifies this`evs, this`m
      ensures evs == old(evs) + [e] && m == Do(old(m), e)
      ensures Reaches(s0, evs, m) && Ready(m)
    {
      Runs.Extend(Steps, s0, evs, m, e, Do(m, e));
      RunInv(s0, evs + [e], Do(m, e));
      evs, m := evs + [e], Do(m, e);
    }

    ghost method TakeCommit()
      requires Init(s0) && Reaches(s0, evs, m) && Ready(m) && Can(m, Commit)
      modifies this`evs, this`m
      ensures old(evs) <= evs && m == CommitStep(old(m))
      ensures Reaches(s0, evs, m) && Ready(m)
    {
      Take(Commit);
    }

    ghost method TakeRecover()
      requires Init(s0) && Reaches(s0, evs, m) && Ready(m) && Can(m, Recover)
      modifies this`evs, this`m
      ensures old(evs) <= evs && m == RecoverStep(old(m))
      ensures Reaches(s0, evs, m) && Ready(m)
    {
      Take(Recover);
    }

    ghost method TakeInstall(t: nat)
      requires Init(s0) && Reaches(s0, evs, m) && Ready(m) && m.phase == Install(t) && t < |m.lh|
      modifies this`evs, this`m
      ensures old(evs) <= evs && Reaches(s0, evs, m) && Ready(m) && m == Installed(old(m), t)
    {
      InstallStep(m, t);
      TakeCommit();
    }

    ghost method TakeReinstall(t: nat)
      requires Init(s0) && Reaches(s0, evs, m) && Ready(m) && m.phase == RecoverInstall(t) && t < |m.lh|
      modifies this`evs, this`m
      ensures old(evs) <= evs && Reaches(s0, evs, m) && Ready(m) && m == Reinstalled(old(m), t)
    {
      ReinstallStep(m, t);
      TakeRecover();
    }

    /** One pass of the loop in `begin_op`; false means the caller sleeps and tries again. */
    method BeginOp() returns (admitted: bool)
      requires Valid() && !m.phase.Recovering()
      modifies this`outstanding, this`evs, this`m
      ensures Valid() && m.phase == old(m.phase)
      ensures admitted == (m.phase.Running? && Admits(old(m)))
      ensures evs == if admitted then old(evs) + [Begin] else old(evs)
      ensures admitted ==> m.ops[|m.ops| - 1] == Op(old(m.nextOp), 0)
    {
      if committing || n + (outstanding + 1) * MAXOPBLOCKS > LOGSIZE {
        admitted := false;
      } else {
        outstanding := outstanding + 1;
        admitted := true;
        Take(Begin);
      }
    }

    /** The search loop of `log_write`: the first entry for `b`, or `n`. */
    method FindEntry(b: nat) returns (k: nat)
      requires block.Length == LOGSIZE && n <= LOGSIZE
      ensures k <= n && (k < n <==> b in block[..n])
      ensures k < n ==> block[k] == b
    {
      k := 0;
      while k < n && block[k] != b
        invariant k <= n
        invariant forall j :: 0 <= j < k ==> block[j] != b
      {
        k := k + 1;
      }
    }

    /** `log_write` by operation `i`, which holds and has changed the buffer of block `b`. */
    method LogWrite(b: nat, ghost i: nat) returns (r: LogWriteResult)
      requires Up() && (m.ops != [] ==> MayLog(m, i, b))
      modifies this`n, this`evs, this`m, block
      ensures Up()
      ensures r == if Overfull(old(m)) then PanicTooBig else if old(m.ops) == [] then PanicOutsideTransaction
                else Logged
      ensures evs == if r.Logged? then old(evs) + [Log(i, b)] else old(evs)
      ensures m.lh == if r.Logged? && b !in old(m.lh) then old(m.lh) + [b] else old(m.lh)
    {
      if n >= LOGSIZE || n >= g.size - 1 {
        return PanicTooBig;
      }
      if outstanding < 1 {
        return PanicOutsideTransaction;
      }
      var k := FindEntry(b);
      block[k] := b;
      if k == n {
        n := n + 1;
        assert block[..n] == old(m.lh) + [b];
      } else {
        assert block[..n] == old(m.lh);
      }
      Take(Log(i, b));
      return Logged;
    }

    method WriteLogBlock(tail: nat)
      requires Valid() && m.phase == WriteLog(tail) && tail < n
      modifies this`disk, this`evs, this`m
      ensures Valid() && m.phase == WriteLog(tail + 1) && old(evs) <= evs
      ensures m.lh == old(m.lh) && m.cache == old(m.cache) && m.hist == old(m.hist)
    {
      assert m.lh[tail] == block[tail];
      var from := Bread(block[tail]);
      disk := disk[g.start + tail + 1 := from];
      TakeCommit();
    }

    /** One machine event for each logged block, whose slot then holds what the cache had of it; the header on disk
        is not touched yet. */
    method WriteLogBlocks()
      requires Valid() && m.phase == WriteLog(0)
      modifies this`disk, this`evs, this`m
      ensures Valid() && m.phase == WriteHead && old(evs) <= evs
      ensures m.lh == old(m.lh) && m.cache == old(m.cache) && m.hist == old(m.hist)
    {
      var tail := 0;
      while tail < n
        invariant Valid() && m.phase == WriteLog(tail) && tail <= n && old(evs) <= evs
        invariant m.lh == old(m.lh) && m.cache == old(m.cache) && m.hist == old(m.hist)
      {
        WriteLogBlock(tail);
        tail := tail + 1;
      }
      TakeCommit();
    }

    method Bread(b: nat) returns (v: Block)
      requires Valid() && b < |disk|
      ensures v == m.Bread(b)
    {
      if b in cache { v := cache[b]; } else { v := disk[b]; }
    }

    /** The loop of `write_head`: the header block with `n` and the entries copied in. */
    method HeaderBlock() returns (hb: Block)
      requires g.start < |disk| && n <= block.Length
      ensures hb == disk[g.start].(lh := block[..n])
    {
      var entries := [];
      var i := 0;
      while i < n
        invariant i <= n && entries == block[..i]
      {
        entries := entries + [block[i]];
        i := i + 1;
      }
      hb := disk[g.start].(lh := entries);
    }

    /** A single block write, before which none and after which all of the updates survive a crash. */
    method WriteHeader()
      requires Valid() && m.phase == WriteHead
      modifies this`disk, this`evs, this`m
      ensures Valid() && m.phase == Install(0)
      ensures m.lh == old(m.lh) && m.hist == old(m.hist) && m.durable == |m.hist|
      ensures old(evs) <= evs
    {
      var hb := HeaderBlock();
      disk := disk[g.start := hb];
      TakeCommit();
    }

    /** One pass of the loop in `install_trans` after a commit: copy home, then unpin. */
    method InstallBlock(tail: nat)
      requires Valid() && tail < n && m.phase == Install(tail)
      modifies this`disk, this`cache, this`evs, this`m
      ensures Valid() && m.phase == Install(tail + 1) && old(evs) <= evs
      ensures m.lh == old(m.lh) && m.hist == old(m.hist) && m.durable == old(m.durable)
    {
      ghost var s := m;
      TakeInstall(tail);
      MirrorInstalled(s, tail, disk, cache, block[..n]);
      disk := disk[block[tail] := disk[g.start + tail + 1]];
      cache := cache - {block[tail]};
    }

    /** The same pass during a recovery, where nothing is pinned. */
    method ReinstallBlock(tail: nat)
      requires Valid() && tail < n && m.phase == RecoverInstall(tail)
      modifies this`disk, this`evs, this`m
      ensures Valid() && m.phase == RecoverInstall(tail + 1) && old(evs) <= evs
      ensures m.lh == old(m.lh) && m.hist == old(m.hist) && m.durable == old(m.durable)
    {
      ghost var s := m;
      TakeReinstall(tail);
      MirrorReinstalled(s, tail, disk, cache, block[..n]);
      disk := disk[block[tail] := disk[g.start + tail + 1]];
    }

    /** Every logged block gets what its slot holds; what is durable does not change, whether this is part of a commit
        or of a recovery. */
    method InstallTrans(recovering: bool)
      requires Valid() && m.phase == if recovering then RecoverInstall(0) else Install(0)
      modifies this`disk, this`cache, this`evs, this`m
      ensures Valid() && m.lh == old(m.lh) && m.hist == old(m.hist) && m.durable == old(m.durable)
      ensures m.phase == if recovering then RecoverInstall(n) else ClearHead
      ensures recovering ==> cache == old(cache)
      ensures old(evs) <= evs
    {
      var tail := 0;
      while tail < n
        invariant Valid() && tail <= n
        invariant m.phase == if recovering then RecoverInstall(tail) else Install(tail)
        invariant m.lh == old(m.lh) && m.hist == old(m.hist) && m.durable == old(m.durable)
        invariant recovering ==> cache == old(cache)
        invariant old(evs) <= evs
      {
        if recovering { ReinstallBlock(tail); } else { InstallBlock(tail); }
        tail := tail + 1;
      }
      if !recovering {
        TakeCommit();
      }
    }

    /** Forget the transaction: `n` set to 0 in memory, then in the header on disk. */
    method EraseHeader()
      requires Valid() && (m.phase.ClearHead? || (m.phase.RecoverInstall? && m.phase.tail == |m.lh|))
      modifies this`disk, this`n, this`committing, this`evs, this`m
      ensures Up() && n == 0 && m.hist == old(m.hist) && m.durable == old(m.durable)
      ensures m.cache == old(m.cache) && old(evs) <= evs
    {
      n := 0;
      var hb := HeaderBlock();
      assert block[..0] == [];
      disk := disk[g.start := hb];
      committing := false;
      if m.phase.ClearHead? {
        TakeCommit();
      } else {
        TakeRecover();
      }
    }

    /** The writes of `commit`, in order; each is an event after which the machine may crash. */
    method CommitTransaction()
      requires Valid() && m.phase == WriteLog(0)
      modifies this`disk, this`cache, this`n, this`committing, this`evs, this`m
      ensures Up() && n == 0 && m.hist == old(m.hist) && m.durable == |m.hist|
      ensures old(evs) <= evs
    {
      WriteLogBlocks();
      WriteHeader();
      InstallTrans(false);
      EraseHeader();
    }

    /** A file-system operation changes the data of a buffer it holds. */
    method ModifyBuffer(b: nat, v: Block, ghost i: nat)
      requires Up() && i < |m.ops| && g.Home(b) && (b in m.dirty ==> m.dirty[b] == m.ops[i].id)
      modifies this`cache, this`evs, this`m
      ensures Up() && evs == old(evs) + [Modify(i, b, v)]
      ensures m.hist == old(m.hist) + [Update(old(m.ops[i].id), b, v)]
    {
      cache := cache[b := v];
      Take(Modify(i, b, v));
    }

    /** `end_op`: the last operation out commits everything logged by all of them. */
    method EndOp(ghost i: nat)
      requires Up() && i < |m.ops| && m.ops[i].id !in m.dirty.Values
      modifies this`disk, this`cache, this`n, this`outstanding, this`committing, this`evs, this`m
      ensures Up() && m.hist == old(m.hist) && outstanding == old(outstanding) - 1
      ensures old(evs) + [End(i)] <= evs
      ensures outstanding == 0 ==> m.durable == |m.hist|
    {
      outstanding := outstanding - 1;
      if outstanding == 0 {
        committing := n > 0;
      }
      Take(End(i));
      if committing {
        CommitTransaction();
      } else if outstanding == 0 {
        QuiescentIsDurable(s0, evs, m);
      }
    }

    /** Power is lost: only the disk survives. */
    method PowerLoss()
      requires Valid()
      modifies this`cache, this`n, this`outstanding, this`committing, this`evs, this`m
      ensures Valid() && m.phase.Down? && m.hist == old(m.hist[..m.durable])
    {
      cache, n, outstanding, committing := map[], 0, 0, false;
      assert block[..0] == [];
      Take(Crash);
    }

    /** The first event of a recovery: from here on the entries are those that were on the disk at the crash. */
    method ReadHead()
      requires Valid() && m.phase.Down?
      modifies this`n, this`evs, this`m, block
      ensures Valid() && m.phase == RecoverInstall(0) && m.hist == old(m.hist)
    {
      var lh := disk[g.start].lh;
      n := |lh|;
      var i := 0;
      while i < n
        modifies block
        invariant i <= n && block[..i] == lh[..i]
      {
        block[i] := lh[i];
        i := i + 1;
      }
      assert block[..n] == lh;
      TakeRecover();
    }

    /** Boot after a crash: afterwards the home blocks are the durable updates, no more, no less. */
    method RecoverFromLog()
      requires Valid() && m.phase.Down?
      modifies this`disk, this`cache, this`n, this`committing, this`evs, this`m, block
      ensures Up() && m.hist == old(m.hist)
      ensures |disk| == |s0.disk| == g.blocks && SameHome(g, disk, Replay(s0.disk, m.hist))
    {
      DownIsEmpty(s0, evs, m);
      ReadHead();
      InstallTrans(true);
      EraseHeader();
      RestingHome(s0, evs, m);
    }
  }

  /** One block copied home, and unpinned. */
  ghost function Installed(s: State, t: nat): State
    requires t < |s.lh| && s.lh[t] < |s.disk| && s.g.start + t + 1 < |s.disk|
  {
    s.(disk := s.disk[s.lh[t] := s.disk[s.g.start + t + 1]], cache := s.cache - {s.lh[t]}, phase := Install(t + 1))
  }

  /** The same during a recovery. */
  ghost function Reinstalled(s: State, t: nat): State
    requires t < |s.lh| && s.lh[t] < |s.disk| && s.g.start + t + 1 < |s.disk|
  {
    s.(disk := s.disk[s.lh[t] := s.disk[s.g.start + t + 1]], phase := RecoverInstall(t + 1))
  }

  lemma InstallStep(s: State, t: nat)
    requires Shape(s) && s.phase == Install(t) && t < |s.lh|
    ensures s.lh[t] < |s.disk| && s.g.start + t + 1 < |s.disk| && CommitStep(s) == Installed(s, t)
  {
  }

  lemma ReinstallStep(s: State, t: nat)
    requires Shape(s) && s.phase == RecoverInstall(t) && t < |s.lh|
    ensures s.lh[t] < |s.disk| && s.g.start + t + 1 < |s.disk| && RecoverStep(s) == Reinstalled(s, t)
  {
  }

  lemma DownIsEmpty(s0: State, evs: seq<Event>, s: State)
    requires Init(s0) && Reaches(s0, evs, s) && s.phase.Down?
    ensures s.cache == map[]
  {
    RunInv(s0, evs, s);
  }
}
