/**
 * The table of shared-memory segments behind `shmget`, `shmdt` and `shmctl` in kernel/sysproc.c.
 * Key 0 marks a slot that is not in use; a removed segment keeps its other fields.
 */
module Shm {

  datatype Seg = Seg(key: nat, size: nat, shmflag: int, refcount: int, id: nat, pids: seq<nat>)

  /** The recorded processes are a prefix of the array, and the rest is zero. */
  ghost predicate Packed(pids: seq<nat>, rec: seq<nat>) {
    && |pids| == 10 && |rec| <= 10 && (forall j :: 0 <= j < |rec| ==> pids[j] == rec[j] && rec[j] != 0)
    && forall j :: |rec| <= j < 10 ==> pids[j] == 0
  }

  ghost predicate SegOk(s: Seg, rec: seq<nat>, i: nat) {
    Packed(s.pids, rec) && (s.id == 0 || s.id == i + 1) && (s.key != 0 ==> s.id == i + 1)
  }

  ghost predicate TableOk(segs: seq<Seg>, recs: seq<seq<nat>>) {
    && |segs| == 10 && |recs| == 10 && (forall i :: 0 <= i < 10 ==> SegOk(segs[i], recs[i], i))
    && (forall i, j :: 0 <= i < j < 10 && segs[i].key == segs[j].key ==> segs[i].key == 0)
  }

  /** The first of the recorded processes that is `pid` taken out. */
  function Without(rec: seq<nat>, pid: nat): seq<nat> {
    if rec == [] then [] else if rec[0] == pid then rec[1..] else [rec[0]] + Without(rec[1..], pid)
  }

  lemma {:induction false} WithoutAt(rec: seq<nat>, pid: nat, j: nat)
    requires j < |rec| && rec[j] == pid && pid !in rec[..j]
    ensures Without(rec, pid) == rec[..j] + rec[j + 1..]
    decreases j
  {
    if j > 0 {
      assert rec[0] == rec[..j][0];
      assert rec[1..][..j - 1] == rec[..j][1..];
      WithoutAt(rec[1..], pid, j - 1);
      assert rec[..j] == [rec[0]] + rec[1..][..j - 1];
    }
  }

  // ---- Reference counts ----

  /** What `shmget` records for one more user of a segment. */
  function MoreUsers(rec: seq<nat>, pid: nat): seq<nat> { if |rec| < 10 then rec + [pid] else rec }

  /** What a new segment in a slot records: only the first place is overwritten. */
  function FirstUser(rec: seq<nat>, pid: nat): seq<nat> { [pid] + (if rec == [] then [] else rec[1..]) }

  /** The count is the number of recorded processes. */
  predicate CountOk(s: Seg, rec: seq<nat>) { s.refcount == |rec| }

  /** What has gone wrong in a slot since its segment was made: users who found the array full, and entries beyond the
      first that its last segment left behind. */
  datatype Slips = Slips(turnedAway: nat, leftOver: nat)

  function OneMoreUser(rec: seq<nat>, e: Slips): Slips { if |rec| < 10 then e else e.(turnedAway := e.turnedAway + 1) }

  function NewSegment(rec: seq<nat>): Slips { Slips(0, if rec == [] then 0 else |rec| - 1) }

  lemma {:induction false} WithoutLess(rec: seq<nat>, pid: nat)
    requires pid in rec
    ensures |Without(rec, pid)| == |rec| - 1
  {
    if rec[0] != pid {
      WithoutLess(rec[1..], pid);
    }
  }

  /** Every count is the number of recorded processes, those turned away and not those left over. */
  ghost predicate Counts(segs: seq<Seg>, recs: seq<seq<nat>>, slips: seq<Slips>) {
    && |segs| == |recs| == |slips|
    && forall i :: 0 <= i < |segs| ==> segs[i].refcount == |recs[i]| + slips[i].turnedAway - slips[i].leftOver
  }

  class Table {
    var segs: seq<Seg>
    ghost var recs: seq<seq<nat>>   // the processes recorded for each slot
    ghost var slips: seq<Slips>     // what its count has missed

    ghost predicate Valid()
      reads this
    {
      TableOk(segs, recs) && Counts(segs, recs, slips)
    }

    /** `shm_init` */
    constructor ()
      ensures Valid() && forall i :: 0 <= i < 10 ==> segs[i].key == 0 && recs[i] == [] && slips[i] == Slips(0, 0)
    {
      segs := seq(10, i => Seg(0, 0, 0, 0, 0, seq(10, j => 0)));
      recs, slips := seq(10, i => []), seq(10, i => Slips(0, 0));
    }

    /** The first slot with this key, or 10. */
    method FindKey(key: nat) returns (i: nat)
      requires Valid()
      ensures i <= 10 && (i < 10 ==> segs[i].key == key) && forall j :: 0 <= j < i ==> segs[j].key != key
    {
      i := 0;
      while i < 10 && segs[i].key != key
        invariant i <= 10 && forall j :: 0 <= j < i ==> segs[j].key != key
      {
        i := i + 1;
      }
    }

    /** Another user of slot `i`: recorded if there is room, counted in any case.  A count that was right stays right
        exactly when there is room. */
    method Attach(i: nat, pid: nat)
      requires Valid() && i < 10 && pid != 0
      modifies this
      ensures Valid() && recs == old(recs)[i := MoreUsers(old(recs)[i], pid)]
      ensures slips == old(slips)[i := OneMoreUser(old(recs)[i], old(slips)[i])]
      ensures segs == old(segs)[i := old(segs)[i].(refcount := old(segs)[i].refcount + 1, pids := segs[i].pids)]
      ensures old(CountOk(segs[i], recs[i])) ==> (CountOk(segs[i], recs[i]) <==> |old(recs)[i]| < 10)
      ensures |old(recs)[i]| < 10 ==> (CountOk(segs[i], recs[i]) <==> old(CountOk(segs[i], recs[i])))
    {
      var s := segs[i];
      s := s.(refcount := s.refcount + 1);
      var j := 0;
      while j < 10 && s.pids[j] != 0
        invariant 0 <= j <= 10 && forall k :: 0 <= k < j ==> s.pids[k] != 0
      {
        j := j + 1;
      }
      assert SegOk(segs[i], recs[i], i);
      assert |recs[i]| < 10 ==> s.pids[|recs[i]|] == 0;
      if j < 10 {
        s := s.(pids := s.pids[j := pid]);
      }
      slips := slips[i := OneMoreUser(recs[i], slips[i])];
      segs, recs := segs[i := s], recs[i := MoreUsers(recs[i], pid)];
    }

    /** `shmget`: the id of the segment in slot `i`, or -1.  Key 0 finds a slot that is not in use.  The count of a new
        segment is right exactly when its slot recorded at most one process before. */
    method Shmget(key: nat, size: nat, shmflag: int, pid: nat) returns (id: int, i: nat)
      requires Valid() && pid != 0
      modifies this
      ensures Valid()
      ensures id == -1 <==>
                old((forall j :: 0 <= j < 10 ==> segs[j].key != key) && forall j :: 0 <= j < 10 ==> segs[j].key != 0)
      ensures id == -1 ==> segs == old(segs) && recs == old(recs) && slips == old(slips)
      ensures id != -1 ==>
                && i < 10 && segs[i].key == key && segs[i].id == id && (key != 0 ==> id == i + 1)
                && (forall j :: 0 <= j < i ==> old(segs)[j].key != old(segs)[i].key)
                && (old(segs)[i].key != key ==> forall j :: 0 <= j < 10 ==> old(segs)[j].key != key)
                && (forall j :: 0 <= j < 10 && j != i ==>
                      segs[j] == old(segs)[j] && recs[j] == old(recs)[j] && slips[j] == old(slips)[j])
                && (if old(segs)[i].key == key
                    then && recs[i] == MoreUsers(old(recs)[i], pid)
                        && slips[i] == OneMoreUser(old(recs)[i], old(slips)[i])
                         && segs[i] == old(segs)[i].(refcount := old(segs)[i].refcount + 1, pids := segs[i].pids)
                    else && old(segs)[i].key == 0 && recs[i] == FirstUser(old(recs)[i], pid)
                         && slips[i] == NewSegment(old(recs)[i])
                         && segs[i] == Seg(key, size, shmflag, 1, i + 1, segs[i].pids))
      ensures id != -1 && old(segs)[i].key == key && CountOk(old(segs)[i], old(recs)[i]) ==>
                (CountOk(segs[i], recs[i]) <==> |old(recs)[i]| < 10)
      ensures id != -1 && old(segs)[i].key != key ==> (CountOk(segs[i], recs[i]) <==> |old(recs)[i]| <= 1)
    {
      i := FindKey(key);
      if i < 10 {
        assert SegOk(segs[i], recs[i], i);
        Attach(i, pid);
        return segs[i].id, i;
      }
      i := FindKey(0);
      if i < 10 {
        var s := segs[i];
        assert SegOk(segs[i], recs[i], i);
        s := Seg(key, size, shmflag, 1, i + 1, s.pids[0 := pid]);
        assert SegOk(s, FirstUser(recs[i], pid), i);
        slips := slips[i := NewSegment(recs[i])];
        segs, recs := segs[i := s], recs[i := FirstUser(recs[i], pid)];
        return i + 1, i;
      }
      return -1, i;
    }

    /** The loop that closes the gap at `hole`. */
    method Compact(pids0: seq<nat>, ghost hole: nat, ghost rec: seq<nat>) returns (pids: seq<nat>)
      requires |pids0| == 10 && hole < |rec| <= 10 && pids0[hole] == 0 && Packed(pids0[hole := rec[hole]], rec)
      ensures Packed(pids, rec[..hole] + rec[hole + 1..])
    {
      pids := pids0;
      assert forall k :: 0 <= k < 10 && k != hole ==> pids[k] == pids0[hole := rec[hole]][k];
      ghost var gap := hole;
      var j := 0;
      while j < 9
        invariant 0 <= j <= 9 && |pids| == 10 && hole <= gap < |rec|
                  && gap == (if j <= hole then hole else if j < |rec| then j else |rec| - 1)
        invariant pids[gap] == 0
        invariant forall k :: 0 <= k < hole ==> pids[k] == rec[k]
        invariant forall k :: hole <= k < gap ==> pids[k] == rec[k + 1]
        invariant forall k :: gap < k < |rec| ==> pids[k] == rec[k]
        invariant forall k :: |rec| <= k < 10 ==> pids[k] == 0
      {
        if pids[j] == 0 && pids[j + 1] != 0 {
          pids := pids[j := pids[j + 1]][j + 1 := 0];
          gap := j + 1;
        }
        j := j + 1;
      }
    }

    /** The first slot with this id, or 10. */
    method FindId(shmid: nat) returns (i: nat)
      requires Valid()
      ensures i <= 10 && (i < 10 ==> segs[i].id == shmid) && forall j :: 0 <= j < i ==> segs[j].id != shmid
    {
      i := 0;
      while i < 10 && segs[i].id != shmid
        invariant i <= 10 && forall j :: 0 <= j < i ==> segs[j].id != shmid
      {
        i := i + 1;
      }
    }

    /** Takes the first entry that is `pid` out of the array of slot `i`. */
    method Detach(i: nat, pid: nat) returns (ok: bool, pids: seq<nat>)
      requires Valid() && i < 10 && pid != 0
      ensures ok <==> pid in recs[i]
      ensures ok ==> Packed(pids, Without(recs[i], pid))
    {
      ghost var rec := recs[i];
      assert SegOk(segs[i], rec, i);
      pids := segs[i].pids;
      var j: nat := 0;
      while j < 10 && pids[j] != pid
        invariant j <= 10 && forall k :: 0 <= k < j ==> pids[k] != pid
      {
        j := j + 1;
      }
      if j == 10 {
        return false, pids;
      }
      assert j < |rec| && rec[j] == pid && pid !in rec[..j];
      WithoutAt(rec, pid, j);
      assert pids[j := 0][j := rec[j]] == pids;
      pids := Compact(pids[j := 0], j, rec);
      return true, pids;
    }

    /** `shmdt`: the caller is taken out once, and the others keep their order. */
    method Shmdt(shmid: nat, pid: nat) returns (ok: bool, i: nat)
      requires Valid() && pid != 0
      modifies this
      ensures Valid()
      ensures i <= 10 && (i < 10 ==> old(segs)[i].id == shmid) && forall j :: 0 <= j < i ==> old(segs)[j].id != shmid
      ensures ok <==> i < 10 && pid in old(recs)[i]
      ensures slips == old(slips) && (!ok ==> segs == old(segs) && recs == old(recs))
      ensures forall j :: 0 <= j < 10 ==> (CountOk(segs[j], recs[j]) <==> CountOk(old(segs)[j], old(recs)[j]))
      ensures ok ==> recs == old(recs)[i := Without(old(recs)[i], pid)]
      ensures ok ==> segs == old(segs)[i := old(segs)[i].(refcount := old(segs)[i].refcount - 1, pids := segs[i].pids)]
    {
      i := FindId(shmid);
      if i == 10 {
        return false, i;
      }
      var pids;
      ok, pids := Detach(i, pid);
      if ok {
        assert SegOk(segs[i], recs[i], i);
        WithoutLess(recs[i], pid);
        segs := segs[i := segs[i].(refcount := segs[i].refcount - 1, pids := pids)];
        recs := recs[i := Without(recs[i], pid)];
      }
    }

    /** `shmctl`: 1 removes the segment's key, 2 sets its flag. */
    method Shmctl(shmid: nat, cmd: nat, buf: int) returns (ok: bool)
      requires Valid()
      modifies this`segs
      ensures Valid() && ok == (1 <= shmid <= 10 && old(segs)[shmid - 1].key != 0 && (cmd == 1 || cmd == 2))
      ensures !ok ==> segs == old(segs)
      ensures ok ==>
                segs == old(segs)[shmid - 1 := if cmd == 1 then old(segs)[shmid - 1].(key := 0)
                    else old(segs)[shmid - 1].(shmflag := buf)]
    {
      if shmid < 1 || shmid > 10 || segs[shmid - 1].key == 0 {
        return false;
      }
      var s := segs[shmid - 1];
      if cmd == 1 {
        segs := segs[shmid - 1 := s.(key := 0)];
        return true;
      } else if cmd == 2 {
        segs := segs[shmid - 1 := s.(shmflag := buf)];
        return true;
      }
      return false;
    }
  }

  /** Eleven processes attach to one segment: ten are recorded, eleven are counted. */
  method FullArray() returns (count: int, ghost recorded: nat)
    ensures count == 11 && recorded == 10
  {
    var t := new Table();
    var k := 0;
    while k < 11
      invariant 0 <= k <= 11 && fresh(t) && t.Valid()
      invariant (k == 0 ==> forall i :: 0 <= i < 10 ==> t.segs[i].key == 0)
      invariant k > 0 ==> t.segs[0].key == 1 && t.segs[0].refcount == k && |t.recs[0]| == (if k < 10 then k else 10)
      invariant k == 0 ==> t.recs[0] == []
    {
      var id, i := t.Shmget(1, 4096, 0, k + 1);
      assert i == 0;
      k := k + 1;
    }
    count, recorded := t.segs[0].refcount, |t.recs[0]|;
  }

  /** Two processes use a segment, it is removed, and a third makes another one in its slot: two are recorded, one
      of them of the old segment, and one is counted. */
  method ReusedSlot() returns (count: int, ghost recorded: nat)
    ensures count == 1 && recorded == 2
  {
    var t := new Table();
    assert t.segs[0].key == 0;
    var id, i := t.Shmget(1, 4096, 0, 1);
    assert i == 0 && t.segs[0].key == 1;
    id, i := t.Shmget(1, 4096, 0, 2);
    assert i == 0;
    var ok := t.Shmctl(1, 1, 0);
    assert t.segs[0].key == 0 && forall j :: 0 <= j < 10 ==> t.segs[j].key == 0;
    id, i := t.Shmget(2, 4096, 0, 3);
    assert i == 0;
    count, recorded := t.segs[0].refcount, |t.recs[0]|;
  }
}
