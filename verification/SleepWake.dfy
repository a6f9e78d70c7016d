/**
 * The process table of kernel/proc.c: `sleep`, `wakeup`, `sched`, `fork`, `exit`, `wait`,
 * `waitpid` and `kill`, interleaved step by step.
 *
 * `wait_lock` and the other spinlocks a caller passes to `sleep` are numbered.  A process's own
 * lock is shown where it is held from one step to the next; where the code takes it, looks, and
 * drops it again, that is one step, which needs the lock to be free.
 *
 * An interrupt handler runs in the process it has interrupted, or on a CPU where no process runs.
 * Each such CPU has a slot of its own behind the processes, which is never a process.
 */
module SleepWake {

  import Runs

  datatype PState = UNUSED | USED | SLEEPING | RUNNABLE | RUNNING | ZOMBIE

  /** What a process sleeps on: a process pointer, or anything else. */
  datatype Chan = None | Proc(i: int) | Other(x: nat)

  /** `wait()`, `waitpid(pid)` with a positive pid, and `waitpid(-1)`. */
  datatype Why = All | Pid(pid: nat) | Any

  /** Where a process goes on after `sleep` or `wakeup`. */
  datatype Then = ToCaller | ToWait(w: Why) | ToReparent(q: nat) | ToZombie | ToHandler

  datatype Pc =
    | Idle                              // the slot is not in use, or its process has not started
    | User                              // holds no lock
    | Crit(l: nat)                      // holds spinlock `l`, in code of its own
    | Sleep1(c: Chan, l: nat, k: Then)  // in sleep: holds `l` and its own lock
    | Sleep2(c: Chan, l: nat, k: Then)  // has released `l`
    | Sleep3(c: Chan, l: nat, k: Then)  // is SLEEPING, about to switch to the scheduler
    | Sleep4(c: Chan, l: nat, k: Then)  // switched out; its own lock is free
    | Sleep5(c: Chan, l: nat, k: Then)  // scheduled again, holds its own lock
    | Sleep6(c: Chan, l: nat, k: Then)  // about to take `l` again
    | Waking(c: Chan, l: nat, q: nat, k: Then)  // in wakeup, at slot `q`, while holding `l`
    | Yield1 | Yield2 | Yield3          // giving up the CPU: lock held, switched out, scheduled again
    | Fork1(j: nat) | Fork2(j: nat)     // slot `j` allocated; `j` has its parent
    | Reparent(q: nat)                  // in exit, giving children from slot `q` on to init
    | Exit1 | Exit2 | Exit3             // has woken its parent; ZOMBIE; wait_lock released
    | Dead
    | Scan(w: Why, q: nat, have: bool)  // in wait or waitpid, at slot `q`
    | Recheck(w: Why)                   // in waitpid, after sleeping
    | Cpu | Handler(l: nat)             // no process: a CPU without one; its interrupt handler, which holds `l`

  const WAIT_LOCK: nat := 0
  const INIT: nat := 0

  datatype State = State(
    pc: seq<Pc>, st: seq<PState>, chan: seq<Chan>, parent: seq<int>, pid: seq<nat>, killed: seq<bool>,
    locked: seq<bool>,      // is p->lock held?
    held: map<nat, nat>,    // which spinlocks are held, and by whom
    nextpid: nat)

  datatype Event =
    | Acquire(i: nat, l: nat) | Release(i: nat) | Sleep(i: nat, c: Chan) | Wakeup(i: nat, c: Chan)
    | Step(i: nat)              // the next step of a call that is under way
    | Dispatch(i: nat) | Yield(i: nat) | Kill(j: nat)
    | Fork(i: nat, j: nat) | ForkFails(i: nat) | Exit(i: nat) | Wait(i: nat, w: Why)
    | WaitQuits(i: nat)         // WNOHANG, or the exit status could not be copied out
    | Interrupt(i: nat, l: nat) | HandlerWakes(i: nat, c: Chan) | HandlerEnds(i: nat)

  /** The spinlock a process holds, -1 for none. */
  function LockOf(p: Pc): int {
    match p
    case Crit(l) => l
    case Handler(l) => l
    case Sleep1(c, l, k) => l
    case Waking(c, l, q, k) => l
    case Reparent(q) => 0
    case Exit1 => 0
    case Exit2 => 0
    case Scan(w, q, have) => 0
    case Recheck(w) => 0
    case _ => -1
  }

  /** Does the process (or the scheduler for it) hold its own lock between steps? */
  predicate Owns(p: Pc) {
    p.Sleep1? || p.Sleep2? || p.Sleep3? || p.Sleep5? || p.Yield1? || p.Yield3? || p.Exit2? || p.Exit3?
  }

  predicate StateOk(p: Pc, t: PState) {
    match p
    case Idle => t == UNUSED || t == USED
    case Sleep3(c, l, k) => t == SLEEPING
    case Sleep4(c, l, k) => t == SLEEPING || t == RUNNABLE
    case Yield1 => t == RUNNABLE
    case Yield2 => t == RUNNABLE
    case Exit2 => t == ZOMBIE
    case Exit3 => t == ZOMBIE
    case Dead => t == ZOMBIE
    case Cpu => t == UNUSED
    case Handler(l) => t == UNUSED
    case Waking(c, l, q, k) => t == if k.ToHandler? then UNUSED else RUNNING
    case _ => t == RUNNING
  }

  function AfterSleep(l: nat, k: Then): Pc {
    match k
    case ToWait(w) => if w.All? then Scan(w, 0, false) else Recheck(w)
    case _ => Crit(l)
  }

  function AfterWakeup(l: nat, k: Then): Pc {
    match k
    case ToReparent(q) => Reparent(q)
    case ToZombie => Exit1
    case ToHandler => Handler(l)
    case _ => Crit(l)
  }

  /** Is `q` a child that this call looks for? */
  predicate Matches(s: State, i: nat, w: Why, q: nat)
    requires q < |s.parent| && q < |s.pid|
  {
    s.parent[q] == i && (w.Pid? ==> s.pid[q] == w.pid)
  }

  predicate Shape(s: State) {
    var n := |s.pc|;
    n >= 1 && |s.st| == n && |s.chan| == n && |s.parent| == n && |s.pid| == n && |s.killed| == n && |s.locked| == n
  }

  // ---- Steps ----

  predicate CanStep(s: State, i: nat)
    requires Shape(s) && i < |s.pc|
  {
    var n := |s.pc|;
    match s.pc[i]
    case Sleep1(c, l, k) => true
    case Sleep2(c, l, k) => true
    case Sleep3(c, l, k) => true
    case Sleep5(c, l, k) => true
    case Sleep6(c, l, k) => l !in s.held
    case Waking(c, l, q, k) => q < n && q != i ==> !s.locked[q]
    case Yield1 => true
    case Yield3 => true
    case Fork1(j) => 0 !in s.held && j < n
    case Fork2(j) => j < n && !s.locked[j]
    case Reparent(q) => true
    case Exit1 => !s.locked[i]
    case Exit2 => true
    case Exit3 => true
    case Scan(w, q, have) => !s.locked[i] && (q < n && Matches(s, i, w, q) ==> !s.locked[q])
    case Recheck(w) => true
    case _ => false
  }

  predicate Can(s: State, e: Event)
    requires Shape(s)
  {
    var n := |s.pc|;
    match e
    case Acquire(i, l) => i < n && s.pc[i] == User && l != WAIT_LOCK && l !in s.held
    case Release(i) => i < n && s.pc[i].Crit?
    case Sleep(i, c) => i < n && s.pc[i].Crit? && !s.locked[i]
    case Wakeup(i, c) => i < n && s.pc[i].Crit?
    case Step(i) => i < n && CanStep(s, i)
    case Dispatch(i) => i < n && s.st[i] == RUNNABLE && !s.locked[i]
    case Yield(i) => i < n && s.pc[i] == User && !s.locked[i]
    case Kill(j) => j < n && !s.locked[j]
    case Fork(i, j) => i < n && j < n && s.pc[i] == User && s.pc[j] == Idle && s.st[j] == UNUSED && !s.locked[j]
    case ForkFails(i) => i < n && s.pc[i].Fork1? && s.pc[i].j < n
    case Exit(i) => i < n && i != INIT && s.pc[i] == User && WAIT_LOCK !in s.held
    case Wait(i, w) => i < n && s.pc[i] == User && WAIT_LOCK !in s.held
    case WaitQuits(i) =>
      && i < n && s.pc[i].Scan? && s.pc[i].q < n && Matches(s, i, s.pc[i].w, s.pc[i].q) && !s.locked[s.pc[i].q]
      && (s.pc[i].w.All? ==> s.st[s.pc[i].q] == ZOMBIE)
    case Interrupt(i, l) => i < n && s.pc[i] == Cpu && l != WAIT_LOCK && l !in s.held
    case HandlerWakes(i, c) => i < n && s.pc[i].Handler?
    case HandlerEnds(i) => i < n && s.pc[i].Handler?
  }

  function Goto(s: State, i: nat, p: Pc): State
    requires i < |s.pc|
  {
    s.(pc := s.pc[i := p])
  }

  /** Drops a spinlock. */
  function Drop(s: State, l: nat): State { s.(held := s.held - {l}) }

  function Take(s: State, i: nat, l: nat): State { s.(held := s.held[l := i]) }

  function Own(s: State, i: nat, v: bool): State
    requires i < |s.locked|
  {
    s.(locked := s.locked[i := v])
  }

  function Become(s: State, i: nat, t: PState): State
    requires i < |s.st|
  {
    s.(st := s.st[i := t])
  }

  /** The body of `wakeup` and `kill` for one process. */
  function MakeRunnable(s: State, q: nat, wake: bool): State
    requires q < |s.st|
  {
    if wake && s.st[q] == SLEEPING then Become(s, q, RUNNABLE) else s
  }

  /** `freeproc` */
  function FreeProc(s: State, q: nat): State
    requires Shape(s) && q < |s.pc|
  {
    s.(st := s.st[q := UNUSED], parent := s.parent[q := -1], pid := s.pid[q := 0], chan := s.chan[q := None],
       killed := s.killed[q := false], pc := s.pc[q := Idle])
  }

  /** The start of `sleep(p, &wait_lock)`. */
  function SleepInWait(s: State, i: nat, w: Why): State
    requires Shape(s) && i < |s.pc|
  {
    Goto(Own(s, i, true), i, Sleep1(Proc(i), WAIT_LOCK, ToWait(w)))
  }

  function DoScan(s: State, i: nat, w: Why, q: nat, have: bool): State
    requires Shape(s) && i < |s.pc|
  {
    if q >= |s.pc| then
      if w.All? && have && !s.killed[i] then SleepInWait(s, i, w)
      else Goto(Drop(s, WAIT_LOCK), i, User)
    else if !Matches(s, i, w, q) then Goto(s, i, Scan(w, q + 1, have))
    else if s.st[q] == ZOMBIE then Goto(Drop(FreeProc(s, q), WAIT_LOCK), i, User)
    else if w.All? then Goto(s, i, Scan(w, q + 1, true))
    else SleepInWait(s, i, w)
  }

  function DoReparent(s: State, i: nat, q: nat): State
    requires Shape(s) && i < |s.pc|
  {
    if q >= |s.pc| then Goto(s, i, Waking(Proc(s.parent[i]), WAIT_LOCK, 0, ToZombie))
    else if s.parent[q] == i then
      Goto(s.(parent := s.parent[q := INIT]), i, Waking(Proc(INIT), WAIT_LOCK, 0, ToReparent(q + 1)))
    else Goto(s, i, Reparent(q + 1))
  }

  function DoWaking(s: State, i: nat, c: Chan, l: nat, q: nat, k: Then): State
    requires Shape(s) && i < |s.pc|
  {
    if q >= |s.pc| then Goto(s, i, AfterWakeup(l, k))
    else if q == i then Goto(s, i, Waking(c, l, q + 1, k))
    else Goto(MakeRunnable(s, q, s.chan[q] == c), i, Waking(c, l, q + 1, k))
  }

  function DoStep(s: State, i: nat): State
    requires Shape(s) && i < |s.pc| && CanStep(s, i)
  {
    match s.pc[i]
    case Sleep1(c, l, k) => Goto(Drop(s, l), i, Sleep2(c, l, k))
    case Sleep2(c, l, k) => Goto(Become(s.(chan := s.chan[i := c]), i, SLEEPING), i, Sleep3(c, l, k))
    case Sleep3(c, l, k) => Goto(Own(s, i, false), i, Sleep4(c, l, k))
    case Sleep5(c, l, k) => Goto(Own(s.(chan := s.chan[i := None]), i, false), i, Sleep6(c, l, k))
    case Sleep6(c, l, k) => Goto(Take(s, i, l), i, AfterSleep(l, k))
    case Waking(c, l, q, k) => DoWaking(s, i, c, l, q, k)
    case Yield1 => Goto(Own(s, i, false), i, Yield2)
    case Yield3 => Goto(Own(s, i, false), i, User)
    case Fork1(j) => Goto(s.(parent := s.parent[j := i]), i, Fork2(j))
    case Fork2(j) => Goto(Goto(Become(s, j, RUNNABLE), j, Yield2), i, User)
    case Reparent(q) => DoReparent(s, i, q)
    case Exit1 => Goto(Own(Become(s, i, ZOMBIE), i, true), i, Exit2)
    case Exit2 => Goto(Drop(s, WAIT_LOCK), i, Exit3)
    case Exit3 => Goto(Own(s, i, false), i, Dead)
    case Scan(w, q, have) => DoScan(s, i, w, q, have)
    case Recheck(w) => if s.killed[i] then Goto(Drop(s, WAIT_LOCK), i, User) else Goto(s, i, Scan(w, 0, false))
    case _ => s
  }

  /** Where a process that was switched out goes on. */
  function Resumed(p: Pc): Pc {
    match p
    case Sleep4(c, l, k) => Sleep5(c, l, k)
    case _ => Yield3
  }

  function Do(s: State, e: Event): State
    requires Shape(s) && Can(s, e)
  {
    match e
    case Acquire(i, l) => Goto(Take(s, i, l), i, Crit(l))
    case Release(i) => Goto(Drop(s, s.pc[i].l), i, User)
    case Sleep(i, c) => Goto(Own(s, i, true), i, Sleep1(c, s.pc[i].l, ToCaller))
    case Wakeup(i, c) => Goto(s, i, Waking(c, s.pc[i].l, 0, ToCaller))
    case Step(i) => DoStep(s, i)
    case Dispatch(i) => Goto(Own(Become(s, i, RUNNING), i, true), i, Resumed(s.pc[i]))
    case Yield(i) => Goto(Own(Become(s, i, RUNNABLE), i, true), i, Yield1)
    case Kill(j) => MakeRunnable(s.(killed := s.killed[j := true]), j, true)
    case Fork(i, j) =>
      Goto(Become(s.(pid := s.pid[j := s.nextpid], nextpid := s.nextpid + 1), j, USED), i, Fork1(j))
    case ForkFails(i) => Goto(FreeProc(s, s.pc[i].j), i, User)
    case Exit(i) => Goto(Take(s, i, WAIT_LOCK), i, Reparent(0))
    case Wait(i, w) => Goto(Take(s, i, WAIT_LOCK), i, Scan(w, 0, false))
    case WaitQuits(i) => Goto(Drop(s, WAIT_LOCK), i, User)
    case Interrupt(i, l) => Goto(Take(s, i, l), i, Handler(l))
    case HandlerWakes(i, c) => Goto(s, i, Waking(c, s.pc[i].l, 0, ToHandler))
    case HandlerEnds(i) => Goto(Drop(s, s.pc[i].l), i, Cpu)
  }

  ghost predicate Steps(s: State, e: Event, s': State) {
    Shape(s) && Can(s, e) && s' == Do(s, e)
  }

  /** Only `init`, ready to run; the other slots are free or belong to CPUs. */
  predicate Start(s: State) {
    && Shape(s) && s.held == map[] && s.nextpid == 2 && s.pc[0] == Yield2 && s.st[0] == RUNNABLE && s.pid[0] == 1
    && (forall i :: 0 <= i < |s.pc| ==> s.parent[i] == -1 && !s.locked[i])
    && (forall i :: 1 <= i < |s.pc| ==> (s.pc[i] == Idle || s.pc[i] == Cpu) && s.st[i] == UNUSED && s.pid[i] == 0)
  }

  // ---- Invariants ----

  ghost predicate LocksOk(s: State)
    requires Shape(s)
  {
    && (forall l :: l in s.held ==> s.held[l] < |s.pc| && LockOf(s.pc[s.held[l]]) == l)
    && (forall i :: 0 <= i < |s.pc| && LockOf(s.pc[i]) != -1 ==>
         LockOf(s.pc[i]) in s.held && s.held[LockOf(s.pc[i])] == i)
  }

  ghost predicate StatesOk(s: State)
    requires Shape(s)
  {
    forall i :: 0 <= i < |s.pc| ==> StateOk(s.pc[i], s.st[i]) && s.locked[i] == Owns(s.pc[i])
  }

  ghost predicate ChansOk(s: State)
    requires Shape(s)
  {
    forall i :: 0 <= i < |s.pc| && (s.pc[i].Sleep3? || s.pc[i].Sleep4?) ==> s.chan[i] == s.pc[i].c
  }

  /** In `sleep(c, l)`, and not yet woken. */
  predicate Asleep(s: State, p: int, c: Chan, l: nat)
    requires Shape(s)
  {
    && 0 <= p < |s.pc|
    && (s.pc[p].Sleep1? || s.pc[p].Sleep2? || s.pc[p].Sleep3? || (s.pc[p].Sleep4? && s.st[p] == SLEEPING))
    && s.pc[p].c == c && s.pc[p].l == l
  }

  /** A `wakeup` issued under `l` has left nobody it has passed asleep. */
  ghost predicate NoneMissed(s: State)
    requires Shape(s)
  {
    forall w, p :: 0 <= w < |s.pc| && s.pc[w].Waking? && 0 <= p < s.pc[w].q && p != w ==>
      !Asleep(s, p, s.pc[w].c, s.pc[w].l)
  }

  predicate InSleep(p: Pc) { p.Sleep1? || p.Sleep2? || p.Sleep3? || p.Sleep4? || p.Sleep5? || p.Sleep6? }

  predicate Exiting(p: Pc) {
    p.Reparent? || (p.Waking? && (p.k.ToReparent? || p.k.ToZombie?)) || p.Exit1? || p.Exit2? || p.Exit3? || p.Dead?
  }

  /** No process is there. */
  predicate Bare(p: Pc) { p == Cpu || p.Handler? || (p.Waking? && p.k.ToHandler?) }

  /** What each kind of caller passes to `sleep` and `wakeup`. */
  predicate CallOk(p: Pc, i: nat, parent: int) {
    && (p.Crit? || p.Handler? ==> p.l != 0)
    && (InSleep(p) ==> if p.k.ToWait? then p.c == Proc(i) && p.l == 0 else p.k.ToCaller? && p.l != 0)
    && (p.Waking? ==> match p.k
                      case ToCaller => p.l != 0
                      case ToHandler => p.l != 0
                      case ToReparent(q) => p.c == Proc(INIT) && p.l == 0
                      case ToZombie => p.c == Proc(parent) && p.l == 0
                      case ToWait(w) => false)
    && (i == INIT ==> parent == -1 && p != Idle && !Exiting(p) && !Bare(p))
  }

  ghost predicate CallsOk(s: State)
    requires Shape(s)
  {
    forall i :: 0 <= i < |s.pc| ==> CallOk(s.pc[i], i, s.parent[i])
  }

  ghost predicate PidsOk(s: State)
    requires Shape(s)
  {
    && s.nextpid >= 1 && (forall i :: 0 <= i < |s.pc| ==> s.pid[i] < s.nextpid && s.parent[i] != i)
    && (forall i :: 0 <= i < |s.pc| && s.st[i] == UNUSED ==> s.parent[i] == -1)
    && (forall i :: 0 <= i < |s.pc| ==> (s.st[i] == UNUSED <==> s.pid[i] == 0))
    && (forall i, j :: 0 <= i < j < |s.pc| && s.pid[i] == s.pid[j] ==> s.pid[i] == 0)
  }

  predicate Forking(p: Pc) { p.Fork1? || p.Fork2? }

  /** A forking process has a slot of its own, not yet started. */
  ghost predicate ForksOk(s: State)
    requires Shape(s)
  {
    && (forall i :: 0 <= i < |s.pc| && Forking(s.pc[i]) ==> s.pc[i].j < |s.pc|)
    && (forall i, j :: 0 <= i < |s.pc| && 0 <= j < |s.pc| && Forking(s.pc[i]) && s.pc[i].j == j ==>
          s.pc[j] == Idle && s.st[j] == USED && s.parent[j] == (if s.pc[i].Fork1? then -1 else i))
    && (forall i, j :: 0 <= i < j < |s.pc| && Forking(s.pc[i]) && Forking(s.pc[j]) ==> s.pc[i].j != s.pc[j].j)
  }

  /** An exiting process has woken its parent, and the parent cannot have gone back to sleep. */
  ghost predicate ParentAwake(s: State)
    requires Shape(s)
  {
    forall i :: 0 <= i < |s.pc| && s.pc[i].Exit1? ==> !Asleep(s, s.parent[i], Proc(s.parent[i]), 0)
  }

  /** Slots below this one are not children of a process at `p`. */
  function GivenAway(p: Pc, n: nat): nat {
    match p
    case Reparent(q) => q
    case Waking(c, l, q, k) => (match k case ToReparent(r) => r case ToZombie => n case ToHandler => n case _ => 0)
    case Exit1 => n
    case Exit2 => n
    case Exit3 => n
    case Dead => n
    case Idle => n
    case Cpu => n
    case Handler(l) => n
    case _ => 0
  }

  ghost predicate NoOrphans(s: State)
    requires Shape(s)
  {
    && (forall c :: 0 <= c < |s.pc| ==> -1 <= s.parent[c] < |s.pc|)
    && (forall c, p :: 0 <= c < |s.pc| && 0 <= p < |s.pc| && s.parent[c] == p ==> c >= GivenAway(s.pc[p], |s.pc|))
  }

  /** What a scan of the table has passed. */
  ghost predicate Passed(s: State, i: nat, w: Why, c: nat)
    requires Shape(s) && c < |s.pc|
  {
    s.parent[c] == i ==> match w case All => s.st[c] != ZOMBIE case Pid(x) => s.pid[c] != x case Any => false
  }

  ghost predicate ScansOk(s: State)
    requires Shape(s)
  {
    forall i, c :: 0 <= i < |s.pc| && s.pc[i].Scan? && 0 <= c < s.pc[i].q && c < |s.pc| ==> Passed(s, i, s.pc[i].w, c)
  }

  /** The children whose exit ends this wait: all, the one with that pid, or the first in the table. */
  ghost predicate Awaited(s: State, i: nat, w: Why, c: nat)
    requires Shape(s) && c < |s.pc|
  {
    && s.parent[c] == i && (w.Pid? ==> s.pid[c] == w.pid)
    && (w.Any? ==> forall d :: 0 <= d < c ==> s.parent[d] != i)
  }

  /** Is `wakeup(i)` under way under `wait_lock`? */
  ghost predicate BeingWoken(s: State, i: nat)
    requires Shape(s)
  {
    0 in s.held && s.held[0] < |s.pc| && s.pc[s.held[0]].Waking? && s.pc[s.held[0]].c == Proc(i)
  }

  ghost predicate Waiting(s: State, i: nat)
    requires Shape(s)
  {
    i < |s.pc| && InSleep(s.pc[i]) && s.pc[i].k.ToWait? && Asleep(s, i, Proc(i), 0)
  }

  ghost predicate NoneForgotten(s: State)
    requires Shape(s)
  {
    forall i: nat, c: nat {:trigger Awaited(s, i, s.pc[i].k.w, c)} ::
      i < |s.pc| && c < |s.pc| && Waiting(s, i) && !BeingWoken(s, i) && Awaited(s, i, s.pc[i].k.w, c) ==>
          s.st[c] != ZOMBIE
  }

  ghost predicate Inv(s: State) {
    && Shape(s) && LocksOk(s) && StatesOk(s) && ChansOk(s) && CallsOk(s) && PidsOk(s) && ForksOk(s)
    && NoneMissed(s) && ParentAwake(s) && NoOrphans(s) && ScansOk(s) && NoneForgotten(s)
  }

  lemma StartLocal(s: State)
    requires Start(s)
    ensures LocksOk(s) && StatesOk(s) && ChansOk(s) && CallsOk(s) && NoneMissed(s)
  {
  }

  lemma StartTree(s: State)
    requires Start(s)
    ensures PidsOk(s) && ForksOk(s) && NoOrphans(s)
  {
  }

  lemma StartInv(s: State)
    requires Start(s)
    ensures Inv(s)
  {
    StartLocal(s);
    StartTree(s);
  }

  // ---- Steps that move one process and leave the others and the family tree alone ----

  ghost predicate Moved(s: State, t: State, i: nat) {
    && Shape(s) && Shape(t) && i < |s.pc| == |t.pc| && t.parent == s.parent && t.pid == s.pid && t.nextpid == s.nextpid
    && forall j :: 0 <= j < |s.pc| && j != i ==>
         t.pc[j] == s.pc[j] && t.st[j] == s.st[j] && t.chan[j] == s.chan[j] && t.locked[j] == s.locked[j]
  }

  /** The spinlocks held agree with where `i` has gone. */
  ghost predicate LockMove(s: State, t: State, i: nat)
    requires Moved(s, t, i)
  {
    var l, l' := LockOf(s.pc[i]), LockOf(t.pc[i]);
    || (l == l' && t.held == s.held)
    || (l == -1 && l' >= 0 && l' !in s.held && t.held == s.held[l' as nat := i])
    || (l >= 0 && l' == -1 && t.held == s.held - {l as nat})
  }

  lemma MovedLocks(s: State, t: State, i: nat)
    requires Moved(s, t, i) && LocksOk(s) && LockMove(s, t, i)
    ensures LocksOk(t)
  {
  }

  ghost predicate NoForker(s: State, j: nat)
    requires Shape(s)
  {
    forall w :: 0 <= w < |s.pc| && Forking(s.pc[w]) ==> s.pc[w].j != j
  }

  ghost predicate SlotReady(s: State, i: nat, p: Pc)
    requires Shape(s) && Forking(p)
  {
    && p.j < |s.pc| && p.j != i && s.pc[p.j] == Idle && s.st[p.j] == USED
    && s.parent[p.j] == (if p.Fork1? then -1 else i)
    && NoForker(s, p.j)
  }

  /** The conditions on `i` alone. */
  ghost predicate Fits(s: State, t: State, i: nat)
    requires Moved(s, t, i)
  {
    var p := t.pc[i];
    && p != Idle && (s.st[i] == UNUSED <==> t.st[i] == UNUSED) && (s.pc[i] == Idle ==> NoForker(s, i))
    && (Forking(p) ==> SlotReady(s, i, p))
    && StateOk(p, t.st[i]) && t.locked[i] == Owns(p) && (p.Sleep3? || p.Sleep4? ==> t.chan[i] == p.c)
    && CallOk(p, i, s.parent[i])
  }

  lemma MovedStates(s: State, t: State, i: nat)
    requires Moved(s, t, i) && Fits(s, t, i) && StatesOk(s) && ChansOk(s) && CallsOk(s)
    ensures StatesOk(t) && ChansOk(t) && CallsOk(t)
  {
  }

  lemma MovedPids(s: State, t: State, i: nat)
    requires Moved(s, t, i) && Fits(s, t, i) && PidsOk(s) && ForksOk(s)
    ensures PidsOk(t) && ForksOk(t)
  {
  }

  /** To fall asleep under `l`, one must hold `l`. */
  ghost predicate FallsAsleep(s: State, t: State, i: nat)
    requires Moved(s, t, i)
  {
    var p := t.pc[i];
    InSleep(p) && Asleep(t, i, p.c, p.l) ==>
      Asleep(s, i, p.c, p.l) || (LockOf(s.pc[i]) == p.l && !s.pc[i].Exit1? && !s.pc[i].Waking?)
  }

  /** The scan of `wakeup` goes on by one slot, whose process is not asleep. */
  ghost predicate Scans(s: State, t: State, i: nat)
    requires Moved(s, t, i)
  {
    var p, p' := s.pc[i], t.pc[i];
    p'.Waking? ==>
      || p'.q == 0
      || (p.Waking? && p'.c == p.c && p'.l == p.l && p'.q == p.q + 1 && (p.q == i || !Asleep(s, p.q, p.c, p.l)))
  }

  lemma MovedNoneMissed(s: State, t: State, i: nat)
    requires Moved(s, t, i) && LocksOk(s) && NoneMissed(s) && FallsAsleep(s, t, i) && Scans(s, t, i)
    ensures NoneMissed(t)
  {
    forall w, p | 0 <= w < |t.pc| && t.pc[w].Waking? && 0 <= p < t.pc[w].q && p != w
      ensures !Asleep(t, p, t.pc[w].c, t.pc[w].l)
    {
      if w == i {
        assert Asleep(t, p, t.pc[w].c, t.pc[w].l) ==> Asleep(s, p, t.pc[w].c, t.pc[w].l);
      } else if p == i {
        assert !Asleep(s, p, s.pc[w].c, s.pc[w].l);
        assert LockOf(s.pc[w]) == s.pc[w].l;
      } else {
        assert !Asleep(s, p, s.pc[w].c, s.pc[w].l);
      }
    }
  }

  lemma MovedParentAwake(s: State, t: State, i: nat)
    requires Moved(s, t, i) && LocksOk(s) && ParentAwake(s) && FallsAsleep(s, t, i) && PidsOk(s)
    requires t.pc[i].Exit1? ==> !Asleep(s, s.parent[i], Proc(s.parent[i]), 0)
    ensures ParentAwake(t)
  {
    forall w | 0 <= w < |t.pc| && t.pc[w].Exit1? ensures !Asleep(t, t.parent[w], Proc(t.parent[w]), 0) {
      if w != i {
        assert LockOf(s.pc[w]) == 0;
      }
    }
  }

  lemma MovedOrphans(s: State, t: State, i: nat)
    requires Moved(s, t, i) && NoOrphans(s)
    requires forall c :: 0 <= c < |s.pc| && s.parent[c] == i ==> c >= GivenAway(t.pc[i], |s.pc|)
    ensures NoOrphans(t)
  {
  }

  /** Only a process that holds `wait_lock` and has woken its parent becomes a ZOMBIE. */
  ghost predicate Dies(s: State, t: State, i: nat)
    requires Moved(s, t, i)
  {
    t.st[i] == ZOMBIE ==> s.st[i] == ZOMBIE || s.pc[i].Exit1?
  }

  lemma MovedScans(s: State, t: State, i: nat)
    requires Moved(s, t, i) && LocksOk(s) && ScansOk(s) && Dies(s, t, i)
    requires t.pc[i].Scan? ==> forall c :: 0 <= c < t.pc[i].q && c < |s.pc| ==> Passed(t, i, t.pc[i].w, c)
    ensures ScansOk(t)
  {
    forall j, c | 0 <= j < |t.pc| && t.pc[j].Scan? && 0 <= c < t.pc[j].q && c < |t.pc|
      ensures Passed(t, j, t.pc[j].w, c)
    {
      if j != i {
        assert LockOf(s.pc[j]) == 0;
        assert Passed(s, j, s.pc[j].w, c);
      }
    }
  }

  /** `i` falls asleep in wait only if no child it waits for is a ZOMBIE. */
  ghost predicate SafeToSleep(s: State, t: State, i: nat)
    requires Moved(s, t, i)
  {
    Waiting(t, i) ==>
      || (Waiting(s, i) && s.pc[i].k == t.pc[i].k)
      || forall c: nat {:trigger Awaited(s, i, t.pc[i].k.w, c)} :: c < |s.pc| && Awaited(s, i, t.pc[i].k.w, c) ==>
          t.st[c] != ZOMBIE
  }

  /** When `wakeup(p)` under `wait_lock` ends, `p` is awake. */
  ghost predicate EndsWakeup(s: State, t: State, i: nat)
    requires Moved(s, t, i)
  {
    var p, p' := s.pc[i], t.pc[i];
    p.Waking? && p.c.Proc? && p.l == 0 && !(p'.Waking? && p'.c == p.c && t.held == s.held) ==> !Asleep(s, p.c.i, p.c, 0)
  }

  lemma MovedForgotten(s: State, t: State, i: nat)
    requires Moved(s, t, i) && LocksOk(s) && StatesOk(s) && CallsOk(s) && ParentAwake(s) && PidsOk(s)
             && NoneForgotten(s)
    requires LockMove(s, t, i) && Dies(s, t, i) && SafeToSleep(s, t, i) && EndsWakeup(s, t, i)
    ensures NoneForgotten(t)
  {
    forall j: nat, c: nat | j < |t.pc| && c < |t.pc| && Waiting(t, j) && !BeingWoken(t, j)
        && Awaited(t, j, t.pc[j].k.w, c)
      ensures t.st[c] != ZOMBIE
    {
      assert Awaited(s, j, t.pc[j].k.w, c);
      if j != i {
        assert Waiting(s, j);
      }
    }
  }

  /** All the conditions on a step that moves one process. */
  ghost predicate GoodMove(s: State, t: State, i: nat) {
    && Moved(s, t, i) && LockMove(s, t, i) && Fits(s, t, i) && FallsAsleep(s, t, i) && Scans(s, t, i) && Dies(s, t, i)
    && SafeToSleep(s, t, i) && EndsWakeup(s, t, i)
    && (t.pc[i].Exit1? ==> !Asleep(s, s.parent[i], Proc(s.parent[i]), 0))
    && (forall c :: 0 <= c < |s.pc| && s.parent[c] == i ==> c >= GivenAway(t.pc[i], |s.pc|))
    && (t.pc[i].Scan? ==> forall c :: 0 <= c < t.pc[i].q && c < |s.pc| ==> Passed(t, i, t.pc[i].w, c))
  }

  lemma MoveKeeps(s: State, t: State, i: nat)
    requires Inv(s) && GoodMove(s, t, i)
    ensures Inv(t)
  {
    MovedLocks(s, t, i);
    MovedStates(s, t, i);
    MovedPids(s, t, i);
    MovedNoneMissed(s, t, i);
    MovedParentAwake(s, t, i);
    MovedOrphans(s, t, i);
    MovedScans(s, t, i);
    MovedForgotten(s, t, i);
  }

  /** `wakeup` and `kill`: the process was switched out, asleep. */
  lemma RunnableKeeps(s: State, q: nat, wake: bool)
    requires Inv(s) && q < |s.pc| && !s.locked[q]
    ensures Inv(MakeRunnable(s, q, wake))
  {
    if wake && s.st[q] == SLEEPING {
      MoveKeeps(s, MakeRunnable(s, q, wake), q);
    }
  }

  /** What every step relies on. */
  ghost predicate Basics(s: State, i: nat) {
    Shape(s) && i < |s.pc| && StatesOk(s) && ChansOk(s) && CallsOk(s)
  }

  lemma FallMoves(s: State, i: nat, c: Chan, l: nat, k: Then)
    requires Basics(s, i) && s.pc[i] == Sleep1(c, l, k)
    ensures GoodMove(s, Goto(Drop(s, l), i, Sleep2(c, l, k)), i)
  {
    var t := Goto(Drop(s, l), i, Sleep2(c, l, k));
    assert Moved(s, t, i) && Fits(s, t, i) && CallOk(s.pc[i], i, s.parent[i]);
    assert Asleep(s, i, c, l) && (Waiting(t, i) ==> Waiting(s, i) && s.pc[i].k == t.pc[i].k);
  }

  lemma SleepingMoves(s: State, i: nat, c: Chan, l: nat, k: Then)
    requires Basics(s, i) && s.pc[i] == Sleep2(c, l, k)
    ensures GoodMove(s, Goto(Become(s.(chan := s.chan[i := c]), i, SLEEPING), i, Sleep3(c, l, k)), i)
  {
  }

  lemma SwitchMoves(s: State, i: nat)
    requires Basics(s, i) && s.pc[i].Sleep3?
    ensures GoodMove(s, DoStep(s, i), i)
  {
  }

  lemma TidyMoves(s: State, i: nat)
    requires Basics(s, i) && s.pc[i].Sleep5?
    ensures GoodMove(s, DoStep(s, i), i)
  {
  }

  lemma ReturnMoves(s: State, i: nat)
    requires Basics(s, i) && s.pc[i].Sleep6? && CanStep(s, i)
    ensures GoodMove(s, DoStep(s, i), i)
  {
  }

  lemma YieldMoves(s: State, i: nat)
    requires Basics(s, i) && s.pc[i].Yield1?
    ensures GoodMove(s, Goto(Own(s, i, false), i, Yield2), i)
  {
  }

  lemma ResumeMoves(s: State, i: nat)
    requires Basics(s, i) && s.pc[i].Yield3?
    ensures GoodMove(s, Goto(Own(s, i, false), i, User), i)
  {
  }

  lemma ZombieMoves(s: State, i: nat)
    requires Basics(s, i) && NoOrphans(s) && s.pc[i].Exit1? && !s.locked[i]
    ensures GoodMove(s, Goto(Own(Become(s, i, ZOMBIE), i, true), i, Exit2), i)
  {
  }

  lemma ExitMoves(s: State, i: nat)
    requires Basics(s, i) && NoOrphans(s) && s.pc[i].Exit2?
    ensures GoodMove(s, Goto(Drop(s, WAIT_LOCK), i, Exit3), i)
  {
  }

  lemma DeathMoves(s: State, i: nat)
    requires Basics(s, i) && NoOrphans(s) && s.pc[i].Exit3?
    ensures GoodMove(s, Goto(Own(s, i, false), i, Dead), i)
  {
  }

  /** The process at slot `q` is not asleep on `c`, or it has just been woken. */
  lemma NotMissed(s: State, c: Chan, l: nat, q: nat)
    requires Shape(s) && StatesOk(s) && ChansOk(s) && q < |s.pc| && !s.locked[q]
    ensures !Asleep(MakeRunnable(s, q, s.chan[q] == c), q, c, l)
  {
  }

  lemma WakingMoves(s: State, i: nat, c: Chan, l: nat, q: nat, k: Then)
    requires Basics(s, i) && NoOrphans(s) && s.pc[i] == Waking(c, l, q, k) && (q == i || !Asleep(s, q, c, l))
    ensures GoodMove(s, Goto(s, i, Waking(c, l, q + 1, k)), i)
  {
  }

  /** Nobody the scan was for is asleep any more. */
  lemma AllAwake(s: State, i: nat, c: Chan, l: nat, q: nat, k: Then)
    requires Shape(s) && NoneMissed(s) && i < |s.pc| && s.pc[i] == Waking(c, l, q, k) && q >= |s.pc|
    ensures forall p :: 0 <= p < |s.pc| && p != i ==> !Asleep(s, p, c, l)
  {
  }

  lemma WakingReturns(s: State, i: nat, c: Chan, l: nat, q: nat)
    requires Basics(s, i) && s.pc[i] == Waking(c, l, q, ToCaller)
    ensures GoodMove(s, Goto(s, i, Crit(l)), i)
  {
  }

  lemma WakingHandlerEnds(s: State, i: nat, c: Chan, l: nat, q: nat)
    requires Basics(s, i) && NoOrphans(s) && s.pc[i] == Waking(c, l, q, ToHandler)
    ensures GoodMove(s, Goto(s, i, Handler(l)), i)
  {
  }

  lemma WakingInitEnds(s: State, i: nat, c: Chan, l: nat, q: nat, r: nat)
    requires Basics(s, i) && NoOrphans(s) && s.pc[i] == Waking(c, l, q, ToReparent(r))
    requires forall p :: 0 <= p < |s.pc| && p != i ==> !Asleep(s, p, c, l)
    ensures GoodMove(s, Goto(s, i, Reparent(r)), i)
  {
  }

  lemma WakingParentEnds(s: State, i: nat, c: Chan, l: nat, q: nat)
    requires Basics(s, i) && NoOrphans(s) && PidsOk(s) && s.pc[i] == Waking(c, l, q, ToZombie)
    requires forall p :: 0 <= p < |s.pc| && p != i ==> !Asleep(s, p, c, l)
    ensures GoodMove(s, Goto(s, i, Exit1), i)
  {
  }

  lemma WakingEnds(s: State, i: nat, c: Chan, l: nat, q: nat, k: Then)
    requires Basics(s, i) && NoOrphans(s) && NoneMissed(s) && PidsOk(s) && s.pc[i] == Waking(c, l, q, k) && q >= |s.pc|
    ensures GoodMove(s, Goto(s, i, AfterWakeup(l, k)), i)
  {
    AllAwake(s, i, c, l, q, k);
    if k.ToReparent? {
      WakingInitEnds(s, i, c, l, q, k.q);
    } else if k.ToZombie? {
      WakingParentEnds(s, i, c, l, q);
    } else if k.ToHandler? {
      WakingHandlerEnds(s, i, c, l, q);
    } else {
      WakingReturns(s, i, c, l, q);
    }
  }

  lemma ReparentMoves(s: State, i: nat, q: nat)
    requires Basics(s, i) && NoOrphans(s) && s.pc[i] == Reparent(q) && q < |s.pc| && s.parent[q] != i
    ensures GoodMove(s, Goto(s, i, Reparent(q + 1)), i)
  {
  }

  lemma ReparentEnds(s: State, i: nat, q: nat)
    requires Basics(s, i) && NoOrphans(s) && s.pc[i] == Reparent(q) && q >= |s.pc|
    ensures GoodMove(s, Goto(s, i, Waking(Proc(s.parent[i]), WAIT_LOCK, 0, ToZombie)), i)
  {
  }

  lemma RecheckMoves(s: State, i: nat, w: Why)
    requires Basics(s, i) && s.pc[i] == Recheck(w)
    ensures GoodMove(s, Goto(s, i, Scan(w, 0, false)), i)
  {
  }

  /** `wait` and `waitpid` return. */
  lemma ScanEnds(s: State, i: nat)
    requires Basics(s, i) && (s.pc[i].Scan? || s.pc[i].Recheck?)
    ensures GoodMove(s, Goto(Drop(s, WAIT_LOCK), i, User), i)
  {
  }

  /** The scan of `wait` goes on. */
  lemma ScanMoves(s: State, i: nat, w: Why, q: nat, have: bool, have': bool)
    requires Basics(s, i) && ScansOk(s) && s.pc[i] == Scan(w, q, have) && q < |s.pc| && Passed(s, i, w, q)
    ensures GoodMove(s, Goto(s, i, Scan(w, q + 1, have')), i)
  {
    var t := Goto(s, i, Scan(w, q + 1, have'));
    forall c | 0 <= c < q + 1 && c < |s.pc| ensures Passed(t, i, w, c) {
      assert Passed(s, i, w, c);
    }
  }

  /** `wait` has seen every child, `waitpid` has found the first that it looks for. */
  lemma NoneAwaited(s: State, i: nat, w: Why, q: nat, have: bool)
    requires Basics(s, i) && ScansOk(s) && PidsOk(s) && s.pc[i] == Scan(w, q, have)
    requires if w.All? then q >= |s.pc| else q < |s.pc| && Matches(s, i, w, q) && s.st[q] != ZOMBIE
    ensures forall c: nat {:trigger Awaited(s, i, w, c)} :: c < |s.pc| && Awaited(s, i, w, c) ==> s.st[c] != ZOMBIE
  {
    forall c: nat | c < |s.pc| && Awaited(s, i, w, c) ensures s.st[c] != ZOMBIE {
      if c < q {
        assert Passed(s, i, w, c);
      }
    }
  }

  lemma ScanSleeps(s: State, i: nat, w: Why, q: nat, have: bool)
    requires Basics(s, i) && s.pc[i] == Scan(w, q, have) && !s.locked[i]
    requires forall c: nat {:trigger Awaited(s, i, w, c)} :: c < |s.pc| && Awaited(s, i, w, c) ==> s.st[c] != ZOMBIE
    ensures GoodMove(s, SleepInWait(s, i, w), i)
  {
  }

  lemma AcquireMoves(s: State, i: nat, l: nat)
    requires Basics(s, i) && s.pc[i] == User && l != WAIT_LOCK && l !in s.held
    ensures GoodMove(s, Goto(Take(s, i, l), i, Crit(l)), i)
  {
  }

  lemma ReleaseMoves(s: State, i: nat, l: nat)
    requires Basics(s, i) && s.pc[i] == Crit(l)
    ensures GoodMove(s, Goto(Drop(s, l), i, User), i)
  {
  }

  lemma SleepMoves(s: State, i: nat, c: Chan, l: nat)
    requires Basics(s, i) && s.pc[i] == Crit(l) && !s.locked[i]
    ensures GoodMove(s, Goto(Own(s, i, true), i, Sleep1(c, l, ToCaller)), i)
  {
  }

  lemma WakeupMoves(s: State, i: nat, c: Chan, l: nat)
    requires Basics(s, i) && s.pc[i] == Crit(l)
    ensures GoodMove(s, Goto(s, i, Waking(c, l, 0, ToCaller)), i)
  {
  }

  lemma InterruptMoves(s: State, i: nat, l: nat)
    requires Basics(s, i) && NoOrphans(s) && s.pc[i] == Cpu && l != WAIT_LOCK && l !in s.held
    ensures GoodMove(s, Goto(Take(s, i, l), i, Handler(l)), i)
  {
  }

  lemma HandlerWakesMoves(s: State, i: nat, c: Chan, l: nat)
    requires Basics(s, i) && NoOrphans(s) && s.pc[i] == Handler(l)
    ensures GoodMove(s, Goto(s, i, Waking(c, l, 0, ToHandler)), i)
  {
  }

  lemma HandlerEndsMoves(s: State, i: nat, l: nat)
    requires Basics(s, i) && NoOrphans(s) && s.pc[i] == Handler(l)
    ensures GoodMove(s, Goto(Drop(s, l), i, Cpu), i)
  {
  }

  lemma DispatchMoves(s: State, e: Event)
    requires Shape(s) && Can(s, e) && e.Dispatch? && Basics(s, e.i)
    ensures GoodMove(s, Do(s, e), e.i)
  {
  }

  lemma YieldCallMoves(s: State, i: nat)
    requires Basics(s, i) && s.pc[i] == User && !s.locked[i]
    ensures GoodMove(s, Goto(Own(Become(s, i, RUNNABLE), i, true), i, Yield1), i)
  {
  }

  lemma ExitCallMoves(s: State, i: nat)
    requires Basics(s, i) && s.pc[i] == User && i != INIT && WAIT_LOCK !in s.held
    ensures GoodMove(s, Goto(Take(s, i, WAIT_LOCK), i, Reparent(0)), i)
  {
  }

  lemma WaitCallMoves(s: State, i: nat, w: Why)
    requires Basics(s, i) && s.pc[i] == User && WAIT_LOCK !in s.held
    ensures GoodMove(s, Goto(Take(s, i, WAIT_LOCK), i, Scan(w, 0, false)), i)
  {
  }

  // ---- Steps that change the family tree ----

  lemma FreeLocal(s: State, q: nat)
    requires Shape(s) && q < |s.pc| && q != INIT && (s.pc[q] == Dead || s.pc[q] == Idle)
    requires LocksOk(s) && StatesOk(s) && ChansOk(s) && CallsOk(s)
    ensures var t := FreeProc(s, q); LocksOk(t) && StatesOk(t) && ChansOk(t) && CallsOk(t)
  {
  }

  lemma FreeMissed(s: State, q: nat)
    requires Shape(s) && q < |s.pc| && (s.pc[q] == Dead || s.pc[q] == Idle) && NoneMissed(s) && ParentAwake(s)
    ensures NoneMissed(FreeProc(s, q)) && ParentAwake(FreeProc(s, q))
  {
    var t := FreeProc(s, q);
    forall p, c, l | Asleep(t, p, c, l) ensures Asleep(s, p, c, l) {
    }
  }

  lemma FreeTree(s: State, q: nat)
    requires Shape(s) && q < |s.pc| && (s.pc[q] == Dead || s.pc[q] == Idle) && PidsOk(s) && NoOrphans(s)
    ensures PidsOk(FreeProc(s, q)) && NoOrphans(FreeProc(s, q))
  {
  }

  lemma FreeForks(s: State, q: nat)
    requires Shape(s) && q < |s.pc| && (s.pc[q] == Dead || s.pc[q] == Idle) && NoForker(s, q) && ForksOk(s)
    ensures ForksOk(FreeProc(s, q))
  {
    var t := FreeProc(s, q);
    assert forall i :: 0 <= i < |t.pc| && Forking(t.pc[i]) ==> i != q && t.pc[i] == s.pc[i] && t.pc[i].j != q;
  }

  lemma FreeScans(s: State, q: nat)
    requires Shape(s) && q < |s.pc| && (s.pc[q] == Dead || s.pc[q] == Idle) && ScansOk(s)
    ensures ScansOk(FreeProc(s, q))
  {
    var t := FreeProc(s, q);
    forall i, c | 0 <= i < |t.pc| && t.pc[i].Scan? && 0 <= c < t.pc[i].q && c < |t.pc|
      ensures Passed(t, i, t.pc[i].w, c)
    {
      assert Passed(s, i, s.pc[i].w, c);
    }
  }

  lemma FreeForgotten(s: State, q: nat)
    requires Shape(s) && q < |s.pc| && (s.pc[q] == Dead || s.pc[q] == Idle) && NoneForgotten(s)
    requires 0 <= s.parent[q] ==> !Waiting(s, s.parent[q])
    ensures NoneForgotten(FreeProc(s, q))
  {
    var t := FreeProc(s, q);
    forall j: nat, c: nat | j < |t.pc| && c < |t.pc| && Waiting(t, j) && !BeingWoken(t, j)
        && Awaited(t, j, t.pc[j].k.w, c)
      ensures t.st[c] != ZOMBIE
    {
      assert Waiting(s, j) && !BeingWoken(s, j);
      assert s.parent[q] != j;
      forall d | 0 <= d < |s.pc| ensures t.parent[d] == j <==> s.parent[d] == j {
      }
      assert Awaited(s, j, s.pc[j].k.w, c);
    }
  }

  /** A slot is given back: its process is dead and its parent is not waiting, or it never started. */
  lemma FreeKeeps(s: State, q: nat)
    requires Inv(s) && q < |s.pc| && q != INIT && NoForker(s, q)
    requires s.pc[q] == Dead || s.pc[q] == Idle
    requires 0 <= s.parent[q] ==> !Waiting(s, s.parent[q])
    ensures Inv(FreeProc(s, q))
  {
    FreeLocal(s, q);
    FreeMissed(s, q);
    FreeTree(s, q);
    FreeForks(s, q);
    FreeScans(s, q);
    FreeForgotten(s, q);
  }

  /** `allocproc` finds a slot. */
  function AllocSlot(s: State, j: nat): State
    requires Shape(s) && j < |s.pc|
  {
    Become(s.(pid := s.pid[j := s.nextpid], nextpid := s.nextpid + 1), j, USED)
  }

  lemma AllocTree(s: State, j: nat)
    requires Shape(s) && StatesOk(s) && PidsOk(s) && ForksOk(s) && j < |s.pc| && s.pc[j] == Idle && s.st[j] == UNUSED
    ensures PidsOk(AllocSlot(s, j)) && ForksOk(AllocSlot(s, j)) && StatesOk(AllocSlot(s, j))
    ensures s.parent[j] == -1 && NoForker(s, j)
  {
  }

  lemma AllocKeeps(s: State, j: nat)
    requires Inv(s) && j < |s.pc| && s.pc[j] == Idle && s.st[j] == UNUSED
    ensures Inv(AllocSlot(s, j)) && s.parent[j] == -1 && NoForker(s, j)
  {
    AllocTree(s, j);
    AllocForgotten(s, j);
  }

  lemma AllocForgotten(s: State, j: nat)
    requires Shape(s) && StatesOk(s) && PidsOk(s) && j < |s.pc| && s.st[j] == UNUSED
    requires NoneMissed(s) && ParentAwake(s) && ScansOk(s) && NoneForgotten(s)
    ensures var t := AllocSlot(s, j); NoneMissed(t) && ParentAwake(t) && ScansOk(t) && NoneForgotten(t)
  {
    var t := AllocSlot(s, j);
    forall p, c, l | Asleep(t, p, c, l) ensures Asleep(s, p, c, l) {
    }
    forall i, c | 0 <= i < |t.pc| && t.pc[i].Scan? && 0 <= c < t.pc[i].q && c < |t.pc|
      ensures Passed(t, i, t.pc[i].w, c)
    {
      assert Passed(s, i, s.pc[i].w, c);
    }
    forall i: nat, c: nat | i < |t.pc| && c < |t.pc| && Waiting(t, i) && !BeingWoken(t, i)
        && Awaited(t, i, t.pc[i].k.w, c)
      ensures t.st[c] != ZOMBIE
    {
      assert Waiting(s, i) && !BeingWoken(s, i) && Awaited(s, i, s.pc[i].k.w, c);
    }
  }

  lemma ForkMoves(s: State, i: nat, j: nat)
    requires Basics(s, i) && s.pc[i] == User && SlotReady(s, i, Fork1(j))
    ensures GoodMove(s, Goto(s, i, Fork1(j)), i)
  {
  }

  lemma ForkEnds(s: State, i: nat)
    requires Basics(s, i) && Forking(s.pc[i])
    ensures GoodMove(s, Goto(s, i, User), i)
  {
  }

  lemma ChildMoves(s: State, j: nat)
    requires Basics(s, j) && s.pc[j] == Idle && s.st[j] == USED && NoForker(s, j)
    ensures GoodMove(s, Goto(Become(s, j, RUNNABLE), j, Yield2), j)
  {
  }

  /** `np->parent = p` under `wait_lock`. */
  function GiveParent(s: State, i: nat, j: nat): State
    requires Shape(s) && i < |s.pc| && j < |s.pc|
  {
    Goto(s.(parent := s.parent[j := i]), i, Fork2(j))
  }

  lemma ParentLocal(s: State, i: nat, j: nat)
    requires Basics(s, i) && LocksOk(s) && s.pc[i] == Fork1(j) && j < |s.pc| && s.pc[j] == Idle
    ensures var t := GiveParent(s, i, j); LocksOk(t) && StatesOk(t) && ChansOk(t) && CallsOk(t)
  {
  }

  lemma ParentTree(s: State, i: nat, j: nat)
    requires Basics(s, i) && PidsOk(s) && NoOrphans(s) && s.pc[i] == Fork1(j) && j < |s.pc| && s.pc[j] == Idle
             && s.st[j] == USED
    ensures PidsOk(GiveParent(s, i, j)) && NoOrphans(GiveParent(s, i, j))
  {
  }

  lemma ParentForks(s: State, i: nat, j: nat)
    requires Basics(s, i) && ForksOk(s) && s.pc[i] == Fork1(j) && j < |s.pc|
    ensures ForksOk(GiveParent(s, i, j))
  {
  }

  lemma ParentForgotten(s: State, i: nat, j: nat)
    requires Basics(s, i) && LocksOk(s) && s.pc[i] == Fork1(j) && j < |s.pc| && 0 !in s.held && s.parent[j] == -1
    requires NoneMissed(s) && ParentAwake(s) && ScansOk(s) && NoneForgotten(s)
    ensures var t := GiveParent(s, i, j); NoneMissed(t) && ParentAwake(t) && ScansOk(t) && NoneForgotten(t)
  {
    var t := GiveParent(s, i, j);
    forall p, c, l | Asleep(t, p, c, l) ensures Asleep(s, p, c, l) {
    }
    forall w | 0 <= w < |t.pc| ensures !t.pc[w].Scan? && !t.pc[w].Exit1? {
      assert LockOf(s.pc[w]) != 0;
    }
    forall w: nat, c: nat | w < |t.pc| && c < |t.pc| && Waiting(t, w) && !BeingWoken(t, w)
        && Awaited(t, w, t.pc[w].k.w, c)
      ensures t.st[c] != ZOMBIE
    {
      assert Waiting(s, w) && w != i;
      forall d | 0 <= d < |s.pc| ensures t.parent[d] == w <==> s.parent[d] == w {
      }
      assert Awaited(s, w, s.pc[w].k.w, c);
    }
  }

  lemma ParentKeeps(s: State, i: nat, j: nat)
    requires Inv(s) && i < |s.pc| && s.pc[i] == Fork1(j) && 0 !in s.held
    ensures j < |s.pc| && Inv(GiveParent(s, i, j))
  {
    ParentLocal(s, i, j);
    ParentTree(s, i, j);
    ParentForks(s, i, j);
    ParentForgotten(s, i, j);
  }

  /** `pp->parent = initproc`, and `wakeup(initproc)` begins. */
  function GiveToInit(s: State, i: nat, q: nat): State
    requires Shape(s) && i < |s.pc| && q < |s.pc|
  {
    Goto(s.(parent := s.parent[q := INIT]), i, Waking(Proc(INIT), WAIT_LOCK, 0, ToReparent(q + 1)))
  }

  lemma InitLocal(s: State, i: nat, q: nat)
    requires Basics(s, i) && LocksOk(s) && s.pc[i] == Reparent(q) && q < |s.pc| && s.parent[q] == i
    ensures var t := GiveToInit(s, i, q); LocksOk(t) && StatesOk(t) && ChansOk(t)
  {
  }

  lemma InitCalls(s: State, i: nat, q: nat)
    requires Basics(s, i) && LocksOk(s) && s.pc[i] == Reparent(q) && q < |s.pc| && s.parent[q] == i
    ensures CallsOk(GiveToInit(s, i, q))
  {
    assert LockOf(s.pc[i]) == 0;
  }

  lemma InitTree(s: State, i: nat, q: nat)
    requires Basics(s, i) && PidsOk(s) && NoOrphans(s) && s.pc[i] == Reparent(q) && q < |s.pc| && s.parent[q] == i
    ensures PidsOk(GiveToInit(s, i, q)) && NoOrphans(GiveToInit(s, i, q))
  {
    assert q != INIT && q != i;
    InitOrphans(s, i, q);
  }

  lemma InitOrphans(s: State, i: nat, q: nat)
    requires Shape(s) && i < |s.pc| && CallsOk(s) && NoOrphans(s) && s.pc[i] == Reparent(q) && q < |s.pc|
             && s.parent[q] == i
    ensures NoOrphans(GiveToInit(s, i, q))
  {
    var t := GiveToInit(s, i, q);
    assert i != INIT && GivenAway(t.pc[INIT], |s.pc|) == 0 by {
      assert CallOk(s.pc[INIT], INIT, s.parent[INIT]) && CallOk(s.pc[i], i, s.parent[i]);
    }
    forall c, p | 0 <= c < |t.pc| && 0 <= p < |t.pc| && t.parent[c] == p ensures c >= GivenAway(t.pc[p], |t.pc|) {
      assert p != INIT ==> s.parent[c] == p;
    }
  }

  lemma InitForks(s: State, i: nat, q: nat)
    requires Basics(s, i) && ForksOk(s) && s.pc[i] == Reparent(q) && q < |s.pc| && s.parent[q] == i
    ensures ForksOk(GiveToInit(s, i, q))
  {
  }

  lemma InitForgotten(s: State, i: nat, q: nat)
    requires Basics(s, i) && LocksOk(s) && s.pc[i] == Reparent(q) && q < |s.pc| && s.parent[q] == i
    requires NoneMissed(s) && ParentAwake(s) && ScansOk(s) && NoneForgotten(s)
    ensures var t := GiveToInit(s, i, q); NoneMissed(t) && ParentAwake(t) && ScansOk(t) && NoneForgotten(t)
  {
    var t := GiveToInit(s, i, q);
    forall p, c, l | Asleep(t, p, c, l) ensures Asleep(s, p, c, l) {
    }
    assert LockOf(s.pc[i]) == 0;
    forall w | 0 <= w < |t.pc| ensures !t.pc[w].Scan? && !t.pc[w].Exit1? {
      assert w != i ==> LockOf(s.pc[w]) != 0;
    }
    forall w: nat, c: nat | w < |t.pc| && c < |t.pc| && Waiting(t, w) && !BeingWoken(t, w)
        && Awaited(t, w, t.pc[w].k.w, c)
      ensures t.st[c] != ZOMBIE
    {
      assert Waiting(s, w) && w != i && w != INIT;
      forall d | 0 <= d < |s.pc| ensures t.parent[d] == w <==> s.parent[d] == w {
      }
      assert Awaited(s, w, s.pc[w].k.w, c);
    }
  }

  lemma InitKeeps(s: State, i: nat, q: nat)
    requires Inv(s) && i < |s.pc| && s.pc[i] == Reparent(q) && q < |s.pc| && s.parent[q] == i
    ensures Inv(GiveToInit(s, i, q))
  {
    InitLocal(s, i, q);
    InitCalls(s, i, q);
    InitTree(s, i, q);
    InitForks(s, i, q);
    InitForgotten(s, i, q);
  }

  // ---- Every step keeps the invariant ----

  lemma ForkKeeps(s: State, i: nat, j: nat)
    requires Inv(s) && Can(s, Fork(i, j))
    ensures Inv(Do(s, Fork(i, j)))
  {
    AllocKeeps(s, j);
    ForkMoves(AllocSlot(s, j), i, j);
    MoveKeeps(AllocSlot(s, j), Do(s, Fork(i, j)), i);
  }

  lemma ForkSlot(s: State, i: nat, j: nat)
    requires Shape(s) && i < |s.pc| && CallsOk(s) && ForksOk(s) && s.pc[i] == Fork1(j)
    ensures j < |s.pc| && j != INIT && j != i && NoForker(Goto(s, i, User), j) && s.pc[j] == Idle && s.parent[j] == -1
  {
    assert Forking(s.pc[i]) && s.pc[i].j == j;
    assert CallOk(s.pc[j], j, s.parent[j]);
  }

  lemma FailOrder(s: State, i: nat, j: nat)
    requires Shape(s) && i < |s.pc| && j < |s.pc| && i != j && s.pc[i] == Fork1(j) && Can(s, ForkFails(i))
    ensures Do(s, ForkFails(i)) == FreeProc(Goto(s, i, User), j)
  {
    assert s.pc[j := Idle][i := User] == s.pc[i := User][j := Idle];
  }

  lemma ForkFailsKeeps(s: State, i: nat)
    requires Inv(s) && Can(s, ForkFails(i))
    ensures Inv(Do(s, ForkFails(i)))
  {
    var j := s.pc[i].j;
    var m := Goto(s, i, User);
    ForkEnds(s, i);
    MoveKeeps(s, m, i);
    ForkSlot(s, i, j);
    FreeKeeps(m, j);
    FailOrder(s, i, j);
  }

  /** The child starts. */
  lemma ChildKeeps(s: State, j: nat)
    requires Inv(s) && j < |s.pc| && s.pc[j] == Idle && s.st[j] == USED && NoForker(s, j)
    ensures Inv(Goto(Become(s, j, RUNNABLE), j, Yield2))
  {
    ChildMoves(s, j);
    MoveKeeps(s, Goto(Become(s, j, RUNNABLE), j, Yield2), j);
  }

  lemma Fork2Slot(s: State, i: nat, j: nat)
    requires Shape(s) && i < |s.pc| && ForksOk(s) && s.pc[i] == Fork2(j)
    ensures j < |s.pc| && j != i && NoForker(Goto(s, i, User), j) && s.pc[j] == Idle && s.st[j] == USED
  {
    assert Forking(s.pc[i]) && s.pc[i].j == j;
  }

  lemma Fork2Order(s: State, i: nat, j: nat)
    requires Shape(s) && i < |s.pc| && j < |s.pc| && i != j && s.pc[i] == Fork2(j) && CanStep(s, i)
    ensures DoStep(s, i) == Goto(Become(Goto(s, i, User), j, RUNNABLE), j, Yield2)
  {
    assert s.pc[j := Yield2][i := User] == s.pc[i := User][j := Yield2];
  }

  lemma Fork2Keeps(s: State, i: nat)
    requires Inv(s) && i < |s.pc| && s.pc[i].Fork2? && CanStep(s, i)
    ensures Inv(DoStep(s, i))
  {
    var j := s.pc[i].j;
    var m := Goto(s, i, User);
    ForkEnds(s, i);
    MoveKeeps(s, m, i);
    Fork2Slot(s, i, j);
    ChildKeeps(m, j);
    Fork2Order(s, i, j);
  }

  /** One slot of the scan of `wakeup`. */
  lemma WakeOneKeeps(s: State, i: nat, c: Chan, l: nat, q: nat, k: Then)
    requires Inv(s) && i < |s.pc| && s.pc[i] == Waking(c, l, q, k) && q < |s.pc| && q != i && !s.locked[q]
    ensures Inv(DoWaking(s, i, c, l, q, k))
  {
    var m := MakeRunnable(s, q, s.chan[q] == c);
    RunnableKeeps(s, q, s.chan[q] == c);
    NotMissed(s, c, l, q);
    WakingMoves(m, i, c, l, q, k);
    MoveKeeps(m, Goto(m, i, Waking(c, l, q + 1, k)), i);
  }

  lemma WakeSelfKeeps(s: State, i: nat, c: Chan, l: nat, k: Then)
    requires Inv(s) && i < |s.pc| && s.pc[i] == Waking(c, l, i, k)
    ensures Inv(DoWaking(s, i, c, l, i, k))
  {
    WakingMoves(s, i, c, l, i, k);
    MoveKeeps(s, Goto(s, i, Waking(c, l, i + 1, k)), i);
  }

  lemma WakeEndKeeps(s: State, i: nat, c: Chan, l: nat, q: nat, k: Then)
    requires Inv(s) && i < |s.pc| && s.pc[i] == Waking(c, l, q, k) && q >= |s.pc|
    ensures Inv(DoWaking(s, i, c, l, q, k))
  {
    WakingEnds(s, i, c, l, q, k);
    MoveKeeps(s, Goto(s, i, AfterWakeup(l, k)), i);
  }

  lemma WakingKeeps(s: State, i: nat, c: Chan, l: nat, q: nat, k: Then)
    requires Inv(s) && i < |s.pc| && s.pc[i] == Waking(c, l, q, k) && CanStep(s, i)
    ensures Inv(DoWaking(s, i, c, l, q, k))
  {
    if q >= |s.pc| {
      WakeEndKeeps(s, i, c, l, q, k);
    } else if q == i {
      WakeSelfKeeps(s, i, c, l, k);
    } else {
      WakeOneKeeps(s, i, c, l, q, k);
    }
  }

  /** `wait` has found a ZOMBIE child and frees it. */
  lemma ReapKeeps(s: State, i: nat)
    requires Inv(s) && i < |s.pc| && s.pc[i].Scan? && CanStep(s, i) && s.pc[i].q < |s.pc|
    requires Matches(s, i, s.pc[i].w, s.pc[i].q) && s.st[s.pc[i].q] == ZOMBIE
    ensures Inv(DoStep(s, i))
  {
    var q := s.pc[i].q;
    FreeKeeps(s, q);
    ScanEnds(FreeProc(s, q), i);
    MoveKeeps(FreeProc(s, q), DoStep(s, i), i);
  }

  lemma ScanSleepKeeps(s: State, i: nat, w: Why, q: nat, have: bool)
    requires Inv(s) && i < |s.pc| && s.pc[i] == Scan(w, q, have) && !s.locked[i]
    requires if w.All? then q >= |s.pc| else q < |s.pc| && Matches(s, i, w, q) && s.st[q] != ZOMBIE
    ensures Inv(SleepInWait(s, i, w))
  {
    NoneAwaited(s, i, w, q, have);
    ScanSleeps(s, i, w, q, have);
    MoveKeeps(s, SleepInWait(s, i, w), i);
  }

  lemma ScanOnKeeps(s: State, i: nat, w: Why, q: nat, have: bool, have': bool)
    requires Inv(s) && i < |s.pc| && s.pc[i] == Scan(w, q, have) && q < |s.pc| && Passed(s, i, w, q)
    ensures Inv(Goto(s, i, Scan(w, q + 1, have')))
  {
    ScanMoves(s, i, w, q, have, have');
    MoveKeeps(s, Goto(s, i, Scan(w, q + 1, have')), i);
  }

  lemma ScanEndKeeps(s: State, i: nat)
    requires Inv(s) && i < |s.pc| && (s.pc[i].Scan? || s.pc[i].Recheck?)
    ensures Inv(Goto(Drop(s, WAIT_LOCK), i, User))
  {
    ScanEnds(s, i);
    MoveKeeps(s, Goto(Drop(s, WAIT_LOCK), i, User), i);
  }

  lemma ScanKeeps(s: State, i: nat, w: Why, q: nat, have: bool)
    requires Inv(s) && i < |s.pc| && s.pc[i] == Scan(w, q, have) && CanStep(s, i)
    ensures Inv(DoScan(s, i, w, q, have))
  {
    if q >= |s.pc| {
      if w.All? && have && !s.killed[i] {
        ScanSleepKeeps(s, i, w, q, have);
      } else {
        ScanEndKeeps(s, i);
      }
    } else if !Matches(s, i, w, q) {
      ScanOnKeeps(s, i, w, q, have, have);
    } else if s.st[q] == ZOMBIE {
      ReapKeeps(s, i);
    } else if w.All? {
      ScanOnKeeps(s, i, w, q, have, true);
    } else {
      ScanSleepKeeps(s, i, w, q, have);
    }
  }

  lemma RecheckKeeps(s: State, i: nat)
    requires Inv(s) && i < |s.pc| && s.pc[i].Recheck?
    ensures Inv(DoStep(s, i))
  {
    if s.killed[i] {
      ScanEndKeeps(s, i);
    } else {
      RecheckMoves(s, i, s.pc[i].w);
      MoveKeeps(s, Goto(s, i, Scan(s.pc[i].w, 0, false)), i);
    }
  }

  lemma ReparentKeeps(s: State, i: nat, q: nat)
    requires Inv(s) && i < |s.pc| && s.pc[i] == Reparent(q)
    ensures Inv(DoReparent(s, i, q))
  {
    if q >= |s.pc| {
      ReparentEnds(s, i, q);
      MoveKeeps(s, DoReparent(s, i, q), i);
    } else if s.parent[q] == i {
      InitKeeps(s, i, q);
      assert DoReparent(s, i, q) == GiveToInit(s, i, q);
    } else {
      ReparentMoves(s, i, q);
      MoveKeeps(s, DoReparent(s, i, q), i);
    }
  }

  lemma SleepKeeps(s: State, i: nat)
    requires Inv(s) && i < |s.pc| && InSleep(s.pc[i]) && CanStep(s, i)
    ensures Inv(DoStep(s, i))
  {
    match s.pc[i] {
      case Sleep1(c, l, k) => FallMoves(s, i, c, l, k);
      case Sleep2(c, l, k) => SleepingMoves(s, i, c, l, k);
      case Sleep3(c, l, k) => SwitchMoves(s, i);
      case Sleep5(c, l, k) => TidyMoves(s, i);
      case _ => ReturnMoves(s, i);
    }
    MoveKeeps(s, DoStep(s, i), i);
  }

  lemma ExitKeeps(s: State, i: nat)
    requires Inv(s) && i < |s.pc| && (s.pc[i].Exit1? || s.pc[i].Exit2? || s.pc[i].Exit3?) && CanStep(s, i)
    ensures Inv(DoStep(s, i))
  {
    match s.pc[i] {
      case Exit1 => ZombieMoves(s, i);
      case Exit2 => ExitMoves(s, i);
      case _ => DeathMoves(s, i);
    }
    MoveKeeps(s, DoStep(s, i), i);
  }

  lemma YieldKeeps(s: State, i: nat)
    requires Inv(s) && i < |s.pc| && (s.pc[i].Yield1? || s.pc[i].Yield3?)
    ensures Inv(DoStep(s, i))
  {
    if s.pc[i].Yield1? { YieldMoves(s, i); } else { ResumeMoves(s, i); }
    MoveKeeps(s, DoStep(s, i), i);
  }

  lemma StepKeeps(s: State, i: nat)
    requires Inv(s) && i < |s.pc| && CanStep(s, i)
    ensures Inv(DoStep(s, i))
  {
    match s.pc[i] {
      case Waking(c, l, q, k) => WakingKeeps(s, i, c, l, q, k);
      case Yield1 => YieldKeeps(s, i);
      case Yield3 => YieldKeeps(s, i);
      case Fork1(j) => ParentKeeps(s, i, j);
      case Fork2(j) => Fork2Keeps(s, i);
      case Reparent(q) => ReparentKeeps(s, i, q);
      case Exit1 => ExitKeeps(s, i);
      case Exit2 => ExitKeeps(s, i);
      case Exit3 => ExitKeeps(s, i);
      case Scan(w, q, have) => ScanKeeps(s, i, w, q, have);
      case Recheck(w) => RecheckKeeps(s, i);
      case _ => SleepKeeps(s, i);
    }
  }

  lemma CallKeeps(s: State, e: Event)
    requires Inv(s) && Can(s, e) && (e.Acquire? || e.Release? || e.Sleep? || e.Wakeup?)
    ensures Inv(Do(s, e))
  {
    if e.Acquire? {
      AcquireMoves(s, e.i, e.l);
    } else if e.Release? {
      ReleaseMoves(s, e.i, s.pc[e.i].l);
    } else if e.Sleep? {
      SleepMoves(s, e.i, e.c, s.pc[e.i].l);
    } else {
      WakeupMoves(s, e.i, e.c, s.pc[e.i].l);
    }
    MoveKeeps(s, Do(s, e), e.i);
  }

  lemma HandlerKeeps(s: State, e: Event)
    requires Inv(s) && Can(s, e) && (e.Interrupt? || e.HandlerWakes? || e.HandlerEnds?)
    ensures Inv(Do(s, e))
  {
    if e.Interrupt? {
      InterruptMoves(s, e.i, e.l);
    } else if e.HandlerWakes? {
      HandlerWakesMoves(s, e.i, e.c, s.pc[e.i].l);
    } else {
      HandlerEndsMoves(s, e.i, s.pc[e.i].l);
    }
    MoveKeeps(s, Do(s, e), e.i);
  }

  lemma EnterKeeps(s: State, e: Event)
    requires Inv(s) && Can(s, e) && (e.Dispatch? || e.Yield? || e.Exit? || e.Wait?)
    ensures Inv(Do(s, e))
  {
    if e.Dispatch? {
      DispatchMoves(s, e);
    } else if e.Yield? {
      YieldCallMoves(s, e.i);
    } else if e.Exit? {
      ExitCallMoves(s, e.i);
    } else {
      WaitCallMoves(s, e.i, e.w);
    }
    MoveKeeps(s, Do(s, e), e.i);
  }

  lemma EventKeeps(s: State, e: Event)
    requires Inv(s) && Can(s, e)
    ensures Inv(Do(s, e))
  {
    match e {
      case Step(i) => StepKeeps(s, i);
      case Kill(j) => KillKeeps(s, j);
      case Fork(i, j) => ForkKeeps(s, i, j);
      case ForkFails(i) => ForkFailsKeeps(s, i);
      case WaitQuits(i) => ScanEndKeeps(s, i);
      case Acquire(i, l) => CallKeeps(s, e);
      case Release(i) => CallKeeps(s, e);
      case Sleep(i, c) => CallKeeps(s, e);
      case Wakeup(i, c) => CallKeeps(s, e);
      case Interrupt(i, l) => HandlerKeeps(s, e);
      case HandlerWakes(i, c) => HandlerKeeps(s, e);
      case HandlerEnds(i) => HandlerKeeps(s, e);
      case _ => EnterKeeps(s, e);
    }
  }

  lemma KillKeeps(s: State, j: nat)
    requires Inv(s) && j < |s.pc| && !s.locked[j]
    ensures Inv(MakeRunnable(s.(killed := s.killed[j := true]), j, true))
  {
    var m := s.(killed := s.killed[j := true]);
    assert Inv(m) by { KilledIsLocal(s, m); }
    RunnableKeeps(m, j, true);
  }

  lemma KilledIsLocal(s: State, t: State)
    requires Inv(s) && |t.killed| == |s.pc| && t == s.(killed := t.killed)
    ensures Inv(t)
  {
    assert LocksOk(t) && StatesOk(t) && ChansOk(t) && CallsOk(t) && PidsOk(t) && ForksOk(t) && NoOrphans(t);
    KilledSleepers(s, t);
    KilledForgotten(s, t);
  }

  lemma KilledSleepers(s: State, t: State)
    requires Shape(s) && NoneMissed(s) && ParentAwake(s) && |t.killed| == |s.pc| && t == s.(killed := t.killed)
    ensures NoneMissed(t) && ParentAwake(t)
  {
    forall p, c, l ensures Asleep(t, p, c, l) == Asleep(s, p, c, l) {
    }
  }

  lemma KilledForgotten(s: State, t: State)
    requires Shape(s) && ScansOk(s) && NoneForgotten(s) && |t.killed| == |s.pc| && t == s.(killed := t.killed)
    ensures ScansOk(t) && NoneForgotten(t)
  {
    forall i: nat, c: nat | i < |t.pc| && c < |t.pc| && Waiting(t, i) && !BeingWoken(t, i)
        && Awaited(t, i, t.pc[i].k.w, c)
      ensures t.st[c] != ZOMBIE
    {
      assert Waiting(s, i) && !BeingWoken(s, i) && Awaited(s, i, s.pc[i].k.w, c);
    }
    forall i, c | 0 <= i < |t.pc| && t.pc[i].Scan? && 0 <= c < t.pc[i].q && c < |t.pc|
      ensures Passed(t, i, t.pc[i].w, c)
    {
      assert Passed(s, i, s.pc[i].w, c);
    }
  }

  // ---- Theorems ----

  ghost predicate Reaches(s0: State, evs: seq<Event>, s: State) {
    Runs.Reaches(Steps, s0, evs, s)
  }

  lemma KeepsInv(s0: State, evs: seq<Event>, s: State)
    requires Inv(s0) && Reaches(s0, evs, s)
    ensures Inv(s)
  {
    forall m, e, n | e in evs && Inv(m) && Steps(m, e, n) ensures Inv(n) {
      EventKeeps(m, e);
    }
    Runs.Invariant(Steps, Inv, s0, evs, s);
  }

  lemma RunInv(s0: State, evs: seq<Event>, s: State)
    requires Start(s0) && Reaches(s0, evs, s)
    ensures Inv(s)
  {
    StartInv(s0);
    KeepsInv(s0, evs, s);
  }

  lemma ScanLeaves(s: State, i: nat, p: nat, c: Chan, l: nat)
    requires Shape(s) && StatesOk(s) && i < |s.pc| && s.pc[i].Scan? && Asleep(s, p, c, l)
    ensures Shape(DoScan(s, i, s.pc[i].w, s.pc[i].q, s.pc[i].have))
    ensures Asleep(DoScan(s, i, s.pc[i].w, s.pc[i].q, s.pc[i].have), p, c, l)
  {
  }

  lemma WakingLeaves(s: State, i: nat, p: nat, c: Chan, l: nat)
    requires Shape(s) && StatesOk(s) && i < |s.pc| && s.pc[i].Waking? && CanStep(s, i) && Asleep(s, p, c, l)
    ensures var t := DoWaking(s, i, s.pc[i].c, s.pc[i].l, s.pc[i].q, s.pc[i].k);
            Shape(t) && (Asleep(t, p, c, l) || (s.st[p] == SLEEPING && t.st[p] == RUNNABLE && s.pc[i].q == p
                && s.chan[p] == s.pc[i].c))
  {
  }

  lemma SleepLeaves(s: State, i: nat, p: nat, c: Chan, l: nat)
    requires Shape(s) && StatesOk(s) && i < |s.pc| && InSleep(s.pc[i]) && CanStep(s, i) && Asleep(s, p, c, l)
    ensures Shape(DoStep(s, i)) && Asleep(DoStep(s, i), p, c, l)
  {
  }

  lemma ForkStepLeaves(s: State, i: nat, p: nat, c: Chan, l: nat)
    requires Shape(s) && StatesOk(s) && ForksOk(s) && i < |s.pc| && CanStep(s, i) && Asleep(s, p, c, l)
    requires Forking(s.pc[i])
    ensures Shape(DoStep(s, i)) && Asleep(DoStep(s, i), p, c, l)
  {
    assert s.pc[s.pc[i].j] == Idle;
  }

  lemma OtherLeaves(s: State, i: nat, p: nat, c: Chan, l: nat)
    requires Shape(s) && StatesOk(s) && i < |s.pc| && CanStep(s, i) && Asleep(s, p, c, l)
    requires !InSleep(s.pc[i]) && !s.pc[i].Scan? && !s.pc[i].Waking? && !Forking(s.pc[i])
    ensures Shape(DoStep(s, i)) && Asleep(DoStep(s, i), p, c, l)
  {
    assert p != i;
  }

  lemma StepLeaves(s: State, i: nat, p: nat, c: Chan, l: nat)
    requires Shape(s) && StatesOk(s) && ForksOk(s) && i < |s.pc| && CanStep(s, i) && Asleep(s, p, c, l)
    ensures Shape(DoStep(s, i))
    ensures Asleep(DoStep(s, i), p, c, l) ||
            (s.st[p] == SLEEPING && DoStep(s, i).st[p] == RUNNABLE && s.pc[i].Waking? && s.pc[i].q == p
                && s.chan[p] == s.pc[i].c)
  {
    if s.pc[i].Scan? {
      ScanLeaves(s, i, p, c, l);
    } else if s.pc[i].Waking? {
      WakingLeaves(s, i, p, c, l);
    } else if InSleep(s.pc[i]) {
      SleepLeaves(s, i, p, c, l);
    } else if Forking(s.pc[i]) {
      ForkStepLeaves(s, i, p, c, l);
    } else {
      OtherLeaves(s, i, p, c, l);
    }
  }

  lemma SchedLeaves(s: State, e: Event, p: nat, c: Chan, l: nat)
    requires Shape(s) && StatesOk(s) && Can(s, e) && (e.Kill? || e.Dispatch? || e.Yield?) && Asleep(s, p, c, l)
    ensures Shape(Do(s, e))
    ensures Asleep(Do(s, e), p, c, l) || (s.st[p] == SLEEPING && Do(s, e).st[p] == RUNNABLE && e == Kill(p))
  {
  }

  lemma ForkLeaves(s: State, e: Event, p: nat, c: Chan, l: nat)
    requires Shape(s) && StatesOk(s) && ForksOk(s) && Can(s, e) && (e.Fork? || e.ForkFails?) && Asleep(s, p, c, l)
    ensures Shape(Do(s, e)) && Asleep(Do(s, e), p, c, l)
  {
  }

  lemma CallLeaves(s: State, e: Event, p: nat, c: Chan, l: nat)
    requires Shape(s) && StatesOk(s) && Can(s, e) && Asleep(s, p, c, l)
    requires !e.Step? && !e.Kill? && !e.Dispatch? && !e.Yield? && !e.Fork? && !e.ForkFails?
    ensures Shape(Do(s, e)) && Asleep(Do(s, e), p, c, l)
  {
  }

  lemma EventLeaves(s: State, e: Event, p: nat, c: Chan, l: nat)
    requires Shape(s) && StatesOk(s) && ForksOk(s) && Can(s, e) && !e.Step? && Asleep(s, p, c, l)
    ensures Shape(Do(s, e))
    ensures Asleep(Do(s, e), p, c, l) || (s.st[p] == SLEEPING && Do(s, e).st[p] == RUNNABLE && e == Kill(p))
  {
    match e {
      case Kill(j) => SchedLeaves(s, e, p, c, l);
      case Dispatch(i) => SchedLeaves(s, e, p, c, l);
      case Yield(i) => SchedLeaves(s, e, p, c, l);
      case Fork(i, j) => ForkLeaves(s, e, p, c, l);
      case ForkFails(i) => ForkLeaves(s, e, p, c, l);
      case _ => CallLeaves(s, e, p, c, l);
    }
  }

  /** A sleeper leaves its sleep only by being made RUNNABLE, by `wakeup` on its channel or by `kill`. */
  ghost predicate Woken(s: State, e: Event, t: State, p: nat, c: Chan) {
    && Shape(s) && Shape(t) && p < |s.pc| == |t.pc| && s.st[p] == SLEEPING && t.st[p] == RUNNABLE
    && (e == Kill(p) || (e.Step? && e.i < |s.pc| && s.pc[e.i].Waking? && s.pc[e.i].c == c && s.pc[e.i].q == p))
  }

  lemma LeavesOnlyWoken(s: State, e: Event, p: nat, c: Chan, l: nat)
    requires Shape(s) && StatesOk(s) && ForksOk(s) && ChansOk(s) && Can(s, e) && Asleep(s, p, c, l)
    ensures Shape(Do(s, e)) && (Asleep(Do(s, e), p, c, l) || Woken(s, e, Do(s, e), p, c))
  {
    if e.Step? {
      StepLeaves(s, e.i, p, c, l);
    } else {
      EventLeaves(s, e, p, c, l);
    }
  }

  lemma WokenByStep(s: State, e: Event, t: State, p: nat, c: Chan, l: nat)
    requires Inv(s) && Steps(s, e, t) && Asleep(s, p, c, l)
    ensures Shape(t) && (Asleep(t, p, c, l) || Woken(s, e, t, p, c))
  {
    LeavesOnlyWoken(s, e, p, c, l);
  }

  ghost predicate StillAsleep(s: State, p: nat, c: Chan, l: nat) { Inv(s) && Asleep(s, p, c, l) }

  /** Somewhere on the way from a sleep to a state where it is over, the sleeper was woken. */
  lemma WokenOnTheWay(m: State, evs: seq<Event>, s: State, p: nat, c: Chan, l: nat)
      returns (before: seq<Event>, x: State, e: Event, y: State)
    requires StillAsleep(m, p, c, l) && Reaches(m, evs, s) && !StillAsleep(s, p, c, l)
    ensures Reaches(m, before, x) && Steps(x, e, y) && before + [e] <= evs && Woken(x, e, y, p, c)
  {
    before, x, e, y := Runs.Turn(Steps, (t: State) => StillAsleep(t, p, c, l), m, evs, s);
    EventKeeps(x, e);
    WokenByStep(x, e, y, p, c, l);
  }

  lemma ScanStays(s: State, i: nat, p: nat)
    requires Shape(s) && i < |s.pc| && p < |s.pc| && !Bare(s.pc[p]) && s.pc[i].Scan?
    ensures var t := DoScan(s, i, s.pc[i].w, s.pc[i].q, s.pc[i].have); |t.pc| == |s.pc| && !Bare(t.pc[p])
  {
  }

  lemma WakingStays(s: State, i: nat, p: nat)
    requires Shape(s) && i < |s.pc| && p < |s.pc| && !Bare(s.pc[p]) && s.pc[i].Waking?
    ensures var t := DoWaking(s, i, s.pc[i].c, s.pc[i].l, s.pc[i].q, s.pc[i].k); |t.pc| == |s.pc| && !Bare(t.pc[p])
  {
  }

  lemma StepStays(s: State, i: nat, p: nat)
    requires Shape(s) && i < |s.pc| && CanStep(s, i) && p < |s.pc| && !Bare(s.pc[p])
    ensures |DoStep(s, i).pc| == |s.pc| && !Bare(DoStep(s, i).pc[p])
  {
    if s.pc[i].Scan? {
      ScanStays(s, i, p);
    } else if s.pc[i].Waking? {
      WakingStays(s, i, p);
    } else if s.pc[i].Reparent? {
      var q := s.pc[i].q;
      assert DoStep(s, i) == DoReparent(s, i, q);
    }
  }

  /** A slot that is a process stays one, or a slot for one. */
  lemma StaysProcess(s: State, e: Event, p: nat)
    requires Shape(s) && Can(s, e) && p < |s.pc| && !Bare(s.pc[p])
    ensures |Do(s, e).pc| == |s.pc| && !Bare(Do(s, e).pc[p])
  {
    if e.Step? {
      StepStays(s, e.i, p);
    }
  }

  ghost predicate IsProcess(s: State, p: nat) { p < |s.pc| && !Bare(s.pc[p]) }

  lemma ProcessKept(x: State, e: Event, y: State, p: nat)
    requires IsProcess(x, p) && Steps(x, e, y)
    ensures IsProcess(y, p)
  {
    StaysProcess(x, e, p);
  }

  lemma AlwaysProcess(m: State, evs: seq<Event>, s: State, p: nat)
    requires IsProcess(m, p) && Reaches(m, evs, s)
    ensures IsProcess(s, p)
  {
    forall x, e, y | e in evs && IsProcess(x, p) && Steps(x, e, y) ensures IsProcess(y, p) {
      ProcessKept(x, e, y, p);
    }
    Runs.Invariant(Steps, (t: State) => IsProcess(t, p), m, evs, s);
  }

  /** Where the wakeup has run to its end, the sleeper is awake. */
  lemma AwakeAtTheEnd(m: State, evs: seq<Event>, s: State, p: nat, c: Chan, l: nat, w: nat, k: Then)
    requires Inv(m) && Inv(s) && Reaches(m, evs, s) && Asleep(m, p, c, l)
    requires w < |s.pc| && s.pc[w] == Waking(c, l, |s.pc|, k) && (p != w || k.ToHandler?)
    ensures !Asleep(s, p, c, l)
  {
    AlwaysProcess(m, evs, s, p);
    if p < |s.pc| {
      assert s.pc[w].Waking? && p < s.pc[w].q && p != w;
    }
  }

  /** No lost wakeup.  A process is in `sleep(c, l)` at `m`, and a `wakeup(c)` issued while holding `l`, by another
      process or by an interrupt handler on an idle CPU, has run to its end at `s`: the sleeper has been made RUNNABLE
      in between. */
  lemma NoLostWakeup(s0: State, first: seq<Event>, m: State, evs: seq<Event>, s: State, p: nat, c: Chan, l: nat, w: nat,
                     k: Then)
      returns (before: seq<Event>, x: State, e: Event, y: State)
    requires Start(s0) && Reaches(s0, first, m) && Reaches(m, evs, s)
    requires Shape(m) && Asleep(m, p, c, l) && w < |s.pc| && s.pc[w] == Waking(c, l, |s.pc|, k)
             && (p != w || k.ToHandler?)
    ensures Shape(s) && !Asleep(s, p, c, l)
    ensures Reaches(m, before, x) && Steps(x, e, y) && before + [e] <= evs && Woken(x, e, y, p, c)
  {
    RunInv(s0, first, m);
    Runs.Through(Steps, s0, first, m, evs, s);
    RunInv(s0, first + evs, s);
    AwakeAtTheEnd(m, evs, s, p, c, l, w, k);
    before, x, e, y := WokenOnTheWay(m, evs, s, p, c, l);
  }

  /** While `wait_lock` is free, nobody sleeps in `wait` with a ZOMBIE child, nor in `waitpid(pid)`
      while that child is a ZOMBIE, nor in `waitpid(-1)` while its first child in the table is. */
  lemma NoForgottenZombie(s0: State, evs: seq<Event>, s: State, i: nat, c: nat)
    requires Start(s0) && Reaches(s0, evs, s) && WAIT_LOCK !in s.held
    requires Shape(s) && i < |s.pc| && c < |s.pc| && s.pc[i].Sleep4? && s.st[i] == SLEEPING && s.pc[i].k.ToWait?
    requires Awaited(s, i, s.pc[i].k.w, c)
    ensures s.st[c] != ZOMBIE
  {
    RunInv(s0, evs, s);
    assert Waiting(s, i) && !BeingWoken(s, i);
  }

  /** At no time does a ZOMBIE, a freed slot or a process that has not started have children: every
      exited process can be reaped by its parent. */
  lemma EveryParentLives(s0: State, evs: seq<Event>, s: State, c: nat)
    requires Start(s0) && Reaches(s0, evs, s) && Shape(s) && c < |s.pc| && s.parent[c] != -1
    ensures 0 <= s.parent[c] < |s.pc|
    ensures s.st[s.parent[c]] == RUNNING || s.st[s.parent[c]] == RUNNABLE || s.st[s.parent[c]] == SLEEPING
  {
    RunInv(s0, evs, s);
    var p := s.parent[c];
    assert c >= GivenAway(s.pc[p], |s.pc|);
  }

  /** Live processes have different pids. */
  lemma PidsDiffer(s0: State, evs: seq<Event>, s: State, i: nat, j: nat)
    requires Start(s0) && Reaches(s0, evs, s) && Shape(s) && i < j < |s.pc| && s.st[i] != UNUSED && s.st[j] != UNUSED
    ensures s.pid[i] != s.pid[j]
  {
    RunInv(s0, evs, s);
  }

  // ---- waitpid(-1) can sleep beside a ZOMBIE child ----

  /** Three slots: nobody has been killed, and at most slot `lk` is locked. */
  function Three(pc: seq<Pc>, st: seq<PState>, parent: seq<int>, pid: seq<nat>, lk: int, chan0: Chan,
                 held: map<nat, nat>, next: nat): State {
    State(pc, st, [chan0, None, None], parent, pid, [false, false, false], [lk == 0, false, lk == 2], held, next)
  }

  /** init forks twice, its second child exits, and init calls `waitpid(-1)`. */
  function TraceState(k: nat): State {
    match k
    case 0 => Three([Yield2, Idle, Idle], [RUNNABLE, UNUSED, UNUSED], [-1, -1, -1], [1, 0, 0], -1, None, map[], 2)
    case 1 => Three([Yield3, Idle, Idle], [RUNNING, UNUSED, UNUSED], [-1, -1, -1], [1, 0, 0], 0, None, map[], 2)
    case 2 => Three([User, Idle, Idle], [RUNNING, UNUSED, UNUSED], [-1, -1, -1], [1, 0, 0], -1, None, map[], 2)
    case 3 => Three([Fork1(1), Idle, Idle], [RUNNING, USED, UNUSED], [-1, -1, -1], [1, 2, 0], -1, None, map[], 3)
    case 4 => Three([Fork2(1), Idle, Idle], [RUNNING, USED, UNUSED], [-1, 0, -1], [1, 2, 0], -1, None, map[], 3)
    case 5 => Three([User, Yield2, Idle], [RUNNING, RUNNABLE, UNUSED], [-1, 0, -1], [1, 2, 0], -1, None, map[], 3)
    case 6 => Three([Fork1(2), Yield2, Idle], [RUNNING, RUNNABLE, USED], [-1, 0, -1], [1, 2, 3], -1, None, map[], 4)
    case 7 => Three([Fork2(2), Yield2, Idle], [RUNNING, RUNNABLE, USED], [-1, 0, 0], [1, 2, 3], -1, None, map[], 4)
    case 8 => Three([User, Yield2, Yield2], [RUNNING, RUNNABLE, RUNNABLE], [-1, 0, 0], [1, 2, 3], -1, None, map[], 4)
    case 9 => Three([User, Yield2, Yield3], [RUNNING, RUNNABLE, RUNNING], [-1, 0, 0], [1, 2, 3], 2, None, map[], 4)
    case 10 => Three([User, Yield2, User], [RUNNING, RUNNABLE, RUNNING], [-1, 0, 0], [1, 2, 3], -1, None, map[], 4)
    case 11 => Three([User, Yield2, Reparent(0)], [RUNNING, RUNNABLE, RUNNING], [-1, 0, 0], [1, 2, 3], -1, None,
                     map[0 := 2], 4)
    case 12 => Three([User, Yield2, Reparent(1)], [RUNNING, RUNNABLE, RUNNING], [-1, 0, 0], [1, 2, 3], -1, None,
                     map[0 := 2], 4)
    case 13 => Three([User, Yield2, Reparent(2)], [RUNNING, RUNNABLE, RUNNING], [-1, 0, 0], [1, 2, 3], -1, None,
                     map[0 := 2], 4)
    case 14 => Three([User, Yield2, Reparent(3)], [RUNNING, RUNNABLE, RUNNING], [-1, 0, 0], [1, 2, 3], -1, None,
                     map[0 := 2], 4)
    case 15 => Three([User, Yield2, Waking(Proc(0), 0, 0, ToZombie)], [RUNNING, RUNNABLE, RUNNING], [-1, 0, 0],
                     [1, 2, 3], -1, None, map[0 := 2], 4)
    case 16 => Three([User, Yield2, Waking(Proc(0), 0, 1, ToZombie)], [RUNNING, RUNNABLE, RUNNING], [-1, 0, 0],
                     [1, 2, 3], -1, None, map[0 := 2], 4)
    case 17 => Three([User, Yield2, Waking(Proc(0), 0, 2, ToZombie)], [RUNNING, RUNNABLE, RUNNING], [-1, 0, 0],
                     [1, 2, 3], -1, None, map[0 := 2], 4)
    case 18 => Three([User, Yield2, Waking(Proc(0), 0, 3, ToZombie)], [RUNNING, RUNNABLE, RUNNING], [-1, 0, 0],
                     [1, 2, 3], -1, None, map[0 := 2], 4)
    case 19 => Three([User, Yield2, Exit1], [RUNNING, RUNNABLE, RUNNING], [-1, 0, 0], [1, 2, 3], -1, None, map[0 := 2],
                     4)
    case 20 => Three([User, Yield2, Exit2], [RUNNING, RUNNABLE, ZOMBIE], [-1, 0, 0], [1, 2, 3], 2, None, map[0 := 2], 4)
    case 21 => Three([User, Yield2, Exit3], [RUNNING, RUNNABLE, ZOMBIE], [-1, 0, 0], [1, 2, 3], 2, None, map[], 4)
    case 22 => Three([User, Yield2, Dead], [RUNNING, RUNNABLE, ZOMBIE], [-1, 0, 0], [1, 2, 3], -1, None, map[], 4)
    case 23 => Three([Scan(Any, 0, false), Yield2, Dead], [RUNNING, RUNNABLE, ZOMBIE], [-1, 0, 0], [1, 2, 3], -1, None,
                     map[0 := 0], 4)
    case 24 => Three([Scan(Any, 1, false), Yield2, Dead], [RUNNING, RUNNABLE, ZOMBIE], [-1, 0, 0], [1, 2, 3], -1, None,
                     map[0 := 0], 4)
    case 25 => Three([Sleep1(Proc(0), 0, ToWait(Any)), Yield2, Dead], [RUNNING, RUNNABLE, ZOMBIE], [-1, 0, 0],
                     [1, 2, 3], 0, None, map[0 := 0], 4)
    case 26 => Three([Sleep2(Proc(0), 0, ToWait(Any)), Yield2, Dead], [RUNNING, RUNNABLE, ZOMBIE], [-1, 0, 0],
                     [1, 2, 3], 0, None, map[], 4)
    case 27 => Three([Sleep3(Proc(0), 0, ToWait(Any)), Yield2, Dead], [SLEEPING, RUNNABLE, ZOMBIE], [-1, 0, 0],
                     [1, 2, 3], 0, Proc(0), map[], 4)
    case _ => Three([Sleep4(Proc(0), 0, ToWait(Any)), Yield2, Dead], [SLEEPING, RUNNABLE, ZOMBIE], [-1, 0, 0],
                    [1, 2, 3], -1, Proc(0), map[], 4)
  }

  function TraceEvent(k: nat): Event {
    [Dispatch(0), Step(0), Fork(0, 1), Step(0), Step(0), Fork(0, 2), Step(0), Step(0), Dispatch(2), Step(2), Exit(2),
     Step(2), Step(2), Step(2), Step(2), Step(2), Step(2), Step(2), Step(2), Step(2), Step(2), Step(2), Wait(0, Any),
     Step(0), Step(0), Step(0), Step(0), Step(0)][if k < 28 then k else 0]
  }

  lemma Trace0(k: nat)
    requires 0 <= k < 3
    ensures Steps(TraceState(k), TraceEvent(k), TraceState(k + 1))
  {
  }

  lemma Trace3(k: nat)
    requires 3 <= k < 6
    ensures Steps(TraceState(k), TraceEvent(k), TraceState(k + 1))
  {
  }

  lemma Trace6(k: nat)
    requires 6 <= k < 9
    ensures Steps(TraceState(k), TraceEvent(k), TraceState(k + 1))
  {
  }

  lemma Trace9(k: nat)
    requires 9 <= k < 12
    ensures Steps(TraceState(k), TraceEvent(k), TraceState(k + 1))
  {
  }

  lemma Trace12(k: nat)
    requires 12 <= k < 15
    ensures Steps(TraceState(k), TraceEvent(k), TraceState(k + 1))
  {
  }

  lemma Trace15(k: nat)
    requires 15 <= k < 18
    ensures Steps(TraceState(k), TraceEvent(k), TraceState(k + 1))
  {
  }

  lemma Trace18(k: nat)
    requires 18 <= k < 21
    ensures Steps(TraceState(k), TraceEvent(k), TraceState(k + 1))
  {
  }

  lemma Trace21(k: nat)
    requires 21 <= k < 24
    ensures Steps(TraceState(k), TraceEvent(k), TraceState(k + 1))
  {
  }

  lemma Trace24(k: nat)
    requires 24 <= k < 27
    ensures Steps(TraceState(k), TraceEvent(k), TraceState(k + 1))
  {
  }

  lemma Trace27(k: nat)
    requires 27 <= k < 28
    ensures Steps(TraceState(k), TraceEvent(k), TraceState(k + 1))
  {
  }

  lemma {:induction false} Trace(k: nat) returns (evs: seq<Event>)
    requires k <= 28
    ensures Reaches(TraceState(0), evs, TraceState(k))
  {
    evs := [];
    if k > 0 {
      evs := Trace(k - 1);
      if k - 1 < 3 {
        Trace0(k - 1);
      } else if k - 1 < 6 {
        Trace3(k - 1);
      } else if k - 1 < 9 {
        Trace6(k - 1);
      } else if k - 1 < 12 {
        Trace9(k - 1);
      } else if k - 1 < 15 {
        Trace12(k - 1);
      } else if k - 1 < 18 {
        Trace15(k - 1);
      } else if k - 1 < 21 {
        Trace18(k - 1);
      } else if k - 1 < 24 {
        Trace21(k - 1);
      } else if k - 1 < 27 {
        Trace24(k - 1);
      } else {
        Trace27(k - 1);
      }
      Runs.Extend(Steps, TraceState(0), evs, TraceState(k - 1), TraceEvent(k - 1), TraceState(k));
      evs := evs + [TraceEvent(k - 1)];
    }
  }

  /** `init` sleeps in `waitpid(-1)` beside a child that is a ZOMBIE. */
  ghost predicate SleepsBesideZombie(s: State) {
    && Shape(s) && |s.pc| == 3 && WAIT_LOCK !in s.held
    && s.pc[0] == Sleep4(Proc(0), WAIT_LOCK, ToWait(Any)) && s.st[0] == SLEEPING
    && s.parent[1] == 0 && s.parent[2] == 0 && s.st[1] != ZOMBIE && s.st[2] == ZOMBIE
  }

  lemma TraceEnds(k: nat)
    requires k == 28
    ensures Start(TraceState(0)) && SleepsBesideZombie(TraceState(k))
  {
  }

  lemma SleepsAt(k: nat) returns (s0: State, evs: seq<Event>, s: State)
    requires k == 28
    ensures Start(s0) && Reaches(s0, evs, s) && SleepsBesideZombie(s)
  {
    TraceEnds(k);
    s0, s := TraceState(0), TraceState(k);
    evs := Trace(k);
  }

  /** `waitpid(-1)` does not wait for any child: while it waits for the first child in the table,
      another child can be a ZOMBIE. */
  lemma AnyChildCanBeForgotten() returns (s0: State, evs: seq<Event>, s: State)
    ensures Start(s0) && Reaches(s0, evs, s) && SleepsBesideZombie(s)
  {
    s0, evs, s := SleepsAt(28);
  }

  ghost function FirstChild(s: State, i: nat, c: nat): (d: nat)
    requires Shape(s) && c < |s.pc| && s.parent[c] == i
    ensures d <= c && s.parent[d] == i && forall b :: 0 <= b < d ==> s.parent[b] != i
  {
    if exists b :: 0 <= b < c && s.parent[b] == i then
      var b :| 0 <= b < c && s.parent[b] == i;
      FirstChild(s, i, b)
    else c
  }

  // ---- When waitpid(-1) sleeps ----

  /** The children of `i` are the same, and so are those that have exited. */
  ghost predicate SameChildren(s: State, t: State, i: nat) {
    && Shape(s) && Shape(t) && |t.pc| == |s.pc|
    && forall c :: 0 <= c < |s.pc| ==>
         (s.parent[c] == i <==> t.parent[c] == i) && (s.parent[c] == i ==> (s.st[c] == ZOMBIE <==> t.st[c] == ZOMBIE))
  }

  /** `i` holds `wait_lock`, so nobody else does. */
  ghost predicate HasWaitLock(s: State, i: nat) {
    Shape(s) && LocksOk(s) && i < |s.pc| && LockOf(s.pc[i]) == 0
  }

  lemma OtherWakes(s: State, k: nat, i: nat)
    requires HasWaitLock(s, i) && k < |s.pc| && k != i && s.pc[k].Waking?
    ensures var t := DoWaking(s, k, s.pc[k].c, s.pc[k].l, s.pc[k].q, s.pc[k].k);
            SameChildren(s, t, i) && t.pc[i] == s.pc[i]
  {
  }

  lemma OtherFork2(s: State, k: nat, i: nat)
    requires HasWaitLock(s, i) && ForksOk(s) && k < |s.pc| && k != i && CanStep(s, k) && s.pc[k].Fork2?
    ensures SameChildren(s, DoStep(s, k), i) && DoStep(s, k).pc[i] == s.pc[i]
  {
    assert Forking(s.pc[k]) && s.pc[s.pc[k].j] == Idle && s.st[s.pc[k].j] == USED;
  }

  lemma OtherMoves(s: State, k: nat, i: nat)
    requires HasWaitLock(s, i) && StatesOk(s) && k < |s.pc| && k != i && CanStep(s, k) && LockOf(s.pc[k]) != 0
    requires !s.pc[k].Waking? && !s.pc[k].Fork2?
    ensures SameChildren(s, DoStep(s, k), i) && DoStep(s, k).pc[i] == s.pc[i]
  {
  }

  lemma OtherSteps(s: State, k: nat, i: nat)
    requires HasWaitLock(s, i) && StatesOk(s) && ForksOk(s) && k < |s.pc| && k != i && CanStep(s, k)
    ensures SameChildren(s, DoStep(s, k), i) && DoStep(s, k).pc[i] == s.pc[i]
  {
    assert LockOf(s.pc[k]) != 0;
    match s.pc[k] {
      case Waking(c, l, q, after) => OtherWakes(s, k, i);
      case Fork2(j) => OtherFork2(s, k, i);
      case _ => OtherMoves(s, k, i);
    }
  }

  lemma OtherForks(s: State, e: Event, i: nat)
    requires HasWaitLock(s, i) && PidsOk(s) && Can(s, e) && e.Fork? && e.i != i
    ensures SameChildren(s, Do(s, e), i) && Do(s, e).pc[i] == s.pc[i]
  {
  }

  lemma OtherForkFails(s: State, e: Event, i: nat)
    requires HasWaitLock(s, i) && ForksOk(s) && Can(s, e) && e.ForkFails? && e.i != i
    ensures SameChildren(s, Do(s, e), i) && Do(s, e).pc[i] == s.pc[i]
  {
    var j := s.pc[e.i].j;
    assert Forking(s.pc[e.i]) && s.pc[j] == Idle && s.parent[j] == -1;
  }

  lemma OtherCalls(s: State, e: Event, i: nat)
    requires HasWaitLock(s, i) && StatesOk(s) && Can(s, e) && !e.Step? && !e.Fork? && !e.ForkFails?
    requires e.Kill? || e.i != i
    ensures SameChildren(s, Do(s, e), i) && Do(s, e).pc[i] == s.pc[i]
  {
  }

  /** While `i` holds `wait_lock`, nobody else changes its children. */
  lemma OthersLeaveChildren(s: State, e: Event, i: nat)
    requires Inv(s) && HasWaitLock(s, i) && Can(s, e) && (e.Kill? || e.i != i)
    ensures SameChildren(s, Do(s, e), i) && Do(s, e).pc[i] == s.pc[i]
  {
    if e.Step? {
      OtherSteps(s, e.i, i);
    } else if e.Fork? {
      OtherForks(s, e, i);
    } else if e.ForkFails? {
      OtherForkFails(s, e, i);
    } else {
      OtherCalls(s, e, i);
    }
  }

  ghost predicate Scanning(t: State, i: nat) { i < |t.pc| && t.pc[i].Scan? }

  /** What holds all through the scan of a `waitpid(-1)` that was called in state `s`. */
  ghost predicate ScansAny(s: State, t: State, i: nat) {
    Inv(t) && i < |t.pc| && t.pc[i].Scan? && t.pc[i].w.Any? && SameChildren(s, t, i)
  }

  lemma InvKept(x: State, e: Event, y: State)
    requires Inv(x) && Steps(x, e, y)
    ensures Inv(y)
  {
    EventKeeps(x, e);
  }

  lemma OwnScan(x: State, e: Event, i: nat)
    requires Shape(x) && Can(x, e) && !e.Kill? && e.i == i && Scanning(x, i) && x.pc[i].w.Any? && Scanning(Do(x, e), i)
    ensures SameChildren(x, Do(x, e), i) && Do(x, e).pc[i].w.Any?
  {
  }

  lemma ChildrenKept(x: State, e: Event, y: State, i: nat)
    requires Inv(x) && Scanning(x, i) && x.pc[i].w.Any? && Steps(x, e, y) && Scanning(y, i)
    ensures SameChildren(x, y, i) && y.pc[i].w.Any?
  {
    if e.Kill? || e.i != i {
      OthersLeaveChildren(x, e, i);
    } else {
      OwnScan(x, e, i);
    }
  }

  lemma ScanGoesOn(s: State, x: State, e: Event, y: State, i: nat)
    requires ScansAny(s, x, i) && Steps(x, e, y) && Scanning(y, i)
    ensures ScansAny(s, y, i)
  {
    InvKept(x, e, y);
    ChildrenKept(x, e, y, i);
  }

  lemma {:induction false} ScanThroughout(s: State, m: State, evs: seq<Event>, x: State, i: nat)
    requires ScansAny(s, m, i) && Runs.ReachesIn(Steps, (t: State) => Scanning(t, i), m, evs, x)
    ensures ScansAny(s, x, i)
    decreases |evs|
  {
    if evs != [] {
      var p := (t: State) => Scanning(t, i);
      var n :| Runs.ReachesIn(Steps, p, m, Runs.Front(evs), n) && Steps(n, Runs.Last(evs), x);
      ScanThroughout(s, m, Runs.Front(evs), n, i);
      ScanGoesOn(s, n, Runs.Last(evs), x, i);
    }
  }

  /** `c` is the first child of `i` in the table. */
  ghost predicate IsFirst(s: State, i: nat, c: nat) {
    Shape(s) && c < |s.pc| && s.parent[c] == i && forall d :: 0 <= d < c ==> s.parent[d] != i
  }

  ghost predicate FirstLives(s: State, i: nat) { exists c: nat :: IsFirst(s, i, c) && s.st[c] != ZOMBIE }

  lemma ScanLeavesSo(s: State, x: State, y: State, i: nat)
    requires ScansAny(s, x, i) && CanStep(x, i) && y == DoStep(x, i) && !Scanning(y, i)
    ensures i < |y.pc| && y.pc[i] == (if FirstLives(s, i) then Sleep1(Proc(i), WAIT_LOCK, ToWait(Any)) else User)
  {
    var q := x.pc[i].q;
    forall d | 0 <= d < q && d < |x.pc| ensures x.parent[d] != i {
      assert Passed(x, i, Any, d);
    }
    forall c: nat | IsFirst(s, i, c) ensures c == q {
    }
    if q < |x.pc| {
      assert IsFirst(s, i, q);
    }
  }

  /** A `waitpid(-1)` called in state `s`, whose scan ends with the step from `x` to `y`: whatever others do
      meanwhile, it goes to sleep exactly when its first child in the table, as of the call, is no ZOMBIE.  Otherwise
      it returns. */
  lemma AnySleepsExact(s0: State, first: seq<Event>, s: State, m: State, evs: seq<Event>, x: State, y: State, i: nat)
    requires Start(s0) && Reaches(s0, first, s) && Steps(s, Wait(i, Any), m)
    requires Runs.ReachesIn(Steps, (t: State) => Scanning(t, i), m, evs, x)
    requires Steps(x, Step(i), y) && !Scanning(y, i)
    ensures i < |y.pc| && y.pc[i] == (if FirstLives(s, i) then Sleep1(Proc(i), WAIT_LOCK, ToWait(Any)) else User)
  {
    RunInv(s0, first, s);
    EventKeeps(s, Wait(i, Any));
    ScanThroughout(s, m, evs, x, i);
    ScanLeavesSo(s, x, y, i);
  }

  /** It overlooks a ZOMBIE only behind a child that comes first in the table and has not exited. */
  lemma ForgottenOnlyBehindFirst(s0: State, evs: seq<Event>, s: State, i: nat, c: nat)
    requires Start(s0) && Reaches(s0, evs, s) && WAIT_LOCK !in s.held
    requires Shape(s) && i < |s.pc| && c < |s.pc| && s.pc[i].Sleep4? && s.st[i] == SLEEPING && s.pc[i].k == ToWait(Any)
    requires s.parent[c] == i && s.st[c] == ZOMBIE
    ensures FirstChild(s, i, c) < c && s.st[FirstChild(s, i, c)] != ZOMBIE
  {
    NoForgottenZombie(s0, evs, s, i, FirstChild(s, i, c));
  }

  /** A caller with a single child is never left waiting once that child has exited. */
  lemma OnlyChildIsSeen(s0: State, evs: seq<Event>, s: State, i: nat, c: nat)
    requires Start(s0) && Reaches(s0, evs, s) && WAIT_LOCK !in s.held
    requires Shape(s) && i < |s.pc| && c < |s.pc| && s.pc[i].Sleep4? && s.st[i] == SLEEPING && s.pc[i].k == ToWait(Any)
    requires s.parent[c] == i && forall d :: 0 <= d < |s.pc| && s.parent[d] == i ==> d == c
    ensures s.st[c] != ZOMBIE
  {
    NoForgottenZombie(s0, evs, s, i, c);
  }
}
