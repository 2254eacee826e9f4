/** Any number of semaphores on top of the scheduler: who sleeps, who is woken and how many waits end. */
module KernelSemaphores {
  import opened Sequences
  import opened SchedulerModel
  import opened SchedulerInvariant
  import opened SchedulerSteps
  import opened SchedulerExit
  import opened SchedulerRuns
  import opened SemaphoreModel

  /** A semaphore with its history: the pids that went to sleep on it and the pids it woke, in order. */
  datatype Record = Record(sem: Sem, initial: nat, posts: nat, completed: nat, arrived: seq<nat>, woken: seq<nat>)

  datatype Kernel = Kernel(sched: Sched, sems: map<nat, Record>)

  datatype Call =
    | Sys(event: Event)
    | SemOpen(id: nat, value: int)
    | SemWait(id: nat)
    | SemPost(id: nat)
    | SemTryWait(id: nat)

  ghost predicate Asleep(s: Sched, p: nat) {
    p in s.table && s.table[p].state != Zombie && s.table[p].path == InSemWait
  }

  /** A process waiting on a semaphore is not killed, and only a post wakes it. */
  ghost predicate CallGuard(k: Kernel, c: Call) {
    match c
    case Sys(e) => Guard(k.sched, e) && !e.SemSleep? && !e.SemPostTo? && (e.Kill? ==> !Asleep(k.sched, e.pid))
    case SemOpen(id, value) => id !in k.sems && value >= 0
    case SemWait(id) => id in k.sems && MaySleep(k.sched)
    case SemPost(id) => id in k.sems
    case SemTryWait(id) => id in k.sems
  }

  function Do(k: Kernel, c: Call): Kernel {
    match c
    case Sys(e) => k.(sched := Next(k.sched, e))
    case SemOpen(id, value) =>
      if id in k.sems || value < 0 then k else k.(sems := k.sems[id := Record(Sem(value, []), value, 0, 0, [], [])])
    case SemWait(id) => if id in k.sems && k.sched.current.Some? then DoWait(k, id, k.sched.current.value) else k
    case SemPost(id) => if id in k.sems then DoPost(k, id) else k
    case SemTryWait(id) =>
      if id !in k.sems then k else
        var r := k.sems[id];
        var (m, ok) := TryWait(r.sem);
        k.(sems := k.sems[id := r.(sem := m, completed := r.completed + if ok then 1 else 0)])
  }

  function DoWait(k: Kernel, id: nat, pid: nat): Kernel
    requires id in k.sems
  {
    var r := k.sems[id];
    match WaitOn(r.sem, pid)
    case Granted(m) => k.(sems := k.sems[id := r.(sem := m, completed := r.completed + 1)])
    case MustSleep(m) => Kernel(Next(k.sched, SemSleep), k.sems[id := r.(sem := m, arrived := r.arrived + [pid])])
  }

  function DoPost(k: Kernel, id: nat): Kernel
    requires id in k.sems
  {
    var r := k.sems[id];
    var p := PostTo(r.sem);
    match p.woken
    case None => k.(sems := k.sems[id := r.(sem := p.sem, posts := r.posts + 1)])
    case Some(pid) =>
      Kernel(Next(k.sched, SemPostTo(pid)),
             k.sems[id := r.(sem := p.sem, posts := r.posts + 1, completed := r.completed + 1, woken := r.woken + [pid])])
  }

  // ----- invariant -----

  /** Wake-ups are first in, first out, and completed waits are the tokens given out. */
  ghost predicate RecordOk(r: Record) {
    && SemOk(r.sem)
    && r.arrived == r.woken + r.sem.waiting
    && r.completed == r.initial + r.posts - Tokens(r.sem)
  }

  ghost predicate Waits(sems: map<nat, Record>, id: nat, p: nat) {
    id in sems && p in sems[id].sem.waiting
  }

  /** The processes asleep on semaphores are exactly the entries of the queues, each in one queue. */
  ghost predicate QueuesOk(s: Sched, sems: map<nat, Record>) {
    && (forall id, p :: Waits(sems, id, p) ==> Asleep(s, p))
    && (forall p :: Asleep(s, p) ==> exists id :: Waits(sems, id, p))
    && (forall id, other, p :: Waits(sems, id, p) && Waits(sems, other, p) ==> id == other)
  }

  ghost predicate RecordsOk(sems: map<nat, Record>) {
    forall id <- sems :: RecordOk(sems[id])
  }

  ghost predicate KernelInv(k: Kernel) {
    Inv(k.sched) && QueuesOk(k.sched, k.sems) && RecordsOk(k.sems)
  }

  // ----- who is asleep after a scheduler event -----

  ghost predicate SameSleepers(s: Sched, r: Sched) {
    forall p :: Asleep(r, p) <==> Asleep(s, p)
  }

  /** Also `c` is asleep now. */
  ghost predicate OneMoreSleeper(s: Sched, r: Sched, c: nat) {
    forall p :: Asleep(r, p) <==> Asleep(s, p) || p == c
  }

  ghost predicate OneLessSleeper(s: Sched, r: Sched, c: nat) {
    forall p :: Asleep(r, p) <==> Asleep(s, p) && p != c
  }

  lemma DispatchSleepers(s: Sched)
    requires ListedOk(s.table, s.ready, s.blocked) && IdleOk(s.table)
    ensures SameSleepers(s, Dispatch(s))
  {
    var (c, q) := PickQueue(s.ready, s.credits);
    if q < PRIO {
      assert s.ready[q][0] in s.ready[q];
    }
    hide PickQueue;
  }

  lemma SleepSleepers(s: Sched, c: nat, p: Process)
    requires Inv(s) && s.current == Some(c) && c != IDLE && p.state == Blocked && !Asleep(s, c)
    ensures if p.path == InSemWait then OneMoreSleeper(s, Dispatch(Slept(s, c, p)), c)
            else SameSleepers(s, Dispatch(Slept(s, c, p)))
  {
    hide Inv, Dispatch, ListedOk, PlacedOk, IdleOk, SameSleepers, OneMoreSleeper, Asleep, Slept;
    var x := Slept(s, c, p);
    SleptSleepers(s, c, p);
    SleptParts(s, c, p);
    DispatchSleepers(x);
    if p.path == InSemWait {
      ComposeMore(s, x, Dispatch(x), c);
    } else {
      Compose(s, x, Dispatch(x));
    }
  }

  lemma SleptSleepers(s: Sched, c: nat, p: Process)
    requires p.state == Blocked && !Asleep(s, c)
    ensures if p.path == InSemWait then OneMoreSleeper(s, Slept(s, c, p), c) else SameSleepers(s, Slept(s, c, p))
  {
  }

  lemma SleptParts(s: Sched, c: nat, p: Process)
    requires Inv(s) && s.current == Some(c) && c != IDLE && p.state == Blocked
    ensures var x := Slept(s, c, p); ListedOk(x.table, x.ready, x.blocked) && IdleOk(x.table)
  {
    RunningParts(s, c);
    assert Slept(s, c, p).table == s.table[c := p];
    hide Inv, ListedOk, PlacedOk, IdleOk, Slept;
    SleepPlaced(s, c, p);
    IdleKept(s.table, c, p);
  }

  lemma Compose(s: Sched, x: Sched, y: Sched)
    requires SameSleepers(s, x) && SameSleepers(x, y)
    ensures SameSleepers(s, y)
  {
  }

  lemma ComposeMore(s: Sched, x: Sched, y: Sched, c: nat)
    requires OneMoreSleeper(s, x, c) && SameSleepers(x, y)
    ensures OneMoreSleeper(s, y, c)
  {
  }

  lemma RunningParts(s: Sched, c: nat)
    requires Inv(s) && s.current == Some(c)
    ensures c in s.table && IdleOk(s.table) && ListedOk(s.table, s.ready, s.blocked)
    ensures PlacedOk(s.table, s.ready, s.blocked, Some(c))
    ensures c != IDLE ==> s.table[c].state == Running && 1 <= s.table[c].quantum <= QUANTUM
  {
  }

  lemma IdleKept(t: Table, c: nat, p: Process)
    requires IdleOk(t) && c != IDLE
    ensures IdleOk(t[c := p])
  {
  }

  lemma AsleepIsBlocked(s: Sched, p: nat)
    requires Inv(s) && Asleep(s, p)
    ensures s.table[p].state == Blocked && p in s.blocked && p != IDLE && s.current != Some(p)
  {
    assert PathOk(s.table, p);
    assert IdleOk(s.table);
  }

  lemma CurrentAwake(s: Sched, c: nat)
    requires Inv(s) && s.current == Some(c)
    ensures !Asleep(s, c)
  {
    if Asleep(s, c) {
      AsleepIsBlocked(s, c);
    }
  }

  lemma TickSleepers(s: Sched)
    requires Inv(s)
    ensures SameSleepers(s, Schedule(s))
  {
    if s.current.None? || s.current.value == IDLE {
      assert ListedOk(s.table, s.ready, s.blocked) && IdleOk(s.table);
      hide Inv, Dispatch;
      DispatchSleepers(s);
    } else {
      RunningParts(s, s.current.value);
      hide Inv, Schedule;
      TurnSleepers(s, s.current.value);
    }
  }

  lemma TurnSleepers(s: Sched, c: nat)
    requires s.current == Some(c) && c != IDLE && c in s.table
    requires s.table[c].state == Running && 1 <= s.table[c].quantum <= QUANTUM
    requires IdleOk(s.table) && ListedOk(s.table, s.ready, s.blocked) && PlacedOk(s.table, s.ready, s.blocked, Some(c))
    ensures SameSleepers(s, Schedule(s))
  {
    TickCases(s, c);
    hide ListedOk, PlacedOk, IdleOk, Schedule, Dispatch;
    if s.table[c].quantum == 1 {
      PreemptPlaced(s, c);
      IdleKept(s.table, c, s.table[c].(quantum := 0, state := Ready));
      DispatchSleepers(Preempted(s, c));
      hide Enqueue;
    }
  }

  lemma SameButQuantum(s: Sched, y: Sched, c: nat)
    requires c in s.table && y.table == s.table[c := s.table[c].(quantum := 1)]
    ensures SameSleepers(s, y)
  {
  }

  lemma YieldSleepers(s: Sched)
    requires Inv(s) && s.current.Some?
    ensures SameSleepers(s, Yield(s))
  {
    var c := s.current.value;
    RunningParts(s, c);
    hide Inv, Schedule, IdleOk, ListedOk, PlacedOk;
    QuantumInv(s, c);
    var y := s.(table := s.table[c := s.table[c].(quantum := 1)]);
    SameButQuantum(s, y, c);
    hide SameSleepers, Asleep;
    TickSleepers(y);
    Compose(s, y, Schedule(y));
  }

  lemma NiceSleepers(s: Sched, pid: nat, prio: nat)
    requires Inv(s) && MayRenice(s, pid, prio)
    ensures SameSleepers(s, Nice(s, pid, prio))
  {
    hide Inv, Dispatch, Enqueue, RemoveReady;
  }

  lemma BlockSleepers(s: Sched, pid: nat)
    requires Inv(s) && s.current.Some? && MayBlock(s, pid)
    ensures SameSleepers(s, Block(s, pid))
  {
    if s.current == Some(pid) {
      RunningParts(s, pid);
      CurrentAwake(s, pid);
      hide Inv, Block, Dispatch, IdleOk, ListedOk, PlacedOk, SameSleepers;
      BlockCurrentIsSleep(s, pid);
      SleepSleepers(s, pid, s.table[pid].(state := Blocked));
    } else {
      hide Inv, RemoveReady;
    }
  }

  lemma UnblockSleepers(s: Sched, pid: nat)
    requires pid in s.table ==> s.table[pid].state != Zombie
    ensures SameSleepers(s, Unblock(s, pid))
  {
    hide Enqueue;
  }

  lemma ExitSleepers(s: Sched, pid: nat)
    requires Inv(s) && pid in s.table && s.table[pid].state != Zombie && !Asleep(s, pid)
    ensures SameSleepers(s, Exited(s, pid))
  {
    hide ListedOk, PlacedOk, ParentsOk, PathsOk, ExitTable, Exited;
    ExitHasShape(s.table, pid);
    ReapedAreZombies(s.table, pid);
    ExitedTable(s, pid);
    hide ListsOk;
    var u := ExitTable(s.table, pid);
    forall p ensures Asleep(Exited(s, pid), p) <==> Asleep(s, p) {
      if p in u {
        assert ExitEntry(s.table, u, pid, p);
      }
    }
  }

  lemma ReapedAreZombies(t: Table, pid: nat)
    requires ListsOk(t) && pid in t
    ensures forall c <- t[pid].reaped :: c in t && t[c].state == Zombie
  {
  }

  lemma ExitedTable(s: Sched, pid: nat)
    requires pid in s.table
    ensures Exited(s, pid).table == ExitTable(s.table, pid)
  {
  }

  /** What follows an exit, waking the parent and dispatching, puts nobody to sleep and wakes no sleeper. */
  lemma AfterExit(s: Sched, pid: nat)
    requires Inv(s) && pid in s.table && pid != IDLE && s.table[pid].state != Zombie
    ensures SameSleepers(Exited(s, pid), Terminate(s, pid))
  {
    TerminateIs(s, pid);
    ExitedInv(s, pid);
    var x := Exited(s, pid);
    var y := if WakesParent(s.table, pid) then Unblock(x, s.table[pid].parent.value) else x;
    KillWakes(s, pid);
    hide Exited, Terminate, Dispatch, WakesParent, MayUnblock, Unblock, Inv;
    PlacedOf(y);
    hide SameSleepers;
    DispatchSleepers(y);
    Compose(x, y, Dispatch(y));
  }

  lemma KillSleepers(s: Sched, pid: nat)
    requires Inv(s) && MayTerminate(s, pid) && !Asleep(s, pid)
    ensures SameSleepers(s, Terminate(s, pid))
  {
    if pid in s.table {
      hide Inv, Exited, Terminate, SameSleepers;
      AfterExit(s, pid);
      ExitSleepers(s, pid);
      Compose(s, Exited(s, pid), Terminate(s, pid));
    }
  }

  lemma KilledIsAwake(s: Sched, pid: nat)
    requires Inv(s) && pid in s.table && pid != IDLE && s.table[pid].state != Zombie
    ensures !Asleep(Terminate(s, pid), pid)
  {
    AfterExit(s, pid);
    ExitHasShape(s.table, pid);
    hide Inv, ExitTable, Terminate, ListsOk, ParentsOk;
    var u := ExitTable(s.table, pid);
    assert pid in u ==> ExitEntry(s.table, u, pid, pid);
  }

  lemma PlacedOf(s: Sched)
    requires Inv(s)
    ensures ListedOk(s.table, s.ready, s.blocked) && IdleOk(s.table)
  {
  }

  lemma KillWakes(s: Sched, pid: nat)
    requires Inv(s) && pid in s.table && pid != IDLE && s.table[pid].state != Zombie && Inv(Exited(s, pid))
    ensures var x := Exited(s, pid);
            var y := if WakesParent(s.table, pid) then Unblock(x, s.table[pid].parent.value) else x;
            Inv(y) && SameSleepers(x, y)
  {
    if WakesParent(s.table, pid) {
      WokenParent(s, pid);
      hide Inv, Exited;
      UnblockInv(Exited(s, pid), s.table[pid].parent.value);
      UnblockSleepers(Exited(s, pid), s.table[pid].parent.value);
    }
    hide Inv, Exited;
  }

  lemma ReapSleepers(s: Sched, q: nat, pid: nat)
    requires q in s.table && pid in s.table && s.table[pid].state == Zombie && s.table[q].path != InSemWait
    ensures SameSleepers(s, Reap(s, q, pid))
  {
  }

  lemma WaitSleepers(s: Sched, pid: nat)
    requires Inv(s) && MayWait(s, pid) && InUserCode(s)
    ensures SameSleepers(s, WaitPid(s, pid))
  {
    if s.current.Some? && pid in s.table {
      var c := s.current.value;
      if s.table[pid].state == Zombie {
        ReapSleepers(s, c, pid);
        hide Inv, Reap;
      } else {
        assert c != IDLE;
        RunningParts(s, c);
        CurrentAwake(s, c);
        hide Inv, WaitPid, Dispatch, IdleOk, ListedOk, PlacedOk, SameSleepers;
        WaitIsSleep(s, c, pid);
        SleepSleepers(s, c, s.table[c].(waitingPid := pid, path := InWaitPid(pid), state := Blocked));
      }
    } else {
      hide Inv, Block;
    }
  }

  lemma ResumeSleepers(s: Sched)
    requires Inv(s)
    ensures SameSleepers(s, Resume(s))
  {
    if s.current.Some? && s.table[s.current.value].path.InWaitPid? {
      ResumeFindsZombie(s);
      ReapSleepers(s, s.current.value, s.table[s.current.value].path.child);
    }
    hide Inv, Reap;
  }

  lemma CreateSleepers(s: Sched)
    requires Inv(s)
    ensures SameSleepers(s, Create(s))
  {
    assert s.nextPid !in s.table;
    hide Inv, Enqueue;
  }

  /** Apart from a semaphore's own steps and the killing of a sleeper, no event changes who is asleep. */
  lemma EventSleepers(s: Sched, e: Event)
    requires Inv(s) && Guard(s, e) && !e.SemSleep? && !e.SemPostTo? && (e.Kill? ==> !Asleep(s, e.pid))
    ensures SameSleepers(s, Next(s, e))
  {
    CurrentListed(s);
    if e.Tick? || e.YieldNow? || e.CreateProcess? || e.SetPriority? || e.Kill? {
      TimedSleepers(s, e);
    } else {
      hide Inv, SameSleepers, Block, Unblock, WaitPid, Resume, MayBlock, MayWait, InUserCode, Asleep;
      match e
      case BlockPid(pid) => BlockSleepers(s, pid);
      case UnblockPid(pid) => UnblockSleepers(s, pid);
      case WaitFor(pid) => WaitSleepers(s, pid);
      case ResumeWait => ResumeSleepers(s);
    }
  }

  lemma CurrentListed(s: Sched)
    requires Inv(s)
    ensures s.current.Some? ==> s.current.value in s.table
  {
  }

  lemma TimedSleepers(s: Sched, e: Event)
    requires Inv(s) && Guard(s, e) && (e.Kill? ==> !Asleep(s, e.pid))
    requires s.current.Some? ==> s.current.value in s.table
    requires e.Tick? || e.YieldNow? || e.CreateProcess? || e.SetPriority? || e.Kill?
    ensures SameSleepers(s, Next(s, e))
  {
    hide Inv, SameSleepers, Schedule, Yield, Create, Terminate, Nice, MayTerminate, MayRenice, Asleep;
    match e
    case Tick => TickSleepers(s);
    case YieldNow => YieldSleepers(s);
    case CreateProcess => CreateSleepers(s);
    case SetPriority(pid, prio) => NiceSleepers(s, pid, prio);
    case Kill(pid) => KillSleepers(s, pid);
  }

  lemma SemSleepSleepers(s: Sched)
    requires Inv(s) && MaySleep(s)
    ensures Inv(Next(s, SemSleep)) && OneMoreSleeper(s, Next(s, SemSleep), s.current.value)
  {
    var c := s.current.value;
    NextSemSleep(s);
    RunningParts(s, c);
    CurrentAwake(s, c);
    assert s.table[c].path == UserCode;
    hide Inv, SemBlock, Next, Dispatch, IdleOk, ListedOk, PlacedOk, OneMoreSleeper, Asleep, MaySleep;
    SemBlockInv(s);
    SemBlockIsSleep(s, c);
    SleepSleepers(s, c, s.table[c].(path := InSemWait, state := Blocked, quantum := 1));
  }

  lemma NextSemSleep(s: Sched)
    requires MaySleep(s)
    ensures Next(s, SemSleep) == SemBlock(s) && s.current.Some? && s.current.value in s.table && s.current.value != IDLE
  {
    hide SemBlock;
  }

  lemma SemPostSleepers(s: Sched, pid: nat)
    requires Asleep(s, pid)
    ensures Next(s, SemPostTo(pid)) == SemWake(s, pid) && OneLessSleeper(s, SemWake(s, pid), pid)
  {
    SemWakeIsWake(s, pid);
    hide SemWake, Enqueue;
  }

  // ----- every call keeps the invariant -----

  lemma AwakeWaitsNowhere(k: Kernel)
    requires KernelInv(k) && MaySleep(k.sched)
    ensures !Asleep(k.sched, k.sched.current.value)
    ensures forall id <- k.sems :: k.sched.current.value !in k.sems[id].sem.waiting
  {
    var c := k.sched.current.value;
    hide Inv, RecordsOk;
    forall id | id in k.sems ensures c !in k.sems[id].sem.waiting {
      assert Waits(k.sems, id, c) ==> Asleep(k.sched, c);
    }
  }

  lemma RecordsUpdate(sems: map<nat, Record>, id: nat, r: Record)
    requires RecordsOk(sems) && RecordOk(r)
    ensures RecordsOk(sems[id := r])
  {
  }

  lemma GrantQueues(s: Sched, s': Sched, sems: map<nat, Record>, id: nat, r: Record)
    requires QueuesOk(s, sems) && SameSleepers(s, s')
    requires r.sem.waiting == if id in sems then sems[id].sem.waiting else []
    ensures QueuesOk(s', sems[id := r])
  {
    var sems' := sems[id := r];
    assert forall i, p :: Waits(sems', i, p) <==> Waits(sems, i, p);
    forall p | Asleep(s', p) ensures exists i :: Waits(sems', i, p) {
      assert Asleep(s, p);
      var i :| Waits(sems, i, p);
      assert Waits(sems', i, p);
    }
  }

  lemma SleepQueues(s: Sched, s': Sched, sems: map<nat, Record>, id: nat, r: Record, c: nat)
    requires QueuesOk(s, sems) && id in sems && r.sem.waiting == sems[id].sem.waiting + [c] && !Asleep(s, c)
    requires OneMoreSleeper(s, s', c)
    ensures QueuesOk(s', sems[id := r])
  {
    var sems' := sems[id := r];
    assert r.sem.waiting[|sems[id].sem.waiting|] == c;
    assert forall i, p :: Waits(sems', i, p) <==> Waits(sems, i, p) || (i == id && p == c);
    forall p | Asleep(s', p) ensures exists i :: Waits(sems', i, p) {
      if p == c {
        assert Waits(sems', id, p);
      } else {
        var i :| Waits(sems, i, p);
        assert Waits(sems', i, p);
      }
    }
  }

  lemma WakeQueues(s: Sched, s': Sched, sems: map<nat, Record>, id: nat, r: Record, c: nat)
    requires QueuesOk(s, sems) && id in sems && sems[id].sem.waiting == [c] + r.sem.waiting && c !in r.sem.waiting
    requires OneLessSleeper(s, s', c)
    ensures QueuesOk(s', sems[id := r])
  {
    var sems' := sems[id := r];
    assert Waits(sems, id, c);
    assert forall i, p :: Waits(sems', i, p) <==> Waits(sems, i, p) && !(i == id && p == c);
    forall p | Asleep(s', p) ensures exists i :: Waits(sems', i, p) {
      var i :| Waits(sems, i, p);
      assert Waits(sems', i, p);
    }
  }

  lemma SysKeeps(k: Kernel, e: Event)
    requires KernelInv(k) && CallGuard(k, Sys(e))
    ensures KernelInv(Do(k, Sys(e)))
  {
    hide Inv, Guard, Next, RecordsOk;
    StepInv(k.sched, e);
    EventSleepers(k.sched, e);
    forall p | Asleep(Next(k.sched, e), p) ensures exists id :: Waits(k.sems, id, p) {
      assert Asleep(k.sched, p);
    }
  }

  lemma RecordAt(sems: map<nat, Record>, id: nat)
    requires RecordsOk(sems) && id in sems
    ensures RecordOk(sems[id])
  {
  }

  lemma WaiterAsleep(s: Sched, sems: map<nat, Record>, id: nat, p: nat)
    requires QueuesOk(s, sems) && Waits(sems, id, p)
    ensures Asleep(s, p)
  {
  }

  lemma WaitKeeps(k: Kernel, id: nat, c: nat)
    requires KernelInv(k) && id in k.sems && MaySleep(k.sched) && k.sched.current == Some(c)
    ensures KernelInv(DoWait(k, id, c))
  {
    hide Inv, Next, QueuesOk, Asleep, MaySleep, RecordsOk, RecordOk, WaitOn, OneMoreSleeper;
    AwakeWaitsNowhere(k);
    var r := k.sems[id];
    RecordAt(k.sems, id);
    RecordAfterWait(r, c);
    match WaitOn(r.sem, c)
    case Granted(m) =>
      var r' := r.(sem := m, completed := r.completed + 1);
      RecordsUpdate(k.sems, id, r');
      AwakeGrant(k.sched, k.sems, id, r');
    case MustSleep(m) =>
      var r' := r.(sem := m, arrived := r.arrived + [c]);
      RecordsUpdate(k.sems, id, r');
      SemSleepSleepers(k.sched);
      SleepQueues(k.sched, Next(k.sched, SemSleep), k.sems, id, r', c);
  }

  lemma AwakeGrant(s: Sched, sems: map<nat, Record>, id: nat, r: Record)
    requires QueuesOk(s, sems)
    requires r.sem.waiting == if id in sems then sems[id].sem.waiting else []
    ensures QueuesOk(s, sems[id := r])
  {
    GrantQueues(s, s, sems, id, r);
    hide QueuesOk;
  }

  lemma RecordAfterWait(r: Record, c: nat)
    requires RecordOk(r) && c !in r.sem.waiting
    ensures match WaitOn(r.sem, c)
            case Granted(m) => m.waiting == r.sem.waiting && RecordOk(r.(sem := m, completed := r.completed + 1))
            case MustSleep(m) => m.waiting == r.sem.waiting + [c] && RecordOk(r.(sem := m, arrived := r.arrived + [c]))
  {
    WaitKeepsOk(r.sem, c);
  }

  lemma RecordAfterPost(r: Record)
    requires RecordOk(r)
    ensures var p := PostTo(r.sem);
            match p.woken
            case None => p.sem.waiting == r.sem.waiting && RecordOk(r.(sem := p.sem, posts := r.posts + 1))
            case Some(w) =>
              && r.sem.waiting == [w] + p.sem.waiting && w !in p.sem.waiting
              && RecordOk(r.(sem := p.sem, posts := r.posts + 1, completed := r.completed + 1, woken := r.woken + [w]))
  {
    PostKeepsOk(r.sem);
  }

  lemma PostKeeps(k: Kernel, id: nat)
    requires KernelInv(k) && id in k.sems
    ensures KernelInv(DoPost(k, id))
  {
    hide Inv, Next, RecordsOk, RecordOk, PostTo, QueuesOk, Asleep, OneLessSleeper;
    var r := k.sems[id];
    RecordAt(k.sems, id);
    RecordAfterPost(r);
    var p := PostTo(r.sem);
    match p.woken
    case None =>
      var r' := r.(sem := p.sem, posts := r.posts + 1);
      RecordsUpdate(k.sems, id, r');
      AwakeGrant(k.sched, k.sems, id, r');
    case Some(w) =>
      var r' := r.(sem := p.sem, posts := r.posts + 1, completed := r.completed + 1, woken := r.woken + [w]);
      RecordsUpdate(k.sems, id, r');
      WaiterAsleep(k.sched, k.sems, id, w);
      WakeKeeps(k.sched, w);
      WakeQueues(k.sched, Next(k.sched, SemPostTo(w)), k.sems, id, r', w);
  }

  lemma WakeKeeps(s: Sched, w: nat)
    requires Inv(s) && Asleep(s, w)
    ensures Inv(Next(s, SemPostTo(w))) && OneLessSleeper(s, Next(s, SemPostTo(w)), w)
  {
    AsleepIsBlocked(s, w);
    SemPostSleepers(s, w);
    hide Inv, Next, OneLessSleeper;
    SemWakeInv(s, w);
  }

  lemma CallKeeps(k: Kernel, c: Call)
    requires KernelInv(k) && CallGuard(k, c)
    ensures KernelInv(Do(k, c))
  {
    hide DoWait, DoPost;
    match c
    case Sys(e) => SysKeeps(k, e);
    case SemWait(id) => WaitKeeps(k, id, k.sched.current.value);
    case SemPost(id) => PostKeeps(k, id);
    case SemOpen(id, value) =>
      hide Inv, QueuesOk;
      var r := Record(Sem(value, []), value, 0, 0, [], []);
      RecordsUpdate(k.sems, id, r);
      AwakeGrant(k.sched, k.sems, id, r);
    case SemTryWait(id) =>
      hide Inv, QueuesOk;
      var r := k.sems[id];
      assert RecordOk(r);
      TryWaitKeepsOk(r.sem);
      var r' := Do(k, c).sems[id];
      RecordsUpdate(k.sems, id, r');
      AwakeGrant(k.sched, k.sems, id, r');
  }

  /** Killing a process is safe for the semaphores exactly when it is not asleep on one: the code leaves
      its pid in the queue, where a later post would try to wake it. */
  lemma KillSafeIff(k: Kernel, pid: nat)
    requires KernelInv(k) && MayTerminate(k.sched, pid)
    ensures KernelInv(Do(k, Sys(Kill(pid)))) <==> !Asleep(k.sched, pid)
  {
    hide Inv, Terminate, RecordsOk, QueuesOk, Asleep;
    if Asleep(k.sched, pid) {
      KillUnsafe(k, pid);
    } else {
      KillSafe(k, pid);
    }
  }

  lemma KillSafe(k: Kernel, pid: nat)
    requires KernelInv(k) && MayTerminate(k.sched, pid) && !Asleep(k.sched, pid)
    ensures KernelInv(Do(k, Sys(Kill(pid))))
  {
    hide KernelInv, MayTerminate, Asleep, Do;
    SysKeeps(k, Kill(pid));
  }

  lemma KillUnsafe(k: Kernel, pid: nat)
    requires KernelInv(k) && MayTerminate(k.sched, pid) && Asleep(k.sched, pid)
    ensures !KernelInv(Do(k, Sys(Kill(pid))))
  {
    hide Inv, Terminate, RecordsOk, QueuesOk;
    KilledIsAwake(k.sched, pid);
    hide Asleep;
    StaleWaiter(k.sched, Terminate(k.sched, pid), k.sems, pid);
  }

  /** A queue entry outlives its sleeper. */
  lemma StaleWaiter(s: Sched, r: Sched, sems: map<nat, Record>, pid: nat)
    requires QueuesOk(s, sems) && Asleep(s, pid) && !Asleep(r, pid)
    ensures !QueuesOk(r, sems)
  {
    var id :| Waits(sems, id, pid);
    hide Asleep;
  }

  ghost predicate KernelRun(states: seq<Kernel>, calls: seq<Call>) {
    && |states| == |calls| + 1 && states[0] == Kernel(Initial(), map[])
    && forall i | 0 <= i < |calls| :: CallGuard(states[i], calls[i]) && states[i + 1] == Do(states[i], calls[i])
  }

  lemma StartInv()
    ensures KernelInv(Kernel(Initial(), map[]))
  {
    InitialInv();
    hide Inv;
  }

  lemma {:induction false} KernelRunInv(states: seq<Kernel>, calls: seq<Call>, n: nat)
    requires KernelRun(states, calls) && n < |states|
    ensures KernelInv(states[n])
  {
    hide KernelInv, CallGuard, Do;
    if n == 0 {
      StartInv();
    } else {
      KernelRunInv(states, calls, n - 1);
      CallKeeps(states[n - 1], calls[n - 1]);
    }
  }

  /** Semaphore accounting in every reachable state: a negative value counts exactly the distinct
      blocked processes that wait, a process asleep on a semaphore waits on exactly one, wake-ups follow
      arrivals, and completed waits never exceed the initial value plus the posts. */
  lemma Accounting(states: seq<Kernel>, calls: seq<Call>, n: nat, id: nat)
    requires KernelRun(states, calls) && n < |states| && id in states[n].sems
    ensures var s, r := states[n].sched, states[n].sems[id];
            && |r.sem.waiting| == (if r.sem.value < 0 then -r.sem.value else 0) && NoDup(r.sem.waiting)
            && GetValue(r.sem) == r.sem.value
            && (forall p <- r.sem.waiting ::
                  && p in s.table && s.table[p].state == Blocked && p in s.blocked
                  && forall other :: Waits(states[n].sems, other, p) ==> other == id)
            && r.arrived == r.woken + r.sem.waiting
            && r.completed == r.initial + r.posts - Tokens(r.sem) <= r.initial + r.posts
  {
    KernelRunInv(states, calls, n);
    var s, r := states[n].sched, states[n].sems[id];
    assert RecordOk(r);
    GetValueIsValue(r.sem);
    hide KernelRun, Inv;
    forall p | p in r.sem.waiting
      ensures p in s.table && s.table[p].state == Blocked && p in s.blocked
      ensures forall other :: Waits(states[n].sems, other, p) ==> other == id
    {
      assert Waits(states[n].sems, id, p);
      AsleepIsBlocked(s, p);
    }
  }

  /** Nobody sleeps on a semaphore that does not list it: no wake-up is lost. */
  lemma SleepersAreQueued(states: seq<Kernel>, calls: seq<Call>, n: nat, p: nat)
    requires KernelRun(states, calls) && n < |states| && Asleep(states[n].sched, p)
    ensures exists id <- states[n].sems :: p in states[n].sems[id].sem.waiting && states[n].sems[id].sem.value < 0
  {
    KernelRunInv(states, calls, n);
    hide KernelRun, Inv;
    var id :| Waits(states[n].sems, id, p);
    assert RecordOk(states[n].sems[id]);
  }
}
