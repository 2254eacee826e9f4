/** What each call of the scheduler does, stated on the queues and on the entries of the process table. */
module SchedulerEffects {
  import opened Sequences
  import opened SchedulerModel
  import opened SchedulerInvariant
  import opened SchedulerSteps
  import opened SchedulerExit
  import opened SchedulerRuns

  // ----- vocabulary -----

  predicate Usable(ready: Queues, credits: Credits, i: Priority) {
    ready[i] != [] && credits[i] > 0
  }

  predicate NoneReady(ready: Queues) {
    forall i | 0 <= i < PRIO :: ready[i] == []
  }

  /** Credits are the weights again as soon as no queue with work has any left. */
  ghost predicate InForce(ready: Queues, credits: Credits, c: Credits) {
    if exists i | 0 <= i < PRIO :: Usable(ready, credits, i) then c == credits else c == [4, 3, 2, 1]
  }

  /** The highest queue with work and credit. */
  ghost predicate Highest(ready: Queues, c: Credits, q: nat) {
    q < PRIO && Usable(ready, c, q) && forall k | 0 <= k < q :: !Usable(ready, c, k)
  }

  /** From `s`, the head of queue `q` is set running for a full quantum and pays one credit of its queue. */
  ghost predicate HeadServed(s: Sched, r: Sched, c: Credits, q: Priority)
    requires Highest(s.ready, c, q)
  {
    && r.current == Some(s.ready[q][0]) && r.ready == s.ready[q := s.ready[q][1..]]
    && r.credits == c[q := c[q] - 1] && r.blocked == s.blocked && r.nextPid == s.nextPid
    && r.table.Keys == s.table.Keys
    && forall x <- s.table :: r.table[x] == if x == s.ready[q][0] then s.table[x].(state := Running, quantum := 5) else s.table[x]
  }

  /** With nothing to run, idle is made current and the credits are the weights. */
  ghost predicate IdleServed(s: Sched, r: Sched) {
    && r.current == Some(0) && r.ready == s.ready && r.credits == [4, 3, 2, 1]
    && r.blocked == s.blocked && r.nextPid == s.nextPid && r.table.Keys == s.table.Keys
    && forall x <- s.table :: r.table[x] == if x == 0 then s.table[x].(state := Running) else s.table[x]
  }

  /** What a dispatch makes of `s`. */
  ghost predicate Served(s: Sched, r: Sched) {
    if NoneReady(s.ready) then IdleServed(s, r)
    else exists c: Credits, q: Priority :: InForce(s.ready, s.credits, c) && Highest(s.ready, c, q) && HeadServed(s, r, c, q)
  }

  // ----- dispatch and the timer -----

  /** The queue picked is the highest that has work and credit, after a refill if none had both; it pays
      one credit. Only with all queues empty is none picked. */
  lemma PickIsHighest(ready: Queues, credits: Credits)
    ensures var (c', q) := PickQueue(ready, credits);
            if NoneReady(ready) then q == PRIO && c' == [4, 3, 2, 1]
            else exists c: Credits :: InForce(ready, credits, c) && Highest(ready, c, q) && c' == c[q := c[q] - 1]
  {
    PickFindsWork(ready, credits);
    RefillInForce(ready, credits);
    var c := Refilled(ready, credits);
    assert NoneReady(ready) ==> !Usable(ready, credits, 0) && !Usable(ready, credits, 1)
                                && !Usable(ready, credits, 2) && !Usable(ready, credits, 3);
    hide InForce, Refilled;
    assert !NoneReady(ready) ==> Highest(ready, c, PickQueue(ready, credits).1);
  }

  lemma RefillInForce(ready: Queues, credits: Credits)
    ensures InForce(ready, credits, Refilled(ready, credits))
    ensures NoneReady(ready) ==> Refilled(ready, credits) == [4, 3, 2, 1]
  {
    UsableIs(ready, credits);
    hide UsableCredits;
    assert UsableCredits(ready, credits, 0) != 0 ==>
             Usable(ready, credits, 0) || Usable(ready, credits, 1) || Usable(ready, credits, 2) || Usable(ready, credits, 3);
    forall i | 0 <= i < PRIO && UsableCredits(ready, credits, 0) == 0 ensures !Usable(ready, credits, i) {
      assert i == 0 || i == 1 || i == 2 || i == 3;
    }
  }

  lemma DispatchServes(s: Sched)
    ensures Served(s, Dispatch(s))
  {
    PickIsHighest(s.ready, s.credits);
    var (c', q) := PickQueue(s.ready, s.credits);
    hide PickQueue, InForce;
    if !NoneReady(s.ready) {
      var c: Credits :| InForce(s.ready, s.credits, c) && Highest(s.ready, c, q) && c' == c[q := c[q] - 1];
      assert HeadServed(s, Dispatch(s), c, q);
    }
  }

  /** The current process at the end of its own queue, ready and without ticks. */
  ghost predicate Requeued(s: Sched, m: Sched, c: nat)
    requires c in s.table
  {
    && m.table == s.table[c := s.table[c].(quantum := 0, state := Ready)]
    && m.ready == s.ready[s.table[c].priority := s.ready[s.table[c].priority] + [c]]
    && m.current == s.current && m.credits == s.credits && m.blocked == s.blocked && m.nextPid == s.nextPid
  }

  /** A tick takes one from the running process's quantum; the last tick sends it to the end of its own
      queue and dispatches, as every tick does while idle or nobody is current. */
  lemma TickIs(s: Sched)
    requires Inv(s)
    ensures match s.current
            case None => Served(s, Schedule(s))
            case Some(c) =>
              c in s.table &&
              if c == IDLE then Served(s, Schedule(s))
              else if s.table[c].quantum > 1 then
                Schedule(s) == s.(table := s.table[c := s.table[c].(quantum := s.table[c].quantum - 1)])
              else exists m :: Requeued(s, m, c) && Served(m, Schedule(s))
  {
    CurrentRunning(s);
    hide Inv, Served;
    if s.current.Some? && s.current.value != IDLE {
      var c := s.current.value;
      TickCases(s, c);
      DispatchServes(Preempted(s, c));
      assert Requeued(s, Preempted(s, c), c);
    } else {
      DispatchServes(s);
    }
    hide Dispatch, Schedule;
  }

  lemma CurrentRunning(s: Sched)
    requires Inv(s)
    ensures s.current.Some? ==> s.current.value in s.table
    ensures s.current.Some? && s.current.value != IDLE ==>
              s.table[s.current.value].state == Running && 1 <= s.table[s.current.value].quantum <= QUANTUM
  {
  }

  /** A process that yields goes to the end of its own queue at once. */
  lemma YieldIs(s: Sched)
    requires Inv(s) && s.current.Some?
    ensures var c := s.current.value;
            c in s.table &&
            if c == IDLE then Served(s.(table := s.table[c := s.table[c].(quantum := 1)]), Yield(s))
            else exists m :: Requeued(s, m, c) && Served(m, Yield(s))
  {
    hide Inv, Served, Yield, Requeued;
    CurrentRunning(s);
    if s.current.value == IDLE {
      IdleYields(s);
    } else {
      BusyYields(s, s.current.value);
    }
  }

  lemma IdleYields(s: Sched)
    requires s.current == Some(IDLE) && IDLE in s.table
    ensures Served(s.(table := s.table[IDLE := s.table[IDLE].(quantum := 1)]), Yield(s))
  {
    hide Served, Dispatch;
    DispatchServes(s.(table := s.table[IDLE := s.table[IDLE].(quantum := 1)]));
  }

  lemma BusyYields(s: Sched, c: nat)
    requires s.current == Some(c) && c != IDLE && c in s.table && s.table[c].state == Running
    ensures exists m :: Requeued(s, m, c) && Served(m, Yield(s))
  {
    hide Served, Dispatch, Schedule;
    var y := s.(table := s.table[c := s.table[c].(quantum := 1)]);
    TickCases(y, c);
    DispatchServes(Preempted(y, c));
    assert y.table[c := y.table[c].(quantum := 0, state := Ready)] == s.table[c := s.table[c].(quantum := 0, state := Ready)];
    assert Requeued(s, Preempted(y, c), c);
  }

  // ----- creation and priorities -----

  /** A new process is ready behind the others of priority 2, is its creator's newest child, and changes
      nothing else; its pid is the next unused one. */
  lemma CreateIs(s: Sched)
    requires Inv(s)
    ensures var (r, pid) := (Create(s), s.nextPid);
            && pid !in s.table && r.table.Keys == s.table.Keys + {pid} && r.nextPid == pid + 1
            && r.table[pid] == Process(Ready, 2, s.current, [], [], -1, 5, UserCode)
            && (forall x <- s.table :: r.table[x] ==
                  if s.current == Some(x) then s.table[x].(children := [pid] + s.table[x].children) else s.table[x])
            && r.ready == s.ready[2 := s.ready[2] + [pid]]
            && r.current == s.current && r.credits == s.credits && r.blocked == s.blocked
  {
    assert s.nextPid !in s.table;
    hide Inv;
  }

  /** `pid` taken off queue `from` and put at the end of queue `to`. */
  function Requeue(ready: Queues, from: Priority, to: Priority, pid: nat): (r: Queues)
    ensures from != to ==> r[from] == RemoveFirst(ready[from], pid) && r[to] == ready[to] + [pid]
    ensures forall i | 0 <= i < PRIO && i != from && i != to :: r[i] == ready[i]
  {
    var left := ready[from := RemoveFirst(ready[from], pid)];
    left[to := left[to] + [pid]]
  }

  /** Changing a priority changes it, in every state of the process but zombie; if the process is not
      running, only its entry and its place in the ready queues change. */
  lemma NiceIs(s: Sched, pid: nat, prio: nat)
    requires Inv(s)
    ensures var r := Nice(s, pid, prio);
            if prio >= PRIO || pid !in s.table || s.table[pid].state == Zombie then r == s
            else && pid in r.table && r.table[pid].priority == prio
                 && (s.table[pid].state != Running ==>
                       && r.table == s.table[pid := s.table[pid].(priority := prio)]
                       && r.current == s.current && r.credits == s.credits && r.blocked == s.blocked && r.nextPid == s.nextPid
                       && r.ready == if s.table[pid].state == Blocked || s.table[pid].priority == prio then s.ready
                                     else Requeue(s.ready, s.table[pid].priority, prio, pid))
                 && (s.table[pid].state == Running && s.table[pid].priority != prio ==>
                       Served(s.(current := None, table := s.table[pid := s.table[pid].(priority := prio)],
                                 ready := s.ready[prio := s.ready[prio] + [pid]]), r))
  {
    hide Inv, Served;
    if prio < PRIO && pid in s.table && s.table[pid].state != Zombie {
      if s.table[pid].priority == prio {
        assert s.table[pid := s.table[pid].(priority := prio)] == s.table;
      } else if s.table[pid].state == Running {
        RunningReniced(s, pid, prio);
      }
    }
    hide Dispatch;
  }

  lemma RunningReniced(s: Sched, pid: nat, prio: Priority)
    requires Inv(s) && pid in s.table && s.table[pid].priority != prio && s.table[pid].state == Running
    ensures pid in Nice(s, pid, prio).table && Nice(s, pid, prio).table[pid].priority == prio
    ensures Served(s.(current := None, table := s.table[pid := s.table[pid].(priority := prio)],
                      ready := s.ready[prio := s.ready[prio] + [pid]]), Nice(s, pid, prio))
  {
    hide Inv, Dispatch, Nice, Served;
    NotQueued(s, pid);
    NiceRunningIs(s, pid, prio);
    var m := s.(current := None, table := s.table[pid := s.table[pid].(priority := prio)],
                ready := s.ready[prio := s.ready[prio] + [pid]]);
    assert Requested(s, pid, prio) == m;
    DispatchServes(m);
    ServedKeeps(m, Dispatch(m), pid);
  }

  /** A dispatch changes nobody's priority. */
  lemma ServedKeeps(s: Sched, r: Sched, pid: nat)
    requires Served(s, r) && pid in s.table
    ensures pid in r.table && r.table[pid].priority == s.table[pid].priority
  {
  }

  lemma NotQueued(s: Sched, pid: nat)
    requires Inv(s) && pid in s.table && s.table[pid].state == Running
    ensures forall i | 0 <= i < PRIO :: pid !in s.ready[i]
  {
    NotElsewhere(s, pid);
  }

  /** A sleeper whose priority is changed joins the end of its new queue when it wakes. */
  lemma NicedSleeper(s: Sched, pid: nat, prio: Priority)
    requires Inv(s) && pid in s.table && s.table[pid].state == Blocked
    ensures var r := Unblock(Nice(s, pid, prio), pid);
            && r.ready == s.ready[prio := s.ready[prio] + [pid]]
            && r.table == s.table[pid := s.table[pid].(priority := prio, state := Ready)]
  {
    hide Inv, Nice, Served, Unblock;
    NiceIs(s, pid, prio);
    UnblockIs(Nice(s, pid, prio), pid);
    assert s.table[pid := s.table[pid].(priority := prio)][pid := s.table[pid].(priority := prio).(state := Ready)]
        == s.table[pid := s.table[pid].(priority := prio, state := Ready)];
  }

  // ----- blocking -----

  /** A process that blocks itself joins the end of the blocked queue and the next one is dispatched; a
      ready one leaves its ready queue for the blocked queue and nothing else changes. */
  lemma BlockIs(s: Sched, pid: nat)
    requires Inv(s) && s.current.Some? && MayBlock(s, pid)
    ensures if pid !in s.table then Block(s, pid) == s
            else var asleep := s.(table := s.table[pid := s.table[pid].(state := Blocked)], blocked := s.blocked + [pid]);
                 if s.current == Some(pid) then Served(asleep, Block(s, pid))
                 else Block(s, pid) == asleep.(ready :=
                        s.ready[s.table[pid].priority := RemoveFirst(s.ready[s.table[pid].priority], pid)])
  {
    hide Inv, Served, Dispatch, Schedule;
    CurrentRunning(s);
    if pid in s.table && s.current == Some(pid) {
      BlocksItself(s, pid);
      hide Block, AddToBlocked;
    }
  }

  lemma BlocksItself(s: Sched, pid: nat)
    requires pid in s.table && pid != IDLE && s.current == Some(pid) && s.table[pid].state == Running
    ensures Served(s.(table := s.table[pid := s.table[pid].(state := Blocked)], blocked := s.blocked + [pid]), Block(s, pid))
  {
    hide Served, Dispatch;
    DispatchServes(s.(table := s.table[pid := s.table[pid].(state := Blocked)], blocked := s.blocked + [pid]));
  }

  /** A blocked process leaves the blocked queue and is ready at the end of the queue of its priority. */
  lemma UnblockIs(s: Sched, pid: nat)
    requires pid in s.table
    ensures var p := s.table[pid].priority;
            Unblock(s, pid) == s.(blocked := RemoveFirst(s.blocked, pid), table := s.table[pid := s.table[pid].(state := Ready)],
                                  ready := s.ready[p := s.ready[p] + [pid]])
  {
  }

  /** Sleeping on a semaphore: the caller joins the end of the blocked queue and the next one is dispatched. */
  lemma SemBlockServes(s: Sched)
    requires Inv(s) && MaySleep(s)
    ensures var c := s.current.value;
            Served(s.(table := s.table[c := s.table[c].(path := InSemWait, state := Blocked, quantum := 1)],
                      blocked := s.blocked + [c]), SemBlock(s))
  {
    hide Served, Dispatch, SemBlock;
    CurrentRunning(s);
    hide Inv;
    var c := s.current.value;
    SemBlockIsSleep(s, c);
    DispatchServes(Slept(s, c, s.table[c].(path := InSemWait, state := Blocked, quantum := 1)));
  }

  /** Waking from a semaphore: the sleeper is ready at the end of the queue of its priority. */
  lemma SemWakeIs(s: Sched, pid: nat)
    requires pid in s.table
    ensures var p := s.table[pid].priority;
            SemWake(s, pid) == s.(blocked := RemoveFirst(s.blocked, pid), ready := s.ready[p := s.ready[p] + [pid]],
                                  table := s.table[pid := s.table[pid].(path := UserCode, state := Ready)])
  {
    SemWakeIsWake(s, pid);
  }

  // ----- termination and waiting -----

  /** `x` without `pid`, its family settled as `ExitShape` says, and nobody current if it was. */
  ghost predicate Left(s: Sched, x: Sched, pid: nat)
    requires pid in s.table
  {
    && ExitShape(s.table, x.table, pid)
    && x.ready == s.ready[s.table[pid].priority := RemoveFirst(s.ready[s.table[pid].priority], pid)]
    && x.blocked == RemoveFirst(s.blocked, pid) && x.credits == s.credits && x.nextPid == s.nextPid
    && x.current == if s.current == Some(pid) then None else s.current
  }

  /** Its parent woken, if it slept in `waitPid` for this child. */
  ghost predicate ParentWoken(s: Sched, x: Sched, y: Sched, pid: nat)
    requires pid in s.table
  {
    match s.table[pid].parent
    case None => y == x
    case Some(q) =>
      && q in s.table && q in x.table
      && if s.table[q].path == InWaitPid(pid)
         then var p := x.table[q].priority;
              y == x.(blocked := RemoveFirst(x.blocked, q), table := x.table[q := x.table[q].(state := Ready)],
                      ready := x.ready[p := x.ready[p] + [q]])
         else y == x
  }

  /** A process that ends leaves all queues, its children lose their parent and its zombies disappear, it
      is left to its own parent as a zombie or deleted, a parent that waits for it wakes, and if it was
      running the next one is dispatched. */
  lemma TerminateServes(s: Sched, pid: nat)
    requires Inv(s) && MayTerminate(s, pid) && pid in s.table
    ensures exists x, y :: Left(s, x, pid) && ParentWoken(s, x, y, pid)
              && if s.current == Some(pid) then Served(y, Terminate(s, pid)) else Terminate(s, pid) == y
  {
    hide Served, Terminate, Dispatch, Left, ParentWoken, Exited, Inv, Unblock, WakesParent;
    ExitParts(s, pid);
    TerminateIs(s, pid);
    var x := Exited(s, pid);
    var y := if WakesParent(s.table, pid) then Unblock(x, s.table[pid].parent.value) else x;
    ExitedLeft(s, pid);
    WakingParent(s, pid);
    DispatchServes(y);
  }

  lemma ExitParts(s: Sched, pid: nat)
    requires Inv(s) && MayTerminate(s, pid) && pid in s.table
    ensures ListsOk(s.table) && ParentsOk(s.table) && s.table[pid].state != Zombie && pid != IDLE
    ensures WakesParent(s.table, pid) ==> s.table[pid].parent.Some?
  {
  }

  lemma ExitedLeft(s: Sched, pid: nat)
    requires ListsOk(s.table) && ParentsOk(s.table) && pid in s.table && s.table[pid].state != Zombie
    ensures Left(s, Exited(s, pid), pid)
  {
    ExitHasShape(s.table, pid);
    hide ExitTable, ListsOk, ParentsOk, ExitShape;
  }

  lemma WakingParent(s: Sched, pid: nat)
    requires Inv(s) && pid in s.table && pid != IDLE && s.table[pid].state != Zombie
    ensures WakesParent(s.table, pid) ==> s.table[pid].parent.Some?
    ensures var x := Exited(s, pid);
            ParentWoken(s, x, if WakesParent(s.table, pid) then Unblock(x, s.table[pid].parent.value) else x, pid)
  {
    if s.table[pid].parent.Some? {
      var q := s.table[pid].parent.value;
      WakesIffWaiting(s, pid, q);
      ExitParts(s, pid);
      hide Inv;
      ExitedKeepsParent(s, pid, q);
      hide Exited, WakesParent, Unblock;
      UnblockIs(Exited(s, pid), q);
    }
  }

  lemma WakesIffWaiting(s: Sched, pid: nat, q: nat)
    requires Inv(s) && pid in s.table && s.table[pid].state != Zombie && s.table[pid].parent == Some(q)
    ensures q in s.table && (WakesParent(s.table, pid) <==> s.table[q].path == InWaitPid(pid))
  {
    hide ListedOk, PlacedOk, ListsOk, PathsOk;
    WaiterPath(s.table, pid, q);
  }

  lemma WaiterPath(t: Table, pid: nat, q: nat)
    requires ParentsOk(t) && PathsOk(t) && pid in t && t[pid].state != Zombie && t[pid].parent == Some(q)
    ensures q in t
    ensures t[q].path == InWaitPid(pid) ==> t[q].state == Blocked && t[q].waitingPid == pid
    ensures t[q].path != InWaitPid(pid) ==> t[q].state != Blocked || (t[q].waitingPid != 0 && t[q].waitingPid != pid)
  {
    assert q in t && t[q].state != Zombie && PathOk(t, q);
  }

  /** `waitPid` on a running child puts its caller to sleep until that child ends. */
  lemma WaitSleeps(s: Sched, pid: nat)
    requires Inv(s) && MayWait(s, pid) && pid in s.table && s.current.Some? && s.table[pid].state != Zombie
    ensures var c := s.current.value;
            c in s.table &&
            Served(s.(table := s.table[c := s.table[c].(waitingPid := pid, path := InWaitPid(pid), state := Blocked)],
                      blocked := s.blocked + [c]), WaitPid(s, pid))
  {
    CurrentRunning(s);
    hide Served, Dispatch, WaitPid, Inv;
    var c := s.current.value;
    WaitIsSleep(s, c, pid);
    DispatchServes(Slept(s, c, s.table[c].(waitingPid := pid, path := InWaitPid(pid), state := Blocked)));
  }

  /** A zombie child, found at once or after the sleep, is deleted and leaves its parent's list. */
  lemma ZombieCollected(s: Sched, pid: nat)
    requires Inv(s) && s.current.Some? && IsZombieOf(s.table, pid, s.current.value)
    ensures var c := s.current.value;
            var collected := s.(table := s.table[c := s.table[c].(reaped := RemoveFirst(s.table[c].reaped, pid), path := UserCode)] - {pid});
            && WaitPid(s, pid) == collected
            && (s.table[c].path == InWaitPid(pid) ==> Resume(s) == collected)
  {
    hide Inv;
  }

  /** Each event of a run is the call it stands for. */
  lemma EventsCall(s: Sched, pid: nat, prio: nat)
    requires Inv(s) && s.current.Some?
    ensures Next(s, Tick) == Schedule(s) && Next(s, YieldNow) == Yield(s) && Next(s, CreateProcess) == Create(s)
    ensures Next(s, SetPriority(pid, prio)) == Nice(s, pid, prio)
    ensures Next(s, BlockPid(pid)) == Block(s, pid) && Next(s, UnblockPid(pid)) == Unblock(s, pid)
    ensures Next(s, Kill(pid)) == Terminate(s, pid)
    ensures Next(s, WaitFor(pid)) == WaitPid(s, pid) && Next(s, ResumeWait) == Resume(s)
    ensures Next(s, SemSleep) == SemBlock(s) && Next(s, SemPostTo(pid)) == SemWake(s, pid)
  {
    hide Inv, Schedule, Yield, Create, Nice, Block, Unblock, Terminate, WaitPid, Resume, SemBlock, SemWake;
    CurrentRunning(s);
  }

  /** The kernel starts with idle alone and full credits: the first process created has pid 1, and the
      first tick sets it running for a full quantum. */
  lemma FirstProcess()
    ensures var s := Initial();
            && s.table.Keys == {0} && s.current == None && NoneReady(s.ready) && s.blocked == [] && s.credits == [4, 3, 2, 1]
    ensures var r := Schedule(Create(Initial()));
            && r.current == Some(1) && r.table.Keys == {0, 1} && r.credits == [4, 3, 1, 1] && NoneReady(r.ready)
            && r.table[1].state == Running && r.table[1].quantum == 5 && r.table[0] == Initial().table[0]
  {
    hide Dispatch, Schedule, Create, Inv, Served;
    InitialInv();
    CreateIs(Initial());
    var m := Create(Initial());
    assert m.ready[0] == m.ready[1] == m.ready[3] == [] && m.ready[2] == [1];
    OnlyOneServed(m);
  }

  lemma OnlyOneServed(m: Sched)
    requires m.current == None && m.credits == [4, 3, 2, 1] && 1 in m.table
    requires m.ready[0] == m.ready[1] == m.ready[3] == [] && m.ready[2] == [1]
    ensures Highest(m.ready, m.credits, 2) && HeadServed(m, Schedule(m), m.credits, 2)
  {
    DispatchServes(m);
    assert Schedule(m) == Dispatch(m);
    hide Dispatch, Schedule, HeadServed;
    assert Usable(m.ready, m.credits, 2);
    var c: Credits, q: Priority :| InForce(m.ready, m.credits, c) && Highest(m.ready, c, q) && HeadServed(m, Dispatch(m), c, q);
    assert q == 2;
  }
}
