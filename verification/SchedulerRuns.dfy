/** Runs of the scheduler: the invariant in every reachable state, what it means for a process, and
    exactly which calls are safe. */
module SchedulerRuns {
  import opened Sequences
  import opened SchedulerModel
  import opened SchedulerInvariant
  import opened SchedulerSteps
  import opened SchedulerExit

  datatype Event =
    | Tick
    | YieldNow
    | CreateProcess
    | SetPriority(pid: nat, prio: nat)
    | BlockPid(pid: nat)
    | UnblockPid(pid: nat)
    | Kill(pid: nat)
    | WaitFor(pid: nat)
    | ResumeWait
    | SemSleep
    | SemPostTo(pid: nat)

  ghost predicate MayRenice(s: Sched, pid: nat, prio: nat) {
    Renices(s, pid, prio) ==> pid != IDLE && s.table[pid].state != Running
  }

  /** The running process is not in the middle of a kernel path. */
  ghost predicate InUserCode(s: Sched) {
    s.current.Some? && s.current.value in s.table ==> s.table[s.current.value].path == UserCode
  }

  ghost predicate MaySleep(s: Sched) {
    s.current.Some? && s.current.value in s.table && s.current.value != IDLE && s.table[s.current.value].path == UserCode
  }

  ghost predicate SleepsOnSem(s: Sched, pid: nat) {
    pid in s.table && pid != IDLE && s.table[pid].path == InSemWait && s.table[pid].state != Zombie
  }

  /** What the code leaves to its callers. */
  ghost predicate Guard(s: Sched, e: Event) {
    match e
    case Tick => true
    case YieldNow => s.current.Some?
    case CreateProcess => true
    case SetPriority(pid, prio) => MayRenice(s, pid, prio)
    case BlockPid(pid) => s.current.Some? && MayBlock(s, pid)
    case UnblockPid(pid) => MayUnblock(s, pid)
    case Kill(pid) => MayTerminate(s, pid)
    case WaitFor(pid) => MayWait(s, pid) && InUserCode(s)
    case ResumeWait => true
    case SemSleep => MaySleep(s)
    case SemPostTo(pid) => SleepsOnSem(s, pid)
  }

  function Next(s: Sched, e: Event): Sched {
    match e
    case Tick => Schedule(s)
    case YieldNow => if s.current.Some? && s.current.value in s.table then Yield(s) else s
    case CreateProcess => Create(s)
    case SetPriority(pid, prio) => Nice(s, pid, prio)
    case BlockPid(pid) => if s.current.Some? then Block(s, pid) else s
    case UnblockPid(pid) => Unblock(s, pid)
    case Kill(pid) => Terminate(s, pid)
    case WaitFor(pid) => WaitPid(s, pid)
    case ResumeWait => Resume(s)
    case SemSleep => if s.current.Some? && s.current.value in s.table then SemBlock(s) else s
    case SemPostTo(pid) => SemWake(s, pid)
  }

  lemma StepInv(s: Sched, e: Event)
    requires Inv(s) && Guard(s, e)
    ensures Inv(Next(s, e))
  {
    assert s.current.Some? ==> s.current.value in s.table;
    if e.SemSleep? || e.SemPostTo? || e.SetPriority? || e.WaitFor? || e.ResumeWait? {
      OtherStepInv(s, e);
    } else {
      hide Inv, Schedule, Yield, Create, Block, Unblock, Terminate, MayBlock, MayUnblock, MayTerminate;
      match e
      case Tick => ScheduleInv(s);
      case YieldNow => YieldInv(s);
      case CreateProcess => CreateInv(s);
      case BlockPid(pid) => BlockInv(s, pid);
      case UnblockPid(pid) => UnblockInv(s, pid);
      case Kill(pid) => TerminateInv(s, pid);
    }
  }

  lemma OtherStepInv(s: Sched, e: Event)
    requires Inv(s) && Guard(s, e)
    requires e.SemSleep? || e.SemPostTo? || e.SetPriority? || e.WaitFor? || e.ResumeWait?
    ensures Inv(Next(s, e))
  {
    hide Inv, Nice, WaitPid, Resume, SemBlock, SemWake, MayWait, Renices;
    match e
    case SetPriority(pid, prio) => NiceInv(s, pid, prio);
    case WaitFor(pid) => WaitPidInv(s, pid);
    case ResumeWait => ResumeInv(s);
    case SemSleep => SemBlockInv(s);
    case SemPostTo(pid) => SemWakeInv(s, pid);
  }

  /** A run of guarded events from the state `initializeScheduler` leaves. */
  ghost predicate Run(states: seq<Sched>, events: seq<Event>) {
    && |states| == |events| + 1 && states[0] == Initial()
    && forall i | 0 <= i < |events| :: Guard(states[i], events[i]) && states[i + 1] == Next(states[i], events[i])
  }

  lemma InitialInv()
    ensures Inv(Initial())
  {
    var s := Initial();
    assert PathOk(s.table, IDLE);
  }

  lemma {:induction false} RunInv(states: seq<Sched>, events: seq<Event>, n: nat)
    requires Run(states, events) && n < |states|
    ensures Inv(states[n])
  {
    hide Inv, Guard, Next;
    if n == 0 {
      InitialInv();
    } else {
      RunInv(states, events, n - 1);
      StepInv(states[n - 1], events[n - 1]);
    }
  }

  // ----- what the invariant says about one process -----

  ghost predicate InNoReadyQueue(s: Sched, p: nat) {
    forall i | 0 <= i < PRIO :: p !in s.ready[i]
  }

  ghost predicate OnceIn(s: seq<nat>, p: nat) {
    exists i | 0 <= i < |s| :: s[i] == p && forall j | 0 <= j < |s| && j != i :: s[j] != p
  }

  lemma FoundOnce(s: seq<nat>, p: nat)
    requires NoDup(s) && p in s
    ensures OnceIn(s, p)
  {
    var i :| 0 <= i < |s| && s[i] == p;
    forall j | 0 <= j < |s| && j != i ensures s[j] != p {
      assert s[if i < j then i else j] != s[if i < j then j else i];
    }
  }

  /** In every reachable state a process other than idle is in exactly one place, the one its state names. */
  lemma PlacedExactlyOnce(states: seq<Sched>, events: seq<Event>, n: nat, p: nat)
    requires Run(states, events) && n < |states| && p in states[n].table && p != IDLE
    ensures var s := states[n];
            match s.table[p].state
            case Running => s.current == Some(p) && 1 <= s.table[p].quantum <= QUANTUM
                            && InNoReadyQueue(s, p) && p !in s.blocked
            case Ready => s.current != Some(p) && OnceIn(s.ready[s.table[p].priority], p)
                          && (forall i | 0 <= i < PRIO && i != s.table[p].priority :: p !in s.ready[i])
                          && p !in s.blocked
            case Blocked => s.current != Some(p) && InNoReadyQueue(s, p) && OnceIn(s.blocked, p)
            case Zombie => s.current != Some(p) && InNoReadyQueue(s, p) && p !in s.blocked
  {
    RunInv(states, events, n);
    var s := states[n];
    hide FamilyOk;
    if s.table[p].state == Ready {
      FoundOnce(s.ready[s.table[p].priority], p);
    }
    if s.table[p].state == Blocked {
      FoundOnce(s.blocked, p);
    }
  }

  /** Every zombie still in the table is listed exactly once, by a parent that can still collect it;
      every other child is listed exactly once among its parent's running children. */
  lemma ListedByParent(states: seq<Sched>, events: seq<Event>, n: nat, p: nat)
    requires Run(states, events) && n < |states| && p in states[n].table
    ensures var t := states[n].table;
            && (t[p].state == Zombie ==> t[p].parent.Some?)
            && (t[p].parent.Some? ==>
                  var q := t[p].parent.value;
                  && q in t && t[q].state != Zombie
                  && OnceIn(if t[p].state == Zombie then t[q].reaped else t[q].children, p)
                  && p !in (if t[p].state == Zombie then t[q].children else t[q].reaped)
                  && forall x <- t :: x != q ==> p !in t[x].children && p !in t[x].reaped)
  {
    RunInv(states, events, n);
    var t := states[n].table;
    hide ListedOk, PlacedOk, PathsOk;
    if t[p].parent.Some? {
      var q := t[p].parent.value;
      FoundOnce(if t[p].state == Zombie then t[q].reaped else t[q].children, p);
    }
  }

  ghost predicate NoNewPids(s: Sched, r: Sched) {
    r.nextPid == s.nextPid && r.table.Keys <= s.table.Keys
  }

  lemma DispatchKeys(s: Sched)
    ensures NoNewPids(s, Dispatch(s))
  {
  }

  lemma ScheduleKeys(s: Sched)
    ensures NoNewPids(s, Schedule(s))
  {
    hide Dispatch, Enqueue, NoNewPids;
    if s.current.None? || s.current.value == IDLE || s.current.value !in s.table {
      DispatchKeys(s);
    } else {
      var c := s.current.value;
      var p := s.table[c];
      var q := (p.quantum + 255) % 256;
      if p.state == Running && q != 0 {
        OneUpdate(s, s.(table := s.table[c := p.(quantum := q)]), c);
      } else {
        TurnKeys(s, c);
      }
    }
  }

  lemma OneUpdate(s: Sched, r: Sched, c: nat)
    requires c in s.table && r.nextPid == s.nextPid && r.table.Keys == s.table.Keys + {c}
    ensures NoNewPids(s, r)
  {
  }

  /** The end of a turn: whatever is queued, only the dispatch follows. */
  lemma TurnKeys(s: Sched, c: nat)
    requires s.current == Some(c) && c != IDLE && c in s.table
    requires !(s.table[c].state == Running && (s.table[c].quantum + 255) % 256 != 0)
    ensures NoNewPids(s, Schedule(s))
  {
    hide Dispatch, Enqueue, PickQueue;
    var p := s.table[c];
    DispatchKeys(s);
    DispatchKeys(s.(ready := Enqueue(s.ready, p.priority, c)));
    DispatchKeys(s.(table := s.table[c := p.(quantum := 0, state := Ready)], ready := Enqueue(s.ready, p.priority, c)));
  }

  lemma TerminateKeys(s: Sched, pid: nat)
    ensures NoNewPids(s, Terminate(s, pid))
  {
    if pid in s.table {
      OrphanIs(s.table, s.table[pid].children);
      ReapAllIs(Orphan(s.table, s.table[pid].children), s.table[pid].reaped);
      var s' := HandOver(Retired(s, pid), pid);
      assert NoNewPids(s, s') by {
        hide Orphan, ReapAll, RemoveReady, Enqueue;
      }
      hide HandOver, Retired, Dispatch;
      DispatchKeys(s'.(current := None));
    }
  }

  lemma WaitKeys(s: Sched, pid: nat)
    ensures NoNewPids(s, WaitPid(s, pid))
  {
    if s.current.Some? && s.current.value in s.table && pid in s.table {
      var c := s.current.value;
      var s' := s.(table := s.table[c := s.table[c].(waitingPid := pid, path := InWaitPid(pid))]);
      ScheduleKeys(AddToBlocked(s', c));
    }
    hide Schedule;
  }

  lemma SemKeys(s: Sched)
    requires s.current.Some? && s.current.value in s.table
    ensures NoNewPids(s, SemBlock(s))
  {
    var c := s.current.value;
    var s' := AddToBlocked(s.(table := s.table[c := s.table[c].(path := InSemWait)]), c);
    ScheduleKeys(s'.(table := s'.table[c := s'.table[c].(quantum := 1)]));
    hide Schedule;
  }

  lemma NiceKeys(s: Sched, pid: nat, prio: nat)
    ensures NoNewPids(s, Nice(s, pid, prio))
  {
    if pid in s.table && prio < PRIO {
      DispatchKeys(Moved(s, pid, prio).(current := None));
    }
    hide Dispatch;
  }

  /** Only creation adds a pid, and the pid it adds is the next unused one. */
  lemma NextPids(s: Sched, e: Event)
    ensures if e == CreateProcess
            then Next(s, e).nextPid == s.nextPid + 1 && Next(s, e).table.Keys == s.table.Keys + {s.nextPid}
            else NoNewPids(s, Next(s, e))
  {
    match e
    case Tick => ScheduleKeys(s);
    case YieldNow =>
      if s.current.Some? && s.current.value in s.table {
        var c := s.current.value;
        ScheduleKeys(s.(table := s.table[c := s.table[c].(quantum := 1)]));
        hide Schedule;
      }
    case CreateProcess =>
    case SetPriority(pid, prio) => NiceKeys(s, pid, prio);
    case BlockPid(pid) =>
      ScheduleKeys(AddToBlocked(s, pid));
      hide Schedule;
    case UnblockPid(pid) =>
    case Kill(pid) => TerminateKeys(s, pid);
    case WaitFor(pid) => WaitKeys(s, pid);
    case ResumeWait =>
    case SemSleep =>
      if s.current.Some? && s.current.value in s.table {
        SemKeys(s);
      }
    case SemPostTo(pid) =>
  }

  ghost predicate Gone(s: Sched, p: nat) {
    p < s.nextPid && p !in s.table
  }

  lemma StepNeverReuses(s: Sched, e: Event, p: nat)
    requires Gone(s, p)
    ensures Gone(Next(s, e), p)
  {
    NextPids(s, e);
    hide Next;
  }

  lemma RunStep(states: seq<Sched>, events: seq<Event>, i: nat)
    requires Run(states, events) && i < |events|
    ensures |states| == |events| + 1 && Guard(states[i], events[i]) && states[i + 1] == Next(states[i], events[i])
  {
    hide Next, Guard, Initial;
  }

  /** A pid that has been handed out and is gone never names a process again. */
  lemma {:induction false} PidsNeverReused(states: seq<Sched>, events: seq<Event>, i: nat, j: nat, p: nat)
    requires Run(states, events) && i <= j < |states| && Gone(states[i], p)
    ensures Gone(states[j], p)
  {
    if i < j {
      assert |states| == |events| + 1;
      hide Run, Next, Gone;
      PidsNeverReused(states, events, i, j - 1, p);
      StepNeverReuses(states[j - 1], events[j - 1], p);
      RunStep(states, events, j - 1);
    }
  }

  // ----- exactly which calls are safe -----

  lemma BlockSafeIff(s: Sched, pid: nat)
    requires Inv(s) && s.current.Some?
    ensures Inv(Block(s, pid)) <==> MayBlock(s, pid)
  {
    if MayBlock(s, pid) {
      BlockInv(s, pid);
    } else {
      BlockUnsafe(s, pid);
    }
  }

  lemma UnblockSafeIff(s: Sched, pid: nat)
    requires Inv(s)
    ensures Inv(Unblock(s, pid)) <==> MayUnblock(s, pid)
  {
    if MayUnblock(s, pid) {
      UnblockInv(s, pid);
    } else {
      UnblockUnsafe(s, pid);
    }
  }

  lemma TerminateSafeIff(s: Sched, pid: nat)
    requires Inv(s)
    ensures Inv(Terminate(s, pid)) <==> MayTerminate(s, pid)
  {
    if MayTerminate(s, pid) {
      TerminateInv(s, pid);
    } else {
      TerminateUnsafe(s, pid);
    }
  }

  lemma WaitSafeIff(s: Sched, pid: nat)
    requires Inv(s) && (s.current.Some? ==> s.table[s.current.value].path == UserCode)
    ensures Inv(WaitPid(s, pid)) <==> MayWait(s, pid)
  {
    if MayWait(s, pid) {
      WaitPidInv(s, pid);
    } else {
      WaitUnsafe(s, pid);
    }
  }

  /** An empty queue that would be served at once if one process joined it: it has credit and no queue
      above it can be served, or no waiting queue has credit and it is the highest with work. */
  predicate NextInLine(ready: Queues, credits: Credits, prio: Priority) {
    && ready[prio] == []
    && (forall i | 0 <= i < prio :: ready[i] == [] || credits[i] == 0)
    && (credits[prio] == 0 ==>
          && (forall i | prio < i < PRIO :: ready[i] == [] || credits[i] == 0)
          && (forall i | 0 <= i < prio :: ready[i] == []))
  }

  lemma JoinedIsPickedIff(ready: Queues, credits: Credits, prio: Priority, pid: nat)
    requires ready[prio] == []
    ensures PickQueue(ready[prio := [pid]], credits).1 == prio <==> NextInLine(ready, credits, prio)
  {
    var joined := ready[prio := [pid]];
    UsableIs(joined, credits);
    PickFindsWork(joined, credits);
    hide UsableCredits;
  }

  /** Raising or lowering the running process is safe exactly when its new queue is empty and next in
      line, so that it is picked again at once: the code queues it, forgets who is current and
      dispatches, without making it ready first. The same goes for idle, which must not be queued
      otherwise, and which the code takes for running even while another process is. */
  lemma NiceSafeIff(s: Sched, pid: nat, prio: nat)
    requires Inv(s)
    ensures Inv(Nice(s, pid, prio)) <==>
            (Renices(s, pid, prio) ==>
               && (s.table[pid].state == Running ==> NextInLine(s.ready, s.credits, prio))
               && (pid == IDLE ==> s.table[IDLE].state == Running && NobodyElse(s.current)))
  {
    if pid == IDLE && Renices(s, IDLE, prio) {
      NiceIdle(s, prio);
    } else if !Renices(s, pid, prio) {
    } else if s.table[pid].state != Running {
      NiceInv(s, pid, prio);
    } else {
      NiceRunning(s, pid, prio);
    }
  }

  predicate NobodyElse(current: Option<nat>) {
    current == None || current == Some(IDLE)
  }

  lemma NiceIdle(s: Sched, prio: nat)
    requires Inv(s) && Renices(s, IDLE, prio)
    ensures Inv(Nice(s, IDLE, prio)) <==>
            s.table[IDLE].state == Running && NextInLine(s.ready, s.credits, prio) && NobodyElse(s.current)
  {
    IdleElsewhere(s);
    hide FamilyOk, ListedOk, PlacedOk, Dispatch, PickQueue, Enqueue, Requested, NextInLine;
    JoinsTail(s, IDLE, prio);
    RequestedIs(s, IDLE, prio);
    var m := Requested(s, IDLE, prio);
    hide Inv;
    if s.table[IDLE].state != Running {
      MovedIn(s, IDLE, prio);
      QueuedUnready(Nice(s, IDLE, prio), IDLE, prio);
    } else {
      NiceRunningIs(s, IDLE, prio);
      hide Nice;
      PickedIff(s, IDLE, prio);
      if !NextInLine(s.ready, s.credits, prio) {
        StaysQueued(m, IDLE, prio);
        QueuedUnready(Dispatch(m), IDLE, prio);
      } else {
        IdlePickedAgain(s, prio);
      }
    }
  }

  lemma MovedIn(s: Sched, pid: nat, prio: nat)
    requires Renices(s, pid, prio) && s.table[pid].state == Ready
    ensures pid in Nice(s, pid, prio).ready[prio]
  {
    hide RemoveReady;
  }

  lemma PickedIff(s: Sched, pid: nat, prio: Priority)
    ensures NextInLine(s.ready, s.credits, prio) <==>
            s.ready[prio] == [] && PickQueue(Enqueue(s.ready, prio, pid), s.credits).1 == prio
  {
    if s.ready[prio] == [] {
      assert [] + [pid] == [pid];
      assert Enqueue(s.ready, prio, pid) == s.ready[prio := [pid]];
      JoinedIsPickedIff(s.ready, s.credits, prio, pid);
    }
    hide PickQueue, Enqueue;
  }

  lemma IdleElsewhere(s: Sched)
    requires Inv(s)
    ensures IDLE in s.table && (s.table[IDLE].state == Ready || s.table[IDLE].state == Running)
    ensures forall i | 0 <= i < PRIO :: NoDup(s.ready[i]) && IDLE !in s.ready[i]
  {
    NotElsewhere(s, IDLE);
  }

  /** Only ready processes are queued. */
  lemma QueuedUnready(r: Sched, pid: nat, prio: Priority)
    requires pid in r.ready[prio] && (pid == IDLE || (pid in r.table && r.table[pid].state != Ready))
    ensures !Inv(r)
  {
    hide FamilyOk;
    if Inv(r) {
      NotElsewhere(r, pid);
    }
  }

  lemma RepickedIs(s: Sched, pid: nat, prio: Priority)
    requires pid in s.table && s.ready[prio] == [] && PickQueue(Enqueue(s.ready, prio, pid), s.credits).1 == prio
    ensures Dispatch(Requested(s, pid, prio))
            == s.(current := Some(pid), credits := PickQueue(Enqueue(s.ready, prio, pid), s.credits).0,
                  table := s.table[pid := s.table[pid].(priority := prio, state := Running, quantum := QUANTUM)])
  {
    var m := Requested(s, pid, prio);
    assert m.ready[prio] == [pid] && [pid][1..] == [];
    assert Dequeue(m.ready, prio) == s.ready;
    hide PickQueue;
  }

  /** Idle picked at once stays current; a process that was current is forgotten while marked as running. */
  lemma IdlePickedAgain(s: Sched, prio: Priority)
    requires Inv(s) && s.table[IDLE].state == Running && s.ready[prio] == []
    requires PickQueue(Enqueue(s.ready, prio, IDLE), s.credits).1 == prio
    ensures Inv(Dispatch(Requested(s, IDLE, prio))) <==> NobodyElse(s.current)
  {
    hide Dispatch, PickQueue, Requested, Enqueue, FamilyOk, CreditsOk;
    IdleElsewhere(s);
    RepickedIs(s, IDLE, prio);
    var p := s.table[IDLE].(priority := prio, state := Running, quantum := QUANTUM);
    FamilyFrame(s.table, IDLE, p, s.nextPid);
    PickKeepsCredits(Enqueue(s.ready, prio, IDLE), s.credits);
    var r := Dispatch(Requested(s, IDLE, prio));
    if NobodyElse(s.current) {
      IdlePlaced(s, p);
      hide ListedOk, PlacedOk;
    } else {
      var c := s.current.value;
      assert r.table[c].state == Running && r.current != Some(c);
    }
  }

  lemma IdlePlaced(s: Sched, p: Process)
    requires ListedOk(s.table, s.ready, s.blocked) && PlacedOk(s.table, s.ready, s.blocked, s.current)
    requires IDLE in s.table && NobodyElse(s.current)
    ensures ListedOk(s.table[IDLE := p], s.ready, s.blocked)
    ensures PlacedOk(s.table[IDLE := p], s.ready, s.blocked, Some(IDLE))
  {
  }

  function Requested(s: Sched, pid: nat, prio: Priority): Sched
    requires pid in s.table
  {
    s.(ready := Enqueue(s.ready, prio, pid), current := None,
       table := s.table[pid := s.table[pid].(priority := prio)])
  }

  lemma NiceRunningIs(s: Sched, pid: nat, prio: nat)
    requires Renices(s, pid, prio) && s.table[pid].state == Running
    requires forall i | 0 <= i < PRIO :: pid !in s.ready[i]
    ensures Nice(s, pid, prio) == Dispatch(Requested(s, pid, prio))
  {
    RemoveAbsent(s.ready[s.table[pid].priority], pid);
    assert RemoveReady(s.ready, s.table[pid].priority, pid) == s.ready;
    hide Dispatch, Enqueue, RemoveReady;
  }

  lemma JoinsTail(s: Sched, pid: nat, prio: nat)
    requires pid in s.table && prio < PRIO && NoDup(s.ready[prio]) && pid !in s.ready[prio]
    ensures var r := Requested(s, pid, prio).ready[prio];
            NoDup(r) && pid in r && (r[0] == pid <==> s.ready[prio] == [])
    ensures s.ready[prio] == [] ==> Requested(s, pid, prio).ready == s.ready[prio := [pid]]
  {
    var r := Requested(s, pid, prio).ready[prio];
    assert r[|s.ready[prio]|] == pid;
    if s.ready[prio] == [] {
      assert r == [pid];
    }
  }

  lemma RunningElsewhere(s: Sched, pid: nat)
    requires Inv(s) && pid in s.table && pid != IDLE && s.table[pid].state == Running
    ensures s.current == Some(pid)
    ensures forall i | 0 <= i < PRIO :: NoDup(s.ready[i]) && pid !in s.ready[i]
  {
    NotElsewhere(s, pid);
    hide FamilyOk;
  }

  lemma NiceRunning(s: Sched, pid: nat, prio: nat)
    requires Inv(s) && pid != IDLE && Renices(s, pid, prio) && s.table[pid].state == Running
    ensures Inv(Nice(s, pid, prio)) <==> NextInLine(s.ready, s.credits, prio)
  {
    RunningElsewhere(s, pid);
    hide FamilyOk, ListedOk, PlacedOk, Dispatch, PickQueue, Nice, Enqueue, Requested, NextInLine;
    NiceRunningIs(s, pid, prio);
    JoinsTail(s, pid, prio);
    RequestedIs(s, pid, prio);
    PickedIff(s, pid, prio);
    if NextInLine(s.ready, s.credits, prio) {
      PickedAgain(s, pid, prio);
    } else {
      NotPickedAgain(Requested(s, pid, prio), pid, prio);
    }
  }

  lemma RequestedIs(s: Sched, pid: nat, prio: Priority)
    requires pid in s.table
    ensures var m := Requested(s, pid, prio);
            && m.ready == Enqueue(s.ready, prio, pid) && m.credits == s.credits
            && pid in m.table && m.table[pid].state == s.table[pid].state
  {
  }

  /** The same request with the process made ready first. */
  function MadeReady(s: Sched, pid: nat, prio: Priority): Sched
    requires pid in s.table
  {
    s.(ready := Enqueue(s.ready, prio, pid), current := None,
       table := s.table[pid := s.table[pid].(state := Ready, priority := prio)])
  }

  lemma SameOncePicked(s: Sched, pid: nat, prio: nat)
    requires pid in s.table && prio < PRIO && s.ready[prio] == []
    requires PickQueue(Enqueue(s.ready, prio, pid), s.credits).1 == prio
    ensures Dispatch(Requested(s, pid, prio)) == Dispatch(MadeReady(s, pid, prio))
  {
    assert Start(Requested(s, pid, prio).table, pid) == Start(MadeReady(s, pid, prio).table, pid);
    hide PickQueue;
  }

  lemma MadeReadyPlaced(s: Sched, pid: nat, prio: nat)
    requires ListedOk(s.table, s.ready, s.blocked) && PlacedOk(s.table, s.ready, s.blocked, Some(pid))
    requires pid in s.table && pid != IDLE && s.table[pid].state == Running && prio < PRIO
    ensures var m := MadeReady(s, pid, prio);
            ListedOk(m.table, m.ready, m.blocked) && PlacedOk(m.table, m.ready, m.blocked, None)
  {
    NotElsewhere(s, pid);
    EnqueueElems(s.ready, prio, pid);
    var m := MadeReady(s, pid, prio);
    hide Enqueue, ListedOk, PlacedOk;
    PlaceOne(s.table, m.table, s.ready, m.ready, s.blocked, s.blocked, Some(pid), None, pid);
  }

  /** Picked at once, the process ends up as if it had been made ready first. */
  lemma PickedAgain(s: Sched, pid: nat, prio: nat)
    requires Inv(s) && s.current == Some(pid) && pid != IDLE && prio < PRIO && s.ready[prio] == []
    requires PickQueue(Enqueue(s.ready, prio, pid), s.credits).1 == prio
    ensures Inv(Dispatch(Requested(s, pid, prio)))
  {
    SameOncePicked(s, pid, prio);
    hide FamilyOk, ListedOk, PlacedOk, Dispatch, PickQueue;
    MadeReadyPlaced(s, pid, prio);
    FamilyFrame(s.table, pid, s.table[pid].(state := Ready, priority := prio), s.nextPid);
    DispatchInv(MadeReady(s, pid, prio));
  }

  /** Otherwise it is left in a ready queue while marked as running. */
  lemma NotPickedAgain(m: Sched, pid: nat, prio: nat)
    requires pid in m.table && m.table[pid].state == Running && prio < PRIO
    requires NoDup(m.ready[prio]) && pid in m.ready[prio] && pid != IDLE
    requires PickQueue(m.ready, m.credits).1 != prio || m.ready[prio][0] != pid
    ensures !Inv(Dispatch(m))
  {
    hide Inv, Dispatch, PickQueue;
    StaysQueued(m, pid, prio);
    RunningStays(m, pid);
    QueuedUnready(Dispatch(m), pid, prio);
  }

  lemma RunningStays(m: Sched, pid: nat)
    requires pid in m.table && m.table[pid].state == Running
    ensures pid in Dispatch(m).table && Dispatch(m).table[pid].state == Running
  {
    hide PickQueue;
  }

  lemma StaysQueued(m: Sched, pid: nat, prio: nat)
    requires prio < PRIO && NoDup(m.ready[prio]) && pid in m.ready[prio]
    requires PickQueue(m.ready, m.credits).1 != prio || m.ready[prio][0] != pid
    ensures pid in Dispatch(m).ready[prio]
  {
    var r := Dispatch(m);
    var n :| 0 <= n < |m.ready[prio]| && m.ready[prio][n] == pid;
    if PickQueue(m.ready, m.credits).1 == prio {
      assert r.ready[prio][n - 1] == pid;
    } else {
      assert r.ready[prio][n] == pid;
    }
  }

  lemma BlockUnsafe(s: Sched, pid: nat)
    requires Inv(s) && s.current.Some? && !MayBlock(s, pid)
    ensures !Inv(Block(s, pid))
  {
    var r := Block(s, pid);
    BlockAppends(s, pid);
    if pid == IDLE {
      hide FamilyOk, Block;
      assert IDLE in r.blocked;
    } else if s.table[pid].state == Blocked {
      assert pid in s.blocked;
      var n :| 0 <= n < |s.blocked| && s.blocked[n] == pid;
      hide FamilyOk, Block;
      assert r.blocked[n] == r.blocked[|s.blocked|] == pid;
    } else {
      assert s.table[pid].state == Zombie;
      var q := s.table[pid].parent.value;
      assert pid in s.table[q].reaped;
      assert s.current != Some(pid);
      hide ListedOk, PlacedOk, ParentsOk, PathsOk;
      assert r.table[pid].state == Blocked && pid in r.table[q].reaped;
    }
  }

  lemma BlockAppends(s: Sched, pid: nat)
    requires Inv(s) && s.current.Some? && pid in s.table
    ensures s.current != Some(pid) || pid == IDLE ==> Block(s, pid).blocked == s.blocked + [pid]
  {
    hide ListedOk, PlacedOk, ParentsOk, PathsOk, ListsOk, PickQueue;
  }

  lemma UnblockUnsafe(s: Sched, pid: nat)
    requires Inv(s) && !MayUnblock(s, pid)
    ensures !Inv(Unblock(s, pid))
  {
    var r := Unblock(s, pid);
    var prio := s.table[pid].priority;
    var n := |s.ready[prio]|;
    assert r.ready[prio][n] == pid && pid in r.ready[prio];
    if pid != IDLE {
      match s.table[pid].state
      case Ready =>
        var k :| 0 <= k < n && s.ready[prio][k] == pid;
        assert r.ready[prio][k] == pid;
      case Running =>
        assert r.current == Some(pid) && r.table[pid].state == Ready;
      case Zombie =>
        var q := s.table[pid].parent.value;
        assert pid in r.table[q].reaped;
      case Blocked =>
        assert PathOk(s.table, pid);
        assert !PathOk(r.table, pid);
    }
  }

  /** Ending idle deletes it; ending a zombie again lists it twice with its parent. */
  lemma TerminateUnsafe(s: Sched, pid: nat)
    requires Inv(s) && !MayTerminate(s, pid)
    ensures !Inv(Terminate(s, pid))
  {
    if pid == IDLE {
      TerminateIdle(s);
    } else {
      hide ListedOk, PlacedOk, PathsOk;
      var q := s.table[pid].parent.value;
      EmptyOrElement(s.table[pid].children);
      EmptyOrElement(s.table[pid].reaped);
      assert pid in s.table[q].reaped;
      assert s.current != Some(pid);
      TwiceReaped(s, pid, q);
    }
  }

  lemma TwiceReaped(s: Sched, pid: nat, q: nat)
    requires pid in s.table && q in s.table && q != pid && s.table[pid].parent == Some(q) && pid in s.table[q].reaped
    requires s.table[pid].children == [] && s.table[pid].reaped == [] && s.current != Some(pid)
    ensures !Inv(Terminate(s, pid))
  {
    var r := Terminate(s, pid);
    assert Settled(s.table, pid).Keys == s.table.Keys && Settled(s.table, pid)[q] == s.table[q];
    assert r.table[q].reaped == [pid] + s.table[q].reaped;
    assert !NoDup(r.table[q].reaped) by {
      var n :| 0 <= n < |s.table[q].reaped| && s.table[q].reaped[n] == pid;
      assert r.table[q].reaped[0] == r.table[q].reaped[n + 1];
    }
    hide ListedOk, PlacedOk, PathsOk, ParentsOk;
  }

  lemma TerminateIdle(s: Sched)
    requires Inv(s)
    ensures !Inv(Terminate(s, IDLE))
  {
    var t := Settled(s.table, IDLE);
    OrphanIs(s.table, s.table[IDLE].children);
    ReapAllIs(Orphan(s.table, s.table[IDLE].children), s.table[IDLE].reaped);
    assert s.table[IDLE].parent.None?;
    hide Orphan, ReapAll;
    assert IDLE in t ==> t[IDLE].parent.None?;
    var s' := HandOver(Retired(s, IDLE), IDLE);
    assert IDLE !in s'.table;
    DispatchKeys(s'.(current := None));
    hide ListedOk, PlacedOk, ParentsOk, ListsOk, PathsOk, Dispatch;
  }

  /** Waiting for someone else's child collects a zombie its parent still lists, or sleeps on a wait
      that its parent's `waitPid` may end first. */
  lemma WaitUnsafe(s: Sched, pid: nat)
    requires Inv(s) && (s.current.Some? ==> s.table[s.current.value].path == UserCode) && !MayWait(s, pid)
    ensures !Inv(WaitPid(s, pid))
  {
    var c := s.current.value;
    hide Inv, WaitPid;
    if s.table[pid].state == Zombie {
      CollectsElsewhere(s, c, pid);
    } else if c == IDLE {
      IdleSleeps(s, pid);
    } else {
      WaitElsewhere(s, c, pid);
    }
  }

  lemma IdleSleeps(s: Sched, pid: nat)
    requires Inv(s) && s.current == Some(IDLE) && pid in s.table && s.table[pid].state != Zombie
    ensures !Inv(WaitPid(s, pid))
  {
    hide PlacedOk, ListsOk, ParentsOk, PathsOk;
    assert WaitPid(s, pid).blocked == s.blocked + [IDLE] by { hide ListedOk; }
    hide WaitPid;
    assert IDLE in WaitPid(s, pid).blocked;
  }

  lemma CollectsElsewhere(s: Sched, c: nat, pid: nat)
    requires Inv(s) && s.current == Some(c) && pid in s.table && s.table[pid].state == Zombie
    requires s.table[pid].parent != Some(c)
    ensures !Inv(WaitPid(s, pid))
  {
    var q := s.table[pid].parent.value;
    assert pid in s.table[q].reaped && q != pid && q != c;
    hide ListedOk, PlacedOk, PathsOk, ParentsOk;
    var r := WaitPid(s, pid);
    assert q in r.table && pid in r.table[q].reaped && pid !in r.table;
  }

  lemma WaitElsewhere(s: Sched, c: nat, pid: nat)
    requires Inv(s) && s.current == Some(c) && c != IDLE && pid in s.table && s.table[pid].state != Zombie
    requires s.table[pid].parent != Some(c)
    ensures !Inv(WaitPid(s, pid))
  {
    CurrentRuns(s, c);
    var p := s.table[c].(waitingPid := pid, path := InWaitPid(pid), state := Blocked);
    hide ListedOk, PlacedOk, ParentsOk, ListsOk, CurrentOk, IdleOk, PidsOk, WaitPid, Dispatch;
    WaitIsSleep(s, c, pid);
    SleptStays(s, c, p, pid);
    assert !PathOk(WaitPid(s, pid).table, c);
  }

  lemma CurrentRuns(s: Sched, c: nat)
    requires Inv(s) && s.current == Some(c) && c != IDLE
    ensures c in s.table && s.table[c].state == Running
  {
  }

  lemma SleptStays(s: Sched, c: nat, p: Process, pid: nat)
    requires c in s.table && pid in s.table && p.state == Blocked
    requires ListedOk(s.table, s.ready, s.blocked) && c != IDLE && s.table[c].state == Running
    ensures var r := Dispatch(Slept(s, c, p));
            c in r.table && pid in r.table && r.table[c] == p
            && r.table[pid].parent == (if pid == c then p.parent else s.table[pid].parent)
  {
  }
}
