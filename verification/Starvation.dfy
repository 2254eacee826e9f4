/** How long a ready process waits for the processor, whatever every other process does meanwhile. */
module Starvation {
  import opened Sequences
  import opened SchedulerModel
  import opened SchedulerInvariant
  import opened SchedulerSteps
  import opened SchedulerExit
  import opened SchedulerRuns
  import opened Fairness

  // ----- positions -----

  /** How many entries stand before the first `x`. */
  function Position(s: seq<nat>, x: nat): (k: nat)
    requires x in s
    ensures k < |s| && s[k] == x
  {
    if s[0] == x then 0 else 1 + Position(s[1..], x)
  }

  lemma {:induction false} AppendKeepsPosition(s: seq<nat>, x: nat, y: nat)
    requires x in s
    ensures x in s + [y] && Position(s + [y], x) == Position(s, x)
  {
    if s[0] != x {
      AppendKeepsPosition(s[1..], x, y);
      assert (s + [y])[1..] == s[1..] + [y];
    }
  }

  lemma {:induction false} RemoveAdvances(s: seq<nat>, x: nat, y: nat)
    requires x in s && y != x
    ensures x in RemoveFirst(s, y) && Position(RemoveFirst(s, y), x) <= Position(s, x)
  {
    if s[0] == y {
    } else if s[0] == x {
    } else {
      RemoveAdvances(s[1..], x, y);
      assert RemoveFirst(s, y)[1..] == RemoveFirst(s[1..], y);
    }
  }

  // ----- potentials -----

  /** Picks of anything else that `x`, queued at priority `q`, may still have to wait for. */
  function PicksLeft(s: Sched, x: nat, q: Priority): nat
    requires x in s.ready[q]
  {
    Delay(s.credits, q) + Bound(q) * Position(s.ready[q], x)
  }

  /** Ticks until the next pick at the latest. */
  function TurnLeft(s: Sched): nat {
    if s.current.Some? && s.current.value != IDLE && s.current.value in s.table
    then s.table[s.current.value].quantum else 1
  }

  /** Nothing was picked: credits and the running process's turn are as before. */
  ghost predicate SameTurn(s: Sched, d: Sched) {
    d.credits == s.credits && TurnLeft(d) == TurnLeft(s)
  }

  /** `x` keeps its place or moves forward. */
  ghost predicate Advances(s: Sched, d: Sched, x: nat, q: Priority)
    requires x in s.ready[q]
  {
    x in d.ready[q] && Position(d.ready[q], x) <= Position(s.ready[q], x)
  }

  lemma EnqueueAdvances(s: Sched, d: Sched, x: nat, q: Priority, p: Priority, pid: nat)
    requires x in s.ready[q] && d.ready == Enqueue(s.ready, p, pid)
    ensures Advances(s, d, x, q)
  {
    AppendKeepsPosition(s.ready[q], x, pid);
  }

  lemma RemoveReadyAdvances(s: Sched, d: Sched, x: nat, q: Priority, p: Priority, pid: nat)
    requires x in s.ready[q] && pid != x && d.ready == RemoveReady(s.ready, p, pid)
    ensures Advances(s, d, x, q)
  {
    RemoveAdvances(s.ready[q], x, pid);
  }

  // ----- picks -----

  /** A dispatch either runs `x` or brings it strictly closer. */
  lemma DispatchShrinks(d: Sched, x: nat, q: Priority)
    requires CreditsOk(d.credits) && x in d.ready[q]
    ensures var r := Dispatch(d);
            r.current == Some(x) || (x in r.ready[q] && PicksLeft(r, x, q) < PicksLeft(d, x, q))
  {
    hide PickQueue, CreditsOk, Delay, Bound, RunHead;
    PickProgress(d.ready, d.credits, q);
    var (c, p) := PickQueue(d.ready, d.credits);
    AfterHead(d.(credits := c), p, x, q);
    if p == q && d.ready[q][0] != x {
      DelayBounded(c, q);
      var k := Position(d.ready[q], x);
      assert Bound(q) * k == Bound(q) * (k - 1) + Bound(q);
    }
  }

  /** Running the head of queue `p` runs `x`, moves it up by one, or leaves its queue alone. */
  lemma AfterHead(s: Sched, p: nat, x: nat, q: Priority)
    requires p < PRIO && s.ready[p] != [] && x in s.ready[q]
    ensures var r := RunHead(s, p);
            && r.credits == s.credits
            && if p != q then r.ready[q] == s.ready[q]
               else if s.ready[q][0] == x then r.current == Some(x)
               else x in r.ready[q] && Position(r.ready[q], x) == Position(s.ready[q], x) - 1
  {
  }

  lemma CloserShrinks(s: Sched, d: Sched, x: nat, q: Priority)
    requires x in s.ready[q] && Advances(s, d, x, q) && d.credits == s.credits
    ensures PicksLeft(d, x, q) <= PicksLeft(s, x, q)
  {
    var k, k' := Position(s.ready[q], x), Position(d.ready[q], x);
    assert Bound(q) * k' + Bound(q) * (k - k') == Bound(q) * k;
  }

  /** The events that choose the next process to run. */
  ghost predicate Picks(s: Sched, e: Event) {
    match e
    case Tick => TurnLeft(s) == 1
    case YieldNow => true
    case BlockPid(pid) => s.current == Some(pid) && pid in s.table
    case Kill(pid) => s.current == Some(pid) && pid in s.table
    case WaitFor(pid) => s.current.Some? && pid in s.table && s.table[pid].state != Zombie
    case SemSleep => true
    case _ => false
  }

  /** Events that take `x` itself out of its queue. */
  ghost predicate Names(e: Event, x: nat) {
    e == BlockPid(x) || e == Kill(x) || (e.SetPriority? && e.pid == x)
  }

  /** The state in which the next process is chosen, if the event chooses one. */
  ghost predicate ViaDispatch(s: Sched, r: Sched, x: nat, q: Priority)
    requires x in s.ready[q]
  {
    exists d: Sched :: d.credits == s.credits && Advances(s, d, x, q) && r == Dispatch(d)
  }

  lemma ViaTick(s: Sched, x: nat, q: Priority)
    requires Inv(s) && x in s.ready[q]
    ensures if TurnLeft(s) == 1 then ViaDispatch(s, Schedule(s), x, q)
            else Advances(s, Schedule(s), x, q) && Schedule(s).credits == s.credits && TurnLeft(Schedule(s)) == TurnLeft(s) - 1
  {
    if s.current.None? || s.current.value == IDLE {
      assert Advances(s, s, x, q);
      assert Schedule(s) == Dispatch(s) by { hide Dispatch; }
    } else {
      var c := s.current.value;
      assert c in s.table && s.table[c].state == Running && 1 <= s.table[c].quantum <= QUANTUM;
      hide Inv, Dispatch, Schedule;
      TickCases(s, c);
      var d := Preempted(s, c);
      EnqueueAdvances(s, d, x, q, s.table[c].priority, c);
      assert d.credits == s.credits;
      hide Enqueue, Preempted;
    }
  }

  lemma ViaYield(s: Sched, x: nat, q: Priority)
    requires Inv(s) && x in s.ready[q] && s.current.Some?
    ensures ViaDispatch(s, Yield(s), x, q)
  {
    var c := s.current.value;
    QuantumInv(s, c);
    var y := s.(table := s.table[c := s.table[c].(quantum := 1)]);
    assert Yield(s) == Schedule(y) && TurnLeft(y) == 1;
    hide Inv, Schedule, Dispatch, Yield;
    ViaTick(y, x, q);
    assert forall d :: Advances(y, d, x, q) ==> Advances(s, d, x, q);
  }

  lemma ViaSleep(s: Sched, c: nat, p: Process, x: nat, q: Priority)
    requires x in s.ready[q]
    ensures ViaDispatch(s, Dispatch(Slept(s, c, p)), x, q)
  {
    assert Advances(s, Slept(s, c, p), x, q);
    hide Dispatch;
  }

  lemma ViaBlock(s: Sched, pid: nat, x: nat, q: Priority)
    requires Inv(s) && x in s.ready[q] && s.current.Some? && MayBlock(s, pid) && pid != x
    ensures if s.current == Some(pid) then ViaDispatch(s, Block(s, pid), x, q)
            else Advances(s, Block(s, pid), x, q) && SameTurn(s, Block(s, pid))
  {
    if s.current == Some(pid) {
      assert s.table[pid].state == Running;
      hide Inv, Dispatch, Block;
      BlockCurrentIsSleep(s, pid);
      ViaSleep(s, pid, s.table[pid].(state := Blocked), x, q);
    } else if pid in s.table {
      RemoveReadyAdvances(s, Block(s, pid), x, q, s.table[pid].priority, pid);
      hide Inv;
    }
  }

  lemma UnblockAdvances(s: Sched, pid: nat, x: nat, q: Priority)
    requires x in s.ready[q]
    ensures Advances(s, Unblock(s, pid), x, q) && SameTurn(s, Unblock(s, pid))
  {
    if pid in s.table {
      EnqueueAdvances(s, Unblock(s, pid), x, q, s.table[pid].priority, pid);
    }
  }

  lemma SemWakeAdvances(s: Sched, pid: nat, x: nat, q: Priority)
    requires x in s.ready[q] && pid in s.table
    ensures Advances(s, SemWake(s, pid), x, q) && SameTurn(s, SemWake(s, pid))
  {
    SemWakeIsWake(s, pid);
    EnqueueAdvances(s, SemWake(s, pid), x, q, s.table[pid].priority, pid);
    hide SemWake;
  }

  lemma ExitedTurn(s: Sched, pid: nat)
    requires Inv(s) && pid in s.table && s.table[pid].state != Zombie && s.current != Some(pid)
    ensures TurnLeft(Exited(s, pid)) == TurnLeft(s)
  {
    ExitHasShape(s.table, pid);
    assert s.current.Some? && s.current.value != IDLE ==>
             var c := s.current.value; c in s.table && s.table[c].state == Running;
    assert forall z <- s.table[pid].reaped :: z in s.table && s.table[z].state == Zombie;
    hide ListedOk, PlacedOk, FamilyOk, ExitTable;
    if s.current.Some? && s.current.value != IDLE {
      var c := s.current.value;
      assert c in ExitTable(s.table, pid);
      assert ExitEntry(s.table, ExitTable(s.table, pid), pid, c);
    }
  }

  lemma ViaKill(s: Sched, pid: nat, x: nat, q: Priority)
    requires Inv(s) && x in s.ready[q] && MayTerminate(s, pid) && pid != x && pid in s.table
    ensures if s.current == Some(pid) then ViaDispatch(s, Terminate(s, pid), x, q)
            else Advances(s, Terminate(s, pid), x, q) && SameTurn(s, Terminate(s, pid))
  {
    TerminateIs(s, pid);
    var e := Exited(s, pid);
    var y := if WakesParent(s.table, pid) then Unblock(e, s.table[pid].parent.value) else e;
    RemoveReadyAdvances(s, e, x, q, s.table[pid].priority, pid);
    if s.current != Some(pid) {
      ExitedTurn(s, pid);
    }
    assert e.credits == s.credits;
    hide Inv, Exited, Terminate, Dispatch;
    UnblockAdvances(e, if WakesParent(s.table, pid) then s.table[pid].parent.value else 0, x, q);
    hide Unblock;
    assert Advances(s, y, x, q) && y.credits == s.credits;
  }

  /** What `waitPid` does to the queues is decided by whether the child has already ended. */
  lemma WaitCases(s: Sched, pid: nat)
    requires Inv(s) && MayWait(s, pid) && s.current.Some? && pid in s.table
    ensures s.current.value in s.table
    ensures s.table[pid].state != Zombie ==> s.current.value != IDLE && s.table[s.current.value].state == Running
    ensures s.table[pid].state == Zombie ==> WaitPid(s, pid) == Reap(s, s.current.value, pid)
  {
    hide ListedOk, PlacedOk, FamilyOk, Block;
  }

  lemma WaitSleeps(s: Sched, c: nat, pid: nat, x: nat, q: Priority)
    requires x in s.ready[q] && s.current == Some(c) && c in s.table && c != IDLE && pid in s.table
    requires s.table[c].state == Running && s.table[pid].state != Zombie
    ensures ViaDispatch(s, WaitPid(s, pid), x, q)
  {
    hide WaitPid, Dispatch, ViaDispatch, Slept;
    WaitIsSleep(s, c, pid);
    ViaSleep(s, c, s.table[c].(waitingPid := pid, path := InWaitPid(pid), state := Blocked), x, q);
  }

  lemma NoWait(s: Sched, pid: nat, x: nat, q: Priority)
    requires x in s.ready[q] && (s.current.None? || pid !in s.table)
    ensures WaitPid(s, pid) == s && Advances(s, s, x, q)
  {
    hide Block;
  }

  lemma ViaWait(s: Sched, pid: nat, x: nat, q: Priority)
    requires Inv(s) && x in s.ready[q] && MayWait(s, pid)
    ensures if Picks(s, WaitFor(pid)) then ViaDispatch(s, WaitPid(s, pid), x, q)
            else Advances(s, WaitPid(s, pid), x, q) && SameTurn(s, WaitPid(s, pid))
  {
    hide Inv, MayWait, WaitPid, ViaDispatch, Advances, Reap, TurnLeft;
    if s.current.None? || pid !in s.table {
      NoWait(s, pid, x, q);
    } else {
      WaitCases(s, pid);
      if s.table[pid].state == Zombie {
        ReapAdvances(s, s.current.value, pid, x, q);
      } else {
        WaitSleeps(s, s.current.value, pid, x, q);
      }
    }
  }

  lemma ReapAdvances(s: Sched, c: nat, pid: nat, x: nat, q: Priority)
    requires Inv(s) && x in s.ready[q] && s.current == Some(c) && pid in s.table && s.table[pid].state == Zombie
    ensures Advances(s, Reap(s, c, pid), x, q) && SameTurn(s, Reap(s, c, pid))
  {
    hide FamilyOk, ListedOk, PlacedOk;
  }

  lemma ViaResume(s: Sched, x: nat, q: Priority)
    requires Inv(s) && x in s.ready[q]
    ensures Advances(s, Resume(s), x, q) && SameTurn(s, Resume(s))
  {
    if s.current.Some? && s.table[s.current.value].path.InWaitPid? {
      ResumeFindsZombie(s);
      ReapAdvances(s, s.current.value, s.table[s.current.value].path.child, x, q);
      hide Inv, Reap;
    }
  }

  lemma ViaSemSleep(s: Sched, x: nat, q: Priority)
    requires Inv(s) && x in s.ready[q] && MaySleep(s)
    ensures ViaDispatch(s, SemBlock(s), x, q)
  {
    var c := s.current.value;
    assert s.table[c].state == Running;
    hide Inv, Dispatch, SemBlock;
    SemBlockIsSleep(s, c);
    ViaSleep(s, c, s.table[c].(path := InSemWait, state := Blocked, quantum := 1), x, q);
  }

  lemma CreateAdvances(s: Sched, x: nat, q: Priority)
    requires Inv(s) && x in s.ready[q]
    ensures Advances(s, Create(s), x, q) && SameTurn(s, Create(s))
  {
    EnqueueAdvances(s, Create(s), x, q, DEFAULT_PRIORITY, s.nextPid);
    hide ListedOk, PlacedOk;
  }

  lemma NiceAdvances(s: Sched, pid: nat, prio: nat, x: nat, q: Priority)
    requires Inv(s) && x in s.ready[q] && MayRenice(s, pid, prio) && pid != x
    ensures Advances(s, Nice(s, pid, prio), x, q) && SameTurn(s, Nice(s, pid, prio))
  {
    hide Inv, Dispatch;
    if Renices(s, pid, prio) && s.table[pid].state == Ready {
      var m := s.(ready := RemoveReady(s.ready, s.table[pid].priority, pid));
      RemoveReadyAdvances(s, m, x, q, s.table[pid].priority, pid);
      EnqueueAdvances(m, Nice(s, pid, prio), x, q, prio, pid);
      hide Enqueue, RemoveReady;
    }
  }

  /** One guarded event that does not name `x`: it runs `x`, or brings it closer by each pick, and a
      tick that picks nothing uses up the running process's turn. */
  lemma StepShrinks(s: Sched, e: Event, x: nat, q: Priority)
    requires Inv(s) && Guard(s, e) && x in s.ready[q] && !Names(e, x)
    ensures var r := Next(s, e);
            r.current != Some(x) ==>
            && x in r.ready[q]
            && PicksLeft(r, x, q) + One(Picks(s, e)) <= PicksLeft(s, x, q)
            && (!Picks(s, e) ==> TurnLeft(r) + One(e == Tick) <= TurnLeft(s))
  {
    var r := Next(s, e);
    EventCases(s, e, x, q);
    assert CreditsOk(s.credits);
    hide Inv, Guard, Next, Picks, TurnLeft, PicksLeft;
    if ViaDispatch(s, r, x, q) && Picks(s, e) {
      var d: Sched :| d.credits == s.credits && Advances(s, d, x, q) && r == Dispatch(d);
      hide Dispatch;
      DispatchShrinks(d, x, q);
      CloserShrinks(s, d, x, q);
    } else {
      CloserShrinks(s, r, x, q);
    }
  }

  /** The outcome of one event for a queued process. */
  ghost predicate Outcome(s: Sched, r: Sched, e: Event, x: nat, q: Priority)
    requires x in s.ready[q]
  {
    if Picks(s, e) then ViaDispatch(s, r, x, q)
    else Advances(s, r, x, q) && r.credits == s.credits && TurnLeft(r) + One(e == Tick) <= TurnLeft(s)
  }

  lemma EventCases(s: Sched, e: Event, x: nat, q: Priority)
    requires Inv(s) && Guard(s, e) && x in s.ready[q] && !Names(e, x)
    ensures Outcome(s, Next(s, e), e, x, q)
  {
    CurrentKnown(s);
    if e.Tick? || e.YieldNow? || e.BlockPid? || e.SemSleep? || e.WaitFor? || e.Kill? {
      TurnEvents(s, e, x, q);
    } else {
      hide Inv, Create, Nice, Unblock, Resume, SemWake, Advances, MayUnblock, MayRenice, TurnLeft;
      match e
      case CreateProcess => CreateAdvances(s, x, q);
      case SetPriority(pid, prio) => NiceAdvances(s, pid, prio, x, q);
      case UnblockPid(pid) => UnblockAdvances(s, pid, x, q);
      case ResumeWait => ViaResume(s, x, q);
      case SemPostTo(pid) => SemWakeAdvances(s, pid, x, q);
    }
  }

  lemma TurnEvents(s: Sched, e: Event, x: nat, q: Priority)
    requires Inv(s) && Guard(s, e) && x in s.ready[q] && !Names(e, x)
    requires s.current.Some? ==> s.current.value in s.table
    requires e.Tick? || e.YieldNow? || e.BlockPid? || e.SemSleep? || e.WaitFor? || e.Kill?
    ensures Outcome(s, Next(s, e), e, x, q)
  {
    hide Inv, Schedule, Yield, Block, Terminate, WaitPid, SemBlock,
      ViaDispatch, Advances, MayBlock, MayTerminate, MayWait, MaySleep, TurnLeft;
    match e
    case Tick => ViaTick(s, x, q);
    case YieldNow => ViaYield(s, x, q);
    case BlockPid(pid) => ViaBlock(s, pid, x, q);
    case Kill(pid) =>
      if pid in s.table {
        ViaKill(s, pid, x, q);
      } else {
        NoKill(s, pid, x, q);
      }
    case WaitFor(pid) => ViaWait(s, pid, x, q);
    case SemSleep => MaySleepIs(s); ViaSemSleep(s, x, q);
  }

  lemma CurrentKnown(s: Sched)
    requires Inv(s)
    ensures s.current.Some? ==> s.current.value in s.table
  {
  }

  lemma MaySleepIs(s: Sched)
    requires MaySleep(s)
    ensures s.current.Some? && s.current.value in s.table
  {
  }

  lemma NoKill(s: Sched, pid: nat, x: nat, q: Priority)
    requires pid !in s.table && x in s.ready[q]
    ensures Terminate(s, pid) == s && Advances(s, s, x, q)
  {
  }

  // ----- turns -----

  /** A dispatch runs the head of one queue with a full quantum, or idle if every queue is empty. */
  lemma FreshTurn(s: Sched)
    requires ListedOk(s.table, s.ready, s.blocked)
    ensures var r := Dispatch(s);
            if forall i | 0 <= i < PRIO :: s.ready[i] == [] then r.current == Some(IDLE) && r.ready == s.ready
            else exists p | 0 <= p < PRIO :: s.ready[p] != [] && HeadRuns(s, r, p)
  {
    PickFindsWork(s.ready, s.credits);
    var q := PickQueue(s.ready, s.credits).1;
    hide PickQueue;
    if q < PRIO {
      assert s.ready[q][0] in s.ready[q];
      assert HeadRuns(s, Dispatch(s), q);
    }
  }

  ghost predicate HeadRuns(s: Sched, r: Sched, p: nat)
    requires p < PRIO && s.ready[p] != []
  {
    var c := s.ready[p][0];
    && r.current == Some(c) && r.ready == s.ready[p := s.ready[p][1..]]
    && c in r.table && r.table[c].state == Running && r.table[c].quantum == QUANTUM
  }

  function Ticked(s: Sched, k: nat): Sched {
    if k == 0 then s else Schedule(Ticked(s, k - 1))
  }

  /** The running process with `n` ticks left. */
  function WithTicks(s: Sched, c: nat, n: nat): Sched
    requires c in s.table
  {
    s.(table := s.table[c := s.table[c].(quantum := n)])
  }

  lemma OneTick(s: Sched, c: nat, n: nat)
    requires s.current == Some(c) && c != IDLE && c in s.table && s.table[c].state == Running && 1 <= n <= QUANTUM
    ensures Schedule(WithTicks(s, c, n)) == if n > 1 then WithTicks(s, c, n - 1) else Dispatch(Preempted(s, c))
  {
    var m := WithTicks(s, c, n);
    var p := s.table[c];
    assert m.table[c := p.(quantum := n - 1)] == s.table[c := p.(quantum := n - 1)];
    assert m.table[c := p.(quantum := 0, state := Ready)] == s.table[c := p.(quantum := 0, state := Ready)];
    TickCases(m, c);
    hide Schedule, Dispatch, Enqueue;
  }

  /** Left alone, the running process keeps the processor for exactly the ticks of its quantum and then
      goes to the end of its own queue. */
  lemma {:induction false} FullTurn(s: Sched, c: nat, k: nat)
    requires s.current == Some(c) && c != IDLE && c in s.table && s.table[c].state == Running
    requires k <= s.table[c].quantum <= QUANTUM
    ensures k < s.table[c].quantum ==> Ticked(s, k) == WithTicks(s, c, s.table[c].quantum - k)
    ensures 0 < k == s.table[c].quantum ==> Ticked(s, k) == Dispatch(Preempted(s, c))
  {
    hide Schedule, Dispatch, WithTicks, Preempted;
    if k == 0 {
      SameTicks(s, c);
    } else {
      FullTurn(s, c, k - 1);
      OneTick(s, c, s.table[c].quantum - (k - 1));
    }
  }

  lemma SameTicks(s: Sched, c: nat)
    requires c in s.table
    ensures WithTicks(s, c, s.table[c].quantum) == s
  {
    assert s.table[c := s.table[c].(quantum := s.table[c].quantum)] == s.table;
  }

  // ----- runs -----

  function Ticks(events: seq<Event>, i: nat, j: nat): nat
    requires i <= j <= |events|
    decreases j
  {
    if i == j then 0 else Ticks(events, i, j - 1) + One(events[j - 1] == Tick)
  }

  ghost function PicksMade(states: seq<Sched>, events: seq<Event>, i: nat, j: nat): nat
    requires i <= j <= |events| < |states|
    decreases j
  {
    if i == j then 0 else PicksMade(states, events, i, j - 1) + One(Picks(states[j - 1], events[j - 1]))
  }

  /** `x` neither runs in the states after `i` up to `j` nor is blocked, killed or reniced on the way. */
  ghost predicate LeftAlone(states: seq<Sched>, events: seq<Event>, x: nat, i: nat, j: nat)
    requires i <= j <= |events| < |states|
  {
    && (forall m | i <= m < j :: !Names(events[m], x))
    && (forall m | i < m <= j :: states[m].current != Some(x))
  }

  lemma AloneBefore(states: seq<Sched>, events: seq<Event>, x: nat, i: nat, j: nat)
    requires i < j <= |events| < |states| && LeftAlone(states, events, x, i, j)
    ensures LeftAlone(states, events, x, i, j - 1) && !Names(events[j - 1], x) && states[j].current != Some(x)
  {
    hide Names;
  }

  lemma WaitStep(a: Sched, e: Event, b: Sched, x: nat, q: Priority)
    requires Inv(a) && Guard(a, e) && b == Next(a, e) && Inv(b)
    requires x in a.ready[q] && !Names(e, x) && b.current != Some(x)
    ensures x in b.ready[q] && PicksLeft(b, x, q) + One(Picks(a, e)) <= PicksLeft(a, x, q)
    ensures One(e == Tick) + TurnLeft(b) <= TurnLeft(a) + QUANTUM * One(Picks(a, e))
  {
    hide Inv, Guard, Next, PicksLeft, TurnLeft, Picks, Names;
    TurnBounded(a);
    TurnBounded(b);
    StepShrinks(a, e, x, q);
  }

  lemma {:induction false} WaitShrinks(states: seq<Sched>, events: seq<Event>, x: nat, q: Priority, i: nat, j: nat)
    requires Run(states, events) && i <= j < |states| && x in states[i].ready[q]
    requires LeftAlone(states, events, x, i, j)
    ensures x in states[j].ready[q]
    ensures PicksLeft(states[j], x, q) + PicksMade(states, events, i, j) <= PicksLeft(states[i], x, q)
    ensures Ticks(events, i, j) + TurnLeft(states[j]) <= TurnLeft(states[i]) + QUANTUM * PicksMade(states, events, i, j)
    decreases j
  {
    hide Run, Guard, Next, Inv, PicksLeft, TurnLeft, Picks, Names, LeftAlone, Position;
    if i < j {
      RunLength(states, events);
      AloneBefore(states, events, x, i, j);
      WaitShrinks(states, events, x, q, i, j - 1);
      RunStep(states, events, j - 1);
      RunInv(states, events, j - 1);
      RunInv(states, events, j);
      WaitStep(states[j - 1], events[j - 1], states[j], x, q);
    }
  }

  lemma TurnBounded(s: Sched)
    requires Inv(s)
    ensures 1 <= TurnLeft(s) <= QUANTUM
  {
  }

  lemma RunLength(states: seq<Sched>, events: seq<Event>)
    requires Run(states, events)
    ensures |states| == |events| + 1
  {
  }

  lemma StartBounded(s: Sched, x: nat, q: Priority)
    requires CreditsOk(s.credits) && x in s.ready[q]
    ensures PicksLeft(s, x, q) < Bound(q) * (Position(s.ready[q], x) + 1)
    ensures Bound(q) * (Position(s.ready[q], x) + 1) <= 19 * (Position(s.ready[q], x) + 1)
  {
    DelayBounded(s.credits, q);
    var k := Position(s.ready[q], x);
    assert Bound(q) * (k + 1) == Bound(q) * k + Bound(q);
    if q == 0 {
    } else if q == 1 {
    } else if q == 2 {
    } else {
      assert Bound(q) == 19;
    }
    hide Delay, Position;
  }

  /** Starvation bound for a process: from position k of ready queue q, in any run and whatever the
      others do, it runs within Bound(q) * (k + 1) picks, at most 19 * (k + 1), and within five times as
      many ticks, at most 95 * (k + 1), unless it is blocked, killed or reniced itself. */
  lemma RunsWithinBound(states: seq<Sched>, events: seq<Event>, x: nat, q: Priority, i: nat, j: nat)
    requires Run(states, events) && i <= j < |states| && x in states[i].ready[q]
    requires forall m | i <= m < j :: !Names(events[m], x)
    requires var n := Bound(q) * (Position(states[i].ready[q], x) + 1);
             PicksMade(states, events, i, j) >= n || Ticks(events, i, j) >= QUANTUM * n
    ensures exists m | i < m <= j :: states[m].current == Some(x)
    ensures Bound(q) * (Position(states[i].ready[q], x) + 1) <= 19 * (Position(states[i].ready[q], x) + 1)
    ensures QUANTUM * (Bound(q) * (Position(states[i].ready[q], x) + 1)) <= 95 * (Position(states[i].ready[q], x) + 1)
  {
    if forall m | i < m <= j :: states[m].current != Some(x) {
      hide Inv, PicksLeft, TurnLeft, Picks, Position, Names, Bound;
      WaitShrinks(states, events, x, q, i, j);
      RunInv(states, events, i);
      RunInv(states, events, j);
      hide Run;
      TurnBounded(states[i]);
      TurnBounded(states[j]);
      EarliestBound(states, events, x, q, i);
    }
    EarliestBound(states, events, x, q, i);
  }

  lemma CreditsOf(s: Sched)
    requires Inv(s)
    ensures CreditsOk(s.credits)
  {
  }

  lemma EarliestBound(states: seq<Sched>, events: seq<Event>, x: nat, q: Priority, i: nat)
    requires Run(states, events) && i < |states| && x in states[i].ready[q]
    ensures PicksLeft(states[i], x, q) < Bound(q) * (Position(states[i].ready[q], x) + 1)
    ensures Bound(q) * (Position(states[i].ready[q], x) + 1) <= 19 * (Position(states[i].ready[q], x) + 1)
  {
    hide Run, Inv, PicksLeft, Bound;
    RunInv(states, events, i);
    CreditsOf(states[i]);
    StartBounded(states[i], x, q);
  }
}
