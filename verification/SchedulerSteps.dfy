/** Every guarded call keeps the scheduler's invariant, and which unguarded calls break it. */
module SchedulerSteps {
  import opened Sequences
  import opened SchedulerModel
  import opened SchedulerInvariant

  // ----- falling asleep and waking up -----

  /** The current process `c` becomes `p` and joins the blocked queue. */
  function Slept(s: Sched, c: nat, p: Process): Sched {
    s.(table := s.table[c := p], blocked := s.blocked + [c])
  }

  lemma SleepPlaced(s: Sched, c: nat, p: Process)
    requires ListedOk(s.table, s.ready, s.blocked) && PlacedOk(s.table, s.ready, s.blocked, Some(c))
    requires c in s.table && c != IDLE && s.table[c].state == Running && p.state == Blocked
    ensures var r := Slept(s, c, p);
            ListedOk(r.table, r.ready, r.blocked) && PlacedOk(r.table, r.ready, r.blocked, None)
  {
    NotElsewhere(s, c);
    hide ListedOk, PlacedOk;
    var r := Slept(s, c, p);
    PlaceOne(s.table, r.table, s.ready, r.ready, s.blocked, r.blocked, Some(c), None, c);
  }

  lemma SleepInv(s: Sched, c: nat, p: Process)
    requires Inv(s) && s.current == Some(c) && c != IDLE && p.state == Blocked
    requires p.waitingPid < s.nextPid && SameKin(s.table[c], p) && PathOk(s.table[c := p], c)
    ensures Inv(Dispatch(Slept(s, c, p)))
  {
    hide FamilyOk, ListedOk, PlacedOk, Dispatch;
    SleepPlaced(s, c, p);
    KinFrame(s.table, c, p, s.nextPid);
    DispatchInv(Slept(s, c, p));
  }

  /** A blocked process becomes `p`, ready at the end of the queue of its priority. */
  function Woken(s: Sched, pid: nat, p: Process): Sched {
    s.(blocked := RemoveFirst(s.blocked, pid), table := s.table[pid := p], ready := Enqueue(s.ready, p.priority, pid))
  }

  lemma WakePlaced(s: Sched, pid: nat, p: Process)
    requires ListedOk(s.table, s.ready, s.blocked) && PlacedOk(s.table, s.ready, s.blocked, s.current)
    requires pid in s.table && pid != IDLE && s.table[pid].state == Blocked
    requires p.state == Ready && p.priority == s.table[pid].priority
    ensures var r := Woken(s, pid, p);
            ListedOk(r.table, r.ready, r.blocked) && PlacedOk(r.table, r.ready, r.blocked, r.current)
  {
    NotElsewhere(s, pid);
    EnqueueElems(s.ready, p.priority, pid);
    RemoveFirstElems(s.blocked, pid);
    hide Enqueue, ListedOk, PlacedOk;
    var r := Woken(s, pid, p);
    PlaceOne(s.table, r.table, s.ready, r.ready, s.blocked, r.blocked, s.current, s.current, pid);
  }

  lemma WakeInv(s: Sched, pid: nat, p: Process)
    requires Inv(s) && pid in s.table && pid != IDLE && s.table[pid].state == Blocked
    requires p.state == Ready && p.priority == s.table[pid].priority
    requires p.waitingPid < s.nextPid && SameKin(s.table[pid], p) && PathOk(s.table[pid := p], pid)
    ensures Inv(Woken(s, pid, p))
  {
    hide FamilyOk, ListedOk, PlacedOk;
    WakePlaced(s, pid, p);
    KinFrame(s.table, pid, p, s.nextPid);
  }

  // ----- block and unblock -----

  /** `block` is safe on an unknown pid, on the running process and on a ready one. */
  ghost predicate MayBlock(s: Sched, pid: nat) {
    pid in s.table ==> pid != IDLE && (s.current == Some(pid) || s.table[pid].state == Ready)
  }

  lemma BlockReadyPlaced(s: Sched, pid: nat)
    requires ListedOk(s.table, s.ready, s.blocked) && PlacedOk(s.table, s.ready, s.blocked, s.current)
    requires pid in s.table && pid != IDLE && s.table[pid].state == Ready && s.current != Some(pid)
    ensures var r := AddToBlocked(s, pid);
            ListedOk(r.table, r.ready, r.blocked) && PlacedOk(r.table, r.ready, r.blocked, r.current)
  {
    NotElsewhere(s, pid);
    RemoveElems(s.ready, s.table[pid].priority, pid);
    hide RemoveReady, ListedOk, PlacedOk;
    var r := AddToBlocked(s, pid);
    PlaceOne(s.table, r.table, s.ready, r.ready, s.blocked, r.blocked, s.current, s.current, pid);
  }

  lemma PathWhenAwake(s: Sched, pid: nat)
    requires FamilyOk(s.table, s.nextPid) && pid in s.table && s.table[pid].state != Zombie
    ensures PathOk(s.table, pid) && s.table[pid].waitingPid < s.nextPid
  {
  }

  lemma BlockCurrentIsSleep(s: Sched, c: nat)
    requires s.current == Some(c) && c in s.table && c != IDLE && s.table[c].state != Blocked
    ensures Block(s, c) == Dispatch(Slept(s, c, s.table[c].(state := Blocked)))
  {
  }

  lemma BlockCurrentInv(s: Sched, c: nat)
    requires Inv(s) && s.current == Some(c) && c != IDLE
    ensures Inv(Block(s, c))
  {
    PathWhenAwake(s, c);
    hide FamilyOk, ListedOk, PlacedOk, PathOk, Dispatch, Block;
    BlockCurrentIsSleep(s, c);
    SamePath(s.table, c, s.table[c].(state := Blocked));
    SleepInv(s, c, s.table[c].(state := Blocked));
  }

  lemma BlockReadyInv(s: Sched, pid: nat)
    requires Inv(s) && pid in s.table && pid != IDLE && s.table[pid].state == Ready && s.current != Some(pid)
    ensures Inv(AddToBlocked(s, pid))
  {
    PathWhenAwake(s, pid);
    hide FamilyOk, ListedOk, PlacedOk, PathOk;
    BlockReadyPlaced(s, pid);
    SamePath(s.table, pid, s.table[pid].(state := Blocked));
    KinFrame(s.table, pid, s.table[pid].(state := Blocked), s.nextPid);
  }

  lemma BlockInv(s: Sched, pid: nat)
    requires Inv(s) && s.current.Some? && MayBlock(s, pid)
    ensures Inv(Block(s, pid))
  {
    if s.current == Some(pid) {
      BlockCurrentInv(s, pid);
    } else if pid in s.table {
      BlockReadyInv(s, pid);
    }
  }

  /** A process asleep on a semaphore, or in `waitPid` on a child still running, must not be woken by hand. */
  ghost predicate MayUnblock(s: Sched, pid: nat) {
    pid in s.table ==>
      && pid != IDLE && s.table[pid].state == Blocked
      && match s.table[pid].path
         case UserCode => true
         case InSemWait => false
         case InWaitPid(c) => c in s.table && s.table[c].state == Zombie
  }

  lemma UnblockInv(s: Sched, pid: nat)
    requires Inv(s) && MayUnblock(s, pid)
    ensures Inv(Unblock(s, pid))
  {
    if pid in s.table {
      PathWhenAwake(s, pid);
      hide FamilyOk, ListedOk, PlacedOk;
      WakeInv(s, pid, s.table[pid].(state := Ready));
    }
  }

  /** Entering or leaving a semaphore wait does not disturb the bookkeeping of `waitPid`. */
  lemma SemPath(t: Table, pid: nat, p: Process)
    requires pid in t && SameKin(t[pid], p) && PathOk(t, pid) && !t[pid].path.InWaitPid?
    requires t[pid].waitingPid == p.waitingPid
    requires p.path == UserCode || (p.path == InSemWait && p.state == Blocked)
    ensures PathOk(t[pid := p], pid)
  {
  }

  lemma SemBlockIsSleep(s: Sched, c: nat)
    requires s.current == Some(c) && c in s.table && c != IDLE && s.table[c].state != Blocked
    ensures SemBlock(s) == Dispatch(Slept(s, c, s.table[c].(path := InSemWait, state := Blocked, quantum := 1)))
  {
  }

  lemma SemBlockInv(s: Sched)
    requires Inv(s) && s.current.Some? && s.current.value != IDLE && s.table[s.current.value].path == UserCode
    ensures Inv(SemBlock(s))
  {
    var c := s.current.value;
    PathWhenAwake(s, c);
    hide FamilyOk, ListedOk, PlacedOk, Dispatch, PathOk;
    SemBlockIsSleep(s, c);
    var p := s.table[c].(path := InSemWait, state := Blocked, quantum := 1);
    SemPath(s.table, c, p);
    SleepInv(s, c, p);
  }

  lemma SemWakeIsWake(s: Sched, pid: nat)
    requires pid in s.table
    ensures SemWake(s, pid) == Woken(s, pid, s.table[pid].(path := UserCode, state := Ready))
  {
    var t := s.table[pid := s.table[pid].(path := UserCode)];
    assert t[pid := t[pid].(state := Ready)] == s.table[pid := s.table[pid].(path := UserCode, state := Ready)];
  }

  lemma SemWakeInv(s: Sched, pid: nat)
    requires Inv(s) && pid in s.table && pid != IDLE && s.table[pid].path == InSemWait && s.table[pid].state != Zombie
    ensures Inv(SemWake(s, pid))
  {
    PathWhenAwake(s, pid);
    SemWakeIsWake(s, pid);
    assert s.table[pid].state == Blocked;
    hide FamilyOk, ListedOk, PlacedOk, PathOk, Woken, SemWake;
    var p := s.table[pid].(path := UserCode, state := Ready);
    SemPath(s.table, pid, p);
    WakeInv(s, pid, p);
  }

  // ----- yield -----

  lemma YieldInv(s: Sched)
    requires Inv(s) && s.current.Some?
    ensures Inv(Yield(s))
  {
    var c := s.current.value;
    QuantumInv(s, c);
    hide Inv, Schedule;
    ScheduleInv(s.(table := s.table[c := s.table[c].(quantum := 1)]));
  }

  lemma QuantumInv(s: Sched, c: nat)
    requires Inv(s) && s.current == Some(c)
    ensures Inv(s.(table := s.table[c := s.table[c].(quantum := 1)]))
  {
    assert IdleOk(s.table);
    hide FamilyOk, ListedOk, PlacedOk;
    FamilyFrame(s.table, c, s.table[c].(quantum := 1), s.nextPid);
    SamePlace(s, c, s.table[c].(quantum := 1));
  }

  // ----- creation -----

  lemma CreatePlaced(s: Sched)
    requires ListedOk(s.table, s.ready, s.blocked) && PlacedOk(s.table, s.ready, s.blocked, s.current)
    requires s.nextPid !in s.table && s.nextPid != IDLE
    ensures var r := Create(s);
            ListedOk(r.table, r.ready, r.blocked) && PlacedOk(r.table, r.ready, r.blocked, r.current)
  {
    var pid, r := s.nextPid, Create(s);
    NotElsewhere(s, pid);
    EnqueueElems(s.ready, DEFAULT_PRIORITY, pid);
    hide Enqueue, ListedOk, PlacedOk;
    PlaceOne(s.table, r.table, s.ready, r.ready, s.blocked, s.blocked, s.current, s.current, pid);
  }

  lemma CreateLists(s: Sched)
    requires ListsOk(s.table) && s.nextPid !in s.table
    requires s.current.Some? ==> s.current.value in s.table && s.table[s.current.value].state != Zombie
    ensures ListsOk(Create(s).table)
  {
  }

  lemma CreateParents(s: Sched)
    requires ParentsOk(s.table) && PidsOk(s.table, s.nextPid)
    requires s.current.Some? ==> s.current.value in s.table && s.table[s.current.value].state != Zombie
    ensures ParentsOk(Create(s).table) && PidsOk(Create(s).table, Create(s).nextPid)
  {
  }

  lemma CreatePaths(s: Sched)
    requires PathsOk(s.table) && ParentsOk(s.table) && PidsOk(s.table, s.nextPid)
    requires s.current.Some? ==> s.current.value in s.table
    ensures PathsOk(Create(s).table)
  {
    var u := Create(s).table;
    assert s.nextPid !in s.table && forall c <- s.table :: s.table[c].parent != Some(s.nextPid);
    forall p | p in u && u[p].state != Zombie ensures PathOk(u, p) {
      if p != s.nextPid {
        assert PathOk(s.table, p) && s.table[p].waitingPid < s.nextPid;
        hide PathsOk, ParentsOk, PidsOk;
        CreatePath(s, p);
      }
    }
  }

  lemma CreatePath(s: Sched, p: nat)
    requires p in s.table && s.nextPid !in s.table && PathOk(s.table, p) && s.table[p].waitingPid < s.nextPid
    requires s.current.Some? ==> s.current.value in s.table
    ensures PathOk(Create(s).table, p)
  {
  }

  lemma CreateIdle(s: Sched)
    requires IdleOk(s.table) && CurrentOk(s.table, s.current) && s.nextPid !in s.table
    ensures IdleOk(Create(s).table) && CurrentOk(Create(s).table, s.current)
  {
  }

  lemma CreateInv(s: Sched)
    requires Inv(s)
    ensures Inv(Create(s))
  {
    assert s.nextPid !in s.table && s.nextPid != IDLE;
    assert s.current.Some? ==> s.current.value in s.table && s.table[s.current.value].state != Zombie;
    hide ListedOk, PlacedOk, ListsOk, ParentsOk, PathsOk, IdleOk, PidsOk, CurrentOk;
    CreatePlaced(s);
    CreateLists(s);
    CreateParents(s);
    CreatePaths(s);
    CreateIdle(s);
  }

  // ----- priorities -----

  lemma MovedPlaced(s: Sched, pid: nat, prio: Priority)
    requires ListedOk(s.table, s.ready, s.blocked) && PlacedOk(s.table, s.ready, s.blocked, s.current)
    requires pid in s.table && pid != IDLE && s.table[pid].state == Ready
    ensures var r := Moved(s, pid, prio);
            ListedOk(r.table, r.ready, r.blocked) && PlacedOk(r.table, r.ready, r.blocked, r.current)
  {
    var r := Moved(s, pid, prio);
    var was := s.table[pid].priority;
    NotElsewhere(s, pid);
    RemoveElems(s.ready, was, pid);
    EnqueueElems(RemoveReady(s.ready, was, pid), prio, pid);
    hide Enqueue, RemoveReady, ListedOk, PlacedOk;
    PlaceOne(s.table, r.table, s.ready, r.ready, s.blocked, s.blocked, s.current, s.current, pid);
  }

  ghost predicate Renices(s: Sched, pid: nat, prio: nat) {
    prio < PRIO && pid in s.table && s.table[pid].priority != prio
  }

  lemma MovedIs(s: Sched, pid: nat, prio: Priority)
    requires pid in s.table
    ensures var r := Moved(s, pid, prio);
            && r.table == s.table[pid := s.table[pid].(priority := prio)]
            && r.current == s.current && r.credits == s.credits && r.nextPid == s.nextPid
  {
  }

  lemma NiceInv(s: Sched, pid: nat, prio: nat)
    requires Inv(s) && (Renices(s, pid, prio) ==> pid != IDLE && s.table[pid].state != Running)
    ensures Inv(Nice(s, pid, prio))
  {
    hide FamilyOk, ListedOk, PlacedOk;
    if Renices(s, pid, prio) && s.table[pid].state != Zombie {
      FamilyFrame(s.table, pid, s.table[pid].(priority := prio), s.nextPid);
      hide Moved;
      if s.table[pid].state == Blocked {
        SamePlace(s, pid, s.table[pid].(priority := prio));
      } else {
        MovedIs(s, pid, prio);
        MovedPlaced(s, pid, prio);
      }
    }
  }
}
