/** Termination, waiting and reaping: what happens to a process's family when it ends. */
module SchedulerExit {
  import opened Sequences
  import opened SchedulerModel
  import opened SchedulerInvariant
  import opened SchedulerSteps

  lemma {:induction false} OrphanIs(t: Table, kids: seq<nat>)
    ensures Orphan(t, kids).Keys == t.Keys
    ensures forall x <- t :: Orphan(t, kids)[x] == if x in kids then t[x].(parent := None) else t[x]
  {
    if kids != [] {
      var t' := if kids[0] in t then t[kids[0] := t[kids[0]].(parent := None)] else t;
      OrphanIs(t', kids[1..]);
      assert forall x :: x in kids <==> x == kids[0] || x in kids[1..];
    }
  }

  lemma {:induction false} ReapAllIs(t: Table, zombies: seq<nat>)
    ensures forall x :: x in ReapAll(t, zombies) <==> x in t && x !in zombies
    ensures forall x <- ReapAll(t, zombies) :: ReapAll(t, zombies)[x] == t[x]
  {
    if zombies != [] {
      ReapAllIs(t - {zombies[0]}, zombies[1..]);
      assert forall x :: x in zombies <==> x == zombies[0] || x in zombies[1..];
    }
  }

  // ----- the table after an exit -----

  function Settled(t: Table, pid: nat): Table
    requires pid in t
  {
    Buried(ReapAll(Orphan(t, t[pid].children), t[pid].reaped), pid)
  }

  function Departed(u: Table, parent: Option<nat>, pid: nat): Table {
    match parent
    case None => u - {pid}
    case Some(q) => if q in u then MoveToReaped(u, q, pid) else u
  }

  /** The table once the process has left: its children orphaned, its zombies gone, itself handed to
      its parent as a zombie or deleted. */
  function ExitTable(t: Table, pid: nat): Table
    requires pid in t
  {
    Departed(Settled(t, pid), t[pid].parent, pid)
  }

  ghost predicate ExitKeys(t: Table, u: Table, pid: nat)
    requires pid in t
  {
    forall x :: x in u <==> x in t && x !in t[pid].reaped && (x == pid ==> t[pid].parent.Some?)
  }

  ghost predicate ExitEntry(t: Table, u: Table, pid: nat, x: nat)
    requires pid in t && x in t && x in u
  {
    var p, q := t[x], u[x];
    && q.path == p.path && q.waitingPid == p.waitingPid && q.priority == p.priority && q.quantum == p.quantum
    && q.state == (if x == pid then Zombie else p.state)
    && q.parent == (if x in t[pid].children then None else p.parent)
    && q.children == (if x == pid then [] else if t[pid].parent == Some(x) then RemoveFirst(p.children, pid) else p.children)
    && q.reaped == (if x == pid then [] else if t[pid].parent == Some(x) then [pid] + p.reaped else p.reaped)
  }

  ghost predicate ExitShape(t: Table, u: Table, pid: nat)
    requires pid in t
  {
    ExitKeys(t, u, pid) && forall x <- u :: x in t && ExitEntry(t, u, pid, x)
  }

  /** Where a process stands in its own family. */
  lemma OwnKin(t: Table, pid: nat)
    requires ListsOk(t) && ParentsOk(t) && pid in t && t[pid].state != Zombie
    ensures pid !in t[pid].children && pid !in t[pid].reaped
    ensures t[pid].parent.Some? ==>
              var q := t[pid].parent.value;
              && q in t && q != pid && t[q].state != Zombie
              && q !in t[pid].reaped && q !in t[pid].children && pid in t[q].children
  {
    assert forall c <- t[pid].children :: c in t && t[c].parent == Some(pid) && pid < c;
    assert forall c <- t[pid].reaped :: c in t && t[c].state == Zombie;
  }

  ghost predicate SettledEntry(t: Table, u: Table, pid: nat, x: nat)
    requires pid in t && x in t && x in u
  {
    u[x] == var p := if x in t[pid].children then t[x].(parent := None) else t[x];
            if x == pid then p.(children := [], reaped := [], state := Zombie) else p
  }

  lemma SettledShape(t: Table, pid: nat)
    requires pid in t && pid !in t[pid].reaped
    ensures forall x :: x in Settled(t, pid) <==> x in t && x !in t[pid].reaped
    ensures forall x <- Settled(t, pid) :: SettledEntry(t, Settled(t, pid), pid, x)
  {
    OrphanIs(t, t[pid].children);
    ReapAllIs(Orphan(t, t[pid].children), t[pid].reaped);
    hide Orphan, ReapAll;
  }

  lemma DepartedEntry(t: Table, b: Table, pid: nat, x: nat)
    requires pid in t && x in t && x in b && SettledEntry(t, b, pid, x)
    requires x == pid ==> t[pid].parent.Some?
    requires t[pid].parent.Some? ==> t[pid].parent.value in b && t[pid].parent.value != pid
    requires t[pid].parent == Some(x) ==> x !in t[pid].children
    ensures x in Departed(b, t[pid].parent, pid) && ExitEntry(t, Departed(b, t[pid].parent, pid), pid, x)
  {
  }

  lemma DepartedShape(t: Table, b: Table, pid: nat)
    requires pid in t && forall x :: x in b <==> x in t && x !in t[pid].reaped
    requires forall x <- b :: SettledEntry(t, b, pid, x)
    requires pid in b
    requires t[pid].parent.Some? ==>
               var q := t[pid].parent.value; q in b && q != pid && q !in t[pid].children
    ensures ExitShape(t, Departed(b, t[pid].parent, pid), pid)
  {
    hide SettledEntry, ExitEntry;
    var u := Departed(b, t[pid].parent, pid);
    forall x | x in u ensures x in t && ExitEntry(t, u, pid, x) {
      DepartedEntry(t, b, pid, x);
    }
  }

  lemma ExitHasShape(t: Table, pid: nat)
    requires ListsOk(t) && ParentsOk(t) && pid in t && t[pid].state != Zombie
    ensures ExitShape(t, ExitTable(t, pid), pid)
  {
    OwnKin(t, pid);
    hide ListsOk, ParentsOk, Settled, SettledEntry, ExitShape, Departed;
    SettledShape(t, pid);
    DepartedShape(t, Settled(t, pid), pid);
  }

  lemma ExitLists(t: Table, u: Table, pid: nat)
    requires ListsOk(t) && ParentsOk(t) && pid in t && t[pid].state != Zombie && ExitShape(t, u, pid)
    ensures ListsOk(u)
  {
    OwnKin(t, pid);
    forall q | q in u
      ensures NoDup(u[q].children) && NoDup(u[q].reaped)
      ensures forall c <- u[q].children :: c in u && u[c].state != Zombie && u[c].parent == Some(q)
      ensures forall c <- u[q].reaped :: c in u && u[c].state == Zombie && u[c].parent == Some(q)
    {
      ExitListsOf(t, u, pid, q);
    }
  }

  lemma ExitListsOf(t: Table, u: Table, pid: nat, q: nat)
    requires ListsOk(t) && pid in t && t[pid].state != Zombie && ExitShape(t, u, pid) && q in u
    requires t[pid].parent.Some? ==> t[pid].parent.value != pid
    ensures NoDup(u[q].children) && NoDup(u[q].reaped)
    ensures forall c <- u[q].children :: c in u && u[c].state != Zombie && u[c].parent == Some(q)
    ensures forall c <- u[q].reaped :: c in u && u[c].state == Zombie && u[c].parent == Some(q)
  {
    assert ExitEntry(t, u, pid, q);
    if q != pid {
      RemoveFirstElems(t[q].children, pid);
      forall c | c in u[q].children ensures c in u && u[c].state != Zombie && u[c].parent == Some(q) {
        assert c in t[q].children && c in t && t[c].parent == Some(q) && t[c].state != Zombie;
        assert c != pid;
        assert c !in t[pid].reaped && c !in t[pid].children;
        assert ExitEntry(t, u, pid, c);
      }
      forall c | c in u[q].reaped ensures c in u && u[c].state == Zombie && u[c].parent == Some(q) {
        if c == pid {
          assert ExitEntry(t, u, pid, pid);
        } else {
          assert c in t[q].reaped && t[c].parent == Some(q) && t[c].state == Zombie;
          assert c !in t[pid].reaped && c !in t[pid].children;
          assert ExitEntry(t, u, pid, c);
        }
      }
    }
  }

  lemma ExitParents(t: Table, u: Table, pid: nat)
    requires ListsOk(t) && ParentsOk(t) && pid in t && t[pid].state != Zombie && ExitShape(t, u, pid)
    ensures ParentsOk(u)
  {
    OwnKin(t, pid);
    forall p | p in u
      ensures u[p].state == Zombie ==> u[p].parent.Some?
      ensures u[p].parent.Some? ==>
                var q := u[p].parent.value;
                && q < p && q in u && u[q].state != Zombie
                && p in (if u[p].state == Zombie then u[q].reaped else u[q].children)
    {
      ExitParentsOf(t, u, pid, p);
    }
  }

  lemma ExitParentsOf(t: Table, u: Table, pid: nat, p: nat)
    requires ListsOk(t) && ParentsOk(t) && pid in t && t[pid].state != Zombie && ExitShape(t, u, pid) && p in u
    requires pid !in t[pid].children
    ensures u[p].state == Zombie ==> u[p].parent.Some?
    ensures u[p].parent.Some? ==>
              var q := u[p].parent.value;
              && q < p && q in u && u[q].state != Zombie
              && p in (if u[p].state == Zombie then u[q].reaped else u[q].children)
  {
    assert ExitEntry(t, u, pid, p);
    if u[p].parent.Some? {
      var q := u[p].parent.value;
      assert t[p].parent == Some(q) && q in t && t[q].state != Zombie;
      assert q != pid;
      assert q !in t[pid].reaped;
      assert ExitEntry(t, u, pid, q);
      RemoveFirstElems(t[q].children, pid);
    }
  }

  lemma ExitPaths(t: Table, u: Table, pid: nat)
    requires ListsOk(t) && ParentsOk(t) && PathsOk(t)
    requires pid in t && t[pid].state != Zombie && ExitShape(t, u, pid)
    ensures PathsOk(u)
  {
    OwnKin(t, pid);
    assert forall c <- t[pid].children + t[pid].reaped :: c in t && t[c].parent == Some(pid);
    hide ListsOk, ParentsOk;
    forall p | p in u && u[p].state != Zombie ensures PathOk(u, p) {
      assert ExitEntry(t, u, pid, p) && PathOk(t, p);
      hide PathsOk;
      ExitPath(t, u, pid, p);
    }
  }

  lemma ExitPath(t: Table, u: Table, pid: nat, p: nat)
    requires pid in t && ExitShape(t, u, pid) && p in u && p != pid && p in t && PathOk(t, p)
    requires ExitEntry(t, u, pid, p)
    requires forall c <- t[pid].children + t[pid].reaped :: c in t && t[c].parent == Some(pid)
    ensures PathOk(u, p)
  {
    forall c | c in u ensures c in t && ExitEntry(t, u, pid, c) {
    }
    if t[p].path.InWaitPid? {
      var c := t[p].path.child;
      assert c !in t[pid].children + t[pid].reaped;
      assert c in u;
    }
  }

  // ----- terminateProcess -----

  /** The scheduler once `pid` has left every queue and list; nobody is current if it was. */
  function Exited(s: Sched, pid: nat): Sched
    requires pid in s.table
  {
    s.(ready := RemoveReady(s.ready, s.table[pid].priority, pid), blocked := RemoveFirst(s.blocked, pid),
       table := ExitTable(s.table, pid), current := if s.current == Some(pid) then None else s.current)
  }

  /** The parent is asleep waiting for this child (or for any). */
  ghost predicate WakesParent(t: Table, pid: nat)
    requires pid in t
  {
    match t[pid].parent
    case None => false
    case Some(q) => q in t && t[q].state == Blocked && (t[q].waitingPid == 0 || t[q].waitingPid == pid)
  }

  lemma ExitPlaced(s: Sched, pid: nat)
    requires ListedOk(s.table, s.ready, s.blocked) && PlacedOk(s.table, s.ready, s.blocked, s.current)
    requires ListsOk(s.table) && ParentsOk(s.table) && pid in s.table && pid != IDLE && s.table[pid].state != Zombie
    ensures var r := Exited(s, pid);
            ListedOk(r.table, r.ready, r.blocked) && PlacedOk(r.table, r.ready, r.blocked, r.current)
  {
    hide ListedOk, PlacedOk, OthersKept, PutRight;
    var r := Exited(s, pid);
    ExitMoves(s, pid);
    PlaceOne(s.table, r.table, s.ready, r.ready, s.blocked, r.blocked, s.current, r.current, pid);
  }

  lemma ExitMoves(s: Sched, pid: nat)
    requires ListedOk(s.table, s.ready, s.blocked) && PlacedOk(s.table, s.ready, s.blocked, s.current)
    requires ListsOk(s.table) && ParentsOk(s.table) && pid in s.table && pid != IDLE && s.table[pid].state != Zombie
    ensures var r := Exited(s, pid);
            && OthersKept(s.table, r.table, s.ready, r.ready, s.blocked, r.blocked, pid)
            && PutRight(r.table, r.ready, r.blocked, r.current, pid)
  {
    hide ListsOk, ParentsOk, ExitTable, RemoveReady, ExitShape, QueuesKept, ListedOk, PlacedOk;
    ExitHasShape(s.table, pid);
    ReapedAreZombies(s.table, pid);
    ExitQueues(s, pid);
    ExitKeepsOthers(s, pid);
  }

  lemma ReapedAreZombies(t: Table, pid: nat)
    requires ListsOk(t) && pid in t
    ensures forall c <- t[pid].reaped :: c in t && t[c].state == Zombie
  {
  }

  lemma ExitQueues(s: Sched, pid: nat)
    requires ListedOk(s.table, s.ready, s.blocked) && pid in s.table && pid != IDLE
    ensures var (r, b) := (RemoveReady(s.ready, s.table[pid].priority, pid), RemoveFirst(s.blocked, pid));
            && QueuesKept(s.ready, r, s.blocked, b, pid)
            && pid !in b && forall i | 0 <= i < PRIO :: pid !in r[i]
  {
    assert forall i | 0 <= i < PRIO && i != s.table[pid].priority :: pid !in s.ready[i];
    RemoveElems(s.ready, s.table[pid].priority, pid);
    RemoveFirstElems(s.blocked, pid);
    hide RemoveReady, RemoveFirst, ListedOk;
  }

  lemma ExitKeepsOthers(s: Sched, pid: nat)
    requires pid in s.table && ExitShape(s.table, ExitTable(s.table, pid), pid)
    requires forall c <- s.table[pid].reaped :: c in s.table && s.table[c].state == Zombie
    ensures var u := ExitTable(s.table, pid);
            && (forall p <- u :: p in s.table && u[p].priority == s.table[p].priority && u[p].quantum == s.table[p].quantum
                                 && u[p].state == if p == pid then Zombie else s.table[p].state)
            && (forall p <- s.table :: p != pid && p !in u ==> s.table[p].state == Zombie)
  {
    var u := ExitTable(s.table, pid);
    forall p | p in u ensures p in s.table && ExitEntry(s.table, u, pid, p) {
    }
  }

  lemma ExitIdle(t: Table, u: Table, pid: nat, current: Option<nat>, nextPid: nat)
    requires pid in t && pid != IDLE && ExitShape(t, u, pid)
    requires forall c <- t[pid].reaped :: c in t && t[c].state == Zombie
    requires IdleOk(t) && PidsOk(t, nextPid) && CurrentOk(t, current)
    ensures IdleOk(u) && PidsOk(u, nextPid)
    ensures CurrentOk(u, if current == Some(pid) then None else current)
  {
    forall p | p in u
      ensures p in t && u[p].waitingPid == t[p].waitingPid && u[p].quantum == t[p].quantum
      ensures p != pid ==> u[p].state == t[p].state
      ensures t[p].parent.None? ==> u[p].parent.None?
    {
      assert ExitEntry(t, u, pid, p);
    }
  }

  lemma ExitedInv(s: Sched, pid: nat)
    requires Inv(s) && pid in s.table && pid != IDLE && s.table[pid].state != Zombie
    ensures Inv(Exited(s, pid))
  {
    assert forall c <- s.table[pid].reaped :: c in s.table && s.table[c].state == Zombie;
    hide ListedOk, PlacedOk, ListsOk, ParentsOk, PathsOk, IdleOk, PidsOk, CurrentOk, ExitTable, ExitShape;
    ExitHasShape(s.table, pid);
    ExitPlaced(s, pid);
    var u := ExitTable(s.table, pid);
    ExitIdle(s.table, u, pid, s.current, s.nextPid);
    ExitLists(s.table, u, pid);
    ExitParents(s.table, u, pid);
    ExitPaths(s.table, u, pid);
  }

  lemma HandOverIs(s: Sched, pid: nat)
    requires ListsOk(s.table) && ParentsOk(s.table) && pid in s.table && s.table[pid].state != Zombie
    ensures var x := Exited(s, pid).(current := s.current);
            HandOver(Retired(s, pid), pid)
            == if WakesParent(s.table, pid) then Unblock(x, s.table[pid].parent.value) else x
  {
    OwnKin(s.table, pid);
    SettledShape(s.table, pid);
    hide ListsOk, ParentsOk, Orphan, ReapAll;
    var b := Settled(s.table, pid);
    assert SettledEntry(s.table, b, pid, pid);
    if s.table[pid].parent.Some? {
      assert SettledEntry(s.table, b, pid, s.table[pid].parent.value);
    }
  }

  /** A waiting parent sleeps in `waitPid` on exactly this child, so waking it is sound. */
  lemma WokenParent(s: Sched, pid: nat)
    requires Inv(s) && pid in s.table && pid != IDLE && s.table[pid].state != Zombie && WakesParent(s.table, pid)
    ensures MayUnblock(Exited(s, pid), s.table[pid].parent.value)
    ensures s.table[pid].parent.value != pid
  {
    var t, q := s.table, s.table[pid].parent.value;
    var u := ExitTable(t, pid);
    OwnKin(t, pid);
    assert t[q].path == InWaitPid(pid) by { assert PathOk(t, q); }
    ExitHasShape(t, pid);
    hide ListedOk, PlacedOk, ListsOk, ParentsOk, ExitTable;
    assert pid in u && q in u;
    assert ExitEntry(t, u, pid, q) && ExitEntry(t, u, pid, pid);
  }

  /** `kill` is safe on an unknown pid and on any process but idle that has not already ended. */
  ghost predicate MayTerminate(s: Sched, pid: nat) {
    pid in s.table ==> pid != IDLE && s.table[pid].state != Zombie
  }

  lemma TerminateIs(s: Sched, pid: nat)
    requires ListsOk(s.table) && ParentsOk(s.table) && pid in s.table && s.table[pid].state != Zombie
    ensures var x := Exited(s, pid);
            var y := if WakesParent(s.table, pid) then Unblock(x, s.table[pid].parent.value) else x;
            Terminate(s, pid) == if s.current == Some(pid) then Dispatch(y) else y
  {
    hide ListsOk, ParentsOk, Dispatch, Exited, Retired, HandOver;
    HandOverIs(s, pid);
    ExitedCurrent(s, pid);
  }

  lemma ExitedCurrent(s: Sched, pid: nat)
    requires pid in s.table
    ensures Exited(s, pid).current == if s.current == Some(pid) then None else s.current
  {
  }

  lemma TerminateInv(s: Sched, pid: nat)
    requires Inv(s) && MayTerminate(s, pid)
    ensures Inv(Terminate(s, pid))
  {
    if pid in s.table {
      TerminateIs(s, pid);
      ExitedInv(s, pid);
      ExitedCurrent(s, pid);
      var x := Exited(s, pid);
      var y := if WakesParent(s.table, pid) then Unblock(x, s.table[pid].parent.value) else x;
      if WakesParent(s.table, pid) {
        WokenParent(s, pid);
        hide Exited, PreDispatch, PlacedOk, CurrentOk, Dispatch, Terminate, MayUnblock;
        UnblockInv(x, s.table[pid].parent.value);
      }
      hide Exited, ListedOk, FamilyOk, CreditsOk, Dispatch, Terminate;
      if s.current == Some(pid) {
        DispatchInv(y);
      }
    }
  }

  /** A parent asleep in `waitPid` on a child wakes when that child ends: no wake-up is lost. */
  lemma WakesWaitingParent(s: Sched, pid: nat, q: nat)
    requires Inv(s) && MayTerminate(s, pid) && pid in s.table && s.table[pid].parent == Some(q)
    requires q in s.table && s.table[q].path == InWaitPid(pid)
    ensures var r := Terminate(s, pid);
            q in r.table && (r.table[q].state == Ready || r.table[q].state == Running)
  {
    WaiterWakes(s.table, pid, q);
    TerminateIs(s, pid);
    hide Inv, Terminate, Exited, MayTerminate, Dispatch, Unblock;
    ExitedKeepsParent(s, pid, q);
    var x := Exited(s, pid);
    UnblockedIsReady(x, q);
    DispatchStates(Unblock(x, q), q);
  }

  lemma WaiterWakes(t: Table, pid: nat, q: nat)
    requires PathsOk(t) && ParentsOk(t) && pid in t && t[pid].state != Zombie && t[pid].parent == Some(q)
    requires q in t && t[q].path == InWaitPid(pid)
    ensures WakesParent(t, pid)
  {
    assert PathOk(t, q);
  }

  lemma ExitedKeepsParent(s: Sched, pid: nat, q: nat)
    requires ListsOk(s.table) && ParentsOk(s.table) && pid in s.table && s.table[pid].state != Zombie
    requires s.table[pid].parent == Some(q)
    ensures q in Exited(s, pid).table
  {
    OwnKin(s.table, pid);
    ExitHasShape(s.table, pid);
    hide ExitTable, ListsOk, ParentsOk;
  }

  lemma UnblockedIsReady(s: Sched, q: nat)
    requires q in s.table
    ensures q in Unblock(s, q).table && Unblock(s, q).table[q].state == Ready
  {
    hide Enqueue;
  }

  lemma DispatchStates(s: Sched, q: nat)
    requires q in s.table && s.table[q].state == Ready
    ensures q in Dispatch(s).table && (Dispatch(s).table[q].state == Ready || Dispatch(s).table[q].state == Running)
  {
    hide PickQueue;
  }

  // ----- waitPid -----

  ghost predicate ReapShape(t: Table, u: Table, q: nat, pid: nat)
    requires q in t
  {
    && u.Keys == t.Keys - {pid}
    && forall x <- u :: u[x] == if x == q then t[x].(reaped := RemoveFirst(t[x].reaped, pid), path := UserCode) else t[x]
  }

  ghost predicate IsZombieOf(t: Table, pid: nat, q: nat) {
    pid in t && q in t && t[pid].state == Zombie && t[pid].parent == Some(q)
  }

  /** Nobody has a zombie for a parent, so nobody else's lists mention it. */
  lemma ZombieAlone(t: Table, pid: nat, q: nat)
    requires ListsOk(t) && ParentsOk(t) && IsZombieOf(t, pid, q)
    ensures q != pid && t[q].state != Zombie
    ensures forall x <- t :: t[x].parent != Some(pid)
    ensures forall x <- t :: pid !in t[x].children && (pid in t[x].reaped <==> x == q)
  {
  }

  lemma ReapLists(t: Table, u: Table, q: nat, pid: nat)
    requires ListsOk(t) && ParentsOk(t) && IsZombieOf(t, pid, q) && ReapShape(t, u, q, pid)
    ensures ListsOk(u)
  {
    ZombieAlone(t, pid, q);
    RemoveFirstElems(t[q].reaped, pid);
    hide ParentsOk, RemoveFirst;
  }

  lemma ReapParents(t: Table, u: Table, q: nat, pid: nat)
    requires ListsOk(t) && ParentsOk(t) && IsZombieOf(t, pid, q) && ReapShape(t, u, q, pid)
    ensures ParentsOk(u)
  {
    ZombieAlone(t, pid, q);
    assert NoDup(t[q].reaped);
    RemoveFirstElems(t[q].reaped, pid);
    hide ListsOk, RemoveFirst, NoDup;
  }

  lemma ReapPaths(t: Table, u: Table, q: nat, pid: nat)
    requires ListsOk(t) && ParentsOk(t) && PathsOk(t) && IsZombieOf(t, pid, q) && ReapShape(t, u, q, pid)
    requires pid != 0 && (t[q].path == UserCode || t[q].path == InWaitPid(pid))
    ensures PathsOk(u)
  {
    ZombieAlone(t, pid, q);
    hide ListsOk, ParentsOk;
    forall p | p in u && u[p].state != Zombie ensures PathOk(u, p) {
      assert PathOk(t, p);
      hide PathsOk;
      ReapPath(t, u, q, pid, p);
    }
  }

  lemma ReapPath(t: Table, u: Table, q: nat, pid: nat, p: nat)
    requires IsZombieOf(t, pid, q) && q != pid && ReapShape(t, u, q, pid) && p in u && PathOk(t, p)
    requires pid != 0 && (t[q].path == UserCode || t[q].path == InWaitPid(pid))
    ensures PathOk(u, p)
  {
  }

  lemma ReapPlaced(s: Sched, q: nat, pid: nat)
    requires ListedOk(s.table, s.ready, s.blocked) && PlacedOk(s.table, s.ready, s.blocked, s.current)
    requires q in s.table && pid in s.table && s.table[pid].state == Zombie && pid != q
    ensures var u := Reap(s, q, pid).table;
            ListedOk(u, s.ready, s.blocked) && PlacedOk(u, s.ready, s.blocked, s.current)
  {
    NotElsewhere(s, pid);
    hide ListedOk, PlacedOk;
    PlaceOne(s.table, Reap(s, q, pid).table, s.ready, s.ready, s.blocked, s.blocked, s.current, s.current, pid);
  }

  lemma ReapRest(s: Sched, q: nat, pid: nat)
    requires IdleOk(s.table) && PidsOk(s.table, s.nextPid) && CurrentOk(s.table, s.current)
    requires s.current == Some(q) && IsZombieOf(s.table, pid, q) && pid != q
    ensures var u := Reap(s, q, pid).table;
            && IdleOk(u) && PidsOk(u, s.nextPid) && CurrentOk(u, s.current) && ReapShape(s.table, u, q, pid) && pid != 0
  {
  }

  lemma ReapInv(s: Sched, q: nat, pid: nat)
    requires Inv(s) && s.current == Some(q) && IsZombieOf(s.table, pid, q)
    requires s.table[q].path == UserCode || s.table[q].path == InWaitPid(pid)
    ensures Inv(Reap(s, q, pid))
  {
    hide ListedOk, PlacedOk, ListsOk, ParentsOk, PathsOk, IdleOk, PidsOk, CurrentOk, Reap, ReapShape;
    ZombieAlone(s.table, pid, q);
    ReapRest(s, q, pid);
    ReapPlaced(s, q, pid);
    var u := Reap(s, q, pid).table;
    ReapLists(s.table, u, q, pid);
    ReapParents(s.table, u, q, pid);
    ReapPaths(s.table, u, q, pid);
    ReapFrame(s, q, pid);
  }

  lemma ReapFrame(s: Sched, q: nat, pid: nat)
    requires q in s.table
    ensures Reap(s, q, pid) == s.(table := Reap(s, q, pid).table)
  {
  }

  /** `waitPid` is safe on an unknown pid and on one's own child; idle may only collect a zombie. */
  ghost predicate MayWait(s: Sched, pid: nat) {
    pid in s.table && s.current.Some? && s.current.value in s.table ==>
      && s.table[pid].parent == s.current
      && (s.current.value == IDLE ==> s.table[pid].state == Zombie)
  }

  lemma WaitPath(t: Table, c: nat, pid: nat, p: Process)
    requires c in t && pid in t && c != IDLE && pid != 0 && pid != c && t[pid].parent == Some(c)
    requires p == t[c].(waitingPid := pid, path := InWaitPid(pid), state := Blocked)
    ensures PathOk(t[c := p], c)
  {
  }

  lemma WaitIsSleep(s: Sched, c: nat, pid: nat)
    requires s.current == Some(c) && c in s.table && c != IDLE && pid in s.table
    requires s.table[c].state == Running && s.table[pid].state != Zombie
    ensures WaitPid(s, pid)
            == Dispatch(Slept(s, c, s.table[c].(waitingPid := pid, path := InWaitPid(pid), state := Blocked)))
  {
    var p := s.table[c].(waitingPid := pid, path := InWaitPid(pid));
    assert s.table[c := p][c := p.(state := Blocked)] == s.table[c := p.(state := Blocked)];
    hide Dispatch;
  }

  lemma WaitPidInv(s: Sched, pid: nat)
    requires Inv(s) && MayWait(s, pid)
    requires s.current.Some? && s.current.value in s.table ==> s.table[s.current.value].path == UserCode
    ensures Inv(WaitPid(s, pid))
  {
    if pid in s.table && s.current.Some? && s.current.value in s.table {
      var c := s.current.value;
      if s.table[pid].state == Zombie {
        ReapInv(s, c, pid);
      } else {
        assert c < pid < s.nextPid && s.table[c].state == Running;
        hide ListedOk, PlacedOk, FamilyOk, Dispatch, PathOk, WaitPid;
        WaitIsSleep(s, c, pid);
        var p := s.table[c].(waitingPid := pid, path := InWaitPid(pid), state := Blocked);
        WaitPath(s.table, c, pid, p);
        SleepInv(s, c, p);
      }
    }
  }

  /** A process that slept in `waitPid` runs again only once its child is a zombie it can collect. */
  lemma ResumeFindsZombie(s: Sched)
    requires Inv(s) && s.current.Some? && s.table[s.current.value].path.InWaitPid?
    ensures IsZombieOf(s.table, s.table[s.current.value].path.child, s.current.value)
  {
    assert PathOk(s.table, s.current.value);
  }

  lemma ResumeInv(s: Sched)
    requires Inv(s)
    ensures Inv(Resume(s))
  {
    if s.current.Some? && s.table[s.current.value].path.InWaitPid? {
      ResumeFindsZombie(s);
      ReapInv(s, s.current.value, s.table[s.current.value].path.child);
    }
  }
}
