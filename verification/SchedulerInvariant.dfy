/** Where every process is, who its family is, and which calls keep that true. */
module SchedulerInvariant {
  import opened Sequences
  import opened SchedulerModel

  // ----- placement -----

  ghost predicate CreditsOk(credits: Credits) {
    forall i | 0 <= i < PRIO :: credits[i] <= WEIGHTS[i]
  }

  /** Queue entries are processes in the matching state, each listed once. */
  ghost predicate ListedOk(table: Table, ready: Queues, blocked: seq<nat>) {
    && (forall i | 0 <= i < PRIO :: NoDup(ready[i]))
    && NoDup(blocked)
    && (forall i, p | 0 <= i < PRIO && p in ready[i] ::
          p in table && p != IDLE && table[p].state == Ready && table[p].priority == i)
    && (forall p <- blocked :: p in table && p != IDLE && table[p].state == Blocked)
  }

  /** Every process is where its state says. */
  ghost predicate PlacedOk(table: Table, ready: Queues, blocked: seq<nat>, current: Option<nat>) {
    forall p <- table :: p != IDLE ==>
      match table[p].state
      case Ready => p in ready[table[p].priority]
      case Blocked => p in blocked
      case Running => current == Some(p)
      case Zombie => true
  }

  ghost predicate CurrentOk(table: Table, current: Option<nat>) {
    match current
    case None => true
    case Some(c) => c in table && (c != IDLE ==> table[c].state == Running && 1 <= table[c].quantum <= QUANTUM)
  }

  ghost predicate IdleOk(table: Table) {
    IDLE in table && table[IDLE].parent.None? && (table[IDLE].state == Ready || table[IDLE].state == Running)
  }

  // ----- families -----

  /** A child in `children` runs, a child in `reaped` is a zombie, and both point back to their parent. */
  ghost predicate ListsOk(table: Table) {
    forall q <- table ::
      && NoDup(table[q].children) && NoDup(table[q].reaped)
      && (forall c <- table[q].children :: c in table && table[c].state != Zombie && table[c].parent == Some(q))
      && (forall c <- table[q].reaped :: c in table && table[c].state == Zombie && table[c].parent == Some(q))
  }

  /** A process with a parent is in exactly the right list of a parent that is not a zombie. */
  ghost predicate ParentsOk(table: Table) {
    forall p <- table ::
      && (table[p].state == Zombie ==> table[p].parent.Some?)
      && (table[p].parent.Some? ==>
            var q := table[p].parent.value;
            && q < p && q in table && table[q].state != Zombie
            && p in (if table[p].state == Zombie then table[q].reaped else table[q].children))
  }

  /** A process suspended inside `waitPid` waits for its own child and sleeps until that is a zombie. */
  ghost predicate PathsOk(table: Table) {
    forall p <- table :: table[p].state != Zombie ==> PathOk(table, p)
  }

  ghost predicate PathOk(table: Table, p: nat)
    requires p in table
  {
    match table[p].path
    case UserCode => table[p].waitingPid != 0 && (forall c <- table :: table[c].parent == Some(p) ==> table[p].waitingPid != c)
    case InSemWait => table[p].state == Blocked && table[p].waitingPid != 0
                      && (forall c <- table :: table[c].parent == Some(p) ==> table[p].waitingPid != c)
    case InWaitPid(c) =>
      && p != IDLE && c != 0 && c in table && table[c].parent == Some(p) && table[p].waitingPid == c
      && (table[c].state != Zombie ==> table[p].state == Blocked)
  }

  ghost predicate PidsOk(table: Table, nextPid: nat) {
    nextPid > 0 && forall p <- table :: p < nextPid && table[p].waitingPid < nextPid
  }

  ghost predicate FamilyOk(table: Table, nextPid: nat) {
    ListsOk(table) && ParentsOk(table) && PathsOk(table) && IdleOk(table) && PidsOk(table, nextPid)
  }

  ghost predicate Inv(s: Sched) {
    && PreDispatch(s)
    && CurrentOk(s.table, s.current)
    && PlacedOk(s.table, s.ready, s.blocked, s.current)
  }

  /** All of the invariant that does not depend on which process is current. */
  ghost predicate PreDispatch(s: Sched) {
    && CreditsOk(s.credits)
    && ListedOk(s.table, s.ready, s.blocked)
    && FamilyOk(s.table, s.nextPid)
  }

  // ----- queues -----

  lemma EnqueueElems(ready: Queues, p: Priority, pid: nat)
    requires (forall i | 0 <= i < PRIO :: NoDup(ready[i])) && pid !in ready[p]
    ensures forall i | 0 <= i < PRIO :: NoDup(Enqueue(ready, p, pid)[i])
    ensures forall i, x | 0 <= i < PRIO :: x in Enqueue(ready, p, pid)[i] <==> x in ready[i] || (i == p && x == pid)
  {
  }

  lemma RemoveElems(ready: Queues, p: Priority, pid: nat)
    requires forall i | 0 <= i < PRIO :: NoDup(ready[i])
    ensures forall i | 0 <= i < PRIO :: NoDup(RemoveReady(ready, p, pid)[i])
    ensures forall i, x | 0 <= i < PRIO ::
              x in RemoveReady(ready, p, pid)[i] <==> x in ready[i] && !(i == p && x == pid)
  {
    RemoveFirstElems(ready[p], pid);
  }

  lemma DequeueElems(ready: Queues, p: Priority)
    requires (forall i | 0 <= i < PRIO :: NoDup(ready[i])) && ready[p] != []
    ensures forall i | 0 <= i < PRIO :: NoDup(Dequeue(ready, p)[i])
    ensures forall i, x | 0 <= i < PRIO ::
              x in Dequeue(ready, p)[i] <==> x in ready[i] && !(i == p && x == ready[p][0])
  {
    assert Dequeue(ready, p) == RemoveReady(ready, p, ready[p][0]);
    RemoveElems(ready, p, ready[p][0]);
  }

  lemma PickKeepsCredits(ready: Queues, credits: Credits)
    requires CreditsOk(credits)
    ensures CreditsOk(PickQueue(ready, credits).0)
  {
  }

  /** With no credit left on a non-empty queue a refill makes one available: only empty queues give up. */
  lemma PickFindsWork(ready: Queues, credits: Credits)
    ensures PickQueue(ready, credits).1 == PRIO ==> forall i | 0 <= i < PRIO :: ready[i] == []
  {
    NoUsable(ready, credits, 0);
    NoUsable(ready, WEIGHTS, 0);
  }

  lemma {:induction false} NoUsable(ready: Queues, credits: Credits, i: nat)
    requires i <= PRIO
    ensures UsableCredits(ready, credits, i) == 0 <==> FirstWithCredit(ready, credits, i) == PRIO
    decreases PRIO - i
  {
    if i < PRIO {
      NoUsable(ready, credits, i + 1);
    }
  }

  lemma UsableIs(ready: Queues, c: Credits)
    ensures UsableCredits(ready, c, 0)
            == (if ready[0] != [] then c[0] else 0) + (if ready[1] != [] then c[1] else 0)
             + (if ready[2] != [] then c[2] else 0) + (if ready[3] != [] then c[3] else 0)
  {
    assert UsableCredits(ready, c, 3) == (if ready[3] != [] then c[3] else 0) + UsableCredits(ready, c, 4);
    assert UsableCredits(ready, c, 2) == (if ready[2] != [] then c[2] else 0) + UsableCredits(ready, c, 3);
    assert UsableCredits(ready, c, 1) == (if ready[1] != [] then c[1] else 0) + UsableCredits(ready, c, 2);
  }

  // ----- frames -----

  /** The family facts only see parents, lists, waits, and who is a zombie. */
  ghost predicate SameKin(p: Process, q: Process) {
    && p.parent == q.parent && p.children == q.children && p.reaped == q.reaped
    && (p.state == Zombie <==> q.state == Zombie)
  }

  /** Updating one process without touching its kin keeps the family facts, if its own wait stays sound. */
  lemma KinFrame(t: Table, pid: nat, p: Process, nextPid: nat)
    requires FamilyOk(t, nextPid) && pid in t && SameKin(t[pid], p) && p.waitingPid < nextPid
    requires pid == IDLE ==> p.state == Ready || p.state == Running
    requires p.state != Zombie ==> PathOk(t[pid := p], pid)
    ensures FamilyOk(t[pid := p], nextPid)
  {
    hide ListsOk, ParentsOk, PathsOk;
    ListsFrame(t, pid, p);
    ParentsFrame(t, pid, p);
    PathsFrame(t, pid, p);
  }

  lemma FamilyFrame(t: Table, pid: nat, p: Process, nextPid: nat)
    requires FamilyOk(t, nextPid) && pid in t && SameKin(t[pid], p)
    requires t[pid].waitingPid == p.waitingPid && t[pid].path == p.path
    requires t[pid].state == Blocked && p.path != UserCode ==> p.state == Blocked
    requires pid == IDLE ==> p.state == Ready || p.state == Running
    ensures FamilyOk(t[pid := p], nextPid)
  {
    if p.state != Zombie {
      assert PathOk(t, pid);
      SamePath(t, pid, p);
    }
    assert t[pid].waitingPid < nextPid;
    hide FamilyOk;
    KinFrame(t, pid, p, nextPid);
  }

  lemma SamePath(t: Table, pid: nat, p: Process)
    requires pid in t && SameKin(t[pid], p) && PathOk(t, pid)
    requires t[pid].waitingPid == p.waitingPid && t[pid].path == p.path
    requires t[pid].state == Blocked && p.path != UserCode ==> p.state == Blocked
    ensures PathOk(t[pid := p], pid)
  {
  }

  lemma ListsFrame(t: Table, pid: nat, p: Process)
    requires ListsOk(t) && pid in t && SameKin(t[pid], p)
    ensures ListsOk(t[pid := p])
  {
  }

  lemma ParentsFrame(t: Table, pid: nat, p: Process)
    requires ParentsOk(t) && pid in t && SameKin(t[pid], p)
    ensures ParentsOk(t[pid := p])
  {
  }

  lemma PathsFrame(t: Table, pid: nat, p: Process)
    requires PathsOk(t) && pid in t && SameKin(t[pid], p)
    requires p.state != Zombie ==> PathOk(t[pid := p], pid)
    ensures PathsOk(t[pid := p])
  {
    forall q | q in t && q != pid && t[q].state != Zombie ensures PathOk(t[pid := p], q) {
      assert PathOk(t, q);
    }
  }

  // ----- moving one process -----

  /** Every process but `pid` keeps its state, its priority and its queue; a zombie may disappear. */
  ghost predicate OthersKept(t: Table, t': Table, r: Queues, r': Queues, b: seq<nat>, b': seq<nat>, pid: nat) {
    TableKept(t, t', pid) && QueuesKept(r, r', b, b', pid)
  }

  ghost predicate TableKept(t: Table, t': Table, pid: nat) {
    && (forall p <- t' :: p != pid ==> p in t && t'[p].state == t[p].state && t'[p].priority == t[p].priority)
    && (forall p <- t :: p != pid && p !in t' ==> t[p].state == Zombie)
  }

  ghost predicate QueuesKept(r: Queues, r': Queues, b: seq<nat>, b': seq<nat>, pid: nat) {
    && (forall i, x | 0 <= i < PRIO && x != pid :: x in r'[i] <==> x in r[i])
    && (forall x | x != pid :: x in b' <==> x in b)
    && (forall i | 0 <= i < PRIO :: NoDup(r'[i])) && NoDup(b')
  }

  /** `pid` itself is where its state says, and nowhere else. */
  ghost predicate PutRight(t: Table, r: Queues, b: seq<nat>, current: Option<nat>, pid: nat) {
    && (forall i | 0 <= i < PRIO ::
          pid in r[i] <==> pid != IDLE && pid in t && t[pid].state == Ready && t[pid].priority == i)
    && (pid in b <==> pid != IDLE && pid in t && t[pid].state == Blocked)
    && (pid != IDLE && pid in t && t[pid].state == Running ==> current == Some(pid))
  }

  lemma PlaceOne(t: Table, t': Table, r: Queues, r': Queues, b: seq<nat>, b': seq<nat>,
                 current: Option<nat>, current': Option<nat>, pid: nat)
    requires ListedOk(t, r, b) && PlacedOk(t, r, b, current)
    requires OthersKept(t, t', r, r', b, b', pid) && PutRight(t', r', b', current', pid)
    requires current' == current || current in {None, Some(IDLE), Some(pid)}
    ensures ListedOk(t', r', b') && PlacedOk(t', r', b', current')
  {
    PlaceListed(t, t', r, r', b, b', current', pid);
    hide ListedOk;
    forall p | p in t' && p != IDLE && p != pid
      ensures p in t && t'[p].state == t[p].state && t'[p].priority == t[p].priority
      ensures (p in r'[t'[p].priority] <==> p in r[t[p].priority]) && (p in b' <==> p in b)
    {
    }
    hide OthersKept;
  }

  lemma PlaceListed(t: Table, t': Table, r: Queues, r': Queues, b: seq<nat>, b': seq<nat>,
                    current': Option<nat>, pid: nat)
    requires ListedOk(t, r, b)
    requires OthersKept(t, t', r, r', b, b', pid) && PutRight(t', r', b', current', pid)
    ensures ListedOk(t', r', b')
  {
    forall i, p | 0 <= i < PRIO && p in r'[i]
      ensures p in t' && p != IDLE && t'[p].state == Ready && t'[p].priority == i
    {
      assert p != pid ==> p in r[i];
    }
    forall p | p in b' ensures p in t' && p != IDLE && t'[p].state == Blocked {
      assert p != pid ==> p in b;
    }
  }

  /** An update that keeps the state, and the priority unless the process is asleep, moves nothing. */
  lemma SamePlace(s: Sched, pid: nat, p: Process)
    requires ListedOk(s.table, s.ready, s.blocked) && PlacedOk(s.table, s.ready, s.blocked, s.current)
    requires pid in s.table && p.state == s.table[pid].state
    requires p.priority == s.table[pid].priority || (pid != IDLE && p.state == Blocked)
    ensures ListedOk(s.table[pid := p], s.ready, s.blocked)
    ensures PlacedOk(s.table[pid := p], s.ready, s.blocked, s.current)
  {
  }

  // ----- dispatch and the timer -----

  lemma RunHeadPlaced(s: Sched, q: nat)
    requires ListedOk(s.table, s.ready, s.blocked) && PlacedOk(s.table, s.ready, s.blocked, None)
    requires q < PRIO && s.ready[q] != []
    ensures var pid, r := s.ready[q][0], RunHead(s, q);
            && pid in s.table && pid != IDLE && s.table[pid].state == Ready
            && ListedOk(r.table, r.ready, r.blocked) && PlacedOk(r.table, r.ready, r.blocked, r.current)
  {
    var pid, r := s.ready[q][0], RunHead(s, q);
    assert pid in s.ready[q];
    NotElsewhere(s, pid);
    DequeueElems(s.ready, q);
    hide Dequeue, ListedOk, PlacedOk;
    PlaceOne(s.table, r.table, s.ready, r.ready, s.blocked, s.blocked, None, Some(pid), pid);
  }

  lemma RunHeadInv(s: Sched, q: nat)
    requires PreDispatch(s) && PlacedOk(s.table, s.ready, s.blocked, None)
    requires q < PRIO && s.ready[q] != []
    ensures Inv(RunHead(s, q))
  {
    hide FamilyOk, PlacedOk, ListedOk;
    RunHeadPlaced(s, q);
    var pid := s.ready[q][0];
    FamilyFrame(s.table, pid, s.table[pid].(state := Running, quantum := QUANTUM), s.nextPid);
  }

  /** What the queues say about one process. */
  lemma NotElsewhere(s: Sched, pid: nat)
    requires ListedOk(s.table, s.ready, s.blocked)
    ensures forall i | 0 <= i < PRIO :: NoDup(s.ready[i])
    ensures NoDup(s.blocked)
    ensures forall i | 0 <= i < PRIO && pid in s.ready[i] ::
              pid in s.table && pid != IDLE && s.table[pid].state == Ready && s.table[pid].priority == i
    ensures pid in s.blocked ==> pid in s.table && pid != IDLE && s.table[pid].state == Blocked
  {
    forall i | 0 <= i < PRIO && pid in s.ready[i]
      ensures pid in s.table && pid != IDLE && s.table[pid].state == Ready && s.table[pid].priority == i
    {
      assert pid in s.ready[i];
    }
  }

  lemma RunIdlePlaced(s: Sched)
    requires ListedOk(s.table, s.ready, s.blocked) && PlacedOk(s.table, s.ready, s.blocked, None)
    ensures var r := RunIdle(s);
            ListedOk(r.table, r.ready, r.blocked) && PlacedOk(r.table, r.ready, r.blocked, r.current)
  {
    NotElsewhere(s, IDLE);
    hide ListedOk, PlacedOk;
    PlaceOne(s.table, RunIdle(s).table, s.ready, s.ready, s.blocked, s.blocked, None, Some(IDLE), IDLE);
  }

  lemma RunIdleInv(s: Sched)
    requires PreDispatch(s) && PlacedOk(s.table, s.ready, s.blocked, None)
    ensures Inv(RunIdle(s))
  {
    assert IdleOk(s.table);
    hide FamilyOk, ListedOk, PlacedOk;
    RunIdlePlaced(s);
    FamilyFrame(s.table, IDLE, s.table[IDLE].(state := Running), s.nextPid);
  }

  lemma DispatchInv(s: Sched)
    requires PreDispatch(s) && PlacedOk(s.table, s.ready, s.blocked, None)
    ensures Inv(Dispatch(s))
  {
    hide FamilyOk, ListedOk, PlacedOk;
    PickKeepsCredits(s.ready, s.credits);
    var (credits, q) := PickQueue(s.ready, s.credits);
    if q < PRIO {
      RunHeadInv(s.(credits := credits), q);
    } else {
      RunIdleInv(s.(credits := credits));
    }
  }

  lemma ScheduleInv(s: Sched)
    requires Inv(s)
    ensures Inv(Schedule(s))
  {
    if s.current.None? || s.current.value == IDLE {
      DispatchInv(s);
    } else {
      var c := s.current.value;
      assert 1 <= s.table[c].quantum <= QUANTUM;
      TickCases(s, c);
      if s.table[c].quantum == 1 {
        PreemptInv(s, c);
      } else {
        CountDownInv(s, c);
      }
    }
  }

  function CountDown(s: Sched, c: nat): Sched
    requires c in s.table && s.table[c].quantum > 0
  {
    s.(table := s.table[c := s.table[c].(quantum := s.table[c].quantum - 1)])
  }

  /** The current process put back at the end of its queue. */
  function Preempted(s: Sched, c: nat): Sched
    requires c in s.table
  {
    s.(table := s.table[c := s.table[c].(quantum := 0, state := Ready)],
       ready := Enqueue(s.ready, s.table[c].priority, c))
  }

  lemma TickCases(s: Sched, c: nat)
    requires s.current == Some(c) && c != IDLE && c in s.table && s.table[c].state == Running
    requires 1 <= s.table[c].quantum <= QUANTUM
    ensures Schedule(s) == if s.table[c].quantum > 1 then CountDown(s, c) else Dispatch(Preempted(s, c))
  {
  }

  lemma CountDownInv(s: Sched, c: nat)
    requires Inv(s) && s.current == Some(c) && c != IDLE && s.table[c].quantum > 1
    ensures Inv(CountDown(s, c))
  {
    hide FamilyOk, ListedOk, PlacedOk;
    FamilyFrame(s.table, c, s.table[c].(quantum := s.table[c].quantum - 1), s.nextPid);
    SamePlace(s, c, s.table[c].(quantum := s.table[c].quantum - 1));
  }

  lemma PreemptPlaced(s: Sched, c: nat)
    requires ListedOk(s.table, s.ready, s.blocked) && PlacedOk(s.table, s.ready, s.blocked, Some(c))
    requires c in s.table && c != IDLE && s.table[c].state == Running
    ensures var r := Preempted(s, c);
            ListedOk(r.table, r.ready, r.blocked) && PlacedOk(r.table, r.ready, r.blocked, None)
  {
    NotElsewhere(s, c);
    EnqueueElems(s.ready, s.table[c].priority, c);
    hide Enqueue, ListedOk, PlacedOk;
    var r := Preempted(s, c);
    PlaceOne(s.table, r.table, s.ready, r.ready, s.blocked, s.blocked, Some(c), None, c);
  }

  lemma PreemptInv(s: Sched, c: nat)
    requires Inv(s) && s.current == Some(c) && c != IDLE
    ensures Inv(Dispatch(Preempted(s, c)))
  {
    hide FamilyOk, ListedOk, PlacedOk, Dispatch;
    PreemptPlaced(s, c);
    FamilyFrame(s.table, c, s.table[c].(quantum := 0, state := Ready), s.nextPid);
    DispatchInv(Preempted(s, c));
  }
}
