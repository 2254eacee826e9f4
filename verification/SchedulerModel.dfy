/** The scheduler as functions on its state. A kernel path is one step up to its explicit timer
    interrupt, so every function here is one atomic transition. */
module SchedulerModel {
  import opened Sequences

  const PRIO: nat := 4
  const QUANTUM: nat := 5
  const DEFAULT_PRIORITY: Priority := 2
  const IDLE: nat := 0
  const NOT_WAITING: int := -1
  const WEIGHTS: Credits := [4, 3, 2, 1]

  type Priority = p: nat | p < PRIO
  type Credits = c: seq<nat> | |c| == PRIO witness [0, 0, 0, 0]
  type Queues = q: seq<seq<nat>> | |q| == PRIO witness [[], [], [], []]

  datatype ProcState = Ready | Running | Blocked | Zombie

  /** What a suspended process still has to do in the kernel when it runs again. */
  datatype KernelPath = UserCode | InWaitPid(child: nat) | InSemWait

  datatype Process = Process(
    state: ProcState, priority: Priority, parent: Option<nat>, children: seq<nat>, reaped: seq<nat>,
    waitingPid: int, quantum: nat, path: KernelPath)

  type Table = map<nat, Process>

  datatype Sched = Sched(
    current: Option<nat>, table: Table, ready: Queues, credits: Credits, blocked: seq<nat>, nextPid: nat)

  // ----- choosing a queue -----

  /** Credits held by the non-empty queues from `i` on. */
  function UsableCredits(ready: Queues, credits: Credits, i: nat): nat
    requires i <= PRIO
    decreases PRIO - i
  {
    if i == PRIO then 0
    else (if ready[i] != [] then credits[i] else 0) + UsableCredits(ready, credits, i + 1)
  }

  /** The first non-empty queue from `p` on that has credit left; `PRIO` if there is none. */
  function FirstWithCredit(ready: Queues, credits: Credits, p: nat): (r: nat)
    requires p <= PRIO
    ensures p <= r <= PRIO
    ensures r < PRIO ==> credits[r] > 0 && ready[r] != []
    ensures forall k | p <= k < r :: credits[k] == 0 || ready[k] == []
    decreases PRIO - p
  {
    if p == PRIO || (credits[p] > 0 && ready[p] != []) then p
    else FirstWithCredit(ready, credits, p + 1)
  }

  function Refilled(ready: Queues, credits: Credits): Credits {
    if UsableCredits(ready, credits, 0) == 0 then WEIGHTS else credits
  }

  /** `pickNextQueue`: the credits afterwards and the queue, `PRIO` when every queue is empty. */
  function PickQueue(ready: Queues, credits: Credits): (r: (Credits, nat))
    ensures r.1 <= PRIO && (r.1 < PRIO ==> ready[r.1] != [])
  {
    var c := Refilled(ready, credits);
    var p := FirstWithCredit(ready, c, 0);
    if p < PRIO then (c[p := c[p] - 1], p) else (c, PRIO)
  }

  // ----- queues and the process table -----

  function Enqueue(ready: Queues, p: Priority, pid: nat): Queues {
    ready[p := ready[p] + [pid]]
  }

  function Dequeue(ready: Queues, p: Priority): Queues
    requires ready[p] != []
  {
    ready[p := ready[p][1..]]
  }

  function RemoveReady(ready: Queues, p: Priority, pid: nat): Queues {
    ready[p := RemoveFirst(ready[p], pid)]
  }

  function SetState(table: Table, pid: nat, state: ProcState): Table {
    if pid in table then table[pid := table[pid].(state := state)] else table
  }

  // ----- dispatch and the timer -----

  /** `pickNextProcess` */
  function Dispatch(s: Sched): Sched {
    var (credits, q) := PickQueue(s.ready, s.credits);
    if q == PRIO then RunIdle(s.(credits := credits)) else RunHead(s.(credits := credits), q)
  }

  function RunIdle(s: Sched): Sched {
    s.(current := Some(IDLE), table := SetState(s.table, IDLE, Running))
  }

  function RunHead(s: Sched, q: Priority): Sched
    requires s.ready[q] != []
  {
    var pid := s.ready[q][0];
    s.(current := Some(pid), ready := Dequeue(s.ready, q), table := Start(s.table, pid))
  }

  function Start(table: Table, pid: nat): Table {
    if pid in table then table[pid := table[pid].(state := Running, quantum := QUANTUM)] else table
  }

  /** `schedule`, entered from the timer interrupt; the quantum is an unsigned byte. */
  function Schedule(s: Sched): Sched {
    if s.current.None? || s.current.value == IDLE || s.current.value !in s.table then Dispatch(s) else
      var c := s.current.value;
      var p := s.table[c];
      var q := (p.quantum + 255) % 256;
      if p.state == Running && q != 0 then s.(table := s.table[c := p.(quantum := q)])
      else if p.state == Running then
        Dispatch(s.(table := s.table[c := p.(quantum := 0, state := Ready)],
                    ready := Enqueue(s.ready, p.priority, c)))
      else if p.state == Ready then Dispatch(s.(ready := Enqueue(s.ready, p.priority, c)))
      else Dispatch(s)
  }

  function Yield(s: Sched): Sched
    requires s.current.Some? && s.current.value in s.table
  {
    var c := s.current.value;
    Schedule(s.(table := s.table[c := s.table[c].(quantum := 1)]))
  }

  // ----- creation and priorities -----

  /** `addProcess`, for a successful allocation. */
  function Create(s: Sched): Sched {
    var pid := s.nextPid;
    var p := Process(Ready, DEFAULT_PRIORITY, s.current, [], [], NOT_WAITING, QUANTUM, UserCode);
    var table := s.table[pid := p];
    s.(nextPid := pid + 1, ready := Enqueue(s.ready, DEFAULT_PRIORITY, pid),
       table := if s.current.Some? && s.current.value in table
                then AddChild(table, s.current.value, pid) else table)
  }

  function AddChild(table: Table, q: nat, pid: nat): Table
    requires q in table
  {
    table[q := table[q].(children := [pid] + table[q].children)]
  }

  /** `changeProcessPriority` */
  function Nice(s: Sched, pid: nat, prio: nat): Sched {
    if prio >= PRIO || pid !in s.table || s.table[pid].priority == prio then s else
      var p := s.table[pid];
      if p.state == Blocked then s.(table := s.table[pid := p.(priority := prio)])
      else if p.state == Zombie then s
      else if p.state == Running then Dispatch(Moved(s, pid, prio).(current := None))
      else Moved(s, pid, prio)
  }

  function Moved(s: Sched, pid: nat, prio: Priority): Sched
    requires pid in s.table
  {
    s.(ready := Enqueue(RemoveReady(s.ready, s.table[pid].priority, pid), prio, pid),
       table := s.table[pid := s.table[pid].(priority := prio)])
  }

  // ----- blocking -----

  /** `addProcessToBlockQueue` */
  function AddToBlocked(s: Sched, pid: nat): Sched {
    if pid !in s.table then s
    else if s.current == Some(pid) then
      if s.table[pid].state == Blocked then s else
        s.(table := SetState(s.table, pid, Blocked), blocked := s.blocked + [pid])
    else
      s.(ready := RemoveReady(s.ready, s.table[pid].priority, pid),
         table := SetState(s.table, pid, Blocked), blocked := s.blocked + [pid])
  }

  /** `blockProcess`, which dereferences the current process. */
  function Block(s: Sched, pid: nat): Sched
    requires s.current.Some?
  {
    if s.current == Some(pid) then Schedule(AddToBlocked(s, pid)) else AddToBlocked(s, pid)
  }

  /** `unblockProcess` */
  function Unblock(s: Sched, pid: nat): Sched {
    if pid !in s.table then s else
      s.(blocked := RemoveFirst(s.blocked, pid), table := SetState(s.table, pid, Ready),
         ready := Enqueue(s.ready, s.table[pid].priority, pid))
  }

  // ----- termination and waiting -----

  /** The orphaning loop: every running child loses its parent. */
  function Orphan(table: Table, kids: seq<nat>): Table {
    if kids == [] then table else
      Orphan(if kids[0] in table then table[kids[0] := table[kids[0]].(parent := None)] else table, kids[1..])
  }

  /** The reaping loop: every zombie left in the list is deleted. */
  function ReapAll(table: Table, zombies: seq<nat>): Table {
    if zombies == [] then table else ReapAll(table - {zombies[0]}, zombies[1..])
  }

  /** `terminateProcess` once the process has left every queue and its own family is settled. */
  function Retired(s: Sched, pid: nat): Sched
    requires pid in s.table
  {
    var p := s.table[pid];
    s.(ready := RemoveReady(s.ready, p.priority, pid), blocked := RemoveFirst(s.blocked, pid),
       table := Buried(ReapAll(Orphan(s.table, p.children), p.reaped), pid))
  }

  function Buried(table: Table, pid: nat): Table {
    if pid in table then table[pid := table[pid].(children := [], reaped := [], state := Zombie)] else table
  }

  /** Hand the zombie to its parent, waking the parent if it waits for it, or delete it if it has none. */
  function HandOver(s: Sched, pid: nat): Sched {
    if pid !in s.table then s
    else if s.table[pid].parent.None? then s.(table := s.table - {pid})
    else if s.table[pid].parent.value !in s.table then s
    else
      var q := s.table[pid].parent.value;
      var s' := s.(table := MoveToReaped(s.table, q, pid));
      if (s.table[q].waitingPid == 0 || s.table[q].waitingPid == pid) && s.table[q].state == Blocked
      then Unblock(s', q) else s'
  }

  function MoveToReaped(table: Table, q: nat, pid: nat): Table
    requires q in table
  {
    table[q := table[q].(children := RemoveFirst(table[q].children, pid), reaped := [pid] + table[q].reaped)]
  }

  /** `terminateProcess`; when the caller ends itself the closing timer interrupt only dispatches. */
  function Terminate(s: Sched, pid: nat): Sched {
    if pid !in s.table then s else
      var s' := HandOver(Retired(s, pid), pid);
      if s.current == Some(pid) then Dispatch(s'.(current := None)) else s'
  }

  /** `waitPid` up to its return or to the switch away from the blocked caller. */
  function WaitPid(s: Sched, pid: nat): Sched {
    if pid !in s.table || s.current.None? || s.current.value !in s.table then s
    else if s.table[pid].state == Zombie then Reap(s, s.current.value, pid)
    else
      var c := s.current.value;
      Block(s.(table := s.table[c := s.table[c].(waitingPid := pid, path := InWaitPid(pid))]), c)
  }

  /** The rest of `waitPid`: forget the zombie and delete it. */
  function Reap(s: Sched, q: nat, pid: nat): Sched
    requires q in s.table
  {
    s.(table := s.table[q := s.table[q].(reaped := RemoveFirst(s.table[q].reaped, pid), path := UserCode)] - {pid})
  }

  /** The current process runs again after blocking in `waitPid` and finishes the call. */
  function Resume(s: Sched): Sched {
    if s.current.Some? && s.current.value in s.table && s.table[s.current.value].path.InWaitPid?
    then Reap(s, s.current.value, s.table[s.current.value].path.child) else s
  }

  // ----- the scheduler's side of a semaphore -----

  /** `semWait` blocking its caller: block, then yield. */
  function SemBlock(s: Sched): Sched
    requires s.current.Some? && s.current.value in s.table
  {
    var c := s.current.value;
    Yield(AddToBlocked(s.(table := s.table[c := s.table[c].(path := InSemWait)]), c))
  }

  /** `semPost` waking a waiter. */
  function SemWake(s: Sched, pid: nat): Sched {
    Unblock(if pid in s.table then s.(table := s.table[pid := s.table[pid].(path := UserCode)]) else s, pid)
  }

  /** `initializeScheduler`: only the idle process exists and it is in no queue. */
  function Initial(): Sched {
    Sched(None, map[IDLE := Process(Ready, DEFAULT_PRIORITY, None, [], [], NOT_WAITING, QUANTUM, UserCode)],
          [[], [], [], []], WEIGHTS, [], 1)
  }
}
