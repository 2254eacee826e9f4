/** The scheduler as it runs: process records, queues and credits updated in place, proved to compute
    the transitions of SchedulerModel and, under the guards of SchedulerRuns, to keep its invariant.
    A pointer to a process is represented by its pid, which is never reused. */
module KernelScheduler {
  import opened Sequences
  import opened SchedulerModel
  import opened SchedulerInvariant
  import opened SchedulerSteps
  import opened SchedulerExit
  import opened SchedulerRuns

  ghost function Childless(t: Table, pid: nat): Table
    requires pid in t
  {
    t[pid := t[pid].(children := [])]
  }

  ghost function Zombieless(t: Table, pid: nat): Table
    requires pid in t
  {
    t[pid := t[pid].(reaped := [])]
  }

  ghost predicate QueuesKnown(ready: seq<seq<nat>>, pids: set<nat>) {
    forall i, p | 0 <= i < |ready| && p in ready[i] :: p in pids
  }

  ghost predicate Dispatchable(s: Sched) {
    IDLE in s.table && (s.current.Some? ==> s.current.value in s.table) && QueuesKnown(s.ready, s.table.Keys)
  }

  /** What `waitPid` has returned when the processor next leaves it. */
  datatype WaitResult = NoSuchProcess | Collected(pid: nat) | Asleep

  class Pcb {
    const pid: nat
    var state: ProcState
    var priority: Priority
    var parent: Option<nat>
    var children: seq<nat>
    var reaped: seq<nat>
    var waitingPid: int
    var quantum: nat
    ghost var path: KernelPath

    constructor (pid: nat, parent: Option<nat>)
      ensures this.pid == pid
      ensures View() == Process(Ready, DEFAULT_PRIORITY, parent, [], [], NOT_WAITING, QUANTUM, UserCode)
    {
      this.pid, state, priority, this.parent := pid, Ready, DEFAULT_PRIORITY, parent;
      children, reaped, waitingPid, quantum, path := [], [], NOT_WAITING, QUANTUM, UserCode;
    }

    ghost function View(): Process
      reads this
    {
      Process(state, priority, parent, children, reaped, waitingPid, quantum, path)
    }
  }

  class Scheduler {
    var current: Option<nat>
    var processes: map<nat, Pcb>
    const ready: array<seq<nat>>
    const credits: array<nat>
    var blocked: seq<nat>
    var nextPid: nat

    /** The table holds each process under its own pid, so no two entries share a record. */
    ghost predicate Valid()
      reads this
    {
      && ready.Length == PRIO && credits.Length == PRIO
      && forall k <- processes :: processes[k].pid == k
    }

    ghost function View(): Table
      reads this, processes.Values
    {
      map k <- processes :: processes[k].View()
    }

    ghost function Abs(): Sched
      requires Valid()
      reads this, ready, credits, processes.Values
    {
      Sched(current, View(), ready[..], credits[..], blocked, nextPid)
    }

    /** Writing the fields of one record changes one entry of the table. */
    twostate lemma OneUpdated(pid: nat)
      requires old(Valid()) && processes == old(processes) && pid in processes
      requires forall k <- processes :: k != pid ==> unchanged(processes[k])
      ensures View() == old(View())[pid := processes[pid].View()]
    {
    }

    /** `initializeScheduler`: idle is created like any process and then taken out of its queue. */
    constructor ()
      ensures Valid() && fresh(ready) && fresh(credits) && fresh(processes.Values)
      ensures Abs() == Initial() && Inv(Abs())
    {
      ready := new seq<nat>[PRIO](i => []);
      credits := new nat[PRIO](i => 0);
      current, processes, blocked, nextPid := None, map[], [], 0;
      new;
      RefillCredits();
      var idle := AddProcess();
      ready[DEFAULT_PRIORITY] := ready[DEFAULT_PRIORITY][1..];
      assert ready[..] == [[], [], [], []];
      assert View() == Initial().table;
      InitialInv();
    }

    method RefillCredits()
      requires credits.Length == PRIO
      modifies credits
      ensures credits[..] == WEIGHTS
    {
      for i := 0 to PRIO
        invariant forall k | 0 <= k < i :: credits[k] == WEIGHTS[k]
      {
        credits[i] := PRIO - i;
      }
    }

    /** `pickNextQueue`: add up the usable credit, refill if there is none, take from the first queue. */
    method PickNextQueue() returns (queue: int)
      requires Valid()
      modifies credits
      ensures var (c, q) := PickQueue(ready[..], old(credits[..]));
              credits[..] == c && queue == if q < PRIO then q else -1
    {
      ghost var c0: Credits := credits[..];
      ghost var r: Queues := ready[..];
      var sum := 0;
      for i := 0 to PRIO
        invariant sum + UsableCredits(r, c0, i) == UsableCredits(r, c0, 0)
      {
        if ready[i] != [] {
          sum := sum + credits[i];
        }
      }
      if sum == 0 {
        RefillCredits();
      }
      ghost var c1: Credits := credits[..];
      assert c1 == Refilled(r, c0);
      for p := 0 to PRIO
        invariant credits[..] == c1 && FirstWithCredit(r, c1, p) == FirstWithCredit(r, c1, 0)
      {
        if credits[p] > 0 && ready[p] != [] {
          credits[p] := credits[p] - 1;
          assert credits[..] == c1[p := c1[p] - 1];
          return p;
        }
      }
      return -1;
    }

    /** What a dispatch dereferences. */
    ghost predicate CanDispatch()
      requires Valid()
      reads this, ready
    {
      && IDLE in processes && (current.Some? ==> current.value in processes)
      && QueuesKnown(ready[..], processes.Keys)
    }

    /** `pickNextProcess` */
    method PickNextProcess()
      requires Valid() && CanDispatch()
      modifies this`current, ready, credits, processes.Values
      ensures Valid() && Abs() == Dispatch(old(Abs()))
    {
      var queue := PickNextQueue();
      if queue < 0 {
        current := Some(IDLE);
        processes[IDLE].state := Running;
        OneUpdated(IDLE);
        return;
      }
      var pid := ready[queue][0];
      ready[queue] := ready[queue][1..];
      assert ready[..] == Dequeue(old(ready[..]), queue);
      current := Some(pid);
      var next := processes[pid];
      next.state, next.quantum := Running, QUANTUM;
      OneUpdated(pid);
    }

    /** `Enqueue` on a priority queue. */
    method PushReady(p: Priority, pid: nat)
      requires ready.Length == PRIO
      modifies ready
      ensures ready[..] == Enqueue(old(ready[..]), p, pid)
    {
      ready[p] := ready[p] + [pid];
    }

    /** `RemoveFromQueue` on a priority queue. */
    method DropReady(p: Priority, pid: nat)
      requires ready.Length == PRIO
      modifies ready
      ensures ready[..] == RemoveReady(old(ready[..]), p, pid)
      ensures forall i, x | 0 <= i < PRIO && x in ready[i] :: x in old(ready[..])[i]
    {
      RemoveSubset(ready[p], pid);
      ready[p] := RemoveFirst(ready[p], pid);
    }

    /** The running process gives up a tick, and the processor with its last one. */
    method TakeTick(c: nat) returns (keeps: bool)
      requires Valid() && c in processes
      modifies ready, processes[c]
      ensures var p, q := old(processes[c].View()), (old(processes[c].quantum) + 255) % 256;
              && keeps == (p.state == Running && q != 0)
              && ready[..] == (if keeps || p.state == Blocked || p.state == Zombie then old(ready[..])
                               else Enqueue(old(ready[..]), p.priority, c))
              && View() == (if p.state == Running
                            then old(View())[c := p.(quantum := q, state := if keeps then Running else Ready)]
                            else old(View()))
    {
      var p := processes[c];
      if p.state == Running {
        p.quantum := (p.quantum + 255) % 256;
        if p.quantum != 0 {
          OneUpdated(c);
          return true;
        }
        p.state := Ready;
      }
      if p.state == Ready {
        PushReady(p.priority, c);
      }
      OneUpdated(c);
      return false;
    }

    /** `schedule`, the timer interrupt. */
    method Schedule()
      requires Valid() && CanDispatch()
      modifies this`current, ready, credits, processes.Values
      ensures Valid() && Abs() == SchedulerModel.Schedule(old(Abs()))
      ensures old(Inv(Abs())) ==> Inv(Abs())
    {
      hide Inv, Dispatch;
      if Inv(Abs()) {
        ScheduleInv(Abs());
      }
      if current.Some? && current.value != IDLE {
        var keeps := TakeTick(current.value);
        if keeps {
          return;
        }
      }
      PickNextProcess();
    }

    /** `yield` */
    method Yield()
      requires Valid() && CanDispatch() && current.Some?
      modifies this`current, ready, credits, processes.Values
      ensures Valid() && Abs() == SchedulerModel.Yield(old(Abs()))
      ensures old(Inv(Abs())) ==> Inv(Abs())
    {
      hide Inv, SchedulerModel.Schedule;
      if Inv(Abs()) {
        YieldInv(Abs());
      }
      processes[current.value].quantum := 1;
      OneUpdated(current.value);
      Schedule();
    }

    /** `addProcess` */
    method AddProcess() returns (pid: nat)
      requires Valid() && (current.Some? ==> current.value in processes)
      modifies this`processes, this`nextPid, ready, processes.Values
      ensures Valid() && Abs() == Create(old(Abs())) && pid == old(nextPid)
      ensures pid in processes && fresh(processes[pid]) && processes == old(processes)[pid := processes[pid]]
      ensures old(Inv(Abs())) ==> Inv(Abs())
    {
      hide Inv, Create;
      if Inv(Abs()) {
        CreateInv(Abs());
      }
      pid := Register();
    }

    method Register() returns (pid: nat)
      requires Valid() && (current.Some? ==> current.value in processes)
      modifies this`processes, this`nextPid, ready, processes.Values
      ensures Valid() && Abs() == Create(old(Abs())) && pid == old(nextPid)
      ensures pid in processes && fresh(processes[pid]) && processes == old(processes)[pid := processes[pid]]
    {
      hide Enqueue, AddChild;
      ghost var s := Abs();
      pid := nextPid;
      nextPid := nextPid + 1;
      Insert(pid);
      ghost var t := View();
      assert t == s.table[pid := Process(Ready, DEFAULT_PRIORITY, s.current, [], [], NOT_WAITING, QUANTUM, UserCode)];
      PushReady(DEFAULT_PRIORITY, pid);
      assert View() == t;
      if current.Some? {
        AdoptChild(current.value, pid);
      }
      assert View() == if current.Some? then AddChild(t, current.value, pid) else t;
    }

    method Insert(pid: nat)
      requires Valid()
      modifies this`processes
      ensures Valid() && pid in processes && fresh(processes[pid]) && processes == old(processes)[pid := processes[pid]]
      ensures View() == old(View())[pid := Process(Ready, DEFAULT_PRIORITY, current, [], [], NOT_WAITING, QUANTUM, UserCode)]
    {
      var p := new Pcb(pid, current);
      processes := processes[pid := p];
    }

    method AdoptChild(parent: nat, pid: nat)
      requires Valid() && parent in processes
      modifies processes[parent]
      ensures View() == AddChild(old(View()), parent, pid)
    {
      var p := processes[parent];
      p.children := [pid] + p.children;
      OneUpdated(parent);
    }

    /** Leave one priority queue for the end of another. */
    method Requeue(pid: nat, prio: Priority)
      requires Valid() && CanDispatch() && pid in processes
      modifies ready, processes[pid]
      ensures Valid() && CanDispatch() && Abs() == Moved(old(Abs()), pid, prio)
      ensures processes[pid].state == old(processes[pid].state)
    {
      var p := processes[pid];
      DropReady(p.priority, pid);
      p.priority := prio;
      PushReady(prio, pid);
      OneUpdated(pid);
    }

    /** `changeProcessPriority`; renicing the running process forgets it and dispatches. */
    method ChangePriority(pid: nat, prio: nat)
      requires Valid() && CanDispatch()
      modifies this`current, ready, credits, processes.Values
      ensures Valid() && Abs() == Nice(old(Abs()), pid, prio)
      ensures old(Inv(Abs()) && MayRenice(Abs(), pid, prio)) ==> Inv(Abs())
    {
      hide Inv, Dispatch, Enqueue, RemoveReady;
      if Inv(Abs()) && MayRenice(Abs(), pid, prio) {
        NiceInv(Abs(), pid, prio);
      }
      if prio >= PRIO || pid !in processes || processes[pid].priority == prio {
        return;
      }
      var p := processes[pid];
      if p.state == Blocked {
        p.priority := prio;
        OneUpdated(pid);
        return;
      }
      if p.state == Zombie {
        return;
      }
      RequeueAwake(pid, prio);
    }

    method RequeueAwake(pid: nat, prio: Priority)
      requires Valid() && CanDispatch() && pid in processes && processes[pid].state in {Ready, Running}
      modifies this`current, ready, credits, processes.Values
      ensures Valid()
      ensures var m := Moved(old(Abs()), pid, prio);
              Abs() == if old(processes[pid].state) == Running then Dispatch(m.(current := None)) else m
    {
      hide Dispatch, Enqueue, RemoveReady;
      Requeue(pid, prio);
      ghost var m := Abs();
      if processes[pid].state == Running {
        current := None;
        assert Abs() == m.(current := None);
        PickNextProcess();
      }
    }

    /** `addProcessToBlockQueue` */
    method AddToBlockQueue(pid: nat)
      requires Valid() && CanDispatch()
      modifies this`blocked, ready, processes.Values
      ensures Valid() && CanDispatch() && Abs() == AddToBlocked(old(Abs()), pid)
    {
      if current == Some(pid) {
        var running := processes[pid];
        if running.state == Blocked {
          return;
        }
        running.state := Blocked;
        blocked := blocked + [pid];
        OneUpdated(pid);
        return;
      }
      if pid !in processes {
        return;
      }
      var p := processes[pid];
      DropReady(p.priority, pid);
      p.state := Blocked;
      blocked := blocked + [pid];
      OneUpdated(pid);
    }

    /** `blockProcess`, which dereferences the running process. */
    method BlockProcess(pid: nat)
      requires Valid() && CanDispatch() && current.Some?
      modifies this`current, this`blocked, ready, credits, processes.Values
      ensures Valid() && Abs() == Block(old(Abs()), pid)
      ensures old(Inv(Abs()) && MayBlock(Abs(), pid)) ==> Inv(Abs())
    {
      if Inv(Abs()) && MayBlock(Abs(), pid) {
        BlockInv(Abs(), pid);
      }
      hide Inv, MayBlock, AddToBlocked, SchedulerModel.Schedule;
      AddToBlockQueue(pid);
      if current == Some(pid) {
        Schedule();
      }
    }

    /** Note what the process still has to do in the kernel, as its saved stack does. */
    ghost method SetPath(pid: nat, path: KernelPath)
      requires Valid() && pid in processes
      modifies processes[pid]
      ensures View() == old(View())[pid := old(View())[pid].(path := path)]
    {
      processes[pid].path := path;
      OneUpdated(pid);
    }

    /** `unblockProcess` */
    method UnblockProcess(pid: nat)
      requires Valid()
      modifies this`blocked, ready, processes.Values
      ensures Valid() && Abs() == Unblock(old(Abs()), pid)
      ensures old(Inv(Abs()) && MayUnblock(Abs(), pid)) ==> Inv(Abs())
    {
      hide Inv, MayUnblock, Enqueue;
      if Inv(Abs()) && MayUnblock(Abs(), pid) {
        UnblockInv(Abs(), pid);
      }
      if pid !in processes {
        return;
      }
      blocked := RemoveFirst(blocked, pid);
      var p := processes[pid];
      p.state := Ready;
      PushReady(p.priority, pid);
      OneUpdated(pid);
    }

    /** The orphaning loop of `terminateProcess`. */
    method OrphanChildren(pid: nat)
      requires Valid() && pid in processes
      modifies processes.Values
      ensures View() == Orphan(Childless(old(View()), pid), old(processes[pid].children))
    {
      ghost var t, kids := Childless(View(), pid), processes[pid].children;
      var p := processes[pid];
      while p.children != []
        invariant Orphan(Childless(View(), pid), p.children) == Orphan(t, kids)
        decreases |p.children|
      {
        DropFirstChild(pid);
      }
      assert Childless(View(), pid) == View();
    }

    method DropFirstChild(pid: nat)
      requires Valid() && pid in processes && processes[pid].children != []
      modifies processes.Values
      ensures processes[pid].children == old(processes[pid].children)[1..]
      ensures var child, t := old(processes[pid].children)[0], Childless(old(View()), pid);
              Childless(View(), pid) == if child in t then t[child := t[child].(parent := None)] else t
    {
      var p := processes[pid];
      var child := p.children[0];
      if child in processes {
        processes[child].parent := None;
      }
      p.children := p.children[1..];
    }

    /** The reaping loop of `terminateProcess`. */
    method ReapZombies(pid: nat)
      requires Valid() && pid in processes && pid !in processes[pid].reaped
      modifies this`processes, processes.Values
      ensures Valid() && pid in processes && Shrunk(old(processes))
      ensures View() == ReapAll(Zombieless(old(View()), pid), old(processes[pid].reaped))
    {
      ghost var t, zombies := Zombieless(View(), pid), processes[pid].reaped;
      var p := processes[pid];
      while p.reaped != []
        invariant Valid() && pid in processes && processes[pid] == p && pid !in p.reaped && Shrunk(old(processes))
        invariant ReapAll(Zombieless(View(), pid), p.reaped) == ReapAll(t, zombies)
        decreases |p.reaped|
      {
        DropFirstZombie(pid);
      }
      assert Zombieless(View(), pid) == View();
    }

    method DropFirstZombie(pid: nat)
      requires Valid() && pid in processes && processes[pid].reaped != [] && pid != processes[pid].reaped[0]
      modifies this`processes, processes[pid]
      ensures Valid() && pid in processes && Shrunk(old(processes))
      ensures processes[pid].reaped == old(processes[pid].reaped)[1..]
      ensures Zombieless(View(), pid) == Zombieless(old(View()), pid) - {old(processes[pid].reaped)[0]}
    {
      var p := processes[pid];
      var zombie := p.reaped[0];
      p.reaped := p.reaped[1..];
      processes := processes - {zombie};
    }

    /** Records leave the table but never move. */
    ghost predicate Shrunk(before: map<nat, Pcb>)
      reads this
    {
      forall k <- processes :: k in before && processes[k] == before[k]
    }

    /** `terminateProcess` up to the change of state: out of every queue, its own family settled. */
    method Retire(pid: nat)
      requires Valid() && CanDispatch() && pid in processes && pid !in processes[pid].reaped
      modifies this`processes, this`blocked, ready, processes.Values
      ensures Valid() && pid in processes && Shrunk(old(processes))
      ensures Abs() == Retired(old(Abs()), pid)
    {
      ghost var t := View();
      DropReady(processes[pid].priority, pid);
      blocked := RemoveFirst(blocked, pid);
      assert View() == t;
      SettleFamily(pid);
      hide Settled, RemoveReady;
    }

    method SettleFamily(pid: nat)
      requires Valid() && pid in processes && pid !in processes[pid].reaped
      modifies this`processes, processes.Values
      ensures Valid() && pid in processes && Shrunk(old(processes))
      ensures View() == Settled(old(View()), pid)
    {
      ghost var t := View();
      SettledInSteps(t, pid);
      hide Orphan, ReapAll, Settled;
      OrphanChildren(pid);
      ReapZombies(pid);
      BuryRecord(pid);
    }

    method BuryRecord(pid: nat)
      requires Valid() && pid in processes
      modifies processes[pid]
      ensures View() == old(View())[pid := old(View())[pid].(state := Zombie)]
    {
      processes[pid].state := Zombie;
      OneUpdated(pid);
    }

    /** The zombie goes to its parent, which wakes if it waits for it, or away if it has none. */
    method HandOverTo(pid: nat)
      requires Valid() && pid in processes
      requires processes[pid].parent.Some? ==> processes[pid].parent.value in processes
      modifies this`processes, this`blocked, ready, processes.Values
      ensures Valid() && Abs() == HandOver(old(Abs()), pid) && Shrunk(old(processes))
    {
      hide Unblock, Enqueue;
      if processes[pid].parent.Some? {
        var q := processes[pid].parent.value;
        MoveRecord(q, pid);
        var parent := processes[q];
        if (parent.waitingPid == 0 || parent.waitingPid == pid) && parent.state == Blocked {
          UnblockProcess(q);
        }
      } else {
        processes := processes - {pid};
      }
    }

    method MoveRecord(q: nat, pid: nat)
      requires Valid() && q in processes
      modifies processes[q]
      ensures View() == MoveToReaped(old(View()), q, pid)
      ensures processes[q].waitingPid == old(processes[q].waitingPid) && processes[q].state == old(processes[q].state)
    {
      var parent := processes[q];
      parent.children := RemoveFirst(parent.children, pid);
      parent.reaped := [pid] + parent.reaped;
      OneUpdated(q);
    }

    /** `terminateProcess` */
    method TerminateProcess(pid: nat) returns (r: int)
      requires Valid() && Inv(Abs()) && MayTerminate(Abs(), pid)
      modifies this`current, this`processes, this`blocked, ready, credits, processes.Values
      ensures Valid() && Abs() == Terminate(old(Abs()), pid) && Inv(Abs())
      ensures r == if pid in old(processes) then 0 else -1
    {
      hide Inv, MayTerminate, Dispatch, Retired, HandOver, Terminate, Dispatchable;
      ghost var s := Abs();
      TerminateInv(s, pid);
      if pid !in processes {
        UnknownPid(s, pid);
        return -1;
      }
      TerminateFacts(s, pid);
      assert s.table[pid] == processes[pid].View();
      End(pid);
      return 0;
    }

    method End(pid: nat)
      requires Valid() && pid in processes && pid !in processes[pid].reaped && Dispatchable(Abs())
      requires var r := Retired(Abs(), pid);
               pid in r.table && (r.table[pid].parent.Some? ==> r.table[pid].parent.value in r.table)
      requires current == Some(pid) ==> Dispatchable(HandOver(Retired(Abs(), pid), pid).(current := None))
      modifies this`current, this`processes, this`blocked, ready, credits, processes.Values
      ensures Valid() && Abs() == Terminate(old(Abs()), pid)
    {
      hide Dispatch, Retired, HandOver, Dispatchable;
      Leave(pid);
      if current == Some(pid) {
        DispatchNext();
      }
    }

    method Leave(pid: nat)
      requires Valid() && pid in processes && pid !in processes[pid].reaped && Dispatchable(Abs())
      requires var r := Retired(Abs(), pid);
               pid in r.table && (r.table[pid].parent.Some? ==> r.table[pid].parent.value in r.table)
      modifies this`processes, this`blocked, ready, processes.Values
      ensures Valid() && Abs() == HandOver(Retired(old(Abs()), pid), pid) && Shrunk(old(processes))
    {
      hide Retired, HandOver;
      assert View().Keys == processes.Keys;
      Retire(pid);
      HandOverTo(pid);
    }

    /** The closing timer interrupt of a process that has just ended. */
    method DispatchNext()
      requires Valid() && Dispatchable(Abs().(current := None))
      modifies this`current, ready, credits, processes.Values
      ensures Valid() && Abs() == Dispatch(old(Abs()).(current := None))
    {
      ghost var s := Abs();
      hide Dispatch;
      current := None;
      assert Abs() == s.(current := None) && View().Keys == processes.Keys;
      PickNextProcess();
    }

    /** `waitPid` up to its return, or up to the switch away from the caller, which has no result yet. */
    method WaitPid(pid: nat) returns (r: WaitResult)
      requires Valid() && CanDispatch()
      modifies this`current, this`processes, this`blocked, ready, credits, processes.Values
      ensures Valid() && Abs() == SchedulerModel.WaitPid(old(Abs()), pid)
      ensures r == if pid !in old(processes) || old(current).None? then NoSuchProcess
                   else if old(processes[pid].state) == Zombie then Collected(pid) else Asleep
      ensures old(Inv(Abs()) && MayWait(Abs(), pid) && InUserCode(Abs())) ==> Inv(Abs())
    {
      hide Inv, MayWait, Block, Reap, PlacedOk;
      ghost var s := Abs();
      if Inv(s) && MayWait(s, pid) && InUserCode(s) {
        WaitPidInv(s, pid);
      }
      if pid !in processes || current.None? {
        return NoSuchProcess;
      }
      if processes[pid].state == Zombie {
        CollectZombie(current.value, pid);
        return Collected(pid);
      }
      StartWait(current.value, pid);
      BlockProcess(current.value);
      return Asleep;
    }

    method StartWait(c: nat, pid: nat)
      requires Valid() && c in processes
      modifies processes[c]
      ensures Abs() == var s := old(Abs()); s.(table := s.table[c := s.table[c].(waitingPid := pid, path := InWaitPid(pid))])
    {
      processes[c].waitingPid := pid;
      processes[c].path := InWaitPid(pid);
      OneUpdated(c);
    }

    /** The end of `waitPid`: forget the zombie and delete it. */
    method CollectZombie(q: nat, pid: nat)
      requires Valid() && q in processes
      modifies this`processes, processes[q]
      ensures Valid() && Abs() == Reap(old(Abs()), q, pid)
    {
      Forget(q, pid);
      ghost var t := View();
      processes := processes - {pid};
      assert View() == t - {pid};
    }

    method Forget(q: nat, pid: nat)
      requires Valid() && q in processes
      modifies processes[q]
      ensures View() == old(View())[q := old(View())[q].(reaped := RemoveFirst(old(View())[q].reaped, pid), path := UserCode)]
    {
      var parent := processes[q];
      parent.reaped := RemoveFirst(parent.reaped, pid);
      parent.path := UserCode;
      OneUpdated(q);
    }

    /** A caller that slept in `waitPid` is running again; its child is a zombie by then. */
    method FinishWait(pid: nat) returns (r: nat)
      requires Valid() && Inv(Abs()) && current.Some? && current.value in processes
      requires processes[current.value].path == InWaitPid(pid)
      modifies this`processes, processes.Values
      ensures Valid() && Abs() == Resume(old(Abs())) && Inv(Abs())
      ensures r == pid && pid in old(processes) && old(processes[pid].state) == Zombie && pid !in processes
    {
      hide Inv, Reap;
      ghost var s := Abs();
      assert s.table[current.value] == processes[current.value].View();
      ResumeInv(s);
      ResumeFindsZombie(s);
      CollectZombie(current.value, pid);
      CollectedIsGone(s, current.value, pid);
      return pid;
    }
  }

  lemma ReapAllUpdate(t: Table, zombies: seq<nat>, pid: nat, p: Process)
    requires pid in t && pid !in zombies
    ensures pid in ReapAll(t, zombies) && ReapAll(t, zombies)[pid] == t[pid]
    ensures ReapAll(t[pid := p], zombies) == ReapAll(t, zombies)[pid := p]
  {
    ReapAllIs(t, zombies);
    ReapAllIs(t[pid := p], zombies);
    hide ReapAll;
  }

  lemma OrphanChildless(t: Table, pid: nat, kids: seq<nat>)
    requires pid in t
    ensures Orphan(t, kids).Keys == t.Keys && Orphan(t, kids)[pid].reaped == t[pid].reaped
    ensures Orphan(Childless(t, pid), kids) == Childless(Orphan(t, kids), pid)
  {
    OrphanIs(t, kids);
    OrphanIs(Childless(t, pid), kids);
    hide Orphan;
  }

  /** Clearing the lists before or after the loops makes no difference. */
  lemma SettledInSteps(t: Table, pid: nat)
    requires pid in t && pid !in t[pid].reaped
    ensures var u := Orphan(Childless(t, pid), t[pid].children);
            && pid in u && u[pid].reaped == t[pid].reaped
            && var v := ReapAll(Zombieless(u, pid), t[pid].reaped);
               pid in v && Settled(t, pid) == v[pid := v[pid].(state := Zombie)]
  {
    OrphanChildless(t, pid, t[pid].children);
    var w := Orphan(t, t[pid].children);
    var p := w[pid].(children := [], reaped := []);
    assert Zombieless(Childless(w, pid), pid) == w[pid := p];
    ReapAllUpdate(w, t[pid].reaped, pid, p);
    hide Orphan, ReapAll;
  }

  lemma CollectedIsGone(s: Sched, q: nat, pid: nat)
    requires q in s.table
    ensures pid !in Reap(s, q, pid).table
  {
  }

  lemma UnknownPid(s: Sched, pid: nat)
    requires pid !in s.table
    ensures Terminate(s, pid) == s
  {
  }

  lemma InvDispatchable(s: Sched)
    requires Inv(s)
    ensures Dispatchable(s)
  {
    hide PlacedOk, ListsOk, ParentsOk, PathsOk;
  }

  lemma TerminateFacts(s: Sched, pid: nat)
    requires Inv(s) && MayTerminate(s, pid) && pid in s.table
    ensures Dispatchable(s) && pid !in s.table[pid].reaped
    ensures var r := Retired(s, pid);
            pid in r.table && (r.table[pid].parent.Some? ==> r.table[pid].parent.value in r.table)
    ensures s.current == Some(pid) ==> Dispatchable(HandOver(Retired(s, pid), pid).(current := None))
  {
    hide CreditsOk, ListedOk, PlacedOk, CurrentOk, PathsOk, IdleOk, PidsOk, Dispatchable, Retired, HandOver, Exited;
    OwnKin(s.table, pid);
    RetiredParent(s, pid);
    InvDispatchable(s);
    HandOverIs(s, pid);
    ExitedInv(s, pid);
    ExitedCurrent(s, pid);
    hide ListsOk, ParentsOk, Inv;
    WakeDispatchable(s, pid);
  }

  lemma WakeDispatchable(s: Sched, pid: nat)
    requires Inv(s) && pid in s.table && pid != IDLE && s.table[pid].state != Zombie && Inv(Exited(s, pid))
    ensures var x := Exited(s, pid);
            var y := if WakesParent(s.table, pid) then Unblock(x, s.table[pid].parent.value) else x;
            Dispatchable(y) && Dispatchable(y.(current := None))
  {
    hide Exited, Inv, MayUnblock, Unblock;
    var x := Exited(s, pid);
    if WakesParent(s.table, pid) {
      WokenParent(s, pid);
      UnblockInv(x, s.table[pid].parent.value);
      InvDispatchable(Unblock(x, s.table[pid].parent.value));
    } else {
      InvDispatchable(x);
    }
  }

  lemma RetiredParent(s: Sched, pid: nat)
    requires ListsOk(s.table) && ParentsOk(s.table) && pid in s.table && s.table[pid].state != Zombie
    ensures var r := Retired(s, pid);
            pid in r.table && (r.table[pid].parent.Some? ==> r.table[pid].parent.value in r.table)
  {
    OwnKin(s.table, pid);
    SettledShape(s.table, pid);
    var u := Settled(s.table, pid);
    assert Retired(s, pid).table == u;
    hide ListsOk, ParentsOk, Retired, Settled;
    assert SettledEntry(s.table, u, pid, pid);
  }

  lemma {:induction false} RemoveSubset(s: seq<nat>, x: nat)
    ensures forall y <- RemoveFirst(s, x) :: y in s
  {
    if s != [] {
      assert s == [s[0]] + s[1..];
      RemoveSubset(s[1..], x);
    }
  }
}
