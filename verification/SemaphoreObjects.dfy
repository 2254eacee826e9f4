/** The semaphore as it runs: its value and queue updated in place, its sleepers handed to the scheduler. */
module SemaphoreObjects {
  import opened Sequences
  import opened SchedulerModel
  import opened SchedulerInvariant
  import opened KernelScheduler
  import opened SemaphoreModel

  class Semaphore {
    var value: int
    var waiting: seq<nat>

    ghost function Abs(): Sem
      reads this
    {
      Sem(value, waiting)
    }

    /** The state in which `semOpen` leaves a new semaphore. */
    constructor (value: int)
      ensures Abs() == Sem(value, [])
      ensures value >= 0 ==> SemOk(Abs())
    {
      this.value, waiting := value, [];
    }

    /** `semWait` up to its return, or up to the switch away from a caller that sleeps. The queue takes
        the pid of idle for null: idle would sleep without being queued. */
    method Wait(sched: Scheduler) returns (granted: bool)
      requires sched.Valid() && sched.CanDispatch() && sched.current.Some?
      modifies this, sched`current, sched`blocked, sched.ready, sched.credits, sched.processes.Values
      ensures sched.Valid()
      ensures var w := WaitOn(old(Abs()), old(sched.current.value));
              && granted == w.Granted? && value == w.sem.value
              && waiting == if old(sched.current.value) == IDLE then old(waiting) else w.sem.waiting
      ensures sched.Abs() == if granted then old(sched.Abs()) else SemBlock(old(sched.Abs()))
    {
      hide Inv, SemBlock;
      var pid := sched.current.value;
      value := value - 1;
      if value < 0 {
        if pid != IDLE {
          waiting := waiting + [pid];
        }
        Sleep(sched, pid);
        return false;
      }
      return true;
    }

    method Sleep(sched: Scheduler, pid: nat)
      requires sched.Valid() && sched.CanDispatch() && sched.current == Some(pid)
      modifies sched`current, sched`blocked, sched.ready, sched.credits, sched.processes.Values
      ensures sched.Valid() && sched.Abs() == SemBlock(old(sched.Abs()))
    {
      hide Inv, AddToBlocked, SchedulerModel.Yield, Dispatch;
      sched.SetPath(pid, InSemWait);
      sched.AddToBlockQueue(pid);
      sched.Yield();
    }

    /** `semPost`; dequeuing from an empty queue yields null, the pid of idle. */
    method Post(sched: Scheduler)
      requires sched.Valid()
      modifies this, sched`blocked, sched.ready, sched.processes.Values
      ensures sched.Valid()
      ensures var p := PostTo(old(Abs()));
              && Abs() == p.sem
              && sched.Abs() == if p.woken.Some? then SemWake(old(sched.Abs()), p.woken.value) else old(sched.Abs())
    {
      value := value + 1;
      if value <= 0 {
        var pid := 0;
        if waiting != [] {
          pid, waiting := waiting[0], waiting[1..];
        }
        Wake(sched, pid);
      }
    }

    method Wake(sched: Scheduler, pid: nat)
      requires sched.Valid()
      modifies sched`blocked, sched.ready, sched.processes.Values
      ensures sched.Valid() && sched.Abs() == SemWake(old(sched.Abs()), pid)
    {
      hide Inv, Unblock;
      ghost var s := sched.Abs();
      if pid in sched.processes {
        sched.SetPath(pid, UserCode);
        assert sched.Abs() == s.(table := s.table[pid := s.table[pid].(path := UserCode)]);
      }
      sched.UnblockProcess(pid);
    }

    /** `semTryWait` with the lock free. */
    method TryWait() returns (r: int)
      modifies this`value
      ensures Abs() == SemaphoreModel.TryWait(old(Abs())).0
      ensures r == if SemaphoreModel.TryWait(old(Abs())).1 then 0 else -1
      ensures r == -1 ==> Abs() == old(Abs())
    {
      value := value - 1;
      if value < 0 {
        value := value + 1;
        return -1;
      }
      return 0;
    }

    /** `semGetValue` */
    method GetValue() returns (sval: int)
      ensures sval == SemaphoreModel.GetValue(Abs())
      ensures SemOk(Abs()) ==> sval == value
    {
      if waiting == [] {
        sval := value;
      } else {
        sval := -1 * |waiting|;
      }
    }
  }
}
