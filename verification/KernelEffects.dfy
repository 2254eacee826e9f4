/** What each semaphore call does to the semaphore, to its history and to the scheduler. */
module KernelEffects {
  import opened Sequences
  import opened SchedulerModel
  import opened SchedulerInvariant
  import opened SchedulerSteps
  import opened SchedulerRuns
  import opened SchedulerEffects
  import opened SemaphoreModel
  import opened KernelSemaphores

  /** Every other semaphore is as it was. */
  ghost predicate OnlySem(k: Kernel, k': Kernel, id: nat) {
    k'.sems.Keys == k.sems.Keys + {id} && forall x <- k.sems :: x != id ==> k'.sems[x] == k.sems[x]
  }

  /** A post counts once. If somebody waits, it hands its token to the first of the queue, which is then
      ready at the end of the queue of its priority; otherwise the semaphore keeps the token. */
  lemma PostIs(k: Kernel, id: nat)
    requires KernelInv(k) && id in k.sems
    ensures var (r, k') := (k.sems[id], Do(k, SemPost(id)));
            && OnlySem(k, k', id)
            && if r.sem.waiting == [] then
                 k'.sems[id] == r.(sem := Sem(r.sem.value + 1, []), posts := r.posts + 1) && k'.sched == k.sched
               else
                 var q := r.sem.waiting[0];
                 && k'.sems[id] == r.(sem := Sem(r.sem.value + 1, r.sem.waiting[1..]), posts := r.posts + 1,
                                      completed := r.completed + 1, woken := r.woken + [q])
                 && q in k.sched.table
                 && var p := k.sched.table[q].priority;
                    k'.sched == k.sched.(blocked := RemoveFirst(k.sched.blocked, q),
                                         ready := k.sched.ready[p := k.sched.ready[p] + [q]],
                                         table := k.sched.table[q := k.sched.table[q].(path := UserCode, state := Ready)])
  {
    hide Inv, QueuesOk, SemWake, PostTo;
    var r := k.sems[id];
    RecordAt(k.sems, id);
    PostOutcome(r.sem);
    if r.sem.waiting != [] {
      var q := r.sem.waiting[0];
      assert q in r.sem.waiting && Waits(k.sems, id, q);
      WaiterAsleep(k.sched, k.sems, id, q);
      SemWakeIs(k.sched, q);
    }
  }

  lemma PostOutcome(m: Sem)
    requires SemOk(m)
    ensures PostTo(m) == if m.waiting == [] then Post(Sem(m.value + 1, []), None)
                         else Post(Sem(m.value + 1, m.waiting[1..]), Some(m.waiting[0]))
  {
  }

  /** A wait takes a free token and returns; without one the caller joins the end of the queue, sleeps,
      and the next process is dispatched. */
  lemma WaitIs(k: Kernel, id: nat)
    requires KernelInv(k) && id in k.sems && MaySleep(k.sched)
    ensures var (r, k', c) := (k.sems[id], Do(k, SemWait(id)), k.sched.current.value);
            && OnlySem(k, k', id)
            && if Tokens(r.sem) > 0 then
                 && k'.sems[id] == r.(sem := Sem(r.sem.value - 1, r.sem.waiting), completed := r.completed + 1)
                 && k'.sched == k.sched
               else
                 && k'.sems[id] == r.(sem := Sem(r.sem.value - 1, r.sem.waiting + [c]), arrived := r.arrived + [c])
                 && Served(k.sched.(table := k.sched.table[c := k.sched.table[c].(path := InSemWait, state := Blocked, quantum := 1)],
                                    blocked := k.sched.blocked + [c]), k'.sched)
  {
    hide Inv, QueuesOk, RecordsOk, Served, SemBlock;
    SemBlockServes(k.sched);
  }

  /** An attempt takes a free token, or fails and leaves everything as it was. */
  lemma TryIs(k: Kernel, id: nat)
    requires id in k.sems
    ensures var (r, k') := (k.sems[id], Do(k, SemTryWait(id)));
            && OnlySem(k, k', id) && k'.sched == k.sched
            && k'.sems[id] == if Tokens(r.sem) > 0
                              then r.(sem := Sem(r.sem.value - 1, r.sem.waiting), completed := r.completed + 1) else r
  {
  }

  /** Opening a new name gives a semaphore with its value and without waiters or history. */
  lemma OpenIs(k: Kernel, id: nat, value: nat)
    ensures var k' := Do(k, SemOpen(id, value));
            && k'.sched == k.sched && id in k'.sems && OnlySem(k, k', id)
            && k'.sems[id] == if id in k.sems then k.sems[id] else Record(Sem(value, []), value, 0, 0, [], [])
  {
  }
}
