/** A counting semaphore as functions on its value and its queue of waiting pids. Each call runs under
    the semaphore's lock inside one kernel path, so each function is one atomic step. */
module SemaphoreModel {
  import opened Sequences

  datatype Sem = Sem(value: int, waiting: seq<nat>)

  datatype Post = Post(sem: Sem, woken: Option<nat>)
  datatype Wait = Granted(sem: Sem) | MustSleep(sem: Sem)

  /** `semWait` up to the point where a caller without a token starts to sleep. */
  function WaitOn(m: Sem, pid: nat): Wait {
    if m.value - 1 < 0 then MustSleep(Sem(m.value - 1, m.waiting + [pid])) else Granted(Sem(m.value - 1, m.waiting))
  }

  /** `semPost`; an empty queue yields the null pointer, which is the pid of idle. */
  function PostTo(m: Sem): Post {
    if m.value + 1 > 0 then Post(Sem(m.value + 1, m.waiting), None)
    else if m.waiting == [] then Post(Sem(m.value + 1, []), Some(0))
    else Post(Sem(m.value + 1, m.waiting[1..]), Some(m.waiting[0]))
  }

  /** `semTryWait` with the lock free: take a token, or put it back and fail. */
  function TryWait(m: Sem): (Sem, bool) {
    if m.value - 1 < 0 then (Sem(m.value - 1 + 1, m.waiting), false) else (Sem(m.value - 1, m.waiting), true)
  }

  /** `semGetValue` */
  function GetValue(m: Sem): int {
    if m.waiting == [] then m.value else -|m.waiting|
  }

  /** A negative value counts the waiting processes, each waiting once; otherwise nobody waits. */
  ghost predicate SemOk(m: Sem) {
    NoDup(m.waiting) && |m.waiting| == if m.value < 0 then -m.value else 0
  }

  /** Tokens nobody has taken. */
  function Tokens(m: Sem): nat {
    if m.value < 0 then 0 else m.value
  }

  lemma OpenOkIff(value: int)
    ensures SemOk(Sem(value, [])) <==> value >= 0
  {
  }

  /** A caller sleeps exactly when there is no token; otherwise it takes one. */
  lemma WaitKeepsOk(m: Sem, pid: nat)
    requires SemOk(m) && pid !in m.waiting
    ensures var w := WaitOn(m, pid);
            && SemOk(w.sem)
            && (w.Granted? <==> Tokens(m) > 0)
            && (w.Granted? ==> w.sem.waiting == m.waiting == [] && Tokens(w.sem) == Tokens(m) - 1)
            && (w.MustSleep? ==> w.sem.waiting == m.waiting + [pid] && Tokens(w.sem) == Tokens(m) == 0)
  {
  }

  /** A post wakes the process that has waited longest, and only if nobody waits leaves a token. */
  lemma PostKeepsOk(m: Sem)
    requires SemOk(m)
    ensures var p := PostTo(m);
            && SemOk(p.sem)
            && (p.woken.Some? <==> m.waiting != [])
            && (p.woken.Some? ==> m.waiting == [p.woken.value] + p.sem.waiting && p.woken.value !in p.sem.waiting
                                  && Tokens(p.sem) == Tokens(m) == 0)
            && (p.woken.None? ==> p.sem.waiting == [] && Tokens(p.sem) == Tokens(m) + 1)
  {
  }

  /** A failing attempt leaves no trace, and fails exactly when there is no token. */
  lemma TryWaitKeepsOk(m: Sem)
    ensures var (m', ok) := TryWait(m);
            && (ok <==> Tokens(m) > 0) && (!ok ==> m' == m)
            && (SemOk(m) ==> SemOk(m')) && (ok ==> Tokens(m') == Tokens(m) - 1 && m'.waiting == m.waiting)
  {
  }

  /** Both ways of reading the value agree. */
  lemma GetValueIsValue(m: Sem)
    requires SemOk(m)
    ensures GetValue(m) == m.value
  {
  }
}
