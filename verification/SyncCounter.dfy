/** The synchronised counter: any number of processes adding to one shared variable with a yield between
    the load and the store, with or without a semaphore around them. */
module SyncCounter {
  import opened Sequences
  import opened SemaphoreModel

  const TWO_63: int := 0x8000_0000_0000_0000
  const TWO_64: int := 0x1_0000_0000_0000_0000

  /** A sum kept in 64 bits and read as signed. */
  function Wrap64(x: int): int {
    (x + TWO_63) % TWO_64 - TWO_63
  }

  lemma WrapAdds(a: int, b: int)
    ensures Wrap64(Wrap64(a) + b) == Wrap64(a + b)
  {
    var x := a + TWO_63;
    assert x == x / TWO_64 * TWO_64 + x % TWO_64;
    ModAdds(x % TWO_64 + b, x / TWO_64);
    assert Wrap64(a) + b + TWO_63 == x % TWO_64 + b;
    assert a + b + TWO_63 == x % TWO_64 + b + x / TWO_64 * TWO_64;
  }

  lemma ModAdds(x: int, k: int)
    ensures (x + k * TWO_64) % TWO_64 == x % TWO_64
  {
  }

  /** Adding `a` is lost on every sum exactly if `a` wraps to nothing. */
  lemma WrapAbsorbs(a: int, b: int)
    ensures Wrap64(a + b) == Wrap64(b) <==> Wrap64(a) == 0
  {
    WrapAdds(a, b);
    WrapAdds(a + b, -b);
    WrapAdds(b, -b);
    WrapSmall(0);
    hide Wrap64;
    assert a + b + -b == a && b + -b == 0;
  }

  lemma WrapSmall(x: int)
    requires -TWO_63 <= x < TWO_63
    ensures Wrap64(x) == x
  {
  }

  /** Where a process is in its loop: before or asleep in `semWait`, before the load, before the store
      with the value it loaded, or before `semPost`. */
  datatype Place = AtWait | Asleep | Entered | Loaded(aux: int) | Written

  datatype Worker = Worker(inc: int, n: nat, i: nat, place: Place)

  datatype System = System(useSem: bool, global: int, sem: Sem, workers: seq<Worker>)

  function Started(inc: int, n: nat): Worker {
    Worker(inc, n, 0, AtWait)
  }

  /** One statement of process `p`; a process that sleeps or has finished does nothing. */
  function Step(s: System, p: nat): System {
    if p >= |s.workers| then s else
      var w := s.workers[p];
      match w.place
      case AtWait =>
        if w.i >= w.n then s
        else if !s.useSem then Put(s, p, w.(place := Entered))
        else
          var r := WaitOn(s.sem, p);
          Put(s.(sem := r.sem), p, w.(place := if r.Granted? then Entered else Asleep))
      case Asleep => s
      case Entered => Put(s, p, w.(place := Loaded(s.global)))
      case Loaded(aux) => Put(s.(global := Wrap64(aux + w.inc)), p, w.(place := Written))
      case Written => Leave(Put(s, p, w.(place := AtWait, i := w.i + 1)))
  }

  function Put(s: System, p: nat, w: Worker): System
    requires p < |s.workers|
  {
    s.(workers := s.workers[p := w])
  }

  /** `semPost`, if the semaphore is used: a woken process enters. */
  function Leave(s: System): System {
    if !s.useSem then s else
      var r := PostTo(s.sem);
      var s' := s.(sem := r.sem);
      if r.woken.Some? && r.woken.value < |s.workers|
      then Put(s', r.woken.value, s.workers[r.woken.value].(place := Entered)) else s'
  }

  function After(s: System, schedule: seq<nat>): System {
    if schedule == [] then s else Step(After(s, schedule[..|schedule| - 1]), schedule[|schedule| - 1])
  }

  // ----- what should have been added -----

  function Done(w: Worker): int {
    w.inc * (w.i + if w.place.Written? then 1 else 0)
  }

  function Sum(ws: seq<Worker>): int {
    if ws == [] then 0 else Sum(ws[..|ws| - 1]) + Done(ws[|ws| - 1])
  }

  lemma {:induction false} SumUpdate(ws: seq<Worker>, p: nat, w: Worker)
    requires p < |ws|
    ensures Sum(ws[p := w]) == Sum(ws) - Done(ws[p]) + Done(w)
  {
    var n := |ws| - 1;
    if p == n {
      assert ws[p := w][..n] == ws[..n];
    } else {
      SumUpdate(ws[..n], p, w);
      assert ws[p := w][..n] == ws[..n][p := w];
    }
  }

  // ----- invariant -----

  predicate Inside(w: Worker) {
    w.place.Entered? || w.place.Loaded? || w.place.Written?
  }

  ghost function Holders(ws: seq<Worker>): set<nat> {
    set p | 0 <= p < |ws| && Inside(ws[p])
  }

  ghost predicate QueueOk(m: Sem, ws: seq<Worker>) {
    SemOk(m) && forall p: nat :: p in m.waiting <==> p < |ws| && ws[p].place.Asleep?
  }

  ghost predicate TokenOk(m: Sem, ws: seq<Worker>) {
    QueueOk(m, ws) && Tokens(m) + |Holders(ws)| == 1
  }

  /** The counter holds what has been added; what a process inside has loaded is still current. */
  ghost predicate ValueOk(global: int, ws: seq<Worker>) {
    global == Wrap64(Sum(ws)) && forall p | 0 <= p < |ws| :: ws[p].place.Loaded? ==> ws[p].place.aux == global
  }

  predicate JobOk(w: Worker) {
    w.i <= w.n && (w.place != AtWait ==> w.i < w.n)
  }

  /** One token: free, or held by the one process inside. */
  ghost predicate Inv(s: System) {
    && s.useSem && TokenOk(s.sem, s.workers) && ValueOk(s.global, s.workers)
    && forall p | 0 <= p < |s.workers| :: JobOk(s.workers[p])
  }

  lemma HoldersAfter(ws: seq<Worker>, p: nat, w: Worker)
    requires p < |ws|
    ensures Holders(ws[p := w]) == if Inside(w) then Holders(ws) + {p} else Holders(ws) - {p}
  {
  }

  lemma OnlyHolder(ws: seq<Worker>, p: nat, q: nat)
    requires p < |ws| && q < |ws| && Inside(ws[p]) && Inside(ws[q]) && |Holders(ws)| <= 1
    ensures p == q
  {
    assert |Holders(ws) - {p}| == |Holders(ws)| - 1;
    assert p != q ==> q in Holders(ws) - {p};
  }

  /** A move that adds nothing keeps the counter right. */
  lemma Moves(global: int, ws: seq<Worker>, p: nat, w: Worker)
    requires ValueOk(global, ws) && p < |ws| && Done(w) == Done(ws[p]) && (w.place.Loaded? ==> w.place.aux == global)
    ensures ValueOk(global, ws[p := w])
  {
    SumUpdate(ws, p, w);
    hide Sum, Wrap64, Done;
  }

  lemma EnterToken(m: Sem, ws: seq<Worker>, p: nat, w: Worker)
    requires TokenOk(m, ws) && p < |ws| && ws[p].place == AtWait
    requires w.place == if WaitOn(m, p).Granted? then Entered else Asleep
    ensures TokenOk(WaitOn(m, p).sem, ws[p := w])
  {
    WaitKeepsOk(m, p);
    HoldersAfter(ws, p, w);
    assert p !in Holders(ws);
    hide Holders, SemOk;
  }

  lemma EnterInv(s: System, p: nat)
    requires Inv(s) && p < |s.workers| && s.workers[p].place == AtWait && s.workers[p].i < s.workers[p].n
    ensures Inv(Step(s, p))
  {
    hide TokenOk, ValueOk, WaitOn;
    var w' := s.workers[p].(place := if WaitOn(s.sem, p).Granted? then Entered else Asleep);
    EnterToken(s.sem, s.workers, p, w');
    Moves(s.global, s.workers, p, w');
  }

  lemma StayToken(m: Sem, ws: seq<Worker>, p: nat, w: Worker)
    requires TokenOk(m, ws) && p < |ws| && Inside(ws[p]) && Inside(w)
    ensures TokenOk(m, ws[p := w])
  {
    HoldersAfter(ws, p, w);
    assert p in Holders(ws) && Holders(ws) + {p} == Holders(ws);
    hide Holders, SemOk;
  }

  lemma LoadInv(s: System, p: nat)
    requires Inv(s) && p < |s.workers| && s.workers[p].place == Entered
    ensures Inv(Step(s, p))
  {
    hide TokenOk, ValueOk;
    var w' := s.workers[p].(place := Loaded(s.global));
    StayToken(s.sem, s.workers, p, w');
    Moves(s.global, s.workers, p, w');
  }

  /** If nobody else has loaded, or the store adds nothing, it adds to the current value. */
  lemma StoreValue(global: int, ws: seq<Worker>, p: nat)
    requires ValueOk(global, ws) && p < |ws| && ws[p].place.Loaded?
    requires forall q | 0 <= q < |ws| && q != p && ws[q].place.Loaded? :: Wrap64(ws[p].inc) == 0
    ensures ValueOk(Wrap64(global + ws[p].inc), ws[p := ws[p].(place := Written)])
  {
    var w := ws[p];
    SumUpdate(ws, p, w.(place := Written));
    WrapAdds(Sum(ws), w.inc);
    WrapAdds(Sum(ws), 0);
    WrapAbsorbs(w.inc, global);
    assert w.inc * (w.i + 1) == w.inc * w.i + w.inc;
    hide Sum, Wrap64;
  }

  lemma NobodyElseLoaded(m: Sem, ws: seq<Worker>, p: nat, q: nat)
    requires TokenOk(m, ws) && p < |ws| && q < |ws| && p != q && Inside(ws[p])
    ensures !ws[q].place.Loaded?
  {
    if Inside(ws[q]) {
      OnlyHolder(ws, p, q);
    }
  }

  lemma LoadedIsCurrent(global: int, ws: seq<Worker>, p: nat)
    requires ValueOk(global, ws) && p < |ws| && ws[p].place.Loaded?
    ensures ws[p].place.aux == global
  {
  }

  lemma StoreInv(s: System, p: nat)
    requires Inv(s) && p < |s.workers| && s.workers[p].place.Loaded?
    ensures Inv(Step(s, p))
  {
    hide TokenOk, ValueOk, Wrap64;
    forall q | 0 <= q < |s.workers| && q != p ensures !s.workers[q].place.Loaded? {
      NobodyElseLoaded(s.sem, s.workers, p, q);
    }
    assert s.workers[p].place.aux == s.global by { LoadedIsCurrent(s.global, s.workers, p); }
    StoreValue(s.global, s.workers, p);
    StayToken(s.sem, s.workers, p, s.workers[p].(place := Written));
  }

  lemma LeaveToken(m: Sem, ws: seq<Worker>, p: nat, w: Worker)
    requires TokenOk(m, ws) && p < |ws| && Inside(ws[p]) && w.place == AtWait
    ensures QueueOk(m, ws[p := w]) && Tokens(m) == 0 && Holders(ws[p := w]) == {}
  {
    HoldersAfter(ws, p, w);
    assert p in Holders(ws);
    assert |Holders(ws) - {p}| == |Holders(ws)| - 1;
    hide Holders, SemOk;
  }

  /** Posting leaves the token, or hands it to the process that has slept longest. */
  lemma PostToken(m: Sem, ws: seq<Worker>)
    requires QueueOk(m, ws) && Tokens(m) == 0 && Holders(ws) == {}
    ensures var r := PostTo(m);
            match r.woken
            case None => TokenOk(r.sem, ws)
            case Some(q) => q < |ws| && ws[q].place == Asleep && TokenOk(r.sem, ws[q := ws[q].(place := Entered)])
  {
    PostKeepsOk(m);
    var r := PostTo(m);
    if r.woken.Some? {
      var q := r.woken.value;
      assert m.waiting[0] == q;
      assert q < |ws| && ws[q].place == Asleep;
      HoldersAfter(ws, q, ws[q].(place := Entered));
      assert forall x :: x in m.waiting <==> x == q || x in r.sem.waiting;
      hide Holders, SemOk;
    }
  }

  lemma LeaveInv(s: System, p: nat)
    requires Inv(s) && p < |s.workers| && s.workers[p].place == Written
    ensures Inv(Step(s, p))
  {
    hide TokenOk, ValueOk, QueueOk, Holders, PostTo;
    var w := s.workers[p];
    var w' := w.(place := AtWait, i := w.i + 1);
    var ws := s.workers[p := w'];
    LeaveToken(s.sem, s.workers, p, w');
    Moves(s.global, s.workers, p, w');
    PostToken(s.sem, ws);
    assert forall x | 0 <= x < |ws| :: JobOk(ws[x]);
    if PostTo(s.sem).woken.Some? {
      var q := PostTo(s.sem).woken.value;
      Moves(s.global, ws, q, ws[q].(place := Entered));
    }
  }

  lemma StepInv(s: System, p: nat)
    requires Inv(s)
    ensures Inv(Step(s, p))
  {
    if p < |s.workers| && !s.workers[p].place.Asleep? && !(s.workers[p].place.AtWait? && s.workers[p].i >= s.workers[p].n) {
      match s.workers[p].place
      case AtWait => EnterInv(s, p);
      case Entered => LoadInv(s, p);
      case Loaded(_) => StoreInv(s, p);
      case Written => LeaveInv(s, p);
    }
    hide Inv, Holders, SemOk, Sum, PostTo, WaitOn;
  }

  /** The processes before any of them has run, and the semaphore the first of them opens with 1. */
  ghost predicate Fresh(s: System) {
    s.global == 0 && s.sem == Sem(1, []) && forall w <- s.workers :: w.i == 0 && w.place == AtWait
  }

  lemma {:induction false} SumFresh(ws: seq<Worker>)
    requires forall w <- ws :: w.i == 0 && w.place == AtWait
    ensures Sum(ws) == 0
  {
    if ws != [] {
      assert ws[|ws| - 1] in ws;
      SumFresh(ws[..|ws| - 1]);
    }
  }

  lemma {:induction false} RunInv(s: System, schedule: seq<nat>)
    requires Fresh(s) && s.useSem
    ensures Inv(After(s, schedule))
  {
    if schedule == [] {
      SumFresh(s.workers);
      assert Holders(s.workers) == {};
      assert forall p | 0 <= p < |s.workers| :: s.workers[p] in s.workers;
    } else {
      hide Inv, Step, Fresh;
      RunInv(s, schedule[..|schedule| - 1]);
      StepInv(After(s, schedule[..|schedule| - 1]), schedule[|schedule| - 1]);
    }
  }

  /** When nobody is inside, the counter holds exactly the completed increments. */
  ghost predicate Exact(s: System) {
    (forall w <- s.workers :: !Inside(w)) ==> s.global == Wrap64(Completed(s.workers))
  }

  lemma ValueIsExact(s: System)
    requires ValueOk(s.global, s.workers)
    ensures Exact(s)
  {
    hide Sum, Wrap64;
    if forall w <- s.workers :: !Inside(w) {
      CompletedIsSum(s.workers);
    }
  }

  /** With the semaphore, two processes are never inside together. */
  lemma MutualExclusion(s: System, schedule: seq<nat>)
    requires Fresh(s) && s.useSem
    ensures var r := After(s, schedule);
            forall p, q | 0 <= p < q < |r.workers| :: !(Inside(r.workers[p]) && Inside(r.workers[q]))
  {
    RunInv(s, schedule);
    var r := After(s, schedule);
    hide After, QueueOk, Fresh, ValueOk;
    forall p, q | 0 <= p < q < |r.workers| ensures !(Inside(r.workers[p]) && Inside(r.workers[q])) {
      if Inside(r.workers[p]) && Inside(r.workers[q]) {
        OnlyHolder(r.workers, p, q);
      }
    }
  }

  /** A process sleeps only while another is inside and will post: the test cannot hang. */
  lemma SleeperHasHolder(s: System, schedule: seq<nat>, p: nat)
    requires Fresh(s) && s.useSem
    requires p < |After(s, schedule).workers| && After(s, schedule).workers[p].place == Asleep
    ensures exists q | 0 <= q < |After(s, schedule).workers| :: Inside(After(s, schedule).workers[q])
  {
    RunInv(s, schedule);
    var r := After(s, schedule);
    hide After, Fresh, ValueOk;
    assert p in r.sem.waiting && Tokens(r.sem) == 0;
    assert |Holders(r.workers)| == 1;
    var q :| q in Holders(r.workers);
    assert Inside(r.workers[q]);
  }

  /** The sum of inc times completed iterations. */
  function Completed(ws: seq<Worker>): int {
    if ws == [] then 0 else Completed(ws[..|ws| - 1]) + ws[|ws| - 1].inc * ws[|ws| - 1].i
  }

  lemma {:induction false} CompletedIsSum(ws: seq<Worker>)
    requires forall w <- ws :: !Inside(w)
    ensures Sum(ws) == Completed(ws)
  {
    if ws != [] {
      assert ws[|ws| - 1] in ws;
      CompletedIsSum(ws[..|ws| - 1]);
    }
  }

  /** The four processes of the test. */
  function TestWorkers(n: nat): seq<Worker> {
    [Started(-1, n), Started(1, n), Started(-1, n), Started(1, n)]
  }

  lemma {:induction false} SameJobs(s: System, schedule: seq<nat>, p: nat)
    requires p < |s.workers|
    ensures var r := After(s, schedule);
            |r.workers| == |s.workers| && r.workers[p].inc == s.workers[p].inc && r.workers[p].n == s.workers[p].n
  {
    if schedule != [] {
      SameJobs(s, schedule[..|schedule| - 1], p);
      StepSameJobs(After(s, schedule[..|schedule| - 1]), schedule[|schedule| - 1], p);
    }
  }

  lemma StepSameJobs(s: System, q: nat, p: nat)
    requires p < |s.workers|
    ensures var r := Step(s, q);
            |r.workers| == |s.workers| && r.workers[p].inc == s.workers[p].inc && r.workers[p].n == s.workers[p].n
  {
    hide WaitOn, PostTo, Wrap64;
  }

  // ----- without the semaphore -----

  /** No two processes have iterations to do of which one changes the counter. */
  ghost predicate Harmless(ws: seq<Worker>) {
    forall p, q | 0 <= p < |ws| && 0 <= q < |ws| && p != q && ws[p].n > 0 && ws[q].n > 0 :: Wrap64(ws[p].inc) == 0
  }

  ghost predicate FreeInv(s: System) {
    !s.useSem && ValueOk(s.global, s.workers) && forall p | 0 <= p < |s.workers| :: JobOk(s.workers[p])
  }

  lemma StepFree(s: System, p: nat)
    requires FreeInv(s) && Harmless(s.workers)
    ensures FreeInv(Step(s, p))
  {
    hide ValueOk, Wrap64;
    if p < |s.workers| {
      var w := s.workers[p];
      match w.place
      case AtWait => Moves(s.global, s.workers, p, w.(place := Entered));
      case Asleep =>
      case Entered => Moves(s.global, s.workers, p, w.(place := Loaded(s.global)));
      case Loaded(_) =>
        LoadedIsCurrent(s.global, s.workers, p);
        StoreValue(s.global, s.workers, p);
      case Written => Moves(s.global, s.workers, p, w.(place := AtWait, i := w.i + 1));
    }
  }

  lemma {:induction false} RunFree(s: System, schedule: seq<nat>)
    requires Fresh(s) && !s.useSem && Harmless(s.workers)
    ensures FreeInv(After(s, schedule))
  {
    if schedule == [] {
      SumFresh(s.workers);
      assert forall p | 0 <= p < |s.workers| :: s.workers[p] in s.workers;
    } else {
      hide FreeInv, Step, Fresh, Wrap64;
      var before := schedule[..|schedule| - 1];
      RunFree(s, before);
      forall p | 0 <= p < |s.workers|
        ensures var r := After(s, before);
                |r.workers| == |s.workers| && r.workers[p].inc == s.workers[p].inc && r.workers[p].n == s.workers[p].n
      {
        SameJobs(s, before, p);
      }
      SameLength(s, before);
      StepFree(After(s, before), schedule[|schedule| - 1]);
    }
  }

  lemma {:induction false} SameLength(s: System, schedule: seq<nat>)
    ensures |After(s, schedule).workers| == |s.workers|
  {
    if schedule != [] {
      hide WaitOn, PostTo, Wrap64;
      SameLength(s, schedule[..|schedule| - 1]);
    }
  }

  /** With the semaphore, or where no increment can be lost, the counter is right after every statement. */
  lemma RunValue(s: System, schedule: seq<nat>)
    requires Fresh(s) && (s.useSem || Harmless(s.workers))
    ensures var r := After(s, schedule);
            ValueOk(r.global, r.workers) && forall p | 0 <= p < |r.workers| :: JobOk(r.workers[p])
  {
    hide After, Fresh, ValueOk, TokenOk, Harmless;
    if s.useSem {
      RunInv(s, schedule);
    } else {
      RunFree(s, schedule);
    }
  }

  /** The semaphore with the token free, or taken. */
  function WithToken(s: System, free: bool): System {
    s.(sem := if s.useSem then Sem(if free then 1 else 0, []) else s.sem)
  }

  /** Nobody else has to be waited for: the semaphore is not used, or its token is free. */
  predicate TokenFree(s: System) {
    s == WithToken(s, true)
  }

  lemma EnterAndLoad(s: System, p: nat)
    requires TokenFree(s) && p < |s.workers| && s.workers[p].place == AtWait && s.workers[p].i < s.workers[p].n
    ensures Step(Step(s, p), p) == Put(WithToken(s, false), p, s.workers[p].(place := Loaded(s.global)))
  {
  }

  lemma StoreAndLeave(s: System, p: nat)
    requires p < |s.workers| && s.workers[p].place.Loaded? && s == WithToken(s, false)
    ensures var w := s.workers[p];
            Step(Step(s, p), p)
            == Put(WithToken(s, true).(global := Wrap64(w.place.aux + w.inc)), p, w.(place := AtWait, i := w.i + 1))
  {
    hide Wrap64;
  }

  /** A process that finds the token taken sleeps behind the others, and one that leaves wakes the first
      of them, who is then inside, or frees the token. */
  lemma SleepsAndWakes(s: System, p: nat)
    requires Inv(s) && p < |s.workers|
    ensures s.workers[p].place == AtWait && s.workers[p].i < s.workers[p].n && Tokens(s.sem) == 0 ==>
              Step(s, p) == s.(sem := Sem(s.sem.value - 1, s.sem.waiting + [p]),
                               workers := s.workers[p := s.workers[p].(place := Asleep)])
    ensures s.workers[p].place == Written ==>
              var left := s.workers[p := s.workers[p].(place := AtWait, i := s.workers[p].i + 1)];
              if s.sem.waiting == [] then Step(s, p) == s.(sem := Sem(s.sem.value + 1, []), workers := left)
              else var q := s.sem.waiting[0];
                   && q < |s.workers| && s.workers[q].place == Asleep
                   && Step(s, p) == s.(sem := Sem(s.sem.value + 1, s.sem.waiting[1..]),
                                       workers := left[q := s.workers[q].(place := Entered)])
  {
    if s.sem.waiting != [] {
      assert s.sem.waiting[0] in s.sem.waiting;
    }
    hide ValueOk, Holders;
  }

  /** Two processes both load before either stores: the first store is lost. */
  lemma Race(s: System, p: nat, q: nat)
    requires Fresh(s) && !s.useSem && p < |s.workers| && q < |s.workers| && p != q
    requires s.workers[p].n > 0 && s.workers[q].n > 0
    ensures var (v, w) := (s.workers[p], s.workers[q]);
            var r := After(s, [p, p] + [q, q] + [p, p] + [q, q]);
            && r == s.(global := Wrap64(w.inc), workers := s.workers[p := v.(i := 1)][q := w.(i := 1)])
            && (forall x <- r.workers :: x.place == AtWait) && Sum(r.workers) == v.inc + w.inc
  {
    hide After, Sum, Wrap64, Step;
    var (v, w) := (s.workers[p], s.workers[q]);
    assert v in s.workers && w in s.workers;
    var (ws1, ws2) := (s.workers[p := v.(place := Loaded(0))], s.workers[p := v.(place := Loaded(0))][q := w.(place := Loaded(0))]);
    var (ws3, ws4) := (ws2[p := v.(i := 1)], ws2[p := v.(i := 1)][q := w.(i := 1)]);
    StartOnly(s);
    EnterAndLoad(s, p);
    EnterAndLoad(s.(workers := ws1), q);
    StoreAndLeave(s.(workers := ws2), p);
    StoreAndLeave(s.(global := Wrap64(v.inc), workers := ws3), q);
    AfterTwo(s, [], p, p);
    assert [] + [p, p] == [p, p];
    AfterTwo(s, [p, p], q, q);
    AfterTwo(s, [p, p] + [q, q], p, p);
    AfterTwo(s, [p, p] + [q, q] + [p, p], q, q);
    var one := s.workers[p := v.(i := 1)];
    assert ws4 == one[q := w.(i := 1)];
    SumFresh(s.workers);
    SumUpdate(s.workers, p, v.(i := 1));
    SumUpdate(one, q, w.(i := 1));
  }

  lemma StartOnly(s: System)
    ensures After(s, []) == s
  {
  }

  lemma AfterTwo(s: System, schedule: seq<nat>, p: nat, q: nat)
    ensures After(s, schedule + [p, q]) == Step(Step(After(s, schedule), p), q)
  {
    assert (schedule + [p, q])[..|schedule| + 1] == schedule + [p];
    assert (schedule + [p])[..|schedule|] == schedule;
  }

  /** The counter is exact under every schedule if and only if the semaphore is used or no increment can
      be lost: as soon as two processes have iterations to do and one of them changes the counter, some
      schedule loses that change. */
  lemma CounterIsExactIff(s: System)
    requires Fresh(s)
    ensures (forall schedule: seq<nat> :: Exact(After(s, schedule))) <==> s.useSem || Harmless(s.workers)
  {
    hide After, Fresh, Exact, ValueOk, Wrap64;
    if s.useSem || Harmless(s.workers) {
      forall schedule: seq<nat> ensures Exact(After(s, schedule)) {
        RunValue(s, schedule);
        ValueIsExact(After(s, schedule));
      }
    } else {
      var p, q :| 0 <= p < |s.workers| && 0 <= q < |s.workers| && p != q
                  && s.workers[p].n > 0 && s.workers[q].n > 0 && Wrap64(s.workers[p].inc) != 0;
      RaceIsNotExact(s, p, q);
    }
  }

  lemma RaceIsNotExact(s: System, p: nat, q: nat)
    requires Fresh(s) && !s.useSem && p < |s.workers| && q < |s.workers| && p != q
    requires s.workers[p].n > 0 && s.workers[q].n > 0 && Wrap64(s.workers[p].inc) != 0
    ensures !Exact(After(s, [p, p] + [q, q] + [p, p] + [q, q]))
  {
    hide After, Fresh, Wrap64, Sum, Completed;
    Race(s, p, q);
    CompletedIsSum(After(s, [p, p] + [q, q] + [p, p] + [q, q]).workers);
    WrapAbsorbs(s.workers[p].inc, s.workers[q].inc);
  }

  // ----- the test -----

  /** The four processes of the test, with or without the semaphore. */
  function TestSystem(useSem: bool, n: nat): System {
    System(useSem, 0, Sem(1, []), TestWorkers(n))
  }

  predicate Finished(ws: seq<Worker>) {
    forall w <- ws :: w.place == AtWait && w.i >= w.n
  }

  /** When all four processes of the test have finished, the counter is back at 0 under every schedule,
      if and only if the semaphore is used or there was nothing to do. */
  lemma TestEndsAtZeroIff(useSem: bool, n: nat)
    ensures (forall schedule: seq<nat> | Finished(After(TestSystem(useSem, n), schedule).workers) ::
               After(TestSystem(useSem, n), schedule).global == 0)
            <==> useSem || n == 0
  {
    hide After, Finished, TestSystem;
    if useSem || n == 0 {
      forall schedule: seq<nat> | Finished(After(TestSystem(useSem, n), schedule).workers)
        ensures After(TestSystem(useSem, n), schedule).global == 0
      {
        EndsAtZero(useSem, n, schedule);
      }
    } else {
      var schedule := EndsAtOne(n);
    }
  }

  lemma TestIsFresh(useSem: bool, n: nat)
    ensures Fresh(TestSystem(useSem, n)) && |TestWorkers(n)| == 4
    ensures n == 0 ==> Harmless(TestWorkers(n))
  {
    hide Wrap64;
  }

  lemma EndsAtZero(useSem: bool, n: nat, schedule: seq<nat>)
    requires (useSem || n == 0) && Finished(After(TestSystem(useSem, n), schedule).workers)
    ensures After(TestSystem(useSem, n), schedule).global == 0
  {
    hide After, TestWorkers, Wrap64, Fresh, Harmless, ValueOk, JobOk, Finished;
    var s := TestSystem(useSem, n);
    var r := After(s, schedule);
    TestIsFresh(useSem, n);
    RunValue(s, schedule);
    ValueIsExact(r);
    SameLength(s, schedule);
    forall p | 0 <= p < 4 ensures r.workers[p] == TestWorkers(n)[p].(i := n) {
      SameJobs(s, schedule, p);
      JobDone(n, r.workers, p);
    }
    AllDone(n, r.workers);
    WrapSmall(0);
  }

  /** A finished process of the test has done its n iterations. */
  lemma JobDone(n: nat, ws: seq<Worker>, p: nat)
    requires p < 4 && |ws| == 4 && JobOk(ws[p]) && Finished(ws)
    requires ws[p].n == TestWorkers(n)[p].n && ws[p].inc == TestWorkers(n)[p].inc
    ensures ws[p] == TestWorkers(n)[p].(i := n)
  {
    assert ws[p] in ws;
  }

  lemma AllDone(n: nat, ws: seq<Worker>)
    requires |ws| == 4 && forall p | 0 <= p < 4 :: ws[p] == TestWorkers(n)[p].(i := n)
    ensures (forall w <- ws :: !Inside(w)) && Completed(ws) == 0 && Sum(ws) == 0
  {
    hide Completed, Sum;
    FourCompleted(ws);
    CompletedIsSum(ws);
  }

  lemma FourCompleted(ws: seq<Worker>)
    requires |ws| == 4
    ensures Completed(ws) == ws[0].inc * ws[0].i + ws[1].inc * ws[1].i + ws[2].inc * ws[2].i + ws[3].inc * ws[3].i
  {
    assert ws[..3][..2] == ws[..2] && ws[..2][..1] == ws[..1] && ws[..1][..0] == [];
    assert Completed(ws[..1]) == Completed(ws[..1][..0]) + ws[0].inc * ws[0].i;
    assert Completed(ws[..2]) == Completed(ws[..2][..1]) + ws[1].inc * ws[1].i;
    assert Completed(ws[..3]) == Completed(ws[..3][..2]) + ws[2].inc * ws[2].i;
  }

  // ----- a finishing schedule that ends at 1 -----

  lemma {:induction false} AfterAppend(s: System, a: seq<nat>, b: seq<nat>)
    ensures After(s, a + b) == After(After(s, a), b)
  {
    if b == [] {
      assert a + b == a;
    } else {
      var before := b[..|b| - 1];
      AfterAppend(s, a, before);
      assert (a + b)[..|a + b| - 1] == a + before;
    }
  }

  /** Everything done so far is in the counter, except for a lost amount. */
  ghost predicate Off(s: System, lost: int) {
    s.global == Wrap64(Sum(s.workers) - lost)
  }

  /** One iteration of a process that runs alone loses nothing. */
  lemma Iterate(s: System, p: nat, lost: int)
    requires TokenFree(s) && p < |s.workers| && s.workers[p].place == AtWait && s.workers[p].i < s.workers[p].n
    requires Off(s, lost)
    ensures var r := After(s, [p, p] + [p, p]);
            && r == s.(global := r.global, workers := s.workers[p := s.workers[p].(i := s.workers[p].i + 1)])
            && Off(r, lost)
  {
    hide Wrap64, Sum, After, Step;
    var w := s.workers[p];
    StartOnly(s);
    AfterTwo(s, [], p, p);
    assert [] + [p, p] == [p, p];
    AfterTwo(s, [p, p], p, p);
    EnterAndLoad(s, p);
    var loaded := Put(WithToken(s, false), p, w.(place := Loaded(s.global)));
    StoreAndLeave(loaded, p);
    assert loaded.workers[p := w.(i := w.i + 1)] == s.workers[p := w.(i := w.i + 1)];
    SumUpdate(s.workers, p, w.(i := w.i + 1));
    assert w.inc * (w.i + 1) == w.inc * w.i + w.inc;
    WrapAdds(Sum(s.workers) - lost, w.inc);
    assert Sum(s.workers) - lost + w.inc == Sum(s.workers[p := w.(i := w.i + 1)]) - lost;
  }

  /** A process that runs alone finishes. */
  lemma {:induction false} FinishOne(s: System, p: nat, lost: int) returns (schedule: seq<nat>)
    requires TokenFree(s) && p < |s.workers| && s.workers[p].place == AtWait && s.workers[p].i <= s.workers[p].n
    requires Off(s, lost)
    ensures var r := After(s, schedule);
            && r == s.(global := r.global, workers := s.workers[p := s.workers[p].(i := s.workers[p].n)])
            && Off(r, lost)
    decreases s.workers[p].n - s.workers[p].i
  {
    if s.workers[p].i == s.workers[p].n {
      schedule := [];
      assert s.workers[p := s.workers[p].(i := s.workers[p].n)] == s.workers;
    } else {
      hide Off, Step, After;
      Iterate(s, p, lost);
      var rest := FinishOne(After(s, [p, p] + [p, p]), p, lost);
      schedule := [p, p] + [p, p] + rest;
      AfterAppend(s, [p, p] + [p, p], rest);
    }
  }

  /** All processes finish, one after the other. */
  lemma {:induction false} FinishFrom(s: System, k: nat, lost: int) returns (schedule: seq<nat>)
    requires TokenFree(s) && k <= |s.workers| && Off(s, lost)
    requires forall w <- s.workers :: w.place == AtWait && w.i <= w.n
    requires forall p | 0 <= p < k :: s.workers[p].i == s.workers[p].n
    ensures var r := After(s, schedule);
            && |r.workers| == |s.workers| && Off(r, lost)
            && forall p | 0 <= p < |s.workers| :: r.workers[p] == s.workers[p].(i := s.workers[p].n)
    decreases |s.workers| - k
  {
    if k == |s.workers| {
      schedule := [];
      assert forall p | 0 <= p < k :: s.workers[p] in s.workers;
    } else {
      hide Off, Step, After;
      assert s.workers[k] in s.workers;
      var first := FinishOne(s, k, lost);
      var rest := FinishFrom(After(s, first), k + 1, lost);
      schedule := first + rest;
      AfterAppend(s, first, rest);
    }
  }

  /** The test can finish, with or without the semaphore: one process after the other, it ends at 0. */
  lemma TestCanFinish(useSem: bool, n: nat) returns (schedule: seq<nat>)
    ensures var r := After(TestSystem(useSem, n), schedule); Finished(r.workers) && r.global == 0
    ensures forall p | 0 <= p < 4 ::
              p < |After(TestSystem(useSem, n), schedule).workers|
              && After(TestSystem(useSem, n), schedule).workers[p] == TestWorkers(n)[p].(i := n)
  {
    var s := TestSystem(useSem, n);
    hide After, Fresh, Wrap64, Sum, Completed;
    TestIsFresh(useSem, n);
    SumFresh(s.workers);
    WrapSmall(0);
    assert Off(s, 0);
    hide Off;
    schedule := FinishFrom(s, 0, 0);
    var r := After(s, schedule);
    AllDone(n, r.workers);
    OffByNone(r);
  }

  lemma OffByNone(s: System)
    requires Off(s, 0) && Sum(s.workers) == 0
    ensures s.global == 0
  {
    WrapSmall(0);
  }

  /** The first decrement is lost and everything else is done. */
  lemma EndsAtOne(n: nat) returns (schedule: seq<nat>)
    requires n > 0
    ensures var r := After(TestSystem(false, n), schedule); Finished(r.workers) && r.global == 1
  {
    var s := TestSystem(false, n);
    var race := [0, 0] + [1, 1] + [0, 0] + [1, 1];
    var mid := After(s, race);
    hide After, Fresh, Wrap64, Sum, Completed;
    TestIsFresh(false, n);
    Race(s, 0, 1);
    assert Off(mid, -1);
    hide Off;
    var rest := FinishFrom(mid, 0, -1);
    schedule := race + rest;
    AfterAppend(s, race, rest);
    var r := After(s, schedule);
    AllDone(n, r.workers);
    OffByOne(r);
  }

  lemma OffByOne(s: System)
    requires Off(s, -1) && Sum(s.workers) == 0
    ensures s.global == 1
  {
    WrapSmall(1);
  }
}
