/** The one-slot mailbox of the readers/writers program: any number of writers and readers, interleaved
    statement by statement, sharing a slot through two semaphores. */
module MvarProtocol {
  import opened Sequences
  import opened SemaphoreModel

  const EMPTY: char := '\0'

  /** Where a process is in its endless loop. A writer waits on `semEmpty`, then stores; a reader waits
      on `semFull`, then copies the slot, clears it, and posts. */
  datatype Place = AtWait | Asleep | HasToken | HasStored | HasCopied(c: char) | HasCleared(c: char)

  datatype Task = Task(writer: bool, symbol: char, place: Place)

  datatype System = System(
    slot: char, empty: Sem, full: Sem, tasks: seq<Task>, stored: seq<char>, consumed: seq<char>)

  predicate Blank(s: System) {
    && s.slot == EMPTY && s.empty == Sem(1, []) && s.full == Sem(0, []) && s.stored == [] && s.consumed == []
    && forall p | 0 <= p < |s.tasks| :: s.tasks[p].place == AtWait
  }

  function Put(s: System, p: nat, place: Place): System
    requires p < |s.tasks|
  {
    s.(tasks := s.tasks[p := s.tasks[p].(place := place)])
  }

  /** One statement of process `p`; a sleeping process does nothing. */
  function Step(s: System, p: nat): System {
    if p >= |s.tasks| then s else
      var t := s.tasks[p];
      match t.place
      case AtWait => CallWait(s, p)
      case Asleep => s
      case HasToken =>
        if t.writer then Put(s.(slot := t.symbol, stored := s.stored + [t.symbol]), p, HasStored)
        else Put(s.(consumed := s.consumed + [s.slot]), p, HasCopied(s.slot))
      case HasCopied(c) => Put(s.(slot := EMPTY), p, HasCleared(c))
      case HasStored => CallPost(Put(s, p, AtWait), false)
      case HasCleared(_) => CallPost(Put(s, p, AtWait), true)
  }

  function CallWait(s: System, p: nat): System
    requires p < |s.tasks|
  {
    var w := WaitOn(if s.tasks[p].writer then s.empty else s.full, p);
    var s' := Put(s, p, if w.Granted? then HasToken else Asleep);
    if s.tasks[p].writer then s'.(empty := w.sem) else s'.(full := w.sem)
  }

  /** `semPost` on `semEmpty` or `semFull`; a woken process has its token. */
  function CallPost(s: System, onEmpty: bool): System {
    var r := PostTo(if onEmpty then s.empty else s.full);
    var s' := if onEmpty then s.(empty := r.sem) else s.(full := r.sem);
    if r.woken.Some? && r.woken.value < |s.tasks| then Put(s', r.woken.value, HasToken) else s'
  }

  function After(s: System, schedule: seq<nat>): System {
    if schedule == [] then s else Step(After(s, schedule[..|schedule| - 1]), schedule[|schedule| - 1])
  }

  // ----- invariant -----

  predicate Inside(t: Task) {
    t.place != AtWait && t.place != Asleep
  }

  ghost function Holders(tasks: seq<Task>): set<nat> {
    set p | 0 <= p < |tasks| && Inside(tasks[p])
  }

  predicate Sleeps(tasks: seq<Task>, p: nat, writer: bool) {
    p < |tasks| && tasks[p].writer == writer && tasks[p].place == Asleep
  }

  ghost predicate QueueOk(m: Sem, tasks: seq<Task>, writer: bool) {
    SemOk(m) && forall p: nat :: p in m.waiting <==> Sleeps(tasks, p, writer)
  }

  /** One token in all: in one of the semaphores, or with the one process inside. */
  ghost predicate TokenOk(empty: Sem, full: Sem, tasks: seq<Task>) {
    && QueueOk(empty, tasks, true) && QueueOk(full, tasks, false)
    && Tokens(empty) + Tokens(full) + |Holders(tasks)| == 1
  }

  predicate AllRead(s: System) {
    s.stored == s.consumed
  }

  predicate OneUnread(s: System) {
    s.stored == s.consumed + [s.slot]
  }

  predicate LastStored(s: System, c: char) {
    s.stored != [] && s.stored[|s.stored| - 1] == c
  }

  /** What the place of the process with the token says about the slot. */
  predicate PlaceOk(s: System, t: Task) {
    match t.place
    case AtWait => true
    case Asleep => true
    case HasToken => if t.writer then AllRead(s) && s.slot == EMPTY else OneUnread(s)
    case HasStored => t.writer && OneUnread(s)
    case HasCopied(c) => !t.writer && AllRead(s) && s.slot == c && LastStored(s, c)
    case HasCleared(c) => !t.writer && AllRead(s) && s.slot == EMPTY && LastStored(s, c)
  }

  ghost predicate SlotOk(s: System) {
    && (Tokens(s.empty) == 1 ==> AllRead(s) && s.slot == EMPTY)
    && (Tokens(s.full) == 1 ==> OneUnread(s))
    && forall p | 0 <= p < |s.tasks| :: PlaceOk(s, s.tasks[p])
  }

  ghost predicate Inv(s: System) {
    TokenOk(s.empty, s.full, s.tasks) && SlotOk(s)
  }

  lemma HoldersAfter(tasks: seq<Task>, p: nat, t: Task)
    requires p < |tasks|
    ensures Holders(tasks[p := t]) == if Inside(t) then Holders(tasks) + {p} else Holders(tasks) - {p}
  {
  }

  /** With a token in a semaphore nobody is inside; with one process inside nobody else is. */
  lemma OneHolder(s: System, p: nat)
    requires TokenOk(s.empty, s.full, s.tasks)
    requires Tokens(s.empty) + Tokens(s.full) > 0 || (p < |s.tasks| && Inside(s.tasks[p]))
    ensures forall q | 0 <= q < |s.tasks| && (Tokens(s.empty) + Tokens(s.full) > 0 || q != p) :: !Inside(s.tasks[q])
    ensures Tokens(s.empty) + Tokens(s.full) == if Holders(s.tasks) == {} then 1 else 0
  {
    var h := Holders(s.tasks);
    forall q | 0 <= q < |s.tasks| && (Tokens(s.empty) + Tokens(s.full) > 0 || q != p) ensures !Inside(s.tasks[q]) {
      assert Inside(s.tasks[q]) ==> q in h;
      assert q in h ==> |h - {q}| == |h| - 1;
      assert p in h && q in h && p != q ==> p in h - {q};
    }
  }

  lemma WaitToken(s: System, p: nat)
    requires TokenOk(s.empty, s.full, s.tasks) && p < |s.tasks| && s.tasks[p].place == AtWait
    ensures var r := CallWait(s, p); TokenOk(r.empty, r.full, r.tasks)
  {
    var t := s.tasks[p];
    var m := if t.writer then s.empty else s.full;
    WaitKeepsOk(m, p);
    HoldersAfter(s.tasks, p, t.(place := if WaitOn(m, p).Granted? then HasToken else Asleep));
    assert p !in Holders(s.tasks);
    hide Holders, SemOk, Put;
    WaitQueues(s, p);
    PutTasks(s, p, if WaitOn(m, p).Granted? then HasToken else Asleep);
  }

  lemma PutTasks(s: System, p: nat, place: Place)
    requires p < |s.tasks|
    ensures Put(s, p, place) == s.(tasks := s.tasks[p := s.tasks[p].(place := place)])
  {
  }

  lemma WaitQueues(s: System, p: nat)
    requires QueueOk(s.empty, s.tasks, true) && QueueOk(s.full, s.tasks, false)
    requires p < |s.tasks| && s.tasks[p].place == AtWait
    ensures var r := CallWait(s, p); QueueOk(r.empty, r.tasks, true) && QueueOk(r.full, r.tasks, false)
  {
    WaitKeepsOk(if s.tasks[p].writer then s.empty else s.full, p);
    hide SemOk;
  }

  lemma WaitInv(s: System, p: nat)
    requires Inv(s) && p < |s.tasks| && s.tasks[p].place == AtWait
    ensures Inv(CallWait(s, p))
  {
    WaitToken(s, p);
    var m := if s.tasks[p].writer then s.empty else s.full;
    assert SemOk(m) && p !in m.waiting;
    hide TokenOk;
    WaitKeepsOk(m, p);
    TokensAreFew(s);
    var r := CallWait(s, p);
    forall q | 0 <= q < |r.tasks| ensures PlaceOk(r, r.tasks[q]) {
      assert PlaceOk(s, s.tasks[q]);
    }
  }

  lemma TokensAreFew(s: System)
    requires TokenOk(s.empty, s.full, s.tasks)
    ensures Tokens(s.empty) + Tokens(s.full) <= 1
  {
  }

  /** A step inside moves nobody else and keeps the token. */
  lemma InsideInv(s: System, p: nat)
    requires Inv(s) && p < |s.tasks| && (s.tasks[p].place.HasToken? || s.tasks[p].place.HasCopied?)
    ensures Inv(Step(s, p))
  {
    var r := Step(s, p);
    OneHolder(s, p);
    HoldersAfter(s.tasks, p, r.tasks[p]);
    assert p in Holders(s.tasks) && Holders(s.tasks) + {p} == Holders(s.tasks);
    assert Tokens(s.empty) == 0 && Tokens(s.full) == 0;
    assert PlaceOk(s, s.tasks[p]);
    assert forall q: nat, w :: Sleeps(r.tasks, q, w) <==> Sleeps(s.tasks, q, w);
    hide Holders, SemOk, Sleeps;
    forall q | 0 <= q < |r.tasks| ensures PlaceOk(r, r.tasks[q]) {
      assert q != p ==> !Inside(s.tasks[q]);
    }
  }

  /** A process inside goes back to its wait; for a moment the token is nowhere. */
  lemma LeaveToken(s: System, p: nat)
    requires TokenOk(s.empty, s.full, s.tasks) && p < |s.tasks| && Inside(s.tasks[p])
    ensures var r := Put(s, p, AtWait);
            && QueueOk(s.empty, r.tasks, true) && QueueOk(s.full, r.tasks, false)
            && Tokens(s.empty) == Tokens(s.full) == 0 && Holders(r.tasks) == {}
            && forall q | 0 <= q < |r.tasks| :: !Inside(r.tasks[q])
  {
    OneHolder(s, p);
    HoldersAfter(s.tasks, p, s.tasks[p].(place := AtWait));
    assert p in Holders(s.tasks);
    assert |Holders(s.tasks) - {p}| == |Holders(s.tasks)| - 1;
    hide SemOk;
  }

  /** Posting leaves the token in the semaphore or gives it to the process that has slept longest. */
  lemma PostToken(s: System, onEmpty: bool)
    requires QueueOk(s.empty, s.tasks, true) && QueueOk(s.full, s.tasks, false)
    requires Tokens(s.empty) == Tokens(s.full) == 0 && Holders(s.tasks) == {}
    ensures var r := CallPost(s, onEmpty); TokenOk(r.empty, r.full, r.tasks)
  {
    var m := if onEmpty then s.empty else s.full;
    PostKeepsOk(m);
    var post := PostTo(m);
    if post.woken.Some? {
      var q := post.woken.value;
      assert m.waiting[0] == q;
      assert Sleeps(s.tasks, q, onEmpty);
      HoldersAfter(s.tasks, q, s.tasks[q].(place := HasToken));
      assert forall x :: x in m.waiting <==> x == q || x in post.sem.waiting;
    }
    hide Holders, SemOk;
  }

  lemma PostSlot(s: System, onEmpty: bool)
    requires QueueOk(s.empty, s.tasks, true) && QueueOk(s.full, s.tasks, false)
    requires Tokens(s.empty) == Tokens(s.full) == 0
    requires forall q | 0 <= q < |s.tasks| :: !Inside(s.tasks[q])
    requires if onEmpty then AllRead(s) && s.slot == EMPTY else OneUnread(s)
    ensures SlotOk(CallPost(s, onEmpty))
  {
    var m := if onEmpty then s.empty else s.full;
    PostKeepsOk(m);
    var post := PostTo(m);
    if post.woken.Some? {
      assert m.waiting[0] == post.woken.value;
      assert Sleeps(s.tasks, post.woken.value, onEmpty);
    }
    hide SemOk;
  }

  lemma LeaveInv(s: System, p: nat)
    requires Inv(s) && p < |s.tasks| && (s.tasks[p].place.HasStored? || s.tasks[p].place.HasCleared?)
    ensures Inv(Step(s, p))
  {
    assert PlaceOk(s, s.tasks[p]);
    hide TokenOk, SlotOk, Holders, QueueOk, CallPost;
    LeaveToken(s, p);
    PostToken(Put(s, p, AtWait), s.tasks[p].place.HasCleared?);
    PostSlot(Put(s, p, AtWait), s.tasks[p].place.HasCleared?);
  }

  lemma StepInv(s: System, p: nat)
    requires Inv(s)
    ensures Inv(Step(s, p))
  {
    hide Inv, CallWait, CallPost;
    if p < |s.tasks| {
      match s.tasks[p].place
      case AtWait => WaitInv(s, p);
      case Asleep =>
      case HasToken => InsideInv(s, p);
      case HasCopied(_) => InsideInv(s, p);
      case HasStored => LeaveInv(s, p);
      case HasCleared(_) => LeaveInv(s, p);
    }
  }

  lemma BlankInv(s: System)
    requires Blank(s)
    ensures Inv(s)
  {
    assert Holders(s.tasks) == {};
  }

  lemma {:induction false} RunInv(s: System, schedule: seq<nat>)
    requires Blank(s)
    ensures Inv(After(s, schedule))
  {
    hide Inv, Step, Blank;
    if schedule == [] {
      BlankInv(s);
    } else {
      RunInv(s, schedule[..|schedule| - 1]);
      StepInv(After(s, schedule[..|schedule| - 1]), schedule[|schedule| - 1]);
    }
  }

  /** Exactly once, in order: whatever the schedule, the consumed values are the stored ones but for at
      most the last, which is then still in the slot. */
  lemma ConsumedInOrder(s: System, schedule: seq<nat>)
    requires Blank(s)
    ensures var r := After(s, schedule); AllRead(r) || OneUnread(r)
  {
    RunInv(s, schedule);
    var r := After(s, schedule);
    hide After, Blank, PlaceOk, QueueOk;
    if Holders(r.tasks) != {} {
      var p :| p in Holders(r.tasks);
      assert PlaceOk(r, r.tasks[p]) && Inside(r.tasks[p]);
    }
  }

  /** Exactly one token exists, across the two semaphores and the processes between wait and post. */
  lemma OneToken(s: System, schedule: seq<nat>)
    requires Blank(s)
    ensures var r := After(s, schedule);
            && Tokens(r.empty) + Tokens(r.full) + |Holders(r.tasks)| == 1
            && forall p, q | 0 <= p < q < |r.tasks| :: !(Inside(r.tasks[p]) && Inside(r.tasks[q]))
  {
    RunInv(s, schedule);
    var r := After(s, schedule);
    hide After, Blank, SlotOk, QueueOk;
    forall p, q | 0 <= p < q < |r.tasks| ensures !(Inside(r.tasks[p]) && Inside(r.tasks[q])) {
      if Inside(r.tasks[p]) {
        OneHolder(r, p);
      }
    }
  }

  /** A writer about to store finds the slot read and cleared, and a reader about to copy finds a value
      not yet read: nothing is overwritten and nothing read twice. */
  lemma SlotIsReady(s: System, schedule: seq<nat>, p: nat)
    requires Blank(s) && p < |After(s, schedule).tasks| && After(s, schedule).tasks[p].place == HasToken
    ensures var r := After(s, schedule);
            if r.tasks[p].writer then AllRead(r) && r.slot == EMPTY else OneUnread(r)
  {
    RunInv(s, schedule);
    var r := After(s, schedule);
    hide After, Blank, TokenOk;
    assert PlaceOk(r, r.tasks[p]);
  }

  /** What a reader takes out and prints is the value stored last. */
  lemma ReaderGetsLast(s: System, schedule: seq<nat>, p: nat)
    requires Blank(s) && p < |After(s, schedule).tasks| && After(s, schedule).tasks[p].place.HasCleared?
    ensures LastStored(After(s, schedule), After(s, schedule).tasks[p].place.c)
  {
    RunInv(s, schedule);
    var r := After(s, schedule);
    hide After, Blank, TokenOk;
    assert PlaceOk(r, r.tasks[p]);
  }

  /** With at least one writer and one reader, somebody can always move. */
  lemma NeverAllAsleep(s: System, schedule: seq<nat>, w: nat, r: nat)
    requires Blank(s) && w < |After(s, schedule).tasks| && r < |After(s, schedule).tasks|
    requires After(s, schedule).tasks[w].writer && !After(s, schedule).tasks[r].writer
    ensures exists p | 0 <= p < |After(s, schedule).tasks| :: After(s, schedule).tasks[p].place != Asleep
  {
    RunInv(s, schedule);
    var t := After(s, schedule);
    hide After, Blank, SlotOk;
    if t.tasks[w].place == Asleep && t.tasks[r].place == Asleep {
      assert Sleeps(t.tasks, w, true) && Sleeps(t.tasks, r, false);
      assert w in t.empty.waiting && r in t.full.waiting;
      assert |Holders(t.tasks)| == 1;
      var p :| p in Holders(t.tasks);
      assert Inside(t.tasks[p]);
    } else if t.tasks[w].place == Asleep {
      assert t.tasks[r].place != Asleep;
    }
  }
}
