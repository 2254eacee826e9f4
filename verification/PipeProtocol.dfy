/** The kernel pipe: a ring of 256 bytes guarded by two counting semaphores, used by any number of
    writers and readers in any interleaving. */
module PipeProtocol {
  import opened Sequences
  import opened SemaphoreModel

  const PIPE_BUFFER: nat := 256

  type Byte = b: int | 0 <= b < 256

  // ----- the ring -----

  datatype Ring = Ring(buffer: seq<Byte>, readingPos: nat, writePos: nat, size: int)

  ghost predicate RingOk(g: Ring) {
    && |g.buffer| == PIPE_BUFFER && g.readingPos < PIPE_BUFFER && 0 <= g.size <= PIPE_BUFFER
    && g.writePos == (g.readingPos + g.size) % PIPE_BUFFER
  }

  /** The unread bytes, oldest first. */
  ghost function Unread(g: Ring): seq<Byte>
    requires RingOk(g)
  {
    seq(g.size, i requires 0 <= i < g.size => g.buffer[(g.readingPos + i) % PIPE_BUFFER])
  }

  /** The body of the loop in `pipe_write`. */
  function Store(g: Ring, b: Byte): Ring
    requires g.writePos < |g.buffer|
  {
    Ring(g.buffer[g.writePos := b], g.readingPos, (g.writePos + 1) % PIPE_BUFFER, g.size + 1)
  }

  /** The body of the loop in `pipe_read`. */
  function Take(g: Ring): (Ring, Byte)
    requires g.readingPos < |g.buffer|
  {
    (Ring(g.buffer, (g.readingPos + 1) % PIPE_BUFFER, g.writePos, g.size - 1), g.buffer[g.readingPos])
  }

  /** Storing into a ring that is not full overwrites no unread byte. */
  lemma StoreAppends(g: Ring, b: Byte)
    requires RingOk(g) && g.size < PIPE_BUFFER
    ensures RingOk(Store(g, b)) && Unread(Store(g, b)) == Unread(g) + [b]
  {
    NextSlot(g.readingPos, g.size);
    forall i | 0 <= i < g.size ensures Unread(Store(g, b))[i] == Unread(g)[i] {
      SlotsDiffer(g.readingPos, i, g.size);
    }
  }

  /** Taking from a ring that is not empty removes its oldest byte. */
  lemma TakeRemoves(g: Ring)
    requires RingOk(g) && g.size > 0
    ensures var (g', b) := Take(g); RingOk(g') && Unread(g) == [b] + Unread(g')
  {
    var (g', b) := Take(g);
    NextRead(g.readingPos, g.size - 1);
    assert RingOk(g') && |Unread(g)| == 1 + |Unread(g')|;
    assert Unread(g)[0] == b by { Wraps(g.readingPos); }
    forall i | 0 <= i < g.size - 1 ensures Unread(g')[i] == Unread(g)[i + 1] {
      NextRead(g.readingPos, i);
    }
    hide RingOk;
  }

  lemma Wraps(r: nat)
    requires r < PIPE_BUFFER
    ensures (r + 0) % PIPE_BUFFER == r
  {
  }

  lemma SlotsDiffer(r: nat, i: nat, n: nat)
    requires r < PIPE_BUFFER && i < n < PIPE_BUFFER
    ensures (r + i) % PIPE_BUFFER != (r + n) % PIPE_BUFFER
  {
  }

  lemma NextSlot(r: nat, n: nat)
    ensures ((r + n) % PIPE_BUFFER + 1) % PIPE_BUFFER == (r + (n + 1)) % PIPE_BUFFER
  {
  }

  lemma NextRead(r: nat, i: nat)
    ensures ((r + 1) % PIPE_BUFFER + i) % PIPE_BUFFER == (r + (i + 1)) % PIPE_BUFFER
  {
  }

  // ----- the protocol -----

  /** Before `semWait`, asleep in it, or holding its token. */
  datatype Phase = Calling | Sleeping | Holding

  datatype Task =
    | Writing(data: seq<Byte>, written: nat, phase: Phase)
    | Reading(count: int, got: seq<Byte>, phase: Phase)

  datatype System = System(
    ring: Ring, write: Sem, read: Sem, tasks: map<nat, Task>, stored: seq<Moved>, taken: seq<Moved>)

  /** A byte a process has put into the pipe or taken out of it. */
  datatype Moved = Moved(pid: nat, byte: Byte)

  /** One step of process `pid`; a step that is not enabled changes nothing. */
  datatype Step =
    | BeginWrite(pid: nat, data: seq<Byte>)
    | BeginRead(pid: nat, count: int)
    | CallWait(pid: nat)
    | Transfer(pid: nat)
    | Return(pid: nat)

  /** The pipe `pipe_open` makes. */
  function Opened(buffer: seq<Byte>): System {
    System(Ring(buffer, 0, 0, 0), Sem(PIPE_BUFFER, []), Sem(0, []), map[], [], [])
  }

  predicate Finished(t: Task) {
    t.phase == Calling && if t.Writing? then t.written >= |t.data| else |t.got| >= t.count
  }

  function Woken(tasks: map<nat, Task>, pid: Option<nat>): map<nat, Task> {
    if pid.Some? && pid.value in tasks then tasks[pid.value := tasks[pid.value].(phase := Holding)] else tasks
  }

  function Next(s: System, e: Step): System {
    match e
    case BeginWrite(p, data) => if p in s.tasks then s else s.(tasks := s.tasks[p := Writing(data, 0, Calling)])
    case BeginRead(p, count) => if p in s.tasks then s else s.(tasks := s.tasks[p := Reading(count, [], Calling)])
    case CallWait(p) => if p in s.tasks && s.tasks[p].phase == Calling && !Finished(s.tasks[p]) then DoWait(s, p) else s
    case Transfer(p) =>
      if p !in s.tasks || s.tasks[p].phase != Holding then s
      else if s.tasks[p].Writing? then DoStore(s, p) else DoTake(s, p)
    case Return(p) => if p in s.tasks && Finished(s.tasks[p]) then s.(tasks := s.tasks - {p}) else s
  }

  function Entered(w: Wait): Phase {
    if w.Granted? then Holding else Sleeping
  }

  function DoWait(s: System, p: nat): System
    requires p in s.tasks
  {
    var t := s.tasks[p];
    var w := WaitOn(if t.Writing? then s.write else s.read, p);
    var tasks := s.tasks[p := t.(phase := Entered(w))];
    if t.Writing? then s.(tasks := tasks, write := w.sem) else s.(tasks := tasks, read := w.sem)
  }

  function DoStore(s: System, p: nat): System
    requires p in s.tasks && s.tasks[p].Writing?
  {
    var t := s.tasks[p];
    if s.ring.writePos >= |s.ring.buffer| || t.written >= |t.data| then s else
      var post := PostTo(s.read);
      s.(ring := Store(s.ring, t.data[t.written]), read := post.sem, stored := s.stored + [Moved(p, t.data[t.written])],
         tasks := Woken(s.tasks[p := t.(written := t.written + 1, phase := Calling)], post.woken))
  }

  function DoTake(s: System, p: nat): System
    requires p in s.tasks && s.tasks[p].Reading?
  {
    var t := s.tasks[p];
    if s.ring.readingPos >= |s.ring.buffer| then s else
      var (ring, b) := Take(s.ring);
      var post := PostTo(s.write);
      s.(ring := ring, write := post.sem, taken := s.taken + [Moved(p, b)],
         tasks := Woken(s.tasks[p := t.(got := t.got + [b], phase := Calling)], post.woken))
  }

  // ----- invariant -----

  ghost function Bytes(log: seq<Moved>): seq<Byte> {
    seq(|log|, i requires 0 <= i < |log| => log[i].byte)
  }

  lemma BytesAppend(log: seq<Moved>, m: Moved)
    ensures Bytes(log + [m]) == Bytes(log) + [m.byte]
  {
  }

  ghost predicate In(tasks: map<nat, Task>, p: nat, writer: bool, phase: Phase) {
    p in tasks && tasks[p].Writing? == writer && tasks[p].phase == phase
  }

  ghost function Holders(tasks: map<nat, Task>, writer: bool): set<nat> {
    set p | p in tasks && In(tasks, p, writer, Holding)
  }

  ghost predicate Queue(tasks: map<nat, Task>, m: Sem, writer: bool) {
    SemOk(m) && forall p :: p in m.waiting <==> In(tasks, p, writer, Sleeping)
  }

  ghost predicate TasksOk(tasks: map<nat, Task>) {
    forall p <- tasks ::
      if tasks[p].Writing?
      then tasks[p].written <= |tasks[p].data| && (tasks[p].phase != Calling ==> tasks[p].written < |tasks[p].data|)
      else tasks[p].phase != Calling ==> |tasks[p].got| < tasks[p].count
  }

  /** Every slot is a free write token, promised to a writer that holds one, or filled; every byte is a
      free read token or promised to a reader; what was taken and what is unread is what was stored. */
  ghost predicate Inv(s: System) {
    && RingOk(s.ring) && TasksOk(s.tasks)
    && Queue(s.tasks, s.write, true) && Queue(s.tasks, s.read, false)
    && Tokens(s.write) + |Holders(s.tasks, true)| + s.ring.size == PIPE_BUFFER
    && Tokens(s.read) + |Holders(s.tasks, false)| == s.ring.size
    && Bytes(s.stored) == Bytes(s.taken) + Unread(s.ring)
  }

  lemma HoldersAfter(tasks: map<nat, Task>, p: nat, t: Task, writer: bool)
    ensures var h := Holders(tasks, writer);
            Holders(tasks[p := t], writer) == if t.Writing? == writer && t.phase == Holding then h + {p} else h - {p}
  {
  }

  lemma OpenedInv(buffer: seq<Byte>)
    requires |buffer| == PIPE_BUFFER
    ensures Inv(Opened(buffer))
  {
    assert Holders(map[], true) == {} && Holders(map[], false) == {};
  }

  /** A holder is promised its slot or its byte. */
  lemma HolderMayProceed(s: System, p: nat)
    requires Inv(s) && p in s.tasks && s.tasks[p].phase == Holding
    ensures if s.tasks[p].Writing? then s.ring.size < PIPE_BUFFER else s.ring.size > 0
  {
    var h := Holders(s.tasks, s.tasks[p].Writing?);
    assert p in h && |h| > 0;
  }

  lemma WaitInv(s: System, p: nat)
    requires Inv(s) && p in s.tasks && s.tasks[p].phase == Calling && !Finished(s.tasks[p])
    ensures Inv(DoWait(s, p))
  {
    hide Queue, Holders, SemOk, WaitOn, RingOk, Unread, Bytes, TasksOk, Finished;
    var t := s.tasks[p];
    var m := if t.Writing? then s.write else s.read;
    var t' := t.(phase := Entered(WaitOn(m, p)));
    CallerIsAwake(s.tasks, m, p);
    WaitTasks(s.tasks, p, t');
    WaitKeepsOk(m, p);
    HoldersAfter(s.tasks, p, t', true);
    HoldersAfter(s.tasks, p, t', false);
    WaitQueues(s, p);
  }

  lemma CallerIsAwake(tasks: map<nat, Task>, m: Sem, p: nat)
    requires p in tasks && tasks[p].phase == Calling && Queue(tasks, m, tasks[p].Writing?)
    ensures SemOk(m) && p !in m.waiting && p !in Holders(tasks, true) && p !in Holders(tasks, false)
  {
  }

  lemma WaitTasks(tasks: map<nat, Task>, p: nat, t: Task)
    requires TasksOk(tasks) && p in tasks && !Finished(tasks[p]) && tasks[p].phase == Calling
    requires t == tasks[p].(phase := t.phase)
    ensures TasksOk(tasks[p := t])
  {
  }

  lemma WaitQueues(s: System, p: nat)
    requires Queue(s.tasks, s.write, true) && Queue(s.tasks, s.read, false)
    requires p in s.tasks && s.tasks[p].phase == Calling
    ensures var r := DoWait(s, p); Queue(r.tasks, r.write, true) && Queue(r.tasks, r.read, false)
  {
    WaitKeepsOk(if s.tasks[p].Writing? then s.write else s.read, p);
  }

  ghost predicate SameSleepers(tasks: map<nat, Task>, u: map<nat, Task>, writer: bool) {
    forall p :: In(u, p, writer, Sleeping) <==> In(tasks, p, writer, Sleeping)
  }

  /** Waking the head of a queue turns one sleeper into a holder. */
  lemma WokenQueue(tasks: map<nat, Task>, m: Sem, writer: bool)
    requires Queue(tasks, m, writer)
    ensures var post := PostTo(m);
            var u := Woken(tasks, post.woken);
            && Queue(u, post.sem, writer)
            && SameSleepers(tasks, u, !writer)
            && Holders(u, !writer) == Holders(tasks, !writer)
            && Tokens(post.sem) + |Holders(u, writer)| == Tokens(m) + |Holders(tasks, writer)| + 1
  {
    PostKeepsOk(m);
    var post := PostTo(m);
    if post.woken.Some? {
      var q := post.woken.value;
      assert m.waiting[0] == q;
      assert In(tasks, q, writer, Sleeping);
      var t := tasks[q].(phase := Holding);
      HoldersAfter(tasks, q, t, writer);
      HoldersAfter(tasks, q, t, !writer);
      assert q !in Holders(tasks, writer) && q !in Holders(tasks, !writer);
      forall p ensures p in post.sem.waiting <==> In(tasks[q := t], p, writer, Sleeping) {
        assert p in m.waiting <==> p == q || p in post.sem.waiting;
      }
    }
  }

  lemma WokenTasksOk(tasks: map<nat, Task>, m: Sem, writer: bool)
    requires TasksOk(tasks) && Queue(tasks, m, writer)
    ensures TasksOk(Woken(tasks, PostTo(m).woken))
  {
    PostKeepsOk(m);
    var post := PostTo(m);
    if post.woken.Some? {
      assert post.woken.value in m.waiting;
      assert In(tasks, post.woken.value, writer, Sleeping);
    }
  }

  /** A holder goes back to the head of its loop. */
  lemma Released(s: System, p: nat, t: Task)
    requires Inv(s) && p in s.tasks && s.tasks[p].phase == Holding
    requires t.Writing? == s.tasks[p].Writing? && t.phase == Calling
    ensures var u := s.tasks[p := t];
            && Queue(u, s.write, true) && Queue(u, s.read, false)
            && |Holders(u, t.Writing?)| == |Holders(s.tasks, t.Writing?)| - 1
            && Holders(u, !t.Writing?) == Holders(s.tasks, !t.Writing?)
  {
    HoldersAfter(s.tasks, p, t, true);
    HoldersAfter(s.tasks, p, t, false);
    assert p in Holders(s.tasks, t.Writing?) && p !in Holders(s.tasks, !t.Writing?);
    hide SemOk;
  }

  lemma QueueFrame(tasks: map<nat, Task>, u: map<nat, Task>, m: Sem, writer: bool)
    requires Queue(tasks, m, writer) && SameSleepers(tasks, u, writer)
    ensures Queue(u, m, writer)
  {
  }

  lemma StoreInv(s: System, p: nat)
    requires Inv(s) && p in s.tasks && s.tasks[p].phase == Holding && s.tasks[p].Writing?
    ensures Inv(DoStore(s, p))
  {
    HolderMayProceed(s, p);
    var t := s.tasks[p];
    var t' := t.(written := t.written + 1, phase := Calling);
    assert t.written < |t.data|;
    var u := s.tasks[p := t'];
    assert TasksOk(u);
    Released(s, p, t');
    StoreAppends(s.ring, t.data[t.written]);
    hide Queue, Holders, TasksOk, PostTo, Unread, Store;
    WokenQueue(u, s.read, false);
    WokenTasksOk(u, s.read, false);
    QueueFrame(u, Woken(u, PostTo(s.read).woken), s.write, true);
    BytesAppend(s.stored, Moved(p, t.data[t.written]));
    assert Bytes(s.stored) + [t.data[t.written]] == Bytes(s.taken) + (Unread(s.ring) + [t.data[t.written]]);
    hide Bytes;
    StoreSize(s.ring, t.data[t.written]);
  }

  lemma StoreSize(g: Ring, b: Byte)
    requires RingOk(g)
    ensures Store(g, b).size == g.size + 1
  {
  }

  lemma TakeInv(s: System, p: nat)
    requires Inv(s) && p in s.tasks && s.tasks[p].phase == Holding && s.tasks[p].Reading?
    ensures Inv(DoTake(s, p))
  {
    HolderMayProceed(s, p);
    var t := s.tasks[p];
    var (ring, b) := Take(s.ring);
    var t' := t.(got := t.got + [b], phase := Calling);
    var u := s.tasks[p := t'];
    assert TasksOk(u);
    Released(s, p, t');
    TakeRemoves(s.ring);
    hide Queue, Holders, TasksOk, PostTo, Unread;
    WokenQueue(u, s.write, true);
    WokenTasksOk(u, s.write, true);
    QueueFrame(u, Woken(u, PostTo(s.write).woken), s.read, false);
    BytesAppend(s.taken, Moved(p, b));
    assert Bytes(s.taken) + Unread(s.ring) == Bytes(s.taken) + [b] + Unread(ring);
    hide Bytes;
  }

  /** Beginning or ending a call touches nobody's token. */
  lemma BeginInv(s: System, p: nat, t: Task)
    requires Inv(s) && p !in s.tasks && t.phase == Calling && (t.Writing? ==> t.written == 0)
    ensures Inv(s.(tasks := s.tasks[p := t]))
  {
    hide Unread, Holders, Queue, TasksOk, RingOk, Bytes, SameSleepers;
    var u := s.tasks[p := t];
    NewTask(s.tasks, p, t);
    QueueFrame(s.tasks, u, s.write, true);
    QueueFrame(s.tasks, u, s.read, false);
  }

  lemma NewTask(tasks: map<nat, Task>, p: nat, t: Task)
    requires TasksOk(tasks) && p !in tasks && t.phase == Calling && (t.Writing? ==> t.written == 0)
    ensures var u := tasks[p := t];
            && TasksOk(u) && SameSleepers(tasks, u, true) && SameSleepers(tasks, u, false)
            && Holders(u, true) == Holders(tasks, true) && Holders(u, false) == Holders(tasks, false)
  {
    HoldersAfter(tasks, p, t, true);
    HoldersAfter(tasks, p, t, false);
    assert p !in Holders(tasks, true) && p !in Holders(tasks, false);
  }

  lemma ReturnInv(s: System, p: nat)
    requires Inv(s) && p in s.tasks && Finished(s.tasks[p])
    ensures Inv(s.(tasks := s.tasks - {p}))
  {
    assert Holders(s.tasks - {p}, true) == Holders(s.tasks, true);
    assert Holders(s.tasks - {p}, false) == Holders(s.tasks, false);
    hide Unread;
  }

  lemma StepInv(s: System, e: Step)
    requires Inv(s)
    ensures Inv(Next(s, e))
  {
    hide Inv, DoWait, DoStore, DoTake, Finished;
    match e
    case BeginWrite(p, data) => if p !in s.tasks { BeginInv(s, p, Writing(data, 0, Calling)); }
    case BeginRead(p, count) => if p !in s.tasks { BeginInv(s, p, Reading(count, [], Calling)); }
    case CallWait(p) => if p in s.tasks && s.tasks[p].phase == Calling && !Finished(s.tasks[p]) { WaitInv(s, p); }
    case Transfer(p) =>
      if p in s.tasks && s.tasks[p].phase == Holding {
        if s.tasks[p].Writing? { StoreInv(s, p); } else { TakeInv(s, p); }
      }
    case Return(p) => if p in s.tasks && Finished(s.tasks[p]) { ReturnInv(s, p); }
  }

  function After(s: System, steps: seq<Step>): System {
    if steps == [] then s else Next(After(s, steps[..|steps| - 1]), steps[|steps| - 1])
  }

  lemma {:induction false} RunInv(buffer: seq<Byte>, steps: seq<Step>)
    requires |buffer| == PIPE_BUFFER
    ensures Inv(After(Opened(buffer), steps))
  {
    hide Inv, Next, Opened;
    if steps == [] {
      OpenedInv(buffer);
    } else {
      RunInv(buffer, steps[..|steps| - 1]);
      StepInv(After(Opened(buffer), steps[..|steps| - 1]), steps[|steps| - 1]);
    }
  }

  /** For any number of writers and readers, in any interleaving: the bytes taken are a prefix of the
      bytes stored, exactly `size` are unread, and nobody stores into a full ring or takes from an
      empty one. */
  lemma PipeIsFifo(buffer: seq<Byte>, steps: seq<Step>, p: nat)
    requires |buffer| == PIPE_BUFFER
    ensures var s := After(Opened(buffer), steps);
            && Bytes(s.taken) <= Bytes(s.stored) && |s.stored| - |s.taken| == s.ring.size
            && (p in s.tasks && s.tasks[p].phase == Holding ==>
                  if s.tasks[p].Writing? then s.ring.size < PIPE_BUFFER && s.ring.writePos < PIPE_BUFFER
                  else s.ring.size > 0 && s.ring.readingPos < PIPE_BUFFER)
  {
    RunInv(buffer, steps);
    var s := After(Opened(buffer), steps);
    hide After, Queue, Opened;
    if p in s.tasks && s.tasks[p].phase == Holding {
      HolderMayProceed(s, p);
    }
  }

  lemma SomeMember(a: set<nat>, b: set<nat>)
    requires |a| + |b| > 0
    ensures a + b != {}
  {
    assert a <= a + b && b <= a + b;
    assert a + b == {} ==> a == {} && b == {};
  }

  /** A write and a read asleep at the same time means a token has been handed to someone: the pipe
      cannot block both sides for good. */
  lemma NeverStuck(buffer: seq<Byte>, steps: seq<Step>, p: nat, q: nat)
    requires |buffer| == PIPE_BUFFER
    requires var s := After(Opened(buffer), steps);
             && p in s.tasks && s.tasks[p].Writing? && s.tasks[p].phase == Sleeping
             && q in s.tasks && s.tasks[q].Reading? && s.tasks[q].phase == Sleeping
    ensures exists h <- After(Opened(buffer), steps).tasks :: After(Opened(buffer), steps).tasks[h].phase == Holding
  {
    RunInv(buffer, steps);
    var s := After(Opened(buffer), steps);
    hide After, Opened, Unread;
    assert In(s.tasks, p, true, Sleeping) && p in s.write.waiting;
    assert In(s.tasks, q, false, Sleeping) && q in s.read.waiting;
    assert Tokens(s.write) == 0 && Tokens(s.read) == 0;
    var h := Holders(s.tasks, true) + Holders(s.tasks, false);
    assert |Holders(s.tasks, true)| + |Holders(s.tasks, false)| > 0;
    SomeMember(Holders(s.tasks, true), Holders(s.tasks, false));
    var x :| x in h;
    assert s.tasks[x].phase == Holding;
  }

  /** A call returns only when all its bytes have been transferred, and never more. */
  lemma ReturnsInFull(buffer: seq<Byte>, steps: seq<Step>, p: nat)
    requires |buffer| == PIPE_BUFFER
    requires p in After(Opened(buffer), steps).tasks && Finished(After(Opened(buffer), steps).tasks[p])
    ensures var t := After(Opened(buffer), steps).tasks[p];
            if t.Writing? then t.written == |t.data| else |t.got| == if t.count > 0 then t.count else 0
  {
    RunInv(buffer, steps);
    GotBounded(buffer, steps, p);
    hide After, Opened, Queue, Unread;
  }

  ghost predicate GotOk(t: Task) {
    t.Reading? ==> |t.got| <= if t.count > 0 then t.count else 0
  }

  lemma {:induction false} GotBounded(buffer: seq<Byte>, steps: seq<Step>, p: nat)
    requires |buffer| == PIPE_BUFFER
    ensures p in After(Opened(buffer), steps).tasks ==> GotOk(After(Opened(buffer), steps).tasks[p])
  {
    if steps != [] {
      var s := After(Opened(buffer), steps[..|steps| - 1]);
      GotBounded(buffer, steps[..|steps| - 1], p);
      RunInv(buffer, steps[..|steps| - 1]);
      hide After, Opened, Queue, Unread, PostTo, WaitOn, RingOk;
    }
  }

  // ----- whose bytes they are -----

  /** The bytes process `p` has moved, in order. */
  ghost function By(log: seq<Moved>, p: nat): seq<Byte> {
    if log == [] then [] else
      var m := log[|log| - 1];
      By(log[..|log| - 1], p) + if m.pid == p then [m.byte] else []
  }

  lemma ByAppend(log: seq<Moved>, m: Moved, p: nat)
    ensures By(log + [m], p) == if m.pid == p then By(log, p) + [m.byte] else By(log, p)
  {
    assert (log + [m])[..|log|] == log;
  }

  ghost predicate EndsWith(s: seq<Byte>, t: seq<Byte>) {
    |t| <= |s| && s[|s| - |t|..] == t
  }

  /** What the process has moved last is what its call has got through so far. */
  ghost predicate LogOk(s: System, p: nat) {
    p in s.tasks ==>
      if s.tasks[p].Writing? then s.tasks[p].written <= |s.tasks[p].data|
                                  && EndsWith(By(s.stored, p), s.tasks[p].data[..s.tasks[p].written])
      else EndsWith(By(s.taken, p), s.tasks[p].got)
  }

  lemma EndsAppend(s: seq<Byte>, t: seq<Byte>, b: Byte)
    requires EndsWith(s, t)
    ensures EndsWith(s + [b], t + [b])
  {
    assert (s + [b])[|s| - |t|..] == s[|s| - |t|..] + [b];
  }

  lemma StoreLog(s: System, q: nat, p: nat)
    requires q in s.tasks && s.tasks[q].Writing? && LogOk(s, p)
    ensures LogOk(DoStore(s, q), p)
  {
    hide By, EndsWith, PostTo, Store;
    var t := s.tasks[q];
    if t.written < |t.data| {
      ByAppend(s.stored, Moved(q, t.data[t.written]), p);
      if p == q {
        EndsAppend(By(s.stored, p), t.data[..t.written], t.data[t.written]);
        assert t.data[..t.written] + [t.data[t.written]] == t.data[..t.written + 1];
      }
    }
  }

  lemma TakeLog(s: System, q: nat, p: nat)
    requires q in s.tasks && s.tasks[q].Reading? && LogOk(s, p)
    ensures LogOk(DoTake(s, q), p)
  {
    hide By, EndsWith, PostTo, Take;
    var t := s.tasks[q];
    if s.ring.readingPos < |s.ring.buffer| {
      var b := Take(s.ring).1;
      ByAppend(s.taken, Moved(q, b), p);
      if p == q {
        EndsAppend(By(s.taken, p), t.got, b);
      }
    }
  }

  lemma StepLog(s: System, e: Step, p: nat)
    requires LogOk(s, p)
    ensures LogOk(Next(s, e), p)
  {
    if e.Transfer? && e.pid in s.tasks && s.tasks[e.pid].phase == Holding {
      if s.tasks[e.pid].Writing? {
        StoreLog(s, e.pid, p);
      } else {
        TakeLog(s, e.pid, p);
      }
    }
    hide By, DoStore, DoTake, WaitOn;
  }

  /** The bytes a call has moved, in the order it moved them, are the beginning of its data, or the
      bytes it is about to hand to its reader. */
  lemma {:induction false} CallMovesItsData(buffer: seq<Byte>, steps: seq<Step>, p: nat)
    ensures LogOk(After(Opened(buffer), steps), p)
  {
    if steps != [] {
      hide LogOk, Next;
      CallMovesItsData(buffer, steps[..|steps| - 1], p);
      StepLog(After(Opened(buffer), steps[..|steps| - 1]), steps[|steps| - 1], p);
    }
  }

  // ----- the ring as it runs -----

  class Pipe {
    const buffer: array<Byte>
    var readingPos: nat
    var writePos: nat
    var size: int

    ghost function Abs(): Ring
      reads this, buffer
    {
      Ring(buffer[..], readingPos, writePos, size)
    }

    ghost predicate Valid()
      reads this, buffer
    {
      RingOk(Abs())
    }

    constructor ()
      ensures Valid() && fresh(buffer) && Unread(Abs()) == []
    {
      buffer := new Byte[PIPE_BUFFER];
      readingPos, writePos, size := 0, 0, 0;
    }

    /** What `pipe_write` does with a token. */
    method StoreByte(b: Byte)
      requires Valid() && size < PIPE_BUFFER
      modifies this`writePos, this`size, buffer
      ensures Valid() && Abs() == Store(old(Abs()), b) && Unread(Abs()) == old(Unread(Abs())) + [b]
    {
      StoreAppends(Abs(), b);
      hide Unread;
      buffer[writePos] := b;
      writePos := (writePos + 1) % PIPE_BUFFER;
      size := size + 1;
      assert Abs() == Store(old(Abs()), b);
    }

    /** What `pipe_read` does with a token. */
    method TakeByte() returns (b: Byte)
      requires Valid() && size > 0
      modifies this`readingPos, this`size
      ensures Valid() && (Abs(), b) == Take(old(Abs())) && old(Unread(Abs())) == [b] + Unread(Abs())
    {
      TakeRemoves(Abs());
      hide Unread;
      b := buffer[readingPos];
      readingPos := (readingPos + 1) % PIPE_BUFFER;
      size := size - 1;
    }
  }
}
