/** What every step of the pipe does, when nobody can move any more, and that a write and a read of the
    same length deliver the data. */
module PipeProgress {
  import opened Sequences
  import opened SemaphoreModel
  import opened PipeProtocol

  // ----- what a step does -----

  /** Everybody but `p` and the process woken stays as it is. */
  ghost predicate OthersSame(tasks: map<nat, Task>, u: map<nat, Task>, p: nat, woken: seq<nat>) {
    u.Keys == tasks.Keys && forall q <- tasks :: q != p && q !in woken ==> u[q] == tasks[q]
  }

  /** A post on semaphore `m` hands its token to the process that has slept longest, or keeps it. */
  ghost predicate Posted(m: Sem, m': Sem, tasks: map<nat, Task>, u: map<nat, Task>) {
    if m.waiting == [] then m' == Sem(m.value + 1, [])
    else && m' == Sem(m.value + 1, m.waiting[1..])
         && m.waiting[0] in tasks && m.waiting[0] in u && tasks[m.waiting[0]].phase == Sleeping
         && u[m.waiting[0]] == tasks[m.waiting[0]].(phase := Holding)
  }

  /** A writer with its token puts the next byte of its data behind the unread ones, posts on the read
      semaphore and goes back to the head of its loop. */
  lemma WriterStores(s: System, p: nat)
    requires Inv(s) && p in s.tasks && s.tasks[p].Writing? && s.tasks[p].phase == Holding
    ensures var (t, r) := (s.tasks[p], Next(s, Transfer(p)));
            && t.written < |t.data| && p in r.tasks && r.tasks[p] == Writing(t.data, t.written + 1, Calling)
            && RingOk(r.ring) && Unread(r.ring) == Unread(s.ring) + [t.data[t.written]]
            && r.stored == s.stored + [Moved(p, t.data[t.written])] && r.taken == s.taken
            && r.write == s.write && Posted(s.read, r.read, s.tasks, r.tasks)
            && OthersSame(s.tasks, r.tasks, p, s.read.waiting[..if s.read.waiting == [] then 0 else 1])
  {
    HolderMayProceed(s, p);
    var t := s.tasks[p];
    assert t.written < |t.data|;
    StoreAppends(s.ring, t.data[t.written]);
    HeadSleeps(s.tasks, s.read, false);
    HeadIsWoken(s.read);
    hide Inv, Unread, PostTo, Store, Queue;
  }

  /** A reader with its token takes the oldest unread byte, posts on the write semaphore and goes back to
      the head of its loop. */
  lemma ReaderTakes(s: System, p: nat)
    requires Inv(s) && p in s.tasks && s.tasks[p].Reading? && s.tasks[p].phase == Holding
    ensures var (t, r) := (s.tasks[p], Next(s, Transfer(p)));
            && Unread(s.ring) != [] && RingOk(r.ring) && Unread(r.ring) == Unread(s.ring)[1..]
            && p in r.tasks && r.tasks[p] == Reading(t.count, t.got + [Unread(s.ring)[0]], Calling)
            && r.taken == s.taken + [Moved(p, Unread(s.ring)[0])] && r.stored == s.stored
            && r.read == s.read && Posted(s.write, r.write, s.tasks, r.tasks)
            && OthersSame(s.tasks, r.tasks, p, s.write.waiting[..if s.write.waiting == [] then 0 else 1])
  {
    HolderMayProceed(s, p);
    TakeRemoves(s.ring);
    HeadSleeps(s.tasks, s.write, true);
    HeadIsWoken(s.write);
    hide Inv, Unread, PostTo, Take, Queue;
  }

  lemma HeadSleeps(tasks: map<nat, Task>, m: Sem, writer: bool)
    requires Queue(tasks, m, writer)
    ensures SemOk(m)
    ensures m.waiting != [] ==> m.waiting[0] in tasks && tasks[m.waiting[0]].phase == Sleeping
  {
    assert m.waiting != [] ==> m.waiting[0] in m.waiting;
  }

  lemma HeadIsWoken(m: Sem)
    requires SemOk(m)
    ensures PostTo(m) == if m.waiting == [] then Post(Sem(m.value + 1, []), None)
                         else Post(Sem(m.value + 1, m.waiting[1..]), Some(m.waiting[0]))
  {
  }

  /** A process that has bytes left to move and calls `semWait` gets a token if one is free, and otherwise
      sleeps at the end of the queue; nothing else changes. */
  lemma CallerWaits(s: System, p: nat)
    requires Inv(s) && p in s.tasks && s.tasks[p].phase == Calling && !Finished(s.tasks[p])
    ensures var r := Next(s, CallWait(p));
            var (m, m') := if s.tasks[p].Writing? then (s.write, r.write) else (s.read, r.read);
            && r.ring == s.ring && r.stored == s.stored && r.taken == s.taken
            && (if s.tasks[p].Writing? then r.read == s.read else r.write == s.write)
            && OthersSame(s.tasks, r.tasks, p, [])
            && r.tasks[p] == s.tasks[p].(phase := if Tokens(m) > 0 then Holding else Sleeping)
            && m' == Sem(m.value - 1, if Tokens(m) > 0 then m.waiting else m.waiting + [p])
  {
    hide Inv;
  }

  /** A call begins with nothing moved, and ends only when it has moved everything. */
  lemma CallBeginsAndEnds(s: System, p: nat, data: seq<Byte>, count: int)
    ensures p !in s.tasks ==> Next(s, BeginWrite(p, data)) == s.(tasks := s.tasks[p := Writing(data, 0, Calling)])
    ensures p !in s.tasks ==> Next(s, BeginRead(p, count)) == s.(tasks := s.tasks[p := Reading(count, [], Calling)])
    ensures p in s.tasks ==> p in Next(s, BeginWrite(p, data)).tasks && p in Next(s, BeginRead(p, count)).tasks
    ensures p in s.tasks ==> (p !in Next(s, Return(p)).tasks <==>
              s.tasks[p].phase == Calling && if s.tasks[p].Writing? then s.tasks[p].written >= |s.tasks[p].data|
                                             else |s.tasks[p].got| >= s.tasks[p].count)
  {
  }

  // ----- when nobody can move -----

  /** `p` can make a step of its call. */
  predicate CanMove(s: System, p: nat) {
    p in s.tasks && (s.tasks[p].phase == Holding || (s.tasks[p].phase == Calling && !Finished(s.tasks[p])))
  }

  ghost predicate AllFinished(s: System, writer: bool) {
    forall p <- s.tasks :: s.tasks[p].Writing? == writer ==> Finished(s.tasks[p])
  }

  /** If no call can make a step, all calls are finished but for writers that wait on a full pipe with no
      reader left, or readers that wait on an empty pipe with no writer left. */
  lemma StuckOnlyOneSided(s: System)
    requires Inv(s) && forall p <- s.tasks :: !CanMove(s, p)
    ensures AllFinished(s, true) || (s.ring.size == PIPE_BUFFER && AllFinished(s, false))
    ensures AllFinished(s, false) || (s.ring.size == 0 && AllFinished(s, true))
  {
    NoHolders(s, true);
    NoHolders(s, false);
    SleepersNeedTokens(s, true);
    SleepersNeedTokens(s, false);
    hide Queue, Holders, RingOk, Unread, Bytes;
  }

  lemma NoHolders(s: System, writer: bool)
    requires forall p <- s.tasks :: !CanMove(s, p)
    ensures Holders(s.tasks, writer) == {}
  {
  }

  lemma SleepersNeedTokens(s: System, writer: bool)
    requires Inv(s) && forall p <- s.tasks :: !CanMove(s, p)
    ensures AllFinished(s, writer) || Tokens(if writer then s.write else s.read) == 0
  {
    var m := if writer then s.write else s.read;
    if p :| p in s.tasks && s.tasks[p].Writing? == writer && !Finished(s.tasks[p]) {
      assert !CanMove(s, p);
      assert In(s.tasks, p, writer, Sleeping);
      assert p in m.waiting;
    }
    hide Holders, Unread, Bytes;
  }

  // ----- a write and a read of the same length -----

  lemma {:induction false} AfterAppend(s: System, a: seq<Step>, b: seq<Step>)
    ensures After(s, a + b) == After(After(s, a), b)
  {
    if b == [] {
      assert a + b == a;
    } else {
      AfterAppend(s, a, b[..|b| - 1]);
      assert (a + b)[..|a + b| - 1] == a + b[..|b| - 1];
    }
  }

  lemma AfterOne(s: System, e: Step)
    ensures After(s, [e]) == Next(s, e)
  {
    assert After(s, [e][..0]) == s;
  }

  lemma AfterTwo(s: System, e: Step, f: Step)
    ensures After(s, [e, f]) == Next(Next(s, e), f)
  {
    AfterOne(s, e);
    AfterOne(Next(s, e), f);
    AfterAppend(s, [e], [f]);
    assert [e] + [f] == [e, f];
  }

  /** The pipe is empty and idle; the writer has written what the reader has read, `i` bytes of `data`. */
  ghost predicate Halfway(s: System, w: nat, r: nat, data: seq<Byte>, i: nat)
    requires i <= |data|
  {
    && Inv(s) && s.write == Sem(PIPE_BUFFER, []) && s.read == Sem(0, [])
    && s.tasks == map[w := Writing(data, i, Calling), r := Reading(|data|, data[..i], Calling)]
  }

  lemma OneByte(s: System, w: nat, r: nat, data: seq<Byte>, i: nat)
    requires w != r && i < |data| && Halfway(s, w, r, data, i)
    ensures Halfway(After(s, [CallWait(w), Transfer(w)] + [CallWait(r), Transfer(r)]), w, r, data, i + 1)
  {
    hide Inv, Next, After;
    var s1 := Next(s, CallWait(w));
    var s2 := Next(s1, Transfer(w));
    var s3 := Next(s2, CallWait(r));
    var s4 := Next(s3, Transfer(r));
    EmptyRing(s);
    StepInv(s, CallWait(w));
    CallerWaits(s, w);
    StepInv(s1, Transfer(w));
    WriterStores(s1, w);
    StepInv(s2, CallWait(r));
    CallerWaits(s2, r);
    StepInv(s3, Transfer(r));
    ReaderTakes(s3, r);
    assert data[..i] + [data[i]] == data[..i + 1];
    assert s4.tasks == map[w := Writing(data, i + 1, Calling), r := Reading(|data|, data[..i + 1], Calling)];
    AfterTwo(s, CallWait(w), Transfer(w));
    AfterTwo(s2, CallWait(r), Transfer(r));
    AfterAppend(s, [CallWait(w), Transfer(w)], [CallWait(r), Transfer(r)]);
  }

  lemma EmptyRing(s: System)
    requires Inv(s) && s.read == Sem(0, []) && s.write == Sem(PIPE_BUFFER, [])
    ensures RingOk(s.ring) && Unread(s.ring) == []
  {
  }

  lemma {:induction false} Rest(s: System, w: nat, r: nat, data: seq<Byte>, i: nat) returns (steps: seq<Step>)
    requires w != r && i <= |data| && Halfway(s, w, r, data, i)
    ensures Halfway(After(s, steps), w, r, data, |data|)
    decreases |data| - i
  {
    if i == |data| {
      steps := [];
    } else {
      hide Halfway, After;
      var one := [CallWait(w), Transfer(w)] + [CallWait(r), Transfer(r)];
      OneByte(s, w, r, data, i);
      var more := Rest(After(s, one), w, r, data, i + 1);
      steps := one + more;
      AfterAppend(s, one, more);
    }
  }

  /** Any data of any length, longer than the pipe's buffer or not, can be written by one process and read
      by another: both calls can finish, and the reader then has exactly the data. */
  lemma DataArrives(buffer: seq<Byte>, w: nat, r: nat, data: seq<Byte>) returns (steps: seq<Step>)
    requires |buffer| == PIPE_BUFFER && w != r
    ensures var s := After(Opened(buffer), steps);
            && w in s.tasks && r in s.tasks && Finished(s.tasks[w]) && Finished(s.tasks[r])
            && s.tasks[w] == Writing(data, |data|, Calling) && s.tasks[r] == Reading(|data|, data, Calling)
  {
    var begin := [BeginWrite(w, data), BeginRead(r, |data|)];
    var s := After(Opened(buffer), begin);
    RunInv(buffer, begin);
    Begun(buffer, w, r, data);
    hide After, Inv;
    var more := Rest(s, w, r, data, 0);
    steps := begin + more;
    AfterAppend(Opened(buffer), begin, more);
    assert data[..|data|] == data;
  }

  lemma Begun(buffer: seq<Byte>, w: nat, r: nat, data: seq<Byte>)
    requires w != r
    ensures var s := After(Opened(buffer), [BeginWrite(w, data), BeginRead(r, |data|)]);
            && s.write == Sem(PIPE_BUFFER, []) && s.read == Sem(0, [])
            && s.tasks == map[w := Writing(data, 0, Calling), r := Reading(|data|, data[..0], Calling)]
  {
    AfterTwo(Opened(buffer), BeginWrite(w, data), BeginRead(r, |data|));
    hide After;
    assert map[][w := Writing(data, 0, Calling)][r := Reading(|data|, [], Calling)]
        == map[w := Writing(data, 0, Calling), r := Reading(|data|, data[..0], Calling)];
  }
}
