/** What each statement of a mailbox process does, and that values can be handed over in any order of
    writers and readers. */
module MvarProgress {
  import opened Sequences
  import opened SemaphoreModel
  import opened MvarProtocol

  // ----- what a statement does -----

  /** Only `p` moves: to `place`, with semaphores and everybody else as they were. */
  ghost predicate OnlyMoves(s: System, r: System, p: nat, place: Place) {
    && p < |s.tasks| == |r.tasks| && r.empty == s.empty && r.full == s.full
    && r.tasks[p] == s.tasks[p].(place := place)
    && forall q | 0 <= q < |s.tasks| && q != p :: r.tasks[q] == s.tasks[q]
  }

  /** A process about to call `semWait` gets the token if it is free and sleeps behind the others if not. */
  lemma AtWaitStep(s: System, p: nat)
    requires Inv(s) && p < |s.tasks| && s.tasks[p].place == AtWait
    ensures var r := Step(s, p);
            var (m, m') := if s.tasks[p].writer then (s.empty, r.empty) else (s.full, r.full);
            && |r.tasks| == |s.tasks| && r.slot == s.slot && r.stored == s.stored && r.consumed == s.consumed
            && (if s.tasks[p].writer then r.full == s.full else r.empty == s.empty)
            && m' == Sem(m.value - 1, if Tokens(m) > 0 then m.waiting else m.waiting + [p])
            && r.tasks[p] == s.tasks[p].(place := if Tokens(m) > 0 then HasToken else Asleep)
            && forall q | 0 <= q < |s.tasks| && q != p :: r.tasks[q] == s.tasks[q]
  {
    hide Inv;
  }

  /** A writer with the token finds the slot clear, and leaves its symbol there as the next value. */
  lemma WriterStores(s: System, p: nat)
    requires Inv(s) && p < |s.tasks| && s.tasks[p].place == HasToken && s.tasks[p].writer
    ensures var r := Step(s, p);
            && s.slot == EMPTY && s.stored == s.consumed
            && r.slot == s.tasks[p].symbol && r.stored == s.stored + [s.tasks[p].symbol] && r.consumed == s.consumed
            && OnlyMoves(s, r, p, HasStored)
  {
    assert PlaceOk(s, s.tasks[p]);
    hide TokenOk;
  }

  /** A reader with the token copies the oldest value not yet consumed. */
  lemma ReaderCopies(s: System, p: nat)
    requires Inv(s) && p < |s.tasks| && s.tasks[p].place == HasToken && !s.tasks[p].writer
    ensures var r := Step(s, p);
            && |s.stored| == |s.consumed| + 1 && s.slot == s.stored[|s.consumed|]
            && r.consumed == s.consumed + [s.stored[|s.consumed|]] == r.stored == s.stored && r.slot == s.slot
            && OnlyMoves(s, r, p, HasCopied(s.slot))
  {
    assert PlaceOk(s, s.tasks[p]);
    hide TokenOk;
  }

  /** Then it clears the slot. */
  lemma ReaderClears(s: System, p: nat)
    requires p < |s.tasks| && s.tasks[p].place.HasCopied?
    ensures var r := Step(s, p);
            && r.slot == EMPTY && r.stored == s.stored && r.consumed == s.consumed
            && OnlyMoves(s, r, p, HasCleared(s.tasks[p].place.c))
  {
  }

  /** Behind its store or its clearing a process posts to the other side, which wakes its first sleeper
      or leaves the token, and goes back to the head of its loop. */
  lemma Posts(s: System, p: nat)
    requires Inv(s) && p < |s.tasks| && (s.tasks[p].place.HasStored? || s.tasks[p].place.HasCleared?)
    ensures s.tasks[p].place.HasStored? <==> s.tasks[p].writer
    ensures var r := Step(s, p);
            var (m, m') := if s.tasks[p].writer then (s.full, r.full) else (s.empty, r.empty);
            && |r.tasks| == |s.tasks| && r.slot == s.slot && r.stored == s.stored && r.consumed == s.consumed
            && (if s.tasks[p].writer then r.empty == s.empty else r.full == s.full)
            && r.tasks[p] == s.tasks[p].(place := AtWait)
            && if m.waiting == [] then m' == Sem(m.value + 1, []) && OthersStay(s, r, p, p)
               else var q := m.waiting[0];
                    && m' == Sem(m.value + 1, m.waiting[1..])
                    && q != p && q < |s.tasks| && s.tasks[q].place == Asleep && s.tasks[q].writer != s.tasks[p].writer
                    && r.tasks[q] == s.tasks[q].(place := HasToken) && OthersStay(s, r, p, q)
  {
    assert PlaceOk(s, s.tasks[p]);
    HeadSleeps(if s.tasks[p].writer then s.full else s.empty, s.tasks, !s.tasks[p].writer);
    hide Inv, QueueOk;
  }

  ghost predicate OthersStay(s: System, r: System, p: nat, q: nat) {
    |r.tasks| == |s.tasks| && forall x | 0 <= x < |s.tasks| && x != p && x != q :: r.tasks[x] == s.tasks[x]
  }

  lemma HeadSleeps(m: Sem, tasks: seq<Task>, writer: bool)
    requires QueueOk(m, tasks, writer)
    ensures m.waiting != [] ==> Sleeps(tasks, m.waiting[0], writer)
    ensures PostTo(m) == if m.waiting == [] then Post(Sem(m.value + 1, []), None)
                         else Post(Sem(m.value + 1, m.waiting[1..]), Some(m.waiting[0]))
  {
    assert m.waiting != [] ==> m.waiting[0] in m.waiting;
  }

  // ----- handing values over -----

  lemma {:induction false} AfterAppend(s: System, a: seq<nat>, b: seq<nat>)
    ensures After(s, a + b) == After(After(s, a), b)
  {
    if b == [] {
      assert a + b == a;
    } else {
      AfterAppend(s, a, b[..|b| - 1]);
      assert (a + b)[..|a + b| - 1] == a + b[..|b| - 1];
    }
  }

  lemma AfterOne(s: System, p: nat)
    ensures After(s, [p]) == Step(s, p)
  {
    assert After(s, [p][..0]) == s;
  }

  /** Nobody is inside or asleep, and everything stored has been consumed. */
  ghost predicate Quiet(s: System) {
    && s.slot == EMPTY && s.empty == Sem(1, []) && s.full == Sem(0, []) && s.stored == s.consumed
    && forall p | 0 <= p < |s.tasks| :: s.tasks[p].place == AtWait
  }

  lemma QuietInv(s: System)
    requires Quiet(s)
    ensures Inv(s)
  {
    assert Holders(s.tasks) == {};
  }

  /** What has been handed over so far. */
  function Delivered(s: System, value: char): System {
    s.(stored := s.stored + [value], consumed := s.consumed + [value])
  }

  /** Writer `w` and reader `r`, one after the other, hand over one value. */
  lemma OneValue(s: System, w: nat, r: nat)
    requires Quiet(s) && w < |s.tasks| && r < |s.tasks| && s.tasks[w].writer && !s.tasks[r].writer
    ensures After(s, [w] + [w] + [w] + [r] + [r] + [r] + [r]) == Delivered(s, s.tasks[w].symbol)
  {
    hide Step, Inv, After;
    QuietInv(s);
    var s3 := WriterTurn(s, w);
    var s7 := ReaderTurn(s, s3, w, r);
    AfterAppend(s, [w] + [w] + [w], [r] + [r] + [r] + [r]);
    assert [w] + [w] + [w] + [r] + [r] + [r] + [r] == [w] + [w] + [w] + ([r] + [r] + [r] + [r]);
  }

  lemma WriterTurn(s: System, w: nat) returns (s3: System)
    requires Quiet(s) && Inv(s) && w < |s.tasks| && s.tasks[w].writer
    ensures s3 == After(s, [w] + [w] + [w]) && Inv(s3)
    ensures s3 == s.(slot := s.tasks[w].symbol, stored := s.stored + [s.tasks[w].symbol], empty := Sem(0, []), full := Sem(1, []))
  {
    hide Step, Inv, After;
    var s1 := Step(s, w);
    var s2 := Step(s1, w);
    s3 := Step(s2, w);
    AtWaitStep(s, w);
    StepInv(s, w);
    WriterStores(s1, w);
    StepInv(s1, w);
    Posts(s2, w);
    StepInv(s2, w);
    assert s3.tasks == s.tasks;
    AfterOne(s, w);
    AfterOne(s1, w);
    AfterOne(s2, w);
    AfterAppend(s, [w], [w]);
    AfterAppend(s, [w] + [w], [w]);
  }

  lemma ReaderTurn(s: System, s3: System, w: nat, r: nat) returns (s7: System)
    requires Quiet(s) && Inv(s3) && w < |s.tasks| && r < |s.tasks| && !s.tasks[r].writer
    requires s3 == s.(slot := s.tasks[w].symbol, stored := s.stored + [s.tasks[w].symbol], empty := Sem(0, []), full := Sem(1, []))
    ensures s7 == After(s3, [r] + [r] + [r] + [r]) == Delivered(s, s.tasks[w].symbol)
  {
    hide Step, Inv, After;
    var s4 := Step(s3, r);
    var s5 := Step(s4, r);
    var s6 := Step(s5, r);
    s7 := Step(s6, r);
    AtWaitStep(s3, r);
    StepInv(s3, r);
    ReaderCopies(s4, r);
    StepInv(s4, r);
    ReaderClears(s5, r);
    StepInv(s5, r);
    Posts(s6, r);
    assert s7.tasks == s.tasks;
    AfterOne(s3, r);
    AfterOne(s4, r);
    AfterOne(s5, r);
    AfterOne(s6, r);
    AfterAppend(s3, [r], [r]);
    AfterAppend(s3, [r] + [r], [r]);
    AfterAppend(s3, [r] + [r] + [r], [r]);
  }

  datatype Pair = Pair(writer: nat, reader: nat)

  ghost predicate PairsOk(s: System, pairs: seq<Pair>) {
    forall x <- pairs :: x.writer < |s.tasks| && x.reader < |s.tasks| && s.tasks[x.writer].writer && !s.tasks[x.reader].writer
  }

  ghost function Symbols(s: System, pairs: seq<Pair>): seq<char>
    requires PairsOk(s, pairs)
  {
    seq(|pairs|, i requires 0 <= i < |pairs| => assert pairs[i] in pairs; s.tasks[pairs[i].writer].symbol)
  }

  /** Any writers can hand values to any readers in any order: there is a schedule after which exactly
      their symbols, in that order, have been stored and consumed, and nobody is left inside or asleep. */
  lemma {:induction false} AnyExchange(s: System, pairs: seq<Pair>) returns (schedule: seq<nat>)
    requires Blank(s) && PairsOk(s, pairs)
    ensures var r := After(s, schedule);
            && Quiet(r) && r.consumed == r.stored == Symbols(s, pairs)
            && r.tasks == s.tasks
  {
    if pairs == [] {
      schedule := [];
    } else {
      hide After, Step;
      var init, x := pairs[..|pairs| - 1], pairs[|pairs| - 1];
      assert x in pairs && PairsOk(s, init);
      var before := AnyExchange(s, init);
      var t := After(s, before);
      var one := [x.writer] + [x.writer] + [x.writer] + [x.reader] + [x.reader] + [x.reader] + [x.reader];
      OneValue(t, x.writer, x.reader);
      schedule := before + one;
      AfterAppend(s, before, one);
      assert Symbols(s, pairs) == Symbols(s, init) + [s.tasks[x.writer].symbol];
    }
  }
}
