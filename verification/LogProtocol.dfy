/**
 NonBlockingLog.cpp: appenders and one writer thread exchanging owned buffers.
 Each section under mtx_ is one step; the writer's steps outside the lock
 interleave with them.
 */
module LogProtocol {
  import opened Strings

  /** largeBufferSize, FixBuffer.hpp:6 */
  const CAPACITY: nat := 4000 * 1000

  /** std::unique_ptr<LargeFixBuffer>: null, or a buffer holding some text. */
  datatype Slot = Null | Holds(text: string)

  const EMPTY := Holds("")

  datatype Writer =
    | AtTest              // while(running_)
    | Locking             // before taking the lock in the loop
    | Waiting             // inside wait_for, lock released
    | Writing(next: nat)  // writing back outside the lock; `next` buffers are done
    | FinalLocking
    | FinalWriting(next: nat)
    | Done

  /** Undefined behaviour the code does not guard against. */
  datatype Fault = Fine | NullDereference | BufferOverflow

  /** `now`, `spare` and `full` are nowBuffer_, nextBuffer_ and buffers_; `new1`,
      `new2` and `back` are the writer's locals newBuffer1, newBuffer2 and
      writeBackBuffers. History: every message appended, in lock order, and the
      turns of its loop the writer has completed. */
  datatype State = State(
    now: Slot, spare: Slot, full: seq<Slot>, running: bool,
    writer: Writer, new1: Slot, new2: Slot, back: seq<Slot>,
    file: string, log: string, turns: nat, fault: Fault)

  const INIT := State(EMPTY, EMPTY, [], true, AtTest, EMPTY, EMPTY, [], "", "", 0, Fine)

  datatype Step =
    | Append(msg: string)
    | Stop
    | Test
    | Lock
    | Wake
    | Write
    | Recycle
    | FinalLock
    | FinalWrite
    | Finish

  predicate Enabled(s: State, e: Step) {
    && s.fault.Fine?
    && match e
       case Append(_) => true
       case Stop => true
       case Test => s.writer.AtTest?
       case Lock => s.writer.Locking?
       case Wake => s.writer.Waiting?       // a notification with buffers_ filled, or the timeout
       case Write => s.writer.Writing? && s.writer.next < |s.back|
       case Recycle => s.writer.Writing? && s.writer.next >= |s.back|
       case FinalLock => s.writer.FinalLocking?
       case FinalWrite => s.writer.FinalWriting? && s.writer.next < |s.back|
       case Finish => s.writer.FinalWriting? && s.writer.next >= |s.back|
  }

  /** FixBuffer::append on a slot: it needs room for the message and a NUL. */
  function AppendTo(s: State, msg: string): State {
    if s.now.Null? then s.(fault := NullDereference)
    else if CAPACITY <= |s.now.text| + |msg| then s.(fault := BufferOverflow)
    else s.(now := Holds(s.now.text + msg), log := s.log + msg)
  }

  /** The locked section of one turn of the writer's loop, after the wait. */
  function Rotate(s: State): State {
    s.(back := s.full + [s.now], full := s.back,
       now := s.new1, new1 := Null,
       spare := if s.spare.Null? then s.new2 else s.spare,
       new2 := if s.spare.Null? then Null else s.new2,
       writer := Writing(0))
  }

  /** getContent and write of one buffer. */
  function WriteOne(s: State, i: nat): State
    requires i < |s.back|
  {
    if s.back[i].Null? then s.(fault := NullDereference)
    else s.(file := s.file + s.back[i].text, back := s.back[i := EMPTY])
  }

  function Last(b: seq<Slot>): Slot { if b == [] then Null else b[|b| - 1] }

  function ReleaseLast(b: seq<Slot>): seq<Slot> { if b == [] then [] else b[..|b| - 1] + [Null] }

  function Next(s: State, e: Step): State
    requires Enabled(s, e)
  {
    match e
    case Append(msg) =>
      if s.now.Null? then s.(fault := NullDereference)
      else if |msg| < CAPACITY - |s.now.text| then AppendTo(s, msg)
      else
        var replacement := if s.spare.Null? then EMPTY else s.spare;
        AppendTo(s.(full := s.full + [s.now], now := replacement, spare := Null), msg)
    case Stop => s.(running := false)
    case Test => s.(writer := if s.running then Locking else FinalLocking)
    case Lock => if s.full == [] then s.(writer := Waiting) else Rotate(s)
    case Wake => Rotate(s)
    case Write => WriteOne(s, s.writer.next).(writer := Writing(s.writer.next + 1))
    case Recycle =>
      var b := if |s.back| > 2 then s.back[..2] else s.back;
      var b1 := if s.new1.Null? then ReleaseLast(b) else b;
      s.(new1 := if s.new1.Null? then Last(b) else s.new1,
         new2 := if s.new2.Null? then Last(b1) else s.new2,
         back := [], writer := AtTest, turns := s.turns + 1)
    case FinalLock => s.(back := s.full + [s.now], full := s.back, now := Null, writer := FinalWriting(0))
    case FinalWrite => WriteOne(s, s.writer.next).(writer := FinalWriting(s.writer.next + 1))
    case Finish => s.(back := [], writer := Done)     // the thread's locals are destroyed
  }

  predicate LegalRun(s: State, run: seq<Step>)
    decreases |run|
  {
    run != [] ==> Enabled(s, run[0]) && LegalRun(Next(s, run[0]), run[1..])
  }

  function After(s: State, run: seq<Step>): State
    requires LegalRun(s, run)
    decreases |run|
  {
    if run == [] then s else After(Next(s, run[0]), run[1..])
  }

  lemma {:induction false} RunAppend(s: State, run: seq<Step>, e: Step)
    requires LegalRun(s, run) && Enabled(After(s, run), e)
    ensures LegalRun(s, run + [e]) && After(s, run + [e]) == Next(After(s, run), e)
    decreases |run|
  {
    if run == [] {
      assert ([] + [e])[1..] == [];
    } else {
      RunAppend(Next(s, run[0]), run[1..], e);
      assert (run + [e])[1..] == run[1..] + [e];
    }
  }

  // ------------------------------------------------------------ invariants

  function Text(b: Slot): string { if b.Null? then "" else b.text }

  function Texts(bs: seq<Slot>): string {
    if bs == [] then "" else Texts(bs[..|bs| - 1]) + Text(bs[|bs| - 1])
  }

  lemma {:induction false} TextsConcat(a: seq<Slot>, b: seq<Slot>)
    ensures Texts(a + b) == Texts(a) + Texts(b)
  {
    if b == [] {
      assert a + b == a;
    } else {
      var b', last := b[..|b| - 1], b[|b| - 1];
      TextsConcat(a, b');
      assert (a + b)[..|a + b| - 1] == a + b' && (a + b)[|a + b| - 1] == last;
      Associative(Texts(a), Texts(b'), Text(last));
    }
  }

  function Written(s: State): nat {
    match s.writer
    case Writing(k) => k
    case FinalWriting(k) => k
    case _ => 0
  }

  predicate InLoop(w: Writer) { w.AtTest? || w.Locking? || w.Waiting? || w.FinalLocking? }

  predicate Flushing(w: Writer) { w.FinalWriting? || w.Done? }

  predicate Filled(bs: seq<Slot>) {
    forall i :: 0 <= i < |bs| ==> bs[i].Holds? && |bs[i].text| < CAPACITY
  }

  predicate SpareOrNull(b: Slot) { b.Null? || b == EMPTY }

  /** Who holds which buffer: the writer's spare is there at the head of the loop,
      the appenders' buffer is there until the final flush, spares are empty. */
  predicate Buffers(s: State) {
    && Filled(s.full) && Filled(s.back)
    && SpareOrNull(s.spare) && SpareOrNull(s.new2)
    && (if Flushing(s.writer) then s.now.Null? && s.full == [] else s.now.Holds? && |s.now.text| < CAPACITY)
    && (InLoop(s.writer) ==> s.back == [] && s.new1 == EMPTY)
    && (s.writer.Writing? ==> s.new1.Null? && s.back != [])
    && Written(s) <= |s.back|
    && (s.writer.Done? ==> s.back == [])
    && forall i :: 0 <= i < Written(s) ==> s.back[i] == EMPTY
  }

  /** The buffers whose text is not in the file yet, oldest first. */
  function Outstanding(s: State): seq<Slot>
    requires Written(s) <= |s.back|
  {
    s.back[Written(s)..] + s.full + [s.now]
  }

  predicate Conserved(s: State)
    requires Written(s) <= |s.back|
  {
    s.file + Texts(Outstanding(s)) == s.log
  }

  predicate Good(s: State) {
    s.fault.Fine? && Buffers(s) && Conserved(s)
  }

  // ----------------------------------------------------- one step at a time

  /** The two misuses: appending after the final flush has taken the last buffer,
      and a message that does not fit in an empty buffer. */
  predicate Misuse(s: State, e: Step) {
    e.Append? && (Flushing(s.writer) || CAPACITY <= |e.msg|)
  }

  lemma StepKeepsBuffers(s: State, e: Step)
    requires s.fault.Fine? && Buffers(s) && Enabled(s, e)
    ensures Misuse(s, e) ==> !Next(s, e).fault.Fine?
    ensures !Misuse(s, e) ==> Next(s, e).fault.Fine? && Buffers(Next(s, e))
  {
    hide Buffers, Next;
    if e.Append? {
      AppendKeepsBuffers(s, e.msg);
    } else {
      OthersKeepBuffers(s, e);
    }
  }

  lemma AppendKeepsBuffers(s: State, msg: string)
    requires s.fault.Fine? && Buffers(s)
    ensures var s' := Next(s, Append(msg));
            if Misuse(s, Append(msg)) then !s'.fault.Fine? else s'.fault.Fine? && Buffers(s')
  {}

  lemma WriteKeepsBuffers(s: State, e: Step)
    requires s.fault.Fine? && Buffers(s) && Enabled(s, e) && (e.Write? || e.FinalWrite?)
    ensures Next(s, e).fault.Fine? && Buffers(Next(s, e))
  {}

  lemma RotateKeepsBuffers(s: State)
    requires s.fault.Fine? && Buffers(s) && InLoop(s.writer)
    ensures Rotate(s).fault.Fine? && Buffers(Rotate(s))
  {}

  lemma OthersKeepBuffers(s: State, e: Step)
    requires s.fault.Fine? && Buffers(s) && Enabled(s, e) && !e.Append?
    ensures Next(s, e).fault.Fine? && Buffers(Next(s, e))
  {
    if e.Write? || e.FinalWrite? {
      WriteKeepsBuffers(s, e);
    } else if e.Wake? || (e.Lock? && s.full != []) {
      hide Buffers;
      RotateKeepsBuffers(s);
    }
  }

  lemma TextsPush(q: seq<Slot>, b: Slot)
    ensures Texts(q + [b]) == Texts(q) + Text(b)
  {
    assert (q + [b])[..|q|] == q;
  }

  lemma TextsPop(b: Slot, q: seq<Slot>)
    ensures Texts([b] + q) == Text(b) + Texts(q)
  {
    TextsConcat([b], q);
    TextsPush([], b);
    assert [] + [b] == [b];
  }

  /** A message put into the last outstanding buffer. */
  lemma PutIntoLast(file: string, q: seq<Slot>, room: string, msg: string, log: string)
    requires file + Texts(q + [Holds(room)]) == log
    ensures file + Texts(q + [Holds(room + msg)]) == log + msg
  {
    TextsPush(q, Holds(room));
    TextsPush(q, Holds(room + msg));
    Associative(Texts(q), room, msg);
    Associative(file, Texts(q) + room, msg);
  }

  lemma AnotherEmpty(q: seq<Slot>, b: Slot)
    requires Text(b) == ""
    ensures Texts(q + [b]) == Texts(q)
  {
    TextsPush(q, b);
    assert Texts(q) + "" == Texts(q);
  }

  lemma AppendConserves(s: State, msg: string)
    requires Good(s) && !Misuse(s, Append(msg))
    ensures Conserved(Next(s, Append(msg)))
  {
    hide Texts;
    if |msg| < CAPACITY - |s.now.text| {
      PutIntoLast(s.file, s.back[Written(s)..] + s.full, s.now.text, msg, s.log);
    } else {
      AnotherEmpty(Outstanding(s), EMPTY);
      PutIntoLast(s.file, Outstanding(s), "", msg, s.log);
      var s' := Next(s, Append(msg));
      assert s'.now == Holds("" + msg);
      assert Outstanding(s') == Outstanding(s) + [s'.now];
    }
  }

  lemma RotateConserves(s: State)
    requires Good(s) && InLoop(s.writer)
    ensures Conserved(Rotate(s))
  {
    var s' := Rotate(s);
    assert Outstanding(s') == Outstanding(s) + [EMPTY];
    AnotherEmpty(Outstanding(s), EMPTY);
  }

  lemma FlushConserves(s: State)
    requires Good(s) && Enabled(s, FinalLock)
    ensures Conserved(Next(s, FinalLock))
  {
    var s' := Next(s, FinalLock);
    assert Outstanding(s') == Outstanding(s) + [Null];
    AnotherEmpty(Outstanding(s), Null);
  }

  lemma WriteConserves(s: State, w: Writer)
    requires Good(s) && (s.writer.Writing? || s.writer.FinalWriting?)
    requires Written(s) < |s.back|
    requires w == if s.writer.Writing? then Writing(Written(s) + 1) else FinalWriting(Written(s) + 1)
    ensures Written(WriteOne(s, Written(s)).(writer := w)) <= |s.back|
    ensures Conserved(WriteOne(s, Written(s)).(writer := w))
  {
    var i := Written(s);
    var s' := WriteOne(s, i).(writer := w);
    assert Outstanding(s) == [s.back[i]] + Outstanding(s');
    TextsPop(s.back[i], Outstanding(s'));
    Associative(s.file, Text(s.back[i]), Texts(Outstanding(s')));
  }

  lemma NothingLeft(s: State, e: Step)
    requires Good(s) && Enabled(s, e) && (e.Recycle? || e.Finish?)
    ensures Conserved(Next(s, e))
  {
    assert Written(s) == |s.back|;
    hide Texts, Buffers;
    var s' := Next(s, e);
    assert s.back[Written(s)..] == s'.back[Written(s')..];
  }

  lemma NothingMoved(s: State, e: Step)
    requires Good(s) && Enabled(s, e) && (e.Stop? || e.Test? || (e.Lock? && s.full == []))
    ensures Conserved(Next(s, e))
  {
    assert Written(Next(s, e)) == Written(s) <= |s.back|;
    hide Texts, Buffers;
    assert Outstanding(Next(s, e)) == Outstanding(s);
  }

  lemma StepConserves(s: State, e: Step)
    requires Good(s) && Enabled(s, e) && !Misuse(s, e) && Buffers(Next(s, e))
    ensures Conserved(Next(s, e))
  {
    hide Buffers, Texts, Conserved;
    match e {
      case Append(msg) => AppendConserves(s, msg);
      case Lock => if s.full == [] { NothingMoved(s, e); } else { RotateConserves(s); }
      case Wake => RotateConserves(s);
      case Write => WriteConserves(s, Writing(s.writer.next + 1));
      case FinalWrite => WriteConserves(s, FinalWriting(s.writer.next + 1));
      case FinalLock => FlushConserves(s);
      case Recycle => NothingLeft(s, e);
      case Finish => NothingLeft(s, e);
      case _ => NothingMoved(s, e);
    }
  }

  /** A fault comes from a misuse and from nothing else. */
  lemma StepKeeps(s: State, e: Step)
    requires Good(s) && Enabled(s, e)
    ensures Misuse(s, e) ==> !Next(s, e).fault.Fine?
    ensures !Misuse(s, e) ==> Good(Next(s, e))
  {
    StepKeepsBuffers(s, e);
    if !Misuse(s, e) {
      StepConserves(s, e);
    }
    hide Next, Buffers, Conserved;
  }

  lemma FaultIsFinal(s: State, run: seq<Step>)
    requires LegalRun(s, run) && !s.fault.Fine?
    ensures run == [] && After(s, run) == s
  {}

  ghost predicate ProperUse(s: State, run: seq<Step>)
    requires LegalRun(s, run)
    decreases |run|
  {
    run != [] ==> !Misuse(s, run[0]) && ProperUse(Next(s, run[0]), run[1..])
  }

  lemma {:induction false} RunKeeps(s: State, run: seq<Step>)
    requires LegalRun(s, run) && Good(s)
    ensures After(s, run).fault.Fine? <==> ProperUse(s, run)
    ensures ProperUse(s, run) ==> Good(After(s, run))
    decreases |run|
  {
    if run != [] {
      StepKeeps(s, run[0]);
      var s1 := Next(s, run[0]);
      if s1.fault.Fine? {
        RunKeeps(s1, run[1..]);
      } else {
        FaultIsFinal(s1, run[1..]);
      }
    }
  }

  lemma InitIsGood()
    ensures Good(INIT)
  {
    assert [EMPTY][..0] == [];
    assert Outstanding(INIT) == [EMPTY];
  }

  // -------------------------------------------------------- what happened

  lemma {:induction false} AfterSplit(s: State, front: seq<Step>, e: Step)
    requires LegalRun(s, front + [e])
    ensures LegalRun(s, front) && Enabled(After(s, front), e)
    ensures After(s, front + [e]) == Next(After(s, front), e)
    decreases |front|
  {
    if front == [] {
      assert ([] + [e])[1..] == [];
    } else {
      assert (front + [e])[1..] == front[1..] + [e];
      AfterSplit(Next(s, front[0]), front[1..], e);
    }
  }

  /** The messages appended by any thread, in the order in which it took the lock. */
  function Appended(run: seq<Step>): string {
    if run == [] then ""
    else
      var e := run[|run| - 1];
      Appended(run[..|run| - 1]) + if e.Append? then e.msg else ""
  }

  /** Each message is in the log, and the flag tells whether stop() was called. */
  lemma {:induction false} StateFromRun(run: seq<Step>)
    requires LegalRun(INIT, run)
    ensures var s := After(INIT, run);
            && (s.fault.Fine? ==> s.log == Appended(run))
            && (s.running <==> Stop !in run)
  {
    if run != [] {
      var front, e := run[..|run| - 1], run[|run| - 1];
      assert run == front + [e];
      AfterSplit(INIT, front, e);
      StateFromRun(front);
      EventInLog(After(INIT, front), e);
    }
  }

  lemma EventInLog(s: State, e: Step)
    requires Enabled(s, e)
    ensures Next(s, e).fault.Fine? ==> Next(s, e).log == s.log + if e.Append? then e.msg else ""
    ensures Next(s, e).running <==> s.running && !e.Stop?
  {
    assert s.log + "" == s.log;
  }

  // -------------------------------------------------------------- theorems

  /** Exactly when nothing goes wrong: over every interleaving, the null pointer
      and the buffer overrun are reached if and only if some append comes after
      the final flush or is as long as a whole buffer. */
  lemma FaultExactly(run: seq<Step>)
    requires LegalRun(INIT, run)
    ensures After(INIT, run).fault.Fine? <==> ProperUse(INIT, run)
  {
    hide Good, Conserved, Texts, ProperUse, After, LegalRun;
    InitIsGood();
    RunKeeps(INIT, run);
  }

  /** Nothing is lost, repeated or reordered: file, buffers being written back,
      full buffers and the current buffer always make up the messages appended, in
      the order in which append took the lock. */
  lemma Conservation(run: seq<Step>)
    requires LegalRun(INIT, run) && ProperUse(INIT, run)
    ensures var s := After(INIT, run);
            && Written(s) <= |s.back|
            && s.file + Texts(s.back[Written(s)..]) + Texts(s.full) + Text(s.now) == Appended(run)
            && (s.writer.Done? ==> s.file == Appended(run))
  {
    hide Good, Conserved, Texts, ProperUse, After, LegalRun, Appended;
    InitIsGood();
    RunKeeps(INIT, run);
    StateFromRun(run);
    var s := After(INIT, run);
    ContentsInOrder(s);
  }

  lemma ContentsInOrder(s: State)
    requires Good(s)
    ensures Written(s) <= |s.back| && s.file + Texts(s.back[Written(s)..]) + Texts(s.full) + Text(s.now) == s.log
    ensures s.writer.Done? ==> s.file == s.log
  {
    TextsConcat(s.back[Written(s)..], s.full);
    TextsPush(s.back[Written(s)..] + s.full, s.now);
    Associative(s.file, Texts(s.back[Written(s)..]) + Texts(s.full), Text(s.now));
    Associative(s.file, Texts(s.back[Written(s)..]), Texts(s.full));
  }

  /** stop() ends the writer's loop: its test finds the flag clear exactly when
      stop() has been called. */
  lemma StopEndsTheLoop(run: seq<Step>)
    requires LegalRun(INIT, run) && Enabled(After(INIT, run), Test)
    ensures Next(After(INIT, run), Test).writer == if Stop in run then FinalLocking else Locking
  {
    StateFromRun(run);
  }

  /** The writer waits exactly when there is nothing to take. */
  lemma WaitsExactlyWhenEmpty(run: seq<Step>)
    requires LegalRun(INIT, run) && Enabled(After(INIT, run), Lock)
    ensures Next(After(INIT, run), Lock).writer == if After(INIT, run).full == [] then Waiting else Writing(0)
  {}

  /** Buffers are where the code expects them and spares are empty. */
  lemma Recycling(run: seq<Step>)
    requires LegalRun(INIT, run) && ProperUse(INIT, run)
    ensures var s := After(INIT, run);
            && (!Flushing(s.writer) ==> s.now.Holds? && |s.now.text| < CAPACITY)
            && (InLoop(s.writer) ==> s.new1 == EMPTY)
            && SpareOrNull(s.spare) && SpareOrNull(s.new2)
            && Filled(s.full) && Filled(s.back)
  {
    hide Conserved, Texts, ProperUse, After, LegalRun;
    InitIsGood();
    RunKeeps(INIT, run);
  }

  /** The final flush starts only after stop(): a program that appends nothing
      after stop(), and nothing as long as a buffer, uses the log properly. */
  lemma {:induction false} ProperIfQuietAfterStop(s: State, run: seq<Step>)
    requires LegalRun(s, run) && Good(s)
    requires s.running ==> !s.writer.FinalLocking? && !Flushing(s.writer)
    requires forall i :: 0 <= i < |run| && run[i].Append? ==> |run[i].msg| < CAPACITY
    requires forall i, j :: 0 <= i < j < |run| && run[i].Stop? ==> !run[j].Append?
    requires !s.running ==> forall i :: 0 <= i < |run| ==> !run[i].Append?
    ensures ProperUse(s, run)
    decreases |run|
  {
    hide Good, Next;
    if run != [] {
      StepKeeps(s, run[0]);
      StillRunning(s, run[0]);
      assert forall i :: 0 <= i < |run| - 1 ==> run[1..][i] == run[i + 1];
      ProperIfQuietAfterStop(Next(s, run[0]), run[1..]);
    }
  }

  lemma StillRunning(s: State, e: Step)
    requires Enabled(s, e) && (s.running ==> !s.writer.FinalLocking? && !Flushing(s.writer))
    ensures var s' := Next(s, e);
            && (s'.running ==> s.running && !s'.writer.FinalLocking? && !Flushing(s'.writer))
            && (!s'.running ==> !s.running || e.Stop?)
  {}

  /** The second spare is never refilled: newBuffer2 is taken from a slot that
      newBuffer1 has just emptied, so once the writer has handed it over, both it
      and, once used, nextBuffer_ stay null for ever. */
  lemma {:induction false} SpareNeverReplenished(s: State, run: seq<Step>)
    requires LegalRun(s, run) && Good(s) && s.new2.Null? && After(s, run).fault.Fine?
    ensures After(s, run).new2.Null? && (s.spare.Null? ==> After(s, run).spare.Null?)
    decreases |run|
  {
    if run != [] {
      var s1 := Next(s, run[0]);
      StepKeeps(s, run[0]);
      if !s1.fault.Fine? {
        FaultIsFinal(s1, run[1..]);
      } else {
        SpareStaysNull(s, run[0]);
        SpareNeverReplenished(s1, run[1..]);
      }
    }
  }

  lemma SpareStaysNull(s: State, e: Step)
    requires Good(s) && Enabled(s, e) && s.new2.Null? && Next(s, e).fault.Fine?
    ensures Next(s, e).new2.Null? && (s.spare.Null? ==> Next(s, e).spare.Null?)
  {}
}
