/**
 What the log's writer gets done when it is left to itself: a turn of its loop
 writes everything appended before, and after stop() the final flush does.
 */
module LogProgress {
  import opened LogProtocol

  /** A step of the writer, not of an appender or of stop(). */
  predicate Own(e: Step) { !e.Append? && !e.Stop? }

  ghost predicate OwnRun(s: State, steps: seq<Step>) {
    LegalRun(s, steps) && forall i :: 0 <= i < |steps| ==> Own(steps[i])
  }

  lemma OneBefore(s: State, e: Step, steps: seq<Step>)
    requires Enabled(s, e) && Own(e) && OwnRun(Next(s, e), steps)
    ensures OwnRun(s, [e] + steps) && After(s, [e] + steps) == After(Next(s, e), steps)
  {
    var all := [e] + steps;
    assert all[1..] == steps && forall i :: 1 <= i < |all| ==> all[i] == steps[i - 1];
  }

  lemma OwnStepKeeps(s: State, e: Step)
    requires Good(s) && Enabled(s, e) && Own(e)
    ensures Good(Next(s, e)) && Next(s, e).log == s.log && Next(s, e).running == s.running
  {
    StepKeeps(s, e);
    EventInLog(s, e);
    assert s.log + "" == s.log;
  }

  /** How far the writer is from its end, once stop() has been called. */
  function ToGo(w: Writer): nat {
    match w
    case Locking => 6
    case Waiting => 5
    case Writing(_) => 4
    case AtTest => 3
    case FinalLocking => 2
    case FinalWriting(_) => 1
    case Done => 0
  }

  /** What the writer does next. */
  function Move(s: State): Step
    requires !s.writer.Done?
  {
    match s.writer
    case AtTest => Test
    case Locking => Lock
    case Waiting => Wake
    case Writing(k) => if k < |s.back| then Write else Recycle
    case FinalLocking => FinalLock
    case FinalWriting(k) => if k < |s.back| then FinalWrite else Finish
  }

  function Unwritten(s: State): nat {
    if Written(s) <= |s.back| then |s.back| - Written(s) else 0
  }

  predicate InTurn(w: Writer) { w.Locking? || w.Waiting? || w.Writing? }

  /** The writer's next step can be made and brings it nearer to the end. */
  lemma MoveOn(s: State)
    requires Good(s) && !s.writer.Done? && (InTurn(s.writer) || !s.running)
    ensures var e := Move(s);
            && Enabled(s, e) && Own(e)
            && var s1 := Next(s, e);
               ToGo(s1.writer) < ToGo(s.writer) ||
               (ToGo(s1.writer) == ToGo(s.writer) && Unwritten(s1) < Unwritten(s))
  {
    assert Buffers(s);
    hide Good, Conserved, Texts;
  }

  lemma MoveInTurn(s: State)
    requires Good(s) && InTurn(s.writer)
    ensures Enabled(s, Move(s))
    ensures var e, s1 := Move(s), Next(s, Move(s));
            && (if e.Recycle? then s1.writer.AtTest? && s.writer.Writing? else InTurn(s1.writer))
            && (s.writer.Writing? ==> (s1.writer.Writing? || e.Recycle?) && s1.full == s.full && s1.now == s.now)
            && (!s.writer.Writing? && s1.writer.Writing? ==> s1.full == [] && s1.now == EMPTY)
  {
    assert Buffers(s) && s.fault.Fine?;
    hide Good, Conserved, Texts;
  }

  /** From inside a turn to its end. */
  lemma {:induction false} TurnEnds(s: State) returns (steps: seq<Step>)
    requires Good(s) && InTurn(s.writer)
    ensures OwnRun(s, steps) && Good(After(s, steps)) && After(s, steps).writer.AtTest?
    ensures After(s, steps).log == s.log && After(s, steps).running == s.running
    ensures s.writer.Writing? ==> After(s, steps).full == s.full && After(s, steps).now == s.now
    ensures !s.writer.Writing? ==> After(s, steps).full == [] && After(s, steps).now == EMPTY
    decreases ToGo(s.writer), Unwritten(s)
  {
    var e := Move(s);
    MoveOn(s);
    MoveInTurn(s);
    OwnStepKeeps(s, e);
    hide Good, Next, Enabled, Move, Unwritten;
    var s1 := Next(s, e);
    if e.Recycle? {
      steps := [];
    } else {
      steps := TurnEnds(s1);
    }
    OneBefore(s, e, steps);
    steps := [e] + steps;
  }

  /** One undisturbed turn of the loop writes everything appended before it. */
  lemma TurnWritesAll(run: seq<Step>) returns (steps: seq<Step>)
    requires LegalRun(INIT, run) && ProperUse(INIT, run)
    requires After(INIT, run).writer.AtTest? && Stop !in run
    ensures OwnRun(After(INIT, run), steps) && After(After(INIT, run), steps).writer.AtTest?
    ensures After(After(INIT, run), steps).file == Appended(run)
  {
    InitIsGood();
    RunKeeps(INIT, run);
    StateFromRun(run);
    var s := After(INIT, run);
    OwnStepKeeps(s, Test);
    steps := TurnEnds(Next(s, Test));
    ContentsInOrder(After(Next(s, Test), steps));
    OneBefore(s, Test, steps);
    steps := [Test] + steps;
    hide Good;
    var f := After(s, steps);
    assert f.back == [];
    assert f.file + "" + "" + "" == f.file;
  }

  lemma {:induction false} ThreadEnds(s: State) returns (steps: seq<Step>)
    requires Good(s) && !s.running
    ensures OwnRun(s, steps) && Good(After(s, steps)) && After(s, steps).writer.Done? && After(s, steps).log == s.log
    decreases ToGo(s.writer), Unwritten(s)
  {
    if s.writer.Done? {
      steps := [];
    } else {
      var e := Move(s);
      MoveOn(s);
      OwnStepKeeps(s, e);
      hide Good, Next, Enabled, Move, Unwritten;
      steps := ThreadEnds(Next(s, e));
      OneBefore(s, e, steps);
      steps := [e] + steps;
    }
  }

  /** Once stop() has been called, the writer on its own comes to its end, and then
      the file holds every message appended. So the join in stop() returns. */
  lemma StopFlushesAll(run: seq<Step>) returns (steps: seq<Step>)
    requires LegalRun(INIT, run) && ProperUse(INIT, run) && Stop in run
    ensures OwnRun(After(INIT, run), steps) && After(After(INIT, run), steps).writer.Done?
    ensures After(After(INIT, run), steps).file == Appended(run)
  {
    InitIsGood();
    RunKeeps(INIT, run);
    StateFromRun(run);
    steps := ThreadEnds(After(INIT, run));
    ContentsInOrder(After(After(INIT, run), steps));
  }
}
