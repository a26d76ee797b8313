/**
 NonBlockingLog.cpp as its threads execute it, proved to make only steps of
 module LogProtocol. A buffer has one owner at a time, so it is a value here.
 */
module NonBlockingLogs {
  import opened LogProtocol
  import opened Strings

  /** A message that fits in an empty buffer, as append takes for granted. */
  type Short = msg: string | |msg| < CAPACITY witness ""

  /** What other threads do at one point of the writer: messages appended, or stop(). */
  datatype Action = Message(msg: Short) | StopCall

  /** What other threads do during one turn of the writer's loop: before the test of
      running_, before the lock is taken, during the wait, and after each write. */
  datatype Turn = Turn(
    beforeTest: seq<Action>, beforeLock: seq<Action>, waiting: seq<Action>, writing: seq<seq<Action>>)

  /** The messages among these actions. */
  function Said(actions: seq<Action>): string {
    if actions == [] then ""
    else
      var a := actions[|actions| - 1];
      Said(actions[..|actions| - 1]) + if a.Message? then a.msg else ""
  }

  lemma SaidSnoc(actions: seq<Action>, k: nat)
    requires k < |actions|
    ensures Said(actions[..k + 1]) == Said(actions[..k]) + if actions[k].Message? then actions[k].msg else ""
    ensures StopCall in actions[..k + 1] <==> StopCall in actions[..k] || actions[k] == StopCall
  {
    assert actions[..k + 1][..k] == actions[..k] && actions[..k + 1] == actions[..k] + [actions[k]];
  }

  lemma NoText(file: string, taken: seq<Slot>)
    ensures file + Texts(taken[..0]) == file
  {}

  /** One more buffer written. */
  lemma NextText(file: string, taken: seq<Slot>, i: nat)
    requires i < |taken|
    ensures file + Texts(taken[..i + 1]) == file + Texts(taken[..i]) + Text(taken[i])
  {
    assert taken[..i + 1] == taken[..i] + [taken[i]];
    TextsPush(taken[..i], taken[i]);
    Associative(file, Texts(taken[..i]), Text(taken[i]));
  }

  datatype Spot = Spot(writer: Writer, back: seq<Slot>, new1: Slot, new2: Slot, turns: nat)

  class NonBlockingLog {
    var buffers: seq<Slot>
    var nowBuffer: Slot
    var nextBuffer: Slot
    var running: bool
    var file: string

    // The protocol's state, and the run that led to it.
    ghost var s: State
    ghost var run: seq<Step>

    ghost predicate Valid()
      reads this
    {
      && LegalRun(INIT, run) && After(INIT, run) == s && Good(s)
      && s.full == buffers && s.now == nowBuffer && s.spare == nextBuffer && s.running == running && s.file == file
    }

    /** The writer's locals and its place, which other threads leave alone. */
    ghost function Place(): Spot
      reads this
    {
      Spot(s.writer, s.back, s.new1, s.new2, s.turns)
    }

    constructor ()
      ensures Valid() && s == INIT
    {
      buffers, nowBuffer, nextBuffer, running, file := [], EMPTY, EMPTY, true, "";
      s, run := INIT, [];
      InitIsGood();
    }

    /** The statements just executed were this step of the protocol. */
    ghost method Record(e: Step)
      requires LegalRun(INIT, run) && After(INIT, run) == s && Good(s) && Enabled(s, e) && !Misuse(s, e)
      modifies this`s, this`run
      ensures LegalRun(INIT, run) && After(INIT, run) == s && Good(s) && s == Next(old(s), e)
      ensures run == old(run) + [e]
    {
      RunAppend(INIT, run, e);
      StepKeeps(s, e);
      s := Next(s, e);
      run := run + [e];
    }

    /** append: the message goes into the current buffer, or, if that has no room,
        into the spare one or a new one. */
    method Append(msg: string)
      requires Valid() && !Flushing(s.writer) && |msg| < CAPACITY
      modifies this
      ensures Valid() && s == Next(old(s), Step.Append(msg)) && run == old(run) + [Step.Append(msg)]
      ensures nowBuffer.Holds? && old(nowBuffer).Holds?
      ensures if |msg| < CAPACITY - |old(nowBuffer).text|
              then nowBuffer.text == old(nowBuffer).text + msg && buffers == old(buffers)
                   && nextBuffer == old(nextBuffer)
              else nowBuffer.text == msg && buffers == old(buffers) + [old(nowBuffer)] && nextBuffer == Null
      ensures s.log == old(s).log + msg && file == old(file)
    {
      hide LegalRun, After, Conserved;
      if |msg| < CAPACITY - |nowBuffer.text| {
        nowBuffer := Holds(nowBuffer.text + msg);
      } else {
        buffers := buffers + [nowBuffer];
        if nextBuffer.Holds? {
          nowBuffer, nextBuffer := nextBuffer, Null;
        } else {
          nowBuffer := EMPTY;
        }
        nowBuffer := Holds(nowBuffer.text + msg);
      }
      Record(Step.Append(msg));
    }

    method Stop()
      requires Valid()
      modifies this
      ensures Valid() && s == Next(old(s), Step.Stop) && run == old(run) + [Step.Stop] && !running
    {
      running := false;
      Record(Step.Stop);
    }

    /** Other threads act while the writer is somewhere outside the lock. */
    method Interfere(actions: seq<Action>)
      requires Valid() && !Flushing(s.writer)
      modifies this
      ensures Valid() && Place() == old(Place()) && file == old(file) && old(run) <= run
      ensures running <==> old(running) && StopCall !in actions
      ensures s.log == old(s).log + Said(actions)
    {
      hide LegalRun, After, Conserved, Buffers;
      for i := 0 to |actions|
        invariant Valid() && Place() == old(Place()) && file == old(file) && old(run) <= run
        invariant running <==> old(running) && StopCall !in actions[..i]
        invariant s.log == old(s).log + Said(actions[..i])
      {
        SaidSnoc(actions, i);
        match actions[i]
        case Message(msg) =>
          Append(msg);
          Associative(old(s).log, Said(actions[..i]), msg);
        case StopCall =>
          Stop();
          assert Said(actions[..i]) + "" == Said(actions[..i]);
      }
      assert actions[..|actions|] == actions;
    }

    /** The locked section of the loop: wait if there is nothing, then take all
        buffers and put the writer's own ones in their place. */
    method TakeBuffers(newBuffer1: Slot, newBuffer2: Slot, waiting: seq<Action>)
      returns (spare2: Slot, writeBackBuffers: seq<Slot>)
      requires Valid() && s.writer.Locking? && s.new1 == newBuffer1 && s.new2 == newBuffer2
      modifies this
      ensures Valid() && file == old(file) && old(run) <= run
      ensures Place() == Spot(Writing(0), writeBackBuffers, Null, spare2, old(s).turns)
      ensures buffers == [] && nowBuffer == newBuffer1 && old(buffers) <= writeBackBuffers[..|writeBackBuffers| - 1]
      ensures nextBuffer.Null? ==> spare2.Null?
    {
      hide LegalRun, After, Conserved;
      var wait := buffers == [];
      if wait {
        Record(Lock);
        Interfere(waiting);
      }
      writeBackBuffers := buffers + [nowBuffer];
      nowBuffer := newBuffer1;
      buffers := [];
      spare2 := newBuffer2;
      if nextBuffer.Null? {
        nextBuffer, spare2 := spare2, Null;
      }
      Record(if wait then Wake else Lock);
    }

    /** writeBack(buff->getContent()) on one buffer. */
    method WriteBack(buffs: seq<Slot>, i: nat) returns (written: seq<Slot>)
      requires Valid() && (s.writer == Writing(i) || s.writer == FinalWriting(i)) && s.back == buffs && i < |buffs|
      modifies this
      ensures buffs[i].Holds? && file == old(file) + buffs[i].text && written == buffs[i := EMPTY]
      ensures Valid() && run == old(run) + [if old(s).writer.Writing? then Write else FinalWrite]
      ensures s == Next(old(s), if old(s).writer.Writing? then Write else FinalWrite) && s.back == written
    {
      hide LegalRun, After, Conserved;
      file := file + buffs[i].text;
      written := buffs[i := EMPTY];
      Record(if s.writer.Writing? then Write else FinalWrite);
    }

    /** The write-back loop, outside the lock. */
    method WriteBackAll(taken: seq<Slot>, writing: seq<seq<Action>>) returns (writeBackBuffers: seq<Slot>)
      requires taken == s.back && s.writer == Writing(0)
      requires Valid()
      modifies this
      ensures Valid() && |writeBackBuffers| == |taken| && old(run) <= run
      ensures Place() == Spot(Writing(|taken|), writeBackBuffers, old(s).new1, old(s).new2, old(s).turns)
      ensures file == old(file) + Texts(taken)
    {
      NoText(file, taken);
      hide LegalRun, After, Conserved, Buffers, Texts;
      writeBackBuffers := taken;
      for i := 0 to |taken|
        invariant Valid() && |writeBackBuffers| == |taken| && old(run) <= run
        invariant Place() == Spot(Writing(i), writeBackBuffers, old(s).new1, old(s).new2, old(s).turns)
        invariant forall k :: i <= k < |taken| ==> writeBackBuffers[k] == taken[k]
        invariant file == old(file) + Texts(taken[..i])
      {
        NextText(old(file), taken, i);
        writeBackBuffers := WriteBack(writeBackBuffers, i);
        if i < |writing| {
          Interfere(writing[i]);
        }
      }
      assert taken[..|taken|] == taken;
    }

    /** The tail of the loop, with its assertions. */
    method Reuse(newBuffer1: Slot, newBuffer2: Slot, written: seq<Slot>) returns (spare1: Slot, spare2: Slot)
      requires Valid() && s.writer == Writing(|written|) && s.back == written
      requires s.new1 == newBuffer1 && s.new2 == newBuffer2
      modifies this
      ensures Valid() && file == old(file) && old(run) <= run
      ensures Place() == Spot(AtTest, [], spare1, spare2, old(s).turns + 1) && spare1 == EMPTY
    {
      hide LegalRun, After, Conserved;
      var writeBackBuffers := written;
      spare1, spare2 := newBuffer1, newBuffer2;
      if |writeBackBuffers| > 2 {
        writeBackBuffers := writeBackBuffers[..2];
      }
      if spare1.Null? {
        assert writeBackBuffers != [];
        spare1 := writeBackBuffers[|writeBackBuffers| - 1];
        writeBackBuffers := writeBackBuffers[|writeBackBuffers| - 1 := Null];
      }
      if spare2.Null? {
        assert writeBackBuffers != [];
        spare2 := writeBackBuffers[|writeBackBuffers| - 1];
        writeBackBuffers := writeBackBuffers[|writeBackBuffers| - 1 := Null];
      }
      Record(Recycle);
    }

    method FinalWriteBack(taken: seq<Slot>) returns (writeBackBuffers: seq<Slot>)
      requires Valid() && Place() == Spot(FinalWriting(0), taken, s.new1, s.new2, s.turns)
      modifies this
      ensures Valid() && s.writer == FinalWriting(|taken|) && s.back == writeBackBuffers
      ensures |writeBackBuffers| == |taken|
      ensures s.log == old(s).log && old(run) <= run && running == old(running)
      ensures file == old(file) + Texts(taken)
    {
      NoText(file, taken);
      hide LegalRun, After, Conserved, Buffers, Texts;
      writeBackBuffers := taken;
      for i := 0 to |taken|
        invariant Valid() && s.writer == FinalWriting(i) && s.back == writeBackBuffers && |writeBackBuffers| == |taken|
        invariant s.log == old(s).log && old(run) <= run && running == old(running)
        invariant forall k :: i <= k < |taken| ==> writeBackBuffers[k] == taken[k]
        invariant file == old(file) + Texts(taken[..i])
      {
        NextText(old(file), taken, i);
        writeBackBuffers := WriteBack(writeBackBuffers, i);
      }
      assert taken[..|taken|] == taken;
    }

    /** After the loop: what is left is taken and written. */
    method FinalFlush()
      requires Valid() && s.writer.FinalLocking?
      modifies this
      ensures Valid() && s.writer.Done? && file == s.log && s.log == old(s).log && old(run) <= run
      ensures running == old(running)
    {
      hide LegalRun, After, Conserved;
      var writeBackBuffers := buffers + [nowBuffer];
      nowBuffer, buffers := Null, [];
      Record(FinalLock);
      var _ := FinalWriteBack(writeBackBuffers);
      Record(Finish);
      ContentsInOrder(s);
    }

    /** One turn of the while: the test, and then either the final flush or a turn of
        taking and writing buffers. */
    method OneTurn(turn: Turn, newBuffer1: Slot, newBuffer2: Slot)
      returns (finished: bool, newBuffer1': Slot, newBuffer2': Slot)
      requires Valid() && Place() == Spot(AtTest, [], newBuffer1, newBuffer2, s.turns)
      modifies this
      ensures Valid() && old(run) <= run
      ensures finished <==> !old(running) || StopCall in turn.beforeTest
      ensures finished ==> s.writer.Done? && file == s.log && !running
      ensures !finished ==> Place() == Spot(AtTest, [], newBuffer1', newBuffer2', old(s).turns + 1)
    {
      hide LegalRun, After, Conserved, Buffers;
      newBuffer1', newBuffer2' := newBuffer1, newBuffer2;
      Interfere(turn.beforeTest);
      finished := !running;
      Record(Test);
      Interfere(turn.beforeLock);
      if finished {
        FinalFlush();
        return;
      }
      var spare2, taken := TakeBuffers(newBuffer1, newBuffer2, turn.waiting);
      var written := WriteBackAll(taken, turn.writing);
      newBuffer1', newBuffer2' := Reuse(Null, spare2, written);
    }

    /** threadFunc, observed for at most as many turns as given; when it returns, stop()
        has been called and the file holds every message in the order of the lock, and
        otherwise the writer has completed all the turns. */
    method ThreadFunc(turns: seq<Turn>) returns (finished: bool)
      requires Valid() && s.writer.AtTest? && s.new2 == EMPTY
      modifies this
      ensures Valid() && old(run) <= run
      ensures finished ==> s.writer.Done? && file == Appended(run) && !running
      ensures !finished ==> s.writer.AtTest? && s.turns == old(s).turns + |turns|
      ensures (exists j :: 0 <= j < |turns| && StopCall in turns[j].beforeTest) ==> finished
    {
      assert s.new1 == EMPTY && s.back == [];
      hide LegalRun, After, Conserved, Appended, Buffers;
      var newBuffer1, newBuffer2 := EMPTY, EMPTY;
      finished := false;
      for k := 0 to |turns|
        invariant Valid() && Place() == Spot(AtTest, [], newBuffer1, newBuffer2, old(s).turns + k)
        invariant !finished && old(run) <= run
        invariant forall j :: 0 <= j < k ==> StopCall !in turns[j].beforeTest
      {
        finished, newBuffer1, newBuffer2 := OneTurn(turns[k], newBuffer1, newBuffer2);
        if finished {
          StateFromRun(run);
          return;
        }
      }
    }
  }
}
