/**
 EventLoop.cpp: the task queue and its eventfd, as an interleaving of the loop
 thread with any number of producers. Every lock-protected section, every write
 or read of the eventfd and every assignment to a flag is one step.
 */
module LoopProtocol {
  type Task = nat
  type Thread = nat

  /** Where the loop thread is. `wake` says that the wakeup handler is in the
      active queue and has not been handled yet. */
  datatype Phase =
    | BeforeLoop
    | Testing                     // while(!stopLoop_)
    | Polling
    | Dispatching(wake: bool)
    | Swapping                    // callingPendingunctors_ set, lock not taken yet
    | Running                     // for(auto &func: funcs)
    | Stopped

  /** `pushed` are the other threads between their push and their wakeup();
      `ownerPushed` is the same for the loop thread; `stopping` are the threads
      between the two statements of stopLoop. The last five fields are history:
      the batch of the current round and what had been executed before it, all
      tasks ever queued in lock order, whether the loop thread has queued something
      outside loop() and no poll has returned since, and the rounds completed. */
  datatype State = State(
    phase: Phase, pending: seq<Task>, counter: nat, calling: bool, stop: bool,
    rest: seq<Task>, executed: seq<Task>, pushed: set<Thread>, ownerPushed: bool, stopping: set<Thread>,
    batch: seq<Task>, before: seq<Task>, queued: seq<Task>, early: bool, rounds: nat)

  const INIT := State(BeforeLoop, [], 0, false, true, [], [], {}, false, {}, [], [], [], false, 0)

  datatype Step =
    | ForeignPush(t: Thread, task: Task)
    | ForeignWakeup(t: Thread)
    | ForeignStop(t: Thread)
    | ForeignStopWakeup(t: Thread)
    | OwnerPush(task: Task)
    | OwnerWakeup
    | OwnerStop
    | Start
    | Test
    | PollReturn(wake: bool)
    | HandleWakeup
    | BeginPending
    | Swap
    | RunNext
    | EndPending

  /** Before loop() is called, or after it has returned; it can be called again. */
  predicate OutsideLoop(s: State) {
    s.phase.BeforeLoop? || s.phase.Stopped?
  }

  /** Code of the program runs on the loop thread. */
  predicate OwnerActs(s: State) {
    !s.ownerPushed && (OutsideLoop(s) || s.phase.Dispatching? || s.phase.Running?)
  }

  predicate Enabled(s: State, e: Step) {
    match e
    case ForeignPush(t, _) => t !in s.pushed && t !in s.stopping
    case ForeignWakeup(t) => t in s.pushed
    case ForeignStop(t) => t !in s.pushed && t !in s.stopping
    case ForeignStopWakeup(t) => t in s.stopping
    case OwnerPush(_) => OwnerActs(s)
    case OwnerWakeup => s.ownerPushed
    case OwnerStop => OwnerActs(s)
    case Start => !s.ownerPushed && OutsideLoop(s)
    case Test => s.phase.Testing?
    // A wakeup is reported only if the counter is positive, but it may be missing
    // from the events of this call; poll also returns on its timeout.
    case PollReturn(wake) => s.phase.Polling? && (wake ==> 0 < s.counter)
    case HandleWakeup => !s.ownerPushed && s.phase == Dispatching(true)
    case BeginPending => !s.ownerPushed && s.phase == Dispatching(false)
    case Swap => s.phase.Swapping?
    case RunNext => !s.ownerPushed && s.phase.Running? && s.rest != []
    case EndPending => !s.ownerPushed && s.phase.Running? && s.rest == []
  }

  function Next(s: State, e: Step): State
    requires Enabled(s, e)
  {
    match e
    case ForeignPush(t, task) =>
      s.(pending := s.pending + [task], queued := s.queued + [task], pushed := s.pushed + {t})
    case ForeignWakeup(t) => s.(pushed := s.pushed - {t}, counter := s.counter + 1)
    case ForeignStop(t) => s.(stop := true, stopping := s.stopping + {t})
    case ForeignStopWakeup(t) => s.(stopping := s.stopping - {t}, counter := s.counter + 1)
    case OwnerPush(task) =>
      // the loop thread calls wakeup() only from inside doPendingFuncs_
      s.(pending := s.pending + [task], queued := s.queued + [task], ownerPushed := s.calling,
         early := s.early || OutsideLoop(s))
    case OwnerWakeup => s.(ownerPushed := false, counter := s.counter + 1)
    case OwnerStop => s.(stop := true)
    case Start => s.(stop := false, phase := Testing)
    case Test => s.(phase := if s.stop then Stopped else Polling)
    case PollReturn(wake) => s.(phase := Dispatching(wake), early := false)
    // Were the counter zero, read would return -1, which as a size_t is not below
    // sizeof(one): the code goes on without exiting.
    case HandleWakeup => s.(counter := 0, phase := Dispatching(false))
    case BeginPending => s.(calling := true, phase := Swapping)
    case Swap => s.(rest := s.pending, pending := [], batch := s.pending, before := s.executed, phase := Running)
    case RunNext => s.(executed := s.executed + [s.rest[0]], rest := s.rest[1..])
    case EndPending => s.(calling := false, phase := Testing, rounds := s.rounds + 1)
  }

  predicate LegalRun(s: State, run: seq<Step>)
    decreases |run|
  {
    run != [] ==> Enabled(s, run[0]) && LegalRun(Next(s, run[0]), run[1..])
  }

  function After(s: State, run: seq<Step>): State
    requires LegalRun(s, run)
    decreases |run|
  {
    if run == [] then s else After(Next(s, run[0]), run[1..])
  }

  lemma {:induction false} RunAppend(s: State, run: seq<Step>, e: Step)
    requires LegalRun(s, run) && Enabled(After(s, run), e)
    ensures LegalRun(s, run + [e]) && After(s, run + [e]) == Next(After(s, run), e)
    decreases |run|
  {
    if run == [] {
      assert ([] + [e])[1..] == [];
    } else {
      RunAppend(Next(s, run[0]), run[1..], e);
      assert (run + [e])[1..] == run[1..] + [e];
    }
  }

  lemma {:induction false} AfterSplit(s: State, front: seq<Step>, e: Step)
    requires LegalRun(s, front + [e])
    ensures LegalRun(s, front) && Enabled(After(s, front), e)
    ensures After(s, front + [e]) == Next(After(s, front), e)
    decreases |front|
  {
    if front == [] {
      assert ([] + [e])[1..] == [];
    } else {
      assert (front + [e])[1..] == front[1..] + [e];
      AfterSplit(Next(s, front[0]), front[1..], e);
    }
  }

  // ------------------------------------------------------------ what happened

  /** The tasks handed to queueInLoop, by any thread, in lock order. */
  function Submitted(run: seq<Step>): seq<Task> {
    if run == [] then []
    else
      var e := run[|run| - 1];
      Submitted(run[..|run| - 1]) +
        if e.ForeignPush? then [e.task] else if e.OwnerPush? then [e.task] else []
  }

  /** The writes to the eventfd since it was last read. */
  function WritesSinceRead(run: seq<Step>): nat {
    if run == [] || run[|run| - 1].HandleWakeup? then 0
    else
      var e := run[|run| - 1];
      WritesSinceRead(run[..|run| - 1]) + if e.ForeignWakeup? || e.ForeignStopWakeup? || e.OwnerWakeup? then 1 else 0
  }

  /** Between its push and its wakeup(). */
  predicate InQueueInLoop(run: seq<Step>, t: Thread) {
    run != [] && (
      var e := run[|run| - 1];
      (e.ForeignPush? && e.t == t) || (e != ForeignWakeup(t) && InQueueInLoop(run[..|run| - 1], t)))
  }

  /** Between the two statements of stopLoop. */
  predicate InStopLoop(run: seq<Step>, t: Thread) {
    run != [] && (
      var e := run[|run| - 1];
      e == ForeignStop(t) || (e != ForeignStopWakeup(t) && InStopLoop(run[..|run| - 1], t)))
  }

  function Executed(run: seq<Step>): nat {
    if run == [] then 0 else Executed(run[..|run| - 1]) + if run[|run| - 1].RunNext? then 1 else 0
  }

  /** The state is what the steps made have left: every task handed in is queued,
      every write counted, every thread where it is. */
  lemma {:induction false} StateFromRun(run: seq<Step>)
    requires LegalRun(INIT, run)
    ensures var s := After(INIT, run);
            && s.queued == Submitted(run) && s.counter == WritesSinceRead(run) && |s.executed| == Executed(run)
            && (forall t :: t in s.pushed <==> InQueueInLoop(run, t))
            && (forall t :: t in s.stopping <==> InStopLoop(run, t))
  {
    if run != [] {
      var front, e := run[..|run| - 1], run[|run| - 1];
      assert run == front + [e];
      AfterSplit(INIT, front, e);
      StateFromRun(front);
    }
  }

  // ------------------------------------------------------------ invariants

  /** From the swap until poll returns. */
  predicate MustBeWoken(s: State) {
    s.phase.Running? || s.phase.Testing? || s.phase.Polling?
  }

  /** Tasks are waiting, nobody will wake the loop, and poll may sleep on them. */
  predicate LostWakeup(s: State) {
    MustBeWoken(s) && s.pending != [] && s.counter == 0 && s.pushed == {} && !s.ownerPushed
  }

  predicate InOrder(s: State) {
    && s.executed + s.rest + s.pending == s.queued
    && (!s.phase.Running? ==> s.rest == [])
    && s.executed + s.rest == s.before + s.batch
  }

  predicate WaitingIsAnnounced(s: State) {
    MustBeWoken(s) || OutsideLoop(s) ==>
      s.pending == [] || 0 < s.counter || s.pushed != {} || s.ownerPushed || s.early
  }

  predicate Flags(s: State) {
    && (s.phase == Dispatching(true) ==> 0 < s.counter)
    && (s.phase.Polling? && s.stop ==> 0 < s.counter || s.stopping != {})
    && (s.calling <==> s.phase.Swapping? || s.phase.Running?)
    && (s.ownerPushed ==> s.phase.Running?)
    && (s.early ==> s.pending != [] && (OutsideLoop(s) || s.phase.Testing? || s.phase.Polling?))
  }

  predicate Announced(s: State) {
    WaitingIsAnnounced(s) && Flags(s)
  }

  lemma StepKeepsFlags(s: State, e: Step)
    requires Enabled(s, e) && Flags(s)
    ensures Flags(Next(s, e))
  {}

  lemma StepKeepsAnnounced(s: State, e: Step)
    requires Enabled(s, e) && Announced(s)
    ensures Announced(Next(s, e))
  {
    StepKeepsFlags(s, e);
  }

  lemma StepKeepsOrder(s: State, e: Step)
    requires Enabled(s, e) && InOrder(s)
    ensures InOrder(Next(s, e))
  {
    match e {
      case ForeignPush(_, task) => assert Next(s, e).queued == s.queued + [task];
      case OwnerPush(task) => assert Next(s, e).queued == s.queued + [task];
      case Swap => assert s.executed + [] + s.pending == s.executed + s.pending + [];
      case RunNext =>
        assert s.rest == [s.rest[0]] + s.rest[1..];
        assert s.executed + s.rest == Next(s, e).executed + Next(s, e).rest;
      case EndPending => assert s.executed + [] == s.executed;
      case _ =>
    }
  }

  lemma {:induction false} RunKeeps(s: State, run: seq<Step>)
    requires LegalRun(s, run) && InOrder(s) && Announced(s)
    ensures InOrder(After(s, run)) && Announced(After(s, run))
    decreases |run|
  {
    if run != [] {
      StepKeepsOrder(s, run[0]);
      StepKeepsAnnounced(s, run[0]);
      RunKeeps(Next(s, run[0]), run[1..]);
    }
  }

  // -------------------------------------------------------------- theorems

  /** Exactly-once execution in lock order, over every interleaving: what has
      been executed, what is left of the batch and what is queued make up, in this
      order, every task any thread has handed to queueInLoop. */
  lemma ExecutedInLockOrder(run: seq<Step>)
    requires LegalRun(INIT, run)
    ensures var s := After(INIT, run);
            s.executed + s.rest + s.pending == Submitted(run) && |s.executed| == Executed(run)
  {
    RunKeeps(INIT, run);
    StateFromRun(run);
  }

  /** callingPendingunctors_ is set exactly inside doPendingFuncs_. */
  lemma CallingExactly(run: seq<Step>)
    requires LegalRun(INIT, run)
    ensures var s := After(INIT, run); s.calling <==> s.phase.Swapping? || s.phase.Running?
  {
    RunKeeps(INIT, run);
  }

  /** A wakeup is lost in exactly one situation: the loop thread queued something
      outside loop(), before its first call or between two calls, nobody else has
      written the eventfd, and no poll has returned since. In every other reachable
      state a waiting task is announced by the counter or by a thread about to
      write it. */
  lemma LostWakeupExactly(run: seq<Step>)
    requires LegalRun(INIT, run)
    ensures var s := After(INIT, run);
            LostWakeup(s) <==> s.early && !OutsideLoop(s) && s.counter == 0 && s.pushed == {}
  {
    RunKeeps(INIT, run);
  }

  ghost predicate NothingOutsideLoop(s: State, run: seq<Step>)
    requires LegalRun(s, run)
    decreases |run|
  {
    run != [] ==>
      && !(run[0].OwnerPush? && OutsideLoop(s))
      && NothingOutsideLoop(Next(s, run[0]), run[1..])
  }

  lemma {:induction false} NeverEarly(s: State, run: seq<Step>)
    requires LegalRun(s, run) && NothingOutsideLoop(s, run) && !s.early
    ensures !After(s, run).early
    decreases |run|
  {
    if run != [] {
      NeverEarly(Next(s, run[0]), run[1..]);
    }
  }

  /** So a program whose loop thread queues nothing outside loop() never loses one. */
  lemma NoLostWakeup(run: seq<Step>)
    requires LegalRun(INIT, run) && NothingOutsideLoop(INIT, run)
    ensures !LostWakeup(After(INIT, run))
  {
    NeverEarly(INIT, run);
    LostWakeupExactly(run);
  }

  /** And one that does can: the shortest such run. */
  lemma EarlyQueueIsNotAnnounced(task: Task)
    ensures var run := [OwnerPush(task), Start, Test];
            LegalRun(INIT, run) && LostWakeup(After(INIT, run))
  {
    var s1 := Next(INIT, OwnerPush(task));
    var s2 := Next(s1, Start);
    var run := [OwnerPush(task), Start, Test];
    assert run[1..] == [Start, Test] && run[1..][1..] == [Test];
    assert LegalRun(Next(s2, Test), []);
    assert LegalRun(s2, [Test]) && LegalRun(s1, [Start, Test]);
  }

  /** handleWakeup never finds the counter at zero. */
  lemma HandleWakeupNeverFails(run: seq<Step>)
    requires LegalRun(INIT, run)
    ensures After(INIT, run).phase == Dispatching(true) ==> 0 < After(INIT, run).counter
  {
    RunKeeps(INIT, run);
  }

  /** Somebody has called stopLoop since loop() was last called. */
  predicate StopSinceStart(run: seq<Step>) {
    run != [] && (
      run[|run| - 1].OwnerStop? || run[|run| - 1].ForeignStop? ||
      (!run[|run| - 1].Start? && StopSinceStart(run[..|run| - 1])))
  }

  /** The flag says whether a stop was requested since loop() was last called. */
  lemma {:induction false} StopFlag(run: seq<Step>)
    requires LegalRun(INIT, run)
    ensures var s := After(INIT, run); !s.phase.BeforeLoop? ==> (s.stop <==> StopSinceStart(run))
  {
    if run != [] {
      var front, e := run[..|run| - 1], run[|run| - 1];
      assert run == front + [e];
      AfterSplit(INIT, front, e);
      StopFlag(front);
    }
  }

  /** A stop request takes effect exactly when it is made after loop() was called:
      loop() leaves its while if and only if there has been one since, and while
      poll may sleep on one it is announced by the counter or by a thread about to
      write it. */
  lemma StopTakesEffectExactly(run: seq<Step>)
    requires LegalRun(INIT, run)
    ensures var s := After(INIT, run);
            && (s.phase.Testing? ==> (Next(s, Test).phase.Stopped? <==> StopSinceStart(run)))
            && (s.phase.Polling? && StopSinceStart(run) ==> 0 < s.counter || s.stopping != {})
  {
    RunKeeps(INIT, run);
    StopFlag(run);
  }

  /** One made before loop() is called is forgotten: the shortest such run. */
  lemma StopBeforeLoopIsForgotten(t: Thread)
    ensures var run := [ForeignStop(t), ForeignStopWakeup(t), Start, Test];
            LegalRun(INIT, run) && After(INIT, run).phase.Polling? && !After(INIT, run).stop
  {
    var s1 := Next(INIT, ForeignStop(t));
    var s2 := Next(s1, ForeignStopWakeup(t));
    var s3 := Next(s2, Start);
    Prefix(s3, Test, []);
    Prefix(s2, Start, [Test]);
    Prefix(s1, ForeignStopWakeup(t), [Start] + [Test]);
    Prefix(INIT, ForeignStop(t), [ForeignStopWakeup(t)] + ([Start] + [Test]));
    assert [ForeignStop(t), ForeignStopWakeup(t), Start, Test]
        == [ForeignStop(t)] + ([ForeignStopWakeup(t)] + ([Start] + [Test]));
  }

  /** At the end of every round exactly its batch has been executed. */
  lemma RoundIsComplete(run: seq<Step>)
    requires LegalRun(INIT, run)
    ensures var s := After(INIT, run); s.phase.Testing? ==> s.executed == s.before + s.batch
  {
    RunKeeps(INIT, run);
  }

  function Executions(run: seq<Step>): nat {
    if run == [] then 0 else (if run[0].RunNext? then 1 else 0) + Executions(run[1..])
  }

  /** One round runs exactly the tasks present at the swap, whatever those tasks
      queue while they run: from the swap to the end of the round there are as
      many executions as tasks swapped out, and they execute those, in order. */
  lemma {:induction false} RoundRunsTheSwappedTasks(s: State, run: seq<Step>)
    requires s.phase.Running? && LegalRun(s, run)
    requires forall i :: 0 <= i < |run| ==> !run[i].EndPending?
    ensures var s' := After(s, run);
            && s'.phase.Running? && Executions(run) + |s'.rest| == |s.rest|
            && s'.rest == s.rest[Executions(run)..]
            && s'.executed == s.executed + s.rest[..Executions(run)]
    decreases |run|
  {
    if run != [] {
      var s1 := Next(s, run[0]);
      StepInRound(s, run[0]);
      assert forall i :: 0 <= i < |run| - 1 ==> run[1..][i] == run[i + 1];
      RoundRunsTheSwappedTasks(s1, run[1..]);
      if run[0].RunNext? {
        var n := Executions(run[1..]);
        assert s.rest[1..][n..] == s.rest[n + 1..];
        assert s.rest[..n + 1] == [s.rest[0]] + s.rest[1..][..n];
      }
    }
  }

  lemma StepInRound(s: State, e: Step)
    requires s.phase.Running? && Enabled(s, e) && !e.EndPending?
    ensures Next(s, e).phase.Running?
    ensures if e.RunNext? then Next(s, e).rest == s.rest[1..] && Next(s, e).executed == s.executed + [s.rest[0]]
            else Next(s, e).rest == s.rest && Next(s, e).executed == s.executed
  {}

  // -------------------------------------------------------------- progress

  function RunAll(n: nat): seq<Step> {
    if n == 0 then [EndPending] else [RunNext] + RunAll(n - 1)
  }

  lemma {:induction false} RunAllExecutes(s: State)
    requires s.phase.Running? && !s.ownerPushed
    ensures var run := RunAll(|s.rest|);
            && LegalRun(s, run) && After(s, run).executed == s.executed + s.rest
            && After(s, run).phase.Testing? && After(s, run).stop == s.stop
    decreases |s.rest|
  {
    var run := RunAll(|s.rest|);
    if s.rest == [] {
      assert run[1..] == [];
      assert LegalRun(Next(s, EndPending), []);
    } else {
      RunAllExecutes(Next(s, RunNext));
      assert run[1..] == RunAll(|s.rest| - 1);
      assert s.executed + s.rest == s.executed + [s.rest[0]] + s.rest[1..];
    }
  }

  /** No task is stranded: whenever the loop sleeps in poll with tasks queued and
      every producer has finished, the wakeup is pending and the loop thread's
      own next round executes everything queued so far. */
  lemma NextRoundExecutesAll(history: seq<Step>) returns (round: seq<Step>)
    requires LegalRun(INIT, history) && NothingOutsideLoop(INIT, history)
    requires After(INIT, history).phase.Polling? && After(INIT, history).pending != []
    requires After(INIT, history).pushed == {}
    ensures round != [] && round[0] == PollReturn(true)
    ensures LegalRun(After(INIT, history), round)
    ensures After(After(INIT, history), round).executed == Submitted(history)
  {
    RunKeeps(INIT, history);
    NoLostWakeup(history);
    round := RoundFromPoll(After(INIT, history));
    ExecutedInLockOrder(history);
  }

  /** And no stop request: with every other thread finished, the loop's own next
      round brings it out of the while. */
  lemma NextRoundStops(history: seq<Step>) returns (round: seq<Step>)
    requires LegalRun(INIT, history) && StopSinceStart(history)
    requires After(INIT, history).phase.Polling? && After(INIT, history).stopping == {}
    ensures LegalRun(After(INIT, history), round + [Test])
    ensures After(After(INIT, history), round + [Test]).phase.Stopped?
  {
    RunKeeps(INIT, history);
    StopTakesEffectExactly(history);
    StopFlag(history);
    round := RoundFromPoll(After(INIT, history));
    RunAppend(After(INIT, history), round, Test);
  }

  lemma RoundFromPoll(s: State) returns (round: seq<Step>)
    requires s.phase.Polling? && !s.ownerPushed && 0 < s.counter
    ensures round != [] && round[0] == PollReturn(true)
    ensures LegalRun(s, round) && After(s, round).executed == s.executed + s.pending
    ensures After(s, round).phase.Testing? && After(s, round).stop == s.stop
  {
    hide After;
    var s1 := Next(s, PollReturn(true));
    var s2 := Next(s1, HandleWakeup);
    var s3 := Next(s2, BeginPending);
    var s4 := Next(s3, Swap);
    var run := RunAll(|s4.rest|);
    RunAllExecutes(s4);
    Prefix(s3, Swap, run);
    Prefix(s2, BeginPending, [Swap] + run);
    Prefix(s1, HandleWakeup, [BeginPending] + ([Swap] + run));
    Prefix(s, PollReturn(true), [HandleWakeup] + ([BeginPending] + ([Swap] + run)));
    round := [PollReturn(true)] + ([HandleWakeup] + ([BeginPending] + ([Swap] + run)));
  }

  lemma Prefix(s: State, e: Step, run: seq<Step>)
    requires Enabled(s, e) && LegalRun(Next(s, e), run)
    ensures LegalRun(s, [e] + run) && After(s, [e] + run) == After(Next(s, e), run)
  {
    assert ([e] + run)[1..] == run;
  }
}
