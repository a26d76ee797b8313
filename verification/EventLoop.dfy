/**
 EventLoop.cpp as the loop thread executes it, proved to make only steps of
 module LoopProtocol while other threads act between any two of its statements.
 */
module EventLoops {
  import opened LoopProtocol
  import opened Strings

  /** What a handler or a task does while it runs on the loop thread: other threads
      act, it queues a task (others acting between the push and the wakeup), or it
      stops the loop. */
  datatype Activity = Others(steps: seq<Step>) | Queue(task: Task, between: seq<Step>) | Stop

  /** One turn of loop(): whether poll reports the eventfd, what the handlers before
      and after the wakeup handler and what each task do, and what other threads do
      at the marked points. */
  datatype Turn = Turn(
    sleeping: seq<Step>, wake: bool, first: seq<Activity>, later: seq<Activity>, beforeSwap: seq<Step>,
    tasks: nat -> seq<Activity>, beforeTest: seq<Step>)

  /** What ::read and ::write on an eventfd transfer, and what a negative count
      becomes when it is compared with a size_t. */
  const WORD: int := 8

  function AsSize(n: int): int { if n < 0 then n + 0x1_0000_0000_0000_0000 else n }

  /** The loop thread's place in the protocol. */
  datatype Spot = Spot(phase: Phase, ownerPushed: bool, rest: seq<Task>, rounds: nat)

  // ------------------------------------------------- what the loop thread has to do

  predicate Own(e: Step) {
    !(e.ForeignPush? || e.ForeignWakeup? || e.ForeignStop? || e.ForeignStopWakeup?)
  }

  predicate Happens(s: State, e: Step) { !Own(e) && Enabled(s, e) }

  /** Of some statements of other threads, those that can happen in their turn. */
  function Happening(s: State, steps: seq<Step>): seq<Step>
    decreases |steps|
  {
    if steps == [] then []
    else if Happens(s, steps[0]) then [steps[0]] + Happening(Next(s, steps[0]), steps[1..])
    else [] + Happening(s, steps[1..])
  }

  /** The loop thread's own steps of a run. */
  function OwnSteps(run: seq<Step>): seq<Step> {
    if run == [] then []
    else OwnSteps(run[..|run| - 1]) + if Own(run[|run| - 1]) then [run[|run| - 1]] else []
  }

  lemma OwnStepsSnoc(run: seq<Step>, e: Step)
    ensures OwnSteps(run + [e]) == OwnSteps(run) + if Own(e) then [e] else []
  {
    assert (run + [e])[..|run|] == run;
  }

  /** A run has gone on from the own steps `before` to `after` by these. */
  predicate Made(before: seq<Step>, after: seq<Step>, more: seq<Step>) { after == before + more }

  lemma MadeNothing(own: seq<Step>)
    ensures Made(own, own, [])
  {}

  lemma MadeMore(a: seq<Step>, b: seq<Step>, c: seq<Step>, more: seq<Step>, more': seq<Step>)
    requires Made(a, b, more) && Made(b, c, more')
    ensures Made(a, c, more + more')
  {}

  /** The steps a piece of code asks for, inside doPendingFuncs_ or not. */
  function Asked(act: Activity, calling: bool): seq<Step> {
    match act
    case Others(_) => []
    case Queue(task, _) => [OwnerPush(task)] + if calling then [OwnerWakeup] else []
    case Stop => [OwnerStop]
  }

  function AllAsked(acts: seq<Activity>, calling: bool): seq<Step> {
    if acts == [] then [] else AllAsked(acts[..|acts| - 1], calling) + Asked(acts[|acts| - 1], calling)
  }

  lemma AskedSnoc(acts: seq<Activity>, k: nat, calling: bool)
    requires k < |acts|
    ensures AllAsked(acts[..k + 1], calling) == AllAsked(acts[..k], calling) + Asked(acts[k], calling)
  {
    assert acts[..k + 1][..k] == acts[..k];
  }

  /** No call is dropped or moved. */
  lemma {:induction false} EveryCallIsAsked(acts: seq<Activity>, k: nat, calling: bool)
    requires k < |acts| && !acts[k].Others?
    ensures var n := |AllAsked(acts[..k], calling)|;
            && n < |AllAsked(acts, calling)| && AllAsked(acts, calling)[..n] == AllAsked(acts[..k], calling)
            && AllAsked(acts, calling)[n] == if acts[k].Queue? then OwnerPush(acts[k].task) else OwnerStop
  {
    var front := acts[..|acts| - 1];
    if k < |front| {
      EveryCallIsAsked(front, k, calling);
      assert front[..k] == acts[..k];
    }
  }

  /** `n` functors, each with what it does. */
  function BatchSteps(tasks: nat -> seq<Activity>, n: nat): seq<Step> {
    if n == 0 then [] else BatchSteps(tasks, n - 1) + ([RunNext] + AllAsked(tasks(n - 1), true))
  }

  function HandlerSteps(wake: bool, first: seq<Activity>, later: seq<Activity>): seq<Step> {
    AllAsked(first, false) + (if wake then [Step.HandleWakeup] else []) + AllAsked(later, false)
  }

  function PendingSteps(tasks: nat -> seq<Activity>, n: nat): seq<Step> {
    [BeginPending, Swap] + BatchSteps(tasks, n) + [EndPending]
  }

  /** A turn in which poll reports the eventfd or not, and `n` functors are run. */
  function TurnSteps(turn: Turn, wake: bool, n: nat): seq<Step> {
    [Test, PollReturn(wake)] + HandlerSteps(wake, turn.first, turn.later) + PendingSteps(turn.tasks, n)
  }

  /** What the loop found in one turn: a report of the eventfd, and so many functors. */
  datatype Found = Found(wake: bool, n: nat)

  /** The turns found, one after the other. */
  function LoopSteps(turns: seq<Turn>, found: seq<Found>): seq<Step>
    requires |found| <= |turns|
  {
    if found == [] then []
    else
      var k := |found| - 1;
      LoopSteps(turns, found[..k]) + TurnSteps(turns[k], found[k].wake, found[k].n)
  }

  lemma TurnDone(turns: seq<Turn>, own: seq<Step>, own1: seq<Step>, own2: seq<Step>, found: seq<Found>, f: Found)
    requires |found| < |turns| && Made(own, own1, LoopSteps(turns, found))
    requires Made(own1, own2, TurnSteps(turns[|found|], f.wake, f.n))
    ensures Made(own, own2, LoopSteps(turns, found + [f]))
  {
    assert (found + [f])[..|found|] == found;
    hide Made, TurnSteps;
    MadeMore(own, own1, own2, LoopSteps(turns, found), TurnSteps(turns[|found|], f.wake, f.n));
  }

  class EventLoop {
    var pendingFuncs: seq<Task>
    var callingPendingFunctors: bool
    var stopLoop: bool

    // The kernel's counter behind wakeupFd_, the tasks executed so far, and the
    // other threads that are between two statements of queueInLoop or stopLoop.
    var eventfd: nat
    var executed: seq<Task>
    var pushing: set<Thread>
    var stopping: set<Thread>

    // The protocol's state, and the run that led to it.
    ghost var s: State
    ghost var run: seq<Step>

    ghost predicate Valid()
      reads this
    {
      && LegalRun(INIT, run) && After(INIT, run) == s
      && s.pending == pendingFuncs && s.calling == callingPendingFunctors && s.stop == stopLoop
      && s.counter == eventfd && s.executed == executed && s.pushed == pushing && s.stopping == stopping
    }

    /** Where the loop thread is; other threads' steps leave it alone. */
    ghost function Place(): Spot
      reads this
    {
      Spot(s.phase, s.ownerPushed, s.rest, s.rounds)
    }

    constructor ()
      ensures Valid() && s.phase == BeforeLoop && !s.ownerPushed
    {
      pendingFuncs, callingPendingFunctors, stopLoop, eventfd, executed := [], false, true, 0, [];
      pushing, stopping := {}, {};
      s, run := INIT, [];
    }

    /** The statement just executed was this step of the protocol. */
    ghost method Record(e: Step)
      requires LegalRun(INIT, run) && After(INIT, run) == s && Enabled(s, e)
      modifies this`s, this`run
      ensures LegalRun(INIT, run) && After(INIT, run) == s && s == Next(old(s), e) && run == old(run) + [e]
      ensures if Own(e) then Made(OwnSteps(old(run)), OwnSteps(run), [e]) else OwnSteps(run) == OwnSteps(old(run))
    {
      RunAppend(INIT, run, e);
      OwnStepsSnoc(run, e);
      s := Next(s, e);
      run := run + [e];
    }

    method Wakeup()
      modifies this`eventfd
      ensures eventfd == old(eventfd) + 1
    {
      eventfd := eventfd + 1;
    }

    /** One statement of another thread, if it can happen now: a task is pushed behind
        all others, the eventfd is written, or the loop is told to stop. */
    method Other(e: Step)
      requires Valid()
      modifies this
      ensures Valid() && Place() == old(Place()) && old(run) <= run
      ensures s == (if Happens(old(s), e) then Next(old(s), e) else old(s))
      ensures run == old(run) + if Happens(old(s), e) then [e] else []
      ensures Happens(old(s), e) && e.ForeignPush? ==> pendingFuncs == old(pendingFuncs) + [e.task]
      ensures Happens(old(s), e) && (e.ForeignWakeup? || e.ForeignStopWakeup?) ==> eventfd == old(eventfd) + 1
      ensures Happens(old(s), e) && e.ForeignStop? ==> stopLoop
      ensures old(eventfd) <= eventfd && executed == old(executed) && OwnSteps(run) == OwnSteps(old(run))
      ensures callingPendingFunctors == old(callingPendingFunctors) && old(pendingFuncs) <= pendingFuncs
    {
      hide LegalRun, After, OwnSteps;
      match e {
        case ForeignPush(t, task) =>
          if t !in pushing && t !in stopping {
            pendingFuncs, pushing := pendingFuncs + [task], pushing + {t};
            Record(e);
          }
        case ForeignWakeup(t) =>
          if t in pushing {
            pushing := pushing - {t};
            Wakeup();
            Record(e);
          }
        case ForeignStop(t) =>
          if t !in pushing && t !in stopping {
            stopLoop, stopping := true, stopping + {t};
            Record(e);
          }
        case ForeignStopWakeup(t) =>
          if t in stopping {
            stopping := stopping - {t};
            Wakeup();
            Record(e);
          }
        case _ =>
      }
    }

    /** Other threads: of these statements exactly those happen that can. */
    method Interfere(steps: seq<Step>)
      requires Valid()
      modifies this
      ensures Valid() && Place() == old(Place()) && run == old(run) + Happening(old(s), steps)
      ensures old(eventfd) <= eventfd && executed == old(executed) && OwnSteps(run) == OwnSteps(old(run))
      ensures callingPendingFunctors == old(callingPendingFunctors) && old(pendingFuncs) <= pendingFuncs
    {
      hide OwnSteps, LegalRun, After, Next, Enabled;
      assert steps[0..] == steps;
      for i := 0 to |steps|
        invariant Valid() && Place() == old(Place())
        invariant run + Happening(s, steps[i..]) == old(run) + Happening(old(s), steps)
        invariant old(eventfd) <= eventfd && executed == old(executed) && OwnSteps(run) == OwnSteps(old(run))
        invariant callingPendingFunctors == old(callingPendingFunctors) && old(pendingFuncs) <= pendingFuncs
      {
        ghost var was, run0 := s, run;
        Other(steps[i]);
        assert steps[i..][1..] == steps[i + 1..];
        Associative(run0, if Happens(was, steps[i]) then [steps[i]] else [], Happening(s, steps[i + 1..]));
      }
    }

    /** queueInLoop on the loop thread: the task is pushed, and inside
        doPendingFuncs_ the eventfd is written. */
    method QueueInLoop(task: Task, between: seq<Step>)
      requires Valid() && OwnerActs(s) && (callingPendingFunctors <==> s.phase.Running?)
      modifies this
      ensures Valid() && Place() == old(Place()) && old(run) + [OwnerPush(task)] <= run
      ensures Made(OwnSteps(old(run)), OwnSteps(run), Asked(Queue(task, between), callingPendingFunctors))
      ensures old(pendingFuncs) + [task] <= pendingFuncs && executed == old(executed)
      ensures callingPendingFunctors == old(callingPendingFunctors) && old(eventfd) <= eventfd
      ensures callingPendingFunctors ==> old(eventfd) < eventfd && run[|run| - 1] == OwnerWakeup
    {
      hide LegalRun, After, OwnSteps, Made;
      ghost var own := OwnSteps(run);
      pendingFuncs := pendingFuncs + [task];
      Record(OwnerPush(task));
      Interfere(between);
      assert [OwnerPush(task)] + [] == [OwnerPush(task)];
      if callingPendingFunctors {
        Wakeup();
        ghost var own1 := OwnSteps(run);
        Record(OwnerWakeup);
        MadeMore(own, own1, OwnSteps(run), [OwnerPush(task)], [OwnerWakeup]);
      }
    }

    method RunOneCall(act: Activity)
      requires Valid() && OwnerActs(s) && (callingPendingFunctors <==> s.phase.Running?)
      modifies this
      ensures Valid() && Place() == old(Place()) && old(run) <= run
      ensures Made(OwnSteps(old(run)), OwnSteps(run), Asked(act, callingPendingFunctors))
      ensures old(eventfd) <= eventfd && executed == old(executed)
      ensures callingPendingFunctors == old(callingPendingFunctors) && old(pendingFuncs) <= pendingFuncs
    {
      MadeNothing(OwnSteps(run));
      hide LegalRun, After, OwnSteps, Made;
      match act
      case Others(steps) => Interfere(steps);
      case Queue(task, between) => QueueInLoop(task, between);
      case Stop =>
        stopLoop := true;
        Record(OwnerStop);
    }

    /** The body of a handler or of a task: every call is made, in order. */
    method Run(acts: seq<Activity>)
      requires Valid() && OwnerActs(s) && (callingPendingFunctors <==> s.phase.Running?)
      modifies this
      ensures Valid() && Place() == old(Place()) && old(run) <= run
      ensures Made(OwnSteps(old(run)), OwnSteps(run), AllAsked(acts, callingPendingFunctors))
      ensures old(eventfd) <= eventfd && executed == old(executed)
      ensures callingPendingFunctors == old(callingPendingFunctors) && old(pendingFuncs) <= pendingFuncs
    {
      assert acts[..0] == [] && AllAsked([], callingPendingFunctors) == [];
      MadeNothing(OwnSteps(run));
      hide LegalRun, After, OwnSteps, AllAsked, Made;
      ghost var own := OwnSteps(run);
      for i := 0 to |acts|
        invariant Valid() && Place() == old(Place()) && old(run) <= run
        invariant Made(OwnSteps(old(run)), OwnSteps(run), AllAsked(acts[..i], callingPendingFunctors))
        invariant old(eventfd) <= eventfd && executed == old(executed)
        invariant callingPendingFunctors == old(callingPendingFunctors) && old(pendingFuncs) <= pendingFuncs
      {
        AskedSnoc(acts, i, callingPendingFunctors);
        ghost var own1 := OwnSteps(run);
        RunOneCall(acts[i]);
        MadeMore(own, own1, OwnSteps(run), AllAsked(acts[..i], callingPendingFunctors),
                 Asked(acts[i], callingPendingFunctors));
      }
      assert acts[..|acts|] == acts;
    }

    /** handleWakeup. The result is false where the code exits the process: never,
        since the read transfers a whole word, and would not exit even on failure. */
    method HandleWakeup() returns (ok: bool)
      requires Valid() && !s.ownerPushed && s.phase == Dispatching(true)
      modifies this
      ensures ok && 0 < old(eventfd) && eventfd == 0
      ensures Valid() && Place() == Spot(Dispatching(false), false, old(s).rest, old(s).rounds)
      ensures callingPendingFunctors == old(callingPendingFunctors) && old(run) <= run
      ensures Made(OwnSteps(old(run)), OwnSteps(run), [Step.HandleWakeup]) && executed == old(executed)
    {
      HandleWakeupNeverFails(run);
      hide LegalRun, After, OwnSteps;
      var n := if eventfd == 0 then -1 else WORD;
      eventfd := 0;
      ok := !(AsSize(n) < WORD);
      if !ok {
        return;
      }
      Record(Step.HandleWakeup);
    }

    method RunOne(func: Task, acts: seq<Activity>)
      requires Valid() && !s.ownerPushed && s.phase == Running && callingPendingFunctors
      requires s.rest != [] && s.rest[0] == func
      modifies this
      ensures Valid() && Place() == Spot(Running, false, old(s).rest[1..], old(s).rounds) && callingPendingFunctors
      ensures executed == old(executed) + [func] && old(run) <= run
      ensures Made(OwnSteps(old(run)), OwnSteps(run), [RunNext] + AllAsked(acts, true))
    {
      hide LegalRun, After, OwnSteps, AllAsked, Made;
      ghost var own := OwnSteps(run);
      executed := executed + [func];
      Record(RunNext);
      ghost var own1 := OwnSteps(run);
      Run(acts);
      MadeMore(own, own1, OwnSteps(run), [RunNext], AllAsked(acts, true));
    }

    /** for(auto &func: funcs) func(); */
    method RunBatch(funcs: seq<Task>, tasks: nat -> seq<Activity>)
      requires Valid() && !s.ownerPushed && s.phase == Running && s.rest == funcs && callingPendingFunctors
      modifies this
      ensures Valid() && Place() == Spot(Running, false, [], old(s).rounds) && callingPendingFunctors
      ensures executed == old(executed) + funcs && old(run) <= run
      ensures Made(OwnSteps(old(run)), OwnSteps(run), BatchSteps(tasks, |funcs|))
    {
      MadeNothing(OwnSteps(run));
      hide LegalRun, After, OwnSteps, AllAsked, Made;
      ghost var own := OwnSteps(run);
      for i := 0 to |funcs|
        invariant Valid() && Place() == Spot(Running, false, funcs[i..], old(s).rounds) && callingPendingFunctors
        invariant executed == old(executed) + funcs[..i] && old(run) <= run
        invariant Made(OwnSteps(old(run)), OwnSteps(run), BatchSteps(tasks, i))
      {
        ghost var own1 := OwnSteps(run);
        RunOne(funcs[i], tasks(i));
        MadeMore(own, own1, OwnSteps(run), BatchSteps(tasks, i), [RunNext] + AllAsked(tasks(i), true));
        assert funcs[i..][1..] == funcs[i + 1..] && funcs[..i] + [funcs[i]] == funcs[..i + 1];
      }
      assert funcs[..|funcs|] == funcs;
    }

    /** The flag, and the swap under the mutex. */
    method SwapOut(beforeSwap: seq<Step>) returns (funcs: seq<Task>)
      requires Valid() && !s.ownerPushed && s.phase == Dispatching(false)
      modifies this
      ensures Valid() && Place() == Spot(Running, false, funcs, old(s).rounds) && callingPendingFunctors
      ensures old(pendingFuncs) <= funcs && executed == old(executed) && old(run) <= run
      ensures Made(OwnSteps(old(run)), OwnSteps(run), [BeginPending, Swap])
    {
      hide LegalRun, After, OwnSteps, Made;
      ghost var own := OwnSteps(run);
      callingPendingFunctors := true;
      Record(BeginPending);
      Interfere(beforeSwap);
      funcs, pendingFuncs := pendingFuncs, [];
      ghost var own1 := OwnSteps(run);
      Record(Swap);
      MadeMore(own, own1, OwnSteps(run), [BeginPending], [Swap]);
      assert [BeginPending] + [Swap] == [BeginPending, Swap];
    }

    /** doPendingFuncs_: exactly the functors present at the swap are executed, each
        once and in order, whatever they queue meanwhile. */
    method DoPendingFuncs(beforeSwap: seq<Step>, tasks: nat -> seq<Activity>) returns (funcs: seq<Task>)
      requires Valid() && !s.ownerPushed && s.phase == Dispatching(false)
      modifies this
      ensures Valid() && Place() == Spot(Testing, false, [], old(s).rounds + 1) && !callingPendingFunctors
      ensures old(pendingFuncs) <= funcs && executed == old(executed) + funcs && old(run) <= run
      ensures Made(OwnSteps(old(run)), OwnSteps(run), PendingSteps(tasks, |funcs|))
    {
      hide LegalRun, After, OwnSteps, BatchSteps, Made;
      ghost var own := OwnSteps(run);
      funcs := SwapOut(beforeSwap);
      ghost var own1 := OwnSteps(run);
      RunBatch(funcs, tasks);
      ghost var own2 := OwnSteps(run);
      MadeMore(own, own1, own2, [BeginPending, Swap], BatchSteps(tasks, |funcs|));
      callingPendingFunctors := false;
      Record(EndPending);
      MadeMore(own, own2, OwnSteps(run), [BeginPending, Swap] + BatchSteps(tasks, |funcs|), [EndPending]);
    }

    /** The handlers poll has collected, the wakeup handler somewhere among them. */
    method Dispatch(wake: bool, first: seq<Activity>, later: seq<Activity>)
      requires Valid() && Place() == Spot(Dispatching(wake), false, [], s.rounds) && !callingPendingFunctors
      modifies this
      ensures Valid() && Place() == Spot(Dispatching(false), false, [], old(s).rounds) && !callingPendingFunctors
      ensures old(run) <= run && executed == old(executed)
      ensures Made(OwnSteps(old(run)), OwnSteps(run), HandlerSteps(wake, first, later))
    {
      hide LegalRun, After, OwnSteps, AllAsked, Made;
      ghost var own := OwnSteps(run);
      Run(first);
      ghost var own1, steps := OwnSteps(run), AllAsked(first, false);
      if wake {
        var ok := HandleWakeup();
        MadeMore(own, own1, OwnSteps(run), steps, [Step.HandleWakeup]);
        steps := steps + [Step.HandleWakeup];
      }
      ghost var own2 := OwnSteps(run);
      Run(later);
      MadeMore(own, own2, OwnSteps(run), steps, AllAsked(later, false));
      assert AllAsked(first, false) + [] == AllAsked(first, false);
    }

    /** One turn of the while, which ends the loop if and only if its test fails, and
        otherwise makes exactly the steps of a turn. */
    method OneTurn(turn: Turn) returns (stopped: bool, ghost found: Found)
      requires Valid() && Place() == Spot(Testing, false, [], s.rounds) && !callingPendingFunctors
      modifies this
      ensures Valid() && old(run) <= run && !callingPendingFunctors
      ensures stopped ==> Place() == Spot(Stopped, false, [], old(s).rounds) && StopSinceStart(run)
      ensures !stopped ==> Place() == Spot(Testing, false, [], old(s).rounds + 1)
      ensures stopped ==> Made(OwnSteps(old(run)), OwnSteps(run), [Test])
      ensures !stopped ==> Made(OwnSteps(old(run)), OwnSteps(run), TurnSteps(turn, found.wake, found.n))
    {
      hide LegalRun, After, OwnSteps, HandlerSteps, PendingSteps, Made, StopSinceStart;
      ghost var own := OwnSteps(run);
      found := Found(false, 0);
      Interfere(turn.beforeTest);
      stopped := stopLoop;
      Record(Test);
      if stopped {
        StopFlag(run);
        return;
      }
      ghost var own1 := OwnSteps(run);
      Interfere(turn.sleeping);
      var wake := turn.wake && 0 < eventfd;
      Record(PollReturn(wake));
      ghost var own2 := OwnSteps(run);
      MadeMore(own, own1, own2, [Test], [PollReturn(wake)]);
      assert [Test] + [PollReturn(wake)] == [Test, PollReturn(wake)];
      Dispatch(wake, turn.first, turn.later);
      ghost var own3 := OwnSteps(run);
      ghost var handled := HandlerSteps(wake, turn.first, turn.later);
      MadeMore(own, own2, own3, [Test, PollReturn(wake)], handled);
      var funcs := DoPendingFuncs(turn.beforeSwap, turn.tasks);
      found := Found(wake, |funcs|);
      MadeMore(own, own3, OwnSteps(run), [Test, PollReturn(wake)] + handled, PendingSteps(turn.tasks, |funcs|));
    }

    /** The while of loop(). */
    method Turns(turns: seq<Turn>) returns (finished: bool, ghost found: seq<Found>)
      requires Valid() && Place() == Spot(Testing, false, [], s.rounds) && !callingPendingFunctors
      modifies this
      ensures Valid() && old(run) <= run && s.rounds == old(s).rounds + |found|
      ensures finished ==> s.phase.Stopped? && |found| < |turns| && StopSinceStart(run)
      ensures !finished ==> s.phase.Testing? && |found| == |turns|
      ensures finished ==> Made(OwnSteps(old(run)), OwnSteps(run), LoopSteps(turns, found) + [Test])
      ensures !finished ==> Made(OwnSteps(old(run)), OwnSteps(run), LoopSteps(turns, found))
    {
      MadeNothing(OwnSteps(run));
      assert LoopSteps(turns, []) == [];
      hide LegalRun, After, OwnSteps, LoopSteps, TurnSteps, Made, StopSinceStart;
      ghost var own := OwnSteps(run);
      finished, found := false, [];
      for k := 0 to |turns|
        invariant Valid() && Place() == Spot(Testing, false, [], old(s).rounds + k) && !callingPendingFunctors
        invariant old(run) <= run && !finished && |found| == k
        invariant Made(own, OwnSteps(run), LoopSteps(turns, found))
      {
        ghost var f, own1 := Found(false, 0), OwnSteps(run);
        finished, f := OneTurn(turns[k]);
        if finished {
          MadeMore(own, own1, OwnSteps(run), LoopSteps(turns, found), [Test]);
          return;
        }
        TurnDone(turns, own, own1, OwnSteps(run), found, f);
        found := found + [f];
      }
    }

    /** loop(), observed for at most as many turns as given: it returns only from
        its test of the flag, and otherwise has completed all the turns. `found` tells
        of each turn what poll reported and how many functors were queued. */
    method Loop(turns: seq<Turn>) returns (finished: bool, ghost found: seq<Found>)
      requires Valid() && OutsideLoop(s) && !s.ownerPushed && s.rest == [] && !callingPendingFunctors
      modifies this
      ensures Valid() && old(run) + [Start] <= run && |found| <= |turns| && s.rounds == old(s).rounds + |found|
      ensures finished ==> s.phase.Stopped? && |found| < |turns| && StopSinceStart(run)
      ensures !finished ==> s.phase.Testing? && |found| == |turns|
      ensures finished ==> Made(OwnSteps(old(run)), OwnSteps(run), [Start] + (LoopSteps(turns, found) + [Test]))
      ensures !finished ==> Made(OwnSteps(old(run)), OwnSteps(run), [Start] + LoopSteps(turns, found))
    {
      hide LegalRun, After, OwnSteps, LoopSteps, Made, StopSinceStart;
      stopLoop := false;
      ghost var own := OwnSteps(run);
      Record(Start);
      ghost var own1 := OwnSteps(run);
      finished, found := Turns(turns);
      ghost var steps := LoopSteps(turns, found);
      MadeMore(own, own1, OwnSteps(run), [Start], if finished then steps + [Test] else steps);
    }
  }
}
