/**
 When a cancellation is final: exactly when no continuation of the run, however
 late, calls the timer's callback any more.
 */
module TimerCancels {
  import opened TimerSchedule

  // ------------------------------------------------- lists of functors

  /** An insertion of the timer with no cancellation behind it. */
  ghost predicate Left(fs: seq<Functor>, id: TimerId) {
    exists i :: 0 <= i < |fs| && fs[i].Added? && fs[i].id == id && Cancelled(id) !in fs[i..]
  }

  /** The timer is scheduled once the functors have run. */
  ghost predicate LeftAfter(s: Schedule, fs: seq<Functor>, id: TimerId) {
    (id in s && Cancelled(id) !in fs) || Left(fs, id)
  }

  lemma LeftBehind(f: Functor, fs: seq<Functor>, id: TimerId)
    ensures Left([f] + fs, id) <==> (f.Added? && f.id == id && Cancelled(id) !in fs) || Left(fs, id)
  {
    var all := [f] + fs;
    assert all[0..] == all && forall i :: 0 <= i < |fs| ==> all[i + 1..] == fs[i..];
    if Left(all, id) {
      var i :| 0 <= i < |all| && all[i].Added? && all[i].id == id && Cancelled(id) !in all[i..];
      if 0 < i {
        assert fs[i - 1] == all[i] && fs[i - 1..] == all[i..];
      } else {
        assert forall x :: x in fs ==> x in all;
      }
    }
    if Left(fs, id) {
      var i :| 0 <= i < |fs| && fs[i].Added? && fs[i].id == id && Cancelled(id) !in fs[i..];
      assert all[i + 1] == fs[i] && all[i + 1..] == fs[i..];
    }
    if f.Added? && f.id == id && Cancelled(id) !in fs {
      assert Cancelled(id) !in all[0..];
    }
  }

  /** Running the oldest functor first makes no difference. */
  lemma LeftAfterFirst(w: World, fs: seq<Functor>, id: TimerId)
    requires fs != []
    ensures LeftAfter(w.sched, fs, id) <==> LeftAfter(Do(w, fs[0]).sched, fs[1..], id)
  {
    assert fs == [fs[0]] + fs[1..];
    LeftBehind(fs[0], fs[1..], id);
  }

  /** A functor that does not insert the timer leaves nothing new. */
  lemma LeftBefore(fs: seq<Functor>, f: Functor, id: TimerId)
    requires !(f.Added? && f.id == id)
    ensures Left(fs + [f], id) ==> Left(fs, id)
  {
    var all := fs + [f];
    if Left(all, id) {
      var i :| 0 <= i < |all| && all[i].Added? && all[i].id == id && Cancelled(id) !in all[i..];
      assert all[i..] == fs[i..] + [f];
      assert forall x :: x in fs[i..] ==> x in all[i..];
    }
  }

  lemma CancelledLast(fs: seq<Functor>, id: TimerId)
    ensures !Left(fs + [Cancelled(id)], id)
  {
    var all := fs + [Cancelled(id)];
    assert forall i :: 0 <= i < |all| ==> all[i..][|all| - 1 - i] == Cancelled(id);
  }

  // ------------------------------------------------- what can still run

  /** The timer is scheduled when handle_read may next be called, or when it may be
      called after that. A round separates two calls, so while handlers run after
      handle_read, every functor queued so far comes first. */
  ghost predicate CanRun(w: World, id: TimerId) {
    match w.round
    case Running(rest) => LeftAfter(w.sched, rest, id) || Left(w.pending, id)
    case Dispatching(fired) =>
      if fired then LeftAfter(w.sched, w.pending, id) else id in w.sched || Left(w.pending, id)
  }

  lemma EventKeepsLeft(w: World, e: Event, id: TimerId)
    requires Fresh(w, e) && id.sequence in w.issued
    ensures Left(Do(w, e).pending, id) ==> Left(w.pending, id)
    ensures LeftAfter(Do(w, e).sched, Do(w, e).pending, id) ==> LeftAfter(w.sched, w.pending, id)
  {
    if e.PostedAdd? {
      LeftBefore(w.pending, Added(e.id, e.timer), id);
    } else if e.PostedCancel? {
      LeftBefore(w.pending, Cancelled(e.id), id);
    }
    assert forall x :: x in w.pending ==> x in Do(w, e).pending;
  }

  lemma {:induction false} TraceKeepsLeft(w: World, trace: seq<Event>, id: TimerId)
    requires AllFresh(w, trace) && id.sequence in w.issued
    ensures Left(DoAll(w, trace).pending, id) ==> Left(w.pending, id)
  {
    if trace != [] {
      var front := trace[..|trace| - 1];
      TraceKeepsLeft(w, front, id);
      TraceEffect(w, front, id);
      EventKeepsLeft(DoAll(w, front), trace[|trace| - 1], id);
    }
  }

  lemma ActKeeps(w: World, e: Event, id: TimerId)
    requires Legal(w, Act(e)) && id.sequence in w.issued && !CanRun(w, id)
    ensures !CanRun(Do(w, e), id)
  {
    EventKeepsLeft(w, e, id);
    hide Left;
  }

  lemma BatchKeeps(w: World, now: int, trace: seq<Event>, id: TimerId)
    requires Legal(w, Batch(now, trace)) && id.sequence in w.issued && !CanRun(w, id)
    ensures !CanRun(Next(w, Batch(now, trace)), id)
  {
    var w1 := w.(sched := w.sched - Expired(w.sched, now));
    TraceKeepsLeft(w1, trace, id);
    TraceEffect(w1, trace, id);
    hide Left;
  }

  lemma StepKeeps(w: World, step: Step, id: TimerId)
    requires Legal(w, step) && id.sequence in w.issued && !CanRun(w, id)
    ensures id.sequence in Next(w, step).issued && !CanRun(Next(w, step), id) && !Runs(step, id)
  {
    match step
    case Act(e) => ActKeeps(w, e, id);
    case Batch(now, trace) =>
      BatchKeeps(w, now, trace, id);
      TraceEffect(w.(sched := w.sched - Expired(w.sched, now)), trace, id);
    case Pop => LeftAfterFirst(w, w.round.rest, id);
    case _ =>
  }

  lemma {:induction false} NeverAgain(w: World, steps: seq<Step>, id: TimerId)
    requires LegalRun(w, steps) && id.sequence in w.issued && !CanRun(w, id)
    ensures forall i :: 0 <= i < |steps| ==> !Runs(steps[i], id)
    decreases |steps|
  {
    hide CanRun, Legal, Next, Runs;
    if steps != [] {
      StepKeeps(w, steps[0], id);
      NeverAgain(Next(w, steps[0]), steps[1..], id);
      assert forall i :: 1 <= i < |steps| ==> steps[i] == steps[1..][i - 1];
    }
  }

  // ------------------------------------------------- a run that does

  lemma {:induction false} Latest(s: Schedule, ids: set<TimerId>) returns (last: TimerId)
    requires ids != {} && ids <= s.Keys
    ensures last in ids && forall id :: id in ids && id != last ==> Before(s, id, last)
  {
    var id :| id in ids;
    var rest := ids - {id};
    if rest == {} {
      last := id;
      assert forall x :: x in ids && x != id ==> x in rest;
    } else {
      var other := Latest(s, rest);
      assert forall x :: x in ids && x != id ==> x in rest;
      last := if Before(s, id, other) then other else id;
    }
  }

  /** A trace that runs every member of a set in due order and does nothing else. */
  lemma {:induction false} RunAll(s: Schedule, ids: set<TimerId>) returns (trace: seq<Event>)
    requires ids <= s.Keys
    ensures forall e :: e in trace ==> e.Ran?
    ensures forall id :: Ran(id) in trace <==> id in ids
    ensures InDueOrder(s, RunsOf(trace))
  {
    if ids == {} {
      trace := [];
    } else {
      var last := Latest(s, ids);
      var rest := RunAll(s, ids - {last});
      trace := rest + [Ran(last)];
      assert trace[..|rest|] == rest;
      forall i | 0 <= i < |RunsOf(rest)|
        ensures RunsOf(rest)[i] in ids - {last}
      {
        RanIsInRuns(rest, RunsOf(rest)[i]);
      }
    }
  }

  lemma {:induction false} RunsAreFresh(w: World, trace: seq<Event>)
    requires forall e :: e in trace ==> e.Ran?
    ensures AllFresh(w, trace)
  {
    if trace != [] {
      assert trace[|trace| - 1] in trace;
      RunsAreFresh(w, trace[..|trace| - 1]);
    }
  }

  /** One more step in front; only the last step is a batch, and it runs the timer. */
  ghost predicate RunsLast(w: World, steps: seq<Step>, id: TimerId, t: int) {
    && LegalRun(w, steps) && steps != [] && Runs(steps[|steps| - 1], id) && t <= steps[|steps| - 1].now
    && forall i :: 0 <= i < |steps| - 1 ==> !steps[i].Batch?
  }

  lemma OneBefore(w: World, step: Step, steps: seq<Step>, id: TimerId, t: int)
    requires Legal(w, step) && !step.Batch? && RunsLast(Next(w, step), steps, id, t)
    ensures RunsLast(w, [step] + steps, id, t)
  {
    var all := [step] + steps;
    assert all[1..] == steps && forall i :: 1 <= i < |all| ==> all[i] == steps[i - 1];
  }

  /** handle_read at the timer's expiration, or later. */
  lemma BatchRuns(w: World, id: TimerId, t: int) returns (steps: seq<Step>)
    requires w.round == Dispatching(false) && id in w.sched
    ensures RunsLast(w, steps, id, t)
  {
    hide AllFresh, DoAll, InDueOrder;
    var now := if t < w.sched[id].expiration then w.sched[id].expiration else t;
    var due := Expired(w.sched, now);
    var trace := RunAll(w.sched, due);
    RunsAreFresh(w.(sched := w.sched - due), trace);
    assert trace == [] || trace[0] in trace;
    steps := [Batch(now, trace)];
    assert LegalRun(Next(w, steps[0]), steps[1..]);
  }

  lemma {:induction false} RoundRuns(w: World, id: TimerId, t: int) returns (steps: seq<Step>)
    requires w.round.Running? && LeftAfter(w.sched, w.round.rest, id)
    ensures RunsLast(w, steps, id, t)
    decreases |w.round.rest|
  {
    hide RunsLast;
    var step := if w.round.rest == [] then EndRound else Pop;
    var rest: seq<Step>;
    if w.round.rest == [] {
      rest := BatchRuns(Next(w, step), id, t);
    } else {
      LeftAfterFirst(w, w.round.rest, id);
      rest := RoundRuns(Next(w, step), id, t);
    }
    OneBefore(w, step, rest, id, t);
    steps := [step] + rest;
  }

  /** A round to the end, and the next one. */
  lemma {:induction false} NextRoundRuns(w: World, id: TimerId, t: int) returns (steps: seq<Step>)
    requires Left(w.pending, id)
    ensures RunsLast(w, steps, id, t)
    decreases w.round.Running?, |Rest(w)|
  {
    hide RunsLast, Left;
    var step := if w.round.Dispatching? then Swap else if w.round.rest == [] then EndRound else Pop;
    var w' := Next(w, step);
    var rest: seq<Step>;
    if step.Swap? {
      rest := RoundRuns(w', id, t);
    } else {
      rest := NextRoundRuns(w', id, t);
    }
    OneBefore(w, step, rest, id, t);
    steps := [step] + rest;
  }

  lemma CanRunRuns(w: World, id: TimerId, t: int) returns (steps: seq<Step>)
    requires CanRun(w, id)
    ensures RunsLast(w, steps, id, t)
  {
    hide RunsLast, Left;
    if w.round.Running? && LeftAfter(w.sched, w.round.rest, id) {
      steps := RoundRuns(w, id, t);
    } else if w.round == Dispatching(false) && id in w.sched {
      steps := BatchRuns(w, id, t);
    } else if w.round == Dispatching(true) {
      var rest := RoundRuns(Next(w, Swap), id, t);
      OneBefore(w, Swap, rest, id, t);
      steps := [Swap] + rest;
    } else {
      steps := NextRoundRuns(w, id, t);
    }
  }

  // ------------------------------------------------- theorems

  /** From time `t` on no legal continuation runs the timer. */
  ghost predicate NeverRuns(w: World, id: TimerId, t: int) {
    forall steps :: LegalRun(w, steps) && InTime(t, steps) ==>
      forall i :: 0 <= i < |steps| ==> !Runs(steps[i], id)
  }

  lemma NeverRunsExactly(w: World, id: TimerId, t: int)
    requires id.sequence in w.issued
    ensures NeverRuns(w, id, t) <==> !CanRun(w, id)
  {
    hide CanRun, Legal, Next;
    if CanRun(w, id) {
      var steps := CanRunRuns(w, id, t);
      assert InTime(t, steps);
    } else {
      forall steps | LegalRun(w, steps)
        ensures forall i :: 0 <= i < |steps| ==> !Runs(steps[i], id)
      {
        NeverAgain(w, steps, id);
      }
    }
  }

  /** A cancellation on the loop thread between two batches is final exactly when
      every insertion of the timer that is still queued, in the round being run or
      behind it, has a cancellation queued behind it in the same round. */
  lemma CancelIsFinal(w: World, id: TimerId, t: int)
    requires id.sequence in w.issued
    ensures NeverRuns(Do(w, Cancelled(id)), id, t) <==> !Left(Rest(w), id) && !Left(w.pending, id)
  {
    hide NeverRuns, Left;
    NeverRunsExactly(Do(w, Cancelled(id)), id, t);
    NoneLeft(id);
  }

  lemma NoneLeft(id: TimerId)
    ensures !Left([], id)
  {}

  /** A cancellation queued by another thread is final exactly when the timer cannot
      be scheduled at the next call of handle_read: when none can come before the
      functor, or the functors of the round being run leave it out. */
  lemma QueuedCancelIsFinal(w: World, id: TimerId, t: int)
    requires id.sequence in w.issued
    ensures NeverRuns(Do(w, PostedCancel(id)), id, t) <==>
              match w.round
              case Running(rest) => !LeftAfter(w.sched, rest, id)
              case Dispatching(fired) => fired || id !in w.sched
  {
    var w' := Do(w, PostedCancel(id));
    NeverRunsExactly(w', id, t);
    CancelledLast(w.pending, id);
    assert w'.pending[|w.pending|] == Cancelled(id);
    hide NeverRuns, Left;
  }

  /** What the callbacks before position `i` of a batch have left behind. */
  ghost function During(w: World, now: int, trace: seq<Event>, i: nat): World
    requires i <= |trace|
  {
    DoAll(w.(sched := w.sched - Expired(w.sched, now)), trace[..i])
  }

  /** However the batch goes on after the first `front` events, neither it nor any
      continuation runs the timer. */
  ghost predicate NeverRunsAfter(w: World, now: int, front: seq<Event>, id: TimerId) {
    forall more :: Legal(w, Batch(now, front + more)) ==>
      Ran(id) !in more && NeverRuns(Next(w, Batch(now, front + more)), id, now)
  }

  /** The exact condition for a cancellation by a callback, at position `i` of a
      batch: every queued insertion has a cancellation behind it, and the timer is
      not a member of the batch whose turn is still to come. Such a member runs all
      the same, because the loop over the batch never looks at canceling_timers_. */
  lemma CancelInBatchIsFinal(w: World, now: int, trace: seq<Event>, i: nat, id: TimerId)
    requires Legal(w, Batch(now, trace))
    requires i < |trace| && trace[i] == Cancelled(id) && id.sequence in During(w, now, trace, i).issued
    ensures NeverRunsAfter(w, now, trace[..i + 1], id) <==>
            && !Left(During(w, now, trace, i).pending, id)
            && !(id in Expired(w.sched, now) && Ran(id) !in trace[..i])
  {
    hide Legal, Next, NeverRuns, During, Left, Expired;
    var front, mid := trace[..i + 1], During(w, now, trace, i);
    forall more | Legal(w, Batch(now, front + more))
      ensures Ran(id) in more <==> id in Expired(w.sched, now) && Ran(id) !in trace[..i]
      ensures NeverRuns(Next(w, Batch(now, front + more)), id, now) || Left(mid.pending, id)
    {
      AfterCancel(w, now, trace, i, id, more);
    }
    assert front + trace[i + 1..] == trace;
    if Left(mid.pending, id) {
      var more := OnlyRuns(trace[i + 1..]);
      NothingElse(w, now, trace, i, id);
      assert !NeverRuns(Next(w, Batch(now, front + more)), id, now);
    }
  }

  lemma AfterCancel(w: World, now: int, trace: seq<Event>, i: nat, id: TimerId, more: seq<Event>)
    requires i < |trace| && trace[i] == Cancelled(id) && id.sequence in During(w, now, trace, i).issued
    requires Legal(w, Batch(now, trace[..i + 1] + more))
    ensures Ran(id) in more <==> id in Expired(w.sched, now) && Ran(id) !in trace[..i]
    ensures NeverRuns(Next(w, Batch(now, trace[..i + 1] + more)), id, now) || Left(During(w, now, trace, i).pending, id)
  {
    var all := trace[..i + 1] + more;
    assert all[..i] == trace[..i] && all[i] == trace[i] && all[i + 1..] == more;
    RunsAgain(w, now, all, i, id);
    GoneAfterBatch(w, now, all, i, id);
    NeverRunsExactly(Next(w, Batch(now, all)), id, now);
    hide Legal, Next, NeverRuns, During, Left;
  }

  /** A cancelled timer is out of the schedule after the batch. */
  lemma GoneAfterBatch(w: World, now: int, trace: seq<Event>, i: nat, id: TimerId)
    requires Legal(w, Batch(now, trace))
    requires i < |trace| && trace[i] == Cancelled(id) && id.sequence in During(w, now, trace, i).issued
    ensures var w' := Next(w, Batch(now, trace));
            && id.sequence in w'.issued && id !in w'.sched && w'.round == Dispatching(true)
            && (Left(w'.pending, id) ==> Left(During(w, now, trace, i).pending, id))
            && ((forall e :: e in trace[i + 1..] ==> e.Ran?) ==> w'.pending == During(w, now, trace, i).pending)
  {
    hide Left;
    var w1, mid := w.(sched := w.sched - Expired(w.sched, now)), During(w, now, trace, i);
    var back := trace[i + 1..];
    assert trace == trace[..i] + ([Cancelled(id)] + back);
    FreshSplit(w1, trace[..i], [Cancelled(id)] + back);
    FreshSplit(mid, [Cancelled(id)], back);
    DoOne(mid, Cancelled(id));
    DoAllConcat(w1, trace[..i], [Cancelled(id)] + back);
    DoAllConcat(mid, [Cancelled(id)], back);
    TraceEffect(Do(mid, Cancelled(id)), back, id);
    TraceKeepsLeft(Do(mid, Cancelled(id)), back, id);
    if forall e :: e in back ==> e.Ran? {
      RunsChangeNothing(Do(mid, Cancelled(id)), back);
    }
    assert Cancelled(id) in trace;
  }

  lemma {:induction false} RunsChangeNothing(w: World, trace: seq<Event>)
    requires forall e :: e in trace ==> e.Ran?
    ensures DoAll(w, trace) == w
  {
    if trace != [] {
      assert trace[|trace| - 1] in trace;
      RunsChangeNothing(w, trace[..|trace| - 1]);
    }
  }

  /** The callbacks that run, and nothing they do. */
  function OnlyRuns(trace: seq<Event>): seq<Event> {
    if trace == [] then []
    else OnlyRuns(trace[..|trace| - 1]) + if trace[|trace| - 1].Ran? then [trace[|trace| - 1]] else []
  }

  lemma {:induction false} OnlyRunsRun(trace: seq<Event>)
    ensures forall e :: e in OnlyRuns(trace) ==> e.Ran?
    ensures RunsOf(OnlyRuns(trace)) == RunsOf(trace)
  {
    if trace != [] {
      var front, last := trace[..|trace| - 1], trace[|trace| - 1];
      OnlyRunsRun(front);
      if last.Ran? {
        assert OnlyRuns(trace)[..|OnlyRuns(front)|] == OnlyRuns(front);
      } else {
        assert OnlyRuns(trace) == OnlyRuns(front);
      }
    }
  }

  /** The batch in which nothing else happens after the cancellation is legal, and
      leaves the functors as they were. */
  lemma NothingElse(w: World, now: int, trace: seq<Event>, i: nat, id: TimerId)
    requires Legal(w, Batch(now, trace))
    requires i < |trace| && trace[i] == Cancelled(id) && id.sequence in During(w, now, trace, i).issued
    requires Left(During(w, now, trace, i).pending, id)
    ensures var batch := Batch(now, trace[..i + 1] + OnlyRuns(trace[i + 1..]));
            Legal(w, batch) && !NeverRuns(Next(w, batch), id, now)
  {
    var front, more := trace[..i + 1], OnlyRuns(trace[i + 1..]);
    var all := front + more;
    assert all[..i] == trace[..i] && all[i] == trace[i] && all[i + 1..] == more;
    assert During(w, now, all, i) == During(w, now, trace, i);
    hide Left, NeverRuns, During, AllFresh;
    OnlyRunsLegal(w, now, trace, i);
    OnlyRunsRun(trace[i + 1..]);
    GoneAfterBatch(w, now, all, i, id);
    NeverRunsExactly(Next(w, Batch(now, all)), id, now);
    hide Legal, Next;
  }

  lemma OnlyRunsFresh(w: World, front: seq<Event>, back: seq<Event>)
    requires AllFresh(w, front + back)
    ensures AllFresh(w, front + OnlyRuns(back))
  {
    hide AllFresh, DoAll;
    OnlyRunsRun(back);
    FreshSplit(w, front, back);
    RunsAreFresh(DoAll(w, front), OnlyRuns(back));
    DoAllConcat(w, front, OnlyRuns(back));
  }

  lemma SameRuns(front: seq<Event>, back: seq<Event>)
    ensures RunsOf(front + OnlyRuns(back)) == RunsOf(front + back)
    ensures forall id :: Ran(id) in front + OnlyRuns(back) <==> Ran(id) in front + back
  {
    hide RunsOf, OnlyRuns;
    var more := OnlyRuns(back);
    OnlyRunsRun(back);
    RunsConcat(front, back);
    RunsConcat(front, more);
    forall id
      ensures Ran(id) in front + more <==> Ran(id) in front + back
    {
      RanIsInRuns(front + more, id);
      RanIsInRuns(front + back, id);
    }
  }

  lemma OnlyRunsLegal(w: World, now: int, trace: seq<Event>, i: nat)
    requires Legal(w, Batch(now, trace)) && i < |trace|
    ensures Legal(w, Batch(now, trace[..i + 1] + OnlyRuns(trace[i + 1..])))
  {
    hide AllFresh, DoAll, Expired, InDueOrder, OnlyRuns, RunsOf;
    var front, back := trace[..i + 1], trace[i + 1..];
    assert trace == front + back && (front + OnlyRuns(back))[0] == trace[0];
    OnlyRunsFresh(w.(sched := w.sched - Expired(w.sched, now)), front, back);
    SameRuns(front, back);
  }

  /** The shortest case: two timers are due, and the first one's callback cancels
      the second, which runs nevertheless. */
  lemma CancelledMemberRuns()
    ensures var a, b := TimerId(0, 1), TimerId(1, 2);
            var w := World(map[a := Timer(1, 0, false, 1), b := Timer(2, 0, false, 2)], Dispatching(false), [], {1, 2});
            var trace := [Ran(a), Cancelled(b), Ran(b)];
            Legal(w, Batch(2, trace)) && RunsOf(trace) == [a, b] && !QueuedAdd(w, b)
  {
    var a, b := TimerId(0, 1), TimerId(1, 2);
    var w := World(map[a := Timer(1, 0, false, 1), b := Timer(2, 0, false, 2)], Dispatching(false), [], {1, 2});
    var trace := [Ran(a), Cancelled(b), Ran(b)];
    var w1 := w.(sched := w.sched - Expired(w.sched, 2));
    hide RunsOf, AllFresh, DoAll;
    NoRuns();
    DoOne(w1, Cancelled(b));
    RunExtends(w1, [], a, [Cancelled(b)]);
    var t := [] + [Ran(a)] + [Cancelled(b)];
    DoOne(DoAll(w1, t), Ran(b));
    RunExtends(w1, t, b, []);
    assert t + [Ran(b)] + [] == trace && [] + [a] + [b] == [a, b];
  }

  /** The shortest case of a cancellation overtaken by nothing: the insertion is
      queued, but a cancellation is queued behind it in the same round. */
  lemma CancelQueuedBehind(id: TimerId, timer: Timer, t: int)
    ensures var w := World(map[], Dispatching(false), [Added(id, timer), Cancelled(id)], {id.sequence});
            QueuedAdd(w, id) && NeverRuns(Do(w, Cancelled(id)), id, t)
  {
    var w := World(map[], Dispatching(false), [Added(id, timer), Cancelled(id)], {id.sequence});
    assert w.pending[0].Added?;
    assert w.pending == [Added(id, timer)] + [Cancelled(id)];
    CancelledLast([Added(id, timer)], id);
    NoneLeft(id);
    CancelIsFinal(w, id, t);
  }
}
