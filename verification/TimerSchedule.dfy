/**
 What a timer queue is for, without pointers, ordered sets or a timer descriptor:
 a map from timer ids to timers, the insertions and cancellations that other
 threads have queued, and the sequence numbers handed out so far. The turns of
 loop() are part of it: handle_read at most once, then a round of the functors
 queued so far, without a poll between two of them.
 */
module TimerSchedule {
  type Addr = nat

  /** Timer.hpp: `delta` is the interval in microseconds; it may be 0 for a
      repeating timer whose interval is below one microsecond. */
  datatype Timer = Timer(expiration: int, delta: nat, repeat: bool, sequence: nat)

  /** TimerId.hpp: an address together with the sequence number it had. */
  datatype TimerId = TimerId(addr: Addr, sequence: nat)

  type Schedule = map<TimerId, Timer>

  /** What happened: a callback ran; the loop thread added or cancelled a timer;
      another thread queued an addition or a cancellation. */
  datatype Event =
    | Ran(id: TimerId)
    | Added(id: TimerId, timer: Timer)
    | Cancelled(id: TimerId)
    | PostedAdd(id: TimerId, timer: Timer)
    | PostedCancel(id: TimerId)

  /** A functor bound by another thread. */
  type Functor = e: Event | e.Added? || e.Cancelled? witness Cancelled(TimerId(0, 0))

  /** The half of the loop's turn: handlers run after a poll, handle_read having
      had its call or not; or doPendingFuncs_ has `rest` of its vector to run. Outside
      loop() it is as before the first poll. */
  datatype Round = Dispatching(fired: bool) | Running(rest: seq<Functor>)

  /** `pending` are the functors not swapped out yet, oldest first. */
  datatype World = World(sched: Schedule, round: Round, pending: seq<Functor>, issued: set<nat>)

  function Do(w: World, e: Event): World {
    match e
    case Ran(_) => w
    case Added(id, t) => w.(sched := w.sched[id := t], issued := w.issued + {id.sequence})
    case Cancelled(id) => w.(sched := w.sched - {id})
    case PostedAdd(id, t) => w.(pending := w.pending + [Added(id, t)], issued := w.issued + {id.sequence})
    case PostedCancel(id) => w.(pending := w.pending + [Cancelled(id)])
  }

  /** Every newly created timer has a sequence number never seen before. */
  predicate Fresh(w: World, e: Event) {
    e.Added? || e.PostedAdd? ==> e.id.sequence !in w.issued && e.timer.sequence == e.id.sequence
  }

  function DoAll(w: World, trace: seq<Event>): World {
    if trace == [] then w else Do(DoAll(w, trace[..|trace| - 1]), trace[|trace| - 1])
  }

  predicate AllFresh(w: World, trace: seq<Event>) {
    trace != [] ==>
      AllFresh(w, trace[..|trace| - 1]) && Fresh(DoAll(w, trace[..|trace| - 1]), trace[|trace| - 1])
  }

  lemma {:induction false} DoAllConcat(w: World, a: seq<Event>, b: seq<Event>)
    ensures DoAll(w, a + b) == DoAll(DoAll(w, a), b)
    ensures AllFresh(w, a) && AllFresh(DoAll(w, a), b) ==> AllFresh(w, a + b)
  {
    if b == [] {
      assert a + b == a;
    } else {
      var b' := b[..|b| - 1];
      assert (a + b)[..|a + b| - 1] == a + b';
      DoAllConcat(w, a, b');
    }
  }

  lemma DoOne(w: World, e: Event)
    ensures DoAll(w, []) == w && DoAll(w, [e]) == Do(w, e)
    ensures AllFresh(w, []) && (AllFresh(w, [e]) <==> Fresh(w, e))
  {
    assert [e][..0] == [];
  }

  function Expired(s: Schedule, now: int): set<TimerId> {
    set id | id in s && s[id].expiration <= now
  }

  /** One call of handle_read at time `now`: the expired timers leave the
      schedule, what their callbacks did (`trace`) is applied to the rest, and
      each expired repeating timer nobody cancelled meanwhile comes back. */
  function AfterBatch(w: World, now: int, trace: seq<Event>): World {
    var due := Expired(w.sched, now);
    var mid := DoAll(w.(sched := w.sched - due), trace);
    mid.(sched := mid.sched + Restarted(w.sched, now, trace), round := Dispatching(true))
  }

  function Restarted(s: Schedule, now: int, trace: seq<Event>): Schedule {
    map id | id in Expired(s, now) && s[id].repeat && Cancelled(id) !in trace ::
      s[id].(expiration := now + s[id].delta)
  }

  // ------------------------------------------------ the callbacks of a trace

  /** The callbacks run, in order. */
  function RunsOf(trace: seq<Event>): seq<TimerId> {
    if trace == [] then []
    else
      var front, last := RunsOf(trace[..|trace| - 1]), trace[|trace| - 1];
      if last.Ran? then front + [last.id] else front
  }

  lemma NoRuns()
    ensures RunsOf([]) == []
  {}

  lemma {:induction false} RunsOfConcat(a: seq<Event>, b: seq<Event>)
    requires forall e :: e in b ==> !e.Ran?
    ensures RunsOf(a + b) == RunsOf(a)
  {
    if b == [] {
      assert a + b == a;
    } else {
      assert b[|b| - 1] in b;
      assert (a + b)[..|a + b| - 1] == a + b[..|b| - 1];
      RunsOfConcat(a, b[..|b| - 1]);
    }
  }

  lemma {:induction false} RanIsInRuns(trace: seq<Event>, id: TimerId)
    ensures Ran(id) in trace <==> id in RunsOf(trace)
  {
    if trace != [] {
      assert trace == trace[..|trace| - 1] + [trace[|trace| - 1]];
      RanIsInRuns(trace[..|trace| - 1], id);
    }
  }

  /** The order of the index of timers: by expiration, then by address. The sequence
      number separates two ids at one address, which are never scheduled together. */
  predicate Before(s: Schedule, a: TimerId, b: TimerId)
    requires a in s && b in s
  {
    var x, y := s[a].expiration, s[b].expiration;
    x < y || (x == y && (a.addr < b.addr || (a.addr == b.addr && a.sequence < b.sequence)))
  }

  /** Each once, earliest first. */
  ghost predicate InDueOrder(s: Schedule, runs: seq<TimerId>) {
    && (forall i :: 0 <= i < |runs| ==> runs[i] in s)
    && forall i, j :: 0 <= i < j < |runs| ==> Before(s, runs[i], runs[j])
  }

  // ---------------------------------------------------------------- runs

  datatype Step =
    | Act(event: Event)                       // the loop thread or another thread adds or cancels
    | Batch(now: int, trace: seq<Event>)      // handle_read
    | Swap                                    // doPendingFuncs_ takes all functors queued,
    | Pop                                     // ... runs the next of them,
    | EndRound                                // ... and returns, and poll follows

  /** A batch belongs to the handlers of a turn that has not had one; the loop thread
      acts in it only from callbacks; each due timer runs once, in due order. */
  ghost predicate Legal(w: World, step: Step) {
    match step
    case Act(e) => !e.Ran? && Fresh(w, e)
    case Swap => w.round.Dispatching?
    case Pop => w.round.Running? && w.round.rest != []
    case EndRound => w.round == Running([])
    case Batch(now, trace) =>
      && w.round == Dispatching(false)
      && (trace == [] || trace[0].Ran?)
      && AllFresh(w.(sched := w.sched - Expired(w.sched, now)), trace)
      && InDueOrder(w.sched, RunsOf(trace))
      && forall id :: Ran(id) in trace <==> id in Expired(w.sched, now)
  }

  ghost function Next(w: World, step: Step): World
    requires Legal(w, step)
  {
    match step
    case Act(e) => Do(w, e)
    case Swap => w.(round := Running(w.pending), pending := [])
    case Pop => Do(w.(round := Running(w.round.rest[1..])), w.round.rest[0])
    case EndRound => w.(round := Dispatching(false))
    case Batch(now, trace) => AfterBatch(w, now, trace)
  }

  ghost predicate LegalRun(w: World, steps: seq<Step>)
    decreases |steps|
  {
    steps != [] ==> Legal(w, steps[0]) && LegalRun(Next(w, steps[0]), steps[1..])
  }

  ghost function After(w: World, steps: seq<Step>): World
    requires LegalRun(w, steps)
    decreases |steps|
  {
    if steps == [] then w else After(Next(w, steps[0]), steps[1..])
  }

  lemma {:induction false} RunAppend(w: World, steps: seq<Step>, step: Step)
    requires LegalRun(w, steps) && Legal(After(w, steps), step)
    ensures LegalRun(w, steps + [step]) && After(w, steps + [step]) == Next(After(w, steps), step)
    decreases |steps|
  {
    if steps == [] {
      assert ([] + [step])[1..] == [];
    } else {
      RunAppend(Next(w, steps[0]), steps[1..], step);
      assert (steps + [step])[1..] == steps[1..] + [step];
    }
  }

  /** The batches take place at or after `t`, and none before an earlier one. */
  predicate InTime(t: int, steps: seq<Step>) {
    && (forall i :: 0 <= i < |steps| && steps[i].Batch? ==> t <= steps[i].now)
    && forall i, j :: 0 <= i < j < |steps| && steps[i].Batch? && steps[j].Batch? ==> steps[i].now <= steps[j].now
  }

  predicate Runs(step: Step, id: TimerId) {
    step.Batch? && Ran(id) in step.trace
  }

  /** The functors still to run in this round. */
  function Rest(w: World): seq<Functor> {
    if w.round.Running? then w.round.rest else []
  }

  ghost predicate Inserts(fs: seq<Functor>, id: TimerId) {
    exists i :: 0 <= i < |fs| && fs[i].Added? && fs[i].id == id
  }

  ghost predicate QueuedAdd(w: World, id: TimerId) {
    Inserts(Rest(w), id) || Inserts(w.pending, id)
  }

  /** The id was given out, is not scheduled and is not waiting to be. */
  ghost predicate Gone(w: World, id: TimerId) {
    id.sequence in w.issued && id !in w.sched && !QueuedAdd(w, id)
  }

  /** What a trace does to an id given out before it: only a cancellation in the
      trace can take it out, and nothing can put it back. */
  lemma {:induction false} TraceEffect(w: World, trace: seq<Event>, id: TimerId)
    requires AllFresh(w, trace) && id.sequence in w.issued
    ensures var w' := DoAll(w, trace);
            && id.sequence in w'.issued
            && (id in w'.sched <==> id in w.sched && Cancelled(id) !in trace)
            && (id in w'.sched ==> w'.sched[id] == w.sched[id])
            && w'.round == w.round && (Inserts(w'.pending, id) <==> Inserts(w.pending, id))
  {
    if trace != [] {
      var front, last := trace[..|trace| - 1], trace[|trace| - 1];
      assert trace == front + [last];
      TraceEffect(w, front, id);
      DoKeepsQueued(DoAll(w, front), last, id);
    }
  }

  lemma DoKeepsQueued(w: World, e: Event, id: TimerId)
    requires Fresh(w, e) && id.sequence in w.issued
    ensures Do(w, e).round == w.round && (Inserts(Do(w, e).pending, id) <==> Inserts(w.pending, id))
  {
    if Inserts(w.pending, id) {
      var i :| 0 <= i < |w.pending| && w.pending[i].Added? && w.pending[i].id == id;
      assert Do(w, e).pending[i] == w.pending[i];
    }
  }

  lemma GoneStays(w: World, step: Step, id: TimerId)
    requires Legal(w, step) && Gone(w, id)
    ensures Gone(Next(w, step), id) && !Runs(step, id)
  {
    if step.Batch? {
      TraceEffect(w.(sched := w.sched - Expired(w.sched, step.now)), step.trace, id);
    } else if step.Act? {
      DoKeepsQueued(w, step.event, id);
    } else if step.Pop? {
      assert forall i :: 0 <= i < |w.round.rest| - 1 ==> w.round.rest[1..][i] == w.round.rest[i + 1];
    }
  }

  /** Once a timer is gone no later step of any run calls its callback. */
  lemma {:induction false} GoneNeverRuns(w: World, steps: seq<Step>, id: TimerId)
    requires LegalRun(w, steps) && Gone(w, id)
    ensures Gone(After(w, steps), id)
    ensures forall i :: 0 <= i < |steps| ==> !Runs(steps[i], id)
    decreases |steps|
  {
    if steps != [] {
      GoneStays(w, steps[0], id);
      GoneNeverRuns(Next(w, steps[0]), steps[1..], id);
      assert forall i :: 1 <= i < |steps| ==> steps[i] == steps[1..][i - 1];
    }
  }

  /** What one handle_read does to a scheduled timer, exactly: it is gone if and
      only if it was cancelled during the batch or was an expired one-shot;
      otherwise only an expired one changes, to `now` plus its interval. */
  lemma LeavesInBatch(w: World, now: int, trace: seq<Event>, id: TimerId)
    requires Legal(w, Batch(now, trace))
    requires id in w.sched && id.sequence in w.issued && !QueuedAdd(w, id)
    ensures var w' := Next(w, Batch(now, trace));
            var due := w.sched[id].expiration <= now;
            && (Gone(w', id) <==> Cancelled(id) in trace || (due && !w.sched[id].repeat))
            && (id in w'.sched <==> !Gone(w', id))
            && (id in w'.sched ==>
                  w'.sched[id] == w.sched[id].(expiration := if due then now + w.sched[id].delta
                                                             else w.sched[id].expiration))
  {
    TraceEffect(w.(sched := w.sched - Expired(w.sched, now)), trace, id);
  }

  /** Each callback of a batch has one turn. */
  lemma RunsAgain(w: World, now: int, trace: seq<Event>, i: nat, id: TimerId)
    requires Legal(w, Batch(now, trace)) && i < |trace| && !trace[i].Ran?
    ensures Ran(id) in trace[i + 1..] <==> id in Expired(w.sched, now) && Ran(id) !in trace[..i]
  {
    hide AllFresh, DoAll, Expired;
    var front, back := trace[..i], trace[i + 1..];
    assert trace == front + [trace[i]] + back;
    RunsConcat(front + [trace[i]], back);
    RunsOfConcat(front, [trace[i]]);
    RanIsInRuns(front, id);
    RanIsInRuns(back, id);
    var a, b := RunsOf(front), RunsOf(back);
    forall j, k | 0 <= j < |a| && 0 <= k < |b|
      ensures a[j] != b[k]
    {
      assert RunsOf(trace)[j] == a[j] && RunsOf(trace)[|a| + k] == b[k];
    }
  }

  lemma {:induction false} RunsConcat(a: seq<Event>, b: seq<Event>)
    ensures RunsOf(a + b) == RunsOf(a) + RunsOf(b)
  {
    if b == [] {
      assert a + b == a;
    } else {
      assert (a + b)[..|a + b| - 1] == a + b[..|b| - 1];
      RunsConcat(a, b[..|b| - 1]);
    }
  }

  lemma {:induction false} FreshSplit(w: World, a: seq<Event>, b: seq<Event>)
    requires AllFresh(w, a + b)
    ensures AllFresh(w, a) && AllFresh(DoAll(w, a), b)
  {
    if b == [] {
      assert a + b == a;
    } else {
      var b' := b[..|b| - 1];
      assert (a + b)[..|a + b| - 1] == a + b';
      FreshSplit(w, a, b');
      DoAllConcat(w, a, b');
    }
  }

  /** A trace is extended by one callback and what happened while it ran. */
  lemma RunExtends(w: World, trace: seq<Event>, id: TimerId, events: seq<Event>)
    requires AllFresh(w, trace) && AllFresh(DoAll(w, trace), events)
    requires forall e :: e in events ==> !e.Ran?
    ensures var t := trace + [Ran(id)] + events;
            && AllFresh(w, t) && DoAll(w, t) == DoAll(DoAll(w, trace), events)
            && RunsOf(t) == RunsOf(trace) + [id]
            && forall x :: Cancelled(x) in t <==> Cancelled(x) in trace || Cancelled(x) in events
  {
    DoOne(DoAll(w, trace), Ran(id));
    DoAllConcat(w, trace, [Ran(id)]);
    DoAllConcat(w, trace + [Ran(id)], events);
    assert (trace + [Ran(id)])[..|trace|] == trace;
    RunsOfConcat(trace + [Ran(id)], events);
  }
}
