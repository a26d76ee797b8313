/**
 What a program asks of a timer queue and what the queue does about it: the calls
 made by callbacks, handlers, functors and other threads, turn by turn of loop(),
 and the events and steps of the schedule that answer them, one by one.
 */
module TimerOrders {
  import opened TimerSchedule
  import opened TimerEffects

  /** What can happen while a callback (or any other code) runs: calls made by
      the loop thread, calls made by other threads, the clock, and timers created
      for other queues. */
  datatype Activity =
    | Add(when: int, repeat: bool, delta: nat)
    | Cancel(id: TimerId)
    | ForeignAdd(when: int, repeat: bool, delta: nat)
    | ForeignCancel(id: TimerId)
    | Wait(us: nat)
    | OthersCreate(count: nat)

  /** One turn of loop(): what handlers do before and after handle_read, whether
      timerfd_ is reported, what each callback does, and what happens around the
      functors of the round: `tasks(k)` before functor `k`, or after the last one. */
  datatype Turn = Turn(
    before: seq<Activity>, readable: bool, callbacks: TimerId -> seq<Activity>, after: seq<Activity>,
    tasks: nat -> seq<Activity>)

  // ------------------------------------------------- inside a batch

  datatype Request = Call(act: Activity) | Run(id: TimerId)

  /** The event is the one the call asks for. */
  predicate Answer(r: Request, e: Event) {
    match r
    case Run(id) => e == Ran(id)
    case Call(Add(when, repeat, delta)) => e.Added? && e.timer == Timer(when, delta, repeat, e.id.sequence)
    case Call(Cancel(id)) => e == Cancelled(id)
    case Call(ForeignAdd(when, repeat, delta)) =>
      e.PostedAdd? && e.timer == Timer(when, delta, repeat, e.id.sequence)
    case Call(ForeignCancel(id)) => e == PostedCancel(id)
    case Call(_) => false
  }

  predicate Answers(rs: seq<Request>, es: seq<Event>) {
    |rs| == |es| && forall i :: 0 <= i < |rs| ==> Answer(rs[i], es[i])
  }

  function Asked(act: Activity): seq<Request> {
    if act.Wait? || act.OthersCreate? then [] else [Call(act)]
  }

  function Calls(acts: seq<Activity>): seq<Request> {
    if acts == [] then [] else Calls(acts[..|acts| - 1]) + Asked(acts[|acts| - 1])
  }

  /** The callbacks of a batch in order, each followed by what it does. */
  function Script(ids: seq<TimerId>, callbacks: TimerId -> seq<Activity>): seq<Request> {
    if ids == [] then []
    else
      var front, id := ids[..|ids| - 1], ids[|ids| - 1];
      Script(front, callbacks) + [Run(id)] + Calls(callbacks(id))
  }

  lemma AnswerOne(act: Activity, es: seq<Event>)
    requires if act.Wait? || act.OthersCreate? then es == [] else |es| == 1 && Answer(Call(act), es[0])
    ensures Answers(Asked(act), es)
  {}

  lemma AnswersConcat(rs: seq<Request>, es: seq<Event>, rs': seq<Request>, es': seq<Event>)
    requires Answers(rs, es) && Answers(rs', es')
    ensures Answers(rs + rs', es + es')
  {}

  lemma CallsSnoc(acts: seq<Activity>, k: nat)
    requires k < |acts|
    ensures Calls(acts[..k + 1]) == Calls(acts[..k]) + Asked(acts[k])
  {
    assert acts[..k + 1][..k] == acts[..k];
  }

  /** No call is dropped or moved: the one made at `k` comes after those before it. */
  lemma {:induction false} EveryCallIsAsked(acts: seq<Activity>, k: nat)
    requires k < |acts| && !acts[k].Wait? && !acts[k].OthersCreate?
    ensures var n := |Calls(acts[..k])|;
            n < |Calls(acts)| && Calls(acts)[n] == Call(acts[k]) && Calls(acts)[..n] == Calls(acts[..k])
    ensures var n := |Orders(acts[..k])|;
            n < |Orders(acts)| && Orders(acts)[n] == Make(acts[k]) && Orders(acts)[..n] == Orders(acts[..k])
  {
    var front := acts[..|acts| - 1];
    if k < |front| {
      EveryCallIsAsked(front, k);
      assert front[..k] == acts[..k];
    }
  }

  lemma ScriptSnoc(ids: seq<TimerId>, k: nat, callbacks: TimerId -> seq<Activity>)
    requires k < |ids|
    ensures Script(ids[..k + 1], callbacks) == Script(ids[..k], callbacks) + [Run(ids[k])] + Calls(callbacks(ids[k]))
  {
    assert ids[..k + 1][..k] == ids[..k];
  }

  /** One more callback and what happened while it ran. */
  lemma AnswersExtend(ids: seq<TimerId>, k: nat, callbacks: TimerId -> seq<Activity>,
                      trace: seq<Event>, events: seq<Event>)
    requires k < |ids| && Answers(Script(ids[..k], callbacks), trace)
    requires Answers(Calls(callbacks(ids[k])), events)
    ensures Answers(Script(ids[..k + 1], callbacks), trace + [Ran(ids[k])] + events)
  {
    ScriptSnoc(ids, k, callbacks);
    assert Answers([Run(ids[k])], [Ran(ids[k])]);
    hide Answers, Script, Calls;
    AnswersConcat(Script(ids[..k], callbacks), trace, [Run(ids[k])], [Ran(ids[k])]);
    AnswersConcat(Script(ids[..k], callbacks) + [Run(ids[k])], trace + [Ran(ids[k])], Calls(callbacks(ids[k])), events);
  }

  // ------------------------------------------------- over the turns of the loop

  datatype Order =
    | Make(act: Activity)
    | Read(callbacks: TimerId -> seq<Activity>)
    | TakeAll
    | RunNext
    | Return

  ghost predicate Obeys(o: Order, step: Step) {
    match o
    case Make(act) => step.Act? && Answer(Call(act), step.event)
    case Read(callbacks) => step.Batch? && Answers(Script(RunsOf(step.trace), callbacks), step.trace)
    case TakeAll => step == Swap
    case RunNext => step == Pop
    case Return => step == EndRound
  }

  ghost predicate ObeysAll(os: seq<Order>, steps: seq<Step>) {
    |os| == |steps| && forall i :: 0 <= i < |os| ==> Obeys(os[i], steps[i])
  }

  function Orders(acts: seq<Activity>): seq<Order> {
    if acts == [] then []
    else
      var last := acts[|acts| - 1];
      Orders(acts[..|acts| - 1]) + if last.Wait? || last.OthersCreate? then [] else [Make(last)]
  }

  lemma OrdersSnoc(acts: seq<Activity>, k: nat)
    requires k < |acts|
    ensures Orders(acts[..k + 1]) == Orders(acts[..k]) + Orders([acts[k]])
  {
    assert acts[..k + 1][..k] == acts[..k] && [acts[k]][..0] == [];
    assert Orders([acts[k]]) == [] + if acts[k].Wait? || acts[k].OthersCreate? then [] else [Make(acts[k])];
  }

  /** A round of `n` functors. */
  function RoundOrders(tasks: nat -> seq<Activity>, n: nat): seq<Order> {
    if n == 0 then Orders(tasks(0)) else RoundOrders(tasks, n - 1) + [RunNext] + Orders(tasks(n))
  }

  function HandlerOrders(turn: Turn): seq<Order> {
    Orders(turn.before) + (if turn.readable then [Read(turn.callbacks)] else []) + Orders(turn.after)
  }

  function TurnOrders(turn: Turn, n: nat): seq<Order> {
    HandlerOrders(turn) + ([TakeAll] + RoundOrders(turn.tasks, n) + [Return])
  }

  /** The turns one after the other; `counts` are the lengths of their rounds. */
  function LifeOrders(turns: seq<Turn>, counts: seq<nat>): seq<Order>
    requires |counts| == |turns|
  {
    if turns == [] then []
    else
      var k := |turns| - 1;
      LifeOrders(turns[..k], counts[..k]) + TurnOrders(turns[k], counts[k])
  }

  lemma LifeSnoc(turns: seq<Turn>, k: nat, counts: seq<nat>, n: nat)
    requires k < |turns| && |counts| == k
    ensures LifeOrders(turns[..k + 1], counts + [n]) == LifeOrders(turns[..k], counts) + TurnOrders(turns[k], n)
  {
    assert turns[..k + 1][..k] == turns[..k] && (counts + [n])[..k] == counts;
  }

  /** The batches take place from `t` to `t'`, none before an earlier one. */
  ghost predicate Within(t: int, t': int, steps: seq<Step>) {
    t <= t' && InTime(t, steps) && forall i :: 0 <= i < |steps| && steps[i].Batch? ==> steps[i].now <= t'
  }

  /** From the world `w` at time `t` to `w'` at `t'` by these steps, which are legal
      and are what the orders ask for. */
  ghost predicate History(w: World, t: int, w': World, t': int, os: seq<Order>, steps: seq<Step>) {
    LegalRun(w, steps) && After(w, steps) == w' && Within(t, t', steps) && ObeysAll(os, steps)
  }

  lemma WithinConcat(t: int, t': int, t'': int, a: seq<Step>, b: seq<Step>)
    requires Within(t, t', a) && Within(t', t'', b)
    ensures Within(t, t'', a + b)
  {}

  lemma HistoryConcat(w: World, t: int, w': World, t': int, os: seq<Order>, steps: seq<Step>,
                      w'': World, t'': int, os': seq<Order>, steps': seq<Step>)
    requires History(w, t, w', t', os, steps) && History(w', t', w'', t'', os', steps')
    ensures History(w, t, w'', t'', os + os', steps + steps')
  {
    hide LegalRun, After, Within, Obeys;
    RunConcat(w, steps, steps');
    WithinConcat(t, t', t'', steps, steps');
  }

  lemma HistoryNothing(w: World, t: int, t': int)
    requires t <= t'
    ensures History(w, t, w, t', [], [])
  {}

  lemma HistoryOne(w: World, t: int, t': int, o: Order, step: Step)
    requires Legal(w, step) && Obeys(o, step) && t <= t' && (step.Batch? ==> t <= step.now <= t')
    ensures History(w, t, Next(w, step), t', [o], [step])
  {
    hide Legal, Next, Obeys;
    var w' := Next(w, step);
    assert [step][1..] == [] && LegalRun(w', []) && After(w', []) == w';
  }
}
