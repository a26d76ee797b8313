/**
 What a call of add_timer or cancel comes to, stated on the steps of the loop and
 on the schedule that results, wherever the call is made.
 */
module TimerEffects {
  import opened TimerSchedule

  function Pops(k: nat): seq<Step> {
    if k == 0 then [] else [Pop] + Pops(k - 1)
  }

  lemma {:induction false} RunConcat(w: World, a: seq<Step>, b: seq<Step>)
    requires LegalRun(w, a) && LegalRun(After(w, a), b)
    ensures LegalRun(w, a + b) && After(w, a + b) == After(After(w, a), b)
    decreases |a|
  {
    hide Legal, Next;
    if a == [] {
      assert a + b == b;
    } else {
      RunConcat(Next(w, a[0]), a[1..], b);
      assert (a + b)[1..] == a[1..] + b;
    }
  }

  /** The round runs to its end, and its last functor has had its effect. */
  lemma {:induction false} LastFunctorTakesEffect(w: World, front: seq<Functor>, f: Functor)
    requires w.round == Running(front + [f])
    ensures var run := Pops(|front| + 1);
            && LegalRun(w, run) && After(w, run).round == Running([])
            && (f.Added? ==> f.id in After(w, run).sched && After(w, run).sched[f.id] == f.timer)
            && (f.Cancelled? ==> f.id !in After(w, run).sched)
    decreases |front|
  {
    var w' := Next(w, Pop);
    assert Pops(|front| + 1)[1..] == Pops(|front|);
    if front == [] {
      assert w.round.rest[0] == f && w.round.rest[1..] == [];
      assert LegalRun(w', []) && After(w', []) == w';
    } else {
      assert w.round.rest[1..] == front[1..] + [f];
      LastFunctorTakesEffect(w', front[1..], f);
    }
  }

  /** The round being run ends, and the next one takes all that is queued. */
  lemma {:induction false} NextRound(w: World) returns (run: seq<Step>)
    ensures LegalRun(w, run) && forall i :: 0 <= i < |run| ==> run[i].Swap? || run[i].Pop? || run[i].EndRound?
    ensures After(w, run).round == Running(w.pending) && After(w, run).pending == []
    decreases w.round.Running?, |Rest(w)|
  {
    var step := if w.round.Dispatching? then Swap else if w.round.rest == [] then EndRound else Pop;
    var w' := Next(w, step);
    run := [];
    if step.Swap? {
      assert LegalRun(w', []) && After(w', []) == w';
    } else {
      run := NextRound(w');
    }
    assert ([step] + run)[1..] == run;
    run := [step] + run;
  }

  /** What another thread asks for is done in the loop's next round, after whatever
      was queued before it: the timer is scheduled as it was given, or is not
      scheduled any more. */
  lemma PostedTakesEffect(w: World, e: Event) returns (run: seq<Step>)
    requires (e.PostedAdd? || e.PostedCancel?) && Fresh(w, e)
    ensures LegalRun(w, [Act(e)] + run) && forall i :: 0 <= i < |run| ==> !run[i].Act? && !run[i].Batch?
    ensures var w' := After(w, [Act(e)] + run);
            if e.PostedAdd? then e.id in w'.sched && w'.sched[e.id] == e.timer else e.id !in w'.sched
  {
    var w1 := Next(w, Act(e));
    var f := if e.PostedAdd? then Added(e.id, e.timer) else Cancelled(e.id);
    QueuedLast(w, e);
    var first := NextRound(w1);
    var w2 := After(w1, first);
    LastFunctorTakesEffect(w2, w.pending, f);
    OnlyPops(|w.pending| + 1);
    var second := Pops(|w.pending| + 1);
    RunConcat(w1, first, second);
    run := first + second;
    assert ([Act(e)] + run)[1..] == run;
  }

  lemma QueuedLast(w: World, e: Event)
    requires e.PostedAdd? || e.PostedCancel?
    ensures Do(w, e).pending == w.pending + [if e.PostedAdd? then Added(e.id, e.timer) else Cancelled(e.id)]
  {}

  lemma {:induction false} OnlyPops(k: nat)
    ensures |Pops(k)| == k && forall i :: 0 <= i < k ==> Pops(k)[i] == Pop
  {
    if k != 0 {
      OnlyPops(k - 1);
    }
  }

  /** A timer added on the loop thread, by a callback or otherwise, is scheduled as it
      was given, unless it is cancelled afterwards. */
  lemma {:induction false} AddedIsScheduled(w: World, trace: seq<Event>, id: TimerId, t: Timer)
    requires AllFresh(w, trace) && Added(id, t) in trace
    ensures id.sequence in DoAll(w, trace).issued
    ensures Cancelled(id) !in trace ==> id in DoAll(w, trace).sched && DoAll(w, trace).sched[id] == t
  {
    var front, last := trace[..|trace| - 1], trace[|trace| - 1];
    assert trace == front + [last];
    if Added(id, t) in front {
      AddedIsScheduled(w, front, id, t);
    }
  }

  /** So it is after the batch in which it was added. */
  lemma AddedInBatch(w: World, now: int, trace: seq<Event>, id: TimerId, t: Timer)
    requires Legal(w, Batch(now, trace)) && Added(id, t) in trace && Cancelled(id) !in trace && id !in w.sched
    ensures var w' := Next(w, Batch(now, trace)); id in w'.sched && w'.sched[id] == t
  {
    AddedIsScheduled(w.(sched := w.sched - Expired(w.sched, now)), trace, id, t);
    hide DoAll, AllFresh;
  }
}
