/**
 What the loops get done: every functor for a connection has its turn, so a new
 connection is established on its loop, and one that reports its closing is taken
 off TcpServer's map and destroyed there.
 */
module RemovalProgress {
  import opened Removal

  /** Before the first occurrence. */
  function Ahead(q: seq<Task>, t: Task): nat {
    if q == [] || q[0] == t then 0 else 1 + Ahead(q[1..], t)
  }

  lemma {:induction false} AheadAppend(q: seq<Task>, more: seq<Task>, t: Task)
    requires t in q
    ensures Ahead(q + more, t) == Ahead(q, t)
  {
    assert (q + more)[0] == q[0];
    if q[0] != t {
      assert (q + more)[1..] == q[1..] + more;
      AheadAppend(q[1..], more, t);
    }
  }

  /** The queue without its head, and more behind. */
  lemma OneAhead(q: seq<Task>, q': seq<Task>, t: Task)
    requires q != [] && t in q && q[0] != t && q[1..] <= q'
    ensures Ahead(q', t) < Ahead(q, t)
  {
    assert q == [q[0]] + q[1..] && q' == q[1..] + q'[|q| - 1..];
    AheadAppend(q[1..], q'[|q| - 1..], t);
  }

  /** Steps of the loop until it runs a functor. */
  function ToRun(p: Loop): nat {
    match p.phase
    case Running => if p.done < |p.batch| then 0 else 3
    case Polling => 2
    case Dispatching(_) => 1
  }

  /** What the loop does next; its poll may report nothing. */
  ghost function Move(s: State, l: LoopId): Step
    requires l in s.loops
  {
    match s.loops[l].phase
    case Polling => Poll(l, {})
    case Dispatching(_) => EndDispatch(l)
    case Running => if s.loops[l].done < |s.loops[l].batch| then RunTask(l) else EndBatch(l)
  }

  lemma DueIsWaiting(s: State, l: LoopId, t: Task)
    requires Tasks(s) && l in s.loops && Due(s, l, t)
    ensures t in Todo(s.loops[l])
  {
    assert Count(s.loops[l], t) == 1;
  }

  lemma StepKeepsSound(s: State, e: Step)
    requires Sound(s) && Enabled(s, e)
    ensures Sound(Next(s, e))
  {
    hide Tasks, Places, Collected;
    StepKeepsTasks(s, e);
    StepKeepsPlaces(s, e);
    StepKeepsCollected(s, e);
  }

  /** A move that runs no functor leaves the functors waiting in their order. */
  lemma MoveOnly(s: State, l: LoopId)
    requires Collected(s) && l in s.loops && ToRun(s.loops[l]) != 0
    ensures var e := Move(s, l);
            && Enabled(s, e)
            && var s' := Next(s, e);
               && l in s'.loops && Todo(s'.loops[l]) == Todo(s.loops[l])
               && s'.stage == s.stage && s'.owner == s.owner
               && (Todo(s.loops[l]) != [] ==> ToRun(s'.loops[l]) < ToRun(s.loops[l]))
  {
    assert LoopFine(s.registered, s.owner, l, s.loops[l]);
    assert s.loops[l].pending[0..] == s.loops[l].pending;
  }

  /** What a functor makes of its connection. */
  function Result(t: Task): Stage {
    match t
    case Establish(_) => Up
    case RemoveInMain(_) => Dying
    case Destroy(_) => Dead
  }

  /** Running the functor at the head: it has its effect, and the others move up. */
  lemma RunHead(s: State, l: LoopId)
    requires Sound(s) && Enabled(s, RunTask(l))
    ensures var head, s' := s.loops[l].batch[s.loops[l].done], Next(s, RunTask(l));
            && Todo(s.loops[l]) != [] && Todo(s.loops[l])[0] == head
            && head.c in s.stage && s'.stage == s.stage[head.c := Result(head)] && s'.owner == s.owner
            && l in s'.loops && Todo(s.loops[l])[1..] <= Todo(s'.loops[l])
            && s.loops.Keys == s'.loops.Keys
  {
    HeadIsDue(s, l);
    var p := s.loops[l];
    assert p.batch[p.done..][1..] == p.batch[p.done + 1..];
    assert Todo(p)[1..] == p.batch[p.done + 1..] + p.pending;
    hide Tasks, Collected;
  }

  /** The loop's next step runs the functor, or brings it nearer to the head. */
  ghost predicate Nearer(s: State, s': State, l: LoopId, t: Task) {
    && l in s.loops && l in s'.loops && Due(s', l, t)
    && var n, n' := Ahead(Todo(s.loops[l]), t), Ahead(Todo(s'.loops[l]), t);
       n' < n || (n' == n && ToRun(s'.loops[l]) < ToRun(s.loops[l]))
  }

  lemma MoveBrings(s: State, l: LoopId, t: Task)
    requires Sound(s) && l in s.loops && Due(s, l, t)
    ensures Enabled(s, Move(s, l))
    ensures var s' := Next(s, Move(s, l));
            && Sound(s') && s'.owner == s.owner
            && ((t.c in s'.stage && s'.stage[t.c] == Result(t)) || Nearer(s, s', l, t))
  {
    DueIsWaiting(s, l, t);
    var e := Move(s, l);
    if ToRun(s.loops[l]) != 0 {
      MoveOnly(s, l);
      StepKeepsSound(s, e);
      SameDue(s, Next(s, e), l, t);
    } else {
      RunHead(s, l);
      StepKeepsSound(s, e);
      HeadBrings(s, l, t);
    }
    hide Tasks, Places, Collected, Due, Todo, Next;
  }

  lemma HeadBrings(s: State, l: LoopId, t: Task)
    requires Sound(s) && Enabled(s, RunTask(l)) && Due(s, l, t) && t in Todo(s.loops[l])
    ensures var s' := Next(s, RunTask(l));
            (t.c in s'.stage && s'.stage[t.c] == Result(t)) || Nearer(s, s', l, t)
  {
    RunHead(s, l);
    HeadIsDue(s, l);
    var head, s' := s.loops[l].batch[s.loops[l].done], Next(s, RunTask(l));
    hide Sound, Tasks, Places, Collected, Due, Todo, Next, Enabled;
    if head != t {
      OtherStaysDue(s, l, head, t, s');
      OneAhead(Todo(s.loops[l]), Todo(s'.loops[l]), t);
    }
  }

  /** Every functor that should run does: the loop on its own comes to it, whatever
      is queued before and meanwhile. */
  lemma {:induction false} FunctorRuns(s: State, l: LoopId, t: Task) returns (steps: seq<Step>)
    requires Sound(s) && l in s.loops && Due(s, l, t)
    ensures LegalRun(s, steps) && Sound(After(s, steps)) && After(s, steps).owner == s.owner
    ensures t.c in After(s, steps).stage && After(s, steps).stage[t.c] == Result(t)
    decreases Ahead(Todo(s.loops[l]), t), ToRun(s.loops[l])
  {
    MoveBrings(s, l, t);
    hide Sound, Due, Next, Enabled, Move, Todo;
    var e := Move(s, l);
    steps := [];
    if Nearer(s, Next(s, e), l, t) {
      steps := FunctorRuns(Next(s, e), l, t);
    }
    Prefix(s, e, steps);
    steps := [e] + steps;
  }

  lemma SameDue(s: State, s': State, l: LoopId, t: Task)
    requires Due(s, l, t) && s'.stage == s.stage && s'.owner == s.owner
    ensures Due(s', l, t)
  {}

  lemma OtherStaysDue(s: State, l: LoopId, head: Task, t: Task, s': State)
    requires Due(s, l, head) && Due(s, l, t) && head != t
    requires s'.stage == s.stage[head.c := Result(head)] && s'.owner == s.owner
    ensures Due(s', l, t)
  {
    if head.c == t.c {
      DueOnce(s, l, head, l, t);
    }
  }

  lemma Prefix(s: State, e: Step, run: seq<Step>)
    requires Enabled(s, e) && LegalRun(Next(s, e), run)
    ensures LegalRun(s, [e] + run) && After(s, [e] + run) == After(Next(s, e), run)
  {
    assert ([e] + run)[1..] == run;
  }

  lemma {:induction false} RunConcat(s: State, a: seq<Step>, b: seq<Step>)
    requires LegalRun(s, a) && LegalRun(After(s, a), b)
    ensures LegalRun(s, a + b) && After(s, a + b) == After(After(s, a), b)
    decreases |a|
  {
    if a == [] {
      assert a + b == b;
    } else {
      RunConcat(Next(s, a[0]), a[1..], b);
      assert (a + b)[1..] == a[1..] + b;
    }
  }

  lemma StageTells(s: State, c: Conn)
    requires Places(s) && c in s.stage
    ensures s.stage[c].Up? ==> c in s.connections && c in s.registered
    ensures s.stage[c].Dead? ==> c !in s.connections && c !in s.registered
    ensures c in s.owner && s.owner[c] in s.loops && MAIN in s.loops
  {}

  lemma CloseIsDue(s: State, c: Conn)
    requires Sound(s) && Enabled(s, CloseNotify(c))
    ensures var s1 := Next(s, CloseNotify(c));
            && Sound(s1) && MAIN in s1.loops && s1.owner == s.owner && c in s.owner && c in s1.stage
            && Due(s1, MAIN, if s.owner[c] == MAIN then Destroy(c) else RemoveInMain(c))
  {
    StepKeepsSound(s, CloseNotify(c));
    hide Tasks, Collected;
  }

  lemma DyingIsDue(s: State, c: Conn)
    requires Sound(s) && c in s.stage && s.stage[c].Dying?
    ensures c in s.owner && s.owner[c] in s.loops && Due(s, s.owner[c], Destroy(c))
  {
    StageTells(s, c);
  }

  /** A new connection is established on its loop. */
  lemma NewConnectionIsEstablished(s: State, c: Conn, w: LoopId) returns (steps: seq<Step>)
    requires Sound(s) && Enabled(s, NewConnection(c, w))
    ensures LegalRun(s, [NewConnection(c, w)] + steps)
    ensures var s' := After(s, [NewConnection(c, w)] + steps);
            && c in s'.connections && c in s'.registered && c in s'.owner && s'.owner[c] == w
            && c in s'.stage && s'.stage[c].Up?
  {
    var e := NewConnection(c, w);
    var s1 := Next(s, e);
    StepKeepsSound(s, e);
    hide Tasks, Collected;
    steps := [];
    if w != MAIN {
      steps := FunctorRuns(s1, w, Establish(c));
    }
    Prefix(s, e, steps);
  }

  /** A connection that reports its closing is taken down: whatever the loops have to
      do, their own steps lead from the notification to connectDestroyed, after which
      neither the map nor the poller knows it. */
  lemma CloseLeadsToDestroyed(s: State, c: Conn) returns (steps: seq<Step>)
    requires Sound(s) && Enabled(s, CloseNotify(c))
    ensures LegalRun(s, [CloseNotify(c)] + steps)
    ensures var s' := After(s, [CloseNotify(c)] + steps);
            && c !in s'.connections && c !in s'.registered && c in s'.stage && s'.stage[c].Dead?
  {
    CloseIsDue(s, c);
    hide Sound, Due, Next, Enabled, LegalRun, After;
    var s1 := Next(s, CloseNotify(c));
    if s.owner[c] == MAIN {
      steps := FunctorRuns(s1, MAIN, Destroy(c));
    } else {
      var first := FunctorRuns(s1, MAIN, RemoveInMain(c));
      var s2 := After(s1, first);
      DyingIsDue(s2, c);
      var second := FunctorRuns(s2, s2.owner[c], Destroy(c));
      RunConcat(s1, first, second);
      steps := first + second;
    }
    Gone(After(s1, steps), c);
    Prefix(s, CloseNotify(c), steps);
  }

  lemma Gone(s: State, c: Conn)
    requires Sound(s) && c in s.stage && s.stage[c].Dead?
    ensures c !in s.connections && c !in s.registered
  {
    StageTells(s, c);
  }
}
