/**
 How a connection is taken down across loops: TcpServer.cpp and TcpConnection.cpp
 route the removal from the worker's loop through the main loop and back.
 */
module Removal {
  datatype Conn = Conn(name: string)
  type LoopId = nat

  const MAIN: LoopId := 0

  /** A functor in some loop's pending list; each holds a shared_ptr to its connection. */
  datatype Task = Establish(c: Conn) | RemoveInMain(c: Conn) | Destroy(c: Conn)

  /** `active` are the connections whose handlers the last poll collected. */
  datatype Phase = Polling | Dispatching(active: set<Conn>) | Running

  /** `batch` is the vector swapped out by doPendingFuncs_, alive until it returns;
      `done` of its functors have run. */
  datatype Loop = Loop(phase: Phase, pending: seq<Task>, batch: seq<Task>, done: nat)

  /** The life of a connection, as history. */
  datatype Stage = Queued | Up | Leaving | Dying | Dead

  /** `connections` is TcpServer's map; `registered` are the connections whose
      handler is in the handlerList_ of their own loop. */
  datatype State = State(
    loops: map<LoopId, Loop>, connections: set<Conn>, owner: map<Conn, LoopId>, registered: set<Conn>,
    stage: map<Conn, Stage>)

  datatype Step =
    | NewConnection(c: Conn, w: LoopId)       // handleNewConnection on the main loop
    | Poll(l: LoopId, active: set<Conn>)
    | CloseNotify(c: Conn)                    // handleClose, called on the connection's loop
    | EndDispatch(l: LoopId)                  // the swap
    | RunTask(l: LoopId)
    | EndBatch(l: LoopId)

  function Todo(p: Loop): seq<Task> {
    (if p.done <= |p.batch| then p.batch[p.done..] else []) + p.pending
  }

  function Count(p: Loop, t: Task): nat { multiset(Todo(p))[t] }

  ghost predicate InCode(s: State, l: LoopId) {
    l in s.loops && !s.loops[l].phase.Polling?
  }

  ghost predicate Enabled(s: State, e: Step) {
    match e
    case NewConnection(c, w) => c !in s.owner && w in s.loops && InCode(s, MAIN)
    case Poll(l, active) =>
      && l in s.loops && s.loops[l].phase.Polling?
      && forall c :: c in active ==> c in s.registered && c in s.owner && s.owner[c] == l
    // one close notification per connection: from its own handler, or from
    // forceClose, which runs as a functor on the same loop; the connection has not
    // been shut down, or handleClose would exit the process
    case CloseNotify(c) =>
      c in s.stage && s.stage[c].Up? && c in s.owner && InCode(s, s.owner[c]) && MAIN in s.loops
    case EndDispatch(l) => l in s.loops && s.loops[l].phase.Dispatching?
    case RunTask(l) => l in s.loops && s.loops[l].phase.Running? && s.loops[l].done < |s.loops[l].batch|
    case EndBatch(l) => l in s.loops && s.loops[l].phase.Running? && s.loops[l].done >= |s.loops[l].batch|
  }

  function Push(s: State, l: LoopId, t: Task): State {
    if l in s.loops then s.(loops := s.loops[l := s.loops[l].(pending := s.loops[l].pending + [t])]) else s
  }

  function SetLoop(s: State, l: LoopId, p: Loop): State { s.(loops := s.loops[l := p]) }

  function SetStage(s: State, c: Conn, g: Stage): State { s.(stage := s.stage[c := g]) }

  /** connectEstablished */
  function Established(s: State, c: Conn): State {
    SetStage(s, c, Up).(registered := s.registered + {c})
  }

  /** handleRemoveConnectionInLoop */
  function Removed(s: State, c: Conn): State {
    var s1 := SetStage(s, c, Dying);
    (if c in s.owner then Push(s1, s.owner[c], Destroy(c)) else s1).(connections := s.connections - {c})
  }

  /** connectDestroyed */
  function Destroyed(s: State, c: Conn): State {
    SetStage(s, c, Dead).(registered := s.registered - {c})
  }

  ghost function Next(s: State, e: Step): State
    requires Enabled(s, e)
  {
    match e
    case NewConnection(c, w) =>
      var s1 := s.(connections := s.connections + {c}, owner := s.owner[c := w]);
      if w == MAIN then Established(s1, c) else Push(SetStage(s1, c, Queued), w, Establish(c))
    case Poll(l, active) => SetLoop(s, l, s.loops[l].(phase := Dispatching(active)))
    case CloseNotify(c) =>
      // closeCb_ is handleRemoveConnection: runInLoop on the main loop
      if s.owner[c] == MAIN then Removed(s, c) else Push(SetStage(s, c, Leaving), MAIN, RemoveInMain(c))
    case EndDispatch(l) => SetLoop(s, l, Loop(Running, [], s.loops[l].pending, 0))
    case RunTask(l) =>
      var p := s.loops[l];
      var s1 := SetLoop(s, l, p.(done := p.done + 1));
      (match p.batch[p.done]
       case Establish(c) => Established(s1, c)
       case RemoveInMain(c) => Removed(s1, c)
       case Destroy(c) => Destroyed(s1, c))
    case EndBatch(l) => SetLoop(s, l, Loop(Polling, s.loops[l].pending, [], 0))
  }

  ghost predicate LegalRun(s: State, run: seq<Step>)
    decreases |run|
  {
    run != [] ==> Enabled(s, run[0]) && LegalRun(Next(s, run[0]), run[1..])
  }

  ghost function After(s: State, run: seq<Step>): State
    requires LegalRun(s, run)
    decreases |run|
  {
    if run == [] then s else After(Next(s, run[0]), run[1..])
  }

  ghost predicate Initial(s: State) {
    && MAIN in s.loops
    && (forall l :: l in s.loops ==> s.loops[l] == Loop(Polling, [], [], 0))
    && s.connections == {} && s.owner == map[] && s.registered == {} && s.stage == map[]
  }

  /** Some shared_ptr to the connection exists: in TcpServer's map or in a functor,
      run or not, that has not been destroyed yet. */
  ghost predicate Alive(s: State, c: Conn) {
    || c in s.connections
    || exists l, t: Task :: l in s.loops && t.c == c && (t in s.loops[l].pending || t in s.loops[l].batch)
  }

  // ------------------------------------------------------------- invariant

  /** Whether loop `l` should have this functor before it, once. */
  ghost predicate Due(s: State, l: LoopId, t: Task) {
    && t.c in s.stage && t.c in s.owner
    && match t
       case Establish(c) => s.stage[c].Queued? && s.owner[c] == l
       case RemoveInMain(c) => s.stage[c].Leaving? && l == MAIN
       case Destroy(c) => s.stage[c].Dying? && s.owner[c] == l
  }

  ghost predicate Tasks(s: State) {
    forall l, t: Task :: l in s.loops ==> Count(s.loops[l], t) == if Due(s, l, t) then 1 else 0
  }

  ghost predicate Places(s: State) {
    && MAIN in s.loops
    && s.owner.Keys == s.stage.Keys
    && (forall c :: c in s.owner ==> s.owner[c] in s.loops)
    && (forall c :: c in s.registered <==> c in s.stage && (s.stage[c].Up? || s.stage[c].Leaving? || s.stage[c].Dying?))
    && (forall c :: c in s.connections <==>
          c in s.stage && (s.stage[c].Queued? || s.stage[c].Up? || s.stage[c].Leaving?))
  }

  ghost predicate LoopFine(registered: set<Conn>, owner: map<Conn, LoopId>, l: LoopId, p: Loop) {
    && (p.phase.Dispatching? ==>
          forall c :: c in p.phase.active ==> c in registered && c in owner && owner[c] == l)
    && p.done <= |p.batch| && (p.phase.Running? || p.batch == [])
  }

  ghost predicate Collected(s: State) {
    forall l :: l in s.loops ==> LoopFine(s.registered, s.owner, l, s.loops[l])
  }

  ghost predicate Sound(s: State) {
    Tasks(s) && Places(s) && Collected(s)
  }

  lemma CountPush(p: Loop, t: Task, t': Task)
    ensures Count(p.(pending := p.pending + [t]), t') == Count(p, t') + if t' == t then 1 else 0
  {
    assert Todo(p.(pending := p.pending + [t])) == Todo(p) + [t];
  }

  lemma CountPop(p: Loop, t': Task)
    requires p.done < |p.batch|
    ensures Count(p, t') == Count(p.(done := p.done + 1), t') + if t' == p.batch[p.done] then 1 else 0
  {
    assert Todo(p) == [p.batch[p.done]] + Todo(p.(done := p.done + 1));
  }

  /** As Tasks, but with no functor for `c` anywhere. */
  ghost predicate TasksBut(s: State, c: Conn) {
    forall l, t: Task :: l in s.loops ==> Count(s.loops[l], t) == if t.c != c && Due(s, l, t) then 1 else 0
  }

  lemma NothingDue(s: State, c: Conn)
    requires Tasks(s) && (c in s.stage ==> s.stage[c].Up? || s.stage[c].Dead?)
    ensures TasksBut(s, c)
  {}

  lemma HeadIsDue(s: State, l: LoopId)
    requires Tasks(s) && l in s.loops && s.loops[l].done < |s.loops[l].batch|
    ensures Due(s, l, s.loops[l].batch[s.loops[l].done])
  {
    var p := s.loops[l];
    assert p.batch[p.done] == Todo(p)[0];
    assert multiset(Todo(p))[Todo(p)[0]] > 0;
  }

  lemma PopCount(s: State, l: LoopId, l': LoopId, t': Task)
    requires l in s.loops && l' in s.loops && s.loops[l].done < |s.loops[l].batch|
    ensures var p := s.loops[l];
            var s' := SetLoop(s, l, p.(done := p.done + 1));
            && Count(s.loops[l'], t') ==
                 Count(s'.loops[l'], t') + (if l' == l && t' == p.batch[p.done] then 1 else 0)
            && (Due(s', l', t') <==> Due(s, l', t'))
  {
    CountPop(s.loops[l], t');
    hide Count;
  }

  lemma DueOnce(s: State, l: LoopId, t: Task, l': LoopId, t': Task)
    requires Due(s, l, t) && Due(s, l', t') && t.c == t'.c
    ensures l == l' && t == t'
  {}

  lemma PopOne(s: State, l: LoopId, l': LoopId, t': Task)
    requires Tasks(s) && l in s.loops && l' in s.loops && s.loops[l].done < |s.loops[l].batch|
    requires Due(s, l, s.loops[l].batch[s.loops[l].done])
    ensures var p := s.loops[l];
            var s' := SetLoop(s, l, p.(done := p.done + 1));
            Count(s'.loops[l'], t') == if t'.c != p.batch[p.done].c && Due(s', l', t') then 1 else 0
  {
    assert Count(s.loops[l'], t') == if Due(s, l', t') then 1 else 0;
    hide Count, Due, Tasks;
    var t := s.loops[l].batch[s.loops[l].done];
    PopCount(s, l, l', t');
    if t'.c == t.c && Due(s, l', t') {
      DueOnce(s, l, t, l', t');
    }
  }

  lemma PopLeaves(s: State, l: LoopId)
    requires Tasks(s) && l in s.loops && s.loops[l].done < |s.loops[l].batch|
    ensures var p := s.loops[l];
            TasksBut(SetLoop(s, l, p.(done := p.done + 1)), p.batch[p.done].c)
  {
    var p := s.loops[l];
    var t, s' := p.batch[p.done], SetLoop(s, l, p.(done := p.done + 1));
    HeadIsDue(s, l);
    hide Count, Due, Tasks;
    forall l', t': Task | l' in s'.loops
      ensures Count(s'.loops[l'], t') == if t'.c != t.c && Due(s', l', t') then 1 else 0
    {
      PopOne(s, l, l', t');
    }
  }

  lemma PushOne(s: State, c: Conn, g: Stage, l: LoopId, t: Task, l': LoopId, t': Task)
    requires TasksBut(s, c) && l in s.loops && l' in s.loops && t.c == c
    requires t'.c == c ==> (Due(SetStage(s, c, g), l', t') <==> l' == l && t' == t)
    ensures var s' := Push(SetStage(s, c, g), l, t);
            l' in s'.loops && Count(s'.loops[l'], t') == if Due(s', l', t') then 1 else 0
  {
    assert Count(s.loops[l'], t') == if t'.c != c && Due(s, l', t') then 1 else 0;
    hide Count, Due, TasksBut;
    PushCount(SetStage(s, c, g), l, t, l', t');
    OthersDue(s, c, g, l', t');
  }

  /** Pushing the functor that a new stage calls for. */
  lemma PushKeepsTasks(s: State, c: Conn, g: Stage, l: LoopId, t: Task)
    requires TasksBut(s, c) && l in s.loops && t.c == c && c in s.owner
    requires forall l', t': Task :: t'.c == c ==> (Due(SetStage(s, c, g), l', t') <==> l' == l && t' == t)
    ensures Tasks(Push(SetStage(s, c, g), l, t))
  {
    var s' := Push(SetStage(s, c, g), l, t);
    forall l', t': Task | l' in s'.loops
      ensures Count(s'.loops[l'], t') == if Due(s', l', t') then 1 else 0
    {
      hide Count, Due, TasksBut;
      PushOne(s, c, g, l, t, l', t');
    }
  }

  lemma PushCount(s: State, l: LoopId, t: Task, l': LoopId, t': Task)
    requires l in s.loops && l' in s.loops
    ensures Count(Push(s, l, t).loops[l'], t') ==
              Count(s.loops[l'], t') + if l' == l && t' == t then 1 else 0
    ensures Due(Push(s, l, t), l', t') <==> Due(s, l', t')
  {
    CountPush(s.loops[l], t, t');
    hide Count;
  }

  lemma OthersDue(s: State, c: Conn, g: Stage, l: LoopId, t: Task)
    ensures t.c != c ==> (Due(SetStage(s, c, g), l, t) <==> Due(s, l, t))
  {}

  lemma StageDue(s: State, c: Conn, g: Stage, l: LoopId, t: Task)
    requires g.Up? || g.Dead?
    ensures t.c == c ==> !Due(SetStage(s, c, g), l, t)
  {}

  /** A stage that calls for no functor. */
  lemma StageKeepsTasks(s: State, c: Conn, g: Stage)
    requires TasksBut(s, c) && (g.Up? || g.Dead?)
    ensures Tasks(SetStage(s, c, g))
  {
    var s' := SetStage(s, c, g);
    forall l', t': Task | l' in s'.loops
      ensures Count(s'.loops[l'], t') == if Due(s', l', t') then 1 else 0
    {
      OthersDue(s, c, g, l', t');
      StageDue(s, c, g, l', t');
      hide Count, Due;
    }
  }

  // ----------------------------------------------------- one step at a time

  lemma TasksDepend(s: State, s': State)
    requires Tasks(s) && s.loops == s'.loops && s.stage == s'.stage && s.owner == s'.owner
    ensures Tasks(s')
  {
    forall l, t: Task | l in s'.loops
      ensures Count(s'.loops[l], t) == if Due(s', l, t) then 1 else 0
    {
      assert Due(s', l, t) <==> Due(s, l, t);
    }
  }

  lemma EstablishedKeeps(s: State, c: Conn)
    requires TasksBut(s, c)
    ensures Tasks(Established(s, c))
  {
    StageKeepsTasks(s, c, Up);
    TasksDepend(SetStage(s, c, Up), Established(s, c));
  }

  lemma DestroyedKeeps(s: State, c: Conn)
    requires TasksBut(s, c)
    ensures Tasks(Destroyed(s, c))
  {
    StageKeepsTasks(s, c, Dead);
    TasksDepend(SetStage(s, c, Dead), Destroyed(s, c));
  }

  lemma RemovedKeeps(s: State, c: Conn)
    requires TasksBut(s, c) && c in s.owner && s.owner[c] in s.loops
    ensures Tasks(Removed(s, c))
  {
    PushKeepsTasks(s, c, Dying, s.owner[c], Destroy(c));
    TasksDepend(Push(SetStage(s, c, Dying), s.owner[c], Destroy(c)), Removed(s, c));
  }

  lemma NewKeepsTasks(s: State, c: Conn, w: LoopId)
    requires Sound(s) && Enabled(s, NewConnection(c, w))
    ensures Tasks(Next(s, NewConnection(c, w)))
  {
    NothingDue(s, c);
    var s1 := s.(connections := s.connections + {c}, owner := s.owner[c := w]);
    forall l, t: Task | l in s1.loops
      ensures Count(s1.loops[l], t) == if t.c != c && Due(s1, l, t) then 1 else 0
    {
      assert t.c != c ==> (Due(s1, l, t) <==> Due(s, l, t));
    }
    assert TasksBut(s1, c);
    if w == MAIN {
      EstablishedKeeps(s1, c);
    } else {
      PushKeepsTasks(s1, c, Queued, w, Establish(c));
    }
  }

  lemma CloseKeepsTasks(s: State, c: Conn)
    requires Sound(s) && Enabled(s, CloseNotify(c))
    ensures Tasks(Next(s, CloseNotify(c)))
  {
    NothingDue(s, c);
    if s.owner[c] == MAIN {
      RemovedKeeps(s, c);
    } else {
      PushKeepsTasks(s, c, Leaving, MAIN, RemoveInMain(c));
    }
  }

  lemma RunKeepsTasks(s: State, l: LoopId)
    requires Sound(s) && Enabled(s, RunTask(l))
    ensures Tasks(Next(s, RunTask(l)))
  {
    HeadIsDue(s, l);
    PopLeaves(s, l);
    hide Tasks, TasksBut;
    var p := s.loops[l];
    var s1 := SetLoop(s, l, p.(done := p.done + 1));
    match p.batch[p.done]
    case Establish(c) => EstablishedKeeps(s1, c);
    case RemoveInMain(c) => RemovedKeeps(s1, c);
    case Destroy(c) => DestroyedKeeps(s1, c);
  }

  lemma SwapKeepsTasks(s: State, l: LoopId, p: Loop)
    requires Tasks(s) && l in s.loops && Todo(p) == Todo(s.loops[l])
    ensures Tasks(SetLoop(s, l, p))
  {
    var s' := SetLoop(s, l, p);
    forall l', t: Task | l' in s'.loops
      ensures Count(s'.loops[l'], t) == if Due(s', l', t) then 1 else 0
    {
      assert Due(s', l', t) <==> Due(s, l', t);
      hide Todo, Due;
    }
  }

  lemma StepKeepsTasks(s: State, e: Step)
    requires Sound(s) && Enabled(s, e)
    ensures Tasks(Next(s, e))
  {
    match e
    case NewConnection(c, w) => NewKeepsTasks(s, c, w);
    case CloseNotify(c) => CloseKeepsTasks(s, c);
    case RunTask(l) => RunKeepsTasks(s, l);
    case Poll(l, active) => SwapKeepsTasks(s, l, s.loops[l].(phase := Dispatching(active)));
    case EndDispatch(l) => SwapKeepsTasks(s, l, Loop(Running, [], s.loops[l].pending, 0));
    case EndBatch(l) => SwapKeepsTasks(s, l, Loop(Polling, s.loops[l].pending, [], 0));
  }

  lemma StepKeepsPlaces(s: State, e: Step)
    requires Sound(s) && Enabled(s, e)
    ensures Places(Next(s, e))
  {
    if e.RunTask? {
      HeadIsDue(s, e.l);
      hide Tasks, Collected;
      TaskKeepsPlaces(s, e.l);
    } else {
      hide Tasks, Collected, Places;
      OtherKeepsPlaces(s, e);
    }
  }

  lemma OtherKeepsPlaces(s: State, e: Step)
    requires Places(s) && Enabled(s, e) && !e.RunTask?
    ensures Places(Next(s, e))
  {}

  lemma TaskKeepsPlaces(s: State, l: LoopId)
    requires Places(s) && Enabled(s, RunTask(l)) && Due(s, l, s.loops[l].batch[s.loops[l].done])
    ensures Places(Next(s, RunTask(l)))
  {}

  lemma StepKeepsCollected(s: State, e: Step)
    requires Sound(s) && Enabled(s, e)
    ensures Collected(Next(s, e))
  {
    var s' := Next(s, e);
    forall l | l in s'.loops
      ensures LoopFine(s'.registered, s'.owner, l, s'.loops[l])
    {
      assert l in s.loops && LoopFine(s.registered, s.owner, l, s.loops[l]);
      OwnersKnown(s);
      if e.RunTask? {
        HeadIsDue(s, e.l);
        hide Tasks, Places, Collected, LoopFine, Next;
        TaskKeepsLoop(s, e.l, l);
      } else {
        hide Tasks, Places, Collected, LoopFine, Next;
        OtherKeepsLoop(s, e, l);
      }
    }
  }

  lemma OwnersKnown(s: State)
    requires Places(s)
    ensures s.registered <= s.owner.Keys
  {}

  lemma OtherKeepsLoop(s: State, e: Step, l: LoopId)
    requires Enabled(s, e) && !e.RunTask? && s.registered <= s.owner.Keys
    requires l in s.loops && LoopFine(s.registered, s.owner, l, s.loops[l])
    ensures var s' := Next(s, e); l in s'.loops && LoopFine(s'.registered, s'.owner, l, s'.loops[l])
  {}

  lemma TaskKeepsLoop(s: State, l: LoopId, l': LoopId)
    requires Enabled(s, RunTask(l)) && Due(s, l, s.loops[l].batch[s.loops[l].done])
    requires l' in s.loops && LoopFine(s.registered, s.owner, l', s.loops[l'])
    ensures var s' := Next(s, RunTask(l)); l' in s'.loops && LoopFine(s'.registered, s'.owner, l', s'.loops[l'])
  {}

  lemma {:induction false} RunKeeps(s: State, run: seq<Step>)
    requires Sound(s) && LegalRun(s, run)
    ensures Sound(After(s, run))
    decreases |run|
  {
    hide Tasks, Places, Collected;
    if run != [] {
      StepKeepsTasks(s, run[0]);
      StepKeepsPlaces(s, run[0]);
      StepKeepsCollected(s, run[0]);
      RunKeeps(Next(s, run[0]), run[1..]);
    }
  }

  // -------------------------------------------------------------- theorems

  lemma InitialIsSound(s: State)
    requires Initial(s)
    ensures Sound(s)
  {
    forall l | l in s.loops
      ensures Todo(s.loops[l]) == []
    {}
  }

  /** A connection that is neither unheard of nor finished is kept alive by
      TcpServer's map or by the functor that will take it down. */
  lemma UnfinishedIsAlive(s: State, c: Conn)
    requires Sound(s) && c in s.stage && !s.stage[c].Dead?
    ensures Alive(s, c)
  {
    if s.stage[c].Dying? {
      var l, t := s.owner[c], Destroy(c);
      assert Due(s, l, t);
      assert t in multiset(Todo(s.loops[l]));
      assert t in Todo(s.loops[l]);
      assert t in s.loops[l].pending || t in s.loops[l].batch;
    }
  }

  /** While a loop dispatches, every handler its poll collected is still in its
      handlerList_, and the connection owning it still exists: over every
      interleaving of any number of loops and connections. */
  lemma CollectedHandlersAreSafe(init: State, run: seq<Step>, l: LoopId, c: Conn)
    requires Initial(init) && LegalRun(init, run)
    requires var s := After(init, run);
             l in s.loops && s.loops[l].phase.Dispatching? && c in s.loops[l].phase.active
    ensures var s := After(init, run);
            c in s.registered && c in s.owner && s.owner[c] == l && Alive(s, c)
  {
    InitialIsSound(init);
    RunKeeps(init, run);
    UnfinishedIsAlive(After(init, run), c);
  }

  /** No handler outlives its connection, in any reachable state. */
  lemma RegisteredIsAlive(init: State, run: seq<Step>, c: Conn)
    requires Initial(init) && LegalRun(init, run) && c in After(init, run).registered
    ensures Alive(After(init, run), c)
  {
    InitialIsSound(init);
    RunKeeps(init, run);
    UnfinishedIsAlive(After(init, run), c);
  }

  /** What the code asserts when a functor runs: connectEstablished finds the
      connection new, the erase from connections_ finds it there, and removeHandler
      finds the handler registered on this very loop. */
  lemma FunctorsFindWhatTheyExpect(init: State, run: seq<Step>, l: LoopId)
    requires Initial(init) && LegalRun(init, run) && Enabled(After(init, run), RunTask(l))
    ensures var s := After(init, run);
            match s.loops[l].batch[s.loops[l].done]
            case Establish(c) => c !in s.registered && c in s.connections && c in s.owner && s.owner[c] == l
            case RemoveInMain(c) => l == MAIN && c in s.connections
            case Destroy(c) => c in s.registered && c !in s.connections && c in s.owner && s.owner[c] == l
  {
    InitialIsSound(init);
    RunKeeps(init, run);
    HeadIsDue(After(init, run), l);
  }

  /** Each connection is removed once: after its connectDestroyed no functor for it
      is left to run, and its handler is registered nowhere. */
  lemma DestroyedForGood(init: State, run: seq<Step>, c: Conn)
    requires Initial(init) && LegalRun(init, run)
    requires c in After(init, run).stage && After(init, run).stage[c].Dead?
    ensures var s := After(init, run);
            && c !in s.registered && c !in s.connections
            && forall l, t: Task :: l in s.loops && t.c == c ==> t !in Todo(s.loops[l])
  {
    InitialIsSound(init);
    RunKeeps(init, run);
    var s := After(init, run);
    forall l, t: Task | l in s.loops && t.c == c
      ensures t !in Todo(s.loops[l])
    {
      assert !Due(s, l, t);
      assert Count(s.loops[l], t) == 0;
    }
  }
}
