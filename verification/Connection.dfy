/**
 The output path of TcpConnection.cpp: what the loop thread does with one
 connection, interleaved with sends and shutdowns from other threads.
 */
module Connection {
  datatype ConnState = Connected | Disconnecting

  /** A functor another thread has put into the loop's pending list. */
  datatype Task = SendTask(msg: string) | ShutdownTask

  datatype Option<T> = None | Some(value: T)

  /** `writing` is the handler's write interest and `output` the readable part of
      outputBuffer_; `sending` is a message between the test in send and the body
      of sendInLoop, on the loop thread. `senders`, `deciders` and `announcers` are
      the other threads between two statements of send and of shutdown. `closed`
      ends the life considered here, and `exited` says that it did so by exit(-1)
      in handleClose. History: the bytes the kernel took, the
      messages accepted, whether SHUT_WR was issued, and whether a write was
      attempted after it. */
  datatype Conn = Conn(
    state: ConnState, writing: bool, output: string, sending: Option<string>,
    pending: seq<Task>, senders: multiset<string>, deciders: nat, announcers: nat, closed: bool, exited: bool,
    kernel: string, accepted: string, shut: bool, wroteAfterShut: bool)

  const INIT := Conn(Connected, false, "", None, [], multiset{}, 0, 0, false, false, "", "", false, false)

  /** What ::write may return for `len` bytes: an error, or a short count; the
      kernel takes nothing once the writing side is shut. */
  predicate WriteResult(c: Conn, n: int, len: nat) {
    -1 <= n <= len && (c.shut ==> n < 0)
  }

  function SendInLoop(c: Conn, msg: string, n: int): Conn
    requires WriteResult(c, n, |msg|)
  {
    var direct := !c.writing && c.output == "";
    var taken := if direct && 0 <= n then n else 0;
    var c1 := c.(kernel := c.kernel + msg[..taken], accepted := c.accepted + msg,
                 wroteAfterShut := c.wroteAfterShut || (direct && c.shut));
    if taken < |msg| then c1.(output := c.output + msg[taken..], writing := true) else c1
  }

  function ShutdownInLoop(c: Conn): Conn {
    if c.writing then c else c.(shut := true)
  }

  function HandleWrite(c: Conn, n: int): Conn
    requires WriteResult(c, n, |c.output|)
  {
    if !c.writing then c
    else
      var c1 := c.(wroteAfterShut := c.wroteAfterShut || c.shut);
      if n <= 0 then c1
      else
        var c2 := c1.(kernel := c.kernel + c.output[..n], output := c.output[n..]);
        if c2.output != "" then c2
        else
          var c3 := c2.(writing := false);
          if c3.state.Disconnecting? then ShutdownInLoop(c3) else c3
  }

  datatype Step =
    | LoopSend(msg: string)            // send on the loop thread: the test of state_
    | LoopSendBody(n: int)             // ... and sendInLoop
    | LoopShutdown                     // shutdown on the loop thread
    | Writable(n: int)                 // the handler's write callback
    | RunTask(n: int)                  // the loop runs the oldest functor
    | SendTest(msg: string)            // another thread in send: the test,
    | SendQueue(msg: string)           // ... and the push
    | ShutdownTest                     // another thread in shutdown: the test,
    | ShutdownSet                      // ... setState(DISCONNECTING),
    | ShutdownQueue                    // ... and the push
    | Close                            // handleClose

  predicate Enabled(c: Conn, e: Step) {
    && !c.closed
    && match e
       case LoopSend(_) => c.sending.None? && c.state.Connected?
       case LoopSendBody(n) => c.sending.Some? && WriteResult(c, n, |c.sending.value|)
       case LoopShutdown => c.sending.None? && c.state.Connected?
       case Writable(n) => c.sending.None? && WriteResult(c, n, |c.output|)
       case RunTask(n) =>
         c.sending.None? && c.pending != [] &&
         (c.pending[0].SendTask? ==> WriteResult(c, n, |c.pending[0].msg|))
       case SendTest(_) => c.state.Connected?
       case SendQueue(msg) => msg in c.senders
       case ShutdownTest => c.state.Connected?
       case ShutdownSet => 0 < c.deciders
       case ShutdownQueue => 0 < c.announcers
       case Close => c.sending.None?
  }

  function Next(c: Conn, e: Step): Conn
    requires Enabled(c, e)
  {
    match e
    case LoopSend(msg) => c.(sending := Some(msg))
    case LoopSendBody(n) => SendInLoop(c.(sending := None), c.sending.value, n)
    case LoopShutdown => ShutdownInLoop(c.(state := Disconnecting))
    case Writable(n) => HandleWrite(c, n)
    case RunTask(n) =>
      var c1 := c.(pending := c.pending[1..]);
      (match c.pending[0]
       case SendTask(msg) => SendInLoop(c1, msg, n)
       case ShutdownTask => ShutdownInLoop(c1))
    case SendTest(msg) => c.(senders := c.senders + multiset{msg})
    case SendQueue(msg) => c.(senders := c.senders - multiset{msg}, pending := c.pending + [SendTask(msg)])
    case ShutdownTest => c.(deciders := c.deciders + 1)
    case ShutdownSet => c.(deciders := c.deciders - 1, state := Disconnecting, announcers := c.announcers + 1)
    case ShutdownQueue => c.(announcers := c.announcers - 1, pending := c.pending + [ShutdownTask])
    case Close =>
      if c.state.Connected? then c.(writing := false, closed := true) else c.(closed := true, exited := true)
  }

  predicate LegalRun(c: Conn, run: seq<Step>)
    decreases |run|
  {
    run != [] ==> Enabled(c, run[0]) && LegalRun(Next(c, run[0]), run[1..])
  }

  function After(c: Conn, run: seq<Step>): Conn
    requires LegalRun(c, run)
    decreases |run|
  {
    if run == [] then c else After(Next(c, run[0]), run[1..])
  }

  lemma {:induction false} AfterSplit(c: Conn, front: seq<Step>, e: Step)
    requires LegalRun(c, front + [e])
    ensures LegalRun(c, front) && Enabled(After(c, front), e)
    ensures After(c, front + [e]) == Next(After(c, front), e)
    decreases |front|
  {
    if front == [] {
      assert ([] + [e])[1..] == [];
    } else {
      assert (front + [e])[1..] == front[1..] + [e];
      AfterSplit(Next(c, front[0]), front[1..], e);
    }
  }

  // ------------------------------------------------------------ what happened

  /** The functors other threads have queued, in order, and how many have run. */
  function Queued(run: seq<Step>): seq<Task> {
    if run == [] then []
    else
      var e := run[|run| - 1];
      Queued(run[..|run| - 1]) +
        if e.SendQueue? then [SendTask(e.msg)] else if e.ShutdownQueue? then [ShutdownTask] else []
  }

  function TasksRun(run: seq<Step>): nat {
    if run == [] then 0 else TasksRun(run[..|run| - 1]) + if run[|run| - 1].RunTask? then 1 else 0
  }

  /** The message the loop thread is about to send, having found the connection up. */
  function Sending(run: seq<Step>): Option<string> {
    if run == [] || run[|run| - 1].LoopSendBody? then None
    else if run[|run| - 1].LoopSend? then Some(run[|run| - 1].msg)
    else Sending(run[..|run| - 1])
  }

  /** The message whose sendInLoop this step is, after the steps before it. */
  function Body(front: seq<Step>, e: Step): Option<string> {
    if e.LoopSendBody? then Sending(front)
    else if e.RunTask? && TasksRun(front) < |Queued(front)| then
      match Queued(front)[TasksRun(front)]
      case SendTask(msg) => Some(msg)
      case ShutdownTask => None
    else None
  }

  /** The messages whose sendInLoop has taken place, in order. */
  function Sent(run: seq<Step>): string {
    if run == [] then ""
    else
      var front := run[..|run| - 1];
      match Body(front, run[|run| - 1])
      case Some(msg) => Sent(front) + msg
      case None => Sent(front)
  }

  /** The threads between the test and the assignment in shutdown, and between that
      and the push. */
  function Deciding(run: seq<Step>): int {
    if run == [] then 0
    else
      var e := run[|run| - 1];
      Deciding(run[..|run| - 1]) + if e.ShutdownTest? then 1 else if e.ShutdownSet? then -1 else 0
  }

  function Announcing(run: seq<Step>): int {
    if run == [] then 0
    else
      var e := run[|run| - 1];
      Announcing(run[..|run| - 1]) + if e.ShutdownSet? then 1 else if e.ShutdownQueue? then -1 else 0
  }

  /** The state is what the steps made have left. */
  lemma {:induction false} StateFromRun(run: seq<Step>)
    requires LegalRun(INIT, run)
    ensures var c := After(INIT, run);
            && TasksRun(run) <= |Queued(run)| && c.pending == Queued(run)[TasksRun(run)..]
            && c.sending == Sending(run) && c.accepted == Sent(run)
            && c.deciders == Deciding(run) && c.announcers == Announcing(run)
  {
    if run != [] {
      var front, e := run[..|run| - 1], run[|run| - 1];
      assert run == front + [e];
      AfterSplit(INIT, front, e);
      StateFromRun(front);
      StepLeavesTasks(After(INIT, front), front, e);
      StepLeavesMessages(After(INIT, front), front, e);
      StepLeavesCounts(After(INIT, front), front, e);
      hide Next, Enabled, LegalRun, After, Queued, TasksRun, Sending, Sent, Deciding, Announcing;
    }
  }

  lemma StepLeavesTasks(c: Conn, front: seq<Step>, e: Step)
    requires Enabled(c, e) && TasksRun(front) <= |Queued(front)| && c.pending == Queued(front)[TasksRun(front)..]
    ensures var run := front + [e];
            TasksRun(run) <= |Queued(run)| && Next(c, e).pending == Queued(run)[TasksRun(run)..]
  {
    assert (front + [e])[..|front|] == front;
    PendingAfter(c, e);
    hide Next, Enabled;
    var q, k := Queued(front), TasksRun(front);
    match e
    case SendQueue(msg) => assert (q + [SendTask(msg)])[k..] == q[k..] + [SendTask(msg)];
    case ShutdownQueue => assert (q + [ShutdownTask])[k..] == q[k..] + [ShutdownTask];
    case RunTask(_) => assert q[k..][1..] == q[k + 1..] && q + [] == q;
    case _ => assert q + [] == q;
  }

  lemma PendingAfter(c: Conn, e: Step)
    requires Enabled(c, e)
    ensures Next(c, e).pending ==
              match e
              case SendQueue(msg) => c.pending + [SendTask(msg)]
              case ShutdownQueue => c.pending + [ShutdownTask]
              case RunTask(_) => c.pending[1..]
              case _ => c.pending
    ensures e.RunTask? ==> c.pending != []
  {
    hide SendInLoop, HandleWrite;
    match e
    case LoopSendBody(n) => SendAccepts(c.(sending := None), c.sending.value, n);
    case Writable(n) => WriteAccepts(c, n);
    case RunTask(n) =>
      if c.pending[0].SendTask? {
        SendAccepts(c.(pending := c.pending[1..]), c.pending[0].msg, n);
      }
    case _ =>
  }

  lemma StepLeavesMessages(c: Conn, front: seq<Step>, e: Step)
    requires Enabled(c, e) && TasksRun(front) <= |Queued(front)| && c.pending == Queued(front)[TasksRun(front)..]
    requires c.sending == Sending(front) && c.accepted == Sent(front)
    ensures Next(c, e).sending == Sending(front + [e]) && Next(c, e).accepted == Sent(front + [e])
  {
    assert (front + [e])[..|front|] == front;
    MessagesAfter(c, e);
    assert e.RunTask? ==> c.pending[0] == Queued(front)[TasksRun(front)];
    hide Next, Enabled, Queued, TasksRun;
  }

  lemma SendAccepts(c: Conn, msg: string, n: int)
    requires WriteResult(c, n, |msg|)
    ensures var c' := SendInLoop(c, msg, n);
            && c'.accepted == c.accepted + msg
            && c' == c.(kernel := c'.kernel, accepted := c'.accepted, output := c'.output, writing := c'.writing,
                        wroteAfterShut := c'.wroteAfterShut)
  {}

  lemma WriteAccepts(c: Conn, n: int)
    requires WriteResult(c, n, |c.output|)
    ensures var c' := HandleWrite(c, n);
            c' == c.(kernel := c'.kernel, output := c'.output, writing := c'.writing, shut := c'.shut,
                     wroteAfterShut := c'.wroteAfterShut)
  {}

  lemma MessagesAfter(c: Conn, e: Step)
    requires Enabled(c, e)
    ensures Next(c, e).sending == if e.LoopSend? then Some(e.msg) else if e.LoopSendBody? then None else c.sending
    ensures e.LoopSendBody? ==> c.sending.Some? && Next(c, e).accepted == c.accepted + c.sending.value
    ensures e.RunTask? ==> c.pending != []
    ensures e.RunTask? && c.pending[0].SendTask? ==> Next(c, e).accepted == c.accepted + c.pending[0].msg
    ensures e.RunTask? && c.pending[0].ShutdownTask? ==> Next(c, e).accepted == c.accepted
    ensures !e.LoopSendBody? && !e.RunTask? ==> Next(c, e).accepted == c.accepted
  {
    hide SendInLoop, HandleWrite;
    match e
    case LoopSendBody(n) => SendAccepts(c.(sending := None), c.sending.value, n);
    case Writable(n) => WriteAccepts(c, n);
    case RunTask(n) =>
      if c.pending[0].SendTask? {
        SendAccepts(c.(pending := c.pending[1..]), c.pending[0].msg, n);
      }
    case _ =>
  }

  lemma StepLeavesCounts(c: Conn, front: seq<Step>, e: Step)
    requires Enabled(c, e) && c.deciders == Deciding(front) && c.announcers == Announcing(front)
    ensures Next(c, e).deciders == Deciding(front + [e]) && Next(c, e).announcers == Announcing(front + [e])
  {
    assert (front + [e])[..|front|] == front;
  }

  // ------------------------------------------------------------ invariants

  predicate Stream(c: Conn) {
    && c.kernel + c.output == c.accepted
    && (!c.closed ==> (c.writing <==> c.output != ""))
  }

  /** SHUT_WR comes after a shutdown request, and after the last byte. */
  predicate ShutLast(c: Conn) {
    && (c.shut ==> c.state.Disconnecting? && c.sending.None?)
    && (c.shut && !c.wroteAfterShut && !c.closed ==> c.output == "")
    && (c.wroteAfterShut ==> c.shut)
    && (0 < c.announcers || ShutdownTask in c.pending ==> c.state.Disconnecting?)
  }

  /** A shutdown that was asked for is either done or has something to wait for. */
  predicate NotForgotten(c: Conn) {
    c.state.Disconnecting? ==>
      c.shut || c.output != "" || 0 < c.announcers || ShutdownTask in c.pending
  }

  predicate HalfClose(c: Conn) {
    ShutLast(c) && NotForgotten(c)
  }

  lemma SendKeepsStream(c: Conn, msg: string, n: int)
    requires Stream(c) && !c.closed && WriteResult(c, n, |msg|)
    ensures Stream(SendInLoop(c, msg, n))
  {
    var taken := if !c.writing && c.output == "" && 0 <= n then n else 0;
    assert msg[0..] == msg && msg[..0] == "";
    assert taken == |msg| ==> msg[..taken] == msg && msg[taken..] == "";
    Rejoin(c.kernel, c.output, msg, taken);
  }

  lemma Rejoin(kernel: string, output: string, msg: string, taken: nat)
    requires taken <= |msg| && (output == "" || taken == 0)
    ensures kernel + msg[..taken] + (output + msg[taken..]) == kernel + output + msg
    ensures output + "" == output && kernel + "" == kernel
  {
    if output == "" {
      assert msg == msg[..taken] + msg[taken..];
    }
  }

  lemma WriteKeepsStream(c: Conn, n: int)
    requires Stream(c) && !c.closed && WriteResult(c, n, |c.output|)
    ensures Stream(HandleWrite(c, n))
  {
    if 0 < n {
      assert c.output == c.output[..n] + c.output[n..];
      assert (c.kernel + c.output[..n]) + c.output[n..] == c.kernel + (c.output[..n] + c.output[n..]);
    }
  }

  /** What sendInLoop and handleWrite do to the bytes: none is lost, and the kernel
      takes as many as the write reports. */
  lemma SendAdds(c: Conn, msg: string, n: int)
    requires Stream(c) && !c.closed && WriteResult(c, n, |msg|)
    ensures var c' := SendInLoop(c, msg, n);
            c'.kernel + c'.output == c.kernel + c.output + msg && (c'.writing <==> c'.output != "")
  {
    SendKeepsStream(c, msg, n);
    SendAccepts(c, msg, n);
  }

  lemma WriteMoves(c: Conn, n: int)
    requires WriteResult(c, n, |c.output|)
    ensures var c' := HandleWrite(c, n);
            && c'.kernel + c'.output == c.kernel + c.output
            && (c.writing && 0 < n ==>
                  && c'.output == c.output[n..] && (c'.writing <==> c'.output != "")
                  && (c'.shut <==> c.shut || (c'.output == "" && c.state.Disconnecting?)))
  {
    if 0 < n {
      assert c.output == c.output[..n] + c.output[n..];
      assert (c.kernel + c.output[..n]) + c.output[n..] == c.kernel + (c.output[..n] + c.output[n..]);
    }
  }

  lemma StepKeepsStream(c: Conn, e: Step)
    requires Stream(c) && Enabled(c, e)
    ensures Stream(Next(c, e))
  {
    match e {
      case LoopSendBody(n) => SendKeepsStream(c.(sending := None), c.sending.value, n);
      case Writable(n) => WriteKeepsStream(c, n);
      case RunTask(n) =>
        if c.pending[0].SendTask? {
          SendKeepsStream(c.(pending := c.pending[1..]), c.pending[0].msg, n);
        }
      case _ =>
    }
  }

  lemma StepKeepsShutLast(c: Conn, e: Step)
    requires Stream(c) && ShutLast(c) && Enabled(c, e)
    ensures ShutLast(Next(c, e))
  {}

  lemma StepKeepsHalfClose(c: Conn, e: Step)
    requires Stream(c) && HalfClose(c) && Enabled(c, e)
    ensures HalfClose(Next(c, e))
  {
    StepKeepsShutLast(c, e);
    hide ShutLast;
    if ShutdownTask in c.pending && e.RunTask? && c.pending[0].SendTask? {
      assert c.pending == [c.pending[0]] + c.pending[1..];
    }
  }

  lemma {:induction false} RunKeeps(c: Conn, run: seq<Step>)
    requires LegalRun(c, run) && Stream(c) && HalfClose(c)
    ensures Stream(After(c, run)) && HalfClose(After(c, run))
    decreases |run|
  {
    if run != [] {
      StepKeepsStream(c, run[0]);
      StepKeepsHalfClose(c, run[0]);
      RunKeeps(Next(c, run[0]), run[1..]);
    }
  }

  // -------------------------------------------------------------- theorems

  /** Output conservation, for any interleaving and any short writes or errors: what
      the kernel has taken and what is kept make up the messages sent, in order. */
  lemma OutputConservation(run: seq<Step>)
    requires LegalRun(INIT, run)
    ensures var c := After(INIT, run);
            c.kernel + c.output == Sent(run) && (!c.closed ==> (c.writing <==> c.output != ""))
  {
    RunKeeps(INIT, run);
    StateFromRun(run);
  }

  /** A write is attempted: of a message when nothing is kept, or of what is kept. */
  function Attempt(c: Conn, e: Step): Option<string>
    requires Enabled(c, e)
  {
    match e
    case LoopSendBody(_) => if c.output == "" then c.sending else None
    case RunTask(_) => if c.output == "" && c.pending[0].SendTask? then Some(c.pending[0].msg) else None
    case Writable(_) => if c.output != "" then Some(c.output) else None
    case _ => None
  }

  /** The kernel takes exactly the bytes each write reports, and none otherwise. */
  lemma KernelTakesExactly(run: seq<Step>, e: Step)
    requires LegalRun(INIT, run) && Enabled(After(INIT, run), e)
    ensures var c := After(INIT, run);
            match Attempt(c, e)
            case Some(data) => Next(c, e).kernel == if e.n < 0 then c.kernel else c.kernel + data[..e.n]
            case None => Next(c, e).kernel == c.kernel
  {
    RunKeeps(INIT, run);
    var c := After(INIT, run);
    assert c.kernel + "" == c.kernel;
  }

  /** No send of another thread is still to run: none is between the test of state_
      and its push, and none waits in the loop's pending list. */
  predicate NoSendUnderWay(c: Conn) {
    c.senders == multiset{} && forall i :: 0 <= i < |c.pending| ==> c.pending[i].ShutdownTask?
  }

  lemma Prefix(c: Conn, e: Step, run: seq<Step>)
    requires Enabled(c, e) && LegalRun(Next(c, e), run)
    ensures LegalRun(c, [e] + run) && After(c, [e] + run) == After(Next(c, e), run)
  {
    assert ([e] + run)[1..] == run;
  }

  lemma RunOne(c: Conn, e: Step)
    requires Enabled(c, e)
    ensures LegalRun(c, [e]) && After(c, [e]) == Next(c, e)
  {
    assert [e] + [] == [e];
    Prefix(c, e, []);
  }

  lemma GracefulStep(c: Conn, e: Step)
    requires Stream(c) && ShutLast(c) && Enabled(c, e) && (c.shut || !e.SendTest?)
    requires NoSendUnderWay(c) && !c.wroteAfterShut
    ensures NoSendUnderWay(Next(c, e)) && !Next(c, e).wroteAfterShut && (c.shut ==> Next(c, e).shut)
  {}

  ghost predicate LoopThreadSendsOnly(run: seq<Step>) {
    forall i :: 0 <= i < |run| ==> !run[i].SendTest?
  }

  lemma {:induction false} StaysGraceful(c: Conn, run: seq<Step>)
    requires LegalRun(c, run) && Stream(c) && HalfClose(c) && NoSendUnderWay(c) && !c.wroteAfterShut
    requires c.shut || LoopThreadSendsOnly(run)
    ensures !After(c, run).wroteAfterShut
    decreases |run|
  {
    hide Stream, NoSendUnderWay, ShutLast, NotForgotten;
    if run != [] {
      StepKeepsStream(c, run[0]);
      StepKeepsHalfClose(c, run[0]);
      assert forall i :: 0 <= i < |run| - 1 ==> run[1..][i] == run[i + 1];
      GracefulStep(c, run[0]);
      StaysGraceful(Next(c, run[0]), run[1..]);
    }
  }

  /** A send under way gets its turn after SHUT_WR: first the push, if that is still
      to come, then the functors up to it. */
  lemma {:induction false} SendUnderWayIsLate(c: Conn) returns (run: seq<Step>)
    requires Stream(c) && ShutLast(c) && c.shut && !c.closed && !c.wroteAfterShut && !NoSendUnderWay(c)
    ensures LegalRun(c, run) && After(c, run).wroteAfterShut
    decreases |c.senders|, |c.pending|
  {
    var e: Step;
    if c.senders != multiset{} {
      var msg :| msg in c.senders;
      e := SendQueue(msg);
      assert |c.senders - multiset{msg}| < |c.senders|;
      assert Next(c, e).pending[|c.pending|] == SendTask(msg);
    } else {
      var i :| 0 <= i < |c.pending| && c.pending[i].SendTask?;
      e := RunTask(-1);
      assert 0 < i ==> c.pending[1..][i - 1] == c.pending[i];
    }
    var c1 := Next(c, e);
    if c1.wroteAfterShut {
      run := [e];
      RunOne(c, e);
    } else {
      StepKeepsStream(c, e);
      StepKeepsShutLast(c, e);
      var rest := SendUnderWayIsLate(c1);
      Prefix(c, e, rest);
      run := [e] + rest;
    }
  }

  /** The half-close is graceful, whatever happens afterwards, exactly when no send of
      another thread is under way when SHUT_WR is issued: then no write is ever
      attempted after it, and every accepted byte has been written before it. */
  lemma GracefulExactly(run: seq<Step>)
    requires LegalRun(INIT, run)
    requires var c := After(INIT, run); c.shut && !c.closed && !c.wroteAfterShut
    ensures var c := After(INIT, run);
            && c.kernel == Sent(run) && c.output == ""
            && ((forall more :: LegalRun(c, more) ==> !After(c, more).wroteAfterShut) <==> NoSendUnderWay(c))
  {
    RunKeeps(INIT, run);
    StateFromRun(run);
    var c := After(INIT, run);
    assert c.kernel + "" == c.kernel;
    hide Stream, HalfClose, NoSendUnderWay, Sent;
    if NoSendUnderWay(c) {
      forall more | LegalRun(c, more)
        ensures !After(c, more).wroteAfterShut
      {
        StaysGraceful(c, more);
      }
    } else {
      var more := SendUnderWayIsLate(c);
    }
  }

  /** In particular with sends on the loop thread and shutdown from any thread. */
  lemma GracefulHalfClose(run: seq<Step>)
    requires LegalRun(INIT, run) && LoopThreadSendsOnly(run)
    ensures var c := After(INIT, run);
            !c.wroteAfterShut && (c.shut && !c.closed ==> c.kernel == Sent(run) && c.output == "")
  {
    StateFromRun(run);
    StaysGraceful(INIT, run);
    RunKeeps(INIT, run);
    assert After(INIT, run).kernel + "" == After(INIT, run).kernel;
  }

  /** A send that another thread began before the shutdown can be too late. */
  lemma QueuedSendCanBeLate(msg: string)
    ensures var run := [SendTest(msg), LoopShutdown, SendQueue(msg), RunTask(-1)];
            LegalRun(INIT, run) && After(INIT, run).wroteAfterShut
  {
    hide LegalRun, After;
    var c1 := Next(INIT, SendTest(msg));
    var c2 := Next(c1, LoopShutdown);
    var c3 := Next(c2, SendQueue(msg));
    var c4 := Next(c3, RunTask(-1));
    RunOne(c3, RunTask(-1));
    Prefix(c2, SendQueue(msg), [RunTask(-1)]);
    Prefix(c1, LoopShutdown, [SendQueue(msg)] + [RunTask(-1)]);
    Prefix(INIT, SendTest(msg), [LoopShutdown] + ([SendQueue(msg)] + [RunTask(-1)]));
    assert [SendTest(msg), LoopShutdown, SendQueue(msg), RunTask(-1)]
        == [SendTest(msg)] + ([LoopShutdown] + ([SendQueue(msg)] + [RunTask(-1)]));
  }

  lemma {:induction false} DisconnectingSince(c: Conn, run: seq<Step>)
    requires LegalRun(c, run)
    ensures After(c, run).state.Disconnecting? <==>
              c.state.Disconnecting? || exists i :: 0 <= i < |run| && (run[i].LoopShutdown? || run[i].ShutdownSet?)
    decreases |run|
  {
    if run != [] {
      ShutdownStep(c, run[0]);
      hide Next;
      DisconnectingSince(Next(c, run[0]), run[1..]);
      assert run == [run[0]] + run[1..];
    }
  }

  lemma ShutdownStep(c: Conn, e: Step)
    requires Enabled(c, e)
    ensures Next(c, e).state.Disconnecting? <==> c.state.Disconnecting? || e.LoopShutdown? || e.ShutdownSet?
  {}

  /** The first close notification ends the process, instead of only this connection,
      exactly when shutdown has been called on the connection before. */
  lemma CloseExitsExactly(run: seq<Step>)
    requires LegalRun(INIT, run) && Enabled(After(INIT, run), Close)
    ensures Next(After(INIT, run), Close).exited <==>
              exists i :: 0 <= i < |run| && (run[i].LoopShutdown? || run[i].ShutdownSet?)
  {
    DisconnectingSince(INIT, run);
    NoExitBefore(INIT, run);
  }

  lemma {:induction false} NoExitBefore(c: Conn, run: seq<Step>)
    requires LegalRun(c, run) && !c.exited
    ensures !After(c, run).closed ==> !After(c, run).exited
    decreases |run|
  {
    if run != [] && !Next(c, run[0]).exited {
      NoExitBefore(Next(c, run[0]), run[1..]);
    }
  }

  /** The half-close is not forgotten: once shutdown has been called, its functors
      have run and the last byte is out, SHUT_WR has been issued; and the write
      that drains the buffer issues it. */
  lemma ShutdownIsNotForgotten(run: seq<Step>)
    requires LegalRun(INIT, run)
    ensures var c := After(INIT, run);
            && (c.state.Disconnecting? && c.output == "" && c.announcers == 0 && ShutdownTask !in c.pending ==> c.shut)
            && (c.state.Disconnecting? && c.output != "" && Enabled(c, Writable(|c.output|)) ==>
                  Next(c, Writable(|c.output|)).shut)
  {
    RunKeeps(INIT, run);
  }
}
