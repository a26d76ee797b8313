/**
 webServer.cpp and webServer.hpp: the wheel of buckets that closes idle
 connections, and the plain table of last activity it stands for.
 */
module IdleTable {
  /** A connection, by the name TcpServer gives it. */
  datatype Conn = Conn(name: string)

  /** `last` gives, for every connection still watched, the tick of its last
      activity; `alive` are the connection objects that exist, `known` those ever
      watched, `shutdowns` the calls of shutdown() so far. */
  datatype Table = Table(tick: nat, last: map<Conn, nat>, alive: set<Conn>, known: set<Conn>, shutdowns: multiset<Conn>)

  datatype Step = Connect(c: Conn) | Message(c: Conn) | Tick | Gone(c: Conn)

  function Expired(t: Table, n: nat): set<Conn> {
    set c | c in t.last && t.last[c] + n <= t.tick + 1
  }

  predicate Enabled(t: Table, e: Step) {
    match e
    case Connect(c) => c !in t.known       // connectEstablished happens once
    case Message(c) => c in t.known
    case _ => true
  }

  function Next(t: Table, n: nat, e: Step): Table {
    match e
    case Connect(c) => t.(last := t.last[c := t.tick], alive := t.alive + {c}, known := t.known + {c})
    case Message(c) => if c in t.last then t.(last := t.last[c := t.tick]) else t
    case Tick =>
      var gone := Expired(t, n);
      t.(tick := t.tick + 1, last := t.last - gone, shutdowns := t.shutdowns + multiset(gone * t.alive))
    case Gone(c) => t.(alive := t.alive - {c})
  }

  predicate LegalRun(t: Table, n: nat, run: seq<Step>)
    decreases |run|
  {
    run != [] ==> Enabled(t, run[0]) && LegalRun(Next(t, n, run[0]), n, run[1..])
  }

  function After(t: Table, n: nat, run: seq<Step>): Table
    decreases |run|
  {
    if run == [] then t else After(Next(t, n, run[0]), n, run[1..])
  }

  predicate Touches(e: Step, c: Conn) { (e.Connect? || e.Message?) && e.c == c }

  ghost predicate Sound(t: Table, n: nat) {
    && t.last.Keys <= t.known
    && (forall c :: c in t.last ==> t.last[c] <= t.tick < t.last[c] + n)
    && (forall c :: t.shutdowns[c] <= 1)
    && (forall c :: c in t.shutdowns ==> c in t.known && c !in t.last)
  }

  lemma StepKeeps(t: Table, n: nat, e: Step)
    requires 0 < n && Sound(t, n) && Enabled(t, e)
    ensures Sound(Next(t, n, e), n)
  {
    if e.Tick? {
      var gone := Expired(t, n) * t.alive;
      assert forall c :: multiset(gone)[c] == if c in gone then 1 else 0;
    }
  }

  lemma {:induction false} RunKeeps(t: Table, n: nat, run: seq<Step>)
    requires 0 < n && Sound(t, n) && LegalRun(t, n, run)
    ensures Sound(After(t, n, run), n)
    decreases |run|
  {
    if run != [] {
      StepKeeps(t, n, run[0]);
      RunKeeps(Next(t, n, run[0]), n, run[1..]);
    }
  }

  /** A connection last active at tick L and quiet since then is watched through
      tick L + n - 1 and no longer from tick L + n on. */
  lemma {:induction false} WatchedExactly(t: Table, n: nat, run: seq<Step>, c: Conn)
    requires 0 < n && Sound(t, n) && LegalRun(t, n, run) && c in t.last
    requires forall i :: 0 <= i < |run| ==> !Touches(run[i], c)
    ensures var t' := After(t, n, run);
            && (c in t'.last <==> t'.tick < t.last[c] + n)
            && (c in t'.last ==> t'.last[c] == t.last[c])
    decreases |run|
  {
    if run != [] {
      var t1 := Next(t, n, run[0]);
      StepKeeps(t, n, run[0]);
      assert forall i :: 0 <= i < |run| - 1 ==> run[1..][i] == run[i + 1];
      if c in t1.last {
        WatchedExactly(t1, n, run[1..], c);
      } else {
        EvictedForEver(t1, n, run[1..], c);
        TicksGrow(t1, n, run[1..]);
      }
    }
  }

  lemma {:induction false} TicksGrow(t: Table, n: nat, run: seq<Step>)
    ensures t.tick <= After(t, n, run).tick
    decreases |run|
  {
    if run != [] {
      TicksGrow(Next(t, n, run[0]), n, run[1..]);
    }
  }

  /** An evicted connection is never watched again, whatever it still sends, and
      never shut down again. */
  lemma {:induction false} EvictedForEver(t: Table, n: nat, run: seq<Step>, c: Conn)
    requires LegalRun(t, n, run) && c in t.known && c !in t.last
    ensures c !in After(t, n, run).last && After(t, n, run).shutdowns[c] == t.shutdowns[c]
    decreases |run|
  {
    if run != [] {
      EvictedForEver(Next(t, n, run[0]), n, run[1..], c);
    }
  }

  // ------------------------------------------------------------ what happened

  const START := Table(0, map[], {}, {}, multiset{})

  datatype Option<T> = None | Some(value: T)

  function Ticks(run: seq<Step>): nat {
    if run == [] then 0 else Ticks(run[..|run| - 1]) + if run[|run| - 1].Tick? then 1 else 0
  }

  /** The tick of the connection's last activity: being established, or a message. */
  function LastTouch(run: seq<Step>, c: Conn): Option<nat> {
    if run == [] then None
    else if Touches(run[|run| - 1], c) then Some(Ticks(run[..|run| - 1]))
    else LastTouch(run[..|run| - 1], c)
  }

  predicate NotIdle(run: seq<Step>, c: Conn, n: nat) {
    LastTouch(run, c).Some? && Ticks(run) < LastTouch(run, c).value + n
  }

  /** Established, and at no moment since then without activity for n ticks. */
  ghost predicate NeverIdle(run: seq<Step>, c: Conn, n: nat) {
    exists i :: 0 <= i < |run| && run[i] == Connect(c) && forall j :: i < j <= |run| ==> NotIdle(run[..j], c, n)
  }

  /** The connection object exists. */
  predicate Exists(run: seq<Step>, c: Conn) {
    run != [] && (run[|run| - 1] == Connect(c) || (run[|run| - 1] != Gone(c) && Exists(run[..|run| - 1], c)))
  }

  lemma {:induction false} AfterSplit(t: Table, n: nat, front: seq<Step>, e: Step)
    requires LegalRun(t, n, front + [e])
    ensures LegalRun(t, n, front) && Enabled(After(t, n, front), e)
    ensures After(t, n, front + [e]) == Next(After(t, n, front), n, e)
    decreases |front|
  {
    if front == [] {
      assert ([] + [e])[1..] == [];
    } else {
      assert (front + [e])[1..] == front[1..] + [e];
      AfterSplit(Next(t, n, front[0]), n, front[1..], e);
    }
  }

  lemma NeverIdleStep(front: seq<Step>, e: Step, c: Conn, n: nat)
    requires 0 < n
    ensures NeverIdle(front + [e], c, n) <==>
              e == Connect(c) || (NeverIdle(front, c, n) && NotIdle(front + [e], c, n))
  {
    var run := front + [e];
    assert run[..|run|] == run && run[..|front|] == front;
    assert forall j :: 0 <= j <= |front| ==> run[..j] == front[..j];
    if e == Connect(c) {
      assert run[|front|] == Connect(c) && NotIdle(run, c, n);
    } else if NeverIdle(front, c, n) && NotIdle(run, c, n) {
      var i :| 0 <= i < |front| && front[i] == Connect(c) && forall j :: i < j <= |front| ==> NotIdle(front[..j], c, n);
      assert run[i] == Connect(c);
      forall j | i < j <= |run|
        ensures NotIdle(run[..j], c, n)
      {
        assert j <= |front| ==> run[..j] == front[..j];
      }
    }
  }

  lemma OneMoreStep(front: seq<Step>, e: Step, c: Conn)
    ensures var run := front + [e];
            && Ticks(run) == Ticks(front) + (if e.Tick? then 1 else 0)
            && LastTouch(run, c) == (if Touches(e, c) then Some(Ticks(front)) else LastTouch(front, c))
            && (Exists(run, c) <==> e == Connect(c) || (e != Gone(c) && Exists(front, c)))
            && (Connect(c) in run <==> e == Connect(c) || Connect(c) in front)
  {
    assert (front + [e])[..|front|] == front;
  }

  lemma WatchedStep(t: Table, n: nat, e: Step, c: Conn)
    requires 0 < n && Sound(t, n) && Enabled(t, e)
    ensures var t' := Next(t, n, e);
            && t'.tick == t.tick + (if e.Tick? then 1 else 0)
            && (c in t'.alive <==> e == Connect(c) || (e != Gone(c) && c in t.alive))
            && (c in t'.known <==> e == Connect(c) || c in t.known)
            && (c in t'.last <==>
                  e == Connect(c) || (c in t.last && (Touches(e, c) || t'.tick < t.last[c] + n)))
            && (c in t'.last ==> t'.last[c] == if Touches(e, c) then t.tick else t.last[c])
  {}

  /** In every run a connection is watched exactly as long as it has not been
      without activity for n ticks since it was established, and the table holds the
      tick of its last activity. */
  lemma {:induction false} WatchedFromRun(n: nat, run: seq<Step>, c: Conn)
    requires 0 < n && LegalRun(START, n, run)
    ensures var t := After(START, n, run);
            && Sound(t, n) && t.tick == Ticks(run) && (c in t.alive <==> Exists(run, c))
            && (c in t.known <==> Connect(c) in run)
            && (c in t.last <==> NeverIdle(run, c, n))
            && (c in t.last ==> LastTouch(run, c) == Some(t.last[c]))
  {
    if run != [] {
      var front, e := run[..|run| - 1], run[|run| - 1];
      assert run == front + [e];
      AfterSplit(START, n, front, e);
      WatchedFromRun(n, front, c);
      NeverIdleStep(front, e, c, n);
      StepKeeps(After(START, n, front), n, e);
      WatchedStep(After(START, n, front), n, e, c);
      OneMoreStep(front, e, c);
      hide NeverIdle, Next, Sound, LegalRun, After, Enabled, Ticks, LastTouch, Exists, Touches;
    }
  }

  /** shutdown() is called on a connection in a run exactly if at some tick it has
      just been without activity for n ticks, was not before, and still exists. */
  lemma {:induction false} ShutDownExactly(n: nat, run: seq<Step>, c: Conn)
    requires 0 < n && LegalRun(START, n, run)
    ensures After(START, n, run).shutdowns[c] == 1 <==>
              exists j :: 0 <= j < |run| && ShutsDown(run[..j], run[j], c, n)
  {
    if run != [] {
      var front, e := run[..|run| - 1], run[|run| - 1];
      assert run == front + [e];
      AfterSplit(START, n, front, e);
      ShutDownExactly(n, front, c);
      assert forall j :: 0 <= j < |front| ==> run[..j] == front[..j] && run[j] == front[j];
      assert run[..|front|] == front;
      WatchedFromRun(n, front, c);
      hide NeverIdle, LastTouch, Exists, Ticks, ShutsDown, LegalRun, After, Next, Sound, Enabled;
      ShutDownStep(After(START, n, front), n, e, c);
      ShutsDownThen(After(START, n, front), front, e, c, n);
      assert (exists j :: 0 <= j < |run| && ShutsDown(run[..j], run[j], c, n)) <==>
             (exists j :: 0 <= j < |front| && ShutsDown(front[..j], front[j], c, n)) || ShutsDown(front, e, c, n);
    }
  }

  ghost predicate ShutsDown(front: seq<Step>, e: Step, c: Conn, n: nat) {
    && e.Tick? && NeverIdle(front, c, n) && Exists(front, c)
    && LastTouch(front, c).Some? && Ticks(front) + 1 == LastTouch(front, c).value + n
  }

  lemma ShutsDownThen(t: Table, front: seq<Step>, e: Step, c: Conn, n: nat)
    requires t.tick == Ticks(front) && (c in t.alive <==> Exists(front, c)) && (c in t.last <==> NeverIdle(front, c, n))
    requires c in t.last ==> LastTouch(front, c) == Some(t.last[c])
    ensures ShutsDown(front, e, c, n) <==> e.Tick? && c in t.last && c in t.alive && t.tick + 1 == t.last[c] + n
  {
    hide NeverIdle, LastTouch, Exists, Ticks;
  }

  lemma ShutDownStep(t: Table, n: nat, e: Step, c: Conn)
    requires 0 < n && Sound(t, n) && Enabled(t, e)
    ensures Next(t, n, e).shutdowns[c] == 1 <==>
              t.shutdowns[c] == 1 || (e.Tick? && c in t.last && c in t.alive && t.tick + 1 == t.last[c] + n)
  {
    if e.Tick? {
      var gone := Expired(t, n) * t.alive;
      assert multiset(gone)[c] == if c in gone then 1 else 0;
    }
  }

  /** shutdown() is called at most once per connection, in any run. */
  lemma ShutDownOnce(t: Table, n: nat, run: seq<Step>, c: Conn)
    requires 0 < n && Sound(t, n) && LegalRun(t, n, run)
    ensures After(t, n, run).shutdowns[c] <= 1
  {
    RunKeeps(t, n, run);
  }

  /** And it is called in the very tick that makes the connection n ticks idle, if
      the connection object still exists then. */
  lemma ShutDownWhenIdle(t: Table, n: nat, c: Conn)
    requires 0 < n && Sound(t, n) && c in t.last
    ensures var t' := Next(t, n, Tick);
            && (c !in t'.last <==> t'.tick == t.last[c] + n)
            && (t'.shutdowns[c] == 1 <==> t'.tick == t.last[c] + n && c in t.alive)
  {
    var gone := Expired(t, n) * t.alive;
    assert multiset(gone)[c] == if c in gone then 1 else 0;
  }
}

module IdleWheels {
  import opened IdleTable

  /** In how many buckets a connection's Entry is. */
  function Holders(buckets: seq<set<Conn>>, c: Conn): (n: nat)
    ensures n == 0 <==> forall j :: 0 <= j < |buckets| ==> c !in buckets[j]
  {
    if buckets == [] then 0 else (if c in buckets[0] then 1 else 0) + Holders(buckets[1..], c)
  }

  lemma {:induction false} HoldersSnoc(buckets: seq<set<Conn>>, b: set<Conn>, c: Conn)
    ensures Holders(buckets + [b], c) == Holders(buckets, c) + (if c in b then 1 else 0)
  {
    if buckets == [] {
      assert [] + [b] == [b];
      assert [b][1..] == [];
    } else {
      assert (buckets + [b])[1..] == buckets[1..] + [b];
      HoldersSnoc(buckets[1..], b, c);
    }
  }

  lemma InsertHolders(buckets: seq<set<Conn>>, c: Conn)
    requires buckets != []
    ensures forall x :: Holders(WithNewest(buckets, c), x) ==
              Holders(buckets, x) + if x == c && c !in buckets[|buckets| - 1] then 1 else 0
  {
    var front, b := buckets[..|buckets| - 1], buckets[|buckets| - 1];
    assert buckets == front + [b];
    assert WithNewest(buckets, c) == front + [b + {c}];
    forall x
      ensures Holders(WithNewest(buckets, c), x) == Holders(buckets, x) + if x == c && c !in b then 1 else 0
    {
      HoldersSnoc(front, b, x);
      HoldersSnoc(front, b + {c}, x);
    }
  }

  function WithNewest(buckets: seq<set<Conn>>, c: Conn): seq<set<Conn>>
    requires buckets != []
  {
    buckets[|buckets| - 1 := buckets[|buckets| - 1] + {c}]
  }

  /** push_back on a full circular buffer. */
  function Shifted(buckets: seq<set<Conn>>): seq<set<Conn>>
    requires buckets != []
  {
    buckets[1..] + [{}]
  }

  /** An Entry exists exactly while some bucket holds it, and its count is right;
      `owed` are the releases of the oldest bucket still to be made. */
  ghost predicate Counted(buckets: seq<set<Conn>>, refs: map<Conn, nat>, owed: set<Conn>) {
    && (forall c :: c in refs <==> 0 < Holders(buckets, c) || c in owed)
    && (forall c :: c in refs ==> refs[c] == Holders(buckets, c) + if c in owed then 1 else 0)
  }

  /** The newest bucket holding a connection is the one of its last activity. */
  ghost predicate Placed(buckets: seq<set<Conn>>, tick: nat, last: map<Conn, nat>) {
    var n := |buckets|;
    && (forall c :: c in last ==>
          && last[c] <= tick < last[c] + n
          && c in buckets[n - 1 - (tick - last[c])]
          && forall j :: n - 1 - (tick - last[c]) < j < n ==> c !in buckets[j])
    && (forall c :: 0 < Holders(buckets, c) ==> c in last)
  }

  lemma TouchKeepsCounts(buckets: seq<set<Conn>>, refs: map<Conn, nat>, c: Conn)
    requires buckets != [] && Counted(buckets, refs, {})
    ensures var before := if c in refs then refs[c] else 0;
            var more := if c in buckets[|buckets| - 1] then 0 else 1;
            Counted(WithNewest(buckets, c), refs[c := before + more], {})
  {
    InsertHolders(buckets, c);
  }

  lemma TouchKeepsPlaces(buckets: seq<set<Conn>>, tick: nat, last: map<Conn, nat>, c: Conn)
    requires buckets != [] && Placed(buckets, tick, last)
    ensures Placed(WithNewest(buckets, c), tick, last[c := tick])
  {
    InsertHolders(buckets, c);
  }

  /** Exactly the connections that become n ticks idle are in the oldest bucket and
      in no other. */
  lemma OldestOnly(buckets: seq<set<Conn>>, t: Table, c: Conn)
    requires buckets != [] && Placed(buckets, t.tick, t.last)
    ensures c in Expired(t, |buckets|) <==> c in buckets[0] && Holders(buckets[1..], c) == 0
  {
    var n := |buckets|;
    if c in buckets[0] {
      assert 0 < Holders(buckets, c);
      var k := n - 1 - (t.tick - t.last[c]);
      if k == 0 {
        assert forall j :: 0 <= j < n - 1 ==> buckets[1..][j] == buckets[j + 1];
      } else {
        assert c in buckets[1..][k - 1];
      }
    }
  }

  lemma TickKeepsPlaces(buckets: seq<set<Conn>>, t: Table)
    requires buckets != [] && Placed(buckets, t.tick, t.last)
    ensures Placed(Shifted(buckets), t.tick + 1, t.last - Expired(t, |buckets|))
  {
    var n, last' := |buckets|, t.last - Expired(t, |buckets|);
    assert forall j :: 0 <= j < n - 1 ==> Shifted(buckets)[j] == buckets[j + 1];
    forall c | c in last'
      ensures last'[c] <= t.tick + 1 < last'[c] + n
      ensures c in Shifted(buckets)[n - 1 - (t.tick + 1 - last'[c])]
      ensures forall j :: n - 1 - (t.tick + 1 - last'[c]) < j < n ==> c !in Shifted(buckets)[j]
    {
      hide Holders;
    }
    forall c | 0 < Holders(Shifted(buckets), c)
      ensures c in last'
    {
      HoldersSnoc(buckets[1..], {}, c);
      OldestOnly(buckets, t, c);
    }
  }

  lemma TickOwes(buckets: seq<set<Conn>>, refs: map<Conn, nat>)
    requires buckets != [] && Counted(buckets, refs, {})
    ensures Counted(Shifted(buckets), refs, buckets[0])
  {
    forall c
      ensures Holders(buckets, c) == Holders(Shifted(buckets), c) + if c in buckets[0] then 1 else 0
    {
      HoldersSnoc(buckets[1..], {}, c);
    }
  }

  /** webServer's part of the story; connBuckets_ is a circular buffer of constant
      size, oldest bucket first. An Entry exists while `refs` has it, and `refs` is
      its use_count. */
  class IdleWheel {
    const size: nat
    var buckets: seq<set<Conn>>
    var refs: map<Conn, nat>
    var alive: set<Conn>
    var contexts: set<Conn>
    var shutdowns: multiset<Conn>

    ghost var tick: nat
    ghost var last: map<Conn, nat>

    ghost function View(): Table
      reads this
    {
      Table(tick, last, alive, contexts, shutdowns)
    }

    ghost predicate Valid()
      reads this
    {
      && 0 < size == |buckets| && refs.Keys == last.Keys
      && Counted(buckets, refs, {}) && Placed(buckets, tick, last) && Sound(View(), size)
    }

    /** With expiredSec > 0; the buckets start out empty. */
    constructor (expiredSec: nat)
      requires 0 < expiredSec
      ensures Valid() && size == expiredSec && View() == Table(0, map[], {}, {}, multiset{})
    {
      size := expiredSec;
      buckets := seq(expiredSec, _ => {});
      refs, alive, contexts, shutdowns := map[], {}, {}, multiset{};
      tick, last := 0, map[];
    }

    /** connBuckets_.back().insert(entryPtr): one more owner unless it is there. */
    method Insert(c: Conn)
      requires buckets != [] && c in refs
      modifies this`buckets, this`refs
      ensures buckets == WithNewest(old(buckets), c)
      ensures refs == old(refs)[c := old(refs)[c] + if c in old(buckets)[|old(buckets)| - 1] then 0 else 1]
    {
      var back := buckets[|buckets| - 1];
      if c !in back {
        refs := refs[c := refs[c] + 1];
      }
      buckets := buckets[|buckets| - 1 := back + {c}];
    }

    /** onConnection. A connection that has just been established gets its Entry in
        the newest bucket and remembers it weakly; one that went down is ignored. */
    method OnConnection(c: Conn, connected: bool)
      requires Valid() && (connected ==> Enabled(View(), Connect(c)))
      modifies this
      ensures Valid() && View() == if connected then Next(old(View()), size, Connect(c)) else old(View())
      ensures connected ==> c in buckets[size - 1] && c in refs && last == old(last)[c := tick]
      ensures buckets == if connected then WithNewest(old(buckets), c) else old(buckets)
    {
      hide Counted, Placed, Sound, Holders;
      if connected {
        NotKnown(View(), size, c);
        StepKeeps(View(), size, Connect(c));
        TouchKeepsCounts(buckets, refs, c);
        TouchKeepsPlaces(buckets, tick, last, c);
        alive := alive + {c};
        refs := refs[c := 0];
        Insert(c);
        assert refs == old(refs)[c := 0 + if c in old(buckets)[size - 1] then 0 else 1];
        contexts := contexts + {c};
        last := last[c := tick];
      }
    }

    /** The first block of onMessage: lock() succeeds while an Entry has an owner. */
    method OnMessage(c: Conn)
      requires Valid() && c in contexts
      modifies this
      ensures Valid() && View() == Next(old(View()), size, Message(c))
      ensures c in old(refs) ==> c in buckets[size - 1] && last == old(last)[c := tick]
      ensures buckets == if c in old(refs) then WithNewest(old(buckets), c) else old(buckets)
    {
      hide Counted, Placed, Sound;
      if c in refs {
        StepKeeps(View(), size, Message(c));
        TouchKeepsCounts(buckets, refs, c);
        TouchKeepsPlaces(buckets, tick, last, c);
        Insert(c);
        last := last[c := tick];
      }
    }

    /** One shared_ptr in a bucket is destroyed; the last one takes the Entry with
        it, whose destructor shuts the connection down if it still exists. */
    method Release(c: Conn, ghost owed: set<Conn>)
      requires c in owed && Counted(buckets, refs, owed)
      modifies this`refs, this`shutdowns
      ensures Counted(buckets, refs, owed - {c})
      ensures refs.Keys == old(refs).Keys - if Holders(buckets, c) == 0 then {c} else {}
      ensures shutdowns == old(shutdowns) + if Holders(buckets, c) == 0 && c in alive then multiset{c} else multiset{}
    {
      refs := refs[c := refs[c] - 1];
      if refs[c] == 0 {
        refs := refs - {c};
        if c in alive {
          shutdowns := shutdowns + multiset{c};
        }
      }
    }

    /** The destructor of the oldest bucket; `gone` are the Entries nobody else owns. */
    method ReleaseAll(oldest: set<Conn>, ghost gone: set<Conn>)
      requires Counted(buckets, refs, oldest) && gone <= oldest
      requires forall c :: c in oldest ==> (c in gone <==> Holders(buckets, c) == 0)
      modifies this`refs, this`shutdowns
      ensures Counted(buckets, refs, {}) && refs.Keys == old(refs).Keys - gone
      ensures shutdowns == old(shutdowns) + multiset(gone * alive)
    {
      hide Counted, Holders, KeysLeft, ShutSoFar;
      var todo := oldest;
      NothingYet(refs.Keys, shutdowns, gone, oldest, alive);
      while todo != {}
        invariant todo <= oldest && Counted(buckets, refs, todo)
        invariant refs.Keys == KeysLeft(old(refs).Keys, gone, todo)
        invariant shutdowns == ShutSoFar(old(shutdowns), gone, todo, alive)
        decreases todo
      {
        var c :| c in todo;
        Release(c, todo);
        OneMore(old(refs).Keys, old(shutdowns), gone, todo, alive, c);
        todo := todo - {c};
      }
      AllDone(old(refs).Keys, old(shutdowns), gone, alive);
    }

    /** push_back of an empty bucket, which destroys the oldest one. */
    method PushBack(ghost gone: set<Conn>)
      requires buckets != [] && Counted(buckets, refs, {})
      requires gone <= buckets[0]
      requires forall c :: c in buckets[0] ==> (c in gone <==> Holders(Shifted(buckets), c) == 0)
      modifies this`buckets, this`refs, this`shutdowns
      ensures buckets == Shifted(old(buckets)) && Counted(buckets, refs, {})
      ensures refs.Keys == old(refs).Keys - gone && shutdowns == old(shutdowns) + multiset(gone * alive)
    {
      hide Counted, Holders;
      TickOwes(buckets, refs);
      var oldest := buckets[0];
      buckets := buckets[1..] + [{}];
      ReleaseAll(oldest, gone);
    }

    /** onTimer */
    method OnTimer()
      requires Valid()
      modifies this
      ensures Valid() && View() == Next(old(View()), size, Tick)
      ensures buckets == old(buckets)[1..] + [{}] && tick == old(tick) + 1
    {
      hide Counted, Placed, Sound, Holders, Expired, Next;
      ghost var t, gone := View(), Expired(View(), size);
      NextTick(t, size);
      KeysMinus(last, gone);
      StepKeeps(t, size, Tick);
      TickKeepsPlaces(buckets, t);
      GoneExactly(buckets, t);
      PushBack(gone);
      tick := tick + 1;
      last := last - gone;
    }

    /** The last owner of a connection lets go of it. */
    method ConnectionGone(c: Conn)
      requires Valid()
      modifies this`alive
      ensures Valid() && View() == Next(old(View()), size, Gone(c))
    {
      hide Counted, Placed;
      alive := alive - {c};
    }
  }

  lemma NotKnown(t: Table, n: nat, c: Conn)
    requires Sound(t, n) && c !in t.known
    ensures c !in t.last
  {}

  lemma NextTick(t: Table, n: nat)
    ensures var gone := Expired(t, n);
            Next(t, n, Tick) == Table(t.tick + 1, t.last - gone, t.alive, t.known,
                                      t.shutdowns + multiset(gone * t.alive))
  {}

  lemma KeysMinus(m: map<Conn, nat>, s: set<Conn>)
    ensures (m - s).Keys == m.Keys - s
  {}

  /** The Entries whose only owner was the oldest bucket. */
  lemma GoneExactly(buckets: seq<set<Conn>>, t: Table)
    requires buckets != [] && Placed(buckets, t.tick, t.last)
    ensures Expired(t, |buckets|) <= buckets[0]
    ensures forall c :: c in buckets[0] ==> (c in Expired(t, |buckets|) <==> Holders(Shifted(buckets), c) == 0)
  {
    forall c
      ensures c in Expired(t, |buckets|) <==> c in buckets[0] && Holders(Shifted(buckets), c) == 0
    {
      OldestOnly(buckets, t, c);
      HoldersSnoc(buckets[1..], {}, c);
    }
    assert forall c :: c in Expired(t, |buckets|) ==> c in buckets[0];
  }

  /** In the middle of a bucket's destruction, with `todo` still to release. */
  ghost function KeysLeft(keys: set<Conn>, gone: set<Conn>, todo: set<Conn>): set<Conn> {
    keys - (gone - todo)
  }

  ghost function ShutSoFar(shut: multiset<Conn>, gone: set<Conn>, todo: set<Conn>, alive: set<Conn>): multiset<Conn> {
    shut + multiset((gone - todo) * alive)
  }

  lemma NothingYet(keys: set<Conn>, shut: multiset<Conn>, gone: set<Conn>, oldest: set<Conn>, alive: set<Conn>)
    requires gone <= oldest
    ensures KeysLeft(keys, gone, oldest) == keys && ShutSoFar(shut, gone, oldest, alive) == shut
  {
    assert gone - oldest == {};
  }

  lemma OneMore(keys: set<Conn>, shut: multiset<Conn>, gone: set<Conn>, todo: set<Conn>, alive: set<Conn>, c: Conn)
    requires c in todo
    ensures KeysLeft(keys, gone, todo - {c}) == KeysLeft(keys, gone, todo) - if c in gone then {c} else {}
    ensures ShutSoFar(shut, gone, todo - {c}, alive) ==
              ShutSoFar(shut, gone, todo, alive) + if c in gone && c in alive then multiset{c} else multiset{}
  {
    var before, after := gone - todo, gone - (todo - {c});
    assert after == before + if c in gone then {c} else {};
    if c in gone && c in alive {
      assert after * alive == before * alive + {c};
    } else {
      assert after * alive == before * alive;
    }
  }

  lemma AllDone(keys: set<Conn>, shut: multiset<Conn>, gone: set<Conn>, alive: set<Conn>)
    ensures KeysLeft(keys, gone, {}) == keys - gone
    ensures ShutSoFar(shut, gone, {}, alive) == shut + multiset(gone * alive)
  {
    assert gone - {} == gone;
  }
}
