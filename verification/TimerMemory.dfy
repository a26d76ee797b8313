/**
 The memory of a timer queue as a value: which Timers exist, who owns them, and
 what the two ordered indexes hold. Each lemma is one way the code changes it:
 the invariant is kept and the schedule seen from outside changes as it should.
 */
module TimerMemory {
  import opened TimerSchedule

  /** std::pair<Timestamp, Timer*>, compared lexicographically. */
  datatype Entry = Entry(when: int, addr: Addr)

  /** A functor bound by add_timer or cancel on another thread. */
  datatype Bound = BoundAdd(addr: Addr) | BoundCancel(id: TimerId)

  /** Where the loop is in its turn: handlers run, handle_read having been called or
      not; or a round has `left` functors to run. */
  datatype Place = AtHandlers(fired: bool) | InRound(left: nat)

  /** `heap` holds the Timers that exist; `timers` and `active` are the members
      timers_ and active_timers_; `pending` are the functors waiting, oldest first,
      of which a round has swapped out the first `place.left`. `held` are the
      addresses owned by local variables, `home` the address each sequence number
      was given to, `freed` the numbers whose Timer was deleted. */
  datatype Memory = Memory(
    heap: map<Addr, Timer>, timers: seq<Entry>, active: set<TimerId>, pending: seq<Bound>, place: Place,
    held: set<Addr>, home: map<nat, Addr>, freed: set<nat>)

  predicate Less(a: Entry, b: Entry) {
    a.when < b.when || (a.when == b.when && a.addr < b.addr)
  }

  predicate Sorted(s: seq<Entry>) {
    forall i, j :: 0 <= i < j < |s| ==> Less(s[i], s[j])
  }

  function IdAt(heap: map<Addr, Timer>, a: Addr): TimerId
    requires a in heap
  {
    TimerId(a, heap[a].sequence)
  }

  function EntryAt(heap: map<Addr, Timer>, a: Addr): Entry
    requires a in heap
  {
    Entry(heap[a].expiration, a)
  }

  ghost predicate Scheduled(m: Memory, a: Addr) {
    a in m.heap && IdAt(m.heap, a) in m.active
  }

  /** (e, p) is in timers_ iff (p, p.sequence) is in active_timers_, and e is p's
      expiration. */
  ghost predicate TwinIndexes(m: Memory) {
    && Sorted(m.timers)
    && (forall e :: e in m.timers ==> Scheduled(m, e.addr) && e == EntryAt(m.heap, e.addr))
    && (forall id :: id in m.active ==>
          id.addr in m.heap && id == IdAt(m.heap, id.addr) && EntryAt(m.heap, id.addr) in m.timers)
  }

  /** Every Timer that exists has exactly one owner: the indexes, the pending
      list, or a local variable. */
  ghost predicate OneOwner(m: Memory) {
    && (forall a :: a in m.heap ==> Scheduled(m, a) || a in m.held || BoundAdd(a) in m.pending)
    && (forall a :: a in m.held ==> a in m.heap && !Scheduled(m, a) && BoundAdd(a) !in m.pending)
    && (forall i :: 0 <= i < |m.pending| && m.pending[i].BoundAdd? ==>
          m.pending[i].addr in m.heap && !Scheduled(m, m.pending[i].addr))
    && (forall i, j :: 0 <= i < j < |m.pending| && m.pending[i].BoundAdd? ==> m.pending[i] != m.pending[j])
  }

  /** A sequence number names one Timer for ever, and is in `freed` exactly when
      that Timer no longer exists. */
  ghost predicate Numbered(m: Memory) {
    && (forall a :: a in m.heap ==>
          var q := m.heap[a].sequence; q in m.home && m.home[q] == a && q !in m.freed)
    && (forall q :: q in m.home ==> q in m.freed || (m.home[q] in m.heap && m.heap[m.home[q]].sequence == q))
    && m.freed <= m.home.Keys
  }

  predicate InBounds(m: Memory) {
    m.place.InRound? ==> m.place.left <= |m.pending|
  }

  ghost predicate Sound(m: Memory) {
    TwinIndexes(m) && OneOwner(m) && Numbered(m) && InBounds(m)
  }

  ghost function Queued(heap: map<Addr, Timer>, b: Bound): Functor {
    match b
    case BoundAdd(a) => if a in heap then Added(IdAt(heap, a), heap[a]) else Cancelled(TimerId(0, 0))
    case BoundCancel(id) => Cancelled(id)
  }

  ghost function QueuedAll(m: Memory): (fs: seq<Functor>)
    ensures |fs| == |m.pending|
  {
    seq(|m.pending|, i requires 0 <= i < |m.pending| => Queued(m.heap, m.pending[i]))
  }

  ghost function Sched(m: Memory): Schedule {
    map id | id in m.active && id.addr in m.heap :: m.heap[id.addr]
  }

  /** How many functors the round has still to run. */
  function Swapped(m: Memory): nat {
    if m.place.InRound? && InBounds(m) then m.place.left else 0
  }

  ghost function TheRound(m: Memory): Round {
    match m.place
    case AtHandlers(fired) => Dispatching(fired)
    case InRound(_) => Running(QueuedAll(m)[..Swapped(m)])
  }

  ghost function TheWorld(m: Memory): World {
    World(Sched(m), TheRound(m), QueuedAll(m)[Swapped(m)..], m.home.Keys)
  }

  ghost function WithNew(m: Memory, a: Addr, t: Timer): Memory {
    m.(heap := m.heap[a := t], held := m.held + {a}, home := m.home[t.sequence := a])
  }

  lemma AllocateOwner(m: Memory, a: Addr, t: Timer)
    requires TwinIndexes(m) && OneOwner(m) && a !in m.heap
    ensures TwinIndexes(WithNew(m, a, t)) && OneOwner(WithNew(m, a, t)) && a !in m.held
  {
    assert forall x :: Scheduled(WithNew(m, a, t), x) <==> Scheduled(m, x);
  }

  lemma AllocateNumber(m: Memory, a: Addr, t: Timer)
    requires Numbered(m) && a !in m.heap && t.sequence !in m.home
    ensures Numbered(WithNew(m, a, t))
  {}

  lemma AllocateWorld(m: Memory, a: Addr, t: Timer)
    requires TwinIndexes(m) && OneOwner(m) && a !in m.heap
    ensures t.sequence !in m.home ==> t.sequence !in TheWorld(m).issued
    ensures TheWorld(WithNew(m, a, t)) == TheWorld(m).(issued := TheWorld(m).issued + {t.sequence})
  {
    assert QueuedAll(WithNew(m, a, t)) == QueuedAll(m) && Sched(WithNew(m, a, t)) == Sched(m);
  }

  /** new Timer: an address not in use, a sequence number not used before. */
  lemma Allocate(m: Memory, a: Addr, t: Timer)
    requires Sound(m) && a !in m.heap && t.sequence !in m.home
    ensures Sound(WithNew(m, a, t)) && a !in m.held && t.sequence !in TheWorld(m).issued
    ensures TheWorld(WithNew(m, a, t)) == TheWorld(m).(issued := TheWorld(m).issued + {t.sequence})
  {
    hide TwinIndexes, OneOwner, Numbered, TheWorld;
    AllocateOwner(m, a, t);
    AllocateNumber(m, a, t);
    AllocateWorld(m, a, t);
  }

  ghost function WithoutHeld(m: Memory, a: Addr): Memory
    requires a in m.heap
  {
    m.(heap := m.heap - {a}, held := m.held - {a}, freed := m.freed + {m.heap[a].sequence})
  }

  lemma ReleaseOwner(m: Memory, a: Addr)
    requires TwinIndexes(m) && OneOwner(m) && a in m.held
    ensures a in m.heap && TwinIndexes(WithoutHeld(m, a)) && OneOwner(WithoutHeld(m, a))
    ensures Sched(WithoutHeld(m, a)) == Sched(m)
  {
    assert forall x :: Scheduled(WithoutHeld(m, a), x) <==> Scheduled(m, x);
  }

  lemma ReleaseNumber(m: Memory, a: Addr)
    requires Numbered(m) && a in m.heap
    ensures m.heap[a].sequence !in m.freed && Numbered(WithoutHeld(m, a))
  {}

  lemma ReleaseQueued(m: Memory, a: Addr)
    requires OneOwner(m) && a in m.held && a in m.heap
    ensures QueuedAll(WithoutHeld(m, a)) == QueuedAll(m)
  {}

  /** delete of a Timer that a local variable owns. */
  lemma Release(m: Memory, a: Addr)
    requires Sound(m) && a in m.held
    ensures a in m.heap && m.heap[a].sequence !in m.freed
    ensures Sound(WithoutHeld(m, a)) && TheWorld(WithoutHeld(m, a)) == TheWorld(m)
  {
    hide TwinIndexes, OneOwner, Numbered, Sched, QueuedAll;
    ReleaseOwner(m, a);
    ReleaseNumber(m, a);
    ReleaseQueued(m, a);
  }

  ghost function WithExpiration(m: Memory, a: Addr, expiration: int): Memory
    requires a in m.heap
  {
    m.(heap := m.heap[a := m.heap[a].(expiration := expiration)])
  }

  lemma RestartOwner(m: Memory, a: Addr, expiration: int)
    requires TwinIndexes(m) && OneOwner(m) && a in m.held
    ensures a in m.heap
    ensures TwinIndexes(WithExpiration(m, a, expiration)) && OneOwner(WithExpiration(m, a, expiration))
    ensures Sched(WithExpiration(m, a, expiration)) == Sched(m)
  {
    assert forall x :: Scheduled(WithExpiration(m, a, expiration), x) <==> Scheduled(m, x);
  }

  lemma RestartQueued(m: Memory, a: Addr, expiration: int)
    requires OneOwner(m) && a in m.held && a in m.heap
    ensures QueuedAll(WithExpiration(m, a, expiration)) == QueuedAll(m)
  {}

  lemma RestartNumber(m: Memory, a: Addr, expiration: int)
    requires Numbered(m) && a in m.heap
    ensures Numbered(WithExpiration(m, a, expiration))
  {}

  /** restart: a Timer outside the indexes gets a new expiration. */
  lemma Restart(m: Memory, a: Addr, expiration: int)
    requires Sound(m) && a in m.held
    ensures a in m.heap && Sound(WithExpiration(m, a, expiration))
    ensures TheWorld(WithExpiration(m, a, expiration)) == TheWorld(m)
  {
    hide TwinIndexes, OneOwner, Numbered, Sched, QueuedAll;
    RestartOwner(m, a, expiration);
    RestartQueued(m, a, expiration);
    RestartNumber(m, a, expiration);
  }

  lemma SortedInsert(s: seq<Entry>, k: nat, e: Entry)
    requires Sorted(s) && e !in s && k <= |s|
    requires forall i :: 0 <= i < k ==> Less(s[i], e)
    requires forall i :: k <= i < |s| ==> !Less(s[i], e)
    ensures var s' := s[..k] + [e] + s[k..];
            Sorted(s') && forall x :: x in s' <==> x in s || x == e
  {
    var s' := s[..k] + [e] + s[k..];
    assert forall i :: k <= i < |s| ==> s[i] != e;
    forall x
      ensures x in s' <==> x in s || x == e
    {
      assert s == s[..k] + s[k..];
    }
  }

  lemma SortedRemove(s: seq<Entry>, k: nat)
    requires Sorted(s) && k < |s|
    ensures var s' := s[..k] + s[k + 1..];
            Sorted(s') && forall x :: x in s' <==> x in s && x != s[k]
  {
    var s' := s[..k] + s[k + 1..];
    forall x
      ensures x in s' <==> x in s && x != s[k]
    {
      assert s == s[..k] + [s[k]] + s[k + 1..];
    }
  }

  /** insert into both indexes. */
  lemma Insert(m: Memory, a: Addr, k: nat)
    requires Sound(m) && a in m.held && k <= |m.timers|
    requires forall i :: 0 <= i < k ==> Less(m.timers[i], EntryAt(m.heap, a))
    requires forall i :: k <= i < |m.timers| ==> !Less(m.timers[i], EntryAt(m.heap, a))
    ensures var id := IdAt(m.heap, a);
            var m' := m.(timers := m.timers[..k] + [EntryAt(m.heap, a)] + m.timers[k..],
                         active := m.active + {id}, held := m.held - {a});
            && Sound(m') && TheWorld(m') == TheWorld(m).(sched := TheWorld(m).sched[id := m.heap[a]])
            && EntryAt(m.heap, a) !in m.timers && id !in m.active
  {
    SortedInsert(m.timers, k, EntryAt(m.heap, a));
    ReindexAdd(m, a, m.timers[..k] + [EntryAt(m.heap, a)] + m.timers[k..]);
  }

  lemma ReindexAdd(m: Memory, a: Addr, timers: seq<Entry>)
    requires Sound(m) && a in m.held && Sorted(timers)
    requires forall x :: x in timers <==> x in m.timers || x == EntryAt(m.heap, a)
    ensures var m' := WithIndexed(m, a, timers);
            Sound(m') && TheWorld(m') == TheWorld(m).(sched := Sched(m)[IdAt(m.heap, a) := m.heap[a]])
  {
    hide Numbered, QueuedAll;
    AddOwner(m, a, timers);
    assert Sched(WithIndexed(m, a, timers)) == Sched(m)[IdAt(m.heap, a) := m.heap[a]];
    IndexesKeepNumbers(m, WithIndexed(m, a, timers));
    hide TwinIndexes, OneOwner, Sched;
  }

  ghost function WithIndexed(m: Memory, a: Addr, timers: seq<Entry>): Memory
    requires a in m.heap
  {
    m.(timers := timers, active := m.active + {IdAt(m.heap, a)}, held := m.held - {a})
  }

  lemma AddOwner(m: Memory, a: Addr, timers: seq<Entry>)
    requires TwinIndexes(m) && OneOwner(m) && a in m.held && Sorted(timers)
    requires forall x :: x in timers <==> x in m.timers || x == EntryAt(m.heap, a)
    ensures TwinIndexes(WithIndexed(m, a, timers)) && OneOwner(WithIndexed(m, a, timers))
  {
    assert forall x :: Scheduled(WithIndexed(m, a, timers), x) <==> Scheduled(m, x) || x == a;
  }

  lemma IndexesKeepNumbers(m: Memory, m': Memory)
    requires m'.heap == m.heap && m'.pending == m.pending && m'.home == m.home && m'.freed == m.freed
    ensures (Numbered(m') <==> Numbered(m)) && QueuedAll(m') == QueuedAll(m)
  {}

  /** cancel_in_loop of a scheduled timer: erased from both indexes and deleted. */
  lemma Erase(m: Memory, id: TimerId, k: nat)
    requires Sound(m) && id in m.active
    requires k < |m.timers| && m.timers[k] == EntryAt(m.heap, id.addr)
    ensures var m' := m.(heap := m.heap - {id.addr}, timers := m.timers[..k] + m.timers[k + 1..],
                         active := m.active - {id}, freed := m.freed + {id.sequence});
            && Sound(m') && TheWorld(m') == Do(TheWorld(m), Cancelled(id))
            && m.heap[id.addr].sequence == id.sequence && id.sequence !in m.freed && id.addr !in m.held
  {
    SortedRemove(m.timers, k);
    ReindexRemove(m, id.addr, m.timers[..k] + m.timers[k + 1..]);
    var m1 := m.(timers := m.timers[..k] + m.timers[k + 1..], active := m.active - {id}, held := m.held + {id.addr});
    Release(m1, id.addr);
    assert id.addr !in m.held;
    assert m1.held - {id.addr} == m.held;
  }

  lemma ReindexRemove(m: Memory, a: Addr, timers: seq<Entry>)
    requires Sound(m) && Scheduled(m, a) && Sorted(timers)
    requires forall x :: x in timers <==> x in m.timers && x != EntryAt(m.heap, a)
    ensures var m' := WithoutIndexed(m, a, timers);
            Sound(m') && TheWorld(m') == TheWorld(m).(sched := Sched(m) - {IdAt(m.heap, a)})
  {
    hide Numbered, QueuedAll;
    RemoveOwner(m, a, timers);
    assert Sched(WithoutIndexed(m, a, timers)) == Sched(m) - {IdAt(m.heap, a)};
    IndexesKeepNumbers(m, WithoutIndexed(m, a, timers));
    hide TwinIndexes, OneOwner, Sched;
  }

  ghost function WithoutIndexed(m: Memory, a: Addr, timers: seq<Entry>): Memory
    requires a in m.heap
  {
    m.(timers := timers, active := m.active - {IdAt(m.heap, a)}, held := m.held + {a})
  }

  lemma RemoveOwner(m: Memory, a: Addr, timers: seq<Entry>)
    requires TwinIndexes(m) && OneOwner(m) && Scheduled(m, a) && Sorted(timers)
    requires forall x :: x in timers <==> x in m.timers && x != EntryAt(m.heap, a)
    ensures TwinIndexes(WithoutIndexed(m, a, timers)) && OneOwner(WithoutIndexed(m, a, timers))
  {
    assert forall x :: Scheduled(WithoutIndexed(m, a, timers), x) <==> Scheduled(m, x) && x != a;
  }

  /** The ids and addresses of a list of entries. */
  ghost function Ids(heap: map<Addr, Timer>, es: seq<Entry>): set<TimerId> {
    set e | e in es && e.addr in heap :: IdAt(heap, e.addr)
  }

  ghost function Addrs(es: seq<Entry>): set<Addr> {
    set e | e in es :: e.addr
  }

  ghost function WithoutFirst(m: Memory, k: nat): Memory
    requires k <= |m.timers|
  {
    m.(timers := m.timers[k..], active := m.active - Ids(m.heap, m.timers[..k]),
       held := m.held + Addrs(m.timers[..k]))
  }

  ghost function WithoutOne(m: Memory, e: Entry): Memory
    requires m.timers != [] && e.addr in m.heap
  {
    m.(timers := m.timers[1..], active := m.active - {IdAt(m.heap, e.addr)}, held := m.held + {e.addr})
  }

  lemma OneMore(m: Memory, k: nat)
    requires k < |m.timers| && m.timers[k].addr in m.heap
    ensures WithoutFirst(m, k + 1) == WithoutOne(WithoutFirst(m, k), m.timers[k])
    ensures Ids(m.heap, m.timers[..k + 1]) == Ids(m.heap, m.timers[..k]) + {IdAt(m.heap, m.timers[k].addr)}
    ensures Addrs(m.timers[..k + 1]) == Addrs(m.timers[..k]) + {m.timers[k].addr}
  {
    assert m.timers[..k + 1] == m.timers[..k] + [m.timers[k]];
    IdsExtend(m.heap, m.timers[..k], m.timers[k]);
    var m1 := WithoutFirst(m, k);
    assert m1.timers[1..] == m.timers[k + 1..];
  }

  lemma TakeOne(m: Memory)
    requires Sound(m) && m.timers != []
    ensures var e := m.timers[0];
            && Scheduled(m, e.addr) && e.addr !in m.held
            && Sound(WithoutOne(m, e))
            && TheWorld(WithoutOne(m, e)) == TheWorld(m).(sched := Sched(m) - {IdAt(m.heap, e.addr)})
  {
    hide Sound, TheWorld;
    var e := m.timers[0];
    InIndexes(m, TimerId(0, 0));
    StillActive(m, 0);
    SortedRemove(m.timers, 0);
    assert m.timers[..0] + m.timers[1..] == m.timers[1..];
    ReindexRemove(m, e.addr, m.timers[1..]);
  }

  lemma {:induction false} TakeFirst(m: Memory, k: nat)
    requires Sound(m) && k <= |m.timers|
    ensures Sound(WithoutFirst(m, k))
    ensures TheWorld(WithoutFirst(m, k)) ==
              TheWorld(m).(sched := TheWorld(m).sched - Ids(m.heap, m.timers[..k]))
  {
    if k == 0 {
      assert WithoutFirst(m, 0) == m;
      assert Sched(m) - {} == Sched(m);
    } else {
      TakeFirst(m, k - 1);
      var m1, e := WithoutFirst(m, k - 1), m.timers[k - 1];
      assert m1.timers[0] == e;
      TakeOne(m1);
      OneMore(m, k - 1);
      MapMinus(Sched(m), Ids(m.heap, m.timers[..k - 1]), IdAt(m.heap, e.addr));
    }
  }

  lemma MapMinus<K, V>(s: map<K, V>, ids: set<K>, id: K)
    ensures s - (ids + {id}) == s - ids - {id}
  {}

  /** The erase of active_timers_ finds each expired timer. */
  lemma StillActive(m: Memory, k: nat)
    requires Sound(m) && k < |m.timers|
    ensures var a := m.timers[k].addr;
            && a in m.heap && m.timers[k] == EntryAt(m.heap, a) && a !in m.held
            && IdAt(m.heap, a) in m.active - Ids(m.heap, m.timers[..k])
  {
    assert m.timers[k] in m.timers;
  }

  lemma IdsExtend(heap: map<Addr, Timer>, es: seq<Entry>, e: Entry)
    requires e.addr in heap
    ensures Ids(heap, es + [e]) == Ids(heap, es) + {IdAt(heap, e.addr)}
    ensures Addrs(es + [e]) == Addrs(es) + {e.addr}
  {
    assert forall x :: x in es + [e] <==> x in es || x == e;
  }

  /** A batch: entries of Timers that exist, in the order of the index. */
  ghost predicate IsBatch(heap: map<Addr, Timer>, es: seq<Entry>) {
    Sorted(es) && forall e :: e in es ==> e.addr in heap && e == EntryAt(heap, e.addr)
  }

  /** The batch holds exactly the timers of `w` whose time has come. */
  ghost predicate IsDue(w: World, heap: map<Addr, Timer>, es: seq<Entry>, now: int) {
    && Ids(heap, es) == Expired(w.sched, now)
    && forall id :: id in Ids(heap, es) ==> id in w.sched && w.sched[id] == heap[id.addr]
  }

  /** get_expired takes exactly the timers whose time has come. */
  lemma Expire(m: Memory, k: nat, now: int)
    requires Sound(m) && k <= |m.timers|
    requires forall i :: 0 <= i < k ==> m.timers[i].when <= now
    requires forall i :: k <= i < |m.timers| ==> now < m.timers[i].when
    ensures IsBatch(m.heap, m.timers[..k]) && IsDue(TheWorld(m), m.heap, m.timers[..k], now)
  {
    assert m.timers == m.timers[..k] + m.timers[k..];
    forall id
      ensures id in Ids(m.heap, m.timers[..k]) <==> id in Expired(Sched(m), now)
    {
      if id in Expired(Sched(m), now) {
        var e := EntryAt(m.heap, id.addr);
        assert e in m.timers;
        assert e !in m.timers[k..];
      }
    }
  }

  lemma TakeDue(m: Memory, k: nat, now: int)
    requires Sound(m) && k <= |m.timers| && m.held == {}
    requires forall i :: 0 <= i < k ==> m.timers[i].when <= now
    requires forall i :: k <= i < |m.timers| ==> now < m.timers[i].when
    ensures IsBatch(m.heap, m.timers[..k]) && IsDue(TheWorld(m), m.heap, m.timers[..k], now)
    ensures var m' := m.(timers := m.timers[k..], active := m.active - Ids(m.heap, m.timers[..k]),
                         held := Addrs(m.timers[..k]));
            && Sound(m')
            && TheWorld(m') == TheWorld(m).(sched := TheWorld(m).sched - Expired(TheWorld(m).sched, now))
            && (m'.timers != [] ==> now < m'.timers[0].when)
  {
    Expire(m, k, now);
    TakeFirst(m, k);
    assert {} + Addrs(m.timers[..k]) == Addrs(m.timers[..k]);
  }

  lemma CancelNothing(m: Memory, id: TimerId)
    requires Sound(m) && id !in m.active
    ensures Do(TheWorld(m), Cancelled(id)) == TheWorld(m)
  {
    assert Sched(m) - {id} == Sched(m);
  }

  lemma InIndexes(m: Memory, id: TimerId)
    requires Sound(m)
    ensures Sorted(m.timers) && forall a :: a in m.held ==> a in m.heap
    ensures id in m.active ==>
              id.addr in m.heap && id == IdAt(m.heap, id.addr) && EntryAt(m.heap, id.addr) in m.timers
  {}

  /** An entry in the set is found by lower_bound. */
  lemma FindEntry(s: seq<Entry>, e: Entry, k: nat)
    requires Sorted(s) && e in s && k <= |s|
    requires forall i :: 0 <= i < k ==> Less(s[i], e)
    requires forall i :: k <= i < |s| ==> !Less(s[i], e)
    ensures k < |s| && s[k] == e
  {
    var i :| 0 <= i < |s| && s[i] == e;
  }

  lemma PostOwner(m: Memory, b: Bound)
    requires TwinIndexes(m) && OneOwner(m) && (b.BoundAdd? ==> b.addr in m.held)
    ensures var m' := Posted(m, b);
            TwinIndexes(m') && OneOwner(m') && QueuedAll(m') == QueuedAll(m) + [Queued(m.heap, b)]
  {
    var m' := Posted(m, b);
    assert forall x :: Scheduled(m', x) <==> Scheduled(m, x);
    assert forall x :: x in m'.pending <==> x in m.pending || x == b;
  }

  ghost function Posted(m: Memory, b: Bound): Memory {
    m.(pending := m.pending + [b], held := if b.BoundAdd? then m.held - {b.addr} else m.held)
  }

  lemma PostQueue(m: Memory, b: Bound)
    requires InBounds(m) && QueuedAll(Posted(m, b)) == QueuedAll(m) + [Queued(m.heap, b)]
    ensures var w := TheWorld(m); TheWorld(Posted(m, b)) == w.(pending := w.pending + [Queued(m.heap, b)])
  {
    var q, m' := QueuedAll(m), Posted(m, b);
    assert Sched(m') == Sched(m);
    hide Sched, QueuedAll, Queued;
    var k := Swapped(m);
    assert (q + [Queued(m.heap, b)])[..k] == q[..k];
    assert (q + [Queued(m.heap, b)])[k..] == q[k..] + [Queued(m.heap, b)];
  }

  /** Another thread hands a Timer it owns to the pending list. */
  lemma PostAdd(m: Memory, a: Addr)
    requires Sound(m) && a in m.held
    ensures a in m.heap && Sound(Posted(m, BoundAdd(a)))
    ensures var w := TheWorld(m);
            TheWorld(Posted(m, BoundAdd(a))) == w.(pending := w.pending + [Added(IdAt(m.heap, a), m.heap[a])])
  {
    PostOwner(m, BoundAdd(a));
    PostQueue(m, BoundAdd(a));
    hide TwinIndexes, TheWorld;
  }

  lemma PostCancel(m: Memory, id: TimerId)
    requires Sound(m)
    ensures Sound(Posted(m, BoundCancel(id)))
    ensures TheWorld(Posted(m, BoundCancel(id))) == Do(TheWorld(m), PostedCancel(id))
  {
    PostOwner(m, BoundCancel(id));
    PostQueue(m, BoundCancel(id));
    hide TwinIndexes, OneOwner, TheWorld;
  }

  /** The loop thread takes the oldest functor of the round. */
  ghost function Taken(m: Memory): Memory
    requires m.pending != [] && m.place.InRound? && 0 < m.place.left
  {
    var b := m.pending[0];
    m.(pending := m.pending[1..], place := InRound(m.place.left - 1),
       held := if b.BoundAdd? then m.held + {b.addr} else m.held)
  }

  lemma TakeOwner(m: Memory)
    requires TwinIndexes(m) && OneOwner(m) && m.pending != [] && m.place.InRound? && 0 < m.place.left
    ensures TwinIndexes(Taken(m)) && OneOwner(Taken(m)) && QueuedAll(Taken(m)) == QueuedAll(m)[1..]
    ensures var b := m.pending[0]; b.BoundAdd? ==> b.addr in m.heap && b.addr !in m.held
  {
    assert m.pending == [m.pending[0]] + m.pending[1..];
    assert forall i :: 1 <= i < |m.pending| ==> m.pending[i] == m.pending[1..][i - 1];
    assert forall x :: Scheduled(Taken(m), x) <==> Scheduled(m, x);
  }

  lemma TakeQueue(m: Memory)
    requires InBounds(m) && m.pending != [] && m.place.InRound? && 0 < m.place.left
    requires QueuedAll(Taken(m)) == QueuedAll(m)[1..]
    ensures var w := TheWorld(m);
            w.round.rest != [] && w.round.rest[0] == Queued(m.heap, m.pending[0])
            && TheWorld(Taken(m)) == w.(round := Running(w.round.rest[1..]))
  {
    var q, k := QueuedAll(m), m.place.left;
    assert Sched(Taken(m)) == Sched(m) && q[0] == Queued(m.heap, m.pending[0]);
    hide Sched, QueuedAll, Queued;
    assert q[1..][..k - 1] == q[..k][1..] && q[1..][k - 1..] == q[k..];
  }

  lemma TakeFunctor(m: Memory)
    requires Sound(m) && m.place.InRound? && 0 < m.place.left
    ensures m.pending != [] && Sound(Taken(m))
    ensures var b, w := m.pending[0], TheWorld(m);
            && w.round.Running? && w.round.rest != [] && TheWorld(Taken(m)) == w.(round := Running(w.round.rest[1..]))
            && (b.BoundAdd? ==> b.addr in m.heap && b.addr !in m.held
                                 && w.round.rest[0] == Added(IdAt(m.heap, b.addr), m.heap[b.addr])
                                 && m.heap[b.addr].sequence in w.issued)
            && (b.BoundCancel? ==> w.round.rest[0] == Cancelled(b.id))
  {
    TakeOwner(m);
    TakeQueue(m);
    hide TwinIndexes, OneOwner;
  }

  lemma PlaceOnly(m: Memory, place: Place)
    requires Sound(m) && InBounds(m.(place := place))
    ensures var m' := m.(place := place); Sound(m') && Sched(m') == Sched(m) && QueuedAll(m') == QueuedAll(m)
  {
    assert forall x :: Scheduled(m.(place := place), x) <==> Scheduled(m, x);
  }

  lemma BetweenRounds(m: Memory)
    requires m.place.AtHandlers?
    ensures TheWorld(m).round == Dispatching(m.place.fired)
  {}

  /** handle_read has had its call in this turn. */
  lemma TurnFired(m: Memory)
    requires Sound(m) && m.place.AtHandlers?
    ensures var m' := m.(place := AtHandlers(true));
            Sound(m') && TheWorld(m') == TheWorld(m).(round := Dispatching(true))
  {
    PlaceOnly(m, AtHandlers(true));
    hide Sound, Sched, QueuedAll;
  }

  /** doPendingFuncs_ swaps the whole list out. */
  lemma TurnSwap(m: Memory)
    requires Sound(m) && m.place.AtHandlers?
    ensures var m', w := m.(place := InRound(|m.pending|)), TheWorld(m);
            Sound(m') && Legal(w, Swap) && TheWorld(m') == Next(w, Swap)
  {
    PlaceOnly(m, InRound(|m.pending|));
    hide Sound, Sched;
    var q := QueuedAll(m);
    hide QueuedAll;
    assert q[..|q|] == q && q[0..] == q && q[|q|..] == [];
  }

  /** It returns, and a poll follows. */
  lemma TurnEnd(m: Memory)
    requires Sound(m) && m.place == InRound(0)
    ensures var m', w := m.(place := AtHandlers(false)), TheWorld(m);
            Sound(m') && Legal(w, EndRound) && TheWorld(m') == Next(w, EndRound)
  {
    PlaceOnly(m, AtHandlers(false));
    hide Sound, Sched;
    var q := QueuedAll(m);
    hide QueuedAll;
    assert q[..0] == [];
  }

  lemma {:induction false} DistinctCount<T>(s: seq<T>, t: set<T>)
    requires forall i, j :: 0 <= i < j < |s| ==> s[i] != s[j]
    requires forall x :: x in t <==> x in s
    ensures |s| == |t|
  {
    if s == [] {
      assert t == {};
    } else {
      var last := s[|s| - 1];
      assert s == s[..|s| - 1] + [last];
      DistinctCount(s[..|s| - 1], t - {last});
    }
  }

  /** assert(timers_.size() == active_timers_.size()) */
  lemma SameSize(m: Memory)
    requires Sound(m)
    ensures |m.timers| == |m.active|
  {
    assert forall e :: e in m.timers ==> e.addr in m.heap;
    var ids := seq(|m.timers|, i requires 0 <= i < |m.timers| => IdAt(m.heap, m.timers[i].addr));
    forall i, j | 0 <= i < j < |ids|
      ensures ids[i] != ids[j]
    {
      assert m.timers[i] in m.timers && m.timers[j] in m.timers;
    }
    forall id
      ensures id in m.active <==> id in ids
    {
      if id in m.active {
        var i :| 0 <= i < |m.timers| && m.timers[i] == EntryAt(m.heap, id.addr);
        assert ids[i] == id;
      }
      if id in ids {
        var i :| 0 <= i < |ids| && ids[i] == id;
        assert m.timers[i] in m.timers;
      }
    }
    DistinctCount(ids, m.active);
  }

  lemma HeldNotActive(m: Memory, id: TimerId)
    requires Sound(m) && id.addr in m.held
    ensures id.addr in m.heap && (id == IdAt(m.heap, id.addr) ==> id !in m.active)
  {}

  lemma FirstEntry(m: Memory)
    requires Sound(m) && m.timers != []
    ensures m.timers[0].addr in m.heap && m.timers[0] == EntryAt(m.heap, m.timers[0].addr)
  {
    assert m.timers[0] in m.timers;
  }

  /** The repeating timers among `es` that are not in `canceling`, restarted. */
  ghost function Back(heap: map<Addr, Timer>, es: seq<Entry>, canceling: set<TimerId>, now: int): Schedule {
    map id | id in Ids(heap, es) && id.addr in heap && heap[id.addr].repeat && id !in canceling ::
      heap[id.addr].(expiration := now + heap[id.addr].delta)
  }

  ghost function WithBack(w: World, heap: map<Addr, Timer>, es: seq<Entry>, canceling: set<TimerId>, now: int): World {
    w.(sched := w.sched + Back(heap, es, canceling, now))
  }

  lemma BackNothing(w: World, heap: map<Addr, Timer>, canceling: set<TimerId>, now: int)
    ensures WithBack(w, heap, [], canceling, now) == w && Addrs([]) == {}
  {
    assert w.sched + Back(heap, [], canceling, now) == w.sched;
  }

  lemma BackExtend(w: World, heap: map<Addr, Timer>, es: seq<Entry>, e: Entry, canceling: set<TimerId>, now: int)
    requires e.addr in heap
    ensures var id, t, w' := IdAt(heap, e.addr), heap[e.addr], WithBack(w, heap, es, canceling, now);
            WithBack(w, heap, es + [e], canceling, now) ==
              if t.repeat && id !in canceling
              then w'.(sched := w'.sched[id := t.(expiration := now + t.delta)])
              else w'
  {
    IdsExtend(heap, es, e);
    var id, t := IdAt(heap, e.addr), heap[e.addr];
    var b, b' := Back(heap, es, canceling, now), Back(heap, es + [e], canceling, now);
    if t.repeat && id !in canceling {
      assert b' == b[id := t.(expiration := now + t.delta)];
      assert w.sched + b' == (w.sched + b)[id := t.(expiration := now + t.delta)];
    } else {
      assert b' == b;
    }
  }

  /** A batch with its first entry removed. */
  lemma BatchTail(heap: map<Addr, Timer>, es: seq<Entry>)
    requires es != [] && IsBatch(heap, es)
    ensures es[0].addr in heap && es[0].addr in Addrs(es) && Addrs(es[1..]) == Addrs(es) - {es[0].addr}
    ensures IsBatch(heap, es[1..])
  {
    assert es[0] in es;
    assert es == [es[0]] + es[1..];
    forall e | e in es[1..]
      ensures e.addr != es[0].addr
    {
      var i :| 1 <= i < |es| && e == es[i];
      assert Less(es[0], es[i]);
    }
  }

  /** The ids of a batch, in its order. */
  ghost function IdSeq(heap: map<Addr, Timer>, es: seq<Entry>): (ids: seq<TimerId>)
    requires forall e :: e in es ==> e.addr in heap
    ensures |ids| == |es|
    ensures forall i :: 0 <= i < |es| ==> ids[i] == IdAt(heap, es[i].addr)
  {
    if es == [] then []
    else
      assert es[|es| - 1] in es;
      IdSeq(heap, es[..|es| - 1]) + [IdAt(heap, es[|es| - 1].addr)]
  }

  lemma BatchOrder(w: World, heap: map<Addr, Timer>, es: seq<Entry>, now: int)
    requires IsBatch(heap, es) && IsDue(w, heap, es, now)
    ensures InDueOrder(w.sched, IdSeq(heap, es))
    ensures forall id :: id in IdSeq(heap, es) <==> id in Expired(w.sched, now)
  {
    var ids := IdSeq(heap, es);
    forall i | 0 <= i < |es|
      ensures ids[i] in w.sched && Entry(w.sched[ids[i]].expiration, ids[i].addr) == es[i]
    {
      assert es[i] in es;
      assert ids[i] in Ids(heap, es);
    }
    forall id | id in Expired(w.sched, now)
      ensures id in ids
    {
      assert id in Ids(heap, es);
      var e :| e in es && e.addr in heap && id == IdAt(heap, e.addr);
      var i :| 0 <= i < |es| && es[i] == e;
      assert ids[i] == id;
    }
  }

  lemma MembersAreDue(m: Memory, es: seq<Entry>, later: seq<Entry>)
    requires Sound(m) && es + later == m.timers && forall e :: e in es ==> e.addr in m.heap
    ensures forall i :: 0 <= i < |es| ==>
              es[i] == EntryAt(m.heap, es[i].addr) && IdAt(m.heap, es[i].addr) in m.active
  {
    forall i | 0 <= i < |es|
      ensures es[i] == EntryAt(m.heap, es[i].addr) && IdAt(m.heap, es[i].addr) in m.active
    {
      assert m.timers[i] == es[i] && m.timers[i] in m.timers;
    }
  }

  lemma DueAreMembers(m: Memory, es: seq<Entry>, later: seq<Entry>, now: int, id: TimerId)
    requires Sound(m) && es + later == m.timers && (later != [] ==> now < later[0].when)
    requires id in m.active && id.addr in m.heap && m.heap[id.addr].expiration <= now
    ensures EntryAt(m.heap, id.addr) in es && id == IdAt(m.heap, id.addr)
  {
    var e := EntryAt(m.heap, id.addr);
    var k :| 0 <= k < |m.timers| && m.timers[k] == e;
    assert later != [] ==> m.timers[|es|] == later[0];
    assert k < |es| && es[k] == e;
  }

  lemma EarliestFirst(heap: map<Addr, Timer>, es: seq<Entry>)
    requires IsBatch(heap, es)
    requires forall e :: e in es ==> e.addr in heap
    ensures var ids := IdSeq(heap, es);
            && (forall i :: 0 <= i < |ids| ==> ids[i].addr in heap)
            && forall i, j :: 0 <= i < j < |ids| ==>
                 ids[i] != ids[j] && heap[ids[i].addr].expiration <= heap[ids[j].addr].expiration
  {
    assert forall i :: 0 <= i < |es| ==> es[i] in es;
  }

  /** The batch holds each active timer that is due, once, earliest first. */
  lemma DueInOrder(m: Memory, es: seq<Entry>, later: seq<Entry>, now: int)
    requires Sound(m) && es + later == m.timers && IsBatch(m.heap, es)
    requires forall e :: e in es ==> e.when <= now && e.addr in m.heap
    requires later != [] ==> now < later[0].when
    ensures var ids := IdSeq(m.heap, es);
            && (forall id :: id in ids <==>
                  id in m.active && id.addr in m.heap && m.heap[id.addr].expiration <= now)
            && (forall i :: 0 <= i < |ids| ==> ids[i].addr in m.heap)
            && forall i, j :: 0 <= i < j < |ids| ==>
                 ids[i] != ids[j] && m.heap[ids[i].addr].expiration <= m.heap[ids[j].addr].expiration
  {
    hide Sound, IsBatch;
    EarliestFirst(m.heap, es);
    MembersAreDue(m, es, later);
    var ids := IdSeq(m.heap, es);
    forall id
      ensures id in ids <==> id in m.active && id.addr in m.heap && m.heap[id.addr].expiration <= now
    {
      if id in m.active && id.addr in m.heap && m.heap[id.addr].expiration <= now {
        DueAreMembers(m, es, later, now, id);
        var k :| 0 <= k < |es| && es[k] == EntryAt(m.heap, id.addr);
        assert ids[k] == id;
      }
      if id in ids {
        var k :| 0 <= k < |ids| && ids[k] == id;
        assert es[k] in es && es[k] == EntryAt(m.heap, es[k].addr);
      }
    }
  }

  /** What reset puts back is what the schedule calls restarted, provided the
      cancelling set and the trace agree on the batch. */
  lemma BackIsRestarted(w: World, heap: map<Addr, Timer>, es: seq<Entry>, canceling: set<TimerId>,
                        now: int, trace: seq<Event>)
    requires IsBatch(heap, es) && IsDue(w, heap, es, now)
    requires forall id :: id in Ids(heap, es) ==> (id in canceling <==> Cancelled(id) in trace)
    ensures Back(heap, es, canceling, now) == Restarted(w.sched, now, trace)
  {}

  lemma SameBatch(w: World, heap: map<Addr, Timer>, heap': map<Addr, Timer>, es: seq<Entry>,
                  canceling: set<TimerId>, now: int)
    requires IsBatch(heap, es)
    requires forall a :: a in Addrs(es) ==> a in heap' && a in heap && heap'[a] == heap[a]
    ensures IsBatch(heap', es) && WithBack(w, heap', es, canceling, now) == WithBack(w, heap, es, canceling, now)
  {
    BatchAddrs(heap, es);
    assert Ids(heap', es) == Ids(heap, es);
    assert Back(heap', es, canceling, now) == Back(heap, es, canceling, now);
  }

  lemma BatchAddrs(heap: map<Addr, Timer>, es: seq<Entry>)
    requires IsBatch(heap, es)
    ensures forall e :: e in es ==> e.addr in heap && e.addr in Addrs(es)
    ensures forall a :: a in Addrs(es) ==> a in heap
  {}

  /** The end of handle_read, seen from the schedule. */
  lemma EndOfBatch(w: World, now: int, heap: map<Addr, Timer>, es: seq<Entry>, canceling: set<TimerId>,
                   trace: seq<Event>)
    requires IsBatch(heap, es) && IsDue(w, heap, es, now)
    requires w.round == Dispatching(false) && (trace == [] || trace[0].Ran?)
    requires AllFresh(w.(sched := w.sched - Expired(w.sched, now)), trace)
    requires forall e :: e in es ==> e.addr in heap
    requires RunsOf(trace) == IdSeq(heap, es)
    requires forall a :: a in Addrs(es) && a in heap ==>
               (IdAt(heap, a) in canceling <==> Cancelled(IdAt(heap, a)) in trace)
    ensures var w1, batch := w.(sched := w.sched - Expired(w.sched, now)), Batch(now, trace);
            && Legal(w, batch)
            && WithBack(DoAll(w1, trace), heap, es, canceling, now).(round := Dispatching(true)) == Next(w, batch)
  {
    BatchOrder(w, heap, es, now);
    forall id
      ensures Ran(id) in trace <==> id in Expired(w.sched, now)
    {
      RanIsInRuns(trace, id);
    }
    BackIsRestarted(w, heap, es, canceling, now, trace);
  }

  /** With all entries taken, both indexes are empty. */
  lemma EmptyIndexes(m: Memory)
    requires Sound(m) && m.held == {}
    ensures var m' := WithoutFirst(m, |m.timers|);
            m'.timers == [] && m'.active == {} && m'.held == Addrs(m.timers)
    ensures IsBatch(m.heap, m.timers)
  {
    assert m.timers[..|m.timers|] == m.timers;
    forall id | id in m.active
      ensures id in Ids(m.heap, m.timers)
    {
      assert EntryAt(m.heap, id.addr) in m.timers;
    }
  }

  lemma OnlyQueued(m: Memory)
    requires Sound(m) && m.active == {} && m.held == Addrs([])
    ensures forall a :: a in m.heap <==> BoundAdd(a) in m.pending
  {}
}
