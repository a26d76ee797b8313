/**
 TimerQueue.cpp: two ordered indexes, a one-shot timer descriptor, re-entrant
 callbacks and hand-managed memory, proved to implement TimerSchedule.
 */
module TimerQueues {
  import opened TimerSchedule
  import opened TimerMemory
  import opened TimerOrders

  const US_PER_S: nat := 1_000_000

  /** The kernel's side of timerfd_: readable once the clock reaches the deadline. */
  datatype Timerfd = Disarmed | Armed(deadlineNs: int)

  function Max(a: int, b: int): int { if a < b then b else a }

  /** std::set::lower_bound. */
  function LowerBound(s: seq<Entry>, e: Entry): (k: nat)
    requires Sorted(s)
    ensures k <= |s|
    ensures forall i :: 0 <= i < k ==> Less(s[i], e)
    ensures forall i :: k <= i < |s| ==> !Less(s[i], e)
  {
    if s == [] || !Less(s[0], e) then 0 else 1 + LowerBound(s[1..], e)
  }

  /** lower_bound of (now, UINTPTR_MAX): no timer lives at that address, so an
      entry is below the sentry exactly when its time is at most `now`. */
  function DueCount(s: seq<Entry>, now: int): (k: nat)
    requires Sorted(s)
    ensures k <= |s|
    ensures forall i :: 0 <= i < k ==> s[i].when <= now
    ensures forall i :: k <= i < |s| ==> now < s[i].when
  {
    if s == [] || now < s[0].when then 0 else 1 + DueCount(s[1..], now)
  }

  lemma SplitAtNow(s: seq<Entry>, k: nat, now: int)
    requires k <= |s| && forall i :: 0 <= i < k ==> s[i].when <= now
    ensures s[..k] + s[k..] == s && forall e :: e in s[..k] ==> e.when <= now
  {}

  /** Some address not in use. */
  method FreeAddress(used: set<Addr>) returns (a: Addr)
    ensures a !in used
  {
    a := 0;
    ghost var seen: set<Addr> := {};
    while a in used
      invariant seen <= used && forall x :: x in seen <==> 0 <= x < a
      decreases used - seen
    {
      seen := seen + {a};
      a := a + 1;
    }
  }

  /** What a call does in memory: the timer asked for is created and indexed or
      queued, or the id is erased or its cancellation queued. */
  ghost predicate Effect(act: Activity, events: seq<Event>, heap: map<Addr, Timer>,
                         active: set<TimerId>, active': set<TimerId>, pending: seq<Bound>, pending': seq<Bound>) {
    match act
    case Add(when, repeat, delta) =>
      && |events| == 1 && events[0].Added? && events[0].id.addr in heap
      && heap[events[0].id.addr] == Timer(when, delta, repeat, events[0].id.sequence)
      && active' == active + {events[0].id} && pending' == pending
    case ForeignAdd(when, repeat, delta) =>
      && |events| == 1 && events[0].PostedAdd? && events[0].id.addr in heap
      && heap[events[0].id.addr] == Timer(when, delta, repeat, events[0].id.sequence)
      && active' == active && pending' == pending + [BoundAdd(events[0].id.addr)]
    case Cancel(id) => active' == active - {id} && pending' == pending
    case ForeignCancel(id) => active' == active && pending' == pending + [BoundCancel(id)]
    case _ => active' == active && pending' == pending
  }

  class TimerQueue {
    // The process: the Timers that exist, by address; the clock in microseconds;
    // Timer::s_num_created_.
    var heap: map<Addr, Timer>
    var clock: nat
    var created: nat

    // The loop: the functors other threads have bound and it has not run yet, oldest
    // first, and where it is in its turn. In a round the first `place.left` of them
    // are what is left of the vector doPendingFuncs_ has swapped out.
    var pending: seq<Bound>
    var place: Place

    // The members of TimerQueue, and the kernel's side of timerfd_.
    var timerfd: Timerfd
    var timers: seq<Entry>
    var active: set<TimerId>
    var canceling: set<TimerId>
    var callingExpired: bool

    // The addresses owned by local variables, the address each sequence number
    // was given to, the numbers freed, and when timerfd_ was last set.
    ghost var held: set<Addr>
    ghost var home: map<nat, Addr>
    ghost var freed: set<nat>
    ghost var setAt: nat

    ghost function Mem(): Memory
      reads this
    {
      Memory(heap, timers, active, pending, place, held, home, freed)
    }

    ghost function Abs(): World
      reads this
    {
      TheWorld(Mem())
    }

    ghost predicate Valid()
      reads this
    {
      && Sound(Mem())
      && (forall q :: q in home ==> q <= created)
      && 0 < clock && setAt <= clock
    }

    /** timerfd_ becomes readable in time for the earliest timer. */
    ghost predicate Covered()
      reads this
    {
      timers != [] ==>
        timerfd.Armed? && timerfd.deadlineNs <= 1000 * Max(timers[0].when, setAt + 100)
    }

    ghost predicate CoveredIfNotPositive()
      reads this
    {
      timers != [] && timers[0].when <= 0 ==> Covered()
    }

    /** Whatever expired at `since` or before has been read. */
    ghost predicate QuietSince(since: int)
      reads this
    {
      since <= clock && (timerfd.Armed? ==> 1000 * since < timerfd.deadlineNs)
    }

    /** No batch is running and no local variable owns a Timer. */
    ghost predicate Ready()
      reads this
    {
      Valid() && held == {} && !callingExpired && Covered()
    }

    constructor (now: nat, alreadyCreated: nat)
      requires 0 < now
      ensures Valid() && Covered() && held == {} && !callingExpired
      ensures Abs() == World(map[], Dispatching(false), [], {}) && clock == now && place == AtHandlers(false)
    {
      heap, clock, created := map[], now, alreadyCreated;
      pending, place := [], AtHandlers(false);
      timerfd, timers, active, canceling, callingExpired := Disarmed, [], {}, {}, false;
      held, home, freed, setAt := {}, map[], {}, 0;
    }

    /** The relative timeout handed to the kernel: never zero, and exactly the
        delay to `when` in nanoseconds, clamped below at 100 microseconds. */
    method HowMuchTimeFromNow(when: int) returns (sec: int, nsec: int)
      ensures 0 <= sec && 0 <= nsec < 1_000_000_000 && (sec, nsec) != (0, 0)
      ensures sec * 1_000_000_000 + nsec == 1000 * Max(when - clock, 100)
    {
      var us := when - clock;
      if us < 100 {
        us := 100;
      }
      sec := us / US_PER_S;
      nsec := (us % US_PER_S) * 1000;
    }

    method ResetTimerfd(expiration: int)
      modifies this`timerfd, this`setAt
      ensures timerfd == Armed(1000 * Max(expiration, clock + 100)) && setAt == clock
    {
      var sec, nsec := HowMuchTimeFromNow(expiration);
      // timerfd_settime with a relative value: a zero value would disarm.
      timerfd := if (sec, nsec) == (0, 0) then Disarmed else Armed(1000 * clock + sec * 1_000_000_000 + nsec);
      setAt := clock;
    }

    /** read on a non-blocking one-shot descriptor: EAGAIN if nothing expired. */
    method ReadTimerfd()
      modifies this`timerfd
      ensures timerfd == if old(timerfd.Armed? && timerfd.deadlineNs <= 1000 * clock) then Disarmed else old(timerfd)
    {
      if timerfd.Armed? && timerfd.deadlineNs <= 1000 * clock {
        timerfd := Disarmed;
      }
    }

    /** new Timer(cb, when, interval): any address not in use, including one that
        an earlier Timer had. */
    method NewTimer(when: int, repeat: bool, delta: nat) returns (addr: Addr)
      requires Valid()
      modifies this`heap, this`created, this`held, this`home
      ensures Valid() && addr !in old(heap) && addr !in old(held) && held == old(held) + {addr}
      ensures heap == old(heap)[addr := Timer(when, delta, repeat, created)]
      ensures created == old(created) + 1 && created !in old(Abs()).issued
      ensures Abs() == old(Abs()).(issued := old(Abs()).issued + {created})
    {
      hide Sound, TheWorld;
      addr := FreeAddress(heap.Keys);
      created := created + 1;
      Allocate(Mem(), addr, Timer(when, delta, repeat, created));
      heap := heap[addr := Timer(when, delta, repeat, created)];
      held := held + {addr};
      home := home[created := addr];
      assert Mem() == WithNew(old(Mem()), addr, heap[addr]);
    }

    /** delete: the Timer must exist, so nothing is freed twice. */
    method Delete(addr: Addr)
      requires addr in heap && heap[addr].sequence !in freed
      modifies this`heap, this`freed
      ensures heap == old(heap) - {addr} && freed == old(freed) + {old(heap)[addr].sequence}
    {
      freed := freed + {heap[addr].sequence};
      heap := heap - {addr};
    }

    /** insert, with its four assertions. */
    method InsertTimer(addr: Addr) returns (earliestChanged: bool)
      requires Valid() && addr in held
      modifies this`timers, this`active, this`held
      ensures Valid() && held == old(held) - {addr}
      ensures Abs() == old(Abs()).(sched := old(Abs()).sched[IdAt(heap, addr) := heap[addr]])
      ensures active == old(active) + {IdAt(heap, addr)} && EntryAt(heap, addr) in timers && timers != []
      ensures earliestChanged <==> old(timers) == [] || heap[addr].expiration < old(timers)[0].when
      ensures earliestChanged ==> timers[0] == EntryAt(heap, addr)
      ensures !earliestChanged ==> old(timers) != [] && timers[0].when == old(timers)[0].when
      ensures old(timers) != [] ==> timers[0].when <= old(timers)[0].when
    {
      hide Sound, TheWorld;
      InIndexes(Mem(), TimerId(0, 0));
      var when := heap[addr].expiration;
      earliestChanged := timers == [] || when < timers[0].when;
      var k := LowerBound(timers, Entry(when, addr));
      TimerMemory.Insert(Mem(), addr, k);
      assert Entry(when, addr) !in timers;
      assert TimerId(addr, heap[addr].sequence) !in active;
      timers := timers[..k] + [Entry(when, addr)] + timers[k..];
      active := active + {TimerId(addr, heap[addr].sequence)};
      held := held - {addr};
      assert Mem() == old(Mem()).(timers := timers, active := active, held := held);
      SameSize(Mem());
      assert |timers| == |active|;
    }

    method AddTimerInLoop(addr: Addr)
      requires Valid() && addr in held
      modifies this`timers, this`active, this`held, this`timerfd, this`setAt
      ensures Valid() && held == old(held) - {addr}
      ensures Abs() == old(Abs()).(sched := old(Abs()).sched[IdAt(heap, addr) := heap[addr]])
      ensures active == old(active) + {IdAt(heap, addr)} && EntryAt(heap, addr) in timers
      ensures timerfd == if old(timers) == [] || heap[addr].expiration < old(timers)[0].when
                         then Armed(1000 * Max(heap[addr].expiration, clock + 100)) else old(timerfd)
      ensures old(Covered()) ==> Covered()
      ensures old(CoveredIfNotPositive()) ==> CoveredIfNotPositive()
      ensures forall since :: old(QuietSince(since)) ==> QuietSince(since)
    {
      var earliestChanged := InsertTimer(addr);
      if earliestChanged {
        ResetTimerfd(heap[addr].expiration);
      }
    }

    /** The erasing half of cancel_in_loop. */
    method EraseTimer(id: TimerId)
      requires Valid() && id in active
      modifies this`heap, this`timers, this`active, this`freed
      ensures Valid() && Abs() == Do(old(Abs()), Cancelled(id))
      ensures active == old(active) - {id} && |timers| == |active|
      ensures id.addr !in held && heap == old(heap) - {id.addr}
      ensures timers != [] ==> old(timers) != [] && old(timers)[0].when <= timers[0].when
    {
      hide Sound, TheWorld;
      InIndexes(Mem(), id);
      var entry := Entry(heap[id.addr].expiration, id.addr);
      var k := LowerBound(timers, entry);
      FindEntry(timers, entry, k);
      Erase(Mem(), id, k);
      timers := timers[..k] + timers[k + 1..];
      Delete(id.addr);
      active := active - {id};
      assert Mem() == old(Mem()).(heap := heap, timers := timers, active := active, freed := freed);
      SameSize(Mem());
    }

    /** The other half: the timer is not active. */
    method RememberCancel(id: TimerId)
      requires Valid() && id !in active
      modifies this`canceling
      ensures Valid() && Abs() == Do(old(Abs()), Cancelled(id)) && Abs() == old(Abs())
      ensures active == old(active) - {id} && |timers| == |active|
      ensures canceling == if callingExpired then old(canceling) + {id} else old(canceling)
    {
      hide Sound, TheWorld;
      CancelNothing(Mem(), id);
      if callingExpired {
        canceling := canceling + {id};
      }
      assert Mem() == old(Mem());
      SameSize(Mem());
    }

    /** cancel_in_loop, with its assertions. */
    method CancelInLoop(id: TimerId)
      requires Valid()
      modifies this`heap, this`timers, this`active, this`freed, this`canceling
      ensures Valid() && Abs() == Do(old(Abs()), Cancelled(id))
      ensures forall a :: a in held ==> a in heap && heap[a] == old(heap)[a]
      ensures active == old(active) - {id} && (id in old(active) ==> id.addr !in heap)
      ensures id in old(active) || !callingExpired ==> canceling == old(canceling)
      ensures id !in old(active) && callingExpired ==> canceling == old(canceling) + {id}
      ensures old(Covered()) ==> Covered()
      ensures old(CoveredIfNotPositive()) ==> CoveredIfNotPositive()
    {
      hide Sound, TheWorld, Do, Sorted;
      InIndexes(Mem(), id);
      SameSize(Mem());
      assert |timers| == |active|;
      if id in active {
        EraseTimer(id);
      } else {
        RememberCancel(id);
      }
      assert |timers| == |active|;
    }

    /** add_timer on another thread: allocated there, queued for the loop. */
    method PostAddTimer(when: int, repeat: bool, delta: nat) returns (id: TimerId)
      requires Valid()
      modifies this`heap, this`created, this`held, this`home, this`pending
      ensures Valid() && held == old(held) && created == old(created) + 1
      ensures forall a :: a in old(heap) ==> a in heap && heap[a] == old(heap)[a]
      ensures id.addr in heap && heap[id.addr] == Timer(when, delta, repeat, created)
      ensures pending == old(pending) + [BoundAdd(id.addr)]
      ensures id.sequence == created && created !in old(Abs()).issued
      ensures Abs() == Do(old(Abs()), PostedAdd(id, Timer(when, delta, repeat, created)))
    {
      hide Sound, TheWorld;
      var addr := NewTimer(when, repeat, delta);
      id := TimerId(addr, heap[addr].sequence);
      ghost var mid := Mem();
      PostAdd(mid, addr);
      pending := pending + [BoundAdd(addr)];
      held := held - {addr};
      assert Mem() == Posted(mid, BoundAdd(addr));
      assert addr !in old(held);
    }

    /** cancel on another thread: queued for the loop. */
    method PostCancelTimer(id: TimerId)
      requires Valid()
      modifies this`pending
      ensures pending == old(pending) + [BoundCancel(id)]
      ensures Valid() && Abs() == Do(old(Abs()), PostedCancel(id))
    {
      hide Sound, TheWorld;
      PostCancel(Mem(), id);
      pending := pending + [BoundCancel(id)];
      assert Mem() == Posted(old(Mem()), BoundCancel(id));
    }

    /** add_timer on the loop thread: inserted at once. */
    method AddTimer(when: int, repeat: bool, delta: nat) returns (id: TimerId)
      requires Valid()
      modifies this`heap, this`created, this`held, this`home, this`timers, this`active, this`timerfd, this`setAt
      ensures Valid() && held == old(held) && created == old(created) + 1
      ensures forall a :: a in old(heap) ==> a in heap && heap[a] == old(heap)[a]
      ensures id.addr in heap && heap[id.addr] == Timer(when, delta, repeat, created)
      ensures active == old(active) + {id} && Entry(when, id.addr) in timers
      ensures id.sequence == created && created !in old(Abs()).issued
      ensures Abs() == Do(old(Abs()), Added(id, Timer(when, delta, repeat, created)))
      ensures old(Covered()) ==> Covered()
      ensures old(CoveredIfNotPositive()) ==> CoveredIfNotPositive()
      ensures forall since :: old(QuietSince(since)) ==> QuietSince(since)
    {
      hide Sound, TheWorld;
      var addr := NewTimer(when, repeat, delta);
      id := TimerId(addr, heap[addr].sequence);
      assert addr !in old(held);
      AddTimerInLoop(addr);
    }

    /** The loop runs the oldest functor bound by another thread. */
    method RunFunctor()
      requires Valid() && place.InRound? && 0 < place.left
      modifies this`heap, this`timers, this`active, this`freed, this`canceling, this`pending, this`place, this`held,
               this`timerfd, this`setAt
      ensures Valid() && held == old(held) && place == InRound(old(place).left - 1)
      ensures Legal(old(Abs()), Pop) && Abs() == Next(old(Abs()), Pop)
      ensures old(pending) != [] && pending == old(pending)[1..]
      ensures match old(pending)[0]
              case BoundAdd(addr) => addr in heap && heap == old(heap) && active == old(active) + {IdAt(heap, addr)}
              case BoundCancel(id) => active == old(active) - {id}
      ensures old(Covered()) ==> Covered()
    {
      hide Sound, TheWorld;
      ghost var was := Mem();
      TakeFunctor(was);
      var functor := pending[0];
      pending, place := pending[1..], InRound(place.left - 1);
      match functor
      case BoundAdd(addr) =>
        held := held + {addr};
        assert Mem() == Taken(was);
        AddTimerInLoop(addr);
        assert old(Abs()).issued + {heap[addr].sequence} == old(Abs()).issued;
      case BoundCancel(id) =>
        assert Mem() == Taken(was);
        CancelInLoop(id);
    }

    /** The loop of get_expired: each erase finds its element. */
    method EraseActive(expired: seq<Entry>, ghost was: Memory)
      requires Sound(was) && expired <= was.timers && heap == was.heap && active == was.active
      modifies this`active
      ensures active == was.active - Ids(heap, expired)
    {
      hide Sound;
      var j := 0;
      while j < |expired|
        invariant j <= |expired|
        invariant active == was.active - Ids(heap, expired[..j])
      {
        StillActive(was, j);
        OneMore(was, j);
        assert expired[..j] == was.timers[..j] && expired[..j + 1] == was.timers[..j + 1];
        var timer := TimerId(expired[j].addr, heap[expired[j].addr].sequence);
        assert timer in active;
        active := active - {timer};
        j := j + 1;
      }
      assert expired[..j] == expired;
    }

    /** get_expired, with its assertions. */
    method GetExpired(now: int) returns (expired: seq<Entry>)
      requires Valid() && held == {}
      modifies this`timers, this`active, this`held
      ensures Valid() && held == Addrs(expired) && IsBatch(heap, expired)
      ensures IsDue(old(Abs()), heap, expired, now)
      ensures Abs() == old(Abs()).(sched := old(Abs()).sched - Expired(old(Abs()).sched, now))
      ensures expired + timers == old(timers) && forall e :: e in expired ==> e.when <= now
      ensures timers != [] ==> now < timers[0].when
    {
      hide Sound, TheWorld, IsBatch, IsDue, Addrs, DueCount, Expired, Ids;
      ghost var was := Mem();
      InIndexes(was, TimerId(0, 0));
      var k := DueCount(timers, now);
      SplitAtNow(timers, k, now);
      TakeDue(was, k, now);
      expired := timers[..k];
      timers := timers[k..];
      EraseActive(expired, was);
      held := Addrs(expired);
      assert Mem() == was.(timers := timers, active := active, held := held);
      SameSize(Mem());
      assert |timers| == |active|;
    }

    /** The second half of one iteration of reset: a repeating timer goes back. */
    method RestartTimer(addr: Addr, now: nat)
      requires Valid() && addr in held && addr in heap && heap[addr].repeat && 0 < now
      requires CoveredIfNotPositive()
      modifies this`heap, this`timers, this`active, this`held
      ensures Valid() && held == old(held) - {addr} && CoveredIfNotPositive()
      ensures var t := old(heap)[addr].(expiration := now + old(heap)[addr].delta);
              && heap == old(heap)[addr := t]
              && Abs() == old(Abs()).(sched := old(Abs()).sched[IdAt(old(heap), addr) := t])
    {
      hide Sound, TheWorld;
      ghost var was := Mem();
      Restart(was, addr, now + heap[addr].delta);
      heap := heap[addr := heap[addr].(expiration := now + heap[addr].delta)];
      assert Mem() == was.(heap := heap);
      var _ := InsertTimer(addr);
    }

    method DropTimer(addr: Addr)
      requires Valid() && addr in held
      modifies this`heap, this`freed, this`held
      ensures Valid() && held == old(held) - {addr} && heap == old(heap) - {addr}
      ensures Abs() == old(Abs())
    {
      hide Sound, TheWorld;
      ghost var was := Mem();
      Release(was, addr);
      Delete(addr);
      held := held - {addr};
      assert Mem() == was.(heap := heap, held := held, freed := freed);
    }

    /** One iteration of the loop in reset. */
    method ResetOne(addr: Addr, now: nat)
      requires Valid() && addr in held && addr in heap && 0 < now && CoveredIfNotPositive()
      modifies this`heap, this`timers, this`active, this`held, this`freed
      ensures Valid() && held == old(held) - {addr} && CoveredIfNotPositive()
      ensures forall a :: a in old(heap) && a != addr ==> a in heap && heap[a] == old(heap)[a]
      ensures var id, t := IdAt(old(heap), addr), old(heap)[addr];
              Abs() == if t.repeat && id !in canceling
                       then old(Abs()).(sched := old(Abs()).sched[id := t.(expiration := now + t.delta)])
                       else old(Abs())
    {
      hide Sound, TheWorld;
      if heap[addr].repeat && TimerId(addr, heap[addr].sequence) !in canceling {
        RestartTimer(addr, now);
      } else {
        DropTimer(addr);
      }
    }

    /** The end of reset. A default Timestamp is 0 and not valid. */
    method ArmForEarliest()
      requires Valid() && CoveredIfNotPositive()
      modifies this`timerfd, this`setAt
      ensures Valid() && Covered()
      ensures timers != [] && 0 < timers[0].when ==> timerfd == Armed(1000 * Max(timers[0].when, clock + 100))
      ensures timers == [] || timers[0].when <= 0 ==> timerfd == old(timerfd)
      ensures forall since :: old(QuietSince(since)) ==> QuietSince(since)
    {
      hide Sound, TheWorld;
      var nextExpire := 0;
      if timers != [] {
        FirstEntry(Mem());
        nextExpire := heap[timers[0].addr].expiration;
      }
      if nextExpire > 0 {
        ResetTimerfd(nextExpire);
      }
    }

    /** reset: repeating timers nobody cancelled go back, the others are freed,
        and the descriptor is set for the earliest timer left. */
    method Reset(expired: seq<Entry>, now: nat)
      requires Valid() && held == Addrs(expired) && IsBatch(heap, expired) && 0 < now
      requires CoveredIfNotPositive()
      modifies this`heap, this`timers, this`active, this`held, this`freed, this`timerfd, this`setAt
      ensures Valid() && held == {} && Covered()
      ensures forall since :: old(QuietSince(since)) ==> QuietSince(since)
      ensures Abs() == WithBack(old(Abs()), old(heap), expired, canceling, now)
    {
      hide Sound, TheWorld, WithBack, IsBatch, Addrs, Covered, CoveredIfNotPositive;
      ghost var heap0, w0 := heap, Abs();
      InIndexes(Mem(), TimerId(0, 0));
      var rest := expired;
      ghost var done := [];
      BackNothing(w0, heap0, canceling, now);
      while rest != []
        invariant done + rest == expired && Valid() && held == Addrs(rest) && IsBatch(heap0, rest)
        invariant forall a :: a in held ==> a in heap && a in heap0 && heap[a] == heap0[a]
        invariant Abs() == WithBack(w0, heap0, done, canceling, now)
        invariant CoveredIfNotPositive() && timerfd == old(timerfd)
        decreases |rest|
      {
        var e := rest[0];
        BatchTail(heap0, rest);
        BackExtend(w0, heap0, done, e, canceling, now);
        ResetOne(e.addr, now);
        done, rest := done + [e], rest[1..];
      }
      assert done == expired;
      ArmForEarliest();
    }

    /** One thing that happens outside the loop thread: calls of other threads, the
        clock, timers created for other queues. */
    method Elsewhere(act: Activity) returns (events: seq<Event>)
      requires Valid() && !act.Add? && !act.Cancel?
      modifies this`heap, this`clock, this`created, this`held, this`home, this`pending
      ensures Valid() && held == old(held) && clock == old(clock) + if act.Wait? then act.us else 0
      ensures forall a :: a in old(heap) ==> a in heap && heap[a] == old(heap)[a]
      ensures Abs() == DoAll(old(Abs()), events) && AllFresh(old(Abs()), events)
      ensures Answers(Asked(act), events) && forall e :: e in events ==> e.PostedAdd? || e.PostedCancel?
      ensures Effect(act, events, heap, active, active, old(pending), pending)
    {
      hide Sound, TheWorld, Do, DoAll, AllFresh, Answers, Asked;
      match act {
        case ForeignAdd(when, repeat, delta) =>
          var id := PostAddTimer(when, repeat, delta);
          events := [PostedAdd(id, Timer(when, delta, repeat, created))];
        case ForeignCancel(id) =>
          PostCancelTimer(id);
          events := [PostedCancel(id)];
        case Wait(us) =>
          clock := clock + us;
          events := [];
        case OthersCreate(count) =>
          created := created + count;
          events := [];
          assert Mem() == old(Mem());
      }
      DoOne(old(Abs()), if events == [] then Ran(TimerId(0, 0)) else events[0]);
      AnswerOne(act, events);
    }

    /** cancel on the loop thread; of the Timers in local variables, which are not
        indexed, it is remembered while a batch runs. */
    method CancelNow(id: TimerId) returns (events: seq<Event>)
      requires Valid()
      modifies this`heap, this`timers, this`active, this`freed, this`canceling
      ensures Valid() && events == [Cancelled(id)] && Answers(Asked(Cancel(id)), events)
      ensures forall a :: a in held ==> a in heap && a in old(heap) && heap[a] == old(heap)[a]
      ensures Abs() == DoAll(old(Abs()), events) && AllFresh(old(Abs()), events)
      ensures Effect(Cancel(id), events, heap, old(active), active, pending, pending)
      ensures callingExpired ==> forall a :: a in held && a in old(heap) ==>
                (IdAt(old(heap), a) in canceling <==> IdAt(old(heap), a) in old(canceling) || IdAt(old(heap), a) == id)
      ensures old(Covered()) ==> Covered()
      ensures old(CoveredIfNotPositive()) ==> CoveredIfNotPositive()
    {
      hide Sound, TheWorld, Do, DoAll, AllFresh, Answers, Asked;
      InIndexes(Mem(), TimerId(0, 0));
      if id.addr in held {
        HeldNotActive(Mem(), id);
      }
      CancelInLoop(id);
      events := [Cancelled(id)];
      DoOne(old(Abs()), events[0]);
      AnswerOne(Cancel(id), events);
    }

    /** One thing that happens while a callback runs, on this thread or another. */
    method Perform(act: Activity) returns (events: seq<Event>)
      requires Valid()
      modifies this
      ensures Valid() && held == old(held) && callingExpired == old(callingExpired) && place == old(place)
      ensures clock == old(clock) + if act.Wait? then act.us else 0
      ensures forall a :: a in held ==> a in heap && a in old(heap) && heap[a] == old(heap)[a]
      ensures Abs() == DoAll(old(Abs()), events) && AllFresh(old(Abs()), events)
      ensures Answers(Asked(act), events) && forall e :: e in events ==> !e.Ran?
      ensures Effect(act, events, heap, old(active), active, old(pending), pending)
      ensures callingExpired ==> forall a :: a in held && a in old(heap) ==>
                (IdAt(old(heap), a) in canceling <==>
                   IdAt(old(heap), a) in old(canceling) || Cancelled(IdAt(old(heap), a)) in events)
      ensures old(Covered()) ==> Covered()
      ensures old(CoveredIfNotPositive()) ==> CoveredIfNotPositive()
      ensures forall since :: old(QuietSince(since)) ==> QuietSince(since)
    {
      hide Sound, TheWorld, Do, DoAll, AllFresh, Answers, Asked;
      InIndexes(Mem(), TimerId(0, 0));
      match act {
        case Add(when, repeat, delta) =>
          var id := AddTimer(when, repeat, delta);
          events := [Added(id, Timer(when, delta, repeat, created))];
          DoOne(old(Abs()), events[0]);
          AnswerOne(act, events);
        case Cancel(id) =>
          events := CancelNow(id);
        case _ =>
          events := Elsewhere(act);
      }
    }

    /** timer->run(): the callback makes any finite sequence of calls while other
        threads and the clock go on. */
    method RunCallback(acts: seq<Activity>) returns (events: seq<Event>)
      requires Valid() && callingExpired
      modifies this
      ensures Valid() && held == old(held) && callingExpired && place == old(place)
      ensures Answers(Calls(acts), events)
      ensures forall a :: a in held ==> a in heap && a in old(heap) && heap[a] == old(heap)[a]
      ensures Abs() == DoAll(old(Abs()), events) && AllFresh(old(Abs()), events)
      ensures forall e :: e in events ==> !e.Ran?
      ensures forall a :: a in held && a in old(heap) ==>
                (IdAt(old(heap), a) in canceling <==>
                   IdAt(old(heap), a) in old(canceling) || Cancelled(IdAt(old(heap), a)) in events)
      ensures old(CoveredIfNotPositive()) ==> CoveredIfNotPositive()
      ensures forall since :: old(QuietSince(since)) ==> QuietSince(since)
    {
      assert Answers(Calls([]), []) && acts[..0] == [];
      hide Effect, Sound, TheWorld, Do, DoAll, AllFresh, Calls, Answers;
      events := [];
      DoOne(Abs(), Ran(TimerId(0, 0)));
      InIndexes(Mem(), TimerId(0, 0));
      var i := 0;
      while i < |acts|
        invariant i <= |acts| && Valid() && held == old(held) && callingExpired && place == old(place)
        invariant Answers(Calls(acts[..i]), events)
        invariant forall a :: a in held ==> a in heap && a in old(heap) && heap[a] == old(heap)[a]
        invariant Abs() == DoAll(old(Abs()), events) && AllFresh(old(Abs()), events)
        invariant forall e :: e in events ==> !e.Ran?
        invariant forall a :: a in held && a in old(heap) ==>
                    (IdAt(old(heap), a) in canceling <==>
                       IdAt(old(heap), a) in old(canceling) || Cancelled(IdAt(old(heap), a)) in events)
        invariant old(CoveredIfNotPositive()) ==> CoveredIfNotPositive()
        invariant forall since :: old(QuietSince(since)) ==> QuietSince(since)
      {
        var more := Perform(acts[i]);
        DoAllConcat(old(Abs()), events, more);
        CallsSnoc(acts, i);
        AnswersConcat(Calls(acts[..i]), events, Asked(acts[i]), more);
        events := events + more;
        i := i + 1;
      }
      assert acts[..i] == acts;
    }

    /** The state after the callbacks `ids` of a batch: `heap0` and `w` are the heap and
        the schedule at its beginning, `trace` is what has happened since. */
    ghost predicate Midway(heap0: map<Addr, Timer>, w: World, ids: seq<TimerId>,
                           callbacks: TimerId -> seq<Activity>, trace: seq<Event>)
      reads this
    {
      && Valid() && callingExpired && CoveredIfNotPositive()
      && (forall a :: a in held ==> a in heap && a in heap0 && heap[a] == heap0[a])
      && Abs() == DoAll(w, trace) && AllFresh(w, trace) && (trace == [] || trace[0].Ran?)
      && RunsOf(trace) == ids && Answers(Script(ids, callbacks), trace)
      && (forall a :: a in held && a in heap0 ==>
            (IdAt(heap0, a) in canceling <==> Cancelled(IdAt(heap0, a)) in trace))
    }

    /** One callback of the batch. */
    method RunMember(timer: Addr, ghost heap0: map<Addr, Timer>, ghost w: World, ghost ids: seq<TimerId>,
                     ghost i: nat, callbacks: TimerId -> seq<Activity>, trace: seq<Event>)
      returns (trace': seq<Event>)
      requires i < |ids| && Midway(heap0, w, ids[..i], callbacks, trace)
      requires timer in held && timer in heap0 && ids[i] == IdAt(heap0, timer)
      modifies this
      ensures Midway(heap0, w, ids[..i + 1], callbacks, trace')
      ensures held == old(held) && place == old(place)
      ensures forall since :: old(QuietSince(since)) ==> QuietSince(since)
    {
      hide Sound, TheWorld, Do, DoAll, AllFresh, RunsOf, Answers, Script, Calls;
      var id := TimerId(timer, heap[timer].sequence);
      var events := RunCallback(callbacks(id));
      RunExtends(w, trace, id, events);
      AnswersExtend(ids, i, callbacks, trace, events);
      trace' := trace + [Ran(id)] + events;
      assert trace'[0].Ran? && ids[..i] + [ids[i]] == ids[..i + 1];
    }

    /** The loop of handle_read. */
    method RunBatch(expired: seq<Entry>, callbacks: TimerId -> seq<Activity>) returns (trace: seq<Event>)
      requires Valid() && held == Addrs(expired) && IsBatch(heap, expired) && callingExpired && canceling == {}
      requires CoveredIfNotPositive() && forall e :: e in expired ==> e.addr in heap
      modifies this
      ensures Midway(old(heap), old(Abs()), IdSeq(old(heap), expired), callbacks, trace)
      ensures held == old(held) && place == old(place)
      ensures forall since :: old(QuietSince(since)) ==> QuietSince(since)
    {
      ghost var heap0, w := heap, Abs();
      BatchAddrs(heap0, expired);
      ghost var ids := IdSeq(heap0, expired);
      DoOne(w, Ran(TimerId(0, 0)));
      assert ids[..0] == [] && Script([], callbacks) == [] && Midway(heap0, w, [], callbacks, []);
      hide Midway, Sound, TheWorld, IsBatch, Addrs, QuietSince;
      trace := [];
      for i := 0 to |expired|
        invariant Midway(heap0, w, ids[..i], callbacks, trace) && held == Addrs(expired) && place == old(place)
        invariant forall since :: old(QuietSince(since)) ==> QuietSince(since)
      {
        trace := RunMember(expired[i].addr, heap0, w, ids, i, callbacks, trace);
      }
      assert ids[..|expired|] == ids;
    }

    /** The turn's call of handle_read is over. */
    method NoteFired()
      requires Ready() && place.AtHandlers?
      modifies this`place
      ensures Ready() && place == AtHandlers(true) && Abs() == old(Abs()).(round := Dispatching(true))
    {
      hide Sound, TheWorld;
      TurnFired(Mem());
      place := AtHandlers(true);
      assert Mem() == old(Mem()).(place := place);
    }

    /** handle_read from its first assignment of callingExpired on. */
    method RunExpired(expired: seq<Entry>, callbacks: TimerId -> seq<Activity>, now: nat, ghost w: World)
      returns (trace: seq<Event>)
      requires Valid() && held == Addrs(expired) && IsBatch(heap, expired) && !callingExpired
      requires forall e :: e in expired ==> e.addr in heap
      requires IsDue(w, heap, expired, now) && Abs() == w.(sched := w.sched - Expired(w.sched, now))
      requires CoveredIfNotPositive() && QuietSince(now) && 0 < now && place == AtHandlers(false)
      modifies this
      ensures Ready() && place == AtHandlers(true) && QuietSince(now)
      ensures Legal(w, Batch(now, trace)) && Abs() == Next(w, Batch(now, trace))
      ensures Answers(Script(RunsOf(trace), callbacks), trace)
      ensures RunsOf(trace) == IdSeq(old(heap), expired)
    {
      hide Sound, TheWorld, Do, DoAll, AllFresh, IsBatch, IsDue, InDueOrder, RunsOf, Expired, Addrs;
      hide WithBack, Legal, Next, Answers, Script;
      ghost var heap0 := heap;
      BetweenRounds(Mem());
      BatchAddrs(heap0, expired);
      callingExpired := true;
      canceling := {};
      assert QuietSince(now);
      trace := RunBatch(expired, callbacks);
      callingExpired := false;
      assert QuietSince(now);
      EndOfBatch(w, now, heap0, expired, canceling, trace);
      SameBatch(Abs(), heap0, heap, expired, canceling, now);
      Reset(expired, now);
      NoteFired();
      assert QuietSince(now);
    }

    /** handle_read, for any behaviour of the callbacks: exactly the timers due at
        `now` run, each once, earliest first; the schedule changes as one Batch;
        and afterwards the descriptor covers the earliest timer and no expiry up to
        `now` is left to be read again. */
    method HandleRead(callbacks: TimerId -> seq<Activity>) returns (trace: seq<Event>)
      requires Ready() && place == AtHandlers(false)
      modifies this
      ensures Ready() && place == AtHandlers(true) && QuietSince(old(clock))
      ensures var w, batch := old(Abs()), Batch(old(clock), trace);
              Legal(w, batch) && Abs() == Next(w, batch)
      ensures Answers(Script(RunsOf(trace), callbacks), trace)
      ensures forall id :: id in RunsOf(trace) <==>
                id in old(active) && id.addr in old(heap) && old(heap)[id.addr].expiration <= old(clock)
      ensures var ids := RunsOf(trace);
              && (forall i :: 0 <= i < |ids| ==> ids[i].addr in old(heap))
              && forall i, j :: 0 <= i < j < |ids| ==>
                   ids[i] != ids[j] && old(heap)[ids[i].addr].expiration <= old(heap)[ids[j].addr].expiration
    {
      hide Sound, TheWorld, IsBatch, IsDue, Addrs, Expired, Legal, Next, Answers, Script, RunsOf;
      var now := clock;
      ghost var w := Abs();
      ReadTimerfd();
      assert Mem() == old(Mem());
      var expired := GetExpired(now);
      BatchAddrs(heap, expired);
      assert QuietSince(now);
      DueInOrder(old(Mem()), expired, timers, now);
      trace := RunExpired(expired, callbacks, now, w);
    }

    /** ~TimerQueue deletes the timers in timers_, each once. What is left in memory
        is exactly what add_timer has queued and the loop has not inserted yet. */
    method Destroy()
      requires Valid() && held == {}
      modifies this`heap, this`freed
      ensures forall a :: a in heap <==> BoundAdd(a) in pending
    {
      hide Sound, TheWorld, Addrs, Ids;
      ghost var was := Mem();
      ghost var left := WithoutFirst(was, |timers|);
      TakeFirst(was, |timers|);
      assert timers[..|timers|] == timers;
      EmptyIndexes(was);
      var rest := timers;
      while rest != []
        invariant Sound(left) && left.heap == heap && left.freed == freed && left.pending == pending
        invariant left.timers == [] && left.active == {} && left.held == Addrs(rest) && IsBatch(was.heap, rest)
        decreases |rest|
      {
        BatchTail(was.heap, rest);
        Release(left, rest[0].addr);
        left := left.(heap := heap - {rest[0].addr}, held := left.held - {rest[0].addr},
                      freed := freed + {heap[rest[0].addr].sequence});
        Delete(rest[0].addr);
        rest := rest[1..];
      }
      OnlyQueued(left);
    }

    /** Calls made while no batch is running, one by one. */
    method Code(acts: seq<Activity>) returns (ghost steps: seq<Step>)
      requires Ready()
      modifies this
      ensures Ready() && place == old(place)
      ensures History(old(Abs()), old(clock), Abs(), clock, Orders(acts), steps)
    {
      HistoryNothing(Abs(), clock, clock);
      assert Orders([]) == [] && acts[..0] == [];
      hide Effect, History, Orders, Sound, TheWorld;
      steps := [];
      for i := 0 to |acts|
        invariant Ready() && place == old(place)
        invariant History(old(Abs()), old(clock), Abs(), clock, Orders(acts[..i]), steps)
      {
        ghost var w, t := Abs(), clock;
        var events := Perform(acts[i]);
        ghost var more := OneStep(w, t, Abs(), clock, acts[i], events);
        OrdersSnoc(acts, i);
        HistoryConcat(old(Abs()), old(clock), w, t, Orders(acts[..i]), steps, Abs(), clock, Orders([acts[i]]), more);
        steps := steps + more;
      }
      assert acts[..|acts|] == acts;
    }

    /** The handlers of one turn, handle_read among them or not. */
    method Handlers(turn: Turn) returns (ghost steps: seq<Step>)
      requires Ready() && place == AtHandlers(false)
      modifies this
      ensures Ready() && place.AtHandlers?
      ensures History(old(Abs()), old(clock), Abs(), clock, HandlerOrders(turn), steps)
    {
      hide History, Orders, Sound, TheWorld, Legal, Next, Answers, Script, RunsOf;
      ghost var w, t := Abs(), clock;
      steps := Code(turn.before);
      ghost var os := Orders(turn.before);
      if turn.readable {
        ghost var w1, t1 := Abs(), clock;
        var trace := HandleRead(turn.callbacks);
        HistoryOne(w1, t1, clock, Read(turn.callbacks), Batch(t1, trace));
        HistoryConcat(w, t, w1, t1, os, steps, Abs(), clock, [Read(turn.callbacks)], [Batch(t1, trace)]);
        os, steps := os + [Read(turn.callbacks)], steps + [Batch(t1, trace)];
      }
      ghost var w2, t2 := Abs(), clock;
      ghost var more := Code(turn.after);
      HistoryConcat(w, t, w2, t2, os, steps, Abs(), clock, Orders(turn.after), more);
      steps := steps + more;
      assert Orders(turn.before) + [] == Orders(turn.before);
    }

    /** The functors swapped out, with other code around them. */
    method RunFuncs(tasks: nat -> seq<Activity>) returns (ghost steps: seq<Step>)
      requires Ready() && place.InRound?
      modifies this
      ensures Ready() && place == InRound(0)
      ensures History(old(Abs()), old(clock), Abs(), clock, RoundOrders(tasks, old(place).left), steps)
    {
      hide History, Orders, Sound, TheWorld, Legal, Next;
      ghost var w, t := Abs(), clock;
      steps := Code(tasks(0));
      var k := 0;
      while place.left != 0
        invariant Ready() && place.InRound? && k + place.left == old(place).left
        invariant History(w, t, Abs(), clock, RoundOrders(tasks, k), steps)
        decreases place.left
      {
        k := k + 1;
        ghost var w1, t1 := Abs(), clock;
        RunFunctor();
        HistoryOne(w1, t1, clock, RunNext, Pop);
        HistoryConcat(w, t, w1, t1, RoundOrders(tasks, k - 1), steps, Abs(), clock, [RunNext], [Pop]);
        ghost var w2, t2 := Abs(), clock;
        ghost var more := Code(tasks(k));
        HistoryConcat(w, t, w2, t2, RoundOrders(tasks, k - 1) + [RunNext], steps + [Pop],
                      Abs(), clock, Orders(tasks(k)), more);
        steps := steps + [Pop] + more;
      }
    }

    /** doPendingFuncs_ */
    method DoRound(tasks: nat -> seq<Activity>) returns (ghost steps: seq<Step>, ghost n: nat)
      requires Ready() && place.AtHandlers?
      modifies this
      ensures Ready() && place == AtHandlers(false) && n == |old(pending)|
      ensures History(old(Abs()), old(clock), Abs(), clock, [TakeAll] + RoundOrders(tasks, n) + [Return], steps)
    {
      hide History, Orders, RoundOrders, Sound, TheWorld, Legal, Next;
      ghost var w, t := Abs(), clock;
      n := |pending|;
      TurnSwap(Mem());
      place := InRound(|pending|);
      assert Mem() == old(Mem()).(place := InRound(n));
      HistoryOne(w, t, clock, TakeAll, Swap);
      ghost var w1, t1 := Abs(), clock;
      ghost var more := RunFuncs(tasks);
      HistoryConcat(w, t, w1, t1, [TakeAll], [Swap], Abs(), clock, RoundOrders(tasks, n), more);
      ghost var was := Mem();
      ghost var w2, t2 := Abs(), clock;
      TurnEnd(was);
      place := AtHandlers(false);
      assert Mem() == was.(place := AtHandlers(false));
      HistoryOne(w2, t2, clock, Return, EndRound);
      HistoryConcat(w, t, w2, t2, [TakeAll] + RoundOrders(tasks, n), [Swap] + more, Abs(), clock, [Return], [EndRound]);
      steps := [Swap] + more + [EndRound];
    }

    method OneTurn(turn: Turn) returns (ghost steps: seq<Step>, ghost n: nat)
      requires Ready() && place == AtHandlers(false)
      modifies this
      ensures Ready() && place == AtHandlers(false)
      ensures History(old(Abs()), old(clock), Abs(), clock, TurnOrders(turn, n), steps)
    {
      hide History, Orders, RoundOrders, Sound, TheWorld;
      ghost var w, t := Abs(), clock;
      steps := Handlers(turn);
      ghost var w1, t1 := Abs(), clock;
      ghost var more;
      more, n := DoRound(turn.tasks);
      HistoryConcat(w, t, w1, t1, HandlerOrders(turn), steps,
                    Abs(), clock, [TakeAll] + RoundOrders(turn.tasks, n) + [Return], more);
      steps := steps + more;
    }

    /** Any life of the queue under loop(): every turn keeps the invariants, the
        schedule makes exactly the steps the program asks for, one by one, in a legal
        run, and no timer is ever left without the descriptor set for it. `counts` are
        the functors run in each turn. */
    method Live(turns: seq<Turn>) returns (ghost steps: seq<Step>, ghost counts: seq<nat>)
      requires Ready() && place == AtHandlers(false)
      modifies this
      ensures Ready() && place == AtHandlers(false) && |counts| == |turns|
      ensures History(old(Abs()), old(clock), Abs(), clock, LifeOrders(turns, counts), steps)
    {
      HistoryNothing(Abs(), clock, clock);
      assert LifeOrders([], []) == [] && turns[..0] == [];
      hide History, TurnOrders, Sound, TheWorld;
      steps, counts := [], [];
      for i := 0 to |turns|
        invariant Ready() && place == AtHandlers(false) && |counts| == i
        invariant History(old(Abs()), old(clock), Abs(), clock, LifeOrders(turns[..i], counts), steps)
      {
        ghost var w, t := Abs(), clock;
        ghost var more, n := OneTurn(turns[i]);
        HistoryConcat(old(Abs()), old(clock), w, t, LifeOrders(turns[..i], counts), steps,
                      Abs(), clock, TurnOrders(turns[i], n), more);
        LifeSnoc(turns, i, counts, n);
        steps, counts := steps + more, counts + [n];
      }
      assert turns[..|turns|] == turns;
    }
  }

  /** What one call does to the schedule is a history of at most one step. */
  lemma OneStep(w: World, t: int, w': World, t': int, act: Activity, events: seq<Event>) returns (steps: seq<Step>)
    requires Answers(Asked(act), events) && AllFresh(w, events) && DoAll(w, events) == w' && t <= t'
    ensures History(w, t, w', t', Orders([act]), steps)
  {
    hide AllFresh, DoAll, History;
    assert [act][..0] == [] && Orders([]) == [];
    DoOne(w, if events == [] then Ran(TimerId(0, 0)) else events[0]);
    if act.Wait? || act.OthersCreate? {
      assert events == [] && Orders([act]) == [];
      steps := [];
      HistoryNothing(w, t, t');
    } else {
      assert events == [events[0]] && Answer(Asked(act)[0], events[0]);
      steps := [Act(events[0])];
      HistoryOne(w, t, t', Make(act), steps[0]);
      assert Orders([act]) == [Make(act)];
    }
  }
}
