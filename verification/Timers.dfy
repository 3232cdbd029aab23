/** Timer and TimerManager: an ordered set of deadlines, its expiry, and the wake-ups it owes to a
    thread that sleeps until the earliest of them. */
module Timers {
  import opened Bytes

  /** The number of a callback; no callback is null. */
  type Callback = nat

  const NO_TIMER: nat := UINT64_SPAN - 1
  const ONE_HOUR: nat := 60 * 60 * 1000

  /** start + ms as a 64-bit word. */
  function Deadline(start: nat, ms: nat): (d: nat)
    ensures d < UINT64_SPAN
  {
    (start + ms) % UINT64_SPAN
  }

  /** The subtraction next - ms as a 64-bit word undoes the addition. */
  function StartOf(next: nat, ms: nat): (s: nat)
    ensures s < UINT64_SPAN
  {
    (next - ms) % UINT64_SPAN
  }

  lemma StartOfDeadline(start: nat, ms: nat)
    requires start < UINT64_SPAN && ms < UINT64_SPAN
    ensures StartOf(Deadline(start, ms), ms) == start
  {
  }

  /** The deadline passes 2^64 on the way from one start to the other. */
  predicate Wraps(a: nat, b: nat, ms: nat) {
    a + ms < UINT64_SPAN <= b + ms
  }

  /** Re-arming later gives a deadline that is not earlier exactly when it does not wrap in between. */
  lemma LaterStart(a: nat, b: nat, ms: nat)
    requires a <= b < UINT64_SPAN
    ensures ms < UINT64_SPAN ==> (Deadline(a, ms) <= Deadline(b, ms) <==> !Wraps(a, b, ms))
    ensures b + ms < UINT64_SPAN ==> Deadline(b, ms) == b + ms
  {
  }

  /** detectClockRollover, with its subtraction in 64 bits. */
  predicate Rollover(previous: nat, now: nat) {
    now < previous && now < (previous - ONE_HOUR) % UINT64_SPAN
  }

  /** The clock counts as rolled over exactly when it is back by more than an hour, or back at all
      during the first hour. */
  lemma RolloverExact(previous: nat, now: nat)
    requires previous < UINT64_SPAN
    ensures Rollover(previous, now) <==> now < previous && (previous < ONE_HOUR || previous - now > ONE_HOUR)
  {
  }

  /** One millisecond back, ten milliseconds after the epoch of the clock. */
  lemma FirstHour()
    ensures Rollover(10, 9)
  {
    RolloverExact(10, 9);
  }

  class Timer {
    const id: nat          // its address
    const recurring: bool
    var ms: nat
    var next: nat
    var cb: Option<Callback>
    ghost var start: nat   // when the deadline was set

    constructor (id: nat, ms: nat, cb: Callback, recurring: bool, now: nat)
      ensures this.id == id && this.ms == ms && this.cb == Some(cb) && this.recurring == recurring
      ensures next == Deadline(now, ms) && start == now
    {
      this.id, this.ms, this.cb, this.recurring := id, ms, Some(cb), recurring;
      next, start := Deadline(now, ms), now;
    }
  }

  /** Comparator: by deadline, then by address. */
  predicate Before(a: Timer, b: Timer)
    reads a`next, b`next
  {
    a.next < b.next || (a.next == b.next && a.id < b.id)
  }

  class TimerManager {
    var timers: seq<Timer>    // the set, in its order
    var tickled: bool
    var previousTime: nat
    ghost var created: set<Timer>
    ghost var observed: nat   // the earliest deadline getNextTimer saw last; none is UINT64_SPAN
    ghost var clock: nat      // the latest time read so far

    // ---------------------------------------------------------------- invariant

    /** The set holds timers of this manager, in order; every timer has an address of its own. */
    ghost predicate Indexed()
      reads `timers, `created, timers`next
    {
      && (forall t :: t in timers ==> t in created)
      && (forall i, j :: 0 <= i < j < |timers| ==> Before(timers[i], timers[j]))
      && (forall s, t :: s in created && t in created && s.id == t.id ==> s == t)
    }

    /** A timer has a callback exactly while it is in the set. */
    ghost predicate Live()
      reads `timers, `created, created`cb
    {
      forall t :: t in created ==> (t.cb.Some? <==> t in timers)
    }

    /** Deadlines are a period after a time that was read. */
    ghost predicate Timed()
      reads `created, `clock, created`next, created`ms, created`start
    {
      forall t :: t in created ==> t.start <= clock < UINT64_SPAN && t.ms < UINT64_SPAN && t.next == Deadline(t.start, t.ms)
    }

    ghost predicate Valid()
      reads this, created
    {
      && (forall t :: t in timers ==> t in created)
      && Indexed() && Live() && Timed() && clock < UINT64_SPAN && previousTime < UINT64_SPAN
    }

    /** Whoever sleeps until the observed deadline has been told to wake up, or need not. */
    ghost predicate Covered()
      reads `timers, `tickled, `observed, timers
    {
      tickled || forall t :: t in timers ==> observed <= t.next
    }

    ghost function Members(): set<Timer>
      reads `timers
    {
      set t | t in timers
    }

    constructor (now: nat)
      requires now < UINT64_SPAN
      ensures Valid() && Covered() && created == {} && timers == [] && !tickled
    {
      timers, tickled, previousTime := [], false, now;
      created, observed, clock := {}, UINT64_SPAN, now;
    }

    // ---------------------------------------------------------------- the set

    /** std::set::insert of a timer that is not in the set. */
    method Insert(val: Timer) returns (i: nat)
      requires Indexed() && val in created && val !in timers
      modifies `timers
      ensures Indexed() && i <= |old(timers)| && timers == old(timers)[..i] + [val] + old(timers)[i..]
      ensures forall j :: 0 <= j < i ==> Before(old(timers)[j], val)
      ensures forall t :: t in timers <==> t in old(timers) || t == val
    {
      i := 0;
      while i < |timers| && Before(timers[i], val)
        invariant i <= |timers|
        invariant forall j :: 0 <= j < i ==> Before(timers[j], val)
      {
        i := i + 1;
      }
      timers := timers[..i] + [val] + timers[i..];
    }

    /** std::set::find, which knows elements only by the order. */
    method Find(t: Timer) returns (i: nat)
      requires Indexed() && t in created
      ensures if t in timers then i < |timers| && timers[i] == t else i == |timers|
    {
      i := 0;
      while i < |timers| && Before(timers[i], t)
        invariant i <= |timers|
        invariant forall j :: 0 <= j < i ==> Before(timers[j], t)
      {
        i := i + 1;
      }
      if i < |timers| && Before(t, timers[i]) {
        i := |timers|;
      }
    }

    /** The members after one was erased. */
    lemma Erased(i: nat)
      requires Indexed() && i < |timers|
      ensures forall t :: t in timers[..i] + timers[i + 1..] <==> t in timers && t != timers[i]
    {
      var rest := timers[..i] + timers[i + 1..];
      forall t | t in timers && t != timers[i]
        ensures t in rest
      {
        var j :| 0 <= j < |timers| && timers[j] == t;
        assert rest[if j < i then j else j - 1] == t;
      }
    }

    /** find and erase */
    method TakeOut(timer: Timer) returns (found: bool)
      requires Indexed() && timer in created
      modifies `timers
      ensures Indexed() && found == (timer in old(timers)) && (!found ==> timers == old(timers))
      ensures forall t :: t in timers <==> t in old(timers) && t != timer
      ensures old(Covered()) ==> Covered()
    {
      var i := Find(timer);
      found := i < |timers|;
      if found {
        Erased(i);
        timers := timers[..i] + timers[i + 1..];
      }
    }

    /** The first of the set has the earliest deadline. */
    lemma FrontIsEarliest()
      requires Indexed()
      ensures forall t :: t in timers ==> timers[0].next <= t.next
    {
      forall t | t in timers
        ensures timers[0].next <= t.next
      {
        var i :| 0 <= i < |timers| && timers[i] == t;
      }
    }

    lemma FrontIsFirst(val: Timer, i: nat)
      requires Indexed() && i < |timers| && timers[i] == val
      ensures i == 0 <==> forall t :: t in timers ==> t == val || Before(val, t)
      ensures timers[0] in timers
    {
      if i == 0 {
        forall t | t in timers
          ensures t == val || Before(val, t)
        {
          var j :| 0 <= j < |timers| && timers[j] == t;
        }
      } else {
        assert Before(timers[0], timers[i]) && timers[0] in timers;
      }
    }

    // ---------------------------------------------------------------- operations

    /** addTimer(val, lock): front means that onTimerInsertedAtFront is called. */
    method AddLocked(val: Timer) returns (front: bool)
      requires Indexed() && val in created && val !in timers
      modifies `timers, `tickled
      ensures Indexed() && forall t :: t in timers <==> t in old(timers) || t == val
      ensures tickled == (old(tickled) || front)
      ensures front <==> !old(tickled) && forall t :: t in timers ==> t == val || Before(val, t)
      ensures old(Covered()) ==> Covered()
    {
      hide Indexed;
      FrontIsEarliest();
      var i := Insert(val);
      FrontIsFirst(val, i);
      assert i > 0 ==> timers[0] == old(timers)[0] && Before(timers[0], val);
      front := i == 0 && !tickled;
      if front {
        tickled := true;
      }
    }

    /** addTimer: a timer at an address no other has. */
    method AddTimer(id: nat, ms: nat, cb: Callback, recurring: bool, now: nat) returns (timer: Timer, front: bool)
      requires Valid() && ms < UINT64_SPAN && now < UINT64_SPAN && forall t :: t in created ==> t.id != id
      modifies `timers, `tickled, `created, `clock
      ensures Valid() && fresh(timer) && created == old(created) + {timer}
      ensures timer.next == Deadline(now, ms) && timer.ms == ms && timer.cb == Some(cb) && timer.recurring == recurring
      ensures Members() == old(Members()) + {timer} && tickled == (old(tickled) || front)
      ensures front <==> !old(tickled) && forall t :: t in timers ==> t == timer || Before(timer, t)
      ensures old(Covered()) ==> Covered()
    {
      hide Deadline, Covered;
      timer := new Timer(id, ms, cb, recurring, now);
      created := created + {timer};
      clock := if now > clock then now else clock;
      front := AddLocked(timer);
      MembersLive();
    }

    /** What the members are, as a fact about the sequence. */
    lemma MembersLive()
      ensures forall t :: t in Members() <==> t in timers
    {
    }

    /** Timer::cancel */
    method Cancel(timer: Timer) returns (ok: bool)
      requires Valid() && timer in created
      modifies `timers, timer`cb
      ensures Valid() && ok == (timer in old(timers)) && timer.cb.None?
      ensures Members() == old(Members()) - {timer}
      ensures old(Covered()) ==> Covered()
    {
      hide Indexed;
      if timer.cb == None {
        return false;
      }
      timer.cb := None;
      ok := TakeOut(timer);
    }

    method PutBack(timer: Timer)
      requires Indexed() && timer in created && timer !in timers
      modifies `timers
      ensures Indexed() && forall t :: t in timers <==> t in old(timers) || t == timer
      ensures old(Covered()) && (tickled || observed <= timer.next) ==> Covered()
    {
      var at := Insert(timer);
    }

    lemma CoveredAt(timer: Timer)
      ensures Covered() && timer in timers && !tickled ==> observed <= timer.next
    {
    }

    /** Timer::refresh: no wake-up is due, as the deadline only moves back. */
    method Refresh(timer: Timer, now: nat) returns (ok: bool)
      requires Valid() && timer in created && now < UINT64_SPAN
      modifies `timers, `clock, timer`next, timer`start
      ensures Valid() && ok == (timer in old(timers)) && Members() == old(Members())
      ensures timer.next == if ok then Deadline(now, timer.ms) else old(timer.next)
      ensures old(clock) <= now && !Wraps(old(timer.start), now, timer.ms) && old(Covered()) ==> Covered()
    {
      hide Indexed, Deadline, Covered;
      CoveredAt(timer);
      if timer.cb == None {
        return false;
      }
      var found := TakeOut(timer);
      if !found {
        return false;
      }
      if timer.start <= now {
        LaterStart(timer.start, now, timer.ms);
      }
      timer.next, timer.start := Deadline(now, timer.ms), now;
      clock := if now > clock then now else clock;
      PutBack(timer);
      ok := true;
    }

    /** Timer::reset; a reset to the period the timer has, not from now, is true even when it is dead. */
    method Reset(timer: Timer, ms: nat, fromNow: bool, now: nat) returns (ok: bool, front: bool)
      requires Valid() && timer in created && now < UINT64_SPAN && ms < UINT64_SPAN
      modifies `timers, `clock, `tickled, timer`next, timer`start, timer`ms
      ensures Valid() && Members() == old(Members()) && tickled == (old(tickled) || front)
      ensures ok == (timer in old(timers) || (ms == old(timer.ms) && !fromNow))
      ensures timer.next ==
        if timer in old(timers) && (ms != old(timer.ms) || fromNow)
        then Deadline(if fromNow then now else old(timer.start), ms) else old(timer.next)
      ensures old(Covered()) ==> Covered()
    {
      hide Indexed, Covered, Deadline, StartOf;
      front := false;
      if ms == timer.ms && !fromNow {
        return true, false;
      }
      if timer.cb == None {
        return false, false;
      }
      var found := TakeOut(timer);
      if !found {
        return false, false;
      }
      StartOfDeadline(timer.start, timer.ms);
      var from := if fromNow then now else StartOf(timer.next, timer.ms);
      clock := if fromNow && now > clock then now else clock;
      timer.ms := ms;
      timer.next, timer.start := Deadline(from, ms), from;
      front := AddLocked(timer);
      ok := true;
    }

    /** getNextTimer: how long a thread may sleep. */
    method GetNextTimer(now: nat) returns (wait: nat)
      requires Valid() && now < UINT64_SPAN
      modifies `tickled, `observed, `clock
      ensures Valid() && !tickled && Covered()
      ensures timers == [] ==> wait == NO_TIMER && observed == UINT64_SPAN
      ensures timers != [] ==> (exists t :: t in timers && t.next == observed)
                               && wait == if now >= observed then 0 else observed - now
    {
      tickled := false;
      if timers == [] {
        observed := UINT64_SPAN;
        return NO_TIMER;
      }
      FrontIsEarliest();
      observed := timers[0].next;
      assert timers[0] in timers;
      clock := if now > clock then now else clock;
      wait := if now >= timers[0].next then 0 else timers[0].next - now;
    }

    method HasTimer() returns (has: bool)
      requires Valid()
      ensures has <==> exists t :: t in created && t.cb.Some?
    {
      has := timers != [];
      if has {
        assert timers[0] in timers;
      }
    }

    // ---------------------------------------------------------------- expiry

    /** Every timer that is not about to be handled is in the set exactly while it has a callback. */
    ghost predicate LiveBut(pending: seq<Timer>)
      reads `timers, `created, created`cb
    {
      forall t :: t in created ==> (t.cb.Some? <==> t in timers || t in pending)
    }

    /** What becomes of an expired timer. */
    twostate predicate Handled(t: Timer, now: nat)
      reads t`next, t`start, t`cb, t`ms
    {
      if t.recurring then t.next == Deadline(now, t.ms) && t.start == now && t.cb == old(t.cb)
      else t.cb.None? && t.next == old(t.next) && t.start == old(t.start)
    }

    twostate predicate Untouched(t: Timer)
      reads t`next, t`start, t`cb
    {
      t.next == old(t.next) && t.start == old(t.start) && t.cb == old(t.cb)
    }

    /** The loop body of listExpiredCb: a recurring timer is armed again, another one dies. */
    method Handle(timer: Timer, now: nat, ghost pending: seq<Timer>)
      requires Indexed() && Timed() && now <= clock && timer in created && timer !in timers && timer.cb.Some?
      requires LiveBut([timer] + pending) && timer !in pending
      modifies `timers, timer`next, timer`start, timer`cb
      ensures Indexed() && Timed() && LiveBut(pending) && Handled(timer, now)
      ensures forall t :: t in timers <==> t in old(timers) || (t == timer && timer.recurring)
    {
      hide Indexed, Deadline;
      if timer.recurring {
        timer.next, timer.start := Deadline(now, timer.ms), now;
        var i := Insert(timer);
      } else {
        timer.cb := None;
      }
    }

    method HandleAll(expired: seq<Timer>, now: nat) returns (cbs: seq<Callback>)
      requires Indexed() && Timed() && now <= clock && LiveBut(expired)
      requires forall t :: t in expired ==> t in created && t !in timers
      requires forall i, j :: 0 <= i < j < |expired| ==> expired[i] != expired[j]
      modifies `timers, created`next, created`start, created`cb
      ensures Indexed() && Timed() && LiveBut([])
      ensures |cbs| == |expired|
      ensures forall i :: 0 <= i < |expired| ==> old(expired[i].cb) == Some(cbs[i]) && Handled(expired[i], now)
      ensures forall t :: t in created && t !in expired ==> Untouched(t)
      ensures forall t :: t in timers <==> t in old(timers) || (t in expired && t.recurring)
    {
      hide Indexed, Timed, LiveBut;
      cbs := [];
      for i := 0 to |expired|
        invariant Indexed() && Timed() && LiveBut(expired[i..]) && |cbs| == i
        invariant forall j :: 0 <= j < i ==> old(expired[j].cb) == Some(cbs[j]) && Handled(expired[j], now)
        invariant forall j :: i <= j < |expired| ==> Untouched(expired[j]) && expired[j] !in timers
        invariant forall t :: t in created && t !in expired ==> Untouched(t)
        invariant forall t :: t in timers <==> t in old(timers) || (t in expired[..i] && t.recurring)
      {
        var timer := expired[i];
        assert expired[i..] == [timer] + expired[i + 1..];
        PendingLive(timer, expired[i + 1..]);
        cbs := cbs + [timer.cb.value];
        Handle(timer, now, expired[i + 1..]);
        assert expired[..i + 1] == expired[..i] + [timer];
      }
      assert expired[|expired|..] == [] && expired[..|expired|] == expired;
    }

    lemma PendingLive(timer: Timer, pending: seq<Timer>)
      requires LiveBut([timer] + pending) && timer in created
      ensures timer.cb.Some?
    {
      assert timer in [timer] + pending;
    }

    method DetectClockRollover(now: nat) returns (rollover: bool)
      modifies `previousTime
      ensures rollover == Rollover(old(previousTime), now) && previousTime == now
    {
      rollover := false;
      if now < previousTime && now < (previousTime - ONE_HOUR) % UINT64_SPAN {
        rollover := true;
      }
      previousTime := now;
    }

    /** lower_bound of a timer at now, wherever that timer is in memory, and on over equal deadlines. */
    method CountExpired(now: nat, address: nat) returns (n: nat)
      requires Indexed()
      ensures n <= |timers|
      ensures forall i :: 0 <= i < |timers| ==> (i < n <==> timers[i].next <= now)
    {
      n := 0;
      while n < |timers| && (timers[n].next < now || (timers[n].next == now && timers[n].id < address))
        invariant n <= |timers| && forall i :: 0 <= i < n ==> timers[i].next <= now
      {
        n := n + 1;
      }
      while n < |timers| && timers[n].next == now
        invariant n <= |timers| && forall i :: 0 <= i < n ==> timers[i].next <= now
        invariant n < |timers| ==> now <= timers[n].next
      {
        assert n + 1 < |timers| ==> Before(timers[n], timers[n + 1]);
        n := n + 1;
      }
      forall i | n <= i < |timers|
        ensures now < timers[i].next
      {
        assert i > n ==> Before(timers[n], timers[i]);
      }
    }

    /** The first n timers leave the set. */
    method TakeFirst(n: nat) returns (expired: seq<Timer>)
      requires Indexed() && LiveBut([]) && n <= |timers|
      modifies `timers
      ensures Indexed() && expired == old(timers)[..n] && timers == old(timers)[n..] && LiveBut(expired)
      ensures forall t :: t in timers ==> t in old(timers) && t !in expired
      ensures forall t :: t in old(timers) ==> t in timers || t in expired
      ensures forall t :: t in expired ==> t !in timers
      ensures forall i, j :: 0 <= i < j < n ==> expired[i] != expired[j]
    {
      expired := timers[..n];
      timers := timers[n..];
      ghost var all := expired + timers;
      assert all == old(timers);
      assert forall t :: t in all <==> t in expired || t in timers;
    }

    /** The rollover check and the search of listExpiredCb. */
    method CountDue(now: nat, address: nat) returns (n: nat)
      requires Indexed() && timers != []
      modifies `previousTime
      ensures n <= |timers| && previousTime == now
      ensures !Rollover(old(previousTime), now) ==> forall i :: 0 <= i < |timers| ==> (i < n <==> timers[i].next <= now)
      ensures Rollover(old(previousTime), now) ==> n == |timers|
    {
      hide Indexed, Rollover;
      var rollover := DetectClockRollover(now);
      FrontIsEarliest();
      if !rollover && timers[0].next > now {
        return 0;
      }
      if rollover {
        n := |timers|;
      } else {
        n := CountExpired(now, address);
      }
    }

    method CollectExpired(now: nat, address: nat) returns (cbs: seq<Callback>, ghost n: nat)
      requires Valid() && now < UINT64_SPAN
      modifies this`timers, `previousTime, `clock, created`next, created`start, created`cb
      ensures Valid() && n == |cbs| <= |old(timers)|
      ensures previousTime == if old(timers) == [] then old(previousTime) else now
      ensures !Rollover(old(previousTime), now) ==>
        forall i :: 0 <= i < |old(timers)| ==> (i < n <==> old(timers[i].next) <= now)
      ensures Rollover(old(previousTime), now) ==> n == |old(timers)|
      ensures forall i :: 0 <= i < n ==> old(timers[i].cb) == Some(cbs[i]) && Handled(old(timers)[i], now)
      ensures forall t :: t in created && t !in old(timers)[..n] ==> Untouched(t)
      ensures forall t :: t in timers <==> t in old(timers) && (t in old(timers)[..n] ==> t.recurring)
    {
      hide Indexed, Timed, Rollover, LiveBut;
      LiveButNone();
      cbs, n := [], 0;
      clock := if now > clock then now else clock;
      LaterClock();
      if timers == [] {
        return;
      }
      var count := CountDue(now, address);
      n := count;
      var expired := TakeFirst(count);
      cbs := HandleAll(expired, now);
      LiveButNone();
    }

    /** No recurring timer that is armed now gets a deadline that wraps around. */
    ghost predicate NoWrap(now: nat)
      reads `created, created`ms
    {
      forall t :: t in created && t.recurring ==> now + t.ms < UINT64_SPAN
    }

    ghost predicate Periodic()
      reads `created, created`ms
    {
      forall t :: t in created && t.recurring ==> t.ms > 0
    }

    lemma LiveButNone()
      ensures LiveBut([]) <==> Live()
    {
    }

    twostate lemma LaterClock()
      requires old(Timed()) && old(clock) <= clock < UINT64_SPAN && created == old(created)
      requires forall t :: t in created ==> t.start == old(t.start) && t.ms == old(t.ms) && t.next == old(t.next)
      ensures Timed()
    {
    }

    /** listExpiredCb: the callbacks of the timers that are due, in the order of their deadlines; after
        a rollover all of them are. */
    method ListExpired(now: nat, address: nat) returns (cbs: seq<Callback>, ghost n: nat)
      requires Valid() && now < UINT64_SPAN
      modifies this`timers, `previousTime, `clock, created`next, created`start, created`cb
      ensures Valid() && n == |cbs| <= |old(timers)|
      ensures previousTime == if old(timers) == [] then old(previousTime) else now
      ensures !Rollover(old(previousTime), now) ==>
        forall i :: 0 <= i < |old(timers)| ==> (i < n <==> old(timers[i].next) <= now)
      ensures Rollover(old(previousTime), now) ==> n == |old(timers)|
      ensures forall i :: 0 <= i < n ==> old(timers[i].cb) == Some(cbs[i]) && Handled(old(timers)[i], now)
      ensures forall t :: t in created && t !in old(timers)[..n] ==> Untouched(t)
      ensures forall t :: t in timers <==> t in old(timers) && (t in old(timers)[..n] ==> t.recurring)
      ensures !Rollover(old(previousTime), now) && NoWrap(now) && old(Covered()) ==> Covered()
      ensures !Rollover(old(previousTime), now) && NoWrap(now) && Periodic() ==> forall t :: t in timers ==> now < t.next
    {
      hide Valid, Rollover, Deadline;
      ValidMembers();
      cbs, n := CollectExpired(now, address);
      forall t | t in timers && !Rollover(old(previousTime), now)
        ensures NoWrap(now) && old(Covered()) && !tickled ==> observed <= t.next
        ensures NoWrap(now) && Periodic() ==> now < t.next
      {
        var i :| 0 <= i < |old(timers)| && old(timers)[i] == t;
        LaterStart(now, now, t.ms);
        assert i < n ==> t == old(timers)[..n][i];
      }
    }

    lemma ValidMembers()
      requires Valid()
      ensures forall t :: t in timers ==> t in created
    {
    }
  }
}
