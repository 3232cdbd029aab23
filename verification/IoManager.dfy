/** IOManager's table of descriptors and what it keeps in step: the event bits, the waiters, the
    kernel's interest list and the count of pending events. */
module IoManager {
  import opened Bytes
  import Sums

  type Callback = nat
  type FiberId = nat

  /** The bits 1 and 4 of an event mask; a mask is the set of its bits. */
  datatype Event = READ | WRITE

  type Mask = set<Event>

  /** What the scheduler is given. */
  datatype Task = FiberTask(fiber: FiberId) | CallbackTask(cb: Callback)

  /** Who waits for an event; scheduler is set while someone does. */
  datatype EventContext = EventContext(scheduler: bool, fiber: Option<FiberId>, cb: Option<Callback>) {
    predicate Empty() {
      !scheduler && fiber.None? && cb.None?
    }

    predicate Waiting() {
      scheduler && fiber.Some? != cb.Some?
    }

    /** The callback if there is one, else the fiber. */
    function Waiter(): Task
      requires Waiting()
    {
      if cb.Some? then CallbackTask(cb.value) else FiberTask(fiber.value)
    }
  }

  const NOBODY := EventContext(false, None, None)

  datatype Op = ADD | MOD | DEL

  // ---------------------------------------------------------------- counting bits

  function Bits(m: Mask): nat {
    (if READ in m then 1 else 0) + (if WRITE in m then 1 else 0)
  }

  function BitsOf(): Mask -> nat {
    (m: Mask) => Bits(m)
  }

  /** The number of event bits over all masks. */
  function SumBits(masks: seq<Mask>): nat {
    Sums.Sum(masks, BitsOf())
  }

  // ---------------------------------------------------------------- one descriptor

  /** The two waiters of a descriptor. */
  datatype Slots = Slots(read: EventContext, write: EventContext) {
    function Of(event: Event): EventContext {
      if event.READ? then read else write
    }

    function With(event: Event, c: EventContext): (s: Slots)
      ensures s.Of(event) == c && forall e: Event :: e != event ==> s.Of(e) == Of(e)
    {
      if event.READ? then this.(read := c) else this.(write := c)
    }

    /** The events somebody waits for. */
    function Mask(): Mask {
      (if read.scheduler then {READ} else {}) + (if write.scheduler then {WRITE} else {})
    }

    /** A bit is set exactly while the event has a scheduler and one fiber or callback. */
    predicate Valid() {
      forall e: Event :: if e in Mask() then Of(e).Waiting() else Of(e).Empty()
    }
  }

  const NO_WAITERS := Slots(NOBODY, NOBODY)

  /** The waiters of the events in m, reading before writing. */
  function Waiters(s: Slots, m: Mask): seq<Task>
    requires s.Valid() && m <= s.Mask()
  {
    (if READ in m then [s.read.Waiter()] else []) + (if WRITE in m then [s.write.Waiter()] else [])
  }

  function Without(s: Slots, m: Mask): Slots {
    Slots(if READ in m then NOBODY else s.read, if WRITE in m then NOBODY else s.write)
  }

  class FdContext {
    const fd: nat
    var read: EventContext
    var write: EventContext
    var events: Mask

    constructor (fd: nat)
      ensures this.fd == fd && Holds(NO_WAITERS)
    {
      this.fd, read, write, events := fd, NOBODY, NOBODY, {};
    }

    ghost predicate Holds(s: Slots)
      reads this
    {
      s.Valid() && read == s.read && write == s.write && events == s.Mask()
    }

    function GetEventContext(event: Event): EventContext
      reads this
    {
      if event.READ? then read else write
    }

    method SetEventContext(event: Event, c: EventContext)
      modifies `read, `write
      ensures Slots(read, write) == old(Slots(read, write)).With(event, c)
    {
      match event
      case READ => read := c;
      case WRITE => write := c;
    }

    /** triggerEvent: the waiter goes to the scheduler and is forgotten. */
    method TriggerEvent(event: Event, ghost s: Slots) returns (task: Task)
      requires Holds(s) && event in events
      modifies this
      ensures Holds(s.With(event, NOBODY)) && task == s.Of(event).Waiter()
      ensures events == old(events) - {event}
    {
      events := events - {event};
      var ctx := GetEventContext(event);
      task := if ctx.cb.Some? then CallbackTask(ctx.cb.value) else FiberTask(ctx.fiber.value);
      SetEventContext(event, NOBODY);
    }

    /** The waiters of all events of m are triggered, reading before writing. */
    method TriggerAll(m: Mask, ghost s: Slots) returns (fired: seq<Task>)
      requires Holds(s) && m <= events
      modifies this
      ensures Holds(Without(s, m)) && s.Valid() && m <= s.Mask() && fired == Waiters(s, m)
    {
      ghost var t := s;
      fired := [];
      if READ in m {
        var task := TriggerEvent(READ, t);
        t := t.With(READ, NOBODY);
        fired := fired + [task];
      }
      if WRITE in m {
        var task := TriggerEvent(WRITE, t);
        t := t.With(WRITE, NOBODY);
        fired := fired + [task];
      }
    }

    /** The bit of the event is cleared and its waiter forgotten, without being scheduled. */
    method Drop(event: Event, ghost s: Slots)
      requires Holds(s) && event in events
      modifies this
      ensures Holds(s.With(event, NOBODY))
    {
      events := events - {event};
      SetEventContext(event, NOBODY);
    }
  }

  /** What epoll_wait reports of a descriptor, and whether the epoll_ctl that follows succeeds. */
  datatype Report = Report(fd: nat, events: Mask, hangup: bool, ok: bool)

  function Real(r: Report, s: Slots): Mask {
    r.events + if r.hangup then s.Mask() else {}
  }

  /** The report names events that have a waiter, and no others. */
  predicate Answered(r: Report, s: Slots) {
    r.ok && Real(r, s) * s.Mask() != {} && Real(r, s) <= s.Mask()
  }

  /** triggerEvent meets an event of the report that has no waiter, behind or in front of one that has. */
  predicate Aborts(r: Report, s: Slots) {
    r.ok && Real(r, s) * s.Mask() != {} && !(Real(r, s) <= s.Mask())
  }

  /** A descriptor that somebody waits to read, and a report that it can be read and written. */
  lemma PartlyRegistered(fd: nat, c: EventContext)
    requires c.Waiting()
    ensures var s := NO_WAITERS.With(READ, c);
      s.Valid() && Aborts(Report(fd, {READ, WRITE}, false, true), s)
  {
    var s := NO_WAITERS.With(READ, c);
    assert s.Mask() == {READ};
    assert READ in {READ, WRITE} * s.Mask() && WRITE in {READ, WRITE};
  }

  function AfterReport(r: Report, s: Slots): Slots {
    if Answered(r, s) then Without(s, Real(r, s)) else s
  }

  function Fired(r: Report, s: Slots): seq<Task>
    requires s.Valid()
  {
    if Answered(r, s) then Waiters(s, Real(r, s)) else []
  }

  function AfterOne(slots: seq<Slots>, r: Report): seq<Slots> {
    if r.fd < |slots| then slots[r.fd := AfterReport(r, slots[r.fd])] else slots
  }

  /** The waiters after some reports, one after another. */
  function AfterReports(slots: seq<Slots>, reports: seq<Option<Report>>): seq<Slots>
    decreases |reports|
  {
    if reports == [] then slots
    else
      var n := |reports| - 1;
      var before := AfterReports(slots, reports[..n]);
      if reports[n].Some? then AfterOne(before, reports[n].value) else before
  }

  function FiredBy(o: Option<Report>, slots: seq<Slots>): seq<Task> {
    if o.Some? && At(slots, o.value.fd).Valid() then Fired(o.value, At(slots, o.value.fd)) else []
  }

  /** What the reports schedule, one after another. */
  function FiredAll(slots: seq<Slots>, reports: seq<Option<Report>>): seq<Task>
    decreases |reports|
  {
    if reports == [] then []
    else
      var n := |reports| - 1;
      FiredAll(slots, reports[..n]) + FiredBy(reports[n], AfterReports(slots, reports[..n]))
  }

  /** The same for reports that do not get in each other's way: what each schedules by itself. */
  function FiredEach(slots: seq<Slots>, reports: seq<Option<Report>>): seq<Task>
    decreases |reports|
  {
    if reports == [] then []
    else FiredEach(slots, reports[..|reports| - 1]) + FiredBy(reports[|reports| - 1], slots)
  }

  lemma {:induction false} UntouchedBy(slots: seq<Slots>, reports: seq<Option<Report>>, fd: nat)
    requires Unreported(reports, fd)
    ensures At(AfterReports(slots, reports), fd) == At(slots, fd)
    decreases |reports|
  {
    hide AfterReport;
    if reports != [] {
      UntouchedBy(slots, reports[..|reports| - 1], fd);
    }
  }

  /** Reports of different descriptors schedule the waiters that each of them names by itself, in their order. */
  lemma {:induction false} DistinctFire(slots: seq<Slots>, reports: seq<Option<Report>>)
    requires Distinct(reports)
    ensures FiredAll(slots, reports) == FiredEach(slots, reports)
    decreases |reports|
  {
    hide AfterReports, Fired;
    if reports != [] {
      var n := |reports| - 1;
      DistinctFire(slots, reports[..n]);
      if reports[n].Some? {
        UntouchedBy(slots, reports[..n], reports[n].value.fd);
      }
    }
  }

  predicate Distinct(reports: seq<Option<Report>>) {
    forall i, j :: 0 <= i < j < |reports| && reports[i].Some? && reports[j].Some? ==>
      reports[i].value.fd != reports[j].value.fd
  }

  /** Only events that somebody waits for are reported. */
  predicate Genuine(reports: seq<Option<Report>>, slots: seq<Slots>) {
    forall i :: 0 <= i < |reports| && reports[i].Some? ==>
      reports[i].value.events <= At(slots, reports[i].value.fd).Mask()
  }

  predicate Unreported(reports: seq<Option<Report>>, fd: nat) {
    forall i :: 0 <= i < |reports| && reports[i].Some? ==> reports[i].value.fd != fd
  }

  // ---------------------------------------------------------------- the table

  /** The waiters of a descriptor in a table that grows on demand. */
  function At(slots: seq<Slots>, fd: nat): Slots {
    if fd < |slots| then slots[fd] else NO_WAITERS
  }

  function Masks(slots: seq<Slots>): seq<Mask> {
    seq(|slots|, i requires 0 <= i < |slots| => slots[i].Mask())
  }

  lemma MasksAppend(slots: seq<Slots>)
    ensures Masks(slots + [NO_WAITERS]) == Masks(slots) + [{}]
  {
    assert NO_WAITERS.Mask() == {};
  }

  /** The table after the waiters of fd became s, whatever it has grown to. */
  ghost predicate Becomes(was: seq<Slots>, fd: nat, s: Slots, now: seq<Slots>) {
    forall i: nat :: At(now, i) == if i == fd then s else At(was, i)
  }

  /** The number of waiters follows one entry. */
  lemma CountUpdate(slots: seq<Slots>, fd: nat, s: Slots)
    requires fd < |slots|
    ensures Becomes(slots, fd, s, slots[fd := s])
    ensures SumBits(Masks(slots[fd := s])) == SumBits(Masks(slots)) - Bits(slots[fd].Mask()) + Bits(s.Mask())
    ensures Bits(slots[fd].Mask()) <= SumBits(Masks(slots))
  {
    hide Sums.Sum, Bits, Slots.Mask;
    Sums.SumUpdate(Masks(slots), fd, s.Mask(), BitsOf());
    Sums.SumCell(Masks(slots), fd, BitsOf());
    assert Masks(slots[fd := s]) == Masks(slots)[fd := s.Mask()];
  }

  class IOManager {
    var contexts: seq<FdContext>
    var pending: nat
    var interest: map<nat, Mask>  // the kernel's interest list of the epoll descriptor
    var tasks: seq<Task>          // the scheduler's queue
    ghost var slots: seq<Slots>   // the waiters of all descriptors

    // -------------------------------------------------------------- invariant

    ghost predicate Table()
      reads `contexts, `slots, contexts
    {
      && |contexts| == |slots| >= 32
      && (forall i :: 0 <= i < |contexts| ==> contexts[i].fd == i)
      && (forall i :: 0 <= i < |contexts| ==> contexts[i].Holds(slots[i]))
    }

    /** The kernel watches exactly the events that have a waiter. */
    ghost predicate Watched()
      reads `slots, `interest
    {
      && (forall fd: nat :: fd in interest <==> At(slots, fd).Mask() != {})
      && (forall fd: nat :: fd in interest ==> interest[fd] == At(slots, fd).Mask())
    }

    ghost predicate Valid()
      reads this, contexts
    {
      Table() && Watched() && pending == SumBits(Masks(slots))
    }

    constructor ()
      ensures Valid() && fresh(contexts) && tasks == [] && pending == 0 && forall fd: nat :: At(slots, fd) == NO_WAITERS
    {
      contexts, pending, interest, tasks, slots := [], 0, map[], [], [];
      new;
      ContextResize(32);
    }

    /** contextResize: the table grows, every new entry without waiters. */
    method ContextResize(size: nat)
      requires |contexts| == |slots| <= size
      requires forall i :: 0 <= i < |contexts| ==> contexts[i].fd == i && contexts[i].Holds(slots[i])
      requires Watched() && pending == SumBits(Masks(slots))
      modifies `contexts, `slots
      ensures |contexts| == |slots| == size && old(contexts) <= contexts
      ensures forall i :: |old(contexts)| <= i < size ==> fresh(contexts[i])
      ensures forall i :: 0 <= i < |contexts| ==> contexts[i].fd == i && contexts[i].Holds(slots[i])
      ensures Watched() && pending == SumBits(Masks(slots)) && forall fd: nat :: At(slots, fd) == At(old(slots), fd)
    {
      while |contexts| < size
        invariant |contexts| == |slots| <= size && old(contexts) <= contexts
        invariant forall i :: |old(contexts)| <= i < |contexts| ==> fresh(contexts[i])
        invariant forall i :: 0 <= i < |contexts| ==> contexts[i].fd == i && contexts[i].Holds(slots[i])
        invariant pending == SumBits(Masks(slots)) && forall fd: nat :: At(slots, fd) == At(old(slots), fd)
      {
        var c := new FdContext(|contexts|);
        Sums.SumPush(Masks(slots), {}, BitsOf());
        MasksAppend(slots);
        contexts, slots := contexts + [c], slots + [NO_WAITERS];
      }
    }

    /** epoll_ctl: an operation that suits the kernel's list either fails or is done. */
    method EpollCtl(op: Op, fd: nat, m: Mask, ok: bool) returns (rt: int)
      requires op.ADD? <==> fd !in interest
      modifies `interest
      ensures rt == 0 <==> ok
      ensures interest == if !ok then old(interest) else if op.DEL? then old(interest) - {fd} else old(interest)[fd := m]
    {
      if !ok {
        return -1;
      }
      interest := if op.DEL? then interest - {fd} else interest[fd := m];
      rt := 0;
    }

    // -------------------------------------------------------------- operations

    /** The table, the interest list and the count after one entry changed together with its context. */
    lemma EntryChanged(was: seq<Slots>, count: nat, watched: map<nat, Mask>, fd: nat, s: Slots)
      requires fd < |was| == |contexts| && |was| >= 32 && slots == was[fd := s]
      requires forall i :: 0 <= i < |contexts| ==> contexts[i].fd == i
      requires forall i :: 0 <= i < |contexts| ==> contexts[i].Holds(slots[i])
      requires forall i: nat :: i in watched <==> At(was, i).Mask() != {}
      requires forall i: nat :: i in watched ==> watched[i] == At(was, i).Mask()
      requires interest == if s.Mask() == {} then watched - {fd} else watched[fd := s.Mask()]
      requires count == SumBits(Masks(was))
      ensures Bits(was[fd].Mask()) <= count
      ensures pending == count - Bits(was[fd].Mask()) + Bits(s.Mask()) ==> Valid()
      ensures Becomes(was, fd, s, slots)
    {
      hide FdContext.Holds, Bits, SumBits, Masks, Slots.Mask;
      CountUpdate(was, fd, s);
    }

    /** What addEvent does once the descriptor has an entry. */
    method Register(fd: nat, event: Event, c: EventContext, ok: bool) returns (rt: int)
      requires Valid() && fd < |contexts| && event !in slots[fd].Mask() && c.Waiting()
      modifies `slots, `pending, `interest, contexts[fd]
      ensures Valid() && (rt == 0 <==> ok) && (!ok ==> slots == old(slots))
      ensures ok ==> Becomes(old(slots), fd, At(old(slots), fd).With(event, c), slots)
      ensures pending == old(pending) + if ok then 1 else 0
    {
      hide Bits, SumBits, Masks, Becomes;
      var ctx := contexts[fd];
      assert ctx.Holds(slots[fd]);
      var op := if ctx.events != {} then MOD else ADD;
      rt := EpollCtl(op, fd, ctx.events + {event}, ok);
      if rt != 0 {
        return -1;
      }
      ghost var was := slots;
      BitsChange(was[fd], event, c);
      pending := pending + 1;
      ctx.events := ctx.events + {event};
      assert ctx.GetEventContext(event).Empty();
      ctx.SetEventContext(event, c);
      slots := slots[fd := was[fd].With(event, c)];
      EntryChanged(was, old(pending), old(interest), fd, was[fd].With(event, c));
      rt := 0;
    }

    /** addEvent, with an event that nobody waits for, on a thread that has a scheduler (without one the
        waiter would be stored with none, and its trigger would dereference null): the callback waits, or
        the running fiber. */
    method AddEvent(fd: nat, event: Event, cb: Option<Callback>, self: FiberId, ok: bool) returns (rt: int)
      requires Valid() && event !in At(slots, fd).Mask()
      modifies `contexts, `slots, `pending, `interest, contexts
      ensures Valid() && old(contexts) <= contexts && (rt == 0 <==> ok)
      ensures forall i :: |old(contexts)| <= i < |contexts| ==> fresh(contexts[i])
      ensures ok ==> Becomes(old(slots), fd, At(old(slots), fd).With(event,
                       EventContext(true, if cb.Some? then None else Some(self), cb)), slots)
      ensures !ok ==> forall i: nat :: At(slots, i) == At(old(slots), i)
      ensures pending == old(pending) + if ok then 1 else 0
    {
      hide Bits, SumBits, Masks, Watched;
      if |contexts| <= fd {
        ContextResize(fd * 3 / 2);
      }
      assert At(slots, fd) == At(old(slots), fd);
      rt := Register(fd, event, EventContext(true, if cb.Some? then None else Some(self), cb), ok);
    }

    lemma BitsChange(s: Slots, event: Event, c: EventContext)
      ensures s.With(event, c).Mask() == if c.scheduler then s.Mask() + {event} else s.Mask() - {event}
      ensures Bits(s.With(event, c).Mask()) - Bits(s.Mask())
              == (if c.scheduler then 1 else 0) - if event in s.Mask() then 1 else 0
    {
    }

    /** delEvent: the waiter is dropped and nobody is scheduled. */
    method DelEvent(fd: nat, event: Event, ok: bool) returns (done: bool)
      requires Valid()
      modifies `slots, `pending, `interest, contexts
      ensures Valid() && done == (ok && event in At(old(slots), fd).Mask())
      ensures done ==> Becomes(old(slots), fd, At(old(slots), fd).With(event, NOBODY), slots)
      ensures !done ==> slots == old(slots)
      ensures pending == old(pending) - if done then 1 else 0
    {
      hide Bits, SumBits, Masks, Becomes;
      if |contexts| <= fd {
        return false;
      }
      var ctx := contexts[fd];
      assert ctx.Holds(slots[fd]);
      if event !in ctx.events {
        return false;
      }
      done := Forget(fd, event, ok);
    }

    method Forget(fd: nat, event: Event, ok: bool) returns (done: bool)
      requires Valid() && fd < |contexts| && event in slots[fd].Mask()
      modifies `slots, `pending, `interest, contexts[fd]
      ensures Valid() && done == ok
      ensures done ==> Becomes(old(slots), fd, old(slots)[fd].With(event, NOBODY), slots)
      ensures !done ==> slots == old(slots)
      ensures pending == old(pending) - if done then 1 else 0
    {
      hide Bits, SumBits, Masks, Becomes, Slots.Mask, Slots.Valid, Slots.With;
      var ctx := contexts[fd];
      assert ctx.Holds(slots[fd]);
      var left := ctx.events - {event};
      var rt := EpollCtl(if left != {} then MOD else DEL, fd, left, ok);
      if rt != 0 {
        return false;
      }
      ghost var was, s := slots, slots[fd].With(event, NOBODY);
      BitsChange(was[fd], event, NOBODY);
      SomeBit(was[fd], event);
      ctx.Drop(event, slots[fd]);
      slots := slots[fd := s];
      SumCovers(was, fd);
      pending := pending - 1;
      EntryChanged(was, old(pending), old(interest), fd, s);
      done := true;
    }

    lemma SumCovers(was: seq<Slots>, fd: nat)
      requires fd < |was|
      ensures Bits(was[fd].Mask()) <= SumBits(Masks(was))
    {
      hide Sums.Sum, Bits, Slots.Mask;
      Sums.SumCell(Masks(was), fd, BitsOf());
    }

    lemma SomeBit(s: Slots, event: Event)
      requires event in s.Mask()
      ensures Bits(s.Mask()) > 0
    {
    }

    /** What cancelEvent, cancelAll and the delivery loop of idle share: the kernel forgets the events
        of m, and every waiter is scheduled, reading before writing. */
    method Fire(fd: nat, m: Mask, ok: bool) returns (done: bool)
      requires Valid() && fd < |contexts| && m <= slots[fd].Mask() && m != {}
      modifies `slots, `pending, `interest, `tasks, contexts[fd]
      ensures Valid() && done == ok
      ensures done ==> Becomes(old(slots), fd, Without(At(old(slots), fd), m), slots)
      ensures done ==> tasks == old(tasks) + Waiters(At(old(slots), fd), m) && pending == old(pending) - Bits(m)
      ensures !done ==> slots == old(slots) && tasks == old(tasks) && pending == old(pending)
    {
      hide SumBits, Masks, Becomes, Bits, Slots.Mask, Slots.Valid, Without, Waiters;
      var ctx := contexts[fd];
      assert ctx.Holds(slots[fd]);
      var left := ctx.events - m;
      var rt := EpollCtl(if left != {} then MOD else DEL, fd, left, ok);
      if rt != 0 {
        return false;
      }
      ghost var was, s := slots, Without(slots[fd], m);
      BitsWithout(slots[fd], m);
      var fired := ctx.TriggerAll(m, slots[fd]);
      slots := slots[fd := s];
      tasks := tasks + fired;
      SumCovers(was, fd);
      pending := pending - |fired|;
      EntryChanged(was, old(pending), old(interest), fd, s);
      done := true;
    }

    lemma BitsWithout(s: Slots, m: Mask)
      requires s.Valid() && m <= s.Mask()
      ensures Bits(Without(s, m).Mask()) == Bits(s.Mask()) - Bits(m) && Without(s, m).Mask() == s.Mask() - m
      ensures |Waiters(s, m)| == Bits(m)
    {
    }

    method CancelEvent(fd: nat, event: Event, ok: bool) returns (done: bool)
      requires Valid()
      modifies `slots, `pending, `interest, `tasks, contexts
      ensures Valid() && done == (ok && event in At(old(slots), fd).Mask())
      ensures done ==> Becomes(old(slots), fd, At(old(slots), fd).With(event, NOBODY), slots)
      ensures done ==> pending == old(pending) - 1
      ensures !done ==> slots == old(slots) && tasks == old(tasks) && pending == old(pending)
      ensures done ==> Waiters(At(old(slots), fd), {event}) == [At(old(slots), fd).Of(event).Waiter()]
      ensures done ==> tasks == old(tasks) + [At(old(slots), fd).Of(event).Waiter()]
    {
      hide SumBits, Masks, Watched;
      if |contexts| <= fd {
        return false;
      }
      assert contexts[fd].Holds(slots[fd]);
      if event !in contexts[fd].events {
        return false;
      }
      done := Fire(fd, {event}, ok);
    }

    /** cancelAll: every waiter of the descriptor is scheduled. */
    method CancelAll(fd: nat, ok: bool) returns (done: bool)
      requires Valid()
      modifies `slots, `pending, `interest, `tasks, contexts
      ensures Valid() && done == (ok && At(old(slots), fd).Mask() != {})
      ensures done ==> Becomes(old(slots), fd, NO_WAITERS, slots)
      ensures done ==> pending == old(pending) - Bits(At(old(slots), fd).Mask())
      ensures !done ==> slots == old(slots) && tasks == old(tasks) && pending == old(pending)
      ensures At(old(slots), fd).Valid()
      ensures done ==> tasks == old(tasks) + Waiters(At(old(slots), fd), At(old(slots), fd).Mask())
    {
      hide SumBits, Masks, Watched, Bits;
      if |contexts| <= fd {
        return false;
      }
      assert contexts[fd].Holds(slots[fd]);
      if contexts[fd].events == {} {
        return false;
      }
      done := Fire(fd, contexts[fd].events, ok);
    }

    // -------------------------------------------------------------- delivery

    /** One event of an epoll_wait result: an error or a hang-up stands for everything registered. It
        is an assertion failure of triggerEvent when the kernel reports one registered and one
        unregistered event, and nothing short of that is. */
    method Deliver(r: Report) returns (aborted: bool)
      requires Valid()
      modifies `slots, `pending, `interest, `tasks, contexts
      ensures aborted == Aborts(r, At(old(slots), r.fd))
      ensures At(old(slots), r.fd).Valid()
      ensures !aborted ==> Valid() && Becomes(old(slots), r.fd, AfterReport(r, At(old(slots), r.fd)), slots)
      ensures !aborted ==> tasks == old(tasks) + Fired(r, At(old(slots), r.fd))
      ensures !aborted ==> pending == old(pending) - |Fired(r, At(old(slots), r.fd))|
    {
      hide SumBits, Masks, Watched, Bits;
      aborted := false;
      if |contexts| <= r.fd {
        return;
      }
      var ctx := contexts[r.fd];
      assert ctx.Holds(slots[r.fd]);
      var found := r.events + if r.hangup then ctx.events else {};
      if ctx.events * found == {} {
        return;
      }
      if !(found <= ctx.events) {
        aborted := r.ok;
        return;
      }
      BitsWithout(slots[r.fd], found);
      var done := Fire(r.fd, found, r.ok);
    }

    /** The delivery loop of idle, where None is the tickle pipe: the waiters that the reports name, one report
        after another, go behind the tasks that were there, and the count of pending events goes down by as
        many. When the reports are of different descriptors and of registered events only, the loop never
        aborts. */
    method DeliverAll(reports: seq<Option<Report>>) returns (aborted: bool)
      requires Valid()
      modifies `slots, `pending, `interest, `tasks, contexts
      ensures !aborted ==> Valid() && tasks == old(tasks) + FiredAll(old(slots), reports)
      ensures !aborted ==> pending + |tasks| == old(pending + |tasks|)
      ensures !aborted ==> forall fd: nat :: At(slots, fd) == At(AfterReports(old(slots), reports), fd)
      ensures Distinct(reports) && Genuine(reports, old(slots)) ==> !aborted
      ensures Distinct(reports) && Genuine(reports, old(slots)) ==>
        forall i :: 0 <= i < |reports| && reports[i].Some? ==>
          At(slots, reports[i].value.fd) == AfterReport(reports[i].value, At(old(slots), reports[i].value.fd))
      ensures !aborted ==> forall fd: nat :: Unreported(reports, fd) ==> At(slots, fd) == At(old(slots), fd)
    {
      hide Fired, AfterReport, Table, Watched, SumBits, Masks, Becomes, Slots.Mask, Slots.Valid, FiredAll, AfterReports;
      ghost var was := slots;
      aborted := false;
      NoReports(was);
      for i := 0 to |reports|
        invariant Valid() && tasks == old(tasks) + FiredAll(was, reports[..i])
        invariant pending + |tasks| == old(pending + |tasks|)
        invariant forall fd: nat :: At(slots, fd) == At(AfterReports(was, reports[..i]), fd)
        invariant Distinct(reports) ==> forall j :: i <= j < |reports| && reports[j].Some? ==>
          At(slots, reports[j].value.fd) == At(was, reports[j].value.fd)
        invariant Distinct(reports) ==> forall j :: 0 <= j < i && reports[j].Some? ==>
          At(slots, reports[j].value.fd) == AfterReport(reports[j].value, At(was, reports[j].value.fd))
        invariant forall fd: nat :: Unreported(reports, fd) ==> At(slots, fd) == At(was, fd)
      {
        OneMore(was, reports, i);
        if reports[i] != None {
          ghost var before := slots;
          var r := reports[i].value;
          aborted := Deliver(r);
          if aborted {
            return;
          }
          OthersStay(before, r.fd, AfterReport(r, At(before, r.fd)), slots);
        }
      }
      assert reports[..|reports|] == reports;
    }

    lemma NoReports(was: seq<Slots>)
      ensures FiredAll(was, []) == [] && AfterReports(was, []) == was
    {
    }

    /** One report more, from any table with the same waiters. */
    lemma OneMore(was: seq<Slots>, reports: seq<Option<Report>>, i: nat)
      requires i < |reports|
      ensures var front, next := reports[..i], reports[..i + 1];
        var before := AfterReports(was, front);
        && FiredAll(was, next) == FiredAll(was, front) + FiredBy(reports[i], before)
        && (forall fd: nat ::
              At(AfterReports(was, next), fd) ==
              if reports[i].Some? && fd == reports[i].value.fd then AfterReport(reports[i].value, At(before, fd))
              else At(before, fd))
    {
      hide Fired, Slots.Mask;
      assert reports[..i + 1][..i] == reports[..i];
      if reports[i].Some? {
        NobodyReported(reports[i].value);
      }
    }

    lemma NobodyReported(r: Report)
      ensures AfterReport(r, NO_WAITERS) == NO_WAITERS
    {
    }

    lemma OthersStay(was: seq<Slots>, fd: nat, s: Slots, now: seq<Slots>)
      requires Becomes(was, fd, s, now)
      ensures At(now, fd) == s && forall i: nat :: i != fd ==> At(now, i) == At(was, i)
    {
    }
  }
}
