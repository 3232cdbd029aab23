/** The class IOManager carries out the steps of the runtime that concern event slots: what an operation on the
    object does to the waiters of a descriptor is what the steps do to its two slots. */
module EventsRuntime {
  import opened Bytes
  import I = IoManager
  import R = RuntimeState

  /** Each descriptor has a slot for reading and one for writing. */
  function SlotOf(fd: nat, event: I.Event): nat {
    fd * 2 + if event.READ? then 0 else 1
  }

  /** A slot that does not exist yet is empty. */
  function SlotAt(s: R.Runtime, i: nat): Option<R.Waiter> {
    if i < |s.slots| then s.slots[i] else None
  }

  /** The waiter of an event is the one in the slot; codes says what the callbacks do. */
  predicate WaiterFits(c: I.EventContext, w: Option<R.Waiter>, codes: seq<R.Code>) {
    match w
    case None => c.Empty()
    case Some(FiberWaiter(f)) => c == I.EventContext(true, Some(f), None)
    case Some(CodeWaiter(code)) =>
      c.scheduler && c.fiber.None? && c.cb.Some? && c.cb.value < |codes| && codes[c.cb.value] == code
  }

  ghost predicate Represents(slots: seq<I.Slots>, codes: seq<R.Code>, s: R.Runtime) {
    forall fd: nat, event: I.Event :: WaiterFits(I.At(slots, fd).Of(event), SlotAt(s, SlotOf(fd, event)), codes)
  }

  predicate TaskFits(t: I.Task, job: R.Job, codes: seq<R.Code>) {
    match t
    case FiberTask(f) => job == R.RunFiber(f)
    case CallbackTask(cb) => cb < |codes| && job == R.RunCode(codes[cb])
  }

  /** Tasks go to the end of the queue in their order. */
  ghost predicate Queued(tasks: seq<I.Task>, before: seq<R.Task>, after: seq<R.Task>, codes: seq<R.Code>) {
    && |after| == |before| + |tasks| && before <= after
    && forall i :: 0 <= i < |tasks| ==> TaskFits(tasks[i], after[|before| + i].job, codes)
  }

  lemma SlotsApart(fd: nat, e: I.Event, gd: nat, f: I.Event)
    ensures SlotOf(fd, e) == SlotOf(gd, f) <==> fd == gd && e == f
  {
  }

  /** One waiter that leaves its slot is one step Trigger. */
  lemma TriggerFits(slots: seq<I.Slots>, codes: seq<R.Code>, s: R.Runtime, fd: nat, e: I.Event, now: seq<I.Slots>)
    requires Represents(slots, codes, s) && I.At(slots, fd).Of(e).Waiting()
    requires I.Becomes(slots, fd, I.At(slots, fd).With(e, I.NOBODY), now)
    ensures R.Can(s, R.Trigger(SlotOf(fd, e)))
    ensures var t := R.Do(s, R.Trigger(SlotOf(fd, e)));
      Represents(now, codes, t) && Queued([I.At(slots, fd).Of(e).Waiter()], s.queue, t.queue, codes)
  {
    var i := SlotOf(fd, e);
    assert WaiterFits(I.At(slots, fd).Of(e), SlotAt(s, i), codes);
    var t := R.Do(s, R.Trigger(i));
    assert t.slots == s.slots[i := None];
    forall gd: nat, f: I.Event
      ensures WaiterFits(I.At(now, gd).Of(f), SlotAt(t, SlotOf(gd, f)), codes)
    {
      SlotsApart(fd, e, gd, f);
      assert WaiterFits(I.At(slots, gd).Of(f), SlotAt(s, SlotOf(gd, f)), codes);
      assert I.At(now, gd) == if gd == fd then I.At(slots, fd).With(e, I.NOBODY) else I.At(slots, gd);
    }
  }

  /** cancelEvent that succeeds is the step Trigger, and its waiter the task that the step queues. */
  method CancelStep(m: I.IOManager, fd: nat, event: I.Event, ok: bool, ghost codes: seq<R.Code>, ghost s: R.Runtime)
    returns (done: bool)
    requires m.Valid() && Represents(m.slots, codes, s)
    modifies m`slots, m`pending, m`interest, m`tasks, m.contexts
    ensures m.Valid() && old(m.tasks) <= m.tasks
    ensures done ==> R.Can(s, R.Trigger(SlotOf(fd, event)))
    ensures done ==>
      var t := R.Do(s, R.Trigger(SlotOf(fd, event)));
      Represents(m.slots, codes, t) && Queued(m.tasks[|old(m.tasks)|..], s.queue, t.queue, codes)
    ensures !done ==> Represents(m.slots, codes, s) && m.tasks == old(m.tasks)
  {
    hide Represents, I.SumBits, I.Masks, I.Becomes;
    ghost var was, tasks := m.slots, m.tasks;
    done := m.CancelEvent(fd, event, ok);
    if done {
      WaitingThere(m, was, tasks, fd, event);
      TriggerFits(was, codes, s, fd, event, m.slots);
      assert m.tasks[|tasks|..] == [I.At(was, fd).Of(event).Waiter()];
    }
  }

  lemma WaitingThere(m: I.IOManager, was: seq<I.Slots>, tasks: seq<I.Task>, fd: nat, event: I.Event)
    requires event in I.At(was, fd).Mask() && I.At(was, fd).Valid()
    ensures I.At(was, fd).Of(event).Waiting()
  {
  }

  /** addEvent for the running fiber does to the slots what the step Register does. */
  method AddStep(m: I.IOManager, fd: nat, event: I.Event, self: nat, ok: bool, ghost codes: seq<R.Code>,
                 ghost s: R.Runtime, ghost c: nat, ghost timer: Option<nat>)
    returns (rt: int)
    requires m.Valid() && Represents(m.slots, codes, s) && event !in I.At(m.slots, fd).Mask()
    requires self < |s.fibers| && c < |s.calls| && s.calls[c].slot == SlotOf(fd, event) < |s.slots|
    modifies m`contexts, m`slots, m`pending, m`interest, m.contexts
    ensures m.Valid() && (rt == 0 <==> ok)
    ensures Represents(m.slots, codes, R.RegisterEvent(s, self, c, timer, ok))
  {
    hide Represents, I.SumBits, I.Masks, I.Becomes;
    ghost var was := m.slots;
    rt := m.AddEvent(fd, event, None, self, ok);
    if ok {
      RegisterFits(was, codes, s, fd, event, self, c, timer, m.slots);
    } else {
      SameWaiters(was, codes, s, m.slots, R.RegisterEvent(s, self, c, timer, false));
    }
  }

  lemma RegisterFits(slots: seq<I.Slots>, codes: seq<R.Code>, s: R.Runtime, fd: nat, e: I.Event, self: nat, c: nat,
                     timer: Option<nat>, now: seq<I.Slots>)
    requires Represents(slots, codes, s) && self < |s.fibers| && c < |s.calls| && s.calls[c].slot == SlotOf(fd, e) < |s.slots|
    requires I.Becomes(slots, fd, I.At(slots, fd).With(e, I.EventContext(true, Some(self), None)), now)
    ensures Represents(now, codes, R.RegisterEvent(s, self, c, timer, true))
  {
    var i, w := SlotOf(fd, e), I.EventContext(true, Some(self), None);
    var t := R.RegisterEvent(s, self, c, timer, true);
    assert t.slots == s.slots[i := Some(R.FiberWaiter(self))];
    forall gd: nat, f: I.Event
      ensures WaiterFits(I.At(now, gd).Of(f), SlotAt(t, SlotOf(gd, f)), codes)
    {
      SlotsApart(fd, e, gd, f);
      assert WaiterFits(I.At(slots, gd).Of(f), SlotAt(s, SlotOf(gd, f)), codes);
      assert I.At(now, gd) == if gd == fd then I.At(slots, fd).With(e, w) else I.At(slots, gd);
    }
  }

  lemma SameWaiters(slots: seq<I.Slots>, codes: seq<R.Code>, s: R.Runtime, now: seq<I.Slots>, t: R.Runtime)
    requires Represents(slots, codes, s) && t.slots == s.slots && forall fd: nat :: I.At(now, fd) == I.At(slots, fd)
    ensures Represents(now, codes, t)
  {
    forall gd: nat, f: I.Event
      ensures WaiterFits(I.At(now, gd).Of(f), SlotAt(t, SlotOf(gd, f)), codes)
    {
      assert WaiterFits(I.At(slots, gd).Of(f), SlotAt(s, SlotOf(gd, f)), codes);
    }
  }

  // ---------------------------------------------------------------- delivery

  /** The steps that deliver the events of m: reading first. */
  function Triggers(fd: nat, m: I.Mask): seq<R.Action> {
    (if I.READ in m then [R.Trigger(SlotOf(fd, I.READ))] else [])
    + (if I.WRITE in m then [R.Trigger(SlotOf(fd, I.WRITE))] else [])
  }

  /** What a run of steps makes of the queue and the slots. */
  ghost predicate Delivers(now: seq<I.Slots>, codes: seq<R.Code>, s: R.Runtime, run: seq<R.Action>, tasks: seq<I.Task>) {
    R.CanRun(s, run) && Represents(now, codes, R.Run(s, run)) && Queued(tasks, s.queue, R.Run(s, run).queue, codes)
  }

  lemma OneDelivers(now: seq<I.Slots>, codes: seq<R.Code>, s: R.Runtime, a: R.Action, task: I.Task)
    requires R.Can(s, a) && Represents(now, codes, R.Do(s, a)) && Queued([task], s.queue, R.Do(s, a).queue, codes)
    ensures Delivers(now, codes, s, [a], [task])
  {
    hide R.Can, R.Do, Represents, Queued;
    OneStep(s, a);
  }

  lemma NoSteps(s: R.Runtime)
    ensures R.CanRun(s, []) && R.Run(s, []) == s
  {
  }

  lemma OneStep(s: R.Runtime, a: R.Action)
    requires R.Can(s, a)
    ensures R.CanRun(s, [a]) && R.Run(s, [a]) == R.Do(s, a)
  {
    hide R.Can, R.Do;
    assert [a][1..] == [];
    NoSteps(R.Do(s, a));
  }

  lemma TwoDeliver(now: seq<I.Slots>, codes: seq<R.Code>, s: R.Runtime, a: R.Action, t: I.Task, b: R.Action, u: I.Task)
    requires R.Can(s, a) && Queued([t], s.queue, R.Do(s, a).queue, codes)
    requires Delivers(now, codes, R.Do(s, a), [b], [u])
    ensures Delivers(now, codes, s, [a, b], [t, u])
  {
    hide R.Can, R.Do, Represents, TaskFits;
    assert [a, b][1..] == [b];
    assert R.CanRun(s, [a, b]) && R.Run(s, [a, b]) == R.Run(R.Do(s, a), [b]);
    QueuedTwo(s.queue, R.Do(s, a).queue, R.Run(R.Do(s, a), [b]).queue, t, u, codes);
  }

  lemma QueuedTwo(a: seq<R.Task>, b: seq<R.Task>, c: seq<R.Task>, t: I.Task, u: I.Task, codes: seq<R.Code>)
    requires Queued([t], a, b, codes) && Queued([u], b, c, codes)
    ensures Queued([t, u], a, c, codes)
  {
    hide TaskFits;
    assert TaskFits([t][0], b[|a|].job, codes) && TaskFits([u][0], c[|b|].job, codes);
    assert b[|a|] == c[|a|];
  }

  /** All waiters of m leave their slots: a run of one or two steps. */
  lemma WaitersFit(slots: seq<I.Slots>, codes: seq<R.Code>, s: R.Runtime, fd: nat, m: I.Mask, now: seq<I.Slots>)
    requires Represents(slots, codes, s) && I.At(slots, fd).Valid() && m <= I.At(slots, fd).Mask() && m != {}
    requires I.Becomes(slots, fd, I.Without(I.At(slots, fd), m), now)
    ensures Delivers(now, codes, s, Triggers(fd, m), I.Waiters(I.At(slots, fd), m))
  {
    hide Represents, Queued, R.Can, R.Do, I.Becomes, Delivers;
    var old1 := I.At(slots, fd);
    if I.READ in m && I.WRITE in m {
      var mid := After(slots, fd, I.READ);
      ReadLeft(slots, fd);
      TriggerFits(slots, codes, s, fd, I.READ, mid);
      var t := R.Do(s, R.Trigger(SlotOf(fd, I.READ)));
      LastLeaves(slots, mid, fd, m, now);
      TriggerFits(mid, codes, t, fd, I.WRITE, now);
      OneDelivers(now, codes, t, R.Trigger(SlotOf(fd, I.WRITE)), old1.write.Waiter());
      TwoDeliver(now, codes, s, R.Trigger(SlotOf(fd, I.READ)), old1.read.Waiter(), R.Trigger(SlotOf(fd, I.WRITE)), old1.write.Waiter());
      assert Triggers(fd, m) == [R.Trigger(SlotOf(fd, I.READ)), R.Trigger(SlotOf(fd, I.WRITE))];
      assert I.Waiters(old1, m) == [old1.read.Waiter(), old1.write.Waiter()];
    } else {
      var e := if I.READ in m then I.READ else I.WRITE;
      OneLeaves(slots, fd, m, e, now);
      TriggerFits(slots, codes, s, fd, e, now);
      OneDelivers(now, codes, s, R.Trigger(SlotOf(fd, e)), old1.Of(e).Waiter());
    }
  }

  function After(slots: seq<I.Slots>, fd: nat, e: I.Event): seq<I.Slots> {
    if fd < |slots| then slots[fd := slots[fd].With(e, I.NOBODY)] else slots
  }

  lemma ReadLeft(slots: seq<I.Slots>, fd: nat)
    requires fd < |slots| || I.At(slots, fd).Mask() == {}
    ensures I.Becomes(slots, fd, I.At(slots, fd).With(I.READ, I.NOBODY), After(slots, fd, I.READ))
  {
  }

  lemma LastLeaves(slots: seq<I.Slots>, mid: seq<I.Slots>, fd: nat, m: I.Mask, now: seq<I.Slots>)
    requires I.READ in m && I.WRITE in m && I.At(slots, fd).Valid() && m <= I.At(slots, fd).Mask()
    requires I.Becomes(slots, fd, I.At(slots, fd).With(I.READ, I.NOBODY), mid)
    requires I.Becomes(slots, fd, I.Without(I.At(slots, fd), m), now)
    ensures I.Becomes(mid, fd, I.At(mid, fd).With(I.WRITE, I.NOBODY), now)
    ensures I.At(mid, fd).Of(I.WRITE) == I.At(slots, fd).write && I.At(mid, fd).Of(I.WRITE).Waiting()
    ensures I.At(slots, fd).Of(I.READ).Waiting()
  {
  }

  lemma OneLeaves(slots: seq<I.Slots>, fd: nat, m: I.Mask, e: I.Event, now: seq<I.Slots>)
    requires m != {} && I.At(slots, fd).Valid() && m <= I.At(slots, fd).Mask() && !(I.READ in m && I.WRITE in m)
    requires e == if I.READ in m then I.READ else I.WRITE
    requires I.Becomes(slots, fd, I.Without(I.At(slots, fd), m), now)
    ensures I.Becomes(slots, fd, I.At(slots, fd).With(e, I.NOBODY), now) && I.At(slots, fd).Of(e).Waiting()
    ensures I.Waiters(I.At(slots, fd), m) == [I.At(slots, fd).Of(e).Waiter()] && Triggers(fd, m) == [R.Trigger(SlotOf(fd, e))]
  {
    if e.WRITE? {
      assert I.WRITE in m by {
        var x :| x in m;
      }
    }
  }

  /** One report that is delivered is a run of one or two steps, with the tasks it queues. */
  method DeliverStep(m: I.IOManager, r: I.Report, ghost codes: seq<R.Code>, ghost s: R.Runtime) returns (aborted: bool)
    requires m.Valid() && Represents(m.slots, codes, s)
    modifies m`slots, m`pending, m`interest, m`tasks, m.contexts
    ensures !aborted ==> m.Valid() && old(m.tasks) <= m.tasks
    ensures !aborted ==>
      if I.Answered(r, I.At(old(m.slots), r.fd)) then
        Delivers(m.slots, codes, s, Triggers(r.fd, I.Real(r, I.At(old(m.slots), r.fd))), m.tasks[|old(m.tasks)|..])
      else Represents(m.slots, codes, s) && m.tasks == old(m.tasks)
  {
    hide Represents, Delivers, I.SumBits, I.Masks, I.Becomes, I.Waiters, I.Slots.Mask, I.Slots.Valid;
    ghost var was, tasks := m.slots, m.tasks;
    aborted := m.Deliver(r);
    if !aborted {
      ghost var fired := I.Fired(r, I.At(was, r.fd));
      assert m.tasks[|tasks|..] == fired;
      if I.Answered(r, I.At(was, r.fd)) {
        WaitersFit(was, codes, s, r.fd, I.Real(r, I.At(was, r.fd)), m.slots);
      } else {
        BecomesSame(was, r.fd, m.slots);
        SameWaiters(was, codes, s, m.slots, s);
      }
    }
  }

  lemma BecomesSame(was: seq<I.Slots>, fd: nat, now: seq<I.Slots>)
    requires I.Becomes(was, fd, I.At(was, fd), now)
    ensures forall gd: nat :: I.At(now, gd) == I.At(was, gd)
  {
  }
}
