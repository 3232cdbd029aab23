/** What ties hooked calls, their timers, the event slots and the workers' hands together in every
    reachable state of the runtime. */
module RuntimeProtocol {
  import opened Bytes
  import opened Scheduling
  import opened Sums
  import opened RuntimeState
  import opened RuntimeTokens
  import opened RuntimeBalance

  /** The calls that are open are those that a fiber is inside of, one fiber each. */
  ghost predicate CallsOwned(s: Runtime) {
    && (forall f :: 0 <= f < |s.fibers| && CallOf(s.fibers[f].pc).Some? ==> Owns(s, f, CallOf(s.fibers[f].pc).value))
    && (forall c :: 0 <= c < |s.calls| && s.calls[c].open ==>
          s.calls[c].owner < |s.fibers| && CallOf(s.fibers[s.calls[c].owner].pc) == Some(c))
  }

  ghost predicate Owns(s: Runtime, f: nat, c: nat) {
    c < |s.calls| && s.calls[c].open && s.calls[c].owner == f
  }

  /** A timeout that is still set belongs to a call that is open, and is the one its fiber remembers:
      no timer outlives its call or its wait. */
  ghost predicate TimersBelong(s: Runtime) {
    forall t :: 0 <= t < |s.timers| && s.timers[t].live && s.timers[t].call.Some? ==> Belongs(s, t, s.timers[t].call.value)
  }

  ghost predicate Belongs(s: Runtime, t: nat, c: nat) {
    && c < |s.calls| && s.calls[c].open && s.calls[c].timed && s.calls[c].owner < |s.fibers|
    && TimerOf(s.fibers[s.calls[c].owner].pc) == Some(t)
  }

  /** A fiber in an event slot is in the wait of a call on that slot. */
  ghost predicate SlotsHeld(s: Runtime) {
    forall i :: 0 <= i < |s.slots| && s.slots[i].Some? && s.slots[i].value.FiberWaiter? ==> Holds(s, i, s.slots[i].value.f)
  }

  ghost predicate Holds(s: Runtime, i: nat, f: nat) {
    && f < |s.fibers| && s.fibers[f].pc.Waiting? && s.fibers[f].pc.call < |s.calls|
    && s.calls[s.fibers[f].pc.call].slot == i
  }

  ghost predicate Protocol(s: Runtime) {
    OwnTimers(s) && CallsOwned(s) && TimersBelong(s) && SlotsHeld(s)
  }

  // ---------------------------------------------------------------- steps that leave it alone

  /** Nothing that the protocol looks at has changed, but for slots that were emptied or got a callback. */
  lemma Undisturbed(s: Runtime, t: Runtime)
    requires Protocol(s) && t.calls == s.calls && t.timers == s.timers && |t.fibers| == |s.fibers|
    requires forall f :: 0 <= f < |s.fibers| ==> t.fibers[f].pc == s.fibers[f].pc
    requires |s.slots| <= |t.slots|
    requires forall i :: 0 <= i < |t.slots| && t.slots[i].Some? && t.slots[i].value.FiberWaiter? ==>
               i < |s.slots| && t.slots[i] == s.slots[i]
    ensures Protocol(t)
  {
    assert OwnTimers(t) by {
      forall f | 0 <= f < |t.fibers|
        ensures OwnTimer(t, t.fibers[f].pc)
      {
        assert OwnTimer(s, s.fibers[f].pc);
      }
    }
    assert CallsOwned(t) by {
      forall f | 0 <= f < |t.fibers| && CallOf(t.fibers[f].pc).Some?
        ensures Owns(t, f, CallOf(t.fibers[f].pc).value)
      {
        assert Owns(s, f, CallOf(s.fibers[f].pc).value);
      }
    }
    assert TimersBelong(t) by {
      forall k | 0 <= k < |t.timers| && t.timers[k].live && t.timers[k].call.Some?
        ensures Belongs(t, k, t.timers[k].call.value)
      {
        assert Belongs(s, k, s.timers[k].call.value);
      }
    }
    assert SlotsHeld(t) by {
      forall i | 0 <= i < |t.slots| && t.slots[i].Some? && t.slots[i].value.FiberWaiter?
        ensures Holds(t, i, t.slots[i].value.f)
      {
        assert Holds(s, i, s.slots[i].value.f);
      }
    }
  }

  /** A new fiber that is in no call. */
  lemma NewFiber(s: Runtime, g: Thread)
    requires Protocol(s) && CallOf(g.pc).None?
    ensures Protocol(s.(fibers := s.fibers + [g]))
  {
    var t := s.(fibers := s.fibers + [g]);
    forall f | 0 <= f < |t.fibers|
      ensures OwnTimer(t, t.fibers[f].pc)
      ensures CallOf(t.fibers[f].pc).Some? ==> Owns(t, f, CallOf(t.fibers[f].pc).value)
    {
      if f < |s.fibers| {
        assert OwnTimer(s, s.fibers[f].pc);
        assert CallOf(s.fibers[f].pc).Some? ==> Owns(s, f, CallOf(s.fibers[f].pc).value);
      }
    }
    forall k | 0 <= k < |t.timers| && t.timers[k].live && t.timers[k].call.Some?
      ensures Belongs(t, k, t.timers[k].call.value)
    {
      assert Belongs(s, k, s.timers[k].call.value);
    }
    forall i | 0 <= i < |t.slots| && t.slots[i].Some? && t.slots[i].value.FiberWaiter?
      ensures Holds(t, i, t.slots[i].value.f)
    {
      assert Holds(s, i, s.slots[i].value.f);
    }
  }

  /** A new timer that is no timeout. */
  lemma NewTimer(s: Runtime, code: Code)
    requires Protocol(s)
    ensures Protocol(s.(timers := s.timers + [Alarm(code)]))
  {
    var t := s.(timers := s.timers + [Alarm(code)]);
    forall f | 0 <= f < |t.fibers|
      ensures OwnTimer(t, t.fibers[f].pc)
      ensures CallOf(t.fibers[f].pc).Some? ==> Owns(t, f, CallOf(t.fibers[f].pc).value)
    {
      assert OwnTimer(s, s.fibers[f].pc);
      assert CallOf(s.fibers[f].pc).Some? ==> Owns(s, f, CallOf(s.fibers[f].pc).value);
    }
    forall k | 0 <= k < |t.timers| && t.timers[k].live && t.timers[k].call.Some?
      ensures Belongs(t, k, t.timers[k].call.value)
    {
      assert Belongs(s, k, s.timers[k].call.value);
    }
    forall i | 0 <= i < |t.slots| && t.slots[i].Some? && t.slots[i].value.FiberWaiter?
      ensures Holds(t, i, t.slots[i].value.f)
    {
      assert Holds(s, i, s.slots[i].value.f);
    }
  }

  /** A timer that is no longer set, or has got another history. */
  lemma SameTimer(s: Runtime, k: nat, v: Timer)
    requires Protocol(s) && k < |s.timers|
    requires v.code == s.timers[k].code && v.call == s.timers[k].call && (v.live ==> s.timers[k].live)
    ensures Protocol(s.(timers := s.timers[k := v]))
  {
    var t := s.(timers := s.timers[k := v]);
    forall f | 0 <= f < |t.fibers|
      ensures OwnTimer(t, t.fibers[f].pc)
      ensures CallOf(t.fibers[f].pc).Some? ==> Owns(t, f, CallOf(t.fibers[f].pc).value)
    {
      assert OwnTimer(s, s.fibers[f].pc);
      assert CallOf(s.fibers[f].pc).Some? ==> Owns(s, f, CallOf(s.fibers[f].pc).value);
    }
    forall j | 0 <= j < |t.timers| && t.timers[j].live && t.timers[j].call.Some?
      ensures Belongs(t, j, t.timers[j].call.value)
    {
      assert Belongs(s, j, s.timers[j].call.value);
    }
    forall i | 0 <= i < |t.slots| && t.slots[i].Some? && t.slots[i].value.FiberWaiter?
      ensures Holds(t, i, t.slots[i].value.f)
    {
      assert Holds(s, i, s.slots[i].value.f);
    }
  }

  // ---------------------------------------------------------------- a fiber that moves on

  /** No timeout is set for the call of the fiber. */
  ghost predicate Quiet(s: Runtime, f: nat) {
    forall t :: 0 <= t < |s.timers| && IsTimeout(s, t) ==> s.calls[s.timers[t].call.value].owner != f
  }

  predicate IsTimeout(s: Runtime, t: nat)
    requires t < |s.timers|
  {
    s.timers[t].live && s.timers[t].call.Some? && s.timers[t].call.value < |s.calls|
  }

  /** A fiber that remembers no timer has none. */
  lemma NoTimerSet(s: Runtime, f: nat)
    requires Protocol(s) && f < |s.fibers|
    ensures TimerOf(s.fibers[f].pc).None? ==> Quiet(s, f)
  {
    if TimerOf(s.fibers[f].pc).None? {
      forall t | 0 <= t < |s.timers| && IsTimeout(s, t)
        ensures s.calls[s.timers[t].call.value].owner != f
      {
        assert Belongs(s, t, s.timers[t].call.value);
      }
    }
  }

  /** A fiber whose timer was cancelled has none. */
  lemma TimerGone(s: Runtime, f: nat)
    requires Protocol(s) && f < |s.fibers|
    ensures Quiet(CancelTimer(s, TimerOf(s.fibers[f].pc)), f)
  {
    var timer := TimerOf(s.fibers[f].pc);
    var u := CancelTimer(s, timer);
    assert OwnTimer(s, s.fibers[f].pc);
    forall t | 0 <= t < |u.timers| && IsTimeout(u, t)
      ensures u.calls[u.timers[t].call.value].owner != f
    {
      assert Belongs(s, t, s.timers[t].call.value);
    }
  }

  lemma NotInSlot(s: Runtime, f: nat)
    requires Protocol(s) && f < |s.fibers| && !s.fibers[f].pc.Waiting?
    ensures forall i :: 0 <= i < |s.slots| ==> s.slots[i] != Some(FiberWaiter(f))
  {
    forall i | 0 <= i < |s.slots|
      ensures s.slots[i] != Some(FiberWaiter(f))
    {
      assert s.slots[i] == Some(FiberWaiter(f)) ==> Holds(s, i, f);
    }
  }

  /** A fiber in no slot goes on inside its call, to a place that remembers the same timer, or none
      when none is set. */
  lemma StaysInCall(s: Runtime, f: nat, g: Thread)
    requires Protocol(s) && f < |s.fibers| && CallOf(g.pc) == CallOf(s.fibers[f].pc)
    requires TimerOf(g.pc) == TimerOf(s.fibers[f].pc) || (TimerOf(g.pc).None? && Quiet(s, f))
    requires forall i :: 0 <= i < |s.slots| ==> s.slots[i] != Some(FiberWaiter(f))
    ensures Protocol(s.(fibers := s.fibers[f := g]))
  {
    var t := s.(fibers := s.fibers[f := g]);
    forall h | 0 <= h < |t.fibers|
      ensures OwnTimer(t, t.fibers[h].pc)
      ensures CallOf(t.fibers[h].pc).Some? ==> Owns(t, h, CallOf(t.fibers[h].pc).value)
    {
      assert OwnTimer(s, s.fibers[h].pc);
      assert CallOf(s.fibers[h].pc).Some? ==> Owns(s, h, CallOf(s.fibers[h].pc).value);
    }
    forall k | 0 <= k < |t.timers| && t.timers[k].live && t.timers[k].call.Some?
      ensures Belongs(t, k, t.timers[k].call.value)
    {
      assert Belongs(s, k, s.timers[k].call.value);
    }
    forall i | 0 <= i < |t.slots| && t.slots[i].Some? && t.slots[i].value.FiberWaiter?
      ensures Holds(t, i, t.slots[i].value.f)
    {
      assert Holds(s, i, s.slots[i].value.f);
    }
  }

  /** A fiber leaves its call, which is closed, with no timeout set for it. */
  lemma LeavesCall(s: Runtime, f: nat, c: nat)
    requires Protocol(s) && f < |s.fibers| && CallOf(s.fibers[f].pc) == Some(c) && Quiet(s, f)
    requires !s.fibers[f].pc.Waiting?
    ensures Protocol(CloseCall(SetPc(s, f, Body), c))
  {
    var t := CloseCall(SetPc(s, f, Body), c);
    assert Owns(s, f, c);
    NotInSlot(s, f);
    forall h | 0 <= h < |t.fibers|
      ensures OwnTimer(t, t.fibers[h].pc)
      ensures CallOf(t.fibers[h].pc).Some? ==> Owns(t, h, CallOf(t.fibers[h].pc).value)
    {
      assert OwnTimer(s, s.fibers[h].pc);
      assert CallOf(s.fibers[h].pc).Some? ==> Owns(s, h, CallOf(s.fibers[h].pc).value);
    }
    forall k | 0 <= k < |t.timers| && t.timers[k].live && t.timers[k].call.Some?
      ensures Belongs(t, k, t.timers[k].call.value)
    {
      assert Belongs(s, k, s.timers[k].call.value);
    }
    forall i | 0 <= i < |t.slots| && t.slots[i].Some? && t.slots[i].value.FiberWaiter?
      ensures Holds(t, i, t.slots[i].value.f)
    {
      assert Holds(s, i, s.slots[i].value.f);
    }
  }

  /** A fiber that is in no call opens one. */
  lemma EntersCall(s: Runtime, f: nat, slot: nat, timed: bool)
    requires Protocol(s) && f < |s.fibers| && CallOf(s.fibers[f].pc).None?
    ensures Protocol(OpenNewCall(s, f, slot, timed))
  {
    var t := OpenNewCall(s, f, slot, timed);
    NotInSlot(s, f);
    forall h | 0 <= h < |t.fibers|
      ensures OwnTimer(t, t.fibers[h].pc)
      ensures CallOf(t.fibers[h].pc).Some? ==> Owns(t, h, CallOf(t.fibers[h].pc).value)
    {
      assert OwnTimer(s, s.fibers[h].pc);
      assert CallOf(s.fibers[h].pc).Some? ==> Owns(s, h, CallOf(s.fibers[h].pc).value);
    }
    forall k | 0 <= k < |t.timers| && t.timers[k].live && t.timers[k].call.Some?
      ensures Belongs(t, k, t.timers[k].call.value)
    {
      assert Belongs(s, k, s.timers[k].call.value);
    }
    forall i | 0 <= i < |t.slots| && t.slots[i].Some? && t.slots[i].value.FiberWaiter?
      ensures Holds(t, i, t.slots[i].value.f)
    {
      assert Holds(s, i, s.slots[i].value.f);
    }
  }

  /** A call sets its timer: the timeout and the fiber know each other. */
  lemma ArmsTimer(s: Runtime, f: nat, c: nat)
    requires Protocol(s) && f < |s.fibers| && s.fibers[f].pc == Trying(c) && c < |s.calls| && s.calls[c].timed
    ensures Protocol(TryCall(s, f, c, true))
  {
    var t := TryCall(s, f, c, true);
    assert Owns(s, f, c);
    NotInSlot(s, f);
    NoTimerSet(s, f);
    forall h | 0 <= h < |t.fibers|
      ensures OwnTimer(t, t.fibers[h].pc)
      ensures CallOf(t.fibers[h].pc).Some? ==> Owns(t, h, CallOf(t.fibers[h].pc).value)
    {
      assert OwnTimer(s, s.fibers[h].pc);
      assert CallOf(s.fibers[h].pc).Some? ==> Owns(s, h, CallOf(s.fibers[h].pc).value);
    }
    forall k | 0 <= k < |t.timers| && t.timers[k].live && t.timers[k].call.Some?
      ensures Belongs(t, k, t.timers[k].call.value)
    {
      if k < |s.timers| {
        assert Belongs(s, k, s.timers[k].call.value);
        assert IsTimeout(s, k);
      }
    }
    forall i | 0 <= i < |t.slots| && t.slots[i].Some? && t.slots[i].value.FiberWaiter?
      ensures Holds(t, i, t.slots[i].value.f)
    {
      assert Holds(s, i, s.slots[i].value.f);
    }
  }

  /** The fiber of a wait is put into the slot of its call. */
  lemma TakesSlot(s: Runtime, f: nat, i: nat)
    requires Protocol(s) && i < |s.slots| && Holds(s, i, f)
    ensures Protocol(s.(slots := s.slots[i := Some(FiberWaiter(f))]))
  {
    var t := s.(slots := s.slots[i := Some(FiberWaiter(f))]);
    forall h | 0 <= h < |t.fibers|
      ensures OwnTimer(t, t.fibers[h].pc)
      ensures CallOf(t.fibers[h].pc).Some? ==> Owns(t, h, CallOf(t.fibers[h].pc).value)
    {
      assert OwnTimer(s, s.fibers[h].pc);
      assert CallOf(s.fibers[h].pc).Some? ==> Owns(s, h, CallOf(s.fibers[h].pc).value);
    }
    forall k | 0 <= k < |t.timers| && t.timers[k].live && t.timers[k].call.Some?
      ensures Belongs(t, k, t.timers[k].call.value)
    {
      assert Belongs(s, k, s.timers[k].call.value);
    }
    forall j | 0 <= j < |t.slots| && t.slots[j].Some? && t.slots[j].value.FiberWaiter?
      ensures Holds(t, j, t.slots[j].value.f)
    {
      assert j != i ==> Holds(s, j, s.slots[j].value.f);
    }
  }

  /** A mark on a call is not looked at. */
  lemma MarksCall(s: Runtime, c: nat, stage: Stage)
    requires Protocol(s) && c < |s.calls|
    ensures Protocol(s.(calls := s.calls[c := s.calls[c].(stage := stage)]))
  {
    var t := s.(calls := s.calls[c := s.calls[c].(stage := stage)]);
    forall h | 0 <= h < |t.fibers|
      ensures OwnTimer(t, t.fibers[h].pc)
      ensures CallOf(t.fibers[h].pc).Some? ==> Owns(t, h, CallOf(t.fibers[h].pc).value)
    {
      assert OwnTimer(s, s.fibers[h].pc);
      assert CallOf(s.fibers[h].pc).Some? ==> Owns(s, h, CallOf(s.fibers[h].pc).value);
    }
    forall k | 0 <= k < |t.timers| && t.timers[k].live && t.timers[k].call.Some?
      ensures Belongs(t, k, t.timers[k].call.value)
    {
      assert Belongs(s, k, s.timers[k].call.value);
    }
    forall j | 0 <= j < |t.slots| && t.slots[j].Some? && t.slots[j].value.FiberWaiter?
      ensures Holds(t, j, t.slots[j].value.f)
    {
      assert Holds(s, j, s.slots[j].value.f);
    }
  }

  // ---------------------------------------------------------------- all steps

  /** A fiber that is not in a wait moves on inside its call, or outside of calls. */
  lemma MovesOn(s: Runtime, f: nat, g: Thread)
    requires Protocol(s) && f < |s.fibers| && !s.fibers[f].pc.Waiting?
    requires CallOf(g.pc) == CallOf(s.fibers[f].pc) && TimerOf(g.pc) == TimerOf(s.fibers[f].pc)
    ensures Protocol(s.(fibers := s.fibers[f := g]))
  {
    hide Protocol;
    NotInSlot(s, f);
    StaysInCall(s, f, g);
  }

  lemma EnqueueProtocol(s: Runtime, job: Job, thread: int)
    requires Protocol(s)
    ensures Protocol(Enqueue(s, job, thread))
  {
    hide Protocol, Enqueue;
    EnqueuedFibers(s, job, thread);
    Undisturbed(s, Enqueue(s, job, thread));
  }

  lemma UnparkProtocol(s: Runtime, i: nat)
    requires Protocol(s) && i < |s.slots| && s.slots[i].Some?
    ensures Protocol(Unpark(s, i))
  {
    hide Protocol, Enqueue;
    var t := s.(slots := s.slots[i := None]);
    Undisturbed(s, t);
    EnqueueProtocol(t, WaiterJob(s.slots[i].value), ANYWHERE);
  }

  /** A fiber in a worker's hand is in no slot. */
  lemma HandNotInSlot(s: Runtime, w: nat, f: nat)
    requires w < |s.workers| && s.workers[w].Hand? && s.workers[w].task.job == RunFiber(f)
    requires f < |s.fibers| && Balanced(s, OfFiber(f))
    ensures forall i :: 0 <= i < |s.slots| ==> s.slots[i] != Some(FiberWaiter(f))
  {
    hide Pending, Ready, Cpu;
    InWorker(s, w, OfFiber(f));
    forall i | 0 <= i < |s.slots|
      ensures s.slots[i] != Some(FiberWaiter(f))
    {
      InSlot(s, i, OfFiber(f));
    }
  }

  lemma ResumeProtocol(s: Runtime, w: nat)
    requires Can(s, Resume(w)) && Protocol(s) && HandReady(s) && forall y: Token :: Balanced(s, y)
    ensures Protocol(Do(s, Resume(w)))
  {
    hide Protocol, Balanced;
    match s.workers[w].task.job
    case RunFiber(f) =>
      var t := s.(workers := s.workers[w := Running(f)]);
      assert Balanced(s, OfFiber(f));
      HandNotInSlot(s, w, f);
      Undisturbed(s, t);
      StaysInCall(t, f, Resumed(t.fibers[f]));
    case RunCode(code) =>
      var t := s.(workers := s.workers[w := Running(|s.fibers|)]);
      Undisturbed(s, t);
      NewFiber(t, Thread(RUNNING, Start(code), 0, 0, 0));
  }

  lemma BeginProtocol(s: Runtime, w: nat)
    requires Can(s, Begin(w)) && Protocol(s)
    ensures Protocol(Do(s, Begin(w)))
  {
    hide Protocol, Enqueue;
    var f := s.workers[w].f;
    match PcOf(s, w).code
    case User(k) =>
      MovesOn(s, f, s.fibers[f].(pc := Body));
      Undisturbed(SetPc(s, f, Body), Do(s, Begin(w)));
    case Wake(g) =>
      MovesOn(s, f, s.fibers[f].(pc := Ending));
      EnqueueProtocol(SetPc(s, f, Ending), RunFiber(g), ANYWHERE);
    case Expire(t) =>
      if t < |s.timers| && s.timers[t].call.Some? {
        var c := s.timers[t].call.value;
        var v := s.timers[t].(ran := true);
        var u := s.(timers := s.timers[t := v]);
        SameTimer(s, t, v);
        if c < |s.calls| && s.calls[c].open && !s.calls[c].Cancelled() {
          MovesOn(u, f, u.fibers[f].(pc := Expiring(c)));
          MarksCall(SetPc(u, f, Expiring(c)), c, Marked(t, f));
        } else {
          MovesOn(u, f, u.fibers[f].(pc := Ending));
        }
      } else {
        MovesOn(s, f, s.fibers[f].(pc := Ending));
      }
  }

  lemma SpendProtocol(s: Runtime, c: nat)
    requires Protocol(s)
    ensures Protocol(SpendCall(s, c))
  {
    hide Protocol;
    if c < |s.calls| && s.calls[c].stage.Marked? {
      MarksCall(s, c, Spent(s.calls[c].stage.timer));
    }
  }

  lemma TryProtocol(s: Runtime, w: nat, again: bool)
    requires Can(s, Try(w, again)) && Protocol(s)
    ensures Protocol(Do(s, Try(w, again)))
  {
    hide Protocol;
    var f, c := s.workers[w].f, PcOf(s, w).call;
    NoTimerSet(s, f);
    if !again {
      LeavesCall(s, f, c);
    } else if c < |s.calls| && s.calls[c].timed {
      ArmsTimer(s, f, c);
    } else {
      MovesOn(s, f, s.fibers[f].(pc := Armed(c, None)));
    }
  }

  lemma RegisterProtocol(s: Runtime, w: nat, ok: bool)
    requires Can(s, Register(w, ok)) && Protocol(s)
    ensures Protocol(Do(s, Register(w, ok)))
  {
    hide Protocol, Quiet;
    var f, pc := s.workers[w].f, PcOf(s, w);
    if ok {
      var t := Park(s, f, Waiting(pc.call, pc.timer));
      MovesOn(s, f, t.fibers[f]);
      TakesSlot(t, f, s.calls[pc.call].slot);
    } else {
      TimerGone(s, f);
      CancelProtocol(s, pc.timer);
      LeavesCall(CancelTimer(s, pc.timer), f, pc.call);
    }
  }

  lemma CancelProtocol(s: Runtime, timer: Option<nat>)
    requires Protocol(s)
    ensures Protocol(CancelTimer(s, timer))
  {
    hide Protocol;
    if timer.Some? && timer.value < |s.timers| {
      SameTimer(s, timer.value, CutOff(s.timers[timer.value]));
    }
  }

  lemma DisarmProtocol(s: Runtime, w: nat)
    requires Can(s, Disarm(w)) && Protocol(s)
    ensures Protocol(Do(s, Disarm(w)))
  {
    hide Protocol, Quiet;
    var f, pc := s.workers[w].f, PcOf(s, w);
    TimerGone(s, f);
    CancelProtocol(s, pc.timer);
    var t := CancelTimer(s, pc.timer);
    NotInSlot(t, f);
    StaysInCall(t, f, t.fibers[f].(pc := Judging(pc.call)));
  }

  lemma JudgeProtocol(s: Runtime, w: nat)
    requires Can(s, Judge(w)) && Protocol(s)
    ensures Protocol(Do(s, Judge(w)))
  {
    hide Protocol;
    var f, c := s.workers[w].f, PcOf(s, w).call;
    if c < |s.calls| && !s.calls[c].Cancelled() {
      MovesOn(s, f, s.fibers[f].(pc := Trying(c)));
    } else {
      NoTimerSet(s, f);
      LeavesCall(s, f, c);
    }
  }

  /** Every step of the world or of a worker outside of fibers. */
  lemma WorldProtocol(s: Runtime, a: Action)
    requires Can(s, a) && Protocol(s)
    ensures a.Submit? || a.SubmitWaiter? || a.GrowSlots? || a.Stop? || a.Fetch? || a.Release? || a.WakeUp? || a.Leave?
            ==> Protocol(Do(s, a))
  {
    hide Protocol, Enqueue, FirstEligible;
    match a
    case Submit(thread) =>
      var t := s.(runs := s.runs + [0]);
      Undisturbed(s, t);
      EnqueueProtocol(t, RunCode(User(|s.runs|)), thread);
    case SubmitWaiter(i) => Undisturbed(s, Do(s, a));
    case GrowSlots => Undisturbed(s, Do(s, a));
    case Stop => Undisturbed(s, Do(s, a));
    case Fetch(w) => Undisturbed(s, Do(s, a));
    case Release(w) => Undisturbed(s, Do(s, a));
    case WakeUp(w) => Undisturbed(s, Do(s, a));
    case Leave(w) => Undisturbed(s, Do(s, a));
    case _ =>
  }

  /** Every step keeps the protocol. */
  lemma StepProtocol(s: Runtime, a: Action)
    requires Can(s, a) && Protocol(s) && HandReady(s) && forall y: Token :: Balanced(s, y)
    ensures Protocol(Do(s, a))
  {
    hide Protocol, HandReady, Balanced, Enqueue, FetchTask, Unpark;
    match a
    case SubmitFiber(thread) =>
      var g := Thread(READY, Body, 1, 0, 0);
      NewFiber(s, g);
      EnqueueProtocol(s.(fibers := s.fibers + [g]), RunFiber(|s.fibers|), thread);
    case SubmitTimer =>
      var t := s.(runs := s.runs + [0]);
      Undisturbed(s, t);
      NewTimer(t, User(|s.runs|));
    case Trigger(i) => UnparkProtocol(s, i);
    case Resume(w) => ResumeProtocol(s, w);
    case Begin(w) => BeginProtocol(s, w);
    case Expire2(w, ok) =>
      var f, c := s.workers[w].f, PcOf(s, w).call;
      MovesOn(s, f, s.fibers[f].(pc := Ending));
      SpendProtocol(SetPc(s, f, Ending), c);
      if ok && c < |s.calls| && s.calls[c].slot < |s.slots| && s.slots[s.calls[c].slot].Some? {
        UnparkProtocol(SpendCall(SetPc(s, f, Ending), c), s.calls[c].slot);
      }
    case Sleep(w) =>
      var f := s.workers[w].f;
      MovesOn(s, f, Park(s, f, Parking).fibers[f]);
      NewTimer(Park(s, f, Parking), Wake(f));
    case Requeue(w, thread) =>
      var f := s.workers[w].f;
      MovesOn(s, f, Park(s, f, Parking).fibers[f]);
      EnqueueProtocol(Park(s, f, Parking), RunFiber(f), thread);
    case OpenCall(w, slot, timed) => EntersCall(s, s.workers[w].f, slot, timed);
    case Try(w, again) => TryProtocol(s, w, again);
    case Register(w, ok) => RegisterProtocol(s, w, ok);
    case Yield(w) => Undisturbed(s, Do(s, a));
    case Finish(w) => Undisturbed(s, Do(s, a));
    case Disarm(w) => DisarmProtocol(s, w);
    case Judge(w) => JudgeProtocol(s, w);
    case Collect(w, i) =>
      SameTimer(s, i, s.timers[i].(live := false));
      Undisturbed(s.(timers := s.timers[i := s.timers[i].(live := false)]), Do(s, a));
    case Pass(w) =>
      var t := s.(workers := s.workers[w := Dozing(s.workers[w].todo[1..])]);
      Undisturbed(s, t);
      EnqueueProtocol(t, RunCode(s.workers[w].todo[0]), ANYWHERE);
    case _ => WorldProtocol(s, a);
  }
}
