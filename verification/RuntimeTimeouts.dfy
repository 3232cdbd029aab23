/** The timeouts of hooked calls: a call is marked exactly when one of its own timers has gone off, and when a
    fiber that waits has no timeout to wait for. */
module RuntimeTimeouts {
  import opened Bytes
  import opened Scheduling
  import opened Sums
  import opened RuntimeState
  import opened RuntimeTokens
  import opened RuntimeBalance
  import opened RuntimeProtocol
  import opened RuntimeHands
  import opened RuntimeRuns
  import opened RuntimeResults

  // ---------------------------------------------------------------- the invariant

  /** The callback of timer t, which is one of the call, has begun. */
  ghost predicate Fired(s: Runtime, c: nat, t: nat) {
    t < |s.timers| && s.timers[t].call == Some(c) && s.timers[t].ran
  }

  /** A mark was made by a timer of the call that has gone off, and until that one has made its cancelEvent
      its callback is about to. */
  ghost predicate StageFits(s: Runtime, c: nat)
    requires c < |s.calls|
  {
    match s.calls[c].stage
    case Unmarked => true
    case Marked(t, g) => Fired(s, c, t) && g < |s.fibers| && s.fibers[g].pc == Expiring(c)
    case Spent(t) => Fired(s, c, t)
  }

  ghost predicate ExpiringFits(s: Runtime, g: nat)
    requires g < |s.fibers|
  {
    s.fibers[g].pc.Expiring? ==>
      var c := s.fibers[g].pc.call; c < |s.calls| && s.calls[c].stage.Marked? && s.calls[c].stage.fiber == g
  }

  /** A timer of a call is the timeout of a call with one; and when it has gone off, the call is marked or over. */
  ghost predicate TimerFits(s: Runtime, t: nat)
    requires t < |s.timers|
  {
    if s.timers[t].call.None? then !s.timers[t].code.Expire?
    else
      var c := s.timers[t].call.value;
      && s.timers[t].code == Expire(t) && c < |s.calls| && s.calls[c].timed
      && (s.timers[t].ran && s.calls[c].open ==> s.calls[c].Cancelled())
  }

  predicate Remembers(pc: Pc) {
    pc.Armed? || pc.Waiting? || pc.Woken?
  }

  /** Between setting its timer and cancelling it, a call with a timeout has a timer that nobody cut off. */
  ghost predicate PcFits(s: Runtime, pc: Pc) {
    Remembers(pc) ==>
      && pc.call < |s.calls| && (s.calls[pc.call].timed <==> pc.timer.Some?)
      && (pc.timer.Some? ==> pc.timer.value < |s.timers| && !s.timers[pc.timer.value].cut)
  }

  ghost predicate Timed(s: Runtime) {
    && (forall c :: 0 <= c < |s.calls| ==> StageFits(s, c))
    && (forall g :: 0 <= g < |s.fibers| ==> ExpiringFits(s, g) && PcFits(s, s.fibers[g].pc))
    && (forall t :: 0 <= t < |s.timers| ==> TimerFits(s, t))
  }

  // ---------------------------------------------------------------- steps that leave it alone

  /** The fiber is where it was as far as timeouts go. */
  predicate SamePlace(before: Pc, after: Pc) {
    && (before.Expiring? || after.Expiring? ==> before == after)
    && (Remembers(after) ==> Remembers(before) && before.call == after.call && before.timer == after.timer)
  }

  predicate FreshPc(pc: Pc) {
    !pc.Expiring? && !Remembers(pc)
  }

  predicate SameHistory(a: Timer, b: Timer) {
    a.code == b.code && a.call == b.call && a.ran == b.ran && a.cut == b.cut
  }

  predicate FreshTimer(t: Timer) {
    t.call.None? && !t.code.Expire?
  }

  lemma Steady(s: Runtime, t: Runtime)
    requires Timed(s) && t.calls == s.calls && |s.fibers| <= |t.fibers| && |s.timers| <= |t.timers|
    requires forall f :: 0 <= f < |t.fibers| ==>
               if f < |s.fibers| then SamePlace(s.fibers[f].pc, t.fibers[f].pc) else FreshPc(t.fibers[f].pc)
    requires forall k :: 0 <= k < |t.timers| ==>
               if k < |s.timers| then SameHistory(s.timers[k], t.timers[k]) else FreshTimer(t.timers[k])
    ensures Timed(t)
  {
    forall c | 0 <= c < |t.calls|
      ensures StageFits(t, c)
    {
      assert StageFits(s, c);
    }
    forall g | 0 <= g < |t.fibers|
      ensures ExpiringFits(t, g) && PcFits(t, t.fibers[g].pc)
    {
      if g < |s.fibers| {
        assert ExpiringFits(s, g) && PcFits(s, s.fibers[g].pc);
      }
    }
    forall k | 0 <= k < |t.timers|
      ensures TimerFits(t, k)
    {
      if k < |s.timers| {
        assert TimerFits(s, k);
      }
    }
  }

  lemma PcMoves(s: Runtime, f: nat, g: Thread)
    requires Timed(s) && f < |s.fibers| && SamePlace(s.fibers[f].pc, g.pc)
    ensures Timed(s.(fibers := s.fibers[f := g]))
  {
    hide Timed;
    Steady(s, s.(fibers := s.fibers[f := g]));
  }

  lemma EnqueueTimed(s: Runtime, job: Job, thread: int)
    requires Timed(s)
    ensures Timed(Enqueue(s, job, thread))
  {
    hide Timed, Enqueue;
    EnqueuedFibers(s, job, thread);
    Steady(s, Enqueue(s, job, thread));
  }

  lemma UnparkTimed(s: Runtime, i: nat)
    requires Timed(s) && i < |s.slots| && s.slots[i].Some?
    ensures Timed(Unpark(s, i))
  {
    hide Timed, Enqueue;
    Steady(s, s.(slots := s.slots[i := None]));
    EnqueueTimed(s.(slots := s.slots[i := None]), WaiterJob(s.slots[i].value), ANYWHERE);
  }

  lemma CloseTimed(s: Runtime, c: nat)
    requires Timed(s)
    ensures Timed(CloseCall(s, c))
  {
    var t := CloseCall(s, c);
    forall d | 0 <= d < |t.calls|
      ensures StageFits(t, d)
    {
      assert StageFits(s, d);
    }
    forall g | 0 <= g < |t.fibers|
      ensures ExpiringFits(t, g) && PcFits(t, t.fibers[g].pc)
    {
      assert ExpiringFits(s, g) && PcFits(s, s.fibers[g].pc);
    }
    forall k | 0 <= k < |t.timers|
      ensures TimerFits(t, k)
    {
      assert TimerFits(s, k);
    }
  }

  // ---------------------------------------------------------------- steps of a call

  lemma OpenTimed(s: Runtime, f: nat, slot: nat, timed: bool)
    requires Timed(s) && f < |s.fibers| && s.fibers[f].pc.Body?
    ensures Timed(OpenNewCall(s, f, slot, timed))
  {
    var t := OpenNewCall(s, f, slot, timed);
    forall d | 0 <= d < |t.calls|
      ensures StageFits(t, d)
    {
      if d < |s.calls| {
        assert StageFits(s, d);
      }
    }
    forall g | 0 <= g < |t.fibers|
      ensures ExpiringFits(t, g) && PcFits(t, t.fibers[g].pc)
    {
      assert ExpiringFits(s, g) && PcFits(s, s.fibers[g].pc);
    }
    forall k | 0 <= k < |t.timers|
      ensures TimerFits(t, k)
    {
      assert TimerFits(s, k);
    }
  }

  /** A call that would block remembers a timer of its own, or has no timeout. */
  lemma ArmTimed(s: Runtime, f: nat, c: nat)
    requires Timed(s) && f < |s.fibers| && s.fibers[f].pc == Trying(c) && c < |s.calls|
    ensures Timed(TryCall(s, f, c, true))
  {
    var t := TryCall(s, f, c, true);
    forall d | 0 <= d < |t.calls|
      ensures StageFits(t, d)
    {
      assert StageFits(s, d);
    }
    forall g | 0 <= g < |t.fibers|
      ensures ExpiringFits(t, g) && PcFits(t, t.fibers[g].pc)
    {
      assert ExpiringFits(s, g) && PcFits(s, s.fibers[g].pc);
    }
    forall k | 0 <= k < |t.timers|
      ensures TimerFits(t, k)
    {
      if k < |s.timers| {
        assert TimerFits(s, k);
      }
    }
  }

  /** The fiber f forgets its timer, which is cut off; nobody else remembers it. */
  lemma ForgetTimed(s: Runtime, f: nat, pc: Pc)
    requires Timed(s) && Protocol(s) && f < |s.fibers| && Remembers(s.fibers[f].pc) && FreshPc(pc)
    ensures Timed(CancelTimer(SetPc(s, f, pc), s.fibers[f].pc.timer))
  {
    var timer := s.fibers[f].pc.timer;
    var u := SetPc(s, f, pc);
    assert Timed(u) by {
      PcMoves(s, f, s.fibers[f].(pc := pc));
    }
    var t := CancelTimer(u, timer);
    forall d | 0 <= d < |t.calls|
      ensures StageFits(t, d)
    {
      assert StageFits(u, d);
    }
    forall g | 0 <= g < |t.fibers|
      ensures ExpiringFits(t, g) && PcFits(t, t.fibers[g].pc)
    {
      assert ExpiringFits(u, g) && PcFits(u, u.fibers[g].pc);
      if g != f && Remembers(u.fibers[g].pc) {
        OneRemembers(s, f, g);
      }
    }
    forall k | 0 <= k < |t.timers|
      ensures TimerFits(t, k)
    {
      assert TimerFits(u, k);
    }
  }

  lemma OneRemembers(s: Runtime, f: nat, g: nat)
    requires Protocol(s) && f < |s.fibers| && g < |s.fibers| && f != g
    ensures TimerOf(s.fibers[f].pc).Some? ==> TimerOf(s.fibers[g].pc) != TimerOf(s.fibers[f].pc)
  {
    assert OwnTimer(s, s.fibers[f].pc) && OwnTimer(s, s.fibers[g].pc);
    if CallOf(s.fibers[f].pc).Some? && CallOf(s.fibers[g].pc).Some? {
      assert Owns(s, f, CallOf(s.fibers[f].pc).value) && Owns(s, g, CallOf(s.fibers[g].pc).value);
    }
  }

  // ---------------------------------------------------------------- steps of a timeout

  /** The callback of a timer of a call begins: it marks the call, unless that is over or marked. */
  lemma ExpireTimed(s: Runtime, f: nat, t: nat, c: nat)
    requires Timed(s) && f < |s.fibers| && s.fibers[f].pc == Start(Expire(t))
    requires t < |s.timers| && s.timers[t].call == Some(c)
    ensures Timed(ExpireTimer(s, f, t, c))
  {
    hide ExpireTimer, StageFits, ExpiringFits, PcFits, TimerFits;
    var u := ExpireTimer(s, f, t, c);
    forall d | 0 <= d < |u.calls|
      ensures StageFits(u, d)
    {
      ExpireStages(s, f, t, c, d);
    }
    forall g | 0 <= g < |u.fibers|
      ensures ExpiringFits(u, g) && PcFits(u, u.fibers[g].pc)
    {
      ExpireFibers(s, f, t, c, g);
    }
    forall k | 0 <= k < |u.timers|
      ensures TimerFits(u, k)
    {
      ExpireTimers(s, f, t, c, k);
    }
  }

  lemma ExpireStages(s: Runtime, f: nat, t: nat, c: nat, d: nat)
    requires Timed(s) && f < |s.fibers| && s.fibers[f].pc == Start(Expire(t))
    requires t < |s.timers| && s.timers[t].call == Some(c)
    requires d < |ExpireTimer(s, f, t, c).calls|
    ensures StageFits(ExpireTimer(s, f, t, c), d)
  {
    assert StageFits(s, d);
  }

  lemma ExpireFibers(s: Runtime, f: nat, t: nat, c: nat, g: nat)
    requires Timed(s) && f < |s.fibers| && s.fibers[f].pc == Start(Expire(t))
    requires t < |s.timers| && s.timers[t].call == Some(c)
    requires g < |ExpireTimer(s, f, t, c).fibers|
    ensures var u := ExpireTimer(s, f, t, c); ExpiringFits(u, g) && PcFits(u, u.fibers[g].pc)
  {
    assert ExpiringFits(s, g) && PcFits(s, s.fibers[g].pc);
  }

  lemma ExpireTimers(s: Runtime, f: nat, t: nat, c: nat, k: nat)
    requires Timed(s) && f < |s.fibers| && s.fibers[f].pc == Start(Expire(t))
    requires t < |s.timers| && s.timers[t].call == Some(c)
    requires k < |ExpireTimer(s, f, t, c).timers|
    ensures TimerFits(ExpireTimer(s, f, t, c), k)
  {
    assert TimerFits(s, t) && TimerFits(s, k);
  }

  lemma SpendTimed(s: Runtime, f: nat, c: nat)
    requires Timed(s) && f < |s.fibers| && s.fibers[f].pc == Expiring(c)
    ensures Timed(SpendCall(SetPc(s, f, Ending), c))
  {
    assert ExpiringFits(s, f);
    var u := SpendCall(SetPc(s, f, Ending), c);
    forall d | 0 <= d < |u.calls|
      ensures StageFits(u, d)
    {
      assert StageFits(s, d);
    }
    forall g | 0 <= g < |u.fibers|
      ensures ExpiringFits(u, g) && PcFits(u, u.fibers[g].pc)
    {
      assert ExpiringFits(s, g) && PcFits(s, s.fibers[g].pc);
    }
    forall k | 0 <= k < |u.timers|
      ensures TimerFits(u, k)
    {
      assert TimerFits(s, k);
    }
  }

  // ---------------------------------------------------------------- all steps

  lemma BeginTimed(s: Runtime, w: nat)
    requires Can(s, Begin(w)) && Timed(s)
    ensures Timed(Do(s, Begin(w)))
  {
    hide Timed, Enqueue, ExpireTimer;
    var f := s.workers[w].f;
    match PcOf(s, w).code
    case User(k) =>
      PcMoves(s, f, s.fibers[f].(pc := Body));
      Steady(SetPc(s, f, Body), Do(s, Begin(w)));
    case Wake(g) =>
      PcMoves(s, f, s.fibers[f].(pc := Ending));
      EnqueueTimed(SetPc(s, f, Ending), RunFiber(g), ANYWHERE);
    case Expire(t) =>
      if t < |s.timers| && s.timers[t].call.Some? {
        ExpireTimed(s, f, t, s.timers[t].call.value);
      } else {
        PcMoves(s, f, s.fibers[f].(pc := Ending));
      }
  }

  lemma CancelWaitTimed(s: Runtime, w: nat, ok: bool)
    requires Can(s, Expire2(w, ok)) && Timed(s)
    ensures Timed(Do(s, Expire2(w, ok)))
  {
    hide Timed, Unpark;
    var f, c := s.workers[w].f, PcOf(s, w).call;
    SpendTimed(s, f, c);
    var u := SpendCall(SetPc(s, f, Ending), c);
    if ok && c < |s.calls| && s.calls[c].slot < |s.slots| && s.slots[s.calls[c].slot].Some? {
      UnparkTimed(u, s.calls[c].slot);
    }
  }

  lemma CallTimed(s: Runtime, a: Action)
    requires Can(s, a) && Timed(s) && Protocol(s) && Hooks(a)
    ensures Timed(Do(s, a))
  {
    hide Timed, Protocol, CancelTimer, CloseCall;
    var f, pc := s.workers[a.w].f, PcOf(s, a.w);
    match a
    case OpenCall(w, slot, timed) => OpenTimed(s, f, slot, timed);
    case Try(w, again) =>
      if again {
        OwnsCall(s, f);
        ArmTimed(s, f, pc.call);
      } else {
        PcMoves(s, f, s.fibers[f].(pc := Body));
        CloseTimed(SetPc(s, f, Body), pc.call);
      }
    case Register(w, ok) =>
      if ok {
        var t := Park(s, f, Waiting(pc.call, pc.timer));
        PcMoves(s, f, t.fibers[f]);
        Steady(t, Do(s, a));
      } else {
        ForgetTimed(s, f, Body);
        CloseTimed(CancelTimer(SetPc(s, f, Body), pc.timer), pc.call);
      }
    case Disarm(w) => ForgetTimed(s, f, Judging(pc.call));
    case Judge(w) =>
      if pc.call < |s.calls| && !s.calls[pc.call].Cancelled() {
        PcMoves(s, f, s.fibers[f].(pc := Trying(pc.call)));
      } else {
        PcMoves(s, f, s.fibers[f].(pc := Body));
        CloseTimed(SetPc(s, f, Body), pc.call);
      }
  }

  lemma OwnsCall(s: Runtime, f: nat)
    requires Protocol(s) && f < |s.fibers| && CallOf(s.fibers[f].pc).Some?
    ensures Owns(s, f, CallOf(s.fibers[f].pc).value)
  {
  }

  /** Steps outside of calls and timeouts. */
  lemma OtherTimed(s: Runtime, a: Action)
    requires Can(s, a) && Timed(s) && !Hooks(a) && !a.Begin? && !a.Expire2? && !Enqueues(a)
    ensures Timed(Do(s, a))
  {
    hide Timed, Enqueue, Do, Can;
    if a.Resume? {
      ResumeTimed(s, a.w);
    } else if a.Sleep? || a.Requeue? || a.Yield? || a.Finish? {
      FiberTimed(s, a);
    } else {
      QuietTimed(s, a);
    }
  }

  lemma FiberTimed(s: Runtime, a: Action)
    requires Can(s, a) && Timed(s) && (a.Sleep? || a.Requeue? || a.Yield? || a.Finish?)
    ensures Timed(Do(s, a))
  {
    hide Timed, Enqueue;
    match a
    case Sleep(_) => Steady(s, Do(s, a));
    case Requeue(w, thread) =>
      var f := s.workers[w].f;
      PcMoves(s, f, Park(s, f, Parking).fibers[f]);
      EnqueueTimed(Park(s, f, Parking), RunFiber(f), thread);
    case Yield(_) => Steady(s, Do(s, a));
    case Finish(_) => Steady(s, Do(s, a));
  }

  lemma QuietTimed(s: Runtime, a: Action)
    requires Can(s, a) && Timed(s)
    requires a.SubmitTimer? || a.SubmitWaiter? || a.GrowSlots? || a.Stop? || a.Fetch? || a.Release? || a.Collect?
             || a.WakeUp? || a.Leave?
    ensures Timed(Do(s, a))
  {
    hide Timed, FirstEligible;
    Steady(s, Do(s, a));
  }

  lemma ResumeTimed(s: Runtime, w: nat)
    requires Can(s, Resume(w)) && Timed(s)
    ensures Timed(Do(s, Resume(w)))
  {
    hide Timed;
    Steady(s, Do(s, Resume(w)));
  }

  lemma QueueTimed(s: Runtime, a: Action)
    requires Can(s, a) && Timed(s) && Enqueues(a)
    ensures Timed(Do(s, a))
  {
    hide Timed, Enqueue;
    match a
    case Submit(thread) =>
      Steady(s, s.(runs := s.runs + [0]));
      EnqueueTimed(s.(runs := s.runs + [0]), RunCode(User(|s.runs|)), thread);
    case SubmitFiber(thread) =>
      var t := s.(fibers := s.fibers + [Thread(READY, Body, 1, 0, 0)]);
      Steady(s, t);
      EnqueueTimed(t, RunFiber(|s.fibers|), thread);
    case Trigger(i) => UnparkTimed(s, i);
    case Pass(w) =>
      var todo := s.workers[w].todo;
      var t := s.(workers := s.workers[w := Dozing(todo[1..])]);
      Steady(s, t);
      EnqueueTimed(t, RunCode(todo[0]), ANYWHERE);
  }

  /** Every step keeps marks, timers and timeouts in agreement. */
  lemma StepTimed(s: Runtime, a: Action)
    requires Can(s, a) && Timed(s) && Protocol(s)
    ensures Timed(Do(s, a))
  {
    hide Timed, Protocol, Can, Do;
    if Hooks(a) {
      CallTimed(s, a);
    } else if Enqueues(a) {
      QueueTimed(s, a);
    } else if a.Begin? {
      BeginTimed(s, a.w);
    } else if a.Expire2? {
      CancelWaitTimed(s, a.w, a.ok);
    } else {
      OtherTimed(s, a);
    }
  }

  lemma {:induction false} RunTimed(s: Runtime, run: seq<Action>)
    requires CanRun(s, run) && Inv(s) && Timed(s)
    ensures Timed(Run(s, run))
    decreases |run|
  {
    hide Inv, Timed, Can, Do;
    if run != [] {
      InvProtocol(s);
      StepInv(s, run[0]);
      StepTimed(s, run[0]);
      RunTimed(Do(s, run[0]), run[1..]);
    }
  }

  lemma InvProtocol(s: Runtime)
    requires Inv(s)
    ensures Protocol(s) && Counted(s)
  {
    hide Protocol, Counted;
  }

  lemma ReachableTimed(s: Runtime)
    requires Reachable(s)
    ensures Timed(s) && Protocol(s)
  {
    hide Inv, Protocol;
    var n: nat, run: seq<Action> :| CanRun(Init(n), run) && s == Run(Init(n), run);
    InitInv(n);
    RunTimed(Init(n), run);
    RunInv(Init(n), run);
    InvProtocol(s);
  }

  // ---------------------------------------------------------------- one timeout

  /** The callback of a timeout is in exactly one place until it begins or its timer is cut off, and in none
      afterwards. */
  lemma TimeoutOnce(s: Runtime, t: nat, p: Place, q: Place)
    requires Reachable(s) && t < |s.timers|
    ensures s.timers[t].Owed() <==> exists r :: Keeps(s, r, OfTimeout(t))
    ensures Keeps(s, p, OfTimeout(t)) && Keeps(s, q, OfTimeout(t)) ==> p == q
  {
    hide Inv, Keeps, Pending, Ready;
    ReachableBalance(s, OfTimeout(t));
    TimeoutNeverReady(s, t);
    if s.timers[t].Owed() {
      var r := SomePlace(s, OfTimeout(t));
    }
    if r: Place :| Keeps(s, r, OfTimeout(t)) {
      CountedWhenKept(s, r, OfTimeout(t));
    }
    if Keeps(s, p, OfTimeout(t)) && Keeps(s, q, OfTimeout(t)) {
      OnePlace(s, p, q, OfTimeout(t));
    }
  }

  lemma TimeoutNeverReady(s: Runtime, t: nat)
    ensures Ready(s, OfTimeout(t)) == 0
  {
    hide Sum;
    SumZero(s.queue, ReadyTask(OfTimeout(t)));
    SumZero(s.workers, ReadyWorker(OfTimeout(t)));
  }

  /** The step is the callback of timer k beginning, which is one of the call. */
  ghost predicate GoesOff(s: Runtime, a: Action, c: nat, k: nat) {
    && a.Begin? && OnCpu(s, a.w) && PcOf(s, a.w) == Start(Expire(k))
    && k < |s.timers| && s.timers[k].Owed() && s.timers[k].call == Some(c)
  }

  /** A call is marked at most once, while it is open, by the callback of a timer of its own that begins; a
      callback that begins when the call is over or marked changes no call. Only the callback that has made
      the mark makes the cancelEvent, once. */
  lemma LateTimeout(s: Runtime, a: Action, c: nat)
    requires Reachable(s) && Can(s, a) && c < |s.calls|
    ensures c < |Do(s, a).calls|
    ensures var before, after := s.calls[c].stage, Do(s, a).calls[c].stage;
      match before
      case Unmarked =>
        if after.Unmarked? then s.calls[c].open ==> forall k: nat :: !GoesOff(s, a, c, k)
        else s.calls[c].open && after.Marked? && GoesOff(s, a, c, after.timer)
      case Marked(k, g) =>
        if a.Expire2? && s.workers[a.w] == Running(g) then after == Spent(k) else after == before
      case Spent(_) => after == before
  {
    hide Timed, Protocol, Inv;
    ReachableTimed(s);
    StageSteps(s, a, c);
    if a.Begin? && PcOf(s, a.w).Start? && PcOf(s, a.w).code.Expire? {
      BeginOwed(s, a.w, PcOf(s, a.w).code.timer);
    }
  }

  lemma BeginOwed(s: Runtime, w: nat, k: nat)
    requires Reachable(s) && Can(s, Begin(w)) && PcOf(s, w) == Start(Expire(k))
    ensures k < |s.timers| && s.timers[k].Owed()
  {
    hide Pending, Ready, Cpu, Inv;
    ReachableBalance(s, OfTimeout(k));
    InFiber(s, s.workers[w].f, OfTimeout(k));
  }

  /** What a step makes of the stage of a call. */
  lemma StageSteps(s: Runtime, a: Action, c: nat)
    requires Can(s, a) && Timed(s) && c < |s.calls|
    ensures c < |Do(s, a).calls|
    ensures var before, after := s.calls[c].stage, Do(s, a).calls[c].stage;
      if a.Begin? && PcOf(s, a.w).code.Expire? && PcOf(s, a.w).code.timer < |s.timers|
         && s.timers[PcOf(s, a.w).code.timer].call == Some(c) && s.calls[c].open && before.Unmarked?
      then after == Marked(PcOf(s, a.w).code.timer, s.workers[a.w].f)
      else if before.Marked? && a.Expire2? && s.workers[a.w] == Running(before.fiber) then after == Spent(before.timer)
      else after == before
  {
    hide Timed, Do;
    if Hooks(a) {
      HookStages(s, a);
    } else if a.Begin? {
      BeginKeeps(s, a.w);
    } else if a.Expire2? {
      SpendStage(s, a.w, a.ok, c);
    } else {
      Untouched(s, a);
    }
  }

  // What each kind of step does to calls and slots.

  lemma Untouched(s: Runtime, a: Action)
    requires Can(s, a) && !Hooks(a) && !a.Begin? && !a.Expire2?
    ensures Do(s, a).calls == s.calls
    ensures !a.Trigger? && !a.SubmitWaiter? && !a.GrowSlots? ==> Do(s, a).slots == s.slots
  {
    hide Enqueue, FirstEligible;
    match a
    case Submit(thread) => EnqueuedFibers(s.(runs := s.runs + [0]), RunCode(User(|s.runs|)), thread);
    case SubmitFiber(thread) =>
      EnqueuedFibers(s.(fibers := s.fibers + [Thread(READY, Body, 1, 0, 0)]), RunFiber(|s.fibers|), thread);
    case Trigger(i) => EnqueuedFibers(s.(slots := s.slots[i := None]), WaiterJob(s.slots[i].value), ANYWHERE);
    case Requeue(w, thread) => EnqueuedFibers(Park(s, s.workers[w].f, Parking), RunFiber(s.workers[w].f), thread);
    case Pass(w) =>
      EnqueuedFibers(s.(workers := s.workers[w := Dozing(s.workers[w].todo[1..])]), RunCode(s.workers[w].todo[0]), ANYWHERE);
    case _ =>
  }

  lemma BeginKeeps(s: Runtime, w: nat)
    requires Can(s, Begin(w))
    ensures var f, code, t := s.workers[w].f, PcOf(s, w).code, Do(s, Begin(w));
      && t.slots == s.slots
      && t.calls == if code.Expire? && code.timer < |s.timers| && s.timers[code.timer].call.Some?
                    then ExpireTimer(s, f, code.timer, s.timers[code.timer].call.value).calls else s.calls
  {
    hide Enqueue, ExpireTimer;
    var f := s.workers[w].f;
    match PcOf(s, w).code {
      case Wake(g) => EnqueuedFibers(SetPc(s, f, Ending), RunFiber(g), ANYWHERE);
      case Expire(t) =>
        if t < |s.timers| && s.timers[t].call.Some? {
          assert ExpireTimer(s, f, t, s.timers[t].call.value).slots == s.slots by {
            ExpireSlots(s, f, t, s.timers[t].call.value);
          }
        }
      case _ =>
    }
  }

  lemma ExpireSlots(s: Runtime, f: nat, t: nat, c: nat)
    requires f < |s.fibers| && t < |s.timers|
    ensures ExpireTimer(s, f, t, c).slots == s.slots
  {
  }

  lemma CancelKeeps(s: Runtime, w: nat, ok: bool)
    requires Can(s, Expire2(w, ok))
    ensures var c, t := PcOf(s, w).call, Do(s, Expire2(w, ok));
      && t.calls == SpendCall(s, c).calls && |t.slots| == |s.slots|
      && (forall i :: 0 <= i < |s.slots| ==> t.slots[i] == if Cancels(s, w, ok, i) then None else s.slots[i])
  {
    hide Enqueue;
    var f, c := s.workers[w].f, PcOf(s, w).call;
    var u := SpendCall(SetPc(s, f, Ending), c);
    if ok && c < |s.calls| && s.calls[c].slot < |s.slots| && s.slots[s.calls[c].slot].Some? {
      var i := s.calls[c].slot;
      EnqueuedFibers(u.(slots := u.slots[i := None]), WaiterJob(u.slots[i].value), ANYWHERE);
    }
  }

  lemma HookStages(s: Runtime, a: Action)
    requires Can(s, a) && Hooks(a)
    ensures |s.calls| <= |Do(s, a).calls| && |Do(s, a).slots| == |s.slots|
    ensures forall c :: 0 <= c < |s.calls| ==>
              Do(s, a).calls[c] == s.calls[c] || Do(s, a).calls[c] == s.calls[c].(open := false)
    ensures forall c :: |s.calls| <= c < |Do(s, a).calls| ==>
              && Do(s, a).calls[c].stage.Unmarked? && Do(s, a).calls[c].owner < |Do(s, a).fibers|
              && Do(s, a).fibers[Do(s, a).calls[c].owner].pc.Trying?
    ensures !a.Register? || !a.ok ==> Do(s, a).slots == s.slots
  {
  }

  lemma SpendStage(s: Runtime, w: nat, ok: bool, c: nat)
    requires Can(s, Expire2(w, ok)) && Timed(s) && c < |s.calls|
    ensures c < |Do(s, Expire2(w, ok)).calls|
    ensures var before, after := s.calls[c].stage, Do(s, Expire2(w, ok)).calls[c].stage;
      if before.Marked? && s.workers[w] == Running(before.fiber) then after == Spent(before.timer) else after == before
  {
    hide Do;
    CancelKeeps(s, w, ok);
    assert ExpiringFits(s, s.workers[w].f) && StageFits(s, c);
  }

  /** A call fails with a timeout if and only if the callback of one of its own timers has begun, and
      otherwise tries the system call again, whoever ended its wait. */
  lemma Verdict(s: Runtime, w: nat)
    requires Reachable(s) && Can(s, Judge(w))
    ensures var f, c := s.workers[w].f, PcOf(s, w).call;
      && c < |s.calls| && s.calls[c].open && s.calls[c].owner == f
      && var t := Do(s, Judge(w));
         if exists k :: Fired(s, c, k) then s.calls[c].timed && t.fibers[f].pc == Body && !t.calls[c].open
         else t.fibers[f].pc == Trying(c) && t.calls == s.calls
  {
    hide Reachable, Protocol;
    ReachableTimed(s);
    var f, c := s.workers[w].f, PcOf(s, w).call;
    OwnsCall(s, f);
    CancelledMeans(s, c);
  }

  /** An open call is marked if and only if one of its timers has gone off. */
  lemma CancelledMeans(s: Runtime, c: nat)
    requires Timed(s) && c < |s.calls| && s.calls[c].open
    ensures s.calls[c].Cancelled() <==> exists k :: Fired(s, c, k)
    ensures s.calls[c].Cancelled() ==> s.calls[c].timed
  {
    assert StageFits(s, c);
    if s.calls[c].Cancelled() {
      var k := s.calls[c].stage.timer;
      assert Fired(s, c, k) && TimerFits(s, k);
    }
    if k: nat :| Fired(s, c, k) {
      assert TimerFits(s, k);
    }
  }

  // ---------------------------------------------------------------- waits without a timeout to come

  /** The fiber waits in the slot of its call. */
  ghost predicate WaitsIn(s: Runtime, f: nat, c: nat) {
    && f < |s.fibers| && c < |s.calls| && s.calls[c].slot < |s.slots|
    && s.slots[s.calls[c].slot] == Some(FiberWaiter(f)) && s.fibers[f].pc.Waiting? && s.fibers[f].pc.call == c
  }

  /** A timeout that will have an effect is on its way: the callback of a timer of the call while the call is
      unmarked, or the callback that has marked it and makes its cancelEvent next. */
  ghost predicate Coming(s: Runtime, c: nat)
    requires c < |s.calls|
  {
    || (!s.calls[c].Cancelled() && exists t: nat, p: Place :: OnWay(s, c, t, p))
    || (exists g: nat :: IsExpiring(s, g, c))
  }

  ghost predicate OnWay(s: Runtime, c: nat, t: nat, p: Place) {
    t < |s.timers| && s.timers[t].call == Some(c) && Keeps(s, p, OfTimeout(t))
  }

  ghost predicate IsExpiring(s: Runtime, g: nat, c: nat) {
    g < |s.fibers| && s.fibers[g].pc == Expiring(c)
  }

  /** A fiber in the wait of a call with a timeout has one coming if and only if the call's one cancelEvent
      has not been made. */
  lemma TimeoutComing(s: Runtime, f: nat, c: nat)
    requires Reachable(s) && WaitsIn(s, f, c) && s.calls[c].timed
    ensures Coming(s, c) <==> !s.calls[c].stage.Spent?
  {
    hide Reachable, Keeps, Inv;
    ReachableTimed(s);
    OwnsCall(s, f);
    assert StageFits(s, c) && PcFits(s, s.fibers[f].pc) && OwnTimer(s, s.fibers[f].pc);
    var t := s.fibers[f].pc.timer.value;
    match s.calls[c].stage
    case Unmarked =>
      assert TimerFits(s, t);
      TimeoutOnce(s, t, AtTimer(t), AtTimer(t));
      var p :| Keeps(s, p, OfTimeout(t));
      assert OnWay(s, c, t, p);
    case Marked(_, g) => assert IsExpiring(s, g, c);
    case Spent(_) =>
      forall g: nat
        ensures !IsExpiring(s, g, c)
      {
        if g < |s.fibers| {
          NotExpiring(s, g);
        }
      }
  }

  /** The wait of a call with a timeout, with none coming. */
  ghost predicate Lost(s: Runtime, f: nat, c: nat) {
    WaitsIn(s, f, c) && s.calls[c].timed && s.calls[c].stage.Spent?
  }

  /** addEvent puts the fiber into the slot with a timeout coming, if and only if the cancelEvent of the call
      has not been made before. */
  lemma RegisterExact(s: Runtime, w: nat)
    requires Reachable(s) && Can(s, Register(w, true))
    ensures var t, f, c := Do(s, Register(w, true)), s.workers[w].f, PcOf(s, w).call;
      && WaitsIn(t, f, c) && t.calls == s.calls
      && (t.calls[c].timed ==> (Coming(t, c) <==> !s.calls[c].stage.Spent?))
  {
    hide Reachable, Coming;
    var t, f, c := Do(s, Register(w, true)), s.workers[w].f, PcOf(s, w).call;
    ReachableStep(s, Register(w, true));
    if t.calls[c].timed {
      TimeoutComing(t, f, c);
    }
  }

  /** What a step makes of a slot. */
  lemma SlotSteps(s: Runtime, a: Action, i: nat)
    requires Can(s, a) && i < |s.slots|
    ensures i < |Do(s, a).slots|
    ensures var after := Do(s, a).slots[i];
      if a == Trigger(i) || (a.Expire2? && Cancels(s, a.w, a.ok, i)) then after == None
      else if a.Register? && a.ok && s.calls[PcOf(s, a.w).call].slot == i then
        s.slots[i] == None && after == Some(FiberWaiter(s.workers[a.w].f))
      else if a == SubmitWaiter(i) then s.slots[i] == None && after.Some? && after.value.CodeWaiter?
      else after == s.slots[i]
  {
    hide Do;
    if a.Register? && a.ok {
      RegisterSlots(s, a.w);
    } else if Hooks(a) {
      HookStages(s, a);
    } else if a.Begin? {
      BeginKeeps(s, a.w);
    } else if a.Expire2? {
      CancelKeeps(s, a.w, a.ok);
    } else if a.Trigger? || a.SubmitWaiter? || a.GrowSlots? {
      SlotsSet(s, a, i);
    } else {
      Untouched(s, a);
    }
  }

  lemma RegisterSlots(s: Runtime, w: nat)
    requires Can(s, Register(w, true))
    ensures var i := s.calls[PcOf(s, w).call].slot;
      Do(s, Register(w, true)).slots == s.slots[i := Some(FiberWaiter(s.workers[w].f))]
  {
  }

  lemma SlotsSet(s: Runtime, a: Action, i: nat)
    requires Can(s, a) && i < |s.slots| && (a.Trigger? || a.SubmitWaiter? || a.GrowSlots?)
    ensures i < |Do(s, a).slots|
    ensures Do(s, a).slots[i] == if a == Trigger(i) then None
                                 else if a == SubmitWaiter(i) then Some(CodeWaiter(User(|s.runs|))) else s.slots[i]
  {
    hide Enqueue;
    if a.Trigger? {
      EnqueuedFibers(s.(slots := s.slots[a.slot := None]), WaiterJob(s.slots[a.slot].value), ANYWHERE);
    }
  }

  /** The second half of a timeout empties the slot. */
  predicate Cancels(s: Runtime, w: nat, ok: bool, i: nat) {
    OnCpu(s, w) && PcOf(s, w).Expiring? && ok && PcOf(s, w).call < |s.calls| && s.calls[PcOf(s, w).call].slot == i
  }

  /** A call keeps its owner, slot and kind, and does not open again; a new one is unmarked, and its owner is
      in front of the system call. */
  lemma CallKept(s: Runtime, a: Action, c: nat)
    requires Can(s, a) && c < |Do(s, a).calls|
    ensures var d := Do(s, a).calls[c];
      if c < |s.calls| then
        && d.slot == s.calls[c].slot && d.timed == s.calls[c].timed && d.owner == s.calls[c].owner
        && (d.open ==> s.calls[c].open)
      else
        d.stage.Unmarked? && d.owner < |Do(s, a).fibers| && Do(s, a).fibers[d.owner].pc.Trying?
  {
    hide Do;
    if Hooks(a) {
      HookStages(s, a);
    } else if a.Begin? {
      BeginKeeps(s, a.w);
    } else if a.Expire2? {
      CancelKeeps(s, a.w, a.ok);
    } else {
      Untouched(s, a);
    }
  }

  /** A fiber that is in the slot of its call before and after a step is in the same wait. */
  lemma SameWait(s: Runtime, a: Action, i: nat, f: nat)
    requires Reachable(s) && Can(s, a) && i < |s.slots| && i < |Do(s, a).slots|
    requires s.slots[i] == Do(s, a).slots[i] == Some(FiberWaiter(f))
    ensures f < |s.fibers| && s.fibers[f].pc.Waiting?
    ensures var c := s.fibers[f].pc.call; WaitsIn(s, f, c) && WaitsIn(Do(s, a), f, c) && s.calls[c].slot == i
  {
    hide Reachable, Timed, Protocol, Do, Can;
    var t := Do(s, a);
    ReachableStep(s, a);
    ReachableTimed(s);
    ReachableTimed(t);
    SlotHolds(s, i, f);
    SlotHolds(t, i, f);
    var d := t.fibers[f].pc.call;
    CallKept(s, a, d);
    if d < |s.calls| {
      OwnerIn(s, d);
    }
  }

  lemma SlotHolds(s: Runtime, i: nat, f: nat)
    requires Protocol(s) && i < |s.slots| && s.slots[i] == Some(FiberWaiter(f))
    ensures f < |s.fibers| && s.fibers[f].pc.Waiting?
    ensures var c := s.fibers[f].pc.call; WaitsIn(s, f, c) && s.calls[c].slot == i && Owns(s, f, c)
  {
    assert Holds(s, i, f);
    assert CallOf(s.fibers[f].pc) == Some(s.fibers[f].pc.call);
  }

  lemma OwnerIn(s: Runtime, c: nat)
    requires Protocol(s) && c < |s.calls| && s.calls[c].open
    ensures s.calls[c].owner < |s.fibers| && CallOf(s.fibers[s.calls[c].owner].pc) == Some(c)
  {
  }

  /** A wait loses its timeout in two ways only: it begins after the cancelEvent of the call, or that one
      fails. */
  lemma BecomesLost(s: Runtime, a: Action, f: nat, c: nat)
    requires Reachable(s) && Can(s, a) && Lost(Do(s, a), f, c) && !Lost(s, f, c)
    ensures || (a.Register? && a.ok && s.workers[a.w] == Running(f) && c < |s.calls| && s.calls[c].stage.Spent?)
            || (a.Expire2? && !a.ok && PcOf(s, a.w) == Expiring(c) && WaitsIn(s, f, c))
  {
    hide Reachable, Timed, Protocol, Do;
    ReachableTimed(s);
    CallKept(s, a, c);
    StageSteps(s, a, c);
    var i := s.calls[c].slot;
    if i < |s.slots| {
      SlotSteps(s, a, i);
      if s.slots[i] == Some(FiberWaiter(f)) {
        SameWait(s, a, i, f);
        MarkedBy(s, c);
      }
    } else {
      SlotsGrow(s, a);
    }
  }

  lemma SlotsGrow(s: Runtime, a: Action)
    requires Can(s, a)
    ensures forall i :: |s.slots| <= i < |Do(s, a).slots| ==> Do(s, a).slots[i] == None
  {
    hide Do;
    if a.Register? && a.ok {
      RegisterSlots(s, a.w);
    } else if Hooks(a) {
      HookStages(s, a);
    } else if a.Begin? {
      BeginKeeps(s, a.w);
    } else if a.Expire2? {
      CancelKeeps(s, a.w, a.ok);
    } else if a.Trigger? || a.SubmitWaiter? || a.GrowSlots? {
      SlotsAdded(s, a);
    } else {
      Untouched(s, a);
    }
  }

  lemma SlotsAdded(s: Runtime, a: Action)
    requires Can(s, a) && (a.Trigger? || a.SubmitWaiter? || a.GrowSlots?)
    ensures forall i :: |s.slots| <= i < |Do(s, a).slots| ==> Do(s, a).slots[i] == None
  {
    hide Enqueue;
    if a.Trigger? {
      EnqueuedFibers(s.(slots := s.slots[a.slot := None]), WaiterJob(s.slots[a.slot].value), ANYWHERE);
    }
  }

  lemma MarkedBy(s: Runtime, c: nat)
    requires Timed(s) && c < |s.calls|
    ensures s.calls[c].stage.Marked? ==>
              s.calls[c].stage.fiber < |s.fibers| && s.fibers[s.calls[c].stage.fiber].pc == Expiring(c)
  {
    assert StageFits(s, c);
  }

  /** Then only the world outside of the call ends the wait: an event on the slot, or the cancelEvent of
      another call on it. */
  lemma OthersWake(s: Runtime, a: Action, f: nat, c: nat)
    requires Reachable(s) && Can(s, a) && Lost(s, f, c)
    ensures || Lost(Do(s, a), f, c) || a == Trigger(s.calls[c].slot)
            || (a.Expire2? && PcOf(s, a.w).call != c && Cancels(s, a.w, a.ok, s.calls[c].slot))
  {
    hide Reachable, Timed, Protocol, Do, Can;
    ReachableTimed(s);
    var i := s.calls[c].slot;
    SlotSteps(s, a, i);
    StageSteps(s, a, c);
    CallKept(s, a, c);
    if Do(s, a).slots[i] == s.slots[i] {
      SameWait(s, a, i, f);
    } else if a.Expire2? {
      NotExpiring(s, s.workers[a.w].f);
    }
  }

  lemma NotExpiring(s: Runtime, g: nat)
    requires Timed(s) && g < |s.fibers|
    ensures s.fibers[g].pc.Expiring? ==>
              s.fibers[g].pc.call < |s.calls| && s.calls[s.fibers[g].pc.call].stage.Marked?
  {
    assert ExpiringFits(s, g);
  }

  /** The cancelEvent of the call wakes the fiber of its wait. */
  lemma TimeoutWakes(s: Runtime, w: nat, f: nat, c: nat)
    requires Can(s, Expire2(w, true)) && PcOf(s, w) == Expiring(c) && WaitsIn(s, f, c)
    ensures var t := Do(s, Expire2(w, true));
      t.slots[s.calls[c].slot] == None && t.queue == s.queue + [Task(RunFiber(f), ANYWHERE)]
  {
  }

  // ---------------------------------------------------------------- a run that loses a timeout

  /** Two workers, one fiber with one call, and the callback of its timer. */
  function Scene(queue: seq<Task>, v: Worker, w: Worker, fibers: seq<Thread>, slots: seq<Option<Waiter>>,
                 timers: seq<Timer>, calls: seq<Call>, active: int, idle: int): Runtime {
    Runtime(queue, [v, w], [false, false], fibers, slots, timers, calls, [], active, idle, false)
  }

  const CALLER: Task := Task(RunFiber(0), ANYWHERE)
  const TIMEOUT: Task := Task(RunCode(Expire(0)), ANYWHERE)

  function InCall(pc: Pc): Thread {
    Thread(RUNNING, pc, 1, 1, 1)
  }

  function OneCall(stage: Stage): seq<Call> {
    [Call(0, 0, true, stage, true)]
  }

  function OneTimer(live: bool, ran: bool): seq<Timer> {
    [Timer(Expire(0), Some(0), live, false, ran)]
  }

  function Callback(pc: Pc): Thread {
    Thread(RUNNING, pc, 0, 0, 0)
  }

  lemma CallerQueued()
    ensures Reachable(Scene([CALLER], Looking, Looking, [Thread(READY, Body, 1, 1, 0)], [None], [], [], 0, 0))
  {
    hide Reachable;
    var s := Init(2);
    Begins(2);
    ReachableStep(s, GrowSlots);
    var s1 := Scene([], Looking, Looking, [], [None], [], [], 0, 0);
    assert s.workers == [Looking, Looking] && s.ended == [false, false];
    assert Do(s, GrowSlots) == s1;
    ReachableStep(s1, SubmitFiber(ANYWHERE));
    assert Do(s1, SubmitFiber(ANYWHERE)) ==
           Scene([CALLER], Looking, Looking, [Thread(READY, Body, 1, 1, 0)], [None], [], [], 0, 0);
  }

  /** A fiber is on worker 0 ... */
  lemma CallerRuns()
    ensures Reachable(Scene([], Running(0), Looking, [InCall(Body)], [None], [], [], 1, 0))
  {
    hide Reachable;
    CallerQueued();
    var s2 := Scene([CALLER], Looking, Looking, [Thread(READY, Body, 1, 1, 0)], [None], [], [], 0, 0);
    FetchFirst(s2, 0);
    ReachableStep(s2, Fetch(0));
    var s3 := Scene([], Hand(CALLER), Looking, s2.fibers, [None], [], [], 1, 0);
    assert Do(s2, Fetch(0)) == s3;
    ReachableStep(s3, Resume(0));
    assert Do(s3, Resume(0)) == Scene([], Running(0), Looking, [InCall(Body)], [None], [], [], 1, 0);
  }

  lemma FetchFirst(s: Runtime, w: nat)
    requires |s.queue| == 1 && w < |s.workers| && RuntimeState.Eligible(s.queue[0], w, s.fibers)
    ensures FetchTask(s, w) == s.(queue := [], workers := s.workers[w := Hand(s.queue[0])], active := s.active + 1)
  {
    assert FirstEligible(s.queue, w, s.fibers) == 0;
    assert s.queue[..0] + s.queue[1..] == [];
  }

  /** ... it sets the timer of a call, which an idle worker collects at once ... */
  lemma TimerCollected()
    ensures Reachable(Scene([], Running(0), Dozing([Expire(0)]), [InCall(Armed(0, Some(0)))], [None],
                            OneTimer(false, false), OneCall(Unmarked), 1, 1))
  {
    hide Reachable;
    CallerRuns();
    var s := Scene([], Running(0), Looking, [InCall(Body)], [None], [], [], 1, 0);
    ReachableStep(s, OpenCall(0, 0, true));
    var s1 := Scene([], Running(0), Looking, [InCall(Trying(0))], [None], [], OneCall(Unmarked), 1, 0);
    assert Do(s, OpenCall(0, 0, true)) == s1;
    ReachableStep(s1, Try(0, true));
    var s2 := Scene([], Running(0), Looking, [InCall(Armed(0, Some(0)))], [None], OneTimer(true, false), OneCall(Unmarked), 1, 0);
    assert Do(s1, Try(0, true)) == s2;
    ReachableStep(s2, Fetch(1));
    var s3 := s2.(workers := [Running(0), Dozing([])], idle := 1);
    assert Do(s2, Fetch(1)) == s3;
    ReachableStep(s3, Collect(1, 0));
    assert [] + [Expire(0)] == [Expire(0)];
    assert Do(s3, Collect(1, 0)) == Scene([], Running(0), Dozing([Expire(0)]), s2.fibers, [None],
                                          OneTimer(false, false), OneCall(Unmarked), 1, 1);
  }

  lemma TimeoutQueued()
    ensures Reachable(Scene([TIMEOUT], Running(0), Looking, [InCall(Armed(0, Some(0)))], [None],
                            OneTimer(false, false), OneCall(Unmarked), 1, 0))
  {
    hide Reachable;
    TimerCollected();
    var fibers := [InCall(Armed(0, Some(0)))];
    var timers, calls := OneTimer(false, false), OneCall(Unmarked);
    var s := Scene([], Running(0), Dozing([Expire(0)]), fibers, [None], timers, calls, 1, 1);
    ReachableStep(s, Pass(1));
    assert [Expire(0)][1..] == [];
    var s1 := Scene([TIMEOUT], Running(0), Dozing([]), fibers, [None], timers, calls, 1, 1);
    assert Do(s, Pass(1)) == s1;
    ReachableStep(s1, WakeUp(1));
    assert Do(s1, WakeUp(1)) == Scene([TIMEOUT], Running(0), Looking, fibers, [None], timers, calls, 1, 0);
  }

  lemma TimeoutFetched()
    ensures Reachable(Scene([], Running(0), Hand(TIMEOUT), [InCall(Armed(0, Some(0)))], [None],
                            OneTimer(false, false), OneCall(Unmarked), 2, 0))
  {
    hide Reachable;
    TimeoutQueued();
    var fibers := [InCall(Armed(0, Some(0)))];
    var timers, calls := OneTimer(false, false), OneCall(Unmarked);
    var s := Scene([TIMEOUT], Running(0), Looking, fibers, [None], timers, calls, 1, 0);
    FetchFirst(s, 1);
    ReachableStep(s, Fetch(1));
    assert Do(s, Fetch(1)) == Scene([], Running(0), Hand(TIMEOUT), fibers, [None], timers, calls, 2, 0);
  }

  /** ... and runs ... */
  lemma TimeoutStarts()
    ensures Reachable(Scene([], Running(0), Running(1), [InCall(Armed(0, Some(0))), Callback(Start(Expire(0)))], [None],
                            OneTimer(false, false), OneCall(Unmarked), 2, 0))
  {
    hide Reachable;
    TimeoutFetched();
    var fibers := [InCall(Armed(0, Some(0)))];
    var timers, calls := OneTimer(false, false), OneCall(Unmarked);
    var s := Scene([], Running(0), Hand(TIMEOUT), fibers, [None], timers, calls, 2, 0);
    ReachableStep(s, Resume(1));
    var both := [InCall(Armed(0, Some(0))), Callback(Start(Expire(0)))];
    assert fibers + [Callback(Start(Expire(0)))] == both;
    assert Do(s, Resume(1)) == Scene([], Running(0), Running(1), both, [None], timers, calls, 2, 0);
  }

  /** The state at the end. */
  function LostScene(): Runtime {
    Scene([], Back, Running(1), [Thread(READY, Waiting(0, Some(0)), 2, 1, 1), Callback(Ending)], [Some(FiberWaiter(0))],
          OneTimer(false, true), OneCall(Spent(0)), 2, 0)
  }

  /** ... before addEvent: its cancelEvent finds nothing, and the fiber waits with no timeout to come. */
  lemma TimeoutLost()
    ensures Reachable(LostScene()) && Lost(LostScene(), 0, 0) && !Coming(LostScene(), 0)
  {
    hide Reachable, Coming;
    TimeoutStarts();
    var s := Scene([], Running(0), Running(1), [InCall(Armed(0, Some(0))), Callback(Start(Expire(0)))], [None],
                   OneTimer(false, false), OneCall(Unmarked), 2, 0);
    ReachableStep(s, Begin(1));
    var s1 := Scene([], Running(0), Running(1), [InCall(Armed(0, Some(0))), Callback(Expiring(0))], [None],
                    OneTimer(false, true), OneCall(Marked(0, 1)), 2, 0);
    assert Do(s, Begin(1)) == s1;
    ReachableStep(s1, Expire2(1, true));
    var s2 := Scene([], Running(0), Running(1), [InCall(Armed(0, Some(0))), Callback(Ending)], [None],
                    OneTimer(false, true), OneCall(Spent(0)), 2, 0);
    assert Do(s1, Expire2(1, true)) == s2;
    ReachableStep(s2, Register(0, true));
    var s3 := s2.(fibers := [Thread(RUNNING, Waiting(0, Some(0)), 2, 1, 1), Callback(Ending)], slots := [Some(FiberWaiter(0))]);
    assert Do(s2, Register(0, true)) == s3;
    ReachableStep(s3, Yield(0));
    assert Do(s3, Yield(0)) == LostScene();
    TimeoutComing(LostScene(), 0, 0);
  }
}
