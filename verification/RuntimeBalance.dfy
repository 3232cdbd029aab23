/** Every step of the runtime keeps the balance of tokens: nobody is woken twice for one wait, and
    nobody who waits is forgotten. */
module RuntimeBalance {
  import opened Bytes
  import opened Scheduling
  import opened Sums
  import opened RuntimeState
  import opened RuntimeTokens

  // ---------------------------------------------------------------- what the balance rests on

  /** A fiber in a worker's hand is ready. */
  ghost predicate HandReady(s: Runtime) {
    forall w :: 0 <= w < |s.workers| && s.workers[w].Hand? && s.workers[w].task.job.RunFiber? ==>
      var f := s.workers[w].task.job.f; f < |s.fibers| && s.fibers[f].state.READY?
  }

  function TimerOf(pc: Pc): Option<nat> {
    match pc
    case Armed(_, t) => t
    case Waiting(_, t) => t
    case Woken(_, t) => t
    case _ => None
  }

  function CallOf(pc: Pc): Option<nat> {
    match pc
    case Trying(c) => Some(c)
    case Armed(c, _) => Some(c)
    case Waiting(c, _) => Some(c)
    case Woken(c, _) => Some(c)
    case Judging(c) => Some(c)
    case _ => None
  }

  /** The timer a call remembers is a timeout of that call. */
  ghost predicate OwnTimer(s: Runtime, pc: Pc) {
    TimerOf(pc).Some? ==>
      && TimerOf(pc).value < |s.timers| && CallOf(pc).Some?
      && s.timers[TimerOf(pc).value].code == Expire(TimerOf(pc).value)
      && s.timers[TimerOf(pc).value].call == CallOf(pc)
  }

  ghost predicate OwnTimers(s: Runtime) {
    forall f :: 0 <= f < |s.fibers| ==> OwnTimer(s, s.fibers[f].pc)
  }

  // ---------------------------------------------------------------- compound changes

  lemma Enqueued(s: Runtime, job: Job, thread: int, x: Token)
    ensures var t := Enqueue(s, job, thread);
      && Pending(t, x) == Pending(s, x) + JobPending(job, x)
      && Ready(t, x) == Ready(s, x) + JobReady(job, x)
      && Cpu(t, x) == Cpu(s, x)
  {
    hide Pending, Ready, Cpu, JobPending, JobReady;
    var t := s.(queue := s.queue + [Task(job, thread)]);
    QueuePush(s, Task(job, thread), x);
    if job.RunFiber? && job.f < |s.fibers| {
      FiberSet(t, job.f, s.fibers[job.f].(wakes := s.fibers[job.f].wakes + 1), x);
    }
  }

  /** What enqueueing does to the fibers. */
  lemma EnqueuedFibers(s: Runtime, job: Job, thread: int)
    ensures var t := Enqueue(s, job, thread);
      && |t.fibers| == |s.fibers| && t.runs == s.runs && t.workers == s.workers && t.timers == s.timers
      && t.calls == s.calls && t.slots == s.slots
      && forall f :: 0 <= f < |s.fibers| ==>
           && t.fibers[f].state == s.fibers[f].state && t.fibers[f].pc == s.fibers[f].pc
           && t.fibers[f].parks == s.fibers[f].parks && t.fibers[f].resumes == s.fibers[f].resumes
           && t.fibers[f].wakes == s.fibers[f].wakes + if job == RunFiber(f) then 1 else 0
  {
  }

  /** A waiter that leaves its slot for the queue. */
  lemma Unparked(s: Runtime, i: nat, x: Token)
    requires i < |s.slots| && s.slots[i].Some? && Balanced(s, x)
    ensures Balanced(Unpark(s, i), x)
  {
    hide Pending, Ready, Cpu, Enqueue;
    var job := WaiterJob(s.slots[i].value);
    var t := s.(slots := s.slots[i := None]);
    SlotSet(s, i, None, x);
    Enqueued(t, job, ANYWHERE, x);
    EnqueuedFibers(t, job, ANYWHERE);
  }

  /** A change of place that neither starts nor ends a wait. */
  lemma Moved(s: Runtime, f: nat, pc: Pc, x: Token)
    requires f < |s.fibers| && Balanced(s, x) && s.fibers[f].state.RUNNING?
    requires !s.fibers[f].pc.Start? && !pc.Start?
    requires !(s.fibers[f].pc.Parking? || s.fibers[f].pc.Waiting?) && !(pc.Parking? || pc.Waiting?)
    ensures Balanced(SetPc(s, f, pc), x)
  {
    hide Pending, Ready, Cpu;
    FiberSet(s, f, s.fibers[f].(pc := pc), x);
  }

  /** Calls hold no token. */
  lemma CallsAside(s: Runtime, t: Runtime, x: Token)
    requires t == s.(calls := t.calls) && Balanced(s, x)
    ensures Balanced(t, x)
  {
    hide Pending, Ready, Cpu;
    Elsewhere(s, t, x);
  }

  /** A timeout that is cancelled takes its own token with it, and no other. */
  lemma TimerCancelled(s: Runtime, timer: Option<nat>, x: Token)
    requires Balanced(s, x)
    requires timer.Some? ==> timer.value < |s.timers| && s.timers[timer.value].code == Expire(timer.value)
    ensures Balanced(CancelTimer(s, timer), x)
  {
    hide Pending, Ready, Cpu;
    if timer.Some? {
      TimerSet(s, timer.value, CutOff(s.timers[timer.value]), x);
    }
  }

  // ---------------------------------------------------------------- steps of the world

  lemma SubmitBalance(s: Runtime, thread: int, x: Token)
    requires Balanced(s, x)
    ensures Balanced(Do(s, Submit(thread)), x)
  {
    hide Pending, Ready, Cpu, Enqueue;
    var t := s.(runs := s.runs + [0]);
    Elsewhere(s, t, x);
    Enqueued(t, RunCode(User(|s.runs|)), thread, x);
    EnqueuedFibers(t, RunCode(User(|s.runs|)), thread);
  }

  lemma SubmitFiberBalance(s: Runtime, thread: int, x: Token)
    requires Balanced(s, x)
    ensures Balanced(Do(s, SubmitFiber(thread)), x)
  {
    hide Pending, Ready, Cpu, Enqueue;
    var g := Thread(READY, Body, 1, 0, 0);
    var t := s.(fibers := s.fibers + [g]);
    FiberPush(s, g, x);
    Enqueued(t, RunFiber(|s.fibers|), thread, x);
    EnqueuedFibers(t, RunFiber(|s.fibers|), thread);
  }

  lemma SubmitTimerBalance(s: Runtime, x: Token)
    requires Balanced(s, x)
    ensures Balanced(Do(s, SubmitTimer), x)
  {
    hide Pending, Ready, Cpu;
    var t := s.(runs := s.runs + [0]);
    Elsewhere(s, t, x);
    TimerPush(t, Alarm(User(|s.runs|)), x);
  }

  lemma SubmitWaiterBalance(s: Runtime, i: nat, x: Token)
    requires Can(s, SubmitWaiter(i)) && Balanced(s, x)
    ensures Balanced(Do(s, SubmitWaiter(i)), x)
  {
    hide Pending, Ready, Cpu;
    var t := s.(runs := s.runs + [0]);
    Elsewhere(s, t, x);
    SlotSet(t, i, Some(CodeWaiter(User(|s.runs|))), x);
  }

  // ---------------------------------------------------------------- steps of a worker

  lemma FetchBalance(s: Runtime, w: nat, x: Token)
    requires Can(s, Fetch(w)) && Balanced(s, x)
    ensures Balanced(Do(s, Fetch(w)), x)
  {
    hide Pending, Ready, Cpu, FirstEligible;
    var k := FirstEligible(s.queue, w, s.fibers);
    if k < |s.queue| {
      var t := s.(queue := s.queue[..k] + s.queue[k + 1..]);
      QueueRemove(s, k, x);
      WorkerSet(t, w, Hand(s.queue[k]), x);
      Elsewhere(t.(workers := t.workers[w := Hand(s.queue[k])]), Do(s, Fetch(w)), x);
    } else {
      var v := if w < |s.ended| && s.ended[w] then Gone else Dozing([]);
      WorkerSet(s, w, v, x);
      Elsewhere(s.(workers := s.workers[w := v]), Do(s, Fetch(w)), x);
    }
  }

  lemma ResumeBalance(s: Runtime, w: nat, x: Token)
    requires Can(s, Resume(w)) && HandReady(s) && Balanced(s, x)
    requires Balanced(s, OfFiber(|s.fibers|))
    ensures Balanced(Do(s, Resume(w)), x)
  {
    hide Pending, Ready, Cpu;
    InWorker(s, w, x);
    match s.workers[w].task.job
    case RunFiber(f) =>
      var t := s.(workers := s.workers[w := Running(f)]);
      WorkerSet(s, w, Running(f), x);
      FiberSet(t, f, Resumed(s.fibers[f]), x);
    case RunCode(code) =>
      var t, g := s.(workers := s.workers[w := Running(|s.fibers|)]), Thread(RUNNING, Start(code), 0, 0, 0);
      WorkerSet(s, w, Running(|s.fibers|), x);
      FiberPush(t, g, x);
      NewCodeFiber(s, w, code, x);
  }

  /** A fiber that is yet to be created is on nobody's list. */
  lemma NewCodeFiber(s: Runtime, w: nat, code: Code, x: Token)
    requires Can(s, Resume(w)) && s.workers[w].task.job == RunCode(code) && Balanced(s, OfFiber(|s.fibers|))
    ensures CodeWeight(code, OfFiber(|s.fibers|)) == 0
  {
    hide Pending, Ready, Cpu;
    InWorker(s, w, OfFiber(|s.fibers|));
  }

  /** A worker that changes between phases without a token. */
  lemma PhaseBalance(s: Runtime, w: nat, v: Worker, t: Runtime, x: Token)
    requires w < |s.workers| && Balanced(s, x)
    requires s.workers[w].Back? || s.workers[w] == Dozing([])
    requires v.Looking? || v.Gone?
    requires t == s.(workers := s.workers[w := v], active := t.active, idle := t.idle, ended := t.ended)
    ensures Balanced(t, x)
  {
    hide Pending, Ready, Cpu;
    WorkerSet(s, w, v, x);
    Elsewhere(s.(workers := s.workers[w := v]), t, x);
  }

  lemma SwapOutBalance(s: Runtime, w: nat, state: State, x: Token)
    requires OnCpu(s, w) && Balanced(s, x)
    requires state == if PcOf(s, w).Parking? || PcOf(s, w).Waiting? then READY else TERM
    ensures Balanced(SwapOut(s, w, s.workers[w].f, state), x)
  {
    hide Pending, Ready, Cpu;
    var f := s.workers[w].f;
    var t := s.(workers := s.workers[w := Back]);
    WorkerSet(s, w, Back, x);
    FiberSet(t, f, s.fibers[f].(state := state), x);
  }

  // ---------------------------------------------------------------- steps of a fiber

  lemma BeginBalance(s: Runtime, w: nat, x: Token)
    requires Can(s, Begin(w)) && Balanced(s, x)
    requires forall y: Token :: Balanced(s, y)
    ensures Balanced(Do(s, Begin(w)), x)
  {
    hide Pending, Ready, Cpu, Enqueue;
    var f := s.workers[w].f;
    InFiber(s, f, x);
    match PcOf(s, w).code
    case User(k) =>
      var t := SetPc(s, f, Body);
      FiberSet(s, f, s.fibers[f].(pc := Body), x);
      assert k < |s.runs| by {
        InFiber(s, f, OfCode(k));
        assert Balanced(s, OfCode(k));
      }
      Elsewhere(t, t.(runs := s.runs[k := s.runs[k] + 1]), x);
    case Wake(g) =>
      var t := SetPc(s, f, Ending);
      FiberSet(s, f, s.fibers[f].(pc := Ending), x);
      Enqueued(t, RunFiber(g), ANYWHERE, x);
      EnqueuedFibers(t, RunFiber(g), ANYWHERE);
    case Expire(t) => ExpireBalance(s, w, t, x);
  }

  /** The callback of a timeout that begins uses up its token. */
  lemma ExpireBalance(s: Runtime, w: nat, t: nat, x: Token)
    requires Can(s, Begin(w)) && PcOf(s, w).code == Expire(t) && Balanced(s, x) && Balanced(s, OfTimeout(t))
    ensures Balanced(Do(s, Begin(w)), x)
  {
    hide Pending, Ready, Cpu;
    var f := s.workers[w].f;
    InFiber(s, f, OfTimeout(t));
    InFiber(s, f, x);
    var u := s.(timers := s.timers[t := s.timers[t].(ran := true)]);
    TimerSet(s, t, s.timers[t].(ran := true), x);
    var pc := Do(s, Begin(w)).fibers[f].pc;
    FiberSet(u, f, u.fibers[f].(pc := pc), x);
    Elsewhere(SetPc(u, f, pc), Do(s, Begin(w)), x);
  }

  lemma CancelWaitBalance(s: Runtime, w: nat, ok: bool, x: Token)
    requires Can(s, Expire2(w, ok)) && Balanced(s, x)
    ensures Balanced(Do(s, Expire2(w, ok)), x)
  {
    hide Pending, Ready, Cpu, Unpark;
    var f, c := s.workers[w].f, PcOf(s, w).call;
    Moved(s, f, Ending, x);
    CallsAside(SetPc(s, f, Ending), SpendCall(SetPc(s, f, Ending), c), x);
    if ok && c < |s.calls| && s.calls[c].slot < |s.slots| && s.slots[s.calls[c].slot].Some? {
      Unparked(SpendCall(SetPc(s, f, Ending), c), s.calls[c].slot, x);
    }
  }

  /** A running fiber hands itself over to a place that owes it the resume. */
  lemma SleepBalance(s: Runtime, w: nat, x: Token)
    requires Can(s, Sleep(w)) && Balanced(s, x)
    ensures Balanced(Do(s, Sleep(w)), x)
  {
    hide Pending, Ready, Cpu;
    var f := s.workers[w].f;
    var t := Park(s, f, Parking);
    FiberSet(s, f, t.fibers[f], x);
    TimerPush(t, Alarm(Wake(f)), x);
  }

  lemma RequeueBalance(s: Runtime, w: nat, thread: int, x: Token)
    requires Can(s, Requeue(w, thread)) && Balanced(s, x)
    ensures Balanced(Do(s, Requeue(w, thread)), x)
  {
    hide Pending, Ready, Cpu, Enqueue;
    var f := s.workers[w].f;
    var t := Park(s, f, Parking);
    FiberSet(s, f, t.fibers[f], x);
    Enqueued(t, RunFiber(f), thread, x);
    EnqueuedFibers(t, RunFiber(f), thread);
  }

  lemma RegisterBalance(s: Runtime, w: nat, ok: bool, x: Token)
    requires Can(s, Register(w, ok)) && Balanced(s, x) && OwnTimers(s)
    ensures Balanced(Do(s, Register(w, ok)), x)
  {
    hide Pending, Ready, Cpu, CancelTimer, CloseCall;
    var f, pc := s.workers[w].f, PcOf(s, w);
    if ok {
      var t := Park(s, f, Waiting(pc.call, pc.timer));
      FiberSet(s, f, t.fibers[f], x);
      SlotSet(t, s.calls[pc.call].slot, Some(FiberWaiter(f)), x);
    } else {
      assert OwnTimer(s, s.fibers[f].pc);
      Moved(s, f, Body, x);
      TimerCancelled(SetPc(s, f, Body), pc.timer, x);
      Closed(CancelTimer(SetPc(s, f, Body), pc.timer), pc.call, x);
    }
  }

  lemma Closed(s: Runtime, c: nat, x: Token)
    requires Balanced(s, x)
    ensures Balanced(CloseCall(s, c), x)
  {
    hide Balanced;
    CallsAside(s, CloseCall(s, c), x);
  }

  lemma TryBalance(s: Runtime, w: nat, again: bool, x: Token)
    requires Can(s, Try(w, again)) && Balanced(s, x)
    ensures Balanced(Do(s, Try(w, again)), x)
  {
    hide Pending, Ready, Cpu, CloseCall;
    var f, c := s.workers[w].f, PcOf(s, w).call;
    if !again {
      Moved(s, f, Body, x);
      Closed(SetPc(s, f, Body), c, x);
    } else if c < |s.calls| && s.calls[c].timed {
      Moved(s, f, Armed(c, Some(|s.timers|)), x);
      TimerPush(SetPc(s, f, Armed(c, Some(|s.timers|))), Timeout(c, |s.timers|), x);
    } else {
      Moved(s, f, Armed(c, None), x);
    }
  }

  lemma DisarmBalance(s: Runtime, w: nat, x: Token)
    requires Can(s, Disarm(w)) && Balanced(s, x) && OwnTimers(s)
    ensures Balanced(Do(s, Disarm(w)), x)
  {
    hide Balanced, CancelTimer;
    var f := s.workers[w].f;
    assert OwnTimer(s, s.fibers[f].pc);
    Moved(s, f, Judging(PcOf(s, w).call), x);
    TimerCancelled(SetPc(s, f, Judging(PcOf(s, w).call)), PcOf(s, w).timer, x);
  }

  lemma JudgeBalance(s: Runtime, w: nat, x: Token)
    requires Can(s, Judge(w)) && Balanced(s, x)
    ensures Balanced(Do(s, Judge(w)), x)
  {
    hide Balanced, CloseCall;
    var f, c := s.workers[w].f, PcOf(s, w).call;
    if c < |s.calls| && !s.calls[c].Cancelled() {
      Moved(s, f, Trying(c), x);
    } else {
      Moved(s, f, Body, x);
      Closed(SetPc(s, f, Body), c, x);
    }
  }

  lemma OpenCallBalance(s: Runtime, w: nat, slot: nat, timed: bool, x: Token)
    requires Can(s, OpenCall(w, slot, timed)) && Balanced(s, x)
    ensures Balanced(Do(s, OpenCall(w, slot, timed)), x)
  {
    hide Balanced;
    var f := s.workers[w].f;
    Moved(s, f, Trying(|s.calls|), x);
    CallsAside(SetPc(s, f, Trying(|s.calls|)), Do(s, OpenCall(w, slot, timed)), x);
  }

  // ---------------------------------------------------------------- steps of an idle fiber

  lemma CollectBalance(s: Runtime, w: nat, i: nat, x: Token)
    requires Can(s, Collect(w, i)) && Balanced(s, x)
    ensures Balanced(Do(s, Collect(w, i)), x)
  {
    hide Pending, Ready, Cpu, Sum;
    var v := Dozing(s.workers[w].todo + [s.timers[i].code]);
    var t := s.(workers := s.workers[w := v]);
    WorkerSet(s, w, v, x);
    SumPush(s.workers[w].todo, s.timers[i].code, CodeIs(x));
    TimerSet(t, i, s.timers[i].(live := false), x);
  }

  lemma PassBalance(s: Runtime, w: nat, x: Token)
    requires Can(s, Pass(w)) && Balanced(s, x)
    ensures Balanced(Do(s, Pass(w)), x)
  {
    hide Pending, Ready, Cpu, Enqueue;
    var todo := s.workers[w].todo;
    var t := s.(workers := s.workers[w := Dozing(todo[1..])]);
    WorkerSet(s, w, Dozing(todo[1..]), x);
    Enqueued(t, RunCode(todo[0]), ANYWHERE, x);
    EnqueuedFibers(t, RunCode(todo[0]), ANYWHERE);
  }

  // ---------------------------------------------------------------- all steps

  /** Every step keeps every balance. */
  lemma StepBalance(s: Runtime, a: Action, x: Token)
    requires Can(s, a) && HandReady(s) && OwnTimers(s) && forall y: Token :: Balanced(s, y)
    ensures Balanced(Do(s, a), x)
  {
    hide Balanced, HandReady, OwnTimers, Unpark, FetchTask, ResumeJob, BeginCode, CancelWait, TryCall, RegisterEvent,
         JudgeCall, CollectTimer, PassOn, OpenNewCall, SwapOut, Enqueue, Park, SetPc, CancelTimer;
    assert Balanced(s, x) && Balanced(s, OfFiber(|s.fibers|));
    match a
    case Submit(thread) => SubmitBalance(s, thread, x);
    case SubmitFiber(thread) => SubmitFiberBalance(s, thread, x);
    case SubmitTimer => SubmitTimerBalance(s, x);
    case SubmitWaiter(i) => SubmitWaiterBalance(s, i, x);
    case GrowSlots => GrowBalance(s, x);
    case Trigger(i) => Unparked(s, i, x);
    case Stop => StopBalance(s, x);
    case Fetch(w) => FetchBalance(s, w, x);
    case Resume(w) => ResumeBalance(s, w, x);
    case Release(w) => PhaseBalance(s, w, Looking, Do(s, a), x);
    case Begin(w) => BeginBalance(s, w, x);
    case Expire2(w, ok) => CancelWaitBalance(s, w, ok, x);
    case Sleep(w) => SleepBalance(s, w, x);
    case Requeue(w, thread) => RequeueBalance(s, w, thread, x);
    case OpenCall(w, slot, timed) => OpenCallBalance(s, w, slot, timed, x);
    case Try(w, again) => TryBalance(s, w, again, x);
    case Register(w, ok) => RegisterBalance(s, w, ok, x);
    case Yield(w) => SwapOutBalance(s, w, READY, x);
    case Disarm(w) => DisarmBalance(s, w, x);
    case Judge(w) => JudgeBalance(s, w, x);
    case Finish(w) => SwapOutBalance(s, w, TERM, x);
    case Collect(w, i) => CollectBalance(s, w, i, x);
    case Pass(w) => PassBalance(s, w, x);
    case WakeUp(w) => PhaseBalance(s, w, Looking, Do(s, a), x);
    case Leave(w) => PhaseBalance(s, w, Looking, Do(s, a), x);
  }

  lemma GrowBalance(s: Runtime, x: Token)
    requires Balanced(s, x)
    ensures Balanced(Do(s, GrowSlots), x)
  {
    hide Pending, Ready, Cpu;
    SlotPush(s, x);
  }

  lemma StopBalance(s: Runtime, x: Token)
    requires Balanced(s, x)
    ensures Balanced(Do(s, Stop), x)
  {
    hide Pending, Ready, Cpu;
    Elsewhere(s, Do(s, Stop), x);
  }
}
