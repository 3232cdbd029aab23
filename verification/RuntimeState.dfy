/** The fiber runtime as a transition system: workers, the queue of tasks, fibers, event slots, timers and
    hooked I/O calls, one step for every region that a lock protects. */
module RuntimeState {
  import opened Bytes
  import opened Scheduling

  const ANYWHERE: int := ANY_THREAD

  // ---------------------------------------------------------------- state

  /** What a callback does: user code, the schedule of a sleeping fiber, or the timeout that a timer is of
      its call. */
  datatype Code = User(k: nat) | Wake(f: nat) | Expire(timer: nat)

  datatype Job = RunFiber(f: nat) | RunCode(code: Code)

  datatype Task = Task(job: Job, thread: int)

  /** Where a fiber is in its code. */
  datatype Pc =
    | Start(code: Code)                       // a callback fiber that has not begun
    | Body                                    // user code
    | Parking                                 // has handed itself over and yields next, or has yielded
    | Trying(call: nat)                       // in do_io, before the system call
    | Armed(call: nat, timer: Option<nat>)    // would block; the timer is set, the event is not
    | Waiting(call: nat, timer: Option<nat>)  // the event is set; yields next, or has yielded
    | Woken(call: nat, timer: Option<nat>)    // back from the yield
    | Judging(call: nat)                      // the timer is cancelled, the verdict is not read
    | Expiring(call: nat)                     // a timeout that has marked its call as cancelled
    | Ending                                  // a callback that has done its work

  /** parks, wakes and resumes are the history: how often the fiber handed itself over, was put in
      the queue, and was resumed. */
  datatype Thread = Thread(state: State, pc: Pc, parks: nat, wakes: nat, resumes: nat) {
    /** The fiber has handed itself over, or waits to be run: somebody owes it a resume. */
    predicate Due() {
      state.READY? || (state.RUNNING? && (pc.Parking? || pc.Waiting?))
    }
  }

  datatype Worker =
    | Looking                  // about to search the queue
    | Hand(task: Task)         // has taken a task
    | Running(f: nat)          // in a fiber
    | Back                     // the fiber came back, the worker still counts as active
    | Dozing(todo: seq<Code>)  // in the idle fiber, with expired callbacks not yet scheduled
    | Gone                     // run() has returned

  datatype Waiter = FiberWaiter(f: nat) | CodeWaiter(code: Code)

  /** A timer is live while it is set; call is the one whose timeout it is. The history: it was cut off by
      a cancel while it was set, or its callback has begun. */
  datatype Timer = Timer(code: Code, call: Option<nat>, live: bool, cut: bool, ran: bool) {
    /** Its callback is yet to begin, and will. */
    predicate Owed() {
      call.Some? && !cut && !ran
    }
  }

  /** How far the timeouts of a call have come: the callback of one of its timers, on a fiber of its own, has
      marked the call; or has also made its cancelEvent. */
  datatype Stage = Unmarked | Marked(timer: nat, fiber: nat) | Spent(timer: nat)

  /** A call of do_io; it is open until it returns. */
  datatype Call = Call(owner: nat, slot: nat, timed: bool, stage: Stage, open: bool) {
    /** timer_info */
    predicate Cancelled() {
      !stage.Unmarked?
    }
  }

  datatype Runtime = Runtime(
    queue: seq<Task>,
    workers: seq<Worker>,
    ended: seq<bool>, // the worker's idle fiber has finished
    fibers: seq<Thread>,
    slots: seq<Option<Waiter>>,
    timers: seq<Timer>,
    calls: seq<Call>,
    runs: seq<nat>,   // how often each user callback was begun
    active: int,
    idle: int,
    stopped: bool)

  function Init(n: nat): Runtime {
    Runtime([], seq(n, _ => Looking), seq(n, _ => false), [], [], [], [], [], 0, 0, false)
  }

  // ---------------------------------------------------------------- the search of a worker

  predicate Eligible(task: Task, w: nat, fibers: seq<Thread>) {
    && (task.thread == ANYWHERE || task.thread == w)
    && !(task.job.RunFiber? && task.job.f < |fibers| && fibers[task.job.f].state == RUNNING)
  }

  /** The number of the first eligible task, or the length of the queue. */
  function FirstEligible(queue: seq<Task>, w: nat, fibers: seq<Thread>): (k: nat)
    ensures k <= |queue|
    ensures k < |queue| ==> Eligible(queue[k], w, fibers)
    ensures forall i :: 0 <= i < k ==> !Eligible(queue[i], w, fibers)
  {
    if queue == [] || Eligible(queue[0], w, fibers) then 0 else 1 + FirstEligible(queue[1..], w, fibers)
  }

  // ---------------------------------------------------------------- steps

  datatype Action =
    // the world outside the workers, and user code on them
    | Submit(thread: int)                 // schedule of a user callback
    | SubmitFiber(thread: int)            // schedule of a new fiber
    | SubmitTimer                         // addTimer with a user callback
    | SubmitWaiter(slot: nat)             // addEvent with a user callback
    | GrowSlots
    | Trigger(slot: nat)                  // cancelEvent, cancelAll, or delivery by an idle worker
    | Stop
    // a worker
    | Fetch(w: nat)
    | Resume(w: nat)
    | Release(w: nat)
    // the fiber on a worker
    | Begin(w: nat)
    | Expire2(w: nat, ok: bool)
    | Sleep(w: nat)
    | Requeue(w: nat, thread: int)
    | OpenCall(w: nat, slot: nat, timed: bool)
    | Try(w: nat, again: bool)
    | Register(w: nat, ok: bool)
    | Yield(w: nat)
    | Disarm(w: nat)
    | Judge(w: nat)
    | Finish(w: nat)
    // the idle fiber of a worker
    | Collect(w: nat, timer: nat)
    | Pass(w: nat)
    | WakeUp(w: nat)
    | Leave(w: nat)

  /** The worker runs a fiber, and the fiber is running. */
  predicate OnCpu(s: Runtime, w: nat) {
    && w < |s.workers| && s.workers[w].Running? && s.workers[w].f < |s.fibers|
    && s.fibers[s.workers[w].f].state.RUNNING?
  }

  function PcOf(s: Runtime, w: nat): Pc
    requires OnCpu(s, w)
  {
    s.fibers[s.workers[w].f].pc
  }

  predicate IsDozing(s: Runtime, w: nat) {
    w < |s.workers| && s.workers[w].Dozing?
  }

  /** Scheduler::stopping */
  predicate Stopping(s: Runtime) {
    s.stopped && s.queue == [] && s.active == 0
  }

  /** When a step can be taken. */
  predicate Can(s: Runtime, a: Action) {
    match a
    case Submit(_) => true
    case SubmitFiber(_) => true
    case SubmitTimer => true
    case SubmitWaiter(i) => i < |s.slots| && s.slots[i] == None
    case GrowSlots => true
    case Trigger(i) => i < |s.slots| && s.slots[i].Some?
    case Stop => true
    case Fetch(w) => w < |s.workers| && s.workers[w].Looking?
    case Resume(w) => w < |s.workers| && s.workers[w].Hand?
    case Release(w) => w < |s.workers| && s.workers[w].Back?
    case Begin(w) => OnCpu(s, w) && PcOf(s, w).Start?
    case Expire2(w, _) => OnCpu(s, w) && PcOf(s, w).Expiring?
    case Sleep(w) => OnCpu(s, w) && PcOf(s, w).Body?
    case Requeue(w, _) => OnCpu(s, w) && PcOf(s, w).Body?
    case OpenCall(w, _, _) => OnCpu(s, w) && PcOf(s, w).Body?
    case Try(w, _) => OnCpu(s, w) && PcOf(s, w).Trying?
    case Register(w, ok) =>
      OnCpu(s, w) && PcOf(s, w).Armed? &&
      (ok ==> PcOf(s, w).call < |s.calls| && s.calls[PcOf(s, w).call].slot < |s.slots|
              && s.slots[s.calls[PcOf(s, w).call].slot] == None)
    case Yield(w) => OnCpu(s, w) && (PcOf(s, w).Parking? || PcOf(s, w).Waiting?)
    case Disarm(w) => OnCpu(s, w) && PcOf(s, w).Woken?
    case Judge(w) => OnCpu(s, w) && PcOf(s, w).Judging?
    case Finish(w) => OnCpu(s, w) && (PcOf(s, w).Body? || PcOf(s, w).Ending?)
    case Collect(w, t) => IsDozing(s, w) && t < |s.timers| && s.timers[t].live
    case Pass(w) => IsDozing(s, w) && s.workers[w].todo != []
    case WakeUp(w) => IsDozing(s, w) && s.workers[w].todo == []
    case Leave(w) => IsDozing(s, w) && s.workers[w].todo == [] && Stopping(s)
  }

  // ---------------------------------------------------------------- what a step does

  /** schedule: a task goes to the end of the queue; a fiber counts as woken. */
  function Enqueue(s: Runtime, job: Job, thread: int): Runtime {
    var t := s.(queue := s.queue + [Task(job, thread)]);
    if job.RunFiber? && job.f < |s.fibers|
    then t.(fibers := s.fibers[job.f := s.fibers[job.f].(wakes := s.fibers[job.f].wakes + 1)])
    else t
  }

  /** What the scheduler is to do for a waiter. */
  function WaiterJob(w: Waiter): Job {
    match w
    case FiberWaiter(f) => RunFiber(f)
    case CodeWaiter(code) => RunCode(code)
  }

  /** triggerEvent on an occupied slot. */
  function Unpark(s: Runtime, i: nat): Runtime
    requires i < |s.slots| && s.slots[i].Some?
  {
    Enqueue(s.(slots := s.slots[i := None]), WaiterJob(s.slots[i].value), ANYWHERE)
  }

  function SetPc(s: Runtime, f: nat, pc: Pc): Runtime
    requires f < |s.fibers|
  {
    s.(fibers := s.fibers[f := s.fibers[f].(pc := pc)])
  }

  /** A fiber hands itself over: it yields next. */
  function Park(s: Runtime, f: nat, pc: Pc): Runtime
    requires f < |s.fibers|
  {
    s.(fibers := s.fibers[f := s.fibers[f].(pc := pc, parks := s.fibers[f].parks + 1)])
  }

  /** Timer::cancel */
  function CancelTimer(s: Runtime, timer: Option<nat>): Runtime {
    if timer.Some? && timer.value < |s.timers|
    then s.(timers := s.timers[timer.value := CutOff(s.timers[timer.value])])
    else s
  }

  function CutOff(t: Timer): Timer {
    t.(live := false, cut := t.cut || t.live)
  }

  function CloseCall(s: Runtime, c: nat): Runtime {
    if c < |s.calls| then s.(calls := s.calls[c := s.calls[c].(open := false)]) else s
  }

  /** The fiber is on the worker; what it was waiting for is over. */
  function Resumed(t: Thread): Thread {
    t.(state := RUNNING, resumes := t.resumes + 1,
       pc := match t.pc
             case Parking => Body
             case Waiting(c, timer) => Woken(c, timer)
             case _ => t.pc)
  }

  /** A callback fiber begins: user code runs, a sleeper is scheduled, and a timeout marks its call
      unless the call is over or already marked. */
  function BeginCode(s: Runtime, f: nat, code: Code): Runtime
    requires f < |s.fibers|
  {
    match code
    case User(k) =>
      var t := SetPc(s, f, Body);
      if k < |s.runs| then t.(runs := s.runs[k := s.runs[k] + 1]) else t
    case Wake(g) => Enqueue(SetPc(s, f, Ending), RunFiber(g), ANYWHERE)
    case Expire(t) =>
      if t < |s.timers| && s.timers[t].call.Some? then ExpireTimer(s, f, t, s.timers[t].call.value) else SetPc(s, f, Ending)
  }

  /** The first half of a timeout. */
  function ExpireTimer(s: Runtime, f: nat, t: nat, c: nat): Runtime
    requires f < |s.fibers| && t < |s.timers|
  {
    var u := s.(timers := s.timers[t := s.timers[t].(ran := true)]);
    if c < |s.calls| && s.calls[c].open && !s.calls[c].Cancelled()
    then SetPc(u, f, Expiring(c)).(calls := s.calls[c := s.calls[c].(stage := Marked(t, f))])
    else SetPc(u, f, Ending)
  }

  /** The locked part of run: the first eligible task, or else the idle fiber while it lasts. */
  function FetchTask(s: Runtime, w: nat): Runtime
    requires w < |s.workers|
  {
    var k := FirstEligible(s.queue, w, s.fibers);
    if k < |s.queue|
    then s.(queue := s.queue[..k] + s.queue[k + 1..], workers := s.workers[w := Hand(s.queue[k])], active := s.active + 1)
    else if w < |s.ended| && s.ended[w] then s.(workers := s.workers[w := Gone])
    else s.(workers := s.workers[w := Dozing([])], idle := s.idle + 1)
  }

  /** A fiber is resumed, or a new one for a callback. */
  function ResumeJob(s: Runtime, w: nat, job: Job): Runtime
    requires w < |s.workers|
  {
    match job
    case RunFiber(f) =>
      var t := s.(workers := s.workers[w := Running(f)]);
      if f < |s.fibers| then t.(fibers := s.fibers[f := Resumed(s.fibers[f])]) else t
    case RunCode(code) =>
      s.(workers := s.workers[w := Running(|s.fibers|)],
         fibers := s.fibers + [Thread(RUNNING, Start(code), 0, 0, 0)])
  }

  /** The fiber gives the worker back. */
  function SwapOut(s: Runtime, w: nat, f: nat, state: State): Runtime
    requires w < |s.workers| && f < |s.fibers|
  {
    s.(workers := s.workers[w := Back], fibers := s.fibers[f := s.fibers[f].(state := state)])
  }

  /** The second half of a timeout: cancelEvent, if the event is still set and epoll_ctl succeeds. */
  function CancelWait(s: Runtime, f: nat, c: nat, ok: bool): Runtime
    requires f < |s.fibers|
  {
    var t := SpendCall(SetPc(s, f, Ending), c);
    if ok && c < |s.calls| && s.calls[c].slot < |s.slots| && s.slots[s.calls[c].slot].Some?
    then Unpark(t, s.calls[c].slot) else t
  }

  function SpendCall(s: Runtime, c: nat): Runtime {
    if c < |s.calls| && s.calls[c].stage.Marked?
    then s.(calls := s.calls[c := s.calls[c].(stage := Spent(s.calls[c].stage.timer))]) else s
  }

  function Timeout(c: nat, t: nat): Timer {
    Timer(Expire(t), Some(c), true, false, false)
  }

  /** A timer that is no timeout. */
  function Alarm(code: Code): Timer {
    Timer(code, None, true, false, false)
  }

  /** The system call of do_io: it is over, or would block and a timer may be due. */
  function TryCall(s: Runtime, f: nat, c: nat, again: bool): Runtime
    requires f < |s.fibers|
  {
    if !again then CloseCall(SetPc(s, f, Body), c)
    else if c < |s.calls| && s.calls[c].timed
    then SetPc(s, f, Armed(c, Some(|s.timers|))).(timers := s.timers + [Timeout(c, |s.timers|)])
    else SetPc(s, f, Armed(c, None))
  }

  /** addEvent of do_io: the fiber is in the slot, or the call fails. */
  function RegisterEvent(s: Runtime, f: nat, c: nat, timer: Option<nat>, ok: bool): Runtime
    requires f < |s.fibers| && (ok ==> c < |s.calls| && s.calls[c].slot < |s.slots|)
  {
    if ok then Park(s, f, Waiting(c, timer)).(slots := s.slots[s.calls[c].slot := Some(FiberWaiter(f))])
    else CloseCall(CancelTimer(SetPc(s, f, Body), timer), c)
  }

  /** Back from the wait: time out, or try again. */
  function JudgeCall(s: Runtime, f: nat, c: nat): Runtime
    requires f < |s.fibers|
  {
    if c < |s.calls| && !s.calls[c].Cancelled() then SetPc(s, f, Trying(c)) else CloseCall(SetPc(s, f, Body), c)
  }

  /** listExpiredCb takes a timer that is due. */
  function CollectTimer(s: Runtime, w: nat, t: nat): Runtime
    requires IsDozing(s, w) && t < |s.timers|
  {
    s.(workers := s.workers[w := Dozing(s.workers[w].todo + [s.timers[t].code])],
       timers := s.timers[t := s.timers[t].(live := false)])
  }

  /** The idle fiber schedules what it has collected. */
  function PassOn(s: Runtime, w: nat): Runtime
    requires IsDozing(s, w) && s.workers[w].todo != []
  {
    Enqueue(s.(workers := s.workers[w := Dozing(s.workers[w].todo[1..])]), RunCode(s.workers[w].todo[0]), ANYWHERE)
  }

  function OpenNewCall(s: Runtime, f: nat, slot: nat, timed: bool): Runtime
    requires f < |s.fibers|
  {
    SetPc(s, f, Trying(|s.calls|)).(calls := s.calls + [Call(f, slot, timed, Unmarked, true)])
  }

  function Do(s: Runtime, a: Action): Runtime
    requires Can(s, a)
  {
    match a
    case Submit(thread) => Enqueue(s.(runs := s.runs + [0]), RunCode(User(|s.runs|)), thread)
    case SubmitFiber(thread) =>
      Enqueue(s.(fibers := s.fibers + [Thread(READY, Body, 1, 0, 0)]), RunFiber(|s.fibers|), thread)
    case SubmitTimer => s.(runs := s.runs + [0], timers := s.timers + [Alarm(User(|s.runs|))])
    case SubmitWaiter(i) => s.(runs := s.runs + [0], slots := s.slots[i := Some(CodeWaiter(User(|s.runs|)))])
    case GrowSlots => s.(slots := s.slots + [None])
    case Trigger(i) => Unpark(s, i)
    case Stop => s.(stopped := true)
    case Fetch(w) => FetchTask(s, w)
    case Resume(w) => ResumeJob(s, w, s.workers[w].task.job)
    case Release(w) => s.(workers := s.workers[w := Looking], active := s.active - 1)
    case Begin(w) => BeginCode(s, s.workers[w].f, PcOf(s, w).code)
    case Expire2(w, ok) => CancelWait(s, s.workers[w].f, PcOf(s, w).call, ok)
    case Sleep(w) => Park(s, s.workers[w].f, Parking).(timers := s.timers + [Alarm(Wake(s.workers[w].f))])
    case Requeue(w, thread) => Enqueue(Park(s, s.workers[w].f, Parking), RunFiber(s.workers[w].f), thread)
    case OpenCall(w, slot, timed) => OpenNewCall(s, s.workers[w].f, slot, timed)
    case Try(w, again) => TryCall(s, s.workers[w].f, PcOf(s, w).call, again)
    case Register(w, ok) => RegisterEvent(s, s.workers[w].f, PcOf(s, w).call, PcOf(s, w).timer, ok)
    case Yield(w) => SwapOut(s, w, s.workers[w].f, READY)
    case Disarm(w) => CancelTimer(SetPc(s, s.workers[w].f, Judging(PcOf(s, w).call)), PcOf(s, w).timer)
    case Judge(w) => JudgeCall(s, s.workers[w].f, PcOf(s, w).call)
    case Finish(w) => SwapOut(s, w, s.workers[w].f, TERM)
    case Collect(w, t) => CollectTimer(s, w, t)
    case Pass(w) => PassOn(s, w)
    case WakeUp(w) => s.(workers := s.workers[w := Looking], idle := s.idle - 1)
    case Leave(w) =>
      s.(workers := s.workers[w := Looking], idle := s.idle - 1,
         ended := if w < |s.ended| then s.ended[w := true] else s.ended)
  }

  /** A run: every step is taken from where the one before it led. */
  predicate CanRun(s: Runtime, run: seq<Action>)
    decreases |run|
  {
    run == [] || (Can(s, run[0]) && CanRun(Do(s, run[0]), run[1..]))
  }

  function Run(s: Runtime, run: seq<Action>): Runtime
    requires CanRun(s, run)
    decreases |run|
  {
    if run == [] then s else Run(Do(s, run[0]), run[1..])
  }

  lemma RunFirst(s: Runtime, a: Action, rest: seq<Action>)
    requires Can(s, a) && CanRun(Do(s, a), rest)
    ensures CanRun(s, [a] + rest) && Run(s, [a] + rest) == Run(Do(s, a), rest)
  {
    hide Can, Do;
    assert ([a] + rest)[0] == a && ([a] + rest)[1..] == rest;
  }
}
