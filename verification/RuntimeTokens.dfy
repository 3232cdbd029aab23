/** Who owes a fiber its next resume, and a callback its run: tokens, and how every change of one
    part of the state moves them. */
module RuntimeTokens {
  import opened Bytes
  import opened Scheduling
  import opened Sums
  import opened RuntimeState

  /** A token stands for a fiber that is to be resumed, a user callback that is to be run, or the callback
      of a timeout. */
  datatype Token = OfFiber(f: nat) | OfCode(k: nat) | OfTimeout(t: nat)

  // ---------------------------------------------------------------- weights

  function CodeWeight(code: Code, x: Token): nat {
    match code
    case User(k) => if x == OfCode(k) then 1 else 0
    case Wake(f) => if x == OfFiber(f) then 1 else 0
    case Expire(t) => if x == OfTimeout(t) then 1 else 0
  }

  function JobPending(job: Job, x: Token): nat {
    if job.RunCode? then CodeWeight(job.code, x) else 0
  }

  function JobReady(job: Job, x: Token): nat {
    if job.RunFiber? && x == OfFiber(job.f) then 1 else 0
  }

  function PendingTask(x: Token): Task -> nat {
    (t: Task) => JobPending(t.job, x)
  }

  function ReadyTask(x: Token): Task -> nat {
    (t: Task) => JobReady(t.job, x)
  }

  function CodeIs(x: Token): Code -> nat {
    (code: Code) => CodeWeight(code, x)
  }

  function WorkerPending(v: Worker, x: Token): nat {
    match v
    case Hand(task) => JobPending(task.job, x)
    case Dozing(todo) => Sum(todo, CodeIs(x))
    case _ => 0
  }

  function WorkerReady(v: Worker, x: Token): nat {
    if v.Hand? then JobReady(v.task.job, x) else 0
  }

  function WorkerCpu(v: Worker, x: Token): nat {
    if v.Running? && x == OfFiber(v.f) then 1 else 0
  }

  function PendingWorker(x: Token): Worker -> nat {
    (v: Worker) => WorkerPending(v, x)
  }

  function ReadyWorker(x: Token): Worker -> nat {
    (v: Worker) => WorkerReady(v, x)
  }

  function CpuWorker(x: Token): Worker -> nat {
    (v: Worker) => WorkerCpu(v, x)
  }

  function SlotWeight(slot: Option<Waiter>, x: Token): nat {
    match slot
    case None => 0
    case Some(FiberWaiter(f)) => if x == OfFiber(f) then 1 else 0
    case Some(CodeWaiter(code)) => CodeWeight(code, x)
  }

  function PendingSlot(x: Token): Option<Waiter> -> nat {
    (slot: Option<Waiter>) => SlotWeight(slot, x)
  }

  function TimerWeight(t: Timer, x: Token): nat {
    if t.live then CodeWeight(t.code, x) else 0
  }

  function PendingTimer(x: Token): Timer -> nat {
    (t: Timer) => TimerWeight(t, x)
  }

  function PcWeight(pc: Pc, x: Token): nat {
    if pc.Start? then CodeWeight(pc.code, x) else 0
  }

  function PendingFiber(x: Token): Thread -> nat {
    (t: Thread) => PcWeight(t.pc, x)
  }

  /** Owed by a slot, a timer, or a callback that is on its way. */
  function Pending(s: Runtime, x: Token): nat {
    Sum(s.queue, PendingTask(x)) + Sum(s.workers, PendingWorker(x)) + Sum(s.slots, PendingSlot(x))
    + Sum(s.timers, PendingTimer(x)) + Sum(s.fibers, PendingFiber(x))
  }

  /** In the queue, or in the hand of a worker. */
  function Ready(s: Runtime, x: Token): nat {
    Sum(s.queue, ReadyTask(x)) + Sum(s.workers, ReadyWorker(x))
  }

  /** On a worker. */
  function Cpu(s: Runtime, x: Token): nat {
    Sum(s.workers, CpuWorker(x))
  }

  // ---------------------------------------------------------------- changes of one part

  lemma QueuePush(s: Runtime, task: Task, x: Token)
    ensures var t := s.(queue := s.queue + [task]);
      && Pending(t, x) == Pending(s, x) + JobPending(task.job, x)
      && Ready(t, x) == Ready(s, x) + JobReady(task.job, x)
      && Cpu(t, x) == Cpu(s, x)
  {
    hide Sum;
    SumPush(s.queue, task, PendingTask(x));
    SumPush(s.queue, task, ReadyTask(x));
  }

  lemma QueueRemove(s: Runtime, k: nat, x: Token)
    requires k < |s.queue|
    ensures var t := s.(queue := s.queue[..k] + s.queue[k + 1..]);
      && Pending(t, x) == Pending(s, x) - JobPending(s.queue[k].job, x)
      && Ready(t, x) == Ready(s, x) - JobReady(s.queue[k].job, x)
      && Cpu(t, x) == Cpu(s, x)
  {
    hide Sum;
    SumRemove(s.queue, k, PendingTask(x));
    SumRemove(s.queue, k, ReadyTask(x));
  }

  lemma WorkerSet(s: Runtime, w: nat, v: Worker, x: Token)
    requires w < |s.workers|
    ensures var t := s.(workers := s.workers[w := v]);
      && Pending(t, x) == Pending(s, x) - WorkerPending(s.workers[w], x) + WorkerPending(v, x)
      && Ready(t, x) == Ready(s, x) - WorkerReady(s.workers[w], x) + WorkerReady(v, x)
      && Cpu(t, x) == Cpu(s, x) - WorkerCpu(s.workers[w], x) + WorkerCpu(v, x)
  {
    hide Sum, WorkerPending, WorkerReady, WorkerCpu;
    SumUpdate(s.workers, w, v, PendingWorker(x));
    SumUpdate(s.workers, w, v, ReadyWorker(x));
    SumUpdate(s.workers, w, v, CpuWorker(x));
  }

  lemma FiberSet(s: Runtime, f: nat, g: Thread, x: Token)
    requires f < |s.fibers|
    ensures var t := s.(fibers := s.fibers[f := g]);
      && Pending(t, x) == Pending(s, x) - PcWeight(s.fibers[f].pc, x) + PcWeight(g.pc, x)
      && Ready(t, x) == Ready(s, x) && Cpu(t, x) == Cpu(s, x)
  {
    hide Sum, PcWeight;
    SumUpdate(s.fibers, f, g, PendingFiber(x));
  }

  lemma FiberPush(s: Runtime, g: Thread, x: Token)
    ensures var t := s.(fibers := s.fibers + [g]);
      && Pending(t, x) == Pending(s, x) + PcWeight(g.pc, x)
      && Ready(t, x) == Ready(s, x) && Cpu(t, x) == Cpu(s, x)
  {
    hide Sum, PcWeight;
    SumPush(s.fibers, g, PendingFiber(x));
  }

  lemma SlotSet(s: Runtime, i: nat, v: Option<Waiter>, x: Token)
    requires i < |s.slots|
    ensures var t := s.(slots := s.slots[i := v]);
      && Pending(t, x) == Pending(s, x) - SlotWeight(s.slots[i], x) + SlotWeight(v, x)
      && Ready(t, x) == Ready(s, x) && Cpu(t, x) == Cpu(s, x)
  {
    hide Sum, SlotWeight;
    SumUpdate(s.slots, i, v, PendingSlot(x));
  }

  lemma SlotPush(s: Runtime, x: Token)
    ensures var t := s.(slots := s.slots + [None]);
      Pending(t, x) == Pending(s, x) && Ready(t, x) == Ready(s, x) && Cpu(t, x) == Cpu(s, x)
  {
    hide Sum;
    SumPush(s.slots, None, PendingSlot(x));
  }

  lemma TimerSet(s: Runtime, i: nat, v: Timer, x: Token)
    requires i < |s.timers|
    ensures var t := s.(timers := s.timers[i := v]);
      && Pending(t, x) == Pending(s, x) - TimerWeight(s.timers[i], x) + TimerWeight(v, x)
      && Ready(t, x) == Ready(s, x) && Cpu(t, x) == Cpu(s, x)
  {
    hide Sum, TimerWeight;
    SumUpdate(s.timers, i, v, PendingTimer(x));
  }

  lemma TimerPush(s: Runtime, v: Timer, x: Token)
    ensures var t := s.(timers := s.timers + [v]);
      && Pending(t, x) == Pending(s, x) + TimerWeight(v, x)
      && Ready(t, x) == Ready(s, x) && Cpu(t, x) == Cpu(s, x)
  {
    hide Sum, TimerWeight;
    SumPush(s.timers, v, PendingTimer(x));
  }

  /** The parts that hold no token. */
  lemma Elsewhere(s: Runtime, t: Runtime, x: Token)
    requires t.queue == s.queue && t.workers == s.workers && t.slots == s.slots && t.timers == s.timers
    requires t.fibers == s.fibers
    ensures Pending(t, x) == Pending(s, x) && Ready(t, x) == Ready(s, x) && Cpu(t, x) == Cpu(s, x)
  {
  }

  // ---------------------------------------------------------------- the balance

  /** A fiber that is due has one token, any other has none; the history agrees; and a fiber is on
      one worker while it runs, and on none while it does not. */
  ghost predicate FiberBalance(s: Runtime, f: nat) {
    var x := OfFiber(f);
    if f < |s.fibers| then
      && Pending(s, x) + Ready(s, x) == (if s.fibers[f].Due() then 1 else 0)
      && s.fibers[f].parks == s.fibers[f].wakes + Pending(s, x)
      && s.fibers[f].wakes == s.fibers[f].resumes + Ready(s, x)
      && Cpu(s, x) == (if s.fibers[f].state.RUNNING? then 1 else 0)
    else Pending(s, x) == Ready(s, x) == Cpu(s, x) == 0
  }

  /** A user callback is on its way once until it runs, and never again. */
  ghost predicate CodeBalance(s: Runtime, k: nat) {
    Pending(s, OfCode(k)) + (if k < |s.runs| then s.runs[k] else 0) == if k < |s.runs| then 1 else 0
  }

  /** The callback of a timeout is on its way once until it begins or its timer is cut off, and never again. */
  ghost predicate TimeoutBalance(s: Runtime, t: nat) {
    Pending(s, OfTimeout(t)) == if t < |s.timers| && s.timers[t].Owed() then 1 else 0
  }

  ghost predicate Balanced(s: Runtime, x: Token) {
    match x
    case OfFiber(f) => FiberBalance(s, f)
    case OfCode(k) => CodeBalance(s, k)
    case OfTimeout(t) => TimeoutBalance(s, t)
  }

  /** A token in a part of the state is one in all of it. */
  lemma InQueue(s: Runtime, i: nat, x: Token)
    requires i < |s.queue|
    ensures JobPending(s.queue[i].job, x) <= Pending(s, x) && JobReady(s.queue[i].job, x) <= Ready(s, x)
  {
    hide Sum;
    SumCell(s.queue, i, PendingTask(x));
    SumCell(s.queue, i, ReadyTask(x));
  }

  lemma InWorker(s: Runtime, w: nat, x: Token)
    requires w < |s.workers|
    ensures WorkerPending(s.workers[w], x) <= Pending(s, x) && WorkerReady(s.workers[w], x) <= Ready(s, x)
    ensures WorkerCpu(s.workers[w], x) <= Cpu(s, x)
  {
    hide Sum, WorkerPending, WorkerReady, WorkerCpu;
    SumCell(s.workers, w, PendingWorker(x));
    SumCell(s.workers, w, ReadyWorker(x));
    SumCell(s.workers, w, CpuWorker(x));
  }

  lemma InSlot(s: Runtime, i: nat, x: Token)
    requires i < |s.slots|
    ensures SlotWeight(s.slots[i], x) <= Pending(s, x)
  {
    hide Sum, SlotWeight;
    SumCell(s.slots, i, PendingSlot(x));
  }

  lemma InFiber(s: Runtime, f: nat, x: Token)
    requires f < |s.fibers|
    ensures PcWeight(s.fibers[f].pc, x) <= Pending(s, x)
  {
    hide Sum, PcWeight;
    SumCell(s.fibers, f, PendingFiber(x));
  }
}
