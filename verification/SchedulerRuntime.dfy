/** The classes Fiber and Scheduler carry out the steps of the runtime: what a worker does with them between two
    locks leads from an object that stands for one state to one that stands for the next. */
module SchedulerRuntime {
  import opened Bytes
  import opened Scheduling
  import R = RuntimeState
  import RuntimeResults
  import RuntimeRuns
  import RuntimeTickles

  /** The task is the one in the queue; codes says what the callbacks do. */
  ghost predicate TaskFits(task: ScheduleTask, q: R.Task, fibers: seq<Fiber>, codes: seq<R.Code>) {
    && task.thread == q.thread
    && match q.job
       case RunFiber(f) => f < |fibers| && task.fiber == Some(fibers[f])
       case RunCode(code) => task.fiber == None && task.cb.Some? && task.cb.value < |codes| && codes[task.cb.value] == code
  }

  /** A fiber object stands for one thread at a time: one that has finished may be used again. */
  ghost predicate FibersFit(fibers: seq<Fiber>, threads: seq<R.Thread>)
    reads fibers
  {
    && |fibers| == |threads|
    && (forall i :: 0 <= i < |fibers| && !threads[i].state.TERM? ==> fibers[i].state == threads[i].state)
    && (forall i, j :: 0 <= i < j < |fibers| && !threads[i].state.TERM? && !threads[j].state.TERM? ==> fibers[i] != fibers[j])
  }

  ghost predicate Represents(sch: Scheduler, fibers: seq<Fiber>, codes: seq<R.Code>, s: R.Runtime)
    reads sch, fibers
  {
    && FibersFit(fibers, s.fibers) && sch.active == s.active && sch.stopped == s.stopped
    && |sch.tasks| == |s.queue| && forall i :: 0 <= i < |sch.tasks| ==> TaskFits(sch.tasks[i], s.queue[i], fibers, codes)
  }

  /** A fiber in the queue has not finished. */
  lemma QueuedAlive(s: R.Runtime, i: nat)
    requires RuntimeRuns.Reachable(s) && i < |s.queue| && s.queue[i].job.RunFiber?
    ensures var f := s.queue[i].job.f; f < |s.fibers| && !s.fibers[f].state.TERM?
  {
    hide RuntimeRuns.Reachable;
    var f := s.queue[i].job.f;
    RuntimeResults.SingleOccupancy(s, RuntimeResults.AtQueue(i), RuntimeResults.AtQueue(i), f);
  }

  lemma EligibleSame(sch: Scheduler, fibers: seq<Fiber>, codes: seq<R.Code>, s: R.Runtime, w: nat, i: nat)
    requires Represents(sch, fibers, codes, s) && RuntimeRuns.Reachable(s) && i < |s.queue|
    ensures Eligible(sch.tasks[i], w) <==> R.Eligible(s.queue[i], w, s.fibers)
  {
    hide RuntimeRuns.Reachable;
    assert TaskFits(sch.tasks[i], s.queue[i], fibers, codes);
    if s.queue[i].job.RunFiber? {
      QueuedAlive(s, i);
    }
  }

  lemma {:induction false} FirstIs(queue: seq<R.Task>, w: nat, threads: seq<R.Thread>, k: nat)
    requires k <= |queue| && (k < |queue| ==> R.Eligible(queue[k], w, threads))
    requires forall i :: 0 <= i < k ==> !R.Eligible(queue[i], w, threads)
    ensures R.FirstEligible(queue, w, threads) == k
    decreases k
  {
    hide R.Eligible;
    if k > 0 {
      assert queue[1..][..k - 1] == queue[1..k];
      FirstIs(queue[1..], w, threads, k - 1);
    }
  }

  lemma PassedOver(tasks: seq<ScheduleTask>, queue: seq<R.Task>, w: nat, k: nat)
    requires k <= |tasks| == |queue| && forall i :: 0 <= i < |queue| ==> tasks[i].thread == queue[i].thread
    ensures (exists i :: 0 <= i < k && tasks[i].Elsewhere(w))
            <==> (exists i :: 0 <= i < k && RuntimeTickles.Elsewhere(queue[i], w))
  {
    if i :| 0 <= i < k && tasks[i].Elsewhere(w) {
      assert RuntimeTickles.Elsewhere(queue[i], w);
    }
    if i :| 0 <= i < k && RuntimeTickles.Elsewhere(queue[i], w) {
      assert tasks[i].Elsewhere(w);
    }
  }

  /** A worker's search of the list is the step Fetch: it takes the same task, or finds none where the step finds
      none, and it tickles when the step does. */
  method FetchStep(sch: Scheduler, w: nat, ghost fibers: seq<Fiber>, ghost codes: seq<R.Code>, ghost s: R.Runtime)
    returns (task: Option<ScheduleTask>, tickleMe: bool)
    requires sch.Valid() && Represents(sch, fibers, codes, s) && RuntimeRuns.Reachable(s) && R.Can(s, R.Fetch(w))
    modifies sch`tasks, sch`active
    ensures sch.Valid() && (tickleMe <==> RuntimeTickles.Announces(s, R.Fetch(w)))
    ensures var t := R.Do(s, R.Fetch(w));
      if task.Some? then
        Represents(sch, fibers, codes, t) && t.workers[w].Hand? && TaskFits(task.value, t.workers[w].task, fibers, codes)
      else
        Represents(sch, fibers, codes, s) && !t.workers[w].Hand?
  {
    hide RuntimeRuns.Reachable, R.FirstEligible, R.Eligible;
    forall i | 0 <= i < |s.queue|
      ensures Eligible(sch.tasks[i], w) <==> R.Eligible(s.queue[i], w, s.fibers)
    {
      EligibleSame(sch, fibers, codes, s, w, i);
    }
    ghost var k, was := |sch.tasks|, sch.tasks;
    task, tickleMe, k := sch.Dequeue(w);
    FirstIs(s.queue, w, s.fibers, k);
    PassedOver(was, s.queue, w, k);
  }

  /** schedule is the step that puts the task into the queue. */
  method ScheduleStep(sch: Scheduler, task: ScheduleTask, ghost job: R.Job, ghost thread: int, ghost fibers: seq<Fiber>,
                      ghost codes: seq<R.Code>, ghost s: R.Runtime)
    returns (needTickle: bool)
    requires sch.Valid() && Represents(sch, fibers, codes, s) && TaskFits(task, R.Task(job, thread), fibers, codes)
    modifies sch`tasks
    ensures sch.Valid() && Represents(sch, fibers, codes, R.Enqueue(s, job, thread))
    ensures needTickle <==> s.queue == []
  {
    needTickle := sch.ScheduleNoLock(task);
  }

  /** resume of a fiber is the step Resume; the assert in it holds in every state that a run can reach. */
  method ResumeStep(fiber: Fiber, w: nat, ghost f: nat, ghost sch: Scheduler, ghost fibers: seq<Fiber>,
                    ghost codes: seq<R.Code>, ghost s: R.Runtime)
    requires Represents(sch, fibers, codes, s) && RuntimeRuns.Reachable(s) && R.Can(s, R.Resume(w))
    requires s.workers[w].task.job == R.RunFiber(f) && f < |fibers| && fiber == fibers[f]
    modifies fiber`state
    ensures Represents(sch, fibers, codes, R.Do(s, R.Resume(w)))
  {
    hide RuntimeRuns.Reachable;
    RuntimeResults.ResumesReady(s, w);
    fiber.Resume();
  }

  /** A callback runs on a new fiber. */
  method NewFiberStep(cb: Callback, w: nat, ghost sch: Scheduler, ghost fibers: seq<Fiber>, ghost codes: seq<R.Code>,
                      ghost s: R.Runtime)
    returns (fiber: Fiber)
    requires Represents(sch, fibers, codes, s) && R.Can(s, R.Resume(w))
    requires cb < |codes| && s.workers[w].task.job == R.RunCode(codes[cb])
    ensures fresh(fiber) && Represents(sch, fibers + [fiber], codes, R.Do(s, R.Resume(w))) && fiber.cb == Some(cb)
  {
    fiber := new Fiber(cb);
    fiber.Resume();
    assert forall i :: 0 <= i < |sch.tasks| ==> TaskFits(sch.tasks[i], s.queue[i], fibers, codes);
  }

  /** The same on a fiber that has finished before and stands for a new thread; run has a branch for it, which
      its own clearing of the fiber after each callback keeps from being taken. */
  method CallbackStep(spare: Fiber, cb: Callback, w: nat, ghost sch: Scheduler, ghost fibers: seq<Fiber>,
                      ghost codes: seq<R.Code>, ghost s: R.Runtime)
    requires Represents(sch, fibers, codes, s) && R.Can(s, R.Resume(w))
    requires cb < |codes| && s.workers[w].task.job == R.RunCode(codes[cb]) && spare.state == TERM
    modifies spare
    ensures Represents(sch, fibers + [spare], codes, R.Do(s, R.Resume(w))) && spare.cb == Some(cb)
  {
    spare.Reset(cb);
    spare.Resume();
    assert forall i :: 0 <= i < |sch.tasks| ==> TaskFits(sch.tasks[i], s.queue[i], fibers, codes);
  }

  /** The condition to stop is the same on the objects and in the state they represent. */
  method StoppingStep(sch: Scheduler, ghost fibers: seq<Fiber>, ghost codes: seq<R.Code>, ghost s: R.Runtime)
    returns (r: bool)
    requires Represents(sch, fibers, codes, s)
    ensures r <==> R.Stopping(s)
  {
    r := sch.Stopping();
  }

  /** yield, and the end of a fiber, are the steps Yield and Finish. */
  method YieldStep(fiber: Fiber, w: nat, ghost sch: Scheduler, ghost fibers: seq<Fiber>, ghost codes: seq<R.Code>,
                   ghost s: R.Runtime)
    requires Represents(sch, fibers, codes, s) && R.Can(s, R.Yield(w)) && fiber == fibers[s.workers[w].f]
    modifies fiber`state
    ensures Represents(sch, fibers, codes, R.Do(s, R.Yield(w)))
  {
    fiber.Yield();
  }

  method FinishStep(fiber: Fiber, w: nat, ghost sch: Scheduler, ghost fibers: seq<Fiber>, ghost codes: seq<R.Code>,
                    ghost s: R.Runtime)
    requires Represents(sch, fibers, codes, s) && R.Can(s, R.Finish(w)) && fiber == fibers[s.workers[w].f]
    modifies fiber
    ensures Represents(sch, fibers, codes, R.Do(s, R.Finish(w))) && fiber.cb == None
  {
    fiber.Finish();
  }
}
