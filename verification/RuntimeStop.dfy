/** When a scheduler may stop: the base scheduler's condition is final and means that all work is
    done; the I/O manager's is neither, because an idle fiber can hold expired callbacks. */
module RuntimeStop {
  import opened Bytes
  import opened Scheduling
  import opened Sums
  import opened RuntimeState
  import opened RuntimeTokens
  import opened RuntimeBalance
  import opened RuntimeProtocol
  import opened RuntimeHands
  import opened RuntimeRuns

  /** Work that comes from outside. */
  predicate Outside(a: Action) {
    a.Submit? || a.SubmitFiber? || a.SubmitTimer? || a.SubmitWaiter?
  }

  /** The steps that a scheduler without events and timers has. */
  predicate Base(a: Action) {
    !a.SubmitTimer? && !a.SubmitWaiter? && !a.Sleep? && !a.OpenCall?
  }

  predicate BaseRun(run: seq<Action>) {
    forall i :: 0 <= i < |run| ==> Base(run[i])
  }

  /** No event is set and no timer. */
  ghost predicate NothingSet(s: Runtime) {
    && (forall i :: 0 <= i < |s.slots| ==> s.slots[i] == None)
    && (forall t :: 0 <= t < |s.timers| ==> !s.timers[t].live)
  }

  /** No idle fiber holds an expired callback. */
  ghost predicate NothingCollected(s: Runtime) {
    forall w :: 0 <= w < |s.workers| && s.workers[w].Dozing? ==> s.workers[w].todo == []
  }

  /** Nothing waits outside of the queue and the workers, and nothing can. */
  ghost predicate Bare(s: Runtime) {
    && NothingSet(s) && NothingCollected(s)
    && (forall f :: 0 <= f < |s.fibers| ==> Unhooked(s.fibers[f]))
    && (forall i :: 0 <= i < |s.queue| ==> UserJob(s.queue[i].job))
    && (forall w :: 0 <= w < |s.workers| && s.workers[w].Hand? ==> UserJob(s.workers[w].task.job))
  }

  predicate UserJob(job: Job) {
    job.RunCode? ==> job.code.User?
  }

  /** The fiber is in no call, and begins its callback as soon as it runs. */
  predicate Unhooked(t: Thread) {
    && CallOf(t.pc).None? && !t.pc.Expiring?
    && (t.pc.Start? ==> t.state.RUNNING? && t.pc.code.User?)
  }

  lemma FetchBare(s: Runtime, w: nat)
    requires Can(s, Fetch(w)) && Bare(s)
    ensures Bare(Do(s, Fetch(w)))
  {
    hide FirstEligible;
  }

  lemma EnqueueBare(s: Runtime, job: Job, thread: int)
    requires Bare(s) && UserJob(job)
    ensures Bare(Enqueue(s, job, thread))
  {
    hide Unhooked;
    var t := s.(queue := s.queue + [Task(job, thread)]);
    assert Bare(t);
    if job.RunFiber? && job.f < |s.fibers| {
      SameKind(s.fibers[job.f], s.fibers[job.f].wakes + 1);
    }
  }

  lemma SameKind(t: Thread, wakes: nat)
    requires Unhooked(t)
    ensures Unhooked(t.(wakes := wakes))
  {
  }

  lemma FiberBare(s: Runtime, w: nat, a: Action)
    requires Can(s, a) && Bare(s) && (a == Begin(w) || a == Yield(w) || a == Finish(w) || a == Resume(w))
    ensures Bare(Do(s, a))
  {
    hide Enqueue;
  }

  lemma StepBare(s: Runtime, a: Action)
    requires Can(s, a) && Bare(s) && Base(a)
    ensures Bare(Do(s, a))
  {
    hide Enqueue, FetchTask, ResumeJob, BeginCode, SwapOut;
    match a
    case Submit(thread) =>
      assert Bare(s.(runs := s.runs + [0]));
      EnqueueBare(s.(runs := s.runs + [0]), RunCode(User(|s.runs|)), thread);
    case SubmitFiber(thread) =>
      var t := s.(fibers := s.fibers + [Thread(READY, Body, 1, 0, 0)]);
      assert Bare(t);
      EnqueueBare(t, RunFiber(|s.fibers|), thread);
    case Requeue(w, thread) =>
      var t := Park(s, s.workers[w].f, Parking);
      assert Bare(t);
      EnqueueBare(t, RunFiber(s.workers[w].f), thread);
    case GrowSlots =>
    case Stop =>
    case Fetch(w) => FetchBare(s, w);
    case Resume(w) => FiberBare(s, w, a);
    case Release(w) =>
    case Begin(w) => FiberBare(s, w, a);
    case Yield(w) => FiberBare(s, w, a);
    case Finish(w) => FiberBare(s, w, a);
    case WakeUp(w) =>
    case Leave(w) =>
    case _ => assert false;
  }

  lemma {:induction false} RunBare(s: Runtime, run: seq<Action>)
    requires CanRun(s, run) && BaseRun(run) && Bare(s)
    ensures Bare(Run(s, run))
    decreases |run|
  {
    hide Bare, Can, Do;
    if run != [] {
      StepBare(s, run[0]);
      RunBare(Do(s, run[0]), run[1..]);
    }
  }

  // ---------------------------------------------------------------- the base scheduler

  /** With no active worker, every worker is looking, idle or gone. */
  lemma NoneActive(s: Runtime, w: nat)
    requires Counted(s) && s.active == 0 && w < |s.workers|
    ensures !IsActive(s.workers[w])
  {
    hide Sum;
    SumCell(s.workers, w, ActiveWeight());
  }

  lemma StepStopping(s: Runtime, a: Action)
    requires Can(s, a) && Counted(s) && NothingSet(s) && NothingCollected(s) && Stopping(s) && !Outside(a)
    ensures Stopping(Do(s, a)) && NothingSet(Do(s, a)) && NothingCollected(Do(s, a))
  {
    hide Enqueue, ResumeJob, BeginCode, SwapOut, Sum, Counted;
    if a.Resume? || a.Release? || a.Begin? || a.Expire2? || a.Sleep? || a.Requeue? || a.OpenCall? || a.Try?
       || a.Register? || a.Yield? || a.Disarm? || a.Judge? || a.Finish? {
      NoneActive(s, a.w);
    }
  }

  /** Every fiber has finished and every callback has run. */
  ghost predicate AllDone(s: Runtime) {
    && (forall f :: 0 <= f < |s.fibers| ==> s.fibers[f].state.TERM?)
    && (forall k :: 0 <= k < |s.runs| ==> s.runs[k] == 1)
  }

  lemma NothingLeft(s: Runtime, x: Token)
    requires Inv(s) && Bare(s) && Stopping(s)
    ensures Ready(s, x) == 0 && Cpu(s, x) == 0
    ensures (forall f :: 0 <= f < |s.fibers| ==> !s.fibers[f].state.RUNNING?) ==> Pending(s, x) == 0
  {
    hide AllBalanced, HandReady, Pinned, Protocol, Sum;
    forall w | 0 <= w < |s.workers|
      ensures WorkerPending(s.workers[w], x) == WorkerReady(s.workers[w], x) == WorkerCpu(s.workers[w], x) == 0
    {
      NoneActive(s, w);
      SumZero([], CodeIs(x));
    }
    SumZero(s.workers, PendingWorker(x));
    SumZero(s.workers, ReadyWorker(x));
    SumZero(s.workers, CpuWorker(x));
    SumZero(s.queue, PendingTask(x));
    SumZero(s.queue, ReadyTask(x));
    SumZero(s.slots, PendingSlot(x));
    SumZero(s.timers, PendingTimer(x));
    if forall f :: 0 <= f < |s.fibers| ==> !s.fibers[f].state.RUNNING? {
      forall f | 0 <= f < |s.fibers|
        ensures PcWeight(s.fibers[f].pc, x) == 0
      {
        assert Unhooked(s.fibers[f]);
      }
      SumZero(s.fibers, PendingFiber(x));
    }
  }

  lemma StoppingMeansDone(s: Runtime)
    requires Inv(s) && Bare(s) && Stopping(s)
    ensures AllDone(s)
  {
    hide Bare, Sum, HandReady, Pinned, Protocol, Counted, Pending, Ready, Cpu;
    forall f | 0 <= f < |s.fibers|
      ensures !s.fibers[f].state.RUNNING?
    {
      NothingLeft(s, OfFiber(f));
      assert Balanced(s, OfFiber(f));
    }
    forall f | 0 <= f < |s.fibers|
      ensures s.fibers[f].state.TERM?
    {
      NothingLeft(s, OfFiber(f));
      assert Balanced(s, OfFiber(f));
    }
    forall k | 0 <= k < |s.runs|
      ensures s.runs[k] == 1
    {
      NothingLeft(s, OfCode(k));
      assert Balanced(s, OfCode(k));
    }
  }

  ghost predicate NoOutside(run: seq<Action>) {
    forall i :: 0 <= i < |run| ==> !Outside(run[i])
  }

  lemma {:induction false} StaysStopping(s: Runtime, run: seq<Action>)
    requires CanRun(s, run) && Counted(s) && NothingSet(s) && NothingCollected(s) && Stopping(s) && NoOutside(run)
    ensures Stopping(Run(s, run)) && NothingSet(Run(s, run))
    decreases |run|
  {
    hide Can, Do, Counted, Stopping, NothingSet, NothingCollected;
    if run != [] {
      StepCounted(s, run[0]);
      StepStopping(s, run[0]);
      StaysStopping(Do(s, run[0]), run[1..]);
    }
  }

  /** Once the base scheduler may stop, all submitted work is done, and as long as nobody submits more
      it may stop for ever. */
  lemma SafeStop(n: nat, run: seq<Action>, rest: seq<Action>)
    requires CanRun(Init(n), run) && BaseRun(run) && Stopping(Run(Init(n), run))
    requires CanRun(Run(Init(n), run), rest) && NoOutside(rest)
    ensures AllDone(Run(Init(n), run)) && Stopping(Run(Run(Init(n), run), rest))
  {
    hide Can, Do, Run, CanRun, AllDone, AllBalanced, HandReady, Pinned, Protocol, Counted, NothingSet, NothingCollected;
    InitInv(n);
    RunInv(Init(n), run);
    assert Bare(Init(n)) by { InitBare(n); }
    RunBare(Init(n), run);
    StoppingMeansDone(Run(Init(n), run));
    StaysStopping(Run(Init(n), run), rest);
  }

  lemma InitBare(n: nat)
    ensures Bare(Init(n))
  {
  }

  // ---------------------------------------------------------------- the I/O manager

  /** IOManager::stopping: no timer, no pending event, and the base condition. */
  ghost predicate IoStopping(s: Runtime) {
    Stopping(s) && NothingSet(s)
  }

  /** The I/O manager's condition is final exactly when no idle fiber holds an expired callback. */
  lemma IoStoppingFinal(s: Runtime)
    requires Reachable(s) && IoStopping(s)
    ensures NothingCollected(s) <==>
            forall run :: CanRun(s, run) && NoOutside(run) ==> IoStopping(Run(s, run))
  {
    hide Can, Do, Reachable, AllBalanced, HandReady, Pinned, Protocol, Counted, NothingSet;
    ReachableInv(s);
    if NothingCollected(s) {
      forall run | CanRun(s, run) && NoOutside(run)
        ensures IoStopping(Run(s, run))
      {
        StaysStopping(s, run);
      }
    } else {
      var w :| 0 <= w < |s.workers| && s.workers[w].Dozing? && s.workers[w].todo != [];
      PassBreaks(s, w);
    }
  }

  lemma PassBreaks(s: Runtime, w: nat)
    requires IsDozing(s, w) && s.workers[w].todo != []
    ensures CanRun(s, [Pass(w)]) && NoOutside([Pass(w)]) && !IoStopping(Run(s, [Pass(w)]))
  {
    assert [Pass(w)][1..] == [];
    assert Do(s, Pass(w)).queue != [];
  }

  /** Two workers and one timer with a user callback, which has not run. */
  function Pair(workers: seq<Worker>, live: bool, idle: int, stopped: bool): Runtime {
    Runtime([], workers, [false, false], [], [], [Alarm(User(0)).(live := live)], [], [0], 0, idle, stopped)
  }

  lemma PairSteps()
    ensures Can(Init(2), SubmitTimer) && Do(Init(2), SubmitTimer) == Pair([Looking, Looking], true, 0, false)
    ensures var s := Pair([Looking, Looking], true, 0, false);
      Can(s, Fetch(0)) && Do(s, Fetch(0)) == Pair([Dozing([]), Looking], true, 1, false)
    ensures var s := Pair([Dozing([]), Looking], true, 1, false);
      Can(s, Fetch(1)) && Do(s, Fetch(1)) == Pair([Dozing([]), Dozing([])], true, 2, false)
  {
    assert Init(2).workers == [Looking, Looking] && Init(2).ended == [false, false];
    assert [Looking, Looking][0 := Dozing([])] == [Dozing([]), Looking];
    assert [Dozing([]), Looking][1 := Dozing([])] == [Dozing([]), Dozing([])];
  }

  lemma PairStops()
    ensures var s := Pair([Dozing([]), Dozing([])], true, 2, false);
      Can(s, Stop) && Do(s, Stop) == Pair([Dozing([]), Dozing([])], true, 2, true)
    ensures var s := Pair([Dozing([]), Dozing([])], true, 2, true);
      Can(s, Collect(0, 0)) && Do(s, Collect(0, 0)) == Pair([Dozing([User(0)]), Dozing([])], false, 2, true)
  {
    assert [] + [User(0)] == [User(0)];
    assert [Dozing([]), Dozing([])][0 := Dozing([User(0)])] == [Dozing([User(0)]), Dozing([])];
    var timer := Alarm(User(0));
    assert [timer][0 := timer.(live := false)] == [timer.(live := false)];
  }

  lemma PairReachable()
    ensures Reachable(Pair([Dozing([User(0)]), Dozing([])], false, 2, true))
  {
    hide Reachable, Do, Can, Pair, Init;
    Begins(2);
    PairSteps();
    PairStops();
    ReachableStep(Init(2), SubmitTimer);
    ReachableStep(Pair([Looking, Looking], true, 0, false), Fetch(0));
    ReachableStep(Pair([Dozing([]), Looking], true, 1, false), Fetch(1));
    ReachableStep(Pair([Dozing([]), Dozing([])], true, 2, false), Stop);
    ReachableStep(Pair([Dozing([]), Dozing([])], true, 2, true), Collect(0, 0));
  }

  /** Two workers are idle; one has collected the only timer when the other finds that all may stop,
      and then the callback is scheduled. */
  lemma IoStoppingNotFinal()
    ensures exists s: Runtime, a: Action ::
              Reachable(s) && Can(s, a) && !Outside(a) && IoStopping(s) && !AllDone(s) && !IoStopping(Do(s, a))
  {
    hide Reachable, Do;
    var s := Pair([Dozing([User(0)]), Dozing([])], false, 2, true);
    PairReachable();
    assert Can(s, Pass(0)) && IoStopping(s) && s.runs[0] == 0;
    Scheduled(s);
    assert !IoStopping(Do(s, Pass(0)));
  }

  lemma Scheduled(s: Runtime)
    requires Can(s, Pass(0))
    ensures Do(s, Pass(0)).queue != []
  {
  }
}
