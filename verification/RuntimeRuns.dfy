/** The main results about the fiber runtime, for every number of workers and every run. */
module RuntimeRuns {
  import opened Bytes
  import opened Scheduling
  import opened Sums
  import opened RuntimeState
  import opened RuntimeTokens
  import opened RuntimeBalance
  import opened RuntimeProtocol
  import opened RuntimeHands

  // ---------------------------------------------------------------- counters

  predicate IsActive(v: Worker) {
    v.Hand? || v.Running? || v.Back?
  }

  function ActiveWeight(): Worker -> nat {
    (v: Worker) => if IsActive(v) then 1 else 0
  }

  function IdleWeight(): Worker -> nat {
    (v: Worker) => if v.Dozing? then 1 else 0
  }

  /** The counters are the numbers of workers with a task and in the idle fiber. */
  ghost predicate Counted(s: Runtime) {
    s.active == Sum(s.workers, ActiveWeight()) && s.idle == Sum(s.workers, IdleWeight())
  }

  lemma CountWorker(s: Runtime, w: nat, v: Worker, t: Runtime)
    requires Counted(s) && w < |s.workers| && t.workers == s.workers[w := v]
    requires t.active == s.active - ActiveWeight()(s.workers[w]) + ActiveWeight()(v)
    requires t.idle == s.idle - IdleWeight()(s.workers[w]) + IdleWeight()(v)
    ensures Counted(t)
  {
    hide Sum;
    SumUpdate(s.workers, w, v, ActiveWeight());
    SumUpdate(s.workers, w, v, IdleWeight());
  }

  lemma SameWorkers(s: Runtime, t: Runtime)
    requires Counted(s) && t.workers == s.workers && t.active == s.active && t.idle == s.idle
    ensures Counted(t)
  {
  }

  predicate ChangesWorker(a: Action) {
    a.Fetch? || a.Resume? || a.Release? || a.Yield? || a.Finish? || a.Collect? || a.Pass? || a.WakeUp? || a.Leave?
  }

  /** Every step keeps the counters right. */
  lemma StepCounted(s: Runtime, a: Action)
    requires Can(s, a) && Counted(s)
    ensures Counted(Do(s, a))
  {
    hide Counted, Can, Do;
    if ChangesWorker(a) {
      WorkerCounted(s, a);
    } else {
      OthersCounted(s, a);
    }
  }

  lemma WorkerCounted(s: Runtime, a: Action)
    requires Can(s, a) && Counted(s) && ChangesWorker(a)
    ensures Counted(Do(s, a))
  {
    hide Counted, Do, Can, ActiveWeight, IdleWeight;
    if a.Fetch? {
      FetchCounts(s, a.w);
    } else if a.Pass? {
      PassCounts(s, a.w);
    } else {
      OneWorker(s, a);
    }
    CountWorker(s, a.w, Do(s, a).workers[a.w], Do(s, a));
  }

  /** The step changes one worker, and the counters by what that worker counts for. */
  ghost predicate Counts(s: Runtime, w: nat, t: Runtime) {
    && w < |s.workers| == |t.workers| && t.workers == s.workers[w := t.workers[w]]
    && t.active == s.active - ActiveWeight()(s.workers[w]) + ActiveWeight()(t.workers[w])
    && t.idle == s.idle - IdleWeight()(s.workers[w]) + IdleWeight()(t.workers[w])
  }

  lemma FetchCounts(s: Runtime, w: nat)
    requires Can(s, Fetch(w))
    ensures Counts(s, w, Do(s, Fetch(w)))
  {
    hide FirstEligible;
  }

  lemma PassCounts(s: Runtime, w: nat)
    requires Can(s, Pass(w))
    ensures Counts(s, w, Do(s, Pass(w)))
  {
  }

  lemma OneWorker(s: Runtime, a: Action)
    requires Can(s, a) && ChangesWorker(a) && !a.Fetch? && !a.Pass?
    ensures Counts(s, a.w, Do(s, a))
  {
  }

  lemma OthersCounted(s: Runtime, a: Action)
    requires Can(s, a) && Counted(s) && !ChangesWorker(a)
    ensures Counted(Do(s, a))
  {
    hide Counted;
    SameWorkers(s, Do(s, a));
  }

  // ---------------------------------------------------------------- the invariant

  ghost predicate Inv(s: Runtime) {
    AllBalanced(s) && HandReady(s) && Pinned(s) && Protocol(s) && Counted(s)
  }

  lemma StepInv(s: Runtime, a: Action)
    requires Can(s, a) && Inv(s)
    ensures Inv(Do(s, a))
  {
    hide Balanced, HandReady, Pinned, Protocol, Counted, Can;
    forall x: Token
      ensures Balanced(Do(s, a), x)
    {
      StepBalance(s, a, x) by { assert OwnTimers(s) by { ProtocolTimers(s); } }
    }
    StepProtocol(s, a);
    StepHands(s, a);
    StepCounted(s, a);
  }

  lemma ProtocolTimers(s: Runtime)
    requires Protocol(s)
    ensures OwnTimers(s)
  {
  }

  lemma InitInv(n: nat)
    ensures Inv(Init(n))
  {
    hide Sum;
    var s := Init(n);
    forall x: Token
      ensures Balanced(s, x)
    {
      SumZero(s.queue, PendingTask(x));
      SumZero(s.queue, ReadyTask(x));
      SumZero(s.slots, PendingSlot(x));
      SumZero(s.timers, PendingTimer(x));
      SumZero(s.fibers, PendingFiber(x));
      SumZero(s.workers, PendingWorker(x));
      SumZero(s.workers, ReadyWorker(x));
      SumZero(s.workers, CpuWorker(x));
    }
    SumZero(s.workers, ActiveWeight());
    SumZero(s.workers, IdleWeight());
  }

  /** The invariant holds after every run. */
  lemma {:induction false} RunInv(s: Runtime, run: seq<Action>)
    requires CanRun(s, run) && Inv(s)
    ensures Inv(Run(s, run))
    decreases |run|
  {
    hide Inv, Can;
    if run != [] {
      StepInv(s, run[0]);
      RunInv(Do(s, run[0]), run[1..]);
    }
  }

  /** A state that some run of some number of workers leads to. */
  ghost predicate Reachable(s: Runtime) {
    exists n: nat, run: seq<Action> :: CanRun(Init(n), run) && s == Run(Init(n), run)
  }

  lemma ReachableInv(s: Runtime)
    requires Reachable(s)
    ensures Inv(s)
  {
    hide Inv;
    var n: nat, run: seq<Action> :| CanRun(Init(n), run) && s == Run(Init(n), run);
    InitInv(n);
    RunInv(Init(n), run);
  }

  lemma Begins(n: nat)
    ensures Reachable(Init(n))
  {
    assert CanRun(Init(n), []) && Run(Init(n), []) == Init(n);
  }

  lemma {:induction false} RunSnoc(s: Runtime, run: seq<Action>, a: Action)
    requires CanRun(s, run) && Can(Run(s, run), a)
    ensures CanRun(s, run + [a]) && Run(s, run + [a]) == Do(Run(s, run), a)
    decreases |run|
  {
    hide Can, Do;
    if run == [] {
      assert [a][1..] == [];
    } else {
      assert (run + [a])[0] == run[0] && (run + [a])[1..] == run[1..] + [a];
      RunSnoc(Do(s, run[0]), run[1..], a);
    }
  }

  lemma ReachableStep(s: Runtime, a: Action)
    requires Reachable(s) && Can(s, a)
    ensures Reachable(Do(s, a))
  {
    hide Can, Do, CanRun, Run, Init;
    var n: nat, run: seq<Action> :| CanRun(Init(n), run) && s == Run(Init(n), run);
    RunSnoc(Init(n), run, a);
    assert Run(Init(n), run + [a]) == Do(s, a);
  }
}
