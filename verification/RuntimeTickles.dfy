/** The tickles of the scheduler: when a worker that sleeps in the idle fiber is told that there is a task for it. A
    tickle wakes one of the idle threads; which one, the model leaves open. */
module RuntimeTickles {
  import opened Bytes
  import opened RuntimeState
  import RuntimeRuns

  // ---------------------------------------------------------------- what a step queues and announces

  /** The task that the step puts into the queue. */
  function NewTask(s: Runtime, a: Action): Option<Task>
    requires Can(s, a)
  {
    match a
    case Submit(thread) => Some(Task(RunCode(User(|s.runs|)), thread))
    case SubmitFiber(thread) => Some(Task(RunFiber(|s.fibers|), thread))
    case Trigger(i) => Some(Task(WaiterJob(s.slots[i].value), ANYWHERE))
    case Begin(w) =>
      (match PcOf(s, w).code
       case Wake(g) => Some(Task(RunFiber(g), ANYWHERE))
       case _ => None)
    case Expire2(w, ok) =>
      var c := PcOf(s, w).call;
      if ok && c < |s.calls| && s.calls[c].slot < |s.slots| && s.slots[s.calls[c].slot].Some?
      then Some(Task(WaiterJob(s.slots[s.calls[c].slot].value), ANYWHERE)) else None
    case Requeue(w, thread) => Some(Task(RunFiber(s.workers[w].f), thread))
    case Pass(w) => Some(Task(RunCode(s.workers[w].todo[0]), ANYWHERE))
    case _ => None
  }

  /** A search that passes over a task for another thread, or leaves one behind what it takes. */
  ghost predicate LeavesSome(s: Runtime, w: nat) {
    var k := FirstEligible(s.queue, w, s.fibers);
    (exists i :: 0 <= i < k && Elsewhere(s.queue[i], w)) || k + 1 < |s.queue|
  }

  predicate Elsewhere(task: Task, w: nat) {
    task.thread != ANYWHERE && task.thread != w
  }

  /** The step tickles on account of the queue: a task enters the empty queue, a search leaves one, or all is to stop. */
  ghost predicate Announces(s: Runtime, a: Action)
    requires Can(s, a)
  {
    match a
    case Fetch(w) => LeavesSome(s, w)
    case Stop => true
    case _ => s.queue == [] && NewTask(s, a).Some?
  }

  /** There is a task in the queue that the worker may take. */
  ghost predicate Work(s: Runtime, w: nat) {
    exists i :: 0 <= i < |s.queue| && Eligible(s.queue[i], w, s.fibers)
  }

  /** A step of the worker w itself. */
  predicate By(a: Action, w: nat) {
    (a.Fetch? || a.Collect? || a.Pass? || a.WakeUp? || a.Leave?) && a.w == w
  }

  /** The step gives the worker w something to do without a tickle: it queues a task behind others, none of which w
      may take, or the fiber of a queued task gives up the worker it still ran on. */
  ghost predicate Silent(s: Runtime, a: Action, w: nat)
    requires Can(s, a)
  {
    || (NewTask(s, a).Some? && s.queue != [] && Eligible(NewTask(s, a).value, w, s.fibers))
    || ((a.Yield? || a.Finish?) && exists i :: 0 <= i < |s.queue| && Leaves(s.queue[i], s.workers[a.w].f, w))
  }

  predicate Leaves(task: Task, f: nat, w: nat) {
    task.job == RunFiber(f) && !Elsewhere(task, w)
  }

  // ---------------------------------------------------------------- one step

  lemma Queues(s: Runtime, a: Action)
    requires Can(s, a) && !a.Fetch?
    ensures Do(s, a).queue == s.queue + match NewTask(s, a) case Some(t) => [t] case None => []
  {
  }

  /** The running fiber makes the step. */
  predicate OfFiber(a: Action) {
    a.Begin? || a.Expire2? || a.Sleep? || a.Requeue? || a.OpenCall? || a.Try? || a.Register? || a.Yield? || a.Disarm?
    || a.Judge? || a.Finish?
  }

  lemma RunsInside(s: Runtime, a: Action, f: nat)
    requires Can(s, a) && f < |s.fibers| && s.fibers[f].state.RUNNING? && OfFiber(a)
    ensures f < |Do(s, a).fibers|
    ensures Do(s, a).fibers[f].state.RUNNING? <==> !((a.Yield? || a.Finish?) && s.workers[a.w].f == f)
  {
    if a.Begin? {
      hide BeginCode;
      RunsBegun(s, s.workers[a.w].f, PcOf(s, a.w).code, f);
    } else if a.Expire2? {
      hide CancelWait;
      RunsCancelled(s, s.workers[a.w].f, PcOf(s, a.w).call, a.ok, f);
    }
  }

  lemma RunsBegun(s: Runtime, g: nat, code: Code, f: nat)
    requires f < |s.fibers| && s.fibers[f].state.RUNNING? && g < |s.fibers|
    ensures f < |BeginCode(s, g, code).fibers| && BeginCode(s, g, code).fibers[f].state.RUNNING?
  {
  }

  lemma RunsCancelled(s: Runtime, g: nat, c: nat, ok: bool, f: nat)
    requires f < |s.fibers| && s.fibers[f].state.RUNNING? && g < |s.fibers|
    ensures f < |CancelWait(s, g, c, ok).fibers| && CancelWait(s, g, c, ok).fibers[f].state.RUNNING?
  {
  }

  lemma RunsOutside(s: Runtime, a: Action, f: nat)
    requires Can(s, a) && f < |s.fibers| && s.fibers[f].state.RUNNING? && !OfFiber(a)
    ensures f < |Do(s, a).fibers| && Do(s, a).fibers[f].state.RUNNING?
  {
    hide FirstEligible;
  }

  /** A fiber runs until it yields or ends. */
  lemma RunsOn(s: Runtime, a: Action, f: nat)
    requires Can(s, a) && f < |s.fibers| && s.fibers[f].state.RUNNING?
    ensures f < |Do(s, a).fibers|
    ensures Do(s, a).fibers[f].state.RUNNING? <==> !((a.Yield? || a.Finish?) && s.workers[a.w].f == f)
  {
    hide Do;
    if OfFiber(a) {
      RunsInside(s, a, f);
    } else {
      RunsOutside(s, a, f);
    }
  }

  /** Only a resume makes a fiber run. */
  lemma NotRun(s: Runtime, a: Action, f: nat)
    requires Can(s, a) && NewTask(s, a).Some? && f < |Do(s, a).fibers| && Do(s, a).fibers[f].state.RUNNING?
    ensures f < |s.fibers| && s.fibers[f].state.RUNNING?
  {
  }

  lemma FetchMakesNone(s: Runtime, v: nat, w: nat)
    requires Can(s, Fetch(v)) && !Work(s, w)
    ensures !Work(Do(s, Fetch(v)), w)
  {
    hide FirstEligible, Eligible;
    var t := Do(s, Fetch(v));
    forall i | 0 <= i < |t.queue|
      ensures !Eligible(t.queue[i], w, t.fibers)
    {
      var k := FirstEligible(s.queue, v, s.fibers);
      assert t.queue[i] == s.queue[if i < k then i else if k < |s.queue| then i + 1 else i];
    }
  }

  /** A worker without work is given some, and nobody is told, exactly by the steps that Silent names. */
  lemma StepTells(s: Runtime, a: Action, w: nat)
    requires Can(s, a) && IsDozing(s, w) && !By(a, w) && !Work(s, w)
    ensures Work(Do(s, a), w) && !Announces(s, a) <==> Silent(s, a, w)
  {
    hide Can, Do, NewTask, LeavesSome;
    if a.Fetch? {
      FetchMakesNone(s, a.w, w);
      NoTask(s, a);
    } else {
      Queues(s, a);
      if Work(Do(s, a), w) && !Announces(s, a) {
        SilentSince(s, a, w);
      }
      if Silent(s, a, w) {
        SilentGives(s, a, w);
      }
    }
  }

  lemma NoTask(s: Runtime, a: Action)
    requires Can(s, a) && (a.Fetch? || a.Yield? || a.Finish? || a.Stop? || a.Collect?)
    ensures NewTask(s, a) == None
  {
  }

  lemma SilentSince(s: Runtime, a: Action, w: nat)
    requires Can(s, a) && !a.Fetch? && !Work(s, w) && Work(Do(s, a), w) && !Announces(s, a)
    ensures Silent(s, a, w)
  {
    hide Can, Do, NewTask;
    Queues(s, a);
    var t := Do(s, a);
    var i :| 0 <= i < |t.queue| && Eligible(t.queue[i], w, t.fibers);
    var task := t.queue[i];
    if i < |s.queue| {
      assert task == s.queue[i] && !Eligible(s.queue[i], w, s.fibers);
      RunsOn(s, a, task.job.f);
      assert Leaves(s.queue[i], task.job.f, w);
    } else {
      if task.job.RunFiber? && task.job.f < |s.fibers| && s.fibers[task.job.f].state.RUNNING? {
        RunsOn(s, a, task.job.f);
        NoTask(s, a);
      }
    }
  }

  lemma SilentGives(s: Runtime, a: Action, w: nat)
    requires Can(s, a) && !a.Fetch? && Silent(s, a, w)
    ensures Work(Do(s, a), w) && !Announces(s, a)
  {
    hide Can, Do, NewTask;
    Queues(s, a);
    var t := Do(s, a);
    if NewTask(s, a).Some? && s.queue != [] && Eligible(NewTask(s, a).value, w, s.fibers) {
      var task := NewTask(s, a).value;
      assert t.queue[|s.queue|] == task;
      if task.job.RunFiber? && task.job.f < |t.fibers| && t.fibers[task.job.f].state.RUNNING? {
        NotRun(s, a, task.job.f);
      }
      if a.Stop? {
        NoTask(s, a);
      }
    } else {
      NoTask(s, a);
      Stopped(s, a);
      var i :| 0 <= i < |s.queue| && Leaves(s.queue[i], s.workers[a.w].f, w);
      assert t.queue[i] == s.queue[i];
    }
  }

  lemma Stopped(s: Runtime, a: Action)
    requires Can(s, a) && (a.Yield? || a.Finish?)
    ensures a.w < |s.workers| && s.workers[a.w].Running?
    ensures var f := s.workers[a.w].f; f < |Do(s, a).fibers| && !Do(s, a).fibers[f].state.RUNNING?
  {
  }

  /** Work that waits unannounced waits no longer than to the next search by anyone: the search takes the last of it,
      or tickles. */
  lemma SearchTells(s: Runtime, v: nat, w: nat)
    requires Can(s, Fetch(v)) && Work(s, w) && Work(Do(s, Fetch(v)), w)
    ensures Announces(s, Fetch(v))
  {
    hide FirstEligible;
    var t, k := Do(s, Fetch(v)), FirstEligible(s.queue, v, s.fibers);
    var i :| 0 <= i < |t.queue| && Eligible(t.queue[i], w, t.fibers);
    assert t.queue[i] == s.queue[if i < k then i else if k < |s.queue| then i + 1 else i];
    if i < k {
      assert !Eligible(s.queue[i], v, s.fibers) && Elsewhere(s.queue[i], v);
    }
  }

  // ---------------------------------------------------------------- runs

  /** Who of the idle workers was told to look, since it dozed off. */
  ghost function ToldAfter(s: Runtime, a: Action, told: set<nat>): set<nat>
    requires Can(s, a)
  {
    match a
    case Fetch(w) => (if LeavesSome(s, w) then Idlers(s) else told) - {w}
    case Collect(w, _) => told + {w}
    case Pass(w) => if Announces(s, a) then Idlers(s) else told + {w}
    case _ => if Announces(s, a) then Idlers(s) else told
  }

  ghost function Idlers(s: Runtime): set<nat> {
    set w: nat | 0 <= w < |s.workers| && s.workers[w].Dozing?
  }

  /** Whoever sleeps while there is work for it has been told. */
  ghost predicate Informed(s: Runtime, told: set<nat>) {
    forall w: nat :: IsDozing(s, w) && Work(s, w) ==> w in told
  }

  /** Nobody who was not told is given work silently. */
  ghost predicate NobodyMissed(s: Runtime, a: Action, told: set<nat>)
    requires Can(s, a)
  {
    forall w: nat :: IsDozing(s, w) && !By(a, w) && w !in told ==> !Silent(s, a, w)
  }

  /** No wake-up is lost in a step exactly when it gives no worker that was not told something to do silently. */
  lemma StepInforms(s: Runtime, a: Action, told: set<nat>)
    requires Can(s, a) && Informed(s, told)
    ensures Informed(Do(s, a), ToldAfter(s, a, told)) <==> NobodyMissed(s, a, told)
  {
    hide Can, Do, Silent, LeavesSome, NewTask, Work, Announces;
    var t, after := Do(s, a), ToldAfter(s, a, told);
    forall w: nat | IsDozing(t, w) && !By(a, w)
      ensures IsDozing(s, w)
    {
      DozesOn(s, a, w);
    }
    forall w: nat | IsDozing(s, w) && !By(a, w)
      ensures IsDozing(t, w)
      ensures w !in told ==> (Work(t, w) && w !in after <==> Silent(s, a, w))
    {
      DozesOn(s, a, w);
      ToldOf(s, a, told, w);
      if w !in told {
        StepTells(s, a, w);
      }
    }
    forall w: nat | IsDozing(t, w) && By(a, w)
      ensures Work(t, w) ==> w in after
    {
      OwnStep(s, a, w, told);
    }
    forall w: nat | IsDozing(s, w) && !By(a, w) && w in told
      ensures w in after
    {
      ToldOf(s, a, told, w);
    }
  }

  lemma DozesOn(s: Runtime, a: Action, w: nat)
    requires Can(s, a) && !By(a, w)
    ensures IsDozing(s, w) <==> IsDozing(Do(s, a), w)
  {
    hide FirstEligible;
  }

  lemma ToldOf(s: Runtime, a: Action, told: set<nat>, w: nat)
    requires Can(s, a) && IsDozing(s, w) && !By(a, w)
    ensures w in ToldAfter(s, a, told) <==> w in told || Announces(s, a)
  {
    hide LeavesSome, NewTask;
    if a.Collect? {
      NoTask(s, a);
    }
  }

  /** A search that leads to the idle fiber has found nothing; and who handles timers is awake. */
  lemma OwnStep(s: Runtime, a: Action, w: nat, told: set<nat>)
    requires Can(s, a) && By(a, w) && IsDozing(Do(s, a), w)
    ensures Work(Do(s, a), w) ==> w in ToldAfter(s, a, told)
  {
    hide NewTask;
    if a.Fetch? {
      var t := Do(s, a);
      assert t.queue == s.queue && t.fibers == s.fibers;
    }
  }

  /** A run in which no step gives work silently. */
  ghost predicate Speaks(s: Runtime, run: seq<Action>, told: set<nat>)
    requires CanRun(s, run)
    decreases |run|
  {
    run == [] || (NobodyMissed(s, run[0], told) && Speaks(Do(s, run[0]), run[1..], ToldAfter(s, run[0], told)))
  }

  ghost function ToldBy(s: Runtime, run: seq<Action>, told: set<nat>): set<nat>
    requires CanRun(s, run)
    decreases |run|
  {
    if run == [] then told else ToldBy(Do(s, run[0]), run[1..], ToldAfter(s, run[0], told))
  }

  /** No wake-up is ever lost in such a run. */
  lemma {:induction false} RunInforms(s: Runtime, run: seq<Action>, told: set<nat>)
    requires CanRun(s, run) && Informed(s, told) && Speaks(s, run, told)
    ensures Informed(Run(s, run), ToldBy(s, run, told))
    decreases |run|
  {
    hide Can, Do, Informed, NobodyMissed, ToldAfter;
    if run != [] {
      StepInforms(s, run[0], told);
      RunInforms(Do(s, run[0]), run[1..], ToldAfter(s, run[0], told));
    }
  }

  // ---------------------------------------------------------------- a wake-up that is lost

  /** Two workers, the first about to search. */
  function Two(second: Worker, queue: seq<Task>, idle: int): Runtime {
    Runtime(queue, [Looking, second], [false, false], [], [], [], [], seq(|queue|, _ => 0), 0, idle, false)
  }

  const PINNED := Task(RunCode(User(0)), 0)
  const LOOSE := Task(RunCode(User(1)), ANYWHERE)

  lemma DozeOff()
    ensures var s := Two(Looking, [], 0);
      Init(2) == s && Can(s, Fetch(1)) && Do(s, Fetch(1)) == Two(Dozing([]), [], 1) && !LeavesSome(s, 1)
  {
    assert Init(2).workers == [Looking, Looking] && Init(2).ended == [false, false];
    assert [Looking, Looking][1 := Dozing([])] == [Looking, Dozing([])];
  }

  lemma PinOne()
    ensures var s := Two(Dozing([]), [], 1); Can(s, Submit(0)) && Do(s, Submit(0)) == Two(Dozing([]), [PINNED], 1)
    ensures var s := Two(Dozing([]), [PINNED], 1); Can(s, WakeUp(1)) && Do(s, WakeUp(1)) == Two(Looking, [PINNED], 0)
  {
    assert [] + [PINNED] == [PINNED];
    assert [Looking, Dozing([])][1 := Looking] == [Looking, Looking];
  }

  lemma DozeAgain()
    ensures var s := Two(Looking, [PINNED], 0);
      Can(s, Fetch(1)) && Do(s, Fetch(1)) == Two(Dozing([]), [PINNED], 1) && Idlers(s) == {}
  {
    assert [Looking, Looking][1 := Dozing([])] == [Looking, Dozing([])];
    assert [PINNED][1..] == [];
  }

  lemma AddLoose()
    ensures var s := Two(Dozing([]), [PINNED], 1);
      Can(s, Submit(ANYWHERE)) && Do(s, Submit(ANYWHERE)) == Two(Dozing([]), [PINNED, LOOSE], 1)
      && !Announces(s, Submit(ANYWHERE))
    ensures Work(Two(Dozing([]), [PINNED, LOOSE], 1), 1)
  {
    assert [PINNED] + [LOOSE] == [PINNED, LOOSE];
    assert Eligible([PINNED, LOOSE][1], 1, []);
  }

  lemma Onward(s: Runtime, a: Action, rest: seq<Action>, told: set<nat>)
    requires Can(s, a) && CanRun(Do(s, a), rest)
    ensures CanRun(s, [a] + rest) && Run(s, [a] + rest) == Run(Do(s, a), rest)
    ensures ToldBy(s, [a] + rest, told) == ToldBy(Do(s, a), rest, ToldAfter(s, a, told))
  {
    hide Can, Do, ToldAfter;
    assert ([a] + rest)[0] == a && ([a] + rest)[1..] == rest;
  }

  /** The second worker finds only a task for the first and dozes off again; a task for anyone then queues up behind
      that one, and nobody tells the idle worker. */
  lemma TickleLost()
    ensures exists run :: CanRun(Init(2), run) && !Informed(Run(Init(2), run), ToldBy(Init(2), run, {}))
  {
    hide Can, Do, Two, Init, LeavesSome, Work, Announces, Idlers;
    DozeOff();
    PinOne();
    DozeAgain();
    AddLoose();
    var s0, s1, s2 := Two(Looking, [], 0), Two(Dozing([]), [], 1), Two(Dozing([]), [PINNED], 1);
    var s3, s5 := Two(Looking, [PINNED], 0), Two(Dozing([]), [PINNED, LOOSE], 1);
    var t1 := ToldAfter(s0, Fetch(1), {});
    var t2 := ToldAfter(s1, Submit(0), t1);
    var t3 := ToldAfter(s2, WakeUp(1), t2);
    var t4 := ToldAfter(s3, Fetch(1), t3);
    var t5 := ToldAfter(s2, Submit(ANYWHERE), t4);
    assert 1 !in t5;
    var r5: seq<Action> := [];
    assert CanRun(s5, r5) && Run(s5, r5) == s5 && ToldBy(s5, r5, t5) == t5;
    Onward(s2, Submit(ANYWHERE), r5, t4);
    var r4 := [Submit(ANYWHERE)] + r5;
    Onward(s3, Fetch(1), r4, t3);
    var r3 := [Fetch(1)] + r4;
    Onward(s2, WakeUp(1), r3, t2);
    var r2 := [WakeUp(1)] + r3;
    Onward(s1, Submit(0), r2, t1);
    var r1 := [Submit(0)] + r2;
    Onward(s0, Fetch(1), r1, {});
    var run := [Fetch(1)] + r1;
    StillDozing();
    assert CanRun(Init(2), run) && Run(Init(2), run) == s5 && ToldBy(Init(2), run, {}) == t5;
  }

  lemma StillDozing()
    ensures IsDozing(Two(Dozing([]), [PINNED, LOOSE], 1), 1)
  {
  }
}
