/** What a worker holds: a ready fiber, and a task that may run on its thread. */
module RuntimeHands {
  import opened Bytes
  import opened Scheduling
  import opened Sums
  import opened RuntimeState
  import opened RuntimeTokens
  import opened RuntimeBalance
  import opened RuntimeProtocol

  // ---------------------------------------------------------------- hands

  /** A task in a worker's hand is for any thread, or for this one. */
  ghost predicate Pinned(s: Runtime) {
    forall w :: 0 <= w < |s.workers| && s.workers[w].Hand? ==>
      s.workers[w].task.thread == ANYWHERE || s.workers[w].task.thread == w
  }

  ghost predicate AllBalanced(s: Runtime) {
    forall x: Token :: Balanced(s, x)
  }

  /** Workers hold what they held, or less, and no ready fiber has changed its state. */
  lemma HandsKept(s: Runtime, t: Runtime)
    requires HandReady(s) && Pinned(s) && |t.workers| == |s.workers| && |s.fibers| <= |t.fibers|
    requires forall w :: 0 <= w < |s.workers| ==> t.workers[w] == s.workers[w] || !t.workers[w].Hand?
    requires forall f :: 0 <= f < |s.fibers| && s.fibers[f].state.READY? ==> t.fibers[f].state.READY?
    ensures HandReady(t) && Pinned(t)
  {
  }

  lemma FetchHands(s: Runtime, w: nat)
    requires Can(s, Fetch(w)) && HandReady(s) && Pinned(s) && AllBalanced(s)
    ensures HandReady(Do(s, Fetch(w))) && Pinned(Do(s, Fetch(w)))
  {
    hide Pending, Ready, Cpu, FirstEligible;
    var k := FirstEligible(s.queue, w, s.fibers);
    if k < |s.queue| && s.queue[k].job.RunFiber? {
      var f := s.queue[k].job.f;
      InQueue(s, k, OfFiber(f));
      assert Balanced(s, OfFiber(f));
    }
  }

  lemma ResumeHands(s: Runtime, w: nat)
    requires Can(s, Resume(w)) && HandReady(s) && Pinned(s) && AllBalanced(s)
    ensures HandReady(Do(s, Resume(w))) && Pinned(Do(s, Resume(w)))
  {
    hide Pending, Cpu, Sum;
    var t := Do(s, Resume(w));
    forall v | 0 <= v < |t.workers| && t.workers[v].Hand? && t.workers[v].task.job.RunFiber?
      ensures t.workers[v].task.job.f < |t.fibers| && t.fibers[t.workers[v].task.job.f].state.READY?
    {
      assert v != w && t.workers[v] == s.workers[v];
      var f := s.workers[v].task.job.f;
      assert Balanced(s, OfFiber(f));
      SumTwo(s.workers, if v < w then v else w, if v < w then w else v, ReadyWorker(OfFiber(f)));
    }
  }

  predicate Enqueues(a: Action) {
    a.Submit? || a.SubmitFiber? || a.Trigger? || a.Pass?
  }

  /** schedule leaves states and workers alone. */
  lemma EnqueueHands(s: Runtime, a: Action)
    requires Can(s, a) && HandReady(s) && Pinned(s) && Enqueues(a)
    ensures HandReady(Do(s, a)) && Pinned(Do(s, a))
  {
    hide HandReady, Pinned, Enqueue;
    match a
    case Submit(thread) =>
      EnqueuedFibers(s.(runs := s.runs + [0]), RunCode(User(|s.runs|)), thread);
      HandsKept(s, Do(s, a));
    case SubmitFiber(thread) =>
      EnqueuedFibers(s.(fibers := s.fibers + [Thread(READY, Body, 1, 0, 0)]), RunFiber(|s.fibers|), thread);
      HandsKept(s, Do(s, a));
    case Trigger(i) =>
      EnqueuedFibers(s.(slots := s.slots[i := None]), WaiterJob(s.slots[i].value), ANYWHERE);
      HandsKept(s, Do(s, a));
    case Pass(w) =>
      var todo := s.workers[w].todo;
      EnqueuedFibers(s.(workers := s.workers[w := Dozing(todo[1..])]), RunCode(todo[0]), ANYWHERE);
      HandsKept(s, Do(s, a));
  }

  lemma HandOverHands(s: Runtime, a: Action)
    requires Can(s, a) && HandReady(s) && Pinned(s) && (a.Requeue? || a.Begin? || a.Expire2?)
    ensures HandReady(Do(s, a)) && Pinned(Do(s, a))
  {
    hide HandReady, Pinned, Enqueue;
    match a
    case Requeue(w, thread) =>
      EnqueuedFibers(Park(s, s.workers[w].f, Parking), RunFiber(s.workers[w].f), thread);
      HandsKept(s, Do(s, a));
    case Begin(w) =>
      var t := SetPc(s, s.workers[w].f, Ending);
      match PcOf(s, w).code {
        case Wake(g) => EnqueuedFibers(t, RunFiber(g), ANYWHERE);
        case _ =>
      }
      HandsKept(s, Do(s, a));
    case Expire2(w, ok) =>
      var c := PcOf(s, w).call;
      var t := SpendCall(SetPc(s, s.workers[w].f, Ending), c);
      if ok && c < |s.calls| && s.calls[c].slot < |s.slots| && s.slots[s.calls[c].slot].Some? {
        var i := s.calls[c].slot;
        EnqueuedFibers(t.(slots := t.slots[i := None]), WaiterJob(t.slots[i].value), ANYWHERE);
      }
      HandsKept(s, Do(s, a));
  }

  predicate Hooks(a: Action) {
    a.OpenCall? || a.Try? || a.Register? || a.Disarm? || a.Judge?
  }

  lemma HookHands(s: Runtime, a: Action)
    requires Can(s, a) && HandReady(s) && Pinned(s) && Hooks(a)
    ensures HandReady(Do(s, a)) && Pinned(Do(s, a))
  {
    hide HandReady, Pinned, Do;
    HookKeeps(s, a);
    HandsKept(s, Do(s, a));
  }

  lemma HookKeeps(s: Runtime, a: Action)
    requires Can(s, a) && Hooks(a)
    ensures Do(s, a).workers == s.workers && |Do(s, a).fibers| == |s.fibers|
    ensures forall f :: 0 <= f < |s.fibers| ==> Do(s, a).fibers[f].state == s.fibers[f].state
  {
  }

  lemma StepHands(s: Runtime, a: Action)
    requires Can(s, a) && HandReady(s) && Pinned(s) && AllBalanced(s)
    ensures HandReady(Do(s, a)) && Pinned(Do(s, a))
  {
    hide HandReady, Pinned, AllBalanced, FetchTask, ResumeJob, Can;
    if Enqueues(a) {
      EnqueueHands(s, a);
    } else if a.Requeue? || a.Begin? || a.Expire2? {
      HandOverHands(s, a);
    } else if Hooks(a) {
      HookHands(s, a);
    } else if a.Fetch? {
      FetchHands(s, a.w);
    } else if a.Resume? {
      ResumeHands(s, a.w);
    } else {
      PhaseHands(s, a);
    }
  }

  lemma PhaseHands(s: Runtime, a: Action)
    requires Can(s, a) && HandReady(s) && Pinned(s) && !Enqueues(a) && !Hooks(a)
    requires !a.Fetch? && !a.Resume? && !a.Requeue? && !a.Begin? && !a.Expire2?
    ensures HandReady(Do(s, a)) && Pinned(Do(s, a))
  {
    hide HandReady, Pinned;
    match a
    case Release(_) => HandsKept(s, Do(s, a));
    case Sleep(_) => HandsKept(s, Do(s, a));
    case Yield(_) => HandsKept(s, Do(s, a));
    case Finish(_) => HandsKept(s, Do(s, a));
    case Collect(_, _) => HandsKept(s, Do(s, a));
    case WakeUp(_) => HandsKept(s, Do(s, a));
    case Leave(_) => HandsKept(s, Do(s, a));
    case SubmitTimer => HandsKept(s, Do(s, a));
    case SubmitWaiter(_) => HandsKept(s, Do(s, a));
    case GrowSlots => HandsKept(s, Do(s, a));
    case Stop => HandsKept(s, Do(s, a));
  }
}
