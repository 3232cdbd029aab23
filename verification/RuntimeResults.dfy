/** What the runtime guarantees in every state that a run can reach: each waiting fiber is in one
    place, is woken once, and runs on one worker; and when the base scheduler may stop. */
module RuntimeResults {
  import opened Bytes
  import opened Scheduling
  import opened Sums
  import opened RuntimeState
  import opened RuntimeTokens
  import opened RuntimeBalance
  import opened RuntimeProtocol
  import opened RuntimeHands
  import opened RuntimeRuns

  // ---------------------------------------------------------------- places

  /** Where a fiber that is to be resumed, or a callback that is to be run, can be. */
  datatype Place =
    | AtQueue(i: nat)          // in the queue of tasks
    | AtHand(w: nat)           // in a worker's hand
    | AtTodo(w: nat, j: nat)   // among the expired callbacks an idle fiber has collected
    | AtSlot(i: nat)           // in an event slot
    | AtTimer(t: nat)          // in a timer that is set
    | AtFiber(f: nat)          // in a callback fiber that has not begun

  ghost predicate Keeps(s: Runtime, p: Place, x: Token) {
    match p
    case AtQueue(i) => i < |s.queue| && JobPending(s.queue[i].job, x) + JobReady(s.queue[i].job, x) > 0
    case AtHand(w) =>
      w < |s.workers| && s.workers[w].Hand?
      && JobPending(s.workers[w].task.job, x) + JobReady(s.workers[w].task.job, x) > 0
    case AtTodo(w, j) =>
      w < |s.workers| && s.workers[w].Dozing? && j < |s.workers[w].todo| && CodeWeight(s.workers[w].todo[j], x) > 0
    case AtSlot(i) => i < |s.slots| && SlotWeight(s.slots[i], x) > 0
    case AtTimer(t) => t < |s.timers| && TimerWeight(s.timers[t], x) > 0
    case AtFiber(f) => f < |s.fibers| && PcWeight(s.fibers[f].pc, x) > 0
  }

  function InQueueSum(s: Runtime, x: Token): nat {
    Sum(s.queue, PendingTask(x)) + Sum(s.queue, ReadyTask(x))
  }

  function InWorkersSum(s: Runtime, x: Token): nat {
    Sum(s.workers, PendingWorker(x)) + Sum(s.workers, ReadyWorker(x))
  }

  /** The share of the kind of place. */
  function Share(s: Runtime, p: Place, x: Token): nat {
    match p
    case AtQueue(_) => InQueueSum(s, x)
    case AtHand(_) => InWorkersSum(s, x)
    case AtTodo(_, _) => InWorkersSum(s, x)
    case AtSlot(_) => Sum(s.slots, PendingSlot(x))
    case AtTimer(_) => Sum(s.timers, PendingTimer(x))
    case AtFiber(_) => Sum(s.fibers, PendingFiber(x))
  }

  lemma WorkerOf(s: Runtime, p: Place, x: Token) returns (w: nat)
    requires Keeps(s, p, x) && (p.AtHand? || p.AtTodo?)
    ensures w == p.w < |s.workers| && WorkerPending(s.workers[w], x) + WorkerReady(s.workers[w], x) > 0
  {
    w := p.w;
    if p.AtTodo? {
      SumCell(s.workers[w].todo, p.j, CodeIs(x));
    }
  }

  lemma AtLeastOne(s: Runtime, p: Place, x: Token)
    requires Keeps(s, p, x)
    ensures Share(s, p, x) >= 1
  {
    hide Sum, WorkerPending, WorkerReady;
    match p
    case AtQueue(i) =>
      SumCell(s.queue, i, PendingTask(x));
      SumCell(s.queue, i, ReadyTask(x));
    case AtSlot(i) => SumCell(s.slots, i, PendingSlot(x));
    case AtTimer(t) => SumCell(s.timers, t, PendingTimer(x));
    case AtFiber(f) => SumCell(s.fibers, f, PendingFiber(x));
    case _ =>
      var w := WorkerOf(s, p, x);
      SumCell(s.workers, w, PendingWorker(x));
      SumCell(s.workers, w, ReadyWorker(x));
  }

  /** Two places of the same kind. */
  lemma AtLeastTwo(s: Runtime, p: Place, q: Place, x: Token)
    requires Keeps(s, p, x) && Keeps(s, q, x) && p != q
    ensures p.AtQueue? && q.AtQueue? ==> InQueueSum(s, x) >= 2
    ensures p.AtSlot? && q.AtSlot? ==> Sum(s.slots, PendingSlot(x)) >= 2
    ensures p.AtTimer? && q.AtTimer? ==> Sum(s.timers, PendingTimer(x)) >= 2
    ensures p.AtFiber? && q.AtFiber? ==> Sum(s.fibers, PendingFiber(x)) >= 2
  {
    hide Sum;
    match p {
      case AtQueue(i) =>
        if q.AtQueue? {
          SumTwo(s.queue, if i < q.i then i else q.i, if i < q.i then q.i else i, PendingTask(x));
          SumTwo(s.queue, if i < q.i then i else q.i, if i < q.i then q.i else i, ReadyTask(x));
        }
      case AtSlot(i) =>
        if q.AtSlot? {
          SumTwo(s.slots, if i < q.i then i else q.i, if i < q.i then q.i else i, PendingSlot(x));
        }
      case AtTimer(t) =>
        if q.AtTimer? {
          SumTwo(s.timers, if t < q.t then t else q.t, if t < q.t then q.t else t, PendingTimer(x));
        }
      case AtFiber(f) =>
        if q.AtFiber? {
          SumTwo(s.fibers, if f < q.f then f else q.f, if f < q.f then q.f else f, PendingFiber(x));
        }
      case _ =>
    }
  }

  lemma WorkersTwo(s: Runtime, p: Place, q: Place, x: Token)
    requires Keeps(s, p, x) && Keeps(s, q, x) && p != q && (p.AtHand? || p.AtTodo?) && (q.AtHand? || q.AtTodo?)
    ensures InWorkersSum(s, x) >= 2
  {
    hide Sum, WorkerPending, WorkerReady;
    var v := WorkerOf(s, p, x);
    var w := WorkerOf(s, q, x);
    if v == w {
      SumTwo(s.workers[w].todo, if p.j < q.j then p.j else q.j, if p.j < q.j then q.j else p.j, CodeIs(x));
      DozingWeight(s.workers[w], x);
      SumCell(s.workers, w, PendingWorker(x));
    } else {
      SumTwo(s.workers, if v < w then v else w, if v < w then w else v, PendingWorker(x));
      SumTwo(s.workers, if v < w then v else w, if v < w then w else v, ReadyWorker(x));
    }
  }

  lemma DozingWeight(v: Worker, x: Token)
    ensures v.Dozing? ==> WorkerPending(v, x) == Sum(v.todo, CodeIs(x))
  {
  }

  lemma OnePlace(s: Runtime, p: Place, q: Place, x: Token)
    requires Keeps(s, p, x) && Keeps(s, q, x) && Pending(s, x) + Ready(s, x) <= 1
    ensures p == q
  {
    hide Sum, Keeps;
    AtLeastOne(s, p, x);
    AtLeastOne(s, q, x);
    if p != q {
      AtLeastTwo(s, p, q, x);
      if (p.AtHand? || p.AtTodo?) && (q.AtHand? || q.AtTodo?) {
        WorkersTwo(s, p, q, x);
      }
    }
  }

  /** A token that is counted is somewhere. */
  lemma SomePlace(s: Runtime, x: Token) returns (p: Place)
    requires Pending(s, x) + Ready(s, x) > 0
    ensures Keeps(s, p, x)
  {
    hide Sum;
    if Sum(s.queue, PendingTask(x)) > 0 {
      var i := SumPositive(s.queue, PendingTask(x));
      p := AtQueue(i);
    } else if Sum(s.queue, ReadyTask(x)) > 0 {
      var i := SumPositive(s.queue, ReadyTask(x));
      p := AtQueue(i);
    } else if Sum(s.workers, PendingWorker(x)) > 0 {
      var w := SumPositive(s.workers, PendingWorker(x));
      if s.workers[w].Hand? {
        p := AtHand(w);
      } else {
        var j := SumPositive(s.workers[w].todo, CodeIs(x));
        p := AtTodo(w, j);
      }
    } else if Sum(s.workers, ReadyWorker(x)) > 0 {
      var w := SumPositive(s.workers, ReadyWorker(x));
      p := AtHand(w);
    } else if Sum(s.slots, PendingSlot(x)) > 0 {
      var i := SumPositive(s.slots, PendingSlot(x));
      p := AtSlot(i);
    } else if Sum(s.timers, PendingTimer(x)) > 0 {
      var t := SumPositive(s.timers, PendingTimer(x));
      p := AtTimer(t);
    } else {
      var f := SumPositive(s.fibers, PendingFiber(x));
      p := AtFiber(f);
    }
  }

  // ---------------------------------------------------------------- single occupancy

  /** A fiber is in one place at most, whatever the interleaving. */
  lemma SingleOccupancy(s: Runtime, p: Place, q: Place, f: nat)
    requires Reachable(s) && Keeps(s, p, OfFiber(f)) && Keeps(s, q, OfFiber(f))
    ensures p == q && f < |s.fibers| && s.fibers[f].Due()
  {
    hide Inv, Keeps, Pending, Ready, Cpu;
    ReachableBalance(s, OfFiber(f));
    CountedWhenKept(s, p, OfFiber(f));
    OnePlace(s, p, q, OfFiber(f));
  }

  lemma ReachableBalance(s: Runtime, x: Token)
    requires Reachable(s)
    ensures Balanced(s, x)
  {
    hide Reachable, Balanced;
    ReachableInv(s);
  }

  lemma CountedWhenKept(s: Runtime, p: Place, x: Token)
    requires Keeps(s, p, x)
    ensures Pending(s, x) + Ready(s, x) >= 1
  {
    hide Sum, Keeps;
    AtLeastOne(s, p, x);
  }

  /** A fiber that is ready, or has handed itself over, is in exactly one place; any other in none. */
  lemma NobodyForgotten(s: Runtime, f: nat)
    requires Reachable(s) && f < |s.fibers|
    ensures s.fibers[f].Due() <==> exists p :: Keeps(s, p, OfFiber(f))
  {
    hide Inv, Keeps, Pending, Ready, Cpu;
    ReachableBalance(s, OfFiber(f));
    if s.fibers[f].Due() {
      var p := SomePlace(s, OfFiber(f));
    }
    if exists p :: Keeps(s, p, OfFiber(f)) {
      var p :| Keeps(s, p, OfFiber(f));
      CountedWhenKept(s, p, OfFiber(f));
    }
  }

  /** No fiber is on two workers, and the one on a worker is running. */
  lemma OneThread(s: Runtime, v: nat, w: nat, f: nat)
    requires Reachable(s) && v < |s.workers| && w < |s.workers|
    requires s.workers[v] == Running(f) && s.workers[w] == Running(f)
    ensures v == w && f < |s.fibers| && s.fibers[f].state.RUNNING?
  {
    hide Inv, Pending, Ready, Sum;
    var x := OfFiber(f);
    ReachableBalance(s, x);
    InWorker(s, v, x);
    if v != w {
      SumTwo(s.workers, if v < w then v else w, if v < w then w else v, CpuWorker(x));
    }
  }

  /** run never resumes a running or a finished fiber, nor a task of another thread. */
  lemma ResumesReady(s: Runtime, w: nat)
    requires Reachable(s) && Can(s, Resume(w))
    ensures var task := s.workers[w].task;
      && (task.thread == ANYWHERE || task.thread == w)
      && (task.job.RunFiber? ==> task.job.f < |s.fibers| && s.fibers[task.job.f].state.READY?)
  {
    hide Reachable, AllBalanced, Protocol, Counted;
    ReachableInv(s);
  }

  /** The place is on the way to the processor: the queue or a hand, as a fiber. */
  ghost predicate OnItsWay(s: Runtime, p: Place) {
    match p
    case AtQueue(i) => i < |s.queue| && s.queue[i].job.RunFiber?
    case AtHand(w) => w < |s.workers| && s.workers[w].Hand? && s.workers[w].task.job.RunFiber?
    case _ => false
  }

  lemma PendingWhenWaiting(s: Runtime, p: Place, x: Token)
    requires Keeps(s, p, x) && !OnItsWay(s, p)
    ensures Pending(s, x) >= 1
  {
    hide Sum;
    match p
    case AtQueue(i) => SumCell(s.queue, i, PendingTask(x));
    case AtHand(w) => SumCell(s.workers, w, PendingWorker(x));
    case AtTodo(w, j) =>
      SumCell(s.workers[w].todo, j, CodeIs(x));
      SumCell(s.workers, w, PendingWorker(x));
    case AtSlot(i) => SumCell(s.slots, i, PendingSlot(x));
    case AtTimer(t) => SumCell(s.timers, t, PendingTimer(x));
    case AtFiber(f) => SumCell(s.fibers, f, PendingFiber(x));
  }

  lemma WaitingWhenPending(s: Runtime, x: Token) returns (p: Place)
    requires Pending(s, x) > 0
    ensures Keeps(s, p, x) && !OnItsWay(s, p)
  {
    hide Sum;
    if Sum(s.queue, PendingTask(x)) > 0 {
      var i := SumPositive(s.queue, PendingTask(x));
      p := AtQueue(i);
    } else if Sum(s.workers, PendingWorker(x)) > 0 {
      var w := SumPositive(s.workers, PendingWorker(x));
      if s.workers[w].Hand? {
        p := AtHand(w);
      } else {
        var j := SumPositive(s.workers[w].todo, CodeIs(x));
        p := AtTodo(w, j);
      }
    } else if Sum(s.slots, PendingSlot(x)) > 0 {
      var i := SumPositive(s.slots, PendingSlot(x));
      p := AtSlot(i);
    } else if Sum(s.timers, PendingTimer(x)) > 0 {
      var t := SumPositive(s.timers, PendingTimer(x));
      p := AtTimer(t);
    } else {
      var f := SumPositive(s.fibers, PendingFiber(x));
      p := AtFiber(f);
    }
  }

  /** Every wait is ended by one wake-up, and every wake-up by one resume: a fiber that has handed
      itself over is in a slot, a timer or a callback until the one wake-up of that wait, then in the
      queue or a hand until the one resume. */
  lemma WokenOnce(s: Runtime, f: nat, p: Place)
    requires Reachable(s) && f < |s.fibers|
    ensures var t := s.fibers[f];
      && t.resumes <= t.wakes <= t.parks == t.resumes + (if t.Due() then 1 else 0)
      && (Keeps(s, p, OfFiber(f)) ==> (t.wakes == t.parks <==> OnItsWay(s, p)))
  {
    hide Inv, Keeps, Pending, Ready, Cpu, OnItsWay;
    ReachableBalance(s, OfFiber(f));
    if Keeps(s, p, OfFiber(f)) {
      CountedWhenKept(s, p, OfFiber(f));
      if Pending(s, OfFiber(f)) > 0 {
        var q := WaitingWhenPending(s, OfFiber(f));
        OnePlace(s, p, q, OfFiber(f));
      } else if !OnItsWay(s, p) {
        PendingWhenWaiting(s, p, OfFiber(f));
      }
    }
  }

  /** A user callback begins once at most; until then it is in exactly one place, afterwards in none. */
  lemma RunOnce(s: Runtime, k: nat, p: Place, q: Place)
    requires Reachable(s) && k < |s.runs|
    ensures s.runs[k] <= 1
    ensures s.runs[k] == 0 <==> exists p :: Keeps(s, p, OfCode(k))
    ensures Keeps(s, p, OfCode(k)) && Keeps(s, q, OfCode(k)) ==> p == q
  {
    hide Inv, Keeps, Pending, Ready;
    ReachableBalance(s, OfCode(k));
    CodeNeverReady(s, k);
    if s.runs[k] == 0 {
      var r := SomePlace(s, OfCode(k));
    }
    if r: Place :| Keeps(s, r, OfCode(k)) {
      CountedWhenKept(s, r, OfCode(k));
    }
    if Keeps(s, p, OfCode(k)) && Keeps(s, q, OfCode(k)) {
      OnePlace(s, p, q, OfCode(k));
    }
  }

  lemma CodeNeverReady(s: Runtime, k: nat)
    ensures Ready(s, OfCode(k)) == 0
  {
    hide Sum;
    SumZero(s.queue, ReadyTask(OfCode(k)));
    SumZero(s.workers, ReadyWorker(OfCode(k)));
  }

  // ---------------------------------------------------------------- hooked calls

  /** A timeout that is set is that of an open call that waits or is about to, and the only one of it;
      so a call that has returned has left no timer behind. */
  lemma OneTimeout(s: Runtime, t: nat, u: nat, c: nat)
    requires Reachable(s) && t < |s.timers| && u < |s.timers|
    requires s.timers[t].live && s.timers[t].call == Some(c) && s.timers[u].live && s.timers[u].call == Some(c)
    ensures t == u && c < |s.calls| && s.calls[c].open && s.calls[c].timed && s.calls[c].owner < |s.fibers|
    ensures var pc := s.fibers[s.calls[c].owner].pc; CallOf(pc) == Some(c) && (pc.Armed? || pc.Waiting? || pc.Woken?)
  {
    hide Reachable, AllBalanced, HandReady, Pinned, Counted;
    ReachableInv(s);
    assert Belongs(s, t, c) && Belongs(s, u, c);
  }

  /** A fiber in an event slot waits for that event in an open call of its own. */
  lemma SlotWaiter(s: Runtime, i: nat, f: nat)
    requires Reachable(s) && i < |s.slots| && s.slots[i] == Some(FiberWaiter(f))
    ensures f < |s.fibers| && s.fibers[f].pc.Waiting?
    ensures var c := s.fibers[f].pc.call;
      c < |s.calls| && s.calls[c].open && s.calls[c].owner == f && s.calls[c].slot == i
  {
    hide Reachable, AllBalanced, HandReady, Pinned, Counted;
    ReachableInv(s);
    assert Holds(s, i, f);
    assert Owns(s, f, CallOf(s.fibers[f].pc).value);
  }
}
