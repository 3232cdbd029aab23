/** IOManager::stopping on the objects is the condition IoStopping of the state they stand for. */
module StoppingRuntime {
  import opened Bytes
  import T = Timers
  import I = IoManager
  import R = RuntimeState
  import EventsRuntime
  import Scheduling
  import SchedulerRuntime
  import Sums
  import TimersRuntime
  import RuntimeStop

  /** The count of pending events is zero exactly when nobody waits. */
  lemma PendingNone(slots: seq<I.Slots>)
    ensures I.SumBits(I.Masks(slots)) == 0 <==> forall fd: nat :: I.At(slots, fd).Mask() == {}
  {
    hide Sums.Sum, I.Slots.Mask;
    var masks := I.Masks(slots);
    NobodyThere();
    if I.SumBits(masks) == 0 {
      forall fd: nat
        ensures I.At(slots, fd).Mask() == {}
      {
        if fd < |slots| {
          Sums.SumCell(masks, fd, I.BitsOf());
          NoBits(masks[fd]);
        }
      }
    } else {
      var i := Sums.SumPositive(masks, I.BitsOf());
      assert I.At(slots, i).Mask() == masks[i] && I.Bits(masks[i]) > 0;
      NoBits(masks[i]);
    }
  }

  lemma NobodyThere()
    ensures I.NO_WAITERS.Mask() == {}
  {
  }

  lemma NoBits(m: I.Mask)
    ensures I.Bits(m) == 0 <==> m == {}
  {
    if I.Bits(m) == 0 {
      assert I.READ !in m && I.WRITE !in m;
      assert forall e :: e in m ==> e == I.READ || e == I.WRITE;
    }
  }

  lemma NobodyInSlots(slots: seq<I.Slots>, codes: seq<R.Code>, s: R.Runtime)
    requires EventsRuntime.Represents(slots, codes, s) && forall fd: nat :: I.At(slots, fd).Valid()
    ensures (forall fd: nat :: I.At(slots, fd).Mask() == {}) <==> forall i :: 0 <= i < |s.slots| ==> s.slots[i] == None
  {
    if forall fd: nat :: I.At(slots, fd).Mask() == {} {
      forall i | 0 <= i < |s.slots|
        ensures s.slots[i] == None
      {
        var fd, e := i / 2, if i % 2 == 0 then I.READ else I.WRITE;
        assert EventsRuntime.SlotOf(fd, e) == i && I.At(slots, fd).Mask() == {};
        assert EventsRuntime.WaiterFits(I.At(slots, fd).Of(e), EventsRuntime.SlotAt(s, i), codes);
      }
    }
    if forall i :: 0 <= i < |s.slots| ==> s.slots[i] == None {
      forall fd: nat, e: I.Event
        ensures e !in I.At(slots, fd).Mask()
      {
        assert EventsRuntime.WaiterFits(I.At(slots, fd).Of(e), EventsRuntime.SlotAt(s, EventsRuntime.SlotOf(fd, e)), codes);
      }
      forall fd: nat
        ensures I.At(slots, fd).Mask() == {}
      {
      }
    }
  }

  /** The two ways in which getNextTimer says that there is no timer: there is none, or at time zero every deadline is
      the last of all. */
  ghost predicate SaysNone(objs: seq<T.Timer>, s: R.Runtime, now: nat)
    requires |objs| == |s.timers|
    reads objs
  {
    forall k :: 0 <= k < |objs| && s.timers[k].live ==> now == 0 && objs[k].next == T.NO_TIMER
  }

  method NextTimerStep(m: T.TimerManager, now: nat, ghost objs: seq<T.Timer>, ghost codes: seq<R.Code>, ghost s: R.Runtime)
    returns (timeout: nat)
    requires m.Valid() && TimersRuntime.Represents(m, objs, codes, s) && now < UINT64_SPAN
    modifies m`tickled, m`observed, m`clock
    ensures m.Valid() && TimersRuntime.Represents(m, objs, codes, s) && m.Covered()
    ensures timeout == T.NO_TIMER <==> SaysNone(objs, s, now)
  {
    timeout := m.GetNextTimer(now);
    if timeout == T.NO_TIMER {
      forall k | 0 <= k < |objs| && s.timers[k].live
        ensures now == 0 && objs[k].next == T.NO_TIMER
      {
        assert objs[k] in m.timers && m.observed <= objs[k].next < UINT64_SPAN;
      }
    } else {
      ghost var t :| t in m.timers && t.next == m.observed;
      ghost var k :| 0 <= k < |objs| && objs[k] == t;
      assert s.timers[k].live;
    }
  }

  /** IOManager::stopping, at any time but zero, is IoStopping. */
  method IoStoppingStep(m: T.TimerManager, io: I.IOManager, sch: Scheduling.Scheduler, now: nat,
                        ghost objs: seq<T.Timer>, ghost fibers: seq<Scheduling.Fiber>, ghost codes: seq<R.Code>,
                        ghost s: R.Runtime)
    returns (r: bool, timeout: nat)
    requires m.Valid() && TimersRuntime.Represents(m, objs, codes, s) && now < UINT64_SPAN
    requires io.Valid() && EventsRuntime.Represents(io.slots, codes, s)
    requires SchedulerRuntime.Represents(sch, fibers, codes, s)
    modifies m`tickled, m`observed, m`clock
    ensures m.Valid() && m.Covered() && TimersRuntime.Represents(m, objs, codes, s)
    ensures r <==> R.Stopping(s) && SaysNone(objs, s, now) && forall i :: 0 <= i < |s.slots| ==> s.slots[i] == None
    ensures now > 0 ==> (r <==> RuntimeStop.IoStopping(s))
  {
    hide EventsRuntime.Represents, I.SumBits, I.Masks, R.Stopping, io.Watched;
    EntriesValid(io);
    PendingNone(io.slots);
    NobodyInSlots(io.slots, codes, s);
    timeout := NextTimerStep(m, now, objs, codes, s);
    var base := SchedulerRuntime.StoppingStep(sch, fibers, codes, s);
    r := timeout == T.NO_TIMER && io.pending == 0 && base;
  }

  lemma EntriesValid(io: I.IOManager)
    requires io.Valid()
    ensures forall fd: nat :: I.At(io.slots, fd).Valid()
  {
  }
}
