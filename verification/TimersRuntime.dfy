/** The class TimerManager carries out the steps of the runtime that concern timers: setting one, cancelling one,
    and collecting those that are due. */
module TimersRuntime {
  import opened Bytes
  import T = Timers
  import R = RuntimeState

  /** The objects stand for the timers of the runtime, in the order in which they were set; one is in the set of the
      manager exactly while its timer is live. codes says what the callbacks do. */
  ghost predicate Represents(m: T.TimerManager, objs: seq<T.Timer>, codes: seq<R.Code>, s: R.Runtime)
    reads m`timers, m`created, objs
  {
    && |objs| == |s.timers|
    && (forall i, j :: 0 <= i < j < |objs| ==> objs[i] != objs[j])
    && (forall t :: t in m.created ==> t in objs)
    && forall k :: 0 <= k < |objs| ==> objs[k] in m.created && Stands(m, objs[k], codes, s.timers[k])
  }

  ghost predicate Stands(m: T.TimerManager, t: T.Timer, codes: seq<R.Code>, r: R.Timer)
    reads m`timers, t
  {
    && !t.recurring && (t in m.timers <==> r.live)
    && (t.cb.Some? ==> t.cb.value < |codes| && codes[t.cb.value] == r.code)
  }

  // ---------------------------------------------------------------- setting a timer

  /** The steps that set a timer: a user's addTimer, a sleep, and a call with a timeout that would block. */
  predicate Sets(s: R.Runtime, a: R.Action) {
    && R.Can(s, a)
    && (a.SubmitTimer? || a.Sleep?
        || (a.Try? && a.again && R.PcOf(s, a.w).call < |s.calls| && s.calls[R.PcOf(s, a.w).call].timed))
  }

  /** They put one live timer behind the others, and no other step adds or removes any. */
  lemma SetsOne(s: R.Runtime, a: R.Action)
    requires R.Can(s, a)
    ensures var t := R.Do(s, a).timers;
      if Sets(s, a) then |t| == |s.timers| + 1 && t[..|s.timers|] == s.timers && t[|s.timers|].live
      else |t| == |s.timers|
  {
    hide R.Can, R.Do, Sets;
    if Sets(s, a) {
      SetsLive(s, a);
    } else {
      SetsNone(s, a);
    }
  }

  lemma SetsLive(s: R.Runtime, a: R.Action)
    requires Sets(s, a)
    ensures var t := R.Do(s, a).timers; |t| == |s.timers| + 1 && t[..|s.timers|] == s.timers && t[|s.timers|].live
  {
  }

  lemma SetsNone(s: R.Runtime, a: R.Action)
    requires R.Can(s, a) && !Sets(s, a)
    ensures |R.Do(s, a).timers| == |s.timers|
  {
    hide R.FirstEligible, R.Stopping;
  }

  /** addTimer is such a step: the new object stands for the new timer, and it is announced exactly when it becomes the
      first of the set and no announcement is under way. */
  method AddStep(m: T.TimerManager, id: nat, ms: nat, cb: T.Callback, now: nat, ghost objs: seq<T.Timer>,
                 ghost codes: seq<R.Code>, ghost s: R.Runtime, ghost a: R.Action)
    returns (timer: T.Timer, front: bool)
    requires m.Valid() && Represents(m, objs, codes, s) && Sets(s, a)
    requires cb < |codes| && codes[cb] == R.Do(s, a).timers[|s.timers|].code
    requires ms < UINT64_SPAN && now < UINT64_SPAN && forall t :: t in m.created ==> t.id != id
    modifies m`timers, m`tickled, m`created, m`clock
    ensures m.Valid() && fresh(timer) && Represents(m, objs + [timer], codes, R.Do(s, a))
    ensures old(m.Covered()) ==> m.Covered()
  {
    hide R.Do, m.Valid, m.Covered, T.Before;
    SetsOne(s, a);
    m.MembersLive();
    timer, front := m.AddTimer(id, ms, cb, false, now);
    m.MembersLive();
  }

  // ---------------------------------------------------------------- cancelling one

  /** Timer::cancel is what the runtime makes of it, and says whether the timer was still live. */
  method CancelStep(m: T.TimerManager, k: nat, timer: T.Timer, ghost objs: seq<T.Timer>, ghost codes: seq<R.Code>,
                    ghost s: R.Runtime)
    returns (ok: bool)
    requires m.Valid() && Represents(m, objs, codes, s) && k < |objs| && timer == objs[k]
    modifies m`timers, timer`cb
    ensures m.Valid() && Represents(m, objs, codes, R.CancelTimer(s, Some(k))) && (ok <==> s.timers[k].live)
    ensures old(m.Covered()) ==> m.Covered()
    // so the step of a waiting call that gives up its timeout
    ensures forall w :: R.Can(s, R.Disarm(w)) && R.PcOf(s, w).timer == Some(k) ==>
      Represents(m, objs, codes, R.Do(s, R.Disarm(w)))
  {
    hide m.Indexed;
    m.MembersLive();
    ok := m.Cancel(timer);
    m.MembersLive();
  }

  // ---------------------------------------------------------------- collecting the expired

  function Collects(w: nat, ks: seq<nat>): seq<R.Action> {
    seq(|ks|, i requires 0 <= i < |ks| => R.Collect(w, ks[i]))
  }

  /** The timers at ks are no longer live. */
  function Off(timers: seq<R.Timer>, ks: seq<nat>): (r: seq<R.Timer>)
    ensures |r| == |timers|
    ensures forall i :: 0 <= i < |timers| ==> r[i] == if i in ks then timers[i].(live := false) else timers[i]
  {
    seq(|timers|, i requires 0 <= i < |timers| => if i in ks then timers[i].(live := false) else timers[i])
  }

  /** The code of the timers at ks. */
  function Codes(timers: seq<R.Timer>, ks: seq<nat>): seq<R.Code>
    requires forall i :: 0 <= i < |ks| ==> ks[i] < |timers|
  {
    seq(|ks|, i requires 0 <= i < |ks| => timers[ks[i]].code)
  }

  ghost predicate AllLive(timers: seq<R.Timer>, ks: seq<nat>) {
    && (forall i :: 0 <= i < |ks| ==> ks[i] < |timers| && timers[ks[i]].live)
    && (forall i, j :: 0 <= i < j < |ks| ==> ks[i] != ks[j])
  }

  lemma CollectStep(s: R.Runtime, w: nat, k: nat)
    requires R.IsDozing(s, w) && k < |s.timers| && s.timers[k].live
    ensures R.Can(s, R.Collect(w, k)) && R.Do(s, R.Collect(w, k)) == R.CollectTimer(s, w, k)
  {
  }

  /** A state in which the timers at ks were collected. */
  function Collected(s: R.Runtime, w: nat, ks: seq<nat>): R.Runtime
    requires R.IsDozing(s, w) && forall i :: 0 <= i < |ks| ==> ks[i] < |s.timers|
  {
    s.(timers := Off(s.timers, ks), workers := s.workers[w := R.Dozing(s.workers[w].todo + Codes(s.timers, ks))])
  }

  lemma CollectedNone(s: R.Runtime, w: nat)
    requires R.IsDozing(s, w)
    ensures Collected(s, w, []) == s
  {
    assert Off(s.timers, []) == s.timers;
    assert s.workers[w].todo + Codes(s.timers, []) == s.workers[w].todo;
    assert s.workers[w := R.Dozing(s.workers[w].todo)] == s.workers;
  }

  lemma CollectedMore(s: R.Runtime, w: nat, ks: seq<nat>)
    requires R.IsDozing(s, w) && AllLive(s.timers, ks) && ks != []
    ensures var t := R.CollectTimer(s, w, ks[0]);
      R.IsDozing(t, w) && AllLive(t.timers, ks[1..]) && Collected(t, w, ks[1..]) == Collected(s, w, ks)
  {
    var t, rest := R.CollectTimer(s, w, ks[0]), ks[1..];
    assert Off(t.timers, rest) == Off(s.timers, ks);
    assert t.workers[w].todo + Codes(t.timers, rest) == s.workers[w].todo + Codes(s.timers, ks);
  }

  /** Live timers can be collected one after the other, each into the list of the idle worker. */
  lemma {:induction false} CollectAll(s: R.Runtime, w: nat, ks: seq<nat>)
    requires R.IsDozing(s, w) && AllLive(s.timers, ks)
    ensures R.CanRun(s, Collects(w, ks)) && R.Run(s, Collects(w, ks)) == Collected(s, w, ks)
    decreases |ks|
  {
    hide R.Can, R.Do, R.CollectTimer, Collected;
    if ks == [] {
      CollectedNone(s, w);
    } else {
      hide R.CanRun, R.Run;
      var rest := ks[1..];
      CollectStep(s, w, ks[0]);
      CollectedMore(s, w, ks);
      CollectAll(R.CollectTimer(s, w, ks[0]), w, rest);
      R.RunFirst(s, R.Collect(w, ks[0]), Collects(w, rest));
      assert Collects(w, ks) == [R.Collect(w, ks[0])] + Collects(w, rest);
    }
  }

  ghost function IndexOf(objs: seq<T.Timer>, t: T.Timer): (k: nat)
    requires t in objs
    ensures k < |objs| && objs[k] == t
  {
    var k :| 0 <= k < |objs| && objs[k] == t; k
  }

  /** Where the members of the set are among the objects. */
  lemma Positions(m: T.TimerManager, objs: seq<T.Timer>, codes: seq<R.Code>, s: R.Runtime) returns (ks: seq<nat>)
    requires m.Indexed() && Represents(m, objs, codes, s)
    ensures |ks| == |m.timers| && AllLive(s.timers, ks)
    ensures forall i :: 0 <= i < |ks| ==> ks[i] < |objs| && objs[ks[i]] == m.timers[i]
    ensures forall i, j :: 0 <= i < j < |ks| ==> objs[ks[i]].next <= objs[ks[j]].next
  {
    var members := m.timers;
    assert forall i :: 0 <= i < |members| ==> members[i] in m.created;
    ks := seq(|members|, i requires 0 <= i < |members| && members[i] in objs => IndexOf(objs, members[i]));
    forall i, j | 0 <= i < j < |ks|
      ensures ks[i] != ks[j] && objs[ks[i]].next <= objs[ks[j]].next
    {
      assert T.Before(members[i], members[j]);
    }
  }

  lemma LiveFront(timers: seq<R.Timer>, ks: seq<nat>, n: nat)
    requires AllLive(timers, ks) && n <= |ks|
    ensures AllLive(timers, ks[..n])
  {
  }

  /** One of the first n members, by its number among the objects. */
  lemma AmongFirst(objs: seq<T.Timer>, was: seq<T.Timer>, ks: seq<nat>, n: nat, k: nat)
    requires |ks| == |was| && n <= |ks| && k < |objs|
    requires forall i :: 0 <= i < |ks| ==> ks[i] < |objs| && objs[ks[i]] == was[i]
    requires forall i, j :: 0 <= i < j < |objs| ==> objs[i] != objs[j]
    ensures k in ks[..n] <==> objs[k] in was[..n]
  {
    if k in ks[..n] {
      var i :| 0 <= i < n && ks[i] == k;
      assert was[..n][i] == objs[k];
    }
    if objs[k] in was[..n] {
      var i :| 0 <= i < n && was[i] == objs[k];
      assert ks[..n][i] == k;
    }
  }

  /** listExpiredCb is a run of the step Collect, one for each callback and in their order. */
  method ExpireStep(m: T.TimerManager, now: nat, address: nat, ghost w: nat, ghost objs: seq<T.Timer>,
                    ghost codes: seq<R.Code>, ghost s: R.Runtime)
    returns (cbs: seq<T.Callback>, ghost ks: seq<nat>)
    requires m.Valid() && Represents(m, objs, codes, s) && R.IsDozing(s, w) && now < UINT64_SPAN
    modifies m`timers, m`previousTime, m`clock, m.created`next, m.created`start, m.created`cb
    ensures m.Valid() && R.CanRun(s, Collects(w, ks))
    ensures Represents(m, objs, codes, R.Run(s, Collects(w, ks)))
    ensures |ks| == |cbs| && forall i :: 0 <= i < |cbs| ==>
      ks[i] < |s.timers| == |objs| && cbs[i] < |codes| && codes[cbs[i]] == s.timers[ks[i]].code
    // every timer that is due, in the order of the deadlines
    ensures forall i, j :: 0 <= i < j < |ks| ==> old(objs[ks[i]].next) <= old(objs[ks[j]].next)
    ensures !T.Rollover(old(m.previousTime), now) ==>
      forall k :: 0 <= k < |objs| && s.timers[k].live ==> (k in ks <==> old(objs[k].next) <= now)
  {
    hide R.Can, R.Do, R.CanRun, R.Run, T.Rollover, Collects;
    ghost var all := Positions(m, objs, codes, s);
    ghost var n;
    cbs, n := ExpireAt(m, now, address, objs, codes, s, all);
    ks := all[..n];
    LiveFront(s.timers, all, n);
    CollectAll(s, w, ks);
    RepresentsSame(m, objs, codes, s.(timers := Off(s.timers, ks)), R.Run(s, Collects(w, ks)));
  }

  /** Only the timers of a state matter. */
  lemma RepresentsSame(m: T.TimerManager, objs: seq<T.Timer>, codes: seq<R.Code>, s: R.Runtime, t: R.Runtime)
    requires Represents(m, objs, codes, s) && t.timers == s.timers
    ensures Represents(m, objs, codes, t)
  {
  }

  /** listExpiredCb, by the numbers of the timers. */
  method ExpireAt(m: T.TimerManager, now: nat, address: nat, ghost objs: seq<T.Timer>, ghost codes: seq<R.Code>,
                  ghost s: R.Runtime, ghost all: seq<nat>)
    returns (cbs: seq<T.Callback>, ghost n: nat)
    requires m.Valid() && Represents(m, objs, codes, s) && now < UINT64_SPAN && |all| == |m.timers|
    requires forall i :: 0 <= i < |all| ==> all[i] < |objs| && objs[all[i]] == m.timers[i]
    modifies m`timers, m`previousTime, m`clock, m.created`next, m.created`start, m.created`cb
    ensures m.Valid() && n == |cbs| <= |all|
    ensures Represents(m, objs, codes, s.(timers := Off(s.timers, all[..n])))
    ensures forall i :: 0 <= i < n ==> cbs[i] < |codes| && codes[cbs[i]] == s.timers[all[i]].code
    ensures !T.Rollover(old(m.previousTime), now) ==>
      forall k :: 0 <= k < |objs| && s.timers[k].live ==> (k in all[..n] <==> old(objs[k].next) <= now)
  {
    hide T.Rollover, m.Indexed, m.Timed, m.NoWrap, m.Periodic, m.Covered;
    ghost var was := m.timers;
    cbs, n := m.ListExpired(now, address);
    forall k | 0 <= k < |objs|
      ensures k in all[..n] <==> objs[k] in was[..n]
    {
      AmongFirst(objs, was, all, n, k);
    }
  }
}
