/** Fiber, the scheduler's task list, and the search a worker makes in it. */
module Scheduling {
  import opened Bytes

  type Callback = nat

  datatype State = READY | RUNNING | TERM

  const ANY_THREAD: int := -1

  class Fiber {
    var state: State
    var cb: Option<Callback>

    constructor (cb: Callback)
      ensures state == READY && this.cb == Some(cb)
    {
      state, this.cb := READY, Some(cb);
    }

    /** resume asserts that the fiber is neither running nor finished. */
    method Resume()
      requires state != TERM && state != RUNNING
      modifies `state
      ensures state == RUNNING
    {
      state := RUNNING;
    }

    /** yield leaves a finished fiber finished. */
    method Yield()
      requires state == RUNNING || state == TERM
      modifies `state
      ensures state == if old(state) == TERM then TERM else READY
    {
      if state != TERM {
        state := READY;
      }
    }

    /** The end of MainFunc, after the callback returned. */
    method Finish()
      requires state == RUNNING
      modifies this
      ensures state == TERM && cb == None
    {
      cb := None;
      state := TERM;
      Yield();
    }

    /** reset takes finished fibers only. */
    method Reset(cb: Callback)
      requires state == TERM
      modifies this
      ensures state == READY && this.cb == Some(cb)
    {
      this.cb := Some(cb);
      state := READY;
    }
  }

  /** A task without fiber and callback is none. */
  datatype ScheduleTask = ScheduleTask(fiber: Option<Fiber>, cb: Option<Callback>, thread: int) {
    predicate Real() {
      fiber.Some? || cb.Some?
    }

    /** The task is for another thread. */
    predicate Elsewhere(me: nat) {
      thread != ANY_THREAD && thread != me
    }
  }

  /** A worker may take a task that is not for another thread, and not a fiber that still runs. */
  predicate Eligible(task: ScheduleTask, me: nat)
    reads if task.fiber.Some? then {task.fiber.value} else {}
  {
    !task.Elsewhere(me) && !(task.fiber.Some? && task.fiber.value.state == RUNNING)
  }

  class Scheduler {
    var tasks: seq<ScheduleTask>
    var active: nat
    var idle: nat
    var stopped: bool

    constructor ()
      ensures tasks == [] && active == 0 && idle == 0 && !stopped
    {
      tasks, active, idle, stopped := [], 0, 0, false;
    }

    ghost predicate Valid()
      reads `tasks
    {
      forall i :: 0 <= i < |tasks| ==> tasks[i].Real()
    }

    /** scheduleNoLock: empty tasks are not queued; the first of a queue asks for a tickle. */
    method ScheduleNoLock(task: ScheduleTask) returns (needTickle: bool)
      requires Valid()
      modifies `tasks
      ensures Valid() && tasks == old(tasks) + (if task.Real() then [task] else [])
      ensures needTickle <==> old(tasks) == []
    {
      needTickle := tasks == [];
      if task.Real() {
        tasks := tasks + [task];
      }
    }

    /** The locked part of run: the first task this worker may take leaves the list and counts as
        active; others are tickled when a task for them was passed over or one is left behind. */
    method Dequeue(me: nat) returns (task: Option<ScheduleTask>, tickleMe: bool, ghost k: nat)
      requires Valid()
      modifies `tasks, `active
      ensures Valid() && k <= |old(tasks)|
      ensures forall i :: 0 <= i < k ==> !Eligible(old(tasks)[i], me)
      ensures task == None ==> k == |old(tasks)| && tasks == old(tasks) && active == old(active)
      ensures task.Some? ==> k < |old(tasks)| && task.value == old(tasks)[k] && Eligible(task.value, me)
      ensures task.Some? ==> tasks == old(tasks)[..k] + old(tasks)[k + 1..] && active == old(active) + 1
      ensures tickleMe <==> (exists i :: 0 <= i < k && old(tasks)[i].Elsewhere(me)) || k + 1 < |old(tasks)|
    {
      task, tickleMe := None, false;
      var it := 0;
      while it < |tasks|
        invariant 0 <= it <= |tasks|
        invariant forall i :: 0 <= i < it ==> !Eligible(tasks[i], me)
        invariant tickleMe <==> exists i :: 0 <= i < it && tasks[i].Elsewhere(me)
        decreases |tasks| - it
      {
        if tasks[it].thread != ANY_THREAD && tasks[it].thread != me {
          it := it + 1;
          tickleMe := true;
          continue;
        }
        if tasks[it].fiber.Some? && tasks[it].fiber.value.state == RUNNING {
          it := it + 1;
          continue;
        }
        k := it;
        task := Some(tasks[it]);
        tickleMe := tickleMe || it + 1 < |tasks|;
        tasks := tasks[..it] + tasks[it + 1..];
        active := active + 1;
        return;
      }
      k := it;
    }

    method Stopping() returns (r: bool)
      ensures r == (stopped && tasks == [] && active == 0)
    {
      r := stopped && tasks == [] && active == 0;
    }
  }
}
