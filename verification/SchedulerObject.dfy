/**
 The scheduler as the kernel runs it: objects whose fields are updated in place and the scan and
 swap loops over the level arrays.  Every method is proved to compute the function of the same
 purpose in PriorityQueue or SchedulerModel, so everything proved of those functions holds of it.
 */
module SchedulerObject {
  import opened Common
  import opened TaskQueues
  import opened PriorityQueue
  import opened SchedulerModel

  class PrioRunQueue {
    const active: array<seq<Tid>>
    const expired: array<seq<Tid>>
    var nrActive: int
    var nrExpired: int
    var highestPrio: int
    var nrRunning: int

    ghost predicate Valid()
    {
      active.Length == expired.Length == PRIO_LEVELS && active != expired
    }

    ghost function View(): PrioRq
      reads this, active, expired
    {
      PrioRq(active[..], expired[..], nrActive, nrExpired, highestPrio, nrRunning)
    }

    constructor ()
      ensures Valid() && fresh(active) && fresh(expired)
      ensures View() == EMPTY
    {
      active := new seq<Tid>[PRIO_LEVELS](_ => []);
      expired := new seq<Tid>[PRIO_LEVELS](_ => []);
      nrActive, nrExpired, highestPrio, nrRunning := 0, 0, PRIO_MIN, 0;
    }

    /** `find_highest_prio`: the least level with an active task, 127 when there is none. */
    method FindHighestPrio() returns (h: int)
      requires Valid()
      ensures h == FindHighest(active[..], 0)
    {
      var i := 0;
      while i < PRIO_LEVELS
        invariant 0 <= i <= PRIO_LEVELS
        invariant FindHighest(active[..], 0) == FindHighest(active[..], i)
      {
        if active[i] != [] { return i; }
        i := i + 1;
      }
      return PRIO_MIN;
    }

    /** `prio_swap_active_expired`: three list splices per level exchange the two arrays. */
    method SwapActiveExpired()
      requires Valid()
      modifies this, active, expired
      ensures View() == Swap(old(View()))
    {
      var i := 0;
      while i < PRIO_LEVELS
        invariant 0 <= i <= PRIO_LEVELS
        invariant forall j :: 0 <= j < i ==> active[j] == old(expired[j]) && expired[j] == old(active[j])
        invariant forall j :: i <= j < PRIO_LEVELS ==> active[j] == old(active[j]) && expired[j] == old(expired[j])
        invariant unchanged(this)
      {
        var temp: seq<Tid> := [];
        temp := active[i] + temp;
        active[i] := [];
        active[i] := expired[i] + active[i];
        expired[i] := [];
        expired[i] := temp + expired[i];
        i := i + 1;
      }
      assert active[..] == old(expired[..]) && expired[..] == old(active[..]);
      nrActive, nrExpired := nrExpired, nrActive;
      highestPrio := FindHighestPrio();
    }

    method EnqueueTask(t: Tid, task: Task, head: bool)
      requires Valid()
      modifies this, active, expired
      ensures View() == Enqueue(old(View()), t, task, head)
    {
      var prio := task.priority;
      if prio < PRIO_MAX {
        prio := PRIO_MAX;
      } else if prio > PRIO_MIN {
        prio := PRIO_MIN;
      }
      if task.slice == 0 {
        expired[prio] := if head then [t] + expired[prio] else expired[prio] + [t];
        nrExpired := Inc32(nrExpired);
      } else {
        active[prio] := if head then [t] + active[prio] else active[prio] + [t];
        nrActive := Inc32(nrActive);
        if prio < highestPrio { highestPrio := prio; }
      }
      nrRunning := Inc32(nrRunning);
    }

    method DequeueTask(t: Tid, task: Task)
      requires Valid()
      modifies this, active, expired
      ensures View() == Dequeue(old(View()), t, task)
    {
      forall l | 0 <= l < PRIO_LEVELS { active[l] := Without(active[l], t); }
      forall l | 0 <= l < PRIO_LEVELS { expired[l] := Without(expired[l], t); }
      assert active[..] == WithoutAll(old(active[..]), t);
      assert expired[..] == WithoutAll(old(expired[..]), t);
      if task.slice == 0 && nrExpired > 0 {
        nrExpired := nrExpired - 1;
      } else if nrActive > 0 {
        nrActive := nrActive - 1;
      }
      nrRunning := Dec32(nrRunning);
      highestPrio := FindHighestPrio();
    }

    method PickNextTask() returns (next: Option<Tid>)
      requires Valid()
      modifies this, active, expired
      ensures View() == Pick(old(View())).rq
      ensures next == Pick(old(View())).next
    {
      if nrActive == 0 {
        if nrExpired > 0 {
          SwapActiveExpired();
        } else {
          return None;
        }
      }
      var highest := FindHighestPrio();
      FindHighestScan(active[..], 0);
      if highest >= PRIO_LEVELS { return None; }
      return if active[highest] == [] then None else Some(active[highest][0]);
    }
  }

  class Scheduler {
    var tasks: map<Tid, Task>
    var current: Option<Tid>
    var idle: Option<Tid>
    var rr: seq<Tid>
    var rrRunning: int
    const prio: PrioRunQueue
    var runQueue: seq<Tid>
    var nrRunning: int
    var needResched: bool

    ghost function Footprint(): set<object>
    {
      {this, prio, prio.active, prio.expired}
    }

    ghost function View(): Sched
      reads Footprint()
    {
      Sched(tasks, current, idle, Queues(rr, rrRunning, prio.View(), runQueue, nrRunning), needResched)
    }

    /** `proc_init`, with the idle task, if any, already in the task table. */
    constructor (idle: Option<Tid>, idleTask: Task)
      ensures prio.Valid() && fresh(Footprint())
      ensures View() == Sched(if idle.Some? then map[idle.value := idleTask] else map[], None, idle,
                              Queues([], 0, EMPTY, [], 0), false)
    {
      tasks := if idle.Some? then map[idle.value := idleTask] else map[];
      current, this.idle := None, idle;
      rr, rrRunning, runQueue, nrRunning, needResched := [], 0, [], 0, false;
      prio := new PrioRunQueue();
    }

    method SchedEnqueueTask(t: Tid, head: bool)
      requires prio.Valid() && t in tasks
      modifies Footprint()
      ensures View() == old(View()).(queues := EnqueueTask(old(tasks), old(View()).queues, t, head))
    {
      if !tasks[t].classed { return; }
      if tasks[t].policy == Normal {
        rr := if head then [t] + rr else rr + [t];
        rrRunning := Inc32(rrRunning);
      } else {
        prio.EnqueueTask(t, tasks[t], head);
      }
      nrRunning := Inc32(nrRunning);
      runQueue := runQueue + [t];
    }

    method SchedDequeueTask(t: Tid)
      requires prio.Valid() && t in tasks
      modifies Footprint()
      ensures View() == old(View()).(queues := DequeueTask(old(tasks), old(View()).queues, t))
    {
      if !tasks[t].classed { return; }
      if tasks[t].policy == Normal {
        rr := Without(rr, t);
        rrRunning := Dec32(rrRunning);
      } else {
        prio.DequeueTask(t, tasks[t]);
      }
      if nrRunning > 0 { nrRunning := nrRunning - 1; }
      runQueue := Without(runQueue, t);
    }

    method SchedPickNextTask() returns (next: Option<Tid>)
      requires prio.Valid() && Shape(View())
      modifies Footprint()
      ensures next == PickNext(old(View())).next
      ensures View() == old(View()).(queues := old(View()).queues.(prio := PickNext(old(View())).prio))
    {
      ghost var before := View();
      PickedExists(before);
      if current.Some? && tasks[current.value].state == Running && tasks[current.value].slice > 0 {
        if prio.nrRunning > 0 {
          var candidate := prio.PickNextTask();
          if candidate.Some? && ShouldPreempt(tasks[candidate.value], tasks[current.value]) {
            return candidate;
          }
        }
        return current;
      }
      if prio.nrRunning > 0 {
        next := prio.PickNextTask();
        if next.Some? { return; }
      }
      if rrRunning > 0 && rr != [] { return Some(rr[0]); }
      return None;
    }

    /** The first half of the switch: the previous task goes back on its queue if it can still run. */
    method PutBack(prev: Option<Tid>)
      requires prio.Valid() && prev == current && (prev.Some? ==> prev.value in tasks)
      modifies Footprint()
      ensures var tasks1 := Yielded(old(tasks), prev, old(idle));
              View() == old(View()).(tasks := tasks1, queues := Requeued(tasks1, prev, old(idle), old(View()).queues))
    {
      if prev.Some? && prev != idle {
        if tasks[prev.value].state == Running {
          tasks := tasks[prev.value := tasks[prev.value].(state := Ready)];
        }
        if tasks[prev.value].state == Ready { SchedEnqueueTask(prev.value, false); }
      }
    }

    /** The second half: the next task comes off its queue and runs with a full slice. */
    method TakeOver(next: Tid)
      requires prio.Valid() && next in tasks
      modifies Footprint()
      ensures View() == old(View()).(tasks := old(tasks)[next := Reset(old(tasks)[next].(state := Running))],
                                     current := Some(next),
                                     queues := Taken(old(tasks), old(idle), old(View()).queues, next))
    {
      if Some(next) != idle { SchedDequeueTask(next); }
      tasks := tasks[next := tasks[next].(state := Running)];
      current := Some(next);
      if tasks[next].classed { tasks := tasks[next := tasks[next].(slice := tasks[next].total)]; }
    }

    method Schedule()
      requires prio.Valid() && Shape(View())
      modifies Footprint()
      ensures View() == SchedulerModel.Schedule(old(View()))
    {
      var prev := current;
      needResched := false;
      assert PickNext(View()) == PickNext(old(View()));
      var next := SchedPickNextTask();
      assert View() == Chose(old(View()));
      if next.None? {
        if idle.None? { return; }
        next := idle;
      }
      if next == prev { return; }
      PutBack(prev);
      TakeOver(next.value);
    }

    /** `sched_timer_tick_handler` with the two classes' `task_tick`. */
    method TimerTick()
      requires prio.Valid() && Shape(View())
      modifies this
      ensures View() == Tick(old(View()))
    {
      if current.Some? {
        var c := current.value;
        if tasks[c].classed && tasks[c].slice > 0 {
          tasks := tasks[c := tasks[c].(slice := tasks[c].slice - 1)];
        } else {
          assert tasks[c := tasks[c]] == tasks;
        }
      }
    }

    /** The end of `sleep_on`: the current task blocks and gives up the processor. */
    method BlockCurrent()
      requires prio.Valid() && Shape(View()) && current.Some?
      modifies Footprint()
      ensures View() == Block(old(View()))
    {
      tasks := tasks[current.value := tasks[current.value].(state := Blocked)];
      assert View() == Marked(old(View()), current.value, Blocked);
      Schedule();
    }

    /** `proc_exit`, as far as the scheduler is concerned. */
    method ProcExit()
      requires prio.Valid() && Shape(View()) && current.Some?
      modifies Footprint()
      ensures View() == Exit(old(View()))
    {
      tasks := tasks[current.value := tasks[current.value].(state := Zombie)];
      nrRunning := Dec32(nrRunning);
      Schedule();
    }

    /** `sched_set_policy` with `task_fork` of the class. */
    method SchedSetPolicy(t: Tid, policy: Policy, nice: int)
      requires t in tasks
      modifies this
      ensures View() == SetPolicy(old(View()), t, policy, nice)
    {
      var state := tasks[t].state;
      match policy
      case Normal =>
        tasks := tasks[t := Task(state, Normal, true, RR_TIMESLICE, RR_TIMESLICE, 0, 0)];
      case Priority =>
        var priority := PRIO_DEFAULT;
        if nice < 0 {
          priority := PRIO_DEFAULT + nice;
          if priority < PRIO_MAX { priority := PRIO_MAX; }
        }
        var slice := TimeSlice(priority);
        tasks := tasks[t := Task(state, Priority, true, slice, slice, priority, nice)];
    }

    /** What every waker does: mark the task ready, enqueue it, ask for a reschedule. */
    method WakeTask(t: Tid)
      requires prio.Valid() && Shape(View()) && t in tasks
      modifies Footprint()
      ensures View() == Wake(old(View()), t)
    {
      tasks := tasks[t := tasks[t].(state := Ready)];
      SchedEnqueueTask(t, false);
      needResched := true;
    }
  }
}
