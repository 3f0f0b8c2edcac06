/**
 Every run queue is first in, first out: in every run each list holds its tasks in the order in
 which they became ready, whatever the arrays are swapped, and a pick takes the one that has
 waited longest on its list.
 */
module SchedulerOrder {
  import opened Common
  import opened TaskQueues
  import opened PriorityQueue
  import opened SchedulerModel
  import opened SchedulerSteps
  import opened SchedulerRuns
  import opened SchedulerChoice

  /** When task `t` last became ready in the run up to state `k`: the event that made it so, or -1. */
  ghost function ReadySince(states: seq<Sched>, t: Tid, k: nat): (r: int)
    requires k < |states|
    ensures r < k
  {
    if k == 0 then -1
    else if t in ReadyOf(states[k].tasks, states[k].idle) && t !in ReadyOf(states[k - 1].tasks, states[k - 1].idle)
    then k - 1
    else ReadySince(states, t, k - 1)
  }

  ghost function Since(states: seq<Sched>, k: nat): Tid -> int
    requires k < |states|
  {
    (t: Tid) => ReadySince(states, t, k)
  }

  /** Every list is in the order of `since`. */
  ghost predicate Ordered(q: Queues, since: Tid -> int)
  {
    && InOrder(q.rr, since) && InOrder(q.runQueue, since)
    && (forall l :: 0 <= l < |q.prio.active| ==> InOrder(q.prio.active[l], since))
    && (forall l :: 0 <= l < |q.prio.expired| ==> InOrder(q.prio.expired[l], since))
  }

  // ---- the operations on queues ----------------------------------------------------

  /** All that is linked anywhere. */
  ghost predicate LinkedIn(q: Queues, ready: set<Tid>)
  {
    && (forall t :: t in q.rr || t in q.runQueue ==> t in ready)
    && (forall l, t :: 0 <= l < |q.prio.active| && t in q.prio.active[l] ==> t in ready)
    && (forall l, t :: 0 <= l < |q.prio.expired| && t in q.prio.expired[l] ==> t in ready)
  }

  lemma HoldsLinked(tasks: Tasks, q: Queues, ready: set<Tid>)
    requires Holds(tasks, q, ready)
    ensures LinkedIn(q, ready)
  {
    HoldsBounds(tasks, q, ready);
    forall l, t | 0 <= l < |q.prio.active| && t in q.prio.active[l] ensures t in ready { BagMember(q.prio.active, t); }
    forall l, t | 0 <= l < |q.prio.expired| && t in q.prio.expired[l] ensures t in ready {
      BagMember(q.prio.expired, t);
    }
  }

  /** Only the times of linked tasks matter. */
  lemma OrderedFrame(q: Queues, ready: set<Tid>, f: Tid -> int, g: Tid -> int)
    requires Ordered(q, f) && LinkedIn(q, ready) && forall t :: t in ready ==> g(t) == f(t)
    ensures Ordered(q, g)
  {
  }

  lemma EnqueueOrdered(tasks: Tasks, q: Queues, ready: set<Tid>, t: Tid, since: Tid -> int)
    requires |q.prio.active| == |q.prio.expired| == PRIO_LEVELS && t in tasks
    requires Ordered(q, since) && LinkedIn(q, ready) && forall x :: x in ready ==> since(x) < since(t)
    ensures Ordered(EnqueueTask(tasks, q, t, false), since)
  {
    AppendOrdered(q.rr, t, since);
    AppendOrdered(q.runQueue, t, since);
    var l := Level(tasks[t]);
    AppendOrdered(q.prio.active[l], t, since);
    AppendOrdered(q.prio.expired[l], t, since);
  }

  lemma DequeueOrdered(tasks: Tasks, q: Queues, t: Tid, since: Tid -> int)
    requires |q.prio.active| == |q.prio.expired| == PRIO_LEVELS && t in tasks && Ordered(q, since)
    ensures Ordered(DequeueTask(tasks, q, t), since)
  {
    hide Without, InOrder, FindHighest;
    WithoutOrdered(q.rr, t, since);
    WithoutOrdered(q.runQueue, t, since);
    forall l | 0 <= l < PRIO_LEVELS
      ensures InOrder(Without(q.prio.active[l], t), since) && InOrder(Without(q.prio.expired[l], t), since)
    {
      WithoutOrdered(q.prio.active[l], t, since);
      WithoutOrdered(q.prio.expired[l], t, since);
    }
  }

  lemma PickedOrdered(s: Sched, since: Tid -> int)
    requires Shape(s) && Ordered(s.queues, since)
    ensures Ordered(Chose(s).queues, since)
  {
    hide InOrder, FindHighest;
  }

  // ---- every event -----------------------------------------------------------------

  /** The time of a task that becomes ready is later than that of any task that already is. */
  ghost predicate Later(s: Sched, s': Sched, f: Tid -> int, g: Tid -> int)
  {
    var ready, ready' := ReadyOf(s.tasks, s.idle), ReadyOf(s'.tasks, s'.idle);
    && (forall t :: t in ready ==> g(t) == f(t))
    && (forall t, u :: t in ready && u in ready' && u !in ready ==> f(t) < g(u))
  }

  lemma SwitchOrdered(s: Sched, next: Tid, g: Tid -> int)
    requires Leaving(s) && Shape(s) && next in s.tasks && Ordered(s.queues, g)
    requires s.current.Some? && s.current != s.idle && s.tasks[s.current.value].state == Running ==>
               forall t :: t in ReadyOf(s.tasks, s.idle) ==> g(t) < g(s.current.value)
    ensures Ordered(SwitchTo(s, next).queues, g)
  {
    hide EnqueueTask, DequeueTask, Ordered;
    var ready: set<Tid> := ReadyOf(s.tasks, s.idle);
    var tasks1 := Yielded(s.tasks, s.current, s.idle);
    HoldsLinked(s.tasks, s.queues, ready);
    if s.current.Some? && s.current != s.idle && s.tasks[s.current.value].state == Running {
      EnqueueOrdered(tasks1, s.queues, ready, s.current.value, g);
    }
    var q1 := Requeued(tasks1, s.current, s.idle, s.queues);
    LevelsKept(tasks1, s.current, s.idle, s.queues);
    if Some(next) != s.idle { DequeueOrdered(tasks1, q1, next, g); }
  }

  lemma LevelsKept(tasks: Tasks, current: Option<Tid>, idle: Option<Tid>, q: Queues)
    requires |q.prio.active| == |q.prio.expired| == PRIO_LEVELS && (current.Some? ==> current.value in tasks)
    ensures var q1 := Requeued(tasks, current, idle, q); |q1.prio.active| == |q1.prio.expired| == PRIO_LEVELS
  {
  }

  lemma ScheduleOrdered(s: Sched, f: Tid -> int, g: Tid -> int)
    requires Leaving(s) && Shape(s) && Ordered(s.queues, f) && Later(s, Schedule(s), f, g)
    ensures Ordered(Schedule(s).queues, g)
  {
    var ready: set<Tid> := ReadyOf(s.tasks, s.idle);
    HoldsLinked(s.tasks, s.queues, ready);
    hide PickNext, SwitchTo, Ordered, Holds;
    OrderedFrame(s.queues, ready, f, g);
    PickedOrdered(s, g);
    PickedLeaves(s);
    LeavingShape(Chose(s));
    var next := if PickNext(s).next.Some? then PickNext(s).next else s.idle;
    if next.Some? && next != s.current {
      PrevLater(s, f, g);
      SwitchOrdered(Chose(s), next.value, g);
    }
  }

  lemma PrevLater(s: Sched, f: Tid -> int, g: Tid -> int)
    requires Leaving(s) && Shape(s) && Later(s, Schedule(s), f, g) && Schedule(s).current != s.current
    ensures s.current.Some? && s.current != s.idle && s.tasks[s.current.value].state == Running ==>
              forall t :: t in ReadyOf(s.tasks, s.idle) ==> g(t) < g(s.current.value)
  {
    hide Schedule, PickNext, Holds;
    ScheduleTasks(s);
  }

  lemma StepOrdered(s: Sched, e: Event, f: Tid -> int, g: Tid -> int)
    requires Inv(s) && Shape(s) && Allowed(s, e) && Ordered(s.queues, f) && Later(s, Apply(s, e), f, g)
    ensures Ordered(Apply(s, e).queues, g)
  {
    var ready: set<Tid> := ReadyOf(s.tasks, s.idle);
    HoldsLinked(s.tasks, s.queues, ready);
    hide Ordered, LinkedIn, Schedule, EnqueueTask;
    OrderedFrame(s.queues, ready, f, g);
    match e
    case Created(t, policy, nice) =>
      assert t in ReadyOf(Apply(s, e).tasks, s.idle) by { IdleExists(s); }
      EnqueueOrdered(s.tasks[t := Fork(policy, nice, Ready)], s.queues, ready, t, g);
    case Woken(t) =>
      assert t in ReadyOf(Apply(s, e).tasks, s.idle);
      EnqueueOrdered(s.tasks[t := s.tasks[t].(state := Ready)], s.queues, ready, t, g);
    case Yield => ScheduleOrdered(s, f, g);
    case Sleep => LeaveOrdered(s, e, Marked(s, s.current.value, Blocked), f, g);
    case Exited => LeaveOrdered(s, e, Exiting(s), f, g);
    case TimerTick =>
    case PolicySet(_, _, _) =>
  }

  lemma IdleExists(s: Sched)
    requires Inv(s)
    ensures s.idle.Some? ==> s.idle.value in s.tasks
  {
  }

  lemma StopsUnready(s: Sched, z: Sched)
    requires Inv(s) && s.current.Some?
    requires z == Marked(s, s.current.value, Blocked) || z == Exiting(s)
    ensures ReadyOf(z.tasks, z.idle) == ReadyOf(s.tasks, s.idle) && z.idle == s.idle
  {
  }

  lemma ScheduleIdle(s: Sched)
    requires Leaving(s) && Shape(s)
    ensures Schedule(s).idle == s.idle
  {
    ScheduleTasks(s);
  }

  lemma OrderedCounter(q: Queues, q': Queues, f: Tid -> int)
    requires q' == q.(nrRunning := q'.nrRunning) && Ordered(q, f)
    ensures Ordered(q', f)
  {
  }

  lemma LeaveOrdered(s: Sched, e: Event, z: Sched, f: Tid -> int, g: Tid -> int)
    requires Inv(s) && Shape(s) && Allowed(s, e) && (e == Sleep || e == Exited)
    requires z == (if e == Sleep then Marked(s, s.current.value, Blocked) else Exiting(s))
    requires Ordered(s.queues, f) && Later(s, Apply(s, e), f, g)
    ensures Ordered(Apply(s, e).queues, g)
  {
    CurrentExists(s);
    hide Schedule, Apply, Allowed, Inv, Leaving, Shape, ReadyOf, Ordered, RunsOn;
    LeaveTasks(s, e, z, s.current.value);
    StopsUnready(s, z);
    ScheduleIdle(z);
    LaterFrom(s, z, Schedule(z), f, g);
    OrderedCounter(s.queues, z.queues, f);
    ScheduleOrdered(z, f, g);
  }

  lemma CurrentExists(s: Sched)
    requires Shape(s)
    ensures s.current.Some? ==> s.current.value in s.tasks
  {
  }

  /** Only which tasks are ready matters. */
  lemma LaterFrom(s: Sched, z: Sched, s': Sched, f: Tid -> int, g: Tid -> int)
    requires Later(s, s', f, g) && ReadyOf(z.tasks, z.idle) == ReadyOf(s.tasks, s.idle)
    ensures Later(z, s', f, g)
  {
  }

  // ---- every run -------------------------------------------------------------------

  /** In every run from boot every list is in the order in which its tasks became ready. */
  lemma {:induction false} QueuesInOrder(states: seq<Sched>, events: seq<Event>,
                                         idle: Option<Tid>, idleTask: Task, k: nat)
    requires IsRun(states, events) && states[0] == Boot(idle, idleTask) && (idle.Some? ==> idle.value < PID_MAX)
    requires k < |states|
    ensures Ordered(states[k].queues, Since(states, k))
  {
    hide Inv, Allowed, Apply, Ordered, Later, Boot, IsRun, Since, Shape;
    RunLength(states, events);
    if k == 0 {
      BootOrdered(idle, idleTask, Since(states, 0));
    } else {
      BootInv(idle, idleTask);
      QueuesInOrder(states, events, idle, idleTask, k - 1);
      RunSafe(states, events, k - 1);
      RunStep(states, events, k - 1);
      SinceLater(states, k);
      StepOrdered(states[k - 1], events[k - 1], Since(states, k - 1), Since(states, k));
    }
  }

  lemma BootOrdered(idle: Option<Tid>, idleTask: Task, since: Tid -> int)
    ensures Ordered(Boot(idle, idleTask).queues, since)
  {
  }

  lemma SinceLater(states: seq<Sched>, k: nat)
    requires 0 < k < |states|
    ensures Later(states[k - 1], states[k], Since(states, k - 1), Since(states, k))
  {
  }

  /**
   The task that a pick takes from the priority class has been ready for longest among the tasks of
   its level on the array picked from, and the one it takes from the round-robin class among all of it.
   */
  lemma PickIsOldest(states: seq<Sched>, events: seq<Event>, idle: Option<Tid>, idleTask: Task, k: nat, t: Tid)
    requires IsRun(states, events) && states[0] == Boot(idle, idleTask) && (idle.Some? ==> idle.value < PID_MAX)
    requires k < |states| && Shape(states[k]) && !RunsOn(states[k]) && PickNext(states[k]).next.Some?
    requires var next := PickNext(states[k]).next.value;
             && t in ReadyOf(states[k].tasks, states[k].idle) && t != next
             && states[k].tasks[t].policy == states[k].tasks[next].policy
             && (states[k].tasks[t].policy == Priority ==>
                   && t in Bag(Source(states[k].queues.prio))
                   && states[k].tasks[t].priority == states[k].tasks[next].priority)
    ensures ReadySince(states, PickNext(states[k]).next.value, k) < ReadySince(states, t, k)
  {
    var s := states[k];
    BootInv(idle, idleTask);
    RunSafe(states, events, k);
    QueuesInOrder(states, events, idle, idleTask, k);
    PickOrder(s);
    OldestFirst(s, PickNext(s).next.value, t, Since(states, k));
  }

  lemma OldestFirst(s: Sched, next: Tid, t: Tid, since: Tid -> int)
    requires Inv(s) && Ordered(s.queues, since) && t in ReadyOf(s.tasks, s.idle) && t != next
    requires if PrioPickable(s.queues.prio) then Leads(Source(s.queues.prio), next)
             else s.queues.rr != [] && next == s.queues.rr[0]
    requires next in s.tasks && s.tasks[t].policy == s.tasks[next].policy
    requires s.tasks[t].policy == Priority ==>
               t in Bag(Source(s.queues.prio)) && s.tasks[t].priority == s.tasks[next].priority
    ensures since(next) < since(t)
  {
    var q, ready: set<Tid> := s.queues, ReadyOf(s.tasks, s.idle);
    HoldsBounds(s.tasks, q, ready);
    if s.tasks[t].policy == Normal {
      NormalOnRr(s, next, t);
    } else {
      var from := Source(q.prio);
      if !PrioPickable(q.prio) {
        OfferedLeads(q.prio, s.tasks);
        LoadedBag(from);
        assert false;
      }
      LeaderListed(from, next);
      ListedPriority(s, t);
      ListedPriority(s, next);
      LevelFirst(q.prio, s.tasks, next, t, since);
    }
  }

  lemma NormalOnRr(s: Sched, next: Tid, t: Tid)
    requires Inv(s) && t in ReadyOf(s.tasks, s.idle) && s.tasks[t].policy == Normal
    requires if PrioPickable(s.queues.prio) then Leads(Source(s.queues.prio), next)
             else s.queues.rr != [] && next == s.queues.rr[0]
    requires next in s.tasks && s.tasks[next].policy == Normal
    ensures t in s.queues.rr && s.queues.rr[0] == next
  {
    var q, ready: set<Tid> := s.queues, ReadyOf(s.tasks, s.idle);
    HoldsBounds(s.tasks, q, ready);
    if PrioPickable(q.prio) {
      LeaderListed(Source(q.prio), next);
      assert false;
    }
  }

  lemma LevelFirst(p: PrioRq, tasks: Tasks, next: Tid, t: Tid, since: Tid -> int)
    requires PrioInv(p, tasks) && Leads(Source(p), next) && t in Bag(Source(p)) && t != next
    requires forall l :: 0 <= l < PRIO_LEVELS ==> InOrder(Source(p)[l], since)
    requires next in tasks && t in tasks && Level(tasks[next]) == Level(tasks[t])
    ensures since(next) < since(t)
  {
    BagMember(Source(p), t);
    var l :| 0 <= l < PRIO_LEVELS && t in Source(p)[l];
    assert Level(tasks[t]) == l;
  }
}
