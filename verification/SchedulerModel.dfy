/**
 The scheduler's state and what its entry points do to it (kernel/process/process.c `schedule`,
 kernel/process/sched.c, kernel/process/sched_rr.c), as functions.  Module SchedulerObject
 proves that the imperative code computes these functions; the lemmas here and in the modules
 SchedulerSteps and SchedulerRuns are about the functions.
 */
module SchedulerModel {
  import opened Common
  import opened TaskQueues
  import opened PriorityQueue

  const PID_MAX := 32768
  const RR_TIMESLICE := 10

  type Tasks = map<Tid, Task>

  /** The round-robin list, the priority run queue, the legacy list, and their counters. */
  datatype Queues = Queues(rr: seq<Tid>, rrRunning: int, prio: PrioRq, runQueue: seq<Tid>, nrRunning: int)

  datatype Sched = Sched(tasks: Tasks, current: Option<Tid>, idle: Option<Tid>, queues: Queues, needResched: bool)

  /** Every task a queue or a pointer names exists. */
  ghost predicate Shape(s: Sched)
  {
    && |s.queues.prio.active| == |s.queues.prio.expired| == PRIO_LEVELS
    && (s.current.Some? ==> s.current.value in s.tasks)
    && (s.idle.Some? ==> s.idle.value in s.tasks)
    && (forall t :: t in s.queues.rr ==> t in s.tasks)
    && (forall l, t :: 0 <= l < PRIO_LEVELS && t in s.queues.prio.active[l] ==> t in s.tasks)
    && (forall l, t :: 0 <= l < PRIO_LEVELS && t in s.queues.prio.expired[l] ==> t in s.tasks)
  }

  // ---- entry points ----------------------------------------------------------------

  /** `task_fork` of the two classes, on a task in state `state`. */
  function Fork(policy: Policy, nice: int, state: TaskState): Task
  {
    match policy
    case Normal => Task(state, Normal, true, RR_TIMESLICE, RR_TIMESLICE, 0, 0)
    case Priority =>
      var raw := if nice < 0 then PRIO_DEFAULT + nice else PRIO_DEFAULT;
      var priority := if raw < PRIO_MAX then PRIO_MAX else raw;
      Task(state, Priority, true, TimeSlice(priority), TimeSlice(priority), priority, nice)
  }

  function EnqueueTask(tasks: Tasks, q: Queues, t: Tid, head: bool): Queues
    requires |q.prio.active| == |q.prio.expired| == PRIO_LEVELS && t in tasks
  {
    if !tasks[t].classed then q
    else if tasks[t].policy == Normal then
      Queues(Linked(q.rr, t, head), Inc32(q.rrRunning), q.prio, q.runQueue + [t], Inc32(q.nrRunning))
    else
      Queues(q.rr, q.rrRunning, Enqueue(q.prio, t, tasks[t], head), q.runQueue + [t], Inc32(q.nrRunning))
  }

  function DequeueTask(tasks: Tasks, q: Queues, t: Tid): Queues
    requires |q.prio.active| == |q.prio.expired| == PRIO_LEVELS && t in tasks
  {
    if !tasks[t].classed then q
    else
      var n := if q.nrRunning > 0 then q.nrRunning - 1 else q.nrRunning;
      if tasks[t].policy == Normal then
        Queues(Without(q.rr, t), Dec32(q.rrRunning), q.prio, Without(q.runQueue, t), n)
      else
        Queues(q.rr, q.rrRunning, Dequeue(q.prio, t, tasks[t]), Without(q.runQueue, t), n)
  }

  datatype Chosen = Chosen(prio: PrioRq, next: Option<Tid>)

  ghost predicate RunsOn(s: Sched)
    requires s.current.Some? ==> s.current.value in s.tasks
  {
    s.current.Some? && s.tasks[s.current.value].state == Running && s.tasks[s.current.value].slice > 0
  }

  /** The task `sched_pick_next_task` returns, and the priority run queue it leaves behind. */
  ghost function PickNext(s: Sched): (r: Chosen)
    requires Shape(s)
    ensures r.next.Some? ==> r.next.value in s.tasks
    ensures |r.prio.active| == |r.prio.expired| == PRIO_LEVELS
  {
    var picked := if s.queues.prio.nrRunning > 0 then Pick(s.queues.prio) else Picked(s.queues.prio, None);
    PickedExists(s);
    if RunsOn(s) then
      if picked.next.Some? && ShouldPreempt(s.tasks[picked.next.value], s.tasks[s.current.value])
      then Chosen(picked.rq, picked.next)
      else Chosen(picked.rq, s.current)
    else if picked.next.Some? then Chosen(picked.rq, picked.next)
    else if s.queues.rrRunning > 0 && s.queues.rr != [] then Chosen(picked.rq, Some(s.queues.rr[0]))
    else Chosen(picked.rq, None)
  }

  lemma PickedExists(s: Sched)
    requires Shape(s)
    ensures Pick(s.queues.prio).next.Some? ==> Pick(s.queues.prio).next.value in s.tasks
    ensures |Pick(s.queues.prio).rq.active| == |Pick(s.queues.prio).rq.expired| == PRIO_LEVELS
  {
    var r := Pick(s.queues.prio);
    FindHighestScan(r.rq.active, 0);
    assert r.next.Some? ==> r.next.value in r.rq.active[FindHighest(r.rq.active, 0)];
  }

  function Reset(task: Task): Task
  {
    if task.classed then task.(slice := task.total) else task
  }

  /** The task table after the previous task, if it was running, is made ready again. */
  function Yielded(tasks: Tasks, current: Option<Tid>, idle: Option<Tid>): Tasks
    requires current.Some? ==> current.value in tasks
  {
    if current.Some? && current != idle && tasks[current.value].state == Running
    then tasks[current.value := tasks[current.value].(state := Ready)] else tasks
  }

  /** The task table after `next` took over. */
  function Switched(tasks: Tasks, current: Option<Tid>, idle: Option<Tid>, next: Tid): Tasks
    requires current.Some? ==> current.value in tasks
    requires next in tasks
  {
    var tasks1 := Yielded(tasks, current, idle);
    tasks1[next := Reset(tasks1[next].(state := Running))]
  }

  /** The queues after the previous task, if it is ready, is put back. */
  function Requeued(tasks: Tasks, current: Option<Tid>, idle: Option<Tid>, q: Queues): Queues
    requires |q.prio.active| == |q.prio.expired| == PRIO_LEVELS
    requires current.Some? ==> current.value in tasks
  {
    if current.Some? && current != idle && tasks[current.value].state == Ready
    then EnqueueTask(tasks, q, current.value, false) else q
  }

  /** The queues after `next` has been taken off its own. */
  function Taken(tasks: Tasks, idle: Option<Tid>, q: Queues, next: Tid): Queues
    requires |q.prio.active| == |q.prio.expired| == PRIO_LEVELS && next in tasks
  {
    if Some(next) != idle then DequeueTask(tasks, q, next) else q
  }

  ghost function SwitchTo(s: Sched, next: Tid): Sched
    requires |s.queues.prio.active| == |s.queues.prio.expired| == PRIO_LEVELS
    requires s.current.Some? ==> s.current.value in s.tasks
    requires next in s.tasks
  {
    var tasks1 := Yielded(s.tasks, s.current, s.idle);
    var q1 := Requeued(tasks1, s.current, s.idle, s.queues);
    s.(tasks := Switched(s.tasks, s.current, s.idle, next), current := Some(next),
       queues := Taken(tasks1, s.idle, q1, next))
  }

  ghost function Schedule(s: Sched): Sched
    requires Shape(s)
  {
    Dispatch(Chose(s), PickNext(s).next)
  }

  /** The state a pick leaves behind: the flag cleared, the priority arrays possibly swapped. */
  ghost function Chose(s: Sched): Sched
    requires Shape(s)
  {
    s.(needResched := false, queues := s.queues.(prio := PickNext(s).prio))
  }

  /** Switch to the picked task, or to the idle task when nothing was picked. */
  ghost function Dispatch(s: Sched, picked: Option<Tid>): Sched
    requires |s.queues.prio.active| == |s.queues.prio.expired| == PRIO_LEVELS
    requires s.current.Some? ==> s.current.value in s.tasks
    requires s.idle.Some? ==> s.idle.value in s.tasks
    requires picked.Some? ==> picked.value in s.tasks
  {
    var next := if picked.Some? then picked else s.idle;
    if next.None? || next == s.current then s else SwitchTo(s, next.value)
  }

  function Ticked(task: Task): Task
  {
    if task.classed && task.slice > 0 then task.(slice := task.slice - 1) else task
  }

  function Tick(s: Sched): Sched
    requires s.current.Some? ==> s.current.value in s.tasks
  {
    if s.current.None? then s
    else s.(tasks := s.tasks[s.current.value := Ticked(s.tasks[s.current.value])])
  }

  ghost function Create(s: Sched, t: Tid, policy: Policy, nice: int): Sched
    requires Shape(s)
  {
    var tasks := s.tasks[t := Fork(policy, nice, Ready)];
    s.(tasks := tasks, queues := EnqueueTask(tasks, s.queues, t, false))
  }

  /** The current task marks itself blocked and gives up the processor. */
  ghost function Block(s: Sched): Sched
    requires Shape(s) && s.current.Some?
  {
    Schedule(Marked(s, s.current.value, Blocked))
  }

  /** The current task becomes a zombie, `nr_running` is decremented, and the processor is given up. */
  ghost function Exit(s: Sched): Sched
    requires Shape(s) && s.current.Some?
  {
    var z := Marked(s, s.current.value, Zombie);
    Schedule(z.(queues := z.queues.(nrRunning := Dec32(z.queues.nrRunning))))
  }

  function Marked(s: Sched, t: Tid, state: TaskState): Sched
    requires t in s.tasks
  {
    s.(tasks := s.tasks[t := s.tasks[t].(state := state)])
  }

  ghost function Wake(s: Sched, t: Tid): Sched
    requires Shape(s) && t in s.tasks
  {
    var tasks := s.tasks[t := s.tasks[t].(state := Ready)];
    s.(tasks := tasks, queues := EnqueueTask(tasks, s.queues, t, false), needResched := true)
  }

  function SetPolicy(s: Sched, t: Tid, policy: Policy, nice: int): Sched
    requires t in s.tasks
  {
    s.(tasks := s.tasks[t := Fork(policy, nice, s.tasks[t].state)])
  }

  // ---- the queues hold exactly a set of tasks --------------------------------------

  /**
   The class queues together hold each task of `ready` once and nothing else, the legacy run
   queue holds the same tasks, and every class counter is right.
   */
  ghost predicate Holds(tasks: Tasks, q: Queues, ready: set<Tid>)
  {
    && (forall t :: t in tasks ==> t < PID_MAX)
    && PrioInv(q.prio, tasks)
    && Split(tasks, q.rr, Queued(q.prio), q.runQueue, ready)
    && q.rrRunning == |q.rr|
  }

  /** `nr_running` is the length of the legacy queue.  Nothing in the scheduler depends on it. */
  predicate Tallied(q: Queues)
  {
    q.nrRunning == |q.runQueue|
  }

  /** The ready tasks, split by policy between the two classes and listed once on the legacy queue. */
  ghost predicate Split(tasks: Tasks, rr: seq<Tid>, prio: multiset<Tid>, runQueue: seq<Tid>, ready: set<Tid>)
  {
    && multiset(rr) + prio == multiset(ready)
    && multiset(runQueue) == multiset(ready)
    && (forall t :: t in ready ==> t in tasks && tasks[t].classed)
    && (forall t :: t in ready ==> (t in rr <==> tasks[t].policy == Normal))
    && (forall t :: t in ready ==> (t in prio <==> tasks[t].policy == Priority))
  }

  lemma {:induction false} PidsBounded(ts: set<Tid>, n: nat)
    requires forall t :: t in ts ==> t < n
    ensures |ts| <= n
  {
    if n == 0 {
      assert ts == {};
    } else {
      PidsBounded(ts - {n - 1}, n - 1);
      if n - 1 in ts { assert |ts| == |ts - {n - 1}| + 1; } else { assert ts - {n - 1} == ts; }
    }
  }

  lemma SplitMembers(tasks: Tasks, rr: seq<Tid>, prio: multiset<Tid>, runQueue: seq<Tid>, ready: set<Tid>)
    requires Split(tasks, rr, prio, runQueue, ready)
    ensures forall t :: t in rr || t in prio <==> t in ready
    ensures forall t :: t in runQueue <==> t in ready
    ensures |rr| + |prio| == |runQueue| == |ready|
  {
    forall t
      ensures t in rr || t in prio <==> t in ready
      ensures t in runQueue <==> t in ready
    {
      assert t in multiset(ready) <==> t in multiset(rr) + prio;
      assert t in multiset(runQueue) <==> t in multiset(ready);
    }
    assert |multiset(rr) + prio| == |rr| + |prio|;
    assert |multiset(runQueue)| == |runQueue|;
  }

  lemma HoldsBounds(tasks: Tasks, q: Queues, ready: set<Tid>)
    requires Holds(tasks, q, ready)
    ensures |q.rr| + |Queued(q.prio)| == |q.runQueue| == |ready| <= PID_MAX
    ensures forall t :: t in q.rr || t in Queued(q.prio) <==> t in ready
    ensures forall t :: t in q.runQueue <==> t in ready
    ensures ready <= tasks.Keys
  {
    SplitMembers(tasks, q.rr, Queued(q.prio), q.runQueue, ready);
    PidsBounded(ready, PID_MAX);
  }

  /** Tasks off the queues may change freely; those on them must keep what placed them. */
  lemma HoldsFrame(tasks: Tasks, q: Queues, ready: set<Tid>, tasks': Tasks)
    requires Holds(tasks, q, ready)
    requires forall t :: t in tasks' ==> t < PID_MAX
    requires forall t :: t in ready ==>
               && t in tasks'
               && tasks'[t].classed == tasks[t].classed && tasks'[t].policy == tasks[t].policy
               && tasks'[t].slice == tasks[t].slice && tasks'[t].priority == tasks[t].priority
    ensures Holds(tasks', q, ready)
  {
    HoldsBounds(tasks, q, ready);
    PrioInvFrame(q.prio, tasks, tasks');
  }

  /** One task off the queues is created or replaced. */
  lemma HoldsUpdate(tasks: Tasks, q: Queues, ready: set<Tid>, t: Tid, task: Task)
    requires Holds(tasks, q, ready) && t !in ready && t < PID_MAX
    ensures Holds(tasks[t := task], q, ready)
  {
    HoldsFrame(tasks, q, ready, tasks[t := task]);
  }

  lemma SplitGrows(tasks: Tasks, rr: seq<Tid>, prio: multiset<Tid>, runQueue: seq<Tid>, ready: set<Tid>,
                   t: Tid, rr': seq<Tid>, prio': multiset<Tid>)
    requires Split(tasks, rr, prio, runQueue, ready) && t !in ready && t in tasks && tasks[t].classed
    requires multiset(rr') == if tasks[t].policy == Normal then multiset(rr) + multiset{t} else multiset(rr)
    requires prio' == if tasks[t].policy == Normal then prio else prio + multiset{t}
    ensures Split(tasks, rr', prio', runQueue + [t], ready + {t})
  {
    SplitMembers(tasks, rr, prio, runQueue, ready);
    assert multiset(ready + {t}) == multiset(ready) + multiset{t};
    forall x ensures x in rr' <==> x in multiset(rr') {}
    forall x ensures x in rr <==> x in multiset(rr) {}
  }

  lemma JoinPrio(tasks: Tasks, q: Queues, ready: set<Tid>, t: Tid, p: PrioRq, n: int)
    requires Holds(tasks, q, ready) && t !in ready && t in tasks && tasks[t].classed && tasks[t].policy == Priority
    requires PrioInv(p, tasks) && Queued(p) == Queued(q.prio) + multiset{t}
    ensures Holds(tasks, Queues(q.rr, q.rrRunning, p, q.runQueue + [t], n), ready + {t})
  {
    SplitGrows(tasks, q.rr, Queued(q.prio), q.runQueue, ready, t, q.rr, Queued(p));
  }

  lemma JoinRr(tasks: Tasks, q: Queues, ready: set<Tid>, t: Tid, head: bool, n: int)
    requires Holds(tasks, q, ready) && t !in ready && t in tasks && tasks[t].classed && tasks[t].policy == Normal
    ensures Holds(tasks, Queues(Linked(q.rr, t, head), q.rrRunning + 1, q.prio, q.runQueue + [t], n), ready + {t})
  {
    var rr := Linked(q.rr, t, head);
    assert multiset(rr) == multiset(q.rr) + multiset{t};
    SplitGrows(tasks, q.rr, Queued(q.prio), q.runQueue, ready, t, rr, Queued(q.prio));
  }

  lemma EnqueueHolds(tasks: Tasks, q: Queues, ready: set<Tid>, t: Tid, head: bool)
    requires Holds(tasks, q, ready) && t in tasks && t !in ready && tasks[t].classed
    ensures Holds(tasks, EnqueueTask(tasks, q, t, head), ready + {t})
    ensures Tallied(q) ==> Tallied(EnqueueTask(tasks, q, t, head))
  {
    HoldsBounds(tasks, q, ready);
    if tasks[t].policy == Priority {
      EnqueueKeeps(q.prio, tasks, t, head);
      JoinPrio(tasks, q, ready, t, Enqueue(q.prio, t, tasks[t], head), Inc32(q.nrRunning));
    } else {
      JoinRr(tasks, q, ready, t, head, Inc32(q.nrRunning));
    }
  }

  lemma SplitShrinks(tasks: Tasks, rr: seq<Tid>, prio: multiset<Tid>, runQueue: seq<Tid>, ready: set<Tid>,
                     t: Tid, rr': seq<Tid>, prio': multiset<Tid>)
    requires Split(tasks, rr, prio, runQueue, ready) && t in ready
    requires rr' == if tasks[t].policy == Normal then Without(rr, t) else rr
    requires prio' == if tasks[t].policy == Normal then prio else prio - multiset{t}
    ensures Split(tasks, rr', prio', Without(runQueue, t), ready - {t})
    ensures |Without(runQueue, t)| == |runQueue| - 1
    ensures tasks[t].policy == Normal ==> |rr'| == |rr| - 1
  {
    SplitMembers(tasks, rr, prio, runQueue, ready);
    assert (multiset(rr) + prio)[t] == 1 && multiset(runQueue)[t] == 1;
    WithoutOnce(runQueue, t);
    assert multiset(ready - {t}) == multiset(ready) - multiset{t};
    if tasks[t].policy == Normal {
      assert t in multiset(rr);
      WithoutOnce(rr, t);
      WithoutMembers(rr, t);
    }
  }

  lemma WithoutOnce(q: seq<Tid>, t: Tid)
    requires multiset(q)[t] == 1
    ensures multiset(Without(q, t)) == multiset(q) - multiset{t}
    ensures |Without(q, t)| == |q| - 1
  {
    WithoutBag(q, t);
    assert |multiset(Without(q, t))| == |multiset(q)| - 1;
  }

  lemma DequeueHolds(tasks: Tasks, q: Queues, ready: set<Tid>, t: Tid)
    requires Holds(tasks, q, ready) && t in ready
    ensures t in tasks
    ensures Holds(tasks, DequeueTask(tasks, q, t), ready - {t})
    ensures Tallied(q) ==> Tallied(DequeueTask(tasks, q, t))
  {
    HoldsBounds(tasks, q, ready);
    var q' := DequeueTask(tasks, q, t);
    if tasks[t].policy == Priority {
      DequeueKeeps(q.prio, tasks, t);
    }
    SplitShrinks(tasks, q.rr, Queued(q.prio), q.runQueue, ready, t, q'.rr, Queued(q'.prio));
  }

  // ---- the scheduler invariant -----------------------------------------------------

  ghost function ReadyOf(tasks: Tasks, idle: Option<Tid>): set<Tid>
  {
    set t | t in tasks && Some(t) != idle && tasks[t].state == Ready
  }

  /** What `task_fork` gives a task and nothing changes until the next `sched_set_policy`. */
  ghost predicate Forked(task: Task)
  {
    && task.classed && task.slice <= task.total && task.total > 0
    && (task.policy == Normal ==> task.priority == 0 && task.total == RR_TIMESLICE)
    && (task.policy == Priority ==>
          0 <= task.priority <= PRIO_DEFAULT && task.total == TimeSlice(task.priority))
  }

  /** The task table and the two task pointers agree; the current task may be about to leave. */
  ghost predicate States(tasks: Tasks, current: Option<Tid>, idle: Option<Tid>)
  {
    && (current.Some? ==> current.value in tasks && tasks[current.value].state != Ready)
    && (idle.Some? ==> idle.value in tasks)
    && (current.Some? && current == idle ==> tasks[current.value].state == Running)
    && (forall t :: t in tasks && tasks[t].state == Running && Some(t) != idle ==> current == Some(t))
    && (forall t :: t in tasks && Some(t) != idle ==> Forked(tasks[t]))
  }

  /** The scheduler invariant, except that the current task may already have marked itself blocked. */
  ghost predicate Leaving(s: Sched)
  {
    States(s.tasks, s.current, s.idle) && Holds(s.tasks, s.queues, ReadyOf(s.tasks, s.idle))
  }

  /**
   Every READY task but the idle one is linked exactly once on exactly one class queue and once
   on the legacy queue; the running task and blocked tasks are on none; class counters are right.
   */
  ghost predicate Inv(s: Sched)
  {
    Leaving(s) && (s.current.Some? ==> s.tasks[s.current.value].state == Running)
  }

  lemma LeavingShape(s: Sched)
    requires Leaving(s)
    ensures Shape(s)
  {
    HoldsBounds(s.tasks, s.queues, ReadyOf(s.tasks, s.idle));
  }

  /** The reading of the invariant a client of the scheduler wants. */
  lemma InvMeaning(s: Sched, t: Tid)
    requires Inv(s) && t in s.tasks && Some(t) != s.idle
    ensures var q := s.queues;
            && (s.tasks[t].state == Ready <==>
                multiset(q.rr)[t] + Bag(q.prio.active)[t] + Bag(q.prio.expired)[t] == 1)
            && (s.tasks[t].state != Ready <==>
                t !in q.rr && t !in Bag(q.prio.active) && t !in Bag(q.prio.expired) && t !in q.runQueue)
            && multiset(q.runQueue)[t] == multiset(q.rr)[t] + Bag(q.prio.active)[t] + Bag(q.prio.expired)[t]
            && |q.runQueue| == q.rrRunning + q.prio.nrRunning
            && (Tallied(q) ==> q.nrRunning == q.rrRunning + q.prio.nrRunning)
  {
    var q := s.queues;
    var ready: set<Tid> := ReadyOf(s.tasks, s.idle);
    HoldsBounds(s.tasks, q, ready);
    assert (multiset(q.rr) + Queued(q.prio))[t] == multiset(ready)[t];
    assert multiset(q.runQueue)[t] == multiset(ready)[t];
    assert t in q.rr <==> t in multiset(q.rr);
  }
}
