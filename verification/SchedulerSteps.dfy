/**
 Every scheduler entry point keeps the scheduler invariant, with the exact conditions under
 which `schedule` on a blocking task and a wake-up do.
 */
module SchedulerSteps {
  import opened Common
  import opened TaskQueues
  import opened PriorityQueue
  import opened SchedulerModel

  /** Replacing one task changes the ready set at that task only. */
  lemma ReadyUpdate(tasks: Tasks, idle: Option<Tid>, t: Tid, task: Task)
    ensures ReadyOf(tasks[t := task], idle) ==
            if Some(t) != idle && task.state == Ready then ReadyOf(tasks, idle) + {t} else ReadyOf(tasks, idle) - {t}
  {
  }

  // ---- picking ---------------------------------------------------------------------

  /** A queued priority task that a pick can find. */
  ghost predicate PrioPickable(p: PrioRq)
  {
    |Queued(p)| > 0 && (p.nrActive > 0 ==> |Bag(p.active)| > 0)
  }

  /** A queued task that `sched_pick_next_task` can find. */
  ghost predicate Pickable(q: Queues)
  {
    q.rr != [] || PrioPickable(q.prio)
  }

  /** What the priority class offers a pick: nothing when its run queue counts no task. */
  ghost function Offered(p: PrioRq): Picked
    requires |p.active| == |p.expired| == PRIO_LEVELS
  {
    if p.nrRunning > 0 then Pick(p) else Picked(p, None)
  }

  lemma PickNextPrio(s: Sched)
    requires Shape(s)
    ensures PickNext(s).prio == Offered(s.queues.prio).rq
  {
  }

  lemma PrioPickCorrect(p: PrioRq, tasks: Tasks)
    requires PrioInv(p, tasks)
    ensures var r := Offered(p);
            && PrioInv(r.rq, tasks) && Queued(r.rq) == Queued(p)
            && (r.next.Some? <==> PrioPickable(p))
            && (r.next.Some? ==> r.next.value in Bag(r.rq.active))
            && (r.rq == p || (p.nrActive == 0 && r.rq == Swap(p)))
  {
    PickCorrect(p, tasks);
    if Pick(p).next.Some? {
      BagMember(Pick(p).rq.active, Pick(p).next.value);
    }
  }

  ghost predicate Onward(s: Sched)
    requires s.current.Some? ==> s.current.value in s.tasks
  {
    s.current.Some? && s.tasks[s.current.value].state == Running
  }

  lemma HoldsPrio(tasks: Tasks, q: Queues, ready: set<Tid>, p: PrioRq)
    requires Holds(tasks, q, ready) && PrioInv(p, tasks) && Queued(p) == Queued(q.prio)
    ensures Holds(tasks, q.(prio := p), ready)
  {
  }

  lemma OfferedHolds(tasks: Tasks, q: Queues, ready: set<Tid>)
    requires Holds(tasks, q, ready)
    ensures Holds(tasks, q.(prio := Offered(q.prio).rq), ready)
  {
    PrioPickCorrect(q.prio, tasks);
    HoldsPrio(tasks, q, ready, Offered(q.prio).rq);
  }

  /** A pick returns the running task it keeps, or a queued task, and finds one when there is one to find. */
  lemma PickNextCorrect(s: Sched, ready: set<Tid>)
    requires Holds(s.tasks, s.queues, ready) && Shape(s)
    ensures var r := PickNext(s);
            && (r.next.Some? ==>
                  || (RunsOn(s) && r.next == s.current)
                  || (r.next.value in Bag(r.prio.active) && r.next.value in ready)
                  || (r.next.value in s.queues.rr && r.next.value in ready))
            && (!RunsOn(s) ==> (r.next.Some? <==> Pickable(s.queues)))
  {
    hide Bag, Split, PrioPickable;
    PrioPickCorrect(s.queues.prio, s.tasks);
    SplitMembers(s.tasks, s.queues.rr, Queued(s.queues.prio), s.queues.runQueue, ready);
    if s.queues.rr != [] { assert s.queues.rr[0] in s.queues.rr; }
  }

  // ---- switching -------------------------------------------------------------------

  lemma SwitchStates(tasks: Tasks, current: Option<Tid>, idle: Option<Tid>, next: Tid)
    requires States(tasks, current, idle) && next in tasks && Some(next) != current
    ensures States(Switched(tasks, current, idle, next), Some(next), idle)
  {
  }

  lemma RequeuedHolds(tasks: Tasks, current: Option<Tid>, idle: Option<Tid>, q: Queues)
    requires States(tasks, current, idle) && Holds(tasks, q, ReadyOf(tasks, idle))
    ensures var tasks1 := Yielded(tasks, current, idle);
            Holds(tasks1, Requeued(tasks1, current, idle, q), ReadyOf(tasks1, idle))
  {
    if current.Some? && current != idle && tasks[current.value].state == Running {
      var task := tasks[current.value].(state := Ready);
      HoldsUpdate(tasks, q, ReadyOf(tasks, idle), current.value, task);
      EnqueueHolds(tasks[current.value := task], q, ReadyOf(tasks, idle), current.value, false);
      ReadyUpdate(tasks, idle, current.value, task);
    }
  }

  lemma TakenHolds(tasks: Tasks, idle: Option<Tid>, q: Queues, next: Tid, task: Task)
    requires Holds(tasks, q, ReadyOf(tasks, idle)) && next in tasks && task.state == Running
    requires next in ReadyOf(tasks, idle) || Some(next) == idle
    ensures Holds(tasks[next := task], Taken(tasks, idle, q, next), ReadyOf(tasks[next := task], idle))
  {
    var ready: set<Tid> := ReadyOf(tasks, idle);
    ReadyUpdate(tasks, idle, next, task);
    if Some(next) != idle { DequeueHolds(tasks, q, ready, next); }
    HoldsUpdate(tasks, Taken(tasks, idle, q, next), ready - {next}, next, task);
  }

  lemma SwitchKeeps(s: Sched, next: Tid)
    requires Leaving(s) && Some(next) != s.current && next in s.tasks
    requires next in ReadyOf(s.tasks, s.idle) || Some(next) == s.idle
    ensures Inv(SwitchTo(s, next))
  {
    SwitchStates(s.tasks, s.current, s.idle, next);
    RequeuedHolds(s.tasks, s.current, s.idle, s.queues);
    var tasks1 := Yielded(s.tasks, s.current, s.idle);
    TakenHolds(tasks1, s.idle, Requeued(tasks1, s.current, s.idle, s.queues), next,
               Reset(tasks1[next].(state := Running)));
  }

  lemma PickedLeaves(s: Sched)
    requires Leaving(s) && Shape(s)
    ensures Leaving(Chose(s))
  {
    PickNextPrio(s);
    OfferedHolds(s.tasks, s.queues, ReadyOf(s.tasks, s.idle));
  }

  lemma DispatchKeepsIff(s: Sched, picked: Option<Tid>)
    requires Leaving(s) && Shape(s)
    requires picked.Some? && picked != s.current ==> picked.value in ReadyOf(s.tasks, s.idle)
    requires picked.Some? && picked == s.current ==> Onward(s)
    ensures Inv(Dispatch(s, picked)) <==> (s.current.Some? ==> Onward(s)) || s.idle.Some? || picked.Some?
  {
    var next := if picked.Some? then picked else s.idle;
    if next.Some? && next != s.current { SwitchKeeps(s, next.value); }
  }

  lemma PickedReady(s: Sched)
    requires Leaving(s) && Shape(s)
    ensures var next := PickNext(s).next;
            && (next.Some? && next != s.current ==> next.value in ReadyOf(s.tasks, s.idle))
            && (next.Some? && next == s.current ==> Onward(s))
            && (!Onward(s) ==> (next.Some? <==> Pickable(s.queues)))
  {
    PickNextCorrect(s, ReadyOf(s.tasks, s.idle));
  }

  /** `schedule` re-establishes the invariant exactly when the current task runs on or another can. */
  lemma ScheduleKeepsIff(s: Sched)
    requires Leaving(s)
    ensures Shape(s)
    ensures Inv(Schedule(s)) <==> (s.current.Some? ==> Onward(s)) || s.idle.Some? || Pickable(s.queues)
  {
    LeavingShape(s);
    PickedReady(s);
    PickedLeaves(s);
    LeavingShape(Chose(s));
    DispatchKeepsIff(Chose(s), PickNext(s).next);
  }

  // ---- the other entry points ------------------------------------------------------

  /** A task off the queues is replaced by a version of itself in the same state. */
  lemma ReplaceLeaves(s: Sched, t: Tid, task: Task)
    requires Leaving(s) && t in s.tasks && t !in ReadyOf(s.tasks, s.idle)
    requires task.state == s.tasks[t].state && (Some(t) != s.idle ==> Forked(task))
    ensures Leaving(s.(tasks := s.tasks[t := task]))
  {
    ReadyUpdate(s.tasks, s.idle, t, task);
    HoldsUpdate(s.tasks, s.queues, ReadyOf(s.tasks, s.idle), t, task);
    ReplaceStates(s.tasks, s.current, s.idle, t, task);
  }

  lemma ReplaceStates(tasks: Tasks, current: Option<Tid>, idle: Option<Tid>, t: Tid, task: Task)
    requires States(tasks, current, idle) && t in tasks
    requires task.state == tasks[t].state && (Some(t) != idle ==> Forked(task))
    ensures States(tasks[t := task], current, idle)
  {
  }

  lemma TickKeeps(s: Sched)
    requires Inv(s)
    ensures Inv(Tick(s))
  {
    if s.current.Some? { ReplaceLeaves(s, s.current.value, Ticked(s.tasks[s.current.value])); }
  }

  /** A task off the queues is given a ready version of itself and enqueued. */
  lemma JoinHolds(tasks: Tasks, idle: Option<Tid>, q: Queues, t: Tid, task: Task)
    requires Holds(tasks, q, ReadyOf(tasks, idle)) && t !in ReadyOf(tasks, idle)
    requires t < PID_MAX && Some(t) != idle && task.state == Ready && task.classed
    ensures Holds(tasks[t := task], EnqueueTask(tasks[t := task], q, t, false), ReadyOf(tasks[t := task], idle))
  {
    HoldsUpdate(tasks, q, ReadyOf(tasks, idle), t, task);
    EnqueueHolds(tasks[t := task], q, ReadyOf(tasks, idle), t, false);
    ReadyUpdate(tasks, idle, t, task);
  }

  lemma JoinStates(tasks: Tasks, current: Option<Tid>, idle: Option<Tid>, t: Tid, task: Task)
    requires States(tasks, current, idle) && current != Some(t) && idle != Some(t)
    requires task.state == Ready && Forked(task)
    ensures States(tasks[t := task], current, idle)
  {
  }

  lemma CreateKeeps(s: Sched, t: Tid, policy: Policy, nice: int)
    requires Inv(s) && t !in s.tasks && t < PID_MAX
    ensures Shape(s) && Inv(Create(s, t, policy, nice))
  {
    LeavingShape(s);
    JoinHolds(s.tasks, s.idle, s.queues, t, Fork(policy, nice, Ready));
    JoinStates(s.tasks, s.current, s.idle, t, Fork(policy, nice, Ready));
  }

  /** The new policy keeps a queued task where it is linked. */
  ghost predicate KeepsPlace(s: Sched, t: Tid, policy: Policy, nice: int)
    requires t in s.tasks
  {
    && policy == s.tasks[t].policy
    && (policy == Priority ==>
          t in Bag(s.queues.prio.active) && Fork(policy, nice, Ready).priority == s.tasks[t].priority)
  }

  /** A task on the active array may change its slice, but not its level. */
  lemma ResliceKeeps(p: PrioRq, tasks: Tasks, t: Tid, task: Task)
    requires PrioInv(p, tasks) && t in tasks && t !in Bag(p.expired)
    requires t in Bag(p.active) ==> Level(task) == Level(tasks[t])
    ensures PrioInv(p, tasks[t := task])
  {
    BagMember(p.active, t);
    BagMember(p.expired, t);
  }

  /** A task on the expired array has no slice, and every linked task is on its level. */
  lemma PlacedAt(p: PrioRq, tasks: Tasks, t: Tid)
    requires PrioInv(p, tasks) && t in Queued(p)
    ensures t in tasks
    ensures t in Bag(p.expired) ==> tasks[t].slice == 0
    ensures t in p.active[Level(tasks[t])] || t in p.expired[Level(tasks[t])]
  {
    BagMember(p.active, t);
    BagMember(p.expired, t);
  }

  lemma PlacedElsewhere(p: PrioRq, tasks: Tasks, t: Tid, task: Task)
    requires PrioInv(p, tasks) && t in Queued(p) && t in tasks
    requires (t in Bag(p.expired) && task.slice > 0) || Level(task) != Level(tasks[t])
    ensures !PrioInv(p, tasks[t := task])
  {
    PlacedAt(p, tasks, t);
    if PrioInv(p, tasks[t := task]) { PlacedAt(p, tasks[t := task], t); }
  }

  lemma SetPolicyKeeps(s: Sched, t: Tid, policy: Policy, nice: int)
    requires Inv(s) && t in s.tasks
    requires t in ReadyOf(s.tasks, s.idle) ==> KeepsPlace(s, t, policy, nice)
    ensures Inv(SetPolicy(s, t, policy, nice))
  {
    hide Holds;
    var task := Fork(policy, nice, s.tasks[t].state);
    if t in ReadyOf(s.tasks, s.idle) {
      ReplaceStates(s.tasks, s.current, s.idle, t, task);
      ReadyUpdate(s.tasks, s.idle, t, task);
      assert ReadyOf(s.tasks, s.idle) + {t} == ReadyOf(s.tasks, s.idle);
      RepolicyHolds(s.tasks, s.queues, ReadyOf(s.tasks, s.idle), t, task);
    } else {
      ReplaceLeaves(s, t, task);
    }
  }

  lemma RepolicyHolds(tasks: Tasks, q: Queues, ready: set<Tid>, t: Tid, task: Task)
    requires Holds(tasks, q, ready) && t in ready && t in tasks && task.classed && task.policy == tasks[t].policy
    requires task.policy == Priority ==> t in Bag(q.prio.active) && Level(task) == Level(tasks[t])
    ensures Holds(tasks[t := task], q, ready)
  {
    HoldsBounds(tasks, q, ready);
    assert Queued(q.prio)[t] <= 1;
    ResliceKeeps(q.prio, tasks, t, task);
  }

  /** Changing a task's policy is safe exactly when the task is not queued or stays where it is linked. */
  lemma SetPolicyKeepsIff(s: Sched, t: Tid, policy: Policy, nice: int)
    requires Inv(s) && t in s.tasks
    ensures Inv(SetPolicy(s, t, policy, nice)) <==>
            (t in ReadyOf(s.tasks, s.idle) ==> KeepsPlace(s, t, policy, nice))
  {
    if t !in ReadyOf(s.tasks, s.idle) || KeepsPlace(s, t, policy, nice) {
      SetPolicyKeeps(s, t, policy, nice);
    } else {
      var ready: set<Tid> := ReadyOf(s.tasks, s.idle);
      var task := Fork(policy, nice, s.tasks[t].state);
      HoldsBounds(s.tasks, s.queues, ready);
      ReadyUpdate(s.tasks, s.idle, t, task);
      assert ReadyOf(s.tasks[t := task], s.idle) == ready;
      if policy == s.tasks[t].policy { PlacedElsewhere(s.queues.prio, s.tasks, t, task); }
    }
  }

  /** The current task is replaced by itself in a state that can neither run nor be queued. */
  lemma StoppedLeaves(s: Sched, state: TaskState)
    requires Inv(s) && s.current.Some? && s.current != s.idle && (state == Blocked || state == Zombie)
    ensures Leaving(Marked(s, s.current.value, state))
  {
    var c := s.current.value;
    var task := s.tasks[c].(state := state);
    ReadyUpdate(s.tasks, s.idle, c, task);
    HoldsUpdate(s.tasks, s.queues, ReadyOf(s.tasks, s.idle), c, task);
  }

  /** Blocking is safe exactly when there is an idle task or a task that can be picked. */
  lemma BlockKeepsIff(s: Sched)
    requires Inv(s) && s.current.Some? && s.current != s.idle
    ensures Shape(s)
    ensures Inv(Block(s)) <==> s.idle.Some? || Pickable(s.queues)
  {
    LeavingShape(s);
    StoppedLeaves(s, Blocked);
    ScheduleKeepsIff(Marked(s, s.current.value, Blocked));
  }

  lemma WakeKeeps(s: Sched, t: Tid)
    requires Inv(s) && t in s.tasks && Some(t) != s.idle && s.tasks[t].state != Ready && s.tasks[t].state != Running
    ensures Shape(s) && Inv(Wake(s, t))
  {
    LeavingShape(s);
    JoinHolds(s.tasks, s.idle, s.queues, t, s.tasks[t].(state := Ready));
    JoinStates(s.tasks, s.current, s.idle, t, s.tasks[t].(state := Ready));
  }

  /** A wake-up keeps the queues right exactly when the task it wakes is neither queued nor running. */
  lemma WakeKeepsIff(s: Sched, t: Tid)
    requires Inv(s) && t in s.tasks && Some(t) != s.idle
    ensures Shape(s)
    ensures Inv(Wake(s, t)) <==> s.tasks[t].state == Blocked || s.tasks[t].state == Zombie
  {
    LeavingShape(s);
    if s.tasks[t].state == Ready {
      assert multiset(Wake(s, t).queues.runQueue)[t] == multiset(s.queues.runQueue)[t] + 1;
      assert multiset(s.queues.runQueue)[t] == 1;
    } else if s.tasks[t].state != Running {
      WakeKeeps(s, t);
    }
  }

  // ---- exit ------------------------------------------------------------------------

  /** The task table and queues with which `proc_exit` calls `schedule`. */
  function Exiting(s: Sched): Sched
    requires s.current.Some? && s.current.value in s.tasks
  {
    var z := Marked(s, s.current.value, Zombie);
    z.(queues := z.queues.(nrRunning := Dec32(z.queues.nrRunning)))
  }

  lemma ExitingLeaves(s: Sched)
    requires Inv(s) && s.current.Some? && s.current != s.idle
    ensures Leaving(Exiting(s)) && ReadyOf(Exiting(s).tasks, s.idle) == ReadyOf(s.tasks, s.idle)
  {
    StoppedLeaves(s, Zombie);
    ReadyUpdate(s.tasks, s.idle, s.current.value, s.tasks[s.current.value].(state := Zombie));
  }

  /** An exit is safe exactly when there is an idle task or a task that can be picked. */
  lemma ExitKeepsIff(s: Sched)
    requires Inv(s) && s.current.Some? && s.current != s.idle
    ensures Shape(s)
    ensures Inv(Exit(s)) <==> s.idle.Some? || Pickable(s.queues)
  {
    LeavingShape(s);
    ExitingLeaves(s);
    ScheduleKeepsIff(Exiting(s));
  }

  /** The legacy counter after a switch. */
  lemma SwitchTallied(s: Sched, next: Tid)
    requires Leaving(s) && Shape(s) && Tallied(s.queues) && Some(next) != s.current && next in s.tasks
    requires next in ReadyOf(s.tasks, s.idle) || Some(next) == s.idle
    ensures Tallied(SwitchTo(s, next).queues)
  {
    var tasks1 := Yielded(s.tasks, s.current, s.idle);
    RequeuedTallied(s);
    RequeuedHolds(s.tasks, s.current, s.idle, s.queues);
    hide Requeued, DequeueTask, Holds;
    if Some(next) != s.idle {
      DequeueHolds(tasks1, Requeued(tasks1, s.current, s.idle, s.queues), ReadyOf(tasks1, s.idle), next);
    }
  }

  lemma RequeuedTallied(s: Sched)
    requires Leaving(s) && Shape(s) && Tallied(s.queues)
    ensures var q1 := Requeued(Yielded(s.tasks, s.current, s.idle), s.current, s.idle, s.queues);
            Tallied(q1) && |q1.prio.active| == |q1.prio.expired| == PRIO_LEVELS
  {
    if s.current.Some? && s.current != s.idle && s.tasks[s.current.value].state == Running {
      var c := s.current.value;
      var task := s.tasks[c].(state := Ready);
      HoldsUpdate(s.tasks, s.queues, ReadyOf(s.tasks, s.idle), c, task);
      EnqueueHolds(s.tasks[c := task], s.queues, ReadyOf(s.tasks, s.idle), c, false);
    }
  }

  lemma ScheduleTallied(s: Sched)
    requires Leaving(s) && Shape(s) && Tallied(s.queues)
    ensures Tallied(Schedule(s).queues)
  {
    hide PickNext, SwitchTo, Holds, States;
    PickedReady(s);
    PickedLeaves(s);
    LeavingShape(Chose(s));
    var picked := PickNext(s).next;
    var next := if picked.Some? then picked else s.idle;
    if next.Some? && next != s.current { SwitchTallied(Chose(s), next.value); }
  }

  /**
   `proc_exit` decrements `nr_running` although the current task is on no queue, and the dequeue
   of the next task decrements it again: the counter comes out right exactly when one task was
   queued and it can be picked.
   */
  lemma ExitTalliedIff(s: Sched)
    requires Inv(s) && Tallied(s.queues) && s.current.Some? && s.current != s.idle
    ensures Shape(s)
    ensures Tallied(Exit(s).queues) <==> |s.queues.runQueue| == 1 && Pickable(s.queues)
  {
    LeavingShape(s);
    ExitingLeaves(s);
    var z := Exiting(s);
    LeavingShape(z);
    PickedReady(z);
    HoldsBounds(z.tasks, z.queues, ReadyOf(z.tasks, z.idle));
    hide PickNext, Schedule, Holds, Pickable;
    if PickNext(z).next.Some? {
      ExitDequeues(z, PickNext(z).next.value);
    } else {
      ExitFindsNone(z);
    }
  }

  lemma ExitDequeues(z: Sched, next: Tid)
    requires Leaving(z) && Shape(z) && z.current.Some? && z.current != z.idle
    requires z.tasks[z.current.value].state == Zombie
    requires PickNext(z).next == Some(next) && next in ReadyOf(z.tasks, z.idle)
    ensures var q := Schedule(z).queues;
            && |q.runQueue| == |z.queues.runQueue| - 1
            && q.nrRunning == if z.queues.nrRunning > 0 then z.queues.nrRunning - 1 else z.queues.nrRunning
  {
    PickedLeaves(z);
    var ready, q := ReadyOf(z.tasks, z.idle), Chose(z).queues;
    assert q.runQueue == z.queues.runQueue && q.nrRunning == z.queues.nrRunning;
    ExitSwitches(z, next);
    DequeueCounts(z.tasks, q, ready, next);
  }

  lemma ExitSwitches(z: Sched, next: Tid)
    requires Shape(z) && z.current.Some? && z.current != z.idle && z.tasks[z.current.value].state == Zombie
    requires PickNext(z).next == Some(next) && Some(next) != z.idle && Some(next) != z.current
    ensures Schedule(z).queues == DequeueTask(z.tasks, Chose(z).queues, next)
  {
    hide PickNext, Dequeue, Without;
  }

  lemma DequeueCounts(tasks: Tasks, q: Queues, ready: set<Tid>, t: Tid)
    requires Holds(tasks, q, ready) && t in ready
    ensures t in tasks
    ensures var q' := DequeueTask(tasks, q, t);
            && |q'.runQueue| == |q.runQueue| - 1
            && q'.nrRunning == if q.nrRunning > 0 then q.nrRunning - 1 else q.nrRunning
  {
    HoldsBounds(tasks, q, ready);
    DequeueHolds(tasks, q, ready, t);
    HoldsBounds(tasks, DequeueTask(tasks, q, t), ready - {t});
  }

  lemma ExitFindsNone(z: Sched)
    requires Shape(z) && z.current.Some? && z.current != z.idle && z.tasks[z.current.value].state == Zombie
    requires PickNext(z).next.None?
    ensures Schedule(z).queues.runQueue == z.queues.runQueue && Schedule(z).queues.nrRunning == z.queues.nrRunning
  {
    hide PickNext, Dequeue, Without;
  }
}
