/**
 The active/expired arrays are meant to give every priority task its turn.  They do not: once the
 active counter is too large no swap can ever happen again, and it becomes too large as soon as a
 task without slice is taken off the active array while others are expired.  The lemmas say
 exactly which tasks can still run and exactly which yields make a task run never again.
 */
module SchedulerStarvation {
  import opened Common
  import opened TaskQueues
  import opened PriorityQueue
  import opened SchedulerModel
  import opened SchedulerSteps
  import opened SchedulerRuns

  /** Some task on the active array has no slice left. */
  ghost predicate SpentActive(tasks: Tasks, p: PrioRq)
  {
    exists x :: x in Bag(p.active) && x in tasks && tasks[x].slice == 0
  }

  /** Task `t` is on the expired array; the active counter is too large or bound to become so before the next swap. */
  ghost predicate Doomed(tasks: Tasks, p: PrioRq, t: Tid)
  {
    t in Bag(p.expired) && (Drifted(p) || SpentActive(tasks, p))
  }

  lemma DoomedCounts(tasks: Tasks, p: PrioRq, t: Tid)
    requires PrioInv(p, tasks) && Doomed(tasks, p, t)
    ensures p.nrActive > 0 && (!Drifted(p) ==> p.nrExpired > 0)
  {
    if !Drifted(p) {
      var x :| x in Bag(p.active);
      assert Bag(p.active) != multiset{} && Bag(p.expired) != multiset{};
    }
  }

  lemma DoomedFrame(tasks: Tasks, tasks': Tasks, p: PrioRq, t: Tid)
    requires Doomed(tasks, p, t)
    requires forall x :: x in Bag(p.active) && x in tasks ==> x in tasks' && tasks'[x].slice == tasks[x].slice
    ensures Doomed(tasks', p, t)
  {
  }

  // ---- once doomed, always doomed --------------------------------------------------

  lemma EnqueueDoomed(tasks: Tasks, q: Queues, ready: set<Tid>, x: Tid, t: Tid)
    requires Holds(tasks, q, ready) && Doomed(tasks, q.prio, t) && x in tasks && x !in ready
    ensures var q1 := EnqueueTask(tasks, q, x, false);
            Doomed(tasks, q1.prio, t) && (Drifted(q.prio) ==> Drifted(q1.prio))
  {
    HoldsBounds(tasks, q, ready);
    if tasks[x].policy == Priority {
      EnqueueKeeps(q.prio, tasks, x, false);
      EnqueueBag(q.prio, x, tasks[x], false);
    }
  }

  /** Taking a task off the active array never brings the active counter back to the truth. */
  lemma DequeueDoomed(tasks: Tasks, q: Queues, ready: set<Tid>, x: Tid, t: Tid)
    requires Holds(tasks, q, ready) && Doomed(tasks, q.prio, t) && x in ready
    requires x in q.rr || x in Bag(q.prio.active)
    ensures x in tasks
    ensures var q1 := DequeueTask(tasks, q, x);
            Doomed(tasks, q1.prio, t) && (Drifted(q.prio) ==> Drifted(q1.prio))
  {
    HoldsBounds(tasks, q, ready);
    if tasks[x].policy == Priority { DequeueStaysDoomed(tasks, q.prio, x, t); }
  }

  lemma DequeueStaysDoomed(tasks: Tasks, p: PrioRq, x: Tid, t: Tid)
    requires PrioInv(p, tasks) && |Queued(p)| <= PID_MAX && x in Bag(p.active) && x in tasks && Doomed(tasks, p, t)
    ensures var p1 := Dequeue(p, x, tasks[x]);
            Doomed(tasks, p1, t) && (Drifted(p) ==> Drifted(p1))
  {
    OnOneArray(p, x);
    DoomedCounts(tasks, p, t);
    DequeueKeeps(p, tasks, x);
    DequeueBag(p, x, tasks[x]);
    if !Drifted(p) && tasks[x].slice != 0 {
      var y :| y in Bag(p.active) && y in tasks && tasks[y].slice == 0;
      assert y in Bag(Dequeue(p, x, tasks[x]).active);
    }
  }

  lemma OnOneArray(p: PrioRq, x: Tid)
    requires Distinct(Queued(p)) && x in Bag(p.active)
    ensures x !in Bag(p.expired)
  {
    assert Queued(p)[x] == 1;
  }

  /** While the counter is or will be too large a pick never swaps. */
  lemma PickDoomed(s: Sched, t: Tid)
    requires Leaving(s) && Shape(s) && Doomed(s.tasks, s.queues.prio, t)
    ensures PickNext(s).prio == s.queues.prio
  {
    PickNextPrio(s);
    DoomedCounts(s.tasks, s.queues.prio, t);
    PrioPickCorrect(s.queues.prio, s.tasks);
  }

  /** Enqueueing takes nothing off the round-robin list or the active array. */
  lemma EnqueueGrows(tasks: Tasks, q: Queues, x: Tid)
    requires |q.prio.active| == |q.prio.expired| == PRIO_LEVELS && x in tasks
    ensures var q1 := EnqueueTask(tasks, q, x, false);
            q.rr <= q1.rr && Bag(q.prio.active) <= Bag(q1.prio.active)
  {
    if tasks[x].policy == Priority { EnqueueBag(q.prio, x, tasks[x], false); }
  }

  lemma RequeueDoomed(s: Sched, t: Tid)
    requires Leaving(s) && Doomed(s.tasks, s.queues.prio, t)
    ensures var tasks1 := Yielded(s.tasks, s.current, s.idle);
            var q1 := Requeued(tasks1, s.current, s.idle, s.queues);
            && Doomed(tasks1, q1.prio, t) && (Drifted(s.queues.prio) ==> Drifted(q1.prio))
            && s.queues.rr <= q1.rr && Bag(s.queues.prio.active) <= Bag(q1.prio.active)
  {
    var tasks1 := Yielded(s.tasks, s.current, s.idle);
    DoomedFrame(s.tasks, tasks1, s.queues.prio, t);
    if s.current.Some? && s.current != s.idle && tasks1[s.current.value].state == Ready {
      var c := s.current.value;
      HoldsUpdate(s.tasks, s.queues, ReadyOf(s.tasks, s.idle), c, tasks1[c]);
      EnqueueDoomed(tasks1, s.queues, ReadyOf(s.tasks, s.idle), c, t);
      EnqueueGrows(tasks1, s.queues, c);
    }
  }

  lemma SwitchDoomed(s: Sched, next: Tid, t: Tid)
    requires Leaving(s) && Doomed(s.tasks, s.queues.prio, t) && Some(next) != s.current && next in s.tasks
    requires Some(next) == s.idle
             || (next in ReadyOf(s.tasks, s.idle) && (next in s.queues.rr || next in Bag(s.queues.prio.active)))
    ensures var s' := SwitchTo(s, next);
            Doomed(s'.tasks, s'.queues.prio, t) && (Drifted(s.queues.prio) ==> Drifted(s'.queues.prio))
  {
    hide Doomed, Drifted, Holds, EnqueueTask, DequeueTask;
    LeavingShape(s);
    RequeueDoomed(s, t);
    LeavingRequeues(s);
    var tasks1 := Yielded(s.tasks, s.current, s.idle);
    var q1 := Requeued(tasks1, s.current, s.idle, s.queues);
    if Some(next) != s.idle { DequeueDoomed(tasks1, q1, ReadyOf(tasks1, s.idle), next, t); }
    TakenOff(tasks1, s.idle, q1, next);
    DoomedFrame(tasks1, SwitchTo(s, next).tasks, Taken(tasks1, s.idle, q1, next).prio, t);
  }

  lemma LeavingRequeues(s: Sched)
    requires Leaving(s) && Shape(s)
    ensures var tasks1 := Yielded(s.tasks, s.current, s.idle);
            var q1 := Requeued(tasks1, s.current, s.idle, s.queues);
            && Holds(tasks1, q1, ReadyOf(tasks1, s.idle)) && |q1.prio.active| == |q1.prio.expired| == PRIO_LEVELS
            && ReadyOf(s.tasks, s.idle) <= ReadyOf(tasks1, s.idle)
  {
    RequeuedHolds(s.tasks, s.current, s.idle, s.queues);
  }

  /** The task switched to is on no array any more. */
  lemma TakenOff(tasks: Tasks, idle: Option<Tid>, q: Queues, next: Tid)
    requires Holds(tasks, q, ReadyOf(tasks, idle)) && next in tasks
    requires next in ReadyOf(tasks, idle) || Some(next) == idle
    ensures next !in Bag(Taken(tasks, idle, q, next).prio.active)
  {
    HoldsBounds(tasks, q, ReadyOf(tasks, idle));
    if Some(next) != idle {
      DequeueHolds(tasks, q, ReadyOf(tasks, idle), next);
      HoldsBounds(tasks, DequeueTask(tasks, q, next), ReadyOf(tasks, idle) - {next});
    }
  }

  lemma ScheduleDoomed(s: Sched, t: Tid)
    requires Leaving(s) && Shape(s) && Doomed(s.tasks, s.queues.prio, t)
    ensures var s' := Schedule(s);
            Doomed(s'.tasks, s'.queues.prio, t) && (Drifted(s.queues.prio) ==> Drifted(s'.queues.prio))
  {
    PickDoomed(s, t);
    PickedLeaves(s);
    PickNextCorrect(s, ReadyOf(s.tasks, s.idle));
    LeavingShape(Chose(s));
    DispatchDoomed(Chose(s), PickNext(s).next, t);
  }

  lemma DispatchDoomed(s: Sched, picked: Option<Tid>, t: Tid)
    requires Leaving(s) && Shape(s) && Doomed(s.tasks, s.queues.prio, t)
    requires picked.Some? && picked != s.current ==>
               && picked.value in ReadyOf(s.tasks, s.idle)
               && (picked.value in s.queues.rr || picked.value in Bag(s.queues.prio.active))
    requires picked.Some? ==> picked.value in s.tasks
    ensures var s' := Dispatch(s, picked);
            Doomed(s'.tasks, s'.queues.prio, t) && (Drifted(s.queues.prio) ==> Drifted(s'.queues.prio))
  {
    var next := if picked.Some? then picked else s.idle;
    if next.Some? && next != s.current { SwitchDoomed(s, next.value, t); }
  }

  /** The event does not change the policy of a queued task. */
  ghost predicate Quiet(s: Sched, e: Event)
  {
    e.PolicySet? ==> e.t !in ReadyOf(s.tasks, s.idle)
  }

  lemma StepDoomed(s: Sched, e: Event, t: Tid)
    requires Inv(s) && Shape(s) && Allowed(s, e) && Doomed(s.tasks, s.queues.prio, t)
    requires Quiet(s, e) || Drifted(s.queues.prio)
    ensures var s' := Apply(s, e);
            Doomed(s'.tasks, s'.queues.prio, t) && (Drifted(s.queues.prio) ==> Drifted(s'.queues.prio))
  {
    hide Doomed, Drifted, Inv, Schedule, EnqueueTask;
    match e
    case Created(x, policy, nice) => CreateDoomed(s, x, policy, nice, t);
    case Woken(x) => WakeDoomed(s, x, t);
    case Yield =>
      InvLeaves(s);
      ScheduleDoomed(s, t);
    case Sleep => SleepDoomed(s, t);
    case TimerTick => TickDoomed(s, t);
    case PolicySet(x, policy, nice) => PolicyDoomed(s, x, policy, nice, t);
    case Exited => ExitDoomed(s, t);
  }

  lemma InvLeaves(s: Sched)
    requires Inv(s)
    ensures Leaving(s)
  {
  }

  lemma CreateDoomed(s: Sched, x: Tid, policy: Policy, nice: int, t: Tid)
    requires Inv(s) && Shape(s) && Doomed(s.tasks, s.queues.prio, t) && x !in s.tasks && x < PID_MAX
    ensures var s' := Create(s, x, policy, nice);
            Doomed(s'.tasks, s'.queues.prio, t) && (Drifted(s.queues.prio) ==> Drifted(s'.queues.prio))
  {
    JoinDoomed(s, x, Fork(policy, nice, Ready), t);
  }

  lemma WakeDoomed(s: Sched, x: Tid, t: Tid)
    requires Inv(s) && Shape(s) && Doomed(s.tasks, s.queues.prio, t) && x in s.tasks && s.tasks[x].state == Blocked
    ensures var s' := Wake(s, x);
            Doomed(s'.tasks, s'.queues.prio, t) && (Drifted(s.queues.prio) ==> Drifted(s'.queues.prio))
  {
    JoinDoomed(s, x, s.tasks[x].(state := Ready), t);
  }

  lemma SleepDoomed(s: Sched, t: Tid)
    requires Inv(s) && Shape(s) && Doomed(s.tasks, s.queues.prio, t) && s.current.Some? && s.current != s.idle
    ensures var s' := Block(s);
            Doomed(s'.tasks, s'.queues.prio, t) && (Drifted(s.queues.prio) ==> Drifted(s'.queues.prio))
  {
    StoppedLeaves(s, Blocked);
    hide Doomed, Drifted, Schedule;
    StopDoomed(s, Marked(s, s.current.value, Blocked), t);
  }

  lemma ExitDoomed(s: Sched, t: Tid)
    requires Inv(s) && Shape(s) && Doomed(s.tasks, s.queues.prio, t) && s.current.Some? && s.current != s.idle
    ensures var s' := Exit(s);
            Doomed(s'.tasks, s'.queues.prio, t) && (Drifted(s.queues.prio) ==> Drifted(s'.queues.prio))
  {
    ExitingLeaves(s);
    hide Doomed, Drifted, Schedule;
    StopDoomed(s, Exiting(s), t);
  }

  lemma TickDoomed(s: Sched, t: Tid)
    requires Inv(s) && Doomed(s.tasks, s.queues.prio, t)
    ensures Doomed(Tick(s).tasks, s.queues.prio, t)
  {
    hide Doomed;
    OffQueuesDoomed(s, Tick(s).tasks, t);
  }

  lemma PolicyDoomed(s: Sched, x: Tid, policy: Policy, nice: int, t: Tid)
    requires Inv(s) && Doomed(s.tasks, s.queues.prio, t) && x in s.tasks
    requires x !in ReadyOf(s.tasks, s.idle) || Drifted(s.queues.prio)
    ensures Doomed(SetPolicy(s, x, policy, nice).tasks, s.queues.prio, t)
  {
    hide Doomed, Drifted;
    if x !in ReadyOf(s.tasks, s.idle) {
      OffQueuesDoomed(s, SetPolicy(s, x, policy, nice).tasks, t);
    } else {
      DriftedDoomed(s.tasks, SetPolicy(s, x, policy, nice).tasks, s.queues.prio, t);
    }
  }

  /** Tasks that are on no queue may change. */
  lemma OffQueuesDoomed(s: Sched, tasks': Tasks, t: Tid)
    requires Inv(s) && Doomed(s.tasks, s.queues.prio, t)
    requires forall x :: x in ReadyOf(s.tasks, s.idle) ==> x in tasks' && tasks'[x] == s.tasks[x]
    ensures Doomed(tasks', s.queues.prio, t)
  {
    HoldsBounds(s.tasks, s.queues, ReadyOf(s.tasks, s.idle));
    DoomedFrame(s.tasks, tasks', s.queues.prio, t);
  }

  lemma DriftedDoomed(tasks: Tasks, tasks': Tasks, p: PrioRq, t: Tid)
    requires Doomed(tasks, p, t) && Drifted(p)
    ensures Doomed(tasks', p, t)
  {
  }

  /** The current task stops, and another is scheduled. */
  lemma StopDoomed(s: Sched, m: Sched, t: Tid)
    requires Inv(s) && Doomed(s.tasks, s.queues.prio, t) && Leaving(m) && m.queues.prio == s.queues.prio
    requires forall x :: x in ReadyOf(s.tasks, s.idle) ==> x in m.tasks && m.tasks[x] == s.tasks[x]
    ensures Shape(m)
    ensures var s' := Schedule(m);
            Doomed(s'.tasks, s'.queues.prio, t) && (Drifted(s.queues.prio) ==> Drifted(s'.queues.prio))
  {
    hide Doomed, Drifted, Schedule;
    LeavingShape(m);
    OffQueuesDoomed(s, m.tasks, t);
    ScheduleDoomed(m, t);
  }

  lemma JoinDoomed(s: Sched, x: Tid, task: Task, t: Tid)
    requires Inv(s) && Doomed(s.tasks, s.queues.prio, t) && x !in ReadyOf(s.tasks, s.idle) && x < PID_MAX
    ensures var q1 := EnqueueTask(s.tasks[x := task], s.queues, x, false);
            Doomed(s.tasks[x := task], q1.prio, t) && (Drifted(s.queues.prio) ==> Drifted(q1.prio))
  {
    var ready: set<Tid> := ReadyOf(s.tasks, s.idle);
    HoldsBounds(s.tasks, s.queues, ready);
    HoldsUpdate(s.tasks, s.queues, ready, x, task);
    DoomedFrame(s.tasks, s.tasks[x := task], s.queues.prio, t);
    EnqueueDoomed(s.tasks[x := task], s.queues, ready, x, t);
  }

  /** A run in which no queued task's policy is changed. */
  ghost predicate IsQuietRun(states: seq<Sched>, events: seq<Event>)
  {
    IsRun(states, events) && forall i {:trigger events[i]} :: 0 <= i < |events| ==> Quiet(states[i], events[i])
  }

  /**
   A doomed task stays on the expired array and is never given the processor in any run that leaves
   the policies of queued tasks alone, and once the counter is too large in any run at all.
   */
  lemma {:induction false} StarvedForever(states: seq<Sched>, events: seq<Event>, t: Tid, i: nat)
    requires IsRun(states, events) && Inv(states[0]) && i < |states|
    requires Doomed(states[0].tasks, states[0].queues.prio, t)
    requires IsQuietRun(states, events) || Drifted(states[0].queues.prio)
    ensures Doomed(states[i].tasks, states[i].queues.prio, t)
    ensures Drifted(states[0].queues.prio) ==> Drifted(states[i].queues.prio)
    ensures states[i].current != Some(t)
  {
    hide Doomed, Drifted, Inv, Follows;
    if i > 0 {
      StarvedForever(states, events, t, i - 1);
      DoomedNext(states, events, t, i - 1);
    }
    RunSafe(states, events, i);
    DoomedIsOff(states[i], t);
  }

  lemma DoomedNext(states: seq<Sched>, events: seq<Event>, t: Tid, i: nat)
    requires IsRun(states, events) && Inv(states[0]) && i < |events|
    requires Doomed(states[i].tasks, states[i].queues.prio, t)
    requires IsQuietRun(states, events) || Drifted(states[i].queues.prio)
    ensures Doomed(states[i + 1].tasks, states[i + 1].queues.prio, t)
    ensures Drifted(states[i].queues.prio) ==> Drifted(states[i + 1].queues.prio)
  {
    hide Doomed, Drifted, Apply, Allowed;
    RunSafe(states, events, i);
    assert Follows(states[i], events[i], states[i + 1]);
    StepDoomed(states[i], events[i], t);
  }

  lemma DoomedIsOff(s: Sched, t: Tid)
    requires Inv(s) && Doomed(s.tasks, s.queues.prio, t)
    ensures s.current != Some(t)
  {
    HoldsBounds(s.tasks, s.queues, ReadyOf(s.tasks, s.idle));
  }

  // ---- whatever is not doomed can run ----------------------------------------------

  lemma NotDoomedPickable(s: Sched, t: Tid)
    requires Leaving(s) && t in ReadyOf(s.tasks, s.idle) && !Doomed(s.tasks, s.queues.prio, t)
    ensures Pickable(s.queues)
  {
    var p := s.queues.prio;
    HoldsBounds(s.tasks, s.queues, ReadyOf(s.tasks, s.idle));
    if t !in s.queues.rr {
      assert Queued(p) != multiset{};
      if t in Bag(p.active) { assert Bag(p.active) != multiset{}; }
    }
  }

  /** Picking and dequeueing another task dooms nobody who was not. */
  lemma DequeueSpares(tasks: Tasks, p: PrioRq, next: Tid, t: Tid)
    requires PrioInv(p, tasks) && |Queued(p)| < TWO32 && !Doomed(tasks, p, t)
    requires next in Bag(Offered(p).rq.active) && next in tasks && next != t
    ensures PrioInv(Offered(p).rq, tasks)
    ensures !Doomed(tasks, Dequeue(Offered(p).rq, next, tasks[next]), t)
  {
    PrioPickCorrect(p, tasks);
    var r := Offered(p).rq;
    if r != p { SwapExact(p, tasks); }
    hide Offered, Dequeue, FindHighest, Bag;
    DequeueBag(r, next, tasks[next]);
    if t in Bag(r.expired) { DequeueDoomsIff(tasks, r, t, next); }
  }

  /** The current task, if any, neither runs on nor goes back on a queue. */
  ghost predicate Vacant(s: Sched)
  {
    && Leaving(s) && Shape(s) && !RunsOn(s)
    && (s.current.Some? && s.current != s.idle ==> s.tasks[s.current.value].state != Running)
  }

  /** `schedule` then takes one ready task off the queues and dooms no other. */
  lemma HandOver(s: Sched, t: Tid)
    requires Vacant(s) && t in ReadyOf(s.tasks, s.idle) && !Doomed(s.tasks, s.queues.prio, t)
    ensures var s' := Schedule(s);
            && Inv(s') && s'.idle == s.idle && s'.current.Some? && s'.current.value in ReadyOf(s.tasks, s.idle)
            && ReadyOf(s'.tasks, s'.idle) == ReadyOf(s.tasks, s.idle) - {s'.current.value}
            && (s'.current == Some(t) || !Doomed(s'.tasks, s'.queues.prio, t))
  {
    hide Doomed, Holds, Without, Dequeue;
    var ready: set<Tid> := ReadyOf(s.tasks, s.idle);
    NotDoomedPickable(s, t);
    PickNextCorrect(s, ready);
    ScheduleKeepsIff(s);
    var next := PickNext(s).next.value;
    var task := Reset(s.tasks[next].(state := Running));
    assert Yielded(s.tasks, s.current, s.idle) == s.tasks;
    assert Schedule(s).tasks == s.tasks[next := task];
    assert Schedule(s).queues == DequeueTask(s.tasks, Chose(s).queues, next);
    ReadyUpdate(s.tasks, s.idle, next, task);
    if next != t { HandOverSpares(s, next, t); }
  }

  lemma HandOverSpares(s: Sched, next: Tid, t: Tid)
    requires Vacant(s) && !Doomed(s.tasks, s.queues.prio, t) && next in ReadyOf(s.tasks, s.idle) && next != t
    requires next in Bag(PickNext(s).prio.active) || next in s.queues.rr
    ensures !Doomed(s.tasks[next := Reset(s.tasks[next].(state := Running))],
                    DequeueTask(s.tasks, Chose(s).queues, next).prio, t)
  {
    hide PickNext, PrioInv, Doomed, Dequeue, Without, Reset;
    HoldsBounds(s.tasks, s.queues, ReadyOf(s.tasks, s.idle));
    PickedLeaves(s);
    TakenOff(s.tasks, s.idle, Chose(s).queues, next);
    PickedSpares(s, next, t);
    DoomedElsewhere(s.tasks, s.tasks[next := Reset(s.tasks[next].(state := Running))],
                    DequeueTask(s.tasks, Chose(s).queues, next).prio, t, next);
  }

  lemma PickedSpares(s: Sched, next: Tid, t: Tid)
    requires Leaving(s) && Shape(s) && !Doomed(s.tasks, s.queues.prio, t)
    requires next in ReadyOf(s.tasks, s.idle) && next != t
    requires next in Bag(PickNext(s).prio.active) || next in s.queues.rr
    ensures !Doomed(s.tasks, DequeueTask(s.tasks, Chose(s).queues, next).prio, t)
  {
    var p := s.queues.prio;
    HoldsBounds(s.tasks, s.queues, ReadyOf(s.tasks, s.idle));
    PickNextPrio(s);
    PrioPickCorrect(p, s.tasks);
    hide PickNext, Offered, PrioInv, Dequeue, Without;
    if s.tasks[next].policy == Priority {
      DequeueSpares(s.tasks, p, next, t);
    } else if Offered(p).rq != p {
      SwapExact(p, s.tasks);
    }
  }

  ghost predicate Reaches(states: seq<Sched>, events: seq<Event>, s: Sched, t: Tid)
  {
    IsQuietRun(states, events) && states[0] == s && states[|events|].current == Some(t)
  }

  lemma Prepend(s: Sched, e: Event, states: seq<Sched>, events: seq<Event>, t: Tid)
    requires Shape(s) && Allowed(s, e) && Quiet(s, e) && Reaches(states, events, Apply(s, e), t)
    ensures Reaches([s] + states, [e] + events, s, t)
  {
    var ss, es := [s] + states, [e] + events;
    forall i | 0 <= i < |es| ensures Follows(ss[i], es[i], ss[i + 1]) && Quiet(ss[i], es[i]) {
      if i > 0 { assert Follows(states[i - 1], events[i - 1], states[i]) && Quiet(states[i - 1], events[i - 1]); }
    }
  }

  /** An idle task that has the processor can be made to give it up. */
  ghost predicate IdleGivesWay(s: Sched)
  {
    s.current.Some? && s.current == s.idle && s.current.value in s.tasks ==>
      s.tasks[s.current.value].slice == 0 || s.tasks[s.current.value].classed
  }

  function IdleSlice(s: Sched): nat
  {
    if s.current.Some? && s.current == s.idle && s.current.value in s.tasks then s.tasks[s.current.value].slice else 0
  }

  /** When every other task goes to sleep in turn, a task that is not doomed gets the processor. */
  lemma {:induction false} RunTo(s: Sched, t: Tid) returns (states: seq<Sched>, events: seq<Event>)
    requires Inv(s) && t in ReadyOf(s.tasks, s.idle) && !Doomed(s.tasks, s.queues.prio, t) && IdleGivesWay(s)
    ensures Reaches(states, events, s, t)
    decreases |ReadyOf(s.tasks, s.idle)|, IdleSlice(s)
  {
    hide Doomed, Schedule, Holds;
    LeavingShape(s);
    var e := if IdleSlice(s) > 0 then TimerTick else if s.current.Some? && s.current != s.idle then Sleep else Yield;
    var s' := Apply(s, e) by { NotDoomedPickable(s, t); }
    if e == TimerTick {
      TickKeeps(s);
      TickSpares(s, t);
    } else if e == Sleep {
      SleepHandsOver(s, t);
    } else {
      HandOver(s, t);
    }
    if s'.current == Some(t) {
      states, events := [s'], [];
    } else {
      states, events := RunTo(s', t);
    }
    Prepend(s, e, states, events, t);
    states, events := [s] + states, [e] + events;
  }

  lemma TickSpares(s: Sched, t: Tid)
    requires Inv(s) && IdleSlice(s) > 0 && IdleGivesWay(s) && !Doomed(s.tasks, s.queues.prio, t)
    ensures var s' := Tick(s);
            && ReadyOf(s'.tasks, s'.idle) == ReadyOf(s.tasks, s.idle) && IdleSlice(s') < IdleSlice(s)
            && !Doomed(s'.tasks, s'.queues.prio, t) && IdleGivesWay(s') && s'.current == s.current == s.idle
  {
    var c := s.current.value;
    HoldsBounds(s.tasks, s.queues, ReadyOf(s.tasks, s.idle));
    assert Tick(s).tasks == s.tasks[c := Ticked(s.tasks[c])];
    ReadyUpdate(s.tasks, s.idle, c, Ticked(s.tasks[c]));
    hide Bag, Holds;
    DoomedElsewhere(s.tasks, Tick(s).tasks, s.queues.prio, t, c);
  }

  /** Changing the current task dooms nobody. */
  lemma CurrentSpares(s: Sched, task: Task, t: Tid)
    requires Inv(s) && s.current.Some? && !Doomed(s.tasks, s.queues.prio, t)
    ensures !Doomed(s.tasks[s.current.value := task], s.queues.prio, t)
  {
    var c := s.current.value;
    HoldsBounds(s.tasks, s.queues, ReadyOf(s.tasks, s.idle));
    DoomedElsewhere(s.tasks, s.tasks[c := task], s.queues.prio, t, c);
  }

  lemma SleepHandsOver(s: Sched, t: Tid)
    requires Inv(s) && Shape(s) && s.current.Some? && s.current != s.idle
    requires t in ReadyOf(s.tasks, s.idle) && !Doomed(s.tasks, s.queues.prio, t)
    ensures var s' := Block(s);
            && Inv(s') && s'.idle == s.idle && s'.current.Some? && s'.current.value in ReadyOf(s.tasks, s.idle)
            && ReadyOf(s'.tasks, s'.idle) == ReadyOf(s.tasks, s.idle) - {s'.current.value}
            && (s'.current == Some(t) || !Doomed(s'.tasks, s'.queues.prio, t))
  {
    hide Doomed, Schedule, Holds;
    var c := s.current.value;
    var m := Marked(s, c, Blocked);
    StoppedLeaves(s, Blocked);
    LeavingShape(m);
    ReadyUpdate(s.tasks, s.idle, c, m.tasks[c]);
    CurrentSpares(s, m.tasks[c], t);
    HandOver(m, t);
  }

  /** A ready task can be given the processor in some run if and only if it is not doomed. */
  lemma CanRunIff(s: Sched, t: Tid)
    requires Inv(s) && t in ReadyOf(s.tasks, s.idle) && IdleGivesWay(s)
    ensures (exists states, events :: Reaches(states, events, s, t)) <==> !Doomed(s.tasks, s.queues.prio, t)
  {
    if !Doomed(s.tasks, s.queues.prio, t) {
      var states, events := RunTo(s, t);
    }
    forall states, events | Doomed(s.tasks, s.queues.prio, t) ensures !Reaches(states, events, s, t) {
      if Reaches(states, events, s, t) { StarvedForever(states, events, t, |events|); }
    }
  }

  // ---- runs that may re-fork queued tasks ------------------------------------------

  ghost predicate Arrives(states: seq<Sched>, events: seq<Event>, s: Sched, t: Tid)
  {
    IsRun(states, events) && states[0] == s && states[|events|].current == Some(t)
  }

  lemma PrependRun(s: Sched, e: Event, states: seq<Sched>, events: seq<Event>, t: Tid)
    requires Shape(s) && Allowed(s, e) && Arrives(states, events, Apply(s, e), t)
    ensures Arrives([s] + states, [e] + events, s, t)
  {
    var ss, es := [s] + states, [e] + events;
    forall i | 0 <= i < |es| ensures Follows(ss[i], es[i], ss[i + 1]) {
      if i > 0 { assert Follows(states[i - 1], events[i - 1], states[i]); }
    }
  }

  ghost function SpentSet(s: Sched): set<Tid>
  {
    set x | x in s.tasks && x in Bag(s.queues.prio.active) && s.tasks[x].slice == 0
  }

  lemma SpentOne(s: Sched) returns (x: Tid)
    requires SpentActive(s.tasks, s.queues.prio)
    ensures x in SpentSet(s) && x in s.tasks
  {
    x :| x in Bag(s.queues.prio.active) && x in s.tasks && s.tasks[x].slice == 0;
  }

  /** The argument that makes `prio_task_fork` give a task the priority number it has. */
  function NiceFor(task: Task): int
  {
    if task.priority < PRIO_DEFAULT then task.priority - PRIO_DEFAULT else 0
  }

  /** Re-forking a task of the active array with its own priority gives it a new slice and changes nothing else. */
  lemma Refork(s: Sched, x: Tid)
    requires Inv(s) && x in SpentSet(s)
    ensures var e := PolicySet(x, Priority, NiceFor(s.tasks[x]));
            && Shape(s) && Allowed(s, e)
            && var s' := Apply(s, e);
            && Inv(s') && SpentSet(s') == SpentSet(s) - {x} && s'.queues == s.queues
            && s'.current == s.current && s'.idle == s.idle
            && ReadyOf(s'.tasks, s'.idle) == ReadyOf(s.tasks, s.idle)
            && (IdleGivesWay(s) ==> IdleGivesWay(s'))
  {
    LeavingShape(s);
    ReforkPlace(s, x);
    var nice := NiceFor(s.tasks[x]);
    var task := Fork(Priority, nice, s.tasks[x].state);
    SetPolicyKeeps(s, x, Priority, nice);
    ReadyUpdate(s.tasks, s.idle, x, task);
    hide Inv, Bag, NiceFor, KeepsPlace, Shape;
    assert ReadyOf(s.tasks, s.idle) + {x} == ReadyOf(s.tasks, s.idle);
  }

  lemma ReforkPlace(s: Sched, x: Tid)
    requires Inv(s) && x in SpentSet(s)
    ensures x in ReadyOf(s.tasks, s.idle) && KeepsPlace(s, x, Priority, NiceFor(s.tasks[x]))
  {
    HoldsBounds(s.tasks, s.queues, ReadyOf(s.tasks, s.idle));
    assert x in Queued(s.queues.prio);
  }

  /** A task on the expired array is reached after re-forking what is spent, unless the counter is too large already. */
  lemma {:induction false} ArriveAt(s: Sched, t: Tid) returns (states: seq<Sched>, events: seq<Event>)
    requires Inv(s) && t in ReadyOf(s.tasks, s.idle) && IdleGivesWay(s)
    requires !(Drifted(s.queues.prio) && t in Bag(s.queues.prio.expired))
    ensures Arrives(states, events, s, t)
    decreases |SpentSet(s)|
  {
    if Doomed(s.tasks, s.queues.prio, t) {
      var x := SpentOne(s);
      var e := PolicySet(x, Priority, NiceFor(s.tasks[x]));
      Refork(s, x);
      hide Inv, IsRun, SpentSet, Doomed, Apply, Allowed;
      states, events := ArriveAt(Apply(s, e), t);
      PrependRun(s, e, states, events, t);
      states, events := [s] + states, [e] + events;
    } else {
      states, events := RunTo(s, t);
    }
  }

  /**
   When queued tasks may be re-forked too, a ready task can be given the processor in some run if
   and only if it is not on the expired array with the active counter too large.
   */
  lemma CanEverRunIff(s: Sched, t: Tid)
    requires Inv(s) && t in ReadyOf(s.tasks, s.idle) && IdleGivesWay(s)
    ensures (exists states, events :: Arrives(states, events, s, t)) <==>
            !(Drifted(s.queues.prio) && t in Bag(s.queues.prio.expired))
  {
    if Drifted(s.queues.prio) && t in Bag(s.queues.prio.expired) {
      forall states, events ensures !Arrives(states, events, s, t) {
        if Arrives(states, events, s, t) { StarvedForever(states, events, t, |events|); }
      }
    } else {
      var states, events := ArriveAt(s, t);
    }
  }

  // ---- how a task gets doomed ------------------------------------------------------

  /** A priority task has the processor and no slice left. */
  ghost predicate Exhausted(s: Sched, c: Tid)
  {
    && Inv(s) && s.current == Some(c) && s.current != s.idle
    && s.tasks[c].policy == Priority && s.tasks[c].slice == 0
  }

  /** What a yield does to the priority queue it has picked from: previous task on, next task off. */
  lemma RequeueDooms(tasks: Tasks, r: PrioRq, c: Tid)
    requires PrioInv(r, tasks) && c in tasks && c !in Queued(r) && tasks[c].slice == 0 && |Queued(r)| + 1 < TWO32
    ensures var p1 := Enqueue(r, c, tasks[c], false);
            && PrioInv(p1, tasks) && Bag(p1.active) == Bag(r.active) && |Queued(p1)| < TWO32
            && c in Bag(p1.expired) && (Drifted(p1) <==> Drifted(r))
  {
    EnqueueKeeps(r, tasks, c, false);
    EnqueueBag(r, c, tasks[c], false);
  }

  lemma DequeueDoomsIff(tasks: Tasks, p: PrioRq, c: Tid, next: Tid)
    requires PrioInv(p, tasks) && |Queued(p)| < TWO32 && c in Bag(p.expired) && next in tasks
    ensures next !in Bag(Dequeue(p, next, tasks[next]).active)
    ensures next in Bag(p.active) ==> (Doomed(tasks, Dequeue(p, next, tasks[next]), c) <==> Doomed(tasks, p, c))
  {
    DequeueBag(p, next, tasks[next]);
    if next in Bag(p.active) {
      OnOneArray(p, next);
      DequeueKeeps(p, tasks, next);
      if !Drifted(p) { ExactDoomsIff(tasks, p, Dequeue(p, next, tasks[next]), c, next); }
    }
  }

  lemma ExactDoomsIff(tasks: Tasks, p: PrioRq, p1: PrioRq, c: Tid, next: Tid)
    requires Counted(p) && !Drifted(p) && c in Bag(p.expired) && c in Bag(p1.expired)
    requires next in Bag(p.active) && next in tasks
    requires Bag(p1.active) == Bag(p.active)[next := 0]
    requires p1.nrActive - |Bag(p1.active)| == if tasks[next].slice == 0 && p.nrExpired > 0 then 1 else 0
    ensures Doomed(tasks, p1, c) <==> Doomed(tasks, p, c)
  {
    hide Bag;
    assert Bag(p.expired) != multiset{};
  }

  /** Whether the picked queue has what dooms, said of the queue before the pick. */
  lemma PickedDoomsIff(tasks: Tasks, p: PrioRq)
    requires PrioInv(p, tasks)
    ensures var r := Offered(p).rq;
            Drifted(r) || SpentActive(tasks, r) <==>
            Drifted(p) || SpentActive(tasks, p) || (p.nrActive == 0 && p.nrExpired > 0)
  {
    PickCorrect(p, tasks);
    PrioPickCorrect(p, tasks);
    if p.nrActive == 0 {
      SwapExact(p, tasks);
      if p.nrExpired > 0 {
        var x :| x in Bag(p.expired) by { assert |Bag(p.expired)| > 0; }
        ExpiredHasNoSlice(p, tasks, x);
        assert x in Bag(Swap(p).active);
      }
    }
  }

  /**
   Exactly which yields doom the task that yields: those that reach another task while the counter
   is too large, a task on the active array has no slice, or the arrays have to be swapped.
   */
  lemma YieldDoomsIff(s: Sched, c: Tid)
    requires Exhausted(s, c)
    ensures Shape(s)
    ensures var s', p := Schedule(s), s.queues.prio;
            Doomed(s'.tasks, s'.queues.prio, c) <==>
            && (s.idle.Some? || Pickable(s.queues))
            && (Drifted(p) || SpentActive(s.tasks, p) || (p.nrActive == 0 && p.nrExpired > 0))
  {
    LeavingShape(s);
    var ready: set<Tid> := ReadyOf(s.tasks, s.idle);
    HoldsBounds(s.tasks, s.queues, ready);
    PickNextPrio(s);
    PickNextCorrect(s, ready);
    PickedDoomsIff(s.tasks, s.queues.prio);
    hide PickNext, Offered, Pickable, SpentActive, Drifted, PrioInv, Split;
    var picked := PickNext(s).next;
    var next := if picked.Some? then picked else s.idle;
    if next.Some? { SwitchDoomsIff(s, c, next.value); }
  }

  lemma SwitchDoomsIff(s: Sched, c: Tid, next: Tid)
    requires Exhausted(s, c) && Shape(s) && Some(next) == (if PickNext(s).next.Some? then PickNext(s).next else s.idle)
    ensures var s', r := Schedule(s), PickNext(s).prio;
            Doomed(s'.tasks, s'.queues.prio, c) <==> Drifted(r) || SpentActive(s.tasks, r)
  {
    hide Schedule, PickNext, Enqueue, Dequeue, PrioInv, Holds;
    var r := PickNext(s).prio;
    YieldPicks(s, c, next);
    var tasks1 := s.tasks[c := s.tasks[c].(state := Ready)];
    PrioInvFrame(r, s.tasks, tasks1);
    RequeueDooms(tasks1, r, c);
    var p1 := Enqueue(r, c, tasks1[c], false);
    assert Doomed(tasks1, p1, c) <==> Drifted(r) || SpentActive(s.tasks, r);
    YieldSwitches(s, c, next, tasks1, p1);
    DequeueDoomsIff(tasks1, p1, c, next);
    DoomedElsewhere(tasks1, Schedule(s).tasks, Schedule(s).queues.prio, c, next);
  }

  /** Replacing a task that is not on the active array changes nothing. */
  lemma DoomedElsewhere(tasks: Tasks, tasks': Tasks, p: PrioRq, t: Tid, x: Tid)
    requires x in tasks && x in tasks' && tasks' == tasks[x := tasks'[x]] && x !in Bag(p.active)
    ensures Doomed(tasks', p, t) <==> Doomed(tasks, p, t)
  {
  }

  /** The task switched to, and where it was. */
  lemma YieldPicks(s: Sched, c: Tid, next: Tid)
    requires Exhausted(s, c) && Shape(s) && Some(next) == (if PickNext(s).next.Some? then PickNext(s).next else s.idle)
    ensures next in s.tasks && next != c
    ensures Some(next) != s.idle ==> next in ReadyOf(s.tasks, s.idle) && s.tasks[next].classed
    ensures next in Bag(PickNext(s).prio.active) <==> Some(next) != s.idle && s.tasks[next].policy == Priority
    ensures c !in Queued(PickNext(s).prio) && |Queued(PickNext(s).prio)| <= PID_MAX
    ensures PrioInv(PickNext(s).prio, s.tasks)
  {
    var ready: set<Tid> := ReadyOf(s.tasks, s.idle);
    HoldsBounds(s.tasks, s.queues, ready);
    PickNextPrio(s);
    PickNextCorrect(s, ready);
    PrioPickCorrect(s.queues.prio, s.tasks);
    hide PickNext, Offered;
    assert forall x :: x in Queued(PickNext(s).prio) ==> x in ready && s.tasks[x].policy == Priority;
  }

  /** The priority queue and the task table after the yield. */
  lemma YieldSwitches(s: Sched, c: Tid, next: Tid, tasks1: Tasks, p1: PrioRq)
    requires Shape(s) && s.current == Some(c) && s.current != s.idle && s.tasks[c].state == Running
    requires s.tasks[c].classed && s.tasks[c].policy == Priority && next in s.tasks && next != c
    requires Some(next) == (if PickNext(s).next.Some? then PickNext(s).next else s.idle)
    requires Some(next) != s.idle ==> s.tasks[next].classed
    requires tasks1 == s.tasks[c := s.tasks[c].(state := Ready)] && p1 == Enqueue(PickNext(s).prio, c, tasks1[c], false)
    ensures Schedule(s).tasks == tasks1[next := Reset(tasks1[next].(state := Running))]
    ensures Schedule(s).queues.prio ==
            if Some(next) != s.idle && s.tasks[next].policy == Priority then Dequeue(p1, next, tasks1[next]) else p1
  {
    hide PickNext, Enqueue, Dequeue, Without, Bag;
    assert Yielded(s.tasks, s.current, s.idle) == tasks1;
  }

  /** ... and so the task never runs again, whatever happens afterwards, as in StarvedForever. */
  lemma YieldedForever(states: seq<Sched>, events: seq<Event>, c: Tid, i: nat)
    requires IsRun(states, events) && Exhausted(states[0], c)
    requires |events| > 0 && events[0] == Yield && 1 <= i < |states|
    requires IsQuietRun(states, events) || Drifted(states[1].queues.prio)
    requires var p := states[0].queues.prio;
             && (states[0].idle.Some? || Pickable(states[0].queues))
             && (Drifted(p) || SpentActive(states[0].tasks, p) || (p.nrActive == 0 && p.nrExpired > 0))
    ensures states[i].current != Some(c)
    ensures c in Bag(states[i].queues.prio.expired)
  {
    YieldDoomsIff(states[0], c);
    assert Follows(states[0], events[0], states[1]);
    StepKeeps(states[0], events[0]);
    hide Inv, Drifted, SpentActive, Pickable, Schedule, Allowed, Apply;
    forall k | 0 <= k < |events[1..]|
      ensures Follows(states[1..][k], events[1..][k], states[1..][k + 1])
      ensures IsQuietRun(states, events) ==> Quiet(states[1..][k], events[1..][k])
    {
      assert events[1..][k] == events[k + 1];
      assert Follows(states[k + 1], events[k + 1], states[k + 2]);
      assert IsQuietRun(states, events) ==> Quiet(states[k + 1], events[k + 1]);
    }
    StarvedForever(states[1..], events[1..], c, i - 1);
  }
}
