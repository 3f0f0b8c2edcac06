/**
 Whole runs of the scheduler: the invariant in every state of every run, and the time-slice
 guarantee.
 */
module SchedulerRuns {
  import opened Common
  import opened TaskQueues
  import opened PriorityQueue
  import opened SchedulerModel
  import opened SchedulerSteps

  datatype Event =
    | Created(t: Tid, policy: Policy, nice: int)
    | TimerTick
    | Yield
    | Sleep
    | Woken(t: Tid)
    | PolicySet(t: Tid, policy: Policy, nice: int)
    | Exited

  /**
   New tasks have free PIDs and only blocked tasks are woken; otherwise exactly what the invariant
   needs, by BlockKeepsIff, ExitKeepsIff and SetPolicyKeepsIff.  The kernel does not check it.
   */
  ghost predicate Allowed(s: Sched, e: Event)
  {
    match e
    case Created(t, _, _) => t !in s.tasks && t < PID_MAX
    case TimerTick => true
    case Yield => true
    case Sleep => s.current.Some? && s.current != s.idle && (s.idle.Some? || Pickable(s.queues))
    case Woken(t) => t in s.tasks && Some(t) != s.idle && s.tasks[t].state == Blocked
    case PolicySet(t, policy, nice) =>
      t in s.tasks && (t in ReadyOf(s.tasks, s.idle) ==> KeepsPlace(s, t, policy, nice))
    case Exited => s.current.Some? && s.current != s.idle && (s.idle.Some? || Pickable(s.queues))
  }

  ghost function Apply(s: Sched, e: Event): Sched
    requires Shape(s) && Allowed(s, e)
  {
    match e
    case Created(t, policy, nice) => Create(s, t, policy, nice)
    case TimerTick => Tick(s)
    case Yield => Schedule(s)
    case Sleep => Block(s)
    case Woken(t) => Wake(s, t)
    case PolicySet(t, policy, nice) => SetPolicy(s, t, policy, nice)
    case Exited => Exit(s)
  }

  ghost predicate Follows(s: Sched, e: Event, s': Sched)
  {
    Shape(s) && Allowed(s, e) && s' == Apply(s, e)
  }

  /** Each state follows from the one before by an allowed event. */
  ghost predicate IsRun(states: seq<Sched>, events: seq<Event>)
  {
    && |states| == |events| + 1
    && forall i {:trigger events[i]} :: 0 <= i < |events| ==>
         Follows(states[i], events[i], states[i + 1])
  }

  /** The scheduler as `proc_init` leaves it, with or without an idle task. */
  function Boot(idle: Option<Tid>, idleTask: Task): Sched
  {
    Sched(if idle.Some? then map[idle.value := idleTask] else map[], None, idle,
          Queues([], 0, EMPTY, [], 0), false)
  }

  lemma BootInv(idle: Option<Tid>, idleTask: Task)
    requires idle.Some? ==> idle.value < PID_MAX
    ensures Inv(Boot(idle, idleTask)) && Tallied(Boot(idle, idleTask).queues)
  {
    var s := Boot(idle, idleTask);
    EmptyInv(s.tasks);
    assert ReadyOf(s.tasks, idle) == {};
  }

  lemma StepKeeps(s: Sched, e: Event)
    requires Inv(s) && Allowed(s, e)
    ensures Shape(s) && Inv(Apply(s, e))
  {
    LeavingShape(s);
    match e
    case Created(t, policy, nice) => CreateKeeps(s, t, policy, nice);
    case TimerTick => TickKeeps(s);
    case Yield => ScheduleKeepsIff(s);
    case Sleep => BlockKeepsIff(s);
    case Woken(t) => WakeKeeps(s, t);
    case PolicySet(t, policy, nice) => SetPolicyKeeps(s, t, policy, nice);
    case Exited => ExitKeepsIff(s);
  }

  /** The invariant holds in every state of every run. */
  lemma {:induction false} RunSafe(states: seq<Sched>, events: seq<Event>, i: nat)
    requires IsRun(states, events) && Inv(states[0]) && i < |states|
    ensures Inv(states[i])
  {
    hide Inv, Allowed, Apply;
    if i > 0 {
      RunSafe(states, events, i - 1);
      assert Follows(states[i - 1], events[i - 1], states[i]);
      StepKeeps(states[i - 1], events[i - 1]);
    }
  }

  // ---- the legacy counter ----------------------------------------------------------

  /** The event is no exit, or one that leaves `nr_running` right. */
  ghost predicate Tallies(s: Sched, e: Event)
  {
    e == Exited ==> |s.queues.runQueue| == 1 && Pickable(s.queues)
  }

  /** Only an exit makes `nr_running` wrong: one while not exactly one task is queued, or while none can be picked. */
  lemma StepTalliedIff(s: Sched, e: Event)
    requires Inv(s) && Shape(s) && Allowed(s, e) && Tallied(s.queues)
    ensures Tallied(Apply(s, e).queues) <==> Tallies(s, e)
  {
    var ready: set<Tid> := ReadyOf(s.tasks, s.idle);
    match e
    case Created(t, policy, nice) =>
      HoldsUpdate(s.tasks, s.queues, ready, t, Fork(policy, nice, Ready));
      EnqueueHolds(s.tasks[t := Fork(policy, nice, Ready)], s.queues, ready, t, false);
    case Woken(t) =>
      var task := s.tasks[t].(state := Ready);
      HoldsUpdate(s.tasks, s.queues, ready, t, task);
      EnqueueHolds(s.tasks[t := task], s.queues, ready, t, false);
    case Yield => ScheduleTallied(s);
    case Sleep =>
      StoppedLeaves(s, Blocked);
      LeavingShape(Marked(s, s.current.value, Blocked));
      ScheduleTallied(Marked(s, s.current.value, Blocked));
    case Exited => ExitTalliedIff(s);
    case TimerTick =>
    case PolicySet(_, _, _) =>
  }

  /** In every run whose exits leave it right, `nr_running` is the length of the legacy queue throughout. */
  lemma {:induction false} RunTallied(states: seq<Sched>, events: seq<Event>, i: nat)
    requires IsRun(states, events) && Inv(states[0]) && Tallied(states[0].queues) && i < |states|
    requires forall j {:trigger events[j]} :: 0 <= j < i ==> Tallies(states[j], events[j])
    ensures Tallied(states[i].queues)
  {
    hide Inv, Allowed, Apply, Tallied, Tallies;
    if i > 0 {
      RunTallied(states, events, i - 1);
      RunSafe(states, events, i - 1);
      assert Follows(states[i - 1], events[i - 1], states[i]);
      StepTalliedIff(states[i - 1], events[i - 1]);
    }
  }

  // ---- time slices -----------------------------------------------------------------

  /** The event neither puts the current task to sleep nor ends it nor changes its policy. */
  predicate LeavesAlone(e: Event, c: Tid)
  {
    e != Sleep && e != Exited && (e.PolicySet? ==> e.t != c)
  }

  function Ticks(events: seq<Event>): nat
  {
    if events == [] then 0
    else Ticks(events[..|events| - 1]) + (if events[|events| - 1] == TimerTick then 1 else 0)
  }

  lemma OfferedIsPriority(s: Sched)
    requires Leaving(s) && Shape(s) && Offered(s.queues.prio).next.Some?
    ensures var t := Offered(s.queues.prio).next.value;
            t in ReadyOf(s.tasks, s.idle) && s.tasks[t].policy == Priority
  {
    var q := s.queues;
    PrioPickCorrect(q.prio, s.tasks);
    var t := Offered(q.prio).next.value;
    assert t in Queued(q.prio);
    SplitMembers(s.tasks, q.rr, Queued(q.prio), q.runQueue, ReadyOf(s.tasks, s.idle));
  }

  /** A task with slice left is picked again unless the priority class offers a strictly smaller number. */
  lemma PickWithSlice(s: Sched, c: Tid)
    requires Inv(s) && Shape(s) && s.current == Some(c) && s.tasks[c].slice > 0
    ensures var next := PickNext(s).next;
            || next == Some(c)
            || (next.Some? && next.value in ReadyOf(s.tasks, s.idle) && s.tasks[next.value].policy == Priority
                && s.tasks[next.value].priority < s.tasks[c].priority)
  {
    if Offered(s.queues.prio).next.Some? { OfferedIsPriority(s); }
  }

  lemma YieldWithSlice(s: Sched, c: Tid)
    requires Inv(s) && Shape(s) && s.current == Some(c) && s.tasks[c].slice > 0
    ensures var s' := Schedule(s);
            || (s'.current == Some(c) && s'.tasks == s.tasks)
            || (s'.current.Some? && s'.current.value in ReadyOf(s.tasks, s.idle)
                && s.tasks[s'.current.value].policy == Priority
                && s.tasks[s'.current.value].priority < s.tasks[c].priority)
  {
    PickWithSlice(s, c);
  }

  /** The current task after one event that leaves it alone, while it has slice left. */
  lemma StepWithSlice(s: Sched, e: Event, c: Tid)
    requires Inv(s) && Shape(s) && Allowed(s, e) && LeavesAlone(e, c)
    requires s.current == Some(c) && s.current != s.idle && s.tasks[c].slice > 0
    ensures var s' := Apply(s, e);
            || (s'.current == Some(c) && c in s'.tasks && s'.idle == s.idle
                && s'.tasks[c] == if e == TimerTick then Ticked(s.tasks[c]) else s.tasks[c])
            || (e == Yield && s'.current.Some? && s'.current.value in ReadyOf(s.tasks, s.idle)
                && s.tasks[s'.current.value].policy == Priority
                && s.tasks[s'.current.value].priority < s.tasks[c].priority)
  {
    if e == Yield { YieldWithSlice(s, c); }
  }

  /** Task `c` was just given the processor, and during the run nothing puts it to sleep or re-forks it. */
  ghost predicate JustDispatched(states: seq<Sched>, events: seq<Event>, c: Tid)
  {
    && IsRun(states, events)
    && Inv(states[0]) && states[0].current == Some(c) && states[0].current != states[0].idle
    && states[0].tasks[c].slice == states[0].tasks[c].total
    && forall e :: e in events ==> LeavesAlone(e, c)
  }

  /** After `i` events task `c` still has the processor and has used up one tick of slice per timer tick. */
  ghost predicate StillRunning(states: seq<Sched>, events: seq<Event>, c: Tid, i: nat)
    requires i <= |events| && |states| == |events| + 1
  {
    && states[i].current == Some(c) && c in states[i].tasks && c in states[0].tasks
    && states[i].current != states[i].idle
    && states[i].tasks[c].slice + Ticks(events[..i]) == states[i].tasks[c].total
    && states[i].tasks[c].total == states[0].tasks[c].total
    && states[i].tasks[c].priority == states[0].tasks[c].priority
  }

  /** Event `i` is a yield that hands the processor to a priority task with a smaller number than `c`'s. */
  ghost predicate Displaced(states: seq<Sched>, events: seq<Event>, c: Tid, i: nat)
    requires i < |events| && |states| == |events| + 1
  {
    && c in states[0].tasks
    && events[i] == Yield && states[i + 1].current.Some?
    && states[i + 1].current.value in ReadyOf(states[i].tasks, states[i].idle)
    && states[i].tasks[states[i + 1].current.value].policy == Priority
    && states[i].tasks[states[i + 1].current.value].priority < states[0].tasks[c].priority
  }

  lemma SliceStep(states: seq<Sched>, events: seq<Event>, c: Tid, i: nat)
    requires JustDispatched(states, events, c) && i < |events|
    requires StillRunning(states, events, c, i) && Ticks(events[..i + 1]) < states[0].tasks[c].total
    ensures StillRunning(states, events, c, i + 1) || Displaced(states, events, c, i)
  {
    RunSafe(states, events, i);
    assert events[..i + 1][..i] == events[..i];
    assert events[i] in events;
    StepWithSlice(states[i], events[i], c);
  }

  /**
   Until its last tick a dispatched task keeps the processor, or else is displaced in a yield, at
   some point `j` of the run, by a priority task whose priority number is strictly smaller.
   */
  lemma {:induction false} SliceGuarantee(states: seq<Sched>, events: seq<Event>, c: Tid, i: nat) returns (j: nat)
    requires JustDispatched(states, events, c) && i <= |events|
    requires Ticks(events[..i]) < states[0].tasks[c].total
    ensures j <= i && StillRunning(states, events, c, j)
    ensures j < i ==> Displaced(states, events, c, j)
  {
    if i == 0 {
      j := 0;
    } else {
      assert events[..i][..i - 1] == events[..i - 1];
      j := SliceGuarantee(states, events, c, i - 1);
      if j == i - 1 {
        SliceStep(states, events, c, j);
        if StillRunning(states, events, c, i) { j := i; }
      }
    }
  }

  /** A round-robin task, whose priority number is 0, holds the processor for its whole slice. */
  lemma RoundRobinSliceGuarantee(states: seq<Sched>, events: seq<Event>, c: Tid, i: nat)
    requires JustDispatched(states, events, c) && i <= |events|
    requires states[0].tasks[c].policy == Normal && Ticks(events[..i]) < RR_TIMESLICE
    ensures StillRunning(states, events, c, i)
  {
    var j := SliceGuarantee(states, events, c, i);
    if j < i {
      RunSafe(states, events, j);
      assert false;
    }
  }
}
