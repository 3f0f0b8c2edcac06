/**
 Which task `schedule` gives the processor to and what every event does to each task, said of the
 lists and the task table alone; and the time-slice guarantee of a task that has been dispatched.
 */
module SchedulerChoice {
  import opened Common
  import opened TaskQueues
  import opened PriorityQueue
  import opened SchedulerModel
  import opened SchedulerSteps
  import opened SchedulerRuns

  // ---- the choice ------------------------------------------------------------------

  /** The array the priority class picks from: the expired one once no task is counted as active. */
  function Source(p: PrioRq): seq<seq<Tid>>
  {
    if p.nrActive == 0 then p.expired else p.active
  }

  /** Some list of the array is not empty. */
  ghost predicate Loaded(qs: seq<seq<Tid>>)
  {
    exists l :: 0 <= l < |qs| && qs[l] != []
  }

  /** Task `t` is first on the least non-empty list of the array. */
  ghost predicate Leads(qs: seq<seq<Tid>>, t: Tid)
  {
    exists l :: 0 <= l < |qs| && qs[l] != [] && qs[l][0] == t && forall j :: 0 <= j < l ==> qs[j] == []
  }

  lemma LoadedBag(qs: seq<seq<Tid>>)
    ensures Loaded(qs) <==> |Bag(qs)| > 0
  {
    BagEmpty(qs);
  }

  /** What the priority class offers, said of the array it picks from. */
  lemma OfferedLeads(p: PrioRq, tasks: Tasks)
    requires PrioInv(p, tasks)
    ensures PrioPickable(p) <==> Loaded(Source(p))
    ensures var next := Offered(p).next;
            (next.Some? <==> Loaded(Source(p))) && (next.Some? ==> Leads(Source(p), next.value))
  {
    PrioPickCorrect(p, tasks);
    PickCorrect(p, tasks);
    LoadedBag(Source(p));
    BagEmpty(p.active);
  }

  /**
   When the current task does not run on, the choice is the first task of the least non-empty list
   of the priority class if that class has one to find, and else the first round-robin task.
   */
  lemma PickOrder(s: Sched)
    requires Leaving(s) && Shape(s) && !RunsOn(s)
    ensures var q, next := s.queues, PickNext(s).next;
            && (PrioPickable(q.prio) <==> Loaded(Source(q.prio)))
            && (PrioPickable(q.prio) <==> next.Some? && Leads(Source(q.prio), next.value))
            && (!PrioPickable(q.prio) ==> next == if q.rr == [] then None else Some(q.rr[0]))
  {
    var q := s.queues;
    OfferedLeads(q.prio, s.tasks);
    if !Loaded(Source(q.prio)) && q.rr != [] { assert !Leads(Source(q.prio), q.rr[0]); }
  }

  /**
   A task that runs on loses the processor exactly when the array picked from holds a task with a
   strictly smaller priority number, and then to the first task of its least non-empty list.
   */
  lemma PreemptedIff(s: Sched)
    requires Leaving(s) && Shape(s) && RunsOn(s)
    ensures var from, next, c := Source(s.queues.prio), PickNext(s).next, s.tasks[s.current.value];
            && next.Some?
            && (next != s.current <==> exists t :: t in Bag(from) && t in s.tasks && s.tasks[t].priority < c.priority)
            && (next != s.current ==> Leads(from, next.value))
  {
    var from := Source(s.queues.prio);
    OfferedLeads(s.queues.prio, s.tasks);
    OfferedRunsOn(s);
    hide PickNext, Offered, PrioInv, Bag, Source, Leads, Holds, PrioPickable;
    OfferedBest(s);
    LoadedBag(from);
    if Loaded(from) { LeaderListed(from, Offered(s.queues.prio).next.value); }
  }

  lemma OfferedRunsOn(s: Sched)
    requires Leaving(s) && Shape(s) && RunsOn(s)
    ensures var next, c := Offered(s.queues.prio).next, s.current.value;
            && (next.Some? ==> next.value in s.tasks && next.value != c)
            && PickNext(s).next == if next.Some? && s.tasks[next.value].priority < s.tasks[c].priority then next
                                   else s.current
  {
    if Offered(s.queues.prio).next.Some? { OfferedIsPriority(s); }
  }

  lemma LeaderListed(qs: seq<seq<Tid>>, t: Tid)
    requires Leads(qs, t)
    ensures t in Bag(qs)
  {
    BagMember(qs, t);
  }

  /** No task of the array picked from has a smaller priority number than the offered one. */
  lemma OfferedBest(s: Sched)
    requires Leaving(s) && Shape(s)
    ensures var from, next := Source(s.queues.prio), Offered(s.queues.prio).next;
            next.Some? ==> forall t :: t in Bag(from) ==>
              && t in s.tasks && next.value in s.tasks && s.tasks[next.value].priority <= s.tasks[t].priority
  {
    var p, from := s.queues.prio, Source(s.queues.prio);
    OfferedLeads(p, s.tasks);
    if Offered(p).next.Some? {
      var next := Offered(p).next.value;
      OfferedIsPriority(s);
      forall t | t in Bag(from)
        ensures t in s.tasks && next in s.tasks && s.tasks[next].priority <= s.tasks[t].priority
      {
        ListedPriority(s, t);
        ListedPriority(s, next);
        LeaderLeast(p, s.tasks, next, t);
      }
    }
  }

  lemma LeaderLeast(p: PrioRq, tasks: Tasks, next: Tid, t: Tid)
    requires PrioInv(p, tasks) && Leads(Source(p), next) && t in Bag(Source(p))
    ensures next in tasks && t in tasks && Level(tasks[next]) <= Level(tasks[t])
  {
    BagMember(Source(p), t);
  }

  /** A task of the priority class that is queued has its level for its priority number. */
  lemma ListedPriority(s: Sched, t: Tid)
    requires Leaving(s)
    ensures t in Bag(s.queues.prio.active) || t in Bag(s.queues.prio.expired) ==>
              t in s.tasks && Level(s.tasks[t]) == s.tasks[t].priority
  {
    HoldsBounds(s.tasks, s.queues, ReadyOf(s.tasks, s.idle));
    if t in Queued(s.queues.prio) { assert t in ReadyOf(s.tasks, s.idle) && Forked(s.tasks[t]); }
  }

  // ---- what `schedule` does to the tasks -------------------------------------------

  /** What only `task_fork` changes. */
  predicate SameClass(x: Task, y: Task)
  {
    x.policy == y.policy && x.classed == y.classed && x.total == y.total && x.priority == y.priority && x.nice == y.nice
  }

  /**
   The processor goes to the picked task, to the idle task when there is none, and nowhere when
   there is no idle task either.  A task that gets it runs with a full slice, the task that had it
   is ready again unless it is idle or was leaving, and nothing else about any task changes.
   */
  lemma ScheduleTasks(s: Sched)
    requires Leaving(s) && Shape(s)
    ensures var s', picked := Schedule(s), PickNext(s).next;
            && s'.current == (if picked.Some? then picked else if s.idle.Some? then s.idle else s.current)
            && s'.idle == s.idle && !s'.needResched && s'.tasks.Keys == s.tasks.Keys
            && (s'.current == s.current ==> s'.tasks == s.tasks)
            && forall t :: t in s.tasks && s'.current != s.current ==>
                 && s'.tasks[t].state == (if s'.current == Some(t) then Running
                                          else if s.current != Some(t) || s.current == s.idle then s.tasks[t].state
                                          else if s.tasks[t].state == Running then Ready
                                          else s.tasks[t].state)
                 && s'.tasks[t].slice == (if s'.current == Some(t) && s.tasks[t].classed then s.tasks[t].total
                                          else s.tasks[t].slice)
                 && SameClass(s.tasks[t], s'.tasks[t])
  {
    hide PickNext, Requeued, Taken;
  }

  /** A task that the processor goes to, other than the idle one, gets a full slice, and no other slice changes. */
  lemma DispatchResets(s: Sched, t: Tid)
    requires Leaving(s) && t in s.tasks
    ensures Shape(s)
    ensures var s' := Schedule(s);
            && t in s'.tasks && s'.tasks[t].total == s.tasks[t].total
            && (s'.current == Some(t) && s.current != Some(t) && Some(t) != s.idle ==>
                  s'.tasks[t].slice == s'.tasks[t].total > 0)
            && (s'.current != Some(t) || s.current == Some(t) ==> s'.tasks[t].slice == s.tasks[t].slice)
  {
    LeavingShape(s);
    hide PickNext, Schedule;
    ScheduleTasks(s);
  }

  /**
   The priority number a task is forked with is the one nearest to 64 + nice between 0 and 64, and 0
   in the round-robin class; its slice is full.
   */
  lemma ForkNumbers(policy: Policy, nice: int, state: TaskState)
    ensures var task := Fork(policy, nice, state);
            && task.policy == policy && task.state == state && task.classed && task.slice == task.total
            && (policy == Priority ==>
                  && 0 <= task.priority <= 64 && task.total == TimeSlice(task.priority) && task.nice == nice
                  && (task.priority < 64 ==> 64 + nice <= task.priority)
                  && (task.priority > 0 ==> task.priority <= 64 + nice))
            && (policy == Normal ==> task.priority == 0 && task.total == 10 && task.nice == 0)
  {
  }

  // ---- what every event does to the tasks ------------------------------------------

  /** The state of task `t` after event `e` has led from `s` to `s'`. */
  ghost function StateAfter(s: Sched, e: Event, s': Sched, t: Tid): TaskState
  {
    if s.current == Some(t) && e == Sleep then Blocked
    else if s.current == Some(t) && e == Exited then Zombie
    else if s.current != Some(t) && s'.current == Some(t) then Running
    else if s.current == Some(t) && s'.current != Some(t) && s.current != s.idle then Ready
    else if e == Woken(t) || t !in s.tasks then Ready
    else s.tasks[t].state
  }

  /** The slice of task `t` after event `e` has led from `s` to `s'`; `total` is its full slice then. */
  ghost function SliceAfter(s: Sched, e: Event, s': Sched, t: Tid, total: nat): nat
  {
    if t !in s.tasks || (e.PolicySet? && e.t == t) then total
    else if !s.tasks[t].classed then s.tasks[t].slice
    else if s.current != Some(t) && s'.current == Some(t) then total
    else if e == TimerTick && s.current == Some(t) && s.tasks[t].slice > 0 then s.tasks[t].slice - 1
    else s.tasks[t].slice
  }

  /** Whether the event asks for the processor to be given away. */
  predicate Schedules(e: Event)
  {
    e == Yield || e == Sleep || e == Exited
  }

  lemma LeaveTasks(s: Sched, e: Event, z: Sched, t: Tid)
    requires Inv(s) && Shape(s) && Allowed(s, e) && (e == Sleep || e == Exited) && t in s.tasks
    requires z == (if e == Sleep then Marked(s, s.current.value, Blocked) else Exiting(s))
    ensures Leaving(z) && Shape(z) && Apply(s, e) == Schedule(z) && !RunsOn(z)
    ensures Schedule(z).current != s.current
  {
    if e == Sleep { StoppedLeaves(s, Blocked); } else { ExitingLeaves(s); }
    LeavingShape(z);
    PickOrder(z);
    LeavesItself(z);
  }

  /** A task that is leaving is not given the processor again. */
  lemma LeavesItself(z: Sched)
    requires Leaving(z) && Shape(z) && !RunsOn(z) && z.current.Some? && z.current != z.idle
    requires z.tasks[z.current.value].state != Running && (z.idle.Some? || Pickable(z.queues))
    ensures Schedule(z).current != z.current
  {
    hide PickNext, Schedule, Holds, Pickable;
    PickNextCorrect(z, ReadyOf(z.tasks, z.idle));
    HoldsBounds(z.tasks, z.queues, ReadyOf(z.tasks, z.idle));
    PickedReady(z);
    ScheduleTasks(z);
  }

  lemma ScheduledTask(s: Sched, e: Event, t: Tid)
    requires Inv(s) && Shape(s) && Allowed(s, e) && Schedules(e) && t in s.tasks
    ensures var s' := Apply(s, e);
            && s'.tasks.Keys == s.tasks.Keys && SameClass(s.tasks[t], s'.tasks[t]) && !s'.needResched
            && s'.tasks[t].state == StateAfter(s, e, s', t)
            && s'.tasks[t].slice == SliceAfter(s, e, s', t, s'.tasks[t].total)
  {
    if e == Yield {
      YieldTask(s, t);
    } else {
      hide Schedule, Inv, Allowed, Apply, StateAfter, SliceAfter;
      var z := if e == Sleep then Marked(s, s.current.value, Blocked) else Exiting(s);
      LeaveTasks(s, e, z, t);
      LeftTask(s, e, z, t);
    }
  }

  lemma YieldTask(s: Sched, t: Tid)
    requires Inv(s) && Shape(s) && t in s.tasks
    ensures var s' := Schedule(s);
            && s'.tasks.Keys == s.tasks.Keys && SameClass(s.tasks[t], s'.tasks[t]) && !s'.needResched
            && s'.tasks[t].state == StateAfter(s, Yield, s', t)
            && s'.tasks[t].slice == SliceAfter(s, Yield, s', t, s'.tasks[t].total)
  {
    hide PickNext, Schedule, Holds;
    ScheduleTasks(s);
  }

  lemma LeftTask(s: Sched, e: Event, z: Sched, t: Tid)
    requires Leaving(z) && Shape(z) && (e == Sleep || e == Exited) && t in s.tasks && s.current.Some?
    requires s.current.value in s.tasks && s.current != s.idle && Schedule(z).current != s.current
    requires z == (if e == Sleep then Marked(s, s.current.value, Blocked) else Exiting(s))
    ensures var s' := Schedule(z);
            && s'.tasks.Keys == s.tasks.Keys && SameClass(s.tasks[t], s'.tasks[t]) && !s'.needResched
            && s'.tasks[t].state == StateAfter(s, e, s', t)
            && s'.tasks[t].slice == SliceAfter(s, e, s', t, s'.tasks[t].total)
  {
    hide PickNext, Schedule, Holds, States;
    ScheduleTasks(z);
    assert s.tasks.Keys + {s.current.value} == s.tasks.Keys;
  }

  /**
   What each event does to each task: its state, its slice, and its class and full slice, which
   only creation and a change of policy set.
   */
  lemma EventTask(s: Sched, e: Event, t: Tid)
    requires Inv(s) && Shape(s) && Allowed(s, e) && t in Apply(s, e).tasks
    ensures var s' := Apply(s, e);
            && s'.idle == s.idle
            && s'.tasks.Keys == s.tasks.Keys + (if e.Created? then {e.t} else {})
            && (e.Created? ==> e.t !in s.tasks) && (!Schedules(e) ==> s'.current == s.current)
            && s'.tasks[t].state == StateAfter(s, e, s', t)
            && s'.tasks[t].slice == SliceAfter(s, e, s', t, s'.tasks[t].total)
            && (t in s.tasks && !(e.PolicySet? && e.t == t) ==> SameClass(s.tasks[t], s'.tasks[t]))
            && (e.PolicySet? && e.t == t ==> s'.tasks[t] == Fork(e.policy, e.nice, s.tasks[t].state))
            && (e.Created? && e.t == t ==> s'.tasks[t] == Fork(e.policy, e.nice, Ready))
  {
    if Schedules(e) {
      EventKeys(s, e);
      hide Inv, Allowed, Apply;
      ScheduledTask(s, e, t);
    } else {
      hide Holds, EnqueueTask;
    }
  }

  lemma EventKeys(s: Sched, e: Event)
    requires Inv(s) && Shape(s) && Allowed(s, e) && Schedules(e)
    ensures Apply(s, e).tasks.Keys == s.tasks.Keys && Apply(s, e).idle == s.idle
  {
    hide PickNext, Schedule, Holds;
    if e == Yield {
      ScheduleTasks(s);
    } else {
      var z := if e == Sleep then Marked(s, s.current.value, Blocked) else Exiting(s);
      LeaveTasks(s, e, z, s.current.value);
      ScheduleTasks(z);
      assert s.tasks.Keys + {s.current.value} == s.tasks.Keys;
    }
  }

  /** The flag is set exactly when a task has been woken and nobody has given up the processor since. */
  function Pending(events: seq<Event>, before: bool): bool
  {
    if events == [] then before
    else
      var e := events[|events| - 1];
      if e.Woken? then true else if Schedules(e) then false else Pending(events[..|events| - 1], before)
  }

  lemma {:induction false} ReschedPending(states: seq<Sched>, events: seq<Event>, i: nat)
    requires IsRun(states, events) && Inv(states[0]) && i < |states|
    ensures states[i].needResched == Pending(events[..i], states[0].needResched)
  {
    if i > 0 {
      ReschedPending(states, events, i - 1);
      RunSafe(states, events, i - 1);
      assert events[..i][..i - 1] == events[..i - 1];
      FlagStep(states[i - 1], events[i - 1]);
      assert Follows(states[i - 1], events[i - 1], states[i]);
    }
  }

  lemma FlagStep(s: Sched, e: Event)
    requires Inv(s) && Shape(s) && Allowed(s, e)
    ensures Apply(s, e).needResched == if e.Woken? then true else if Schedules(e) then false else s.needResched
  {
    hide PickNext, Requeued, Taken, Inv;
  }

  // ---- time slices of dispatched tasks ---------------------------------------------

  /** Event `k` gives the processor to task `c`, and the events after it up to `i` leave that task alone. */
  ghost predicate Dispatched(states: seq<Sched>, events: seq<Event>, c: Tid, k: nat, i: nat)
  {
    && IsRun(states, events) && Inv(states[0]) && k < i <= |events|
    && states[k].current != Some(c) && states[k + 1].current == Some(c) && Some(c) != states[k + 1].idle
    && c in states[k + 1].tasks
    && forall m :: k < m < i ==> LeavesAlone(events[m], c)
  }

  lemma DispatchedAfresh(states: seq<Sched>, events: seq<Event>, c: Tid, k: nat, i: nat)
    requires Dispatched(states, events, c, k, i)
    ensures JustDispatched(states[k + 1..i + 1], events[k + 1..i], c)
  {
    hide Inv, Allowed, Apply, Shape, IsRun, LeavesAlone;
    RunLength(states, events);
    RunSafe(states, events, k);
    RunSafe(states, events, k + 1);
    RunStep(states, events, k);
    EventTask(states[k], events[k], c);
    TaskClassed(states[k], c);
    SubRun(states, events, k + 1, i);
    forall e | e in events[k + 1..i] ensures LeavesAlone(e, c) {
      var m :| 0 <= m < i - k - 1 && events[k + 1..i][m] == e;
      assert events[k + 1 + m] == e;
    }
  }

  lemma TaskClassed(s: Sched, c: Tid)
    requires Inv(s)
    ensures c in s.tasks && Some(c) != s.idle ==> s.tasks[c].classed
  {
  }

  lemma RunStep(states: seq<Sched>, events: seq<Event>, k: nat)
    requires IsRun(states, events) && k < |events|
    ensures |states| == |events| + 1
    ensures Follows(states[k], events[k], states[k + 1])
  {
  }

  /** A stretch of a run is a run. */
  lemma SubRun(states: seq<Sched>, events: seq<Event>, k: nat, i: nat)
    requires IsRun(states, events) && k <= i <= |events|
    ensures |states| == |events| + 1 && IsRun(states[k..i + 1], events[k..i])
  {
    hide Follows;
    var ss, es := states[k..i + 1], events[k..i];
    forall m | 0 <= m < |es| ensures Follows(ss[m], es[m], ss[m + 1]) {
      assert Follows(states[k + m], events[k + m], states[k + m + 1]);
    }
  }

  /**
   A task that an event gives the processor to keeps it for its full slice, one tick of slice per
   timer tick, or else is displaced in a yield, after event `j - 1`, by a priority task whose
   priority number is strictly smaller.
   */
  lemma DispatchGuarantee(states: seq<Sched>, events: seq<Event>, c: Tid, k: nat, i: nat) returns (j: nat)
    requires Dispatched(states, events, c, k, i)
    requires Ticks(events[k + 1..i]) < states[k + 1].tasks[c].total
    ensures k < j <= i && states[j].current == Some(c) && c in states[j].tasks
    ensures states[j].tasks[c].slice + Ticks(events[k + 1..j]) == states[k + 1].tasks[c].total
    ensures j < i ==>
              && events[j] == Yield && states[j + 1].current.Some?
              && var next := states[j + 1].current.value;
              && next in ReadyOf(states[j].tasks, states[j].idle) && states[j].tasks[next].policy == Priority
              && states[j].tasks[next].priority < states[k + 1].tasks[c].priority
  {
    hide Inv, IsRun;
    RunLength(states, events);
    var ss, es := states[k + 1..i + 1], events[k + 1..i];
    DispatchedAfresh(states, events, c, k, i);
    assert es[..|es|] == es;
    var m := SliceGuarantee(ss, es, c, |es|);
    j := k + 1 + m;
    assert es[..m] == events[k + 1..j];
  }

  lemma RunLength(states: seq<Sched>, events: seq<Event>)
    requires IsRun(states, events)
    ensures |states| == |events| + 1
  {
  }

  /** A round-robin task that an event gives the processor to keeps it for ten ticks, whatever is queued. */
  lemma RoundRobinKeepsTen(states: seq<Sched>, events: seq<Event>, c: Tid, k: nat, i: nat)
    requires Dispatched(states, events, c, k, i) && states[k + 1].tasks[c].policy == Normal
    requires Ticks(events[k + 1..i]) < 10
    ensures states[i].current == Some(c) && c in states[i].tasks
    ensures states[i].tasks[c].slice + Ticks(events[k + 1..i]) == 10
  {
    hide Inv, IsRun;
    RunLength(states, events);
    var ss, es := states[k + 1..i + 1], events[k + 1..i];
    DispatchedAfresh(states, events, c, k, i);
    assert es[..|es|] == es;
    RoundRobinSliceGuarantee(ss, es, c, |es|);
    TotalOf(ss[0], c);
  }

  lemma TotalOf(s: Sched, c: Tid)
    requires Inv(s) && c in s.tasks && Some(c) != s.idle && s.tasks[c].policy == Normal
    ensures s.tasks[c].total == 10 && s.tasks[c].priority == 0
  {
  }
}
