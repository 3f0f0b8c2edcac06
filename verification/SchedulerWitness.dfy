/**
 A concrete run, without an idle task, of two priority tasks at the default level: the second
 one's first yield after a full slice is the yield that starves it.
 */
module SchedulerWitness {
  import opened Common
  import opened TaskQueues
  import opened PriorityQueue
  import opened SchedulerModel
  import opened SchedulerSteps
  import opened SchedulerRuns
  import opened SchedulerStarvation

  /** Only the lists of level 64 hold tasks. */
  function Default(q: seq<Tid>): (r: seq<seq<Tid>>)
    ensures |r| == PRIO_LEVELS
  {
    NoQueues(PRIO_LEVELS)[PRIO_DEFAULT := q]
  }

  function Rq(active: seq<Tid>, expired: seq<Tid>, nrActive: nat, nrExpired: nat): PrioRq
  {
    PrioRq(Default(active), Default(expired), nrActive, nrExpired,
           if active == [] then PRIO_MIN else PRIO_DEFAULT, |active| + |expired|)
  }

  function AtDefault(state: TaskState, slice: nat): Task
  {
    Task(state, Priority, true, slice, 20, PRIO_DEFAULT, 0)
  }

  lemma ScanDefault(q: seq<Tid>)
    ensures FindHighest(Default(q), 0) == if q == [] then PRIO_MIN else PRIO_DEFAULT
  {
    HighestUnique(Default(q), if q == [] then PRIO_MIN else PRIO_DEFAULT);
  }

  lemma EnqueueRq(a: seq<Tid>, e: seq<Tid>, na: nat, ne: nat, t: Tid, task: Task)
    requires task.priority == PRIO_DEFAULT && na < 10 && ne < 10 && |a| + |e| < 10
    ensures Enqueue(Rq(a, e, na, ne), t, task, false) ==
            if task.slice == 0 then Rq(a, e + [t], na, ne + 1) else Rq(a + [t], e, na + 1, ne)
  {
    var q := Enqueue(Rq(a, e, na, ne), t, task, false);
    assert q.active == Default(if task.slice == 0 then a else a + [t]);
    assert q.expired == Default(if task.slice == 0 then e + [t] else e);
  }

  lemma DequeueRq(a: seq<Tid>, e: seq<Tid>, na: nat, ne: nat, t: Tid, task: Task)
    requires (t in a && t !in e) && na > 0 && |Without(a, t)| == |a| - 1
    ensures Dequeue(Rq(a, e, na, ne), t, task) ==
            if task.slice == 0 && ne > 0 then Rq(Without(a, t), e, na, ne - 1) else Rq(Without(a, t), e, na - 1, ne)
  {
    var q := Dequeue(Rq(a, e, na, ne), t, task);
    WithoutAbsent(e, t);
    assert q.active == Default(Without(a, t));
    assert q.expired == Default(e);
    ScanDefault(Without(a, t));
  }

  lemma PickRq(a: seq<Tid>, e: seq<Tid>, na: nat, ne: nat)
    requires (na > 0 && a != []) || (na == 0 && ne > 0 && e != [])
    ensures Pick(Rq(a, e, na, ne)) ==
            if na > 0 then Picked(Rq(a, e, na, ne), Some(a[0])) else Picked(Rq(e, a, ne, na), Some(e[0]))
  {
    ScanDefault(a);
    ScanDefault(e);
  }

  /** The states of the run: two tasks, the run queue and the legacy list. */
  function Two(current: Option<Tid>, one: Task, two: Task, prio: PrioRq, runQueue: seq<Tid>): Sched
  {
    Sched(map[1 := one, 2 := two], current, None, Queues([], 0, prio, runQueue, |runQueue|), false)
  }

  /** After both tasks are created. */
  const CREATED := Two(None, AtDefault(Ready, 20), AtDefault(Ready, 20), Rq([1, 2], [], 2, 0), [1, 2])
  /** Task 1 runs, with `n` ticks of its slice left. */
  function FirstRuns(n: nat): Sched
  {
    Two(Some(1), AtDefault(Running, n), AtDefault(Ready, 20), Rq([2], [], 1, 0), [2])
  }
  /** Task 2 runs, with `n` ticks of its slice left; task 1 has exhausted its own. */
  function SecondRuns(n: nat): Sched
  {
    Two(Some(2), AtDefault(Ready, 0), AtDefault(Running, n), Rq([], [1], 0, 1), [1])
  }

  /** After the first task is created. */
  const FIRST := Sched(map[1 := AtDefault(Ready, 20)], None, None, Queues([], 0, Rq([1], [], 1, 0), [1], 1), false)

  lemma CreateFirst(idleTask: Task)
    requires Shape(Boot(None, idleTask))
    ensures Create(Boot(None, idleTask), 1, Priority, 0) == FIRST
  {
    assert EMPTY == Rq([], [], 0, 0);
    EnqueueRq([], [], 0, 0, 1, AtDefault(Ready, 20));
    assert [] + [1] == [1];
  }

  lemma CreateSecond()
    requires Shape(FIRST)
    ensures Create(FIRST, 2, Priority, 0) == CREATED
  {
    EnqueueRq([1], [], 1, 0, 2, AtDefault(Ready, 20));
    assert [1] + [2] == [1, 2];
    assert FIRST.tasks[2 := AtDefault(Ready, 20)] == CREATED.tasks;
  }

  lemma FirstYield()
    requires Shape(CREATED)
    ensures Schedule(CREATED) == FirstRuns(20)
  {
    PickRq([1, 2], [], 2, 0);
    assert Without([1, 2], 1) == [2];
    DequeueRq([1, 2], [], 2, 0, 1, AtDefault(Ready, 20));
  }

  /** Both tasks ready, the first one's slice used up. */
  const YIELDED := map[1 := AtDefault(Ready, 0), 2 := AtDefault(Ready, 20)]

  lemma SecondQueues()
    ensures var q := EnqueueTask(YIELDED, Queues([], 0, Rq([2], [], 1, 0), [2], 1), 1, false);
            && |q.prio.active| == |q.prio.expired| == PRIO_LEVELS
            && DequeueTask(YIELDED, q, 2) == Queues([], 0, Rq([], [1], 0, 1), [1], 1)
  {
    hide Enqueue, Dequeue, Default;
    EnqueueRq([2], [], 1, 0, 1, AtDefault(Ready, 0));
    assert Without([2], 2) == [] && Without([2, 1], 2) == [1];
    DequeueRq([2], [1], 1, 1, 2, AtDefault(Ready, 20));
    assert [2] + [1] == [2, 1] && [] + [1] == [1];
  }

  lemma SecondYield()
    requires Shape(FirstRuns(0))
    ensures Schedule(FirstRuns(0)) == SecondRuns(20)
  {
    hide Pick, EnqueueTask, DequeueTask, Default;
    PickRq([2], [], 1, 0);
    SecondQueues();
    var s := FirstRuns(0);
    assert PickNext(s) == Chosen(s.queues.prio, Some(2));
    assert Yielded(s.tasks, s.current, s.idle) == YIELDED;
    assert Switched(s.tasks, s.current, s.idle, 2) == SecondRuns(20).tasks;
  }

  /** The yield that swaps the arrays: task 2 stays behind on the expired array, one too many is counted as active. */
  lemma ThirdYield()
    requires Shape(SecondRuns(0))
    ensures Schedule(SecondRuns(0)).queues.prio == Rq([], [2], 1, 0)
  {
    PickRq([], [1], 0, 1);
    EnqueueRq([1], [], 1, 0, 2, AtDefault(Ready, 0));
    assert Without([1], 1) == [];
    DequeueRq([1], [2], 1, 1, 1, AtDefault(Ready, 0));
    assert [] + [2] == [2];
    var s := SecondRuns(0);
    assert PickNext(s) == Chosen(Rq([1], [], 1, 0), Some(1));
  }

  lemma SecondIsDoomed()
    requires Inv(SecondRuns(0)) && Shape(SecondRuns(0))
    ensures var s := Schedule(SecondRuns(0)); Doomed(s.tasks, s.queues.prio, 2)
  {
    hide Inv, Default, Schedule, Doomed, Bag, Pick, FindHighest, SpentActive, Drifted;
    DefaultAt([1]);
    assert 1 in Default([1])[PRIO_DEFAULT];
    BagMember(Default([1]), 1);
    assert 1 in Queued(SecondRuns(0).queues.prio);
    YieldDoomsIff(SecondRuns(0), 2);
  }

  lemma DefaultAt(q: seq<Tid>)
    ensures Default(q)[PRIO_DEFAULT] == q
  {
  }

  /** A pick on the run queue that is left finds nothing although a task is queued. */
  lemma PickFindsNothing()
    ensures Pick(Rq([], [2], 1, 0)).next == None && 2 in Queued(Rq([], [2], 1, 0))
  {
    hide Bag, FindHighest;
    ScanDefault([]);
    assert Default([2])[PRIO_DEFAULT] == [2];
    BagMember(Default([2]), 2);
  }

  lemma Extend(states: seq<Sched>, events: seq<Event>, e: Event) returns (states': seq<Sched>, events': seq<Event>)
    requires IsRun(states, events) && Shape(states[|events|]) && Allowed(states[|events|], e)
    ensures IsRun(states', events') && states'[0] == states[0]
    ensures states'[|events'|] == Apply(states[|events|], e)
  {
    states' := states + [Apply(states[|events|], e)];
    events' := events + [e];
    forall i | 0 <= i < |events'| ensures Follows(states'[i], events'[i], states'[i + 1]) {
      if i < |events| { assert Follows(states[i], events[i], states[i + 1]); }
    }
  }

  /** From boot a run reaches a state in which task 2 is stuck: no array swap, no turn, ever again;
      a pick finds no task although one is queued. */
  lemma StuckReachable(idleTask: Task) returns (states: seq<Sched>, events: seq<Event>)
    ensures IsRun(states, events) && states[0] == Boot(None, idleTask)
    ensures Inv(states[|events|]) && Doomed(states[|events|].tasks, states[|events|].queues.prio, 2)
    ensures var p := states[|events|].queues.prio; 2 in Queued(p) && Pick(p).next == None
  {
    hide *;
    states, events := TwoTurns(idleTask);
    RunFacts(states, events);
    ThirdIsStuck();
    YieldIs(SecondRuns(0));
    states, events := ExtendSafely(states, events, Yield);
    RunFacts(states, events);
  }

  /** Both tasks have used up their first slices, and the second one has the processor. */
  lemma TwoTurns(idleTask: Task) returns (states: seq<Sched>, events: seq<Event>)
    ensures IsRun(states, events) && states[0] == Boot(None, idleTask) && Inv(states[0])
    ensures states[|events|] == SecondRuns(0)
  {
    hide Inv, Default, Schedule, IsRun, EnqueueTask;
    states, events := BootRun(idleTask);
    states, events := ExtendSafely(states, events, Created(1, Priority, 0));
    CreateFirst(idleTask);
    states, events := ExtendSafely(states, events, Created(2, Priority, 0));
    CreateSecond();
    states, events := ExtendSafely(states, events, Yield);
    FirstYield();
    states, events := ExtendTicks(states, events, true, 20);
    states, events := ExtendSafely(states, events, Yield);
    SecondYield();
    states, events := ExtendTicks(states, events, false, 20);
  }

  lemma BootRun(idleTask: Task) returns (states: seq<Sched>, events: seq<Event>)
    ensures IsRun(states, events) && events == [] && states == [Boot(None, idleTask)] && Inv(states[0])
  {
    BootInv(None, idleTask);
    states, events := [Boot(None, idleTask)], [];
  }

  lemma RunFacts(states: seq<Sched>, events: seq<Event>)
    requires IsRun(states, events) && Inv(states[0])
    ensures |states| == |events| + 1 && Inv(states[|events|]) && Shape(states[|events|])
  {
    RunSafe(states, events, |events|);
    LeavingShape(states[|events|]);
  }

  lemma YieldIs(s: Sched)
    requires Shape(s)
    ensures Allowed(s, Yield) && Apply(s, Yield) == Schedule(s)
  {
  }

  lemma ThirdIsStuck()
    requires Inv(SecondRuns(0)) && Shape(SecondRuns(0))
    ensures var s := Schedule(SecondRuns(0));
            && Doomed(s.tasks, s.queues.prio, 2) && 2 in Queued(s.queues.prio)
            && |s.queues.prio.active| == |s.queues.prio.expired| == PRIO_LEVELS
            && Pick(s.queues.prio).next == None
  {
    hide Inv, Schedule, Doomed, Pick, Default, Queued;
    SecondIsDoomed();
    ThirdYield();
    PickFindsNothing();
  }

  lemma ExtendSafely(states: seq<Sched>, events: seq<Event>, e: Event)
    returns (states': seq<Sched>, events': seq<Event>)
    requires IsRun(states, events) && Inv(states[0]) && Allowed(states[|events|], e)
    ensures IsRun(states', events') && states'[0] == states[0]
    ensures Shape(states[|events|]) && states'[|events'|] == Apply(states[|events|], e)
  {
    RunSafe(states, events, |events|);
    LeavingShape(states[|events|]);
    states', events' := Extend(states, events, e);
  }

  function OneRuns(first: bool, n: nat): Sched
  {
    if first then FirstRuns(n) else SecondRuns(n)
  }

  /** `n` ticks in a row use up `n` ticks of the current task's slice. */
  lemma {:induction false} ExtendTicks(states: seq<Sched>, events: seq<Event>, first: bool, n: nat)
    returns (states': seq<Sched>, events': seq<Event>)
    requires IsRun(states, events) && Inv(states[0]) && states[|events|] == OneRuns(first, n)
    ensures IsRun(states', events') && states'[0] == states[0] && states'[|events'|] == OneRuns(first, 0)
    decreases n
  {
    if n == 0 {
      states', events' := states, events;
    } else {
      states', events' := ExtendSafely(states, events, TimerTick);
      TickOne(first, n);
      states', events' := ExtendTicks(states', events', first, n - 1);
    }
  }

  lemma TickOne(first: bool, n: nat)
    requires n > 0
    ensures Tick(OneRuns(first, n)) == OneRuns(first, n - 1)
  {
  }

  /** The lone task of a system without an idle task. */
  const LONE := Sched(map[1 := AtDefault(Running, 20)], Some(1), None, Queues([], 0, Rq([], [], 0, 0), [], 0), false)

  lemma LoneYield()
    requires Shape(FIRST)
    ensures Schedule(FIRST) == LONE
  {
    PickRq([1], [], 1, 0);
    assert Without([1], 1) == [];
    DequeueRq([1], [], 1, 0, 1, AtDefault(Ready, 20));
  }

  /**
   Without an idle task the lone task's sleep breaks the invariant in a reachable state: it stays
   current while blocked, and the wake-up then links the current task on the run queues.
   */
  lemma LoneSleeper(idleTask: Task) returns (states: seq<Sched>, events: seq<Event>)
    ensures IsRun(states, events) && states[0] == Boot(None, idleTask)
    ensures var s := states[|events|];
            && s == LONE && Inv(s) && Shape(s)
            && !Inv(Block(s)) && Block(s).current == Some(1) && Shape(Block(s)) && 1 in Block(s).tasks
            && 1 in Wake(Block(s), 1).queues.runQueue && Wake(Block(s), 1).current == Some(1)
  {
    BootInv(None, idleTask);
    states, events := [Boot(None, idleTask)], [];
    states, events := ExtendSafely(states, events, Created(1, Priority, 0));
    CreateFirst(idleTask);
    states, events := ExtendSafely(states, events, Yield);
    LoneYield();
    RunSafe(states, events, |events|);
    LoneBlock();
  }

  lemma LoneBlock()
    requires Inv(LONE)
    ensures Shape(LONE) && !Inv(Block(LONE))
    ensures Block(LONE) == Marked(LONE, 1, Blocked) && Shape(Block(LONE))
  {
    StoppedLeaves(LONE, Blocked);
    LeavingShape(LONE);
    LeavingShape(Marked(LONE, 1, Blocked));
    BagEmpty(Default([]));
    BlockKeepsIff(LONE);
  }

  /** In the same state its exit breaks the invariant and leaves `nr_running` wrong. */
  lemma LoneExit(idleTask: Task) returns (states: seq<Sched>, events: seq<Event>)
    ensures IsRun(states, events) && states[0] == Boot(None, idleTask)
    ensures var s := states[|events|];
            Inv(s) && Tallied(s.queues) && s.current == Some(1) && Shape(s) && !Inv(Exit(s)) && !Tallied(Exit(s).queues)
  {
    states, events := LoneSleeper(idleTask);
    var s := states[|events|];
    assert s == LONE;
    BagEmpty(Default([]));
    ExitKeepsIff(LONE);
    ExitTalliedIff(LONE);
  }

  /** Moving a queued priority task to the round-robin class breaks the invariant in a reachable state. */
  lemma QueuedPolicyChange(idleTask: Task) returns (states: seq<Sched>, events: seq<Event>)
    ensures IsRun(states, events) && states[0] == Boot(None, idleTask)
    ensures var s := states[|events|]; Inv(s) && 1 in s.tasks && !Inv(SetPolicy(s, 1, Normal, 0))
  {
    BootInv(None, idleTask);
    states, events := [Boot(None, idleTask)], [];
    states, events := ExtendSafely(states, events, Created(1, Priority, 0));
    CreateFirst(idleTask);
    RunSafe(states, events, |events|);
    SetPolicyKeepsIff(FIRST, 1, Normal, 0);
  }
}
