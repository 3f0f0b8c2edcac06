/**
 The priority class's run queue (kernel/process/sched_prio.c): 128 active and 128 expired
 lists, two cached task counters and a cached best level.  `prio_dequeue_task` guesses from
 the time slice which array a task was linked on, so the two counters can drift; the lemmas
 say exactly what survives the guess.
 */
module PriorityQueue {
  import opened Common
  import opened TaskQueues

  const PRIO_LEVELS := 128
  const PRIO_MAX := 0
  const PRIO_MIN := 127
  const PRIO_DEFAULT := 64
  const TWO32 := 0x1_0000_0000

  datatype Policy = Normal | Priority
  datatype TaskState = Ready | Running | Blocked | Zombie

  /** The scheduling part of a PCB.  `classed` says that `sched_class` is not NULL. */
  datatype Task = Task(state: TaskState, policy: Policy, classed: bool,
                       slice: nat, total: nat, priority: int, nice: int)

  /** `uint32_t` increment and decrement. */
  function Inc32(n: int): int { if n == TWO32 - 1 then 0 else n + 1 }
  function Dec32(n: int): int { if n == 0 then TWO32 - 1 else n - 1 }

  function TimeSlice(priority: int): nat
  {
    if priority == 0 then 100 else if priority < 64 then 50 else 20
  }

  /** A smaller priority number never has a shorter slice; the slices are 100, 50 and 20 ticks. */
  lemma TimeSliceOrder(a: int, b: int)
    requires 0 <= a <= b < PRIO_LEVELS
    ensures TimeSlice(b) <= TimeSlice(a)
    ensures TimeSlice(0) == 100 && (0 < a < 64 ==> TimeSlice(a) == 50) && (64 <= a ==> TimeSlice(a) == 20)
  {
  }

  /** The level a task is linked on: its priority, clamped. */
  function Level(task: Task): (l: nat)
    ensures l < PRIO_LEVELS
    ensures 0 <= task.priority < PRIO_LEVELS ==> l == task.priority
  {
    if task.priority < PRIO_MAX then PRIO_MAX
    else if task.priority > PRIO_MIN then PRIO_MIN
    else task.priority
  }

  datatype PrioRq = PrioRq(active: seq<seq<Tid>>, expired: seq<seq<Tid>>,
                           nrActive: int, nrExpired: int, highest: int, nrRunning: int)

  datatype Picked = Picked(rq: PrioRq, next: Option<Tid>)
  // ---- operations ------------------------------------------------------------------

  /** Scan upward from level `i`; the lowest level when every list is empty. */
  function FindHighest(qs: seq<seq<Tid>>, i: nat): int
    requires i <= |qs|
    decreases |qs| - i
  {
    if i == |qs| then PRIO_MIN
    else if qs[i] != [] then i
    else FindHighest(qs, i + 1)
  }

  function Linked(q: seq<Tid>, t: Tid, head: bool): seq<Tid>
  {
    if head then [t] + q else q + [t]
  }

  function Enqueue(p: PrioRq, t: Tid, task: Task, head: bool): PrioRq
    requires |p.active| == |p.expired| == PRIO_LEVELS
  {
    var l := Level(task);
    var q := if task.slice == 0
             then p.(expired := p.expired[l := Linked(p.expired[l], t, head)],
                     nrExpired := Inc32(p.nrExpired))
             else p.(active := p.active[l := Linked(p.active[l], t, head)],
                     nrActive := Inc32(p.nrActive),
                     highest := if l < p.highest then l else p.highest);
    q.(nrRunning := Inc32(p.nrRunning))
  }

  function Dequeue(p: PrioRq, t: Tid, task: Task): PrioRq
    requires |p.active| == |p.expired| == PRIO_LEVELS
  {
    var active := WithoutAll(p.active, t);
    var q := p.(active := active, expired := WithoutAll(p.expired, t),
                nrRunning := Dec32(p.nrRunning), highest := FindHighest(active, 0));
    if task.slice == 0 && p.nrExpired > 0 then q.(nrExpired := p.nrExpired - 1)
    else if p.nrActive > 0 then q.(nrActive := p.nrActive - 1)
    else q
  }

  function Swap(p: PrioRq): PrioRq
  {
    PrioRq(p.expired, p.active, p.nrExpired, p.nrActive, FindHighest(p.expired, 0), p.nrRunning)
  }

  function Pick(p: PrioRq): Picked
    requires |p.active| == |p.expired| == PRIO_LEVELS
  {
    if p.nrActive == 0 && p.nrExpired <= 0 then Picked(p, None)
    else
      var q := if p.nrActive == 0 then Swap(p) else p;
      FindHighestScan(q.active, 0);
      var l := FindHighest(q.active, 0);
      Picked(q, if q.active[l] == [] then None else Some(q.active[l][0]))
  }

  predicate ShouldPreempt(p: Task, curr: Task)
  {
    p.priority < curr.priority || (p.priority == curr.priority && curr.slice == 0)
  }

  const EMPTY := PrioRq(NoQueues(PRIO_LEVELS), NoQueues(PRIO_LEVELS), 0, 0, PRIO_MIN, 0)

  // ---- the scan --------------------------------------------------------------------

  /** The scan finds the least non-empty level at or above `i`, and 127 exactly when there is none. */
  lemma {:induction false} FindHighestScan(qs: seq<seq<Tid>>, i: nat)
    requires i <= |qs| == PRIO_LEVELS
    ensures 0 <= FindHighest(qs, i) < PRIO_LEVELS
    ensures forall j :: i <= j < FindHighest(qs, i) ==> qs[j] == []
    ensures FindHighest(qs, i) < i ==> i == PRIO_LEVELS
    ensures qs[FindHighest(qs, i)] == [] ==>
              FindHighest(qs, i) == PRIO_MIN && forall j :: i <= j < |qs| ==> qs[j] == []
    decreases |qs| - i
  {
    if i < |qs| && qs[i] == [] { FindHighestScan(qs, i + 1); }
  }

  /** Nothing but the least non-empty level satisfies the scan's description. */
  lemma HighestUnique(qs: seq<seq<Tid>>, l: nat)
    requires l < |qs| == PRIO_LEVELS
    requires forall j :: 0 <= j < l ==> qs[j] == []
    requires qs[l] != [] || (l == PRIO_MIN)
    ensures FindHighest(qs, 0) == l
  {
    FindHighestScan(qs, 0);
  }

  // ---- the invariant ---------------------------------------------------------------

  ghost function Queued(p: PrioRq): multiset<Tid>
  {
    Bag(p.active) + Bag(p.expired)
  }

  ghost predicate Distinct(m: multiset<Tid>)
  {
    forall t :: t in m ==> m[t] == 1
  }

  /** Both counters say how many tasks are on their array. */
  ghost predicate Exact(p: PrioRq)
  {
    p.nrActive == |Bag(p.active)| && p.nrExpired == |Bag(p.expired)|
  }

  /** More tasks are counted as active than are linked on the active array. */
  ghost predicate Drifted(p: PrioRq)
  {
    |Bag(p.active)| < p.nrActive
  }

  ghost predicate Placed(p: PrioRq, tasks: map<Tid, Task>)
    requires |p.active| == |p.expired| == PRIO_LEVELS
  {
    && (forall l, t :: 0 <= l < PRIO_LEVELS && t in p.active[l] ==> t in tasks && Level(tasks[t]) == l)
    && (forall l, t :: 0 <= l < PRIO_LEVELS && t in p.expired[l] ==>
          t in tasks && Level(tasks[t]) == l && tasks[t].slice == 0)
  }

  /**
   Every task is linked once, the sum of the two counters is the number of linked tasks, and
   the active counter is never below the number of tasks on the active array.
   */
  ghost predicate Counted(p: PrioRq)
  {
    CountedAs(Bag(p.active), Bag(p.expired), p.nrActive, p.nrExpired, p.nrRunning)
  }

  ghost predicate CountedAs(active: multiset<Tid>, expired: multiset<Tid>,
                            nrActive: int, nrExpired: int, nrRunning: int)
  {
    && Distinct(active + expired)
    && nrRunning == |active + expired| == nrActive + nrExpired
    && |active| <= nrActive
    && 0 <= nrExpired
  }

  /** What every priority operation keeps, whatever the dequeue guesses. */
  ghost predicate PrioInv(p: PrioRq, tasks: map<Tid, Task>)
  {
    && |p.active| == |p.expired| == PRIO_LEVELS
    && p.highest == FindHighest(p.active, 0)
    && Counted(p)
    && Placed(p, tasks)
  }

  lemma EmptyInv(tasks: map<Tid, Task>)
    ensures PrioInv(EMPTY, tasks) && Exact(EMPTY) && Queued(EMPTY) == multiset{}
  {
    BagEmpty(EMPTY.active);
    HighestUnique(EMPTY.active, PRIO_MIN);
  }

  /** The tasks' other data may change while their slices and levels stay put. */
  lemma PrioInvFrame(p: PrioRq, tasks: map<Tid, Task>, tasks': map<Tid, Task>)
    requires PrioInv(p, tasks)
    requires forall t :: t in Queued(p) && t in tasks ==>
               t in tasks' && tasks'[t].slice == tasks[t].slice && tasks'[t].priority == tasks[t].priority
    ensures PrioInv(p, tasks')
  {
    hide Queued, Counted, FindHighest, Bag;
    forall l, t | 0 <= l < PRIO_LEVELS && (t in p.active[l] || t in p.expired[l])
      ensures t in Queued(p)
    {
      InQueued(p, t);
    }
  }

  lemma InQueued(p: PrioRq, t: Tid)
    ensures t in Queued(p) <==>
            || (exists l :: 0 <= l < |p.active| && t in p.active[l])
            || (exists l :: 0 <= l < |p.expired| && t in p.expired[l])
  {
    BagMember(p.active, t);
    BagMember(p.expired, t);
  }

  lemma LinkBag(qs: seq<seq<Tid>>, l: nat, t: Tid, head: bool)
    requires l < |qs|
    ensures Bag(qs[l := Linked(qs[l], t, head)]) == Bag(qs) + multiset{t}
  {
    BagUpdate(qs, l, Linked(qs[l], t, head));
    assert multiset(Linked(qs[l], t, head)) == multiset(qs[l]) + multiset{t};
  }

  lemma EnqueueBag(p: PrioRq, t: Tid, task: Task, head: bool)
    requires |p.active| == |p.expired| == PRIO_LEVELS
    ensures var q := Enqueue(p, t, task, head);
            && Bag(q.active) == Bag(p.active) + (if task.slice == 0 then multiset{} else multiset{t})
            && Bag(q.expired) == Bag(p.expired) + (if task.slice == 0 then multiset{t} else multiset{})
  {
    if task.slice == 0 {
      LinkBag(p.expired, Level(task), t, head);
    } else {
      LinkBag(p.active, Level(task), t, head);
    }
  }

  lemma EnqueueCounted(p: PrioRq, t: Tid, task: Task, head: bool)
    requires |p.active| == |p.expired| == PRIO_LEVELS
    requires Counted(p) && t !in Queued(p) && |Queued(p)| + 1 < TWO32
    ensures var q := Enqueue(p, t, task, head);
            && Counted(q)
            && Queued(q) == Queued(p) + multiset{t}
            && q.nrActive - |Bag(q.active)| == p.nrActive - |Bag(p.active)|
  {
    EnqueueBag(p, t, task, head);
    CountsGrow(Bag(p.active), Bag(p.expired), p.nrActive, p.nrExpired, p.nrRunning, t);
  }

  lemma CountsGrow(active: multiset<Tid>, expired: multiset<Tid>, nrActive: int, nrExpired: int, nrRunning: int, t: Tid)
    requires CountedAs(active, expired, nrActive, nrExpired, nrRunning) && t !in active + expired
    ensures CountedAs(active + multiset{t}, expired, nrActive + 1, nrExpired, nrRunning + 1)
    ensures CountedAs(active, expired + multiset{t}, nrActive, nrExpired + 1, nrRunning + 1)
    ensures (active + multiset{t}) + expired == (active + expired) + multiset{t}
    ensures active + (expired + multiset{t}) == (active + expired) + multiset{t}
    ensures active + multiset{} == active && expired + multiset{} == expired
  {
    assert (active + multiset{t}) + expired == (active + expired) + multiset{t};
    assert active + (expired + multiset{t}) == (active + expired) + multiset{t};
  }

  lemma EnqueuePlaced(p: PrioRq, tasks: map<Tid, Task>, t: Tid, head: bool)
    requires |p.active| == |p.expired| == PRIO_LEVELS && Placed(p, tasks) && t in tasks
    ensures Placed(Enqueue(p, t, tasks[t], head), tasks)
  {
  }

  lemma EnqueueHighest(p: PrioRq, t: Tid, task: Task, head: bool)
    requires |p.active| == |p.expired| == PRIO_LEVELS && p.highest == FindHighest(p.active, 0)
    ensures var q := Enqueue(p, t, task, head); q.highest == FindHighest(q.active, 0)
  {
    FindHighestScan(p.active, 0);
    if task.slice != 0 {
      HighestUnique(Enqueue(p, t, task, head).active, if Level(task) < p.highest then Level(task) else p.highest);
    }
  }

  lemma EnqueueKeeps(p: PrioRq, tasks: map<Tid, Task>, t: Tid, head: bool)
    requires PrioInv(p, tasks) && t in tasks && t !in Queued(p)
    requires |Queued(p)| + 1 < TWO32
    ensures var q := Enqueue(p, t, tasks[t], head);
            && PrioInv(q, tasks)
            && Queued(q) == Queued(p) + multiset{t}
            && q.nrActive - |Bag(q.active)| == p.nrActive - |Bag(p.active)|
  {
    EnqueueCounted(p, t, tasks[t], head);
    EnqueuePlaced(p, tasks, t, head);
    EnqueueHighest(p, t, tasks[t], head);
  }

  lemma DequeueBag(p: PrioRq, t: Tid, task: Task)
    requires |p.active| == |p.expired| == PRIO_LEVELS
    ensures var q := Dequeue(p, t, task);
            && Bag(q.active) == Bag(p.active)[t := 0] && Bag(q.expired) == Bag(p.expired)[t := 0]
            && |Bag(q.active)| == |Bag(p.active)| - Bag(p.active)[t]
            && |Bag(q.expired)| == |Bag(p.expired)| - Bag(p.expired)[t]
  {
    BagWithout(p.active, t);
    BagWithout(p.expired, t);
    BagWithoutCard(p.active, t);
    BagWithoutCard(p.expired, t);
  }

  /** A task on the expired array has no slice left, so a task with slice left is on the active one. */
  lemma ExpiredHasNoSlice(p: PrioRq, tasks: map<Tid, Task>, t: Tid)
    requires PrioInv(p, tasks) && t in Bag(p.expired)
    ensures t in tasks && tasks[t].slice == 0
  {
    BagMember(p.expired, t);
  }

  lemma DequeuePlaced(p: PrioRq, tasks: map<Tid, Task>, t: Tid)
    requires |p.active| == |p.expired| == PRIO_LEVELS && Placed(p, tasks) && t in tasks
    ensures Placed(Dequeue(p, t, tasks[t]), tasks)
  {
    var q := Dequeue(p, t, tasks[t]);
    forall l, x | 0 <= l < PRIO_LEVELS
      ensures x in q.active[l] ==> x in p.active[l]
      ensures x in q.expired[l] ==> x in p.expired[l]
    {
      WithoutMembers(p.active[l], t);
      WithoutMembers(p.expired[l], t);
    }
  }

  lemma DequeueCounted(p: PrioRq, t: Tid, task: Task)
    requires |p.active| == |p.expired| == PRIO_LEVELS
    requires Counted(p) && t in Queued(p) && |Queued(p)| < TWO32
    requires t in Bag(p.expired) ==> task.slice == 0
    ensures var q := Dequeue(p, t, task);
            && Counted(q)
            && Queued(q) == Queued(p) - multiset{t}
            && q.nrActive - |Bag(q.active)| == p.nrActive - |Bag(p.active)|
                 + (if t in Bag(p.active) && task.slice == 0 && p.nrExpired > 0 then 1
                    else if t in Bag(p.expired) && p.nrExpired == 0 then -1 else 0)
  {
    DequeueBag(p, t, task);
    var q := Dequeue(p, t, task);
    assert Queued(p)[t] == 1;
    DistinctShrinks(Queued(p), t);
    assert Queued(q) == Queued(p) - multiset{t};
    assert t in Bag(p.active) <==> t !in Bag(p.expired);
  }

  lemma DistinctShrinks(m: multiset<Tid>, t: Tid)
    requires Distinct(m) && t in m
    ensures Distinct(m - multiset{t}) && |m - multiset{t}| == |m| - 1
  {
  }

  /**
   The guessing dequeue: the sum of the two counters stays right and the active counter never
   falls below the truth.  The amount by which it is too large grows by one exactly when a task
   with no slice is taken off the active array while `nr_expired` is positive, and shrinks by one
   exactly when a task is taken off the expired array while `nr_expired` is zero.
   */
  lemma DequeueKeeps(p: PrioRq, tasks: map<Tid, Task>, t: Tid)
    requires PrioInv(p, tasks) && t in tasks && t in Queued(p) && |Queued(p)| < TWO32
    ensures var q := Dequeue(p, t, tasks[t]);
            && PrioInv(q, tasks)
            && Queued(q) == Queued(p) - multiset{t}
            && q.nrActive - |Bag(q.active)| == p.nrActive - |Bag(p.active)|
                 + (if t in Bag(p.active) && tasks[t].slice == 0 && p.nrExpired > 0 then 1
                    else if t in Bag(p.expired) && p.nrExpired == 0 then -1 else 0)
  {
    DequeuePlaced(p, tasks, t);
    if t in Bag(p.expired) { ExpiredHasNoSlice(p, tasks, t); }
    DequeueCounted(p, t, tasks[t]);
  }

  /** From exact counters a dequeue keeps them exact if and only if the guess is right. */
  lemma DequeueExactIff(p: PrioRq, tasks: map<Tid, Task>, t: Tid)
    requires PrioInv(p, tasks) && Exact(p) && t in tasks && t in Queued(p) && |Queued(p)| < TWO32
    ensures Exact(Dequeue(p, t, tasks[t])) <==>
            !(t in Bag(p.active) && tasks[t].slice == 0 && p.nrExpired > 0)
  {
    DequeueKeeps(p, tasks, t);
    DequeueBag(p, t, tasks[t]);
    assert Queued(p)[t] == 1;
  }

  /** A swap happens only when the active array really is empty, and leaves both counters exact. */
  lemma SwapExact(p: PrioRq, tasks: map<Tid, Task>)
    requires PrioInv(p, tasks) && p.nrActive == 0
    ensures Bag(p.active) == multiset{}
    ensures PrioInv(Swap(p), tasks) && Exact(Swap(p)) && Queued(Swap(p)) == Queued(p)
  {
    BagEmpty(p.active);
    assert Queued(Swap(p)) == Queued(p);
  }

  /**
   What pick returns: the head of the numerically lowest non-empty active level, after the swap
   that is made exactly when nothing is counted as active.  It finds nothing on a non-empty run
   queue exactly when tasks are counted as active but none is linked there.
   */
  lemma PickCorrect(p: PrioRq, tasks: map<Tid, Task>)
    requires PrioInv(p, tasks)
    ensures var r := Pick(p);
            && PrioInv(r.rq, tasks)
            && Queued(r.rq) == Queued(p)
            && (p.nrActive > 0 ==> r.rq == p)
            && (p.nrActive == 0 ==> Exact(r.rq) && (p.nrExpired > 0 ==> r.rq == Swap(p)))
            && (r.next.Some? ==>
                  exists l :: 0 <= l < PRIO_LEVELS && r.rq.active[l] != [] && r.next.value == r.rq.active[l][0]
                    && (forall j :: 0 <= j < l ==> r.rq.active[j] == []))
            && (r.next.None? && |Queued(p)| > 0 <==> p.nrActive > 0 && |Bag(p.active)| == 0)
  {
    var r := Pick(p);
    BagEmpty(p.active);
    if p.nrActive == 0 { SwapExact(p, tasks); }
    FindHighestScan(r.rq.active, 0);
    BagEmpty(r.rq.active);
  }

  /** The picked task is linked on the active array and no active task has a smaller priority number. */
  lemma PickIsBest(p: PrioRq, tasks: map<Tid, Task>, t: Tid)
    requires PrioInv(p, tasks) && Pick(p).next.Some?
    requires t in Bag(Pick(p).rq.active)
    ensures var next := Pick(p).next.value;
            && next in Bag(Pick(p).rq.active) && next in tasks && t in tasks
            && Level(tasks[next]) <= Level(tasks[t])
  {
    PickCorrect(p, tasks);
    BestLevel(Pick(p).rq, tasks, Pick(p).next.value, t);
  }

  /**
   A task with slice enqueued at the head is the next one picked
   exactly when no active list below its level holds a task, and one enqueued at the tail exactly
   when its own list was empty too.
   */
  lemma EnqueuedIsNextIff(p: PrioRq, tasks: map<Tid, Task>, t: Tid, task: Task, head: bool)
    requires PrioInv(p, tasks) && t !in Queued(p) && |Queued(p)| + 1 < TWO32 && task.slice > 0
    ensures var q := Enqueue(p, t, task, head);
            && |q.active| == |q.expired| == PRIO_LEVELS
            && (Pick(q).next == Some(t) <==>
                && (forall j :: 0 <= j < Level(task) ==> p.active[j] == [])
                && (head || p.active[Level(task)] == []))
  {
    hide Bag, Distinct;
    var l, q := Level(task), Enqueue(p, t, task, head);
    UnqueuedAt(p, t);
    CountsBelow(p, tasks);
    FindHighestScan(q.active, 0);
    if forall j :: 0 <= j < l ==> p.active[j] == [] {
      HighestUnique(q.active, l);
    } else {
      var h := FindHighest(q.active, 0);
      var j :| 0 <= j < l && p.active[j] != [];
      assert q.active[j] != [] && h <= j && q.active[h] == p.active[h];
    }
  }

  lemma UnqueuedAt(p: PrioRq, t: Tid)
    requires |p.active| == |p.expired| && t !in Queued(p)
    ensures forall l :: 0 <= l < |p.active| ==> t !in p.active[l] && t !in p.expired[l]
  {
    forall l | 0 <= l < |p.active| ensures t !in p.active[l] && t !in p.expired[l] {
      BagMember(p.active, t);
      BagMember(p.expired, t);
    }
  }

  lemma CountsBelow(p: PrioRq, tasks: map<Tid, Task>)
    requires PrioInv(p, tasks)
    ensures 0 <= p.nrActive <= |Queued(p)| && 0 <= p.nrExpired
  {
  }

  lemma BestLevel(q: PrioRq, tasks: map<Tid, Task>, next: Tid, t: Tid)
    requires |q.active| == |q.expired| == PRIO_LEVELS && Placed(q, tasks) && t in Bag(q.active)
    requires exists l :: 0 <= l < PRIO_LEVELS && q.active[l] != [] && next == q.active[l][0]
               && (forall j :: 0 <= j < l ==> q.active[j] == [])
    ensures next in Bag(q.active) && next in tasks && t in tasks && Level(tasks[next]) <= Level(tasks[t])
  {
    BagMember(q.active, t);
    BagMember(q.active, next);
  }

  // ---- every run of the class operations -------------------------------------------

  datatype PrioOp = Enq(t: Tid, task: Task, head: bool) | Deq(t: Tid) | Choose

  datatype PrioRun = PrioRun(rq: PrioRq, tasks: map<Tid, Task>)

  /** A task is enqueued when it is off the arrays and dequeued when it is on one. */
  ghost predicate PrioAllowed(s: PrioRun, op: PrioOp)
  {
    match op
    case Enq(t, _, _) => t !in Queued(s.rq) && |Queued(s.rq)| + 1 < TWO32
    case Deq(t) => t in Queued(s.rq)
    case Choose => true
  }

  function PrioApply(s: PrioRun, op: PrioOp): PrioRun
    requires |s.rq.active| == |s.rq.expired| == PRIO_LEVELS
    requires op.Deq? ==> op.t in s.tasks
  {
    match op
    case Enq(t, task, head) => PrioRun(Enqueue(s.rq, t, task, head), s.tasks[t := task])
    case Deq(t) => PrioRun(Dequeue(s.rq, t, s.tasks[t]), s.tasks)
    case Choose => PrioRun(Pick(s.rq).rq, s.tasks)
  }

  ghost predicate PrioRunInv(s: PrioRun)
  {
    PrioInv(s.rq, s.tasks) && |Queued(s.rq)| < TWO32
  }

  lemma QueuedHasTask(p: PrioRq, tasks: map<Tid, Task>, t: Tid)
    requires PrioInv(p, tasks) && t in Queued(p)
    ensures t in tasks
  {
    BagMember(p.active, t);
    BagMember(p.expired, t);
  }

  lemma PrioStepKeeps(s: PrioRun, op: PrioOp)
    requires PrioRunInv(s) && PrioAllowed(s, op)
    ensures op.Deq? ==> op.t in s.tasks
    ensures PrioRunInv(PrioApply(s, op))
  {
    match op
    case Enq(t, task, head) =>
      PrioInvFrame(s.rq, s.tasks, s.tasks[t := task]);
      EnqueueKeeps(s.rq, s.tasks[t := task], t, head);
    case Deq(t) =>
      QueuedHasTask(s.rq, s.tasks, t);
      DequeueKeeps(s.rq, s.tasks, t);
    case Choose =>
      PickCorrect(s.rq, s.tasks);
  }

  /** The sequence of states of a run: each follows from the one before by an allowed operation. */
  ghost predicate IsPrioRun(states: seq<PrioRun>, ops: seq<PrioOp>)
  {
    && |states| == |ops| + 1
    && states[0] == PrioRun(EMPTY, map[])
    && forall i {:trigger ops[i]} :: 0 <= i < |ops| ==>
         && |states[i].rq.active| == |states[i].rq.expired| == PRIO_LEVELS
         && (ops[i].Deq? ==> ops[i].t in states[i].tasks)
         && PrioAllowed(states[i], ops[i])
         && states[i + 1] == PrioApply(states[i], ops[i])
  }

  /** The invariant holds in every state of every run. */
  lemma {:induction false} PrioRunSafe(states: seq<PrioRun>, ops: seq<PrioOp>, i: nat)
    requires IsPrioRun(states, ops) && i <= |ops|
    ensures PrioRunInv(states[i])
  {
    if i == 0 {
      EmptyInv(map[]);
    } else {
      PrioRunSafe(states, ops, i - 1);
      PrioStepKeeps(states[i - 1], ops[i - 1]);
    }
  }

  /** In every run both counters are exact right after every swap. */
  lemma PrioRunSwapExact(states: seq<PrioRun>, ops: seq<PrioOp>, i: nat)
    requires IsPrioRun(states, ops) && i < |ops| && ops[i] == Choose && states[i].rq.nrActive == 0
    ensures Exact(states[i + 1].rq)
  {
    PrioRunSafe(states, ops, i);
    PickCorrect(states[i].rq, states[i].tasks);
    assert states[i + 1] == PrioApply(states[i], ops[i]);
  }
}
