/**
 Round-robin rotation: while only round-robin tasks are runnable and each runs out its slice
 before it yields, every yield rotates the arrangement of running task and queue by one.
 */
module RoundRobin {
  import opened Common
  import opened TaskQueues
  import opened PriorityQueue
  import opened SchedulerModel
  import opened SchedulerSteps

  /** A round-robin task runs, others wait, and no priority task is queued. */
  ghost predicate Rotating(s: Sched)
  {
    && Inv(s) && s.current.Some? && s.current != s.idle
    && s.tasks[s.current.value].policy == Normal
    && s.queues.rr != []
    && |Queued(s.queues.prio)| == 0
  }

  /** The running task followed by the queue. */
  function Arrangement(s: Sched): seq<Tid>
    requires s.current.Some?
  {
    [s.current.value] + s.queues.rr
  }

  /** `n` timer ticks. */
  function TickFor(s: Sched, n: nat): (r: Sched)
    requires s.current.Some? ==> s.current.value in s.tasks
    ensures r.current == s.current && r.tasks.Keys == s.tasks.Keys
    decreases n
  {
    if n == 0 then s else TickFor(Tick(s), n - 1)
  }

  function Spent(s: Sched): Sched
    requires s.current.Some? && s.current.value in s.tasks
  {
    s.(tasks := s.tasks[s.current.value := s.tasks[s.current.value].(slice := 0)])
  }

  /** Ticking for the whole remaining slice spends it and changes nothing else. */
  lemma {:induction false} TickForSpends(s: Sched, n: nat)
    requires s.current.Some? && s.current.value in s.tasks && s.tasks[s.current.value].classed
    requires s.tasks[s.current.value].slice == n
    ensures TickFor(s, n) == Spent(s)
    decreases n
  {
    var c := s.current.value;
    if n == 0 {
      assert s.tasks[c := s.tasks[c].(slice := 0)] == s.tasks;
    } else {
      TickForSpends(Tick(s), n - 1);
      assert Tick(s).tasks[c := Tick(s).tasks[c].(slice := 0)] == Spent(s).tasks;
    }
  }

  lemma SpentInv(s: Sched)
    requires Inv(s) && s.current.Some? && s.current != s.idle
    ensures Inv(Spent(s))
  {
    ReplaceLeaves(s, s.current.value, s.tasks[s.current.value].(slice := 0));
  }

  /** One round: the running task uses up its slice and yields. */
  ghost function Round(s: Sched): Sched
    requires Rotating(s)
  {
    SpentInv(s);
    LeavingShape(Spent(s));
    TickForSpends(s, s.tasks[s.current.value].slice);
    Schedule(TickFor(s, s.tasks[s.current.value].slice))
  }

  /** With no priority task queued, an exhausted task's yield picks the head of the queue. */
  lemma SpentPicks(s: Sched)
    requires Rotating(s) && Shape(s) && s.tasks[s.current.value].slice == 0
    ensures PickNext(s) == Chosen(s.queues.prio, Some(s.queues.rr[0]))
  {
    PrioPickCorrect(s.queues.prio, s.tasks);
    PickNextPrio(s);
  }

  lemma HeadIsReady(s: Sched)
    requires Rotating(s)
    ensures var h := s.queues.rr[0];
            && h in s.tasks && s.tasks[h].policy == Normal && s.tasks[h].classed
            && Some(h) != s.current && Some(h) != s.idle && h !in s.queues.rr[1..]
  {
    var q, ready := s.queues, ReadyOf(s.tasks, s.idle);
    HoldsBounds(s.tasks, q, ready);
    var h := q.rr[0];
    assert h in q.rr;
    assert q.rr == [h] + q.rr[1..];
    assert (multiset(q.rr) + Queued(q.prio))[h] == 1;
    assert multiset(q.rr)[h] == 1 + multiset(q.rr[1..])[h];
  }

  /** The yield of an exhausted task rotates the arrangement by one. */
  lemma SpentRotates(s: Sched)
    requires Rotating(s) && Shape(s) && s.tasks[s.current.value].slice == 0
    ensures var s' := Schedule(s);
            && Rotating(s')
            && s'.current == Some(s.queues.rr[0])
            && s'.queues.rr == s.queues.rr[1..] + [s.current.value]
  {
    var c, h := s.current.value, s.queues.rr[0];
    SpentPicks(s);
    HeadIsReady(s);
    ScheduleKeepsIff(s);
    RequeueHead(s.queues.rr, c);
    hide PickNext, Inv, Without;
  }

  lemma RequeueHead(rr: seq<Tid>, c: Tid)
    requires rr != [] && rr[0] !in rr[1..] && rr[0] != c
    ensures Without(rr + [c], rr[0]) == rr[1..] + [c]
  {
    assert rr + [c] == [] + [rr[0]] + (rr[1..] + [c]);
    WithoutMiddle([], rr[0], rr[1..] + [c]);
    assert [] + (rr[1..] + [c]) == rr[1..] + [c];
  }

  function Rotate(a: seq<Tid>): seq<Tid>
    requires a != []
  {
    a[1..] + [a[0]]
  }

  lemma RoundAdvances(s: Sched)
    requires Rotating(s)
    ensures Rotating(Round(s))
    ensures Round(s).current == Some(s.queues.rr[0])
    ensures Round(s).queues.rr == s.queues.rr[1..] + [s.current.value]
  {
    SpentInv(s);
    LeavingShape(Spent(s));
    TickForSpends(s, s.tasks[s.current.value].slice);
    SpentRotates(Spent(s));
  }

  lemma RoundRotates(s: Sched)
    requires Rotating(s)
    ensures Rotating(Round(s))
    ensures Arrangement(Round(s)) == Rotate(Arrangement(s))
  {
    RoundAdvances(s);
    RotateCons(s.current.value, s.queues.rr);
  }

  lemma RotateCons(c: Tid, rr: seq<Tid>)
    requires rr != []
    ensures [rr[0]] + (rr[1..] + [c]) == Rotate([c] + rr)
  {
    assert rr == [rr[0]] + rr[1..];
  }

  ghost function Rounds(s: Sched, k: nat): (r: Sched)
    requires Rotating(s)
    ensures Rotating(r)
    decreases k
  {
    if k == 0 then s else RoundRotates(Rounds(s, k - 1)); Round(Rounds(s, k - 1))
  }

  lemma RotatedAgain(a: seq<Tid>, k: nat)
    requires 0 < k <= |a|
    ensures Rotate(a[k - 1..] + a[..k - 1]) == a[k..] + a[..k]
  {
    assert a[k - 1..] == [a[k - 1]] + a[k..];
    assert a[..k] == a[..k - 1] + [a[k - 1]];
  }

  /** After `k` rounds the arrangement is the first one rotated by `k`. */
  lemma {:induction false} RoundsRotate(s: Sched, k: nat)
    requires Rotating(s) && k <= |Arrangement(s)|
    ensures Arrangement(Rounds(s, k)) == Arrangement(s)[k..] + Arrangement(s)[..k]
  {
    hide Round, Inv, Rotate;
    if k > 0 {
      RoundsRotate(s, k - 1);
      RoundRotates(Rounds(s, k - 1));
      RotatedAgain(Arrangement(s), k);
    } else {
      assert Arrangement(s)[0..] + Arrangement(s)[..0] == Arrangement(s);
    }
  }

  lemma RoundRuns(s: Sched, k: nat)
    requires Rotating(s) && k < |s.queues.rr|
    ensures Rounds(s, k + 1).current == Some(s.queues.rr[k])
  {
    RoundsRotate(s, k + 1);
    assert Arrangement(Rounds(s, k + 1))[0] == Arrangement(s)[k + 1];
  }

  /** Bounded waiting: the task at position `k` of the queue gets the processor at exactly the (k+1)-th round. */
  lemma BoundedWaiting(s: Sched, k: nat, i: nat)
    requires Rotating(s) && k < |s.queues.rr| && i < |s.queues.rr|
    ensures Rounds(s, i + 1).current == Some(s.queues.rr[k]) <==> i == k
  {
    RoundRuns(s, i);
    DistinctPositions(s, i, k);
  }

  lemma DistinctPositions(s: Sched, i: nat, k: nat)
    requires Rotating(s) && i < |s.queues.rr| && k < |s.queues.rr|
    ensures s.queues.rr[i] == s.queues.rr[k] <==> i == k
  {
    if i < k { QueueDistinct(s, i, k); }
    if k < i { QueueDistinct(s, k, i); }
  }

  /** After one round per task the arrangement is back where it was. */
  lemma FullCycle(s: Sched)
    requires Rotating(s)
    ensures Arrangement(Rounds(s, |s.queues.rr| + 1)) == Arrangement(s)
  {
    hide Rounds, Inv;
    RoundsRotate(s, |s.queues.rr| + 1);
  }

  lemma QueueDistinct(s: Sched, i: nat, k: nat)
    requires Rotating(s) && i < k < |s.queues.rr|
    ensures s.queues.rr[i] != s.queues.rr[k]
  {
    var rr, ready := s.queues.rr, ReadyOf(s.tasks, s.idle);
    assert rr == rr[..k] + [rr[k]] + rr[k + 1..];
    assert (multiset(rr) + Queued(s.queues.prio))[rr[k]] <= 1;
    assert rr[i] in rr[..k];
  }
}
