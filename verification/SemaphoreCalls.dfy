/**
 What the semaphore's calls promise their callers, in every interleaving: `sem_wait` returns with
 exactly one unit, `sem_trywait` with one exactly when its swap finds the positive value it read,
 `sem_post` adds one; and what each call does when the other threads stand still.
 */
module SemaphoreCalls {
  import opened Common
  import opened TaskQueues
  import opened Semaphore

  // ---- the log of a call -----------------------------------------------------------

  /** The operation reads the counter, or compares and swaps it. */
  predicate Reads(pc: Pc) { pc.FastRead? || pc.SlowRead? || pc.SleepRead? || pc.TryRead? }
  predicate Swaps(pc: Pc) { pc.FastCas? || pc.SlowCas? || pc.SpinCas? || pc.TryCas? }

  /**
   What a thread has done since its last call: how many units it took and gave, the last value it
   read, and the value the counter had at its last compare-and-swap.
   */
  datatype Log = Log(call: Call, took: int, gave: int, read: Option<int>, swapped: Option<int>)

  const NO_CALL := Log(Elsewhere, 0, 0, None, None)

  function Logged(s: Sem, moves: seq<Move>, t: Thread): Log
  {
    if moves == [] then NO_CALL
    else
      var r, m := Exec(s, moves[..|moves| - 1]), moves[|moves| - 1];
      var l := Logged(s, moves[..|moves| - 1], t);
      if m.t != t || t !in r.th then l
      else Entry(r, t, m.call, if r.th[t].pc == Outside then NO_CALL.(call := m.call) else l)
  }

  function Entry(s: Sem, t: Thread, call: Call, l: Log): Log
    requires t in s.th
  {
    var s' := Step(s, t, call);
    Log(l.call, l.took + s'.taken - s.taken, l.gave + s'.posts - s.posts,
        if Reads(s.th[t].pc) then Some(s.count) else l.read,
        if Swaps(s.th[t].pc) then Some(s.count) else l.swapped)
  }

  /** What a thread that is outside again has got from its call. */
  ghost predicate Returned(th: Th, l: Log)
  {
    match l.call
    case Wait => l.took == 1 && l.gave == 0 && th.holding && l.swapped.Some? && l.swapped.value > 0
    case Trywait =>
      && l.gave == 0 && (l.took == 0 || l.took == 1) && (l.took == 1 ==> th.holding)
      && (l.took == 1 <==> l.read.Some? && l.read.value > 0 && l.swapped == l.read)
      && l.read.Some? && (l.swapped.None? <==> l.read.value <= 0)
    case Post => l.took == 0 && l.gave == 1 && !th.holding
    case Elsewhere => l.took == 0 && l.gave == 0
  }

  /** The log agrees with where the thread is. */
  ghost predicate Agree(th: Th, l: Log)
  {
    match th.pc
    case Outside => Returned(th, l)
    case FastCas(v) => l.call == Wait && l.took == l.gave == 0 && v > 0
    case SlowCas(v) => l.call == Wait && l.took == l.gave == 0 && v > 0
    case SlowUnlock | DelistLock | Delist | DelistUnlock =>
      l.call == Wait && l.took == 1 && l.gave == 0 && th.holding && l.swapped.Some? && l.swapped.value > 0
    case TryRead => l.call == Trywait && l.took == l.gave == 0 && l.read == l.swapped == None
    case TryCas(v) => l.call == Trywait && l.took == l.gave == 0 && l.read == Some(v) && v > 0 && l.swapped == None
    case PostInc => l.call == Post && l.took == l.gave == 0
    case PostLock | PostPop | PostUnlock => l.call == Post && l.took == 0 && l.gave == 1 && !th.holding
    case _ => l.call == Wait && l.took == l.gave == 0
  }

  lemma EntryAgrees(s: Sem, t: Thread, call: Call, l: Log)
    requires t in s.th && (s.th[t].pc != Outside ==> Agree(s.th[t], l))
    requires s.th[t].pc == Outside ==> l == NO_CALL.(call := call)
    ensures Agree(Next(s.th[t], After(s, t, call), call), Entry(s, t, call, l))
  {
  }

  /** Another thread's step leaves the thread where it is, or ends its sleep. */
  lemma OthersAgree(s: Sem, t: Thread, call: Call, u: Thread, l: Log)
    requires t in s.th && u in s.th && u != t && Agree(s.th[u], l)
    ensures Agree(Step(s, t, call).th[u], l)
  {
    hide Act;
  }

  lemma SelfAgrees(s: Sem, t: Thread, call: Call, l: Log)
    requires ListInv(s) && t in s.th && (s.th[t].pc != Outside ==> Agree(s.th[t], l))
    requires s.th[t].pc == Outside ==> l == NO_CALL.(call := call)
    ensures Agree(Step(s, t, call).th[t], Entry(s, t, call, l))
  {
    EntryAgrees(s, t, call, l);
    hide Act, Agree, Entry;
    if s.waiters != [] { assert s.waiters[0] in s.waiters; }
  }

  /** In every interleaving every thread that is outside has got from its last call what the call promises. */
  lemma {:induction false} CallsReturn(initial: int, threads: set<Thread>, moves: seq<Move>, t: Thread)
    ensures var s := Exec(Start(initial, threads), moves);
            t in s.th ==> Agree(s.th[t], Logged(Start(initial, threads), moves, t))
  {
    var s0 := Start(initial, threads);
    if moves != [] {
      var before, m := moves[..|moves| - 1], moves[|moves| - 1];
      CallsReturn(initial, threads, before, t);
      NoDanglingWaiter(initial, threads, before, t);
      var r, l := Exec(s0, before), Logged(s0, before, t);
      hide Agree, Step, Entry;
      StepThreads(r, m);
      if t in r.th && m.t in r.th {
        if m.t == t {
          SelfAgrees(r, t, m.call, if r.th[t].pc == Outside then NO_CALL.(call := m.call) else l);
        } else {
          OthersAgree(r, m.t, m.call, t, l);
        }
      }
    }
  }

  lemma StepThreads(s: Sem, m: Move)
    ensures m.t in s.th ==> Step(s, m.t, m.call).th.Keys == s.th.Keys
  {
  }

  /** The points of `sem_wait`. */
  predicate InWait(pc: Pc)
  {
    pc.FastRead? || pc.FastCas? || pc.SlowLock? || pc.SlowRead? || pc.SlowCas? || pc.SlowUnlock? || pc.Enlist?
    || pc.EnlistUnlock? || pc.SleepRead? || pc.GoToSleep? || pc.Asleep? || pc.SpinCas? || pc.DelistLock?
    || pc.Delist? || pc.DelistUnlock?
  }

  /**
   In every interleaving a step that takes a thread out of `sem_wait` leaves it holding a unit: it
   has taken exactly one since it called, by a swap that found a positive counter, and given none.
   */
  lemma WaitReturnsWithUnit(initial: int, threads: set<Thread>, moves: seq<Move>, t: Thread, call: Call)
    requires var s := Exec(Start(initial, threads), moves); t in s.th && InWait(s.th[t].pc)
    ensures var s0 := Start(initial, threads);
            var s', l := Exec(s0, moves + [Move(t, call)]), Logged(s0, moves + [Move(t, call)], t);
            && t in s'.th
            && (s'.th[t].pc == Outside ==>
                  && s'.th[t].holding && l.call == Wait && l.took == 1 && l.gave == 0
                  && l.swapped.Some? && l.swapped.value > 0)
  {
    var s0, all := Start(initial, threads), moves + [Move(t, call)];
    assert all[..|moves|] == moves;
    CallsReturn(initial, threads, moves, t);
    CallsReturn(initial, threads, all, t);
    StepThreads(Exec(s0, moves), Move(t, call));
    assert Logged(s0, all, t).call == Logged(s0, moves, t).call;
  }

  /**
   In every interleaving `sem_trywait` returns with a unit if and only if it read a positive value
   and the counter still had that value when it compared.
   */
  lemma TrywaitTakesIff(initial: int, threads: set<Thread>, moves: seq<Move>, t: Thread)
    requires var s := Exec(Start(initial, threads), moves); t in s.th && s.th[t].pc == Outside
    requires Logged(Start(initial, threads), moves, t).call == Trywait
    ensures var l := Logged(Start(initial, threads), moves, t);
            && l.read.Some? && l.gave == 0 && 0 <= l.took <= 1
            && (l.took == 1 <==> l.read.value > 0 && l.swapped == l.read)
            && (l.took == 1 ==> Exec(Start(initial, threads), moves).th[t].holding)
  {
    CallsReturn(initial, threads, moves, t);
  }

  // ---- the wait list is first in, first out ----------------------------------------

  /** The move with which thread `t` last put itself on the wait list, or -1. */
  function ListedSince(s: Sem, moves: seq<Move>, t: Thread): (r: int)
    ensures r < |moves|
  {
    if moves == [] then -1
    else
      var before, m := moves[..|moves| - 1], moves[|moves| - 1];
      var r := Exec(s, before);
      if m.t == t && t in r.th && r.th[t].pc == Enlist then |before| else ListedSince(s, before, t)
  }

  ghost function Since(s: Sem, moves: seq<Move>): Thread -> int
  {
    (t: Thread) => ListedSince(s, moves, t)
  }

  lemma ActOrdered(s: Shared, pc: Pc, t: Thread, call: Call, since: Thread -> int)
    requires InOrder(s.waiters, since)
    requires pc == Enlist ==> forall x :: x in s.waiters ==> since(x) < since(t)
    ensures InOrder(Act(s, pc, t, call).shared.waiters, since)
  {
    WithoutOrdered(s.waiters, t, since);
    if pc == Enlist { AppendOrdered(s.waiters, t, since); }
  }

  /** In every interleaving the wait list is in the order in which its threads joined it. */
  lemma {:induction false} WaitersInOrder(initial: int, threads: set<Thread>, moves: seq<Move>)
    ensures var s0 := Start(initial, threads); InOrder(Exec(s0, moves).waiters, Since(s0, moves))
  {
    var s0 := Start(initial, threads);
    if moves != [] {
      var before, m := moves[..|moves| - 1], moves[|moves| - 1];
      WaitersInOrder(initial, threads, before);
      NoDanglingWaiter(initial, threads, before, m.t);
      var r := Exec(s0, before);
      forall t | t in r.waiters ensures Since(s0, moves)(t) == Since(s0, before)(t) {
        assert MayBeListed(r.th[t].pc);
      }
      if m.t in r.th {
        hide Act;
        ActOrdered(Shared(r.count, r.spin, r.waiters), r.th[m.t].pc, m.t, m.call, Since(s0, moves));
      }
    }
  }

  /**
   In every interleaving a post that finds waiters takes the one that joined first off the list and
   readies it, if it sleeps, and changes no other thread but itself.
   */
  lemma PostWakesOldest(initial: int, threads: set<Thread>, moves: seq<Move>, t: Thread, call: Call, u: Thread)
    requires var s := Exec(Start(initial, threads), moves);
             t in s.th && s.th[t].pc == PostPop && u in s.waiters
    ensures var s0 := Start(initial, threads);
            var s := Exec(s0, moves);
            var s' := Step(s, t, call);
            && u in s.th && u in s'.th
            && (Oldest(s.waiters, Since(s0, moves), u) <==> u !in s'.waiters)
            && (u !in s'.waiters && s.th[u].pc == Asleep ==> s'.th[u] == s.th[u].(pc := SleepRead))
            && (u in s'.waiters ==> s'.th[u] == s.th[u])
  {
    var s0 := Start(initial, threads);
    var s := Exec(s0, moves);
    WaitersInOrder(initial, threads, moves);
    NoDanglingWaiter(initial, threads, moves, u);
    OldestIsFirst(s.waiters, Since(s0, moves), u);
    hide Exec, Oldest;
    PostPops(s, t, call, u);
  }

  /** Everybody else on the queue joined it later. */
  ghost predicate Oldest(q: seq<Thread>, since: Thread -> int, u: Thread)
  {
    forall x :: x in q && x != u ==> since(u) < since(x)
  }

  lemma OldestIsFirst(q: seq<Thread>, since: Thread -> int, u: Thread)
    requires InOrder(q, since) && u in q
    ensures Oldest(q, since, u) <==> u == q[0]
  {
    var i :| 0 <= i < |q| && q[i] == u;
    if u != q[0] { assert q[0] in q && since(q[0]) < since(q[i]); }
  }

  lemma PostPops(s: Sem, t: Thread, call: Call, u: Thread)
    requires ListInv(s) && t in s.th && s.th[t].pc == PostPop && u in s.waiters
    ensures var s' := Step(s, t, call);
            && u in s.th && u in s'.th && (u !in s'.waiters <==> u == s.waiters[0])
            && (u == s.waiters[0] && s.th[u].pc == Asleep ==> s'.th[u] == s.th[u].(pc := SleepRead))
            && (u != s.waiters[0] ==> s'.th[u] == s.th[u])
  {
    assert MayBeListed(s.th[u].pc);
    assert s.waiters == [s.waiters[0]] + s.waiters[1..];
  }

  // ---- a call while the others stand still -----------------------------------------

  /** The state after `n` steps of thread `t` and nobody else's. */
  function Alone(s: Sem, t: Thread, call: Call, n: nat): (r: Sem)
    requires t in s.th
    ensures t in r.th
  {
    if n == 0 then s else Step(Alone(s, t, call, n - 1), t, call)
  }

  function Moves(t: Thread, call: Call, n: nat): seq<Move>
  {
    if n == 0 then [] else Moves(t, call, n - 1) + [Move(t, call)]
  }

  lemma ExecLast(s: Sem, before: seq<Move>, m: Move)
    requires m.t in Exec(s, before).th
    ensures Exec(s, before + [m]) == Step(Exec(s, before), m.t, m.call)
  {
    assert (before + [m])[..|before|] == before;
  }

  /** It is a run. */
  lemma {:induction false} AloneIsRun(s: Sem, t: Thread, call: Call, n: nat)
    requires t in s.th
    ensures Alone(s, t, call, n) == Exec(s, Moves(t, call, n))
  {
    hide Step;
    if n > 0 {
      AloneIsRun(s, t, call, n - 1);
      hide Exec;
      ExecLast(s, Moves(t, call, n - 1), Move(t, call));
    }
  }

  /** The state with the counter, the spinlock, the wait list and thread `t` replaced. */
  function With(s: Sem, t: Thread, x: Shared, th: Th, posts: nat, taken: nat): Sem
  {
    Sem(x.count, x.spin, x.waiters, s.th[t := th], posts, taken)
  }

  lemma StepWith(s: Sem, t: Thread, x: Shared, th: Th, posts: nat, taken: nat, call: Call)
    requires t in s.th && th.pc != PostPop
    ensures var o := Act(x, th.pc, t, call);
            Step(With(s, t, x, th, posts, taken), t, call) ==
            With(s, t, o.shared, Next(th, o, call), posts + (if o.Gave? then 1 else 0),
                 taken + (if o.Took? then 1 else 0))
  {
    hide Act, Next;
    var next := Next(th, Act(x, th.pc, t, call), call);
    assert s.th[t := th][t := next] == s.th[t := next];
  }

  /** One step more, anywhere but where a post looks at the wait list. */
  lemma Go(s: Sem, t: Thread, call: Call, n: nat, x: Shared, th: Th, posts: nat, taken: nat)
    requires t in s.th && th.pc != PostPop && Alone(s, t, call, n) == With(s, t, x, th, posts, taken)
    ensures var o := Act(x, th.pc, t, call);
            Alone(s, t, call, n + 1) ==
            With(s, t, o.shared, Next(th, o, call), posts + (if o.Gave? then 1 else 0),
                 taken + (if o.Took? then 1 else 0))
  {
    StepWith(s, t, x, th, posts, taken, call);
  }

  lemma Begin(s: Sem, t: Thread, call: Call)
    requires t in s.th
    ensures Alone(s, t, call, 0) == With(s, t, Shared(s.count, s.spin, s.waiters), s.th[t], s.posts, s.taken)
  {
  }

  lemma FastActs(x: Shared, t: Thread)
    ensures Act(x, Outside, t, Wait) == Moved(x, FastRead)
    ensures x.count > 0 ==> Act(x, FastRead, t, Wait) == Moved(x, FastCas(x.count))
    ensures x.count <= 0 ==> Act(x, FastRead, t, Wait) == Moved(x, SlowLock)
    ensures Act(x, FastCas(x.count), t, Wait) == Took(x.(count := x.count - 1), Outside)
  {
  }

  /** With a unit there, `sem_wait` takes it and returns. */
  lemma WaitTakes(s: Sem, t: Thread)
    requires t in s.th && s.th[t].pc == Outside && s.count > 0
    ensures Alone(s, t, Wait, 3) ==
            With(s, t, Shared(s.count - 1, s.spin, s.waiters), s.th[t].(holding := true), s.posts, s.taken + 1)
  {
    hide Alone, With, Act;
    var x, h := Shared(s.count, s.spin, s.waiters), s.th[t];
    FastActs(x, t);
    Begin(s, t, Wait);
    Go(s, t, Wait, 0, x, h, s.posts, s.taken);
    Go(s, t, Wait, 1, x, h.(pc := FastRead), s.posts, s.taken);
    Go(s, t, Wait, 2, x, h.(pc := FastCas(s.count)), s.posts, s.taken);
  }

  lemma SleepActs(x: Shared, t: Thread)
    requires x.count <= 0 && x.spin == None
    ensures var y, z := x.(spin := Some(t)), x.(waiters := x.waiters + [t]);
            && Act(x, SlowLock, t, Wait) == Moved(y, SlowRead)
            && Act(y, SlowRead, t, Wait) == Moved(y, Enlist)
            && Act(y, Enlist, t, Wait) == Moved(z.(spin := Some(t)), EnlistUnlock)
            && Act(z.(spin := Some(t)), EnlistUnlock, t, Wait) == Moved(z, SleepRead)
            && Act(z, SleepRead, t, Wait) == Moved(z, if x.count == 0 then GoToSleep else SpinCas)
            && Act(z, GoToSleep, t, Wait) == Moved(z, Asleep)
  {
  }

  /** Without one, it joins the wait list and sleeps; with a negative counter it spins instead. */
  lemma WaitSleepsIff(s: Sem, t: Thread)
    requires t in s.th && s.th[t].pc == Outside && s.count <= 0 && s.spin == None
    ensures Alone(s, t, Wait, 7) ==
            With(s, t, Shared(s.count, None, s.waiters + [t]),
                 s.th[t].(pc := if s.count == 0 then GoToSleep else SpinCas), s.posts, s.taken)
    ensures s.count == 0 && !s.th[t].linked ==>
              Alone(s, t, Wait, 8) ==
              With(s, t, Shared(0, None, s.waiters + [t]), s.th[t].(pc := Asleep), s.posts, s.taken)
  {
    hide Alone, With, Act;
    var x, h := Shared(s.count, None, s.waiters), s.th[t];
    SleepActs(x, t);
    WaitListed(s, t);
    x := x.(waiters := s.waiters + [t]);
    Go(s, t, Wait, 5, x.(spin := Some(t)), h.(pc := EnlistUnlock), s.posts, s.taken);
    Go(s, t, Wait, 6, x, h.(pc := SleepRead), s.posts, s.taken);
    if s.count == 0 { Go(s, t, Wait, 7, x, h.(pc := GoToSleep), s.posts, s.taken); }
  }

  lemma WaitListed(s: Sem, t: Thread)
    requires t in s.th && s.th[t].pc == Outside && s.count <= 0 && s.spin == None
    ensures Alone(s, t, Wait, 5) ==
            With(s, t, Shared(s.count, Some(t), s.waiters + [t]), s.th[t].(pc := EnlistUnlock), s.posts, s.taken)
  {
    hide Alone, With, Act;
    var x, h := Shared(s.count, None, s.waiters), s.th[t];
    FastActs(x, t);
    SleepActs(x, t);
    Begin(s, t, Wait);
    Go(s, t, Wait, 0, x, h, s.posts, s.taken);
    Go(s, t, Wait, 1, x, h.(pc := FastRead), s.posts, s.taken);
    Go(s, t, Wait, 2, x, h.(pc := SlowLock), s.posts, s.taken);
    Go(s, t, Wait, 3, x.(spin := Some(t)), h.(pc := SlowRead), s.posts, s.taken);
    Go(s, t, Wait, 4, x.(spin := Some(t)), h.(pc := Enlist), s.posts, s.taken);
  }

  lemma SecondActs(x: Shared, t: Thread)
    requires x.count > 0 && x.spin == None
    ensures var y, z := x.(spin := Some(t)), x.(count := x.count - 1);
            && Act(x, SlowLock, t, Wait) == Moved(y, SlowRead)
            && Act(y, SlowRead, t, Wait) == Moved(y, SlowCas(x.count))
            && Act(y, SlowCas(x.count), t, Wait) == Took(z.(spin := Some(t)), SlowUnlock)
            && Act(z.(spin := Some(t)), SlowUnlock, t, Wait) == Moved(z, Outside)
  {
  }

  /** A unit that arrives before the second look, inside the spinlock, is taken there. */
  lemma SecondLookTakes(s: Sem, t: Thread)
    requires t in s.th && s.th[t].pc == SlowLock && s.count > 0 && s.spin == None
    ensures Alone(s, t, Wait, 4) ==
            With(s, t, Shared(s.count - 1, None, s.waiters), s.th[t].(pc := Outside, holding := true),
                 s.posts, s.taken + 1)
  {
    hide Alone, With, Act;
    var x, h := Shared(s.count, None, s.waiters), s.th[t];
    SecondActs(x, t);
    Begin(s, t, Wait);
    Go(s, t, Wait, 0, x, h, s.posts, s.taken);
    x := x.(spin := Some(t));
    Go(s, t, Wait, 1, x, h.(pc := SlowRead), s.posts, s.taken);
    Go(s, t, Wait, 2, x, h.(pc := SlowCas(s.count)), s.posts, s.taken);
    x := x.(count := s.count - 1);
    Go(s, t, Wait, 3, x, h.(pc := SlowUnlock, holding := true), s.posts, s.taken + 1);
  }

  /** A woken waiter that finds one unit takes it, leaves the list and returns. */
  lemma WokenTakes(s: Sem, t: Thread)
    requires t in s.th && s.th[t].pc == SleepRead && s.count == 1 && s.spin == None
    ensures Alone(s, t, Wait, 5) ==
            With(s, t, Shared(0, None, Without(s.waiters, t)), s.th[t].(pc := Outside, holding := true),
                 s.posts, s.taken + 1)
  {
    hide Alone, With, Without, Act;
    var x, h := Shared(0, None, s.waiters), s.th[t].(holding := true);
    WokenSwaps(s, t);
    DelistActs(x, t, h);
    Go(s, t, Wait, 2, x, h.(pc := DelistLock), s.posts, s.taken + 1);
    Go(s, t, Wait, 3, x.(spin := Some(t)), h.(pc := Delist), s.posts, s.taken + 1);
    x := x.(waiters := Without(s.waiters, t));
    Go(s, t, Wait, 4, x.(spin := Some(t)), h.(pc := DelistUnlock), s.posts, s.taken + 1);
  }

  lemma WokenSwaps(s: Sem, t: Thread)
    requires t in s.th && s.th[t].pc == SleepRead && s.count == 1 && s.spin == None
    ensures Alone(s, t, Wait, 2) ==
            With(s, t, Shared(0, None, s.waiters), s.th[t].(pc := DelistLock, holding := true), s.posts, s.taken + 1)
  {
    hide Alone, With, Without;
    var x, h := Shared(1, None, s.waiters), s.th[t];
    Begin(s, t, Wait);
    Go(s, t, Wait, 0, x, h, s.posts, s.taken);
    Go(s, t, Wait, 1, x, h.(pc := SpinCas), s.posts, s.taken);
  }

  lemma DelistActs(x: Shared, t: Thread, h: Th)
    requires x.spin == None
    ensures Act(x, DelistLock, t, Wait) == Moved(x.(spin := Some(t)), Delist)
    ensures var y := x.(waiters := Without(x.waiters, t));
            && Act(x.(spin := Some(t)), Delist, t, Wait) == Moved(y.(spin := Some(t)), DelistUnlock)
            && Act(y.(spin := Some(t)), DelistUnlock, t, Wait) == Moved(y, Outside)
  {
  }

  lemma TryActs(x: Shared, t: Thread)
    ensures Act(x, Outside, t, Trywait) == Moved(x, TryRead)
    ensures Act(x, TryRead, t, Trywait) == Moved(x, if x.count > 0 then TryCas(x.count) else Outside)
    ensures Act(x, TryCas(x.count), t, Trywait) == Took(x.(count := x.count - 1), Outside)
  {
  }

  /** `sem_trywait` takes a unit if there is one and else returns without having changed anything. */
  lemma TrywaitAlone(s: Sem, t: Thread)
    requires t in s.th && s.th[t].pc == Outside
    ensures s.count > 0 ==>
              Alone(s, t, Trywait, 3) ==
              With(s, t, Shared(s.count - 1, s.spin, s.waiters), s.th[t].(holding := true), s.posts, s.taken + 1)
    ensures s.count <= 0 ==> Alone(s, t, Trywait, 2) == s
  {
    hide Alone, With, Act;
    var x, h := Shared(s.count, s.spin, s.waiters), s.th[t];
    TryActs(x, t);
    Begin(s, t, Trywait);
    Go(s, t, Trywait, 0, x, h, s.posts, s.taken);
    Go(s, t, Trywait, 1, x, h.(pc := TryRead), s.posts, s.taken);
    if s.count > 0 { Go(s, t, Trywait, 2, x, h.(pc := TryCas(s.count)), s.posts, s.taken); } else { WithSame(s, t); }
  }

  lemma WithSame(s: Sem, t: Thread)
    requires t in s.th
    ensures With(s, t, Shared(s.count, s.spin, s.waiters), s.th[t], s.posts, s.taken) == s
  {
  }

  /** `sem_post` adds a unit, and takes the first waiter off the list and ends its sleep. */
  lemma PostAlone(s: Sem, t: Thread)
    requires ListInv(s) && t in s.th && s.th[t].pc == Outside && s.spin == None && s.count < INT_MAX
    ensures var s' := Alone(s, t, Post, 5);
            && s'.count == s.count + 1 && s'.spin == None && s'.posts == s.posts + 1 && s'.taken == s.taken
            && s'.waiters == (if s.waiters == [] then [] else s.waiters[1..])
            && s'.th.Keys == s.th.Keys && s'.th[t] == s.th[t].(holding := false)
            && forall u :: u in s.th && u != t ==>
                 s'.th[u] == (if s.waiters == [] || u != s.waiters[0] then s.th[u]
                              else if s.th[u].pc == Asleep then s.th[u].(pc := SleepRead)
                              else s.th[u].(linked := true))
  {
    hide Alone, Step, Woken, ListInv;
    FirstIsInside(s, t);
    PostEnds(s, t);
    PostWakes(s.th, t, s.th[t].(holding := false), if s.waiters == [] then None else Some(s.waiters[0]));
  }

  /** The first waiter is in a call. */
  lemma FirstIsInside(s: Sem, t: Thread)
    requires ListInv(s) && t in s.th && s.th[t].pc == Outside
    ensures s.waiters != [] ==> s.waiters[0] in s.th && s.waiters[0] != t
  {
    if s.waiters != [] { assert s.waiters[0] in s.waiters; }
  }

  lemma PostWakes(th: map<Thread, Th>, t: Thread, mine: Th, w: Option<Thread>)
    requires t in th && w != Some(t)
    ensures var r := Woken(th[t := mine], w);
            && r.Keys == th.Keys && r[t] == mine
            && forall u :: u in th && u != t ==>
                 r[u] == (if w != Some(u) then th[u]
                          else if th[u].pc == Asleep then th[u].(pc := SleepRead)
                          else th[u].(linked := true))
  {
  }

  lemma PostEnds(s: Sem, t: Thread)
    requires t in s.th && s.th[t].pc == Outside && s.spin == None && s.count < INT_MAX
    requires s.waiters != [] ==> s.waiters[0] in s.th && s.waiters[0] != t
    ensures Alone(s, t, Post, 5) ==
            Sem(s.count + 1, None, if s.waiters == [] then [] else s.waiters[1..],
                Woken(s.th[t := s.th[t].(holding := false)], if s.waiters == [] then None else Some(s.waiters[0])),
                s.posts + 1, s.taken)
  {
    var h, w := s.th[t], if s.waiters == [] then None else Some(s.waiters[0]);
    var tail := if s.waiters == [] then [] else s.waiters[1..];
    hide Alone, Step, Woken;
    PostPopped(s, t, w, tail);
    AloneMore(s, t, Post, 4);
    WokenElsewhere(s.th, t, h.(pc := PostUnlock, holding := false), h.(holding := false), w);
    UnlockStep(Alone(s, t, Post, 4), t);
  }

  lemma PostPopped(s: Sem, t: Thread, w: Option<Thread>, tail: seq<Thread>)
    requires t in s.th && s.th[t].pc == Outside && s.spin == None && s.count < INT_MAX
    requires s.waiters != [] ==> s.waiters[0] in s.th && s.waiters[0] != t
    requires w == (if s.waiters == [] then None else Some(s.waiters[0]))
    requires tail == (if s.waiters == [] then [] else s.waiters[1..])
    ensures Alone(s, t, Post, 4) ==
            Sem(s.count + 1, Some(t), tail, Woken(s.th[t := s.th[t].(pc := PostUnlock, holding := false)], w),
                s.posts + 1, s.taken)
  {
    var x, h := Shared(s.count, None, s.waiters), s.th[t];
    hide Alone, Step, Woken;
    PostGoes(s, t, x, h);
    AloneMore(s, t, Post, 3);
    PopStep(Alone(s, t, Post, 3), t);
    UpdateTwice(s.th, t, h.(pc := PostPop, holding := false), h.(pc := PostUnlock, holding := false));
  }

  lemma UpdateTwice(th: map<Thread, Th>, t: Thread, a: Th, b: Th)
    ensures th[t := a][t := b] == th[t := b]
  {
  }

  lemma WokenElsewhere(th: map<Thread, Th>, t: Thread, b: Th, c: Th, w: Option<Thread>)
    requires w != Some(t)
    ensures var r := Woken(th[t := b], w); t in r && r[t] == b && r[t := c] == Woken(th[t := c], w)
  {
  }

  lemma PopStep(s: Sem, t: Thread)
    requires t in s.th && s.th[t].pc == PostPop && (s.waiters != [] ==> s.waiters[0] in s.th && s.waiters[0] != t)
    ensures Step(s, t, Post) ==
            s.(waiters := if s.waiters == [] then [] else s.waiters[1..],
               th := Woken(s.th[t := s.th[t].(pc := PostUnlock)], if s.waiters == [] then None else Some(s.waiters[0])))
  {
  }

  lemma UnlockStep(s: Sem, t: Thread)
    requires t in s.th && s.th[t].pc == PostUnlock
    ensures Step(s, t, Post) == s.(spin := None, th := s.th[t := s.th[t].(pc := Outside)])
  {
  }

  lemma AloneMore(s: Sem, t: Thread, call: Call, n: nat)
    requires t in s.th
    ensures Alone(s, t, call, n + 1) == Step(Alone(s, t, call, n), t, call)
  {
  }

  lemma PostGoes(s: Sem, t: Thread, x: Shared, h: Th)
    requires t in s.th && h == s.th[t] && h.pc == Outside && x == Shared(s.count, None, s.waiters) && s.spin == None
    requires s.count < INT_MAX
    ensures Alone(s, t, Post, 3) ==
            With(s, t, x.(count := s.count + 1, spin := Some(t)), h.(pc := PostPop, holding := false), s.posts + 1,
                 s.taken)
  {
    hide Alone, With;
    Begin(s, t, Post);
    Go(s, t, Post, 0, x, h, s.posts, s.taken);
    Go(s, t, Post, 1, x, h.(pc := PostInc), s.posts, s.taken);
    Go(s, t, Post, 2, x.(count := s.count + 1), h.(pc := PostLock, holding := false), s.posts + 1, s.taken);
  }
}
