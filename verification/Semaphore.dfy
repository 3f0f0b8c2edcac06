/**
 The counting semaphore (kernel/sync/semaphore.c) under every interleaving of any number of
 threads.  One step is one atomic operation on the counter, one acquisition or release of the
 spinlock, or one wait-list edit made inside it.
 */
module Semaphore {
  import opened Common
  import opened TaskQueues

  type Thread = Tid

  const INT_MAX := 0x7fff_ffff
  const INT_MIN := -0x8000_0000
  const TWO32 := 0x1_0000_0000

  /** Where a thread is: between calls, or before the named operation (with the value it last read). */
  datatype Pc =
    | Outside
    | FastRead | FastCas(v: int)
    | SlowLock | SlowRead | SlowCas(v: int) | SlowUnlock
    | Enlist | EnlistUnlock | SleepRead | GoToSleep | Asleep | SpinCas | DelistLock | Delist | DelistUnlock
    | TryRead | TryCas(v: int)
    | PostInc | PostLock | PostPop | PostUnlock

  /** `Elsewhere`: the thread gives up the processor for reasons of its own. */
  datatype Call = Wait | Trywait | Post | Elsewhere

  /**
   `holding`: the thread has taken a unit since it last posted.  `linked`: a post found it awake and
   put it on a run queue all the same, from which it has not been taken since.
   */
  datatype Th = Th(pc: Pc, holding: bool, linked: bool)

  /** `posts` and `taken` count the increments by `sem_post` and the successful acquisitions so far. */
  datatype Sem = Sem(count: int, spin: Option<Thread>, waiters: seq<Thread>, th: map<Thread, Th>,
                     posts: nat, taken: nat)

  /** `sem_init`, with every thread outside. */
  function Start(initial: int, threads: set<Thread>): Sem
  {
    Sem(initial, None, [], map t | t in threads :: Th(Outside, false, false), 0, 0)
  }

  // ---- one step --------------------------------------------------------------------

  /** `atomic_inc` on an `int`. */
  function AtomicInc(n: int): int { if n == INT_MAX then INT_MIN else n + 1 }

  /** The part of the state one thread's operation changes besides its program counter. */
  datatype Shared = Shared(count: int, spin: Option<Thread>, waiters: seq<Thread>)

  datatype Outcome = Moved(shared: Shared, pc: Pc) | Took(shared: Shared, pc: Pc) | Gave(shared: Shared, pc: Pc)

  /** A compare-and-swap from `v` to `v - 1`. */
  function Cas(s: Shared, v: int, won: Pc, lost: Pc): Outcome
  {
    if s.count == v then Took(s.(count := v - 1), won) else Moved(s, lost)
  }

  function Enter(s: Shared, t: Thread, here: Pc, next: Pc): Outcome
  {
    if s.spin.None? then Moved(s.(spin := Some(t)), next) else Moved(s, here)
  }

  function Act(s: Shared, pc: Pc, t: Thread, call: Call): Outcome
  {
    match pc
    case Outside =>
      Moved(s, match call case Wait => FastRead case Trywait => TryRead case Post => PostInc case Elsewhere => Outside)
    // sem_wait, fast path
    case FastRead => Moved(s, if s.count > 0 then FastCas(s.count) else SlowLock)
    case FastCas(v) => Cas(s, v, Outside, FastRead)
    // sem_wait, double check inside the spinlock
    case SlowLock => Enter(s, t, SlowLock, SlowRead)
    case SlowRead => Moved(s, if s.count > 0 then SlowCas(s.count) else Enlist)
    case SlowCas(v) => Cas(s, v, SlowUnlock, Enlist)
    case SlowUnlock => Moved(s.(spin := None), Outside)
    // sem_wait, slow path
    case Enlist => Moved(s.(waiters := s.waiters + [t]), EnlistUnlock)
    case EnlistUnlock => Moved(s.(spin := None), SleepRead)
    case SleepRead => Moved(s, if s.count == 0 then GoToSleep else SpinCas)
    case GoToSleep => Moved(s, Asleep)
    case Asleep => Moved(s, Asleep)
    case SpinCas => Cas(s, 1, DelistLock, SpinCas)
    case DelistLock => Enter(s, t, DelistLock, Delist)
    case Delist => Moved(s.(waiters := Without(s.waiters, t)), DelistUnlock)
    case DelistUnlock => Moved(s.(spin := None), Outside)
    // sem_trywait
    case TryRead => Moved(s, if s.count > 0 then TryCas(s.count) else Outside)
    case TryCas(v) => Cas(s, v, Outside, Outside)
    // sem_post
    case PostInc => Gave(s.(count := AtomicInc(s.count)), PostLock)
    case PostLock => Enter(s, t, PostLock, PostPop)
    case PostPop => Moved(s.(waiters := if s.waiters == [] then [] else s.waiters[1..]), PostUnlock)
    case PostUnlock => Moved(s.(spin := None), Outside)
  }

  function After(s: Sem, t: Thread, call: Call): Outcome
    requires t in s.th
  {
    Act(Shared(s.count, s.spin, s.waiters), s.th[t].pc, t, call)
  }

  /** The waiter that a post takes off the list and makes ready. */
  function Popped(s: Sem, pc: Pc): Option<Thread>
  {
    if pc == PostPop && s.waiters != [] then Some(s.waiters[0]) else None
  }

  /**
   Making a sleeping thread ready ends its sleep; it then looks at the counter again.  A thread
   that is awake is enqueued like one that is not.
   */
  function Woken(th: map<Thread, Th>, w: Option<Thread>): map<Thread, Th>
  {
    if w.None? || w.value !in th then th
    else if th[w.value].pc == Asleep then th[w.value := th[w.value].(pc := SleepRead)]
    else th[w.value := th[w.value].(linked := true)]
  }

  /**
   The moving thread's record.  `schedule` leaves a thread that is on a run queue there although it
   has marked itself blocked, so that it is picked again and looks at the counter again.
   */
  function Next(th: Th, o: Outcome, call: Call): Th
  {
    Th(if th.pc == GoToSleep && th.linked then SleepRead else o.pc,
       if o.Took? then true else if o.Gave? then false else th.holding,
       th.linked && th.pc != GoToSleep && !(th.pc == Outside && call == Elsewhere))
  }

  function Step(s: Sem, t: Thread, call: Call): Sem
    requires t in s.th
  {
    var o := After(s, t, call);
    Sem(o.shared.count, o.shared.spin, o.shared.waiters,
        Woken(s.th[t := Next(s.th[t], o, call)], Popped(s, s.th[t].pc)),
        s.posts + (if o.Gave? then 1 else 0), s.taken + (if o.Took? then 1 else 0))
  }

  datatype Move = Move(t: Thread, call: Call)

  function Exec(s: Sem, moves: seq<Move>): Sem
  {
    if moves == [] then s
    else
      var r := Exec(s, moves[..|moves| - 1]);
      var m := moves[|moves| - 1];
      if m.t in r.th then Step(r, m.t, m.call) else r
  }

  // ---- conservation ----------------------------------------------------------------

  function ReadValue(pc: Pc): Option<int>
  {
    if pc.FastCas? || pc.SlowCas? || pc.TryCas? then Some(pc.v) else None
  }

  /** Units are conserved and a thread about to swap expects a positive value. */
  ghost predicate Conserved(s: Sem, initial: int)
  {
    && s.count == initial + s.posts - s.taken
    && s.count >= (if initial < 0 then initial else 0)
    && (forall t :: t in s.th && ReadValue(s.th[t].pc).Some? ==> ReadValue(s.th[t].pc).value > 0)
  }

  /** The step is a post that overflows the counter. */
  predicate Overflows(s: Sem, t: Thread)
  {
    t in s.th && s.th[t].pc == PostInc && s.count == INT_MAX
  }

  /** A step conserves units if and only if it does not overflow the counter. */
  lemma StepConservesIff(s: Sem, t: Thread, call: Call, initial: int)
    requires Conserved(s, initial) && t in s.th && s.count <= INT_MAX
    ensures Conserved(Step(s, t, call), initial) <==> !Overflows(s, t)
    ensures !Overflows(s, t) ==> Step(s, t, call).count <= INT_MAX
  {
  }

  /** Units are conserved modulo 2^32, which is all that a counter of 32 bits can do. */
  ghost predicate Congruent(s: Sem, initial: int)
  {
    && INT_MIN <= s.count <= INT_MAX
    && (initial + s.posts - s.taken - s.count) % TWO32 == 0
    && (forall t :: t in s.th && ReadValue(s.th[t].pc).Some? ==> ReadValue(s.th[t].pc).value > 0)
  }

  lemma StepCongruent(s: Sem, t: Thread, call: Call, initial: int)
    requires Congruent(s, initial) && t in s.th
    ensures Congruent(Step(s, t, call), initial)
  {
    var x, s' := initial + s.posts - s.taken, Step(s, t, call);
    var x' := initial + s'.posts - s'.taken;
    assert x' - s'.count == x - s.count || x' - s'.count == x - s.count + TWO32;
  }

  /** In every interleaving, overflowing posts included, the counter is what came in less what went out, modulo 2^32. */
  lemma {:induction false} RunCongruent(initial: int, threads: set<Thread>, moves: seq<Move>)
    requires INT_MIN <= initial <= INT_MAX
    ensures Congruent(Exec(Start(initial, threads), moves), initial)
  {
    if moves != [] {
      RunCongruent(initial, threads, moves[..|moves| - 1]);
      var r, m := Exec(Start(initial, threads), moves[..|moves| - 1]), moves[|moves| - 1];
      if m.t in r.th { StepCongruent(r, m.t, m.call, initial); }
    }
  }

  /** No post of the run overflows the counter. */
  predicate NeverOverflows(s: Sem, moves: seq<Move>)
  {
    forall i :: 0 <= i < |moves| ==> !Overflows(Exec(s, moves[..i]), moves[i].t)
  }

  /** In every interleaving units are conserved, and the counter never falls below zero if it starts there. */
  lemma {:induction false} RunConserves(initial: int, threads: set<Thread>, moves: seq<Move>)
    requires initial <= INT_MAX && NeverOverflows(Start(initial, threads), moves)
    ensures var s := Exec(Start(initial, threads), moves);
            && s.count == initial + s.posts - s.taken
            && (initial >= 0 ==> s.count >= 0)
            && s.count <= INT_MAX && Conserved(s, initial)
  {
    if moves != [] {
      var before := moves[..|moves| - 1];
      NeverOverflowsPrefix(Start(initial, threads), moves);
      RunConserves(initial, threads, before);
      var r, m := Exec(Start(initial, threads), before), moves[|moves| - 1];
      if m.t in r.th { StepConservesIff(r, m.t, m.call, initial); }
    }
  }

  lemma NeverOverflowsPrefix(s: Sem, moves: seq<Move>)
    requires moves != [] && NeverOverflows(s, moves)
    ensures NeverOverflows(s, moves[..|moves| - 1])
    ensures !Overflows(Exec(s, moves[..|moves| - 1]), moves[|moves| - 1].t)
  {
    var before := moves[..|moves| - 1];
    forall i | 0 <= i < |before| ensures !Overflows(Exec(s, before[..i]), before[i].t) {
      assert before[..i] == moves[..i] && before[i] == moves[i];
    }
  }

  // ---- the wait list ---------------------------------------------------------------

  predicate InSpinlock(pc: Pc)
  {
    || pc.SlowRead? || pc.SlowCas? || pc.SlowUnlock? || pc.Enlist? || pc.EnlistUnlock?
    || pc.Delist? || pc.DelistUnlock? || pc.PostPop? || pc.PostUnlock?
  }

  /** The thread's wait-list entry, which lives on its stack, may be linked. */
  predicate MayBeListed(pc: Pc)
  {
    pc.EnlistUnlock? || pc.SleepRead? || pc.GoToSleep? || pc.Asleep? || pc.SpinCas? || pc.DelistLock? || pc.Delist?
  }

  ghost predicate ListInv(s: Sem)
  {
    && (forall t :: t in s.th ==> (InSpinlock(s.th[t].pc) <==> s.spin == Some(t)))
    && NoRepeats(s.waiters)
    && (forall t :: t in s.waiters ==> t in s.th && MayBeListed(s.th[t].pc))
  }

  lemma ActSpin(s: Shared, pc: Pc, t: Thread, call: Call)
    requires InSpinlock(pc) <==> s.spin == Some(t)
    ensures var o := Act(s, pc, t, call);
            && (InSpinlock(o.pc) <==> o.shared.spin == Some(t))
            && (pc == GoToSleep ==> o == Moved(s, Asleep))
            && forall u :: u != t ==> (o.shared.spin == Some(u) <==> s.spin == Some(u))
  {
  }

  lemma ActList(s: Shared, pc: Pc, t: Thread, call: Call)
    requires NoRepeats(s.waiters) && (t in s.waiters ==> MayBeListed(pc))
    ensures var o := Act(s, pc, t, call);
            && NoRepeats(o.shared.waiters) && (t in o.shared.waiters ==> MayBeListed(o.pc))
            && forall u :: u != t && u in o.shared.waiters ==> u in s.waiters
  {
    WithoutMembers(s.waiters, t);
  }

  lemma StepKeepsList(s: Sem, t: Thread, call: Call)
    requires ListInv(s) && t in s.th
    ensures ListInv(Step(s, t, call))
  {
    hide Act, Woken, InSpinlock, MayBeListed, Popped;
    var shared := Shared(s.count, s.spin, s.waiters);
    ActSpin(shared, s.th[t].pc, t, call);
    ActList(shared, s.th[t].pc, t, call);
    SleepReadListed();
    WokenPlaces(s.th[t := Next(s.th[t], After(s, t, call), call)], Popped(s, s.th[t].pc));
  }

  lemma SleepReadListed()
    ensures MayBeListed(SleepRead) && MayBeListed(Asleep) && !InSpinlock(SleepRead) && !InSpinlock(Asleep)
  {
  }

  lemma WokenPlaces(th: map<Thread, Th>, w: Option<Thread>)
    ensures var r := Woken(th, w);
            && r.Keys == th.Keys
            && forall u :: u in th ==>
                 && (InSpinlock(r[u].pc) <==> InSpinlock(th[u].pc))
                 && (MayBeListed(r[u].pc) <==> MayBeListed(th[u].pc))
  {
  }

  /** In every interleaving a thread that has returned from its call has no entry left on the wait list. */
  lemma {:induction false} NoDanglingWaiter(initial: int, threads: set<Thread>, moves: seq<Move>, t: Thread)
    ensures var s := Exec(Start(initial, threads), moves);
            && ListInv(s)
            && (t in s.th && s.th[t].pc == Outside ==> t !in s.waiters)
  {
    if moves != [] {
      NoDanglingWaiter(initial, threads, moves[..|moves| - 1], t);
      var r, m := Exec(Start(initial, threads), moves[..|moves| - 1]), moves[|moves| - 1];
      if m.t in r.th { StepKeepsList(r, m.t, m.call); }
    }
  }

  // ---- threads that post only what they took ---------------------------------------

  /** The thread posts only while holding a unit and waits only while holding none. */
  predicate Disciplined(s: Sem, m: Move)
  {
    m.t in s.th && s.th[m.t].pc == Outside && m.call != Elsewhere ==> (m.call == Post <==> s.th[m.t].holding)
  }

  predicate DisciplinedRun(s: Sem, moves: seq<Move>)
  {
    forall i :: 0 <= i < |moves| ==> Disciplined(Exec(s, moves[..i]), moves[i])
  }

  /** Whether a disciplined thread at this point holds a unit. */
  ghost predicate Agrees(th: Th)
  {
    match th.pc
    case Outside => true
    case SlowUnlock | DelistLock | Delist | DelistUnlock | PostInc => th.holding
    case _ => !th.holding
  }

  ghost function Holders(th: map<Thread, Th>): set<Thread>
  {
    set t | t in th && th[t].holding
  }

  lemma HoldersUpdate(th: map<Thread, Th>, t: Thread, x: Th)
    requires t in th
    ensures |Holders(th[t := x])| == |Holders(th)| + (if x.holding then 1 else 0) - (if th[t].holding then 1 else 0)
  {
    var h := Holders(th);
    assert Holders(th[t := x]) == if x.holding then h + {t} else h - {t};
    if t in h { assert h + {t} == h; } else { assert h - {t} == h; }
  }

  lemma WokenHolders(th: map<Thread, Th>, w: Option<Thread>)
    ensures Holders(Woken(th, w)) == Holders(th)
  {
  }

  ghost predicate HolderInv(s: Sem, initial: int)
  {
    s.count + |Holders(s.th)| == initial && forall t :: t in s.th ==> Agrees(s.th[t])
  }

  lemma ActHolds(s: Shared, th: Th, t: Thread, call: Call)
    requires Agrees(th) && (th.pc == Outside && call != Elsewhere ==> (call == Post <==> th.holding))
    requires !(th.pc == PostInc && s.count == INT_MAX)
    ensures var o := Act(s, th.pc, t, call);
            && Agrees(Next(th, o, call))
            && (o.Took? ==> !th.holding && o.shared.count == s.count - 1)
            && (o.Gave? ==> th.holding && o.shared.count == s.count + 1)
            && (o.Moved? ==> o.shared.count == s.count)
  {
  }

  lemma StepKeepsHolders(s: Sem, m: Move, initial: int)
    requires HolderInv(s, initial) && Disciplined(s, m) && m.t in s.th && !Overflows(s, m.t)
    ensures HolderInv(Step(s, m.t, m.call), initial)
  {
    ActHolds(Shared(s.count, s.spin, s.waiters), s.th[m.t], m.t, m.call);
    var o := After(s, m.t, m.call);
    var x := Next(s.th[m.t], o, m.call);
    HoldersUpdate(s.th, m.t, x);
    WokenHolders(s.th[m.t := x], Popped(s, s.th[m.t].pc));
  }

  /** A disciplined thread about to post holds a unit, so the counter is below its initial value. */
  lemma HolderNeverOverflows(s: Sem, t: Thread, initial: int)
    requires HolderInv(s, initial) && initial <= INT_MAX
    ensures !Overflows(s, t)
  {
    if t in s.th && s.th[t].pc == PostInc {
      assert t in Holders(s.th);
    }
  }

  /**
   With disciplined threads at most `initial` of them hold a unit at any moment of any
   interleaving; with an initial value of one the semaphore is a mutual-exclusion lock.
   */
  lemma {:induction false} RunBoundsHolders(initial: nat, threads: set<Thread>, moves: seq<Move>)
    requires initial <= INT_MAX && DisciplinedRun(Start(initial, threads), moves)
    ensures var s := Exec(Start(initial, threads), moves);
            HolderInv(s, initial) && Conserved(s, initial) && |Holders(s.th)| <= initial
  {
    var s0 := Start(initial, threads);
    if moves == [] {
      assert Holders(s0.th) == {};
    } else {
      var before := moves[..|moves| - 1];
      DisciplinedPrefix(s0, moves);
      RunBoundsHolders(initial, threads, before);
      var r, m := Exec(s0, before), moves[|moves| - 1];
      HolderNeverOverflows(r, m.t, initial);
      if m.t in r.th {
        StepConservesIff(r, m.t, m.call, initial);
        StepKeepsHolders(r, m, initial);
      }
    }
  }

  lemma DisciplinedPrefix(s: Sem, moves: seq<Move>)
    requires moves != [] && DisciplinedRun(s, moves)
    ensures DisciplinedRun(s, moves[..|moves| - 1])
    ensures Disciplined(Exec(s, moves[..|moves| - 1]), moves[|moves| - 1])
  {
    var before := moves[..|moves| - 1];
    forall i | 0 <= i < |before| ensures Disciplined(Exec(s, before[..i]), before[i]) {
      assert before[..i] == moves[..i] && before[i] == moves[i];
    }
  }

  // ---- waiters that are never served -----------------------------------------------

  /** A sleeping thread that is neither on the wait list nor on a run queue: nothing refers to it any more. */
  predicate Lost(s: Sem, t: Thread)
  {
    t in s.th && s.th[t].pc == Asleep && !s.th[t].linked && t !in s.waiters
  }

  /**
   A thread that goes to sleep is lost if and only if it has been taken off the wait list and was
   not linked on a run queue in return, that is, if it was asleep when a post found it.
   */
  lemma SleepLosesIff(s: Sem, t: Thread, call: Call)
    requires t in s.th && s.th[t].pc == GoToSleep
    ensures Lost(Step(s, t, call), t) <==> t !in s.waiters && !s.th[t].linked
  {
  }

  /** The step is a post that finds the first waiter awake, and enqueues it. */
  predicate PopsAwake(s: Sem, t: Thread)
  {
    && t in s.th && s.th[t].pc == PostPop
    && s.waiters != [] && s.waiters[0] in s.th && s.th[s.waiters[0]].pc != Asleep
  }

  /**
   Exactly when a thread that is awake is put on a run queue: a post takes it off the wait list
   before it has gone to sleep or after it has stopped sleeping.
   */
  lemma PostLinksIff(s: Sem, t: Thread, call: Call, u: Thread)
    requires ListInv(s) && t in s.th && u in s.th && !s.th[u].linked
    ensures Step(s, t, call).th[u].linked <==> PopsAwake(s, t) && u == s.waiters[0]
    ensures Step(s, t, call).th[u].linked ==>
              var pc := s.th[u].pc; pc == SleepRead || pc == GoToSleep || pc == SpinCas || pc == DelistLock
  {
    if s.waiters != [] { assert s.waiters[0] in s.waiters; }
  }

  lemma StepKeepsLost(s: Sem, m: Move, t: Thread)
    requires Lost(s, t) && m.t in s.th
    ensures Lost(Step(s, m.t, m.call), t)
  {
    WithoutMembers(s.waiters, m.t);
  }

  /** A lost waiter is never woken, whatever is posted, in any continuation of the run. */
  lemma {:induction false} LostForever(s: Sem, moves: seq<Move>, t: Thread)
    requires Lost(s, t)
    ensures Lost(Exec(s, moves), t)
  {
    if moves != [] {
      LostForever(s, moves[..|moves| - 1], t);
      var r, m := Exec(s, moves[..|moves| - 1]), moves[|moves| - 1];
      if m.t in r.th { StepKeepsLost(r, m, t); }
    }
  }

  /** A waiter that saw units stops spinning if and only if it finds exactly one. */
  lemma SpinEndsIff(s: Sem, t: Thread, call: Call)
    requires t in s.th && s.th[t].pc == SpinCas
    ensures Step(s, t, call).th[t].pc != SpinCas <==> s.count == 1
    ensures s.count != 1 ==> Step(s, t, call) == s
  {
    assert s.th[t := s.th[t]] == s.th;
  }

  /** With two or more units it spins on for as long as no other thread moves. */
  lemma {:induction false} SpinsOn(s: Sem, moves: seq<Move>, t: Thread)
    requires t in s.th && s.th[t].pc == SpinCas && s.count != 1 && forall m :: m in moves ==> m.t == t
    ensures Exec(s, moves) == s
  {
    if moves != [] {
      SpinsOn(s, moves[..|moves| - 1], t);
      SpinEndsIff(s, t, moves[|moves| - 1].call);
      assert moves[|moves| - 1] in moves;
    }
  }

  // ---- such a state is reachable ---------------------------------------------------

  /** Three threads; only the third ever takes a unit. */
  function Three(x: Shared, one: Th, p2: Pc, p3: Pc, h3: bool, posts: nat, taken: nat): Sem
  {
    Sem(x.count, x.spin, x.waiters, map[1 := one, 2 := At(p2), 3 := Th(p3, h3, false)], posts, taken)
  }

  function At(pc: Pc): Th
  {
    Th(pc, false, false)
  }

  /** Thread 1 after a post has taken it off the list. */
  function Found(one: Th): Th
  {
    if one.pc == Asleep then one.(pc := SleepRead) else one.(linked := true)
  }

  /** The post that takes the first thread off the list, or finds nobody there. */
  lemma PopThree(x: Shared, one: Th, p3: Pc, h3: bool, posts: nat, taken: nat, call: Call)
    requires x.waiters == [] || x.waiters == [1]
    ensures Step(Three(x, one, PostPop, p3, h3, posts, taken), 2, call) ==
            Three(x.(waiters := []), if x.waiters == [] then one else Found(one), PostUnlock, p3, h3, posts, taken)
  {
    var th := map[1 := one, 2 := At(PostUnlock), 3 := Th(p3, h3, false)];
    assert map[1 := one, 2 := At(PostPop), 3 := Th(p3, h3, false)][2 := At(PostUnlock)] == th;
    FoundThree(one, At(PostUnlock), Th(p3, h3, false));
    hide Woken, Found;
  }

  lemma FoundThree(one: Th, two: Th, three: Th)
    ensures Woken(map[1 := one, 2 := two, 3 := three], Some(1)) == map[1 := Found(one), 2 := two, 3 := three]
    ensures Woken(map[1 := one, 2 := two, 3 := three], None) == map[1 := one, 2 := two, 3 := three]
  {
  }

  lemma Then(s0: Sem, moves: seq<Move>, m: Move)
    requires m.t in Exec(s0, moves).th
    ensures Exec(s0, moves + [m]) == Step(Exec(s0, moves), m.t, m.call)
  {
    assert (moves + [m])[..|moves|] == moves;
  }

  /** One more move of thread 1, which neither takes nor posts. */
  lemma First(s0: Sem, before: seq<Move>, x: Shared, one: Th, h3: bool, posts: nat, taken: nat)
    returns (moves: seq<Move>)
    requires Exec(s0, before) == Three(x, one, Outside, Outside, h3, posts, taken)
    requires Act(x, one.pc, 1, Wait).Moved? && one.pc != PostPop
    ensures var o := Act(x, one.pc, 1, Wait);
            Exec(s0, moves) == Three(o.shared, Next(one, o, Wait), Outside, Outside, h3, posts, taken)
  {
    hide Exec, Act, Next;
    moves := before + [Move(1, Wait)];
    Then(s0, before, Move(1, Wait));
  }

  /** One more move of thread 2, which posts. */
  lemma Second(s0: Sem, before: seq<Move>, x: Shared, one: Th, p2: Pc, h3: bool, posts: nat, taken: nat)
    returns (moves: seq<Move>)
    requires Exec(s0, before) == Three(x, one, p2, Outside, h3, posts, taken)
    requires !Act(x, p2, 2, Post).Took? && p2 != PostPop
    ensures var o := Act(x, p2, 2, Post);
            Exec(s0, moves) == Three(o.shared, one, o.pc, Outside, h3, if o.Gave? then posts + 1 else posts, taken)
  {
    hide Exec, Act;
    moves := before + [Move(2, Post)];
    Then(s0, before, Move(2, Post));
  }

  /** One more move of thread 3, which tries to take a unit. */
  lemma Third(s0: Sem, before: seq<Move>, x: Shared, one: Th, p3: Pc, posts: nat) returns (moves: seq<Move>)
    requires Exec(s0, before) == Three(x, one, Outside, p3, false, posts, 0)
    requires !Act(x, p3, 3, Trywait).Gave? && p3 != PostPop
    ensures var o := Act(x, p3, 3, Trywait);
            Exec(s0, moves) == Three(o.shared, one, Outside, o.pc, o.Took?, posts, if o.Took? then 1 else 0)
  {
    hide Exec, Act;
    moves := before + [Move(3, Trywait)];
    Then(s0, before, Move(3, Trywait));
  }

  lemma StartThree()
    ensures Exec(Start(0, {1, 2, 3}), []) == Three(Shared(0, None, []), At(Outside), Outside, Outside, false, 0, 0)
  {
  }

  /** Thread 1 finds no unit and joins the wait list. */
  lemma OneEnlists() returns (moves: seq<Move>)
    ensures Exec(Start(0, {1, 2, 3}), moves) ==
            Three(Shared(0, Some(1), [1]), At(EnlistUnlock), Outside, Outside, false, 0, 0)
  {
    hide Exec, Three;
    var s0 := Start(0, {1, 2, 3});
    var free, busy := Shared(0, None, []), Shared(0, Some(1), []);
    StartThree();
    moves := First(s0, [], free, At(Outside), false, 0, 0);
    moves := First(s0, moves, free, At(FastRead), false, 0, 0);
    moves := First(s0, moves, free, At(SlowLock), false, 0, 0);
    moves := First(s0, moves, busy, At(SlowRead), false, 0, 0);
    moves := First(s0, moves, busy, At(Enlist), false, 0, 0);
    assert [] + [1] == [1];
  }

  /** ... and is about to go to sleep. */
  lemma OneYawns() returns (moves: seq<Move>)
    ensures Exec(Start(0, {1, 2, 3}), moves) ==
            Three(Shared(0, None, [1]), At(GoToSleep), Outside, Outside, false, 0, 0)
  {
    hide Exec, Three;
    var s0, listed := Start(0, {1, 2, 3}), Shared(0, Some(1), [1]);
    moves := OneEnlists();
    moves := First(s0, moves, listed, At(EnlistUnlock), false, 0, 0);
    moves := First(s0, moves, listed.(spin := None), At(SleepRead), false, 0, 0);
  }

  /** Thread 2 posts one unit. */
  lemma TwoPosts(s0: Sem, before: seq<Move>, x: Shared, one: Th, h3: bool, posts: nat, taken: nat)
    returns (moves: seq<Move>)
    requires Exec(s0, before) == Three(x, one, Outside, Outside, h3, posts, taken)
    requires x.count == 0 && x.spin == None && (x.waiters == [] || x.waiters == [1])
    ensures Exec(s0, moves) ==
            Three(Shared(1, None, []), if x.waiters == [] then one else Found(one), Outside, Outside, h3,
                  posts + 1, taken)
  {
    hide Exec, Step;
    moves := Second(s0, before, x, one, Outside, h3, posts, taken);
    moves := Second(s0, moves, x, one, PostInc, h3, posts, taken);
    moves := Second(s0, moves, x.(count := 1), one, PostLock, h3, posts + 1, taken);
    Then(s0, moves, Move(2, Post));
    PopThree(x.(count := 1, spin := Some(2)), one, Outside, h3, posts + 1, taken, Post);
    moves := moves + [Move(2, Post)];
    hide Three;
    var found := if x.waiters == [] then one else Found(one);
    moves := Second(s0, moves, Shared(1, Some(2), []), found, PostUnlock, h3, posts + 1, taken);
  }

  /** Thread 3 takes the unit before thread 1 looks. */
  lemma ThreeTakes(s0: Sem, before: seq<Move>, one: Th) returns (moves: seq<Move>)
    requires Exec(s0, before) == Three(Shared(1, None, []), one, Outside, Outside, false, 1, 0)
    ensures Exec(s0, moves) == Three(Shared(0, None, []), one, Outside, Outside, true, 1, 1)
  {
    hide Exec, Three;
    var x := Shared(1, None, []);
    moves := Third(s0, before, x, one, Outside, 1);
    moves := Third(s0, moves, x, one, TryRead, 1);
    moves := Third(s0, moves, x, one, TryCas(1), 1);
  }

  /** A run of three threads in which a waiter is lost although a unit is there for it: a post found it asleep. */
  lemma LostWaiterReachable() returns (moves: seq<Move>)
    ensures var s := Exec(Start(0, {1, 2, 3}), moves); Lost(s, 1) && s.count == 1
  {
    hide Exec, Three, Lost;
    var s0, y := Start(0, {1, 2, 3}), Shared(0, None, []);
    moves := OneYawns();
    moves := First(s0, moves, Shared(0, None, [1]), At(GoToSleep), false, 0, 0);
    moves := TwoPosts(s0, moves, Shared(0, None, [1]), At(Asleep), false, 0, 0);
    moves := ThreeTakes(s0, moves, At(SleepRead));
    moves := First(s0, moves, y, At(SleepRead), true, 1, 1);
    moves := First(s0, moves, y, At(GoToSleep), true, 1, 1);
    moves := TwoPosts(s0, moves, y, At(Asleep), true, 1, 1);
    OneIsLost();
  }

  lemma OneIsLost()
    ensures var s := Three(Shared(1, None, []), At(Asleep), Outside, Outside, true, 2, 1); Lost(s, 1) && s.count == 1
  {
  }

  /** A run in which a post finds the waiter awake: it is enqueued while it runs, and comes back from its sleep. */
  lemma AwakeWaiterReachable() returns (moves: seq<Move>)
    ensures var s := Exec(Start(0, {1, 2, 3}), moves);
            && 1 in s.th && s.th[1] == Th(GoToSleep, false, true) && 1 !in s.waiters && s.count == 0
            && Step(s, 1, Wait).th[1] == At(SleepRead)
  {
    hide Exec;
    var s0 := Start(0, {1, 2, 3});
    moves := OneYawns();
    moves := TwoPosts(s0, moves, Shared(0, None, [1]), At(GoToSleep), false, 0, 0);
    moves := ThreeTakes(s0, moves, Th(GoToSleep, false, true));
  }
}
