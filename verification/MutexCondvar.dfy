/**
 The sleeping mutex and the condition variable (kernel/sync/mutex.c, kernel/sync/condvar.c) in
 every run that switches threads only inside `schedule`, as the kernel does: a thread that makes
 a call runs on until the call returns or puts it to sleep.  Any awake thread may run next.
 */
module MutexCondvar {
  import opened Common
  import opened TaskQueues

  type Thread = Tid

  /** `condvar_broadcast` collects at most this many wait queues. */
  const BROADCAST_MAX := 32

  /**
   Where a thread is: outside, holding the mutex, in the sleep loop of `mutex_lock` (called by
   the program or by `condvar_wait`), or in the sleep of `condvar_wait`.  `asleep` is PROC_BLOCKED.
   */
  datatype Place =
    | Outside
    | Holding
    | InLock(fromWait: bool, asleep: bool)
    | InWait(asleep: bool)

  datatype Sync = Sync(locked: int, owner: Option<Thread>, waitList: seq<Thread>, waiters: seq<Thread>,
                       at: map<Thread, Place>)

  datatype Call = Lock | Trylock | Unlock | Wait | Signal | Broadcast | Resume

  function Start(threads: set<Thread>): Sync
  {
    Sync(0, None, [], [], map t | t in threads :: Outside)
  }

  // ---- the calls -------------------------------------------------------------------

  /** The thread's record with PROC_READY instead of PROC_BLOCKED. */
  function Awake(p: Place): Place
  {
    if p.InLock? || p.InWait? then p.(asleep := false) else p
  }

  function WakeAll(at: map<Thread, Place>, ts: seq<Thread>): map<Thread, Place>
  {
    map t | t in at :: if t in ts then Awake(at[t]) else at[t]
  }

  function Acquire(s: Sync, t: Thread): Sync
  {
    s.(locked := 1, owner := Some(t), at := s.at[t := Holding])
  }

  /** `mutex_lock` up to its return or its first sleep. */
  function LockMutex(s: Sync, t: Thread, fromWait: bool): Sync
  {
    if s.locked == 0 then Acquire(s, t)
    else s.(waitList := s.waitList + [t], at := s.at[t := InLock(fromWait, true)])
  }

  /** The loop of `mutex_lock` when its sleep ends: acquire if the mutex is free, else sleep again. */
  function RetryLock(s: Sync, t: Thread, fromWait: bool): Sync
  {
    if s.locked != 0 || s.owner.Some? then s.(at := s.at[t := InLock(fromWait, true)])
    else
      var a := Acquire(s, t);
      a.(waitList := Without(s.waitList, t), waiters := if fromWait then Without(s.waiters, t) else s.waiters)
  }

  /** `mutex_unlock`: nothing unless the caller is the owner; wakes the first waiter. */
  function UnlockMutex(s: Sync, t: Thread): Sync
  {
    if s.owner != Some(t) then s
    else
      var r := s.(locked := 0, owner := None, at := if t in s.at then s.at[t := Outside] else s.at);
      if s.waitList == [] then r
      else r.(waitList := s.waitList[1..], at := WakeAll(r.at, [s.waitList[0]]))
  }

  /** `condvar_wait` up to its sleep. */
  function WaitCond(s: Sync, t: Thread): Sync
  {
    var r := UnlockMutex(s.(waiters := s.waiters + [t]), t);
    r.(at := r.at[t := InWait(true)])
  }

  /** `condvar_wait` when its sleep ends: `mutex_lock`, then off the waiter list if that did not sleep. */
  function LeaveWait(s: Sync, t: Thread): Sync
  {
    var r := LockMutex(s, t, true);
    if r.owner == Some(t) then r.(waiters := Without(r.waiters, t)) else r
  }

  function SignalCond(s: Sync): Sync
  {
    if s.waiters == [] then s
    else s.(waiters := s.waiters[1..], at := WakeAll(s.at, [s.waiters[0]]))
  }

  /** `condvar_broadcast`: every waiter is unlinked, the first 32 are woken. */
  function BroadcastCond(s: Sync): Sync
  {
    var n := if |s.waiters| <= BROADCAST_MAX then |s.waiters| else BROADCAST_MAX;
    s.(waiters := [], at := WakeAll(s.at, s.waiters[..n]))
  }

  /** Thread `t` can run and make this call, or go on with the one it is in. */
  predicate Enabled(s: Sync, t: Thread, call: Call)
  {
    t in s.at &&
    match s.at[t]
    case Outside => call != Resume
    case Holding => call != Resume
    case InLock(_, asleep) => call == Resume && !asleep
    case InWait(asleep) => call == Resume && !asleep
  }

  function Step(s: Sync, t: Thread, call: Call): Sync
    requires Enabled(s, t, call)
  {
    match call
    case Lock => LockMutex(s, t, false)
    case Trylock => if s.locked == 0 then Acquire(s, t) else s
    case Unlock => UnlockMutex(s, t)
    case Wait => WaitCond(s, t)
    case Signal => SignalCond(s)
    case Broadcast => BroadcastCond(s)
    case Resume => if s.at[t].InLock? then RetryLock(s, t, s.at[t].fromWait) else LeaveWait(s, t)
  }

  datatype Move = Move(t: Thread, call: Call)

  /** A run; a move that is not enabled does nothing. */
  function Exec(s: Sync, moves: seq<Move>): Sync
  {
    if moves == [] then s
    else
      var r, m := Exec(s, moves[..|moves| - 1]), moves[|moves| - 1];
      if Enabled(r, m.t, m.call) then Step(r, m.t, m.call) else r
  }

  // ---- the invariant ---------------------------------------------------------------

  /** The owner has called `mutex_lock` again and sleeps until it releases the mutex itself. */
  predicate SelfLocked(s: Sync, t: Thread)
  {
    s.owner == Some(t) && t in s.at && s.at[t] == InLock(false, true) && t in s.waitList
  }

  /**
   The lock word, the owner field and the one thread between its lock and its unlock agree, and
   every linked waiter is a sleeping thread of the right kind.
   */
  ghost predicate Inv(s: Sync)
  {
    && (s.locked == 0 || s.locked == 1)
    && (s.locked == 1 <==> s.owner.Some?)
    && (s.owner.Some? ==> s.owner.value in s.at && (s.at[s.owner.value] == Holding || SelfLocked(s, s.owner.value)))
    && (forall t :: t in s.at && s.at[t] == Holding ==> s.owner == Some(t))
    && NoRepeats(s.waitList) && NoRepeats(s.waiters)
    && (forall t :: t in s.waitList ==> t in s.at && s.at[t].InLock? && s.at[t].asleep)
    && (forall t :: t in s.waiters ==> t in s.at && s.at[t].InWait? && s.at[t].asleep)
  }

  lemma TailMembers(q: seq<Thread>)
    requires q != [] && NoRepeats(q)
    ensures NoRepeats(q[1..]) && q[0] !in q[1..] && forall x :: x in q[1..] ==> x in q
  {
  }

  lemma AcquireKeeps(s: Sync, t: Thread)
    requires Inv(s) && s.locked == 0 && t in s.at && t !in s.waitList && t !in s.waiters
    ensures Inv(Acquire(s, t))
  {
  }

  lemma LockKeeps(s: Sync, t: Thread, fromWait: bool)
    requires Inv(s) && t in s.at && t !in s.waitList && t !in s.waiters && (fromWait ==> s.owner != Some(t))
    ensures Inv(LockMutex(s, t, fromWait))
  {
    if s.locked == 0 { AcquireKeeps(s, t); }
  }

  lemma UnlockKeeps(s: Sync, t: Thread)
    requires Inv(s) && !SelfLocked(s, t)
    ensures Inv(UnlockMutex(s, t))
    ensures s.owner == Some(t) ==> UnlockMutex(s, t).locked == 0
  {
    if s.owner == Some(t) && s.waitList != [] {
      TailMembers(s.waitList);
      assert s.waitList[0] in s.waitList;
    }
  }

  lemma SignalKeeps(s: Sync)
    requires Inv(s)
    ensures Inv(SignalCond(s))
  {
    if s.waiters != [] {
      TailMembers(s.waiters);
      assert s.waiters[0] in s.waiters;
    }
  }

  lemma BroadcastKeeps(s: Sync)
    requires Inv(s)
    ensures Inv(BroadcastCond(s))
  {
  }

  /** An awake thread is on neither list. */
  lemma AwakeIsUnlinked(s: Sync, t: Thread, call: Call)
    requires Inv(s) && Enabled(s, t, call)
    ensures t !in s.waitList && t !in s.waiters
  {
  }

  lemma WaitKeeps(s: Sync, t: Thread)
    requires Inv(s) && t in s.at && (s.at[t] == Outside || s.at[t] == Holding)
    ensures Inv(WaitCond(s, t))
  {
    UnlockThenList(s, t);
    UnlockKeeps(s, t);
  }

  /** Joining the waiter list first and unlocking second comes to the same as the other order. */
  lemma UnlockThenList(s: Sync, t: Thread)
    ensures UnlockMutex(s.(waiters := s.waiters + [t]), t) == UnlockMutex(s, t).(waiters := s.waiters + [t])
    ensures UnlockMutex(s, t).waiters == s.waiters
  {
  }

  lemma ResumeKeeps(s: Sync, t: Thread)
    requires Inv(s) && Enabled(s, t, Resume)
    ensures Inv(Step(s, t, Resume))
  {
    AwakeIsUnlinked(s, t, Resume);
    WithoutMembers(s.waitList, t);
    WithoutMembers(s.waiters, t);
    if s.at[t].InLock? {
      if s.locked == 0 { AcquireKeeps(s, t); }
    } else {
      LockKeeps(s, t, true);
    }
  }

  lemma StepKeeps(s: Sync, t: Thread, call: Call)
    requires Inv(s) && Enabled(s, t, call)
    ensures Inv(Step(s, t, call))
  {
    AwakeIsUnlinked(s, t, call);
    match call
    case Lock => LockKeeps(s, t, false);
    case Trylock => if s.locked == 0 { AcquireKeeps(s, t); }
    case Unlock => UnlockKeeps(s, t);
    case Wait => WaitKeeps(s, t);
    case Signal => SignalKeeps(s);
    case Broadcast => BroadcastKeeps(s);
    case Resume => ResumeKeeps(s, t);
  }

  /** The invariant holds after every run. */
  lemma {:induction false} RunSafe(threads: set<Thread>, moves: seq<Move>)
    ensures Inv(Exec(Start(threads), moves))
  {
    if moves != [] {
      RunSafe(threads, moves[..|moves| - 1]);
      var r, m := Exec(Start(threads), moves[..|moves| - 1]), moves[|moves| - 1];
      if Enabled(r, m.t, m.call) { StepKeeps(r, m.t, m.call); }
    }
  }

  /** At most one thread holds the mutex, and it is locked exactly while one does or its owner waits for itself. */
  lemma MutualExclusion(threads: set<Thread>, moves: seq<Move>, t: Thread, u: Thread)
    ensures var s := Exec(Start(threads), moves);
            && (t in s.at && u in s.at && s.at[t] == Holding && s.at[u] == Holding ==> t == u)
            && (s.locked == 1 <==> exists h :: h in s.at && (s.at[h] == Holding || SelfLocked(s, h)))
  {
    RunSafe(threads, moves);
  }

  // ---- who gets the mutex ----------------------------------------------------------

  /** The whole effect of `mutex_lock` and `mutex_trylock` on a thread that makes the call. */
  lemma LockTakesIff(s: Sync, t: Thread)
    requires Inv(s) && Enabled(s, t, Lock)
    ensures var s' := Step(s, t, Lock);
            if s.locked == 0
            then s' == s.(locked := 1, owner := Some(t), at := s.at[t := Holding])
            else s' == s.(waitList := s.waitList + [t], at := s.at[t := InLock(false, true)])
    ensures Step(s, t, Trylock) == if s.locked == 0 then Step(s, t, Lock) else s
  {
  }

  /** A thread that comes out of the sleep of `condvar_wait` takes a free mutex and else waits for it. */
  lemma WaitResumesIff(s: Sync, t: Thread)
    requires Inv(s) && Enabled(s, t, Resume) && s.at[t].InWait?
    ensures var s' := Step(s, t, Resume);
            if s.locked == 0
            then s' == s.(locked := 1, owner := Some(t), at := s.at[t := Holding])
            else s' == s.(waitList := s.waitList + [t], at := s.at[t := InLock(true, true)])
  {
    AwakeIsUnlinked(s, t, Resume);
    WithoutAbsent(s.waiters, t);
  }

  /** The threads that went to sleep in `mutex_lock` during a run, in the order in which they did. */
  function Sleepers(s: Sync, moves: seq<Move>): seq<Thread>
  {
    if moves == [] then []
    else
      var before, m := moves[..|moves| - 1], moves[|moves| - 1];
      var r, r' := Exec(s, before), Exec(s, moves);
      Sleepers(s, before) +
      if m.t in r.at && m.t in r'.at && !r.at[m.t].InLock? && r'.at[m.t].InLock? then [m.t] else []
  }

  /** How many times during a run an owner gave up the mutex while a thread was listed. */
  function Releases(s: Sync, moves: seq<Move>): nat
  {
    if moves == [] then 0
    else
      var before, m := moves[..|moves| - 1], moves[|moves| - 1];
      var r, r' := Exec(s, before), Exec(s, moves);
      Releases(s, before) + if r.owner == Some(m.t) && r'.owner != Some(m.t) && r.waitList != [] then 1 else 0
  }

  /** How one step changes the wait list: a thread that falls asleep appends itself, a release takes off the first. */
  lemma StepWaitList(s: Sync, t: Thread, call: Call)
    requires Inv(s) && Enabled(s, t, call)
    ensures var s' := Step(s, t, call);
            && t in s'.at && !(s.owner == Some(t) && s'.owner != Some(t) && s'.at[t].InLock?)
            && s'.waitList == if !s.at[t].InLock? && s'.at[t].InLock? then s.waitList + [t]
                              else if s.owner == Some(t) && s'.owner != Some(t) && s.waitList != [] then s.waitList[1..]
                              else s.waitList
  {
    AwakeIsUnlinked(s, t, call);
    WithoutAbsent(s.waitList, t);
    UnlockThenList(s, t);
  }

  /** In every run the wait list is first in, first out: all who fell asleep, in order, less one for each release. */
  lemma {:induction false} SleepersFifo(threads: set<Thread>, moves: seq<Move>)
    ensures var s0 := Start(threads);
            && Releases(s0, moves) <= |Sleepers(s0, moves)|
            && Exec(s0, moves).waitList == Sleepers(s0, moves)[Releases(s0, moves)..]
  {
    if moves != [] {
      var s0, before, m := Start(threads), moves[..|moves| - 1], moves[|moves| - 1];
      SleepersFifo(threads, before);
      RunSafe(threads, before);
      var r, a, d := Exec(s0, before), Sleepers(s0, before), Releases(s0, before);
      assert (a + [m.t])[d..] == a[d..] + [m.t] && a + [] == a;
      if Enabled(r, m.t, m.call) { StepWaitList(r, m.t, m.call); }
    }
  }

  /**
   In every run a release by the owner, whether `mutex_unlock` or the one inside `condvar_wait`,
   leaves the mutex free and readies exactly the listed thread that fell asleep first, and nobody else.
   */
  lemma ReleaseWakesOldest(threads: set<Thread>, moves: seq<Move>, t: Thread, call: Call, u: Thread)
    requires var s := Exec(Start(threads), moves);
             Enabled(s, t, call) && (call == Unlock || call == Wait) && s.owner == Some(t) && u in s.at && u != t
    ensures var s, d := Exec(Start(threads), moves), Releases(Start(threads), moves);
            var slept := Sleepers(Start(threads), moves);
            var s' := Step(s, t, call);
            && s'.locked == 0 && s'.owner == None && u in s'.at && t in s'.at && d <= |slept|
            && s'.at[t] == (if call == Unlock then Outside else InWait(true))
            && s'.waitList == (if d == |slept| then [] else slept[d + 1..])
            && (d < |slept| && u == slept[d] ==>
                  s.at[u].InLock? && s.at[u].asleep && s'.at[u] == InLock(s.at[u].fromWait, false))
            && (d == |slept| || u != slept[d] ==> s'.at[u] == s.at[u])
  {
    SleepersFifo(threads, moves);
    RunSafe(threads, moves);
    var s := Exec(Start(threads), moves);
    UnlockThenList(s, t);
    if s.waitList != [] { assert s.waitList[0] in s.waitList; }
  }

  /** An unlock by anyone else does nothing. */
  lemma ForeignUnlock(s: Sync, t: Thread)
    requires Enabled(s, t, Unlock) && s.owner != Some(t)
    ensures Step(s, t, Unlock) == s
  {
  }

  // ---- locking twice ---------------------------------------------------------------

  /** `mutex_lock` makes its caller wait for itself exactly when the caller already holds the mutex. */
  lemma SelfLockIff(s: Sync, t: Thread)
    requires Inv(s) && Enabled(s, t, Lock)
    ensures SelfLocked(Step(s, t, Lock), t) <==> s.at[t] == Holding
  {
  }

  lemma StepKeepsSelfLocked(s: Sync, m: Move, t: Thread)
    requires Inv(s) && Enabled(s, m.t, m.call) && SelfLocked(s, t)
    ensures SelfLocked(Step(s, m.t, m.call), t)
  {
    if m.call == Wait { UnlockThenList(s, m.t); }
  }

  /** Then the mutex stays locked and nobody ever holds it again, in any continuation of the run. */
  lemma {:induction false} SelfLockedForever(s: Sync, moves: seq<Move>, t: Thread)
    requires Inv(s) && SelfLocked(s, t)
    ensures var s' := Exec(s, moves);
            Inv(s') && SelfLocked(s', t) && s'.locked == 1 && forall u :: u in s'.at ==> s'.at[u] != Holding
  {
    if moves != [] {
      SelfLockedForever(s, moves[..|moves| - 1], t);
      var r, m := Exec(s, moves[..|moves| - 1]), moves[|moves| - 1];
      if Enabled(r, m.t, m.call) {
        StepKeeps(r, m.t, m.call);
        StepKeepsSelfLocked(r, m, t);
      }
    }
  }

  // ---- the condition variable ------------------------------------------------------

  /** A thread that was in `condvar_wait` and now is not, owns the mutex and is on no list. */
  lemma WaitReturnsOwner(s: Sync, m: Move, t: Thread)
    requires Inv(s) && Enabled(s, m.t, m.call) && t in s.at
    requires s.at[t].InWait? || (s.at[t].InLock? && s.at[t].fromWait)
    ensures var s' := Step(s, m.t, m.call);
            && t in s'.at
            && (!(s'.at[t].InWait? || (s'.at[t].InLock? && s'.at[t].fromWait)) ==>
                  s'.owner == Some(t) && s'.locked == 1 && t !in s'.waitList && t !in s'.waiters)
  {
    StepKeeps(s, m.t, m.call);
    if m.t != t && m.call == Wait { UnlockThenList(s, m.t); }
  }

  /** The threads that began to wait during a run, in the order in which they did. */
  function Arrivals(s: Sync, moves: seq<Move>): seq<Thread>
  {
    if moves == [] then []
    else
      var before := moves[..|moves| - 1];
      var r, m := Exec(s, before), moves[|moves| - 1];
      Arrivals(s, before) + if Enabled(r, m.t, m.call) && m.call == Wait then [m.t] else []
  }

  /** How many waiters the signals and broadcasts of a run took off the list. */
  function Departures(s: Sync, moves: seq<Move>): nat
  {
    if moves == [] then 0
    else
      var before := moves[..|moves| - 1];
      var r, m := Exec(s, before), moves[|moves| - 1];
      Departures(s, before) +
      if !Enabled(r, m.t, m.call) then 0
      else if m.call == Broadcast then |r.waiters|
      else if m.call == Signal && r.waiters != [] then 1
      else 0
  }

  /** How one step changes the waiter list: only a wait appends, only signal and broadcast take off, at the front. */
  lemma StepWaiters(s: Sync, t: Thread, call: Call)
    requires Inv(s) && Enabled(s, t, call)
    ensures Step(s, t, call).waiters ==
            if call == Wait then s.waiters + [t]
            else if call == Broadcast then []
            else if call == Signal && s.waiters != [] then s.waiters[1..]
            else s.waiters
  {
    AwakeIsUnlinked(s, t, call);
    WithoutAbsent(s.waiters, t);
    UnlockThenList(s, t);
  }

  /** In every run the waiter list is first in, first out: all who arrived, in order, less those who left first. */
  lemma {:induction false} WaitersFifo(threads: set<Thread>, moves: seq<Move>)
    ensures var s0 := Start(threads);
            && Departures(s0, moves) <= |Arrivals(s0, moves)|
            && Exec(s0, moves).waiters == Arrivals(s0, moves)[Departures(s0, moves)..]
  {
    if moves != [] {
      var s0, before, m := Start(threads), moves[..|moves| - 1], moves[|moves| - 1];
      WaitersFifo(threads, before);
      RunSafe(threads, before);
      var r, a, d := Exec(s0, before), Arrivals(s0, before), Departures(s0, before);
      if Enabled(r, m.t, m.call) {
        StepWaiters(r, m.t, m.call);
        assert m.call == Wait ==> (a + [m.t])[d..] == a[d..] + [m.t];
        assert a + [] == a;
      }
    }
  }

  /** In every run a signal readies exactly the waiter that arrived first among those still waiting, and nobody else. */
  lemma SignalWakesOldest(threads: set<Thread>, moves: seq<Move>, t: Thread, u: Thread)
    requires var s := Exec(Start(threads), moves); Enabled(s, t, Signal) && u in s.at
    ensures var s, d := Exec(Start(threads), moves), Departures(Start(threads), moves);
            var arrived := Arrivals(Start(threads), moves);
            var s' := Step(s, t, Signal);
            if d == |arrived| then s' == s
            else
              && d < |arrived| && s'.waiters == arrived[d + 1..] && u in s'.at
              && (u == arrived[d] ==> s.at[u] == InWait(true) && s'.at[u] == InWait(false))
              && (u != arrived[d] ==> s'.at[u] == s.at[u])
  {
    WaitersFifo(threads, moves);
    RunSafe(threads, moves);
    var s := Exec(Start(threads), moves);
    if s.waiters != [] { assert s.waiters[0] in s.waiters; }
  }

  /** A broadcast over `n` waiters empties the list and wakes exactly the first min(n, 32). */
  lemma BroadcastWakes(s: Sync, i: nat)
    requires Inv(s) && i < |s.waiters|
    ensures var s' := BroadcastCond(s);
            && s'.waiters == [] && s.waiters[i] in s'.at
            && (s'.at[s.waiters[i]] == InWait(false) <==> i < BROADCAST_MAX)
            && (s'.at[s.waiters[i]] == InWait(true) <==> i >= BROADCAST_MAX)
  {
    var n := if |s.waiters| <= BROADCAST_MAX then |s.waiters| else BROADCAST_MAX;
    assert s.waiters[i] in s.waiters;
    if i < n { assert s.waiters[..n][i] == s.waiters[i]; }
    if i >= n { assert s.waiters[i] !in s.waiters[..n]; }
  }

  /** A broadcast wakes every waiter if and only if there are at most 32 of them. */
  lemma BroadcastWakesAllIff(s: Sync)
    requires Inv(s)
    ensures (forall t :: t in s.waiters ==> BroadcastCond(s).at[t] == InWait(false)) <==> |s.waiters| <= BROADCAST_MAX
  {
    if |s.waiters| <= BROADCAST_MAX {
      forall t | t in s.waiters ensures BroadcastCond(s).at[t] == InWait(false) {
        var i :| 0 <= i < |s.waiters| && s.waiters[i] == t;
        BroadcastWakes(s, i);
      }
    } else {
      BroadcastWakes(s, BROADCAST_MAX);
      assert s.waiters[BROADCAST_MAX] in s.waiters;
    }
  }

  // ---- threads that are never woken ------------------------------------------------

  /** A sleeping thread that is on neither list: nothing refers to it any more. */
  predicate Lost(s: Sync, t: Thread)
  {
    && t in s.at && t !in s.waitList && t !in s.waiters
    && (s.at[t].InLock? || s.at[t].InWait?) && s.at[t].asleep
  }

  lemma StepKeepsLost(s: Sync, m: Move, t: Thread)
    requires Inv(s) && Enabled(s, m.t, m.call) && Lost(s, t)
    ensures Lost(Step(s, m.t, m.call), t)
  {
    if m.call == Wait { UnlockThenList(s, m.t); }
    WithoutMembers(s.waitList, m.t);
    WithoutMembers(s.waiters, m.t);
  }

  /** A lost thread is never woken, in any continuation of the run. */
  lemma {:induction false} LostForever(s: Sync, moves: seq<Move>, t: Thread)
    requires Inv(s) && Lost(s, t)
    ensures Inv(Exec(s, moves)) && Lost(Exec(s, moves), t)
  {
    if moves != [] {
      LostForever(s, moves[..|moves| - 1], t);
      var r, m := Exec(s, moves[..|moves| - 1]), moves[|moves| - 1];
      if Enabled(r, m.t, m.call) {
        StepKeeps(r, m.t, m.call);
        StepKeepsLost(r, m, t);
      }
    }
  }

  /**
   A woken mutex waiter gets the mutex if and only if nobody has taken it in between; otherwise
   it goes back to sleep off the list and is lost.
   */
  lemma WokenWaiterIff(s: Sync, t: Thread)
    requires Inv(s) && Enabled(s, t, Resume) && s.at[t].InLock?
    ensures Step(s, t, Resume).owner == Some(t) <==> s.locked == 0
    ensures Lost(Step(s, t, Resume), t) <==> s.locked != 0
  {
    AwakeIsUnlinked(s, t, Resume);
  }

  /** A broadcast loses exactly the waiters beyond the 32nd. */
  lemma BroadcastLosesIff(s: Sync, i: nat)
    requires Inv(s) && i < |s.waiters|
    ensures Lost(BroadcastCond(s), s.waiters[i]) <==> i >= BROADCAST_MAX
  {
    BroadcastWakes(s, i);
    assert s.waiters[i] in s.waiters;
  }

  // ---- such states are reachable ---------------------------------------------------

  lemma {:induction false} ExecConcat(s: Sync, a: seq<Move>, b: seq<Move>)
    ensures Exec(s, a + b) == Exec(Exec(s, a), b)
  {
    if b == [] {
      assert a + b == a;
    } else {
      ExecConcat(s, a, b[..|b| - 1]);
      assert (a + b)[..|a + b| - 1] == a + b[..|b| - 1];
    }
  }

  lemma ExecOne(s: Sync, m: Move)
    ensures Exec(s, [m]) == if Enabled(s, m.t, m.call) then Step(s, m.t, m.call) else s
  {
    assert [m][..0] == [];
  }

  /** One thread more waits on the condition variable. */
  lemma OneMoreWaits(s: Sync, t: Thread)
    requires Inv(s) && s.locked == 0 && s.waitList == [] && t in s.at && s.at[t] == Outside
    ensures var s' := Exec(s, [Move(t, Lock), Move(t, Wait)]);
            && Inv(s') && s'.locked == 0 && s'.waitList == [] && s'.waiters == s.waiters + [t]
            && s'.at == s.at[t := InWait(true)]
  {
    var s1 := Step(s, t, Lock);
    StepKeeps(s, t, Lock);
    StepKeeps(s1, t, Wait);
    ExecOne(s, Move(t, Lock));
    ExecOne(s1, Move(t, Wait));
    ExecConcat(s, [Move(t, Lock)], [Move(t, Wait)]);
    assert [Move(t, Lock)] + [Move(t, Wait)] == [Move(t, Lock), Move(t, Wait)];
    assert s1.at[t := Outside][t := InWait(true)] == s.at[t := InWait(true)];
  }

  /** Any number of threads can be waiting on the condition variable at once. */
  lemma {:induction false} ManyWait(n: nat, threads: set<Thread>) returns (moves: seq<Move>)
    requires forall t: nat :: t < n ==> t in threads
    ensures var s := Exec(Start(threads), moves);
            && Inv(s) && s.locked == 0 && s.waitList == [] && |s.waiters| == n
            && forall t :: t in threads && t >= n ==> t in s.at && s.at[t] == Outside
  {
    if n == 0 {
      moves := [];
    } else {
      var before := ManyWait(n - 1, threads);
      var s := Exec(Start(threads), before);
      ExecKeepsThreads(Start(threads), before);
      OneMoreWaits(s, n - 1);
      moves := before + [Move(n - 1, Lock), Move(n - 1, Wait)];
      ExecConcat(Start(threads), before, [Move(n - 1, Lock), Move(n - 1, Wait)]);
    }
  }

  lemma {:induction false} ExecKeepsThreads(s: Sync, moves: seq<Move>)
    ensures s.at.Keys <= Exec(s, moves).at.Keys
  {
    if moves != [] { ExecKeepsThreads(s, moves[..|moves| - 1]); }
  }

  /** Thread 1 holds the mutex and thread 2 sleeps on its list. */
  const ONE_HOLDS := Sync(1, Some(1), [2], [], map[1 := Holding, 2 := InLock(false, true), 3 := Outside])

  /** Thread 2 was woken, but thread 3 took the mutex first. */
  const THREE_HOLDS := Sync(1, Some(3), [], [], map[1 := Outside, 2 := InLock(false, false), 3 := Holding])

  lemma TwoSleeps()
    ensures Exec(Start({1, 2, 3}), [Move(1, Lock), Move(2, Lock)]) == ONE_HOLDS
  {
    var s0 := Start({1, 2, 3});
    ExecTwo(s0, Move(1, Lock), Move(2, Lock));
    assert [] + [2] == [2];
    assert s0.at[1 := Holding][2 := InLock(false, true)] == ONE_HOLDS.at;
  }

  lemma ThreeIsFaster()
    ensures Exec(ONE_HOLDS, [Move(1, Unlock), Move(3, Lock)]) == THREE_HOLDS
  {
    ExecTwo(ONE_HOLDS, Move(1, Unlock), Move(3, Lock));
    assert Step(ONE_HOLDS, 1, Unlock).at[3 := Holding] == THREE_HOLDS.at;
  }

  /** A run of three mutex users loses a waiter although the mutex ends up free. */
  lemma LostWaiterReachable() returns (moves: seq<Move>)
    ensures var s := Exec(Start({1, 2, 3}), moves); Lost(s, 2) && s.locked == 0 && s.owner == None
  {
    var s0 := Start({1, 2, 3});
    var a, b := [Move(1, Lock), Move(2, Lock)], [Move(1, Unlock), Move(3, Lock)];
    var c := [Move(2, Resume), Move(3, Unlock)];
    TwoSleeps();
    ThreeIsFaster();
    ExecTwo(THREE_HOLDS, Move(2, Resume), Move(3, Unlock));
    ExecConcat(s0, a, b);
    ExecConcat(s0, a + b, c);
    moves := a + b + c;
  }

  lemma ExecTwo(s: Sync, m: Move, n: Move)
    requires Enabled(s, m.t, m.call) && Enabled(Step(s, m.t, m.call), n.t, n.call)
    ensures Exec(s, [m, n]) == Step(Step(s, m.t, m.call), n.t, n.call)
  {
    assert [m, n][..1] == [m];
    ExecOne(s, m);
  }

  // ---- the loops of the condition variable -----------------------------------------

  lemma WakeOneMore(at: map<Thread, Place>, ts: seq<Thread>, t: Thread)
    ensures WakeAll(at, ts + [t]) ==
            if t in at then WakeAll(at, ts)[t := Awake(WakeAll(at, ts)[t])] else WakeAll(at, ts)
  {
    var all := ts + [t];
    assert forall x :: x in all <==> x in ts || x == t;
  }

  lemma WakeOne(at: map<Thread, Place>, t: Thread)
    ensures WakeAll(at, [t]) == if t in at then at[t := Awake(at[t])] else at
  {
  }

  class CondVar {
    var waiters: seq<Thread>
    var at: map<Thread, Place>

    /** `wake_up` on the private wait queue of thread `t`, on which only `t` can sleep. */
    method WakeUp(t: Thread)
      modifies this`at
      ensures at == if t in old(at) then old(at)[t := Awake(old(at)[t])] else old(at)
    {
      if t in at { at := at[t := Awake(at[t])]; }
    }

    /** `condvar_signal`. */
    method CondSignal(ghost s: Sync)
      requires waiters == s.waiters && at == s.at
      modifies this
      ensures waiters == SignalCond(s).waiters && at == SignalCond(s).at
    {
      if waiters != [] {
        var first := waiters[0];
        waiters := waiters[1..];
        WakeUp(first);
        WakeOne(s.at, first);
      }
    }

    /** The first loop of `condvar_broadcast`: unlink every waiter, keep the first 32. */
    method Collect(wqs: array<Thread>) returns (count: nat)
      requires wqs.Length == BROADCAST_MAX
      modifies this`waiters, wqs
      ensures waiters == [] && count <= BROADCAST_MAX && count <= |old(waiters)|
      ensures count == BROADCAST_MAX || count == |old(waiters)|
      ensures wqs[..count] == old(waiters)[..count]
    {
      count := 0;
      ghost var done := [];
      while waiters != []
        invariant old(waiters) == done + waiters
        invariant count == if |done| <= BROADCAST_MAX then |done| else BROADCAST_MAX
        invariant forall i :: 0 <= i < count ==> wqs[i] == done[i]
        decreases |waiters|
      {
        var w := waiters[0];
        waiters := waiters[1..];
        if count < BROADCAST_MAX {
          wqs[count] := w;
          count := count + 1;
        }
        done := done + [w];
      }
      assert done + [] == done;
    }

    /** `condvar_broadcast`. */
    method CondBroadcast(ghost s: Sync)
      requires waiters == s.waiters && at == s.at
      modifies this
      ensures waiters == BroadcastCond(s).waiters && at == BroadcastCond(s).at
    {
      var wqs := new Thread[BROADCAST_MAX](_ => 0);
      var count := Collect(wqs);
      assert WakeAll(s.at, s.waiters[..0]) == s.at;
      for i := 0 to count
        invariant waiters == [] && wqs[..count] == s.waiters[..count]
        invariant at == WakeAll(s.at, s.waiters[..i])
      {
        WakeOneMore(s.at, s.waiters[..i], s.waiters[i]);
        assert wqs[i] == wqs[..count][i] == s.waiters[i];
        assert s.waiters[..i + 1] == s.waiters[..i] + [s.waiters[i]];
        WakeUp(wqs[i]);
      }
    }
  }
}
