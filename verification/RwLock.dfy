/**
 The read-write lock (kernel/sync/rwlock.c) under every interleaving of any number of threads.
 One step is one atomic operation, or one acquisition or release of the internal spinlock;
 operations that do not take the spinlock may run while another thread is inside it.
 */
module RwLock {
  import opened Common
  import opened TaskQueues

  type Thread = Tid

  /** Where a thread is: between calls, holding the lock, or before the named operation. */
  datatype Pc =
    | Idle | Reading | Writing
    | RlSpin | RlLock | RlInc | RlUnlock
    | RtCheck | RtLock | RtRecheck | RtInc | RtUnlock | RtFail
    | WlLock | WlCheck | WlBackoff | WlInc | WlUnlock | WlDrain
    | WtLock | WtCheckWriters | WtCheckReaders | WtInc | WtUnlock | WtFail
    | DgDec

  datatype Call = ReadLock | ReadTrylock | WriteLock | WriteTrylock | Unlock | Downgrade

  datatype Rw = Rw(readers: int, writers: int, spin: Option<Thread>, pc: map<Thread, Pc>)

  /** `rwlock_init`, with every thread outside. */
  function Start(threads: set<Thread>): Rw
  {
    Rw(0, 0, None, map t | t in threads :: Idle)
  }

  // ---- one step --------------------------------------------------------------------

  /** What an operation does to the lock words, and where it leaves the thread. */
  datatype Effect = Effect(readers: int, writers: int, spin: Option<Thread>, pc: Pc)

  /** Take the spinlock and go on to `next`, or keep spinning at `pc`. */
  function Enter(readers: int, writers: int, spin: Option<Thread>, pc: Pc, t: Thread, next: Pc): Effect
  {
    if spin.None? then Effect(readers, writers, Some(t), next) else Effect(readers, writers, spin, pc)
  }

  function Act(readers: int, writers: int, spin: Option<Thread>, pc: Pc, t: Thread, call: Call): Effect
  {
    match pc
    case Idle => (match call
                  case ReadLock => Effect(readers, writers, spin, RlSpin)
                  case ReadTrylock => Effect(readers, writers, spin, RtCheck)
                  case WriteLock => Effect(readers, writers, spin, WlLock)
                  case WriteTrylock => Effect(readers, writers, spin, WtLock)
                  case Unlock => Effect(readers, writers, spin, Idle)
                  case Downgrade => Effect(readers, writers, spin, Idle))
    // rwlock_read_unlock
    case Reading =>
      if call == Unlock then Effect(readers - 1, writers, spin, Idle) else Effect(readers, writers, spin, Reading)
    // rwlock_write_unlock and the first half of rwlock_write_downgrade
    case Writing => if call == Unlock then Effect(readers, writers - 1, spin, Idle)
                    else if call == Downgrade then Effect(readers + 1, writers, spin, DgDec)
                    else Effect(readers, writers, spin, Writing)
    case DgDec => Effect(readers, writers - 1, spin, Reading)
    // rwlock_read_lock
    case RlSpin => Effect(readers, writers, spin, if writers > 0 then RlSpin else RlLock)
    case RlLock => Enter(readers, writers, spin, pc, t, RlInc)
    case RlInc => Effect(readers + 1, writers, spin, RlUnlock)
    case RlUnlock => Effect(readers, writers, None, Reading)
    // rwlock_read_trylock
    case RtCheck => Effect(readers, writers, spin, if writers > 0 then Idle else RtLock)
    case RtLock => Enter(readers, writers, spin, pc, t, RtRecheck)
    case RtRecheck => Effect(readers, writers, spin, if writers > 0 then RtFail else RtInc)
    case RtInc => Effect(readers + 1, writers, spin, RtUnlock)
    case RtUnlock => Effect(readers, writers, None, Reading)
    case RtFail => Effect(readers, writers, None, Idle)
    // rwlock_write_lock
    case WlLock => Enter(readers, writers, spin, pc, t, WlCheck)
    case WlCheck => Effect(readers, writers, spin, if writers > 0 then WlBackoff else WlInc)
    case WlBackoff => Effect(readers, writers, None, WlLock)
    case WlInc => Effect(readers, writers + 1, spin, WlUnlock)
    case WlUnlock => Effect(readers, writers, None, WlDrain)
    case WlDrain => Effect(readers, writers, spin, if readers > 0 then WlDrain else Writing)
    // rwlock_write_trylock
    case WtLock => Enter(readers, writers, spin, pc, t, WtCheckWriters)
    case WtCheckWriters => Effect(readers, writers, spin, if writers > 0 then WtFail else WtCheckReaders)
    case WtCheckReaders => Effect(readers, writers, spin, if readers > 0 then WtFail else WtInc)
    case WtInc => Effect(readers, writers + 1, spin, WtUnlock)
    case WtUnlock => Effect(readers, writers, None, Writing)
    case WtFail => Effect(readers, writers, None, Idle)
  }

  function Step(s: Rw, t: Thread, call: Call): Rw
    requires t in s.pc
  {
    var e := Act(s.readers, s.writers, s.spin, s.pc[t], t, call);
    Rw(e.readers, e.writers, e.spin, s.pc[t := e.pc])
  }

  /** An interleaving: which thread moves, and the call it makes if it is between calls. */
  datatype Move = Move(t: Thread, call: Call)

  function Exec(s: Rw, moves: seq<Move>): Rw
  {
    if moves == [] then s
    else
      var r := Exec(s, moves[..|moves| - 1]);
      var m := moves[|moves| - 1];
      if m.t in r.pc then Step(r, m.t, m.call) else r
  }

  // ---- who counts as what ----------------------------------------------------------

  predicate CountsAsReader(pc: Pc) { pc.RlUnlock? || pc.RtUnlock? || pc.Reading? || pc.DgDec? }

  predicate CountsAsWriter(pc: Pc) { pc.WlUnlock? || pc.WlDrain? || pc.WtUnlock? || pc.Writing? || pc.DgDec? }

  /** The writer has been promised exclusive access. */
  predicate HasWrite(pc: Pc) { pc.WtUnlock? || pc.Writing? }

  predicate InSpinlock(pc: Pc)
  {
    pc.RlInc? || pc.RlUnlock? || pc.RtRecheck? || pc.RtInc? || pc.RtUnlock? || pc.RtFail?
    || pc.WlCheck? || pc.WlBackoff? || pc.WlInc? || pc.WlUnlock? 
    || pc.WtCheckWriters? || pc.WtCheckReaders? || pc.WtInc? || pc.WtUnlock? || pc.WtFail?
  }

  /** Past the check that there is no writer, still inside the spinlock. */
  predicate SawNoWriter(pc: Pc) { pc.RtInc? || pc.WlInc? || pc.WtCheckReaders? || pc.WtInc? }

  predicate InReadLock(pc: Pc) { pc.RlSpin? || pc.RlLock? || pc.RlInc? || pc.RlUnlock? }

  ghost function Readers(pc: map<Thread, Pc>): set<Thread>
  {
    set t | t in pc && CountsAsReader(pc[t])
  }

  ghost function Writers(pc: map<Thread, Pc>): set<Thread>
  {
    set t | t in pc && CountsAsWriter(pc[t])
  }

  /** Both counters are exact, at most one thread counts as a writer, and checks made inside the spinlock stay true. */
  ghost predicate Inv(s: Rw)
  {
    && s.readers == |Readers(s.pc)|
    && s.writers == |Writers(s.pc)| <= 1
    && (forall t :: t in s.pc ==> (InSpinlock(s.pc[t]) <==> s.spin == Some(t)))
    && (forall t :: t in s.pc && SawNoWriter(s.pc[t]) ==> s.writers == 0)
    && (forall t :: t in s.pc && s.pc[t] == WtInc ==> s.readers == 0)
  }

  /** No thread counts as a reader while a writer has been promised exclusive access. */
  ghost predicate Exclusive(s: Rw)
  {
    forall t, u :: t in s.pc && u in s.pc && HasWrite(s.pc[t]) ==> !CountsAsReader(s.pc[u])
  }

  ghost predicate NoReadLock(s: Rw)
  {
    forall t :: t in s.pc ==> !InReadLock(s.pc[t])
  }

  // ---- every step keeps the counters -----------------------------------------------

  lemma ReadersUpdate(pc: map<Thread, Pc>, t: Thread, p: Pc)
    requires t in pc
    ensures |Readers(pc[t := p])| == |Readers(pc)| + One(CountsAsReader(p)) - One(CountsAsReader(pc[t]))
  {
    assert Readers(pc[t := p]) == if CountsAsReader(p) then Readers(pc) + {t} else Readers(pc) - {t};
    CardUpdate(Readers(pc), t);
  }

  lemma WritersUpdate(pc: map<Thread, Pc>, t: Thread, p: Pc)
    requires t in pc
    ensures |Writers(pc[t := p])| == |Writers(pc)| + One(CountsAsWriter(p)) - One(CountsAsWriter(pc[t]))
  {
    assert Writers(pc[t := p]) == if CountsAsWriter(p) then Writers(pc) + {t} else Writers(pc) - {t};
    CardUpdate(Writers(pc), t);
  }

  lemma CardUpdate(s: set<Thread>, t: Thread)
    ensures |s + {t}| == |s| + if t in s then 0 else 1
    ensures |s - {t}| == |s| - if t in s then 1 else 0
  {
    if t in s { assert s + {t} == s; } else { assert s - {t} == s; }
  }

  lemma WriterCounted(s: Rw, t: Thread)
    requires Inv(s) && t in s.pc && CountsAsWriter(s.pc[t])
    ensures s.writers == 1
    ensures forall u :: u in s.pc && CountsAsWriter(s.pc[u]) ==> u == t
  {
    assert t in Writers(s.pc);
    forall u | u in s.pc && CountsAsWriter(s.pc[u]) ensures u == t {
      if u != t {
        assert {t, u} <= Writers(s.pc);
        CardUpdate(Writers(s.pc), t);
      }
    }
  }

  lemma ReaderCounted(s: Rw, t: Thread)
    requires Inv(s) && t in s.pc && CountsAsReader(s.pc[t])
    ensures s.readers >= 1
  {
    assert t in Readers(s.pc);
  }

  function One(b: bool): int { if b then 1 else 0 }

  /** Each operation moves the counters exactly as it moves its thread in and out of the two groups. */
  lemma ActCounts(readers: int, writers: int, spin: Option<Thread>, pc: Pc, t: Thread, call: Call)
    ensures var e := Act(readers, writers, spin, pc, t, call);
            && e.readers == readers + One(CountsAsReader(e.pc)) - One(CountsAsReader(pc))
            && e.writers == writers + One(CountsAsWriter(e.pc)) - One(CountsAsWriter(pc))
  {
  }

  /** A thread takes only a free spinlock and releases only its own. */
  lemma ActSpin(readers: int, writers: int, spin: Option<Thread>, pc: Pc, t: Thread, call: Call)
    requires InSpinlock(pc) <==> spin == Some(t)
    ensures var e := Act(readers, writers, spin, pc, t, call);
            && (InSpinlock(e.pc) <==> e.spin == Some(t))
            && forall u :: u != t ==> (e.spin == Some(u) <==> spin == Some(u))
  {
  }

  /** What a thread may rely on inside the spinlock. */
  lemma ActChecks(readers: int, writers: int, spin: Option<Thread>, pc: Pc, t: Thread, call: Call)
    requires readers >= 0 && writers >= 0
    requires SawNoWriter(pc) ==> writers == 0
    requires pc == WtInc ==> readers == 0
    ensures var e := Act(readers, writers, spin, pc, t, call);
            && (SawNoWriter(e.pc) ==> e.writers == 0)
            && (e.pc == WtInc ==> e.readers == 0)
            && (e.writers > writers ==> writers == 0 && InSpinlock(pc))
            && (e.readers > readers ==> InSpinlock(pc) || CountsAsWriter(pc))
  {
  }

  lemma StepCounts(s: Rw, t: Thread, call: Call)
    requires Inv(s) && t in s.pc
    ensures var s' := Step(s, t, call);
            s'.readers == |Readers(s'.pc)| && s'.writers == |Writers(s'.pc)| <= 1
  {
    ReadersUpdate(s.pc, t, Step(s, t, call).pc[t]);
    WritersUpdate(s.pc, t, Step(s, t, call).pc[t]);
    ActCounts(s.readers, s.writers, s.spin, s.pc[t], t, call);
    ActChecks(s.readers, s.writers, s.spin, s.pc[t], t, call);
  }

  lemma StepSpin(s: Rw, t: Thread, call: Call)
    requires Inv(s) && t in s.pc
    ensures var s' := Step(s, t, call); forall u :: u in s'.pc ==> (InSpinlock(s'.pc[u]) <==> s'.spin == Some(u))
  {
    ActSpin(s.readers, s.writers, s.spin, s.pc[t], t, call);
  }

  /** What another thread found out inside the spinlock cannot be changed by this step. */
  lemma StepChecks(s: Rw, t: Thread, call: Call, u: Thread)
    requires Inv(s) && t in s.pc && u in s.pc
    ensures var s' := Step(s, t, call);
            && (SawNoWriter(s'.pc[u]) ==> s'.writers == 0)
            && (s'.pc[u] == WtInc ==> s'.readers == 0)
  {
    StepCounts(s, t, call);
    ActChecks(s.readers, s.writers, s.spin, s.pc[t], t, call);
    if CountsAsWriter(s.pc[t]) { WriterCounted(s, t); }
  }

  lemma StepKeeps(s: Rw, t: Thread, call: Call)
    requires Inv(s) && t in s.pc
    ensures Inv(Step(s, t, call))
  {
    StepCounts(s, t, call);
    StepSpin(s, t, call);
    forall u | u in s.pc
      ensures SawNoWriter(Step(s, t, call).pc[u]) ==> Step(s, t, call).writers == 0
      ensures Step(s, t, call).pc[u] == WtInc ==> Step(s, t, call).readers == 0
    {
      StepChecks(s, t, call, u);
    }
  }

  // ---- exclusion -------------------------------------------------------------------

  /** Everywhere but at the unchecked increment of `rwlock_read_lock`, a step keeps exclusion. */
  lemma StepExcludes(s: Rw, t: Thread, call: Call)
    requires Inv(s) && Exclusive(s) && t in s.pc && s.pc[t] != RlInc
    ensures Exclusive(Step(s, t, call))
  {
    hide Readers, Writers;
    var s' := Step(s, t, call);
    StepKeeps(s, t, call);
    forall x, u | x in s'.pc && u in s'.pc && HasWrite(s'.pc[x]) ensures !CountsAsReader(s'.pc[u]) {
      WriterCounted(s', x);
      if CountsAsReader(s'.pc[u]) {
        ReaderCounted(s', u);
        if x == t && u != t { ReaderCounted(s, u); }
        if x != t && u == t { WriterCounted(s, x); }
      }
    }
  }

  lemma StepNoReadLock(s: Rw, t: Thread, call: Call)
    requires NoReadLock(s) && t in s.pc && call != ReadLock
    ensures NoReadLock(Step(s, t, call))
  {
  }

  /** The unchecked increment keeps exclusion if and only if no writer has exclusive access yet. */
  lemma UncheckedIncrementIff(s: Rw, t: Thread, call: Call)
    requires Inv(s) && Exclusive(s) && t in s.pc && s.pc[t] == RlInc
    ensures Exclusive(Step(s, t, call)) <==> forall u :: u in s.pc ==> !HasWrite(s.pc[u])
  {
    var s' := Step(s, t, call);
    if u :| u in s.pc && HasWrite(s.pc[u]) {
      assert HasWrite(s'.pc[u]) && CountsAsReader(s'.pc[t]);
    } else {
      assert forall u :: u in s'.pc ==> !HasWrite(s'.pc[u]);
    }
  }

  // ---- whole runs ------------------------------------------------------------------

  lemma StartInv(threads: set<Thread>)
    ensures Inv(Start(threads)) && Exclusive(Start(threads)) && NoReadLock(Start(threads))
  {
    assert Readers(Start(threads).pc) == {} && Writers(Start(threads).pc) == {};
  }

  /** In every interleaving both counters are exact and at most one thread is a writer. */
  lemma {:induction false} RunSafe(threads: set<Thread>, moves: seq<Move>)
    ensures Inv(Exec(Start(threads), moves))
  {
    if moves == [] {
      StartInv(threads);
    } else {
      RunSafe(threads, moves[..|moves| - 1]);
      var r := Exec(Start(threads), moves[..|moves| - 1]);
      var m := moves[|moves| - 1];
      if m.t in r.pc { StepKeeps(r, m.t, m.call); }
    }
  }

  lemma OneWriter(threads: set<Thread>, moves: seq<Move>, t: Thread, u: Thread)
    requires var s := Exec(Start(threads), moves);
             t in s.pc && u in s.pc && CountsAsWriter(s.pc[t]) && CountsAsWriter(s.pc[u])
    ensures t == u
  {
    RunSafe(threads, moves);
    WriterCounted(Exec(Start(threads), moves), t);
  }

  /** In every interleaving that does not use `rwlock_read_lock`, readers and a writer exclude each other. */
  lemma {:induction false} RunExcludes(threads: set<Thread>, moves: seq<Move>)
    requires forall m :: m in moves ==> m.call != ReadLock
    ensures Exclusive(Exec(Start(threads), moves)) && NoReadLock(Exec(Start(threads), moves))
  {
    if moves == [] {
      StartInv(threads);
    } else {
      var m := moves[|moves| - 1];
      assert m in moves;
      RunExcludes(threads, moves[..|moves| - 1]);
      RunSafe(threads, moves[..|moves| - 1]);
      var r := Exec(Start(threads), moves[..|moves| - 1]);
      if m.t in r.pc {
        StepExcludes(r, m.t, m.call);
        StepNoReadLock(r, m.t, m.call);
      }
    }
  }

  lemma {:induction false} ExecConcat(s: Rw, a: seq<Move>, b: seq<Move>)
    ensures Exec(s, a + b) == Exec(Exec(s, a), b)
  {
    if b == [] {
      assert a + b == a;
    } else {
      ExecConcat(s, a, b[..|b| - 1]);
      assert (a + b)[..|a + b| - 1] == a + b[..|b| - 1];
    }
  }

  /** With `rwlock_read_lock` exclusion fails: it does not look at the writers again inside the spinlock. */
  lemma ReadLockRaces() returns (moves: seq<Move>)
    ensures !Exclusive(Exec(Start({1, 2}), moves))
  {
    var s0 := Start({1, 2});
    var check := [Move(1, ReadLock), Move(1, ReadLock)];
    var write := [Move(2, WriteTrylock), Move(2, WriteTrylock), Move(2, WriteTrylock)];
    var s2 := Rw(0, 1, None, map[1 := RlLock, 2 := Writing]);
    ReaderChecks(check);
    WriterSlipsIn(Rw(0, 0, None, map[1 := RlLock, 2 := Idle]), write);
    ExecConcat(s0, check, write + write);
    ExecConcat(s0, check + (write + write), check);
    ReaderGoesOn(s2, check);
    moves := check + (write + write) + check;
  }

  lemma ReaderChecks(check: seq<Move>)
    requires check == [Move(1, ReadLock), Move(1, ReadLock)]
    ensures Exec(Start({1, 2}), check) == Rw(0, 0, None, map[1 := RlLock, 2 := Idle])
  {
    var s0 := Start({1, 2});
    ExecTwo(s0, check);
    assert s0.pc[1 := RlSpin][1 := RlLock] == map[1 := RlLock, 2 := Idle];
  }

  lemma ReaderGoesOn(s: Rw, check: seq<Move>)
    requires s == Rw(0, 1, None, map[1 := RlLock, 2 := Writing])
    requires check == [Move(1, ReadLock), Move(1, ReadLock)]
    ensures !Exclusive(Exec(s, check))
  {
    ExecTwo(s, check);
    var s' := Exec(s, check);
    assert s'.pc[1] == RlUnlock && s'.pc[2] == Writing;
  }

  /** While the reader is between its check and the spinlock, a writer takes the lock in six steps. */
  lemma WriterSlipsIn(s: Rw, write: seq<Move>)
    requires s == Rw(0, 0, None, map[1 := RlLock, 2 := Idle])
    requires write == [Move(2, WriteTrylock), Move(2, WriteTrylock), Move(2, WriteTrylock)]
    ensures Exec(s, write + write) == Rw(0, 1, None, map[1 := RlLock, 2 := Writing])
  {
    var mid := Rw(0, 0, Some(2), map[1 := RlLock, 2 := WtCheckReaders]);
    ThreeSteps(s, WtCheckReaders, write);
    ThreeSteps(mid, Writing, write);
    assert s.pc[2 := WtCheckReaders] == mid.pc;
    assert mid.pc[2 := Writing] == map[1 := RlLock, 2 := Writing];
    ExecConcat(s, write, write);
  }

  lemma ThreeSteps(s: Rw, p: Pc, write: seq<Move>)
    requires 2 in s.pc && s.readers == s.writers == 0
    requires (s.pc[2] == Idle && s.spin == None && p == WtCheckReaders) || (s.pc[2] == WtCheckReaders && p == Writing)
    requires write == [Move(2, WriteTrylock), Move(2, WriteTrylock), Move(2, WriteTrylock)]
    ensures Exec(s, write) == if p == Writing then Rw(0, 1, None, s.pc[2 := Writing])
                              else Rw(0, 0, Some(2), s.pc[2 := WtCheckReaders])
  {
    hide Exec;
    ExecThree(s, write);
    var one := Step(s, 2, WriteTrylock);
    var two := Step(one, 2, WriteTrylock);
    assert two.pc == s.pc[2 := two.pc[2]];
    assert Step(two, 2, WriteTrylock).pc == s.pc[2 := p];
  }

  lemma ExecTwo(s: Rw, m: seq<Move>)
    requires |m| == 2 && m[0].t in s.pc && m[1].t in s.pc
    ensures Exec(s, m) == Step(Step(s, m[0].t, m[0].call), m[1].t, m[1].call)
  {
    assert m[..1] == [m[0]] && [m[0]][..0] == [];
    assert Exec(s, [m[0]]) == Step(s, m[0].t, m[0].call);
  }

  lemma ExecThree(s: Rw, m: seq<Move>)
    requires |m| == 3 && m[0].t in s.pc && m[1].t in s.pc && m[2].t in s.pc
    ensures Exec(s, m) == Step(Step(Step(s, m[0].t, m[0].call), m[1].t, m[1].call), m[2].t, m[2].call)
  {
    ExecTwo(s, m[..2]);
  }
}
