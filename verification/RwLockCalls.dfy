/**
 What the read-write lock's calls promise their callers: in every interleaving what each call has
 read and changed by the time it returns, and what it does when the other threads stand still.
 */
module RwLockCalls {
  import opened Common
  import opened TaskQueues
  import opened RwLock

  // ---- the log of a call -----------------------------------------------------------

  /** Between calls. */
  predicate Resting(pc: Pc) { pc.Idle? || pc.Reading? || pc.Writing? }

  /** The operation reads the writer count, or the reader count. */
  predicate ReadsWriters(pc: Pc) { pc.RlSpin? || pc.RtCheck? || pc.RtRecheck? || pc.WlCheck? || pc.WtCheckWriters? }
  predicate ReadsReaders(pc: Pc) { pc.WlDrain? || pc.WtCheckReaders? }

  /**
   What a thread has done since it last made a call: where it was then, the values it has read, and
   by how much it has changed the two counts.
   */
  datatype Log = Log(from: Pc, call: Call, writersRead: seq<int>, readersRead: seq<int>, readers: int, writers: int)

  function Begun(from: Pc, call: Call): Log { Log(from, call, [], [], 0, 0) }

  function Logged(s: Rw, moves: seq<Move>, t: Thread): Log
  {
    if moves == [] then Begun(Idle, Unlock)
    else
      var r, m := Exec(s, moves[..|moves| - 1]), moves[|moves| - 1];
      var l := Logged(s, moves[..|moves| - 1], t);
      if m.t != t || t !in r.pc then l
      else Entry(r, t, m.call, if Resting(r.pc[t]) then Begun(r.pc[t], m.call) else l)
  }

  function Entry(s: Rw, t: Thread, call: Call, l: Log): Log
    requires t in s.pc
  {
    var s' := Step(s, t, call);
    Log(l.from, l.call,
        if ReadsWriters(s.pc[t]) then l.writersRead + [s.writers] else l.writersRead,
        if ReadsReaders(s.pc[t]) then l.readersRead + [s.readers] else l.readersRead,
        l.readers + s'.readers - s.readers, l.writers + s'.writers - s.writers)
  }

  predicate Positive(values: seq<int>) { exists i :: 0 <= i < |values| && values[i] > 0 }

  /** The last value read is not positive. */
  predicate EndsFree(values: seq<int>) { values != [] && values[|values| - 1] <= 0 }

  /** What a thread that has returned to `pc` has got from its call. */
  ghost predicate Returned(pc: Pc, l: Log)
  {
    match l.from
    case Idle => (
      match l.call
      case ReadLock => pc == Reading && l.readers == 1 && l.writers == 0 && EndsFree(l.writersRead)
      case ReadTrylock =>
        && (pc == Idle <==> Positive(l.writersRead))
        && (pc == Idle ==> l.readers == l.writers == 0)
        && (pc != Idle ==> pc == Reading && |l.writersRead| == 2 && l.readers == 1 && l.writers == 0)
      case WriteLock =>
        pc == Writing && l.readers == 0 && l.writers == 1 && EndsFree(l.writersRead) && EndsFree(l.readersRead)
      case WriteTrylock =>
        && (pc == Idle <==> Positive(l.writersRead) || Positive(l.readersRead))
        && (pc == Idle ==> l.readers == l.writers == 0)
        && (pc != Idle ==>
              pc == Writing && |l.writersRead| == |l.readersRead| == 1 && l.readers == 0 && l.writers == 1)
      case _ => pc == Idle && l.readers == l.writers == 0)
    case Reading =>
      if l.call == Unlock then pc == Idle && l.readers == -1 && l.writers == 0
      else pc == Reading && l.readers == l.writers == 0
    case Writing =>
      if l.call == Unlock then pc == Idle && l.readers == 0 && l.writers == -1
      else if l.call == Downgrade then pc == Reading && l.readers == 1 && l.writers == -1
      else pc == Writing && l.readers == l.writers == 0
    case _ => false
  }

  ghost predicate Quiet(l: Log) { l.readers == l.writers == 0 }

  /** The log agrees with where the thread is. */
  ghost predicate Agree(pc: Pc, l: Log)
  {
    match pc
    case Idle | Reading | Writing => Returned(pc, l)
    case DgDec => l.from == Writing && l.call == Downgrade && l.readers == 1 && l.writers == 0
    case RlSpin => l.from == Idle && l.call == ReadLock && Quiet(l)
    case RlLock | RlInc => l.from == Idle && l.call == ReadLock && Quiet(l) && EndsFree(l.writersRead)
    case RlUnlock => l.from == Idle && l.call == ReadLock && l.readers == 1 && l.writers == 0 && EndsFree(l.writersRead)
    case RtCheck => l.from == Idle && l.call == ReadTrylock && Quiet(l) && l.writersRead == []
    case RtLock | RtRecheck =>
      l.from == Idle && l.call == ReadTrylock && Quiet(l) && |l.writersRead| == 1 && !Positive(l.writersRead)
    case RtInc =>
      l.from == Idle && l.call == ReadTrylock && Quiet(l) && |l.writersRead| == 2 && !Positive(l.writersRead)
    case RtUnlock =>
      && l.from == Idle && l.call == ReadTrylock && l.readers == 1 && l.writers == 0
      && |l.writersRead| == 2 && !Positive(l.writersRead)
    case RtFail => l.from == Idle && l.call == ReadTrylock && Quiet(l) && Positive(l.writersRead)
    case WlLock | WlCheck | WlBackoff =>
      l.from == Idle && l.call == WriteLock && Quiet(l) && l.readersRead == []
    case WlInc => l.from == Idle && l.call == WriteLock && Quiet(l) && EndsFree(l.writersRead)
    case WlUnlock | WlDrain =>
      l.from == Idle && l.call == WriteLock && l.readers == 0 && l.writers == 1 && EndsFree(l.writersRead)
    case WtLock | WtCheckWriters =>
      l.from == Idle && l.call == WriteTrylock && Quiet(l) && l.writersRead == l.readersRead == []
    case WtCheckReaders =>
      && l.from == Idle && l.call == WriteTrylock && Quiet(l) && l.readersRead == []
      && |l.writersRead| == 1 && !Positive(l.writersRead)
    case WtInc =>
      && l.from == Idle && l.call == WriteTrylock && Quiet(l) && |l.writersRead| == |l.readersRead| == 1
      && !Positive(l.writersRead) && !Positive(l.readersRead)
    case WtUnlock =>
      && l.from == Idle && l.call == WriteTrylock && l.readers == 0 && l.writers == 1
      && |l.writersRead| == |l.readersRead| == 1 && !Positive(l.writersRead) && !Positive(l.readersRead)
    case WtFail =>
      l.from == Idle && l.call == WriteTrylock && Quiet(l) && (Positive(l.writersRead) || Positive(l.readersRead))
  }

  lemma PositiveAppend(values: seq<int>, v: int)
    ensures Positive(values + [v]) <==> Positive(values) || v > 0
    ensures EndsFree(values + [v]) <==> v <= 0
  {
    if Positive(values) {
      var i :| 0 <= i < |values| && values[i] > 0;
      assert (values + [v])[i] > 0;
    }
    if v > 0 { assert (values + [v])[|values|] > 0; }
  }

  lemma SelfAgrees(s: Rw, t: Thread, call: Call, l: Log)
    requires t in s.pc && (if Resting(s.pc[t]) then l == Begun(s.pc[t], call) else Agree(s.pc[t], l))
    ensures Agree(Step(s, t, call).pc[t], Entry(s, t, call, l))
  {
    hide Positive, EndsFree;
    PositiveAppend(l.writersRead, s.writers);
    PositiveAppend(l.readersRead, s.readers);
    NonePositive();
  }

  lemma NonePositive()
    ensures !Positive([])
  {
  }

  /** In every interleaving every thread between calls has got from its last call what the call promises. */
  lemma {:induction false} CallsReturn(threads: set<Thread>, moves: seq<Move>, t: Thread)
    ensures var s := Exec(Start(threads), moves);
            t in s.pc ==> Agree(s.pc[t], Logged(Start(threads), moves, t))
  {
    var s0 := Start(threads);
    if moves != [] {
      var before, m := moves[..|moves| - 1], moves[|moves| - 1];
      CallsReturn(threads, before, t);
      var r, l := Exec(s0, before), Logged(s0, before, t);
      hide Agree, Act, Entry;
      if m.t == t && t in r.pc {
        SelfAgrees(r, t, m.call, if Resting(r.pc[t]) then Begun(r.pc[t], m.call) else l);
      }
    }
  }

  /**
   In every interleaving `rwlock_read_trylock` returns false if and only if one of its two looks
   found a writer, and then has changed nothing; else it has looked twice and counts as a reader.
   */
  lemma ReadTrylockFailsIff(threads: set<Thread>, moves: seq<Move>, t: Thread)
    requires var s := Exec(Start(threads), moves); t in s.pc && Resting(s.pc[t])
    requires var l := Logged(Start(threads), moves, t); l.from == Idle && l.call == ReadTrylock
    ensures var pc, l := Exec(Start(threads), moves).pc[t], Logged(Start(threads), moves, t);
            && (pc == Idle <==> Positive(l.writersRead))
            && (if pc == Idle then l.readers == l.writers == 0
                else pc == Reading && |l.writersRead| == 2 && l.readers == 1 && l.writers == 0)
  {
    hide Positive;
    CallsReturn(threads, moves, t);
  }

  /** The same of `rwlock_write_trylock`, which looks for writers and for readers. */
  lemma WriteTrylockFailsIff(threads: set<Thread>, moves: seq<Move>, t: Thread)
    requires var s := Exec(Start(threads), moves); t in s.pc && Resting(s.pc[t])
    requires var l := Logged(Start(threads), moves, t); l.from == Idle && l.call == WriteTrylock
    ensures var pc, l := Exec(Start(threads), moves).pc[t], Logged(Start(threads), moves, t);
            && (pc == Idle <==> Positive(l.writersRead) || Positive(l.readersRead))
            && (if pc == Idle then l.readers == l.writers == 0
                else pc == Writing && |l.writersRead| == |l.readersRead| == 1 && l.readers == 0 && l.writers == 1)
  {
    hide Positive;
    CallsReturn(threads, moves, t);
  }

  // ---- a call while the others stand still -----------------------------------------

  /** The state after `n` steps of thread `t` and nobody else's. */
  function Alone(s: Rw, t: Thread, call: Call, n: nat): (r: Rw)
    requires t in s.pc
    ensures t in r.pc
  {
    if n == 0 then s else Step(Alone(s, t, call, n - 1), t, call)
  }

  function Moves(t: Thread, call: Call, n: nat): seq<Move>
  {
    if n == 0 then [] else Moves(t, call, n - 1) + [Move(t, call)]
  }

  lemma ExecLast(s: Rw, before: seq<Move>, m: Move)
    requires m.t in Exec(s, before).pc
    ensures Exec(s, before + [m]) == Step(Exec(s, before), m.t, m.call)
  {
    assert (before + [m])[..|before|] == before;
  }

  /** It is a run. */
  lemma {:induction false} AloneIsRun(s: Rw, t: Thread, call: Call, n: nat)
    requires t in s.pc
    ensures Alone(s, t, call, n) == Exec(s, Moves(t, call, n))
  {
    hide Step;
    if n > 0 {
      AloneIsRun(s, t, call, n - 1);
      hide Exec;
      ExecLast(s, Moves(t, call, n - 1), Move(t, call));
    }
  }

  function With(s: Rw, t: Thread, readers: int, writers: int, spin: Option<Thread>, pc: Pc): Rw
  {
    Rw(readers, writers, spin, s.pc[t := pc])
  }

  lemma Go(s: Rw, t: Thread, call: Call, n: nat, readers: int, writers: int, spin: Option<Thread>, pc: Pc)
    requires t in s.pc && Alone(s, t, call, n) == With(s, t, readers, writers, spin, pc)
    ensures var e := Act(readers, writers, spin, pc, t, call);
            Alone(s, t, call, n + 1) == With(s, t, e.readers, e.writers, e.spin, e.pc)
  {
    hide Act;
    var e := Act(readers, writers, spin, pc, t, call);
    assert s.pc[t := pc][t := e.pc] == s.pc[t := e.pc];
  }

  lemma Begin(s: Rw, t: Thread, call: Call)
    requires t in s.pc
    ensures Alone(s, t, call, 0) == With(s, t, s.readers, s.writers, s.spin, s.pc[t])
  {
  }

  lemma ReadActs(r: int, w: int, t: Thread)
    ensures Act(r, w, None, Idle, t, ReadLock) == Effect(r, w, None, RlSpin)
    ensures w <= 0 ==> Act(r, w, None, RlSpin, t, ReadLock) == Effect(r, w, None, RlLock)
    ensures Act(r, w, None, RlLock, t, ReadLock) == Effect(r, w, Some(t), RlInc)
    ensures Act(r, w, Some(t), RlInc, t, ReadLock) == Effect(r + 1, w, Some(t), RlUnlock)
    ensures Act(r + 1, w, Some(t), RlUnlock, t, ReadLock) == Effect(r + 1, w, None, Reading)
  {
  }

  /** The read lock is granted to a lone caller exactly when there is no writer; otherwise it spins on. */
  lemma ReadLockAlone(s: Rw, t: Thread, n: nat)
    requires t in s.pc && s.pc[t] == Idle && s.spin == None
    ensures s.writers <= 0 ==> Alone(s, t, ReadLock, 5) == With(s, t, s.readers + 1, s.writers, None, Reading)
    ensures s.writers > 0 && n > 0 ==> Alone(s, t, ReadLock, n) == With(s, t, s.readers, s.writers, None, RlSpin)
  {
    var r, w := s.readers, s.writers;
    hide Alone, With, Act;
    ReadActs(r, w, t);
    Begin(s, t, ReadLock);
    Go(s, t, ReadLock, 0, r, w, None, Idle);
    if w > 0 {
      if n > 0 { SpinsAlone(s, t, n); }
    } else {
      Go(s, t, ReadLock, 1, r, w, None, RlSpin);
      Go(s, t, ReadLock, 2, r, w, None, RlLock);
      Go(s, t, ReadLock, 3, r, w, Some(t), RlInc);
      Go(s, t, ReadLock, 4, r + 1, w, Some(t), RlUnlock);
    }
  }

  lemma {:induction false} SpinsAlone(s: Rw, t: Thread, n: nat)
    requires t in s.pc && s.pc[t] == Idle && s.spin == None && s.writers > 0 && n > 0
    ensures Alone(s, t, ReadLock, n) == With(s, t, s.readers, s.writers, None, RlSpin)
  {
    if n == 1 {
      Begin(s, t, ReadLock);
      Go(s, t, ReadLock, 0, s.readers, s.writers, None, Idle);
    } else {
      SpinsAlone(s, t, n - 1);
      hide Alone, With;
      Go(s, t, ReadLock, n - 1, s.readers, s.writers, None, RlSpin);
    }
  }

  lemma ReadTryActs(r: int, w: int, t: Thread)
    ensures Act(r, w, None, Idle, t, ReadTrylock) == Effect(r, w, None, RtCheck)
    ensures Act(r, w, None, RtCheck, t, ReadTrylock) == Effect(r, w, None, if w > 0 then Idle else RtLock)
    ensures Act(r, w, None, RtLock, t, ReadTrylock) == Effect(r, w, Some(t), RtRecheck)
    ensures w <= 0 ==> Act(r, w, Some(t), RtRecheck, t, ReadTrylock) == Effect(r, w, Some(t), RtInc)
    ensures Act(r, w, Some(t), RtInc, t, ReadTrylock) == Effect(r + 1, w, Some(t), RtUnlock)
    ensures Act(r + 1, w, Some(t), RtUnlock, t, ReadTrylock) == Effect(r + 1, w, None, Reading)
  {
  }

  /** A lone `rwlock_read_trylock` succeeds exactly when there is no writer, and else changes nothing. */
  lemma ReadTrylockAlone(s: Rw, t: Thread)
    requires t in s.pc && s.pc[t] == Idle && s.spin == None
    ensures s.writers <= 0 ==> Alone(s, t, ReadTrylock, 6) == With(s, t, s.readers + 1, s.writers, None, Reading)
    ensures s.writers > 0 ==> Alone(s, t, ReadTrylock, 2) == With(s, t, s.readers, s.writers, None, Idle)
  {
    var r, w := s.readers, s.writers;
    hide Alone, With, Act;
    ReadTryActs(r, w, t);
    Begin(s, t, ReadTrylock);
    Go(s, t, ReadTrylock, 0, r, w, None, Idle);
    Go(s, t, ReadTrylock, 1, r, w, None, RtCheck);
    if w <= 0 {
      Go(s, t, ReadTrylock, 2, r, w, None, RtLock);
      Go(s, t, ReadTrylock, 3, r, w, Some(t), RtRecheck);
      Go(s, t, ReadTrylock, 4, r, w, Some(t), RtInc);
      Go(s, t, ReadTrylock, 5, r + 1, w, Some(t), RtUnlock);
    }
  }

  lemma WriteActs(r: int, w: int, t: Thread)
    ensures Act(r, w, None, Idle, t, WriteLock) == Effect(r, w, None, WlLock)
    ensures Act(r, w, None, WlLock, t, WriteLock) == Effect(r, w, Some(t), WlCheck)
    ensures Act(r, w, Some(t), WlCheck, t, WriteLock) == Effect(r, w, Some(t), if w > 0 then WlBackoff else WlInc)
    ensures Act(r, w, Some(t), WlBackoff, t, WriteLock) == Effect(r, w, None, WlLock)
    ensures Act(r, w, Some(t), WlInc, t, WriteLock) == Effect(r, w + 1, Some(t), WlUnlock)
    ensures Act(r, w + 1, Some(t), WlUnlock, t, WriteLock) == Effect(r, w + 1, None, WlDrain)
    ensures Act(r, w + 1, None, WlDrain, t, WriteLock) == Effect(r, w + 1, None, if r > 0 then WlDrain else Writing)
  {
  }

  /**
   A lone `rwlock_write_lock` without a writer claims the writer count and then gets the lock exactly
   when there are no readers; with a writer it goes round its loop without an effect.
   */
  lemma WriteLockAlone(s: Rw, t: Thread)
    requires t in s.pc && s.pc[t] == Idle && s.spin == None
    ensures s.writers <= 0 ==>
              Alone(s, t, WriteLock, 6) ==
              With(s, t, s.readers, s.writers + 1, None, if s.readers > 0 then WlDrain else Writing)
    ensures s.writers > 0 ==> Alone(s, t, WriteLock, 4) == With(s, t, s.readers, s.writers, None, WlLock)
    ensures Alone(s, t, WriteLock, 1) == With(s, t, s.readers, s.writers, None, WlLock)
  {
    var r, w := s.readers, s.writers;
    hide Alone, With, Act;
    WriteActs(r, w, t);
    Begin(s, t, WriteLock);
    Go(s, t, WriteLock, 0, r, w, None, Idle);
    Go(s, t, WriteLock, 1, r, w, None, WlLock);
    Go(s, t, WriteLock, 2, r, w, Some(t), WlCheck);
    if w > 0 {
      Go(s, t, WriteLock, 3, r, w, Some(t), WlBackoff);
    } else {
      Go(s, t, WriteLock, 3, r, w, Some(t), WlInc);
      Go(s, t, WriteLock, 4, r, w + 1, Some(t), WlUnlock);
      Go(s, t, WriteLock, 5, r, w + 1, None, WlDrain);
    }
  }

  lemma WriteTryActs(r: int, w: int, t: Thread)
    ensures Act(r, w, None, Idle, t, WriteTrylock) == Effect(r, w, None, WtLock)
    ensures Act(r, w, None, WtLock, t, WriteTrylock) == Effect(r, w, Some(t), WtCheckWriters)
    ensures Act(r, w, Some(t), WtCheckWriters, t, WriteTrylock) ==
            Effect(r, w, Some(t), if w > 0 then WtFail else WtCheckReaders)
    ensures Act(r, w, Some(t), WtCheckReaders, t, WriteTrylock) ==
            Effect(r, w, Some(t), if r > 0 then WtFail else WtInc)
    ensures Act(r, w, Some(t), WtFail, t, WriteTrylock) == Effect(r, w, None, Idle)
    ensures Act(r, w, Some(t), WtInc, t, WriteTrylock) == Effect(r, w + 1, Some(t), WtUnlock)
    ensures Act(r, w + 1, Some(t), WtUnlock, t, WriteTrylock) == Effect(r, w + 1, None, Writing)
  {
  }

  /** A lone `rwlock_write_trylock` succeeds exactly on a free lock, and else changes nothing. */
  lemma WriteTrylockAlone(s: Rw, t: Thread)
    requires t in s.pc && s.pc[t] == Idle && s.spin == None
    ensures s.writers <= 0 && s.readers <= 0 ==>
              Alone(s, t, WriteTrylock, 6) == With(s, t, s.readers, s.writers + 1, None, Writing)
    ensures s.writers > 0 ==> Alone(s, t, WriteTrylock, 4) == With(s, t, s.readers, s.writers, None, Idle)
    ensures s.writers <= 0 && s.readers > 0 ==>
              Alone(s, t, WriteTrylock, 5) == With(s, t, s.readers, s.writers, None, Idle)
  {
    var r, w := s.readers, s.writers;
    hide Alone, With, Act;
    WriteTryActs(r, w, t);
    Begin(s, t, WriteTrylock);
    Go(s, t, WriteTrylock, 0, r, w, None, Idle);
    Go(s, t, WriteTrylock, 1, r, w, None, WtLock);
    Go(s, t, WriteTrylock, 2, r, w, Some(t), WtCheckWriters);
    if w > 0 {
      Go(s, t, WriteTrylock, 3, r, w, Some(t), WtFail);
    } else {
      Go(s, t, WriteTrylock, 3, r, w, Some(t), WtCheckReaders);
      if r > 0 {
        Go(s, t, WriteTrylock, 4, r, w, Some(t), WtFail);
      } else {
        Go(s, t, WriteTrylock, 4, r, w, Some(t), WtInc);
        Go(s, t, WriteTrylock, 5, r, w + 1, Some(t), WtUnlock);
      }
    }
  }

  /** Unlocking and downgrading take effect whatever the others do, the spinlock included. */
  lemma UnlockAlone(s: Rw, t: Thread)
    requires t in s.pc
    ensures s.pc[t] == Reading ==>
              Alone(s, t, Unlock, 1) == With(s, t, s.readers - 1, s.writers, s.spin, Idle)
    ensures s.pc[t] == Writing ==>
              && Alone(s, t, Unlock, 1) == With(s, t, s.readers, s.writers - 1, s.spin, Idle)
              && Alone(s, t, Downgrade, 2) == With(s, t, s.readers + 1, s.writers - 1, s.spin, Reading)
  {
    hide Alone, With;
    Begin(s, t, Unlock);
    Begin(s, t, Downgrade);
    Go(s, t, Unlock, 0, s.readers, s.writers, s.spin, s.pc[t]);
    Go(s, t, Downgrade, 0, s.readers, s.writers, s.spin, s.pc[t]);
    if s.pc[t] == Writing { Go(s, t, Downgrade, 1, s.readers + 1, s.writers, s.spin, DgDec); }
  }
}
