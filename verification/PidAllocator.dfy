/**
 The PID allocator (kernel/process/process.c): PIDs are the bits of a bitmap of `PID_MAX` bits,
 bit zero reserved.
 */
module PidAllocator {
  import opened Bitmaps

  const PID_MAX: nat := 32768

  /** What one call did: `Alloc` with the PID it returned, negative on failure, or `Free`. */
  datatype Call = Alloc(result: int) | Free(pid: int)

  ghost predicate LeastFree(used: set<nat>, pid: nat) {
    pid < PID_MAX && pid !in used && forall q: nat :: q < pid ==> q in used
  }

  ghost predicate Step(used: set<nat>, call: Call, after: set<nat>) {
    match call
    case Alloc(pid) =>
      if pid < 0 then |used| == PID_MAX && after == used
      else LeastFree(used, pid) && after == used + {pid}
    case Free(pid) =>
      after == if 0 < pid < PID_MAX then used - {pid} else used
  }

  /** PID 0 is never given out and none lies beyond the bitmap. */
  ghost predicate Inv(used: set<nat>) {
    0 in used && used <= Range(0, PID_MAX)
  }

  class PidAllocator {
    const bitmap: Bitmap

    ghost predicate Valid()
      reads bitmap, bitmap.bits
    {
      bitmap.Valid() && bitmap.nbits == PID_MAX && Inv(bitmap.Set())
    }

    /** `pid_alloc_init`. */
    constructor (buffer: array<bv8>)
      requires buffer.Length == ByteCount(PID_MAX)
      modifies buffer
      ensures Valid() && bitmap.Set() == {0} && bitmap.bits == buffer
    {
      var bm := new Bitmap(buffer, PID_MAX);
      bm.SetBit(0);
      bitmap := bm;
    }

    /** `pid_alloc`. */
    method PidAlloc() returns (pid: int)
      requires Valid()
      modifies bitmap.bits
      ensures Valid() && pid >= -1 && Step(old(bitmap.Set()), Alloc(pid), bitmap.Set())
    {
      pid := bitmap.FindNextZero(0);
      ghost var used := bitmap.Set();
      if pid < 0 || pid >= PID_MAX {
        FullCard(used, PID_MAX);
        return -1;
      }
      bitmap.SetBit(pid);
      StepKeeps(used, Alloc(pid), bitmap.Set());
    }

    /** `pid_free`: PIDs that are not in range are ignored. */
    method PidFree(pid: int)
      requires Valid()
      modifies bitmap.bits
      ensures Valid() && Step(old(bitmap.Set()), Free(pid), bitmap.Set())
    {
      ghost var used := bitmap.Set();
      if pid > 0 && pid < PID_MAX {
        bitmap.ClearBit(pid);
      }
      StepKeeps(used, Free(pid), bitmap.Set());
    }
  }

  // ---- runs ------------------------------------------------------------------------

  lemma StepKeeps(used: set<nat>, call: Call, after: set<nat>)
    requires Inv(used) && Step(used, call, after)
    ensures Inv(after)
  {
  }

  /** `used[i]` is the set in use before `calls[i]`. */
  ghost predicate IsRun(used: seq<set<nat>>, calls: seq<Call>) {
    && |used| == |calls| + 1
    && used[0] == {0}
    && forall i :: 0 <= i < |calls| ==> Step(used[i], calls[i], used[i + 1])
  }

  lemma {:induction false} RunInv(used: seq<set<nat>>, calls: seq<Call>, i: nat)
    requires IsRun(used, calls) && i <= |calls|
    ensures Inv(used[i])
  {
    if i > 0 {
      RunInv(used, calls, i - 1);
      StepKeeps(used[i - 1], calls[i - 1], used[i]);
    } else {
      assert 0 in Range(0, PID_MAX);
    }
  }

  /** Every PID handed out is between 1 and 32767, and allocation fails exactly when none is left. */
  lemma AllocResult(used: seq<set<nat>>, calls: seq<Call>, i: nat)
    requires IsRun(used, calls) && i < |calls| && calls[i].Alloc?
    ensures calls[i].result >= 0 ==> 1 <= calls[i].result < PID_MAX && calls[i].result !in used[i]
    ensures calls[i].result < 0 <==> forall q: nat | q < PID_MAX :: q in used[i]
  {
    RunInv(used, calls, i);
    FullCard(used[i], PID_MAX);
    assert Step(used[i], calls[i], used[i + 1]);
  }

  lemma {:induction false} StaysUsed(used: seq<set<nat>>, calls: seq<Call>, i: nat, j: nat, pid: nat)
    requires IsRun(used, calls) && i <= j <= |calls| && pid in used[i]
    requires forall k :: i <= k < j ==> calls[k] != Free(pid)
    ensures pid in used[j]
  {
    if i < j {
      StaysUsed(used, calls, i, j - 1, pid);
      assert Step(used[j - 1], calls[j - 1], used[j]);
    }
  }

  /** No PID is handed out twice without being freed in between. */
  lemma NoDoubleAllocation(used: seq<set<nat>>, calls: seq<Call>, i: nat, j: nat)
    requires IsRun(used, calls) && i < j < |calls|
    requires calls[i].Alloc? && calls[j].Alloc? && calls[i].result >= 0
    requires calls[i].result == calls[j].result
    ensures exists k :: i < k < j && calls[k] == Free(calls[i].result)
  {
    var pid: nat := calls[i].result;
    assert Step(used[i], calls[i], used[i + 1]) && Step(used[j], calls[j], used[j + 1]);
    if forall k :: i < k < j ==> calls[k] != Free(pid) {
      StaysUsed(used, calls, i + 1, j, pid);
    }
  }

  /** A freed PID below every other free one is the next to be handed out. */
  lemma FreedIsReused(used: set<nat>, pid: nat, freed: set<nat>, result: int, after: set<nat>)
    requires Inv(used) && 0 < pid < PID_MAX && forall q: nat :: q < pid ==> q in used
    requires Step(used, Free(pid), freed) && Step(freed, Alloc(result), after)
    ensures result == pid && after == used + {pid}
  {
    assert pid !in freed && forall q: nat :: q < pid ==> q in freed;
    StepKeeps(used, Free(pid), freed);
    FullCard(freed, PID_MAX);
  }
}
