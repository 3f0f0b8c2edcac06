/**
 Wait queues (kernel/sync/waitqueue.c): `__wake_up_common` makes two passes over the list, the
 first looking for exclusive waiters and the second for the others, unlinking entries as it goes.
 */
module WaitQueue {
  import opened Common
  import opened TaskQueues

  datatype Entry = Entry(task: Option<Tid>, exclusive: bool)

  /** What a pass leaves on the list and the tasks it readies, in the order it readies them. */
  datatype Pass = Pass(kept: seq<Entry>, woken: seq<Tid>)

  function TaskOf(e: Entry): seq<Tid>
  {
    if e.task.Some? then [e.task.value] else []
  }

  /** Enough tasks have been woken; zero or a negative limit never is. */
  predicate Done(limit: int, n: nat)
  {
    limit > 0 && n >= limit
  }

  function FirstPass(l: seq<Entry>, exclusiveOnly: bool, limit: int, n: nat): Pass
  {
    if l == [] || Done(limit, n) then Pass(l, [])
    else if !l[0].exclusive then
      var r := FirstPass(l[1..], exclusiveOnly, limit, n);
      Pass([l[0]] + r.kept, r.woken)
    else if !exclusiveOnly then Pass(l[1..], TaskOf(l[0]))
    else
      var r := FirstPass(l[1..], exclusiveOnly, limit, n + |TaskOf(l[0])|);
      Pass(r.kept, TaskOf(l[0]) + r.woken)
  }

  /** A pass over the rest of a list, after `done` was kept and `woken` woken. */
  function Follow(done: seq<Entry>, woken: seq<Tid>, p: Pass): Pass
  {
    Pass(done + p.kept, woken + p.woken)
  }

  lemma {:induction false} FirstPassStep(done: seq<Entry>, woken: seq<Tid>, todo: seq<Entry>,
                                         exclusiveOnly: bool, limit: int)
    ensures var r := Follow(done, woken, FirstPass(todo, exclusiveOnly, limit, |woken|));
            if todo == [] || Done(limit, |woken|) then r == Pass(done + todo, woken)
            else
              var more := woken + TaskOf(todo[0]);
              if !todo[0].exclusive then
                r == Follow(done + [todo[0]], woken, FirstPass(todo[1..], exclusiveOnly, limit, |woken|))
              else if !exclusiveOnly then r == Pass(done + todo[1..], more)
              else r == Follow(done, more, FirstPass(todo[1..], exclusiveOnly, limit, |more|))
  {
  }

  function SecondPass(l: seq<Entry>, limit: int, n: nat): Pass
  {
    if l == [] || Done(limit, n) then Pass(l, [])
    else if l[0].exclusive then
      var r := SecondPass(l[1..], limit, n);
      Pass([l[0]] + r.kept, r.woken)
    else
      var r := SecondPass(l[1..], limit, n + |TaskOf(l[0])|);
      Pass(r.kept, TaskOf(l[0]) + r.woken)
  }

  lemma {:induction false} SecondPassStep(done: seq<Entry>, woken: seq<Tid>, todo: seq<Entry>, limit: int)
    ensures var r := Follow(done, woken, SecondPass(todo, limit, |woken|));
            if todo == [] || Done(limit, |woken|) then r == Pass(done + todo, woken)
            else
              var more := woken + TaskOf(todo[0]);
              if todo[0].exclusive then r == Follow(done + [todo[0]], woken, SecondPass(todo[1..], limit, |woken|))
              else r == Follow(done, more, SecondPass(todo[1..], limit, |more|))
  {
    if todo != [] && !Done(limit, |woken|) {
      var more := if todo[0].exclusive then [] else TaskOf(todo[0]);
      var r := SecondPass(todo[1..], limit, |woken| + |more|);
      assert done + ([todo[0]] + r.kept) == done + [todo[0]] + r.kept;
      assert woken + (more + r.woken) == woken + more + r.woken;
    }
  }

  function WakeCommon(l: seq<Entry>, exclusiveOnly: bool, limit: int): Pass
  {
    var r1 := FirstPass(l, exclusiveOnly, limit, 0);
    if |r1.woken| < limit || limit == 0 then
      var r2 := SecondPass(r1.kept, limit, |r1.woken|);
      Pass(r2.kept, r1.woken + r2.woken)
    else r1
  }

  // ---- the two loops ---------------------------------------------------------------

  class WaitQueueHead {
    var list: seq<Entry>

    method WakeExclusive(exclusiveOnly: bool, limit: int) returns (woken: seq<Tid>)
      modifies this
      ensures Pass(list, woken) == FirstPass(old(list), exclusiveOnly, limit, 0)
    {
      hide FirstPass;
      woken := [];
      var i := 0;
      ghost var goal := FirstPass(list, exclusiveOnly, limit, 0);
      ghost var done, todo := [], list;
      while i < |list|
        invariant i == |done| && list == done + todo
        invariant goal == Follow(done, woken, FirstPass(todo, exclusiveOnly, limit, |woken|))
        decreases |list| - i
      {
        FirstPassStep(done, woken, todo, exclusiveOnly, limit);
        if limit > 0 && |woken| >= limit { return; }
        var e := list[i];
        if e.exclusive {
          Unlink(i);
          todo := todo[1..];
          assert list == done + todo;
          if e.task.Some? { woken := woken + [e.task.value]; }
          if !exclusiveOnly { return; }
        } else {
          i := i + 1;
          done, todo := done + [e], todo[1..];
        }
      }
      FirstPassStep(done, woken, todo, exclusiveOnly, limit);
    }

    method WakeNormal(limit: int, already: seq<Tid>) returns (woken: seq<Tid>)
      modifies this
      ensures var r := SecondPass(old(list), limit, |already|); list == r.kept && woken == already + r.woken
    {
      hide SecondPass;
      woken := already;
      var i := 0;
      ghost var goal := Follow([], already, SecondPass(list, limit, |already|));
      ghost var done, todo := [], list;
      while i < |list|
        invariant i == |done| && list == done + todo
        invariant goal == Follow(done, woken, SecondPass(todo, limit, |woken|))
        decreases |list| - i
      {
        SecondPassStep(done, woken, todo, limit);
        if limit > 0 && |woken| >= limit { return; }
        var e := list[i];
        if e.exclusive {
          i := i + 1;
          done, todo := done + [e], todo[1..];
        } else {
          Unlink(i);
          todo := todo[1..];
          assert list == done + todo;
          if e.task.Some? { woken := woken + [e.task.value]; }
        }
      }
      SecondPassStep(done, woken, todo, limit);
    }

    /** `list_del_init` on the entry at position `i`. */
    method Unlink(i: nat)
      requires i < |list|
      modifies this
      ensures |list| == |old(list)| - 1 && list[..i] == old(list)[..i] && list[i..] == old(list)[i + 1..]
      ensures list == old(list)[..i] + old(list)[i + 1..]
    {
      list := list[..i] + list[i + 1..];
    }

    /** `__wake_up_common`; the result lists the tasks made ready. */
    method WakeUpCommon(exclusiveOnly: bool, limit: int) returns (woken: seq<Tid>)
      modifies this
      ensures Pass(list, woken) == WakeCommon(old(list), exclusiveOnly, limit)
    {
      if list == [] { return []; }
      woken := WakeExclusive(exclusiveOnly, limit);
      if |woken| < limit || limit == 0 {
        woken := WakeNormal(limit, woken);
      }
    }
  }

  // ---- what the wake-ups do --------------------------------------------------------

  /** Every entry names a task, as every entry made by `init_waitqueue_entry` in a running task does. */
  ghost predicate AllNamed(l: seq<Entry>)
  {
    forall e :: e in l ==> e.task.Some?
  }

  /** The position of the first exclusive entry; the length of the list when there is none. */
  function FirstExclusive(l: seq<Entry>): (k: nat)
    ensures k <= |l| && (k < |l| ==> l[k].exclusive)
    ensures forall j :: 0 <= j < k ==> !l[j].exclusive
  {
    if l == [] || l[0].exclusive then 0 else FirstExclusive(l[1..]) + 1
  }

  lemma {:induction false} FirstPassSkips(l: seq<Entry>, exclusiveOnly: bool, limit: int)
    requires l != [] && !l[0].exclusive && !Done(limit, 0)
    ensures var r := FirstPass(l[1..], exclusiveOnly, limit, 0);
            FirstPass(l, exclusiveOnly, limit, 0) == Pass([l[0]] + r.kept, r.woken)
  {
  }

  lemma {:induction false} FirstPassTakes(l: seq<Entry>, limit: int)
    requires l != [] && l[0].exclusive && (limit == 0 || limit == 1)
    ensures FirstPass(l, false, limit, 0) == Pass(l[1..], TaskOf(l[0]))
    ensures l[0].task.Some? ==> FirstPass(l, true, 1, 0) == Pass(l[1..], TaskOf(l[0]))
  {
    assert TaskOf(l[0]) + [] == TaskOf(l[0]);
  }

  lemma {:induction false} FirstPassFinds(l: seq<Entry>, limit: int)
    requires FirstExclusive(l) < |l| && (limit == 0 || limit == 1)
    ensures var k := FirstExclusive(l);
            && FirstPass(l, false, limit, 0) == Pass(l[..k] + l[k + 1..], TaskOf(l[k]))
            && (limit == 1 && l[k].task.Some? ==> FirstPass(l, true, 1, 0) == Pass(l[..k] + l[k + 1..], TaskOf(l[k])))
  {
    var k := FirstExclusive(l);
    if k == 0 {
      FirstPassTakes(l, limit);
      assert l[..0] + l[1..] == l[1..];
      hide FirstPass;
    } else {
      FirstPassSkips(l, false, limit);
      FirstPassSkips(l, true, limit);
      hide FirstPass;
      FirstPassFinds(l[1..], limit);
      DropPast(l, k);
    }
  }

  /** Dropping an entry past the first one is dropping it from the rest. */
  lemma DropPast(l: seq<Entry>, k: nat)
    requires 0 < k < |l|
    ensures l[1..][k - 1] == l[k]
    ensures [l[0]] + (l[1..][..k - 1] + l[1..][k - 1 + 1..]) == l[..k] + l[k + 1..]
  {
  }

  lemma {:induction false} FirstPassFindsNone(l: seq<Entry>, exclusiveOnly: bool, limit: int)
    requires FirstExclusive(l) == |l|
    ensures FirstPass(l, exclusiveOnly, limit, 0) == Pass(l, [])
  {
    if l != [] && !Done(limit, 0) { FirstPassFindsNone(l[1..], exclusiveOnly, limit); }
  }

  /** The tasks of the entries that are not exclusive, in order. */
  function Normals(l: seq<Entry>): seq<Tid>
  {
    if l == [] then [] else (if l[0].exclusive then [] else TaskOf(l[0])) + Normals(l[1..])
  }

  function Exclusives(l: seq<Entry>): seq<Entry>
  {
    if l == [] then [] else (if l[0].exclusive then [l[0]] else []) + Exclusives(l[1..])
  }

  lemma {:induction false} SecondPassAll(l: seq<Entry>, n: nat)
    ensures SecondPass(l, 0, n) == Pass(Exclusives(l), Normals(l))
  {
    if l != [] { SecondPassAll(l[1..], n + if l[0].exclusive then 0 else |TaskOf(l[0])|); }
  }

  /** Unlinking the first exclusive entry takes it off the exclusive entries and leaves the others alone. */
  lemma {:induction false} UnlinkFirstExclusive(l: seq<Entry>)
    requires FirstExclusive(l) < |l|
    ensures var k := FirstExclusive(l);
            var rest := l[..k] + l[k + 1..];
            Normals(rest) == Normals(l) && [l[k]] + Exclusives(rest) == Exclusives(l)
  {
    var k := FirstExclusive(l);
    if k == 0 {
      assert l[..0] + l[1..] == l[1..];
    } else {
      UnlinkFirstExclusive(l[1..]);
      var rest, rest1 := l[..k] + l[k + 1..], l[1..][..k - 1] + l[1..][k..];
      assert rest[0] == l[0] && !l[0].exclusive && l[k] == l[1..][k - 1];
      assert rest[1..] == rest1;
      assert Exclusives(rest) == Exclusives(rest1) && Exclusives(l) == Exclusives(l[1..]);
    }
  }

  lemma {:induction false} NoExclusives(l: seq<Entry>)
    requires FirstExclusive(l) == |l|
    ensures Exclusives(l) == []
  {
    if l != [] { NoExclusives(l[1..]); }
  }

  /** The position of the first entry that is not exclusive and names a task; the length if there is none. */
  function FirstNamed(l: seq<Entry>): (j: nat)
    ensures j <= |l| && (j < |l| ==> !l[j].exclusive && l[j].task.Some?)
    ensures forall i :: 0 <= i < j ==> l[i].exclusive || l[i].task.None?
  {
    if l == [] || (!l[0].exclusive && l[0].task.Some?) then 0 else FirstNamed(l[1..]) + 1
  }

  lemma ExclusivesTake(l: seq<Entry>, j: nat)
    requires 0 < j <= |l|
    ensures Exclusives(l[..j]) ==
            if l[0].exclusive then [l[0]] + Exclusives(l[1..][..j - 1]) else Exclusives(l[1..][..j - 1])
  {
    assert l[..j][1..] == l[1..][..j - 1] && l[..j][0] == l[0];
  }

  lemma ConsAssoc(e: Entry, a: seq<Entry>, b: seq<Entry>)
    ensures [e] + (a + b) == ([e] + a) + b
  {
  }

  /** The second loop, with one task to wake, unlinks the entries that are not exclusive up to one that names a task. */
  lemma {:induction false} SecondPassOne(l: seq<Entry>)
    ensures var j := FirstNamed(l);
            SecondPass(l, 1, 0) == if j < |l| then Pass(Exclusives(l[..j]) + l[j + 1..], [l[j].task.value])
                                   else Pass(Exclusives(l), [])
  {
    var j := FirstNamed(l);
    if l != [] {
      if j == 0 {
        assert l[..0] == [] && [] + l[1..] == l[1..];
        assert SecondPass(l[1..], 1, 1) == Pass(l[1..], []);
      } else {
        SecondPassOne(l[1..]);
        if j < |l| {
          ExclusivesTake(l, j);
          assert l[1..][j..] == l[j + 1..];
          ConsAssoc(l[0], Exclusives(l[1..][..j - 1]), l[j + 1..]);
        }
      }
    }
  }

  /** The list without its first exclusive entry. */
  function Rest(l: seq<Entry>): seq<Entry>
  {
    var k := FirstExclusive(l);
    if k < |l| then l[..k] + l[k + 1..] else l
  }

  /**
   `wake_up`, NULL tasks included: the first exclusive entry is unlinked and, if it names a task, that
   task is the only one woken; otherwise the entries that are not exclusive are unlinked up to the
   first that names a task, which is woken.  Everything else stays linked in order.
   */
  lemma WakeUpExactly(l: seq<Entry>)
    ensures var k, r := FirstExclusive(l), Rest(l);
            var j := FirstNamed(r);
            WakeCommon(l, false, 1) ==
            if k < |l| && l[k].task.Some? then Pass(r, [l[k].task.value])
            else if j < |r| then Pass(Exclusives(r[..j]) + r[j + 1..], [r[j].task.value])
            else Pass(Exclusives(r), [])
  {
    hide FirstPass, SecondPass, FirstExclusive, FirstNamed, Exclusives;
    if FirstExclusive(l) < |l| { FirstPassFinds(l, 1); } else { FirstPassFindsNone(l, false, 1); }
    SecondPassOne(Rest(l));
  }

  /**
   When every entry names a task `wake_up` readies exactly one of a non-empty queue: the first
   exclusive one if there is one, else the first; everything else stays linked in order.
   */
  lemma WakeUpWakesOne(l: seq<Entry>)
    requires AllNamed(l) && l != []
    ensures var k := if FirstExclusive(l) < |l| then FirstExclusive(l) else 0;
            WakeCommon(l, false, 1) == Pass(l[..k] + l[k + 1..], [l[k].task.value])
  {
    hide WakeCommon, FirstExclusive;
    var k := FirstExclusive(l);
    if k < |l| {
      assert l[k] in l;
      WakeUpNamed(l);
    } else {
      WakeUpNormal(l);
      assert l[..0] + l[1..] == l[1..];
    }
  }

  lemma WakeUpNamed(l: seq<Entry>)
    requires FirstExclusive(l) < |l| && l[FirstExclusive(l)].task.Some?
    ensures var k := FirstExclusive(l); WakeCommon(l, false, 1) == Pass(l[..k] + l[k + 1..], [l[k].task.value])
  {
    hide WakeCommon, FirstExclusive, FirstNamed, Exclusives;
    WakeUpExactly(l);
  }

  lemma WakeUpNormal(l: seq<Entry>)
    requires AllNamed(l) && l != [] && FirstExclusive(l) == |l|
    ensures WakeCommon(l, false, 1) == Pass(l[1..], [l[0].task.value])
  {
    hide WakeCommon, FirstExclusive, FirstNamed, Exclusives;
    WakeUpExactly(l);
    AllNormal(l);
  }

  lemma AllNormal(l: seq<Entry>)
    requires AllNamed(l) && l != [] && FirstExclusive(l) == |l|
    ensures l[0].task.Some? && FirstNamed(l) == 0 && Rest(l) == l && Exclusives(l[..0]) + l[1..] == l[1..]
  {
    assert l[0] in l;
  }

  /** The pass that looks for exclusive waiters only goes on past an exclusive entry without a task. */
  lemma {:induction false} ExclusivePassGoesOn(l: seq<Entry>)
    requires FirstExclusive(l) < |l| && l[FirstExclusive(l)].task.None?
    ensures var k := FirstExclusive(l);
            var r := FirstPass(l[k + 1..], true, 1, 0);
            FirstPass(l, true, 1, 0) == Pass(l[..k] + r.kept, r.woken)
    decreases |l|
  {
    var k := FirstExclusive(l);
    if k == 0 {
      assert l[..0] == [] && [] + FirstPass(l[1..], true, 1, 0).kept == FirstPass(l[1..], true, 1, 0).kept;
      assert [] + FirstPass(l[1..], true, 1, 0).woken == FirstPass(l[1..], true, 1, 0).woken;
    } else {
      ExclusivePassGoesOn(l[1..]);
      var kept := FirstPass(l[k + 1..], true, 1, 0).kept;
      assert l[1..][k..] == l[k + 1..];
      assert [l[0]] + (l[1..][..k - 1] + kept) == l[..k] + kept;
    }
  }

  lemma {:induction false} ExclusivesAppend(a: seq<Entry>, b: seq<Entry>)
    ensures Exclusives(a + b) == Exclusives(a) + Exclusives(b)
  {
    if a == [] {
      assert a + b == b;
    } else {
      assert (a + b)[1..] == a[1..] + b;
      ExclusivesAppend(a[1..], b);
      ConsAssoc(a[0], Exclusives(a[1..]), Exclusives(b));
    }
  }

  /** The second loop keeps every exclusive entry. */
  lemma {:induction false} SecondPassKeepsExclusives(l: seq<Entry>, limit: int, n: nat)
    ensures Exclusives(SecondPass(l, limit, n).kept) == Exclusives(l)
  {
    if l != [] && !Done(limit, n) {
      var m := n + if l[0].exclusive then 0 else |TaskOf(l[0])|;
      SecondPassKeepsExclusives(l[1..], limit, m);
      var kept := SecondPass(l[1..], limit, m).kept;
      assert ([l[0]] + kept)[1..] == kept;
    }
  }

  /** The first loop, looking for one exclusive waiter, takes off at least one exclusive entry when there is one. */
  lemma {:induction false} FirstPassTakesExclusive(l: seq<Entry>)
    ensures FirstExclusive(l) < |l| ==> |Exclusives(FirstPass(l, true, 1, 0).kept)| < |Exclusives(l)|
    ensures |Exclusives(FirstPass(l, true, 1, 0).kept)| <= |Exclusives(l)|
  {
    if l != [] {
      FirstPassTakesExclusive(l[1..]);
      if l[0].exclusive && l[0].task.Some? { assert FirstPass(l[1..], true, 1, 1) == Pass(l[1..], []); }
    }
  }

  /**
   `wake_up_exclusive` does what `wake_up` does if and only if there is no exclusive entry, the
   first one names a task, or it is the only one.
   */
  lemma WakeUpExclusiveIsWakeUpIff(l: seq<Entry>)
    ensures var k := FirstExclusive(l);
            WakeCommon(l, true, 1) == WakeCommon(l, false, 1) <==>
            k == |l| || l[k].task.Some? || FirstExclusive(l[k + 1..]) == |l[k + 1..]|
  {
    hide FirstPass, SecondPass, FirstExclusive, Exclusives;
    var k := FirstExclusive(l);
    if k == |l| {
      FirstPassFindsNone(l, true, 1);
      FirstPassFindsNone(l, false, 1);
    } else {
      FirstPassFinds(l, 1);
      if l[k].task.None? {
        var tail := l[k + 1..];
        ExclusivePassGoesOn(l);
        if FirstExclusive(tail) == |tail| {
          FirstPassFindsNone(tail, true, 1);
        } else {
          DifferentKept(l);
        }
      }
    }
  }

  lemma DifferentKept(l: seq<Entry>)
    requires FirstExclusive(l) < |l| && l[FirstExclusive(l)].task.None?
    requires var tail := l[FirstExclusive(l) + 1..]; FirstExclusive(tail) < |tail|
    ensures WakeCommon(l, true, 1) != WakeCommon(l, false, 1)
  {
    hide FirstPass, SecondPass, FirstExclusive;
    var k := FirstExclusive(l);
    var tail := l[k + 1..];
    ExclusivePassGoesOn(l);
    FirstPassFinds(l, 1);
    FirstPassTakesExclusive(tail);
    ExclusivesAppend(l[..k], tail);
    ExclusivesAppend(l[..k], FirstPass(tail, true, 1, 0).kept);
    var r := FirstPass(l, true, 1, 0);
    SecondPassKeepsExclusives(r.kept, 1, |r.woken|);
    SecondPassKeepsExclusives(l[..k] + tail, 1, 0);
  }

  /**
   `wake_up_all` readies every non-exclusive task, in order, after the first exclusive one if
   there is one; exactly the other exclusive entries stay linked, in order.
   */
  lemma WakeUpAllWakes(l: seq<Entry>)
    ensures var k, r := FirstExclusive(l), WakeCommon(l, false, 0);
            if k < |l|
            then [l[k]] + r.kept == Exclusives(l) && r.woken == TaskOf(l[k]) + Normals(l)
            else r == Pass([], Normals(l))
  {
    var k := FirstExclusive(l);
    if k < |l| {
      FirstPassFinds(l, 0);
      SecondPassAll(l[..k] + l[k + 1..], |TaskOf(l[k])|);
      UnlinkFirstExclusive(l);
    } else {
      FirstPassFindsNone(l, false, 0);
      SecondPassAll(l, 0);
      NoExclusives(l);
    }
  }

  // ---- nothing is lost or woken twice ----------------------------------------------

  ghost function Bag(l: seq<Entry>): multiset<Tid>
  {
    if l == [] then multiset{} else multiset(TaskOf(l[0])) + Bag(l[1..])
  }

  lemma {:induction false} FirstPassConserves(l: seq<Entry>, exclusiveOnly: bool, limit: int, n: nat)
    ensures var r := FirstPass(l, exclusiveOnly, limit, n); multiset(r.woken) + Bag(r.kept) == Bag(l)
  {
    if l != [] && !Done(limit, n) {
      FirstPassConserves(l[1..], exclusiveOnly, limit, if l[0].exclusive then n + |TaskOf(l[0])| else n);
    }
  }

  lemma {:induction false} SecondPassConserves(l: seq<Entry>, limit: int, n: nat)
    ensures var r := SecondPass(l, limit, n); multiset(r.woken) + Bag(r.kept) == Bag(l)
  {
    if l != [] && !Done(limit, n) {
      SecondPassConserves(l[1..], limit, if l[0].exclusive then n else n + |TaskOf(l[0])|);
    }
  }

  /** Whatever the arguments, the tasks woken and the tasks still linked are together those that were linked. */
  lemma WakeConserves(l: seq<Entry>, exclusiveOnly: bool, limit: int)
    ensures var r := WakeCommon(l, exclusiveOnly, limit); multiset(r.woken) + Bag(r.kept) == Bag(l)
  {
    FirstPassConserves(l, exclusiveOnly, limit, 0);
    var r1 := FirstPass(l, exclusiveOnly, limit, 0);
    SecondPassConserves(r1.kept, limit, |r1.woken|);
  }
}
