/**
 Run queues as sequences of task ids, and arrays of run queues.  A run queue in the kernel
 is an intrusive list; module IntrusiveList shows that the list operations act on the
 sequence of linked nodes as the operations used here do.
 */
module TaskQueues {

  /** A task is identified by its PID; PID 0 is available to the idle task. */
  type Tid = nat

  /** The queue after `t` is unlinked; nothing happens when `t` is not linked. */
  function Without(q: seq<Tid>, t: Tid): seq<Tid>
  {
    if q == [] then []
    else if q[0] == t then Without(q[1..], t)
    else [q[0]] + Without(q[1..], t)
  }

  lemma {:induction false} WithoutBag(q: seq<Tid>, t: Tid)
    ensures multiset(Without(q, t)) == multiset(q)[t := 0]
  {
    if q != [] {
      WithoutBag(q[1..], t);
      assert q == [q[0]] + q[1..];
    }
  }

  lemma {:induction false} WithoutAbsent(q: seq<Tid>, t: Tid)
    requires t !in q
    ensures Without(q, t) == q
  {
    if q != [] { WithoutAbsent(q[1..], t); }
  }

  /** Removal keeps the order of everything else. */
  lemma {:induction false} WithoutMiddle(a: seq<Tid>, t: Tid, b: seq<Tid>)
    requires t !in a && t !in b
    ensures Without(a + [t] + b, t) == a + b
  {
    if a == [] {
      assert [] + [t] + b == [t] + b;
      WithoutAbsent(b, t);
    } else {
      assert (a + [t] + b)[1..] == a[1..] + [t] + b;
      WithoutMiddle(a[1..], t, b);
    }
  }

  ghost predicate NoRepeats(q: seq<Tid>)
  {
    forall i, j :: 0 <= i < j < |q| ==> q[i] != q[j]
  }

  lemma {:induction false} WithoutMembers(q: seq<Tid>, t: Tid)
    ensures forall x :: x in Without(q, t) <==> x in q && x != t
    ensures NoRepeats(q) ==> NoRepeats(Without(q, t))
  {
    if q != [] {
      WithoutMembers(q[1..], t);
      assert q == [q[0]] + q[1..];
      if NoRepeats(q) { assert q[0] !in q[1..]; }
    }
  }

  /** The queue is in the order of `since`. */
  ghost predicate InOrder(q: seq<Tid>, since: Tid -> int)
  {
    forall i, j :: 0 <= i < j < |q| ==> since(q[i]) < since(q[j])
  }

  lemma {:induction false} WithoutOrdered(q: seq<Tid>, t: Tid, since: Tid -> int)
    requires InOrder(q, since)
    ensures InOrder(Without(q, t), since)
  {
    if q != [] {
      WithoutOrdered(q[1..], t, since);
      WithoutMembers(q[1..], t);
      var r := Without(q[1..], t);
      forall i | 0 <= i < |r| ensures since(q[0]) < since(r[i]) {
        assert r[i] in q[1..];
      }
    }
  }

  lemma AppendOrdered(q: seq<Tid>, t: Tid, since: Tid -> int)
    requires InOrder(q, since) && forall x :: x in q ==> since(x) < since(t)
    ensures InOrder(q + [t], since)
  {
  }

  /** Every task linked on some queue of the array, with its multiplicity. */
  ghost function Bag(qs: seq<seq<Tid>>): multiset<Tid>
  {
    if qs == [] then multiset{} else multiset(qs[0]) + Bag(qs[1..])
  }

  lemma {:induction false} BagUpdate(qs: seq<seq<Tid>>, l: nat, q: seq<Tid>)
    requires l < |qs|
    ensures multiset(qs[l]) <= Bag(qs)
    ensures Bag(qs[l := q]) == Bag(qs) - multiset(qs[l]) + multiset(q)
  {
    if l == 0 {
      assert qs[l := q][1..] == qs[1..];
    } else {
      BagUpdate(qs[1..], l - 1, q);
      assert qs[l := q][1..] == qs[1..][l - 1 := q];
    }
  }

  lemma {:induction false} BagMember(qs: seq<seq<Tid>>, t: Tid)
    ensures t in Bag(qs) <==> exists l :: 0 <= l < |qs| && t in qs[l]
  {
    if qs != [] {
      BagMember(qs[1..], t);
      assert t in multiset(qs[0]) <==> t in qs[0];
      if l :| 0 <= l < |qs| && t in qs[l] {
        assert l == 0 || t in qs[1..][l - 1];
      }
      if l :| 0 <= l < |qs| - 1 && t in qs[1..][l] {
        assert t in qs[l + 1];
      }
    }
  }

  lemma {:induction false} BagEmpty(qs: seq<seq<Tid>>)
    ensures |Bag(qs)| == 0 <==> forall l :: 0 <= l < |qs| ==> qs[l] == []
  {
    if qs != [] {
      BagEmpty(qs[1..]);
      assert |Bag(qs)| == |qs[0]| + |Bag(qs[1..])|;
      if forall l :: 0 <= l < |qs| ==> qs[l] == [] {
        assert forall l :: 0 <= l < |qs| - 1 ==> qs[1..][l] == qs[l + 1];
      }
      if forall l :: 0 <= l < |qs| - 1 ==> qs[1..][l] == [] {
        assert forall l :: 1 <= l < |qs| ==> qs[l] == qs[1..][l - 1];
      }
    }
  }

  /** Unlinks `t` from whichever queue of the array holds it. */
  function WithoutAll(qs: seq<seq<Tid>>, t: Tid): (r: seq<seq<Tid>>)
    ensures |r| == |qs|
    ensures forall l :: 0 <= l < |qs| ==> r[l] == Without(qs[l], t)
  {
    seq(|qs|, l requires 0 <= l < |qs| => Without(qs[l], t))
  }

  lemma {:induction false} BagWithout(qs: seq<seq<Tid>>, t: Tid)
    ensures Bag(WithoutAll(qs, t)) == Bag(qs)[t := 0]
  {
    if qs != [] {
      BagWithout(qs[1..], t);
      WithoutBag(qs[0], t);
      assert WithoutAll(qs, t)[1..] == WithoutAll(qs[1..], t);
    }
  }

  lemma BagWithoutCard(qs: seq<seq<Tid>>, t: Tid)
    ensures |Bag(WithoutAll(qs, t))| == |Bag(qs)| - Bag(qs)[t]
  {
    BagWithout(qs, t);
    var m := Bag(qs);
    assert m == m[t := 0] + multiset{}[t := m[t]];
  }

  /** A queue array in which nothing is linked. */
  function NoQueues(n: nat): (r: seq<seq<Tid>>)
    ensures |r| == n && forall l :: 0 <= l < n ==> r[l] == []
  {
    seq(n, _ => [])
  }
}
