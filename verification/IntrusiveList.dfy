/**
 The intrusive circular list (kernel/list/list.c, kernel/list/list.h): every operation rewrites
 `next` and `prev` pointers in place and is proved to act on the sequence of linked nodes.
 */
module IntrusiveList {

  class ListHead {
    var next: ListHead
    var prev: ListHead

    /** INIT_LIST_HEAD on a new node. */
    constructor ()
      ensures next == this && prev == this
    {
      next, prev := this, this;
    }
  }

  ghost predicate NoRepeats(s: seq<ListHead>)
  {
    forall i, j :: 0 <= i < j < |s| ==> s[i] != s[j]
  }

  /** The ring through `head` links exactly the nodes of `s`, in that order, both ways round. */
  ghost predicate IsList(head: ListHead, s: seq<ListHead>)
    reads head, s
  {
    && head !in s && NoRepeats(s)
    && head.next == (if s == [] then head else s[0])
    && head.prev == (if s == [] then head else s[|s| - 1])
    && (s != [] ==> s[0].prev == head && s[|s| - 1].next == head)
    && (forall i {:trigger s[i].next} :: 0 <= i < |s| - 1 ==> s[i].next == s[i + 1])
    && (forall i {:trigger s[i].prev} :: 1 <= i < |s| ==> s[i].prev == s[i - 1])
  }

  /** Two rings that share no node. */
  ghost predicate Apart(h1: ListHead, s1: seq<ListHead>, h2: ListHead, s2: seq<ListHead>)
  {
    h1 != h2 && h1 !in s2 && h2 !in s1 && forall x :: x in s1 ==> x !in s2
  }

  // ---- insertion and removal -------------------------------------------------------

  /** `__list_add`. */
  method Insert(n: ListHead, prev: ListHead, next: ListHead)
    requires n != prev && n != next
    modifies n, prev`next, next`prev
    ensures n.next == next && n.prev == prev && prev.next == n && next.prev == n
  {
    next.prev := n;
    n.next := next;
    n.prev := prev;
    prev.next := n;
  }

  method Add(n: ListHead, head: ListHead, ghost s: seq<ListHead>)
    requires IsList(head, s) && n != head && n !in s
    modifies n, head, s
    ensures IsList(head, [n] + s)
  {
    Insert(n, head, head.next);
  }

  method AddTail(n: ListHead, head: ListHead, ghost s: seq<ListHead>)
    requires IsList(head, s) && n != head && n !in s
    modifies n, head, s
    ensures IsList(head, s + [n])
  {
    Insert(n, head.prev, head);
  }

  lemma Dropped(s: seq<ListHead>, k: nat)
    requires NoRepeats(s) && k < |s|
    ensures var r := s[..k] + s[k + 1..];
            && |r| == |s| - 1 && NoRepeats(r) && s[k] !in r
            && (forall i :: 0 <= i < |r| ==> r[i] == if i < k then s[i] else s[i + 1])
            && (forall x :: x in r ==> x in s)
  {
  }

  /** `__list_del` on node `k`: its neighbours point at each other; on an unlinked node nothing changes. */
  method Bypass(entry: ListHead, head: ListHead, ghost s: seq<ListHead>, ghost k: nat)
    requires IsList(head, s)
    requires (head == entry && s == []) || (k < |s| && s[k] == entry)
    modifies head, s
    ensures entry == head ==> IsList(head, [])
    ensures entry != head ==> IsList(head, s[..k] + s[k + 1..]) && entry !in s[..k] + s[k + 1..]
    ensures unchanged(entry)
  {
    if entry != head { Dropped(s, k); }
    entry.next.prev := entry.prev;
    entry.prev.next := entry.next;
  }

  /** `list_del`. */
  method Delete(entry: ListHead, head: ListHead, ghost s: seq<ListHead>, ghost k: nat)
    requires IsList(head, s) && k < |s| && s[k] == entry
    modifies head, s
    ensures IsList(head, s[..k] + s[k + 1..])
    ensures unchanged(entry)
  {
    Bypass(entry, head, s, k);
  }

  /** `list_del_init`; on a node that is not linked (its own empty ring) nothing changes. */
  method DeleteInit(entry: ListHead, head: ListHead, ghost s: seq<ListHead>, ghost k: nat)
    requires IsList(head, s)
    requires (head == entry && s == []) || (k < |s| && s[k] == entry)
    modifies head, s
    ensures IsList(entry, [])
    ensures entry != head ==> IsList(head, s[..k] + s[k + 1..])
  {
    Bypass(entry, head, s, k);
    entry.next := entry;
    entry.prev := entry;
  }

  method Replace(old_: ListHead, new_: ListHead, head: ListHead, ghost s: seq<ListHead>, ghost k: nat)
    requires IsList(head, s) && k < |s| && s[k] == old_ && new_ != head && new_ !in s
    modifies head, s, new_
    ensures IsList(head, s[k := new_])
  {
    new_.next := old_.next;
    new_.next.prev := new_;
    new_.prev := old_.prev;
    new_.prev.next := new_;
  }

  // ---- queries ---------------------------------------------------------------------

  method IsEmpty(head: ListHead, ghost s: seq<ListHead>) returns (r: bool)
    requires IsList(head, s)
    ensures r <==> s == []
  {
    r := head.next == head;
  }

  method IsSingular(head: ListHead, ghost s: seq<ListHead>) returns (r: bool)
    requires IsList(head, s)
    ensures r <==> |s| == 1
  {
    r := head.next != head && head.next == head.prev;
    if |s| > 1 { assert s[0] != s[|s| - 1]; }
  }

  method Count(head: ListHead, ghost s: seq<ListHead>) returns (n: nat)
    requires IsList(head, s)
    ensures n == |s|
  {
    n := 0;
    var pos := head.next;
    while pos != head
      invariant n <= |s|
      invariant pos == if n == |s| then head else s[n]
      decreases |s| - n
    {
      n := n + 1;
      pos := pos.next;
    }
  }

  lemma ConcatNoRepeats(s1: seq<ListHead>, s2: seq<ListHead>)
    requires NoRepeats(s1) && NoRepeats(s2) && forall x :: x in s1 ==> x !in s2
    ensures NoRepeats(s1 + s2)
  {
    forall i, j | 0 <= i < j < |s1 + s2| ensures (s1 + s2)[i] != (s1 + s2)[j] {
      if i < |s1| <= j {
        assert s1[i] in s1 && s2[j - |s1|] in s2;
      }
    }
  }

  /** Neighbours in the sequence point at each other. */
  ghost predicate Inner(s: seq<ListHead>)
    reads s
  {
    && (forall i {:trigger s[i].next} :: 0 <= i < |s| - 1 ==> s[i].next == s[i + 1])
    && (forall i {:trigger s[i].prev} :: 1 <= i < |s| ==> s[i].prev == s[i - 1])
  }

  lemma JoinedRing(head: ListHead, s1: seq<ListHead>, s2: seq<ListHead>)
    requires NoRepeats(s1) && NoRepeats(s2) && (forall x :: x in s1 ==> x !in s2) && head !in s1 && head !in s2
    requires s1 != [] && Inner(s1) && Inner(s2) && head.next == s1[0] && s1[0].prev == head
    requires s2 == [] ==> head.prev == s1[|s1| - 1] && s1[|s1| - 1].next == head
    requires s2 != [] ==> s1[|s1| - 1].next == s2[0] && s2[0].prev == s1[|s1| - 1]
    requires s2 != [] ==> head.prev == s2[|s2| - 1] && s2[|s2| - 1].next == head
    ensures IsList(head, s1 + s2)
  {
    ConcatNoRepeats(s1, s2);
  }

  // ---- splicing --------------------------------------------------------------------

  /** `list_splice`: the source head is left pointing into the other ring, not emptied as documented. */
  method Splice(list: ListHead, head: ListHead, ghost s1: seq<ListHead>, ghost s2: seq<ListHead>)
    requires IsList(list, s1) && IsList(head, s2) && Apart(list, s1, head, s2)
    modifies head, s1, s2
    ensures IsList(head, s1 + s2)
    ensures unchanged(list)
  {
    var empty := IsEmpty(list, s1);
    if !empty {
      var first, last, headNext := list.next, list.prev, head.next;
      assert first == s1[0] && last == s1[|s1| - 1] && headNext == if s2 == [] then head else s2[0];
      first.prev := head;
      head.next := first;
      last.next := headNext;
      headNext.prev := last;
      assert Inner(s1) && Inner(s2);
      JoinedRing(head, s1, s2);
    } else {
      assert s1 + s2 == s2;
    }
  }

  method SpliceTail(list: ListHead, head: ListHead, ghost s1: seq<ListHead>, ghost s2: seq<ListHead>)
    requires IsList(list, s1) && IsList(head, s2) && Apart(list, s1, head, s2)
    modifies head, s1, s2
    ensures IsList(head, s2 + s1)
    ensures unchanged(list)
  {
    ConcatNoRepeats(s2, s1);
    if list.next != list {
      var first, last, headPrev := list.next, list.prev, head.prev;
      head.prev := last;
      last.next := head;
      headPrev.next := first;
      first.prev := headPrev;
    } else {
      assert s2 + s1 == s2;
    }
  }

  method SpliceInit(list: ListHead, head: ListHead, ghost s1: seq<ListHead>, ghost s2: seq<ListHead>)
    requires IsList(list, s1) && IsList(head, s2) && Apart(list, s1, head, s2)
    modifies list, head, s1, s2
    ensures IsList(head, s1 + s2) && IsList(list, [])
  {
    ConcatNoRepeats(s1, s2);
    if list.next != list {
      var first, last, headNext := list.next, list.prev, head.next;
      first.prev := head;
      head.next := first;
      last.next := headNext;
      headNext.prev := last;
      list.next := list;
      list.prev := list;
    } else {
      assert s1 + s2 == s2;
    }
  }

  // ---- cutting ---------------------------------------------------------------------

  /**
   `list_cut_position`, cutting before entry `k` of the ring, before its head (`k == |s|`, the
   whole list), or before a node that is not linked (`k > |s|`).
   */
  method CutPosition(list: ListHead, head: ListHead, entry: ListHead, ghost s: seq<ListHead>, ghost k: nat)
    requires IsList(head, s) && list != head && list !in s && list != entry
    requires if k < |s| then entry == s[k] else if k == |s| then entry == head else entry != head && entry !in s
    requires k > |s| ==> |s| <= 1
    modifies list, head, s
    ensures 0 < k <= |s| ==> IsList(list, s[..k]) && IsList(head, s[k..])
    ensures (s == [] || k > |s|) ==> IsList(list, []) && IsList(head, s)
    ensures k == 0 && s != [] ==> IsList(head, s) && list.next == s[0] && list.prev == head
  {
    if head.next == head {
      list.next, list.prev := list, list;
      return;
    }
    var singular := IsSingular(head, s);
    if singular && head.next != entry && head != entry {
      list.next, list.prev := list, list;
      return;
    }
    if entry == head {
      list.next := head.next;
      list.prev := head.prev;
      list.next.prev := list;
      list.prev.next := list;
      head.next, head.prev := head, head;
      assert s[..k] == s;
    } else {
      CutBefore(list, head, entry, s, k);
    }
  }

  /** The general case: the pointers at both ends of the part that is cut off. */
  method CutBefore(list: ListHead, head: ListHead, entry: ListHead, ghost s: seq<ListHead>, ghost k: nat)
    requires IsList(head, s) && list != head && list !in s && k < |s| && entry == s[k]
    modifies list, head, s
    ensures 0 < k ==> IsList(list, s[..k]) && IsList(head, s[k..])
    ensures k == 0 ==> IsList(head, s) && list.next == s[0] && list.prev == head
  {
    list.next := head.next;
    list.prev := entry.prev;
    list.next.prev := list;
    list.prev.next := list;
    head.next := entry;
    entry.prev := head;
  }

  /** Cutting before the first entry leaves the destination head in no well-formed list at all. */
  lemma CutAtFirstIsNoList(list: ListHead, head: ListHead, s: seq<ListHead>, t: seq<ListHead>)
    requires IsList(head, s) && s != [] && list != head && list !in s
    requires list.next == s[0] && list.prev == head
    ensures !IsList(list, t)
  {
  }

  /** Cutting at an entry past the first and splicing back restores the list. */
  method CutThenSplice(list: ListHead, head: ListHead, entry: ListHead, ghost s: seq<ListHead>, ghost k: nat)
    requires IsList(head, s) && list != head && list !in s && 0 < k < |s| && entry == s[k]
    modifies list, head, s
    ensures IsList(head, s)
  {
    CutPosition(list, head, entry, s, k);
    assert s == s[..k] + s[k..];
    Splice(list, head, s[..k], s[k..]);
  }

  // ---- swapping the active and expired arrays --------------------------------------

  /** Three splices through a temporary head exchange two lists, order kept. */
  method SwapLevel(a: ListHead, e: ListHead, ghost sa: seq<ListHead>, ghost se: seq<ListHead>)
    requires IsList(a, sa) && IsList(e, se) && Apart(a, sa, e, se)
    modifies a, e, sa, se
    ensures IsList(a, se) && IsList(e, sa)
  {
    var temp := new ListHead();
    assert sa + [] == sa && se + [] == se;
    MoveAll(a, temp, sa, e, se);
    MoveAll(e, a, se, temp, sa);
    MoveAll(temp, e, sa, a, se);
  }

  /** One splice onto an empty head; a third ring, sharing no node with either, is not touched. */
  method MoveAll(list: ListHead, head: ListHead, ghost s: seq<ListHead>, ghost other: ListHead, ghost so: seq<ListHead>)
    requires IsList(list, s) && IsList(head, []) && list != head && head !in s
    requires IsList(other, so) && Apart(list, s, other, so) && head != other && head !in so
    modifies list, head, s
    ensures IsList(head, s) && IsList(list, []) && IsList(other, so)
  {
    SpliceInit(list, head, s, []);
    assert s + [] == s;
    assert forall i :: 0 <= i < |so| ==>
             so[i] in so && so[i].next == old(so[i].next) && so[i].prev == old(so[i].prev);
  }

  /** All the rings of the two level arrays, pairwise without a common node, inside `nodes`. */
  ghost predicate Levels(active: seq<ListHead>, expired: seq<ListHead>,
                         a: seq<seq<ListHead>>, e: seq<seq<ListHead>>, nodes: set<ListHead>)
  {
    && |active| == |expired| == |a| == |e|
    && (forall i :: 0 <= i < |a| ==> Within(active[i], a[i], nodes) && Within(expired[i], e[i], nodes))
    && (forall i, j :: 0 <= i < |a| && 0 <= j < |a| ==> Apart(active[i], a[i], expired[j], e[j]))
    && (forall i, j :: 0 <= i < |a| && 0 <= j < |a| && i != j ==> Apart(active[i], a[i], active[j], a[j]))
    && (forall i, j :: 0 <= i < |a| && 0 <= j < |a| && i != j ==> Apart(expired[i], e[i], expired[j], e[j]))
  }

  ghost predicate Within(head: ListHead, s: seq<ListHead>, nodes: set<ListHead>)
  {
    head in nodes && forall x :: x in s ==> x in nodes
  }

  /** The levels below `i` have been swapped, the others not yet. */
  ghost predicate SwappedBelow(active: array<ListHead>, expired: array<ListHead>,
                               a: seq<seq<ListHead>>, e: seq<seq<ListHead>>, nodes: set<ListHead>, i: nat)
    reads active, expired, nodes
  {
    && Levels(active[..], expired[..], a, e, nodes)
    && forall j :: 0 <= j < active.Length ==> LevelOk(active[j], expired[j], a[j], e[j], j < i, nodes)
  }

  ghost predicate LevelOk(active: ListHead, expired: ListHead, a: seq<ListHead>, e: seq<ListHead>, swapped: bool,
                          nodes: set<ListHead>)
    requires Within(active, a, nodes) && Within(expired, e, nodes)
    reads nodes
  {
    if swapped then IsList(active, e) && IsList(expired, a) else IsList(active, a) && IsList(expired, e)
  }

  datatype Ring = Ring(head: ListHead, nodes: seq<ListHead>)

  /** A ring that shares no node with the two being swapped. */
  ghost predicate Beside(r: Ring, a: ListHead, e: ListHead, sa: seq<ListHead>, se: seq<ListHead>)
    reads r.head, r.nodes
  {
    IsList(r.head, r.nodes) && Apart(a, sa, r.head, r.nodes) && Apart(e, se, r.head, r.nodes)
  }

  /** Swapping a level leaves every ring beside it alone. */
  method SwapLevelBeside(a: ListHead, e: ListHead, ghost sa: seq<ListHead>, ghost se: seq<ListHead>,
                         ghost rings: set<Ring>)
    requires IsList(a, sa) && IsList(e, se) && Apart(a, sa, e, se)
    requires forall r :: r in rings ==> Beside(r, a, e, sa, se)
    modifies a, e, sa, se
    ensures IsList(a, se) && IsList(e, sa)
    ensures forall r :: r in rings ==> IsList(r.head, r.nodes)
  {
    SwapLevel(a, e, sa, se);
    forall r | r in rings ensures IsList(r.head, r.nodes) {
      assert old(Beside(r, a, e, sa, se));
      ghost var h, s := r.head, r.nodes;
      assert h.next == old(h.next) && h.prev == old(h.prev);
      assert forall k :: 0 <= k < |s| ==> s[k] in s && s[k].next == old(s[k].next) && s[k].prev == old(s[k].prev);
    }
  }

  /** The rings of the levels other than `i`, when those below `i` have been swapped. */
  ghost function OtherRings(active: seq<ListHead>, expired: seq<ListHead>,
                            a: seq<seq<ListHead>>, e: seq<seq<ListHead>>, i: nat): set<Ring>
    requires |active| == |expired| == |a| == |e|
  {
    (set j | 0 <= j < |active| && j != i :: Ring(active[j], if j < i then e[j] else a[j]))
    + (set j | 0 <= j < |active| && j != i :: Ring(expired[j], if j < i then a[j] else e[j]))
  }

  method SwapAt(active: array<ListHead>, expired: array<ListHead>,
                ghost a: seq<seq<ListHead>>, ghost e: seq<seq<ListHead>>, ghost nodes: set<ListHead>, i: nat)
    requires i < active.Length && SwappedBelow(active, expired, a, e, nodes, i)
    modifies nodes
    ensures SwappedBelow(active, expired, a, e, nodes, i + 1)
  {
    hide IsList, Levels;
    ghost var hs, ts := active[..], expired[..];
    LevelFacts(hs, ts, a, e, nodes, i);
    assert LevelOk(active[i], expired[i], a[i], e[i], false, nodes);
    ghost var rings := OtherRings(hs, ts, a, e, i);
    forall r | r in rings ensures Beside(r, active[i], expired[i], a[i], e[i]) {
      ghost var j :| 0 <= j < |hs| && j != i &&
                     (r == Ring(hs[j], if j < i then e[j] else a[j]) || r == Ring(ts[j], if j < i then a[j] else e[j]));
      assert LevelOk(active[j], expired[j], a[j], e[j], j < i, nodes);
    }
    SwapLevelBeside(active[i], expired[i], a[i], e[i], rings);
    forall j | 0 <= j < active.Length ensures LevelOk(active[j], expired[j], a[j], e[j], j < i + 1, nodes) {
      if j != i {
        assert Ring(hs[j], if j < i then e[j] else a[j]) in rings;
        assert Ring(ts[j], if j < i then a[j] else e[j]) in rings;
      }
    }
  }

  /** `prio_swap_active_expired`: every level's two lists change places, each in its old order. */
  method SwapArrays(active: array<ListHead>, expired: array<ListHead>,
                    ghost a: seq<seq<ListHead>>, ghost e: seq<seq<ListHead>>, ghost nodes: set<ListHead>)
    requires Levels(active[..], expired[..], a, e, nodes)
    requires forall i :: 0 <= i < active.Length ==> IsList(active[i], a[i]) && IsList(expired[i], e[i])
    modifies nodes
    ensures forall i :: 0 <= i < active.Length ==> IsList(active[i], e[i]) && IsList(expired[i], a[i])
  {
    var i := 0;
    while i < active.Length
      invariant 0 <= i <= active.Length
      invariant SwappedBelow(active, expired, a, e, nodes, i)
    {
      SwapAt(active, expired, a, e, nodes, i);
      i := i + 1;
    }
  }

  lemma LevelFacts(active: seq<ListHead>, expired: seq<ListHead>,
                   a: seq<seq<ListHead>>, e: seq<seq<ListHead>>, nodes: set<ListHead>, i: nat)
    requires Levels(active, expired, a, e, nodes) && i < |active|
    ensures |active| == |expired| == |a| == |e|
    ensures forall j :: 0 <= j < |a| ==> Within(active[j], a[j], nodes) && Within(expired[j], e[j], nodes)
    ensures Within(active[i], a[i], nodes) && Within(expired[i], e[i], nodes)
    ensures Apart(active[i], a[i], expired[i], e[i])
    ensures forall j :: 0 <= j < |a| && j != i ==>
              && Apart(active[i], a[i], active[j], a[j]) && Apart(active[i], a[i], expired[j], e[j])
              && Apart(expired[i], e[i], expired[j], e[j]) && Apart(active[j], a[j], expired[i], e[i])
              && Apart(active[i], a[i], active[j], e[j]) && Apart(expired[i], e[i], active[j], e[j])
              && Apart(active[i], a[i], expired[j], a[j]) && Apart(expired[i], e[i], expired[j], a[j])
  {
  }
}
