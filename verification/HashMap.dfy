/**
 The generic hash map (kernel/base/hashmap.c).  Keys are compared with a caller-supplied equality
 and hashed with a caller-supplied function; the map is proved to be a finite map on the
 equivalence classes of keys.  Values are pointers and may be NULL.
 */
module HashMap {
  import opened Common

  // ---- bucket counts and indices ---------------------------------------------------

  function Smeared(b0: bv64): bv64
  {
    var b1 := b0 | (b0 >> 1);
    var b2 := b1 | (b1 >> 2);
    var b3 := b2 | (b2 >> 4);
    var b4 := b3 | (b3 >> 8);
    b4 | (b4 >> 16)
  }

  /** The rounding in `hashmap_create`. */
  function RoundUp(n: bv64): bv64
  {
    if n & (n - 1) == 0 then n else Smeared(n - 1) + 1
  }

  /** The bucket count as a number. */
  function BucketCount(n: bv64): (r: nat)
    ensures r == 0 <==> RoundUp(n) == 0
  {
    RoundUp(n) as nat
  }

  /** The least power of two that is at least `n`. */
  predicate IsLeastPower(n: bv64, r: bv64)
  {
    r != 0 && r & (r - 1) == 0 && n <= r && (r >> 1) < n
  }

  /** Zero, or one of the 32 lowest bits is set. */
  predicate Window(b: bv64)
  {
    b == 0 || b & 0xFFFF_FFFF != 0
  }

  predicate FourWindows(b: bv64)
  {
    Window(b) && Window(b >> 1) && Window(b >> 2) && Window(b >> 3)
  }

  predicate SixteenWindows(b: bv64)
  {
    FourWindows(b) && FourWindows(b >> 4) && FourWindows(b >> 8) && FourWindows(b >> 12)
  }

  /** Below its top bit `b` has no 32 zeros in a row: at none of the 32 positions where they could begin. */
  predicate NoGap(b: bv64)
  {
    SixteenWindows(b) && SixteenWindows(b >> 16)
  }

  /**
   The bucket count is the least power of two that is at least the request if and only if the
   request is a power of two already, or some power of two is large enough and one less than the
   request has no gap of 32 zeros: the shift by 32 of the usual idiom is missing.
   */
  lemma RoundUpIsLeastPowerIff(n: bv64)
    requires n != 0
    ensures IsLeastPower(n, RoundUp(n)) <==>
            n & (n - 1) == 0 || (n <= 0x8000_0000_0000_0000 && NoGap(n - 1))
  {
    hide Smeared, NoGap;
    if n & (n - 1) != 0 { RoundedIff(n); } else { PowerIsLeast(n); }
  }

  lemma PowerIsLeast(n: bv64)
    requires n != 0 && n & (n - 1) == 0
    ensures IsLeastPower(n, n)
  {
  }

  /** Smearing by 1, 2, 4, 8 and 16 fills everything below the top bit when there is no gap ... */
  lemma NoGapFills(n: bv64)
    requires n > 1
    ensures var r := Smeared(n - 1) + 1;
            NoGap(n - 1) ==> r & (r - 1) == 0 && (n > 0x8000_0000_0000_0000 ==> r == 0)
  {
  }

  /** ... and not when there is one. */
  lemma LowGapStays(n: bv64)
    requires n > 1
    ensures !SixteenWindows(n - 1) ==> !IsLeastPower(n, Smeared(n - 1) + 1)
  {
  }

  lemma HighGapStays(n: bv64)
    requires n > 1
    ensures !SixteenWindows((n - 1) >> 16) ==> !IsLeastPower(n, Smeared(n - 1) + 1)
  {
  }

  lemma SmearedIsLarge(n: bv64)
    requires n > 1
    ensures n <= 0x8000_0000_0000_0000 ==> n <= Smeared(n - 1) + 1
  {
  }

  lemma SmearedIsSmall(n: bv64)
    requires n > 1
    ensures n <= 0x8000_0000_0000_0000 ==> (Smeared(n - 1) + 1) >> 1 < n
  {
  }

  lemma SmearedCarries(n: bv64)
    requires n > 1
    ensures n <= 0x8000_0000_0000_0000 || !NoGap(n - 1) ==> Smeared(n - 1) + 1 != 0
  {
  }

  lemma RoundedIff(n: bv64)
    requires n > 1
    ensures IsLeastPower(n, Smeared(n - 1) + 1) <==> n <= 0x8000_0000_0000_0000 && NoGap(n - 1)
    ensures Smeared(n - 1) + 1 == 0 <==> n > 0x8000_0000_0000_0000 && NoGap(n - 1)
  {
    NoGapFills(n);
    LowGapStays(n);
    HighGapStays(n);
    SmearedIsLarge(n);
    SmearedIsSmall(n);
    SmearedCarries(n);
  }

  /** Up to 2^32 that is always so. */
  lemma RoundUpIsLeastPower(n: bv64)
    requires 0 < n <= 0x1_0000_0000
    ensures IsLeastPower(n, RoundUp(n))
  {
  }

  /** The bucket count is zero if and only if the request is, or no power of two is large enough and there is no gap. */
  lemma RoundUpZeroIff(n: bv64)
    ensures RoundUp(n) == 0 <==> n == 0 || (n > 0x8000_0000_0000_0000 && NoGap(n - 1))
  {
    hide Smeared, NoGap;
    if n & (n - 1) != 0 { RoundedIff(n); } else if n != 0 { PowerHasNoCarry(n); }
  }

  lemma PowerHasNoCarry(n: bv64)
    requires n != 0 && n & (n - 1) == 0
    ensures n <= 0x8000_0000_0000_0000
  {
  }

  /** Beyond 2^32 either may happen. */
  lemma RoundUpBeyond()
    ensures !IsLeastPower(0x2_0000_0001, RoundUp(0x2_0000_0001))
    ensures IsLeastPower(0x1_FFFF_FFFF, RoundUp(0x1_FFFF_FFFF))
    ensures RoundUp(0xFFFF_FFFF_FFFF_FFFF) == 0
  {
  }

  /** Bitwise and on natural numbers. */
  function And(a: nat, b: nat): nat
  {
    if a == 0 || b == 0 then 0 else a % 2 * (b % 2) + 2 * And(a / 2, b / 2)
  }

  lemma {:induction false} AndBelow(a: nat, b: nat)
    ensures And(a, b) <= b
  {
    if a != 0 && b != 0 { AndBelow(a / 2, b / 2); }
  }

  /** `bucket_index`: in range for every bucket count, power of two or not. */
  function Index(hash: nat, buckets: nat): (i: nat)
    requires buckets > 0
    ensures i < buckets
  {
    AndBelow(hash, buckets - 1);
    And(hash, buckets - 1)
  }

  function Pow2(k: nat): (n: nat)
    ensures n > 0
  {
    if k == 0 then 1 else 2 * Pow2(k - 1)
  }

  lemma {:induction false} AndOdd(h: nat, n: nat)
    requires n > 0
    ensures And(h, 2 * n - 1) == h % 2 + 2 * And(h / 2, n - 1)
  {
    assert (2 * n - 1) % 2 == 1 && (2 * n - 1) / 2 == n - 1;
  }

  lemma IndexStep(h: nat, n: nat)
    requires n > 0 && And(h / 2, n - 1) == h / 2 % n
    ensures And(h, 2 * n - 1) == h % (2 * n)
  {
    hide And;
    AndOdd(h, n);
    HalvedModulo(h, n);
  }

  lemma IndexOne(h: nat)
    ensures And(h, 0) == 0 == h % 1
  {
  }

  /** For a bucket count that is a power of two the index is the hash modulo the count. */
  lemma {:induction false} IndexIsModulo(hash: nat, k: nat)
    ensures Index(hash, Pow2(k)) == hash % Pow2(k)
  {
    if k > 0 {
      hide And;
      IndexIsModulo(hash / 2, k - 1);
      IndexStep(hash, Pow2(k - 1));
      assert Pow2(k) == 2 * Pow2(k - 1);
    } else {
      IndexOne(hash);
    }
  }

  lemma HalvedModulo(h: nat, n: nat)
    requires n > 0
    ensures h % (2 * n) == h % 2 + 2 * (h / 2 % n)
  {
    var q, r := h / 2 / n, h / 2 % n;
    assert h / 2 == n * q + r;
    assert h == 2 * n * q + (2 * r + h % 2);
    ModuloOf(2 * n, q, 2 * r + h % 2);
  }

  lemma ModuloOf(m: nat, q: nat, r: nat)
    requires r < m
    ensures (m * q + r) % m == r
  {
    var d := (m * q + r) / m - q;
    assert m * q + r == m * (q + d) + (m * q + r) % m;
    assert m * d == r - (m * q + r) % m;
    assert d == 0;
  }

  // ---- what the buckets stand for --------------------------------------------------

  datatype Entry<K, V> = Entry(key: K, value: V)

  type Chain<K, V> = seq<Entry<K, V>>

  /**
   Every entry is in the bucket its hash selects and in the map, a bucket has no two entries of
   one class, and every class of the map has an entry.  `rep` picks one key per class.
   */
  ghost predicate Refines<K(!new), V>(bs: seq<Chain<K, V>>, m: map<K, V>, hash: K -> nat, rep: K -> K)
  {
    && |bs| > 0
    && (forall i :: 0 <= i < |bs| ==> ChainOk(bs[i], i, |bs|, m, hash, rep))
    && (forall c :: c in m ==> Stored(bs, c, rep))
  }

  ghost predicate ChainOk<K(!new), V>(chain: Chain<K, V>, i: nat, n: nat, m: map<K, V>, hash: K -> nat, rep: K -> K)
    requires n > 0
  {
    && (forall j :: 0 <= j < |chain| ==> EntryOk(chain[j], i, n, m, hash, rep))
    && (forall j, k :: 0 <= j < k < |chain| ==> rep(chain[j].key) != rep(chain[k].key))
  }

  ghost predicate EntryOk<K, V>(e: Entry<K, V>, i: nat, n: nat, m: map<K, V>, hash: K -> nat, rep: K -> K)
    requires n > 0
  {
    Index(hash(e.key), n) == i && rep(e.key) in m && m[rep(e.key)] == e.value
  }

  ghost predicate Stored<K, V>(bs: seq<Chain<K, V>>, c: K, rep: K -> K)
  {
    exists i, j :: 0 <= i < |bs| && 0 <= j < |bs[i]| && rep(bs[i][j].key) == c
  }

  /** Keys of one class have one hash. */
  ghost predicate Compatible<K(!new)>(hash: K -> nat, rep: K -> K)
  {
    forall a, b :: rep(a) == rep(b) ==> hash(a) == hash(b)
  }

  /** A class of the map is found in the bucket of any of its keys. */
  lemma StoredInSlot<K(!new), V>(bs: seq<Chain<K, V>>, m: map<K, V>, hash: K -> nat, rep: K -> K, key: K)
    returns (j: nat)
    requires Refines(bs, m, hash, rep) && Compatible(hash, rep) && rep(key) in m
    ensures var i := Index(hash(key), |bs|); j < |bs[i]| && rep(bs[i][j].key) == rep(key)
  {
    assert Stored(bs, rep(key), rep);
    var i, j' :| 0 <= i < |bs| && 0 <= j' < |bs[i]| && rep(bs[i][j'].key) == rep(key);
    assert ChainOk(bs[i], i, |bs|, m, hash, rep);
    assert EntryOk(bs[i][j'], i, |bs|, m, hash, rep);
    j := j';
  }

  /** An entry's class is in no other bucket and at no other place of its own. */
  lemma Unique<K(!new), V>(bs: seq<Chain<K, V>>, m: map<K, V>, hash: K -> nat, rep: K -> K,
                           i: nat, j: nat, i': nat, j': nat)
    requires Refines(bs, m, hash, rep) && Compatible(hash, rep)
    requires i < |bs| && j < |bs[i]| && i' < |bs| && j' < |bs[i']|
    ensures rep(bs[i][j].key) == rep(bs[i'][j'].key) <==> i == i' && j == j'
  {
    assert ChainOk(bs[i], i, |bs|, m, hash, rep) && ChainOk(bs[i'], i', |bs|, m, hash, rep);
    assert EntryOk(bs[i][j], i, |bs|, m, hash, rep) && EntryOk(bs[i'][j'], i', |bs|, m, hash, rep);
  }

  lemma UpdateRefines<K(!new), V>(bs: seq<Chain<K, V>>, m: map<K, V>, hash: K -> nat, rep: K -> K, i: nat, j: nat, v: V)
    requires Refines(bs, m, hash, rep) && Compatible(hash, rep) && i < |bs| && j < |bs[i]|
    ensures Refines(bs[i := bs[i][j := bs[i][j].(value := v)]], m[rep(bs[i][j].key) := v], hash, rep)
  {
    var e := bs[i][j];
    var bs', m' := bs[i := bs[i][j := e.(value := v)]], m[rep(e.key) := v];
    forall i' | 0 <= i' < |bs'| ensures ChainOk(bs'[i'], i', |bs'|, m', hash, rep) {
      assert ChainOk(bs[i'], i', |bs|, m, hash, rep);
      forall j' | 0 <= j' < |bs'[i']| ensures EntryOk(bs'[i'][j'], i', |bs'|, m', hash, rep) {
        assert EntryOk(bs[i'][j'], i', |bs|, m, hash, rep);
        Unique(bs, m, hash, rep, i, j, i', j');
      }
    }
    forall c | c in m' ensures Stored(bs', c, rep) {
      assert EntryOk(e, i, |bs|, m, hash, rep);
      assert Stored(bs, c, rep);
      var i', j' :| 0 <= i' < |bs| && 0 <= j' < |bs[i']| && rep(bs[i'][j'].key) == c;
      assert rep(bs'[i'][j'].key) == c;
    }
  }

  lemma EntryAt<K(!new), V>(bs: seq<Chain<K, V>>, m: map<K, V>, hash: K -> nat, rep: K -> K, i: nat, j: nat)
    requires Refines(bs, m, hash, rep) && i < |bs| && j < |bs[i]|
    ensures rep(bs[i][j].key) in m && m[rep(bs[i][j].key)] == bs[i][j].value
  {
    assert ChainOk(bs[i], i, |bs|, m, hash, rep);
    assert EntryOk(bs[i][j], i, |bs|, m, hash, rep);
  }

  lemma InsertChain<K(!new), V>(bs: seq<Chain<K, V>>, m: map<K, V>, hash: K -> nat, rep: K -> K, key: K, v: V, i': nat)
    requires Refines(bs, m, hash, rep) && rep(key) !in m && i' < |bs|
    ensures var chain := if i' == Index(hash(key), |bs|) then [Entry(key, v)] + bs[i'] else bs[i'];
            ChainOk(chain, i', |bs|, m[rep(key) := v], hash, rep)
  {
    hide Refines, Stored, And;
    assert ChainOk(bs[i'], i', |bs|, m, hash, rep) by { ChainOf(bs, m, hash, rep, i'); }
    forall j | 0 <= j < |bs[i']| ensures EntryOk(bs[i'][j], i', |bs|, m[rep(key) := v], hash, rep) {
      assert EntryOk(bs[i'][j], i', |bs|, m, hash, rep);
    }
  }

  lemma InsertRefines<K(!new), V>(bs: seq<Chain<K, V>>, m: map<K, V>, hash: K -> nat, rep: K -> K, key: K, v: V)
    requires Refines(bs, m, hash, rep) && rep(key) !in m
    ensures var i := Index(hash(key), |bs|);
            Refines(bs[i := [Entry(key, v)] + bs[i]], m[rep(key) := v], hash, rep)
  {
    var i := Index(hash(key), |bs|);
    var bs', m' := bs[i := [Entry(key, v)] + bs[i]], m[rep(key) := v];
    hide ChainOk, EntryOk, And;
    forall i' | 0 <= i' < |bs'| ensures ChainOk(bs'[i'], i', |bs'|, m', hash, rep) {
      InsertChain(bs, m, hash, rep, key, v, i');
    }
    forall c | c in m' ensures Stored(bs', c, rep) {
      if c == rep(key) {
        assert rep(bs'[i][0].key) == c;
      } else {
        assert Stored(bs, c, rep);
        var i', j' :| 0 <= i' < |bs| && 0 <= j' < |bs[i']| && rep(bs[i'][j'].key) == c;
        if i' == i { assert rep(bs'[i][j' + 1].key) == c; } else { assert rep(bs'[i'][j'].key) == c; }
      }
    }
  }

  lemma RemoveChain<K(!new), V>(bs: seq<Chain<K, V>>, m: map<K, V>, hash: K -> nat, rep: K -> K,
                                i: nat, j: nat, i': nat)
    requires Refines(bs, m, hash, rep) && Compatible(hash, rep) && i < |bs| && j < |bs[i]| && i' < |bs|
    ensures var chain := if i' == i then bs[i][..j] + bs[i][j + 1..] else bs[i'];
            ChainOk(chain, i', |bs|, m - {rep(bs[i][j].key)}, hash, rep)
  {
    hide Stored, Index, Refines, Compatible;
    var chain := if i' == i then bs[i][..j] + bs[i][j + 1..] else bs[i'];
    assert ChainOk(bs[i'], i', |bs|, m, hash, rep) by { ChainOf(bs, m, hash, rep, i'); }
    forall j' | 0 <= j' < |chain| ensures EntryOk(chain[j'], i', |bs|, m - {rep(bs[i][j].key)}, hash, rep) {
      var was := if i' == i && j' >= j then j' + 1 else j';
      assert EntryOk(bs[i'][was], i', |bs|, m, hash, rep);
      Unique(bs, m, hash, rep, i, j, i', was);
    }
  }

  lemma ChainOf<K(!new), V>(bs: seq<Chain<K, V>>, m: map<K, V>, hash: K -> nat, rep: K -> K, i: nat)
    requires Refines(bs, m, hash, rep) && i < |bs|
    ensures ChainOk(bs[i], i, |bs|, m, hash, rep)
  {
  }

  lemma RemoveRefines<K(!new), V>(bs: seq<Chain<K, V>>, m: map<K, V>, hash: K -> nat, rep: K -> K, i: nat, j: nat)
    requires Refines(bs, m, hash, rep) && Compatible(hash, rep) && i < |bs| && j < |bs[i]|
    ensures Refines(bs[i := bs[i][..j] + bs[i][j + 1..]], m - {rep(bs[i][j].key)}, hash, rep)
  {
    hide ChainOk, EntryOk, Compatible, Index;
    var c0 := rep(bs[i][j].key);
    var bs', m' := bs[i := bs[i][..j] + bs[i][j + 1..]], m - {c0};
    forall i' | 0 <= i' < |bs'| ensures ChainOk(bs'[i'], i', |bs'|, m', hash, rep) {
      RemoveChain(bs, m, hash, rep, i, j, i');
    }
    forall c | c in m' ensures Stored(bs', c, rep) {
      assert Stored(bs, c, rep);
      var i', j' :| 0 <= i' < |bs| && 0 <= j' < |bs[i']| && rep(bs[i'][j'].key) == c;
      var now := if i' == i && j' > j then j' - 1 else j';
      assert rep(bs'[i'][now].key) == c;
    }
  }

  // ---- every entry, once -----------------------------------------------------------

  /** All entries, bucket by bucket and down each chain. */
  function All<K, V>(bs: seq<Chain<K, V>>): Chain<K, V>
  {
    if bs == [] then [] else All(bs[..|bs| - 1]) + bs[|bs| - 1]
  }

  lemma {:induction false} AllAt<K, V>(bs: seq<Chain<K, V>>, a: nat) returns (i: nat, j: nat)
    requires a < |All(bs)|
    ensures i < |bs| && j < |bs[i]| && All(bs)[a] == bs[i][j]
  {
    var front := All(bs[..|bs| - 1]);
    if a < |front| {
      i, j := AllAt(bs[..|bs| - 1], a);
    } else {
      i, j := |bs| - 1, a - |front|;
    }
  }

  lemma {:induction false} AllHas<K, V>(bs: seq<Chain<K, V>>, i: nat, j: nat)
    requires i < |bs| && j < |bs[i]|
    ensures bs[i][j] in All(bs)
  {
    if i < |bs| - 1 { AllHas(bs[..|bs| - 1], i, j); }
  }

  /** No two entries are of one class. */
  lemma {:induction false} AllDistinct<K(!new), V>(bs: seq<Chain<K, V>>, m: map<K, V>, hash: K -> nat, rep: K -> K,
                                                   n: nat)
    requires Refines(bs, m, hash, rep) && Compatible(hash, rep) && n <= |bs|
    ensures forall a, b :: 0 <= a < b < |All(bs[..n])| ==> rep(All(bs[..n])[a].key) != rep(All(bs[..n])[b].key)
  {
    if n > 0 {
      AllDistinct(bs, m, hash, rep, n - 1);
      assert bs[..n][..n - 1] == bs[..n - 1];
      var front, last, all := All(bs[..n - 1]), bs[n - 1], All(bs[..n]);
      assert ChainOk(last, n - 1, |bs|, m, hash, rep);
      forall a, b | 0 <= a < b < |all| ensures rep(all[a].key) != rep(all[b].key) {
        if a < |front| <= b {
          var i, j := AllAt(bs[..n - 1], a);
          Unique(bs, m, hash, rep, i, j, n - 1, b - |front|);
        }
      }
    }
  }

  lemma {:induction false} DistinctCard<K>(s: seq<K>, t: set<K>)
    requires forall a, b :: 0 <= a < b < |s| ==> s[a] != s[b]
    requires forall x :: x in s <==> x in t
    ensures |s| == |t|
  {
    if s == [] {
      assert t == {};
    } else {
      var last := s[|s| - 1];
      assert last in s;
      forall x ensures x in s[..|s| - 1] <==> x in t - {last} {
        if x in t - {last} {
          var k :| 0 <= k < |s| && s[k] == x;
          assert s[..|s| - 1][k] == x;
        }
      }
      DistinctCard(s[..|s| - 1], t - {last});
    }
  }

  ghost function Classes<K, V>(es: Chain<K, V>, rep: K -> K): (r: seq<K>)
    ensures |r| == |es| && forall a :: 0 <= a < |es| ==> r[a] == rep(es[a].key)
  {
    seq(|es|, a requires 0 <= a < |es| => rep(es[a].key))
  }

  /** The entries are the map: as many as it has classes, each class once, with its value. */
  lemma AllIsTheMap<K(!new), V>(bs: seq<Chain<K, V>>, m: map<K, V>, hash: K -> nat, rep: K -> K)
    requires Refines(bs, m, hash, rep) && Compatible(hash, rep)
    ensures |All(bs)| == |m|
    ensures forall a, b :: 0 <= a < b < |All(bs)| ==> rep(All(bs)[a].key) != rep(All(bs)[b].key)
    ensures forall e :: e in All(bs) ==> rep(e.key) in m && m[rep(e.key)] == e.value
  {
    assert bs[..|bs|] == bs;
    AllDistinct(bs, m, hash, rep, |bs|);
    var es, cs := All(bs), Classes(All(bs), rep);
    forall a | 0 <= a < |es| ensures rep(es[a].key) in m && m[rep(es[a].key)] == es[a].value {
      var i, j := AllAt(bs, a);
      assert ChainOk(bs[i], i, |bs|, m, hash, rep) && EntryOk(bs[i][j], i, |bs|, m, hash, rep);
    }
    forall c ensures c in cs <==> c in m.Keys {
      if c in m {
        assert Stored(bs, c, rep);
        var i, j :| 0 <= i < |bs| && 0 <= j < |bs[i]| && rep(bs[i][j].key) == c;
        AllHas(bs, i, j);
        var a :| 0 <= a < |es| && es[a] == bs[i][j];
        assert cs[a] == c;
      }
    }
    DistinctCard(cs, m.Keys);
  }

  // ---- the map ---------------------------------------------------------------------

  class HashMap<K(!new), V> {
    var buckets: seq<Chain<K, Option<V>>>
    var size: nat
    const hash: K -> nat
    const eq: (K, K) -> bool
    /** One representative per class of equal keys. */
    ghost const rep: K -> K
    /** The finite map from classes to values that the buckets stand for. */
    ghost var contents: map<K, Option<V>>

    /** Equality is an equivalence compatible with the hash, and the buckets stand for `contents`. */
    ghost predicate Valid()
      reads this
    {
      && (forall a, b :: eq(a, b) <==> rep(a) == rep(b))
      && Compatible(hash, rep)
      && Refines(buckets, contents, hash, rep)
      && size == |contents|
    }

    /** The map `hashmap_create` makes, for a request whose bucket count is not zero. */
    constructor (requested: bv64, hash: K -> nat, eq: (K, K) -> bool, ghost rep: K -> K)
      requires BucketCount(requested) > 0
      requires forall a, b :: eq(a, b) <==> rep(a) == rep(b)
      requires Compatible(hash, rep)
      ensures Valid() && contents == map[] && |buckets| == BucketCount(requested)
      ensures this.hash == hash && this.eq == eq && this.rep == rep
    {
      hide BucketCount;
      buckets := seq(BucketCount(requested), _ => []);
      size, contents := 0, map[];
      this.hash, this.eq, this.rep := hash, eq, rep;
    }

    /** Walk the chain of the key's bucket; the chain length when the key is not there. */
    method Find(key: K) returns (i: nat, j: nat)
      requires Valid()
      ensures i < |buckets| && i == Index(hash(key), |buckets|) && j <= |buckets[i]|
      ensures j < |buckets[i]| ==> rep(buckets[i][j].key) == rep(key)
      ensures j < |buckets[i]| <==> rep(key) in contents
    {
      i, j := Index(hash(key), |buckets|), 0;
      while j < |buckets[i]| && !eq(buckets[i][j].key, key)
        invariant j <= |buckets[i]|
        invariant forall k :: 0 <= k < j ==> rep(buckets[i][k].key) != rep(key)
      {
        j := j + 1;
      }
      assert ChainOk(buckets[i], i, |buckets|, contents, hash, rep);
      if j < |buckets[i]| {
        assert EntryOk(buckets[i][j], i, |buckets|, contents, hash, rep);
      } else if rep(key) in contents {
        var j' := StoredInSlot(buckets, contents, hash, rep, key);
        assert false;
      }
    }

    /** `hashmap_get`. */
    method Get(key: Option<K>) returns (v: Option<V>)
      requires Valid()
      ensures v == if key.Some? && rep(key.value) in contents then contents[rep(key.value)] else None
    {
      if key.None? { return None; }
      var i, j := Find(key.value);
      if j < |buckets[i]| {
        assert ChainOk(buckets[i], i, |buckets|, contents, hash, rep);
        assert EntryOk(buckets[i][j], i, |buckets|, contents, hash, rep);
        return buckets[i][j].value;
      }
      return None;
    }

    /** `hashmap_contains`: true exactly for keys stored with a value that is not NULL. */
    method Contains(key: Option<K>) returns (r: bool)
      requires Valid()
      ensures r <==> key.Some? && rep(key.value) in contents && contents[rep(key.value)].Some?
    {
      var v := Get(key);
      r := v.Some?;
    }

    /** `hashmap_put`; `memory` is whether the new entry can be allocated. */
    method Put(key: Option<K>, value: Option<V>, memory: bool) returns (r: int)
      requires Valid()
      modifies this
      ensures Valid()
      ensures r == if key.None? then -1 else if rep(key.value) !in old(contents) && !memory then -2 else 0
      ensures contents == if r == 0 then old(contents)[rep(key.value) := value] else old(contents)
      ensures r != 0 ==> size == old(size) && buckets == old(buckets)
      ensures r == 0 ==>
                var i := Index(hash(key.value), |old(buckets)|);
                var was := old(buckets)[i];
                if rep(key.value) !in old(contents) then buckets == old(buckets)[i := [Entry(key.value, value)] + was]
                else exists j :: && 0 <= j < |was| && rep(was[j].key) == rep(key.value)
                                 && buckets == old(buckets)[i := was[j := was[j].(value := value)]]
    {
      if key.None? { return -1; }
      var i, j := Find(key.value);
      if j < |buckets[i]| {
        UpdateRefines(buckets, contents, hash, rep, i, j, value);
        buckets := buckets[i := buckets[i][j := buckets[i][j].(value := value)]];
        contents := contents[rep(key.value) := value];
        return 0;
      }
      if !memory { return -2; }
      InsertRefines(buckets, contents, hash, rep, key.value, value);
      buckets := buckets[i := [Entry(key.value, value)] + buckets[i]];
      contents := contents[rep(key.value) := value];
      size := size + 1;
      return 0;
    }

    /** `hashmap_remove`. */
    method Remove(key: Option<K>) returns (v: Option<V>)
      requires Valid()
      modifies this
      ensures Valid()
      ensures v == if key.Some? && rep(key.value) in old(contents) then old(contents)[rep(key.value)] else None
      ensures contents == if key.Some? then old(contents) - {rep(key.value)} else old(contents)
      ensures key.None? || rep(key.value) !in old(contents) ==> buckets == old(buckets)
      ensures key.Some? && rep(key.value) in old(contents) ==>
                var i := Index(hash(key.value), |old(buckets)|);
                var was := old(buckets)[i];
                exists j :: && 0 <= j < |was| && rep(was[j].key) == rep(key.value)
                            && buckets == old(buckets)[i := was[..j] + was[j + 1..]]
    {
      if key.None? { return None; }
      var i, j := Find(key.value);
      if j == |buckets[i]| { return None; }
      EntryAt(buckets, contents, hash, rep, i, j);
      hide Refines, Compatible;
      v := buckets[i][j].value;
      RemoveRefines(buckets, contents, hash, rep, i, j);
      RemoveCard(contents, rep(key.value));
      buckets := buckets[i := buckets[i][..j] + buckets[i][j + 1..]];
      contents := contents - {rep(key.value)};
      size := size - 1;
    }

    /** The inner loop of `hashmap_foreach`. */
    method VisitChain(chain: Chain<K, Option<V>>, visit: (K, Option<V>) -> bool)
      returns (seen: Chain<K, Option<V>>, stop: bool)
      ensures seen <= chain && (!stop ==> seen == chain)
      ensures VisitedBy(visit, seen, stop)
    {
      seen := [];
      for j := 0 to |chain|
        invariant seen == chain[..j]
        invariant VisitedBy(visit, seen, false)
      {
        seen := seen + [chain[j]];
        if !visit(chain[j].key, chain[j].value) { return seen, true; }
      }
      stop := false;
    }

    /**
     `hashmap_foreach`: the entries in order, up to and including the first for which `visit`
     asks to stop.  By AllIsTheMap that is every class exactly once when it never does.
     */
    method ForEach(visit: (K, Option<V>) -> bool) returns (visited: Chain<K, Option<V>>, stop: bool)
      requires Valid()
      ensures visited <= All(buckets) && (!stop ==> visited == All(buckets) && |visited| == size)
      ensures VisitedBy(visit, visited, stop)
    {
      hide Refines, All, VisitedBy;
      visited := [];
      AllStart(buckets);
      assert VisitedBy(visit, visited, false) by { VisitedNone(visit); }
      for i := 0 to |buckets|
        invariant visited == All(buckets[..i])
        invariant VisitedBy(visit, visited, false)
      {
        AllPrefix(buckets, i + 1);
        AllStep(buckets, i);
        var seen;
        seen, stop := VisitChain(buckets[i], visit);
        VisitMore(visit, visited, seen, stop);
        visited := visited + seen;
        if stop { return; }
      }
      assert buckets[..|buckets|] == buckets;
      AllIsTheMap(buckets, contents, hash, rep);
      stop := false;
    }

    /** `hashmap_clear`: every chain is emptied in turn. */
    method Clear()
      requires Valid()
      modifies this
      ensures Valid() && contents == map[] && |buckets| == |old(buckets)|
    {
      for i := 0 to |buckets|
        invariant |buckets| == |old(buckets)|
        invariant forall k :: 0 <= k < i ==> buckets[k] == []
        invariant forall a, b :: eq(a, b) <==> rep(a) == rep(b)
      {
        buckets := buckets[i := []];
      }
      size, contents := 0, map[];
    }
  }

  /** `hashmap_create`: NULL for a missing argument or without memory; by RoundUpZeroIff there is a bucket otherwise. */
  method Create<K(!new), V>(requested: bv64, hash: Option<K -> nat>, eq: Option<(K, K) -> bool>, memory: bool,
                            ghost rep: K -> K)
    returns (m: HashMap?<K, V>)
    requires requested <= 0x8000_0000_0000_0000
    requires hash.Some? && eq.Some? ==>
               (forall a, b :: eq.value(a, b) <==> rep(a) == rep(b)) && Compatible(hash.value, rep)
    ensures m == null <==> requested == 0 || hash.None? || eq.None? || !memory
    ensures m != null ==> && fresh(m) && m.Valid() && m.contents == map[] && m.rep == rep
                          && |m.buckets| == BucketCount(requested)
  {
    if requested == 0 || hash.None? || eq.None? { return null; }
    RoundUpZeroIff(requested);
    if !memory { return null; }
    hide RoundUp, BucketCount;
    m := new HashMap(requested, hash.value, eq.value, rep);
  }

  /** `visit` was content with every entry but, when it stopped, the last. */
  ghost predicate VisitedBy<K, V>(visit: (K, V) -> bool, es: Chain<K, V>, stop: bool)
  {
    && (stop ==> es != [] && !visit(es[|es| - 1].key, es[|es| - 1].value))
    && forall a :: 0 <= a < |es| - (if stop then 1 else 0) ==> visit(es[a].key, es[a].value)
  }

  lemma VisitedNone<K, V>(visit: (K, V) -> bool)
    ensures VisitedBy(visit, [], false)
  {
  }

  lemma VisitMore<K, V>(visit: (K, V) -> bool, es: Chain<K, V>, more: Chain<K, V>, stop: bool)
    requires VisitedBy(visit, es, false) && VisitedBy(visit, more, stop)
    ensures VisitedBy(visit, es + more, stop)
  {
    var all := es + more;
    forall a | 0 <= a < |all| - (if stop then 1 else 0) ensures visit(all[a].key, all[a].value) {
      if a >= |es| { assert all[a] == more[a - |es|]; }
    }
  }

  lemma AllStart<K, V>(bs: seq<Chain<K, V>>)
    ensures All(bs[..0]) == []
  {
  }

  lemma AllStep<K, V>(bs: seq<Chain<K, V>>, i: nat)
    requires i < |bs|
    ensures All(bs[..i + 1]) == All(bs[..i]) + bs[i]
  {
    assert bs[..i + 1][..i] == bs[..i];
  }

  lemma {:induction false} AllPrefix<K, V>(bs: seq<Chain<K, V>>, n: nat)
    requires n <= |bs|
    ensures All(bs[..n]) <= All(bs)
    decreases |bs| - n
  {
    if n == |bs| {
      assert bs[..n] == bs;
    } else {
      AllPrefix(bs, n + 1);
      assert bs[..n + 1][..n] == bs[..n];
    }
  }

  lemma RemoveCard<K, V>(m: map<K, V>, k: K)
    requires k in m
    ensures |m - {k}| == |m| - 1
  {
    assert (m - {k}).Keys == m.Keys - {k};
  }
}
