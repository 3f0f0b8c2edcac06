/**
 The layout of the user-space heap (user/src/stdlib.c): size arithmetic, headers as bytes in the same
 memory as the payloads they describe, and what taking and freeing do to the list of blocks.
 */
module HeapLayout {

  newtype Byte = x: int | 0 <= x < 256

  const HEADER := 24            // sizeof(heap_block_t)
  const MIN_BLOCK := 40         // header and 16 bytes: what a split must leave
  const INITIAL := 16384
  const TWO63 := 0x8000_0000_0000_0000
  const TWO64 := 0x1_0000_0000_0000_0000
  const MAX_REQUEST := TWO63 - 4128

  // ---- sizes -----------------------------------------------------------------------

  /** `malloc`'s size arithmetic on `size_t`. */
  function Rounded(size: nat): nat { (size + 15) % TWO64 / 16 * 16 }
  function TotalSize(size: nat): nat { (Rounded(size) + HEADER) % TWO64 }
  function GrowBy(total: nat): nat { ((if total < 4096 then 4096 else total) + 4095) % TWO64 / 4096 * 4096 }

  lemma RoundedSmall(size: nat)
    requires size <= TWO64 - 16
    ensures size <= Rounded(size) <= size + 15 && Rounded(size) % 16 == 0
    ensures size % 16 == 0 ==> Rounded(size) == size
  {
    assert (size + 15) % TWO64 == size + 15;
  }

  lemma GrowBySmall(total: nat)
    requires total <= TWO64 - 4096
    ensures total <= GrowBy(total) && 4096 <= GrowBy(total) && GrowBy(total) % 4096 == 0
    ensures GrowBy(total) <= total + 4095 || GrowBy(total) == 4096
  {
    var t := if total < 4096 then 4096 else total;
    assert (t + 4095) % TWO64 == t + 4095;
  }

  lemma GrowByLarge(total: nat)
    requires TWO64 - 4096 < total < TWO64
    ensures GrowBy(total) < 4096
  {
    assert (total + 4095) % TWO64 == total + 4095 - TWO64;
  }

  /**
   The computed block size covers the request and the break increment covers the block and is a
   positive `intptr_t`, if and only if the request is at most 2^63 - 4128 bytes.
   */
  lemma RequestFitsIff(size: nat)
    requires 0 < size < TWO64
    ensures size <= MAX_REQUEST <==>
            TotalSize(size) >= size + HEADER && TotalSize(size) <= GrowBy(TotalSize(size)) < TWO63
  {
    hide GrowBy;
    if size > TWO64 - 16 {
      assert (size + 15) % TWO64 == size + 15 - TWO64;
    } else {
      RoundedSmall(size);
      hide Rounded;
      if Rounded(size) + HEADER >= TWO64 {
        assert TotalSize(size) == Rounded(size) + HEADER - TWO64;
      } else {
        assert TotalSize(size) == Rounded(size) + HEADER;
        if TotalSize(size) <= TWO64 - 4096 { GrowBySmall(TotalSize(size)); }
        else { GrowByLarge(TotalSize(size)); }
      }
    }
  }

  /** Block sizes are 8 more than a multiple of 16, and the break moves by whole pages. */
  lemma RequestAligned(size: nat)
    requires 0 < size <= MAX_REQUEST
    ensures TotalSize(size) % 16 == 8 && GrowBy(TotalSize(size)) % 4096 == 0
  {
    hide GrowBy;
    RoundedSmall(size);
    GrowBySmall(TotalSize(size));
    AddEights(Rounded(size), HEADER);
  }

  lemma RequestShape(size: nat)
    requires 0 < size <= MAX_REQUEST
    ensures MIN_BLOCK <= TotalSize(size) <= GrowBy(TotalSize(size)) < TWO63
    ensures TotalSize(size) % 8 == 0 && GrowBy(TotalSize(size)) % 8 == 0
  {
    hide TotalSize, GrowBy;
    RequestFitsIff(size);
    RequestAligned(size);
    Eighths(TotalSize(size), 16, 8);
    Eighths(GrowBy(TotalSize(size)), 4096, 0);
  }

  lemma Eighths(x: nat, m: nat, r: nat)
    requires (m == 16 && r == 8) || (m == 4096 && r == 0)
    requires x % m == r
    ensures x % 8 == 0
  {
    if m == 16 {
      EightTimes(2 * (x / 16) + 1);
      assert x == 8 * (2 * (x / 16) + 1);
    } else {
      EightTimes(512 * (x / 4096));
      assert x == 8 * (512 * (x / 4096));
    }
  }

  lemma SmallMultiple(n: nat, d: int)
    ensures 0 - n < n * d < n ==> d == 0
  {
  }

  lemma QuotientBelow(w: nat, n: nat, product: nat, size: nat)
    requires n > 0 && product == n * size
    ensures w / n == size ==> product <= w
    ensures w == product ==> w / n == size
  {
    assert w == n * (w / n) + w % n;
    assert n * (size - w / n) == product - n * (w / n);
    SmallMultiple(n, size - w / n);
  }

  /** `calloc`'s division test detects exactly the products that do not fit. */
  lemma OverflowCheckIff(n: nat, size: nat)
    requires 0 < n < TWO64 && size < TWO64
    ensures n * size % TWO64 / n == size <==> n * size < TWO64
  {
    var product := n * size;
    QuotientBelow(product % TWO64, n, product, size);
  }

  // ---- bytes and words -------------------------------------------------------------

  /** Little-endian value of a byte sequence. */
  function Word(bytes: seq<Byte>): nat
  {
    if bytes == [] then 0 else bytes[0] as nat + 256 * Word(bytes[1..])
  }

  function Bytes(v: nat, n: nat): (r: seq<Byte>)
    ensures |r| == n
  {
    if n == 0 then [] else [(v % 256) as Byte] + Bytes(v / 256, n - 1)
  }

  function Pow256(n: nat): (r: nat)
    ensures r > 0
  {
    if n == 0 then 1 else 256 * Pow256(n - 1)
  }

  lemma {:induction false} WordOfBytes(v: nat, n: nat)
    requires v < Pow256(n)
    ensures Word(Bytes(v, n)) == v
  {
    if n > 0 {
      WordOfBytes(v / 256, n - 1);
      assert Bytes(v, n)[1..] == Bytes(v / 256, n - 1);
    }
  }

  lemma EightBytes()
    ensures Pow256(8) == TWO64
  {
    assert Pow256(2) == 0x1_0000;
    assert Pow256(4) == 0x1_0000_0000;
    assert Pow256(6) == 0x1_0000_0000_0000;
  }

  // ---- blocks ----------------------------------------------------------------------

  datatype Block = Block(addr: nat, size: nat, used: bool)

  function Payload(b: Block): nat { b.addr + HEADER }
  function End(b: Block): nat { b.addr + b.size }

  /** The header at `b.addr` says what `b` says and links to `next`. */
  ghost predicate HeaderIs(m: seq<Byte>, b: Block, next: nat)
  {
    && b.addr + HEADER <= |m|
    && Word(m[b.addr..b.addr + 8]) == b.size
    && (m[b.addr + 8] != 0 <==> b.used)
    && Word(m[b.addr + 16..b.addr + 24]) == next
  }

  /** What block `i` of the list links to; 0 is NULL. */
  function NextOf(bs: seq<Block>, i: nat): nat
    requires i < |bs|
  {
    if i + 1 < |bs| then bs[i + 1].addr else 0
  }

  /** The headers in memory form exactly this list. */
  ghost predicate Chained(m: seq<Byte>, bs: seq<Block>)
  {
    forall i {:trigger NextOf(bs, i)} :: 0 <= i < |bs| ==> HeaderIs(m, bs[i], NextOf(bs, i))
  }

  /**
   Blocks are strictly ordered by address, do not overlap, are at least 40 bytes and a multiple of
   8 bytes, and lie below `limit`.
   */
  ghost predicate LaidOut(bs: seq<Block>, limit: nat)
  {
    && (forall i :: 0 <= i < |bs| ==>
          bs[i].addr > 0 && bs[i].size >= MIN_BLOCK && bs[i].size % 8 == 0 && End(bs[i]) <= limit)
    && (forall i, j :: 0 <= i < j < |bs| ==> End(bs[i]) <= bs[j].addr)
  }

  function Sum(bs: seq<Block>): nat
  {
    if bs == [] then 0 else Sum(bs[..|bs| - 1]) + bs[|bs| - 1].size
  }

  lemma {:induction false} SumConcat(a: seq<Block>, b: seq<Block>)
    ensures Sum(a + b) == Sum(a) + Sum(b)
  {
    if b == [] {
      assert a + b == a;
    } else {
      SumConcat(a, b[..|b| - 1]);
      assert (a + b)[..|a + b| - 1] == a + b[..|b| - 1];
    }
  }

  /** Address `x` belongs to the payload of a live block. */
  ghost predicate InPayload(bs: seq<Block>, x: nat)
  {
    exists i :: 0 <= i < |bs| && bs[i].used && Payload(bs[i]) <= x < End(bs[i])
  }

  /** Only bytes from `lo` up to `hi` have changed. */
  ghost predicate ChangedWithin(m: seq<Byte>, m': seq<Byte>, lo: nat, hi: nat)
  {
    |m| == |m'| && forall x :: 0 <= x < |m| && !(lo <= x < hi) ==> m'[x] == m[x]
  }

  /** Only header bytes have changed. */
  ghost predicate HeadersOnly(m: seq<Byte>, m': seq<Byte>, bs: seq<Block>)
  {
    |m| == |m'| && forall x :: 0 <= x < |m| && !InHeader(bs, x) ==> m'[x] == m[x]
  }

  /** No byte of a live payload has changed. */
  ghost predicate PayloadsKept(m: seq<Byte>, m': seq<Byte>, bs: seq<Block>)
  {
    |m| == |m'| && forall x :: 0 <= x < |m| && InPayload(bs, x) ==> m'[x] == m[x]
  }

  /** Only block `k` and headers have been written to. */
  ghost predicate WrittenOnly(m: seq<Byte>, m': seq<Byte>, bs: seq<Block>, k: nat)
  {
    && |m| == |m'| && k < |bs|
    && forall x :: 0 <= x < |m| && !(bs[k].addr <= x < End(bs[k])) && !InHeader(bs, x) ==> m'[x] == m[x]
  }

  ghost predicate InHeader(bs: seq<Block>, x: nat)
  {
    exists i :: 0 <= i < |bs| && bs[i].addr <= x < Payload(bs[i])
  }

  /** Live payloads are pairwise disjoint, and no payload byte is a header byte. */
  lemma PayloadsDisjoint(bs: seq<Block>, limit: nat, i: nat, j: nat, x: nat)
    requires LaidOut(bs, limit) && i < |bs| && j < |bs|
    requires Payload(bs[i]) <= x < End(bs[i])
    ensures Payload(bs[j]) <= x < End(bs[j]) ==> i == j
    ensures !InHeader(bs, x)
  {
    forall k | 0 <= k < |bs| ensures !(bs[k].addr <= x < Payload(bs[k])) {
      if i < k { assert End(bs[i]) <= bs[k].addr; }
      if k < i { assert End(bs[k]) <= bs[i].addr; }
    }
    if i < j { assert End(bs[i]) <= bs[j].addr; }
    if j < i { assert End(bs[j]) <= bs[i].addr; }
  }

  /** A live payload byte is below the limit, in no header, and outside every free block. */
  lemma PayloadPlace(bs: seq<Block>, limit: nat, x: nat)
    requires LaidOut(bs, limit) && InPayload(bs, x)
    ensures x < limit && !InHeader(bs, x)
    ensures forall k :: 0 <= k < |bs| && !bs[k].used ==> !(bs[k].addr <= x < End(bs[k]))
  {
    var i :| 0 <= i < |bs| && bs[i].used && Payload(bs[i]) <= x < End(bs[i]);
    PayloadsDisjoint(bs, limit, i, i, x);
    forall k | 0 <= k < |bs| && !bs[k].used ensures !(bs[k].addr <= x < End(bs[k])) {
      if i < k { assert End(bs[i]) <= bs[k].addr; }
      if k < i { assert End(bs[k]) <= bs[i].addr; }
    }
  }

  lemma PayloadGrows(bs: seq<Block>, more: seq<Block>, x: nat)
    requires InPayload(bs, x) && bs <= more
    ensures InPayload(more, x)
  {
    var i :| 0 <= i < |bs| && bs[i].used && Payload(bs[i]) <= x < End(bs[i]);
    assert more[i] == bs[i];
  }

  // ---- what the operations do to the list ------------------------------------------

  /** Block `k` taken for `total` bytes: split when at least 40 bytes would be left. */
  function Taken(bs: seq<Block>, k: nat, total: nat): seq<Block>
    requires k < |bs| && total <= bs[k].size
  {
    var b := bs[k];
    if b.size - total >= MIN_BLOCK
    then SplitIn(bs, k, Block(b.addr, total, true), Block(b.addr + total, b.size - total, false))
    else Marked(bs, k, true)
  }

  /** The first free block of at least `total` bytes. */
  ghost predicate FirstFit(bs: seq<Block>, k: nat, total: nat)
  {
    && k < |bs| && !bs[k].used && bs[k].size >= total
    && forall j :: 0 <= j < k ==> bs[j].used || bs[j].size < total
  }

  /** No free block is large enough. */
  ghost predicate NoFit(bs: seq<Block>, total: nat)
  {
    forall j :: 0 <= j < |bs| ==> bs[j].used || bs[j].size < total
  }

  /** The list with block `k` replaced by two. */
  function SplitIn(bs: seq<Block>, k: nat, x: Block, y: Block): (r: seq<Block>)
    requires k < |bs|
    ensures |r| == |bs| + 1 && r[k] == x && r[k + 1] == y
    ensures forall i :: 0 <= i < k ==> r[i] == bs[i]
    ensures forall i :: k + 1 < i < |r| ==> r[i] == bs[i - 1]
  {
    bs[..k] + [x, y] + bs[k + 1..]
  }

  lemma TakeEights(a: nat, b: nat)
    requires a % 8 == 0 && b % 8 == 0
    ensures (a - b) % 8 == 0
  {
    assert a - b == 8 * (a / 8 - b / 8);
  }

  lemma SplitLaidOut(bs: seq<Block>, limit: nat, k: nat, x: Block, y: Block)
    requires LaidOut(bs, limit) && k < |bs| && x.size >= MIN_BLOCK && y.size >= MIN_BLOCK
    requires x.addr == bs[k].addr && y.addr == End(x) && End(y) == End(bs[k]) && x.size % 8 == 0
    ensures LaidOut(SplitIn(bs, k, x, y), limit)
  {
    var r := SplitIn(bs, k, x, y);
    TakeEights(bs[k].size, x.size);
    forall i | 0 <= i < |r|
      ensures r[i].addr > 0 && r[i].size >= MIN_BLOCK && r[i].size % 8 == 0 && End(r[i]) <= limit
    {
      var i' := if i <= k then i else i - 1;
      assert bs[i'].addr > 0 && End(bs[i']) <= limit && bs[i'].size % 8 == 0;
      assert i == k + 1 ==> r[i].size == bs[k].size - x.size;
    }
    forall i, j | 0 <= i < j < |r| ensures End(r[i]) <= r[j].addr {
      var i', j' := if i <= k then i else i - 1, if j <= k then j else j - 1;
      assert End(r[i]) <= End(bs[i']) && r[j].addr >= bs[j'].addr;
    }
  }

  lemma {:induction false} SumReplace(bs: seq<Block>, k: nat, mid: seq<Block>)
    requires k < |bs| && Sum(mid) == bs[k].size
    ensures Sum(bs[..k] + mid + bs[k + 1..]) == Sum(bs)
  {
    assert bs == bs[..k] + [bs[k]] + bs[k + 1..];
    SumConcat(bs[..k] + [bs[k]], bs[k + 1..]);
    SumConcat(bs[..k], [bs[k]]);
    SumConcat(bs[..k] + mid, bs[k + 1..]);
    SumConcat(bs[..k], mid);
    assert [bs[k]][..0] == [];
  }

  lemma SumOne(x: Block)
    ensures Sum([x]) == x.size
  {
    assert [x][..0] == [];
  }

  lemma {:induction false} SplitSum(bs: seq<Block>, k: nat, x: Block, y: Block)
    requires k < |bs| && x.size + y.size == bs[k].size
    ensures Sum(SplitIn(bs, k, x, y)) == Sum(bs)
  {
    SumOne(x);
    SumOne(y);
    SumConcat([x], [y]);
    assert [x] + [y] == [x, y];
    SumReplace(bs, k, [x, y]);
  }

  lemma {:induction false} MarkedSum(bs: seq<Block>, k: nat, used: bool)
    requires k < |bs|
    ensures Sum(Marked(bs, k, used)) == Sum(bs)
  {
    var b := bs[k].(used := used);
    assert [b][..0] == [];
    SumReplace(bs, k, [b]);
    assert bs[k := b] == bs[..k] + [b] + bs[k + 1..];
  }

  // ---- frames ----------------------------------------------------------------------

  lemma HeaderFrame(m: seq<Byte>, m': seq<Byte>, b: Block, next: nat)
    requires |m| == |m'| && HeaderIs(m, b, next)
    requires forall x :: b.addr <= x < b.addr + HEADER ==> m'[x] == m[x]
    ensures HeaderIs(m', b, next)
  {
    assert m'[b.addr..b.addr + 8] == m[b.addr..b.addr + 8];
    assert m'[b.addr + 16..b.addr + 24] == m[b.addr + 16..b.addr + 24];
  }

  /** Writing outside the headers leaves the list alone. */
  lemma ChainFrame(m: seq<Byte>, m': seq<Byte>, bs: seq<Block>)
    requires |m| == |m'| && Chained(m, bs)
    requires forall x :: 0 <= x < |m| && m'[x] != m[x] ==> !InHeader(bs, x)
    ensures Chained(m', bs)
  {
    forall i | 0 <= i < |bs| ensures HeaderIs(m', bs[i], NextOf(bs, i)) {
      assert HeaderIs(m, bs[i], NextOf(bs, i));
      forall x | bs[i].addr <= x < bs[i].addr + HEADER ensures m'[x] == m[x] {
        assert InHeader(bs, x);
      }
      HeaderFrame(m, m', bs[i], NextOf(bs, i));
    }
  }

  /** A write past the last block leaves the list alone. */
  lemma OldHeadersStay(m: seq<Byte>, m': seq<Byte>, bs: seq<Block>, limit: nat, hi: nat)
    requires Chained(m, bs) && LaidOut(bs, limit) && hi >= limit && ChangedWithin(m, m', limit, hi)
    ensures Chained(m', bs)
  {
    forall i | 0 <= i < |bs| ensures HeaderIs(m', bs[i], NextOf(bs, i)) {
      assert HeaderIs(m, bs[i], NextOf(bs, i));
      HeaderFrame(m, m', bs[i], NextOf(bs, i));
    }
  }

  /** The list after growing: only free blocks were added, at the end. */
  ghost predicate Grown(bs: seq<Block>, base: seq<Block>)
  {
    bs <= base && forall j :: |bs| <= j < |base| ==> !base[j].used
  }

  /**
   What growing for a request adds: nothing, the initial block if this is the first call, a block of
   whole pages that holds the request, or one after the other if the initial block is too small.
   */
  ghost predicate GrownBy(bs: seq<Block>, base: seq<Block>, first: bool, total: nat)
  {
    bs <= base &&
    var extra := base[|bs|..];
    && |extra| <= 2
    && (|extra| == 1 ==> extra[0].size == GrowBy(total) || (first && extra[0].size == INITIAL))
    && (|extra| == 2 ==> first && extra[0].size == INITIAL < total && extra[1].size == GrowBy(total))
  }

  lemma GrownByTwo(bs: seq<Block>, ready: seq<Block>, base: seq<Block>, first: bool, total: nat)
    requires ready == bs || (first && bs == [] && |ready| == 1 && ready[0].size == INITIAL && !ready[0].used)
    requires base == ready || (NoFit(ready, total) && |base| == |ready| + 1 && base[..|ready|] == ready
                               && base[|ready|].size == GrowBy(total) && !base[|ready|].used)
    ensures GrownBy(bs, base, first, total) && Grown(bs, ready) && Grown(bs, base)
  {
    if ready == bs && base != ready { assert base[|bs|..] == [base[|bs|]]; }
  }

  lemma EmptyFitsNothing(total: nat)
    ensures NoFit([], total)
  {
  }

  lemma GrownNot(bs: seq<Block>)
    ensures Grown(bs, bs)
  {
  }

  lemma GrownPayloads(bs: seq<Block>, base: seq<Block>)
    requires Grown(bs, base)
    ensures forall x :: InPayload(bs, x) <==> InPayload(base, x)
  {
    forall x ensures InPayload(bs, x) <==> InPayload(base, x) {
      if InPayload(bs, x) { PayloadGrows(bs, base, x); }
    }
  }

  function Marked(bs: seq<Block>, k: nat, used: bool): (r: seq<Block>)
    requires k < |bs|
    ensures |r| == |bs|
  {
    bs[k := bs[k].(used := used)]
  }

  /** Writing inside a free block changes no live payload. */
  lemma FreeBlockWrites(m: seq<Byte>, m': seq<Byte>, bs: seq<Block>, limit: nat, k: nat)
    requires |m| == |m'| && LaidOut(bs, limit) && k < |bs| && !bs[k].used
    requires ChangedWithin(m, m', bs[k].addr, End(bs[k]))
    ensures PayloadsKept(m, m', bs)
  {
    forall x | 0 <= x < |m| && InPayload(bs, x) ensures m'[x] == m[x] { PayloadPlace(bs, limit, x); }
  }

  lemma TakenIsMarkedThenSplit(bs: seq<Block>, k: nat, total: nat)
    requires k < |bs| && total <= bs[k].size
    ensures var ms := Marked(bs, k, true);
            Taken(bs, k, total) ==
            if bs[k].size - total >= MIN_BLOCK
            then SplitIn(ms, k, ms[k].(size := total), Block(bs[k].addr + total, bs[k].size - total, false))
            else ms
  {
    var ms := Marked(bs, k, true);
    assert ms[..k] == bs[..k] && ms[k + 1..] == bs[k + 1..];
  }

  lemma MarkedLaidOut(bs: seq<Block>, limit: nat, k: nat, used: bool)
    requires LaidOut(bs, limit) && k < |bs|
    ensures LaidOut(Marked(bs, k, used), limit)
  {
  }

  lemma MarkedHeader(m: seq<Byte>, m': seq<Byte>, b: Block, next: nat, used: bool)
    requires HeaderIs(m, b, next) && ChangedWithin(m, m', b.addr + 8, b.addr + 9)
    requires m'[b.addr + 8] != 0 <==> used
    ensures HeaderIs(m', b.(used := used), next)
  {
    assert m'[b.addr..b.addr + 8] == m[b.addr..b.addr + 8];
    assert m'[b.addr + 16..b.addr + 24] == m[b.addr + 16..b.addr + 24];
  }

  /** Writing the `used` byte of block `k` marks that block and nothing else. */
  lemma MarkedChained(m: seq<Byte>, m': seq<Byte>, bs: seq<Block>, limit: nat, k: nat, used: bool)
    requires Chained(m, bs) && LaidOut(bs, limit) && k < |bs| && limit <= |m|
    requires ChangedWithin(m, m', bs[k].addr + 8, bs[k].addr + 9)
    requires m'[bs[k].addr + 8] != 0 <==> used
    ensures Chained(m', Marked(bs, k, used))
  {
    var r := Marked(bs, k, used);
    forall i | 0 <= i < |r| ensures HeaderIs(m', r[i], NextOf(r, i)) {
      assert HeaderIs(m, bs[i], NextOf(bs, i)) && NextOf(r, i) == NextOf(bs, i);
      if i == k {
        MarkedHeader(m, m', bs[k], NextOf(bs, k), used);
      } else {
        HeaderFrame(m, m', bs[i], NextOf(bs, i));
      }
    }
  }

  /** Two headers written inside block `k` split it. */
  lemma SplitChained(m: seq<Byte>, m': seq<Byte>, bs: seq<Block>, limit: nat, k: nat, x: Block, y: Block)
    requires |m| == |m'| && Chained(m, bs) && LaidOut(bs, limit) && k < |bs|
    requires x.addr == bs[k].addr && y.addr == End(x) && End(y) == End(bs[k]) && y.size >= HEADER
    requires HeaderIs(m', x, y.addr) && HeaderIs(m', y, NextOf(bs, k))
    requires ChangedWithin(m, m', bs[k].addr, End(bs[k]))
    ensures Chained(m', SplitIn(bs, k, x, y))
  {
    var r := SplitIn(bs, k, x, y);
    forall i | 0 <= i < |r| ensures HeaderIs(m', r[i], NextOf(r, i)) {
      if i < k || i > k + 1 {
        var j := if i < k then i else i - 1;
        assert HeaderIs(m, bs[j], NextOf(bs, j)) && NextOf(r, i) == NextOf(bs, j);
        HeaderFrame(m, m', bs[j], NextOf(bs, j));
      }
    }
  }

  /** The bytes after a header is written past the last block (`m1`) and the last block linked to it (`m2`). */
  ghost predicate Appended(m: seq<Byte>, m1: seq<Byte>, m2: seq<Byte>, bs: seq<Block>, b: Block)
  {
    && ChangedWithin(m, m1, b.addr, b.addr + HEADER)
    && HeaderIs(m2, b, 0)
    && (if bs == [] then m2 == m1
        else ChangedWithin(m1, m2, bs[|bs| - 1].addr, Payload(bs[|bs| - 1])) && HeaderIs(m2, bs[|bs| - 1], b.addr))
  }

  lemma AppendChained(m: seq<Byte>, m1: seq<Byte>, m2: seq<Byte>, bs: seq<Block>, limit: nat, b: Block)
    requires Chained(m, bs) && LaidOut(bs, limit) && limit <= b.addr && Appended(m, m1, m2, bs, b)
    ensures Chained(m2, bs + [b])
  {
    var r := bs + [b];
    forall i | 0 <= i < |r| ensures HeaderIs(m2, r[i], NextOf(r, i)) {
      if i < |bs| - 1 {
        assert HeaderIs(m, bs[i], NextOf(bs, i)) && NextOf(r, i) == NextOf(bs, i);
        HeaderFrame(m, m2, bs[i], NextOf(bs, i));
      }
    }
  }

  /** Everything the allocator keeps about a list of blocks and the memory that holds it. */
  ghost predicate Sound(m: seq<Byte>, bs: seq<Block>, limit: nat, obtained: nat)
  {
    LaidOut(bs, limit) && Chained(m, bs) && Sum(bs) == obtained
  }

  lemma SoundBlock(m: seq<Byte>, bs: seq<Block>, limit: nat, obtained: nat, k: nat)
    requires Sound(m, bs, limit, obtained) && k < |bs|
    ensures HeaderIs(m, bs[k], NextOf(bs, k)) && bs[k].addr > 0 && bs[k].size >= MIN_BLOCK && End(bs[k]) <= limit
    ensures NextOf(bs, k) < limit
  {
    if k + 1 < |bs| {
      assert End(bs[k + 1]) <= limit;
    } else {
      assert End(bs[k]) <= limit;
    }
  }

  lemma SplitSound(m: seq<Byte>, m': seq<Byte>, bs: seq<Block>, limit: nat, obtained: nat, k: nat, x: Block, y: Block)
    requires |m| == |m'| && Sound(m, bs, limit, obtained) && k < |bs|
    requires x.addr == bs[k].addr && y.addr == End(x) && End(y) == End(bs[k])
    requires x.size >= MIN_BLOCK && y.size >= MIN_BLOCK && x.size % 8 == 0
    requires HeaderIs(m', x, y.addr) && HeaderIs(m', y, NextOf(bs, k))
    requires ChangedWithin(m, m', bs[k].addr, End(bs[k]))
    ensures Sound(m', SplitIn(bs, k, x, y), limit, obtained)
  {
    SplitChained(m, m', bs, limit, k, x, y);
    SplitLaidOut(bs, limit, k, x, y);
    SplitSum(bs, k, x, y);
  }

  lemma AppendSound(m: seq<Byte>, m1: seq<Byte>, m2: seq<Byte>, bs: seq<Block>, limit: nat, obtained: nat, b: Block)
    requires Sound(m, bs, limit, obtained) && 0 < limit <= b.addr && b.size >= MIN_BLOCK && b.size % 8 == 0
    requires Appended(m, m1, m2, bs, b)
    ensures Sound(m2, bs + [b], End(b), obtained + b.size)
    ensures PayloadsKept(m, m2, bs)
  {
    AppendChained(m, m1, m2, bs, limit, b);
    AppendLaidOut(bs, limit, b);
    AppendSum(bs, b);
    forall x | 0 <= x < |m| && InPayload(bs, x) ensures m2[x] == m[x] { PayloadPlace(bs, limit, x); }
  }

  lemma AppendLaidOut(bs: seq<Block>, limit: nat, b: Block)
    requires LaidOut(bs, limit) && 0 < limit <= b.addr && b.size >= MIN_BLOCK && b.size % 8 == 0
    ensures LaidOut(bs + [b], End(b))
  {
  }

  lemma {:induction false} AppendSum(bs: seq<Block>, b: Block)
    ensures Sum(bs + [b]) == Sum(bs) + b.size
  {
    assert (bs + [b])[..|bs|] == bs;
  }

  /** What malloc promises of the block it hands out. */
  lemma TakenGives(bs: seq<Block>, k: nat, size: nat)
    requires 0 < size <= MAX_REQUEST && k < |bs| && TotalSize(size) <= bs[k].size
    ensures var r := Taken(bs, k, TotalSize(size));
            && k < |r| && r[k].used && Payload(r[k]) == Payload(bs[k]) && Payload(r[k]) + size <= End(r[k])
  {
    RequestFitsIff(size);
  }

  /**
   The block is cut to what the request needs exactly when 40 bytes or more are left over, which
   become a free block right behind it; else it is handed out whole.  All other blocks stay in order.
   */
  lemma TakenSplitsIff(bs: seq<Block>, k: nat, total: nat)
    requires k < |bs| && total <= bs[k].size
    ensures var r, b := Taken(bs, k, total), bs[k];
            && r[..k] == bs[..k]
            && (b.size >= total + 40 ==>
                  && r[k..k + 2] == [Block(b.addr, total, true), Block(b.addr + total, b.size - total, false)]
                  && r[k + 2..] == bs[k + 1..])
            && (b.size < total + 40 ==> r[k] == Block(b.addr, b.size, true) && r[k + 1..] == bs[k + 1..])
  {
  }

  /** Every other live block is still there, as it was. */
  lemma TakenKeepsOthers(bs: seq<Block>, k: nat, total: nat, j: nat)
    requires k < |bs| && total <= bs[k].size && j < |bs| && j != k
    ensures bs[j] in Taken(bs, k, total)
  {
    var r := Taken(bs, k, total);
    var j' := if |r| == |bs| || j < k then j else j + 1;
    assert r[j'] == bs[j];
  }

  /** Where block `j` of the list is after block `k` has been taken. */
  function Shifted(bs: seq<Block>, k: nat, total: nat, j: nat): (r: nat)
    requires k < |bs| && total <= bs[k].size && j < |bs|
    ensures r < |Taken(bs, k, total)|
  {
    if j > k && bs[k].size - total >= MIN_BLOCK then j + 1 else j
  }

  lemma ShiftedIs(bs: seq<Block>, k: nat, total: nat, j: nat)
    requires k < |bs| && total <= bs[k].size && j < |bs| && j != k
    ensures Taken(bs, k, total)[Shifted(bs, k, total, j)] == bs[j]
    ensures Shifted(bs, k, total, j) != k
  {
    hide SplitIn;
  }

  /** Two different blocks' payloads do not touch. */
  lemma PayloadsApart(bs: seq<Block>, limit: nat, i: nat, j: nat)
    requires LaidOut(bs, limit) && i < |bs| && j < |bs| && i != j
    ensures End(bs[i]) <= bs[j].addr || End(bs[j]) <= bs[i].addr
  {
  }

  /** Writing in the payload of block `k` leaves every header and every other payload alone. */
  lemma PayloadWrites(m: seq<Byte>, m': seq<Byte>, bs: seq<Block>, limit: nat, k: nat)
    requires |m| == |m'| && Chained(m, bs) && LaidOut(bs, limit) && k < |bs|
    requires ChangedWithin(m, m', Payload(bs[k]), End(bs[k]))
    ensures Chained(m', bs)
  {
    forall x | 0 <= x < |m| && m'[x] != m[x] ensures !InHeader(bs, x) { PayloadsDisjoint(bs, limit, k, k, x); }
    ChainFrame(m, m', bs);
  }

  /** A byte that was live before the allocation is outside the block handed out and in no header after it. */
  lemma LiveElsewhere(was: seq<Block>, base: seq<Block>, taken: seq<Block>, limit: nat, k: nat, total: nat, x: nat)
    requires Grown(was, base) && InPayload(was, x)
    requires k < |base| && !base[k].used && total <= base[k].size && taken == Taken(base, k, total)
    requires LaidOut(taken, limit)
    ensures !(taken[k].addr <= x < End(taken[k])) && !InHeader(taken, x)
  {
    var i :| 0 <= i < |was| && was[i].used && Payload(was[i]) <= x < End(was[i]);
    assert base[i] == was[i];
    ShiftedIs(base, k, total, i);
    PayloadsDisjoint(taken, limit, Shifted(base, k, total, i), k, x);
    PayloadsApart(taken, limit, Shifted(base, k, total, i), k);
  }

  lemma LiveStays(m: seq<Byte>, m': seq<Byte>, was: seq<Block>, base: seq<Block>, taken: seq<Block>, limit: nat,
                  k: nat, total: nat)
    requires |m| == |m'| && Grown(was, base)
    requires k < |base| && !base[k].used && total <= base[k].size && taken == Taken(base, k, total)
    requires LaidOut(taken, limit)
    requires WrittenOnly(m, m', taken, k)
    ensures PayloadsKept(m, m', was)
  {
    forall x | 0 <= x < |m| && InPayload(was, x) ensures m'[x] == m[x] {
      LiveElsewhere(was, base, taken, limit, k, total, x);
    }
  }

  // ---- every byte is accounted for -------------------------------------------------

  /** The blocks cover `start` up to `limit` without a gap. */
  ghost predicate Tiles(bs: seq<Block>, start: nat, limit: nat)
  {
    if bs == [] then start == limit
    else
      && bs[0].addr == start && End(bs[|bs| - 1]) == limit
      && forall i :: 0 <= i < |bs| - 1 ==> End(bs[i]) == bs[i + 1].addr
  }

  /** Blocks between two addresses use no more bytes than lie between, and leave no gap exactly when they use all. */
  lemma {:induction false} TilesIff(bs: seq<Block>, start: nat, limit: nat)
    requires LaidOut(bs, limit) && start <= limit && (bs != [] ==> start <= bs[0].addr)
    ensures Sum(bs) <= limit - start
    ensures Sum(bs) == limit - start <==> Tiles(bs, start, limit)
  {
    if bs != [] {
      var rest, last := bs[..|bs| - 1], bs[|bs| - 1];
      TilesIff(rest, start, last.addr);
      assert Sum(bs) == Sum(rest) + last.size;
      hide Sum;
      if Tiles(bs, start, limit) && rest != [] {
        assert End(rest[|rest| - 1]) == bs[|rest|].addr;
      }
    }
  }

  /** Where block `i` of a gapless list starts. */
  lemma {:induction false} TilesAt(bs: seq<Block>, start: nat, limit: nat, i: nat)
    requires Tiles(bs, start, limit) && i < |bs|
    ensures bs[i].addr == start + Sum(bs[..i])
  {
    if i > 0 {
      TilesAt(bs, start, limit, i - 1);
      assert bs[..i][..i - 1] == bs[..i - 1];
      assert End(bs[i - 1]) == bs[i].addr;
    } else {
      assert bs[..0] == [];
    }
  }

  /** How many blocks have a size that is no multiple of 16, as every block cut to a request has. */
  function Odd(bs: seq<Block>): nat
  {
    if bs == [] then 0 else Odd(bs[..|bs| - 1]) + if bs[|bs| - 1].size % 16 == 0 then 0 else 1
  }

  lemma EightTimes(x: nat)
    ensures 8 * x % 8 == 0 && (8 * x % 16 == 0 <==> x % 2 == 0)
  {
    var q, r := x / 2, x % 2;
    Remainder16(q, 8 * r);
    assert 8 * x == 16 * q + 8 * r;
  }

  lemma Remainder16(q: nat, r: nat)
    requires r < 16
    ensures (16 * q + r) % 16 == r
  {
  }

  lemma SameParity(x: nat, y: nat)
    ensures (x + y) % 2 == 0 <==> (x % 2 == 0 <==> y % 2 == 0)
  {
    assert x + y == 2 * (x / 2 + y / 2) + (x % 2 + y % 2);
  }

  /** Adding a multiple of 8 changes whether a multiple of 8 is one of 16 exactly when it is none itself. */
  lemma AddEights(a: nat, b: nat)
    requires a % 8 == 0 && b % 8 == 0
    ensures (a + b) % 8 == 0
    ensures (a + b) % 16 == 0 <==> (a % 16 == 0 <==> b % 16 == 0)
  {
    var x, y := a / 8, b / 8;
    assert a == 8 * x && b == 8 * y;
    EightTimes(x);
    EightTimes(y);
    EightTimes(x + y);
    SameParity(x, y);
    assert a + b == 8 * (x + y);
  }

  lemma PastHeader(start: nat, sum: nat, odd: nat)
    requires start % 16 == 0 && sum % 8 == 0 && (sum % 16 == 0 <==> odd % 2 == 0)
    ensures (start + sum + HEADER) % 8 == 0 && ((start + sum + HEADER) % 16 == 0 <==> odd % 2 == 1)
  {
    Sixteenths(start);
    AddEights(start, sum);
    AddEights(start + sum, HEADER);
  }

  lemma Sixteenths(x: nat)
    requires x % 16 == 0
    ensures x % 8 == 0
  {
    EightTimes(2 * (x / 16));
    assert x == 8 * (2 * (x / 16));
  }

  lemma LastAdds(bs: seq<Block>)
    requires bs != []
    ensures var rest, size := bs[..|bs| - 1], bs[|bs| - 1].size;
            Sum(bs) == Sum(rest) + size && Odd(bs) == Odd(rest) + if size % 16 == 0 then 0 else 1
  {
  }

  lemma ParityAdds(a: nat, b: nat, odd: nat)
    requires a % 8 == 0 && b % 8 == 0 && (a % 16 == 0 <==> odd % 2 == 0)
    ensures (a + b) % 16 == 0 <==> (odd + if b % 16 == 0 then 0 else 1) % 2 == 0
  {
    AddEights(a, b);
  }

  lemma {:induction false} SumModulo(bs: seq<Block>)
    requires forall i :: 0 <= i < |bs| ==> bs[i].size % 8 == 0
    ensures Sum(bs) % 8 == 0
    ensures Sum(bs) % 16 == 0 <==> Odd(bs) % 2 == 0
  {
    if bs != [] {
      hide Sum, Odd;
      var rest, last := bs[..|bs| - 1], bs[|bs| - 1];
      SumModulo(rest);
      LastAdds(bs);
      AddEights(Sum(rest), last.size);
      ParityAdds(Sum(rest), last.size, Odd(rest));
    }
  }

  /**
   With a 16-aligned first break every payload is 8-aligned, and it is 16-aligned exactly when an
   odd number of the blocks before it have a size that is no multiple of 16.
   */
  lemma PayloadAlignedIff(bs: seq<Block>, start: nat, limit: nat, i: nat)
    requires LaidOut(bs, limit) && Tiles(bs, start, limit) && start % 16 == 0 && i < |bs|
    ensures Payload(bs[i]) % 8 == 0
    ensures Payload(bs[i]) % 16 == 0 <==> Odd(bs[..i]) % 2 == 1
  {
    hide Tiles, LaidOut, Sum, Odd;
    TilesAt(bs, start, limit, i);
    EightSized(bs, limit, i);
    SumModulo(bs[..i]);
    PastHeader(start, Sum(bs[..i]), Odd(bs[..i]));
  }

  lemma EightSized(bs: seq<Block>, limit: nat, n: nat)
    requires LaidOut(bs, limit) && n <= |bs|
    ensures forall i :: 0 <= i < |bs[..n]| ==> bs[..n][i].size % 8 == 0
  {
  }

  /**
   A request within 15 bytes of `SIZE_MAX` is rounded to nothing: a block that can be split is
   cut to a header without a payload, too small for the layout; a smaller one is handed out whole.
   */
  lemma WrappedRequest(bs: seq<Block>, limit: nat, k: nat, size: nat)
    requires TWO64 - 16 < size < TWO64 && LaidOut(bs, limit) && k < |bs|
    ensures TotalSize(size) == HEADER
    ensures var r := Taken(bs, k, HEADER);
            && (bs[k].size >= HEADER + MIN_BLOCK <==> Payload(r[k]) == End(r[k]))
            && (LaidOut(r, limit) <==> bs[k].size < HEADER + MIN_BLOCK)
            && End(r[k]) - Payload(r[k]) < MIN_BLOCK
  {
    assert (size + 15) % TWO64 == size + 15 - TWO64;
    var r := Taken(bs, k, HEADER);
    if bs[k].size < HEADER + MIN_BLOCK {
      MarkedLaidOut(bs, limit, k, true);
    } else {
      assert r[k].size == HEADER;
    }
  }

  /**
   For the sixteen requests below those the block size wraps to 8: whatever can be split is then
   handed out with the header of the remainder inside its own.
   */
  lemma TinyRequest(bs: seq<Block>, limit: nat, k: nat, size: nat)
    requires TWO64 - 32 < size <= TWO64 - 16 && LaidOut(bs, limit) && k < |bs|
    ensures TotalSize(size) == 8
    ensures bs[k].size >= 8 + MIN_BLOCK ==>
              var r := Taken(bs, k, 8);
              && k + 1 < |r| && r[k].addr < r[k + 1].addr == r[k].addr + 8 < Payload(r[k])
              && r[k].addr < r[k + 1].addr + 8 < r[k].addr + 24
  {
    RoundedSmall(size);
    assert Rounded(size) == TWO64 - 16 by { SixteenBelow(Rounded(size)); }
    assert (Rounded(size) + HEADER) % TWO64 == 8;
  }

  lemma SixteenBelow(n: nat)
    requires n % 16 == 0 && TWO64 - 32 < n < TWO64
    ensures n == TWO64 - 16
  {
  }

  /** The lowest byte of a word. */
  lemma LowByte(bytes: seq<Byte>)
    requires bytes != []
    ensures Word(bytes) % 256 == bytes[0] as nat
  {
    LowOf(bytes[0] as nat, Word(bytes[1..]));
  }

  lemma LowOf(low: nat, high: nat)
    requires low < 256
    ensures (low + 256 * high) % 256 == low
  {
  }

  /**
   Two headers that overlap like this cannot both be what they should: whether the first block is
   used is read from the size of the second, and whether the second is from the link of the first.
   */
  lemma OverlappedHeaders(m: seq<Byte>, x: Block, y: Block, next: nat)
    requires y.addr == x.addr + 8 && HeaderIs(m, x, y.addr) && HeaderIs(m, y, next)
    ensures x.used <==> y.size % 256 != 0
    ensures y.used <==> y.addr % 256 != 0
  {
    LowByte(m[y.addr..y.addr + 8]);
    LowByte(m[x.addr + 16..x.addr + 24]);
  }

  // ---- from bytes before to bytes after --------------------------------------------

  /** What was in the first `n` bytes at `p` is now in the first `n` bytes at `r`. */
  ghost predicate Copied(m: seq<Byte>, m': seq<Byte>, p: nat, r: nat, n: int)
  {
    0 <= n && |m'| == |m| && p + n <= |m| && r + n <= |m| && m'[r..r + n] == m[p..p + n]
  }

  lemma SameMemory(m: seq<Byte>, bs: seq<Block>)
    ensures PayloadsKept(m, m, bs)
  {
  }

  lemma KeptLength(m: seq<Byte>, m': seq<Byte>, bs: seq<Block>)
    requires PayloadsKept(m, m', bs)
    ensures |m'| == |m|
  {
  }

  /** Growing adds no payload. */
  lemma KeptGrown(m: seq<Byte>, m': seq<Byte>, bs: seq<Block>, base: seq<Block>)
    requires Grown(bs, base)
    ensures PayloadsKept(m, m', bs) <==> PayloadsKept(m, m', base)
  {
    hide InPayload;
    GrownPayloads(bs, base);
  }

  lemma FirstFitFits(bs: seq<Block>, k: nat, total: nat)
    requires FirstFit(bs, k, total)
    ensures !NoFit(bs, total)
  {
  }

  lemma KeptTwice(m: seq<Byte>, m1: seq<Byte>, m2: seq<Byte>, bs: seq<Block>)
    requires PayloadsKept(m, m1, bs) && PayloadsKept(m1, m2, bs)
    ensures PayloadsKept(m, m2, bs)
  {
  }

  /** A payload that was kept and then copied is a copy of what it was. */
  lemma KeptThenCopied(m: seq<Byte>, m1: seq<Byte>, m2: seq<Byte>, bs: seq<Block>, i: nat, p: nat, r: nat, n: nat)
    requires PayloadsKept(m, m1, bs) && i < |bs| && bs[i].used && p == Payload(bs[i]) && p + n == End(bs[i])
    requires Copied(m1, m2, p, r, n)
    ensures Copied(m, m2, p, r, n)
  {
    forall x | p <= x < p + n ensures m1[x] == m[x] { assert InPayload(bs, x); }
    assert m1[p..p + n] == m[p..p + n];
  }

  lemma HeaderWritesKeep(m: seq<Byte>, m': seq<Byte>, bs: seq<Block>, limit: nat)
    requires LaidOut(bs, limit) && HeadersOnly(m, m', bs)
    ensures PayloadsKept(m, m', bs)
  {
    forall x | 0 <= x < |m| && InPayload(bs, x) ensures m'[x] == m[x] { PayloadPlace(bs, limit, x); }
  }

  // ---- outcomes --------------------------------------------------------------------

  /** Pointer `p` is the payload of the first block of `base` that fits the request, and `bs` has it taken. */
  ghost predicate Handed(base: seq<Block>, bs: seq<Block>, k: nat, size: nat, p: nat)
  {
    && size > 0 && FirstFit(base, k, TotalSize(size)) && p == Payload(base[k])
    && bs == Taken(base, k, TotalSize(size))
  }

  /** As `Handed`, and block `i` of `base` has then been freed. */
  ghost predicate Moved(base: seq<Block>, bs: seq<Block>, k: nat, size: nat, p: nat, i: nat)
  {
    && size > 0 && FirstFit(base, k, TotalSize(size)) && p == Payload(base[k]) && i < |base| && i != k
    && bs == Marked(Taken(base, k, TotalSize(size)), Shifted(base, k, TotalSize(size), i), false)
  }
}
