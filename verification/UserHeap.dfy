/**
 The user-space allocator (user/src/stdlib.c) as it runs: it finds, splits, marks and links
 blocks only by reading and writing bytes of memory.  `blocks` is the list the bytes stand for.
 */
module UserHeap {
  import opened HeapLayout

  class Heap {
    var mem: seq<Byte>
    var brk: nat
    var heapStart: nat            // 0 is NULL
    var freeList: nat             // 0 is NULL
    ghost var blocks: seq<Block>
    ghost const start: nat        // the break of the fresh process
    ghost var obtained: nat       // bytes `sbrk` has granted
    ghost var refusals: nat       // how often `sbrk` has refused

    ghost predicate Valid()
      reads this
    {
      && 0 < brk <= |mem| < TWO63
      && Sound(mem, blocks, brk, obtained)
      && freeList == (if blocks == [] then 0 else blocks[0].addr)
      && (heapStart == 0 ==> blocks == [])
      && brk == start + obtained && (blocks != [] ==> start <= freeList)
    }

    /** Every byte that `sbrk` has granted, and no other, is in exactly one block. */
    lemma BlocksTile()
      requires Valid()
      ensures Sum(blocks) == obtained == brk - start
      ensures Tiles(blocks, start, brk)
    {
      TilesIff(blocks, start, brk);
    }

    /** A fresh process: memory of the given size, an initial break, nothing allocated. */
    constructor (size: nat, start: nat)
      requires 0 < start <= size < TWO63
      ensures Valid() && blocks == [] && obtained == 0 && this.start == start
    {
      mem := seq(size, _ => 0);
      brk, heapStart, freeList := start, 0, 0;
      blocks, obtained, refusals, this.start := [], 0, 0, start;
    }

    // ---- words and the break -------------------------------------------------------

    method LoadWord(a: nat) returns (v: nat)
      requires a + 8 <= |mem|
      ensures v == Word(mem[a..a + 8])
    {
      v := Word(mem[a..a + 8]);
    }

    method StoreWord(a: nat, v: nat)
      requires a + 8 <= |mem| && v < TWO64
      modifies this`mem
      ensures ChangedWithin(old(mem), mem, a, a + 8)
      ensures Word(mem[a..a + 8]) == v
    {
      var bytes := Bytes(v, 8);
      for i := 0 to 8
        invariant ChangedWithin(old(mem), mem, a, a + 8)
        invariant mem[a..a + i] == bytes[..i]
      {
        ghost var done := mem[a..a + i];
        mem := mem[a + i := bytes[i]];
        assert mem[a..a + i + 1] == done + [bytes[i]];
      }
      assert mem[a..a + 8] == bytes;
      EightBytes();
      WordOfBytes(v, 8);
    }

    /** `sbrk` as documented: the previous break, or failure; the system may refuse any growth. */
    method Sbrk(incr: nat) returns (ok: bool, prev: nat)
      requires brk <= |mem|
      modifies this`brk, this`obtained, this`refusals
      ensures prev == old(brk)
      ensures ok ==> brk == old(brk) + incr <= |mem| && obtained == old(obtained) + incr && refusals == old(refusals)
      ensures !ok ==> incr > 0 && brk == old(brk) && obtained == old(obtained) && refusals == old(refusals) + 1
    {
      prev := brk;
      var refused: bool := *;
      ok := incr == 0 || (!refused && brk + incr <= |mem|);
      if ok {
        brk := brk + incr;
        obtained := obtained + incr;
      } else {
        refusals := refusals + 1;
      }
    }

    // ---- the list ------------------------------------------------------------------

    /** `heap_find_free`: the first free block that is large enough, or NULL. */
    method FindFree(total: nat) returns (block: nat, ghost k: nat)
      requires Valid()
      ensures block != 0 ==> FirstFit(blocks, k, total) && block == blocks[k].addr
      ensures block == 0 <==> NoFit(blocks, total)
    {
      block, k := freeList, 0;
      while block != 0
        invariant k <= |blocks| && block == (if k == |blocks| then 0 else blocks[k].addr)
        invariant forall j :: 0 <= j < k ==> blocks[j].used || blocks[j].size < total
        decreases |blocks| - k
      {
        assert HeaderIs(mem, blocks[k], NextOf(blocks, k));
        var size := LoadWord(block);
        if mem[block + 8] == 0 && size >= total { return; }
        block := LoadWord(block + 16);
        k := k + 1;
      }
    }

    /** Write the `used` field of block `k`. */
    method SetUsed(block: nat, used: bool, ghost k: nat)
      requires Valid() && k < |blocks| && block == blocks[k].addr
      modifies this`blocks, this`mem
      ensures Valid()
      ensures blocks == Marked(old(blocks), k, used)
      ensures ChangedWithin(old(mem), mem, block + 8, block + 9)
    {
      hide Sum;
      ghost var m := mem;
      assert HeaderIs(m, blocks[k], NextOf(blocks, k));
      mem := mem[block + 8 := if used then 1 else 0];
      MarkedChained(m, mem, blocks, brk, k, used);
      MarkedLaidOut(blocks, brk, k, used);
      MarkedSum(blocks, k, used);
      blocks := Marked(blocks, k, used);
    }

    /** Write all three header fields at `a`. */
    method WriteHeader(a: nat, size: nat, next: nat)
      requires a + HEADER <= |mem| && size < TWO64 && next < TWO64
      modifies this`mem
      ensures HeaderIs(mem, Block(a, size, false), next)
      ensures ChangedWithin(old(mem), mem, a, a + HEADER)
    {
      StoreWord(a, size);
      ghost var m := mem;
      mem := mem[a + 8 := 0];
      StoreWord(a + 16, next);
      assert mem[a..a + 8] == m[a..a + 8];
    }

    /** Write the size and link fields at `a`, leaving the `used` field. */
    method Resize(a: nat, size: nat, next: nat)
      requires a + HEADER <= |mem| && size < TWO64 && next < TWO64
      modifies this`mem
      ensures HeaderIs(mem, Block(a, size, old(mem)[a + 8] != 0), next)
      ensures ChangedWithin(old(mem), mem, a, a + HEADER)
    {
      StoreWord(a, size);
      ghost var m := mem;
      StoreWord(a + 16, next);
      assert mem[a..a + 8] == m[a..a + 8];
    }

    /** `heap_split_block`. */
    method SplitBlock(block: nat, total: nat, ghost k: nat)
      requires Valid() && k < |blocks| && block == blocks[k].addr && MIN_BLOCK <= total <= blocks[k].size
      requires total % 8 == 0
      modifies this`blocks, this`mem
      ensures Valid()
      ensures blocks == if old(blocks)[k].size - total >= MIN_BLOCK
                        then SplitIn(old(blocks), k, old(blocks)[k].(size := total),
                                     Block(block + total, old(blocks)[k].size - total, false))
                        else old(blocks)
      ensures ChangedWithin(old(mem), mem, block, End(old(blocks)[k]))
    {
      hide Chained, LaidOut, Sum, Word, NextOf;
      ghost var m := mem;
      SoundBlock(m, blocks, brk, obtained, k);
      var size := LoadWord(block);
      if size - total >= MIN_BLOCK {
        var rest := block + total;
        var next := LoadWord(block + 16);
        ghost var x, y := blocks[k].(size := total), Block(rest, size - total, false);
        WriteHeader(rest, size - total, next);
        ghost var m1 := mem;
        Resize(block, total, rest);
        HeaderFrame(m1, mem, y, next);
        SplitSound(m, mem, blocks, brk, obtained, k, x, y);
        blocks := SplitIn(blocks, k, x, y);
      }
    }

    /** `heap_init`. */
    method Init()
      requires Valid()
      modifies this
      ensures Valid() && heapStart != 0
      ensures old(heapStart) != 0 ==> blocks == old(blocks) && refusals == old(refusals)
      ensures old(heapStart) == 0 ==>
                if refusals == old(refusals) then blocks == [Block(start, INITIAL, false)]
                else refusals == old(refusals) + 1 && blocks == []
      ensures PayloadsKept(old(mem), mem, old(blocks))
    {
      if heapStart == 0 {
        var _, current := Sbrk(0);
        heapStart := current;
        var ok, _ := Sbrk(INITIAL);
        if !ok { return; }
        ghost var m := mem;
        freeList := heapStart;
        WriteHeader(heapStart, INITIAL, 0);
        AppendSound(m, mem, mem, [], heapStart, 0, Block(heapStart, INITIAL, false));
        assert [] + [Block(heapStart, INITIAL, false)] == [Block(heapStart, INITIAL, false)];
        blocks := [Block(heapStart, INITIAL, false)];
      }
    }

    /** The last block of the list. */
    method LastBlock() returns (last: nat)
      requires blocks != [] && Chained(mem, blocks) && freeList == blocks[0].addr
      requires forall i :: 0 <= i < |blocks| ==> blocks[i].addr > 0
      ensures last == blocks[|blocks| - 1].addr && last + HEADER <= |mem|
    {
      last := freeList;
      ghost var k := 0;
      assert HeaderIs(mem, blocks[0], NextOf(blocks, 0));
      var next := LoadWord(last + 16);
      while next != 0
        invariant k < |blocks| && last == blocks[k].addr && next == NextOf(blocks, k) && last + HEADER <= |mem|
        decreases |blocks| - k
      {
        last := next;
        k := k + 1;
        assert HeaderIs(mem, blocks[k], NextOf(blocks, k));
        next := LoadWord(last + 16);
      }
    }

    /** The growth step of `malloc`: a new block at the old break, linked at the end of the list. */
    method Expand(total: nat) returns (block: nat)
      requires Valid() && heapStart != 0 && MIN_BLOCK <= total <= GrowBy(total) < TWO63 && GrowBy(total) % 8 == 0
      modifies this
      ensures Valid() && heapStart == old(heapStart)
      ensures block == 0 ==> blocks == old(blocks) && refusals == old(refusals) + 1
      ensures block != 0 ==> blocks == old(blocks) + [Block(block, GrowBy(total), false)] && refusals == old(refusals)
      ensures PayloadsKept(old(mem), mem, old(blocks))
    {
      hide Sum, GrowBy, LaidOut, Chained, PayloadsKept;
      SameMemory(mem, blocks);
      var _, current := Sbrk(0);
      var size := GrowBy(total);
      var ok, _ := Sbrk(size);
      if !ok { return 0; }
      AppendBlock(current, size);
      block := current;
    }

    method AppendBlock(current: nat, size: nat)
      requires size <= obtained && Sound(mem, blocks, current, obtained - size)
      requires freeList == (if blocks == [] then 0 else blocks[0].addr)
      requires 0 < current && MIN_BLOCK <= size && size % 8 == 0 && current + size <= |mem| < TWO63
      modifies this`freeList, this`blocks, this`mem
      ensures Sound(mem, blocks, current + size, obtained)
      ensures blocks == old(blocks) + [Block(current, size, false)]
      ensures freeList == blocks[0].addr
      ensures |mem| == |old(mem)| && PayloadsKept(old(mem), mem, old(blocks))
    {
      hide Sum, Word, PayloadsKept, ChangedWithin;
      ghost var m := mem;
      ghost var b := Block(current, size, false);
      WriteHeader(current, size, 0);
      ghost var m1 := mem;
      if freeList == 0 {
        freeList := current;
      } else {
        OldHeadersStay(m, mem, blocks, current, current + HEADER);
        assert HeaderIs(mem, blocks[|blocks| - 1], NextOf(blocks, |blocks| - 1));
        var last := LastBlock();
        LinkLast(last, current, b);
      }
      AppendSound(m, m1, mem, blocks, current, obtained - size, b);
      blocks := blocks + [b];
    }

    /** Store the link of the last block. */
    method LinkLast(last: nat, current: nat, ghost b: Block)
      requires blocks != [] && last == blocks[|blocks| - 1].addr && HeaderIs(mem, blocks[|blocks| - 1], 0)
      requires last + HEADER <= current == b.addr && HeaderIs(mem, b, 0) && current < TWO64
      modifies this`mem
      ensures HeaderIs(mem, blocks[|blocks| - 1], current) && HeaderIs(mem, b, 0)
      ensures ChangedWithin(old(mem), mem, last, last + HEADER)
    {
      ghost var m := mem;
      StoreWord(last + 16, current);
      assert mem[last..last + 8] == m[last..last + 8];
      HeaderFrame(m, mem, b, 0);
    }

    // ---- the interface -------------------------------------------------------------

    /**
     `malloc`.  `base` is the list after growing, `k` the block handed out: the first free block
     that is large enough.  Nothing but that block changes, and no byte of a live payload does.
     The heap grows only when nothing fits, and NULL means that nothing fits because `sbrk` refused.
     */
    method Malloc(size: nat) returns (p: nat, ghost base: seq<Block>, ghost k: nat)
      requires Valid() && size <= MAX_REQUEST
      modifies this
      ensures Valid()
      ensures Grown(old(blocks), base)
      ensures p == 0 ==> blocks == base
      ensures p != 0 ==> Handed(base, blocks, k, size, p)
      ensures p == 0 <==> size == 0 || NoFit(base, TotalSize(size))
      ensures p == 0 && size > 0 ==> refusals > old(refusals)
      ensures size == 0 || !NoFit(old(blocks), TotalSize(size)) ==> base == old(blocks)
      ensures GrownBy(old(blocks), base, old(heapStart) == 0, TotalSize(size))
      ensures PayloadsKept(old(mem), mem, old(blocks))
    {
      hide Chained, LaidOut, Sum, Taken, SplitIn, PayloadsKept, NoFit, TotalSize, GrowBy;
      base, k := blocks, 0;
      SameMemory(mem, blocks);
      GrownNot(blocks);
      if size == 0 { return 0, blocks, 0; }
      RequestShape(size);
      var total := TotalSize(size);
      ghost var m0 := mem;
      var block;
      block, k := Ready(total);
      base := blocks;
      if block == 0 { return 0, base, 0; }
      FirstFitFits(base, k, total);
      ghost var m1 := mem;
      KeptGrown(m0, m1, old(blocks), base);
      Take(block, total, k);
      KeptTwice(m0, m1, mem, base);
      KeptGrown(m0, mem, old(blocks), base);
      p := block + HEADER;
    }

    /** Set up the heap if need be and obtain a free block. */
    method Ready(total: nat) returns (block: nat, ghost k: nat)
      requires Valid() && MIN_BLOCK <= total <= GrowBy(total) < TWO63 && GrowBy(total) % 8 == 0
      modifies this
      ensures Valid() && Grown(old(blocks), blocks)
      ensures block == 0 ==> NoFit(blocks, total) && refusals > old(refusals)
      ensures block != 0 ==> FirstFit(blocks, k, total) && block == blocks[k].addr
      ensures !NoFit(old(blocks), total) ==> blocks == old(blocks)
      ensures GrownBy(old(blocks), blocks, old(heapStart) == 0, total)
      ensures |mem| == |old(mem)| && PayloadsKept(old(mem), mem, old(blocks))
    {
      hide Sound, PayloadsKept, GrowBy, GrownBy, NoFit, Grown, FirstFit;
      EmptyFitsNothing(total);
      ghost var m0, was := mem, blocks;
      Init();
      ghost var m1, ready := mem, blocks;
      GrownByTwo(was, ready, ready, old(heapStart) == 0, total);
      KeptGrown(m0, m1, was, ready);
      block, k := Obtain(total);
      KeptTwice(m0, m1, mem, ready);
      KeptGrown(m0, mem, was, ready);
      KeptLength(m0, mem, ready);
      GrownByTwo(was, ready, blocks, old(heapStart) == 0, total);
    }

    /** Find a free block, or grow the heap. */
    method Obtain(total: nat) returns (block: nat, ghost k: nat)
      requires Valid() && heapStart != 0 && MIN_BLOCK <= total <= GrowBy(total) < TWO63 && GrowBy(total) % 8 == 0
      modifies this
      ensures Valid() && Grown(old(blocks), blocks)
      ensures block == 0 ==> blocks == old(blocks) && NoFit(blocks, total) && refusals == old(refusals) + 1
      ensures block != 0 ==> FirstFit(blocks, k, total) && block == blocks[k].addr && refusals == old(refusals)
      ensures !NoFit(old(blocks), total) ==> blocks == old(blocks)
      ensures NoFit(old(blocks), total) && block != 0 ==>
                blocks == old(blocks) + [Block(block, GrowBy(total), false)]
      ensures PayloadsKept(old(mem), mem, old(blocks))
    {
      hide Sum, PayloadsKept;
      SameMemory(mem, blocks);
      block, k := FindFree(total);
      if block == 0 {
        k := |blocks|;
        block := Expand(total);
      }
    }

    /** Mark block `k` used and split it. */
    method Take(block: nat, total: nat, ghost k: nat)
      requires Valid() && k < |blocks| && block == blocks[k].addr && !blocks[k].used
      requires MIN_BLOCK <= total <= blocks[k].size && total % 8 == 0
      modifies this`blocks, this`mem
      ensures Valid() && blocks == Taken(old(blocks), k, total)
      ensures PayloadsKept(old(mem), mem, old(blocks))
    {
      hide Chained, LaidOut, Sum, Taken, SplitIn, PayloadsKept;
      ghost var m, bs := mem, blocks;
      SetUsed(block, true, k);
      SplitBlock(block, total, k);
      FreeBlockWrites(m, mem, bs, brk, k);
      TakenIsMarkedThenSplit(bs, k, total);
    }

    /** `free`: the block is marked unused and nothing else changes. */
    method Free(p: nat, ghost k: nat)
      requires Valid() && (p != 0 ==> k < |blocks| && p == Payload(blocks[k]))
      modifies this`blocks, this`mem
      ensures Valid()
      ensures blocks == if p == 0 then old(blocks) else Marked(old(blocks), k, false)
      ensures HeadersOnly(old(mem), mem, old(blocks))
    {
      if p == 0 { return; }
      assert InHeader(blocks, p - HEADER + 8);
      SetUsed(p - HEADER, false, k);
    }

    /** The copy loop of `realloc`. */
    method CopyBytes(src: nat, dst: nat, n: nat)
      requires src + n <= |mem| && dst + n <= |mem| && (src + n <= dst || dst + n <= src)
      modifies this`mem
      ensures ChangedWithin(old(mem), mem, dst, dst + n) && Copied(old(mem), mem, src, dst, n)
    {
      for i := 0 to n
        invariant ChangedWithin(old(mem), mem, dst, dst + i)
        invariant mem[dst..dst + i] == old(mem)[src..src + i]
      {
        assert mem[src + i] == old(mem)[src + i];
        ghost var done := mem[dst..dst + i];
        mem := mem[dst + i := mem[src + i]];
        assert mem[dst..dst + i] == done;
        assert mem[dst..dst + i + 1] == done + [old(mem)[src + i]];
      }
    }

    /** The zeroing loop of `calloc`. */
    method ZeroBytes(dst: nat, n: nat)
      requires dst + n <= |mem|
      modifies this`mem
      ensures ChangedWithin(old(mem), mem, dst, dst + n)
      ensures forall x :: dst <= x < dst + n ==> mem[x] == 0
    {
      for i := 0 to n
        invariant ChangedWithin(old(mem), mem, dst, dst + i)
        invariant forall x :: dst <= x < dst + i ==> mem[x] == 0
      {
        mem := mem[dst + i := 0];
      }
    }

    /** Copy the whole payload of block `i` into that of block `k`, then free block `i`. */
    method Transfer(p: nat, r: nat, n: nat, ghost i: nat, ghost k: nat)
      requires Valid() && i < |blocks| && k < |blocks| && i != k
      requires p == Payload(blocks[i]) && r == Payload(blocks[k]) && n == blocks[i].size - HEADER
      requires r + n <= End(blocks[k])
      modifies this`blocks, this`mem
      ensures Valid() && blocks == Marked(old(blocks), i, false)
      ensures Copied(old(mem), mem, p, r, n)
      ensures |mem| == |old(mem)| && WrittenOnly(old(mem), mem, old(blocks), k)
    {
      hide Chained, LaidOut, Sum, Word, Marked;
      ghost var m, bs := mem, blocks;
      PayloadsApart(bs, brk, i, k);
      SoundBlock(m, bs, brk, obtained, i);
      SoundBlock(m, bs, brk, obtained, k);
      CopyBytes(p, r, n);
      PayloadWrites(m, mem, bs, brk, k);
      ghost var copied := mem[r..r + n];
      Free(p, i);
      forall j | 0 <= j < n ensures mem[r..r + n][j] == copied[j] { PayloadsDisjoint(bs, brk, k, k, r + j); }
      assert mem[r..r + n] == copied;
    }

    /**
     `realloc` of a live block that is too small: on success the new block starts with all the
     old payload bytes and the old block is freed; on failure the old block stays live.
     */
    method Move(p: nat, size: nat, ghost i: nat) returns (r: nat, ghost base: seq<Block>, ghost k: nat)
      requires Valid() && 0 < size <= MAX_REQUEST
      requires i < |blocks| && blocks[i].used && p == Payload(blocks[i]) && size > blocks[i].size - HEADER
      modifies this
      ensures Valid() && Grown(old(blocks), base)
      ensures r == 0 ==> blocks == base && refusals > old(refusals)
      ensures r == 0 <==> NoFit(base, TotalSize(size))
      ensures r != 0 ==> Moved(base, blocks, k, size, r, i)
      ensures GrownBy(old(blocks), base, old(heapStart) == 0, TotalSize(size))
      ensures r != 0 ==> Copied(old(mem), mem, p, r, old(blocks)[i].size - HEADER)
      ensures PayloadsKept(old(mem), mem, old(blocks))
    {
      hide Chained, LaidOut, Sum, Taken, SplitIn, NextOf, Word, PayloadsKept, WrittenOnly, Copied, TotalSize, GrownBy;
      SoundBlock(mem, blocks, brk, obtained, i);
      var blockSize := LoadWord(p - HEADER);
      var oldSize := blockSize - HEADER;
      ghost var i', m, was := 0, mem, blocks;
      r, base, k, i' := MallocBeside(size, i);
      if r == 0 { return; }
      ghost var m1, taken := mem, blocks;
      var copySize := if size < oldSize then size else oldSize;
      Transfer(p, r, copySize, i', k);
      assert PayloadsKept(m, mem, was) by {
        LiveStays(m1, mem, was, base, taken, brk, k, TotalSize(size));
        KeptTwice(m, m1, mem, was);
      }
      assert Copied(m, mem, p, r, oldSize) by {
        KeptThenCopied(m, m1, mem, was, i, p, r, oldSize);
      }
    }

    /** `malloc` seen from a live block `i`: it is still there, at position `j`, with the same bytes. */
    method MallocBeside(size: nat, ghost i: nat) returns (r: nat, ghost base: seq<Block>, ghost k: nat, ghost j: nat)
      requires Valid() && 0 < size <= MAX_REQUEST && i < |blocks| && blocks[i].used
      modifies this
      ensures Valid() && Grown(old(blocks), base)
      ensures r == 0 ==> blocks == base && refusals > old(refusals)
      ensures r == 0 <==> NoFit(base, TotalSize(size))
      ensures GrownBy(old(blocks), base, old(heapStart) == 0, TotalSize(size))
      ensures r != 0 ==> Handed(base, blocks, k, size, r) && i != k && j == Shifted(base, k, TotalSize(size), i)
      ensures r != 0 ==> && j < |blocks| && k < |blocks| && j != k && blocks[j] == old(blocks)[i]
                         && Payload(blocks[k]) == r && r + size <= End(blocks[k])
      ensures PayloadsKept(old(mem), mem, old(blocks))
    {
      j := 0;
      r, base, k := Malloc(size);
      if r != 0 {
        TakenGives(base, k, size);
        ShiftedIs(base, k, TotalSize(size), i);
        j := Shifted(base, k, TotalSize(size), i);
      }
    }

    /** `realloc`. */
    method Realloc(p: nat, size: nat, ghost i: nat) returns (r: nat, ghost base: seq<Block>, ghost k: nat)
      requires Valid() && size <= MAX_REQUEST
      requires p != 0 ==> i < |blocks| && blocks[i].used && p == Payload(blocks[i])
      modifies this
      ensures Valid()
      ensures p != 0 && size == 0 ==> r == 0 && blocks == Marked(old(blocks), i, false)
      ensures p != 0 && 0 < size <= old(blocks)[i].size - HEADER ==> r == p && blocks == old(blocks) && mem == old(mem)
      ensures (p == 0 || size > old(blocks)[i].size - HEADER) ==>
                Grown(old(blocks), base) && (r == 0 ==> blocks == base)
      ensures GrownBy(old(blocks), base, old(heapStart) == 0, TotalSize(size))
      ensures p == 0 ==> (r == 0 <==> size == 0 || NoFit(base, TotalSize(size)))
      ensures p != 0 && size > old(blocks)[i].size - HEADER ==> (r == 0 <==> NoFit(base, TotalSize(size)))
      ensures r == 0 && size > 0 ==> refusals > old(refusals)
      ensures r != 0 && p == 0 ==> Handed(base, blocks, k, size, r)
      ensures r != 0 && p != 0 && size > old(blocks)[i].size - HEADER ==> Moved(base, blocks, k, size, r, i)
      ensures r != 0 && p != 0 ==>
                var n := old(blocks)[i].size - HEADER;
                Copied(old(mem), mem, p, r, if size < n then size else n)
      ensures PayloadsKept(old(mem), mem, old(blocks))
    {
      hide Chained, LaidOut, Sum, Taken, SplitIn, NextOf, Word, Moved, Grown, Handed, HeadersOnly;
      base, k := blocks, 0;
      if p == 0 {
        r, base, k := Malloc(size);
        return;
      }
      ghost var was := blocks;
      SoundBlock(mem, blocks, brk, obtained, i);
      if size == 0 {
        Free(p, i);
        HeaderWritesKeep(old(mem), mem, was, brk);
        return 0, base, 0;
      }
      var blockSize := LoadWord(p - HEADER);
      if size <= blockSize - HEADER { return p, base, 0; }
      r, base, k := Move(p, size, i);
    }

    /** `malloc`, and then every byte of the request is zero. */
    method Zeroed(total: nat) returns (p: nat, ghost base: seq<Block>, ghost k: nat)
      requires Valid() && total <= MAX_REQUEST
      modifies this
      ensures Valid() && Grown(old(blocks), base)
      ensures p == 0 <==> total == 0 || NoFit(base, TotalSize(total))
      ensures p == 0 && 0 < total ==> refusals > old(refusals)
      ensures p == 0 ==> blocks == base
      ensures p != 0 ==> Handed(base, blocks, k, total, p)
      ensures GrownBy(old(blocks), base, old(heapStart) == 0, TotalSize(total))
      ensures p != 0 ==> p + total <= |mem| && forall x :: p <= x < p + total ==> mem[x] == 0
      ensures PayloadsKept(old(mem), mem, old(blocks))
    {
      hide Chained, Sum, SplitIn, TotalSize, GrowBy, InPayload, InHeader, GrownBy;
      p, base, k := Malloc(total);
      if p == 0 { return; }
      ghost var m, taken := mem, blocks;
      TakenGives(base, k, total);
      ZeroBytes(p, total);
      PayloadWrites(m, mem, taken, brk, k);
      LiveStays(m, mem, old(blocks), base, taken, brk, k, TotalSize(total));
    }

    /** The product in `size_t` and the division test that tells whether it is the true one. */
    method Product(n: nat, size: nat) returns (ok: bool, total: nat)
      requires n < TWO64 && size < TWO64
      ensures ok <==> n * size < TWO64
      ensures ok ==> total == n * size
    {
      total := n * size % TWO64;
      if n != 0 { OverflowCheckIff(n, size); }
      ok := n == 0 || total / n == size;
    }

    /** `calloc`: NULL when the product does not fit in `size_t`, otherwise `malloc` and zeroes. */
    method Calloc(n: nat, size: nat) returns (p: nat, ghost base: seq<Block>, ghost k: nat)
      requires Valid() && n < TWO64 && size < TWO64
      requires n * size < TWO64 ==> n * size <= MAX_REQUEST
      modifies this
      ensures Valid() && Grown(old(blocks), base)
      ensures p == 0 <==> n * size >= TWO64 || n * size == 0 || NoFit(base, TotalSize(n * size))
      ensures p == 0 && 0 < n * size < TWO64 ==> refusals > old(refusals)
      ensures p == 0 ==> blocks == base
      ensures p != 0 ==> Handed(base, blocks, k, n * size, p)
      ensures n * size < TWO64 ==> GrownBy(old(blocks), base, old(heapStart) == 0, TotalSize(n * size))
      ensures n * size >= TWO64 ==> base == old(blocks)
      ensures p != 0 ==> p + n * size <= |mem| && forall x :: p <= x < p + n * size ==> mem[x] == 0
      ensures PayloadsKept(old(mem), mem, old(blocks))
    {
      hide Grown, Handed, NoFit, TotalSize, InPayload, Sound, GrownBy;
      base, k := blocks, 0;
      assert Grown(blocks, blocks) by { GrownNot(blocks); }
      var ok, total := Product(n, size);
      if !ok { return 0, base, 0; }
      p, base, k := Zeroed(total);
    }
  }
}
