/** The boundary-tag allocator: its static state as an object, its operations store by store. */
module MyMalloc {
  import opened Memory
  import opened HeapLayout
  import opened HeapPolicy
  import opened HeapMemory
  import opened HeapSteps
  import opened HeapRuns
  import opened HeapCopies

  class Allocator {
    var mem: Mem
    const sentinel: int  // the address of free_list_sentinel
    var freeList: int
    var heapSize: int
    var numChunks: int
    ghost var L: seq<Seg>  // the layout that mem represents

    ghost predicate Valid()
      reads this
    {
      && freeList == sentinel
      && Rep(mem, sentinel, L)
      && numChunks == NumChunks(L) && heapSize == numChunks * CHUNK
    }

    /** initialize: one chunk at os, one free block in it, the free list around the sentinel. */
    constructor (memory: Mem, sentinelAddr: int, os: int)
      requires 0 < sentinelAddr && sentinelAddr % 8 == 0 && os % 8 == 0
      requires sentinelAddr + HDR <= os
      ensures Valid() && sentinel == sentinelAddr
      ensures L == WholeChunk(os) && heapSize == CHUNK && numChunks == 1
    {
      mem, heapSize, numChunks := memory, 0, 0;
      sentinel, freeList := sentinelAddr, sentinelAddr;
      L := WholeChunk(os);
      new;
      hide Get, Load, Store, Rep, WholeChunk, NumChunks;
      var newBlock := GetMemoryFromOs(ARENA + 2 * HDR + 2 * FTR, os);
      var w := FirstChunk(mem, freeList, newBlock);
      mem := w;
      AfterInit(w, sentinel, os);
    }

    /** The stores of initialize. */
    static method FirstChunk(m: Mem, freeList: int, newBlock: int) returns (w: Mem)
      requires Aligned(freeList) && Aligned(newBlock) && freeList + HDR <= newBlock
      ensures SizeAt(w, freeList) == 0 && StatusAt(w, freeList) == SENTINEL
      ensures SizeAt(w, newBlock) == 0 && StatusAt(w, newBlock) == ALLOCATED
      ensures var e := newBlock + FTR + BLOCK;
              && SizeAt(w, e) == 0 && StatusAt(w, e) == ALLOCATED
              && NextAt(w, e) == NULL && PrevAt(w, e) == NULL
      ensures Marked(w, newBlock + FTR, BLOCK, UNALLOCATED) && Between(w, freeList, newBlock + FTR, freeList)
    {
      hide Get, Load, Store, Aligned;
      ChunkAligned(newBlock);
      HeaderAligned(newBlock + FTR);
      FooterAligned(newBlock + FTR, BLOCK);
      HeaderAligned(freeList);
      var startFencepost := newBlock;
      var currentHeader := startFencepost + FTR;
      var currentFooter := currentHeader + ARENA + HDR;
      var endFencepost := currentFooter + FTR;
      w := WriteFenceposts(m, startFencepost, endFencepost);

      w := Store(w, currentHeader + STATUS, UNALLOCATED);
      w := Store(w, currentHeader, ARENA + HDR + FTR);

      w := Store(w, currentFooter + STATUS, UNALLOCATED);
      w := Store(w, currentFooter, SizeAt(w, currentHeader));

      w := Store(w, freeList + PREV, currentHeader);
      w := Store(w, freeList + NEXT, currentHeader);
      w := Store(w, currentHeader + NEXT, freeList);
      w := Store(w, currentHeader + PREV, freeList);

      w := Store(w, freeList + STATUS, SENTINEL);
      w := Store(w, freeList, 0);
    }

    /** The blocks of L are represented, but the list ends in a node above them that heads no block. */
    ghost predicate Dangles(stop: int)
      reads this
    {
      && freeList == sentinel && stop != sentinel
      && RepTo(mem, sentinel, stop, L) && PrevAt(mem, sentinel) == stop
    }

    function ObjectSize(ptr: int): int
      reads this
    {
      SizeAt(mem, ptr - HDR)
    }

    /** The block is large enough, but its remainder is not worth splitting. */
    method TakeWhole(current: int, ghost i: nat, ghost n: int)
      requires Valid() && i < |L| && L[i].kind.Free? && L[i].addr == current
      requires n % 8 == 0 && MIN_BLOCK <= n <= L[i].len && L[i].len - n < MIN_SPLIT
      modifies this
      ensures Valid() && L == TakeAt(old(L), i, n)
      ensures heapSize == old(heapSize)
      ensures Kept(old(mem), mem, Live(old(L))) && ForeignKept(old(mem), mem, sentinel, Bases(old(L)))
    {
      hide Rep, Get, Load, Store, NodeBefore, NodeAfter, TakeAt, NumChunks, Aligned, ForeignKept, Bases;
      ghost var m, x := mem, L[i];
      ghost var p, q := PrevAt(m, current), NextAt(m, current);
      BeforeTake(m, sentinel, L, i);
      HeaderAligned(current);
      FooterAligned(current, x.len);
      HeaderAligned(p);
      HeaderAligned(q);

      var w := Store(mem, current + STATUS, ALLOCATED);
      var curFooter := current + ObjectSize(current + HDR) - FTR;
      w := Store(w, curFooter + STATUS, ALLOCATED);
      w := Store(w, PrevAt(w, current) + NEXT, NextAt(w, current));
      w := Store(w, NextAt(w, current) + PREV, PrevAt(w, current));
      w := Store(w, current + PREV, NULL);
      w := Store(w, current + NEXT, NULL);

      LinkedTwo(w, p, q);
      AfterTake(m, w, sentinel, L, i, n);
      TakeForeign(m, w, sentinel, L, i);
      mem := w;
      L := TakeAt(L, i, n);
    }

    /** Split, in memory: tags of both parts, and the tail in the list in place of the whole block. */
    static method SplitBlock(m: Mem, current: int, roundedSize: int, ghost sent: int) returns (w: Mem)
      requires Aligned(current) && Aligned(roundedSize) && Aligned(SizeAt(m, current))
      requires MIN_BLOCK <= roundedSize && roundedSize + MIN_SPLIT <= SizeAt(m, current)
      requires Around(sent, PrevAt(m, current), NextAt(m, current), current, current + SizeAt(m, current))
      ensures var p, q, c := PrevAt(m, current), NextAt(m, current), current + roundedSize;
              && Outside(m, w, current, current + SizeAt(m, current), p, q)
              && Marked(w, current, roundedSize, ALLOCATED)
              && NextAt(w, current) == PrevAt(w, current) == NULL
              && Marked(w, c, SizeAt(m, current) - roundedSize, UNALLOCATED)
              && Between(w, p, c, q)
    {
      hide Get, Load, Store, Aligned;
      HeaderAligned(current);
      FooterAligned(current, roundedSize);
      FooterAligned(current, SizeAt(m, current));
      HeaderAligned(current + roundedSize);
      HeaderAligned(PrevAt(m, current));
      HeaderAligned(NextAt(m, current));
      var newHeader := current + roundedSize;
      var curFooter := current + roundedSize - FTR;
      var newFooter := current + SizeAt(m, current) - FTR;

      w := Store(m, newHeader, SizeAt(m, current) - roundedSize);
      w := Store(w, newFooter, SizeAt(w, newHeader));
      w := Store(w, newHeader + STATUS, UNALLOCATED);
      w := Store(w, newFooter + STATUS, UNALLOCATED);

      w := Store(w, current, roundedSize);
      w := Store(w, current + STATUS, ALLOCATED);

      w := Store(w, curFooter, SizeAt(w, current));
      w := Store(w, curFooter + STATUS, ALLOCATED);

      w := Store(w, PrevAt(w, current) + NEXT, newHeader);
      w := Store(w, newHeader + PREV, PrevAt(w, current));
      w := Store(w, newHeader + NEXT, NextAt(w, current));
      w := Store(w, NextAt(w, current) + PREV, newHeader);
      w := Store(w, current + PREV, NULL);
      w := Store(w, current + NEXT, NULL);
    }

    /** Split: the head of the block is handed out, its tail takes its place in the list. */
    method Split(current: int, roundedSize: int, ghost i: nat)
      requires Valid() && i < |L| && L[i].kind.Free? && L[i].addr == current
      requires roundedSize % 8 == 0 && MIN_BLOCK <= roundedSize && roundedSize + MIN_SPLIT <= L[i].len
      modifies this
      ensures Valid() && L == TakeAt(old(L), i, roundedSize)
      ensures heapSize == old(heapSize)
      ensures Kept(old(mem), mem, Live(old(L))) && ForeignKept(old(mem), mem, sentinel, Bases(old(L)))
    {
      hide Rep, Get, Load, Store, NodeBefore, NodeAfter, TakeAt, NumChunks, ForeignKept, Bases;
      ghost var m, n := mem, roundedSize;
      ghost var p, q := PrevAt(m, current), NextAt(m, current);
      BeforeTake(m, sentinel, L, i);

      var w := SplitBlock(mem, current, roundedSize, sentinel);

      LinkedThree(w, p, current + n, q);
      AfterTake(m, w, sentinel, L, i, n);
      TakeForeign(m, w, sentinel, L, i);
      mem := w;
      L := TakeAt(L, i, n);
    }

    /** sbrk, the program break being at os. */
    method GetMemoryFromOs(size: int, os: int) returns (newBlock: int)
      modifies this`heapSize, this`numChunks
      ensures newBlock == os
      ensures heapSize == old(heapSize) + size && numChunks == old(numChunks) + 1
    {
      heapSize := heapSize + size;
      newBlock := os;
      numChunks := numChunks + 1;
    }

    /** The fenceposts of a chunk: a footer at its start and a header at its end, ALLOCATED, size 0. */
    static method WriteFenceposts(m: Mem, start: int, end: int) returns (w: Mem)
      requires Aligned(start) && Aligned(end) && start + FTR <= end
      ensures SizeAt(w, start) == 0 && StatusAt(w, start) == ALLOCATED
      ensures SizeAt(w, end) == 0 && StatusAt(w, end) == ALLOCATED
      ensures NextAt(w, end) == NULL && PrevAt(w, end) == NULL
      ensures forall a | a < start || start + FTR <= a < end || end + HDR <= a :: Get(w, a) == Get(m, a)
    {
      hide Get, Load, Store, Aligned;
      HeaderAligned(start);
      HeaderAligned(end);
      w := Store(m, start + STATUS, ALLOCATED);
      w := Store(w, start, 0);

      w := Store(w, end + STATUS, ALLOCATED);
      w := Store(w, end, 0);
      w := Store(w, end + NEXT, NULL);
      w := Store(w, end + PREV, NULL);
    }

    /** The tail of a new chunk becomes the last node of the free list, in front of the sentinel. The
      tags hold at the end while the cut leaves room for them. */
    static method CutTail(m: Mem, freeList: int, newObject: int, roundedSize: int) returns (w: Mem)
      requires Aligned(roundedSize) && MIN_SPLIT <= roundedSize < BLOCK
      requires Aligned(freeList) && Aligned(newObject) && Aligned(PrevAt(m, freeList))
      requires freeList + HDR <= newObject && PrevAt(m, freeList) + HDR <= newObject
      requires PrevAt(m, freeList) == freeList || freeList + HDR <= PrevAt(m, freeList)
      ensures var c := newObject + roundedSize;
              && Between(w, PrevAt(m, freeList), c, freeList)
              && (CutOk(roundedSize) ==> Marked(w, c, BLOCK - roundedSize, UNALLOCATED))
      ensures forall a | a < newObject || newObject + BLOCK + HDR <= a ::
                a != PrevAt(m, freeList) + NEXT && a != freeList + PREV ==> Get(w, a) == Get(m, a)
      ensures CutOk(roundedSize) ==> forall a | newObject + BLOCK <= a :: Get(w, a) == Get(m, a)
    {
      hide Get, Load, Store, Aligned;
      FooterAligned(newObject, roundedSize);
      HeaderAligned(newObject + roundedSize);
      FooterAligned(newObject, BLOCK);
      HeaderAligned(freeList);
      HeaderAligned(PrevAt(m, freeList));
      var newNextHeader := newObject + roundedSize;
      var newNextFooter := newObject + HDR + ARENA;
      var realSize := ARENA + HDR + FTR;

      w := Store(m, newNextHeader + STATUS, UNALLOCATED);
      w := Store(w, newNextHeader, realSize - roundedSize);
      w := Store(w, newNextFooter, SizeAt(w, newNextHeader));
      w := Store(w, newNextFooter + STATUS, UNALLOCATED);

      w := Store(w, newNextHeader + PREV, PrevAt(w, freeList));
      w := Store(w, freeList + PREV, newNextHeader);
      w := Store(w, PrevAt(w, newNextHeader) + NEXT, newNextHeader);
      w := Store(w, newNextHeader + NEXT, freeList);
    }

    /** The block at newObject is handed out. */
    static method CutHead(m: Mem, newObject: int, roundedSize: int) returns (w: Mem)
      requires Aligned(roundedSize) && MIN_SPLIT <= roundedSize && Aligned(newObject)
      ensures Marked(w, newObject, roundedSize, ALLOCATED)
      ensures NextAt(w, newObject) == PrevAt(w, newObject) == NULL
      ensures forall a | a < newObject || newObject + roundedSize <= a :: Get(w, a) == Get(m, a)
    {
      hide Get, Load, Store, Aligned;
      HeaderAligned(newObject);
      FooterAligned(newObject, roundedSize);
      var newFooter := newObject + roundedSize - FTR;
      w := Store(m, newObject + STATUS, ALLOCATED);
      w := Store(w, newObject, roundedSize);
      w := Store(w, newObject + PREV, NULL);
      w := Store(w, newObject + NEXT, NULL);
      w := Store(w, newFooter, SizeAt(w, newObject));
      w := Store(w, newFooter + STATUS, ALLOCATED);
    }

    /** The block handed out fills the chunk. */
    static method FillChunk(m: Mem, newObject: int, roundedSize: int) returns (w: Mem)
      requires Aligned(roundedSize) && MIN_SPLIT <= roundedSize && Aligned(newObject)
      ensures Marked(w, newObject, roundedSize, ALLOCATED)
      ensures NextAt(w, newObject) == PrevAt(w, newObject) == NULL
      ensures forall a | a < newObject || newObject + roundedSize <= a :: Get(w, a) == Get(m, a)
    {
      hide Get, Load, Store, Aligned;
      HeaderAligned(newObject);
      FooterAligned(newObject, roundedSize);
      var newFooter := newObject + roundedSize - FTR;
      w := Store(m, newObject + STATUS, ALLOCATED);
      w := Store(w, newFooter + STATUS, ALLOCATED);
      w := Store(w, newObject, roundedSize);
      w := Store(w, newFooter, roundedSize);
      w := Store(w, newObject + PREV, NULL);
      w := Store(w, newObject + NEXT, NULL);
    }

    /** A new chunk at os: fenceposts, the block for the request at its head, and, unless that block
      fills the chunk, the rest as the last node of the free list. */
    static method WriteChunk(m: Mem, freeList: int, os: int, roundedSize: int) returns (w: Mem)
      requires Aligned(os) && Aligned(roundedSize) && MIN_SPLIT <= roundedSize <= BLOCK && Aligned(freeList)
      requires Around(freeList, PrevAt(m, freeList), freeList, os, os)
      requires NextAt(m, PrevAt(m, freeList)) == freeList
      ensures Outside(m, w, os, os + CHUNK, PrevAt(m, freeList), freeList)
      ensures roundedSize < BLOCK ==>
                var p, c := PrevAt(m, freeList), os + FTR + roundedSize;
                PrevAt(w, freeList) == c && NextAt(w, p) == c && PrevAt(w, c) == p
      ensures CutOk(roundedSize) ==>
                && Tagged(w, FreshChunk(os, roundedSize))
                && Linked(w, [PrevAt(m, freeList)]
                             + (if roundedSize < BLOCK then [os + FTR + roundedSize] else []) + [freeList])
    {
      hide Get, Value, Store, Aligned, FreshChunk, Tagged, Linked;
      ghost var p, n := PrevAt(m, freeList), roundedSize;
      ChunkAligned(os);
      HeaderAligned(os + FTR);
      FooterAligned(os + FTR, n);
      var startFencepost := os;
      var newObject := startFencepost + FTR;
      var newNextFooter := newObject + HDR + ARENA;
      var endFencepost := newNextFooter + FTR;

      w := WriteFenceposts(m, startFencepost, endFencepost);

      var realSize := ARENA + HDR + FTR;
      if roundedSize < realSize {
        w := CutTail(w, freeList, newObject, roundedSize);
        w := CutHead(w, newObject, roundedSize);
        LinkedThree(w, p, newObject + roundedSize, freeList);
        if CutOk(n) {
          FreshTags(w, os, n);
        }
      } else if roundedSize == realSize {
        w := FillChunk(w, newObject, roundedSize);
        LinkedTwo(w, p, freeList);
        FreshTags(w, os, n);
      }
    }

    /** No block fits: get a chunk and hand out its head. The cut is not checked for a minimal
      remainder, so the heap is well formed again exactly when CutOk. */
    method Grow(roundedSize: int, os: int) returns (ptr: int)
      requires Valid() && BreakOk(L, os)
      requires roundedSize % 8 == 0 && MIN_SPLIT <= roundedSize <= BLOCK
      modifies this
      ensures ptr == os + FTR + HDR && ptr != NULL
      ensures heapSize == old(heapSize) + CHUNK && numChunks == old(numChunks) + 1
      ensures Kept(old(mem), mem, Live(old(L))) && ForeignKept(old(mem), mem, sentinel, Bases(old(L)) + {os})
      ensures CutOk(roundedSize) ==> Valid() && L == old(L) + FreshChunk(os, roundedSize)
      ensures !CutOk(roundedSize) ==>
                && L == old(L) && Dangles(os + FTR + roundedSize)
                && forall K: seq<Seg> | Bases(K) == Bases(L) + {os} :: !Rep(mem, sentinel, K)
    {
      hide Rep, RepTo, WF, Get, Value, FreshChunk, Tagged, Linked, NumChunks, Kept, Live, Bases, FreeAddrs, ForeignKept;
      ghost var m, n := mem, roundedSize;
      BeforeGrow(m, sentinel, L, os);

      var newBlock := GetMemoryFromOs(ARENA + 2 * HDR + 2 * FTR, os);
      var newObject := newBlock + FTR;
      var w := WriteChunk(mem, freeList, newBlock, roundedSize);
      mem := w;

      GrowPayload(m, w, sentinel, L, os);
      GrowForeign(m, w, sentinel, L, os);
      if CutOk(n) {
        AfterGrow(m, w, sentinel, L, os, n);
        L := L + FreshChunk(os, n);
      } else {
        Dangle(m, w, sentinel, os + FTR + n, L, os);
        NoLayout(w, sentinel, L, os, n);
      }
      return newObject + HDR;
    }

    /** The walk of the free list for the first block that is large enough; it stops at the sentinel
      when there is none. */
    method FindFit(roundedSize: int) returns (current: int, ghost i: nat)
      requires Valid()
      ensures i == FirstFit(L, roundedSize)
      ensures current == var k := FirstFit(L, roundedSize); if k < |L| then L[k].addr else sentinel
      ensures i < |L| ==> sentinel < current && 0 < current && ObjectSize(current + HDR) == L[i].len
    {
      hide Rep, NodeAfter, NumChunks, FirstFit;
      i := 0;
      current := NextAt(mem, freeList);
      WalkStart(mem, sentinel, L);
      while current != sentinel
        invariant i <= |L| && current == NodeAfter(sentinel, L[i..])
        invariant forall k | 0 <= k < i :: !(L[k].kind.Free? && roundedSize <= L[k].len)
        decreases |L| - i
      {
        ghost var j := WalkStep(mem, sentinel, L, i, current);
        var temp := current + HDR;
        if ObjectSize(temp) >= roundedSize {
          FirstFitIs(L, roundedSize, j);
          return current, j;
        }
        current := NextAt(mem, current);
        i := j + 1;
      }
      WalkEnd(mem, sentinel, L, i);
      FirstFitIs(L, roundedSize, |L|);
      i := |L|;
    }

    /** allocate_object: first fit over the free list, then growth; NULL when the request exceeds an
      arena. os is where the OS would put a new chunk. */
    method AllocateObject(size: nat, os: int) returns (ptr: int)
      requires Valid() && BreakOk(L, os)
      requires size + HDR + FTR + 7 < SIZE_MOD
      modifies this
      ensures ptr == NULL <==> size > ARENA
      ensures ptr != NULL ==> ptr == MallocBlock(old(L), size, os).addr + HDR
      ensures Kept(old(mem), mem, Live(old(L)))
      ensures ForeignKept(old(mem), mem, sentinel, BasesAfter(old(L), size, os))
      ensures CutFits(old(L), size) ==> Valid() && L == MallocLayout(old(L), size, os)
      ensures !CutFits(old(L), size) ==>
                && L == old(L) && Dangles(os + FTR + Rounded(size))
                && forall K: seq<Seg> | Bases(K) == Bases(L) + {os} :: !Rep(mem, sentinel, K)
      ensures heapSize == old(heapSize) + (if Grows(old(L), size) then CHUNK else 0)
      ensures numChunks == old(numChunks) + (if Grows(old(L), size) then 1 else 0)
    {
      hide Rep, RepTo, NodeAfter, NumChunks, Kept, Live, Bases, TakeAt, FreshChunk, FirstFit, Rounded, RoundedSizeT;
      hide ForeignKept;
      var roundedSize := RoundedSizeT(size);
      RoundingWithoutWrap(size);
      RoundedIsLeast(size);
      assert !Grows(L, size) ==> BasesAfter(L, size, os) == Bases(L);

      var maxSize := ARENA + HDR + FTR;
      if roundedSize > maxSize {
        KeptAll(mem, Live(L));
        ForeignAll(mem, sentinel, Bases(L));
        return NULL;
      }

      ghost var i;
      var current;
      current, i := FindFit(roundedSize);
      if current != sentinel {
        var temp := current + HDR;
        var remainder := ObjectSize(temp) - roundedSize;
        var minSize := 8 + HDR + FTR;
        if remainder < minSize {
          TakeWhole(current, i, roundedSize);
        } else {
          Split(current, roundedSize, i);
        }
        return current + HDR;
      }
      ptr := Grow(roundedSize, os);
    }

    /** The sorted place of a block without free neighbours: the list node to insert it after. */
    method FindPlace(current: int, ghost i: nat, ghost stop: int) returns (temp: int)
      requires RepTo(mem, sentinel, stop, L) && i < |L| && L[i].kind.Used? && L[i].addr == current
      ensures temp == NodeBefore(sentinel, L[..i])
    {
      hide RepTo, NumChunks, FreeAddrs;
      ghost var C, k := [sentinel] + FreeAddrs(L[..i]), 0;
      temp := sentinel;
      PlaceStep(mem, sentinel, stop, L, i, k);
      while NextAt(mem, temp) != sentinel
        invariant 0 <= k < |C| && temp == C[k]
        decreases |C| - k
      {
        PlaceStep(mem, sentinel, stop, L, i, k);
        if temp < current && NextAt(mem, temp) > current {
          break;
        } else {
          temp := NextAt(mem, temp);
          k := k + 1;
        }
      }
      PlaceStep(mem, sentinel, stop, L, i, k);
    }

    /** Case 1, no free neighbour: insert the block after list node temp. */
    static method Insert(m: Mem, current: int, temp: int, ghost sent: int) returns (w: Mem)
      requires MIN_BLOCK <= SizeAt(m, current) && Aligned(current) && Aligned(SizeAt(m, current))
      requires Around(sent, temp, NextAt(m, temp), current, current + SizeAt(m, current))
      requires Marked(m, current, SizeAt(m, current), ALLOCATED)
      ensures Outside(m, w, current, current + SizeAt(m, current), temp, NextAt(m, temp))
      ensures Marked(w, current, SizeAt(m, current), UNALLOCATED)
      ensures Between(w, temp, current, NextAt(m, temp))
    {
      hide Get, Load, Store, Aligned;
      HeaderAligned(current);
      FooterAligned(current, SizeAt(m, current));
      HeaderAligned(temp);
      HeaderAligned(NextAt(m, temp));
      var currentFooter := current + SizeAt(m, current) - FTR;
      w := Store(m, current + STATUS, UNALLOCATED);
      w := Store(w, currentFooter + STATUS, UNALLOCATED);
      w := Store(w, NextAt(w, temp) + PREV, current);
      w := Store(w, current + NEXT, NextAt(w, temp));
      w := Store(w, temp + NEXT, current);
      w := Store(w, current + PREV, temp);
    }

    /** Case 2, the left neighbour is free: it grows, and stays where it is in the list. */
    static method MergeLeft(m: Mem, current: int) returns (w: Mem)
      requires Aligned(current) && Aligned(SizeAt(m, current)) && Aligned(SizeAt(m, current - FTR))
      requires MIN_BLOCK <= SizeAt(m, current) && MIN_BLOCK <= SizeAt(m, current - FTR)
      requires var a := current - SizeAt(m, current - FTR);
               Marked(m, a, SizeAt(m, current - FTR), UNALLOCATED)
      ensures var a, z := current - SizeAt(m, current - FTR), SizeAt(m, current - FTR) + SizeAt(m, current);
              && Marked(w, a, z, UNALLOCATED)
              && NextAt(w, a) == NextAt(m, a) && PrevAt(w, a) == PrevAt(m, a)
              && (forall x | x < a || a + z <= x :: Get(w, x) == Get(m, x) && Load(w, x) == Load(m, x))
      ensures StatusAt(w, current) == UNALLOCATED && SizeAt(w, current) == SizeAt(m, current)
    {
      hide Get, Load, Store, Aligned;
      HeaderAligned(current);
      FooterAligned(current, SizeAt(m, current));
      LeftAligned(current, SizeAt(m, current - FTR));
      var currentFooter := current + SizeAt(m, current) - FTR;
      var leftFooter := current - FTR;
      w := Store(m, current + STATUS, UNALLOCATED);
      w := Store(w, currentFooter + STATUS, UNALLOCATED);

      var leftHeader := leftFooter - SizeAt(w, leftFooter) + FTR;
      w := Store(w, leftHeader, SizeAt(w, leftHeader) + SizeAt(w, current));
      w := Store(w, currentFooter, SizeAt(w, leftHeader));
    }

    /** Case 3, the right neighbour is free: the block grows over it and takes its place in the list. */
    static method MergeRight(m: Mem, current: int, ghost sent: int) returns (w: Mem)
      requires Aligned(current) && Aligned(SizeAt(m, current))
      requires MIN_BLOCK <= SizeAt(m, current)
      requires var y := current + SizeAt(m, current);
               && Aligned(SizeAt(m, y))
               && MIN_BLOCK <= SizeAt(m, y) && Marked(m, y, SizeAt(m, y), UNALLOCATED)
               && Around(sent, PrevAt(m, y), NextAt(m, y), current, y + SizeAt(m, y))
      ensures var y := current + SizeAt(m, current);
              var p, q, z := PrevAt(m, y), NextAt(m, y), SizeAt(m, current) + SizeAt(m, y);
              && Outside(m, w, current, current + z, p, q)
              && Marked(w, current, z, UNALLOCATED)
              && Between(w, p, current, q)
              && NextAt(w, y) == PrevAt(w, y) == NULL
    {
      hide Get, Load, Store, Aligned;
      ghost var y := current + SizeAt(m, current);
      HeaderAligned(current);
      FooterAligned(current, SizeAt(m, current));
      HeaderAligned(y);
      FooterAligned(y, SizeAt(m, y));
      HeaderAligned(PrevAt(m, y));
      HeaderAligned(NextAt(m, y));
      var currentFooter := current + SizeAt(m, current) - FTR;
      var rightHeader := current + SizeAt(m, current);
      w := Store(m, current + STATUS, UNALLOCATED);
      w := Store(w, currentFooter + STATUS, UNALLOCATED);
      w := Store(w, current, SizeAt(w, current) + SizeAt(w, rightHeader));

      var rightFooter := rightHeader + SizeAt(w, rightHeader) - FTR;
      w := Store(w, rightFooter, SizeAt(w, current));

      w := Store(w, current + PREV, PrevAt(w, rightHeader));
      w := Store(w, current + NEXT, NextAt(w, rightHeader));
      w := Store(w, PrevAt(w, rightHeader) + NEXT, current);
      w := Store(w, NextAt(w, rightHeader) + PREV, current);
      w := Store(w, rightHeader + PREV, NULL);
      w := Store(w, rightHeader + NEXT, NULL);
    }

    /** Case 4, both neighbours are free: the left one grows over all three. Its next becomes the
      right one's next, which unlinks the right one only because it is the left one's successor. */
    static method MergeBoth(m: Mem, current: int, ghost p: int, ghost sent: int) returns (w: Mem)
      requires Aligned(current) && Aligned(SizeAt(m, current)) && Aligned(SizeAt(m, current - FTR))
      requires MIN_BLOCK <= SizeAt(m, current) && MIN_BLOCK <= SizeAt(m, current - FTR)
      requires var a, y := current - SizeAt(m, current - FTR), current + SizeAt(m, current);
               && Marked(m, a, SizeAt(m, current - FTR), UNALLOCATED)
               && MIN_BLOCK <= SizeAt(m, y) && Marked(m, y, SizeAt(m, y), UNALLOCATED) && Aligned(SizeAt(m, y))
               && Around(sent, p, NextAt(m, y), a, y + SizeAt(m, y))
               && NextAt(m, p) == a && PrevAt(m, a) == p
      ensures var a, y := current - SizeAt(m, current - FTR), current + SizeAt(m, current);
              var q, z := NextAt(m, y), y + SizeAt(m, y) - a;
              && Outside(m, w, a, a + z, p, q)
              && Marked(w, a, z, UNALLOCATED)
              && Between(w, p, a, q)
              && NextAt(w, y) == PrevAt(w, y) == NULL
              && StatusAt(w, current) == StatusAt(m, current) && SizeAt(w, current) == SizeAt(m, current)
    {
      hide Get, Load, Store, Aligned;
      ghost var y := current + SizeAt(m, current);
      FooterAligned(current, SizeAt(m, current));
      LeftAligned(current, SizeAt(m, current - FTR));
      HeaderAligned(y);
      FooterAligned(y, SizeAt(m, y));
      HeaderAligned(NextAt(m, y));
      var leftFooter := current - FTR;
      var rightHeader := current + SizeAt(m, current);
      var leftHeader := leftFooter - SizeAt(m, leftFooter) + FTR;
      var rightFooter := rightHeader + SizeAt(m, rightHeader) - FTR;
      var newSize := SizeAt(m, leftFooter) + SizeAt(m, current) + SizeAt(m, rightHeader);
      w := Store(m, leftHeader, newSize);
      w := Store(w, rightFooter, newSize);

      w := Store(w, leftHeader + NEXT, NextAt(w, rightHeader));
      w := Store(w, NextAt(w, rightHeader) + PREV, leftHeader);
      w := Store(w, rightHeader + PREV, NULL);
      w := Store(w, rightHeader + NEXT, NULL);
    }

    /** free_object: mark the block free and merge it with the neighbours that are free. It needs no
      more of the list than that it leads through the free blocks of L up to some stop above them. */
    method FreeObject(ptr: int, ghost stop: int)
      requires freeList == sentinel && RepTo(mem, sentinel, stop, L) && IsLive(L, ptr)
      modifies this`mem, this`L
      ensures RepTo(mem, sentinel, stop, L) && WF(old(L)) && L == FreePtr(old(L), ptr)
      ensures NumChunks(L) == NumChunks(old(L))
      ensures stop != sentinel ==> PrevAt(mem, sentinel) == old(PrevAt(mem, sentinel))
      ensures forall a | Foreign(sentinel, Bases(old(L)), a) && a != stop + PREV :: Get(mem, a) == old(Get(mem, a))
      ensures Kept(old(mem), mem, Live(old(L)) - {old(L)[LiveIndex(old(L), ptr)]})
    {
      hide RepTo, WF, Get, NodeBefore, NodeAfter, FreeBefore, FreeAfter, NumChunks, Kept, Live;
      hide FreeAt, Merged, Value, Foreign, Bases;
      ghost var m, i := mem, LiveIndex(L, ptr);
      FreeReads(m, sentinel, stop, L, i);
      ghost var p := FreeBefore(sentinel, L, i);

      var current := ptr - HDR;
      var leftStatus := StatusAt(mem, current - FTR);
      var rightStatus := StatusAt(mem, current + SizeAt(mem, current));
      var w;
      if leftStatus != UNALLOCATED && rightStatus != UNALLOCATED {
        var temp := FindPlace(current, i, stop);
        w := Insert(mem, current, temp, sentinel);
      } else if leftStatus == UNALLOCATED && rightStatus == ALLOCATED {
        w := MergeLeft(mem, current);
      } else if rightStatus == UNALLOCATED && leftStatus == ALLOCATED {
        w := MergeRight(mem, current, sentinel);
      } else {
        w := MergeBoth(mem, current, p, sentinel);
      }
      AfterFree(m, w, sentinel, stop, L, i);
      FreeForeign(m, w, sentinel, stop, L, i);
      mem := w;
      L := FreePtr(L, ptr);
    }

    // ---- The C interface ----

    method Malloc(size: nat, os: int) returns (ptr: int)
      requires Valid() && BreakOk(L, os)
      requires size + HDR + FTR + 7 < SIZE_MOD
      modifies this
      ensures ptr == NULL <==> size > ARENA
      ensures ptr != NULL ==> ptr == MallocBlock(old(L), size, os).addr + HDR && ptr % 8 == 0
      ensures Kept(old(mem), mem, Live(old(L)))
      ensures ForeignKept(old(mem), mem, sentinel, BasesAfter(old(L), size, os))
      ensures CutFits(old(L), size) ==>
                && Valid() && L == MallocLayout(old(L), size, os)
                && Live(L) == Live(old(L)) + (if size <= ARENA then {MallocBlock(old(L), size, os)} else {})
                && (ptr != NULL ==>
                      && Marked(mem, ptr - HDR, MallocBlock(old(L), size, os).len, ALLOCATED)
                      && NextAt(mem, ptr - HDR) == PrevAt(mem, ptr - HDR) == NULL)
      ensures !CutFits(old(L), size) ==>
                && L == old(L) && Dangles(os + FTR + Rounded(size))
                && forall K: seq<Seg> | Bases(K) == Bases(L) + {os} :: !Rep(mem, sentinel, K)
    {
      hide Rep, RepTo, NumChunks, Kept, MallocLayout, MallocBlock, FirstFit, Bases, Live, ForeignKept, BasesAfter;
      hide Load;
      RepWF(mem, sentinel, L);
      MallocAligned(L, size, os);
      ghost var K := L;
      ptr := AllocateObject(size, os);
      if CutFits(K, size) {
        MallocStep(K, size, os);
        if ptr != NULL {
          LiveFields(mem, sentinel, L, MallocBlock(K, size, os));
        }
      }
    }

    method Free(ptr: int)
      requires Valid() && (ptr == NULL || IsLive(L, ptr))
      modifies this
      ensures Valid() && heapSize == old(heapSize) && numChunks == old(numChunks)
      ensures ForeignKept(old(mem), mem, sentinel, Bases(old(L)))
      ensures ptr == NULL ==> L == old(L) && mem == old(mem)
      ensures ptr != NULL ==>
                && WF(old(L)) && L == FreePtr(old(L), ptr)
                && Kept(old(mem), mem, Live(old(L)) - {old(L)[LiveIndex(old(L), ptr)]})
    {
      hide NumChunks, Kept, FreePtr, Live, Bases;
      if ptr != NULL {
        FreeObject(ptr, sentinel);
      }
    }

    /** The program writes byte k of a live object. */
    method WriteByte(ptr: int, k: nat, b: Byte)
      requires Valid() && IsLive(L, ptr)
      requires k < L[LiveIndex(L, ptr)].len - HDR - FTR
      modifies this`mem
      ensures Valid()
      ensures Kept(old(mem), mem, Live(L) - {L[LiveIndex(L, ptr)]})
      ensures ForeignKept(old(mem), mem, sentinel, Bases(L))
      ensures forall x {:trigger ByteAt(mem, x)} ::
                ByteAt(mem, x) == if x == ptr + k then b else old(ByteAt(mem, x))
    {
      hide Rep, NumChunks, Kept, Live, ByteAt, Bases;
      ghost var m, i := mem, LiveIndex(L, ptr);
      var w := SetByte(mem, ptr + k, b);
      RepWF(m, sentinel, L);
      SegOf(L, i);
      PayloadWrite(m, w, sentinel, L, i);
      InChunk(L, L[i]);
      mem := w;
    }

    method Calloc(numElems: nat, elemSize: nat, os: int) returns (ptr: int)
      requires numElems * elemSize + HDR + FTR + 7 < SIZE_MOD
      requires Valid() && BreakOk(L, os)
      modifies this
      ensures ptr == NULL <==> numElems * elemSize > ARENA
      ensures ptr != NULL ==> ptr == MallocBlock(old(L), numElems * elemSize, os).addr + HDR
      ensures ptr != NULL ==>
                forall x {:trigger ByteAt(mem, x)} | ptr <= x < ptr + numElems * elemSize :: ByteAt(mem, x) == 0
      ensures Kept(old(mem), mem, Live(old(L)))
      ensures ForeignKept(old(mem), mem, sentinel, BasesAfter(old(L), numElems * elemSize, os))
      ensures CutFits(old(L), numElems * elemSize) ==>
                Valid() && L == MallocLayout(old(L), numElems * elemSize, os)
      ensures !CutFits(old(L), numElems * elemSize) ==>
                && L == old(L) && Dangles(os + FTR + Rounded(numElems * elemSize))
                && forall K: seq<Seg> | Bases(K) == Bases(L) + {os} :: !Rep(mem, sentinel, K)
    {
      hide Rep, RepTo, NumChunks, Kept, MallocLayout, MallocBlock, FirstFit, Bases, Live, ByteAt;
      hide ForeignKept, BasesAfter;
      var size := numElems * elemSize;
      ghost var K, m := L, mem;
      RepWF(m, sentinel, K);
      ptr := AllocateObject(size, os);
      if ptr != NULL {
        ghost var m1 := mem;
        var w := Memset(mem, ptr, 0, size);
        MallocAligned(K, size, os);
        Overwritten(m1, w, sentinel, K, size, os);
        KeptTrans(m, m1, w, Live(K), Live(K), Live(K));
        ghost var B := BasesAfter(K, size, os);
        ForeignTrans(m, m1, w, sentinel, B, B, B);
        mem := w;
      }
    }

    /** realloc: allocate, copy, free. object_size counts header and footer, so the copy may read past
      the old payload, but never past the old block's chunk, nor into the new payload. */
    method Realloc(ptr: int, size: nat, os: int) returns (newPtr: int)
      requires size + HDR + FTR + 7 < SIZE_MOD
      requires Valid() && BreakOk(L, os)
      requires ptr != NULL ==> IsLive(L, ptr) && size <= ARENA
      modifies this
      ensures newPtr == NULL <==> size > ARENA
      ensures newPtr != NULL ==> newPtr == MallocBlock(old(L), size, os).addr + HDR
      ensures ForeignKept(old(mem), mem, sentinel, BasesAfter(old(L), size, os))
      ensures ptr == NULL ==> Kept(old(mem), mem, Live(old(L)))
      ensures ptr != NULL ==>
                var s := old(L)[LiveIndex(old(L), ptr)];
                && Kept(old(mem), mem, Live(old(L)) - {s})
                && ptr + Min(s.len, size) <= s.base + CHUNK
                && forall x {:trigger ByteAt(mem, x)} | newPtr <= x < newPtr + Min(s.len - HDR - FTR, size) ::
                     ByteAt(mem, x) == old(ByteAt(mem, ptr + (x - newPtr)))
      ensures CutFits(old(L), size) ==>
                var K := MallocLayout(old(L), size, os);
                && Valid() && WF(K)
                && (if ptr == NULL then L == K else IsLive(K, ptr) && L == FreePtr(K, ptr))
      ensures !CutFits(old(L), size) ==>
                && WF(old(L)) && Dangles(os + FTR + Rounded(size))
                && L == (if ptr == NULL then old(L) else FreePtr(old(L), ptr))
                && forall K: seq<Seg> | Bases(K) == Bases(old(L)) + {os} :: !Rep(mem, sentinel, K)
    {
      hide RepTo, NumChunks, Kept, MallocLayout, MallocBlock, FirstFit, Bases, Live, ByteAt, FreePtr, WF;
      hide Get, Load, Rounded, ForeignKept, BasesAfter, Foreign;
      ghost var K, m := L, mem;
      RepWF(m, sentinel, K);
      newPtr := AllocateObject(size, os);
      if ptr != NULL {
        ghost var m1, s := mem, K[LiveIndex(K, ptr)];
        CopyIsLegal(m1, sentinel, K, ptr, size, os);

        var sizeToCopy := ObjectSize(ptr);
        if sizeToCopy > size {
          sizeToCopy := size;
        }
        var w := Memcpy(mem, newPtr, ptr, sizeToCopy);
        Overwritten(m1, w, sentinel, K, size, os);
        ReadyToFree(w, sentinel, K, ptr, size, os);
        mem := w;

        FreeObject(ptr, StopOf(sentinel, K, size, os));
        Reallocated(m, m1, w, mem, sentinel, K, ptr, size, os);
      } else if CutFits(K, size) {
        RepWF(mem, sentinel, L);
      }
    }

    // ---- Runs ----

    /** A run of calls on memory is the run on layouts; the payload of a block that stays live through
      it is never touched. */
    method Perform(ops: seq<Op>, ghost Ls: seq<seq<Seg>>)
      requires Valid() && IsRunFrom(L, ops, Ls) && forall op | op in ops :: NoWrap(op)
      modifies this
      ensures Valid() && L == Ls[|ops|]
      ensures Kept(old(mem), mem, AlwaysLive(Ls))
      ensures ForeignKept(old(mem), mem, sentinel, Bases(L)) && Bases(old(L)) <= Bases(L)
    {
      hide Rep, RepTo, WF, NumChunks, Kept, Enabled, Step, Live, AlwaysLive, ForeignKept, Bases;
      ghost var S, m, K := AlwaysLive(Ls), mem, L;
      RepWF(mem, sentinel, L);
      KeptAll(m, S);
      ForeignAll(m, sentinel, Bases(L));
      for k := 0 to |ops|
        invariant Valid() && L == Ls[k]
        invariant Kept(m, mem, S) && ForeignKept(m, mem, sentinel, Bases(L)) && Bases(K) <= Bases(L)
      {
        RunFromKeeps(K, ops, Ls, k);
        RunStays(Ls, k);
        ghost var m1 := mem;
        Call(ops[k]);
        KeptTrans(m, m1, mem, S, Live(Ls[k]) * Live(Ls[k + 1]), S);
        ForeignTrans(m, m1, mem, sentinel, Bases(Ls[k]), Bases(L), Bases(L));
      }
    }

    /** One call. */
    method Call(op: Op)
      requires Valid() && WF(L) && Enabled(L, op) && NoWrap(op)
      modifies this
      ensures Valid() && L == Step(old(L), op)
      ensures Kept(old(mem), mem, Live(old(L)) * Live(L))
      ensures ForeignKept(old(mem), mem, sentinel, Bases(L)) && Bases(old(L)) <= Bases(L)
    {
      hide Rep, RepTo, WF, NumChunks, Kept, Live, MallocLayout, MallocBlock, FirstFit, FreePtr, Bases, ByteAt;
      hide ForeignKept;
      ghost var m, K, both := mem, L, Live(L) * Live(Step(L, op));
      StepKeeps(K, op);
      match op {
        case Malloc(size, os) =>
          var _ := Malloc(size, os);
          KeptFewer(m, mem, Live(K), both);
        case Free(ptr) =>
          Free(ptr);
          if ptr == NULL {
            KeptAll(m, both);
          } else {
            KeptFewer(m, mem, Live(K) - {K[LiveIndex(K, ptr)]}, both);
          }
        case Realloc(ptr, size, os) =>
          var _ := Realloc(ptr, size, os);
          KeptFewer(m, mem, if ptr == NULL then Live(K) else Live(K) - {K[LiveIndex(K, ptr)]}, both);
      }
    }

    // ---- realloc among other threads ----

    /** Byte k of block s is copied to block b, after other threads have made some calls. */
    method CopyByte(ptr: int, newPtr: int, k: nat, ops: seq<Op>, ghost Ls: seq<seq<Seg>>, ghost s: Seg, ghost b: Seg)
      requires Valid() && IsRunFrom(L, ops, Ls) && forall op | op in ops :: NoWrap(op)
      requires {s, b} <= AlwaysLive(Ls) && AlwaysLive(Ls) <= Live(Ls[|ops|]) && s != b
      requires ptr == s.addr + HDR && newPtr == b.addr + HDR && k < b.len - HDR - FTR
      modifies this
      ensures Valid() && L == Ls[|ops|]
      ensures Kept(old(mem), mem, AlwaysLive(Ls) - {b})
      ensures ForeignKept(old(mem), mem, sentinel, Bases(L)) && Bases(old(L)) <= Bases(L)
      ensures forall x {:trigger ByteAt(mem, x)} | InPayload(b, x) && x != newPtr + k ::
                ByteAt(mem, x) == old(ByteAt(mem, x))
      ensures k < s.len - HDR - FTR ==>
                ByteAt(mem, newPtr + k) == old(ByteAt(mem, ptr + k))
    {
      hide Rep, RepTo, WF, NumChunks, Kept, Live, AlwaysLive, ByteAt, IsRunFrom, ForeignKept, Bases;
      ghost var m, S := mem, AlwaysLive(Ls);
      Perform(ops, Ls);
      ghost var m1 := mem;
      RepWF(m1, sentinel, L);
      IsLiveAt(L, s);
      IsLiveAt(L, b);
      SegOf(L, LiveIndex(L, s.addr + HDR));
      SegOf(L, LiveIndex(L, b.addr + HDR));
      KeptBytes(m, m1, L, S, s);
      KeptBytes(m, m1, L, S, b);
      WriteByte(newPtr, k, ByteAt(mem, ptr + k));
      KeptTrans(m, m1, mem, S, Live(L) - {b}, S - {b});
      ForeignTrans(m, m1, mem, sentinel, Bases(L), Bases(L), Bases(L));
    }

    /** realloc as the other threads see it: locked allocation, copy without the lock, locked free, and
      calls of others in between, before every byte of the copy and before the free. They may do
      anything but free the two blocks. */
    method ReallocShared(ptr: int, size: nat, os: int, opss: seq<seq<Op>>, ghost Lss: seq<seq<seq<Seg>>>)
      returns (newPtr: int)
      requires size <= ARENA && Valid() && BreakOk(L, os) && CutFits(L, size) && IsLive(L, ptr)
      requires var s, b := L[LiveIndex(L, ptr)], MallocBlock(L, size, os);
               |opss| == Min(s.len, size) + 1 && Others(MallocLayout(L, size, os), opss, Lss, {s, b})
      modifies this
      ensures var K := old(L);
              var s, last := K[LiveIndex(K, ptr)], AfterRuns(MallocLayout(K, size, os), Lss, |Lss|);
              && newPtr == MallocBlock(K, size, os).addr + HDR
              && Valid() && WF(last) && IsLive(last, ptr) && L == FreePtr(last, ptr)
              && Kept(old(mem), mem, LiveThroughout(K, Lss) - {s})
              && ForeignKept(old(mem), mem, sentinel, Bases(L))
              && forall x {:trigger ByteAt(mem, x)} | newPtr <= x < newPtr + Min(s.len - HDR - FTR, size) ::
                   ByteAt(mem, x) == old(ByteAt(mem, ptr + (x - newPtr)))
    {
      hide RepTo, WF, NumChunks, Kept, Live, AlwaysLive, ByteAt, IsRunFrom, Others, AfterRuns, LiveThroughout;
      hide MallocLayout, MallocBlock, FirstFit, FreePtr, Bases, BreakOk, ForeignKept, Foreign, BasesAfter;
      ghost var K, m := L, mem;
      RepWF(m, sentinel, K);
      newPtr := AllocateObject(size, os);
      ghost var M, m1, T := L, mem, LiveThroughout(K, Lss);
      ghost var s, b := ReallocBlocks(m1, sentinel, K, ptr, size, os);
      ThroughoutIs(M, opss, Lss, {s, b}, K, s);
      KeptFewer(m, m1, Live(K), T);
      MallocStep(K, size, os);

      var sizeToCopy := ObjectSize(ptr);
      if sizeToCopy > size {
        sizeToCopy := size;
      }
      for k := 0 to sizeToCopy
        invariant Valid() && L == AfterRuns(M, Lss, k) && Kept(m, mem, T)
        invariant ForeignKept(m, mem, sentinel, Bases(L))
        invariant forall x {:trigger ByteAt(mem, x)} | newPtr <= x < newPtr + Min(s.len - HDR - FTR, k) ::
                    ByteAt(mem, x) == ByteAt(m, ptr + (x - newPtr))
      {
        AfterRunsNext(M, opss, Lss, {s, b}, K, k);
        KeptBytes(m, mem, K, T, s);
        ghost var w, B := mem, Bases(L);
        CopyByte(ptr, newPtr, k, opss[k], Lss[k], s, b);
        KeptTrans(m, w, mem, T, AlwaysLive(Lss[k]) - {b}, T);
        ForeignTrans(m, w, mem, sentinel, B, Bases(L), Bases(L));
      }
      AfterRunsNext(M, opss, Lss, {s, b}, K, sizeToCopy);
      ghost var w, B := mem, Bases(L);
      Perform(opss[sizeToCopy], Lss[sizeToCopy]);
      ghost var z := mem;
      KeptBytes(w, z, L, AlwaysLive(Lss[sizeToCopy]), b);
      KeptTrans(m, w, z, T, AlwaysLive(Lss[sizeToCopy]), T);
      ForeignTrans(m, w, z, sentinel, B, Bases(L), Bases(L));
      RepWF(z, sentinel, L);
      IsLiveAt(L, s);
      FreePtrKeeps(L, ptr);
      FreeObject(ptr, sentinel);
      ForeignFreed(z, mem, sentinel, Bases(L));
      ForeignTrans(m, z, mem, sentinel, Bases(L), Bases(L), Bases(L));
      KeptBytes(z, mem, L, Live(AfterRuns(M, Lss, |Lss|)) - {s}, b);
      KeptTrans(m, z, mem, T, Live(AfterRuns(M, Lss, |Lss|)) - {s}, T - {s});
    }
  }
}
