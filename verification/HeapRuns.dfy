/** Laws of malloc and free over whole runs, all of them consequences of well-formedness and the
  canonical form. */
module HeapRuns {
  import opened HeapLayout
  import opened HeapPolicy

  // ---- One call ----

  /** malloc keeps the heap well formed, hands out one new block that holds the request, and leaves
    every live block live. */
  lemma MallocKeeps(L: seq<Seg>, size: nat, os: int)
    requires WF(L) && BreakOk(L, os) && CutFits(L, size) && size <= ARENA
    ensures var b := MallocBlock(L, size, os);
            && WF(MallocLayout(L, size, os))
            && Live(MallocLayout(L, size, os)) == Live(L) + {b} && b !in Live(L)
            && b.kind.Used? && b.addr % 8 == 0 && size + HDR + FTR <= b.len
    ensures Bases(MallocLayout(L, size, os))
            == Bases(L) + if FirstFit(L, Rounded(size)) == |L| then {os} else {}
  {
    hide WF, Live, Bases, TakeAt, FreshChunk, FirstFit;
    var n := Rounded(size);
    RoundedIsLeast(size);
    var i := FirstFit(L, n);
    if i < |L| {
      SegOf(L, i);
      TakeKeeps(L, i, n);
    } else {
      FreshChunkWF(os, n);
      FreshHead(os, n);
      AppendKeeps(L, os, FreshChunk(os, n));
      FreshIsNew(L, os, n);
    }
  }

  /** The block malloc hands out starts where the first fit starts, or the arena of the new chunk. It is
    cut to the rounded size, unless it comes from a free block whose remainder could not serve any
    request; then it is that whole block. */
  lemma MallocBlockIs(L: seq<Seg>, size: nat, os: int)
    ensures var n, i, b := Rounded(size), FirstFit(L, Rounded(size)), MallocBlock(L, size, os);
            b == if i == |L| then Seg(os, os + FTR, n, Used)
                 else if Useless(L[i].len - n) then Seg(L[i].base, L[i].addr, L[i].len, Used)
                 else Seg(L[i].base, L[i].addr, n, Used)
  {
    hide Useless, FirstFit, Rounded;
    var n, i := Rounded(size), FirstFit(L, Rounded(size));
    if i < |L| {
      UselessWhen(L[i].len - n);
    }
  }

  /** What malloc hands out is 8-aligned. */
  lemma MallocAligned(L: seq<Seg>, size: nat, os: int)
    requires WF(L) && BreakOk(L, os)
    ensures (MallocBlock(L, size, os).addr + HDR) % 8 == 0
  {
    hide WF, FirstFit, Rounded, SegWF;
    var i := FirstFit(L, Rounded(size));
    if i < |L| {
      SegOf(L, i);
      BlockAligned(L[i]);
      SumAligned(L[i].addr, HDR);
    } else {
      SumAligned(os, FTR + HDR);
    }
  }

  lemma BlockAligned(s: Seg)
    requires SegWF(s) && s.Block()
    ensures s.addr % 8 == 0
  {
  }

  lemma SumAligned(a: int, d: int)
    requires a % 8 == 0 && d % 8 == 0
    ensures (a + d) % 8 == 0
  {
  }

  lemma SegOf(L: seq<Seg>, i: nat)
    requires WF(L) && i < |L|
    ensures SegWF(L[i])
  {
  }

  lemma FreshHead(os: int, n: int)
    ensures FreshChunk(os, n) != [] && FreshChunk(os, n)[0].base == os
  {
  }

  lemma FreshIsNew(L: seq<Seg>, os: int, n: int)
    requires WF(L) && BreakOk(L, os)
    ensures FreshBlock(os, n) !in Live(L)
  {
    if FreshBlock(os, n) in L {
      assert SegWF(FreshBlock(os, n));
      BelowBreak(L, os, FreshBlock(os, n));
    }
  }

  /** free(ptr) removes exactly that block from the live ones. */
  lemma FreePtrKeeps(L: seq<Seg>, ptr: int)
    requires WF(L) && IsLive(L, ptr)
    ensures WF(FreePtr(L, ptr)) && Bases(FreePtr(L, ptr)) == Bases(L)
    ensures Live(FreePtr(L, ptr)) == Live(L) - {L[LiveIndex(L, ptr)]}
  {
    FreeKeeps(L, LiveIndex(L, ptr));
  }

  /** The lowest fit: of the free blocks that are large enough, malloc takes the one with the least
    address. */
  lemma FirstFitIsLowest(L: seq<Seg>, n: int, s: Seg)
    requires WF(L) && s in L && s.kind.Free? && n <= s.len
    ensures FirstFit(L, n) < |L| && L[FirstFit(L, n)].addr <= s.addr
  {
    var j :| 0 <= j < |L| && L[j] == s;
    var i := FirstFit(L, n);
    if i < j {
      Ordered(L, i, j);
      assert SegWF(L[i]);
    }
  }

  // ---- Round trip ----

  /** Freeing what malloc just returned undoes it: the same layout, or, when the heap had to grow,
    the old one followed by a chunk that is entirely free. */
  lemma FreeUndoesMalloc(L: seq<Seg>, size: nat, os: int)
    requires WF(L) && BreakOk(L, os) && CutFits(L, size) && size <= ARENA
    ensures var L1, ptr := MallocLayout(L, size, os), MallocBlock(L, size, os).addr + HDR;
            && WF(L1) && IsLive(L1, ptr)
            && FreePtr(L1, ptr) == L + if FirstFit(L, Rounded(size)) == |L| then WholeChunk(os) else []
  {
    hide WF, Live, Bases, FreePtr, MallocLayout, MallocBlock, FirstFit, WholeChunk;
    var L1, b := MallocLayout(L, size, os), MallocBlock(L, size, os);
    MallocKeeps(L, size, os);
    IsLiveAt(L1, b);
    var L2 := FreePtr(L1, b.addr + HDR);
    FreePtrKeeps(L1, b.addr + HDR);
    assert Live(L2) == Live(L);
    if FirstFit(L, Rounded(size)) == |L| {
      WholeChunkWF(os);
      WholeHead(os);
      AppendKeeps(L, os, WholeChunk(os));
      Canonical(L2, L + WholeChunk(os));
    } else {
      assert L + [] == L;
      Canonical(L2, L);
    }
  }

  lemma WholeHead(os: int)
    ensures WholeChunk(os) != [] && WholeChunk(os)[0].base == os
  {
  }

  lemma IsLiveAt(L: seq<Seg>, b: Seg)
    requires WF(L) && b in Live(L)
    ensures IsLive(L, b.addr + HDR) && L[LiveIndex(L, b.addr + HDR)] == b
  {
    var i :| 0 <= i < |L| && L[i] == b;
    LiveIndexIs(L, b.addr + HDR, i);
  }

  // ---- Any order of frees ----

  /** The live blocks whose pointers are listed. */
  ghost function BlocksAt(L: seq<Seg>, ptrs: seq<int>): set<Seg> {
    set s | s in Live(L) && s.addr + HDR in ptrs
  }

  ghost predicate AllLive(L: seq<Seg>, ptrs: seq<int>) {
    && (forall k | 0 <= k < |ptrs| :: IsLive(L, ptrs[k]))
    && (forall j, k | 0 <= j < k < |ptrs| :: ptrs[j] != ptrs[k])
  }

  /** Freeing distinct live pointers one after the other. */
  ghost function FreeAll(L: seq<Seg>, ptrs: seq<int>): seq<Seg>
    requires WF(L) && AllLive(L, ptrs)
    decreases |ptrs|
  {
    if ptrs == [] then L
    else
      FreePtrKeeps(L, ptrs[0]);
      StillLive(L, ptrs);
      FreeAll(FreePtr(L, ptrs[0]), ptrs[1..])
  }

  /** A free does not end the life of another block. */
  lemma StillLive(L: seq<Seg>, ptrs: seq<int>)
    requires WF(L) && AllLive(L, ptrs) && ptrs != []
    ensures AllLive(FreePtr(L, ptrs[0]), ptrs[1..])
  {
    hide WF, FreePtr;
    FreePtrKeeps(L, ptrs[0]);
    var L1 := FreePtr(L, ptrs[0]);
    forall k | 0 <= k < |ptrs[1..]| ensures IsLive(L1, ptrs[1..][k]) {
      assert ptrs[1..][k] == ptrs[k + 1] && IsLive(L, ptrs[k + 1]) && ptrs[0] != ptrs[k + 1];
      var s :| s in Live(L) && s.addr + HDR == ptrs[k + 1];
      assert s in Live(L1);
    }
  }

  lemma {:induction false} FreeAllKeeps(L: seq<Seg>, ptrs: seq<int>)
    requires WF(L) && AllLive(L, ptrs)
    ensures WF(FreeAll(L, ptrs)) && Bases(FreeAll(L, ptrs)) == Bases(L)
    ensures Live(FreeAll(L, ptrs)) == Live(L) - BlocksAt(L, ptrs)
    decreases |ptrs|
  {
    hide WF, FreePtr;
    if ptrs != [] {
      FreePtrKeeps(L, ptrs[0]);
      StillLive(L, ptrs);
      var L1 := FreePtr(L, ptrs[0]);
      FreeAllKeeps(L1, ptrs[1..]);
      var b := L[LiveIndex(L, ptrs[0])];
      forall s | s in Live(L) && s.addr + HDR == ptrs[0] ensures s == b {
        IsLiveAt(L, s);
      }
      assert ptrs == [ptrs[0]] + ptrs[1..];
      assert Live(L1) - BlocksAt(L1, ptrs[1..]) == Live(L) - BlocksAt(L, ptrs);
    }
  }

  /** Freeing a set of live blocks ends in the same heap whatever the order. */
  lemma AnyOrder(L: seq<Seg>, ptrs: seq<int>, ptrs': seq<int>)
    requires WF(L) && AllLive(L, ptrs) && AllLive(L, ptrs')
    requires forall p :: p in ptrs <==> p in ptrs'
    ensures FreeAll(L, ptrs) == FreeAll(L, ptrs')
  {
    FreeAllKeeps(L, ptrs);
    FreeAllKeeps(L, ptrs');
    assert BlocksAt(L, ptrs) == BlocksAt(L, ptrs');
    Canonical(FreeAll(L, ptrs), FreeAll(L, ptrs'));
  }

  // ---- A heap without live blocks ----

  function Pools(bases: seq<int>): seq<Seg> {
    if bases == [] then [] else WholeChunk(bases[0]) + Pools(bases[1..])
  }

  /** Where the first block of each chunk starts. */
  function FirstBlocks(bases: seq<int>): seq<int> {
    if bases == [] then [] else [bases[0] + FTR] + FirstBlocks(bases[1..])
  }

  ghost function BaseSeq(L: seq<Seg>): seq<int> {
    if L == [] then []
    else (if L[0].kind.StartPost? then [L[0].base] else []) + BaseSeq(L[1..])
  }

  lemma BaseSeqStep(L: seq<Seg>)
    ensures L == [] ==> BaseSeq(L) == []
    ensures L != [] ==> BaseSeq(L) == (if L[0].kind.StartPost? then [L[0].base] else []) + BaseSeq(L[1..])
  {
  }

  lemma {:induction false} BaseSeqConcat(a: seq<Seg>, b: seq<Seg>)
    ensures BaseSeq(a + b) == BaseSeq(a) + BaseSeq(b)
  {
    hide BaseSeq;
    var c := a + b;
    BaseSeqStep(a);
    BaseSeqStep(c);
    if a == [] {
      assert c == b;
    } else {
      assert c[0] == a[0] && c[1..] == a[1..] + b;
      BaseSeqConcat(a[1..], b);
    }
  }

  /** When nothing is live, every chunk is one free block again. */
  lemma {:induction false} NothingLive(L: seq<Seg>)
    requires WF(L) && Live(L) == {}
    ensures L == Pools(BaseSeq(L))
    ensures FreeAddrs(L) == FirstBlocks(BaseSeq(L))
    decreases |L|
  {
    if L != [] {
      PeelChunk(L);
      NothingLive(L[3..]);
    }
  }

  /** The first chunk of a heap without live blocks, and the rest of the heap. */
  lemma PeelChunk(L: seq<Seg>)
    requires WF(L) && Live(L) == {} && L != []
    ensures |L| >= 3 && WF(L[3..]) && Live(L[3..]) == {}
    ensures L == WholeChunk(L[0].base) + L[3..]
    ensures BaseSeq(L) == [L[0].base] + BaseSeq(L[3..])
    ensures FreeAddrs(L) == [L[0].base + FTR] + FreeAddrs(L[3..])
  {
    hide Live;
    FirstChunkFree(L);
    var C, T := L[..3], L[3..];
    assert L == C + T;
    assert WF(T) by {
      ChainConcat(C, T);
    }
    LiveConcat(C, T);
    assert SegWF(L[0]);
    ChunkFacts(L[0].base);
    BaseSeqConcat(C, T);
    FreeAddrsConcat(C, T);
  }

  lemma ChunkFacts(os: int)
    requires os % 8 == 0
    ensures BaseSeq(WholeChunk(os)) == [os] && FreeAddrs(WholeChunk(os)) == [os + FTR]
  {
    var C := WholeChunk(os);
    WholeChunkWF(os);
    assert C == [C[0]] + [C[1]] + [C[2]];
    BaseSeqConcat([C[0]] + [C[1]], [C[2]]);
    BaseSeqConcat([C[0]], [C[1]]);
  }

  lemma FirstChunkFree(L: seq<Seg>)
    requires WF(L) && Live(L) == {} && L != []
    ensures |L| >= 3 && L[..3] == WholeChunk(L[0].base)
    ensures |L| > 3 ==> L[3].kind.StartPost?
  {
    assert SegWF(L[0]);
    assert forall s | s in L :: !s.kind.Used? by {
      forall s | s in L ensures !s.kind.Used? {
        assert s !in Live(L);
      }
    }
    assert Follows(L[0], L[1]) && L[1] in L && SegWF(L[1]);
    assert Follows(L[1], L[2]) && L[2] in L && SegWF(L[2]);
    if |L| > 3 {
      assert Follows(L[2], L[3]);
    }
  }

  // ---- Conservation ----

  /** Within a chunk, the blocks seen so far reach from the start fencepost to where the prefix ends. */
  ghost function Reached(L: seq<Seg>): int
    requires L != []
  {
    var z := L[|L| - 1];
    match z.kind
    case StartPost => -BLOCK
    case EndPost => 0
    case _ => z.End() - (z.base + FTR) - BLOCK
  }

  lemma {:induction false} PrefixBytes(L: seq<Seg>, k: nat)
    requires WF(L) && 0 < k <= |L|
    ensures BlockBytes(L[..k]) == NumChunks(L[..k]) * BLOCK + Reached(L[..k])
  {
    var P := L[..k];
    assert P[..k - 1] == L[..k - 1];
    assert SegWF(L[k - 1]);
    if k > 1 {
      PrefixBytes(L, k - 1);
      assert Follows(L[k - 2], L[k - 1]);
    } else {
      assert P[..0] == [];
    }
  }

  /** Conservation: the bytes in blocks and in fenceposts add up to all the chunks ever obtained. */
  lemma Conservation(L: seq<Seg>)
    requires WF(L)
    ensures BlockBytes(L) + NumChunks(L) * (HDR + FTR) == NumChunks(L) * CHUNK
  {
    if L != [] {
      PrefixBytes(L, |L|);
      assert L[..|L|] == L;
    }
  }

  // ---- Runs ----

  /** A call of the C interface, with the break the OS would use, were it asked. calloc allocates
    like malloc; free and realloc accept NULL. */
  datatype Op = Malloc(size: nat, os: int) | Free(ptr: int) | Realloc(ptr: int, size: nat, os: int)

  const NO_POINTER := 0

  ghost predicate Enabled(L: seq<Seg>, op: Op) {
    match op
    case Malloc(size, os) => BreakOk(L, os) && CutFits(L, size)
    case Free(ptr) => ptr == NO_POINTER || IsLive(L, ptr)
    case Realloc(ptr, size, os) =>
      BreakOk(L, os) && CutFits(L, size) && (ptr == NO_POINTER || (IsLive(L, ptr) && size <= ARENA))
  }

  ghost function Step(L: seq<Seg>, op: Op): seq<Seg>
    requires WF(L) && Enabled(L, op)
  {
    match op
    case Malloc(size, os) => MallocLayout(L, size, os)
    case Free(ptr) => if ptr == NO_POINTER then L else FreePtr(L, ptr)
    case Realloc(ptr, size, os) =>
      if ptr == NO_POINTER then MallocLayout(L, size, os)
      else
        LiveThroughMalloc(L, ptr, size, os);
        FreePtr(MallocLayout(L, size, os), ptr)
  }

  lemma LiveThroughMalloc(L: seq<Seg>, ptr: int, size: nat, os: int)
    requires WF(L) && BreakOk(L, os) && CutFits(L, size) && size <= ARENA && IsLive(L, ptr)
    ensures WF(MallocLayout(L, size, os)) && IsLive(MallocLayout(L, size, os), ptr)
  {
    hide WF, MallocLayout, MallocBlock, Live, FirstFit, Bases;
    MallocKeeps(L, size, os);
    var s :| s in Live(L) && s.addr + HDR == ptr;
    assert s in Live(MallocLayout(L, size, os));
  }

  /** Some free block can hold the request. */
  ghost predicate Fits(L: seq<Seg>, size: nat) {
    exists s :: s in L && s.kind.Free? && Rounded(size) <= s.len
  }

  lemma FitsWhen(L: seq<Seg>, size: nat)
    ensures Fits(L, size) <==> FirstFit(L, Rounded(size)) < |L|
  {
    if Fits(L, size) {
      var s :| s in L && s.kind.Free? && Rounded(size) <= s.len;
      var j :| 0 <= j < |L| && L[j] == s;
    }
  }

  /** malloc can be asked for size bytes while the break is at os: anywhere aligned past the memory
    obtained so far. Only a window of sizes that growth cannot cut needs a free block that fits. */
  ghost predicate MayAsk(L: seq<Seg>, size: nat, os: int) {
    && os % 8 == 0 && (forall s | s in L :: s.End() <= os)
    && (2097105 <= size <= 2097144 ==> Fits(L, size))
  }

  /** The pointer is one past the header of a block in use. */
  ghost predicate PastHeader(L: seq<Seg>, ptr: int) {
    exists s :: s in L && s.kind.Used? && s.addr + 32 == ptr
  }

  /** Which calls runs are made of: none that the program may make is left out, but for that window. */
  lemma EnabledWhen(L: seq<Seg>, op: Op)
    requires WF(L)
    ensures Enabled(L, op) <==>
              match op
              case Malloc(size, os) => MayAsk(L, size, os)
              case Free(ptr) => ptr == 0 || PastHeader(L, ptr)
              case Realloc(ptr, size, os) =>
                MayAsk(L, size, os) && (ptr == 0 || (PastHeader(L, ptr) && size <= 2097152))
  {
    hide WF, Rounded, FirstFit, CutFits, BreakOk;
    if !op.Malloc? {
      LivePointer(L, op.ptr);
    }
    if !op.Free? {
      BreakOkWhen(L, op.os);
      FitsWhen(L, op.size);
      CutFitsUnlessInWindow(L, op.size);
    }
  }

  lemma LivePointer(L: seq<Seg>, ptr: int)
    ensures IsLive(L, ptr) <==> PastHeader(L, ptr)
  {
    if PastHeader(L, ptr) {
      var s :| s in L && s.kind.Used? && s.addr + HDR == ptr;
      assert s in Live(L);
    }
  }

  /** What one call does to the live blocks: malloc adds one, free removes one, realloc trades one for
    another; a malloc beyond an arena changes nothing. Chunks are only added, when nothing fits. */
  lemma StepKeeps(L: seq<Seg>, op: Op)
    requires WF(L) && Enabled(L, op)
    ensures WF(Step(L, op))
    ensures Bases(Step(L, op)) == if op.Free? then Bases(L) else BasesAfter(L, op.size, op.os)
    ensures match op
            case Malloc(size, os) =>
              Live(Step(L, op)) == Live(L) + if size <= ARENA then {MallocBlock(L, size, os)} else {}
            case Free(ptr) =>
              Live(Step(L, op)) == Live(L) - if ptr == NO_POINTER then {} else {L[LiveIndex(L, ptr)]}
            case Realloc(ptr, size, os) =>
              Live(Step(L, op))
              == (Live(L) + if size <= ARENA then {MallocBlock(L, size, os)} else {})
                 - if ptr == NO_POINTER then {} else {L[LiveIndex(L, ptr)]}
  {
    hide WF, FreePtr, MallocBlock, MallocLayout, Live, FirstFit, Bases;
    match op {
      case Malloc(size, os) => MallocStep(L, size, os);
      case Free(ptr) =>
        if ptr != NO_POINTER {
          FreePtrKeeps(L, ptr);
        }
      case Realloc(ptr, size, os) =>
        MallocStep(L, size, os);
        if ptr != NO_POINTER {
          var K, s := MallocLayout(L, size, os), L[LiveIndex(L, ptr)];
          LiveThroughMalloc(L, ptr, size, os);
          LiveAt(L, ptr);
          IsLiveAt(K, s);
          FreePtrKeeps(K, ptr);
        }
    }
  }

  lemma LiveAt(L: seq<Seg>, ptr: int)
    requires IsLive(L, ptr)
    ensures L[LiveIndex(L, ptr)] in Live(L)
  {
  }

  lemma MallocStep(L: seq<Seg>, size: nat, os: int)
    requires WF(L) && BreakOk(L, os) && CutFits(L, size)
    ensures WF(MallocLayout(L, size, os)) && Bases(MallocLayout(L, size, os)) == BasesAfter(L, size, os)
    ensures Live(MallocLayout(L, size, os)) == Live(L) + if size <= ARENA then {MallocBlock(L, size, os)} else {}
  {
    hide WF, FirstFit, MallocBlock, Live, FreshChunk, TakeAt;
    RoundedIsLeast(size);
    if size <= ARENA {
      MallocKeeps(L, size, os);
    }
  }

  /** Ls is the run of layouts from L0 under the requests ops. */
  ghost predicate IsRunFrom(L0: seq<Seg>, ops: seq<Op>, Ls: seq<seq<Seg>>) {
    && |Ls| == |ops| + 1 && Ls[0] == L0
    && (forall k | 0 <= k < |ops| ::
          WF(Ls[k]) ==> Enabled(Ls[k], ops[k]) && Ls[k + 1] == Step(Ls[k], ops[k]))
  }

  /** Ls is the run of layouts from a fresh heap at base os under the requests ops. */
  ghost predicate IsRun(os: int, ops: seq<Op>, Ls: seq<seq<Seg>>) {
    os % 8 == 0 && IsRunFrom(WholeChunk(os), ops, Ls)
  }

  lemma {:induction false} RunFromKeeps(L0: seq<Seg>, ops: seq<Op>, Ls: seq<seq<Seg>>, k: nat)
    requires WF(L0) && IsRunFrom(L0, ops, Ls) && k <= |ops|
    ensures WF(Ls[k])
  {
    if k > 0 {
      RunFromKeeps(L0, ops, Ls, k - 1);
      StepKeeps(Ls[k - 1], ops[k - 1]);
    }
  }

  /** Every state of every run is a well-formed heap, and its bytes are conserved. */
  lemma RunKeeps(os: int, ops: seq<Op>, Ls: seq<seq<Seg>>, k: nat)
    requires IsRun(os, ops, Ls) && k <= |ops|
    ensures WF(Ls[k])
    ensures BlockBytes(Ls[k]) + NumChunks(Ls[k]) * (HDR + FTR) == NumChunks(Ls[k]) * CHUNK
  {
    WholeChunkWF(os);
    RunFromKeeps(WholeChunk(os), ops, Ls, k);
    Conservation(Ls[k]);
  }

  /** The blocks that are live in every state of a run. */
  ghost function AlwaysLive(Ls: seq<seq<Seg>>): set<Seg> {
    if Ls == [] then {} else set s | s in Live(Ls[0]) && forall k | 0 <= k < |Ls| :: s in Live(Ls[k])
  }

  lemma RunStays(Ls: seq<seq<Seg>>, k: nat)
    requires k + 1 < |Ls|
    ensures AlwaysLive(Ls) <= Live(Ls[k]) * Live(Ls[k + 1])
  {
  }

  /** The size_t sum of a request does not wrap. */
  predicate NoWrap(op: Op) {
    op.Free? || op.size + HDR + FTR + 7 < SIZE_MOD
  }

  /** That is when 64-bit arithmetic rounds the request as intended. */
  lemma NoWrapWhen(op: Op)
    requires !op.Free? && op.size < 0x1_0000_0000_0000_0000
    ensures NoWrap(op) <==> RoundedSizeT(op.size) == Rounded(op.size)
  {
    hide Rounded, RoundedSizeT;
    RoundingWithoutWrap(op.size);
  }

  /** Every run can go on with every call that is enabled where it ends. */
  lemma RunExtends(L0: seq<Seg>, ops: seq<Op>, Ls: seq<seq<Seg>>, op: Op)
    requires WF(L0) && IsRunFrom(L0, ops, Ls) && Enabled(Ls[|ops|], op)
    ensures WF(Ls[|ops|]) && IsRunFrom(L0, ops + [op], Ls + [Step(Ls[|ops|], op)])
  {
    hide WF, Enabled, Step;
    RunFromKeeps(L0, ops, Ls, |ops|);
  }

  /** The layout after k of some runs. */
  ghost function AfterRuns(L0: seq<Seg>, Lss: seq<seq<seq<Seg>>>, k: nat): seq<Seg>
    requires k <= |Lss|
  {
    if k == 0 || Lss[k - 1] == [] then L0 else Lss[k - 1][|Lss[k - 1]| - 1]
  }

  /** What other threads do meanwhile: any number of runs, each from where the one before left off,
    that free none of the blocks S. */
  ghost predicate Others(L0: seq<Seg>, opss: seq<seq<Op>>, Lss: seq<seq<seq<Seg>>>, S: set<Seg>) {
    && |Lss| == |opss|
    && forall k | 0 <= k < |opss| ::
         && IsRunFrom(AfterRuns(L0, Lss, k), opss[k], Lss[k]) && S <= AlwaysLive(Lss[k])
         && forall op | op in opss[k] :: NoWrap(op)
  }

  /** They can go on with any run that frees none of S. */
  lemma OthersExtend(L0: seq<Seg>, opss: seq<seq<Op>>, Lss: seq<seq<seq<Seg>>>, S: set<Seg>,
                     ops: seq<Op>, Ls: seq<seq<Seg>>)
    requires Others(L0, opss, Lss, S) && IsRunFrom(AfterRuns(L0, Lss, |Lss|), ops, Ls)
    requires S <= AlwaysLive(Ls) && forall op | op in ops :: NoWrap(op)
    ensures Others(L0, opss + [ops], Lss + [Ls], S)
  {
    hide IsRunFrom, AlwaysLive, NoWrap, AfterRuns;
    var calls, all := opss + [ops], Lss + [Ls];
    forall k: nat | k < |calls|
      ensures IsRunFrom(AfterRuns(L0, all, k), calls[k], all[k]) && S <= AlwaysLive(all[k])
      ensures forall op | op in calls[k] :: NoWrap(op)
    {
      AfterRunsPrefix(L0, Lss, Ls, k);
      assert k < |Lss| ==> calls[k] == opss[k] && all[k] == Lss[k];
    }
  }

  lemma AfterRunsPrefix(L0: seq<Seg>, Lss: seq<seq<seq<Seg>>>, Ls: seq<seq<Seg>>, k: nat)
    requires k <= |Lss|
    ensures AfterRuns(L0, Lss + [Ls], k) == AfterRuns(L0, Lss, k)
  {
    if k > 0 {
      assert (Lss + [Ls])[k - 1] == Lss[k - 1];
    }
  }

  /** The blocks of L that are live throughout. */
  ghost function LiveThroughout(L: seq<Seg>, Lss: seq<seq<seq<Seg>>>): set<Seg> {
    set s | s in Live(L) && forall k | 0 <= k < |Lss| :: s in AlwaysLive(Lss[k])
  }

  lemma ThroughoutIs(L0: seq<Seg>, opss: seq<seq<Op>>, Lss: seq<seq<seq<Seg>>>, S: set<Seg>, L: seq<Seg>, s: Seg)
    requires Others(L0, opss, Lss, S) && s in S && s in Live(L)
    ensures s in LiveThroughout(L, Lss) && LiveThroughout(L, Lss) <= Live(L)
    ensures |Lss| == |opss| && AfterRuns(L0, Lss, 0) == L0
  {
  }

  lemma AfterRunsNext(L0: seq<Seg>, opss: seq<seq<Op>>, Lss: seq<seq<seq<Seg>>>, S: set<Seg>, L: seq<Seg>, k: nat)
    requires Others(L0, opss, Lss, S) && k < |opss|
    ensures IsRunFrom(AfterRuns(L0, Lss, k), opss[k], Lss[k]) && S <= AlwaysLive(Lss[k])
    ensures forall op | op in opss[k] :: NoWrap(op)
    ensures AfterRuns(L0, Lss, k + 1) == Lss[k][|opss[k]|] && AlwaysLive(Lss[k]) <= Live(Lss[k][|opss[k]|])
    ensures LiveThroughout(L, Lss) <= AlwaysLive(Lss[k])
  {
  }

  /** History does not matter: two runs, of whatever requests, that end with the same chunks and the
    same live blocks end with the same layout and the same free list. */
  lemma HistoryFree(os: int, ops: seq<Op>, Ls: seq<seq<Seg>>, os': int, ops': seq<Op>, Ls': seq<seq<Seg>>)
    requires IsRun(os, ops, Ls) && IsRun(os', ops', Ls')
    requires Live(Ls[|ops|]) == Live(Ls'[|ops'|]) && Bases(Ls[|ops|]) == Bases(Ls'[|ops'|])
    ensures Ls[|ops|] == Ls'[|ops'|] && FreeAddrs(Ls[|ops|]) == FreeAddrs(Ls'[|ops'|])
  {
    RunKeeps(os, ops, Ls, |ops|);
    RunKeeps(os', ops', Ls', |ops'|);
    Canonical(Ls[|ops|], Ls'[|ops'|]);
  }

  /** A run that frees everything ends with one free block of full size per chunk. */
  lemma RunNothingLive(os: int, ops: seq<Op>, Ls: seq<seq<Seg>>)
    requires IsRun(os, ops, Ls) && Live(Ls[|ops|]) == {}
    ensures var L := Ls[|ops|];
            && L == Pools(BaseSeq(L))
            && FreeAddrs(L) == FirstBlocks(BaseSeq(L))
  {
    RunKeeps(os, ops, Ls, |ops|);
    NothingLive(Ls[|ops|]);
  }
}
