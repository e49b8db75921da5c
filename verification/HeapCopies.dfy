/** What calloc and realloc do with the block that malloc has just handed out. */
module HeapCopies {
  import opened Memory
  import opened HeapLayout
  import opened HeapPolicy
  import opened HeapMemory
  import opened HeapSteps
  import opened HeapRuns

  function Min(a: int, b: int): int { if a < b then a else b }

  lemma RepWF(m: Mem, sent: int, L: seq<Seg>)
    requires Rep(m, sent, L)
    ensures WF(L)
  {
  }

  lemma KeptTrans(m: Mem, m1: Mem, m2: Mem, S: set<Seg>, T: set<Seg>, U: set<Seg>)
    requires Kept(m, m1, S) && Kept(m1, m2, T) && U <= S && U <= T
    ensures Kept(m, m2, U)
  {
  }

  lemma TagOf(m: Mem, sent: int, L: seq<Seg>, i: nat)
    requires Rep(m, sent, L) && i < |L|
    ensures SegRep(m, L[i])
  {
  }

  // ---- Memory after malloc ----

  /** The node that dangles after a cut that leaves no room. */
  function CutNode(size: nat, os: int): int { os + FTR + Rounded(size) }

  /** Memory after malloc(size) on the layout K: it represents the new layout when the cut fits, and
    otherwise the old one, up to a node that heads no block. */
  ghost predicate Served(m: Mem, sent: int, K: seq<Seg>, size: nat, os: int) {
    if CutFits(K, size) then Rep(m, sent, MallocLayout(K, size, os))
    else RepTo(m, sent, CutNode(size, os), K) && PrevAt(m, sent) == CutNode(size, os)
  }

  /** Whatever is written into the new object, memory stays as malloc left it. */
  lemma Overwritten(m: Mem, w: Mem, sent: int, K: seq<Seg>, size: nat, os: int)
    requires WF(K) && BreakOk(K, os) && size <= ARENA && Served(m, sent, K, size, os)
    requires var ptr := MallocBlock(K, size, os).addr + HDR;
             forall a | a < ptr || ptr + size <= a :: Get(w, a) == Get(m, a)
    ensures Served(w, sent, K, size, os)
    ensures Kept(m, w, Live(K)) && ForeignKept(m, w, sent, BasesAfter(K, size, os))
    ensures !CutFits(K, size) ==> forall J: seq<Seg> | Bases(J) == Bases(K) + {os} :: !Rep(w, sent, J)
  {
    hide WF, Rep, RepTo, Kept, Live, Bases, MallocLayout, MallocBlock, FirstFit, Get, Load, PrevAt, BreakOk;
    hide ForeignKept, BasesAfter;
    RoundedIsLeast(size);
    NewObjectForeign(m, w, sent, K, size, os);
    if CutFits(K, size) {
      var L, b := MallocLayout(K, size, os), MallocBlock(K, size, os);
      MallocKeeps(K, size, os);
      IsLiveAt(L, b);
      PayloadWrite(m, w, sent, L, LiveIndex(L, b.addr + HDR));
      assert Live(L) - {b} == Live(K);
    } else {
      FreshWhenTight(K, size, os);
      SentinelBelow(m, sent, CutNode(size, os), K, os);
      WriteAbove(m, w, sent, CutNode(size, os), K, os);
      NoLayout(w, sent, K, os, Rounded(size));
    }
  }

  /** The new object lies in a chunk. */
  lemma NewObjectForeign(m: Mem, w: Mem, sent: int, K: seq<Seg>, size: nat, os: int)
    requires WF(K) && BreakOk(K, os) && size <= ARENA
    requires var ptr := MallocBlock(K, size, os).addr + HDR;
             forall a | a < ptr || ptr + size <= a :: Get(w, a) == Get(m, a)
    ensures ForeignKept(m, w, sent, BasesAfter(K, size, os))
  {
    hide WF, Live, Bases, FirstFit, Get, Rounded;
    var n, i, b := Rounded(size), FirstFit(K, Rounded(size)), MallocBlock(K, size, os);
    RoundedIsLeast(size);
    if i < |K| {
      InChunk(K, K[i]);
    }
    forall a | Foreign(sent, BasesAfter(K, size, os), a) ensures Get(w, a) == Get(m, a) {
      assert b.base in BasesAfter(K, size, os);
    }
  }

  lemma FreshWhenTight(K: seq<Seg>, size: nat, os: int)
    requires !CutFits(K, size)
    ensures MallocBlock(K, size, os).addr == os + FTR && !CutOk(Rounded(size)) && size <= ARENA
  {
  }

  lemma SentinelBelow(m: Mem, sent: int, stop: int, K: seq<Seg>, os: int)
    requires RepTo(m, sent, stop, K) && BreakOk(K, os)
    ensures sent + HDR <= os && os % 8 == 0 && SentinelOk(sent, K) && K[|K| - 1].End() <= os
  {
    EndsBelow(K, K[0]);
    assert SegWF(K[0]);
  }

  /** The old and the new block of a realloc, and that the copy between them is a legal memcpy. */
  lemma ReallocBlocks(m: Mem, sent: int, K: seq<Seg>, ptr: int, size: nat, os: int) returns (s: Seg, b: Seg)
    requires WF(K) && BreakOk(K, os) && CutFits(K, size) && size <= ARENA && IsLive(K, ptr)
    requires Rep(m, sent, MallocLayout(K, size, os))
    ensures s == K[LiveIndex(K, ptr)] && b == MallocBlock(K, size, os) && s != b
    ensures s in Live(K) && SegWF(s) && s.kind.Used? && SizeAt(m, s.addr) == s.len
    ensures var L := MallocLayout(K, size, os);
            && Live(L) == Live(K) + {b} && b !in Live(K) && SegWF(b) && b.kind.Used?
            && IsLive(L, ptr) && L[LiveIndex(L, ptr)] == s
            && IsLive(L, b.addr + HDR) && L[LiveIndex(L, b.addr + HDR)] == b
            && WF(L)
    ensures size + HDR + FTR <= b.len
    ensures ptr + Min(s.len, size) <= s.base + CHUNK
    ensures ptr + Min(s.len, size) <= b.addr + HDR || b.addr + HDR + Min(s.len, size) <= ptr
  {
    hide WF, Chain, FreePtr, MallocLayout, MallocBlock, FirstFit, Bases, Linked, Tagged;
    s, b := K[LiveIndex(K, ptr)], MallocBlock(K, size, os);
    var L := MallocLayout(K, size, os);
    MallocKeeps(K, size, os);
    assert s in Live(K);
    IsLiveAt(L, s);
    IsLiveAt(L, b);
    SegOf(L, LiveIndex(L, ptr));
    SegOf(L, LiveIndex(L, b.addr + HDR));
    TagOf(m, sent, L, LiveIndex(L, ptr));
    ChainOf(L);
    Disjoint(L, s, b);
  }

  // ---- The steps of realloc ----

  /** The layout that free finds after malloc(size) on K, and where its list stops. */
  ghost function Current(K: seq<Seg>, size: nat, os: int): seq<Seg> {
    if CutFits(K, size) then MallocLayout(K, size, os) else K
  }

  ghost function StopOf(sent: int, K: seq<Seg>, size: nat, os: int): int {
    if CutFits(K, size) then sent else CutNode(size, os)
  }

  /** The copy reads the size of the old block, stays inside the old chunk and clear of the new
    object. */
  lemma CopyIsLegal(m: Mem, sent: int, K: seq<Seg>, ptr: int, size: nat, os: int)
    requires WF(K) && BreakOk(K, os) && size <= ARENA && IsLive(K, ptr) && Served(m, sent, K, size, os)
    ensures var s, newPtr := K[LiveIndex(K, ptr)], MallocBlock(K, size, os).addr + HDR;
            && SizeAt(m, ptr - HDR) == s.len && s in Live(K) && SegWF(s) && s.kind.Used?
            && ptr + Min(s.len, size) <= s.base + CHUNK
            && (ptr + Min(s.len, size) <= newPtr || newPtr + Min(s.len, size) <= ptr)
            && newPtr % 8 == 0
  {
    hide WF, Rep, RepTo, Live, Bases, MallocLayout, MallocBlock, FirstFit, Load;
    MallocAligned(K, size, os);
    if CutFits(K, size) {
      var _, _ := ReallocBlocks(m, sent, K, ptr, size, os);
    } else {
      FreshWhenTight(K, size, os);
      BelowNewChunk(m, sent, CutNode(size, os), K, os, LiveIndex(K, ptr));
      LiveAt(K, ptr);
    }
  }

  /** After the copy, free finds the old block where it was, in a heap that it can handle. */
  lemma ReadyToFree(m: Mem, sent: int, K: seq<Seg>, ptr: int, size: nat, os: int)
    requires WF(K) && BreakOk(K, os) && size <= ARENA && IsLive(K, ptr) && Served(m, sent, K, size, os)
    ensures var C := Current(K, size, os);
            && RepTo(m, sent, StopOf(sent, K, size, os), C) && WF(C)
            && IsLive(C, ptr) && C[LiveIndex(C, ptr)] == K[LiveIndex(K, ptr)]
            && Live(K) <= Live(C)
  {
    hide WF, RepTo, Live, Bases, MallocLayout, MallocBlock, FirstFit, Load;
    if CutFits(K, size) {
      var _, _ := ReallocBlocks(m, sent, K, ptr, size, os);
    }
  }

  /** The free leaves the new object alone. */
  lemma NewObjectKept(m: Mem, w: Mem, sent: int, K: seq<Seg>, ptr: int, size: nat, os: int)
    requires WF(K) && BreakOk(K, os) && size <= ARENA && IsLive(K, ptr) && Served(m, sent, K, size, os)
    requires var C := Current(K, size, os);
             && Kept(m, w, Live(C) - {K[LiveIndex(K, ptr)]})
             && forall a | Foreign(sent, Bases(C), a) && a != StopOf(sent, K, size, os) + PREV ::
                  Get(w, a) == Get(m, a)
    ensures var newPtr := MallocBlock(K, size, os).addr + HDR;
            forall x {:trigger ByteAt(w, x)} | newPtr <= x < newPtr + size :: ByteAt(w, x) == ByteAt(m, x)
  {
    hide WF, Rep, RepTo, Kept, Live, Bases, MallocLayout, MallocBlock, FirstFit, Get, Load, ByteAt, Foreign;
    RoundedIsLeast(size);
    if CutFits(K, size) {
      var s, b := ReallocBlocks(m, sent, K, ptr, size, os);
      KeptBytes(m, w, MallocLayout(K, size, os), Live(MallocLayout(K, size, os)) - {s}, b);
    } else {
      FreshWhenTight(K, size, os);
      SentinelBelow(m, sent, CutNode(size, os), K, os);
      forall a | os <= a ensures Foreign(sent, Bases(K), a) {
        AboveForeign(sent, K, a);
      }
      BytesBetween(m, w, os + FTR + HDR, os + FTR + HDR + size);
    }
  }

  lemma FreedForeign(w: Mem, z: Mem, sent: int, K: seq<Seg>, size: nat, os: int)
    requires WF(K) && BreakOk(K, os) && size <= ARENA
    requires forall a | Foreign(sent, Bases(Current(K, size, os)), a) && a != StopOf(sent, K, size, os) + PREV ::
               Get(z, a) == Get(w, a)
    ensures ForeignKept(w, z, sent, BasesAfter(K, size, os))
  {
    hide WF, Bases, MallocLayout, FirstFit, Get, Rounded;
    RoundedIsLeast(size);
    if CutFits(K, size) {
      MallocStep(K, size, os);
    } else {
      FreshWhenTight(K, size, os);
    }
    var C, stop := Current(K, size, os), StopOf(sent, K, size, os);
    forall a | Foreign(sent, BasesAfter(K, size, os), a) ensures Get(z, a) == Get(w, a) {
      assert Foreign(sent, Bases(C), a);
      assert !CutFits(K, size) ==> os in BasesAfter(K, size, os);
    }
  }

  /** malloc (m to m1), copy (m1 to w) and free (w to z), put together. */
  lemma Reallocated(m: Mem, m1: Mem, w: Mem, z: Mem, sent: int, K: seq<Seg>, ptr: int, size: nat, os: int)
    requires WF(K) && BreakOk(K, os) && size <= ARENA && IsLive(K, ptr) && Served(w, sent, K, size, os)
    requires Kept(m, m1, Live(K)) && Kept(m1, w, Live(K))
    requires var B := BasesAfter(K, size, os); ForeignKept(m, m1, sent, B) && ForeignKept(m1, w, sent, B)
    requires var s, newPtr := K[LiveIndex(K, ptr)], MallocBlock(K, size, os).addr + HDR;
             && s in Live(K) && SegWF(s) && s.kind.Used?
             && forall x {:trigger ByteAt(w, x)} | newPtr <= x < newPtr + Min(s.len, size) ::
                  ByteAt(w, x) == ByteAt(m1, ptr + (x - newPtr))
    requires var C := Current(K, size, os);
             && Kept(w, z, Live(C) - {K[LiveIndex(K, ptr)]})
             && forall a | Foreign(sent, Bases(C), a) && a != StopOf(sent, K, size, os) + PREV ::
                  Get(z, a) == Get(w, a)
    requires !CutFits(K, size) ==> PrevAt(z, sent) == PrevAt(w, sent)
    ensures var s, newPtr := K[LiveIndex(K, ptr)], MallocBlock(K, size, os).addr + HDR;
            && Kept(m, z, Live(K) - {s}) && ForeignKept(m, z, sent, BasesAfter(K, size, os))
            && forall x {:trigger ByteAt(z, x)} | newPtr <= x < newPtr + Min(s.len - HDR - FTR, size) ::
                 ByteAt(z, x) == ByteAt(m, ptr + (x - newPtr))
    ensures !CutFits(K, size) ==> forall J: seq<Seg> | Bases(J) == Bases(K) + {os} :: !Rep(z, sent, J)
  {
    hide WF, Rep, RepTo, Kept, Live, Bases, MallocLayout, MallocBlock, FirstFit, Get, Load, ByteAt, Current, PrevAt;
    hide Foreign, ForeignKept, BasesAfter;
    var s, B := K[LiveIndex(K, ptr)], BasesAfter(K, size, os);
    ForeignTrans(m, m1, w, sent, B, B, B);
    FreedForeign(w, z, sent, K, size, os);
    ForeignTrans(m, w, z, sent, B, B, B);
    KeptBytes(m, m1, K, Live(K), s);
    NewObjectKept(w, z, sent, K, ptr, size, os);
    ReadyToFree(w, sent, K, ptr, size, os);
    KeptTrans(m, m1, w, Live(K), Live(K), Live(K));
    KeptTrans(m, w, z, Live(K), Live(Current(K, size, os)) - {s}, Live(K) - {s});
    if !CutFits(K, size) {
      FreshWhenTight(K, size, os);
      RoundedIsLeast(size);
      SentinelBelow(w, sent, CutNode(size, os), K, os);
      NoLayout(z, sent, K, os, Rounded(size));
    }
  }
}
