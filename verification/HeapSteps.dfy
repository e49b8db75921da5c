/** The memory side of each allocator operation: what the fields read before it mean, and why the
  fields written by it represent the new layout. */
module HeapSteps {
  import opened Memory
  import opened HeapLayout
  import opened HeapPolicy
  import opened HeapMemory

  lemma FreeOne(x: Seg)
    ensures FreeAddrs([x]) == if x.kind.Free? then [x.addr] else []
    ensures NumChunks([x]) == if x.kind.StartPost? then 1 else 0
  {
  }

  lemma FreeTwo(x: Seg, y: Seg)
    ensures FreeAddrs([x, y]) == FreeAddrs([x]) + FreeAddrs([y])
    ensures NumChunks([x, y]) == NumChunks([x]) + NumChunks([y])
  {
    assert [x, y] == [x] + [y];
    FreeAddrsConcat([x], [y]);
    NumChunksConcat([x], [y]);
  }

  lemma LiveAround(A: seq<Seg>, mid: seq<Seg>, B: seq<Seg>)
    ensures Live(A + mid + B) == Live(A + B) + Live(mid)
  {
    LiveConcat(A + mid, B);
    LiveConcat(A, mid);
    LiveConcat(A, B);
  }

  lemma NumChunksAround(A: seq<Seg>, mid: seq<Seg>, mid': seq<Seg>, B: seq<Seg>)
    requires NumChunks(mid) == NumChunks(mid')
    ensures NumChunks(A + mid + B) == NumChunks(A + mid' + B)
  {
    NumChunksConcat(A + mid, B);
    NumChunksConcat(A, mid);
    NumChunksConcat(A + mid', B);
    NumChunksConcat(A, mid');
  }

  lemma KeptAll(m: Mem, S: set<Seg>)
    ensures Kept(m, m, S)
  {
  }

  /** Replacing the stretch L[i..j] by mid' in memory: layout, payloads and chunk count. */
  lemma Replaced(m: Mem, m': Mem, sent: int, stop: int, L: seq<Seg>, i: nat, j: nat, mid': seq<Seg>)
    requires RepTo(m, sent, stop, L) && 0 < i < j < |L| && WF(L[..i] + mid' + L[j..])
    requires var p, q := NodeBefore(sent, L[..i]), NodeAfter(stop, L[j..]);
             && Outside(m, m', L[i].addr, L[j - 1].End(), p, q)
             && Linked(m', [p] + FreeAddrs(mid') + [q])
    requires Tagged(m', mid') && NumChunks(mid') == NumChunks(L[i..j])
    ensures RepTo(m', sent, stop, L[..i] + mid' + L[j..])
    ensures Kept(m, m', Live(L[..i] + L[j..]))
    ensures NumChunks(L[..i] + mid' + L[j..]) == NumChunks(L)
  {
    hide Linked, WF, FreeAddrs, NumChunks, Live, Outside, Kept, SegRep, Tagged, NodeBefore, NodeAfter;
    Cut(L, i, j);
    var A, mid, B := L[..i], L[i..j], L[j..];
    SplicePayload(m, m', sent, stop, A, mid, B, L[i].addr, L[j - 1].End());
    SpliceRep(m, m', sent, stop, A, mid, mid', B, L[i].addr, L[j - 1].End());
    NumChunksAround(A, mid, mid', B);
  }

  /** What the fields of a live block say. */
  lemma LiveFields(m: Mem, sent: int, L: seq<Seg>, b: Seg)
    requires Rep(m, sent, L) && b in Live(L)
    ensures Marked(m, b.addr, b.len, ALLOCATED) && NextAt(m, b.addr) == PrevAt(m, b.addr) == NULL
  {
    assert SegRep(m, b);
  }

  // ---- Memory that is not the allocator's ----

  /** Address a lies neither in the sentinel nor in a chunk at one of the bases. */
  ghost predicate Foreign(sent: int, bases: set<int>, a: int) {
    (a < sent || sent + HDR <= a) && forall b | b in bases :: a < b || b + CHUNK <= a
  }

  /** No foreign word has changed. */
  ghost predicate ForeignKept(m: Mem, m': Mem, sent: int, bases: set<int>) {
    forall a | Foreign(sent, bases, a) :: Get(m', a) == Get(m, a)
  }

  lemma ForeignTrans(m: Mem, m1: Mem, m2: Mem, sent: int, S: set<int>, T: set<int>, U: set<int>)
    requires ForeignKept(m, m1, sent, S) && ForeignKept(m1, m2, sent, T) && S <= U && T <= U
    ensures ForeignKept(m, m2, sent, U)
  {
    forall a | Foreign(sent, U, a) ensures Get(m2, a) == Get(m, a) {
      assert Foreign(sent, S, a) && Foreign(sent, T, a);
    }
  }

  lemma ForeignAll(m: Mem, sent: int, bases: set<int>)
    ensures ForeignKept(m, m, sent, bases)
  {
  }

  lemma ForeignFreed(m: Mem, m': Mem, sent: int, bases: set<int>)
    requires forall a | Foreign(sent, bases, a) && a != sent + PREV :: Get(m', a) == Get(m, a)
    ensures ForeignKept(m, m', sent, bases)
  {
  }

  /** Every segment lies in one of the chunks. */
  lemma InChunk(L: seq<Seg>, s: Seg)
    requires WF(L) && s in L
    ensures s.base in Bases(L) && s.base <= s.addr && s.End() <= s.base + CHUNK
    ensures s.kind.Free? ==> s.addr + HDR <= s.End()
  {
    var i :| 0 <= i < |L| && L[i] == s;
    BaseOf(L, i);
    assert SegWF(s);
  }

  /** The fields of a list node are not foreign. */
  lemma NodeNotForeign(sent: int, L: seq<Seg>, S: seq<Seg>, x: int)
    requires WF(L) && (x == sent || x in FreeAddrs(S)) && forall s | s in S :: s in L
    ensures !Foreign(sent, Bases(L), x + NEXT) && !Foreign(sent, Bases(L), x + PREV)
  {
    hide WF, Bases;
    if x != sent {
      FreeAddrsMember(S, x);
      var s :| s in S && s.kind.Free? && s.addr == x;
      InChunk(L, s);
    }
  }

  /** Work inside one chunk, on a stretch between S and T. */
  lemma StretchForeign(m: Mem, m': Mem, sent: int, stop: int, L: seq<Seg>,
                       S: seq<Seg>, T: seq<Seg>, lo: int, hi: int, base: int)
    requires WF(L) && (forall s | s in S :: s in L) && (forall s | s in T :: s in L)
    requires base in Bases(L) && base <= lo && hi <= base + CHUNK
    requires Outside(m, m', lo, hi, NodeBefore(sent, S), NodeAfter(stop, T))
    ensures forall a | Foreign(sent, Bases(L), a) && a != stop + PREV :: Get(m', a) == Get(m, a)
    ensures stop == sent ==> ForeignKept(m, m', sent, Bases(L))
  {
    hide WF, Bases, FreeAddrs;
    var p, q := NodeBefore(sent, S), NodeAfter(stop, T);
    assert p == sent || p in FreeAddrs(S);
    assert q == stop || q in FreeAddrs(T);
    NodeNotForeign(sent, L, S, p);
    if q != stop {
      NodeNotForeign(sent, L, T, q);
    }
    forall a | Foreign(sent, Bases(L), a) && a != stop + PREV ensures Get(m', a) == Get(m, a) {
      assert a < base || base + CHUNK <= a;
    }
  }

  // ---- Taking a free block ----

  /** What a free block's fields say before it is taken. */
  lemma BeforeTake(m: Mem, sent: int, L: seq<Seg>, i: nat)
    requires Rep(m, sent, L) && i < |L| && L[i].kind.Free?
    ensures SegWF(L[i]) && SegRep(m, L[i]) && 0 < i < |L| - 1
    ensures Aligned(L[i].addr) && Aligned(L[i].len)
    ensures var p, q, x := PrevAt(m, L[i].addr), NextAt(m, L[i].addr), L[i];
            && Around(sent, p, q, x.addr, x.End())
            && p == NodeBefore(sent, L[..i]) && q == NodeAfter(sent, L[i + 1..])
  {
    hide Linked;
    BlockInside(L, i);
    Stretch(m, sent, sent, L, i, i + 1);
    FreeOne(L[i]);
    assert L[i..i + 1] == [L[i]];
    LinkedThree(m, NodeBefore(sent, L[..i]), L[i].addr, NodeAfter(sent, L[i + 1..]));
  }

  lemma AfterTake(m: Mem, m': Mem, sent: int, L: seq<Seg>, i: nat, n: int)
    requires Rep(m, sent, L) && i < |L| && L[i].kind.Free? && n % 8 == 0 && MIN_BLOCK <= n <= L[i].len
    requires var p, q, x := PrevAt(m, L[i].addr), NextAt(m, L[i].addr), L[i];
             && Outside(m, m', x.addr, x.End(), p, q)
             && Tagged(m', TakenParts(x, n))
             && Linked(m', [p] + (if x.len - n < MIN_SPLIT then [] else [x.addr + n]) + [q])
    ensures Rep(m', sent, TakeAt(L, i, n))
    ensures Kept(m, m', Live(L))
    ensures NumChunks(TakeAt(L, i, n)) == NumChunks(L)
  {
    hide Linked, WF, FreeAddrs, NumChunks, Live, Outside, Kept, SegRep, Tagged, NodeBefore, NodeAfter;
    var x := L[i];
    BeforeTake(m, sent, L, i);
    TakeKeeps(L, i, n);
    PartsFacts(x, n);
    var A, mid, B := L[..i], L[i..i + 1], L[i + 1..];
    assert mid == [x] && L == A + mid + B;
    Replaced(m, m', sent, sent, L, i, i + 1, TakenParts(x, n));
    LiveAround(A, mid, B);
    assert Live(L) == Live(A + B);
  }

  lemma TakeForeign(m: Mem, m': Mem, sent: int, L: seq<Seg>, i: nat)
    requires Rep(m, sent, L) && i < |L| && L[i].kind.Free?
    requires Outside(m, m', L[i].addr, L[i].End(), PrevAt(m, L[i].addr), NextAt(m, L[i].addr))
    ensures ForeignKept(m, m', sent, Bases(L))
  {
    hide Linked, Tagged, Outside, ForeignKept, Bases, NodeBefore, NodeAfter;
    BeforeTake(m, sent, L, i);
    InChunk(L, L[i]);
    StretchForeign(m, m', sent, sent, L, L[..i], L[i + 1..], L[i].addr, L[i].End(), L[i].base);
  }

  lemma PartsFacts(x: Seg, n: int)
    requires x.kind.Free?
    ensures FreeAddrs(TakenParts(x, n)) == if x.len - n < MIN_SPLIT then [] else [x.addr + n]
    ensures NumChunks(TakenParts(x, n)) == NumChunks([x]) == 0
    ensures Live([x]) == {}
  {
    var t := TakenParts(x, n);
    if |t| == 2 {
      FreeTwo(t[0], t[1]);
    }
  }

  // ---- Freeing a block ----

  /** What the tags and links around a live block say. */
  lemma BeforeFree(m: Mem, sent: int, stop: int, L: seq<Seg>, i: nat)
    requires RepTo(m, sent, stop, L) && i < |L| && L[i].kind.Used?
    ensures WF(L) && 0 < MergeLo(L, i) < MergeHi(L, i) < |L|
    ensures SegWF(L[i - 1]) && SegWF(L[i]) && SegWF(L[i + 1])
    ensures SegRep(m, L[i - 1]) && SegRep(m, L[i]) && SegRep(m, L[i + 1])
    ensures L[i - 1].End() == L[i].addr && L[i].End() == L[i + 1].addr
    ensures !L[i - 1].kind.EndPost? && !L[i + 1].kind.StartPost?
    ensures L[i - 1].base == L[i].base == L[i + 1].base
    ensures var l, r := MergeLo(L, i), MergeHi(L, i);
            var p, q := NodeBefore(sent, L[..l]), NodeAfter(stop, L[r..]);
            && Linked(m, [p] + FreeAddrs(L[l..r]) + [q])
            && Around(sent, p, q, L[l].addr, L[r - 1].End()) && (stop != sent ==> q != sent)
            && (q == stop || q + HDR <= L[|L| - 1].End()) && L[r - 1].End() <= L[|L| - 1].End()
  {
    hide Linked;
    BlockInside(L, i);
    MergeBounds(L, i);
    Stretch(m, sent, stop, L, MergeLo(L, i), MergeHi(L, i));
    assert L[i - 1] in L && L[i] in L && L[i + 1] in L && L[MergeHi(L, i) - 1] in L;
    EndsBelow(L, L[MergeHi(L, i) - 1]);
  }

  /** The blocks that freeing merges. */
  lemma MergedStretch(L: seq<Seg>, i: nat)
    requires WF(L) && i < |L| && L[i].kind.Used?
    ensures 0 < MergeLo(L, i) < MergeHi(L, i) < |L|
    ensures var l, r := L[i - 1].kind.Free?, L[i + 1].kind.Free?;
            && L[MergeLo(L, i)..MergeHi(L, i)]
               == (if l then [L[i - 1]] else []) + [L[i]] + (if r then [L[i + 1]] else [])
            && FreeAddrs(L[MergeLo(L, i)..MergeHi(L, i)])
               == (if l then [L[i - 1].addr] else []) + (if r then [L[i + 1].addr] else [])
            && NumChunks(L[MergeLo(L, i)..MergeHi(L, i)]) == 0
  {
    hide WF, FreeAddrs, NumChunks, MergeLo, MergeHi;
    MergeBounds(L, i);
    var a := if L[i - 1].kind.Free? then [L[i - 1]] else [];
    var b := if L[i + 1].kind.Free? then [L[i + 1]] else [];
    MergedSlice(L, i, a, b);
    FreeOne(L[i - 1]);
    FreeOne(L[i + 1]);
    FreeNone();
    FreeAround(a, L[i], b);
  }

  lemma MergedSlice(L: seq<Seg>, i: nat, a: seq<Seg>, b: seq<Seg>)
    requires 0 < i < |L| - 1
    requires a == if L[i - 1].kind.Free? then [L[i - 1]] else []
    requires b == if L[i + 1].kind.Free? then [L[i + 1]] else []
    ensures L[MergeLo(L, i)..MergeHi(L, i)] == a + [L[i]] + b
  {
  }

  lemma FreeNone()
    ensures FreeAddrs([]) == [] && NumChunks([]) == 0
  {
  }

  lemma FreeAround(a: seq<Seg>, x: Seg, b: seq<Seg>)
    requires x.kind.Used?
    ensures FreeAddrs(a + [x] + b) == FreeAddrs(a) + FreeAddrs(b)
    ensures NumChunks(a + [x] + b) == NumChunks(a) + NumChunks(b)
  {
    hide FreeAddrs, NumChunks;
    FreeOne(x);
    FreeAddrsConcat(a + [x], b);
    FreeAddrsConcat(a, [x]);
    NumChunksConcat(a + [x], b);
    NumChunksConcat(a, [x]);
  }

  /** The list around a live block, case by case. When both neighbours are free, the left one's
    next is the right one: the list is sorted by address and nothing lies between them. */
  lemma FreeLinks(m: Mem, sent: int, stop: int, L: seq<Seg>, i: nat)
    requires RepTo(m, sent, stop, L) && i < |L| && L[i].kind.Used? && 0 < i < |L| - 1
    requires 0 < MergeLo(L, i) < MergeHi(L, i) < |L|
    ensures var p, q := NodeBefore(sent, L[..MergeLo(L, i)]), NodeAfter(stop, L[MergeHi(L, i)..]);
            var l, r := L[i - 1].kind.Free?, L[i + 1].kind.Free?;
            var x, y := L[i - 1].addr, L[i + 1].addr;
            && (!l && !r ==> NextAt(m, p) == q && PrevAt(m, q) == p)
            && (l && !r ==> Between(m, p, x, q))
            && (!l && r ==> Between(m, p, y, q))
            && (l && r ==> Between(m, p, x, y) && Between(m, x, y, q))
  {
    BeforeFree(m, sent, stop, L, i);
    MergedStretch(L, i);
    var p, q := NodeBefore(sent, L[..MergeLo(L, i)]), NodeAfter(stop, L[MergeHi(L, i)..]);
    FourLinked(m, p, L[i - 1].kind.Free?, L[i - 1].addr, L[i + 1].kind.Free?, L[i + 1].addr, q);
  }

  lemma FourLinked(m: Mem, p: int, l: bool, x: int, r: bool, y: int, q: int)
    requires Linked(m, [p] + ((if l then [x] else []) + (if r then [y] else [])) + [q])
    ensures !l && !r ==> NextAt(m, p) == q && PrevAt(m, q) == p
    ensures l && !r ==> Between(m, p, x, q)
    ensures !l && r ==> Between(m, p, y, q)
    ensures l && r ==> Between(m, p, x, y) && Between(m, x, y, q)
  {
    var a, b := if l then [x] else [], if r then [y] else [];
    var C := [p] + (a + b) + [q];
    assert C[0] == p && C[|C| - 1] == q;
    assert l ==> C[1] == x;
    assert r ==> C[|C| - 2] == y;
  }

  lemma RingNext(m: Mem, C: seq<int>, k: nat)
    requires Linked(m, C) && k + 1 < |C|
    ensures NextAt(m, C[k]) == C[k + 1]
  {
  }

  /** The insertion walk: from a node below the block, either that is the place, or the next node is
    still below. */
  lemma PlaceStep(m: Mem, sent: int, stop: int, L: seq<Seg>, i: nat, k: nat)
    requires RepTo(m, sent, stop, L) && i < |L| && L[i].kind.Used?
    requires k <= |FreeAddrs(L[..i])|
    ensures var C := [sent] + FreeAddrs(L[..i]);
            && C[k] < L[i].addr && 0 < i
            && (k < |FreeAddrs(L[..i])| ==>
                  NextAt(m, C[k]) == C[k + 1] && C[k + 1] < L[i].addr && C[k + 1] != sent)
            && (k == |FreeAddrs(L[..i])| ==>
                  NextAt(m, C[k]) == NodeAfter(stop, L[i + 1..])
                  && (NodeAfter(stop, L[i + 1..]) == sent || L[i].addr < NodeAfter(stop, L[i + 1..])))
  {
    hide Linked, Tagged, WF, NodeAfter;
    PlaceBounds(sent, stop, L, i);
    var A, B := L[..i], L[i + 1..];
    var C, R := [sent] + FreeAddrs(A), Ring(sent, FreeAddrs(L), stop);
    assert C[0] == sent;
    assert R == C + (FreeAddrs(B) + [stop]);
    assert R[k] == C[k];
    RingNext(m, R, k);
  }

  lemma PlaceBounds(sent: int, stop: int, L: seq<Seg>, i: nat)
    requires WF(L) && SentinelOk(sent, L) && StopOk(sent, stop, L) && i < |L| && L[i].kind.Used?
    ensures 0 < i && FreeAddrs(L) == FreeAddrs(L[..i]) + FreeAddrs(L[i + 1..])
    ensures var C := [sent] + FreeAddrs(L[..i]);
            && (forall k | 0 <= k < |C| :: C[k] < L[i].addr)
            && (forall k | 0 < k < |C| :: C[k] != sent)
    ensures var q := NodeAfter(stop, L[i + 1..]);
            q == (FreeAddrs(L[i + 1..]) + [stop])[0] && (q == sent || L[i].addr < q)
  {
    hide Chain, FreeAddrs, NodeBefore;
    BlockInside(L, i);
    var A, B := L[..i], L[i + 1..];
    Cut(L, i, i + 1);
    assert L[i..i + 1] == [L[i]] && L == A + [L[i]] + B;
    FreeOne(L[i]);
    FreeAddrsConcat(A + [L[i]], B);
    FreeAddrsConcat(A, [L[i]]);
    ChainConcat(A + [L[i]], B);
    ChainConcat(A, [L[i]]);
    NodesAround(sent, stop, A, [L[i]], B, L[i].addr, L[i].End());
    FreeBelow(sent, A, L[i].addr);
    GappedHead(sent, FreeAddrs(A));
  }

  lemma GappedHead(x: int, xs: seq<int>)
    requires Gapped([x] + xs)
    ensures var C := [x] + xs; forall k | 0 < k < |C| :: C[k] != x
  {
    var C := [x] + xs;
    forall k | 0 < k < |C| ensures C[k] != x {
      assert C[0] + HDR <= C[k];
    }
  }

  /** The nodes around the merged stretch. */
  ghost function FreeBefore(sent: int, L: seq<Seg>, i: nat): int
    requires 0 < i < |L|
  {
    NodeBefore(sent, L[..MergeLo(L, i)])
  }

  ghost function FreeAfter(stop: int, L: seq<Seg>, i: nat): int
    requires i + 1 < |L|
  {
    NodeAfter(stop, L[MergeHi(L, i)..])
  }

  /** All that free reads, in terms of the block x and its neighbours y and z. */
  lemma FreeReads(m: Mem, sent: int, stop: int, L: seq<Seg>, i: nat)
    requires RepTo(m, sent, stop, L) && i < |L| && L[i].kind.Used?
    ensures WF(L) && 0 < i < |L| - 1
    ensures var x, y, z, g := L[i], L[i - 1], L[i + 1], Merged(L, i);
            var l, r := y.kind.Free?, z.kind.Free?;
            var p, q := FreeBefore(sent, L, i), FreeAfter(stop, L, i);
            && MIN_BLOCK <= x.len && Marked(m, x.addr, x.len, ALLOCATED)
            && StatusAt(m, x.addr - FTR) == Tag(y) && StatusAt(m, x.End()) == Tag(z)
            && (l ==> y.End() == x.addr && MIN_BLOCK <= y.len && Marked(m, y.addr, y.len, UNALLOCATED))
            && (r ==> z.addr == x.End() && MIN_BLOCK <= z.len && Marked(m, z.addr, z.len, UNALLOCATED))
            && g.kind.Free? && g.addr == (if l then y.addr else x.addr) && g.End() == (if r then z.End() else x.End())
            && Around(sent, p, q, g.addr, g.End()) && (stop != sent ==> q != sent)
            && (q == stop || q + HDR <= L[|L| - 1].End()) && g.End() <= L[|L| - 1].End()
            && x.addr % 8 == 0 && x.len % 8 == 0 && y.len % 8 == 0 && z.len % 8 == 0
            && (!l && !r ==> NextAt(m, p) == q && PrevAt(m, q) == p && p == NodeBefore(sent, L[..i]))
            && (l && !r ==> Between(m, p, y.addr, q))
            && (!l && r ==> Between(m, p, z.addr, q))
            && (l && r ==> Between(m, p, y.addr, z.addr) && Between(m, y.addr, z.addr, q))
  {
    hide Linked, WF, NodeBefore, NodeAfter;
    BeforeFree(m, sent, stop, L, i);
    FreeLinks(m, sent, stop, L, i);
  }

  lemma AfterFree(m: Mem, m': Mem, sent: int, stop: int, L: seq<Seg>, i: nat)
    requires RepTo(m, sent, stop, L) && i < |L| && L[i].kind.Used? && 0 < i < |L| - 1
    requires var g, p, q := Merged(L, i), FreeBefore(sent, L, i), FreeAfter(stop, L, i);
             && Outside(m, m', g.addr, g.End(), p, q)
             && Between(m', p, g.addr, q)
             && Marked(m', g.addr, g.len, UNALLOCATED)
    ensures RepTo(m', sent, stop, FreeAt(L, i))
    ensures Kept(m, m', Live(L) - {L[i]})
    ensures NumChunks(FreeAt(L, i)) == NumChunks(L)
  {
    hide Linked, WF, FreeAddrs, NumChunks, Live, Outside, Kept, NodeBefore, NodeAfter;
    var l, r, g := MergeLo(L, i), MergeHi(L, i), Merged(L, i);
    FreeKeeps(L, i);
    MergedStretch(L, i);
    FreeOne(g);
    LinkedThree(m', FreeBefore(sent, L, i), g.addr, FreeAfter(stop, L, i));
    Replaced(m, m', sent, stop, L, l, r, [g]);
    OthersLive(L, i);
    KeptFewer(m, m', Live(L[..l] + L[r..]), Live(L) - {L[i]});
  }

  lemma FreeForeign(m: Mem, m': Mem, sent: int, stop: int, L: seq<Seg>, i: nat)
    requires WF(L) && i < |L| && L[i].kind.Used? && 0 < i < |L| - 1
    requires var g, p, q := Merged(L, i), FreeBefore(sent, L, i), FreeAfter(stop, L, i);
             Outside(m, m', g.addr, g.End(), p, q)
    ensures forall a | Foreign(sent, Bases(L), a) && a != stop + PREV :: Get(m', a) == Get(m, a)
  {
    hide WF, Outside, Foreign, Bases, NodeBefore, NodeAfter;
    MergeBounds(L, i);
    var l, r, g := MergeLo(L, i), MergeHi(L, i), Merged(L, i);
    InChunk(L, L[l]);
    InChunk(L, L[r - 1]);
    StretchForeign(m, m', sent, stop, L, L[..l], L[r..], g.addr, g.End(), g.base);
  }

  lemma OthersLive(L: seq<Seg>, i: nat)
    requires WF(L) && i < |L| && L[i].kind.Used? && 0 < i < |L| - 1
    requires MergeLo(L, i) < MergeHi(L, i) <= |L|
    ensures Live(L) - {L[i]} <= Live(L[..MergeLo(L, i)] + L[MergeHi(L, i)..])
  {
    hide WF, Live;
    var l, r := MergeLo(L, i), MergeHi(L, i);
    LiveAround(L[..l], L[l..r], L[r..]);
    MergedLive(L, i);
    assert L == L[..l] + L[l..r] + L[r..];
  }

  lemma KeptFewer(m: Mem, m': Mem, S: set<Seg>, T: set<Seg>)
    requires Kept(m, m', S) && T <= S
    ensures Kept(m, m', T)
  {
  }

  // ---- Growing the heap ----

  lemma BeforeGrow(m: Mem, sent: int, L: seq<Seg>, os: int)
    requires Rep(m, sent, L) && BreakOk(L, os)
    ensures WF(L) && 0 < sent
    ensures var p := PrevAt(m, sent);
            && p == NodeBefore(sent, L) && NextAt(m, p) == sent
            && Around(sent, p, sent, os, os)
            && NodeAfter(sent, []) == sent
  {
    hide Linked;
    assert L + [] + [] == L;
    LinkedMiddle(m, sent, sent, L, [], []);
    LinkedTwo(m, NodeBefore(sent, L), sent);
    forall s | s in L ensures s.End() <= os {
      BelowBreak(L, os, s);
    }
    NodesAround(sent, sent, L, [], [], os, os);
  }

  lemma GrowPayload(m: Mem, m': Mem, sent: int, L: seq<Seg>, os: int)
    requires Rep(m, sent, L) && BreakOk(L, os)
    requires Outside(m, m', os, os + CHUNK, PrevAt(m, sent), sent)
    ensures Kept(m, m', Live(L))
  {
    hide Linked, Tagged;
    BeforeGrow(m, sent, L, os);
    forall s | s in L ensures s.End() <= os {
      BelowBreak(L, os, s);
    }
    assert L + [] + [] == L && L + [] == L;
    SplicePayload(m, m', sent, sent, L, [], [], os, os + CHUNK);
  }

  lemma GrowForeign(m: Mem, m': Mem, sent: int, L: seq<Seg>, os: int)
    requires Rep(m, sent, L) && BreakOk(L, os)
    requires Outside(m, m', os, os + CHUNK, PrevAt(m, sent), sent)
    ensures ForeignKept(m, m', sent, Bases(L) + {os})
  {
    hide Linked, Tagged, Bases, FreeAddrs;
    BeforeGrow(m, sent, L, os);
    var p := PrevAt(m, sent);
    assert p == sent || p in FreeAddrs(L);
    NodeNotForeign(sent, L, L, p);
    forall a | Foreign(sent, Bases(L) + {os}, a) ensures Get(m', a) == Get(m, a) {
      assert Foreign(sent, Bases(L), a) && (a < os || os + CHUNK <= a);
    }
  }

  /** What lies above the last chunk is foreign. */
  lemma AboveForeign(sent: int, L: seq<Seg>, a: int)
    requires WF(L) && SentinelOk(sent, L) && L[|L| - 1].End() <= a
    ensures Foreign(sent, Bases(L), a)
  {
    EndsBelow(L, L[0]);
    assert SegWF(L[0]);
    forall b | b in Bases(L) ensures b + CHUNK <= a {
      var i :| 0 <= i < |L| && L[i].kind.StartPost? && L[i].base == b;
      EndAfter(L, i);
    }
  }

  lemma FreshFacts(os: int, n: int)
    ensures FreeAddrs(FreshChunk(os, n)) == if n < BLOCK then [os + FTR + n] else []
    ensures NumChunks(FreshChunk(os, n)) == 1
  {
    var C := FreshChunk(os, n);
    var k := |C| - 1;
    var rest := if n < BLOCK then [C[2]] else [];
    assert C == [C[0], C[1]] + rest + [C[k]];
    FreeAddrsConcat([C[0], C[1]] + rest, [C[k]]);
    FreeAddrsConcat([C[0], C[1]], rest);
    NumChunksConcat([C[0], C[1]] + rest, [C[k]]);
    NumChunksConcat([C[0], C[1]], rest);
    FreeTwo(C[0], C[1]);
    FreeOne(C[0]);
    FreeOne(C[1]);
    FreeOne(C[k]);
    if n < BLOCK {
      FreeOne(C[2]);
    }
  }

  /** The tags of a new chunk, word by word. */
  lemma FreshTags(m: Mem, os: int, n: int)
    requires MIN_SPLIT <= n <= BLOCK
    requires SizeAt(m, os) == 0 && StatusAt(m, os) == ALLOCATED
    requires var e := os + FTR + BLOCK;
             && SizeAt(m, e) == 0 && StatusAt(m, e) == ALLOCATED
             && NextAt(m, e) == NULL && PrevAt(m, e) == NULL
    requires var b, c := os + FTR, os + FTR + n;
             && SizeAt(m, b) == SizeAt(m, c - FTR) == n
             && StatusAt(m, b) == StatusAt(m, c - FTR) == ALLOCATED
             && NextAt(m, b) == PrevAt(m, b) == NULL
    requires n < BLOCK ==>
               var c, d := os + FTR + n, os + FTR + BLOCK - FTR;
               && SizeAt(m, c) == SizeAt(m, d) == BLOCK - n
               && StatusAt(m, c) == StatusAt(m, d) == UNALLOCATED
    ensures Tagged(m, FreshChunk(os, n))
  {
    hide Load;
  }

  lemma AfterGrow(m: Mem, m': Mem, sent: int, L: seq<Seg>, os: int, n: int)
    requires Rep(m, sent, L) && BreakOk(L, os)
    requires n % 8 == 0 && MIN_BLOCK <= n <= BLOCK && CutOk(n)
    requires var p := PrevAt(m, sent);
             && Outside(m, m', os, os + CHUNK, p, sent)
             && Linked(m', [p] + (if n < BLOCK then [os + FTR + n] else []) + [sent])
    requires Tagged(m', FreshChunk(os, n))
    ensures Rep(m', sent, L + FreshChunk(os, n))
    ensures NumChunks(L + FreshChunk(os, n)) == NumChunks(L) + 1
  {
    hide Linked, Tagged, FreeAddrs, NumChunks, Outside;
    var C := FreshChunk(os, n);
    BeforeGrow(m, sent, L, os);
    FreshChunkWF(os, n);
    FreshFacts(os, n);
    AppendKeeps(L, os, C);
    forall s | s in L ensures s.End() <= os {
      BelowBreak(L, os, s);
    }
    assert L + [] + [] == L && L + C + [] == L + C;
    SpliceRep(m, m', sent, sent, L, [], C, [], os, os + CHUNK);
    NumChunksConcat(L, C);
  }

  /** When the remainder is too small for a header and a footer, its list node lies in no block:
    memory no longer represents any layout of the chunks the OS has given. */
  lemma NoLayout(m: Mem, sent: int, L: seq<Seg>, os: int, n: int)
    requires WF(L) && BreakOk(L, os) && n <= BLOCK && !CutOk(n)
    requires PrevAt(m, sent) == os + FTR + n && sent + HDR <= os
    requires 0 <= n
    ensures forall K: seq<Seg> | Bases(K) == Bases(L) + {os} :: !Rep(m, sent, K)
  {
    forall K: seq<Seg> | Bases(K) == Bases(L) + {os} ensures !Rep(m, sent, K) {
      if Rep(m, sent, K) {
        LastNode(m, sent, K);
        var i :| 0 <= i < |K| && K[i].kind.Free? && K[i].addr == os + FTR + n;
        assert SegWF(K[i]);
        BaseOf(K, i);
        if K[i].base != os {
          BaseBelow(L, os, K[i].base);
        }
        assert false;
      }
    }
  }

  /** A node linked in at the tail above all blocks: the old blocks are represented as before, by a
    list that goes on at that node. */
  lemma Dangle(m: Mem, m': Mem, sent: int, stop: int, L: seq<Seg>, os: int)
    requires Rep(m, sent, L) && BreakOk(L, os) && os <= stop && stop % 8 == 0
    requires Outside(m, m', os, os + CHUNK, PrevAt(m, sent), sent)
    requires NextAt(m', PrevAt(m, sent)) == stop && PrevAt(m', stop) == PrevAt(m, sent)
    ensures RepTo(m', sent, stop, L)
  {
    hide Linked, WF, Tagged, NodeBefore, NodeAfter;
    var X, p := [sent] + FreeAddrs(L), NodeBefore(sent, L);
    BeforeGrow(m, sent, L, os);
    forall s | s in L ensures s.End() <= os {
      BelowBreak(L, os, s);
    }
    assert L + [] + [] == L && L + [] == L;
    SpliceTags(m, m', sent, sent, L, [], [], os, os + CHUNK);
    SpliceBounds(sent, sent, L, [], [], os, os + CHUNK);
    NodesAre(sent, stop, L, []);
    assert Ring(sent, FreeAddrs(L), sent) == X + [] + [sent];
    assert Ring(sent, FreeAddrs(L), stop) == X + [] + [stop];
    LinkedGlue(m, X, [], [sent]);
    FrontKept(m, m', X, os, os + CHUNK, p, sent);
    LinkedTwo(m', p, stop);
    assert Linked(m', [stop]) by {
      OneLinked(m', stop);
    }
    LinkedGlue(m', X, [], [stop]);
  }

  lemma OneLinked(m: Mem, x: int)
    ensures Linked(m, [x])
  {
  }

  /** Writing above all blocks and below such a node changes nothing that is represented. */
  lemma WriteAbove(m: Mem, m': Mem, sent: int, stop: int, L: seq<Seg>, os: int)
    requires RepTo(m, sent, stop, L) && stop != sent && BreakOk(L, os) && os <= stop
    requires forall a | a < os || stop <= a :: Get(m', a) == Get(m, a)
    ensures RepTo(m', sent, stop, L) && Kept(m, m', Live(L))
    ensures PrevAt(m', sent) == PrevAt(m, sent)
  {
    hide Linked, WF, Tagged, NodeBefore, NodeAfter, Kept, FreeAddrs;
    forall s | s in L ensures s.End() <= os {
      BelowBreak(L, os, s);
    }
    assert L + [] + [] == L && L + [] == L;
    var p := NodeBefore(sent, L);
    assert NodeAfter(stop, []) == stop && FreeAddrs([]) == [] by {
      NodesAre(sent, stop, L, []);
      FreeNone();
    }
    NodesAround(sent, stop, L, [], [], os, stop);
    SpliceTags(m, m', sent, stop, L, [], [], os, stop);
    LinkedMiddle(m, sent, stop, L, [], []);
    LinkedTwo(m, p, stop);
    LinkedTwo(m', p, stop);
    SpliceLinks(m, m', sent, stop, L, [], [], [], os, stop);
    SplicePayload(m, m', sent, stop, L, [], [], os, stop);
  }

  lemma LastNode(m: Mem, sent: int, K: seq<Seg>)
    requires Rep(m, sent, K) && PrevAt(m, sent) != sent
    ensures exists i :: 0 <= i < |K| && K[i].kind.Free? && K[i].addr == PrevAt(m, sent)
  {
    var F := FreeAddrs(K);
    var C := Ring(sent, F, sent);
    assert C[|C| - 1] == sent && PrevAt(m, sent) == C[|C| - 2];
    assert C[0] == sent;
    if F != [] {
      FreeAddrsMember(K, F[|F| - 1]);
      var s :| s in K && s.kind.Free? && s.addr == F[|F| - 1];
      var i :| 0 <= i < |K| && K[i] == s;
    }
  }

  lemma BaseBelow(L: seq<Seg>, os: int, b: int)
    requires WF(L) && BreakOk(L, os) && b in Bases(L)
    ensures b + CHUNK <= os
  {
    var i :| 0 <= i < |L| && L[i].kind.StartPost? && L[i].base == b;
    EndAfter(L, i);
  }

  /** The end fencepost of a segment's chunk bounds it. */
  lemma EndAfter(L: seq<Seg>, i: nat)
    requires WF(L) && i < |L|
    ensures L[i].base + CHUNK <= L[|L| - 1].End()
    decreases |L| - i
  {
    if L[i].kind.EndPost? {
      assert SegWF(L[i]);
      if i < |L| - 1 {
        Ordered(L, i, |L| - 1);
        assert SegWF(L[|L| - 1]);
      }
    } else {
      assert Follows(L[i], L[i + 1]);
      EndAfter(L, i + 1);
    }
  }

  // ---- Walking the free list ----

  lemma WalkStart(m: Mem, sent: int, L: seq<Seg>)
    requires Rep(m, sent, L)
    ensures NextAt(m, sent) == NodeAfter(sent, L[0..])
  {
    var C := Ring(sent, FreeAddrs(L), sent);
    assert L[0..] == L;
    assert C[0] == sent && C[1] == (FreeAddrs(L) + [sent])[0];
  }

  lemma {:induction false} FirstFree(L: seq<Seg>, i: nat) returns (j: nat)
    requires i <= |L|
    ensures i <= j <= |L| && forall k | i <= k < j :: !L[k].kind.Free?
    ensures FreeAddrs(L[i..]) == FreeAddrs(L[j..])
    ensures j < |L| ==> L[j].kind.Free? && FreeAddrs(L[i..])[..1] == [L[j].addr]
    decreases |L| - i
  {
    j := i;
    if i < |L| {
      assert L[i..][1..] == L[i + 1..];
      if !L[i].kind.Free? {
        j := FirstFree(L, i + 1);
      }
    }
  }

  /** At a node of the list that is not the sentinel: the block it heads, the next one of L[i..]
    that is free. */
  lemma WalkStep(m: Mem, sent: int, L: seq<Seg>, i: nat, current: int) returns (j: nat)
    requires Rep(m, sent, L) && i <= |L|
    requires current == NodeAfter(sent, L[i..]) && current != sent
    ensures i <= j < |L| && L[j].kind.Free? && L[j].addr == current && SizeAt(m, current) == L[j].len
    ensures forall k | i <= k < j :: !L[k].kind.Free?
    ensures NextAt(m, current) == NodeAfter(sent, L[j + 1..]) && 0 < sent < current
  {
    hide Linked, WF;
    j := FirstFree(L, i);
    if j < |L| {
      BeforeTake(m, sent, L, j);
    }
  }

  lemma WalkEnd(m: Mem, sent: int, L: seq<Seg>, i: nat)
    requires Rep(m, sent, L) && i <= |L| && sent == NodeAfter(sent, L[i..])
    ensures forall k | i <= k < |L| :: !L[k].kind.Free?
  {
    hide Linked, WF;
    var j := FirstFree(L, i);
    if j < |L| {
      BeforeTake(m, sent, L, j);
    }
  }

  // ---- Payload writes ----

  predicate InPayload(s: Seg, a: int) {
    s.addr + HDR <= a < s.End() - FTR
  }

  /** A program that writes only inside the payload of a live block leaves the representation, and
    every other payload, as it was. */
  lemma PayloadWrite(m: Mem, m': Mem, sent: int, L: seq<Seg>, i: nat)
    requires Rep(m, sent, L) && i < |L| && L[i].kind.Used?
    requires forall a | !InPayload(L[i], a) :: Get(m', a) == Get(m, a)
    ensures Rep(m', sent, L)
    ensures Kept(m, m', Live(L) - {L[i]})
  {
    hide Linked, NodeBefore, NodeAfter, FreeAddrs;
    BlockInside(L, i);
    Stretch(m, sent, sent, L, i, i + 1);
    var x := L[i];
    var p, q := NodeBefore(sent, L[..i]), NodeAfter(sent, L[i + 1..]);
    assert L[i..i + 1] == [x] && L[..i] + [x] + L[i + 1..] == L;
    FreeOne(x);
    LinkedTwo(m, p, q);
    LinkedTwo(m', p, q);
    KeptOthers(m, m', L, i);
    SpliceRep(m, m', sent, sent, L[..i], [x], [x], L[i + 1..], x.addr, x.End());
  }

  lemma KeptOthers(m: Mem, m': Mem, L: seq<Seg>, i: nat)
    requires WF(L) && i < |L|
    requires forall a | !InPayload(L[i], a) :: Get(m', a) == Get(m, a)
    ensures Kept(m, m', Live(L) - {L[i]})
  {
    forall s | s in Live(L) - {L[i]} ensures Untouched(m, m', s) {
      Disjoint(L, s, L[i]);
    }
  }

  /** Kept words are kept bytes. */
  lemma KeptBytes(m: Mem, m': Mem, L: seq<Seg>, S: set<Seg>, s: Seg)
    requires Kept(m, m', S) && s in S && SegWF(s) && s.kind.Used?
    ensures forall x {:trigger ByteAt(m', x)} | InPayload(s, x) :: ByteAt(m', x) == ByteAt(m, x)
  {
    forall x | InPayload(s, x) ensures ByteAt(m', x) == ByteAt(m, x) {
      assert InPayload(s, WordOf(x));
    }
  }

  lemma BytesBetween(m: Mem, m': Mem, lo: int, hi: int)
    requires lo % 8 == 0 && forall a | lo <= a < hi :: Get(m', a) == Get(m, a)
    ensures forall x {:trigger ByteAt(m', x)} | lo <= x < hi :: ByteAt(m', x) == ByteAt(m, x)
  {
    forall x | lo <= x < hi ensures ByteAt(m', x) == ByteAt(m, x) {
      assert lo <= WordOf(x) < hi;
    }
  }

  /** What a block of an old chunk says once a new chunk has been obtained above it. */
  lemma BelowNewChunk(m: Mem, sent: int, stop: int, L: seq<Seg>, os: int, i: nat)
    requires RepTo(m, sent, stop, L) && BreakOk(L, os) && i < |L| && L[i].kind.Used?
    ensures SegWF(L[i]) && SizeAt(m, L[i].addr) == L[i].len && L[i].base + CHUNK <= os
  {
    assert L[i] in L && SegRep(m, L[i]);
    EndAfter(L, i);
  }

  // ---- Initialization ----

  lemma AfterInit(m: Mem, sent: int, os: int)
    requires os % 8 == 0 && sent % 8 == 0 && 0 < sent && sent + HDR <= os
    requires SizeAt(m, sent) == 0 && StatusAt(m, sent) == SENTINEL
    requires SizeAt(m, os) == 0 && StatusAt(m, os) == ALLOCATED
    requires var e := os + FTR + BLOCK;
             && SizeAt(m, e) == 0 && StatusAt(m, e) == ALLOCATED
             && NextAt(m, e) == NULL && PrevAt(m, e) == NULL
    requires Marked(m, os + FTR, BLOCK, UNALLOCATED) && Between(m, sent, os + FTR, sent)
    ensures Rep(m, sent, WholeChunk(os)) && NumChunks(WholeChunk(os)) == 1
  {
    hide Linked;
    var C := WholeChunk(os);
    WholeChunkWF(os);
    LinkedThree(m, sent, os + FTR, sent);
    assert Ring(sent, FreeAddrs(C), sent) == [sent] + [os + FTR] + [sent];
    assert C == [C[0], C[1]] + [C[2]];
    NumChunksConcat([C[0], C[1]], [C[2]]);
    FreeTwo(C[0], C[1]);
    FreeOne(C[0]);
    FreeOne(C[1]);
    FreeOne(C[2]);
  }
}
