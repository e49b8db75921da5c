/** How a layout is represented in memory: headers, footers and the circular free list.

  Every operation of the allocator replaces a stretch of the layout. SpliceRep says once what such a
  replacement has to write for the representation to carry over. */
module HeapMemory {
  import opened Memory
  import opened HeapLayout

  // enum allocation_status
  const UNALLOCATED := 0
  const ALLOCATED := 1
  const SENTINEL := 2

  const NULL := 0

  // Offsets of the fields of object_header; object_footer has the first two.
  const STATUS := 8
  const NEXT := 16
  const PREV := 24

  function SizeAt(m: Mem, a: int): int { Load(m, a) }
  function StatusAt(m: Mem, a: int): int { Load(m, a + STATUS) }
  function NextAt(m: Mem, a: int): int { Load(m, a + NEXT) }
  function PrevAt(m: Mem, a: int): int { Load(m, a + PREV) }

  /** The fields of a header, and of a block's footer, are words. */
  lemma HeaderAligned(a: int)
    requires Aligned(a)
    ensures Aligned(a + STATUS) && Aligned(a + NEXT) && Aligned(a + PREV)
  {
  }

  lemma FooterAligned(a: int, size: int)
    requires Aligned(a) && Aligned(size)
    ensures Aligned(a + size) && Aligned(a + size - FTR) && Aligned(a + size - FTR + STATUS)
  {
  }

  lemma LeftAligned(a: int, size: int)
    requires Aligned(a) && Aligned(size)
    ensures Aligned(a - size) && Aligned(a - size + NEXT)
  {
  }

  lemma ChunkAligned(os: int)
    requires Aligned(os)
    ensures Aligned(os + FTR) && Aligned(os + FTR + BLOCK)
  {
  }

  function Tag(s: Seg): int { if s.kind.Free? then UNALLOCATED else ALLOCATED }

  /** The header at a and the footer of its block agree on size and status. */
  predicate Marked(m: Mem, a: int, size: int, status: int) {
    && SizeAt(m, a) == size && StatusAt(m, a) == status
    && SizeAt(m, a + size - FTR) == size && StatusAt(m, a + size - FTR) == status
  }

  /** x stands between p and q in the list. */
  predicate Between(m: Mem, p: int, x: int, q: int) {
    NextAt(m, p) == x && PrevAt(m, x) == p && NextAt(m, x) == q && PrevAt(m, q) == x
  }

  /** p and q are the list nodes around the stretch [lo, hi): headers below and above it, or the
    sentinel. */
  predicate Around(sent: int, p: int, q: int, lo: int, hi: int) {
    && p + HDR <= lo && (q == sent || hi <= q)
    && (p == sent || sent + HDR <= p) && sent + HDR <= lo
    && Aligned(p) && Aligned(q)
  }

  /** The words of memory that mark the extent and status of segment s. */
  ghost predicate SegRep(m: Mem, s: Seg) {
    match s.kind
    case StartPost => SizeAt(m, s.addr) == 0 && StatusAt(m, s.addr) == ALLOCATED
    case EndPost =>
      && SizeAt(m, s.addr) == 0 && StatusAt(m, s.addr) == ALLOCATED
      && NextAt(m, s.addr) == NULL && PrevAt(m, s.addr) == NULL
    case _ =>
      && Marked(m, s.addr, s.len, Tag(s))
      && (s.kind.Used? ==> NextAt(m, s.addr) == NULL && PrevAt(m, s.addr) == NULL)
  }

  ghost predicate Tagged(m: Mem, L: seq<Seg>) {
    forall s | s in L :: SegRep(m, s)
  }

  /** Consecutive nodes of C point at each other. */
  ghost predicate Linked(m: Mem, C: seq<int>) {
    forall i, j | 0 <= i < j < |C| && j == i + 1 :: NextAt(m, C[i]) == C[j] && PrevAt(m, C[j]) == C[i]
  }

  /** The free list from the sentinel through the nodes F up to stop, which is the sentinel again,
    unless a node that heads no block dangles at the end of the list. */
  ghost function Ring(sent: int, F: seq<int>, stop: int): seq<int> {
    [sent] + F + [stop]
  }

  /** The sentinel is a static object below the heap. */
  ghost predicate SentinelOk(sent: int, L: seq<Seg>) {
    0 < sent && sent % 8 == 0 && L != [] && sent + HDR <= L[0].addr
  }

  ghost predicate StopOk(sent: int, stop: int, L: seq<Seg>) {
    stop == sent || (stop % 8 == 0 && L != [] && L[|L| - 1].End() <= stop)
  }

  /** Memory represents the layout L, by a list that goes on at stop after the last free block. */
  ghost predicate RepTo(m: Mem, sent: int, stop: int, L: seq<Seg>) {
    && WF(L) && SentinelOk(sent, L) && StopOk(sent, stop, L)
    && SizeAt(m, sent) == 0 && StatusAt(m, sent) == SENTINEL
    && Tagged(m, L)
    && Linked(m, Ring(sent, FreeAddrs(L), stop))
  }

  /** Memory represents the layout L. */
  ghost predicate Rep(m: Mem, sent: int, L: seq<Seg>) {
    RepTo(m, sent, sent, L)
  }

  // ---- Frames ----

  /** m' differs from m only inside [lo, hi) and in the next field of p and the prev field of q. */
  ghost predicate Outside(m: Mem, m': Mem, lo: int, hi: int, p: int, q: int) {
    forall w | (w < lo || hi <= w) && w != p + NEXT && w != q + PREV :: Get(m', w) == Get(m, w)
  }

  /** p is a list node as seen from segment s: s itself, free, or a header elsewhere. */
  predicate NodeFor(p: int, s: Seg) {
    (s.kind.Free? && s.addr == p) || p + HDR <= s.addr || s.End() <= p
  }

  lemma TagsKept(m: Mem, m': Mem, S: seq<Seg>, lo: int, hi: int, p: int, q: int)
    requires Tagged(m, S) && Outside(m, m', lo, hi, p, q)
    requires forall s | s in S ::
               && SegWF(s) && (s.End() <= lo || hi <= s.addr) && NodeFor(p, s) && NodeFor(q, s)
    ensures Tagged(m', S)
  {
  }

  ghost predicate Gapped(xs: seq<int>) {
    forall i, j | 0 <= i < j < |xs| :: xs[i] + HDR <= xs[j]
  }

  lemma LinkedConcat(m: Mem, a: seq<int>, b: seq<int>)
    requires a != [] && b != []
    ensures Linked(m, a + b) <==>
              Linked(m, a) && Linked(m, b) && NextAt(m, a[|a| - 1]) == b[0] && PrevAt(m, b[0]) == a[|a| - 1]
  {
    var c := a + b;
    assert forall i | 0 <= i < |a| :: a[i] == c[i];
    assert forall i | 0 <= i < |b| :: b[i] == c[|a| + i];
    if Linked(m, c) {
      assert c[|a|] == b[0] && c[|a| - 1] == a[|a| - 1];
      forall i, j | 0 <= i < j < |b| && j == i + 1
        ensures NextAt(m, b[i]) == b[j] && PrevAt(m, b[j]) == b[i]
      {
        assert b[i] == c[|a| + i] && b[j] == c[|a| + j];
      }
    }
  }

  /** The part of the ring before the stretch. */
  lemma FrontKept(m: Mem, m': Mem, X: seq<int>, lo: int, hi: int, p: int, q: int)
    requires X != [] && Linked(m, X) && Outside(m, m', lo, hi, p, q)
    requires Gapped(X) && (forall i | 0 <= i < |X| :: X[i] + HDR <= lo)
    requires p == X[|X| - 1] && (q == X[0] || lo <= q)
    ensures Linked(m', X)
  {
  }

  /** The part of the ring after the stretch, back to the sentinel or up to a node above. */
  lemma BackKept(m: Mem, m': Mem, Y: seq<int>, lo: int, hi: int, p: int, q: int)
    requires Y != [] && Linked(m, Y) && Outside(m, m', lo, hi, p, q)
    requires Gapped(Y[..|Y| - 1]) && (forall i | 0 <= i < |Y| - 1 :: hi <= Y[i])
    requires lo <= hi && q == Y[0] && p + HDR <= lo
    requires var z := Y[|Y| - 1];
             || (z + HDR <= lo && (p == z || z + HDR <= p))
             || (hi <= z && Gapped(Y))
    ensures Linked(m', Y)
  {
  }

  /** A linked sequence cut in three: the outer parts, and the middle with its end nodes. */
  lemma LinkedGlue(m: Mem, X: seq<int>, G: seq<int>, Y: seq<int>)
    requires X != [] && Y != []
    ensures Linked(m, X + G + Y) <==>
              Linked(m, X) && Linked(m, Y) && Linked(m, [X[|X| - 1]] + G + [Y[0]])
  {
    var p, q := X[|X| - 1], Y[0];
    if G == [] {
      assert X + G + Y == X + Y && [p] + G + [q] == [p] + [q];
      LinkedConcat(m, X, Y);
      LinkedConcat(m, [p], [q]);
    } else {
      LinkedConcat(m, X + G, Y);
      LinkedConcat(m, X, G);
      LinkedConcat(m, [p] + G, [q]);
      LinkedConcat(m, [p], G);
    }
  }

  lemma LinkedTwo(m: Mem, p: int, q: int)
    ensures Linked(m, [p] + [] + [q]) <==> NextAt(m, p) == q && PrevAt(m, q) == p
  {
    assert [p] + [] + [q] == [p] + [q];
    LinkedConcat(m, [p], [q]);
  }

  lemma LinkedThree(m: Mem, p: int, x: int, q: int)
    ensures Linked(m, [p] + [x] + [q]) <==> Between(m, p, x, q)
  {
    LinkedConcat(m, [p] + [x], [q]);
    LinkedConcat(m, [p], [x]);
  }

  lemma GappedFirst(X: seq<int>)
    requires Gapped(X) && X != []
    ensures var p := X[|X| - 1]; p == X[0] || X[0] + HDR <= p
  {
  }

  lemma RingParts(sent: int, FA: seq<int>, G: seq<int>, FB: seq<int>, stop: int)
    ensures Ring(sent, FA + G + FB, stop) == ([sent] + FA) + G + (FB + [stop])
  {
  }

  lemma RingSplice(m: Mem, m': Mem, sent: int, stop: int,
                   FA: seq<int>, G: seq<int>, G': seq<int>, FB: seq<int>, lo: int, hi: int)
    requires Linked(m, Ring(sent, FA + G + FB, stop))
    requires lo <= hi && Gapped([sent] + FA) && Gapped(FB)
    requires forall i | 0 <= i < |[sent] + FA| :: ([sent] + FA)[i] + HDR <= lo
    requires forall i | 0 <= i < |FB| :: hi <= FB[i]
    requires stop == sent || (hi <= stop && Gapped(FB + [stop]))
    requires var p, q := ([sent] + FA)[|FA|], (FB + [stop])[0];
             Outside(m, m', lo, hi, p, q) && Linked(m', [p] + G' + [q])
    ensures Linked(m', Ring(sent, FA + G' + FB, stop))
  {
    hide Linked, Outside, Gapped, Ring;
    var X, Y := [sent] + FA, FB + [stop];
    var p, q := X[|FA|], Y[0];
    RingParts(sent, FA, G, FB, stop);
    RingParts(sent, FA, G', FB, stop);
    LinkedGlue(m, X, G, Y);
    assert Linked(m', X) by {
      assert q == X[0] || lo <= q by {
        assert FB != [] ==> q == FB[0];
      }
      FrontKept(m, m', X, lo, hi, p, q);
    }
    assert Linked(m', Y) by {
      assert Y[..|Y| - 1] == FB;
      GappedFirst(X);
      BackKept(m, m', Y, lo, hi, p, q);
    }
    LinkedGlue(m', X, G', Y);
  }

  // ---- Free lists of parts of a layout ----

  lemma FreeBelow(sent: int, A: seq<Seg>, lo: int)
    requires Chain(A) && (A != [] ==> sent + HDR <= A[0].addr) && sent + HDR <= lo
    requires forall s | s in A :: s.End() <= lo
    ensures Gapped([sent] + FreeAddrs(A))
    ensures var X := [sent] + FreeAddrs(A); forall i | 0 <= i < |X| :: X[i] + HDR <= lo
  {
    var F := FreeAddrs(A);
    FreeAddrsSorted(A);
    AllOrdered(A);
    forall x | x in F ensures x + HDR <= lo && sent + HDR <= x {
      FreeAddrsMember(A, x);
      var s :| s in A && s.kind.Free? && s.addr == x;
      assert SegWF(s) && SegWF(A[0]);
    }
    var c := [sent] + F;
    forall i, j | 0 <= i < j < |c| ensures c[i] + HDR <= c[j] {
      assert c[j] == F[j - 1] && (i > 0 ==> c[i] == F[i - 1]);
      assert F[j - 1] in F;
    }
    forall i | 0 <= i < |c| ensures c[i] + HDR <= lo {
      assert i > 0 ==> c[i] == F[i - 1] && F[i - 1] in F;
    }
  }

  lemma FreeAbove(B: seq<Seg>, hi: int)
    requires Chain(B)
    requires forall s | s in B :: hi <= s.addr
    ensures Gapped(FreeAddrs(B))
    ensures forall i | 0 <= i < |FreeAddrs(B)| :: hi <= FreeAddrs(B)[i]
  {
    FreeAddrsSorted(B);
    var F := FreeAddrs(B);
    forall i | 0 <= i < |F| ensures hi <= F[i] {
      FreeAddrsMember(B, F[i]);
    }
  }

  /** The list node before, and after, a stretch of the layout. */
  ghost function NodeBefore(sent: int, A: seq<Seg>): int {
    ([sent] + FreeAddrs(A))[|FreeAddrs(A)|]
  }

  ghost function NodeAfter(stop: int, B: seq<Seg>): int {
    (FreeAddrs(B) + [stop])[0]
  }

  lemma EndsBelow(L: seq<Seg>, s: Seg)
    requires WF(L) && s in L
    ensures s.End() <= L[|L| - 1].End() && L[0].addr <= s.addr
  {
    AllOrdered(L);
    var i :| 0 <= i < |L| && L[i] == s;
    assert SegWF(L[0]) && SegWF(L[|L| - 1]);
  }

  lemma NodesFit(sent: int, stop: int, L: seq<Seg>, x: int, s: Seg)
    requires WF(L) && SentinelOk(sent, L) && StopOk(sent, stop, L) && s in L
    requires x == sent || x == stop || x in FreeAddrs(L)
    ensures NodeFor(x, s)
  {
    if x == sent || x == stop {
      EndsBelow(L, s);
    } else {
      FreeAddrsMember(L, x);
      var t :| t in L && t.kind.Free? && t.addr == x;
      assert SegWF(t);
      if s != t {
        Disjoint(L, s, t);
      }
    }
  }

  // ---- The splice ----

  /** The free blocks above a stretch, and the stop above them. */
  lemma StopAbove(sent: int, stop: int, A: seq<Seg>, B: seq<Seg>, hi: int)
    requires WF(A + B) && StopOk(sent, stop, A + B) && (B == [] ==> stop == sent || hi <= stop)
    requires forall s | s in B :: hi <= s.addr
    ensures Gapped(FreeAddrs(B)) && forall i | 0 <= i < |FreeAddrs(B)| :: hi <= FreeAddrs(B)[i]
    ensures stop == sent || (hi <= stop && Gapped(FreeAddrs(B) + [stop]))
  {
    hide WF;
    ChainOfParts(A, B);
    FreeAbove(B, hi);
    if stop != sent {
      var F := FreeAddrs(B);
      assert B != [] ==> B[|B| - 1] in B && (A + B)[|A + B| - 1] == B[|B| - 1];
      if B != [] {
        LastEnd(B, B[|B| - 1]);
      }
      forall i | 0 <= i < |F| ensures F[i] + HDR <= stop {
        FreeAddrsMember(B, F[i]);
        var s :| s in B && s.kind.Free? && s.addr == F[i];
        LastEnd(B, s);
      }
    }
  }

  lemma ChainOfParts(A: seq<Seg>, B: seq<Seg>)
    requires WF(A + B)
    ensures Chain(A) && Chain(B)
  {
    ChainConcat(A, B);
  }

  lemma LastEnd(B: seq<Seg>, s: Seg)
    requires Chain(B) && s in B
    ensures s.End() <= B[|B| - 1].End() && s.addr < s.End()
    ensures s.kind.Free? ==> s.addr + HDR <= s.End()
  {
    AllOrdered(B);
    var i :| 0 <= i < |B| && B[i] == s;
    assert SegWF(B[i]) && SegWF(B[|B| - 1]);
  }

  lemma SpliceLinks(m: Mem, m': Mem, sent: int, stop: int,
                    A: seq<Seg>, mid: seq<Seg>, mid': seq<Seg>, B: seq<Seg>, lo: int, hi: int)
    requires WF(A + mid + B) && SentinelOk(sent, A + mid + B) && StopOk(sent, stop, A + mid + B)
    requires A != [] && lo <= hi && (B == [] ==> stop == sent || hi <= stop)
    requires Linked(m, Ring(sent, FreeAddrs(A + mid + B), stop))
    requires forall s | s in A :: s.End() <= lo
    requires forall s | s in B :: hi <= s.addr
    requires var p, q := NodeBefore(sent, A), NodeAfter(stop, B);
             && Outside(m, m', lo, hi, p, q)
             && Linked(m', [p] + FreeAddrs(mid') + [q])
    ensures Linked(m', Ring(sent, FreeAddrs(A + mid' + B), stop))
  {
    hide *;
    var FA, G, G', FB := FreeAddrs(A), FreeAddrs(mid), FreeAddrs(mid'), FreeAddrs(B);
    FreeAddrsThree(A, mid, B);
    FreeAddrsThree(A, mid', B);
    SpliceBounds(sent, stop, A, mid, B, lo, hi);
    NodesAre(sent, stop, A, B);
    RingSplice(m, m', sent, stop, FA, G, G', FB, lo, hi);
  }

  lemma NodesAre(sent: int, stop: int, A: seq<Seg>, B: seq<Seg>)
    ensures NodeBefore(sent, A) == ([sent] + FreeAddrs(A))[|FreeAddrs(A)|]
    ensures NodeAfter(stop, B) == (FreeAddrs(B) + [stop])[0]
  {
  }

  lemma FreeAddrsThree(A: seq<Seg>, mid: seq<Seg>, B: seq<Seg>)
    ensures FreeAddrs(A + mid + B) == FreeAddrs(A) + FreeAddrs(mid) + FreeAddrs(B)
  {
    FreeAddrsConcat(A + mid, B);
    FreeAddrsConcat(A, mid);
  }

  lemma SpliceBounds(sent: int, stop: int, A: seq<Seg>, mid: seq<Seg>, B: seq<Seg>, lo: int, hi: int)
    requires WF(A + mid + B) && SentinelOk(sent, A + mid + B) && StopOk(sent, stop, A + mid + B)
    requires A != [] && (B == [] ==> stop == sent || hi <= stop)
    requires forall s | s in A :: s.End() <= lo
    requires forall s | s in B :: hi <= s.addr
    ensures Gapped([sent] + FreeAddrs(A)) && Gapped(FreeAddrs(B))
    ensures forall i | 0 <= i < |[sent] + FreeAddrs(A)| :: ([sent] + FreeAddrs(A))[i] + HDR <= lo
    ensures forall i | 0 <= i < |FreeAddrs(B)| :: hi <= FreeAddrs(B)[i]
    ensures stop == sent || (hi <= stop && Gapped(FreeAddrs(B) + [stop]))
  {
    hide WF, FreeAddrs, Gapped;
    assert A + mid + B == A + (mid + B);
    FrontBelow(sent, A, mid + B, lo);
    FreeBelow(sent, A, lo);
    StopAbove(sent, stop, A + mid, B, hi);
  }

  lemma FrontBelow(sent: int, A: seq<Seg>, B: seq<Seg>, lo: int)
    requires WF(A + B) && SentinelOk(sent, A + B) && A != []
    requires forall s | s in A :: s.End() <= lo
    ensures Chain(A) && sent + HDR <= A[0].addr && sent + HDR <= lo
  {
    ChainConcat(A, B);
    assert A[0] == (A + B)[0] && A[0] in A && SegWF(A[0]);
  }

  lemma SpliceNodes(sent: int, stop: int, A: seq<Seg>, mid: seq<Seg>, B: seq<Seg>)
    requires WF(A + mid + B) && SentinelOk(sent, A + mid + B) && StopOk(sent, stop, A + mid + B)
    ensures forall s | s in A + B ::
              SegWF(s) && NodeFor(NodeBefore(sent, A), s) && NodeFor(NodeAfter(stop, B), s)
  {
    var L := A + mid + B;
    FreeAddrsConcat(A + mid, B);
    FreeAddrsConcat(A, mid);
    forall s | s in A + B
      ensures SegWF(s) && NodeFor(NodeBefore(sent, A), s) && NodeFor(NodeAfter(stop, B), s)
    {
      assert s in L;
      NodesFit(sent, stop, L, NodeBefore(sent, A), s);
      NodesFit(sent, stop, L, NodeAfter(stop, B), s);
    }
  }

  lemma SpliceTags(m: Mem, m': Mem, sent: int, stop: int, A: seq<Seg>, mid: seq<Seg>, B: seq<Seg>, lo: int, hi: int)
    requires RepTo(m, sent, stop, A + mid + B) && A != [] && (B == [] ==> stop == sent || hi <= stop)
    requires forall s | s in A :: s.End() <= lo
    requires forall s | s in B :: hi <= s.addr
    requires lo <= hi && Outside(m, m', lo, hi, NodeBefore(sent, A), NodeAfter(stop, B))
    ensures Tagged(m', A + B)
    ensures SizeAt(m', sent) == 0 && StatusAt(m', sent) == SENTINEL
  {
    hide Linked, Tagged, NodeBefore, NodeAfter;
    var p, q := NodeBefore(sent, A), NodeAfter(stop, B);
    SpliceNodes(sent, stop, A, mid, B);
    NodesAround(sent, stop, A, mid, B, lo, hi);
    TaggedParts(m, A, mid, B);
    TagsKept(m, m', A + B, lo, hi, p, q);
  }

  lemma TaggedParts(m: Mem, A: seq<Seg>, mid: seq<Seg>, B: seq<Seg>)
    requires Tagged(m, A + mid + B)
    ensures Tagged(m, A + B)
  {
  }

  /** The layout A + mid + B becomes A + mid' + B. It is enough to write, within [lo, hi), the tags
    of mid', to link its free blocks between the nodes around it, and to touch nothing else. */
  lemma SpliceRep(m: Mem, m': Mem, sent: int, stop: int,
                  A: seq<Seg>, mid: seq<Seg>, mid': seq<Seg>, B: seq<Seg>, lo: int, hi: int)
    requires RepTo(m, sent, stop, A + mid + B) && WF(A + mid' + B) && A != [] && (B == [] ==> stop == sent)
    requires lo <= hi
    requires forall s | s in A :: s.End() <= lo
    requires forall s | s in B :: hi <= s.addr
    requires var p, q := NodeBefore(sent, A), NodeAfter(stop, B);
             && Outside(m, m', lo, hi, p, q)
             && Linked(m', [p] + FreeAddrs(mid') + [q])
    requires Tagged(m', mid')
    ensures RepTo(m', sent, stop, A + mid' + B)
  {
    hide Linked, Outside, WF, FreeAddrs, NodeBefore, NodeAfter;
    var L, L' := A + mid + B, A + mid' + B;
    assert A[0] == L[0] == L'[0];
    assert B != [] ==> L[|L| - 1] == L'[|L'| - 1] == B[|B| - 1];
    SpliceTags(m, m', sent, stop, A, mid, B, lo, hi);
    SpliceLinks(m, m', sent, stop, A, mid, mid', B, lo, hi);
  }

  // ---- Reading the representation ----

  /** The list order is the layout order: a stretch's free blocks follow each other between the
    nodes around it. */
  lemma LinkedMiddle(m: Mem, sent: int, stop: int, A: seq<Seg>, mid: seq<Seg>, B: seq<Seg>)
    requires Linked(m, Ring(sent, FreeAddrs(A + mid + B), stop))
    ensures Linked(m, [NodeBefore(sent, A)] + FreeAddrs(mid) + [NodeAfter(stop, B)])
  {
    hide Linked;
    FreeAddrsConcat(A + mid, B);
    FreeAddrsConcat(A, mid);
    var X, Y := [sent] + FreeAddrs(A), FreeAddrs(B) + [stop];
    assert Ring(sent, FreeAddrs(A + mid + B), stop) == X + FreeAddrs(mid) + Y;
    LinkedGlue(m, X, FreeAddrs(mid), Y);
  }

  /** Where the nodes around a stretch can be. */
  lemma NodesAround(sent: int, stop: int, A: seq<Seg>, mid: seq<Seg>, B: seq<Seg>, lo: int, hi: int)
    requires WF(A + mid + B) && SentinelOk(sent, A + mid + B) && StopOk(sent, stop, A + mid + B)
    requires A != [] && lo <= hi && (B == [] ==> stop == sent || hi <= stop)
    requires forall s | s in A :: s.End() <= lo
    requires forall s | s in B :: hi <= s.addr
    ensures Around(sent, NodeBefore(sent, A), NodeAfter(stop, B), lo, hi)
    ensures stop != sent ==> NodeAfter(stop, B) != sent
    ensures NodeAfter(stop, B) == stop || (B != [] && NodeAfter(stop, B) + HDR <= B[|B| - 1].End())
  {
    hide WF, FreeAddrs, Gapped, NodeBefore, NodeAfter;
    assert A + mid + B == A + (mid + B);
    FrontBelow(sent, A, mid + B, lo);
    FreeBelow(sent, A, lo);
    StopAbove(sent, stop, A + mid, B, hi);
    FrontNode(sent, A, lo);
    BackNode(stop, B);
    AlignedNodes(sent, stop, A, mid, B);
    if FreeAddrs(B) != [] {
      ChainOfParts(A + mid, B);
      FreeNodeBelow(B, NodeAfter(stop, B));
    }
  }

  lemma FrontNode(sent: int, A: seq<Seg>, lo: int)
    requires var X := [sent] + FreeAddrs(A); Gapped(X) && forall i | 0 <= i < |X| :: X[i] + HDR <= lo
    ensures var p := NodeBefore(sent, A); p + HDR <= lo && (p == sent || sent + HDR <= p)
  {
    hide FreeAddrs, Gapped;
    var X := [sent] + FreeAddrs(A);
    GappedFirst(X);
    assert X[0] == sent && X[|X| - 1] == X[|FreeAddrs(A)|] == NodeBefore(sent, A);
  }

  lemma BackNode(stop: int, B: seq<Seg>)
    ensures NodeAfter(stop, B) == if FreeAddrs(B) == [] then stop else FreeAddrs(B)[0]
  {
  }

  lemma FreeNodeBelow(B: seq<Seg>, x: int)
    requires Chain(B) && x in FreeAddrs(B)
    ensures B != [] && x + HDR <= B[|B| - 1].End()
  {
    FreeAddrsMember(B, x);
    var s :| s in B && s.kind.Free? && s.addr == x;
    LastEnd(B, s);
  }

  lemma AlignedNodes(sent: int, stop: int, A: seq<Seg>, mid: seq<Seg>, B: seq<Seg>)
    requires WF(A + mid + B) && SentinelOk(sent, A + mid + B) && StopOk(sent, stop, A + mid + B)
    ensures NodeBefore(sent, A) % 8 == 0 && NodeAfter(stop, B) % 8 == 0
  {
    hide WF;
    ChainOfParts(A + mid, B);
    ChainConcat(A, mid);
    FreeAddrsAligned(A);
    FreeAddrsAligned(B);
  }

  lemma FreeAddrsAligned(L: seq<Seg>)
    requires Chain(L)
    ensures forall i | 0 <= i < |FreeAddrs(L)| :: FreeAddrs(L)[i] % 8 == 0
  {
    var F := FreeAddrs(L);
    forall i | 0 <= i < |F| ensures F[i] % 8 == 0 {
      FreeAddrsMember(L, F[i]);
      var j :| 0 <= j < |L| && L[j].kind.Free? && L[j].addr == F[i];
      assert SegWF(L[j]);
    }
  }

  // ---- Payloads ----

  ghost predicate Untouched(m: Mem, m': Mem, s: Seg) {
    forall w | s.addr + HDR <= w < s.End() - FTR :: Get(m', w) == Get(m, w)
  }

  /** No payload word of the given blocks has changed. */
  ghost predicate Kept(m: Mem, m': Mem, S: set<Seg>) {
    forall s | s in S :: Untouched(m, m', s)
  }

  lemma SplicePayload(m: Mem, m': Mem, sent: int, stop: int,
                      A: seq<Seg>, mid: seq<Seg>, B: seq<Seg>, lo: int, hi: int)
    requires WF(A + mid + B) && SentinelOk(sent, A + mid + B) && StopOk(sent, stop, A + mid + B)
    requires forall s | s in A :: s.End() <= lo
    requires forall s | s in B :: hi <= s.addr
    requires Outside(m, m', lo, hi, NodeBefore(sent, A), NodeAfter(stop, B))
    ensures Kept(m, m', Live(A + B))
  {
    SpliceNodes(sent, stop, A, mid, B);
    forall s | s in Live(A + B) ensures Untouched(m, m', s) {
      assert s in A + B;
    }
  }

  lemma Cut(L: seq<Seg>, i: nat, j: nat)
    requires WF(L) && 0 < i < j < |L|
    ensures L == L[..i] + L[i..j] + L[j..] && L[..i] != []
    ensures forall s | s in L[..i] :: s.End() <= L[i].addr
    ensures forall s | s in L[j..] :: L[j - 1].End() <= s.addr
    ensures L[i].End() <= L[j - 1].End() && L[i].addr <= L[j - 1].addr
    ensures forall k | i <= k < j :: SegWF(L[k])
  {
    AllOrdered(L);
    assert SegWF(L[i]) && SegWF(L[j - 1]);
  }

  /** All an operation needs to know about the stretch L[i..j] it works on. */
  lemma Stretch(m: Mem, sent: int, stop: int, L: seq<Seg>, i: nat, j: nat)
    requires RepTo(m, sent, stop, L) && 0 < i < j < |L|
    ensures L == L[..i] + L[i..j] + L[j..] && L[..i] != []
    ensures forall s | s in L[..i] :: s.End() <= L[i].addr
    ensures forall s | s in L[j..] :: L[j - 1].End() <= s.addr
    ensures forall k | i <= k < j :: SegWF(L[k]) && SegRep(m, L[k])
    ensures var p, q, lo, hi := NodeBefore(sent, L[..i]), NodeAfter(stop, L[j..]), L[i].addr, L[j - 1].End();
            && Linked(m, [p] + FreeAddrs(L[i..j]) + [q])
            && lo < hi && Around(sent, p, q, lo, hi) && (stop != sent ==> q != sent)
            && (q == stop || q + HDR <= L[|L| - 1].End())
  {
    hide Linked, Tagged, WF, FreeAddrs, NodeBefore, NodeAfter, SegRep, SegWF;
    Cut(L, i, j);
    SegLen(L[j - 1]);
    LinkedMiddle(m, sent, stop, L[..i], L[i..j], L[j..]);
    NodesAround(sent, stop, L[..i], L[i..j], L[j..], L[i].addr, L[j - 1].End());
    AllTagged(m, L);
    assert L[j..][|L[j..]| - 1] == L[|L| - 1];
  }

  lemma AllTagged(m: Mem, L: seq<Seg>)
    requires Tagged(m, L)
    ensures forall k | 0 <= k < |L| :: SegRep(m, L[k])
  {
  }

  lemma SegLen(s: Seg)
    requires SegWF(s)
    ensures s.addr < s.End()
  {
  }
}
