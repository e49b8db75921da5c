/** What malloc and free do to the layout of the heap, and the laws this obeys over whole runs. */
module HeapPolicy {
  import opened HeapLayout

  // MINIMUM_SIZE plus header and footer: the least remainder worth splitting off.
  const MIN_SPLIT: int := 8 + HDR + FTR
  const SIZE_MOD: int := 0x1_0000_0000_0000_0000

  // ---- Request sizes ----

  function AtLeastMinimum(size: nat): nat { if size < 8 then 8 else size }

  /** The block size for a request. */
  function Rounded(size: nat): int {
    (AtLeastMinimum(size) + HDR + FTR + 7) / 8 * 8
  }

  /** The same computation in 64-bit size_t arithmetic; the mask clears the three low bits. */
  function RoundedSizeT(size: nat): int {
    (AtLeastMinimum(size) + HDR + FTR + 7) % SIZE_MOD / 8 * 8
  }

  /** The rounded size is the least multiple of 8 that holds header, footer and the request, and no
    less than 8 bytes besides; it fits a chunk exactly when the request fits the arena. */
  lemma RoundedIsLeast(size: nat)
    ensures Rounded(size) % 8 == 0 && Rounded(size) >= MIN_SPLIT
    ensures size + HDR + FTR <= Rounded(size) && 8 + HDR + FTR <= Rounded(size)
    ensures forall k | k % 8 == 0 && size + HDR + FTR <= k && 8 + HDR + FTR <= k :: Rounded(size) <= k
    ensures Rounded(size) <= BLOCK <==> size <= ARENA
  {
    forall k | k % 8 == 0 && size + HDR + FTR <= k && 8 + HDR + FTR <= k ensures Rounded(size) <= k {
      assert k == k / 8 * 8;
    }
  }

  /** size_t arithmetic gives that size exactly for the requests whose sum does not wrap. */
  lemma RoundingWithoutWrap(size: nat)
    requires size < 0x1_0000_0000_0000_0000
    ensures RoundedSizeT(size) == Rounded(size) <==> size + HDR + FTR + 7 < 0x1_0000_0000_0000_0000
  {
  }

  /** No request at all could be served from d bytes. */
  ghost predicate Useless(d: int) {
    forall size: nat :: d < Rounded(size)
  }

  lemma UselessWhen(d: int)
    ensures Useless(d) <==> d < MIN_SPLIT
  {
    assert Rounded(0) == MIN_SPLIT;
    if d < MIN_SPLIT {
      forall size: nat ensures d < Rounded(size) {
        RoundedIsLeast(size);
      }
    }
  }

  // ---- Specification of one request ----

  /** Index of the first free block of at least n bytes, or |L|. */
  function FirstFit(L: seq<Seg>, n: int): (i: nat)
    ensures i <= |L|
    ensures forall j | 0 <= j < i :: !(L[j].kind.Free? && n <= L[j].len)
    ensures i < |L| ==> L[i].kind.Free? && n <= L[i].len
  {
    if L == [] then 0
    else if L[0].kind.Free? && n <= L[0].len then 0
    else 1 + FirstFit(L[1..], n)
  }

  /** The block handed out when the free block x serves n bytes: all of x unless the remainder can
    hold a minimal object. */
  function Taken(x: Seg, n: int): Seg {
    if x.len - n < MIN_SPLIT then x.(kind := Used) else x.(len := n, kind := Used)
  }

  function TakenParts(x: Seg, n: int): seq<Seg> {
    if x.len - n < MIN_SPLIT then [Taken(x, n)]
    else [Taken(x, n), x.(addr := x.addr + n, len := x.len - n)]
  }

  function TakeAt(L: seq<Seg>, i: nat, n: int): seq<Seg>
    requires i < |L|
  {
    L[..i] + TakenParts(L[i], n) + L[i + 1..]
  }

  /** A new chunk whose first block serves n bytes. */
  function FreshBlock(os: int, n: int): Seg { Seg(os, os + FTR, n, Used) }

  function FreshChunk(os: int, n: int): seq<Seg> {
    [Seg(os, os, FTR, StartPost), FreshBlock(os, n)]
    + (if n < BLOCK then [Seg(os, os + FTR + n, BLOCK - n, Free)] else [])
    + [Seg(os, os + FTR + BLOCK, HDR, EndPost)]
  }

  /** A chunk that is one free block. */
  function WholeChunk(os: int): seq<Seg> {
    [Seg(os, os, FTR, StartPost), Seg(os, os + FTR, BLOCK, Free), Seg(os, os + FTR + BLOCK, HDR, EndPost)]
  }

  /** The stretch of segments that freeing block i merges: itself and its free neighbours. */
  function MergeLo(L: seq<Seg>, i: nat): nat
    requires 0 < i < |L|
  {
    if L[i - 1].kind.Free? then i - 1 else i
  }

  function MergeHi(L: seq<Seg>, i: nat): nat
    requires i + 1 < |L|
  {
    if L[i + 1].kind.Free? then i + 2 else i + 1
  }

  function Merged(L: seq<Seg>, i: nat): Seg
    requires 0 < i < |L| - 1
  {
    var x := L[MergeLo(L, i)];
    Seg(x.base, x.addr, L[MergeHi(L, i) - 1].End() - x.addr, Free)
  }

  function FreeAt(L: seq<Seg>, i: nat): seq<Seg>
    requires 0 < i < |L| - 1
  {
    L[..MergeLo(L, i)] + [Merged(L, i)] + L[MergeHi(L, i)..]
  }

  /** Where the break may be when the next chunk is asked for: aligned, past every chunk so far. */
  predicate BreakOk(L: seq<Seg>, os: int) {
    os % 8 == 0 && (L != [] ==> L[|L| - 1].End() <= os)
  }

  /** A new chunk can be cut after n bytes: nothing is left over, or room for a header and a
    footer. */
  predicate CutOk(n: int) {
    n == BLOCK || n + MIN_BLOCK <= BLOCK
  }

  // ---- Each request keeps the layout well formed ----

  /** Replacing a stretch inside a chunk by another one that fits its surroundings. */
  lemma Replace(A: seq<Seg>, mid: seq<Seg>, mid': seq<Seg>, B: seq<Seg>)
    requires WF(A + mid + B) && A != [] && B != [] && mid != [] && mid' != []
    requires Chain(mid') && Follows(A[|A| - 1], mid'[0]) && Follows(mid'[|mid'| - 1], B[0])
    requires Bases(mid) == Bases(mid') == {}
    ensures WF(A + mid' + B)
    ensures Live(A + mid' + B) == Live(A) + Live(mid') + Live(B)
    ensures Live(A + mid + B) == Live(A) + Live(mid) + Live(B)
    ensures Bases(A + mid' + B) == Bases(A + mid + B)
  {
    ChainConcat(A + mid, B);
    ChainConcat(A, mid);
    ChainConcat(A, mid');
    ChainConcat(A + mid', B);
    LiveConcat(A + mid, B);
    LiveConcat(A, mid);
    LiveConcat(A + mid', B);
    LiveConcat(A, mid');
  }

  lemma ReplaceOne(A: seq<Seg>, mid: seq<Seg>, g: Seg, B: seq<Seg>)
    requires WF(A + mid + B) && A != [] && B != [] && mid != [] && Bases(mid) == {}
    requires SegWF(g) && g.kind.Free? && Follows(A[|A| - 1], g) && Follows(g, B[0])
    ensures WF(A + [g] + B)
    ensures Live(A + [g] + B) == Live(A) + Live(B)
    ensures Live(A + mid + B) == Live(A) + Live(mid) + Live(B)
    ensures Bases(A + [g] + B) == Bases(A + mid + B)
  {
    assert Live([g]) == {} && Bases([g]) == {};
    Replace(A, mid, [g], B);
  }

  /** A block has a neighbour on each side. */
  lemma BlockInside(L: seq<Seg>, i: nat)
    requires WF(L) && i < |L| && L[i].Block()
    ensures 0 < i < |L| - 1
    ensures Follows(L[i - 1], L[i]) && Follows(L[i], L[i + 1])
  {
  }

  /** A segment occurs once. */
  lemma OccursOnce(L: seq<Seg>, i: nat, s: Seg)
    requires Chain(L) && i < |L| && s.addr == L[i].addr
    ensures s !in L[..i] && s !in L[i + 1..]
  {
    AllOrdered(L);
    assert forall j | 0 <= j < |L| :: SegWF(L[j]);
  }

  lemma TakenPartsOk(before: Seg, x: Seg, after: Seg, n: int)
    requires SegWF(x) && x.kind.Free? && Follows(before, x) && Follows(x, after)
    requires n % 8 == 0 && MIN_BLOCK <= n <= x.len
    ensures var mid' := TakenParts(x, n);
            && Chain(mid') && Follows(before, mid'[0]) && Follows(mid'[|mid'| - 1], after)
            && Live(mid') == {Taken(x, n)} && Bases(mid') == {}
  {
    hide SegWF, Follows;
    var t := Taken(x, n);
    TakenSegs(before, x, after, n);
    if x.len - n < MIN_SPLIT {
      assert TakenParts(x, n) == [t];
      OnePart(t);
    } else {
      var u := x.(addr := x.addr + n, len := x.len - n);
      assert TakenParts(x, n) == [t, u];
      TwoParts(t, u);
    }
  }

  lemma TakenSegs(before: Seg, x: Seg, after: Seg, n: int)
    requires SegWF(x) && x.kind.Free? && Follows(before, x) && Follows(x, after)
    requires n % 8 == 0 && MIN_BLOCK <= n <= x.len
    ensures var t, u := Taken(x, n), x.(addr := x.addr + n, len := x.len - n);
            && SegWF(t) && Follows(before, t)
            && if x.len - n < MIN_SPLIT then Follows(t, after) else SegWF(u) && Follows(t, u) && Follows(u, after)
  {
  }

  lemma OnePart(t: Seg)
    requires SegWF(t) && t.kind.Used?
    ensures Chain([t]) && Live([t]) == {t} && Bases([t]) == {}
  {
  }

  lemma TwoParts(t: Seg, u: Seg)
    requires SegWF(t) && SegWF(u) && Follows(t, u) && t.kind.Used? && u.kind.Free?
    ensures Chain([t, u]) && Live([t, u]) == {t} && Bases([t, u]) == {}
  {
    assert [t, u][0] == t;
  }

  /** Allocation adds one live block and keeps the heap well formed. */
  lemma TakeKeeps(L: seq<Seg>, i: nat, n: int)
    requires WF(L) && i < |L| && L[i].kind.Free?
    requires n % 8 == 0 && MIN_BLOCK <= n <= L[i].len
    ensures WF(TakeAt(L, i, n))
    ensures Live(TakeAt(L, i, n)) == Live(L) + {Taken(L[i], n)} && Taken(L[i], n) !in Live(L)
    ensures Bases(TakeAt(L, i, n)) == Bases(L)
    ensures Taken(L[i], n) == Seg(L[i].base, L[i].addr, if Useless(L[i].len - n) then L[i].len else n, Used)
  {
    UselessWhen(L[i].len - n);
    BlockInside(L, i);
    TakenPartsOk(L[i - 1], L[i], L[i + 1], n);
    var A, mid, B := L[..i], [L[i]], L[i + 1..];
    assert L == A + mid + B;
    assert Live(mid) == {} && Bases(mid) == {};
    Replace(A, mid, TakenParts(L[i], n), B);
    OccursOnce(L, i, Taken(L[i], n));
  }

  /** The stretch that is merged lies strictly inside the layout and its outer neighbours are not
    free. */
  lemma MergeBounds(L: seq<Seg>, i: nat)
    requires WF(L) && i < |L| && L[i].kind.Used?
    ensures 0 < i < |L| - 1
    ensures 0 < MergeLo(L, i) < MergeHi(L, i) < |L|
    ensures !L[MergeLo(L, i) - 1].kind.Free? && !L[MergeHi(L, i)].kind.Free?
    ensures Follows(L[MergeLo(L, i) - 1], L[MergeLo(L, i)])
    ensures Follows(L[MergeHi(L, i) - 1], L[MergeHi(L, i)])
    ensures L[MergeLo(L, i)].Block() && L[MergeLo(L, i)].base == L[i].base
    ensures L[MergeHi(L, i) - 1].Block() && L[MergeHi(L, i) - 1].base == L[i].base
  {
    BlockInside(L, i);
    BlockInside(L, MergeLo(L, i));
    BlockInside(L, MergeHi(L, i) - 1);
  }

  /** A stretch of blocks from x to y, made one free block. */
  lemma Span(before: Seg, x: Seg, y: Seg, after: Seg)
    requires SegWF(x) && SegWF(y) && x.Block() && y.Block() && x.base == y.base
    requires x == y || x.End() <= y.addr
    requires Follows(before, x) && Follows(y, after) && !before.kind.Free? && !after.kind.Free?
    ensures var g := Seg(x.base, x.addr, y.End() - x.addr, Free);
            SegWF(g) && Follows(before, g) && Follows(g, after)
  {
  }

  lemma MergedOk(L: seq<Seg>, i: nat)
    requires WF(L) && i < |L| && L[i].kind.Used?
    ensures 0 < i < |L| - 1
    ensures 0 < MergeLo(L, i) < MergeHi(L, i) < |L|
    ensures SegWF(Merged(L, i))
    ensures Follows(L[MergeLo(L, i) - 1], Merged(L, i)) && Follows(Merged(L, i), L[MergeHi(L, i)])
  {
    MergeBounds(L, i);
    var l, r := MergeLo(L, i), MergeHi(L, i);
    assert SegWF(L[l]) && SegWF(L[r - 1]);
    if l < r - 1 {
      Ordered(L, l, r - 1);
    }
    Span(L[l - 1], L[l], L[r - 1], L[r]);
  }

  /** Of the merged stretch only block i is live. */
  lemma MergedLive(L: seq<Seg>, i: nat)
    requires WF(L) && i < |L| && L[i].kind.Used?
    ensures 0 < i < |L| - 1
    ensures Live(L[MergeLo(L, i)..MergeHi(L, i)]) == {L[i]}
    ensures Bases(L[MergeLo(L, i)..MergeHi(L, i)]) == {}
  {
    BlockInside(L, i);
    var l, r := MergeLo(L, i), MergeHi(L, i);
    assert L[i] == L[l..r][i - l];
  }

  /** The layout around the blocks that freeing block i merges. */
  lemma MergeParts(L: seq<Seg>, i: nat) returns (A: seq<Seg>, mid: seq<Seg>, B: seq<Seg>)
    requires WF(L) && i < |L| && L[i].kind.Used?
    ensures 0 < i < |L| - 1
    ensures L == A + mid + B && A != [] && mid != [] && B != []
    ensures FreeAt(L, i) == A + [Merged(L, i)] + B
    ensures |A| == MergeLo(L, i) && |A| + |mid| == MergeHi(L, i)
    ensures L[i] !in A && L[i] !in B
  {
    hide WF, Chain;
    MergeBounds(L, i);
    var l, r := MergeLo(L, i), MergeHi(L, i);
    A, mid, B := L[..l], L[l..r], L[r..];
    ChainOf(L);
    OccursOnce(L, i, L[i]);
    NotOutside(L, l, i, r);
  }

  lemma ChainOf(L: seq<Seg>)
    requires WF(L)
    ensures Chain(L)
  {
  }

  lemma NotOutside(L: seq<Seg>, l: nat, i: nat, r: nat)
    requires l <= i < r <= |L| && L[i] !in L[..i] && L[i] !in L[i + 1..]
    ensures L[i] !in L[..l] && L[i] !in L[r..]
  {
    assert L[..i] == L[..l] + L[l..i];
    assert L[i + 1..] == L[i + 1..r] + L[r..];
  }

  /** Freeing removes one live block and keeps the heap well formed; in particular no two neighbours
    are both free afterwards. */
  lemma FreeKeeps(L: seq<Seg>, i: nat)
    requires WF(L) && i < |L| && L[i].kind.Used?
    ensures 0 < i < |L| - 1
    ensures WF(FreeAt(L, i))
    ensures Live(FreeAt(L, i)) == Live(L) - {L[i]}
    ensures Bases(FreeAt(L, i)) == Bases(L)
  {
    var A, mid, B := MergeParts(L, i);
    MergedOk(L, i);
    MergedLive(L, i);
    assert mid == L[MergeLo(L, i)..MergeHi(L, i)];
    assert A[|A| - 1] == L[MergeLo(L, i) - 1] && B[0] == L[MergeHi(L, i)];
    ReplaceOne(A, mid, Merged(L, i), B);
  }

  /** Growth appends a chunk. */
  lemma AppendKeeps(L: seq<Seg>, os: int, C: seq<Seg>)
    requires WF(L) && BreakOk(L, os)
    requires WF(C) && C != [] && C[0].base == os
    ensures WF(L + C) && Live(L + C) == Live(L) + Live(C) && Bases(L + C) == Bases(L) + Bases(C)
  {
    if L != [] {
      assert SegWF(L[|L| - 1]) && SegWF(C[0]);
    }
    ChainConcat(L, C);
    LiveConcat(L, C);
  }

  lemma FreshChunkWF(os: int, n: int)
    requires os % 8 == 0 && n % 8 == 0 && MIN_BLOCK <= n <= BLOCK && CutOk(n)
    ensures WF(FreshChunk(os, n))
    ensures Live(FreshChunk(os, n)) == {FreshBlock(os, n)} && Bases(FreshChunk(os, n)) == {os}
  {
    var a, b, d := Seg(os, os, FTR, StartPost), FreshBlock(os, n), Seg(os, os + FTR + BLOCK, HDR, EndPost);
    if n < BLOCK {
      var c := Seg(os, os + FTR + n, BLOCK - n, Free);
      FourSegs(a, b, c, d);
      assert FreshChunk(os, n) == [a, b, c, d];
    } else {
      ThreeSegs(a, b, d);
      assert FreshChunk(os, n) == [a, b, d];
    }
  }

  lemma ThreeSegs(a: Seg, b: Seg, d: Seg)
    requires SegWF(a) && SegWF(b) && SegWF(d) && Follows(a, b) && Follows(b, d)
    requires a.kind.StartPost? && b.Block() && d.kind.EndPost?
    ensures WF([a, b, d]) && Bases([a, b, d]) == {a.base} && Live([a, b, d]) == if b.kind.Used? then {b} else {}
  {
    var C := [a, b, d];
    assert C[0] == a && C[1] == b;
  }

  lemma FourSegs(a: Seg, b: Seg, c: Seg, d: Seg)
    requires SegWF(a) && SegWF(b) && SegWF(c) && SegWF(d)
    requires Follows(a, b) && Follows(b, c) && Follows(c, d)
    requires a.kind.StartPost? && b.kind.Used? && c.kind.Free? && d.kind.EndPost?
    ensures WF([a, b, c, d]) && Bases([a, b, c, d]) == {a.base} && Live([a, b, c, d]) == {b}
  {
    var C := [a, b, c, d];
    assert C[0] == a && C[1] == b;
  }

  lemma WholeChunkWF(os: int)
    requires os % 8 == 0
    ensures WF(WholeChunk(os)) && Live(WholeChunk(os)) == {} && Bases(WholeChunk(os)) == {os}
    ensures FreeAddrs(WholeChunk(os)) == [os + FTR]
  {
    var C := WholeChunk(os);
    assert C[0].kind.StartPost?;
    assert C == [C[0]] + [C[1]] + [C[2]];
    FreeAddrsConcat([C[0]] + [C[1]], [C[2]]);
    FreeAddrsConcat([C[0]], [C[1]]);
  }

  /** A live block is not in a chunk that is yet to come. */
  lemma BelowBreak(L: seq<Seg>, os: int, s: Seg)
    requires WF(L) && BreakOk(L, os) && s in L
    ensures s.End() <= os
  {
    var i :| 0 <= i < |L| && L[i] == s;
    if i < |L| - 1 {
      Ordered(L, i, |L| - 1);
      assert SegWF(L[|L| - 1]);
    }
  }

  /** The break may be at any aligned address that is past all the memory obtained so far. */
  lemma BreakOkWhen(L: seq<Seg>, os: int)
    requires WF(L)
    ensures BreakOk(L, os) <==> os % 8 == 0 && forall s | s in L :: s.End() <= os
  {
    if BreakOk(L, os) {
      forall s | s in L ensures s.End() <= os {
        BelowBreak(L, os, s);
      }
    }
  }

  // ---- One request on the whole layout ----

  /** ptr is what malloc returned for a block that is still live. */
  ghost predicate IsLive(L: seq<Seg>, ptr: int) {
    exists s :: s in Live(L) && s.addr + HDR == ptr
  }

  ghost function LiveIndex(L: seq<Seg>, ptr: int): (i: nat)
    requires IsLive(L, ptr)
    ensures i < |L| && L[i].kind.Used? && L[i].addr + HDR == ptr
  {
    var s :| s in Live(L) && s.addr + HDR == ptr;
    var i :| 0 <= i < |L| && L[i] == s;
    i
  }

  lemma LiveIndexIs(L: seq<Seg>, ptr: int, i: nat)
    requires Chain(L) && i < |L| && L[i].kind.Used? && L[i].addr + HDR == ptr
    ensures IsLive(L, ptr) && LiveIndex(L, ptr) == i
  {
    assert L[i] in Live(L);
    AllOrdered(L);
    assert SegWF(L[i]) && SegWF(L[LiveIndex(L, ptr)]);
  }

  ghost function FreePtr(L: seq<Seg>, ptr: int): seq<Seg>
    requires WF(L) && IsLive(L, ptr)
  {
    BlockInside(L, LiveIndex(L, ptr));
    FreeAt(L, LiveIndex(L, ptr))
  }

  /** The first fit is what its defining property says. */
  lemma {:induction false} FirstFitIs(L: seq<Seg>, n: int, i: nat)
    requires i <= |L|
    requires forall j | 0 <= j < i :: !(L[j].kind.Free? && n <= L[j].len)
    requires i < |L| ==> L[i].kind.Free? && n <= L[i].len
    ensures FirstFit(L, n) == i
  {
  }

  /** malloc(size), when the OS would place a new chunk at os. */
  function MallocLayout(L: seq<Seg>, size: nat, os: int): seq<Seg> {
    var n := Rounded(size);
    var i := FirstFit(L, n);
    if n > BLOCK then L
    else if i < |L| then TakeAt(L, i, n)
    else L + FreshChunk(os, n)
  }

  /** The block malloc(size) hands out, if it hands out one. */
  function MallocBlock(L: seq<Seg>, size: nat, os: int): Seg {
    var n := Rounded(size);
    var i := FirstFit(L, n);
    if i < |L| then Taken(L[i], n) else FreshBlock(os, n)
  }

  /** The heap has to grow for the request. */
  predicate Grows(L: seq<Seg>, size: nat) {
    size <= ARENA && FirstFit(L, Rounded(size)) == |L|
  }

  /** The chunks after the request. */
  ghost function BasesAfter(L: seq<Seg>, size: nat, os: int): set<int> {
    Bases(L) + if Grows(L, size) then {os} else {}
  }

  /** The request is served without growing the heap, or by a chunk that can be cut. */
  predicate CutFits(L: seq<Seg>, size: nat) {
    Grows(L, size) ==> CutOk(Rounded(size))
  }

  /** Growth has no minimum-remainder check. The requests it cannot cut are a window of 40 sizes just
    below the arena size, when no free block fits them. */
  lemma CutFitsUnlessInWindow(L: seq<Seg>, size: nat)
    ensures CutFits(L, size) <==>
              !(2097105 <= size <= 2097144 && FirstFit(L, Rounded(size)) == |L|)
  {
    RoundedIsLeast(size);
    assert Rounded(size) == (AtLeastMinimum(size) + 55) / 8 * 8;
  }

  /** The window is reached: a second request of ARENA - 8 bytes, after one that used up the first
    chunk. */
  lemma WindowReached(os: int, os': int)
    requires os % 8 == 0 && BreakOk(WholeChunk(os), os')
    ensures var L := MallocLayout(WholeChunk(os), ARENA, os');
            CutFits(WholeChunk(os), ARENA) && BreakOk(L, os') && !CutFits(L, ARENA - 8)
  {
    var W := WholeChunk(os);
    FirstFitIs(W, BLOCK, 1);
    assert Rounded(ARENA) == BLOCK && Rounded(ARENA - 8) == BLOCK - 8;
    var L := MallocLayout(W, ARENA, os');
    assert L == [W[0], W[1].(kind := Used), W[2]];
    FirstFitIs(L, BLOCK - 8, 3);
  }
}
