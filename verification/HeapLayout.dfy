/** The physical layout of the heap: every byte the allocator got from the OS, as one sequence of
  segments in address order.

  A chunk is a start fencepost (a footer), blocks that tile the arena, and an end fencepost (a
  header). Well-formedness is local: it speaks of single segments and of consecutive ones. */
module HeapLayout {
  // sizeof(object_header), sizeof(object_footer) on 64 bit, and the arena asked of the OS.
  const HDR: int := 32
  const FTR: int := 16
  const ARENA: int := 2097152
  // A block that fills a chunk, and the chunk around it.
  const BLOCK: int := ARENA + HDR + FTR
  const CHUNK: int := ARENA + 2 * HDR + 2 * FTR
  // The least block: a header and a footer that do not overlap.
  const MIN_BLOCK: int := HDR + FTR

  datatype Kind = StartPost | Free | Used | EndPost

  /** A segment: base is the first address of its chunk, [addr, addr + len) the bytes it covers. */
  datatype Seg = Seg(base: int, addr: int, len: int, kind: Kind) {
    function End(): int { addr + len }
    predicate Block() { kind.Free? || kind.Used? }
  }

  predicate SegWF(s: Seg) {
    && s.base % 8 == 0
    && match s.kind
       case StartPost => s.addr == s.base && s.len == FTR
       case EndPost => s.addr == s.base + FTR + BLOCK && s.len == HDR
       case _ =>
         && s.addr % 8 == 0 && s.len % 8 == 0 && s.len >= MIN_BLOCK
         && s.base + FTR <= s.addr && s.End() <= s.base + FTR + BLOCK
  }

  /** t may come right after s: contiguous within a chunk, never two free neighbours, and the next
    chunk anywhere above the previous one. */
  predicate Follows(s: Seg, t: Seg) {
    if s.kind.EndPost? then t.kind.StartPost? && s.base + CHUNK <= t.base
    else
      && t.base == s.base && t.addr == s.End() && !t.kind.StartPost?
      && !(s.kind.Free? && t.kind.Free?)
  }

  ghost predicate Chain(L: seq<Seg>) {
    && (forall i | 0 <= i < |L| :: SegWF(L[i]))
    && (forall i, j | 0 <= i < j < |L| && j == i + 1 :: Follows(L[i], L[j]))
  }

  ghost predicate WF(L: seq<Seg>) {
    && Chain(L)
    && (L != [] ==> L[0].kind.StartPost? && L[|L| - 1].kind.EndPost?)
  }

  /** The live blocks of a layout. */
  ghost function Live(L: seq<Seg>): set<Seg> {
    set s | s in L && s.kind.Used?
  }

  /** The chunks of a layout, by base address. */
  ghost function Bases(L: seq<Seg>): set<int> {
    set s | s in L && s.kind.StartPost? :: s.base
  }

  /** The addresses of the free blocks, in layout order. */
  ghost function FreeAddrs(L: seq<Seg>): seq<int> {
    if L == [] then []
    else (if L[0].kind.Free? then [L[0].addr] else []) + FreeAddrs(L[1..])
  }

  /** Total size of the blocks, fenceposts not counted. */
  ghost function BlockBytes(L: seq<Seg>): int {
    if L == [] then 0
    else BlockBytes(L[..|L| - 1]) + if L[|L| - 1].Block() then L[|L| - 1].len else 0
  }

  ghost function NumChunks(L: seq<Seg>): nat {
    if L == [] then 0
    else NumChunks(L[..|L| - 1]) + if L[|L| - 1].kind.StartPost? then 1 else 0
  }

  // ---- Chains and order ----

  lemma ChainConcat(a: seq<Seg>, b: seq<Seg>)
    ensures Chain(a + b) <==>
              Chain(a) && Chain(b) && (a != [] && b != [] ==> Follows(a[|a| - 1], b[0]))
  {
    var c := a + b;
    assert forall i | 0 <= i < |a| :: a[i] == c[i];
    assert forall i | 0 <= i < |b| :: b[i] == c[|a| + i];
    if Chain(c) && a != [] && b != [] {
      assert Follows(c[|a| - 1], c[|a|]);
    }
    if Chain(c) {
      forall i, j | 0 <= i < j < |b| && j == i + 1 ensures Follows(b[i], b[j]) {
        assert Follows(c[|a| + i], c[|a| + j]);
      }
    }
  }

  /** Segments lie in increasing order without overlap. */
  lemma {:induction false} Ordered(L: seq<Seg>, i: nat, j: nat)
    requires Chain(L) && i < j < |L|
    ensures L[i].End() <= L[j].addr
    decreases j - i
  {
    assert Follows(L[i], L[i + 1]);
    if i + 1 < j {
      Ordered(L, i + 1, j);
      assert L[i + 1].len > 0;
    }
  }

  lemma AllOrdered(L: seq<Seg>)
    requires Chain(L)
    ensures forall i, j | 0 <= i < j < |L| :: L[i].End() <= L[j].addr
  {
    forall i, j | 0 <= i < j < |L| ensures L[i].End() <= L[j].addr {
      Ordered(L, i, j);
    }
  }

  /** Two segments of a layout are the same one, or disjoint. */
  lemma Disjoint(L: seq<Seg>, s: Seg, t: Seg)
    requires Chain(L) && s in L && t in L && s != t
    ensures s.End() <= t.addr || t.End() <= s.addr
  {
    AllOrdered(L);
  }

  // ---- Concatenation ----

  lemma FreeAddrsStep(L: seq<Seg>)
    ensures L == [] ==> FreeAddrs(L) == []
    ensures L != [] ==> FreeAddrs(L) == (if L[0].kind.Free? then [L[0].addr] else []) + FreeAddrs(L[1..])
  {
  }

  lemma {:induction false} FreeAddrsConcat(a: seq<Seg>, b: seq<Seg>)
    ensures FreeAddrs(a + b) == FreeAddrs(a) + FreeAddrs(b)
  {
    hide FreeAddrs;
    var c := a + b;
    FreeAddrsStep(a);
    FreeAddrsStep(c);
    if a == [] {
      assert c == b;
    } else {
      assert c[0] == a[0] && c[1..] == a[1..] + b;
      FreeAddrsConcat(a[1..], b);
    }
  }

  /** The list of free addresses names exactly the free segments. */
  lemma {:induction false} FreeAddrsMember(L: seq<Seg>, x: int)
    ensures x in FreeAddrs(L) <==> exists s :: s in L && s.kind.Free? && s.addr == x
  {
    if L != [] {
      FreeAddrsMember(L[1..], x);
      assert L == [L[0]] + L[1..];
      if x in FreeAddrs(L) && x in FreeAddrs(L[1..]) {
        var s :| s in L[1..] && s.kind.Free? && s.addr == x;
        assert s in L;
      }
    }
  }

  lemma LiveConcat(a: seq<Seg>, b: seq<Seg>)
    ensures Live(a + b) == Live(a) + Live(b)
    ensures Bases(a + b) == Bases(a) + Bases(b)
  {
    forall x | x in Bases(a) + Bases(b) ensures x in Bases(a + b) {
      var s :| (s in a || s in b) && s.kind.StartPost? && s.base == x;
      assert s in a + b;
    }
  }

  lemma {:induction false} NumChunksConcat(a: seq<Seg>, b: seq<Seg>)
    ensures NumChunks(a + b) == NumChunks(a) + NumChunks(b)
  {
    if b == [] {
      assert a + b == a;
    } else {
      assert (a + b)[..|a + b| - 1] == a + b[..|b| - 1];
      NumChunksConcat(a, b[..|b| - 1]);
    }
  }

  // ---- The free list is sorted ----

  ghost predicate Sorted(xs: seq<int>) {
    forall i, j | 0 <= i < j < |xs| :: xs[i] + MIN_BLOCK <= xs[j]
  }

  lemma SortedCons(x: int, xs: seq<int>)
    requires Sorted(xs) && forall k | 0 <= k < |xs| :: x + MIN_BLOCK <= xs[k]
    ensures Sorted([x] + xs)
  {
    var c := [x] + xs;
    forall i, j | 0 <= i < j < |c| ensures c[i] + MIN_BLOCK <= c[j] {
      assert c[j] == xs[j - 1] && (i > 0 ==> c[i] == xs[i - 1]);
    }
  }

  /** The free addresses increase strictly, by at least a block each. */
  lemma {:induction false} FreeAddrsSorted(L: seq<Seg>)
    requires Chain(L)
    ensures Sorted(FreeAddrs(L))
  {
    if L != [] {
      assert L == [L[0]] + L[1..];
      ChainConcat([L[0]], L[1..]);
      FreeAddrsSorted(L[1..]);
      assert SegWF(L[0]);
      var xs := FreeAddrs(L[1..]);
      forall k | 0 <= k < |xs| ensures L[0].End() <= xs[k] {
        FreeAddrsMember(L[1..], xs[k]);
        var j :| 0 <= j < |L[1..]| && L[1..][j].addr == xs[k];
        Ordered(L, 0, j + 1);
      }
      if L[0].kind.Free? {
        SortedCons(L[0].addr, xs);
      }
    }
  }

  // ---- Canonical form ----

  /** Every segment lies in a chunk of the layout. */
  lemma {:induction false} BaseOf(L: seq<Seg>, i: nat)
    requires WF(L) && i < |L|
    ensures L[i].base in Bases(L)
  {
    if !L[i].kind.StartPost? {
      assert i > 0;
      assert Follows(L[i - 1], L[i]);
      BaseOf(L, i - 1);
    }
  }

  /** The first segment of L at or after address x that both layouts must share: a segment of K that
    is not free reappears in L. */
  lemma NonFreeShared(K: seq<Seg>, L: seq<Seg>, n: nat) returns (j: nat)
    requires WF(K) && WF(L) && Live(K) == Live(L) && Bases(K) == Bases(L)
    requires n < |K| && (K[n].kind.Used? || K[n].kind.StartPost?)
    ensures j < |L| && L[j] == K[n]
  {
    if K[n].kind.Used? {
      assert K[n] in Live(K);
      assert K[n] in Live(L);
      j :| 0 <= j < |L| && L[j] == K[n];
    } else {
      assert K[n].base in Bases(K);
      assert K[n].base in Bases(L);
      j :| 0 <= j < |L| && L[j].kind.StartPost? && L[j].base == K[n].base;
      assert SegWF(L[j]) && SegWF(K[n]);
    }
  }

  /** With a common prefix, a segment of L that starts no earlier than K's next one is not in the
    prefix. */
  lemma PastPrefix(K: seq<Seg>, L: seq<Seg>, n: nat, j: nat)
    requires Chain(K) && n < |K| && n <= |L| && K[..n] == L[..n]
    requires j < |L| && K[n].addr <= L[j].addr
    ensures n <= j
  {
    if j < n {
      assert L[j] == L[..n][j] == K[j];
      assert SegWF(K[j]);
      Ordered(K, j, n);
    }
  }

  /** One half of the step: with a common prefix, L goes on where K does, and where K's next
    segment is live, L has the same one. */
  lemma NextShared(K: seq<Seg>, L: seq<Seg>, n: nat)
    requires WF(K) && WF(L) && Live(K) == Live(L) && Bases(K) == Bases(L)
    requires n < |K| && n <= |L| && K[..n] == L[..n]
    ensures n < |L|
    ensures L[n].addr <= K[n].addr
    ensures n > 0 && !K[n].kind.StartPost? ==> L[n].addr == K[n].addr && L[n].base == K[n].base
    ensures K[n].kind.Used? ==> L[n] == K[n]
  {
    if n > 0 {
      assert K[n - 1] == K[..n][n - 1] == L[n - 1];
      assert Follows(K[n - 1], K[n]);
    }
    if K[n].kind.Used? || K[n].kind.StartPost? {
      var j := NonFreeShared(K, L, n);
      PastPrefix(K, L, n, j);
      if n < j {
        Ordered(L, n, j);
        assert SegWF(L[n]);
      }
      if n > 0 {
        assert Follows(L[n - 1], L[n]);
      }
    } else {
      assert Follows(L[n - 1], L[n]);
    }
  }

  /** The other half: a free segment of K ends no later than the one L has there. */
  lemma FreeReaches(K: seq<Seg>, L: seq<Seg>, n: nat)
    requires WF(K) && WF(L) && Live(K) == Live(L) && Bases(K) == Bases(L)
    requires n < |K| && n < |L| && K[n].kind.Free? && L[n].kind.Free?
    requires K[n].addr == L[n].addr && K[n].base == L[n].base
    ensures L[n].len <= K[n].len
  {
    assert Follows(K[n], K[n + 1]);
    if K[n + 1].kind.Used? {
      var j := NonFreeShared(K, L, n + 1);
      AllOrdered(L);
      assert SegWF(K[n + 1]) && SegWF(K[n]);
    } else {
      assert SegWF(K[n + 1]) && SegWF(L[n]);
    }
  }

  lemma SegShared(K: seq<Seg>, L: seq<Seg>, n: nat)
    requires WF(K) && WF(L) && Live(K) == Live(L) && Bases(K) == Bases(L)
    requires n < |K| && n <= |L| && K[..n] == L[..n]
    ensures n < |L| && L[n] == K[n]
  {
    NextShared(K, L, n);
    NextShared(L, K, n);
    assert SegWF(K[n]) && SegWF(L[n]);
    if n > 0 {
      assert K[n - 1] == K[..n][n - 1] == L[n - 1];
      assert Follows(K[n - 1], K[n]) && Follows(L[n - 1], L[n]);
    }
    if K[n].kind.Free? && L[n].kind.Free? {
      FreeReaches(K, L, n);
      FreeReaches(L, K, n);
    }
  }

  lemma {:induction false} PrefixShared(K: seq<Seg>, L: seq<Seg>, n: nat)
    requires WF(K) && WF(L) && Live(K) == Live(L) && Bases(K) == Bases(L)
    requires n <= |K|
    ensures n <= |L| && K[..n] == L[..n]
  {
    if n > 0 {
      PrefixShared(K, L, n - 1);
      SegShared(K, L, n - 1);
      assert K[..n] == K[..n - 1] + [K[n - 1]];
      assert L[..n] == L[..n - 1] + [L[n - 1]];
    }
  }

  /** Canonical form: the live blocks and the chunks determine the whole layout, whatever the
    sequence of requests that led to it. */
  lemma Canonical(K: seq<Seg>, L: seq<Seg>)
    requires WF(K) && WF(L)
    requires Live(K) == Live(L) && Bases(K) == Bases(L)
    ensures K == L
  {
    PrefixShared(K, L, |K|);
    PrefixShared(L, K, |L|);
    assert K == K[..|K|] && L == L[..|L|];
  }
}
