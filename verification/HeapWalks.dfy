/** Boundary tags: walking a chunk forward by its headers and backward by its footers. */
module HeapWalks {
  import opened Memory
  import opened HeapLayout
  import opened HeapMemory

  /** The headers met going up from a: add each size until one reads 0. end only bounds the walk. */
  function Forward(m: Mem, a: int, end: int): seq<int>
    decreases end - a
  {
    if end < a || SizeAt(m, a) <= 0 then [] else [a] + Forward(m, a + SizeAt(m, a), end)
  }

  /** The headers met going down from b: subtract the size in the footer below until one reads 0. */
  function Backward(m: Mem, b: int, start: int): seq<int>
    decreases b - start
  {
    var z := SizeAt(m, b - FTR);
    if b < start || z <= 0 then [] else Backward(m, b - z, start) + [b - z]
  }

  function Addrs(S: seq<Seg>): seq<int> {
    if S == [] then [] else [S[0].addr] + Addrs(S[1..])
  }

  lemma {:induction false} AddrsSnoc(S: seq<Seg>, s: Seg)
    ensures Addrs(S + [s]) == Addrs(S) + [s.addr]
  {
    if S != [] {
      assert (S + [s])[1..] == S[1..] + [s];
      AddrsSnoc(S[1..], s);
    }
  }

  /** L[i..j] are the blocks of one chunk: fenceposts at i - 1 and j, blocks between. */
  ghost predicate ChunkAt(L: seq<Seg>, i: nat, j: nat) {
    && 0 < i <= j < |L| && L[i - 1].kind.StartPost? && L[j].kind.EndPost?
    && forall k | i <= k < j :: L[k].Block()
  }

  lemma {:induction false} ForwardFrom(m: Mem, L: seq<Seg>, i: nat, j: nat, k: nat)
    requires WF(L) && Tagged(m, L) && ChunkAt(L, i, j) && i <= k <= j
    ensures Forward(m, L[k].addr, L[j].addr) == Addrs(L[k..j])
    decreases j - k
  {
    assert L[k] in L && SegRep(m, L[k]) && SegWF(L[k]);
    if k < j {
      Ordered(L, k, j);
      assert Follows(L[k], L[k + 1]);
      ForwardFrom(m, L, i, j, k + 1);
      assert L[k..j][1..] == L[k + 1..j];
    }
  }

  lemma {:induction false} BackwardFrom(m: Mem, L: seq<Seg>, i: nat, j: nat, k: nat)
    requires WF(L) && Tagged(m, L) && ChunkAt(L, i, j) && i <= k <= j
    ensures Backward(m, L[k].addr, L[i].addr) == Addrs(L[i..k])
    decreases k
  {
    assert Follows(L[k - 1], L[k]);
    assert L[k - 1] in L && SegRep(m, L[k - 1]) && SegWF(L[k - 1]);
    if i < k {
      Ordered(L, i, k);
      BackwardFrom(m, L, i, j, k - 1);
      assert L[i..k] == L[i..k - 1] + [L[k - 1]];
      AddrsSnoc(L[i..k - 1], L[k - 1]);
    }
  }

  /** In every represented heap, a chunk read upwards by headers and downwards by footers, each time
    until a fencepost's size 0, shows the same blocks, which are the blocks of the layout and tile
    the arena between the fenceposts. */
  lemma TagsAgree(m: Mem, sent: int, L: seq<Seg>, i: nat, j: nat)
    requires Rep(m, sent, L) && ChunkAt(L, i, j)
    ensures var lo, hi := L[i - 1].base + FTR, L[i - 1].base + FTR + BLOCK;
            Forward(m, lo, hi) == Backward(m, hi, lo) == Addrs(L[i..j])
  {
    ForwardFrom(m, L, i, j, i);
    BackwardFrom(m, L, i, j, j);
    assert Follows(L[i - 1], L[i]) && SegWF(L[i - 1]) && SegWF(L[j]);
    SameBase(L, i, j, j);
  }

  lemma {:induction false} SameBase(L: seq<Seg>, i: nat, j: nat, k: nat)
    requires WF(L) && ChunkAt(L, i, j) && i <= k <= j
    ensures L[k].base == L[i - 1].base
  {
    assert Follows(L[k - 1], L[k]);
    if i < k {
      SameBase(L, i, j, k - 1);
    }
  }

  /** Every start fencepost opens such a chunk, so the walks cover the whole heap. */
  lemma {:induction false} ChunkFrom(L: seq<Seg>, i: nat, k: nat) returns (j: nat)
    requires WF(L) && 0 < i <= k < |L| && L[i - 1].kind.StartPost?
    requires forall h | i <= h < k :: L[h].Block()
    ensures ChunkAt(L, i, j)
    decreases |L| - k
  {
    assert Follows(L[k - 1], L[k]);
    if L[k].kind.EndPost? {
      j := k;
    } else {
      assert Follows(L[k], L[k + 1]);
      j := ChunkFrom(L, i, k + 1);
    }
  }

  // ---- The list in memory ----

  /** The nodes met from a by next, and by prev, until the sentinel; at most n of them. */
  function ByNext(m: Mem, sent: int, a: int, n: nat): seq<int>
    decreases n
  {
    if n == 0 || a == sent then [] else [a] + ByNext(m, sent, NextAt(m, a), n - 1)
  }

  function ByPrev(m: Mem, sent: int, a: int, n: nat): seq<int>
    decreases n
  {
    if n == 0 || a == sent then [] else ByPrev(m, sent, PrevAt(m, a), n - 1) + [a]
  }

  lemma {:induction false} ByNextFrom(m: Mem, sent: int, F: seq<int>, k: nat, n: nat)
    requires Linked(m, Ring(sent, F, sent)) && sent !in F && k <= |F| && |F| - k <= n
    ensures ByNext(m, sent, Ring(sent, F, sent)[k + 1], n) == F[k..]
    decreases |F| - k
  {
    var C := Ring(sent, F, sent);
    if k < |F| {
      assert C[k + 1] == F[k] && F[k] in F;
      assert NextAt(m, C[k + 1]) == C[k + 2];
      ByNextFrom(m, sent, F, k + 1, n - 1);
      assert F[k..] == [F[k]] + F[k + 1..];
    }
  }

  lemma {:induction false} ByPrevFrom(m: Mem, sent: int, F: seq<int>, k: nat, n: nat)
    requires Linked(m, Ring(sent, F, sent)) && sent !in F && k <= |F| && k <= n
    ensures ByPrev(m, sent, Ring(sent, F, sent)[k], n) == F[..k]
    decreases k
  {
    var C := Ring(sent, F, sent);
    if k > 0 {
      assert C[k] == F[k - 1] && F[k - 1] in F;
      assert PrevAt(m, C[k]) == C[k - 1];
      ByPrevFrom(m, sent, F, k - 1, n - 1);
      assert F[..k] == F[..k - 1] + [F[k - 1]];
    }
  }

  /** Following next from the sentinel until it comes round, and following prev, both meet exactly the
    free blocks of the layout, in address order; neither walk can go on for ever. */
  lemma ListWalks(m: Mem, sent: int, L: seq<Seg>, n: nat)
    requires Rep(m, sent, L) && |FreeAddrs(L)| <= n
    ensures ByNext(m, sent, NextAt(m, sent), n) == FreeAddrs(L) == ByPrev(m, sent, PrevAt(m, sent), n)
  {
    hide WF, Tagged, FreeAddrs;
    var F := FreeAddrs(L);
    SentinelOutside(sent, L);
    RingEnds(m, sent, F);
    ByNextFrom(m, sent, F, 0, n);
    ByPrevFrom(m, sent, F, |F|, n);
    assert F[0..] == F && F[..|F|] == F;
  }

  lemma RingEnds(m: Mem, sent: int, F: seq<int>)
    requires Linked(m, Ring(sent, F, sent))
    ensures NextAt(m, sent) == Ring(sent, F, sent)[1] && PrevAt(m, sent) == Ring(sent, F, sent)[|F|]
  {
    var C := Ring(sent, F, sent);
    assert C[0] == sent && C[|F| + 1] == sent;
  }

  lemma SentinelOutside(sent: int, L: seq<Seg>)
    requires WF(L) && SentinelOk(sent, L)
    ensures Chain(L) && sent !in FreeAddrs(L)
  {
    if sent in FreeAddrs(L) {
      FreeAddrsMember(L, sent);
      var i :| 0 <= i < |L| && L[i].addr == sent;
      if i > 0 {
        Ordered(L, 0, i);
      }
      assert false;
    }
  }
}
