/** Positions in a ring: remainders by a variable size. */
module Modulo {
  lemma MulAtLeast(a: int, size: nat)
    requires a >= 1
    ensures a * size >= size
  {
    assert a * size == (a - 1) * size + size;
    MulNonNeg(a - 1, size);
  }

  lemma MulNonNeg(a: nat, size: nat)
    ensures a * size >= 0
  {
  }

  lemma DivMod(k: int, size: nat)
    requires 0 < size
    ensures k == k / size * size + k % size && 0 <= k % size < size
  {
  }

  lemma Distr(a: int, b: int, size: int)
    ensures (a - b) * size == a * size - b * size
    ensures (a + b) * size == a * size + b * size
  {
  }

  lemma ModIs(x: int, q: int, r: int, size: nat)
    requires 0 < size && 0 <= r < size && x == q * size + r
    ensures x % size == r && x / size == q
  {
    DivMod(x, size);
    var q2 := x / size;
    Distr(q2, q, size);
    Distr(q, q2, size);
    if q2 > q {
      MulAtLeast(q2 - q, size);
    } else if q2 < q {
      MulAtLeast(q - q2, size);
    }
  }

  lemma NextSlot(k: nat, size: nat)
    requires 0 < size
    ensures (k % size + 1) % size == (k + 1) % size
  {
    DivMod(k, size);
    var q, r := k / size, k % size;
    if r + 1 < size {
      ModIs(k + 1, q, r + 1, size);
      ModIs(r + 1, 0, r + 1, size);
    } else {
      Distr(q, 1, size);
      ModIs(k + 1, q + 1, 0, size);
      ModIs(r + 1, 1, 0, size);
    }
  }

  lemma OtherSlot(k: nat, p: nat, size: nat)
    requires 0 < size && k < p < k + size
    ensures k % size != p % size
  {
    DivMod(k, size);
    DivMod(p, size);
    if k % size == p % size {
      Distr(p / size, k / size, size);
      if p / size <= k / size {
        Distr(k / size, p / size, size);
        MulNonNeg(k / size - p / size, size);
      } else {
        MulAtLeast(p / size - k / size, size);
      }
    }
  }
}
