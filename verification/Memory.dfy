/** Byte-addressed memory, kept as aligned 8-byte words.

  The allocator reads and writes whole scalar fields (sizes, statuses, pointers), each in its own
  aligned word; programs that own a payload, and memcpy/memset, touch single bytes. A word therefore
  holds either the scalar last stored in it or the bytes last written into it. */
module Memory {
  import opened Modulo

  type Byte = b: int | 0 <= b < 256

  datatype Word = Scalar(v: int) | Bytes(bs: seq<Byte>)

  type Mem = map<int, Word>

  function Pow256(k: nat): (p: int)
    ensures p > 0
  {
    if k == 0 then 1 else 256 * Pow256(k - 1)
  }

  /** Byte k of a word, least significant first. */
  function ByteOf(w: Word, k: nat): Byte {
    match w
    case Scalar(v) => (v / Pow256(k)) % 256
    case Bytes(bs) => if k < |bs| then bs[k] else 0
  }

  /** The scalar a word reads back as. */
  function Value(w: Word): int {
    match w
    case Scalar(v) => v
    case Bytes(bs) => LittleEndian(bs)
  }

  function LittleEndian(bs: seq<Byte>): int {
    if bs == [] then 0 else bs[0] + 256 * LittleEndian(bs[1..])
  }

  lemma DivDiv(v: int, p: int)
    requires 0 <= v && 0 < p
    ensures v / (256 * p) == v / 256 / p
  {
    var q, r := v / (256 * p), v % (256 * p);
    var d, e := r / 256, r % 256;
    assert v == 256 * (q * p + d) + e;
    assert v / 256 == q * p + d;
    assert 0 <= d < p;
    ModIs(q * p + d, q, d, p);
  }

  /** The low n bytes of a scalar. */
  function BytesOf(v: int, n: nat): seq<Byte> { seq(n, (k: nat) => ByteOf(Scalar(v), k)) }

  /** A scalar copied byte by byte reads back as itself. */
  lemma {:induction false} BytesReadBack(v: int, n: nat)
    requires 0 <= v < Pow256(n)
    ensures LittleEndian(BytesOf(v, n)) == v
  {
    if n > 0 {
      var w := v / 256;
      forall k: nat | k < n - 1 ensures ByteOf(Scalar(v), k + 1) == ByteOf(Scalar(w), k) {
        DivDiv(v, Pow256(k));
      }
      assert BytesOf(v, n)[1..] == BytesOf(w, n - 1);
      assert BytesOf(v, n)[0] == v % 256;
      BytesReadBack(w, n - 1);
    }
  }

  function Get(m: Mem, a: int): Word {
    if a in m then m[a] else Scalar(0)
  }

  function Load(m: Mem, a: int): int {
    Value(Get(m, a))
  }

  predicate Aligned(a: int) { a % 8 == 0 }

  /** Store a scalar field. A field fills an aligned word, so that two stores write the same word or
    disjoint ones; what is read back later is the last value stored. */
  function Store(m: Mem, a: int, v: int): (m': Mem)
    requires Aligned(a)
    ensures forall b {:trigger Get(m', b)} :: Get(m', b) == if b == a then Scalar(v) else Get(m, b)
    ensures forall b {:trigger Load(m', b)} :: Load(m', b) == if b == a then v else Load(m, b)
  {
    m[a := Scalar(v)]
  }

  function WordOf(x: int): (a: int)
    ensures a % 8 == 0 && a <= x < a + 8
  {
    x - x % 8
  }

  function ByteAt(m: Mem, x: int): Byte {
    ByteOf(Get(m, WordOf(x)), x % 8)
  }

  function PutByte(m: Mem, x: int, b: Byte): Mem {
    var w := Get(m, WordOf(x));
    m[WordOf(x) := Bytes(seq(8, (k: nat) => ByteOf(w, k))[x % 8 := b])]
  }

  /** A byte write changes that byte of memory and no other. */
  lemma ByteAtPutByte(m: Mem, x: int, b: Byte, y: int)
    ensures ByteAt(PutByte(m, x, b), y) == if y == x then b else ByteAt(m, y)
  {
    if WordOf(x) == WordOf(y) && x != y {
      assert x % 8 != y % 8;
    }
  }

  /** A byte write leaves every other word alone. */
  lemma GetPutByte(m: Mem, x: int, b: Byte, a: int)
    requires a != WordOf(x)
    ensures Get(PutByte(m, x, b), a) == Get(m, a)
  {
  }

  /** memcpy, byte by byte; the regions must not overlap. */
  method Memcpy(m: Mem, dst: int, src: int, n: nat) returns (w: Mem)
    requires src + n <= dst || dst + n <= src
    ensures forall x {:trigger ByteAt(w, x)} | dst <= x < dst + n :: ByteAt(w, x) == ByteAt(m, src + (x - dst))
    ensures forall x | x < dst || dst + n <= x :: ByteAt(w, x) == ByteAt(m, x)
    ensures forall a | a < WordOf(dst) || dst + n <= a :: Get(w, a) == Get(m, a)
  {
    hide ByteAt, PutByte, Get;
    w := m;
    for k := 0 to n
      invariant forall x {:trigger ByteAt(w, x)} | dst <= x < dst + k :: ByteAt(w, x) == ByteAt(m, src + (x - dst))
      invariant forall x | x < dst || dst + k <= x :: ByteAt(w, x) == ByteAt(m, x)
      invariant forall a | a < WordOf(dst) || dst + k <= a :: Get(w, a) == Get(m, a)
    {
      w := SetByte(w, dst + k, ByteAt(w, src + k));
    }
  }

  method SetByte(m: Mem, x: int, b: Byte) returns (w: Mem)
    ensures forall y {:trigger ByteAt(w, y)} :: ByteAt(w, y) == if y == x then b else ByteAt(m, y)
    ensures forall a | a != WordOf(x) :: Get(w, a) == Get(m, a)
  {
    hide ByteAt, PutByte;
    w := PutByte(m, x, b);
    forall y ensures ByteAt(w, y) == if y == x then b else ByteAt(m, y) {
      ByteAtPutByte(m, x, b, y);
    }
    forall a | a != WordOf(x) ensures Get(w, a) == Get(m, a) {
      GetPutByte(m, x, b, a);
    }
  }

  /** memset. */
  method Memset(m: Mem, dst: int, b: Byte, n: nat) returns (w: Mem)
    ensures forall x {:trigger ByteAt(w, x)} :: ByteAt(w, x) == if dst <= x < dst + n then b else ByteAt(m, x)
    ensures forall a | a < WordOf(dst) || dst + n <= a :: Get(w, a) == Get(m, a)
  {
    hide ByteAt, PutByte, Get;
    w := m;
    for k := 0 to n
      invariant forall x {:trigger ByteAt(w, x)} :: ByteAt(w, x) == if dst <= x < dst + k then b else ByteAt(m, x)
      invariant forall a | a < WordOf(dst) || dst + k <= a :: Get(w, a) == Get(m, a)
    {
      w := SetByte(w, dst + k, b);
    }
  }
}
