/** Bytes, 32-bit words and 512-byte disk blocks: little-endian word access,
    single bits of a byte, and the exclusive-or checksum of a block. */
module Words {

  const BSIZE: nat := 512
  const WORDS_PER_BLOCK: nat := 128
  const WORD_LIMIT: nat := 0x1_0000_0000

  type byte = x: int | 0 <= x < 256
  type word = x: int | 0 <= x < 0x1_0000_0000
  type Block = b: seq<byte> | |b| == BSIZE witness Zeros(BSIZE)

  function Zeros(n: nat): (s: seq<byte>)
    ensures |s| == n
    ensures forall i :: 0 <= i < n ==> s[i] == 0
  {
    seq(n, _ => 0)
  }

  function ZeroBlock(): (b: Block)
    ensures forall i :: 0 <= i < BSIZE ==> b[i] == 0
  {
    Zeros(BSIZE)
  }

  // ---------- 32-bit words inside a block ----------

  function GetWord(b: Block, i: nat): (w: word)
    requires i < WORDS_PER_BLOCK
  {
    var lo: int := b[4 * i] as int + 0x100 * (b[4 * i + 1] as int);
    lo + 0x1_0000 * (b[4 * i + 2] as int) + 0x100_0000 * (b[4 * i + 3] as int)
  }

  function WordByte(w: word, k: nat): byte
    requires k < 4
  {
    if k == 0 then w % 0x100
    else if k == 1 then w / 0x100 % 0x100
    else if k == 2 then w / 0x1_0000 % 0x100
    else w / 0x100_0000
  }

  function PutWord(b: Block, i: nat, w: word): Block
    requires i < WORDS_PER_BLOCK
  {
    b[4 * i := WordByte(w, 0)][4 * i + 1 := WordByte(w, 1)]
     [4 * i + 2 := WordByte(w, 2)][4 * i + 3 := WordByte(w, 3)]
  }

  lemma WordRoundTrip(w: word)
    ensures WordByte(w, 0) as int + 0x100 * (WordByte(w, 1) as int) + 0x1_0000 * (WordByte(w, 2) as int)
            + 0x100_0000 * (WordByte(w, 3) as int) == w
  {
    assert w / 0x100 / 0x100 == w / 0x1_0000;
    assert w / 0x1_0000 / 0x100 == w / 0x100_0000;
  }

  lemma GetPutWord(b: Block, i: nat, w: word)
    requires i < WORDS_PER_BLOCK
    ensures GetWord(PutWord(b, i, w), i) == w
    ensures forall j {:trigger GetWord(b, j)} {:trigger GetWord(PutWord(b, i, w), j)} ::
              0 <= j < WORDS_PER_BLOCK && j != i ==> GetWord(PutWord(b, i, w), j) == GetWord(b, j)
  {
    WordRoundTrip(w);
  }

  lemma ZeroWords(i: nat)
    requires i < WORDS_PER_BLOCK
    ensures GetWord(ZeroBlock(), i) == 0
  {
  }

  // ---------- bits of a byte ----------

  /** Bit `k` of `x`: `(x & (1 << k)) != 0`. */
  predicate BitOf(x: nat, k: nat) {
    if k == 0 then x % 2 == 1 else BitOf(x / 2, k - 1)
  }

  /** `x | (1 << k)` when `v`, `x & ~(1 << k)` otherwise. */
  function WithBit(x: nat, k: nat, v: bool): nat {
    if k == 0 then x / 2 * 2 + (if v then 1 else 0)
    else 2 * WithBit(x / 2, k - 1, v) + x % 2
  }

  lemma {:induction false} WithBitBits(x: nat, k: nat, v: bool, j: nat)
    ensures BitOf(WithBit(x, k, v), j) == if j == k then v else BitOf(x, j)
  {
    if k > 0 && j > 0 {
      WithBitBits(x / 2, k - 1, v, j - 1);
    }
  }

  lemma {:induction false} WithBitBound(x: nat, k: nat, v: bool, n: nat)
    requires k < n && x < Pow2(n)
    ensures WithBit(x, k, v) < Pow2(n)
  {
    if k > 0 {
      WithBitBound(x / 2, k - 1, v, n - 1);
    }
  }

  function WithBit8(x: byte, k: nat, v: bool): byte
    requires k < 8
  {
    WithBitBound(x, k, v, 8);
    assert Pow2(8) == 256;
    WithBit(x, k, v)
  }

  // ---------- exclusive or ----------

  function Xor(a: nat, b: nat): nat
    decreases a + b
  {
    if a == 0 && b == 0 then 0
    else 2 * Xor(a / 2, b / 2) + (a % 2 + b % 2) % 2
  }

  function Pow2(n: nat): nat {
    if n == 0 then 1 else 2 * Pow2(n - 1)
  }

  lemma {:induction false} XorBound(a: nat, b: nat, n: nat)
    requires a < Pow2(n) && b < Pow2(n)
    ensures Xor(a, b) < Pow2(n)
  {
    if n > 0 {
      XorBound(a / 2, b / 2, n - 1);
    }
  }

  lemma {:induction false} XorComm(a: nat, b: nat)
    ensures Xor(a, b) == Xor(b, a)
    decreases a + b
  {
    if a + b > 0 {
      XorComm(a / 2, b / 2);
    }
  }

  lemma XorParts(a: nat, b: nat)
    ensures Xor(a, b) == 2 * Xor(a / 2, b / 2) + (a % 2 + b % 2) % 2
  {
  }

  lemma {:induction false} XorCancel(a: nat, b: nat, c: nat)
    requires Xor(a, b) == Xor(a, c)
    ensures b == c
    decreases a + b + c
  {
    hide Xor;
    XorParts(a, b);
    XorParts(a, c);
    if a + b + c > 0 {
      XorCancel(a / 2, b / 2, c / 2);
    }
  }

  lemma {:induction false} XorZero(a: nat)
    ensures Xor(0, a) == a
  {
    if a > 0 {
      XorZero(a / 2);
    }
  }

  function ByteXor(a: byte, b: byte): byte {
    XorBound(a, b, 8);
    assert Pow2(8) == 256;
    Xor(a, b)
  }

  /** The exclusive or of the first `n` bytes. */
  function XorPrefix(s: seq<byte>, n: nat): byte
    requires n <= |s|
  {
    if n == 0 then 0 else ByteXor(XorPrefix(s, n - 1), s[n - 1])
  }

  function Checksum(b: Block): byte {
    XorPrefix(b, BSIZE)
  }

  lemma {:induction false} XorPrefixLocal(s: seq<byte>, t: seq<byte>, n: nat)
    requires n <= |s| && n <= |t|
    requires forall i :: 0 <= i < n ==> s[i] == t[i]
    ensures XorPrefix(s, n) == XorPrefix(t, n)
  {
    if n > 0 {
      XorPrefixLocal(s, t, n - 1);
    }
  }

  lemma {:induction false} OneByteChangesXor(s: seq<byte>, i: nat, v: byte, n: nat)
    requires i < n <= |s| && s[i] != v
    ensures XorPrefix(s[i := v], n) != XorPrefix(s, n)
  {
    var t := s[i := v];
    if n == i + 1 {
      XorPrefixLocal(s, t, i);
      if Xor(XorPrefix(s, i), s[i]) == Xor(XorPrefix(s, i), v) {
        XorCancel(XorPrefix(s, i), s[i], v);
      }
    } else {
      OneByteChangesXor(s, i, v, n - 1);
      var a, b, c := XorPrefix(s, n - 1), XorPrefix(t, n - 1), s[n - 1];
      XorComm(a, c);
      XorComm(b, c);
      if Xor(c, a) == Xor(c, b) {
        XorCancel(c, a, b);
      }
    }
  }

  /** A change of exactly one byte is always seen by the checksum. */
  lemma ChecksumDetectsOneByte(b: Block, i: nat, v: byte)
    requires i < BSIZE && b[i] != v
    ensures Checksum(b[i := v]) != Checksum(b)
  {
    OneByteChangesXor(b, i, v, BSIZE);
  }

  lemma {:induction false} XorPrefixZeros(b: seq<byte>, n: nat)
    requires n <= |b| && forall i :: 0 <= i < n ==> b[i] == 0
    ensures XorPrefix(b, n) == 0
  {
    if n > 0 {
      XorPrefixZeros(b, n - 1);
    }
  }

  // ---------- the checksum, bit by bit ----------

  /** Bit `k` of a number, by division. */
  lemma {:induction false} BitIs(x: nat, k: nat)
    ensures Pow2(k) > 0 && (BitOf(x, k) <==> x / Pow2(k) % 2 == 1)
  {
    if k > 0 {
      BitIs(x / 2, k - 1);
      HalvesTwice(x, Pow2(k - 1));
    }
  }

  lemma HalvesTwice(x: nat, p: nat)
    requires p > 0
    ensures x / 2 / p == x / (2 * p)
  {
    var q, r := x / (2 * p), x % (2 * p);
    assert x == 2 * p * q + r;
    assert x / 2 == p * q + r / 2 && r / 2 < p;
    DivUnique(x / 2, p, q, r / 2);
  }

  lemma DivUnique(x: nat, p: nat, q: nat, r: nat)
    requires p > 0 && x == p * q + r && r < p
    ensures x / p == q
  {
    Quotient(x / p, x % p, q, r, p);
  }

  lemma Quotient(a: nat, b: nat, q: nat, r: nat, p: nat)
    requires b < p && r < p && p * a + b == p * q + r
    ensures a == q
  {
    if a < q {
      Product(p, a + 1, q);
    } else if q < a {
      Product(p, q + 1, a);
    }
  }

  lemma Product(p: nat, x: nat, y: nat)
    requires x <= y
    ensures p * x <= p * y && p * x == p * (x - 1) + p
  {
    assert p * y - p * x == p * (y - x);
  }

  lemma {:induction false} XorBit(a: nat, b: nat, k: nat)
    ensures BitOf(Xor(a, b), k) <==> (BitOf(a, k) != BitOf(b, k))
    decreases k
  {
    assert Xor(a, b) % 2 == (a % 2 + b % 2) % 2 && Xor(a, b) / 2 == Xor(a / 2, b / 2);
    if k > 0 {
      XorBit(a / 2, b / 2, k - 1);
    }
  }

  /** How many of the first `n` bytes have bit `k`, the one worth `Pow2(k)`. */
  function Ones(s: seq<byte>, k: nat, n: nat): nat
    requires n <= |s|
  {
    if n == 0 then 0
    else
      BitIs(s[n - 1], k);
      Ones(s, k, n - 1) + s[n - 1] / Pow2(k) % 2
  }

  lemma {:induction false} ParityPrefix(s: seq<byte>, k: nat, n: nat)
    requires n <= |s|
    ensures BitOf(XorPrefix(s, n), k) <==> Ones(s, k, n) % 2 == 1
  {
    hide Xor, BitOf, Pow2;
    if n > 0 {
      ParityPrefix(s, k, n - 1);
      ParityStep(XorPrefix(s, n - 1), s[n - 1], Ones(s, k, n - 1), k);
    } else {
      NoBit(k);
    }
  }

  lemma ParityStep(x: nat, y: nat, ones: nat, k: nat)
    requires BitOf(x, k) <==> ones % 2 == 1
    ensures Pow2(k) > 0 && (BitOf(Xor(x, y), k) <==> (ones + y / Pow2(k) % 2) % 2 == 1)
  {
    hide Xor, BitOf, Pow2;
    BitIs(y, k);
    XorBit(x, y, k);
  }

  lemma {:induction false} NoBit(k: nat)
    ensures !BitOf(0, k)
  {
    if k > 0 {
      NoBit(k - 1);
    }
  }

  /** Bit `k` of the checksum of a block is the parity of bit `k` over its 512 bytes. */
  lemma ChecksumIsParity(b: Block, k: nat)
    requires k < 8
    ensures Pow2(k) > 0 && Checksum(b) / Pow2(k) % 2 == Ones(b, k, 512) % 2
  {
    ParityPrefix(b, k, BSIZE);
    BitIs(Checksum(b), k);
  }
}
