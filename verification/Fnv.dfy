/**
 The 64-bit FNV-1a hash of a NUL-terminated key, over unbounded integers with the
 wrap-around of `uint64_t` written out.

 The bitwise operators are defined bit by bit, so that the two facts the hash table
 rests on are theorems here: masking with `capacity - 1` is reduction modulo a
 power-of-two capacity, and every step of the hash can be undone.
 */
module Fnv {

  // A character of a C string before its terminating NUL, read as `unsigned char`.
  type Octet = x: int | 1 <= x < 256 witness 1
  type Key = seq<Octet>

  const TWO_64: nat := 0x1_0000_0000_0000_0000
  type Word = x: int | 0 <= x < TWO_64

  const FNV_OFFSET: Word := 14695981039346656037
  const FNV_PRIME: Word := 1099511628211

  // The inverse of FNV_PRIME modulo 2^64, which exists because FNV_PRIME is odd.
  const PRIME_INVERSE: nat := 14886173955864302971
  const PRIME_CARRY: nat := 887285111055

  function Pow2(n: nat): (p: nat)
    ensures p > 0
  {
    if n == 0 then 1 else 2 * Pow2(n - 1)
  }

  function Xor(a: nat, b: nat): nat
    decreases a + b
  {
    if a == 0 && b == 0 then 0 else 2 * Xor(a / 2, b / 2) + (a + b) % 2
  }

  function And(a: nat, b: nat): nat
    decreases a + b
  {
    if a == 0 || b == 0 then 0 else 2 * And(a / 2, b / 2) + (a % 2) * (b % 2)
  }

  // One round of the loop of hash_key.
  function Mix(h: Word, c: Octet): Word {
    Xor(h, c) * FNV_PRIME % TWO_64
  }

  function HashFrom(h: Word, key: Key): Word
    decreases key
  {
    if key == [] then h else HashFrom(Mix(h, key[0]), key[1..])
  }

  function Hash(key: Key): Word {
    HashFrom(FNV_OFFSET, key)
  }

  method HashKey(key: Key) returns (hash: Word)
    ensures hash == Hash(key)
  {
    hash := FNV_OFFSET;
    for p := 0 to |key|
      invariant HashFrom(hash, key[p..]) == Hash(key)
    {
      assert key[p..][1..] == key[p + 1..];
      hash := Xor(hash, key[p]) * FNV_PRIME % TWO_64;
    }
  }

  /** `hash & (capacity - 1)` is `hash % capacity` when the capacity is a power of two. */
  lemma {:induction false} MaskIsMod(h: nat, n: nat)
    ensures And(h, Pow2(n) - 1) == h % Pow2(n)
  {
    if n == 0 {
      assert h % 1 == 0;
    } else {
      var p := Pow2(n - 1);
      MaskIsMod(h / 2, n - 1);
      calc {
        And(h, 2 * p - 1);
        { AndStep(h, p); }
        2 * And(h / 2, p - 1) + h % 2;
        2 * (h / 2 % p) + h % 2;
        { ModStep(h, p); }
        h % (2 * p);
      }
    }
  }

  lemma AndStep(h: nat, p: nat)
    requires p > 0
    ensures And(h, 2 * p - 1) == 2 * And(h / 2, p - 1) + h % 2
  {
    assert (2 * p - 1) / 2 == p - 1 && (2 * p - 1) % 2 == 1;
  }

  lemma ModStep(h: nat, p: nat)
    requires p > 0
    ensures h % (2 * p) == 2 * (h / 2 % p) + h % 2
  {
    var q, r := h / 2 / p, h / 2 % p;
    assert h == 2 * (q * p + r) + h % 2;
    assert h == q * (2 * p) + (2 * r + h % 2);
    ModUnique(h, 2 * p, q, 2 * r + h % 2);
  }

  lemma ModUnique(x: int, m: int, q: int, r: int)
    requires 0 <= r < m && x == q * m + r
    ensures x % m == r
  {
    var d := x / m - q;
    assert d * m == r - x % m;
    assert d >= 1 ==> d * m >= m;
    assert d <= -1 ==> d * m <= -m;
  }

  /** Exclusive or never leaves the width of its operands. */
  lemma {:induction false} XorWidth(a: nat, b: nat, n: nat)
    requires a < Pow2(n) && b < Pow2(n)
    ensures Xor(a, b) < Pow2(n)
  {
    if n > 0 {
      XorWidth(a / 2, b / 2, n - 1);
    }
  }

  /** Exclusive or is injective in each operand. */
  lemma {:induction false} XorInjective(a: nat, b: nat, a': nat, b': nat)
    requires Xor(a, b) == Xor(a', b')
    ensures a == a' <==> b == b'
    decreases a + b + a' + b'
  {
    if a + b + a' + b' > 0 {
      XorHalves(a, b);
      XorHalves(a', b');
      XorInjective(a / 2, b / 2, a' / 2, b' / 2);
      Parity(a, b, a', b');
    }
  }

  lemma Parity(a: nat, b: nat, a': nat, b': nat)
    requires (a + b) % 2 == (a' + b') % 2
    requires a / 2 == a' / 2 <==> b / 2 == b' / 2
    ensures a == a' <==> b == b'
  {
  }

  lemma XorHalves(a: nat, b: nat)
    ensures Xor(a, b) == 2 * Xor(a / 2, b / 2) + (a + b) % 2
    ensures Xor(a, b) / 2 == Xor(a / 2, b / 2) && Xor(a, b) % 2 == (a + b) % 2
  {
  }

  lemma {:induction false} Pow2Sum(m: nat, n: nat)
    ensures Pow2(m + n) == Pow2(m) * Pow2(n)
  {
    if m > 0 {
      Pow2Sum(m - 1, n);
    }
  }

  lemma Pow2At32()
    ensures Pow2(32) == 0x1_0000_0000
  {
    assert Pow2(8) == 256;
    Pow2Sum(8, 8);
    Pow2Sum(16, 16);
  }

  lemma Pow2At64()
    ensures Pow2(64) == TWO_64
  {
    Pow2At32();
    Pow2Sum(32, 32);
  }

  /** Multiplication by the odd FNV prime is injective modulo 2^64. */
  lemma PrimeInjective(a: Word, b: Word)
    requires a * FNV_PRIME % TWO_64 == b * FNV_PRIME % TWO_64
    ensures a == b
  {
    assert FNV_PRIME * PRIME_INVERSE == 1 + PRIME_CARRY * TWO_64;
    var d, k := a - b, a * FNV_PRIME / TWO_64 - b * FNV_PRIME / TWO_64;
    assert d * FNV_PRIME == k * TWO_64;
    assert d == (k * PRIME_INVERSE - d * PRIME_CARRY) * TWO_64;
  }

  /** One round of the hash loses nothing: the state and the byte determine each other. */
  lemma MixInjective(h: Word, c: Octet, h': Word, c': Octet)
    requires Mix(h, c) == Mix(h', c')
    ensures h == h' <==> c == c'
  {
    Pow2At64();
    XorWidth(h, c, 64);
    XorWidth(h', c', 64);
    PrimeInjective(Xor(h, c), Xor(h', c'));
    XorInjective(h, c, h', c');
  }

  /** Hashing a fixed suffix is a bijection on hash states. */
  lemma {:induction false} HashFromInjective(h: Word, h': Word, key: Key)
    ensures HashFrom(h, key) == HashFrom(h', key) <==> h == h'
    decreases key
  {
    if key != [] {
      var m, m' := Mix(h, key[0]), Mix(h', key[0]);
      HashFromInjective(m, m', key[1..]);
      if m == m' {
        MixInjective(h, key[0], h', key[0]);
      }
    }
  }

  lemma {:induction false} HashFromConcat(h: Word, p: Key, s: Key)
    ensures HashFrom(h, p + s) == HashFrom(HashFrom(h, p), s)
    decreases p
  {
    if p == [] {
      assert p + s == s;
    } else {
      assert (p + s)[1..] == p[1..] + s;
      HashFromConcat(Mix(h, p[0]), p[1..], s);
    }
  }

  /** Appending the same suffix neither creates nor resolves a collision. */
  lemma CommonSuffix(p: Key, q: Key, s: Key)
    ensures Hash(p + s) == Hash(q + s) <==> Hash(p) == Hash(q)
  {
    HashFromConcat(FNV_OFFSET, p, s);
    HashFromConcat(FNV_OFFSET, q, s);
    HashFromInjective(Hash(p), Hash(q), s);
  }

  /** Keys of equal length that differ in exactly one byte never collide on 64 bits. */
  lemma OneByteApart(a: Key, b: Key, i: nat)
    requires |a| == |b| && i < |a| && a[i] != b[i]
    requires forall j | 0 <= j < |a| && j != i :: a[j] == b[j]
    ensures Hash(a) != Hash(b)
  {
    var p, s := a[..i], a[i + 1..];
    assert a == (p + [a[i]]) + s && b == (p + [b[i]]) + s;
    CommonSuffix(p + [a[i]], p + [b[i]], s);
    HashFromConcat(FNV_OFFSET, p, [a[i]]);
    HashFromConcat(FNV_OFFSET, p, [b[i]]);
    if Mix(Hash(p), a[i]) == Mix(Hash(p), b[i]) {
      MixInjective(Hash(p), a[i], Hash(p), b[i]);
    }
    assert HashFrom(Hash(p), [a[i]]) == Mix(Hash(p), a[i]);
    assert HashFrom(Hash(p), [b[i]]) == Mix(Hash(p), b[i]);
  }

  lemma {:induction false} XorZero(a: nat)
    ensures Xor(a, 0) == a
  {
    if a > 0 { XorZero(a / 2); }
  }

  lemma LastBit(a: nat, x: nat, i: nat)
    requires a == 2 * x + i && i < 2
    ensures a / 2 == x && a % 2 == i
  {
  }

  // One more bit at the end of both operands.
  lemma XorNext(a: nat, b: nat, x: nat, y: nat, i: nat, j: nat, r: nat)
    requires a == 2 * x + i && b == 2 * y + j && i < 2 && j < 2 && Xor(x, y) == r
    ensures Xor(a, b) == 2 * r + (if i == j then 0 else 1)
  {
    XorHalves(a, b);
    LastBit(a, x, i);
    LastBit(b, y, j);
    var carry: nat := if i == j == 1 then 1 else 0;
    LastBit(a + b, x + y + carry, if i == j then 0 else 1);
  }

  // The byte 97 is 1100001 in binary, the last byte of the offset basis 100101.
  lemma XorUpper(u: nat)
    ensures Xor(16 * u + 2, 6) == 16 * u + 4
  {
    XorZero(2 * u);
    XorNext(4 * u, 1, 2 * u, 0, 0, 1, 2 * u);
    XorNext(8 * u + 1, 3, 4 * u, 1, 1, 1, 4 * u + 1);
    XorNext(16 * u + 2, 6, 8 * u + 1, 3, 0, 0, 8 * u + 2);
  }

  lemma XorMiddle(u: nat)
    ensures Xor(64 * u + 9, 24) == 64 * u + 17
  {
    XorUpper(u);
    XorNext(32 * u + 4, 12, 16 * u + 2, 6, 0, 0, 16 * u + 4);
    XorNext(64 * u + 9, 24, 32 * u + 4, 12, 1, 0, 32 * u + 8);
  }

  lemma XorOf97(u: nat, h: nat, c: nat)
    requires h == 256 * u + 37 && c == 97
    ensures Xor(h, c) == h + 31
  {
    XorMiddle(u);
    XorNext(128 * u + 18, 48, 64 * u + 9, 24, 0, 0, 64 * u + 17);
    XorNext(h, c, 128 * u + 18, 48, 1, 1, 128 * u + 34);
  }

  lemma MixIs(h: Word, c: Octet, x: nat, q: nat, r: nat)
    requires Xor(h, c) == x && x * FNV_PRIME == q * TWO_64 + r && r < TWO_64
    ensures Mix(h, c) == r
  {
  }

  /** Two test vectors of the hash: the empty string and "a". */
  lemma TestVectors(a: Octet)
    requires a == 97
    ensures Hash([]) == 0xcbf2_9ce4_8422_2325
    ensures Hash([a]) == 0xaf63_dc4c_8601_ec8c
  {
    var key: Key := [a];
    XorOf97(57406175934947875, FNV_OFFSET, a);
    MixIs(FNV_OFFSET, a, 0xcbf2_9ce4_8422_2344, 875948729822, 0xaf63_dc4c_8601_ec8c);
    assert key[1..] == [] && HashFrom(Mix(FNV_OFFSET, a), []) == Mix(FNV_OFFSET, a);
  }
}
