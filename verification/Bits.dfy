// Words of _WORD_BITS_ bits as natural numbers, with the bitwise operators
// that the tagged pointers are built from, defined bit by bit.
module Bits {

  const WORD_BITS: nat := 64

  function Pow2(n: nat): (r: nat)
    ensures r >= 1
  {
    if n == 0 then 1 else 2 * Pow2(n - 1)
  }

  // x & y
  function And(x: nat, y: nat): nat {
    if x == 0 || y == 0 then 0
    else 2 * And(x / 2, y / 2) + (if x % 2 == 1 && y % 2 == 1 then 1 else 0)
  }

  // x | y
  function Or(x: nat, y: nat): nat
    decreases x + y
  {
    if x == 0 then y
    else if y == 0 then x
    else 2 * Or(x / 2, y / 2) + (if x % 2 == 1 || y % 2 == 1 then 1 else 0)
  }

  // x << n in a word: bits shifted past the top are lost
  function ShiftLeft(x: nat, n: nat): nat {
    x * Pow2(n) % Pow2(WORD_BITS)
  }

  function Quotient(x: nat, p: nat): nat
    requires p >= 1
  {
    x / p
  }

  // x >> n
  function ShiftRight(x: nat, n: nat): nat {
    Quotient(x, Pow2(n))
  }

  // The three expressions that Push and Pop apply to _top_.
  function Mask(bits: nat): nat {
    Pow2(bits) - 1
  }

  function Addr(word: nat, bits: nat): nat {
    And(word, Mask(bits))
  }

  function Count(word: nat, bits: nat): nat {
    ShiftRight(word, bits)
  }

  function Pack(addr: nat, count: nat, bits: nat): nat {
    Or(addr, ShiftLeft(count, bits))
  }

  // How many values the counter has before it wraps.
  function Period(bits: nat): (r: nat)
    ensures r >= 1
  {
    if bits <= WORD_BITS then Pow2(WORD_BITS - bits) else 1
  }

  lemma {:induction false} Pow2Add(m: nat, n: nat)
    ensures Pow2(m + n) == Pow2(m) * Pow2(n)
  {
    if m > 0 {
      Pow2Add(m - 1, n);
      assert Pow2(m) * Pow2(n) == 2 * (Pow2(m - 1) * Pow2(n));
    }
  }

  // Masking the low bits is the remainder by a power of two.
  lemma {:induction false} AndMask(x: nat, n: nat)
    ensures And(x, Mask(n)) == x % Pow2(n)
  {
    if n > 0 {
      AndMask(x / 2, n - 1);
      AndOdd(x, Mask(n - 1));
      HalfRemainder(x, Pow2(n - 1));
    }
  }

  lemma AndOdd(x: nat, m: nat)
    ensures And(x, 2 * m + 1) == 2 * And(x / 2, m) + x % 2
  {
    assert (2 * m + 1) / 2 == m && (2 * m + 1) % 2 == 1;
  }

  lemma HalfRemainder(x: nat, p: nat)
    requires p >= 1
    ensures x % (2 * p) == 2 * (x / 2 % p) + x % 2
  {
    var q, r := x / 2 / p, x / 2 % p;
    assert x / 2 == p * q + r;
    assert x == (2 * p) * q + (2 * r + x % 2);
    DivModUnique(x, 2 * p, q, 2 * r + x % 2);
  }

  lemma MulMonotone(x: nat, y: nat, d: nat)
    requires x <= y
    ensures x * d <= y * d
  {
  }

  lemma DivMod(x: int, d: nat)
    requires d >= 1
    ensures x == d * (x / d) + x % d && 0 <= x % d < d
  {
  }

  lemma NextMultiple(d: nat, q: nat)
    ensures d * (q + 1) == d * q + d
  {
  }

  lemma DivModUnique(x: int, d: nat, q: int, r: nat)
    requires d >= 1 && r < d && x == d * q + r
    ensures x / d == q && x % d == r
  {
    var e := x / d - q;
    assert d * e == r - x % d by {
      assert x == d * (x / d) + x % d;
      assert d * (x / d) - d * q == d * e;
    }
    if e >= 1 {
      MulMonotone(1, e, d);
    }
  }

  // Two counters less than a period apart agree modulo the period only if equal.
  lemma SameRemainder(a: nat, b: nat, period: nat)
    requires period >= 1 && a <= b && b - a < period
    requires a % period == b % period
    ensures a == b
  {
    var q, r := a / period, a % period;
    assert a == period * q + r;
    if r + (b - a) < period {
      DivModUnique(b, period, q, r + (b - a));
    } else {
      assert b == period * (q + 1) + (r + (b - a) - period);
      DivModUnique(b, period, q + 1, r + (b - a) - period);
    }
  }

  // The counter counts modulo its period.
  lemma NextTag(c: nat, cas: nat, period: nat)
    requires period >= 1 && c == cas % period
    ensures (c + 1) % period == (cas + 1) % period
  {
    DivMod(cas, period);
    NextRemainder(c, cas, period, cas / period);
  }

  lemma NextRemainder(c: nat, cas: nat, period: nat, q: nat)
    requires period >= 1 && cas == period * q + c && c < period
    ensures (c + 1) % period == (cas + 1) % period
  {
    if c + 1 < period {
      DivModUnique(cas + 1, period, q, c + 1);
      DivModUnique(c + 1, period, 0, c + 1);
    } else {
      NextMultiple(period, q);
      DivModUnique(cas + 1, period, q + 1, 0);
      DivModUnique(period, period, 1, 0);
    }
  }

  // Or of an n-bit number with a multiple of two to the n is their sum.
  lemma {:induction false} OrDisjoint(a: nat, b: nat, n: nat)
    requires a < Pow2(n)
    ensures Or(a, b * Pow2(n)) == a + b * Pow2(n)
  {
    if n > 0 && a > 0 && b > 0 {
      var y := b * Pow2(n - 1);
      assert b * Pow2(n) == 2 * y;
      MulMonotone(1, b, Pow2(n - 1));
      OrDisjoint(a / 2, b, n - 1);
      assert (2 * y) / 2 == y && (2 * y) % 2 == 0;
    }
  }

  lemma ScaledRemainder(x: nat, p: nat, w: nat)
    requires p >= 1 && w >= 1
    ensures p * w >= 1
    ensures x * p % (p * w) == (x % w) * p
  {
    var q, r := x / w, x % w;
    MulMonotone(1, w, p);
    MulMonotone(r + 1, w, p);
    assert x * p == (p * w) * q + r * p by {
      assert x == w * q + r;
      assert (w * q + r) * p == (p * w) * q + r * p;
    }
    DivModUnique(x * p, p * w, q, r * p);
  }

  // Arithmetic form of Pack.
  lemma PackIs(addr: nat, count: nat, bits: nat)
    requires bits <= WORD_BITS && addr < Pow2(bits)
    ensures Pack(addr, count, bits) == addr + (count % Period(bits)) * Pow2(bits)
  {
    Pow2Add(bits, WORD_BITS - bits);
    ScaledRemainder(count, Pow2(bits), Period(bits));
    OrDisjoint(addr, count % Period(bits), bits);
  }

  lemma SplitSum(addr: nat, c: nat, p: nat, w: nat)
    requires addr < p && c < w
    ensures (addr + c * p) % p == addr && (addr + c * p) / p == c
    ensures addr + c * p < p * w
  {
    DivModUnique(addr + c * p, p, c, addr);
    MulMonotone(c + 1, w, p);
  }

  // Pack and unpack: the address comes back exactly, the counter modulo its
  // period, and the result is a word.
  lemma Unpack(addr: nat, count: nat, bits: nat)
    requires bits <= WORD_BITS && addr < Pow2(bits)
    ensures Addr(Pack(addr, count, bits), bits) == addr
    ensures Count(Pack(addr, count, bits), bits) == count % Period(bits)
    ensures Pack(addr, count, bits) < Pow2(WORD_BITS)
  {
    PackIs(addr, count, bits);
    SplitSum(addr, count % Period(bits), Pow2(bits), Period(bits));
    AndMask(Pack(addr, count, bits), bits);
    Pow2Add(bits, WORD_BITS - bits);
  }

  lemma QuotientBound(x: nat, p: nat, w: nat)
    requires p >= 1 && w >= 1 && x < p * w
    ensures x / p < w && x / p % w == x / p
    ensures x % p + x / p * p == x
  {
    var q := x / p;
    assert x == p * q + x % p;
    if q >= w {
      MulMonotone(w, q, p);
    }
    DivModUnique(q, w, 0, q);
  }

  // Conversely a word is determined by its two parts.
  lemma Repack(word: nat, bits: nat)
    requires bits <= WORD_BITS && word < Pow2(WORD_BITS)
    ensures Addr(word, bits) < Pow2(bits) && Count(word, bits) < Period(bits)
    ensures Pack(Addr(word, bits), Count(word, bits), bits) == word
  {
    hide Pow2, And, Or;
    var p, w := Pow2(bits), Period(bits);
    assert word < p * w by { Pow2Add(bits, WORD_BITS - bits); }
    AndMask(word, bits);
    QuotientBound(word, p, w);
    PackIs(word % p, word / p, bits);
  }

  // The constants of the source: dfADDRESS_BIT is 47, dfADDRESS_MASK its mask.
  lemma AddressMask()
    ensures Mask(47) == 0x00007fffffffffff && Period(47) == 0x20000
  {
    assert Pow2(17) == 0x20000;
    assert Pow2(16) == 0x10000;
    Pow2Add(16, 16);
    Pow2Add(15, 32);
    assert Pow2(15) == 0x8000;
  }
}
