/**
 Bit strings, most significant bit first, and JavaScript's bitwise operators on 32-bit words, taken
 as unsigned (the sign JavaScript attaches to the same 32 bits never matters where they are used).
 */
module Bits {

  function Pow2(n: nat): (r: nat)
    ensures r > 0
  {
    if n == 0 then 1 else 2 * Pow2(n - 1)
  }

  const WORD := 0x1_0000_0000

  // ---------- JavaScript operators ----------

  function Or(a: nat, b: nat): nat
    decreases a + b
  {
    if a == 0 && b == 0 then 0
    else (if a % 2 == 1 || b % 2 == 1 then 1 else 0) + 2 * Or(a / 2, b / 2)
  }

  function And(a: nat, b: nat): nat
    decreases a + b
  {
    if a == 0 && b == 0 then 0
    else (if a % 2 == 1 && b % 2 == 1 then 1 else 0) + 2 * And(a / 2, b / 2)
  }

  // a << n
  function Shl(a: nat, n: nat): nat { (a * Pow2(n)) % WORD }

  // a >>> n
  function Shr(a: nat, n: nat): nat { if n == 0 then a else Shr(a / 2, n - 1) }

  lemma {:induction false} OrZero(a: nat)
    ensures Or(a, 0) == a
  {
    if a > 0 { OrZero(a / 2); }
  }

  // Or with bits that lie below the other operand's lowest one is addition.
  lemma {:induction false} OrBelow(a: nat, b: nat, n: nat)
    requires b < Pow2(n)
    ensures Or(a * Pow2(n), b) == a * Pow2(n) + b
    decreases n
  {
    if n == 0 {
      OrZero(a);
    } else {
      var p := Pow2(n - 1);
      Doubled(a, p);
      OrBelow(a, b / 2, n - 1);
    }
  }

  lemma {:induction false} AndZero(n: nat)
    ensures And(0, n) == 0
  {
    if n > 0 { AndZero(n / 2); }
  }

  // The n low bits, as a number.
  function LowBits(a: nat, n: nat): nat { if n == 0 then 0 else 2 * LowBits(a / 2, n - 1) + a % 2 }

  lemma {:induction false} LowBitsIsMod(a: nat, n: nat)
    ensures LowBits(a, n) == a % Pow2(n)
    decreases n
  {
    if n > 0 {
      LowBitsIsMod(a / 2, n - 1);
      ModTwice(a, Pow2(n - 1));
    }
  }

  lemma AndOdd(a: nat, m: nat, odd: nat)
    requires odd == 2 * m + 1
    ensures And(a, odd) == a % 2 + 2 * And(a / 2, m)
  {
    assert odd / 2 == m;
  }

  lemma {:induction false} AndIsLowBits(a: nat, n: nat)
    ensures And(a, Pow2(n) - 1) == LowBits(a, n)
    decreases n
  {
    if n == 0 {
      AndNothing(a);
    } else {
      AndIsLowBits(a / 2, n - 1);
      AndOdd(a, Pow2(n - 1) - 1, Pow2(n) - 1);
    }
  }

  // And with n ones keeps the n low bits.
  lemma AndOnes(a: nat, n: nat)
    ensures And(a, Pow2(n) - 1) == a % Pow2(n)
  {
    AndIsLowBits(a, n);
    LowBitsIsMod(a, n);
  }

  lemma {:induction false} AndFitting(a: nat, n: nat, mask: nat)
    requires a < Pow2(n) && mask == Pow2(n) - 1
    ensures And(a, mask) == a
    decreases n
  {
    if n == 0 {
      AndNothing(a);
    } else {
      AndFitting(a / 2, n - 1, mask / 2);
    }
  }

  lemma {:induction false} AndNothing(a: nat)
    ensures And(a, 0) == 0
  {
    if a > 0 { AndNothing(a / 2); }
  }

  lemma Doubled(x: int, p: int)
    ensures x * (2 * p) == 2 * (x * p)
  {
  }

  lemma HalfOf(v: nat, x: nat, r: nat)
    requires v == 2 * x + r
    ensures v / 2 == x + r / 2 && v % 2 == r % 2
  {
  }

  lemma ModTwice(a: nat, p: nat)
    requires p > 0
    ensures a % (2 * p) == 2 * ((a / 2) % p) + a % 2
  {
    var q, r := (a / 2) / p, (a / 2) % p;
    assert a == 2 * (q * p + r) + a % 2;
    assert a == q * (2 * p) + (2 * r + a % 2);
    DivModUnique(a, 2 * p, q, 2 * r + a % 2);
  }

  lemma DivModUnique(a: int, d: int, q: int, r: int)
    requires d > 0 && a == q * d + r && 0 <= r < d
    ensures a / d == q && a % d == r
  {
    var x := a / d;
    Euclid(a, d);
    assert x * d - q * d == (x - q) * d;
    SmallMultiple(x - q, d);
  }

  lemma SmallMultiple(k: int, d: int)
    requires d > 0 && -d < k * d < d
    ensures k == 0
  {
    assert (-k) * d == -(k * d);
    if k >= 1 {
      MulAtLeast(k, d);
    } else if k <= -1 {
      MulAtLeast(-k, d);
    }
  }

  lemma Euclid(a: int, d: int)
    requires d > 0
    ensures a == a / d * d + a % d && 0 <= a % d < d
  {
  }

  lemma MulAtLeast(k: int, d: int)
    requires k >= 1 && d > 0
    ensures k * d >= d
  {
    assert (k - 1) * d >= 0;
  }

  lemma PowersOfTwo()
    ensures Pow2(5) == 32 && Pow2(8) == 256 && Pow2(32) == WORD
  {
    assert Pow2(2) == 4;
    assert Pow2(4) == 16;
    assert Pow2(6) == 64;
    Pow2Add(8, 8);
    Pow2Add(16, 16);
  }

  lemma {:induction false} Pow2Add(m: nat, n: nat)
    ensures Pow2(m + n) == Pow2(m) * Pow2(n)
    decreases n
  {
    if n > 0 { Pow2Add(m, n - 1); }
  }

  // ---------- bit strings ----------

  // The n low bits of v.
  function BitsOf(v: nat, n: nat): (bs: seq<bool>)
    ensures |bs| == n
  {
    if n == 0 then [] else BitsOf(v / 2, n - 1) + [v % 2 == 1]
  }

  function ValueOf(bs: seq<bool>): nat {
    if bs == [] then 0 else 2 * ValueOf(bs[..|bs| - 1]) + (if bs[|bs| - 1] then 1 else 0)
  }

  lemma {:induction false} ValueOfBits(v: nat, n: nat)
    ensures ValueOf(BitsOf(v, n)) == v % Pow2(n)
    decreases n
  {
    if n > 0 {
      ValueOfBits(v / 2, n - 1);
      assert BitsOf(v, n)[..n - 1] == BitsOf(v / 2, n - 1);
      ModTwice(v, Pow2(n - 1));
    }
  }

  lemma {:induction false} ValueOfFittingBits(v: nat, n: nat)
    requires v < Pow2(n)
    ensures ValueOf(BitsOf(v, n)) == v
    decreases n
  {
    if n > 0 {
      ValueOfFittingBits(v / 2, n - 1);
      assert BitsOf(v, n)[..n - 1] == BitsOf(v / 2, n - 1);
    }
  }

  lemma {:induction false} BitsOfValue(bs: seq<bool>)
    ensures BitsOf(ValueOf(bs), |bs|) == bs && ValueOf(bs) < Pow2(|bs|)
  {
    if bs != [] {
      BitsOfValue(bs[..|bs| - 1]);
    }
  }

  lemma {:induction false} BitsJoin(v: nat, q: nat, r: nat, m: nat, n: nat)
    requires r < Pow2(n) && v == q * Pow2(n) + r
    ensures BitsOf(v, m + n) == BitsOf(q, m) + BitsOf(r, n)
    decreases n
  {
    if n > 0 {
      var p := Pow2(n - 1);
      Doubled(q, p);
      HalfOf(v, q * p, r);
      BitsJoin(v / 2, q, r / 2, m, n - 1);
      assert m + n - 1 == m + (n - 1);
      assert BitsOf(v, m + n) == BitsOf(v / 2, m + (n - 1)) + [v % 2 == 1];
    }
  }

  lemma {:induction false} BitsSplit(v: nat, m: nat, n: nat)
    ensures BitsOf(v, m + n) == BitsOf(Shr(v, n), m) + BitsOf(v, n)
    decreases n
  {
    if n > 0 {
      BitsSplit(v / 2, m, n - 1);
      assert m + n - 1 == m + (n - 1);
    }
  }

  // Only the n low bits matter.
  lemma {:induction false} BitsOfMod(v: nat, n: nat, k: nat)
    requires n <= k
    ensures BitsOf(v % Pow2(k), n) == BitsOf(v, n)
    decreases n
  {
    if n > 0 {
      ModTwice(v, Pow2(k - 1));
      BitsOfMod(v / 2, n - 1, k - 1);
    }
  }

  function Zeros(n: nat): (bs: seq<bool>)
    ensures |bs| == n
  {
    if n == 0 then [] else Zeros(n - 1) + [false]
  }

  lemma {:induction false} ValueOfPadded(bs: seq<bool>, n: nat)
    ensures ValueOf(bs + Zeros(n)) == ValueOf(bs) * Pow2(n)
    decreases n
  {
    if n == 0 {
      assert bs + Zeros(0) == bs;
    } else {
      ValueOfPadded(bs, n - 1);
      Doubled(ValueOf(bs), Pow2(n - 1));
      assert (bs + Zeros(n))[..|bs| + n - 1] == bs + Zeros(n - 1);
    }
  }

  // A word shifted left by a byte or a symbol, with the new bits put in below: the pending bits,
  // then the new ones, as long as they fit into the word together.
  lemma AppendBits(value: nat, bits: nat, low: nat, n: nat)
    requires low < Pow2(n) && bits + n <= 32
    ensures
      var next := Or(Shl(value, n), low);
      && next < WORD
      && BitsOf(next, bits + n) == BitsOf(value, bits) + BitsOf(low, n)
  {
    var kept, p := value % Pow2(32 - n), Pow2(n);
    ShiftedWord(value, n);
    OrBelow(kept, low, n);
    BitsJoin(kept * p + low, kept, low, bits, n);
    BitsOfMod(value, bits, 32 - n);
    Pow2Add(32 - n, n);
    PowersOfTwo();
    Euclid(value, Pow2(32 - n));
    BelowProduct(kept, Pow2(32 - n), low, p);
  }

  lemma BelowProduct(x: nat, a: nat, r: nat, p: nat)
    requires x < a && r < p
    ensures x * p + r < a * p
  {
    MulAtLeast(a - x, p);
    assert a * p == x * p + (a - x) * p;
  }

  lemma ShiftedWord(value: nat, n: nat)
    requires n <= 32
    ensures Shl(value, n) == (value % Pow2(32 - n)) * Pow2(n)
  {
    var a, p := Pow2(32 - n), Pow2(n);
    Pow2Add(32 - n, n);
    PowersOfTwo();
    ScaledMod(value, a, p);
  }

  lemma ScaledMod(v: nat, a: nat, p: nat)
    requires a > 0 && p > 0
    ensures (v * p) % (a * p) == (v % a) * p
  {
    var q, r := v / a, v % a;
    Euclid(v, a);
    assert v * p == (q * a) * p + r * p;
    assert (q * a) * p == q * (a * p);
    BelowProduct(r, a, 0, p);
    DivModUnique(v * p, a * p, q, r * p);
  }
}
