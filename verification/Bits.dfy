/** Unsigned machine arithmetic on naturals: powers of two, the bitwise operators,
    and the count-zero builtins used when address ranges are split into CIDR blocks. */
module Bits {

  function Pow2(k: nat): (p: nat)
    ensures p > 0
  {
    if k == 0 then 1 else 2 * Pow2(k - 1)
  }

  function And(x: nat, y: nat): nat {
    if x == 0 || y == 0 then 0 else (x % 2) * (y % 2) + 2 * And(x / 2, y / 2)
  }

  function Or(x: nat, y: nat): nat
    decreases x + y
  {
    if x == 0 then y else if y == 0 then x
    else (if x % 2 == 1 || y % 2 == 1 then 1 else 0) + 2 * Or(x / 2, y / 2)
  }

  /** Complement of a `w`-bit word. */
  function Not(w: nat, x: nat): nat
    requires x < Pow2(w)
  {
    Pow2(w) - 1 - x
  }

  /** Number of trailing zero bits, `__builtin_ctzll`. */
  function Ctz(n: nat): nat
    requires n > 0
  {
    if n % 2 == 1 then 0 else 1 + Ctz(n / 2)
  }

  /** Position of the highest set bit, `63 - __builtin_clzll`. */
  function FloorLog2(n: nat): nat
    requires n > 0
  {
    if n == 1 then 0 else 1 + FloorLog2(n / 2)
  }

  lemma {:induction false} Pow2Add(a: nat, b: nat)
    ensures Pow2(a + b) == Pow2(a) * Pow2(b)
  {
    if a > 0 {
      Pow2Add(a - 1, b);
    }
  }

  lemma {:induction false} Pow2Monotone(a: nat, b: nat)
    requires a <= b
    ensures Pow2(a) <= Pow2(b)
  {
    Pow2Add(a, b - a);
    assert Pow2(a) * 1 <= Pow2(a) * Pow2(b - a);
  }

  lemma Pow2StrictlyMonotone(a: nat, b: nat)
    requires Pow2(a) < Pow2(b)
    ensures a < b
  {
    if b <= a {
      Pow2Monotone(b, a);
    }
  }

  /** Doubling commutes with taking a residue. */
  lemma DoubleMod(n: nat, m: nat)
    requires m > 0
    ensures (2 * n) % (2 * m) == 2 * (n % m)
    ensures (2 * n + 1) % (2 * m) == 2 * (n % m) + 1
  {
    var q, r := n / m, n % m;
    assert n == q * m + r;
    assert 2 * n == q * (2 * m) + 2 * r;
    ModUnique(2 * n, 2 * m, q, 2 * r);
    ModUnique(2 * n + 1, 2 * m, q, 2 * r + 1);
  }

  lemma MulAtLeast(a: int, m: int)
    requires a >= 1 && m >= 0
    ensures a * m >= m
  {
    assert a * m == m + (a - 1) * m;
  }

  /** Uniqueness of quotient and remainder. */
  lemma ModUnique(n: int, m: int, q: int, r: int)
    requires m > 0 && 0 <= r < m && n == q * m + r
    ensures n % m == r && n / m == q
  {
    DivisionUnique(m, q, r, n / m, n % m);
  }

  lemma DivisionUnique(m: int, q: int, r: int, q': int, r': int)
    requires 0 <= r < m && 0 <= r' < m && q * m + r == q' * m + r'
    ensures q == q' && r == r'
  {
    var d := q - q';
    assert d * m == q * m - q' * m == r' - r;
    if d >= 1 {
      MulAtLeast(d, m);
    } else if d <= -1 {
      MulAtLeast(-d, m);
    }
  }

  lemma {:induction false} CtzSpec(n: nat)
    requires n > 0
    ensures n % Pow2(Ctz(n)) == 0 && n % Pow2(Ctz(n) + 1) != 0
  {
    if n % 2 == 0 {
      CtzSpec(n / 2);
      DoubleMod(n / 2, Pow2(Ctz(n / 2)));
      DoubleMod(n / 2, Pow2(Ctz(n / 2) + 1));
    }
  }

  lemma {:induction false} FloorLog2Spec(n: nat)
    requires n > 0
    ensures Pow2(FloorLog2(n)) <= n < Pow2(FloorLog2(n) + 1)
  {
    if n > 1 {
      FloorLog2Spec(n / 2);
    }
  }

  /** A residue modulo a power of two determines divisibility by the smaller ones. */
  lemma SmallerPowerDivides(n: nat, j: nat, k: nat)
    requires j <= k && n % Pow2(k) == 0
    ensures n % Pow2(j) == 0
  {
    Pow2Add(j, k - j);
    var q, a, b := n / Pow2(k), Pow2(j), Pow2(k - j);
    assert n == q * Pow2(k);
    assert q * (a * b) == (q * b) * a by { MulSwap(q, a, b); }
    ModUnique(n, a, q * b, 0);
  }

  lemma MulSwap(q: int, a: int, b: int)
    ensures q * (a * b) == (q * b) * a
  {
  }

  /** Ctz is the largest exponent whose power divides `n`. */
  lemma CtzLargest(n: nat, k: nat)
    requires n > 0 && n % Pow2(k) == 0
    ensures k <= Ctz(n)
  {
    CtzSpec(n);
    if k > Ctz(n) {
      SmallerPowerDivides(n, Ctz(n) + 1, k);
    }
  }

  lemma FloorLog2Largest(n: nat, k: nat)
    requires n > 0 && Pow2(k) <= n
    ensures k <= FloorLog2(n)
  {
    FloorLog2Spec(n);
    Pow2StrictlyMonotone(k, FloorLog2(n) + 1);
  }

  lemma {:induction false} CtzOfPow2(k: nat)
    ensures Ctz(Pow2(k)) == k
  {
    if k > 0 {
      CtzOfPow2(k - 1);
    }
  }

  // ---- bitwise identities -------------------------------------------------

  lemma {:induction false} AndComplement(w: nat, x: nat)
    requires x < Pow2(w)
    ensures And(x, Not(w, x)) == 0
  {
    if w > 0 && x > 0 && Not(w, x) > 0 {
      AndComplement(w - 1, x / 2);
      assert Not(w, x) / 2 == Not(w - 1, x / 2);
    }
  }

  /** `x & (~x + 1)` isolates the lowest set bit of a word. */
  lemma {:induction false} LowestSetBit(w: nat, x: nat)
    requires 0 < x < Pow2(w)
    ensures And(x, Not(w, x) + 1) == Pow2(Ctz(x))
  {
    var y := Pow2(w) - x;
    if x % 2 == 1 {
      AndComplement(w - 1, x / 2);
      assert y / 2 == Not(w - 1, x / 2) && y % 2 == 1;
    } else {
      LowestSetBit(w - 1, x / 2);
      assert y / 2 == Not(w - 1, x / 2) + 1 && y % 2 == 0;
    }
  }

  lemma {:induction false} AndAllOnes(w: nat, x: nat)
    requires x < Pow2(w)
    ensures And(x, Pow2(w) - 1) == x
  {
    if w > 0 && x > 0 {
      AndAllOnes(w - 1, x / 2);
      assert (Pow2(w) - 1) / 2 == Pow2(w - 1) - 1;
    }
  }

  /** Masking off the low `h` bits rounds down to a multiple of 2^h. */
  lemma {:induction false} AndHighMask(w: nat, h: nat, x: nat)
    requires h <= w && x < Pow2(w)
    ensures Pow2(h) <= Pow2(w)
    ensures And(x, Pow2(w) - Pow2(h)) == x - x % Pow2(h)
  {
    Pow2Monotone(h, w);
    if h == 0 || h == w || x == 0 {
      AndHighMaskBase(w, h, x);
    } else {
      Pow2Monotone(h - 1, w - 1);
      AndHighMask(w - 1, h - 1, x / 2);
      AndHighMaskStep(w, h, x);
    }
  }

  lemma AndHighMaskBase(w: nat, h: nat, x: nat)
    requires h <= w && x < Pow2(w) && Pow2(h) <= Pow2(w)
    requires h == 0 || h == w || x == 0
    ensures And(x, Pow2(w) - Pow2(h)) == x - x % Pow2(h)
  {
    if h == 0 {
      AndAllOnes(w, x);
      assert Pow2(0) == 1;
    } else if x == 0 {
      ModUnique(0, Pow2(h), 0, 0);
    } else {
      ModUnique(x, Pow2(w), 0, x);
    }
  }

  lemma RoundDownHalf(x: nat, m: nat)
    requires m > 0
    ensures x - x % (2 * m) == 2 * (x / 2 - (x / 2) % m)
  {
    DoubleMod(x / 2, m);
    assert x == 2 * (x / 2) || x == 2 * (x / 2) + 1;
  }

  lemma AndHighMaskStep(w: nat, h: nat, x: nat)
    requires 0 < h < w && 0 < x < Pow2(w) && Pow2(h - 1) <= Pow2(w - 1)
    requires And(x / 2, Pow2(w - 1) - Pow2(h - 1)) == x / 2 - (x / 2) % Pow2(h - 1)
    ensures Pow2(h) <= Pow2(w)
    ensures And(x, Pow2(w) - Pow2(h)) == x - x % Pow2(h)
  {
    var m, m' := Pow2(w) - Pow2(h), Pow2(w - 1) - Pow2(h - 1);
    assert m == 2 * m';
    assert And(x, m) == 2 * And(x / 2, m') by {
      assert m % 2 == 0 && m / 2 == m';
    }
    RoundDownHalf(x, Pow2(h - 1));
  }

  /** Setting the low `h` bits of a multiple of 2^h adds 2^h - 1. */
  lemma {:induction false} OrLowMask(h: nat, x: nat)
    requires x % Pow2(h) == 0
    ensures Or(x, Pow2(h) - 1) == x + Pow2(h) - 1
  {
    if h > 0 && x > 0 {
      HalveMultiple(h, x);
      OrLowMask(h - 1, x / 2);
      var m := Pow2(h - 1);
      assert Pow2(h) - 1 == 1 + 2 * (m - 1);
      assert (Pow2(h) - 1) / 2 == m - 1 && (Pow2(h) - 1) % 2 == 1;
    }
  }

  lemma HalveMultiple(h: nat, x: nat)
    requires h > 0 && x % Pow2(h) == 0
    ensures x % 2 == 0 && (x / 2) % Pow2(h - 1) == 0
  {
    assert Pow2(1) == 2;
    SmallerPowerDivides(x, 1, h);
    DoubleMod(x / 2, Pow2(h - 1));
  }
}
