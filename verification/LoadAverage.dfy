/** The arithmetic of the load average (core.c): rounded fixed-point multiplication, powers
    in O(log n), and a closed form that stands in for n steps of exponential decay. */
module LoadAverage {
  import opened Arithmetic

  const FSHIFT: nat := 11
  const FIXED_1: nat := 2048
  const EXP_1: nat := 1884
  const EXP_5: nat := 2014
  const EXP_15: nat := 2037

  function Pow2(n: nat): (r: nat)
    ensures r > 0
  {
    if n == 0 then 1 else 2 * Pow2(n - 1)
  }

  /** A fixed-point one: even, since it has at least one fractional bit. */
  ghost predicate One(f: nat) {
    f > 0 && f % 2 == 0
  }

  lemma {:induction false} Pow2Even(n: nat)
    requires n >= 1
    ensures One(Pow2(n)) && Pow2(n) / 2 == Pow2(n - 1)
  {
    hide Pow2;
    Doubled(n, Pow2(n - 1));
  }

  lemma Doubled(n: nat, half: nat)
    requires n >= 1 && half == Pow2(n - 1)
    ensures Pow2(n) == 2 * half && (2 * half) % 2 == 0 && (2 * half) / 2 == half
  {
  }

  /** The product shifted back, to the nearest. */
  function Rounded(x: nat, f: nat): nat
    requires f > 0
  {
    (x + f / 2) / f
  }

  /** A product of two words, scaled back to the nearest; each operation wraps at a word. */
  function Scaled(x: nat, y: nat, f: nat): nat
    requires f > 0
  {
    ((x * y) % ULONG + f / 2) % ULONG / f
  }

  /** The loop of fixed_power_int, for n > 0. */
  function PowerLoop(result: nat, x: nat, f: nat, n: nat): nat
    requires f > 0 && n > 0
    decreases n
  {
    var next := if n % 2 == 1 then Scaled(result, x, f) else result;
    if n / 2 == 0 then next else PowerLoop(next, Scaled(x, x, f), f, n / 2)
  }

  function FixedPower(x: nat, f: nat, n: nat): nat
    requires f > 0
  {
    if n == 0 then f else PowerLoop(f, x, f, n)
  }

  method FixedPowerInt(base: nat, fracBits: nat, exponent: nat) returns (result: nat)
    requires fracBits >= 1
    ensures result == FixedPower(base, Pow2(fracBits), exponent)
  {
    hide Pow2, Scaled;
    var f := Pow2(fracBits);
    var x, n := base, exponent;
    result := f;
    if n != 0 {
      while true
        invariant n > 0
        invariant PowerLoop(result, x, f, n) == PowerLoop(f, base, f, exponent)
        decreases n
      {
        if n % 2 == 1 {
          result := Scaled(result, x, f);
        }
        n := n / 2;
        if n == 0 {
          break;
        }
        x := Scaled(x, x, f);
      }
    }
  }

  function Mix(load: nat, exp: nat, active: nat): nat
    requires exp <= FIXED_1
  {
    MulNonNegative(load, exp);
    MulNonNegative(active, FIXED_1 - exp);
    load * exp + active * (FIXED_1 - exp)
  }

  /** One step of decay: exp parts of the old load, the rest of the active count. */
  function CalcLoad(load: nat, exp: nat, active: nat): nat
    requires exp <= FIXED_1
  {
    (Mix(load, exp, active) + FIXED_1 / 2) % ULONG / FIXED_1
  }

  /** calc_load_n: n steps at once */
  function CalcLoadN(load: nat, exp: nat, active: nat, n: nat): nat
    requires exp <= FIXED_1
  {
    FixedOneRoom(exp);
    PowerBounded(exp, FIXED_1, n);
    CalcLoad(load, FixedPower(exp, FIXED_1, n), active)
  }

  /** n single steps */
  function Steps(load: nat, exp: nat, active: nat, n: nat): nat
    requires exp <= FIXED_1
  {
    if n == 0 then load else CalcLoad(Steps(load, exp, active, n - 1), exp, active)
  }

  // ------------------------------------------------------------------
  // No operation wraps
  // ------------------------------------------------------------------

  /** A base of at most one, whose product with one still fits a word when it is rounded */
  ghost predicate Room(x: nat, f: nat) {
    One(f) && x <= f && f * x + f / 2 < ULONG
  }

  lemma FixedOneRoom(x: nat)
    requires x <= FIXED_1
    ensures Room(x, FIXED_1)
  {
  }

  /** No product of the loop wraps: neither factor exceeds one, and one of them has room. */
  lemma {:induction false} ScaledFits(r: nat, x: nat, f: nat)
    requires Room(x, f) && r <= f
    ensures Scaled(r, x, f) == Rounded(r * x, f) <= f
  {
    hide Rounded;
    MulMonotone(r, f, x);
    Within(r * x, f / 2);
    ProductInRange(r, x, f);
    Shifted(r, x, f);
  }

  lemma Shifted(r: nat, x: nat, f: nat)
    requires f > 0 && ((r * x) % ULONG + f / 2) % ULONG == r * x + f / 2
    ensures Scaled(r, x, f) == Rounded(r * x, f)
  {
  }

  /** Squaring a base of at most one does not enlarge it, so there is room for the next square. */
  lemma {:induction false} SquareRoom(x: nat, f: nat)
    requires Room(x, f)
    ensures Scaled(x, x, f) <= x && Room(Scaled(x, x, f), f)
  {
    hide Scaled, Rounded;
    ScaledFits(x, x, f);
    MulMonotone(x, f, x);
    assert f * x == x * f;
    RoundedBetween(x * x, f, 0, x);
    MulMonotone(Scaled(x, x, f), x, f);
    assert f * Scaled(x, x, f) == Scaled(x, x, f) * f;
  }

  lemma Within(x: nat, y: nat)
    requires x + y < ULONG
    ensures (x % ULONG + y) % ULONG == x + y
  {
  }

  /** A step is exact precisely when the weighted sum is below the word size. */
  lemma {:induction false} CalcLoadExactIff(load: nat, exp: nat, active: nat)
    requires exp <= FIXED_1
    ensures CalcLoad(load, exp, active) == Rounded(Mix(load, exp, active), FIXED_1)
      <==> Mix(load, exp, active) + FIXED_1 / 2 < ULONG
  {
    hide Mix;
    var v := Mix(load, exp, active) + FIXED_1 / 2;
    if v >= ULONG {
      assert v % ULONG <= v - ULONG;
    }
  }

  /** Loads and active counts below LIMIT never wrap: fewer than 1024 tasks. */
  const LIMIT: nat := ULONG / FIXED_1

  lemma {:induction false} CalcLoadFits(load: nat, exp: nat, active: nat)
    requires exp <= FIXED_1 && load < LIMIT && active < LIMIT
    ensures Mix(load, exp, active) + FIXED_1 / 2 < ULONG
    ensures CalcLoad(load, exp, active) == Rounded(Mix(load, exp, active), FIXED_1)
  {
    hide CalcLoad, Rounded, Mix;
    MixBounded(load, exp, active, LIMIT - 1);
    CalcLoadExactIff(load, exp, active);
  }

  lemma {:induction false} MixBounded(load: nat, exp: nat, active: nat, m: nat)
    requires exp <= FIXED_1 && load <= m && active <= m
    ensures Mix(load, exp, active) <= m * FIXED_1
  {
    var rest := FIXED_1 - exp;
    MulMonotone(load, m, exp);
    MulMonotone(active, m, rest);
    assert m * exp + m * rest == m * FIXED_1;
  }

  /** At LIMIT it goes wrong: a steady load of 1024 tasks is reported as none. */
  lemma {:induction false} SteadyLoadWraps(exp: nat)
    requires exp <= FIXED_1
    ensures CalcLoad(LIMIT, exp, LIMIT) == 0
  {
    assert LIMIT * exp + LIMIT * (FIXED_1 - exp) == ULONG;
  }

  // ------------------------------------------------------------------
  // Ranges
  // ------------------------------------------------------------------

  lemma {:induction false} RoundedBetween(x: nat, f: nat, lo: nat, hi: nat)
    requires One(f) && lo * f <= x <= hi * f
    ensures lo <= Rounded(x, f) <= hi
  {
    DivMonotone(x + f / 2, hi * f + f / 2, f);
    DivUnique(hi * f + f / 2, f, hi);
    DivMonotone(lo * f + f / 2, x + f / 2, f);
    DivUnique(lo * f + f / 2, f, lo);
  }

  lemma {:induction false} ProductInRange(x: nat, y: nat, f: nat)
    requires One(f) && x <= f && y <= f
    ensures Rounded(x * y, f) <= f
  {
    MulMonotone(x, f, y);
    MulMonotone(y, f, f);
    RoundedBetween(x * y, f, 0, f);
  }

  lemma {:induction false} PowerInRange(result: nat, x: nat, f: nat, n: nat)
    requires f > 0 && Room(x, f) && result <= f && n > 0
    ensures PowerLoop(result, x, f, n) <= f
    decreases n
  {
    hide Scaled, Rounded, Room;
    ScaledFits(result, x, f);
    SquareRoom(x, f);
    if n / 2 != 0 {
      PowerInRange(if n % 2 == 1 then Scaled(result, x, f) else result, Scaled(x, x, f), f, n / 2);
    }
  }

  lemma {:induction false} PowerBounded(x: nat, f: nat, n: nat)
    requires Room(x, f)
    ensures FixedPower(x, f, n) <= f
  {
    if n > 0 {
      PowerInRange(f, x, f, n);
    }
  }

  /** A step that does not wrap stays between the load it started from and the active count. */
  lemma {:induction false} CalcLoadBetween(load: nat, exp: nat, active: nat)
    requires exp <= FIXED_1 && Mix(load, exp, active) + FIXED_1 / 2 < ULONG
    ensures Min(load, active) <= CalcLoad(load, exp, active) <= Max(load, active)
  {
    hide CalcLoad, Rounded;
    CalcLoadExactIff(load, exp, active);
    var lo, hi := Min(load, active), Max(load, active);
    var rest := FIXED_1 - exp;
    MulMonotone(lo, load, exp);
    MulMonotone(lo, active, rest);
    MulMonotone(load, hi, exp);
    MulMonotone(active, hi, rest);
    assert lo * exp + lo * rest == lo * FIXED_1;
    assert hi * exp + hi * rest == hi * FIXED_1;
    RoundedBetween(Mix(load, exp, active), FIXED_1, lo, hi);
  }

  lemma {:induction false} StepsBetween(load: nat, exp: nat, active: nat, n: nat)
    requires exp <= FIXED_1 && load < LIMIT && active < LIMIT
    ensures Min(load, active) <= Steps(load, exp, active, n) <= Max(load, active)
  {
    hide CalcLoad;
    if n > 0 {
      StepsBetween(load, exp, active, n - 1);
      CalcLoadFits(Steps(load, exp, active, n - 1), exp, active);
      CalcLoadBetween(Steps(load, exp, active, n - 1), exp, active);
    }
  }

  // ------------------------------------------------------------------
  // How far rounding strays
  // ------------------------------------------------------------------

  ghost predicate Close(x: real, y: real, e: real) {
    -e <= x - y <= e
  }

  /** A product under a name, so that proofs that only pass it on need not look into it. */
  ghost function Mul(x: real, y: real): real { x * y }

  ghost function Power(b: real, n: nat): real {
    if n == 0 then 1.0 else Mul(b, Power(b, n - 1))
  }

  lemma {:induction false} PowerAdd(b: real, m: nat, n: nat)
    ensures Power(b, m + n) == Mul(Power(b, m), Power(b, n))
  {
    hide Mul;
    if m == 0 {
      MulOne(Power(b, n));
    } else {
      PowerAdd(b, m - 1, n);
      MulAssociates(b, Power(b, m - 1), Power(b, n));
    }
  }

  lemma MulOne(x: real)
    ensures Mul(1.0, x) == x
  {
  }

  lemma MulAssociates(x: real, y: real, z: real)
    ensures Mul(x, Mul(y, z)) == Mul(Mul(x, y), z)
  {
  }

  lemma {:induction false} PowerUnit(b: real, n: nat)
    requires 0.0 <= b <= 1.0
    ensures 0.0 <= Power(b, n) <= 1.0
  {
    if n > 0 {
      PowerUnit(b, n - 1);
      Shrinks(Power(b, n - 1), b, 1.0);
    }
  }

  lemma RealMulNonNegative(x: real, y: real)
    requires x >= 0.0 && y >= 0.0
    ensures x * y >= 0.0
  {
  }

  /** A factor between 0 and 1 does not enlarge. */
  lemma {:induction false} Shrinks(d: real, x: real, a: real)
    requires -a <= d <= a && 0.0 <= x <= 1.0
    ensures -a <= x * d <= a
    ensures d >= 0.0 ==> x * d >= 0.0
  {
    var y := 1.0 - x;
    if d >= 0.0 {
      RealMulNonNegative(y, d);
      RealMulNonNegative(x, d);
      assert y * d == d - x * d;
    } else {
      RealMulNonNegative(y, -d);
      RealMulNonNegative(x, -d);
      assert x * (-d) == -(x * d);
      assert y * (-d) == -d + x * d;
    }
  }

  lemma RealMulPositive(x: real, y: real)
    requires x > 0.0 && y > 0.0
    ensures x * y > 0.0
  {
  }

  lemma IntProduct(q: int, f: int)
    ensures (q * f) as real == q as real * f as real
  {
  }

  /** Multiplying by a positive factor keeps the order, both ways. */
  lemma {:induction false} ScaleOrder(x: real, y: real, z: real)
    requires z > 0.0
    ensures x <= y <==> x * z <= y * z
  {
    assert (y - x) * z == y * z - x * z;
    assert (x - y) * z == x * z - y * z;
    if x <= y { RealMulNonNegative(y - x, z); } else { RealMulPositive(x - y, z); }
  }

  lemma Quotient(x: real, f: real)
    requires f > 0.0
    ensures (x / f) * f == x
  {
  }

  /** A value whose multiple is close is close to the quotient. */
  lemma {:induction false} CloseQuotient(q: real, x: real, f: real, e: real)
    requires f > 0.0 && Close(q * f, x, e * f)
    ensures Close(q, x / f, e)
  {
    var y := x / f;
    Quotient(x, f);
    Distribute(q, y, f);
    Distribute(0.0, e, f);
    ScaleOrder(q - y, e, f);
    ScaleOrder(-e, q - y, f);
  }

  lemma Distribute(x: real, y: real, f: real)
    ensures (x - y) * f == x * f - y * f
    ensures (-y) * f == -(y * f)
  {
  }

  /** Rounding to the nearest is off by at most a half. */
  lemma {:induction false} RoundedClose(x: nat, f: nat)
    requires One(f)
    ensures Close(Rounded(x, f) as real, x as real / f as real, 0.5)
  {
    var q := Rounded(x, f);
    DivMod(x + f / 2, f);
    assert 2 * (f / 2) == f;
    IntProduct(q, f);
    var p: int := q * f;
    assert -(f as int) <= 2 * p - 2 * x <= f;
    assert Close(p as real, x as real, 0.5 * f as real);
    CloseQuotient(q as real, x as real, f as real, 0.5);
  }

  // ------------------------------------------------------------------
  // fixed_power_int
  // ------------------------------------------------------------------

  /** v stands for the exact value e, off by at most k half units of the last place. */
  ghost predicate Off(v: nat, e: real, f: nat, k: int) {
    Close(v as real, Mul(e, f as real), k as real / 2.0)
  }

  /** Errors add when two values in range are multiplied and scaled back. */
  lemma {:induction false} RawProduct(r: real, re: real, x: real, xe: real, f: real, a: real, b: real, y: real)
    requires f > 0.0 && 0.0 <= x <= f && 0.0 <= re <= 1.0
    requires Close(r, Mul(re, f), a) && Close(x, Mul(xe, f), b)
    requires Mul(y, f) == Mul(r, x)
    ensures Close(y, Mul(Mul(re, xe), f), a + b)
  {
    var u := x / f;
    Quotient(x, f);
    UnitFraction(x, f);
    SameProduct(y, u, r, x, f);
    TwoErrors(r, re, x, xe, f, u, a, b);
  }

  lemma {:induction false} TwoErrors(r: real, re: real, x: real, xe: real, f: real, u: real, a: real, b: real)
    requires u * f == x && 0.0 <= u <= 1.0 && 0.0 <= re <= 1.0
    requires Close(r, Mul(re, f), a) && Close(x, Mul(xe, f), b)
    ensures Close(u * r, Mul(Mul(re, xe), f), a + b)
  {
    Shrinks(r - re * f, u, a);
    Shrinks(x - xe * f, re, b);
    Expand(r, re, x, xe, f, u);
  }

  lemma {:induction false} UnitFraction(x: real, f: real)
    requires f > 0.0 && 0.0 <= x <= f
    ensures 0.0 <= x / f <= 1.0
  {
    Quotient(x, f);
    ScaleOrder(0.0, x / f, f);
    ScaleOrder(x / f, 1.0, f);
  }

  lemma {:induction false} SameProduct(y: real, u: real, r: real, x: real, f: real)
    requires f > 0.0 && y * f == r * x && u * f == x
    ensures y == u * r
  {
    var z := u * r;
    assert z * f == r * (u * f);
    ScaleOrder(z, y, f);
    ScaleOrder(y, z, f);
  }

  lemma {:induction false} Expand(r: real, re: real, x: real, xe: real, f: real, y: real)
    requires y * f == x
    ensures y * r - (re * xe) * f == y * (r - re * f) + re * (x - xe * f)
  {
    var t := re * f;
    assert y * (r - t) == y * r - y * t;
    assert y * t == re * (y * f);
    var u := xe * f;
    assert re * (x - u) == re * x - re * u;
    assert re * u == (re * xe) * f;
  }

  /** Rounding adds one half. */
  lemma {:induction false} ProductOff(r: nat, re: real, x: nat, xe: real, f: nat, a: int, b: int, p: nat)
    requires One(f) && x <= f && 0.0 <= re <= 1.0 && Off(r, re, f, a) && Off(x, xe, f, b) && p == r * x
    ensures Off(Rounded(p, f), Mul(re, xe), f, a + b + 1)
  {
    hide Rounded, Mul;
    var y := ScaledBack(r, x, f, p);
    RawProduct(r as real, re, x as real, xe, f as real, a as real / 2.0, b as real / 2.0, y);
    HalfMore(Rounded(p, f) as real, y, Mul(Mul(re, xe), f as real), a, b);
  }

  lemma HalfMore(x: real, y: real, z: real, a: int, b: int)
    requires Close(x, y, 0.5) && Close(y, z, a as real / 2.0 + b as real / 2.0)
    ensures Close(x, z, (a + b + 1) as real / 2.0)
  {
  }

  lemma {:induction false} ScaledBack(r: nat, x: nat, f: nat, p: nat) returns (y: real)
    requires One(f) && p == r * x
    ensures Mul(y, f as real) == Mul(r as real, x as real) && Close(Rounded(p, f) as real, y, 0.5)
  {
    hide Rounded;
    y := p as real / f as real;
    IntProduct(r, x);
    Quotient(p as real, f as real);
    RoundedClose(p, f);
  }

  /** Multiplying by the fixed-point one changes nothing. */
  lemma {:induction false} OneTimes(x: nat, f: nat)
    requires One(f)
    ensures Rounded(f * x, f) == x
  {
    DivUnique(f * x + f / 2, f, x);
  }

  /** result stands for the p-th power of b, off by p - 1 half units; exactly one if p is 0. */
  ghost predicate Stands(result: nat, b: real, p: nat, f: nat) {
    if p == 0 then result == f else Off(result, Power(b, p), f, p - 1)
  }

  lemma {:induction false} StandsForProduct(r: nat, p: nat, x: nat, q: nat, b: real, f: nat)
    requires f > 0 && Room(x, f) && r <= f && 0.0 <= b <= 1.0 && q >= 1
    requires Stands(r, b, p, f) && Stands(x, b, q, f)
    ensures Scaled(r, x, f) <= f && Stands(Scaled(r, x, f), b, p + q, f)
  {
    hide Scaled, Off, Mul;
    assert One(f);
    ScaledFits(r, x, f);
    if p == 0 {
      OneTimes(x, f);
    } else {
      PowerUnit(b, p);
      PowerAdd(b, p, q);
      ProductOff(r, Power(b, p), x, Power(b, q), f, p - 1, q - 1, r * x);
    }
  }

  lemma HalvedExponent(q: nat, n: nat)
    ensures q * n == (q + q) * (n / 2) + (if n % 2 == 1 then q else 0)
    ensures q * 1 == q
  {
    assert n == 2 * (n / 2) + n % 2;
    assert q * n == q * (2 * (n / 2)) + q * (n % 2);
  }

  /** The loop multiplies the p-th power by the n-th power of the q-th. */
  lemma {:induction false} PowerLoopStands(r: nat, p: nat, x: nat, q: nat, b: real, f: nat, n: nat)
    requires f > 0 && Room(x, f) && r <= f && 0.0 <= b <= 1.0 && q >= 1 && n > 0
    requires Stands(r, b, p, f) && Stands(x, b, q, f)
    ensures q * n >= 0 && Stands(PowerLoop(r, x, f, n), b, p + q * n, f)
    decreases n
  {
    hide Stands, Scaled, Room;
    MulNonNegative(q, n);
    HalvedExponent(q, n);
    StandsForProduct(r, p, x, q, b, f);
    SquareRoom(x, f);
    AtMostOne(x, f);
    StandsForProduct(x, q, x, q, b, f);
    var odd := n % 2 == 1;
    var next, p' := if odd then Scaled(r, x, f) else r, if odd then p + q else p;
    if n / 2 == 0 {
      assert n == 1;
    } else {
      PowerLoopStands(next, p', Scaled(x, x, f), q + q, b, f, n / 2);
    }
  }

  lemma AtMostOne(x: nat, f: nat)
    requires Room(x, f)
    ensures x <= f
  {
  }

  /** The n-th power is at most one, and within (n - 1) / 2 units of the exact value, whenever one
      times the base can be rounded within a word. */
  lemma {:induction false} FixedPowerClose(x: nat, fracBits: nat, n: nat)
    requires fracBits >= 1 && x <= Pow2(fracBits) && n >= 1
    requires Pow2(fracBits) * x + Pow2(fracBits) / 2 < ULONG
    ensures
      var f := Pow2(fracBits);
      FixedPower(x, f, n) <= f && Off(FixedPower(x, f, n), Power(x as real / f as real, n), f, n - 1)
  {
    hide PowerLoop, Scaled, Pow2, FixedPower, Off;
    Pow2Even(fracBits);
    PowerClose(x, Pow2(fracBits), n);
  }

  lemma {:induction false} PowerClose(x: nat, f: nat, n: nat)
    requires Room(x, f) && n >= 1
    ensures FixedPower(x, f, n) <= f
    ensures Off(FixedPower(x, f, n), Power(x as real / f as real, n), f, n - 1)
  {
    hide PowerLoop;
    var b := x as real / f as real;
    Quotient(x as real, f as real);
    UnitFraction(x as real, f as real);
    PowerOne(b);
    PowerLoopStands(f, 0, x, 1, b, f, n);
    PowerBounded(x, f, n);
  }

  lemma PowerOne(b: real)
    ensures Power(b, 1) == b
  {
    assert Power(b, 0) == 1.0;
  }

  /** Up to fifteen fractional bits there is room for every base of at most one. */
  lemma {:induction false} RoomInWord(x: nat, fracBits: nat)
    requires 1 <= fracBits <= 15 && x <= Pow2(fracBits)
    ensures Room(x, Pow2(fracBits))
  {
    var f := Pow2(fracBits);
    Pow2Even(fracBits);
    Pow2Monotone(fracBits, 15);
    assert Pow2(5) == 32;
    assert Pow2(10) == 32 * Pow2(5);
    assert Pow2(15) == 32 * Pow2(10) == 32768;
    MulMonotone(f, 32768, x);
    MulMonotone(x, 32768, 32768);
  }

  /** With more of them the condition is exact: even the first power of a word is that word just
      if there is room. */
  lemma {:induction false} FirstPowerIff(x: nat, fracBits: nat)
    requires 1 <= fracBits <= 31
    ensures FixedPower(x, Pow2(fracBits), 1) == x <==> Pow2(fracBits) * x + Pow2(fracBits) / 2 < ULONG
  {
    hide Pow2, FixedPower;
    var f, g := Pow2(fracBits), Pow2(32 - fracBits);
    Pow2Even(fracBits);
    WordSplits(fracBits);
    FirstPower(x, f, g);
    RoomBelow(x, f, g);
    SmallRemainder(x, g);
  }

  lemma {:induction false} RoomBelow(x: nat, f: nat, g: nat)
    requires One(f) && f * g == ULONG && g > 0
    ensures f * x + f / 2 < ULONG <==> x < g
  {
    if x < g {
      MulMonotone(x, g - 1, f);
      assert (g - 1) * f == f * g - f;
    } else {
      MulMonotone(g, x, f);
    }
    assert x * f == f * x && g * f == f * g;
  }

  lemma SmallRemainder(x: nat, g: nat)
    requires g > 0
    ensures x % g == x <==> x < g
  {
  }

  /** The bits above the word are lost. */
  lemma {:induction false} FirstPower(x: nat, f: nat, g: nat)
    requires One(f) && f * g == ULONG && g > 0
    ensures FixedPower(x, f, 1) == x % g
  {
    var y, a := x % g, x / g;
    assert x == g * a + y;
    assert f * x == (f * g) * a + f * y;
    MulMonotone(y, g - 1, f);
    assert y * f == f * y && (g - 1) * f == f * g - f;
    WordRemainder(f * x, a, f * y);
    Within(f * y, f / 2);
    OneTimes(y, f);
    assert PowerLoop(f, x, f, 1) == Scaled(f, x, f);
    Remains(f * x, f * y, f);
  }

  lemma Remains(p: nat, q: nat, f: nat)
    requires f > 0 && p % ULONG == q && (q + f / 2) % ULONG == q + f / 2
    ensures ((p % ULONG) + f / 2) % ULONG / f == Rounded(q, f)
  {
  }

  lemma {:induction false} WordRemainder(p: nat, a: nat, q: nat)
    requires p == ULONG * a + q && q < ULONG
    ensures p % ULONG == q
  {
  }

  lemma {:induction false} WordSplits(fracBits: nat)
    requires fracBits <= 32
    ensures Pow2(fracBits) * Pow2(32 - fracBits) == ULONG
  {
    Pow2Adds(fracBits, 32 - fracBits);
    assert Pow2(8) == 256 by { assert Pow2(4) == 16; assert Pow2(8) == 16 * Pow2(4); }
    assert Pow2(16) == 256 * Pow2(8) by { Pow2Adds(8, 8); }
    assert Pow2(32) == 65536 * 65536 by { Pow2Adds(16, 16); }
  }

  lemma TwiceProduct(x: nat, y: nat)
    ensures 2 * (x * y) == (2 * x) * y
  {
  }

  lemma {:induction false} Pow2Adds(m: nat, n: nat)
    ensures Pow2(m + n) == Pow2(m) * Pow2(n)
  {
    if m > 0 {
      Pow2Adds(m - 1, n);
      assert (m - 1) + n == m + n - 1;
      TwiceProduct(Pow2(m - 1), Pow2(n));
    }
  }

  /** With sixteen fractional bits the first power of one is zero. */
  lemma {:induction false} OneWraps()
    ensures Pow2(16) == 65536 && FixedPower(65536, 65536, 1) == 0
  {
    Pow2Adds(8, 8);
    assert Pow2(8) == 256 by { assert Pow2(4) == 16; assert Pow2(8) == 16 * Pow2(4); }
    assert PowerLoop(65536, 65536, 65536, 1) == Scaled(65536, 65536, 65536);
  }

  lemma {:induction false} Pow2Monotone(m: nat, n: nat)
    requires m <= n
    ensures Pow2(m) <= Pow2(n)
    decreases n
  {
    if m < n {
      Pow2Monotone(m, n - 1);
    }
  }

  // ------------------------------------------------------------------
  // One closed form for n steps
  // ------------------------------------------------------------------

  /** Exact decay with weight w. */
  ghost function Decayed(load: real, active: real, w: real): real {
    active + (load - active) * w
  }

  lemma MixOverOne(load: real, w: real, active: real, f: real)
    requires f > 0.0
    ensures (load * w + active * (f - w)) / f == Decayed(load, active, w / f)
  {
    Quotient(w, f);
    var y := w / f;
    assert load * w == (load * y) * f;
    assert active * (f - w) == (active - active * y) * f;
    assert (load * y) * f + (active - active * y) * f == Decayed(load, active, y) * f;
    assert (Decayed(load, active, y) * f) / f == Decayed(load, active, y);
  }

  ghost function Ratio(exp: nat): real {
    exp as real / FIXED_1 as real
  }

  /** A step is within a half of exact decay. */
  lemma {:induction false} CalcLoadClose(load: nat, w: nat, active: nat)
    requires w <= FIXED_1 && load < LIMIT && active < LIMIT
    ensures Close(CalcLoad(load, w, active) as real, Decayed(load as real, active as real, Ratio(w)), 0.5)
  {
    hide CalcLoad, Rounded, Decayed;
    CalcLoadFits(load, w, active);
    RoundedClose(Mix(load, w, active), FIXED_1);
    IntProduct(load, w);
    IntProduct(active, FIXED_1 - w);
    MixOverOne(load as real, w as real, active as real, FIXED_1 as real);
  }

  /** Single steps: each adds a half, and decay does not enlarge what is there. */
  lemma {:induction false} StepsClose(load: nat, exp: nat, active: nat, n: nat)
    requires exp <= FIXED_1 && load < LIMIT && active < LIMIT
    ensures Close(Steps(load, exp, active, n) as real,
                  Decayed(load as real, active as real, Power(Ratio(exp), n)), n as real / 2.0)
  {
    hide CalcLoad, Decayed, Mix;
    if n == 0 {
      DecayNone(load as real, active as real);
    } else {
      StepsClose(load, exp, active, n - 1);
      StepsBetween(load, exp, active, n - 1);
      var s := Steps(load, exp, active, n - 1);
      CalcLoadClose(s, exp, active);
      UnitFraction(exp as real, FIXED_1 as real);
      DecayStep(s as real, load as real, active as real, Ratio(exp), Power(Ratio(exp), n - 1),
                Power(Ratio(exp), n), (n - 1) as real / 2.0);
      HalfStep(Steps(load, exp, active, n) as real, Decayed(s as real, active as real, Ratio(exp)),
               Decayed(load as real, active as real, Power(Ratio(exp), n)), n);
    }
  }

  lemma HalfStep(x: real, y: real, z: real, n: nat)
    requires n >= 1 && Close(x, y, 0.5) && Close(y, z, (n - 1) as real / 2.0)
    ensures Close(x, z, n as real / 2.0)
  {
  }

  lemma DecayNone(load: real, active: real)
    ensures Decayed(load, active, 1.0) == load
  {
  }

  lemma {:induction false} DecayStep(s: real, load: real, active: real, b: real, w: real, next: real, e: real)
    requires 0.0 <= b <= 1.0 && Close(s, Decayed(load, active, w), e) && next == b * w
    ensures Close(Decayed(s, active, b), Decayed(load, active, next), e)
  {
    var t := Decayed(load, active, w);
    Shrinks(s - t, b, e);
    assert (s - active) * b == b * (s - t) + b * (t - active);
    assert b * ((load - active) * w) == (load - active) * next;
  }

  ghost function Abs(x: real): real {
    if x < 0.0 then -x else x
  }

  lemma {:induction false} ScaledDifference(d: real, u: real, v: real, e: real, z: real)
    requires Close(u, v, e) && z == Abs(d) * e
    ensures Close(d * u, d * v, z)
  {
    assert d * u - d * v == d * (u - v);
    if d >= 0.0 {
      RealMulNonNegative(d, e - (u - v));
      RealMulNonNegative(d, e + (u - v));
    } else {
      RealMulNonNegative(-d, e - (u - v));
      RealMulNonNegative(-d, e + (u - v));
    }
  }

  lemma {:induction false} PowerRatioClose(exp: nat, n: nat)
    requires exp <= FIXED_1 && n >= 1
    ensures FixedPower(exp, FIXED_1, n) <= FIXED_1
    ensures Close(Ratio(FixedPower(exp, FIXED_1, n)), Power(Ratio(exp), n), (n - 1) as real / (2 * FIXED_1) as real)
  {
    hide FixedPower, Power;
    FixedOneRoom(exp);
    PowerClose(exp, FIXED_1, n);
    var w, e := FixedPower(exp, FIXED_1, n), Power(Ratio(exp), n);
    var f := FIXED_1 as real;
    assert -((n - 1) as real / 2.0) <= w as real - e * f <= (n - 1) as real / 2.0;
    assert Ratio(w) - e == (w as real - e * f) / f;
  }

  /** How far the closed form may stray from n single steps. */
  ghost function Spread(load: nat, active: nat, n: nat): real {
    (n + 1) as real / 2.0 + Abs(load as real - active as real) * ((n - 1) as real / (2 * FIXED_1) as real)
  }

  lemma {:induction false} CalcLoadNBetween(load: nat, exp: nat, active: nat, n: nat)
    requires exp <= FIXED_1 && load < LIMIT && active < LIMIT
    ensures Min(load, active) <= CalcLoadN(load, exp, active, n) <= Max(load, active)
  {
    hide CalcLoad, FixedPower;
    FixedOneRoom(exp);
    PowerBounded(exp, FIXED_1, n);
    CalcLoadFits(load, FixedPower(exp, FIXED_1, n), active);
    CalcLoadBetween(load, FixedPower(exp, FIXED_1, n), active);
  }

  /** Two values that are close to two decays are as close as the weights allow. */
  lemma {:induction false} DecaysClose(x: real, y: real, load: real, active: real, u: real, v: real, e: real, k: real,
          z: real)
    requires Close(x, Decayed(load, active, u), 0.5) && Close(y, Decayed(load, active, v), k) && Close(u, v, e)
    requires z == Abs(load - active) * e
    ensures Close(x, y, 0.5 + k + z)
  {
    hide Abs;
    ScaledDifference(load - active, u, v, e, z);
  }

  lemma {:induction false} CalcLoadNClose(load: nat, exp: nat, active: nat, n: nat)
    requires exp <= FIXED_1 && load < LIMIT && active < LIMIT && n >= 1
    ensures Close(CalcLoadN(load, exp, active, n) as real, Steps(load, exp, active, n) as real, Spread(load, active, n))
  {
    hide CalcLoad, FixedPower, Close, Decayed, Abs, Power;
    FixedOneRoom(exp);
    PowerRatioClose(exp, n);
    var w := FixedPower(exp, FIXED_1, n);
    CalcLoadClose(load, w, active);
    StepsClose(load, exp, active, n);
    var e := (n - 1) as real / (2 * FIXED_1) as real;
    var z := Abs(load as real - active as real) * e;
    DecaysClose(CalcLoad(load, w, active) as real, Steps(load, exp, active, n) as real, load as real, active as real,
                Ratio(w), Power(Ratio(exp), n), e, n as real / 2.0, z);
    assert 0.5 + n as real / 2.0 + z == Spread(load, active, n);
  }
}
