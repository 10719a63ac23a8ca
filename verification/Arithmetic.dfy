/** Small facts about products and quotients that the solver needs spelled out. */
module Arithmetic {

  const ULONG: nat := 0x1_0000_0000  // unsigned long has 32 bits on the goldfish CPU
  const U64: nat := 0x1_0000_0000_0000_0000
  const RUNTIME_INF: nat := 0xFFFF_FFFF_FFFF_FFFF

  function Min(x: int, y: int): int {
    if x < y then x else y
  }

  function Max(x: int, y: int): int {
    if x < y then y else x
  }

  lemma MulNonNegative(x: int, y: int)
    requires x >= 0 && y >= 0
    ensures x * y >= 0
  {
  }

  lemma MulMonotone(x: int, y: int, z: int)
    requires x <= y && z >= 0
    ensures x * z <= y * z
  {
    MulNonNegative(y - x, z);
    assert y * z - x * z == (y - x) * z;
  }

  /** A quotient and its remainder. */
  lemma DivMod(x: int, w: int)
    requires w > 0
    ensures (x / w) * w <= x < (x / w) * w + w
  {
    assert x == w * (x / w) + x % w;
    assert w * (x / w) == (x / w) * w;
  }

  lemma {:induction false} DivBound(x: int, w: int)
    requires x >= 0 && w > 0
    ensures 0 <= x / w <= x
  {
    DivMod(x, w);
    if x / w < 0 {
      MulMonotone(x / w, -1, w);
    }
    MulMonotone(1, w, x / w);
  }

  /** A quotient is what multiples say it is. */
  lemma {:induction false} DivUnique(x: int, w: int, q: int)
    requires w > 0 && q * w <= x < q * w + w
    ensures x / w == q
  {
    DivMod(x, w);
    if x / w < q {
      MulMonotone(x / w + 1, q, w);
    } else if x / w > q {
      MulMonotone(q + 1, x / w, w);
    }
  }

  lemma {:induction false} DivMonotone(x: int, y: int, w: int)
    requires x <= y && w > 0
    ensures x / w <= y / w
  {
    DivMod(x, w);
    DivMod(y, w);
    if x / w > y / w {
      MulMonotone(y / w + 1, x / w, w);
    }
  }
}
