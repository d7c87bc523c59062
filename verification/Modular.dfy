/** Unsigned 64-bit wrap-around: the modulus, and that whole turns do not matter. */
module Modular {

  const U64: nat := 0x1_0000_0000_0000_0000

  lemma {:induction false} WholeTurns(x: int, k: int)
    ensures (x + k * U64) % U64 == x % U64
    decreases if k < 0 then -k else k
  {
    if k > 0 {
      WholeTurns(x, k - 1);
      assert x + k * U64 == x + (k - 1) * U64 + U64;
    } else if k < 0 {
      WholeTurns(x, k + 1);
      assert x + k * U64 == x + (k + 1) * U64 - U64;
    }
  }

  /** An operand may be reduced before it is added. */
  lemma {:induction false} ReduceFirst(x: int, y: int)
    ensures (x % U64 + y) % U64 == (x + y) % U64
  {
    assert x == (x / U64) * U64 + x % U64;
    WholeTurns(x % U64 + y, x / U64);
    assert x % U64 + y + (x / U64) * U64 == x + y;
  }
}
