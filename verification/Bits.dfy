/** Bytes, 32-bit words and their clocks, and bitwise or of natural numbers for the packed words whose
    fields are computed arithmetically. */
module Bits {

  type Byte = b: int | 0 <= b < 256

  const WORD := 0x1_0000_0000

  function Min(a: nat, b: nat): nat {
    if a < b then a else b
  }

  /** The difference of two clocks of 32 bits. */
  function Elapsed(now: nat, since: nat): (e: nat)
    ensures e < WORD
  {
    (now - since) % WORD
  }

  function Pow2(k: nat): (p: nat)
    ensures p > 0
  {
    if k == 0 then 1 else 2 * Pow2(k - 1)
  }

  /** `|`, bit by bit. */
  function Or(a: nat, b: nat): nat
    decreases a + b
  {
    if a == 0 then b else if b == 0 then a
    else 2 * Or(a / 2, b / 2) + (if a % 2 == 1 || b % 2 == 1 then 1 else 0)
  }

  /** A field of `width` bits, `at` bits up. */
  function Field(w: nat, at: nat, width: nat): nat {
    w / Pow2(at) % Pow2(width)
  }

  /** Fields that do not overlap: the or is the sum. */
  lemma {:induction false} OrOfDisjoint(low: nat, high: nat, k: nat)
    requires low < Pow2(k)
    ensures Or(low, high * Pow2(k)) == low + high * Pow2(k)
    decreases k
  {
    if low > 0 && high > 0 {
      assert k > 0;
      var h := high * Pow2(k - 1);
      assert high * Pow2(k) == 2 * h by {
        assert high * (2 * Pow2(k - 1)) == 2 * (high * Pow2(k - 1));
      }
      assert h > 0;
      OrOfDisjoint(low / 2, high, k - 1);
    }
  }
}
