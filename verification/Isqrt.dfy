/** The digit-by-digit square root `_isqrt` (gui/gui_jcmotion.c). */
module Isqrt {
  import opened Bits

  /** r is the integer square root of v. */
  ghost predicate IsRoot(r: nat, v: nat) {
    r * r <= v < (r + 1) * (r + 1)
  }

  lemma RootUnique(r: nat, s: nat, v: nat)
    requires IsRoot(r, v) && IsRoot(s, v)
    ensures r == s
  {
    if r < s {
      Below(r + 1, s);
    } else if s < r {
      Below(s + 1, r);
    }
  }

  lemma Below(a: nat, b: nat)
    requires a <= b
    ensures a * a <= b * b
  {
    assert a * a <= a * b <= b * b;
  }

  /** With the root's digits above the current one settled as `top`, the code keeps the
      remainder `v - top * top` and the doubled partial root scaled by the current digit. */
  ghost predicate Partial(v: nat, top: nat, rest: int, r: nat, digit: nat) {
    rest == v - top * top && rest >= 0
    && r == 2 * top * digit
    && v < (top + 2 * digit) * (top + 2 * digit)
  }

  /** The comparison in the loop asks whether the digit fits, and both updates keep the form. */
  lemma TryDigit(v: nat, top: nat, rest: int, r: nat, digit: nat)
    requires Partial(v, top, rest, r, digit)
    ensures rest >= r + digit * digit <==> (top + digit) * (top + digit) <= v
    ensures rest >= r + digit * digit ==>
              rest - (r + digit * digit) == v - (top + digit) * (top + digit)
              && r / 2 + digit * digit == (top + digit) * digit
              && v < ((top + digit) + digit) * ((top + digit) + digit)
    ensures rest < r + digit * digit ==>
              r / 2 == top * digit && v < (top + digit) * (top + digit)
  {
    var square := (top + digit) * (top + digit);
    assert square == top * top + r + digit * digit by {
      assert square == top * (top + digit) + digit * (top + digit);
      assert top * (top + digit) == top * top + top * digit;
      assert digit * (top + digit) == digit * top + digit * digit;
      assert r == top * digit + digit * top;
    }
    assert r / 2 == top * digit;
    assert (top + digit) * digit == top * digit + digit * digit;
    assert top + digit + digit == top + 2 * digit;
  }

  /** The first loop: the bit and its root go down together, and stay large enough for v. */
  ghost predicate Scaling(v: nat, bit: nat, digit: nat, e: int) {
    BitAt(bit, digit, e) && (v < 4 * bit || v == 0)
  }

  ghost predicate BitAt(bit: nat, digit: nat, e: int) {
    if e < 0 then bit == 0 && digit == 0 else digit == Pow2(e) && bit == digit * digit
  }

  /** The second loop: digits above the current one settled, or all of them. */
  ghost predicate Settling(v: nat, top: nat, rest: int, r: nat, bit: nat, digit: nat, e: int) {
    BitAt(bit, digit, e)
    && (if bit == 0 then IsRoot(r, v) else Partial(v, top, rest, r, digit))
  }

  lemma ScaleFrom(v: nat, bit: nat, k: nat)
    requires bit == Pow2(k) * Pow2(k) && v < 4 * bit
    ensures Scaling(v, bit, Pow2(k), k)
  {
  }

  lemma ScaleDown(v: nat, bit: nat, digit: nat, e: int)
    requires Scaling(v, bit, digit, e) && bit > v
    ensures Scaling(v, bit / 4, digit / 2, e - 1) && bit / 4 < bit
  {
    HalfBit(e, digit, bit);
  }

  lemma Scaled(v: nat, bit: nat, digit: nat, e: int)
    requires Scaling(v, bit, digit, e) && bit <= v
    ensures Settling(v, 0, v, 0, bit, digit, e)
  {
    assert (2 * digit) * (2 * digit) == 4 * (digit * digit);
  }

  lemma Settle(v: nat, top: nat, rest: int, r: nat, bit: nat, digit: nat, e: int)
    requires Settling(v, top, rest, r, bit, digit, e) && bit != 0
    ensures bit / 4 < bit
    ensures rest >= r + bit ==>
              Settling(v, top + digit, rest - (r + bit), r / 2 + bit, bit / 4, digit / 2, e - 1)
    ensures rest < r + bit ==> Settling(v, top, rest, r / 2, bit / 4, digit / 2, e - 1)
  {
    TryDigit(v, top, rest, r, digit);
    HalfBit(e, digit, bit);
    if e > 0 {
      if rest >= r + bit {
        HalfPartial(v, top + digit, rest - (r + bit), r / 2 + bit, digit);
      } else {
        HalfPartial(v, top, rest, r / 2, digit);
      }
    }
  }

  /** `_isqrt` with any power of four as the first bit, given by its root, two to the k, large
      enough that v is below four times the bit. */
  method ISqrtFrom(v0: nat, start: nat, ghost k: nat) returns (r: nat)
    requires start == Pow2(k) * Pow2(k) && v0 < 4 * start
    ensures IsRoot(r, v0)
  {
    hide Scaling, Settling, IsRoot;
    var v: int, bit: nat := v0, start;
    r := 0;
    ghost var digit: nat, e: int, top: nat := Pow2(k), k, 0;
    ScaleFrom(v0, bit, k);
    while bit > v
      invariant v == v0 && Scaling(v0, bit, digit, e) && digit <= Pow2(k)
      decreases bit
    {
      ScaleDown(v0, bit, digit, e);
      digit, e, bit := digit / 2, e - 1, bit / 4;
    }
    Scaled(v0, bit, digit, e);
    while bit != 0
      invariant Settling(v0, top, v, r, bit, digit, e) && top + 2 * digit <= 2 * Pow2(k)
      decreases bit
    {
      SumFits(v0, top, v, r, bit, digit, e, Pow2(k));
      assert r + bit < 4 * start;  // so the 32-bit sum does not wrap
      Settle(v0, top, v, r, bit, digit, e);
      if v >= r + bit {
        top := top + digit;
        v := v - (r + bit);
        r := r / 2 + bit;
      } else {
        r := r / 2;
      }
      digit, e, bit := digit / 2, e - 1, bit / 4;
    }
    Settled(v0, top, v, r, digit, e);
  }

  lemma SumFits(v: nat, top: nat, rest: int, r: nat, bit: nat, digit: nat, e: int, root: nat)
    requires Settling(v, top, rest, r, bit, digit, e) && bit != 0 && top + 2 * digit <= 2 * root
    ensures r + bit < 4 * (root * root)
  {
    hide IsRoot;
    SquareOfSum(top, digit);
    Below(top + digit + 1, 2 * root);
    SquareOfSum(top + digit, 1);
    SquareOfDouble(root);
  }

  lemma SquareOfSum(a: nat, b: nat)
    ensures (a + b) * (a + b) == a * a + 2 * a * b + b * b
  {
  }

  lemma SquareOfDouble(a: nat)
    ensures (2 * a) * (2 * a) == 4 * (a * a)
  {
  }

  lemma Settled(v: nat, top: nat, rest: int, r: nat, digit: nat, e: int)
    requires Settling(v, top, rest, r, 0, digit, e)
    ensures IsRoot(r, v)
  {
  }

  lemma HalfPartial(v: nat, top: nat, rest: int, r: nat, digit: nat)
    requires digit % 2 == 0
    requires rest == v - top * top && rest >= 0 && r == top * digit
    requires v < (top + digit) * (top + digit)
    ensures Partial(v, top, rest, r, digit / 2)
  {
    var half := digit / 2;
    assert digit == 2 * half;
    assert top * (2 * half) == 2 * top * half;
  }

  /** Shifting the bit right by two halves its root. */
  lemma HalfBit(e: int, digit: nat, bit: nat)
    requires e >= 0 && digit == Pow2(e) && bit == digit * digit
    ensures e > 0 ==> digit / 2 == Pow2(e - 1) && digit % 2 == 0 && bit / 4 == (digit / 2) * (digit / 2)
                      && bit == 4 * (bit / 4)
    ensures e == 0 ==> digit == 1 && digit / 2 == 0 && bit / 4 == 0
  {
    if e > 0 {
      var h := Pow2(e - 1);
      assert digit == 2 * h;
      assert (2 * h) * (2 * h) == 4 * (h * h);
    }
  }

  /** The source's own starting bit covers every 32-bit argument. */
  method ISqrt(v: nat) returns (r: nat)
    requires v < 0x1_0000_0000
    ensures IsRoot(r, v)
    ensures r < 0x1_0000
  {
    assert Pow2(15) * Pow2(15) == 0x4000_0000;
    r := ISqrtFrom(v, 0x4000_0000, 15);
    if r >= 0x1_0000 {
      Below(0x1_0000, r);
      assert false;
    }
  }
}
