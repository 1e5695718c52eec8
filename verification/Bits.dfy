/** Bitwise operations on natural numbers of any width. */
module Bits {
  import opened Arith

  type Byte = b: int | 0 <= b < 256

  function Pow2(k: nat): (p: nat)
    ensures p >= 1
  {
    if k == 0 then 1 else 2 * Pow2(k - 1)
  }

  function And(a: nat, b: nat): nat {
    if a == 0 || b == 0 then 0
    else 2 * And(a / 2, b / 2) + if a % 2 == 1 && b % 2 == 1 then 1 else 0
  }

  function Or(a: nat, b: nat): nat
    decreases a + b
  {
    if a == 0 then b
    else if b == 0 then a
    else 2 * Or(a / 2, b / 2) + if a % 2 == 1 || b % 2 == 1 then 1 else 0
  }

  /** `x << k` */
  function Shl(x: nat, k: nat): nat {
    x * Pow2(k)
  }

  lemma {:induction false} Pow2Add(a: nat, b: nat)
    ensures Pow2(a + b) == Pow2(a) * Pow2(b)
  {
    if a > 0 {
      Pow2Add(a - 1, b);
      assert 2 * Pow2(a - 1) * Pow2(b) == 2 * (Pow2(a - 1) * Pow2(b));
    }
  }

  /** Masking with `k` ones keeps the remainder. */
  lemma {:induction false} AndMask(a: nat, k: nat)
    ensures And(a, Pow2(k) - 1) == a % Pow2(k)
    decreases k
  {
    if k == 0 {
      assert And(a, 0) == 0;
    } else {
      AndMask(a / 2, k - 1);
      var p := Pow2(k - 1);
      MaskStep(a, p, a / 2 % p);
      HalfMod(a, p);
      hide And;
    }
  }

  lemma MaskStep(a: nat, p: nat, r: nat)
    requires p >= 1 && And(a / 2, p - 1) == r
    ensures And(a, 2 * p - 1) == 2 * r + a % 2
  {
    hide And;
    var m := 2 * p - 1;
    assert m / 2 == p - 1 && m % 2 == 1;
    AndStep(a, m);
  }

  /** The lowest bit and the rest. */
  lemma AndStep(a: nat, b: nat)
    ensures And(a, b) == 2 * And(a / 2, b / 2) + if a % 2 == 1 && b % 2 == 1 then 1 else 0
  {
  }

  lemma HalfMod(a: nat, p: nat)
    requires p > 0
    ensures a % (2 * p) == 2 * (a / 2 % p) + a % 2
  {
    var h := a / 2;
    var q, m := h / p, h % p;
    assert h == q * p + m;
    assert a == 2 * h + a % 2;
    assert a == q * (2 * p) + (2 * m + a % 2) by {
      assert 2 * (q * p) == q * (2 * p);
    }
    DivMod(a, 2 * p, q, 2 * m + a % 2);
  }

  /** Or-ing in bits above all bits of `a` adds them. */
  lemma {:induction false} OrAbove(a: nat, b: nat, k: nat)
    requires a < Pow2(k)
    ensures Or(a, Shl(b, k)) == a + Shl(b, k)
    decreases k
  {
    if k > 0 && a > 0 {
      var c := Shl(b, k);
      assert c == 2 * Shl(b, k - 1) by {
        assert b * (2 * Pow2(k - 1)) == 2 * (b * Pow2(k - 1));
      }
      OrAbove(a / 2, b, k - 1);
      assert c % 2 == 0 && c / 2 == Shl(b, k - 1);
    }
  }

  /** `0x80 | x` for seven bits `x` */
  lemma OrTop(x: nat)
    requires x < 128
    ensures Or(128, x) == 128 + x
  {
    OrSwap(128, x);
    assert Pow2(7) == 128;
    OrAbove(x, 1, 7);
  }

  lemma OrSwap(a: nat, b: nat)
    ensures Or(a, b) == Or(b, a)
    decreases a + b
  {
    if a > 0 && b > 0 {
      OrSwap(a / 2, b / 2);
    }
  }

  /** Testing one bit of a number that has none above it. */
  lemma {:induction false} AndBit(b: nat, k: nat)
    requires b < 2 * Pow2(k)
    ensures And(b, Pow2(k)) == if b >= Pow2(k) then Pow2(k) else 0
    decreases k
  {
    if k > 0 {
      AndBit(b / 2, k - 1);
    }
  }
}
