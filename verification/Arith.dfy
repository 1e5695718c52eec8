/** Division with remainder by a positive number. */
module Arith {

  lemma Positive(a: int, b: int)
    requires a > 0 && b > 0
    ensures a * b >= 1
  {
  }

  lemma NotBelow(x: int, d: int)
    requires d > 0 && x * d > -d
    ensures x >= 0
  {
    assert x < 0 ==> x * d <= -1 * d;
  }

  lemma DivMonotone(a: int, b: int, d: int)
    requires a <= b && d > 0
    ensures a / d <= b / d
  {
    var x := b / d - a / d;
    assert x * d == b / d * d - a / d * d;
    NotBelow(x, d);
  }

  lemma DivBounds(a: int, d: int, q: int)
    requires d > 0
    ensures q * d <= a < (q + 1) * d <==> a / d == q
  {
    assert a == a / d * d + a % d;
    if q * d <= a < (q + 1) * d {
      var x := a / d - q;
      assert x * d == a / d * d - q * d;
      NotBelow(x, d);
      assert (-x) * d == q * d - a / d * d;
      NotBelow(-x, d);
    }
  }

  lemma DivMod(a: int, d: int, q: int, m: int)
    requires d > 0 && a == q * d + m && 0 <= m < d
    ensures a / d == q && a % d == m
  {
    assert (q + 1) * d == q * d + d;
    DivBounds(a, d, q);
  }

  lemma MulBelow(m: int, w: int, d: int)
    requires 0 <= m < w && d > 0
    ensures 0 <= m * d < w * d
  {
    assert (w - m) * d == w * d - m * d;
    Positive(w - m, d);
  }

  lemma Within(x: int, w: int, d: int)
    requires d > 0 && -(w * d) < x * d < w * d
    ensures -w < x < w
  {
    assert (w - 1 - x) * d == w * d - d - x * d;
    NotBelow(w - 1 - x, d);
    assert (x + w - 1) * d == x * d + w * d - d;
    NotBelow(x + w - 1, d);
  }

  lemma SameRemainder(k: int, l: int, w: int)
    requires w > 0 && k % w == l % w && -w < k - l < w
    ensures k == l
  {
    var x := k / w - l / w;
    assert k == k / w * w + k % w && l == l / w * w + l % w;
    assert x * w == k - l;
    NotBelow(x, w);
    assert (-x) * w == l - k;
    NotBelow(-x, w);
    assert x == 0;
  }
}
