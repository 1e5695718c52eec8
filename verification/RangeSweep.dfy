/** The memory sizes of the latency sweep: from 4 KiB upward, with a step that
    doubles at every power of two. */
module RangeSweep {
  import opened Arith
  import opened Bits

  /** `num != 0 and ((num & (num - 1)) == 0)` */
  predicate IsPow2(n: nat) {
    n != 0 && And(n, n - 1) == 0
  }

  lemma AndSelf(n: nat)
    ensures And(n, n) == n
  {
  }

  lemma {:induction false} TestIsExact(n: nat)
    ensures IsPow2(n) <==> exists k: nat :: n == Pow2(k)
    decreases n
  {
    if n == 1 {
      assert Pow2(0) == 1;
    } else if n > 1 && n % 2 == 1 {
      AndSelf(n / 2);
      forall k: nat ensures n != Pow2(k) {
      }
    } else if n > 1 {
      TestIsExact(n / 2);
      assert n == 2 * (n / 2);
      TestOfTwice(n / 2);
      if IsPow2(n) {
        var k: nat :| n / 2 == Pow2(k);
        assert n == Pow2(k + 1);
      } else {
        forall k: nat ensures n != Pow2(k) {
          if k > 0 {
            assert n / 2 != Pow2(k - 1);
          }
        }
      }
    } else {
      forall k: nat ensures n != Pow2(k) {
      }
    }
  }

  /** The `k`-th size: 4, 5, 6 or 7 times a power of two. */
  function Size(k: nat): nat {
    (4 + k % 4) * Pow2(10 + k / 4)
  }

  lemma {:induction false} OnlyFours(c: nat, m: nat)
    requires 4 <= c <= 8
    ensures IsPow2(c * Pow2(m)) <==> c == 4 || c == 8
    decreases m
  {
    if m == 0 {
      SmallPowers(c);
    } else {
      OnlyFours(c, m - 1);
      var p := Pow2(m - 1);
      assert Pow2(m) == 2 * p;
      Twice(c, p);
      hide Pow2;
      TestOfTwice(c * p);
    }
  }

  lemma Twice(c: nat, p: nat)
    requires c >= 1 && p >= 1
    ensures c * (2 * p) == 2 * (c * p) && c * p >= 1
  {
  }

  lemma SmallPowers(c: nat)
    requires 4 <= c <= 8
    ensures IsPow2(c) <==> c == 4 || c == 8
  {
    AndStep(c, c - 1);
    AndStep(c / 2, (c - 1) / 2);
    AndStep(c / 4, (c - 1) / 4);
  }

  lemma TestOfTwice(h: nat)
    requires h >= 1
    ensures IsPow2(2 * h) <==> IsPow2(h)
  {
    AndStep(2 * h, 2 * h - 1);
  }

  lemma SizeStep(k: nat)
    ensures Size(k + 1) == Size(k) + Pow2(10 + k / 4)
    ensures IsPow2(Size(k + 1)) <==> (k + 1) % 4 == 0
    ensures Pow2(10 + (k + 1) / 4) == if (k + 1) % 4 == 0 then 2 * Pow2(10 + k / 4) else Pow2(10 + k / 4)
  {
    var p := Pow2(10 + k / 4);
    assert (4 + k % 4 + 1) * p == (4 + k % 4) * p + p;
    OnlyFours(4 + k % 4 + 1, 10 + k / 4);
    if (k + 1) % 4 == 0 {
      assert (k + 1) / 4 == k / 4 + 1;
      assert 8 * p == 4 * (2 * p);
    } else {
      assert (k + 1) / 4 == k / 4;
    }
  }

  method Ranges(maxRange: int) returns (ranges: seq<nat>)
    ensures ranges != []
    ensures forall k :: 0 <= k < |ranges| ==> ranges[k] == Size(k)
    ensures ranges[|ranges| - 1] >= maxRange
    ensures forall k :: 0 <= k < |ranges| - 1 ==> ranges[k] < maxRange
  {
    hide IsPow2, Size;
    FirstSize();
    ranges := [4096];
    var step: nat := 1024;
    while ranges[|ranges| - 1] < maxRange
      invariant ranges != [] && step == Pow2(10 + (|ranges| - 1) / 4) && step >= 1
      invariant forall k :: 0 <= k < |ranges| ==> ranges[k] == Size(k)
      invariant forall k :: 0 <= k < |ranges| - 1 ==> ranges[k] < maxRange
      decreases maxRange - ranges[|ranges| - 1]
    {
      SizeStep(|ranges| - 1);
      var newRange := ranges[|ranges| - 1] + step;
      if IsPow2(newRange) {
        step := step * 2;
      }
      ranges := ranges + [newRange];
    }
  }

  lemma FirstSize()
    ensures Size(0) == 4096 && Pow2(10) == 1024
  {
    assert Pow2(5) == 32;
    Pow2Add(5, 5);
  }

  lemma {:induction false} SizeGrows(j: nat, k: nat)
    requires j < k
    ensures Size(j) < Size(k)
    decreases k
  {
    hide Size;
    SizeStep(k - 1);
    if j < k - 1 {
      SizeGrows(j, k - 1);
    }
  }

  /** The last size of the sweep is the smallest one that reaches the maximum:
      a power of two of at least 4096 is hit exactly, and any other maximum above
      4096 is passed by less than a quarter. */
  lemma SweepEnds(maxRange: int, n: nat)
    requires Size(n) >= maxRange && forall k :: 0 <= k < n ==> Size(k) < maxRange
    ensures forall j :: j >= 12 && maxRange == Pow2(j) ==> Size(n) == maxRange
    ensures maxRange > 4096 ==> 4 * (Size(n) - maxRange) < maxRange
  {
    hide Size;
    forall j | j >= 12 && maxRange == Pow2(j) ensures Size(n) == maxRange {
      PowerIsSize(j);
      var m := 4 * (j - 12);
      assert Size(m) == maxRange;
      assert n <= m;
      if n < m {
        SizeGrows(n, m);
      }
    }
    if maxRange > 4096 {
      FirstSize();
      assert n > 0;
      SizeStep(n - 1);
      QuarterStep(n - 1);
      assert Size(n - 1) < maxRange;
    }
  }

  lemma PowerIsSize(j: nat)
    requires j >= 12
    ensures Size(4 * (j - 12)) == Pow2(j)
  {
    hide Size;
    SizeAtFours(j - 12);
    FourTimes(j - 2);
  }

  lemma SizeAtFours(n: nat)
    ensures Size(4 * n) == 4 * Pow2(10 + n)
  {
    hide Pow2;
    DivMod(4 * n, 4, n, 0);
  }

  lemma FourTimes(k: nat)
    ensures Pow2(k + 2) == 4 * Pow2(k)
  {
    assert Pow2(k + 2) == 2 * Pow2(k + 1);
  }

  lemma QuarterStep(k: nat)
    ensures 4 * Pow2(10 + k / 4) <= Size(k)
  {
    var p := Pow2(10 + k / 4);
    assert (4 + k % 4) * p == 4 * p + k % 4 * p;
    assert k % 4 * p >= 0;
  }
}
