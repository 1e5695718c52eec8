/** How the values of the controller depend on the learning rate, which the
    source does not check. */
module BanditRates {
  import opened Bandit
  import opened BanditRuns

  // ---- One value over an epoch ----------------------------------------------------

  /** The value of an action in a state; 0 where the table has none yet. */
  function Value(table: map<int, Row>, s: int, a: nat): real {
    if s in table && a < |table[s]| then table[s][a] else 0.0
  }

  function RewardOf(c: Config, l: Learner, e: Epoch): real {
    Reward(c, DeltaMiss(c, l, e), NewIpc(c, l, e) - l.lastIpc, l.lastAction)
  }

  lemma PadValue(table: map<int, Row>, s: int, n: nat, x: int, a: nat)
    ensures Value(table[s := RowOf(table, s, n)], x, a) == Value(table, x, a)
  {
  }

  lemma LearnValue(c: Config, table: map<int, Row>, s: int, action: int, reward: real, x: int, a: nat)
    ensures Value(table[s := Learn(c, RowOf(table, s, c.Actions()), action, reward)], x, a) ==
            if x == s && a == action && action < c.Actions() then Blend(c.learningRate, Value(table, x, a), reward)
            else Value(table, x, a)
  {
    hide Blend;
    PadValue(table, s, c.Actions(), x, a);
  }

  /** An epoch changes one value: that of the last action in the last state. */
  lemma StepValue(c: Config, l: Learner, e: Epoch, x: int, a: nat)
    ensures Value(Step(c, l, e).table, x, a) ==
            if x == l.lastState && a == l.lastAction && l.lastAction < c.Actions() then
              Blend(c.learningRate, Value(l.table, x, a), RewardOf(c, l, e))
            else Value(l.table, x, a)
  {
    var dMiss, dIpc := DeltaMiss(c, l, e), NewIpc(c, l, e) - l.lastIpc;
    var reward, state := RewardOf(c, l, e), Encode(dMiss, dIpc);
    var t := Valued(c, Observed(c, l, e), reward).table;
    LearnValue(c, l.table, l.lastState, l.lastAction, reward, x, a);
    PadValue(t, state, c.Actions(), x, a);
    hide Value, Encode, Reward, DeltaMiss, NewIpc, NewSmoothed, Learn, RowOf, Choose, Blend;
  }

  lemma {:induction false} RunAppend(c: Config, l: Learner, a: seq<Epoch>, b: seq<Epoch>)
    ensures Run(c, l, a + b) == Run(c, Run(c, l, a), b)
  {
    hide Step;
    if b == [] {
      assert a + b == a;
    } else {
      RunAppend(c, l, a, b[..|b| - 1]);
      assert (a + b)[..|a + b| - 1] == a + b[..|b| - 1];
    }
  }

  lemma RunOne(c: Config, l: Learner, e: Epoch)
    ensures Run(c, l, [e]) == Step(c, l, e)
  {
    hide Step;
    assert [e][..0] == [];
  }

  // ---- Convergence ----------------------------------------------------------------

  /** In each of the epochs the controller was in state `s` with action `a`, and
      the reward was `r`. */
  ghost predicate Stays(c: Config, l: Learner, es: seq<Epoch>, s: int, a: nat, r: real) {
    forall k :: 0 <= k < |es| ==> StaysAt(c, Run(c, l, es[..k]), es[k], s, a, r)
  }

  predicate StaysAt(c: Config, l: Learner, e: Epoch, s: int, a: nat, r: real) {
    l.lastState == s && l.lastAction == a && RewardOf(c, l, e) == r
  }

  function Abs(x: real): real {
    if x < 0.0 then -x else x
  }

  lemma StaysPrefix(c: Config, l: Learner, es: seq<Epoch>, s: int, a: nat, r: real)
    requires es != [] && Stays(c, l, es, s, a, r)
    ensures Stays(c, l, es[..|es| - 1], s, a, r)
    ensures StaysAt(c, Run(c, l, es[..|es| - 1]), es[|es| - 1], s, a, r)
  {
    hide StaysAt, Run;
    var q := es[..|es| - 1];
    forall k | 0 <= k < |q| ensures StaysAt(c, Run(c, l, q[..k]), q[k], s, a, r) {
      assert q[..k] == es[..k] && q[k] == es[k];
    }
  }

  /** While a controller stays in one state with one action and one reward, the
      distance of the value to the reward is multiplied by 1 less the learning
      rate in every epoch. */
  lemma {:induction false} StayingValue(c: Config, l: Learner, es: seq<Epoch>, s: int, a: nat, r: real)
    requires a < c.Actions() && Stays(c, l, es, s, a, r)
    ensures Value(Run(c, l, es).table, s, a) - r ==
            Times(Power(1.0 - c.learningRate, |es|), Value(l.table, s, a) - r)
  {
    hide Run, Step, Value, RewardOf, Stays, Times, Power, Blend;
    if es == [] {
      RunNone(c, l);
      PowerZero(1.0 - c.learningRate, Value(l.table, s, a) - r);
    } else {
      var q, e := es[..|es| - 1], es[|es| - 1];
      StaysPrefix(c, l, es, s, a, r);
      StayingValue(c, l, q, s, a, r);
      RunStep(c, l, es);
      StepValue(c, Run(c, l, q), e, s, a);
      BlendDistance(c.learningRate, Value(Run(c, l, q).table, s, a), r, |q|, Value(l.table, s, a) - r);
    }
  }

  lemma PowerZero(x: real, d: real)
    ensures Times(Power(x, 0), d) == d
  {
  }

  lemma BlendDistance(rate: real, v: real, r: real, n: nat, d: real)
    requires v - r == Times(Power(1.0 - rate, n), d)
    ensures Blend(rate, v, r) - r == Times(Power(1.0 - rate, n + 1), d)
  {
    var x, p := 1.0 - rate, Power(1.0 - rate, n);
    BlendAway(rate, v, r);
    assert Power(x, n + 1) == Times(x, p);
    hide Blend, Power, Times;
    Associate(x, p, d);
  }

  lemma BlendAway(rate: real, v: real, r: real)
    ensures Blend(rate, v, r) - r == Times(1.0 - rate, v - r)
  {
  }

  lemma Associate(x: real, y: real, z: real)
    ensures Times(x, Times(y, z)) == Times(Times(x, y), z)
  {
  }

  /** The value comes nearer to the reward exactly for learning rates between 0
      and 2. */
  lemma ConvergesIff(c: Config, l: Learner, es: seq<Epoch>, s: int, a: nat, r: real)
    requires a < c.Actions() && Stays(c, l, es, s, a, r) && es != [] && Value(l.table, s, a) != r
    ensures Abs(Value(Run(c, l, es).table, s, a) - r) < Abs(Value(l.table, s, a) - r) <==> 0.0 < c.learningRate < 2.0
  {
    hide *;
    StayingValue(c, l, es, s, a, r);
    var d, e := Value(l.table, s, a) - r, Value(Run(c, l, es).table, s, a) - r;
    NearerIff(c.learningRate, |es|, d, e);
  }

  lemma NearerIff(rate: real, n: nat, d: real, e: real)
    requires n > 0 && d != 0.0 && e == Times(Power(1.0 - rate, n), d)
    ensures Abs(e) < Abs(d) <==> 0.0 < rate < 2.0
  {
    var p := Power(1.0 - rate, n);
    hide Times, Power;
    PowerAbs(1.0 - rate, n);
    AbsProduct(p, d);
    SmallerProduct(Abs(p), Abs(d));
  }

  lemma AbsProduct(x: real, y: real)
    ensures Abs(Times(x, y)) == Times(Abs(x), Abs(y))
  {
  }

  lemma SmallerProduct(x: real, y: real)
    requires x >= 0.0 && y > 0.0
    ensures Times(x, y) < y <==> x < 1.0
  {
    LessOne(x, y);
    if x < 1.0 {
      PositiveProduct(1.0 - x, y);
    } else {
      NonNegativeProduct(x - 1.0, y);
    }
    hide Times;
  }

  lemma PositiveProduct(x: real, y: real)
    requires x > 0.0 && y > 0.0
    ensures Times(x, y) > 0.0
  {
  }

  lemma {:induction false} PowerAbs(x: real, k: nat)
    requires k > 0
    ensures Abs(Power(x, k)) < 1.0 <==> Abs(x) < 1.0
  {
    var p := Power(x, k - 1);
    assert Power(x, k) == Times(x, p);
    if k == 1 {
      assert p == 1.0 && Times(x, p) == x;
    } else {
      PowerAbs(x, k - 1);
      hide Power, Times;
      AbsProduct(x, p);
      ProductBelowOne(Abs(x), Abs(p));
    }
  }

  lemma ProductBelowOne(x: real, y: real)
    requires x >= 0.0 && y >= 0.0 && (x < 1.0 <==> y < 1.0)
    ensures Times(x, y) < 1.0 <==> x < 1.0
  {
    hide Times;
    LessOne(x, y);
    if x < 1.0 {
      NonNegativeProduct(1.0 - x, y);
    } else {
      NonNegativeProduct(x - 1.0, y);
    }
  }

  // ---- A common bound ---------------------------------------------------------------

  ghost predicate Within(table: map<int, Row>, bound: real) {
    forall s, a :: Abs(Value(table, s, a)) <= bound
  }

  /** No reward is larger than this. */
  const TOP := 1.03

  function Bound(rate: real): real
    requires rate < 2.0
  {
    if rate <= 1.0 then TOP else TOP * rate / (2.0 - rate)
  }

  lemma RewardTop(c: Config, l: Learner, e: Epoch)
    requires 0 <= l.lastAction < c.Actions()
    ensures Abs(RewardOf(c, l, e)) <= TOP
  {
    hide DeltaMiss, NewIpc, Reward;
    RewardBounds(c, DeltaMiss(c, l, e), NewIpc(c, l, e) - l.lastIpc, l.lastAction);
  }

  /** Of absolute values, the bound is what one update cannot exceed. */
  lemma BoundHolds(rate: real)
    requires 0.0 <= rate < 2.0
    ensures Bound(rate) >= 0.0
    ensures Times(Abs(1.0 - rate), Bound(rate)) + Times(rate, TOP) <= Bound(rate)
  {
    if rate > 1.0 {
      var b := Bound(rate);
      assert b * (2.0 - rate) == TOP * rate;
      assert (rate - 1.0) * b + rate * TOP == b;
      NonNegativeQuotient(TOP * rate, 2.0 - rate);
    }
  }

  lemma NonNegativeQuotient(x: real, y: real)
    requires x >= 0.0 && y > 0.0
    ensures x / y >= 0.0
  {
  }

  lemma BlendWithin(rate: real, v: real, r: real)
    requires 0.0 <= rate < 2.0 && Abs(v) <= Bound(rate) && Abs(r) <= TOP
    ensures Abs(Blend(rate, v, r)) <= Bound(rate)
  {
    BlendSplit(rate, v, r);
    BoundHolds(rate);
    var x, b := 1.0 - rate, Bound(rate);
    hide Blend, Bound, Times;
    AbsProduct(x, v);
    AbsProduct(rate, r);
    Larger(Abs(x), Abs(v), b);
    Larger(rate, Abs(r), TOP);
  }

  lemma BlendSplit(rate: real, v: real, r: real)
    ensures Blend(rate, v, r) == Times(1.0 - rate, v) + Times(rate, r)
  {
  }

  lemma Larger(x: real, y: real, z: real)
    requires x >= 0.0 && y <= z
    ensures Times(x, y) <= Times(x, z)
  {
    NonNegativeProduct(x, z - y);
    assert Times(x, z - y) == Times(x, z) - Times(x, y);
  }

  lemma {:induction false} RunWithin(c: Config, l: Learner, es: seq<Epoch>)
    requires 0.0 <= c.learningRate < 2.0 && l.table == map[]
    ensures Within(Run(c, l, es).table, Bound(c.learningRate))
  {
    var bound := Bound(c.learningRate);
    BoundHolds(c.learningRate);
    hide Run, Step, Value, Bound, Times;
    if es == [] {
      RunNone(c, l);
      EmptyWithin(bound);
    } else {
      var k, e := Run(c, l, es[..|es| - 1]), es[|es| - 1];
      RunWithin(c, l, es[..|es| - 1]);
      RunStep(c, l, es);
      forall s, a: nat ensures Abs(Value(Step(c, k, e).table, s, a)) <= bound {
        StepWithin(c, k, e, s, a);
      }
    }
  }

  lemma EmptyWithin(bound: real)
    requires bound >= 0.0
    ensures Within(map[], bound)
  {
  }

  lemma StepWithin(c: Config, k: Learner, e: Epoch, s: int, a: nat)
    requires 0.0 <= c.learningRate < 2.0 && Abs(Value(k.table, s, a)) <= Bound(c.learningRate)
    ensures Abs(Value(Step(c, k, e).table, s, a)) <= Bound(c.learningRate)
  {
    StepValue(c, k, e, s, a);
    hide Step, Value, RewardOf, Bound, Blend;
    if s == k.lastState && a == k.lastAction && k.lastAction < c.Actions() {
      RewardTop(c, k, e);
      BlendWithin(c.learningRate, Value(k.table, s, a), RewardOf(c, k, e));
    }
  }

  // ---- The controller at the start ----------------------------------------------------

  /** A controller as it is constructed, with exploration rate 1. */
  const START := Learner(map[], 0, 0, 0, false, 0.0, 0, 0, 0, 0, 0.0, 1.0)

  // ---- Every state occurs -------------------------------------------------------------

  /** Misses per thousand accesses in two epochs, so that the smoothed rate
      changes by 0.3 times the difference. */
  function MissesFor(state: int): (nat, nat) {
    var pair := state / 10;
    if pair == 20 then (1000, 0) else if pair == 21 then (300, 0) else if pair == 11 then (100, 0)
    else if pair == 12 then (0, 0) else if pair == 13 then (0, 200) else if pair == 14 then (0, 370) else (0, 1000)
  }

  function Visit(state: int): seq<Epoch> {
    var m := MissesFor(state);
    [Epoch(1000, m.0, 1, 1, 0.0, 0), Epoch(2000, m.0 + m.1, 1 + state % 10, 2, 0.0, 0)]
  }

  /** Each of the 21 states is reached by a run of two epochs in which there are
      at most as many misses as accesses. */
  lemma StateReached(c: Config, state: int)
    requires c.hasCpu && c.hasCache && state in STATES
    ensures Run(c, START, Visit(state)).lastState == state
  {
    hide *;
    VisitEncodes(state);
    VisitIs(state);
    var m := MissesFor(state);
    VisitRun(c, m.0, m.1, state % 10);
  }

  lemma VisitIs(state: int)
    ensures var m := MissesFor(state);
            Visit(state) == [Epoch(1000, m.0, 1, 1, 0.0, 0), Epoch(2000, m.0 + m.1, 1 + state % 10, 2, 0.0, 0)]
  {
    hide MissesFor;
  }

  lemma VisitRun(c: Config, x: nat, y: nat, ipc: nat)
    requires c.hasCpu && c.hasCache && x <= 1000 && y <= 1000 && ipc <= 2
    ensures Run(c, START, [Epoch(1000, x, 1, 1, 0.0, 0), Epoch(2000, x + y, 1 + ipc, 2, 0.0, 0)]).lastState ==
            Encode(0.3 * (y as real - x as real) / 1000.0, ipc as real - 1.0)
  {
    hide Encode, Step, Run;
    var a, b := Epoch(1000, x, 1, 1, 0.0, 0), Epoch(2000, x + y, 1 + ipc, 2, 0.0, 0);
    var l := Step(c, START, a);
    VisitFirst(c, a, x);
    VisitSecond(c, l, b, x, y, ipc);
    RunOne(c, START, a);
    RunAppend(c, START, [a], [b]);
    RunOne(c, l, b);
    assert [a] + [b] == [a, b];
  }

  lemma VisitFirst(c: Config, e: Epoch, x: nat)
    requires c.hasCpu && c.hasCache && x <= 1000 && e == Epoch(1000, x, 1, 1, 0.0, 0)
    ensures var l := Step(c, START, e);
            && l.haveSmoothed && l.smoothed == x as real / 1000.0 && l.lastIpc == 1.0
            && l.lastAccesses == 1000 && l.lastMisses == x && l.lastOps == 1 && l.lastTick == 1
  {
    assert Sub64(1000, 0) == 1000 && Sub64(x, 0) == x && Sub64(1, 0) == 1;
    hide Encode, Reward, Learn, RowOf, Choose;
  }

  lemma VisitSecond(c: Config, l: Learner, e: Epoch, x: nat, y: nat, ipc: nat)
    requires c.hasCpu && c.hasCache && x <= 1000 && y <= 1000 && ipc <= 2
    requires e == Epoch(2000, x + y, 1 + ipc, 2, 0.0, 0)
    requires l.haveSmoothed && l.smoothed == x as real / 1000.0 && l.lastIpc == 1.0
    requires l.lastAccesses == 1000 && l.lastMisses == x && l.lastOps == 1 && l.lastTick == 1
    ensures Step(c, l, e).lastState == Encode(0.3 * (y as real - x as real) / 1000.0, ipc as real - 1.0)
  {
    assert Sub64(e.accesses, l.lastAccesses) == 1000 && Sub64(e.misses, l.lastMisses) == y;
    assert Sub64(e.tick, l.lastTick) == 1 && Sub64(e.ops, l.lastOps) == ipc;
    hide Sub64;
    assert MissRate(c, l, e) == y as real / 1000.0 && NewIpc(c, l, e) == ipc as real;
    hide MissRate;
    assert DeltaMiss(c, l, e) == 0.3 * (y as real - x as real) / 1000.0;
    hide Encode, DeltaMiss, NewIpc;
    OtherRowsStay(c, l, e);
    hide Step;
  }

  lemma VisitEncodes(state: int)
    requires state in STATES
    ensures 0 <= state % 10 <= 2 && MissesFor(state).0 <= 1000 && MissesFor(state).1 <= 1000
    ensures var m := MissesFor(state);
            Encode(0.3 * (m.1 as real - m.0 as real) / 1000.0, (state % 10) as real - 1.0) == state
  {
  }
}
