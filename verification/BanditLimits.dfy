/** Which learning rates keep the values of the controller bounded. A controller may
    lack its cache or its CPU; each of them is the source of half of a reward. */
module BanditLimits {
  import opened Bandit
  import opened BanditRates
  import opened BanditRuns

  /** The state after construction. */
  predicate Fresh(l: Learner) {
    l.table == map[] && l.lastState == 0 && l.lastAction == 0 && !l.haveSmoothed && l.lastIpc == 0.0
  }

  lemma StartIsFresh()
    ensures Fresh(START)
  {
  }

  // ---- A value between two opposite rewards -------------------------------------------

  function Loss(rate: real): real {
    0.5 * rate * rate
  }

  lemma LossPositive(rate: real)
    ensures rate != 0.0 ==> Loss(rate) > 0.0
    ensures Loss(rate) >= 0.0
  {
    if rate > 0.0 {
      PositiveProduct(rate, rate);
    } else if rate < 0.0 {
      PositiveProduct(-rate, -rate);
    }
    assert Loss(rate) == 0.5 * (rate * rate);
  }

  function Square(rate: real): real {
    Times(1.0 - rate, 1.0 - rate)
  }

  /** How far `n` pairs of the rewards 0.5 and -0.5 take a value from 0. */
  function Swing(rate: real, n: nat): real {
    if n == 0 then 0.0 else Times(Square(rate), Swing(rate, n - 1)) + Loss(rate)
  }

  lemma PulseBlend(rate: real, v: real)
    ensures Blend(rate, Blend(rate, v, 0.5), -0.5) == Times(Times(1.0 - rate, 1.0 - rate), v) - Loss(rate)
  {
    var y := 1.0 - rate;
    BlendSplit(rate, v, 0.5);
    var u := Blend(rate, v, 0.5);
    BlendSplit(rate, u, -0.5);
    assert u == y * v + rate * 0.5;
    assert y * u == y * (y * v) + y * (rate * 0.5);
    assert y * (rate * 0.5) == 0.5 * rate - 0.5 * rate * rate;
    assert y * (y * v) == y * y * v;
  }

  lemma SquareAtLeastOne(y: real)
    requires y >= 1.0 || y <= -1.0
    ensures Times(y, y) >= 1.0
  {
  }

  /** The same with the rewards the other way round. */
  lemma WaveBlend(rate: real, v: real)
    ensures Blend(rate, Blend(rate, v, -0.5), 0.5) == Times(Times(1.0 - rate, 1.0 - rate), v) + Loss(rate)
  {
    var y := 1.0 - rate;
    BlendSplit(rate, v, -0.5);
    var u := Blend(rate, v, -0.5);
    BlendSplit(rate, u, 0.5);
    assert u == y * v - rate * 0.5;
    assert y * u == y * (y * v) - y * (rate * 0.5);
    assert y * (rate * 0.5) == 0.5 * rate - 0.5 * rate * rate;
    assert y * (y * v) == y * y * v;
  }

  lemma Opposite(x: real, y: real)
    ensures Times(x, -y) == -Times(x, y)
  {
  }

  lemma Enough(bound: real, loss: real) returns (n: nat)
    requires loss > 0.0
    ensures Times(n as real, loss) > bound
  {
    var q := if bound > 0.0 then bound / loss else 0.0;
    if bound > 0.0 {
      NonNegativeQuotient(bound, loss);
      assert q * loss == bound;
    }
    n := q.Floor + 1;
    PositiveProduct(n as real - q, loss);
    assert Times(n as real - q, loss) == Times(n as real, loss) - q * loss;
  }

  /** Outside of 0 to 2 every pair adds at least the same amount. */
  lemma {:induction false} SwingGrows(rate: real, n: nat)
    requires !(0.0 <= rate < 2.0)
    ensures Swing(rate, n) >= Times(n as real, Loss(rate)) >= 0.0
  {
    LossPositive(rate);
    NonNegativeProduct(n as real, Loss(rate));
    if n == 0 {
      assert Times(0.0, Loss(rate)) == 0.0;
    } else {
      SwingGrows(rate, n - 1);
      var y, u := 1.0 - rate, Swing(rate, n - 1);
      assert Swing(rate, n) == Times(Square(rate), u) + Loss(rate);
      hide Swing, Loss;
      SquareAtLeastOne(y);
      hide Times, Square;
      AtLeast(Square(rate), u);
      OneMoreTimes(n, Loss(rate));
    }
  }

  lemma AtLeast(x: real, u: real)
    requires x >= 1.0 && u >= 0.0
    ensures Times(x, u) >= u
  {
    hide Times;
    LessOne(x, u);
    NonNegativeProduct(x - 1.0, u);
  }

  lemma OneMoreTimes(n: nat, x: real)
    requires n > 0
    ensures Times(n as real, x) == Times((n - 1) as real, x) + x
  {
  }

  /** How much a pair adds at least while the swing is at most 1. */
  function Gain(rate: real): real {
    Loss(rate) - Times(rate, 2.0 - rate)
  }

  lemma GainPositive(rate: real)
    requires 4.0 / 3.0 < rate < 2.0
    ensures Gain(rate) > 0.0
  {
    var x := 1.5 * rate - 2.0;
    PositiveProduct(rate, x);
    assert Times(rate, x) == 1.5 * rate * rate - 2.0 * rate;
    assert Gain(rate) == 0.5 * rate * rate - rate * (2.0 - rate);
  }

  lemma SwingStep(rate: real, u: real)
    requires 4.0 / 3.0 < rate < 2.0 && 0.0 <= u <= 1.0
    ensures Times(Square(rate), u) + Loss(rate) >= u + Gain(rate)
    ensures Times(Square(rate), u) + Loss(rate) >= 0.0
  {
    SquareIs(rate, u);
    NonNegativeProduct(rate, 2.0 - rate);
    Larger(Times(rate, 2.0 - rate), u, 1.0);
    One(Times(rate, 2.0 - rate));
    GainPositive(rate);
    hide Times, Loss, Square;
  }

  lemma One(x: real)
    ensures Times(x, 1.0) == x
  {
  }

  lemma SquareIs(rate: real, u: real)
    ensures Times(Square(rate), u) == u - Times(Times(rate, 2.0 - rate), u)
  {
    assert Square(rate) == 1.0 - rate * (2.0 - rate);
    LessOne(Times(rate, 2.0 - rate), u);
  }

  /** Above 4/3 some number of pairs takes the value beyond 1. */
  lemma SwingPasses(rate: real) returns (n: nat)
    requires 4.0 / 3.0 < rate < 2.0
    ensures Swing(rate, n) > 1.0
  {
    GainPositive(rate);
    var m := Enough(1.0, Gain(rate));
    n := PassesBefore(rate, m);
  }

  lemma {:induction false} PassesBefore(rate: real, m: nat) returns (n: nat)
    requires 4.0 / 3.0 < rate < 2.0
    ensures Swing(rate, n) > 1.0 || (n == m && 0.0 <= Swing(rate, n) && Swing(rate, n) >= Times(m as real, Gain(rate)))
  {
    if m == 0 {
      n := 0;
      assert Times(0.0, Gain(rate)) == 0.0;
    } else {
      n := PassesBefore(rate, m - 1);
      if Swing(rate, n) <= 1.0 {
        var u := Swing(rate, m - 1);
        n := m;
        assert Swing(rate, m) == Times(Square(rate), u) + Loss(rate);
        hide Swing, Times, Loss, Gain, Square;
        SwingStep(rate, u);
        OneMoreTimes(m, Gain(rate));
      }
    }
  }

  // ---- With a CPU ---------------------------------------------------------------------

  /** An epoch of one tick and `ipc` operations without a cache access, in which
      action 0 is explored. */
  function Tick(l: Learner, ipc: nat): Epoch {
    Epoch(l.lastAccesses, l.lastMisses, l.lastOps + ipc, l.lastTick + 1, 0.0, 0)
  }

  predicate Calm(l: Learner) {
    (l.haveSmoothed ==> l.smoothed == 0.0) && l.lastAction == 0 && l.exploreRate > 0.0
  }

  lemma TickObserved(c: Config, l: Learner, ipc: nat)
    requires c.hasCpu && Calm(l) && ipc <= 2
    ensures var e := Tick(l, ipc);
            && DeltaMiss(c, l, e) == 0.0 && NewSmoothed(c, l, e) == 0.0 && NewIpc(c, l, e) == ipc as real
  {
    var e := Tick(l, ipc);
    assert Sub64(e.accesses, l.lastAccesses) == 0 && Sub64(e.tick, l.lastTick) == 1;
    assert Sub64(e.ops, l.lastOps) == ipc;
  }

  lemma TickStep(c: Config, l: Learner, ipc: nat)
    requires c.hasCpu && Calm(l) && ipc <= 2
    ensures var e := Tick(l, ipc);
            var m, d := Step(c, l, e), ipc as real - l.lastIpc;
            && Calm(m) && m.lastIpc == ipc as real && m.lastState == 120 + EncodeDeltaIpc(d)
            && RewardOf(c, l, e) == 0.5 * IpcSign(d)
  {
    var e := Tick(l, ipc);
    TickObserved(c, l, ipc);
    CalmReward(c, ipc as real - l.lastIpc);
    hide DeltaMiss, NewIpc, NewSmoothed, Encode, Reward, Learn, RowOf, EncodeDeltaIpc, IpcSign;
    Explores(c, l, e);
    StepExplores(c, l, e);
  }

  lemma CalmReward(c: Config, d: real)
    ensures Encode(0.0, d) == 120 + EncodeDeltaIpc(d)
    ensures Reward(c, 0.0, d, 0) == 0.5 * IpcSign(d)
  {
    assert Accuracy(0.0) == 0.5;
  }

  /** IPC 1, 2 and 0: twice up and then down. */
  function Pulse(c: Config, l: Learner): seq<Epoch> {
    var a := Tick(l, 1);
    var b := Tick(Step(c, l, a), 2);
    [a, b, Tick(Step(c, Step(c, l, a), b), 0)]
  }

  predicate Rested(l: Learner) {
    Calm(l) && l.lastIpc == 0.0 && l.lastState != 122
  }

  /** The state in which IPC went up gets the reward for a rise and then the one
      for a fall. */
  lemma PulseRun(c: Config, l: Learner)
    requires c.hasCpu && Rested(l)
    ensures var m := Run(c, l, Pulse(c, l));
            && Rested(m)
            && Value(m.table, 122, 0) ==
               Blend(c.learningRate, Blend(c.learningRate, Value(l.table, 122, 0), 0.5), -0.5)
  {
    var a := Tick(l, 1);
    var l1 := Step(c, l, a);
    var b := Tick(l1, 2);
    var l2 := Step(c, l1, b);
    var d := Tick(l2, 0);
    TickStep(c, l, 1);
    StepValue(c, l, a, 122, 0);
    TickStep(c, l1, 2);
    StepValue(c, l1, b, 122, 0);
    TickStep(c, l2, 0);
    StepValue(c, l2, d, 122, 0);
    hide Step, Run, Blend, RewardOf, Value, Tick;
    RunThree(c, l, a, b, d);
  }

  lemma RunThree(c: Config, l: Learner, a: Epoch, b: Epoch, d: Epoch)
    ensures Run(c, l, [a, b, d]) == Step(c, Step(c, Step(c, l, a), b), d)
  {
    hide Step;
    RunOne(c, l, a);
    RunAppend(c, l, [a], [b]);
    RunOne(c, Run(c, l, [a]), b);
    RunAppend(c, l, [a] + [b], [d]);
    RunOne(c, Run(c, l, [a] + [b]), d);
    assert [a] + [b] + [d] == [a, b, d];
  }

  function Pulses(c: Config, n: nat): seq<Epoch> {
    if n == 0 then [] else Pulses(c, n - 1) + Pulse(c, Run(c, START, Pulses(c, n - 1)))
  }

  lemma PulsesStep(c: Config, n: nat)
    ensures Run(c, START, Pulses(c, n)) ==
            if n == 0 then START
            else
              var k := Run(c, START, Pulses(c, n - 1));
              Run(c, k, Pulse(c, k))
  {
    hide Pulse, Run;
    if n == 0 {
      RunNone(c, START);
    } else {
      var es := Pulses(c, n - 1);
      RunAppend(c, START, es, Pulse(c, Run(c, START, es)));
    }
  }

  /** `n` pulses of IPC swing a value downwards. */
  lemma {:induction false} PulsesRun(c: Config, n: nat)
    requires c.hasCpu
    ensures var m := Run(c, START, Pulses(c, n));
            Rested(m) && Value(m.table, 122, 0) == -Swing(c.learningRate, n)
  {
    hide *;
    PulsesStep(c, n);
    if n == 0 {
      StartValue(122);
      SwingNone(c.learningRate);
    } else {
      var k := Run(c, START, Pulses(c, n - 1));
      PulsesRun(c, n - 1);
      PulseRun(c, k);
      PulseSwing(c.learningRate, n, Value(k.table, 122, 0));
    }
  }

  lemma PulseSwing(rate: real, n: nat, v: real)
    requires n > 0 && v == -Swing(rate, n - 1)
    ensures Blend(rate, Blend(rate, v, 0.5), -0.5) == -Swing(rate, n)
  {
    hide Times, Blend, Loss, Square, Swing;
    PulseBlend(rate, v);
    SquareOf(rate);
    SwingNext(rate, n);
    Opposite(Square(rate), Swing(rate, n - 1));
  }

  lemma WaveSwing(rate: real, n: nat, v: real)
    requires n > 0 && v == Swing(rate, n - 1)
    ensures Blend(rate, Blend(rate, v, -0.5), 0.5) == Swing(rate, n)
  {
    hide Times, Blend, Loss, Square, Swing;
    WaveBlend(rate, v);
    SquareOf(rate);
    SwingNext(rate, n);
  }

  lemma StartValue(s: int)
    ensures Rested(START) && Value(START.table, s, 0) == 0.0
  {
    assert START.table == map[];
  }

  lemma SwingNone(rate: real)
    ensures Swing(rate, 0) == 0.0
  {
  }

  lemma SwingNext(rate: real, n: nat)
    requires n > 0
    ensures Swing(rate, n) == Times(Square(rate), Swing(rate, n - 1)) + Loss(rate)
  {
  }

  lemma SquareOf(rate: real)
    ensures Square(rate) == Times(1.0 - rate, 1.0 - rate)
  {
  }

  // ---- With a cache -------------------------------------------------------------------

  /** An epoch of 149 accesses with `misses` misses in which no time passes. */
  function Sample(l: Learner, misses: nat): Epoch {
    Epoch(l.lastAccesses + 149, l.lastMisses + misses, l.lastOps, l.lastTick, 0.0, 0)
  }

  predicate Steady(l: Learner) {
    l.lastAction == 0 && l.exploreRate > 0.0
  }

  /** The smoothed miss rate is `x` in 149. */
  predicate Level(l: Learner, x: nat) {
    l.haveSmoothed && l.smoothed == x as real / 149.0
  }

  lemma SampleObserved(c: Config, l: Learner, misses: nat)
    requires c.hasCache && misses <= 149
    ensures var e := Sample(l, misses);
            MissRate(c, l, e) == misses as real / 149.0 && NewIpc(c, l, e) == l.lastIpc
  {
    var e := Sample(l, misses);
    assert Sub64(e.accesses, l.lastAccesses) == 149 && Sub64(e.misses, l.lastMisses) == misses;
    assert Sub64(e.tick, l.lastTick) == 0;
    hide Sub64;
  }

  /** What an epoch does whose deltas are known. */
  lemma StepFrom(c: Config, l: Learner, e: Epoch, dMiss: real, dIpc: real)
    requires Steady(l) && e.draw == 0.0 && e.pick == 0
    requires DeltaMiss(c, l, e) == dMiss && NewIpc(c, l, e) - l.lastIpc == dIpc
    ensures var m := Step(c, l, e);
            && Steady(m) && m.haveSmoothed && m.smoothed == NewSmoothed(c, l, e) && m.lastIpc == NewIpc(c, l, e)
            && m.lastState == Encode(dMiss, dIpc) && RewardOf(c, l, e) == Reward(c, dMiss, dIpc, 0)
  {
    hide DeltaMiss, NewIpc, NewSmoothed, Encode, Reward, Learn, RowOf, Decayed;
    Explores(c, l, e);
    StepExplores(c, l, e);
    DecayedPositive(l.exploreRate);
  }

  lemma DecayedPositive(rate: real)
    ensures Decayed(rate) > 0.0
  {
  }

  lemma SampleStep(c: Config, l: Learner, x: nat, misses: nat, y: nat)
    requires c.hasCache && Steady(l) && misses <= 149
    requires if l.haveSmoothed then Level(l, x) && 10 * y == 3 * misses + 7 * x else x == y == misses
    ensures var e := Sample(l, misses);
            var m, d := Step(c, l, e), (y as real - x as real) / 149.0;
            && Steady(m) && Level(m, y) && m.lastState == Encode(d, 0.0) && RewardOf(c, l, e) == Reward(c, d, 0.0, 0)
  {
    var e, d := Sample(l, misses), (y as real - x as real) / 149.0;
    SampleObserved(c, l, misses);
    hide MissRate, NewIpc;
    SmoothedLevel(l.haveSmoothed, x, misses, y);
    assert NewSmoothed(c, l, e) == y as real / 149.0;
    assert DeltaMiss(c, l, e) == d;
    hide NewSmoothed, DeltaMiss, Encode, Reward, Step, RewardOf;
    StepFrom(c, l, e, d, 0.0);
  }

  lemma SmoothedLevel(have: bool, x: nat, misses: nat, y: nat)
    requires have ==> 10 * y == 3 * misses + 7 * x
    ensures have ==> 0.3 * (misses as real / 149.0) + 0.7 * (x as real / 149.0) == y as real / 149.0
  {
    if have {
      assert 10.0 * y as real == 3.0 * misses as real + 7.0 * x as real;
    }
  }

  lemma WaveCodes(c: Config)
    ensures Encode(0.0, 0.0) == 121 && Reward(c, 0.0, 0.0, 0) == 0.0
    ensures Encode(30.0 / 149.0, 0.0) == 41 && Reward(c, 30.0 / 149.0, 0.0, 0) == -0.5
    ensures Encode(21.0 / 149.0, 0.0) == 41 && Encode(-21.0 / 149.0, 0.0) == 201
    ensures Encode(-30.0 / 149.0, 0.0) == 201 && Reward(c, -30.0 / 149.0, 0.0, 0) == 0.5
  {
  }

  /** Three epochs with these misses. */
  function Half(c: Config, l: Learner, m1: nat, m2: nat, m3: nat): seq<Epoch> {
    var l1 := Step(c, l, Sample(l, m1));
    var l2 := Step(c, l1, Sample(l1, m2));
    [Sample(l, m1), Sample(l1, m2), Sample(l2, m3)]
  }

  /** The miss rate rests at `x` in 149. */
  predicate Rests(l: Learner, x: nat) {
    Steady(l) && Level(l, x) && l.lastState == 121
  }

  /** From a rest away and on, in three epochs: the state of rest gets the reward
      of the first one. */
  lemma WaveHalf(c: Config, l: Learner, x: nat, m1: nat, y: nat, m2: nat, z: nat, m3: nat, w: nat)
    requires c.hasCache && Rests(l, x) && m1 <= 149 && m2 <= 149 && m3 <= 149
    requires 10 * y == 3 * m1 + 7 * x && 10 * z == 3 * m2 + 7 * y && 10 * w == 3 * m3 + 7 * z
    requires Encode((y as real - x as real) / 149.0, 0.0) != 121
    requires Encode((z as real - y as real) / 149.0, 0.0) != 121
    ensures var m := Run(c, l, Half(c, l, m1, m2, m3));
            && Steady(m) && Level(m, w) && m.lastState == Encode((w as real - z as real) / 149.0, 0.0)
            && Value(m.table, 121, 0) ==
               Blend(c.learningRate, Value(l.table, 121, 0), Reward(c, (y as real - x as real) / 149.0, 0.0, 0))
  {
    var l1 := Step(c, l, Sample(l, m1));
    var l2 := Step(c, l1, Sample(l1, m2));
    SampleStep(c, l, x, m1, y);
    StepValue(c, l, Sample(l, m1), 121, 0);
    SampleStep(c, l1, y, m2, z);
    StepValue(c, l1, Sample(l1, m2), 121, 0);
    SampleStep(c, l2, z, m3, w);
    StepValue(c, l2, Sample(l2, m3), 121, 0);
    hide Step, Encode, Reward, RewardOf, Value, Blend, Sample, Run;
    RunThree(c, l, Sample(l, m1), Sample(l1, m2), Sample(l2, m3));
  }

  /** The smoothed miss rate goes from 49 in 149 over 79 to 100, rests, goes back
      over 70, and rests. */
  function Wave(c: Config, l: Learner): seq<Epoch> {
    var up := Half(c, l, 149, 149, 100);
    up + Half(c, Run(c, l, up), 0, 0, 49)
  }

  /** The state of rest gets the reward for a rise and then the one for a fall. */
  lemma WaveRun(c: Config, l: Learner)
    requires c.hasCache && Rests(l, 49)
    ensures var m := Run(c, l, Wave(c, l));
            && Rests(m, 49)
            && Value(m.table, 121, 0) ==
               Blend(c.learningRate, Blend(c.learningRate, Value(l.table, 121, 0), -0.5), 0.5)
  {
    hide Run, Encode, Reward, Value, Blend, Half;
    WaveCodes(c);
    var up := Half(c, l, 149, 149, 100);
    var k := Run(c, l, up);
    WaveHalf(c, l, 49, 149, 79, 149, 100, 100, 100);
    WaveHalf(c, k, 100, 0, 70, 0, 49, 49, 49);
    RunAppend(c, l, up, Half(c, k, 0, 0, 49));
  }

  function Waves(c: Config, n: nat): seq<Epoch> {
    if n == 0 then [Sample(START, 49)] else Waves(c, n - 1) + Wave(c, Run(c, START, Waves(c, n - 1)))
  }

  lemma WavesStep(c: Config, n: nat)
    ensures Run(c, START, Waves(c, n)) ==
            if n == 0 then Step(c, START, Sample(START, 49))
            else
              var k := Run(c, START, Waves(c, n - 1));
              Run(c, k, Wave(c, k))
  {
    hide Wave, Run, Step, Sample;
    if n == 0 {
      RunOne(c, START, Sample(START, 49));
    } else {
      var es := Waves(c, n - 1);
      RunAppend(c, START, es, Wave(c, Run(c, START, es)));
    }
  }

  lemma WavesStart(c: Config)
    requires c.hasCache
    ensures var m := Step(c, START, Sample(START, 49)); Rests(m, 49) && Value(m.table, 121, 0) == 0.0
  {
    var e := Sample(START, 49);
    SampleStep(c, START, 49, 49, 49);
    StepValue(c, START, e, 121, 0);
    WaveCodes(c);
    StartValue(121);
    hide Step, Encode, Reward, RewardOf, Value;
  }

  /** `n` waves of the miss rate swing a value upwards. */
  lemma {:induction false} WavesRun(c: Config, n: nat)
    requires c.hasCache
    ensures var m := Run(c, START, Waves(c, n));
            Rests(m, 49) && Value(m.table, 121, 0) == Swing(c.learningRate, n)
  {
    hide *;
    WavesStep(c, n);
    if n == 0 {
      WavesStart(c);
      SwingNone(c.learningRate);
    } else {
      var k := Run(c, START, Waves(c, n - 1));
      WavesRun(c, n - 1);
      WaveRun(c, k);
      WaveSwing(c.learningRate, n, Value(k.table, 121, 0));
    }
  }

  // ---- With neither -------------------------------------------------------------------

  predicate Blind(c: Config) {
    !c.hasCpu && !c.hasCache
  }

  /** The smoothed miss rate of a controller without a cache. */
  predicate Quiet(l: Learner) {
    l.haveSmoothed ==> l.smoothed == 0.0
  }

  function Pen(c: Config, a: int): real {
    if 0 <= a < c.Actions() then Penalty(a) else 0.0
  }

  lemma BlindStep(c: Config, l: Learner, e: Epoch)
    requires Blind(c) && Quiet(l)
    ensures var m := Step(c, l, e); Quiet(m) && m.lastState == 121 && RewardOf(c, l, e) == -Pen(c, l.lastAction)
  {
    assert MissRate(c, l, e) == 0.0 && NewIpc(c, l, e) == l.lastIpc;
    assert NewSmoothed(c, l, e) == 0.0 && DeltaMiss(c, l, e) == 0.0;
    hide MissRate, NewIpc, NewSmoothed, DeltaMiss;
    BlindReward(c, l.lastAction);
    hide Encode, Reward, Learn, RowOf, Choose, Decayed;
  }

  lemma BlindReward(c: Config, a: int)
    ensures Encode(0.0, 0.0) == 121 && Reward(c, 0.0, 0.0, a) == -Pen(c, a)
  {
    assert Accuracy(0.0) == 0.5;
  }

  /** All values are between 0 and twice the penalty below it. */
  ghost predicate NearPenalty(c: Config, table: map<int, Row>) {
    forall s, a: nat :: Abs(Value(table, s, a) + Pen(c, a)) <= Pen(c, a)
  }

  predicate BlindTame(c: Config) {
    0.0 <= c.learningRate <= 2.0 || c.children == 0
  }

  lemma BlindBlend(c: Config, v: real, a: nat)
    requires BlindTame(c) && Abs(v + Pen(c, a)) <= Pen(c, a)
    ensures Abs(Blend(c.learningRate, v, -Pen(c, a)) + Pen(c, a)) <= Pen(c, a)
  {
    var p, x := Pen(c, a), 1.0 - c.learningRate;
    BlendAway(c.learningRate, v, -p);
    if c.children == 0 {
      assert p == 0.0 && v + p == 0.0 && Times(x, 0.0) == 0.0;
    } else {
      hide Blend, Pen;
      AbsProduct(x, v + p);
      NotLonger(Abs(x), Abs(v + p));
      hide Times;
    }
  }

  lemma NotLonger(x: real, y: real)
    requires 0.0 <= x <= 1.0 && y >= 0.0
    ensures Times(x, y) <= y
  {
    hide Times;
    LessOne(x, y);
    NonNegativeProduct(1.0 - x, y);
  }

  lemma {:induction false} BlindRun(c: Config, l: Learner, es: seq<Epoch>)
    requires Blind(c) && BlindTame(c) && Fresh(l)
    ensures var m := Run(c, l, es); Quiet(m) && NearPenalty(c, m.table)
  {
    hide Run, Step, RewardOf, Value, Blend, Pen, BlindTame, Blind, Abs;
    if es == [] {
      RunNone(c, l);
      NothingNear(c);
    } else {
      var k, e := Run(c, l, es[..|es| - 1]), es[|es| - 1];
      BlindRun(c, l, es[..|es| - 1]);
      RunStep(c, l, es);
      BlindStep(c, k, e);
      forall s, a: nat ensures Abs(Value(Step(c, k, e).table, s, a) + Pen(c, a)) <= Pen(c, a) {
        StepValue(c, k, e, s, a);
        BlindBlend(c, Value(k.table, s, a), a);
      }
    }
  }

  lemma NothingNear(c: Config)
    ensures NearPenalty(c, map[])
  {
  }

  /** An epoch that chooses action 1. */
  const POKE := Epoch(0, 0, 0, 0, 0.0, 1)

  function Pokes(n: nat): seq<Epoch> {
    seq(n + 1, _ => POKE)
  }

  lemma PokesSnoc(n: nat)
    ensures Pokes(0) == [POKE] && Pokes(n + 1) == Pokes(n) + [POKE]
  {
  }

  /** After `n` updates of action 1. */
  predicate Poked(c: Config, m: Learner, n: nat) {
    && Quiet(m) && m.lastState == 121 && m.lastAction == 1 && m.exploreRate > 0.0
    && Value(m.table, 121, 1) + 0.02 == Times(Power(1.0 - c.learningRate, n), 0.02)
  }

  lemma PokeStep(c: Config, l: Learner)
    requires Blind(c) && c.children > 0 && Quiet(l) && l.exploreRate > 0.0
    ensures var m := Step(c, l, POKE);
            Quiet(m) && m.lastState == 121 && m.lastAction == 1 && m.exploreRate > 0.0
  {
    BlindStep(c, l, POKE);
    hide Step, RewardOf, Decayed;
    Explores(c, l, POKE);
    StepExplores(c, l, POKE);
    DecayedPositive(l.exploreRate);
  }

  lemma StartPoked(c: Config)
    requires Blind(c) && c.children > 0
    ensures Poked(c, Step(c, START, POKE), 0)
  {
    assert Quiet(START) && START.exploreRate > 0.0 && START.lastState != 121;
    assert Value(START.table, 121, 1) == 0.0 by {
      assert START.table == map[];
    }
    hide Step, Value, Times, Power, Quiet, Blind;
    PokeStep(c, START);
    StepValue(c, START, POKE, 121, 1);
    hide RewardOf;
    PowerZero(1.0 - c.learningRate, 0.02);
  }

  lemma PokeValue(c: Config, l: Learner)
    requires Blind(c) && c.children > 0 && Quiet(l) && l.lastState == 121 && l.lastAction == 1
    ensures Value(Step(c, l, POKE).table, 121, 1) == Blend(c.learningRate, Value(l.table, 121, 1), -0.02)
  {
    hide Step, RewardOf, Value, Blend;
    BlindStep(c, l, POKE);
    StepValue(c, l, POKE, 121, 1);
  }

  lemma PokeNext(c: Config, k: Learner, n: nat)
    requires Blind(c) && c.children > 0 && Poked(c, k, n)
    ensures Poked(c, Step(c, k, POKE), n + 1)
  {
    hide Step, Value, Times, Power, Quiet, Blind, Blend;
    PokeStep(c, k);
    PokeValue(c, k);
    BlendDistance(c.learningRate, Value(k.table, 121, 1), -0.02, n, 0.02);
  }

  /** Without cache and CPU the value of action 1 has a distance to its penalty
      that is multiplied by 1 less the learning rate in every epoch. */
  lemma {:induction false} PokesRun(c: Config, n: nat)
    requires Blind(c) && c.children > 0
    ensures Poked(c, Run(c, START, Pokes(n)), n)
  {
    hide *;
    if n == 0 {
      PokesSnoc(0);
      RunOne(c, START, POKE);
      StartPoked(c);
    } else {
      PokesSnoc(n - 1);
      PokesRun(c, n - 1);
      var k := Run(c, START, Pokes(n - 1));
      RunAppend(c, START, Pokes(n - 1), [POKE]);
      RunOne(c, k, POKE);
      PokeNext(c, k, n - 1);
    }
  }

  /** Bernoulli's inequality. */
  lemma {:induction false} PowerGrows(x: real, n: nat)
    requires Abs(x) >= 1.0
    ensures Abs(Power(x, n)) >= 1.0 + Times(n as real, Abs(x) - 1.0)
    ensures Abs(Power(x, n)) >= 1.0
  {
    var d := Abs(x) - 1.0;
    if n == 0 {
      assert Times(0.0, d) == 0.0;
    } else {
      var p := Power(x, n - 1);
      assert Power(x, n) == Times(x, p);
      hide Power, Times, Abs;
      PowerGrows(x, n - 1);
      AbsProduct(x, p);
      LessOne(Abs(x), Abs(p));
      OneMoreTimes(n, d);
      Larger(d, 1.0, Abs(p));
      One(d);
    }
  }

  lemma PokesPass(c: Config, bound: real) returns (n: nat)
    requires Blind(c) && !BlindTame(c)
    ensures Abs(Value(Run(c, START, Pokes(n)).table, 121, 1) + 0.02) > bound
  {
    var x := 1.0 - c.learningRate;
    n := Enough(50.0 * bound, Abs(x) - 1.0);
    PokesRun(c, n);
    hide Run, Value, Power, Times, Blind, BlindTame, Pokes;
    PowerGrows(x, n);
    AbsProduct(Power(x, n), 0.02);
    Fiftieth(Abs(Power(x, n)));
  }

  lemma Fiftieth(x: real)
    ensures 50.0 * Times(x, 0.02) == x
  {
  }

  // ---- With one of the two ------------------------------------------------------------

  lemma HalfReward(c: Config, l: Learner, e: Epoch)
    requires if c.hasCpu then !c.hasCache && Quiet(l) else true
    ensures !c.hasCache && Quiet(l) ==> Quiet(Step(c, l, e))
    ensures Abs(RewardOf(c, l, e) + Pen(c, l.lastAction)) <= 0.5
  {
    var dMiss, dIpc := DeltaMiss(c, l, e), NewIpc(c, l, e) - l.lastIpc;
    if !c.hasCpu {
      assert dIpc == 0.0;
    } else {
      assert dMiss == 0.0;
    }
    assert !c.hasCache && Quiet(l) ==> NewSmoothed(c, l, e) == 0.0;
    hide DeltaMiss, NewIpc, NewSmoothed;
    HalfRewards(c, dMiss, dIpc, l.lastAction);
    hide Reward, Encode, Learn, RowOf, Choose, Decayed;
  }

  lemma HalfRewards(c: Config, dMiss: real, dIpc: real, a: int)
    requires dMiss == 0.0 || dIpc == 0.0
    ensures Abs(Reward(c, dMiss, dIpc, a) + Pen(c, a)) <= 0.5
  {
    AccuracyInUnit(dMiss);
    if dMiss == 0.0 {
      assert Accuracy(dMiss) == 0.5;
    }
    hide Accuracy;
  }

  /** All values are within 1 of the penalty. */
  ghost predicate NearOne(c: Config, table: map<int, Row>) {
    forall s, a: nat :: Abs(Value(table, s, a) + Pen(c, a)) <= 1.0
  }

  lemma HalfBlend(rate: real, v: real, r: real, p: real)
    requires 0.0 <= rate <= 4.0 / 3.0 && Abs(v + p) <= 1.0 && Abs(r + p) <= 0.5
    ensures Abs(Blend(rate, v, r) + p) <= 1.0
  {
    hide Times, Blend;
    var x := 1.0 - rate;
    BlendShifted(rate, v, r, p);
    AbsProduct(x, v + p);
    AbsProduct(rate, r + p);
    Larger(Abs(x), Abs(v + p), 1.0);
    One(Abs(x));
    Larger(rate, Abs(r + p), 0.5);
    Halved(rate);
  }

  lemma BlendShifted(rate: real, v: real, r: real, p: real)
    ensures Blend(rate, v, r) + p == Times(1.0 - rate, v + p) + Times(rate, r + p)
  {
  }

  lemma Halved(x: real)
    ensures Times(x, 0.5) == 0.5 * x
  {
  }

  lemma {:induction false} HalfRun(c: Config, l: Learner, es: seq<Epoch>)
    requires 0.0 <= c.learningRate <= 4.0 / 3.0 && !(c.hasCpu && c.hasCache) && Fresh(l)
    ensures var m := Run(c, l, es); (!c.hasCache ==> Quiet(m)) && NearOne(c, m.table)
  {
    hide Run, Step, RewardOf, Value, Blend, Pen, Abs;
    if es == [] {
      RunNone(c, l);
      NothingNearOne(c);
    } else {
      var k, e := Run(c, l, es[..|es| - 1]), es[|es| - 1];
      HalfRun(c, l, es[..|es| - 1]);
      RunStep(c, l, es);
      HalfReward(c, k, e);
      forall s, a: nat ensures Abs(Value(Step(c, k, e).table, s, a) + Pen(c, a)) <= 1.0 {
        StepValue(c, k, e, s, a);
        if s == k.lastState && a == k.lastAction && a < c.Actions() {
          HalfBlend(c.learningRate, Value(k.table, s, a), RewardOf(c, k, e), Pen(c, a));
        }
      }
    }
  }

  lemma NothingNearOne(c: Config)
    ensures NearOne(c, map[])
  {
  }

  // ---- With both ----------------------------------------------------------------------

  /** All accesses hit and IPC is 1, then all miss and IPC is 0. */
  const COLLAPSE := [Epoch(1, 0, 1, 1, 0.0, 0), Epoch(2, 1, 1, 2, 0.0, 0)]

  lemma CollapseValue(c: Config)
    requires c.hasCpu && c.hasCache
    ensures Value(Run(c, START, COLLAPSE).table, 122, 0) == -c.learningRate
  {
    var a, b := COLLAPSE[0], COLLAPSE[1];
    var l := Step(c, START, a);
    CollapseFirst(c);
    CollapseSecond(c, l);
    StepValue(c, START, a, 122, 0);
    StepValue(c, l, b, 122, 0);
    hide Step, Run, RewardOf, Value;
    assert [a] + [b] == COLLAPSE;
    RunOne(c, START, a);
    RunAppend(c, START, [a], [b]);
    RunOne(c, l, b);
    assert Value(START.table, 122, 0) == 0.0 by {
      assert START.table == map[];
      EmptyValue();
    }
    BlendSplit(c.learningRate, 0.0, -1.0);
  }

  lemma EmptyValue()
    ensures Value(map[], 122, 0) == 0.0
  {
  }

  lemma CollapseFirst(c: Config)
    requires c.hasCpu && c.hasCache
    ensures var l := Step(c, START, COLLAPSE[0]);
            && l.haveSmoothed && l.smoothed == 0.0 && l.lastIpc == 1.0 && l.lastState == 122 && l.lastAction == 0
            && l.lastAccesses == 1 && l.lastMisses == 0 && l.lastOps == 1 && l.lastTick == 1
  {
    var e := COLLAPSE[0];
    Explores(c, START, e);
    assert Sub64(1, 0) == 1 && Sub64(0, 0) == 0;
    assert MissRate(c, START, e) == 0.0 && NewIpc(c, START, e) == 1.0;
    CalmReward(c, 1.0);
    hide Encode, Reward, Learn, RowOf, Choose, Accuracy;
  }

  lemma CollapseSecond(c: Config, l: Learner)
    requires c.hasCpu && c.hasCache
    requires l.haveSmoothed && l.smoothed == 0.0 && l.lastIpc == 1.0 && l.lastAction == 0
    requires l.lastAccesses == 1 && l.lastMisses == 0 && l.lastOps == 1 && l.lastTick == 1
    ensures RewardOf(c, l, COLLAPSE[1]) == -1.0
  {
    CollapseObserved(c, l, COLLAPSE[1]);
    hide DeltaMiss, NewIpc, Reward;
    LowestReward(c);
  }

  lemma CollapseObserved(c: Config, l: Learner, e: Epoch)
    requires c.hasCpu && c.hasCache && l.haveSmoothed && l.smoothed == 0.0
    requires l.lastAccesses == 1 && l.lastMisses == 0 && l.lastOps == 1 && l.lastTick == 1
    requires e.accesses == 2 && e.misses == 1 && e.ops == 1 && e.tick == 2
    ensures DeltaMiss(c, l, e) == 0.3 && NewIpc(c, l, e) == 0.0
  {
    assert Sub64(e.accesses, l.lastAccesses) == 1 && Sub64(e.misses, l.lastMisses) == 1;
    assert Sub64(e.tick, l.lastTick) == 1 && Sub64(e.ops, l.lastOps) == 0;
    hide Sub64;
    assert MissRate(c, l, e) == 1.0 && NewIpc(c, l, e) == 0.0;
    hide MissRate;
    assert NewSmoothed(c, l, e) == 0.3;
  }

  lemma LowestReward(c: Config)
    ensures Reward(c, 0.3, -1.0, 0) == -1.0
  {
    assert Accuracy(0.3) == 0.0;
  }

  // ---- Exactly when there is a bound --------------------------------------------------

  /** In every run of a new controller all values are within the bound. */
  ghost predicate FreshWithin(c: Config, bound: real) {
    forall l: Learner, es :: Fresh(l) ==> Within(Run(c, l, es).table, bound)
  }

  /** In every run from an empty table all values are within the bound. */
  ghost predicate AlwaysWithin(c: Config, bound: real) {
    forall l: Learner, es :: l.table == map[] ==> Within(Run(c, l, es).table, bound)
  }


  /** Main result on rates: there is a common bound on the values over all runs of a
      new controller exactly when the learning rate is at least 0 and below 2. Only a
      controller without cache and CPU, where the values just follow the penalties,
      also has one for the rate 2, and for every rate if it has no children. For the
      others the same holds of every start with an empty table. */
  lemma CommonBoundIff(c: Config)
    ensures (exists bound :: FreshWithin(c, bound)) <==>
            0.0 <= c.learningRate < 2.0 || (Blind(c) && BlindTame(c))
    ensures !Blind(c) ==> ((exists bound :: AlwaysWithin(c, bound)) <==> 0.0 <= c.learningRate < 2.0)
  {
    hide *;
    if 0.0 <= c.learningRate < 2.0 {
      AlwaysBounded(c);
    } else if Blind(c) && BlindTame(c) {
      BlindBounded(c);
    } else {
      forall bound ensures !FreshWithin(c, bound) && !AlwaysWithin(c, bound) {
        Exceeds(c, bound);
      }
    }
  }

  lemma AlwaysBounded(c: Config)
    requires 0.0 <= c.learningRate < 2.0
    ensures FreshWithin(c, Bound(c.learningRate)) && AlwaysWithin(c, Bound(c.learningRate))
  {
    hide Run, Within, Bound;
    forall l: Learner, es | l.table == map[] ensures Within(Run(c, l, es).table, Bound(c.learningRate)) {
      RunWithin(c, l, es);
    }
  }

  lemma BlindBounded(c: Config)
    requires Blind(c) && BlindTame(c)
    ensures FreshWithin(c, 1.0)
  {
    hide Run, Within, Blind, BlindTame, Fresh;
    forall l: Learner, es | Fresh(l) ensures Within(Run(c, l, es).table, 1.0) {
      BlindRun(c, l, es);
      hide Quiet;
      NearWithin(c, Run(c, l, es).table);
    }
  }

  lemma NearWithin(c: Config, table: map<int, Row>)
    requires NearPenalty(c, table)
    ensures Within(table, 1.0)
  {
    hide Value;
  }

  lemma Exceeds(c: Config, bound: real)
    requires !(0.0 <= c.learningRate < 2.0) && !(Blind(c) && BlindTame(c))
    ensures !FreshWithin(c, bound) && !AlwaysWithin(c, bound)
  {
    var es, s, a := Passes(c, bound);
    StartIsFresh();
    hide Run, Value;
    assert START.table == map[];
    assert !Within(Run(c, START, es).table, bound);
    hide Within;
  }

  lemma Passes(c: Config, bound: real) returns (es: seq<Epoch>, s: int, a: nat)
    requires !(0.0 <= c.learningRate < 2.0) && !(Blind(c) && BlindTame(c))
    ensures Abs(Value(Run(c, START, es).table, s, a)) > bound
  {
    hide Run, Value, BlindTame;
    if Blind(c) {
      var n := PokesPass(c, bound + 0.02);
      es, s, a := Pokes(n), 121, 1;
    } else {
      var n := SwingsFar(c, bound);
      es, s, a := Swings(c, n), if c.hasCpu then 122 else 121, 0;
      SwingsRun(c, n);
    }
  }

  function Swings(c: Config, n: nat): seq<Epoch> {
    if c.hasCpu then Pulses(c, n) else Waves(c, n)
  }

  lemma SwingsRun(c: Config, n: nat)
    requires !Blind(c)
    ensures var table := Run(c, START, Swings(c, n)).table;
            if c.hasCpu then Value(table, 122, 0) == -Swing(c.learningRate, n)
            else Value(table, 121, 0) == Swing(c.learningRate, n)
  {
    hide Run, Value, Swing, Pulses, Waves, Rested, Rests;
    if c.hasCpu {
      PulsesRun(c, n);
    } else {
      WavesRun(c, n);
    }
  }

  lemma SwingsFar(c: Config, bound: real) returns (n: nat)
    requires !(0.0 <= c.learningRate < 2.0)
    ensures Swing(c.learningRate, n) > bound && Swing(c.learningRate, n) >= 0.0
  {
    hide Swing, Times, Loss;
    LossPositive(c.learningRate);
    n := Enough(bound, Loss(c.learningRate));
    SwingGrows(c.learningRate, n);
  }

  // ---- Exactly when the values stay in the range of the rewards -----------------------

  /** The largest learning rate that keeps the values in range. */
  function Limit(c: Config): real {
    if c.hasCpu && c.hasCache then 1.0 else if Blind(c) then 2.0 else 4.0 / 3.0
  }

  ghost predicate FreshInRange(c: Config) {
    forall l: Learner, es :: Fresh(l) ==> BoundedTable(c, Run(c, l, es).table)
  }

  /** The converse of `ValuesBounded`: in every run of a new controller the values stay
      in the range of the rewards exactly for learning rates from 0 to a limit, which
      is 1 with cache and CPU, 4/3 with one of them and 2 with neither; the last with
      the same exception as above. With both the same holds of every start with an
      empty table. */
  lemma RangeKeptIff(c: Config)
    ensures FreshInRange(c) <==> 0.0 <= c.learningRate <= Limit(c) || (Blind(c) && c.children == 0)
    ensures c.hasCpu && c.hasCache ==>
              ((forall l: Learner, es :: l.table == map[] ==> BoundedTable(c, Run(c, l, es).table)) <==>
               0.0 <= c.learningRate <= 1.0)
  {
    hide Run, BoundedTable;
    if 0.0 <= c.learningRate <= 1.0 {
      forall l: Learner, es | l.table == map[] ensures BoundedTable(c, Run(c, l, es).table) {
        ValuesBounded(c, l, es) by {
          NothingBounded(c, l.table);
        }
      }
    } else if 0.0 <= c.learningRate <= Limit(c) || (Blind(c) && c.children == 0) {
      forall l: Learner, es | Fresh(l) ensures BoundedTable(c, Run(c, l, es).table) {
        StaysInRange(c, l, es);
      }
    } else {
      LeavesRange(c);
    }
  }

  lemma NothingBounded(c: Config, table: map<int, Row>)
    requires table == map[]
    ensures BoundedTable(c, table)
  {
  }

  lemma StaysInRange(c: Config, l: Learner, es: seq<Epoch>)
    requires 0.0 <= c.learningRate <= Limit(c) || (Blind(c) && c.children == 0)
    requires Fresh(l) && !(c.hasCpu && c.hasCache)
    ensures BoundedTable(c, Run(c, l, es).table)
  {
    hide Run, BoundedTable, NearPenalty, NearOne;
    if Blind(c) {
      BlindRun(c, l, es);
      NearIsBounded(c, Run(c, l, es).table);
    } else {
      HalfRun(c, l, es);
      NearOneIsBounded(c, Run(c, l, es).table);
    }
  }

  lemma NearIsBounded(c: Config, table: map<int, Row>)
    requires NearPenalty(c, table)
    ensures BoundedTable(c, table)
  {
    forall s, k | s in table && 0 <= k < |table[s]| && k < c.Actions() ensures InRange(table[s][k], Penalty(k)) {
      assert Abs(Value(table, s, k) + Pen(c, k)) <= Pen(c, k);
    }
  }

  lemma NearOneIsBounded(c: Config, table: map<int, Row>)
    requires NearOne(c, table)
    ensures BoundedTable(c, table)
  {
    forall s, k | s in table && 0 <= k < |table[s]| && k < c.Actions() ensures InRange(table[s][k], Penalty(k)) {
      assert Abs(Value(table, s, k) + Pen(c, k)) <= 1.0;
    }
  }

  lemma LeavesRange(c: Config)
    requires !(0.0 <= c.learningRate <= Limit(c)) && !(Blind(c) && c.children == 0)
    ensures !FreshInRange(c)
    ensures exists l: Learner, es :: l.table == map[] && !BoundedTable(c, Run(c, l, es).table)
  {
    var es, s, a := OutOfRange(c);
    StartIsFresh();
    assert START.table == map[];
    hide Run, Value;
    var table := Run(c, START, es).table;
    assert !BoundedTable(c, table) by {
      hide BoundedTable;
      if BoundedTable(c, table) {
        ValueInRange(c, table, s, a);
      }
    }
    hide BoundedTable;
  }

  lemma ValueInRange(c: Config, table: map<int, Row>, s: int, a: nat)
    requires BoundedTable(c, table) && a < c.Actions()
    ensures -1.0 - Penalty(a) <= Value(table, s, a) <= 1.0
  {
  }

  lemma OutOfRange(c: Config) returns (es: seq<Epoch>, s: int, a: nat)
    requires !(0.0 <= c.learningRate <= Limit(c)) && !(Blind(c) && c.children == 0)
    ensures a < c.Actions()
    ensures var v := Value(Run(c, START, es).table, s, a); v < -1.0 - Penalty(a) || v > 1.0
  {
    hide Run, Value;
    if Blind(c) {
      var n := PokesPass(c, 1.02);
      es, s, a := Pokes(n), 121, 1;
    } else if c.hasCpu && c.hasCache && c.learningRate > 1.0 {
      es, s, a := COLLAPSE, 122, 0;
      CollapseValue(c);
    } else {
      var n: nat;
      if 0.0 <= c.learningRate < 2.0 {
        n := SwingPasses(c.learningRate);
      } else {
        n := SwingsFar(c, 1.0);
      }
      es, s, a := Swings(c, n), if c.hasCpu then 122 else 121, 0;
      SwingsRun(c, n);
    }
  }
}
