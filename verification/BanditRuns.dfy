/** What holds of the controller's learning over every run of epochs. */
module BanditRuns {
  import opened Bandit
  import opened Finite

  // ---- The states that can occur ----------------------------------------------

  /** Of the 45 combinations of the three features only these occur: the
      accuracy is a function of the change of miss rate, so most pairs of the
      two are impossible. */
  const STATES: set<int> :=
    Triple(200) + Triple(110) + Triple(210) + Triple(120) + Triple(130) + Triple(140) + Triple(40)

  /** The states with the same first two digits, one for each IPC trend. */
  function Triple(base: int): set<int> {
    {base, base + 1, base + 2}
  }

  lemma EncodeInStates(deltaMiss: real, deltaIpc: real)
    ensures Encode(deltaMiss, deltaIpc) in STATES
  {
  }

  lemma EncodeNotZero(deltaMiss: real, deltaIpc: real)
    ensures Encode(deltaMiss, deltaIpc) != 0
  {
  }

  /** The table of a controller that starts empty never has more than the 21
      states and the initial state 0, which no epoch encodes. */
  lemma {:induction false} KeysReachable(c: Config, l: Learner, es: seq<Epoch>)
    requires l.table.Keys <= STATES + {0} && l.lastState in STATES + {0}
    ensures var m := Run(c, l, es);
            m.table.Keys <= STATES + {0} && m.lastState in STATES + {0} && (es != [] ==> m.lastState in STATES)
  {
    if es != [] {
      var r, e := es[..|es| - 1], es[|es| - 1];
      KeysReachable(c, l, r);
      var k := Run(c, l, r);
      hide Encode, Run;
      EncodeInStates(DeltaMiss(c, k, e), NewIpc(c, k, e) - k.lastIpc);
    }
  }

  lemma TableSize(c: Config, l: Learner, es: seq<Epoch>)
    requires l.table == map[] && l.lastState == 0
    ensures |Run(c, l, es).table| <= 22
  {
    KeysReachable(c, l, es);
    hide *;
    StatesSize();
    SubsetSize(Run(c, l, es).table.Keys, STATES + {0});
  }

  lemma StatesSize()
    ensures |STATES + {0}| <= 22
  {
    AddTriple({0}, 200);
    AddTriple({0} + Triple(200), 110);
    AddTriple({0} + Triple(200) + Triple(110), 210);
    AddTriple({0} + Triple(200) + Triple(110) + Triple(210), 120);
    AddTriple({0} + Triple(200) + Triple(110) + Triple(210) + Triple(120), 130);
    AddTriple({0} + Triple(200) + Triple(110) + Triple(210) + Triple(120) + Triple(130), 140);
    AddTriple({0} + Triple(200) + Triple(110) + Triple(210) + Triple(120) + Triple(130) + Triple(140), 40);
    hide Triple;
    assert STATES + {0} ==
      {0} + Triple(200) + Triple(110) + Triple(210) + Triple(120) + Triple(130) + Triple(140) + Triple(40);
  }

  lemma AddTriple(a: set<int>, base: int)
    ensures |a + Triple(base)| <= |a| + 3
  {
    UnionSize(a, Triple(base));
  }

  lemma UnionSize(a: set<int>, b: set<int>)
    ensures |a + b| <= |a| + |b|
  {
    assert a + b == a + (b - a);
    SubsetSize(b - a, b);
  }

  // ---- Values stay bounded ------------------------------------------------------

  lemma AccuracyInUnit(d: real)
    ensures 0.0 <= Accuracy(d) <= 1.0
  {
  }

  lemma RewardBounds(c: Config, deltaMiss: real, deltaIpc: real, action: int)
    requires 0 <= action < c.Actions()
    ensures -1.0 - Penalty(action) <= Reward(c, deltaMiss, deltaIpc, action) <= 1.0 - Penalty(action)
  {
    AccuracyInUnit(deltaMiss);
  }

  predicate InRange(v: real, penalty: real) {
    -1.0 - penalty <= v <= 1.0
  }

  lemma BlendInRange(rate: real, v: real, r: real, p: real)
    requires 0.0 <= rate <= 1.0 && 0.0 <= p && InRange(v, p) && InRange(r, p)
    ensures InRange(Blend(rate, v, r), p)
  {
    hide Blend;
    Between(rate, v, r);
  }

  /** Multiplication, as a function that proofs can leave folded. */
  function Times(x: real, y: real): real {
    x * y
  }

  lemma NonNegativeProduct(x: real, y: real)
    requires x >= 0.0 && y >= 0.0
    ensures Times(x, y) >= 0.0
  {
  }

  lemma LessOne(x: real, y: real)
    ensures Times(1.0 - x, y) == y - Times(x, y) && Times(x - 1.0, y) == Times(x, y) - y
  {
  }

  /** An update moves the value towards the reward and not past it. */
  lemma Between(rate: real, v: real, r: real)
    requires 0.0 <= rate <= 1.0
    ensures v <= r ==> v <= Blend(rate, v, r) <= r
    ensures r <= v ==> r <= Blend(rate, v, r) <= v
  {
    BlendUp(rate, v, r);
    BlendDown(rate, v, r);
    hide Times, Blend;
    if r >= v {
      UnitScale(rate, r - v);
    } else {
      UnitScale(rate, v - r);
    }
  }

  lemma BlendUp(rate: real, v: real, r: real)
    ensures Blend(rate, v, r) == v + Times(rate, r - v)
  {
  }

  lemma BlendDown(rate: real, v: real, r: real)
    ensures Blend(rate, v, r) == v - Times(rate, v - r)
  {
  }

  lemma UnitScale(a: real, x: real)
    requires 0.0 <= a <= 1.0 && x >= 0.0
    ensures 0.0 <= Times(a, x) <= x
  {
    hide Times;
    LessOne(a, x);
    NonNegativeProduct(1.0 - a, x);
    NonNegativeProduct(a, x);
  }

  predicate BoundedRow(c: Config, row: Row) {
    forall k :: 0 <= k < |row| && k < c.Actions() ==> InRange(row[k], Penalty(k))
  }

  predicate BoundedTable(c: Config, table: map<int, Row>) {
    forall s :: s in table ==> BoundedRow(c, table[s])
  }

  lemma StepBounded(c: Config, l: Learner, e: Epoch)
    requires 0.0 <= c.learningRate <= 1.0 && BoundedTable(c, l.table)
    ensures BoundedTable(c, Step(c, l, e).table)
  {
    hide Encode, Choose, DeltaMiss, NewIpc, NewSmoothed;
    var dMiss, dIpc := DeltaMiss(c, l, e), NewIpc(c, l, e) - l.lastIpc;
    var reward := Reward(c, dMiss, dIpc, l.lastAction);
    var row := RowOf(l.table, l.lastState, c.Actions());
    assert BoundedRow(c, row);
    LearnBounded(c, row, l.lastAction, dMiss, dIpc);
    hide Reward, Learn;
    var t := Valued(c, Observed(c, l, e), reward).table;
    assert BoundedTable(c, t);
    assert BoundedRow(c, RowOf(t, Encode(dMiss, dIpc), c.Actions()));
  }

  lemma LearnBounded(c: Config, row: Row, action: int, deltaMiss: real, deltaIpc: real)
    requires 0.0 <= c.learningRate <= 1.0 && BoundedRow(c, row)
    ensures BoundedRow(c, Learn(c, row, action, Reward(c, deltaMiss, deltaIpc, action)))
  {
    var reward := Reward(c, deltaMiss, deltaIpc, action);
    if 0 <= action < c.Actions() && action < |row| {
      RewardBounds(c, deltaMiss, deltaIpc, action);
      BlendInRange(c.learningRate, row[action], reward, Penalty(action));
    }
  }

  /** Main result on values: with a learning rate between 0 and 1, every value
      of every action stays between -1 less its penalty and 1, in every run. */
  lemma {:induction false} ValuesBounded(c: Config, l: Learner, es: seq<Epoch>)
    requires 0.0 <= c.learningRate <= 1.0 && BoundedTable(c, l.table)
    ensures BoundedTable(c, Run(c, l, es).table)
  {
    if es != [] {
      ValuesBounded(c, l, es[..|es| - 1]);
      StepBounded(c, Run(c, l, es[..|es| - 1]), es[|es| - 1]);
    }
  }

  // ---- Actions --------------------------------------------------------------------

  /** After an epoch the controller runs a child or is off, as the chosen index
      says, and a choice that does not explore is the first best one. */
  lemma ActionValid(c: Config, l: Learner, e: Epoch)
    ensures var m := Step(c, l, e);
            && 0 <= m.lastAction < c.Actions()
            && -1 <= m.current < c.children
            && (m.current == -1 <==> m.lastAction == c.children)
            && (m.current >= 0 ==> m.current == m.lastAction)
            && m.lastState in m.table && |m.table[m.lastState]| >= c.Actions()
            && (e.draw >= l.exploreRate ==>
                  var row := m.table[m.lastState];
                  && (forall k :: 0 <= k < c.Actions() ==> row[k] <= row[m.lastAction])
                  && (forall k :: 0 <= k < m.lastAction ==> row[k] < row[m.lastAction]))
  {
    hide Encode, Reward, DeltaMiss, NewIpc, NewSmoothed, Learn;
  }

  // ---- Freezing ---------------------------------------------------------------------

  function Power(x: real, k: nat): real {
    if k == 0 then 1.0 else x * Power(x, k - 1)
  }

  /** `k` decays in one step, never below the minimum. */
  function DecayedBy(rate: real, k: nat): real {
    Max(EXPLORE_MIN, Times(rate, Power(EXPLORE_DECAY, k)))
  }

  lemma DecayNext(rate: real, k: nat)
    ensures k == 0 ==> Decayed(rate) == DecayedBy(rate, 1)
    ensures Decayed(DecayedBy(rate, k)) == DecayedBy(rate, k + 1)
  {
    PowerNext(rate, k);
    PowerNext(rate, 0);
    FloorStays(rate);
    FloorStays(Times(rate, Power(EXPLORE_DECAY, k)));
    hide Power, Times, Decayed;
    DecayOnce(rate);
  }

  lemma PowerNext(rate: real, k: nat)
    ensures Times(rate, Power(EXPLORE_DECAY, k + 1)) == Times(Times(rate, Power(EXPLORE_DECAY, k)), EXPLORE_DECAY)
    ensures Times(rate, Power(EXPLORE_DECAY, 0)) == rate
  {
    var p := Power(EXPLORE_DECAY, k);
    assert Power(EXPLORE_DECAY, k + 1) == EXPLORE_DECAY * p;
    hide Power;
    Swap(rate, p);
  }

  lemma Swap(x: real, p: real)
    ensures Times(x, EXPLORE_DECAY * p) == Times(Times(x, p), EXPLORE_DECAY)
  {
  }

  lemma DecayOnce(rate: real)
    ensures Decayed(rate) == Max(EXPLORE_MIN, Times(rate, EXPLORE_DECAY))
  {
  }

  /** Cutting at the minimum before a decay changes nothing after it. */
  lemma FloorStays(x: real)
    ensures Decayed(Max(EXPLORE_MIN, x)) == Max(EXPLORE_MIN, Times(x, EXPLORE_DECAY))
  {
  }

  /** The exploration rate after any number of epochs. */
  lemma {:induction false} ExploreRate(c: Config, l: Learner, es: seq<Epoch>)
    requires es != []
    ensures Run(c, l, es).exploreRate == DecayedBy(l.exploreRate, |es|)
  {
    hide *;
    var r := es[..|es| - 1];
    RunStep(c, l, es);
    StepExplores(c, Run(c, l, r), es[|es| - 1]);
    DecayNext(l.exploreRate, |r|);
    if r == [] {
      RunNone(c, l);
    } else {
      ExploreRate(c, l, r);
    }
  }

  lemma RunNone(c: Config, l: Learner)
    ensures Run(c, l, []) == l
  {
  }

  lemma RunStep(c: Config, l: Learner, es: seq<Epoch>)
    requires es != []
    ensures Run(c, l, es) == Step(c, Run(c, l, es[..|es| - 1]), es[|es| - 1])
  {
  }

  lemma StepExplores(c: Config, l: Learner, e: Epoch)
    ensures Step(c, l, e).exploreRate == Decayed(l.exploreRate)
  {
    hide Encode, Reward, DeltaMiss, NewIpc, NewSmoothed, Learn, RowOf, Decayed;
  }

  /** The manual freezes a controller by setting learning and exploration rate
      to 0. The values are then frozen, but from the second epoch on every
      action can still be chosen against the values. */
  lemma FreezeStillExplores(c: Config, l: Learner, es: seq<Epoch>, action: nat)
    requires l.exploreRate == 0.0 && es != [] && action < c.Actions()
    ensures Run(c, l, es).exploreRate == EXPLORE_MIN
    ensures forall e: Epoch :: e.draw < EXPLORE_MIN && e.pick == action ==>
              Step(c, Run(c, l, es), e).lastAction == action
  {
    ExploreRate(c, l, es);
    hide *;
    var k := Run(c, l, es);
    Floor(|es|);
    forall e: Epoch | e.draw < EXPLORE_MIN && e.pick == action ensures Step(c, k, e).lastAction == action {
      Explores(c, k, e);
    }
  }

  lemma Floor(k: nat)
    ensures DecayedBy(0.0, k) == EXPLORE_MIN
  {
  }

  lemma Explores(c: Config, l: Learner, e: Epoch)
    requires e.draw < l.exploreRate && e.pick < c.Actions()
    ensures Step(c, l, e).lastAction == e.pick
  {
    hide Encode, Reward, DeltaMiss, NewIpc, NewSmoothed, Learn, Best;
    assert e.pick % c.Actions() == e.pick;
  }

  /** Old rows keep their values and are at most padded; new rows are zero. */
  predicate Padded(before: map<int, Row>, after: map<int, Row>) {
    && (forall s :: s in before ==> s in after && ZeroPadded(before[s], after[s]))
    && (forall s :: s in after && s !in before ==> ZeroPadded([], after[s]))
  }

  predicate ZeroPadded(a: Row, b: Row) {
    a <= b && forall k :: |a| <= k < |b| ==> b[k] == 0.0
  }

  lemma SamePadded(c: Config, row: Row, action: int, reward: real)
    requires c.learningRate == 0.0
    ensures Learn(c, row, action, reward) == row
  {
  }

  lemma PadRow(before: map<int, Row>, table: map<int, Row>, state: int, n: nat)
    requires Padded(before, table)
    ensures Padded(before, table[state := RowOf(table, state, n)])
  {
  }

  lemma {:induction false} FrozenValues(c: Config, l: Learner, es: seq<Epoch>)
    requires c.learningRate == 0.0
    ensures Padded(l.table, Run(c, l, es).table)
  {
    if es != [] {
      var k, e := Run(c, l, es[..|es| - 1]), es[|es| - 1];
      FrozenValues(c, l, es[..|es| - 1]);
      var dMiss, dIpc := DeltaMiss(c, k, e), NewIpc(c, k, e) - k.lastIpc;
      var reward, state := Reward(c, dMiss, dIpc, k.lastAction), Encode(dMiss, dIpc);
      hide Encode, Reward, DeltaMiss, NewIpc, NewSmoothed, Learn, RowOf, Padded;
      SamePadded(c, RowOf(k.table, k.lastState, c.Actions()), k.lastAction, reward);
      PadRow(l.table, k.table, k.lastState, c.Actions());
      PadRow(l.table, Valued(c, k, reward).table, state, c.Actions());
    }
  }

  // ---- The first epoch --------------------------------------------------------------

  /** An epoch touches the rows of the last and of the new state only. */
  lemma OtherRowsStay(c: Config, l: Learner, e: Epoch)
    ensures var m := Step(c, l, e);
            && m.lastState == Encode(DeltaMiss(c, l, e), NewIpc(c, l, e) - l.lastIpc)
            && l.lastState in m.table
            && forall s :: s in l.table && s != l.lastState && s != m.lastState ==>
                 s in m.table && m.table[s] == l.table[s]
  {
    hide Encode, Reward, DeltaMiss, NewIpc, NewSmoothed, Learn, RowOf, Choose;
  }

  /** The reward of the first epoch goes to state 0, which no later epoch is in,
      so that row is written once and never looked at again. */
  lemma {:induction false} FirstRewardIsLost(c: Config, l: Learner, first: Learner, es: seq<Epoch>)
    requires l.lastState == 0 && es != [] && first == Step(c, l, es[0])
    ensures var m := Run(c, l, es);
            0 in first.table && 0 in m.table && m.lastState != 0 && m.table[0] == first.table[0]
  {
    hide *;
    var r, e := es[..|es| - 1], es[|es| - 1];
    var k := Run(c, l, r);
    RunStep(c, l, es);
    EncodeNotZero(DeltaMiss(c, k, e), NewIpc(c, k, e) - k.lastIpc);
    OtherRowsStay(c, k, e);
    if r == [] {
      RunNone(c, l);
    } else {
      FirstRewardIsLost(c, l, first, r);
    }
  }
}
