/** The learning core of the prefetch controller: once per epoch the change of
    miss rate and IPC becomes a state and a reward, the value of the last
    action is updated, and the next action is chosen. Doubles are modelled as
    reals. */
module Bandit {

  const MISS_SMOOTH_ALPHA := 0.3
  const EXPLORE_MIN := 0.01
  const EXPLORE_DECAY := 0.9995
  const ACC_MAX_SPAN := 0.2

  datatype Config = Config(children: nat, learningRate: real, hasCache: bool, hasCpu: bool) {
    /** One action per child, and one for prefetching off. */
    function Actions(): nat {
      children + 1
    }
  }

  type Row = seq<real>

  /** The state that lasts from epoch to epoch. */
  datatype Learner = Learner(
    table: map<int, Row>, lastState: int, lastAction: int, current: int,
    haveSmoothed: bool, smoothed: real,
    lastAccesses: int, lastMisses: int, lastOps: int, lastTick: int, lastIpc: real,
    exploreRate: real)

  /** What an epoch ends with: the counters of cache and CPU, the tick, and the
      two random draws. */
  datatype Epoch = Epoch(accesses: int, misses: int, ops: int, tick: int, draw: real, pick: nat)

  /** Difference of two 64-bit counters. */
  function Sub64(a: int, b: int): nat {
    (a - b) % 0x1_0000_0000_0000_0000
  }

  // ---- State and reward ---------------------------------------------------------

  function EncodeDeltaMiss(d: real): int {
    if d < -0.10 then 0 else if d < -0.02 then 1 else if d < 0.02 then 2 else if d < 0.10 then 3 else 4
  }

  function EncodeDeltaIpc(d: real): int {
    if d < -0.0001 then 0 else if d < 0.0001 then 1 else 2
  }

  function EncodeAccuracy(a: real): int {
    if a <= 0.20 then 0 else if a <= 0.60 then 1 else 2
  }

  function MissRate(c: Config, l: Learner, e: Epoch): real {
    var dAcc := Sub64(e.accesses, l.lastAccesses);
    if c.hasCache && dAcc > 0 then Sub64(e.misses, l.lastMisses) as real / dAcc as real else 0.0
  }

  function NewIpc(c: Config, l: Learner, e: Epoch): real {
    var dt := Sub64(e.tick, l.lastTick);
    if c.hasCpu && dt > 0 then Sub64(e.ops, l.lastOps) as real / dt as real else l.lastIpc
  }

  function NewSmoothed(c: Config, l: Learner, e: Epoch): real {
    if !l.haveSmoothed then MissRate(c, l, e)
    else MISS_SMOOTH_ALPHA * MissRate(c, l, e) + (1.0 - MISS_SMOOTH_ALPHA) * l.smoothed
  }

  /** Change of the smoothed miss rate; the first epoch has none. */
  function DeltaMiss(c: Config, l: Learner, e: Epoch): real {
    if !l.haveSmoothed then 0.0 else NewSmoothed(c, l, e) - l.smoothed
  }

  function Clamp(x: real, span: real): real {
    if x > span then span else if x < -span then -span else x
  }

  function Accuracy(deltaMiss: real): real {
    (Clamp(-deltaMiss, ACC_MAX_SPAN) + ACC_MAX_SPAN) / (2.0 * ACC_MAX_SPAN)
  }

  function Encode(deltaMiss: real, deltaIpc: real): int {
    EncodeAccuracy(Accuracy(deltaMiss)) * 100 + EncodeDeltaMiss(deltaMiss) * 10 + EncodeDeltaIpc(deltaIpc)
  }

  function Penalty(action: int): real {
    if action == 1 then 0.02 else if action == 2 then 0.03 else 0.0
  }

  function IpcSign(d: real): real {
    if d > 0.000001 then 1.0 else if d < -0.000001 then -1.0 else 0.0
  }

  function Reward(c: Config, deltaMiss: real, deltaIpc: real, lastAction: int): real {
    0.5 * IpcSign(deltaIpc) + 0.5 * (2.0 * Accuracy(deltaMiss) - 1.0) -
    if 0 <= lastAction < c.Actions() then Penalty(lastAction) else 0.0
  }

  // ---- Value table and action choice ------------------------------------------

  /** `row.resize(n, 0.0)` when the row is shorter */
  function Resize(row: Row, n: nat): (r: Row)
    ensures |r| >= n && row <= r
    ensures forall k :: |row| <= k < |r| ==> r[k] == 0.0
    decreases n - |row|
  {
    if |row| < n then Resize(row + [0.0], n) else row
  }

  /** `qTable[state]`, resized */
  function RowOf(table: map<int, Row>, state: int, n: nat): (r: Row)
    ensures |r| >= n
  {
    Resize(if state in table then table[state] else [], n)
  }

  /** The bandit update of one value. */
  function Blend(rate: real, value: real, reward: real): real {
    value + rate * (reward - value)
  }

  function Learn(c: Config, row: Row, action: int, reward: real): Row {
    if 0 <= action < c.Actions() && action < |row| then
      row[action := Blend(c.learningRate, row[action], reward)]
    else row
  }

  /** The first index with the largest value among the first `n`. */
  function Best(row: Row, n: nat): (b: nat)
    requires 0 < n <= |row|
    ensures b < n
    ensures forall k :: 0 <= k < n ==> row[k] <= row[b]
    ensures forall k :: 0 <= k < b ==> row[k] < row[b]
  {
    if n == 1 then 0
    else
      var b := Best(row, n - 1);
      if row[n - 1] > row[b] then n - 1 else b
  }

  function Choose(c: Config, row: Row, exploreRate: real, e: Epoch): int
    requires |row| >= c.Actions()
  {
    if e.draw < exploreRate then e.pick % c.Actions() else Best(row, c.Actions())
  }

  /** The last index switches prefetching off. */
  function Semantic(c: Config, index: int): int {
    if index == c.Actions() - 1 then -1 else index
  }

  function Max(a: real, b: real): real {
    if a < b then b else a
  }

  function Decayed(rate: real): real {
    Max(EXPLORE_MIN, rate * EXPLORE_DECAY)
  }

  /** The counters read and the histories updated. */
  function Observed(c: Config, l: Learner, e: Epoch): Learner {
    l.(haveSmoothed := true, smoothed := NewSmoothed(c, l, e),
       lastAccesses := if c.hasCache then e.accesses else l.lastAccesses,
       lastMisses := if c.hasCache then e.misses else l.lastMisses,
       lastOps := if c.hasCpu then e.ops else l.lastOps,
       lastTick := if c.hasCpu then e.tick else l.lastTick,
       lastIpc := NewIpc(c, l, e))
  }

  /** The value of the last action in the last state updated. */
  function Valued(c: Config, l: Learner, reward: real): Learner {
    l.(table := l.table[l.lastState := Learn(c, RowOf(l.table, l.lastState, c.Actions()), l.lastAction, reward)])
  }

  /** The next action chosen in the new state. */
  function Chosen(c: Config, l: Learner, state: int, e: Epoch): Learner {
    var row := RowOf(l.table, state, c.Actions());
    var next := Choose(c, row, l.exploreRate, e);
    l.(table := l.table[state := row], lastState := state, lastAction := next, current := Semantic(c, next),
       exploreRate := Decayed(l.exploreRate))
  }

  /** The state at the end of an epoch. */
  function Step(c: Config, l: Learner, e: Epoch): Learner {
    var dMiss, dIpc := DeltaMiss(c, l, e), NewIpc(c, l, e) - l.lastIpc;
    var reward, state := Reward(c, dMiss, dIpc, l.lastAction), Encode(dMiss, dIpc);
    Chosen(c, Valued(c, Observed(c, l, e), reward), state, e)
  }

  function Run(c: Config, l: Learner, es: seq<Epoch>): Learner {
    if es == [] then l else Step(c, Run(c, l, es[..|es| - 1]), es[|es| - 1])
  }

  // ---- The controller object -----------------------------------------------------

  class Controller {
    const config: Config
    var qTable: map<int, Row>
    var lastState: int
    var lastAction: int
    var lastReward: real
    var currentAction: int
    var haveSmoothedMiss: bool
    var smoothedMissRate: real
    var lastSmoothedMiss: real
    var lastMissRate: real
    var lastAccesses: int
    var lastMisses: int
    var lastTotalOps: int
    var lastIpcTick: int
    var lastIpc: real
    var exploreRate: real
    /** How often each bandit index was chosen; only the first four count. */
    var actionUse: seq<nat>

    ghost function View(): Learner
      reads this
    {
      Learner(qTable, lastState, lastAction, currentAction, haveSmoothedMiss, smoothedMissRate,
              lastAccesses, lastMisses, lastTotalOps, lastIpcTick, lastIpc, exploreRate)
    }

    ghost predicate Valid()
      reads this
    {
      |actionUse| == 4
    }

    /** An initial action that is not an index falls back to 0. */
    constructor (c: Config, action: int, rate: real, accesses: int, misses: int, ops: int, tick: int)
      ensures Valid() && config == c && actionUse == [0, 0, 0, 0]
      ensures View() == Learner(map[], 0, 0, if -1 <= action < c.children then action else 0,
                                false, 0.0, accesses, misses, ops, tick, 0.0, rate)
    {
      config := c;
      qTable, lastState, lastAction, lastReward := map[], 0, 0, 0.0;
      currentAction := if action < -1 || action >= c.children then 0 else action;
      haveSmoothedMiss, smoothedMissRate, lastSmoothedMiss, lastMissRate := false, 0.0, 0.0, 0.0;
      lastAccesses, lastMisses, lastTotalOps, lastIpcTick, lastIpc := accesses, misses, ops, tick, 0.0;
      exploreRate := rate;
      actionUse := [0, 0, 0, 0];
    }

    method SelectAction(state: int, e: Epoch) returns (index: int)
      modifies this`qTable
      ensures qTable == old(qTable)[state := RowOf(old(qTable), state, config.Actions())]
      ensures index == Choose(config, RowOf(old(qTable), state, config.Actions()), exploreRate, e)
    {
      var n := config.Actions();
      var row := RowOf(qTable, state, n);
      qTable := qTable[state := row];
      if e.draw < exploreRate {
        return e.pick % n;
      }
      var bestIdx, bestVal := 0, row[0];
      for i := 1 to n
        invariant bestIdx == Best(row, i) && bestIdx < i && bestVal == row[bestIdx]
      {
        if row[i] > bestVal {
          bestVal := row[i];
          bestIdx := i;
        }
      }
      index := bestIdx;
    }

    /** Chooses the next action, counts it and lets exploration decay. */
    method Switch(state: int, e: Epoch)
      requires Valid()
      modifies this`qTable, this`lastState, this`lastAction, this`currentAction, this`exploreRate, this`actionUse
      ensures Valid() && View() == Chosen(config, old(View()), state, e)
      ensures actionUse == Counted(old(actionUse), lastAction)
    {
      hide RowOf, Choose, Decayed;
      var next := SelectAction(state, e);
      if 0 <= next < 4 {
        actionUse := actionUse[next := actionUse[next] + 1];
      }
      exploreRate := Decayed(exploreRate);
      currentAction := if next == config.Actions() - 1 then -1 else next;
      lastState, lastAction := state, next;
    }

    /** Reads the counters and updates the histories of miss rate and IPC. */
    method Observe(e: Epoch) returns (delta: real, accuracy: real, ipcDelta: real)
      modifies this`lastAccesses, this`lastMisses, this`lastTotalOps, this`lastIpcTick, this`lastIpc
      modifies this`haveSmoothedMiss, this`smoothedMissRate, this`lastSmoothedMiss, this`lastMissRate
      ensures delta == DeltaMiss(config, old(View()), e) && accuracy == Accuracy(delta)
      ensures ipcDelta == NewIpc(config, old(View()), e) - old(lastIpc)
      ensures View() == Observed(config, old(View()), e)
    {
      var missRate := 0.0;
      if config.hasCache {
        var dAcc, dMis := Sub64(e.accesses, lastAccesses), Sub64(e.misses, lastMisses);
        lastAccesses, lastMisses := e.accesses, e.misses;
        missRate := if dAcc > 0 then dMis as real / dAcc as real else 0.0;
      }
      assert missRate == MissRate(config, old(View()), e);
      var newIpc := lastIpc;
      ipcDelta := 0.0;
      if config.hasCpu {
        var dt := Sub64(e.tick, lastIpcTick);
        if dt > 0 {
          newIpc := Sub64(e.ops, lastTotalOps) as real / dt as real;
          ipcDelta := newIpc - lastIpc;
        }
        lastTotalOps, lastIpcTick := e.ops, e.tick;
      }
      hide Sub64, MissRate;
      delta := 0.0;
      if !haveSmoothedMiss {
        smoothedMissRate, lastSmoothedMiss, haveSmoothedMiss := missRate, missRate, true;
      } else {
        lastSmoothedMiss := smoothedMissRate;
        smoothedMissRate := MISS_SMOOTH_ALPHA * missRate + (1.0 - MISS_SMOOTH_ALPHA) * smoothedMissRate;
        delta := smoothedMissRate - lastSmoothedMiss;
      }
      var improve := Clamp(lastSmoothedMiss - smoothedMissRate, ACC_MAX_SPAN);
      accuracy := (improve + ACC_MAX_SPAN) / (2.0 * ACC_MAX_SPAN);
      lastMissRate, lastIpc := missRate, newIpc;
    }

    /** State and reward of the epoch. */
    method Assess(delta: real, accuracy: real, ipcDelta: real) returns (state: int, reward: real)
      requires accuracy == Accuracy(delta)
      ensures state == Encode(delta, ipcDelta)
      ensures reward == Reward(config, delta, ipcDelta, lastAction)
    {
      hide Accuracy, EncodeAccuracy, EncodeDeltaMiss, EncodeDeltaIpc, IpcSign, Penalty;
      state := EncodeAccuracy(accuracy) * 100 + EncodeDeltaMiss(delta) * 10 + EncodeDeltaIpc(ipcDelta);
      reward := 0.5 * IpcSign(ipcDelta) + 0.5 * (2.0 * accuracy - 1.0);
      if 0 <= lastAction < config.Actions() {
        reward := reward - Penalty(lastAction);
      }
    }

    /** Moves the value of the last action towards the reward. */
    method UpdateValue(reward: real)
      modifies this`qTable
      ensures View() == Valued(config, old(View()), reward)
    {
      hide Blend;
      var row := RowOf(qTable, lastState, config.Actions());
      if 0 <= lastAction < config.Actions() {
        row := row[lastAction := Blend(config.learningRate, row[lastAction], reward)];
      }
      qTable := qTable[lastState := row];
    }

    method EndEpoch(e: Epoch)
      requires Valid()
      modifies this
      ensures Valid() && View() == Step(config, old(View()), e)
      ensures actionUse == Counted(old(actionUse), lastAction)
      ensures lastReward ==
        Reward(config, DeltaMiss(config, old(View()), e), NewIpc(config, old(View()), e) - old(lastIpc),
               old(lastAction))
    {
      hide DeltaMiss, NewIpc, Accuracy, Encode, Reward, Observed, Valued, Chosen;
      var delta, accuracy, ipcDelta := Observe(e);
      assert View().lastAction == old(lastAction);
      var state, reward := Assess(delta, accuracy, ipcDelta);
      lastReward := reward;
      UpdateValue(reward);
      Switch(state, e);
    }
  }

  function Counted(uses: seq<nat>, index: int): seq<nat> {
    if 0 <= index < |uses| then uses[index := uses[index] + 1] else uses
  }
}
