/** Dependences on tags with a downgrader, and the exact condition under which a
    migration succeeds in any registry. */
module CptDowngrade {
  import opened CptUpgrader
  import opened Finite

  /** `d` is an upgrader that `t` waits for. */
  predicate Needs(reg: Registry, w: set<Tag>, t: Tag, d: Tag) {
    t in reg && d in reg[t].depends && d in w && d in reg && reg[d].kind == Up
  }

  /** From `t` on there is a chain of `k` needed upgraders, each a dependence of
      the one before. */
  predicate Deep(reg: Registry, w: set<Tag>, t: Tag, k: nat)
    decreases k
  {
    k == 0 || (t in reg && exists d :: d in reg[t].depends && Needs(reg, w, t, d) && Deep(reg, w, d, k - 1))
  }

  function HeightBelow(reg: Registry, w: set<Tag>, t: Tag, k: nat): nat {
    if Deep(reg, w, t, k) || k == 0 then k else HeightBelow(reg, w, t, k - 1)
  }

  /** The length of the longest chain from `t`. */
  function Height(reg: Registry, w: set<Tag>, t: Tag): nat {
    HeightBelow(reg, w, t, |w|)
  }

  lemma {:induction false} DeepDown(reg: Registry, w: set<Tag>, t: Tag, k: nat)
    requires Deep(reg, w, t, k + 1)
    ensures Deep(reg, w, t, k)
    decreases k
  {
    if k > 0 {
      var d :| d in reg[t].depends && Needs(reg, w, t, d) && Deep(reg, w, d, k);
      DeepDown(reg, w, d, k - 1);
    }
  }

  lemma {:induction false} DeepBelow(reg: Registry, w: set<Tag>, t: Tag, j: nat, k: nat)
    requires j <= k && Deep(reg, w, t, k)
    ensures Deep(reg, w, t, j)
    decreases k - j
  {
    if j < k {
      DeepDown(reg, w, t, k - 1);
      DeepBelow(reg, w, t, j, k - 1);
    }
  }

  // ---- The tags left after some rounds --------------------------------------

  /** The needed tags with a chain of at least `r` in front of them. */
  function Level(reg: Registry, w: set<Tag>, r: nat): set<Tag> {
    set t | t in w && Deep(reg, w, t, r)
  }

  /** After `r` rounds the tags of level `r` are left, and all others have been
      applied. */
  ghost predicate AtRound(reg: Registry, tags0: set<Tag>, todo: set<Tag>, tags: set<Tag>, r: nat) {
    var w := Work(reg, tags0);
    && todo == Level(reg, w, r)
    && tags == Applied(reg, w - todo, tags0)
  }

  lemma Present(reg: Registry, tags0: set<Tag>, todo: set<Tag>, tags: set<Tag>, d: Tag)
    requires todo <= Work(reg, tags0) && tags == Applied(reg, Work(reg, tags0) - todo, tags0)
    ensures d in TagSet(reg) ==> (d in tags <==> d !in todo)
    ensures d in UntagSet(reg) ==> (d in tags <==> d in todo)
    ensures d !in TagSet(reg) && d !in UntagSet(reg) ==> (d in tags <==> d in tags0)
  {
  }

  /** A tag with a longer chain is not ready. One without is ready as soon as
      its dependences on other tags than upgraders are there. */
  lemma ReadyAt(reg: Registry, tags0: set<Tag>, todo: set<Tag>, tags: set<Tag>, r: nat, t: Tag)
    requires AtRound(reg, tags0, todo, tags, r) && t in todo
    ensures var w := Work(reg, tags0);
            Ready(reg, t, tags) <==>
            !Deep(reg, w, t, r + 1) && forall d :: d in reg[t].depends && d !in TagSet(reg) ==> d in tags
  {
    var w := Work(reg, tags0);
    hide Work, Applied;
    forall d | d in reg[t].depends && d in TagSet(reg)
      ensures d in tags <==> !(Needs(reg, w, t, d) && Deep(reg, w, d, r))
    {
      Present(reg, tags0, todo, tags, d);
    }
  }

  /** What the condition says of one needed tag: its dependences on other tags
      than upgraders are there, and a downgrader among them does not come first. */
  ghost predicate DownsWait(reg: Registry, tags0: set<Tag>, t: Tag)
    requires t in reg
  {
    forall d :: d in reg[t].depends && d !in TagSet(reg) ==> WaitFor(reg, tags0, t, d)
  }

  ghost predicate WaitFor(reg: Registry, tags0: set<Tag>, t: Tag, d: Tag) {
    var w := Work(reg, tags0);
    d in tags0 && (d in reg ==> ChainsReach(reg, w, t, d))
  }

  /** For every chain from `t` there is one of the same length from `d`. */
  ghost predicate ChainsReach(reg: Registry, w: set<Tag>, t: Tag, d: Tag) {
    forall k: nat :: Deep(reg, w, t, k) ==> Deep(reg, w, d, k)
  }

  lemma NextRound(reg: Registry, tags0: set<Tag>, todo: set<Tag>, tags: set<Tag>, r: nat)
    requires AtRound(reg, tags0, todo, tags, r)
    requires forall t :: t in todo && !Deep(reg, Work(reg, tags0), t, r + 1) ==> Ready(reg, t, tags)
    ensures var ready := ReadyIn(reg, todo, tags);
            AtRound(reg, tags0, todo - ready, Applied(reg, ready, tags), r + 1)
  {
    var w, ready := Work(reg, tags0), ReadyIn(reg, todo, tags);
    forall t | t in todo ensures t in ready <==> !Deep(reg, w, t, r + 1) {
      ReadyAt(reg, tags0, todo, tags, r, t);
    }
    forall t | t in w && Deep(reg, w, t, r + 1) ensures Deep(reg, w, t, r) {
      DeepDown(reg, w, t, r);
    }
    assert todo - ready == Level(reg, w, r + 1);
    ApplyOn(reg, w - todo, ready, tags0);
    assert w - (todo - ready) == (w - todo) + ready;
  }

  lemma ApplyOn(reg: Registry, a: set<Tag>, b: set<Tag>, tags: set<Tag>)
    requires a + b <= reg.Keys
    ensures Applied(reg, b, Applied(reg, a, tags)) == Applied(reg, a + b, tags)
  {
  }

  // ---- Success means that downgraders wait ------------------------------------

  /** A tag without an upgrader that is absent stays absent. */
  lemma {:induction false} AbsentDowngradeBlocks(reg: Registry, todo: set<Tag>, tags: set<Tag>, t: Tag, d: Tag)
    requires todo <= reg.Keys && t in todo && d in reg[t].depends
    requires d !in tags && (d in reg ==> reg[d].kind == Down)
    ensures Run(reg, todo, tags).Stuck?
    decreases |todo|
  {
    var ready := ReadyIn(reg, todo, tags);
    assert !Ready(reg, t, tags);
    if ready != {} {
      Shrinks(todo, ready);
      AbsentDowngradeBlocks(reg, todo - ready, Applied(reg, ready, tags), t, d);
    }
  }

  /** In a run that succeeds every round takes a level, and no downgrader is
      applied before the tags that depend on it. */
  lemma {:induction false} SuccessWaits(reg: Registry, tags0: set<Tag>, todo: set<Tag>, tags: set<Tag>, r: nat)
    requires AtRound(reg, tags0, todo, tags, r) && Run(reg, todo, tags).Migrated?
    ensures forall t :: t in todo ==> DownsWait(reg, tags0, t)
    decreases |todo|
  {
    var w, ready := Work(reg, tags0), ReadyIn(reg, todo, tags);
    RunUnfolds(reg, todo, tags);
    if todo != {} {
      forall t | t in todo && !Deep(reg, w, t, r + 1) ensures Ready(reg, t, tags) {
        SuccessReady(reg, tags0, todo, tags, r, t);
      }
      NextRound(reg, tags0, todo, tags, r);
      Shrinks(todo, ready);
      SuccessWaits(reg, tags0, todo - ready, Applied(reg, ready, tags), r + 1);
      hide Run, Work, Applied, DownsWait;
      forall t | t in ready ensures DownsWait(reg, tags0, t) {
        ReadyWaits(reg, tags0, todo, tags, r, t);
      }
    }
  }

  lemma SuccessReady(reg: Registry, tags0: set<Tag>, todo: set<Tag>, tags: set<Tag>, r: nat, t: Tag)
    requires AtRound(reg, tags0, todo, tags, r) && Run(reg, todo, tags).Migrated?
    requires t in todo && !Deep(reg, Work(reg, tags0), t, r + 1)
    ensures Ready(reg, t, tags)
  {
    ReadyAt(reg, tags0, todo, tags, r, t);
    hide Run, Work, Applied;
    forall d | d in reg[t].depends && d !in TagSet(reg) ensures d in tags {
      if d !in tags {
        AbsentDowngradeBlocks(reg, todo, tags, t, d);
      }
    }
  }

  lemma ReadyWaits(reg: Registry, tags0: set<Tag>, todo: set<Tag>, tags: set<Tag>, r: nat, t: Tag)
    requires AtRound(reg, tags0, todo, tags, r) && t in todo && Ready(reg, t, tags)
    ensures DownsWait(reg, tags0, t)
  {
    var w := Work(reg, tags0);
    ReadyAt(reg, tags0, todo, tags, r, t);
    forall d | d in reg[t].depends && d !in TagSet(reg)
      ensures WaitFor(reg, tags0, t, d)
    {
      Present(reg, tags0, todo, tags, d);
      hide Applied;
      if d in reg {
        forall k: nat | Deep(reg, w, t, k) ensures Deep(reg, w, d, k) {
          if k > r {
            DeepBelow(reg, w, t, r + 1, k);
          } else {
            DeepBelow(reg, w, d, k, r);
          }
        }
      }
    }
  }

  // ---- Waiting downgraders mean success, unless there is a cycle ---------------

  lemma {:induction false} WaitsSucceeds(reg: Registry, tags0: set<Tag>, todo: set<Tag>, tags: set<Tag>, r: nat)
    requires AtRound(reg, tags0, todo, tags, r)
    requires !HasCycle(reg, TagSet(reg) - tags0)
    requires forall t :: t in todo ==> DownsWait(reg, tags0, t)
    ensures Run(reg, todo, tags).Migrated?
    decreases |todo|
  {
    var w, ready := Work(reg, tags0), ReadyIn(reg, todo, tags);
    RunUnfolds(reg, todo, tags);
    if todo != {} {
      forall t | t in todo && !Deep(reg, w, t, r + 1) ensures Ready(reg, t, tags) {
        WaitsReady(reg, tags0, todo, tags, r, t);
      }
      var t := SomeTop(reg, tags0, r);
      assert t in ready;
      NextRound(reg, tags0, todo, tags, r);
      Shrinks(todo, ready);
      WaitsSucceeds(reg, tags0, todo - ready, Applied(reg, ready, tags), r + 1);
    }
  }

  lemma WaitsReady(reg: Registry, tags0: set<Tag>, todo: set<Tag>, tags: set<Tag>, r: nat, t: Tag)
    requires AtRound(reg, tags0, todo, tags, r) && t in todo
    requires DownsWait(reg, tags0, t) && !Deep(reg, Work(reg, tags0), t, r + 1)
    ensures Ready(reg, t, tags)
  {
    ReadyAt(reg, tags0, todo, tags, r, t);
    forall d | d in reg[t].depends && d !in TagSet(reg) ensures d in tags {
      Present(reg, tags0, todo, tags, d);
    }
  }

  /** Without a cycle some tag of each level has no longer chain. */
  lemma SomeTop(reg: Registry, tags0: set<Tag>, r: nat) returns (t: Tag)
    requires !HasCycle(reg, TagSet(reg) - tags0) && Level(reg, Work(reg, tags0), r) != {}
    ensures t in Level(reg, Work(reg, tags0), r) && !Deep(reg, Work(reg, tags0), t, r + 1)
  {
    var w := Work(reg, tags0);
    if forall t :: t in Level(reg, w, r) ==> Deep(reg, w, t, r + 1) {
      LevelCycle(reg, tags0, r);
    }
    hide *;
    t :| t in Level(reg, w, r) && !Deep(reg, w, t, r + 1);
  }

  lemma LevelCycle(reg: Registry, tags0: set<Tag>, r: nat)
    requires var level := Level(reg, Work(reg, tags0), r);
             level != {} && forall t :: t in level ==> Deep(reg, Work(reg, tags0), t, r + 1)
    ensures HasCycle(reg, TagSet(reg) - tags0)
  {
    var w := Work(reg, tags0);
    var level := Level(reg, w, r);
    var ups := level * TagSet(reg);
    UpsNeeded(reg, tags0, r);
    hide Level, TagSet, Work, Deep;
    forall t | t in level ensures StepsInto(DependsOn(reg), t, ups) {
      DependsOnLevel(reg, w, t, r);
    }
    var s :| s in level;
    assert StepsInto(DependsOn(reg), s, ups);
    TrapHasCycle(DependsOn(reg), ups);
    CycleWithin(DependsOn(reg), ups, TagSet(reg) - tags0);
  }

  lemma DependsOnLevel(reg: Registry, w: set<Tag>, t: Tag, r: nat)
    requires t in reg && Deep(reg, w, t, r + 1)
    ensures StepsInto(DependsOn(reg), t, Level(reg, w, r) * TagSet(reg))
  {
    var d :| d in reg[t].depends && Needs(reg, w, t, d) && Deep(reg, w, d, r);
    assert d in Level(reg, w, r) * TagSet(reg) && DependsOn(reg)(t, d);
  }

  lemma UpsNeeded(reg: Registry, tags0: set<Tag>, r: nat)
    ensures Level(reg, Work(reg, tags0), r) <= reg.Keys
    ensures Level(reg, Work(reg, tags0), r) * TagSet(reg) <= TagSet(reg) - tags0 <= reg.Keys
  {
  }

  // ---- The exact condition ------------------------------------------------------

  lemma FirstRound(reg: Registry, tags: set<Tag>)
    ensures AtRound(reg, tags, Work(reg, tags), tags, 0)
  {
    assert Level(reg, Work(reg, tags), 0) == Work(reg, tags);
  }

  /** Without a cycle each level has fewer tags than the one before. */
  lemma {:induction false} LevelSize(reg: Registry, tags: set<Tag>, r: nat)
    requires !HasCycle(reg, TagSet(reg) - tags)
    ensures var w := Work(reg, tags); |Level(reg, w, r)| + r <= |w| || Level(reg, w, r) == {}
  {
    var w := Work(reg, tags);
    if r == 0 {
      FirstRound(reg, tags);
    } else {
      LevelSize(reg, tags, r - 1);
      var a, b := Level(reg, w, r - 1), Level(reg, w, r);
      forall t | t in b ensures t in a {
        DeepDown(reg, w, t, r - 1);
      }
      if a != {} {
        var t := SomeTop(reg, tags, r - 1);
        assert b <= a - {t};
        SubsetSize(b, a - {t});
      }
    }
  }

  /** Without a cycle the height of a needed tag is the length of its longest
      chain. */
  lemma HeightIsLongest(reg: Registry, tags: set<Tag>, t: Tag, k: nat)
    requires !HasCycle(reg, TagSet(reg) - tags) && t in Work(reg, tags)
    ensures var w := Work(reg, tags); Deep(reg, w, t, k) <==> k <= Height(reg, w, t)
  {
    var w := Work(reg, tags);
    LevelSize(reg, tags, |w| + 1);
    assert t !in Level(reg, w, |w| + 1);
    LongestBelow(reg, w, t, |w|);
    var h := Height(reg, w, t);
    if k <= h {
      DeepBelow(reg, w, t, k, h);
    } else if Deep(reg, w, t, k) {
      DeepBelow(reg, w, t, h + 1, k);
    }
  }

  lemma {:induction false} LongestBelow(reg: Registry, w: set<Tag>, t: Tag, k: nat)
    requires !Deep(reg, w, t, k + 1)
    ensures var h := HeightBelow(reg, w, t, k); Deep(reg, w, t, h) && !Deep(reg, w, t, h + 1)
  {
    if !Deep(reg, w, t, k) {
      LongestBelow(reg, w, t, k - 1);
    }
  }

  /** Every dependence of a needed tag on anything but an upgrader is there at
      the start, and no downgrader comes earlier than a tag that depends on it. */
  predicate DownsLate(reg: Registry, tags: set<Tag>) {
    forall t, d :: t in Work(reg, tags) && d in reg[t].depends && d !in TagSet(reg) ==> LateFor(reg, tags, t, d)
  }

  predicate LateFor(reg: Registry, tags: set<Tag>, t: Tag, d: Tag) {
    var w := Work(reg, tags);
    d in tags && (d in reg ==> Height(reg, w, t) <= Height(reg, w, d))
  }

  /** Main result on migrations, for every registry: a migration succeeds exactly
      when the upgraders it needs have no cycle, and each of its dependences on a
      downgraded tag finds that tag present and its downgrader not due earlier. */
  lemma MigratesIff(reg: Registry, tags: set<Tag>)
    ensures Run(reg, Work(reg, tags), tags).Migrated? <==>
            !HasCycle(reg, TagSet(reg) - tags) && DownsLate(reg, tags)
  {
    var w := Work(reg, tags);
    FirstRound(reg, tags);
    if HasCycle(reg, TagSet(reg) - tags) {
      var c :| IsCycle(DependsOn(reg), c, TagSet(reg) - tags);
      CycleSticks(reg, w, tags, c);
    } else {
      LateIsWait(reg, tags);
      hide Run, DownsLate, DownsWait, HasCycle;
      if forall t :: t in w ==> DownsWait(reg, tags, t) {
        WaitsSucceeds(reg, tags, w, tags, 0);
      }
      if Run(reg, w, tags).Migrated? {
        SuccessWaits(reg, tags, w, tags, 0);
      }
    }
  }

  lemma LateIsWait(reg: Registry, tags: set<Tag>)
    requires !HasCycle(reg, TagSet(reg) - tags)
    ensures DownsLate(reg, tags) <==> forall t :: t in Work(reg, tags) ==> DownsWait(reg, tags, t)
  {
    hide LateFor, WaitFor, Work, TagSet, HasCycle;
    forall t, d | t in Work(reg, tags) && d in reg[t].depends && d !in TagSet(reg)
      ensures LateFor(reg, tags, t, d) <==> WaitFor(reg, tags, t, d)
    {
      LateIffWait(reg, tags, t, d);
    }
  }

  lemma LateIffWait(reg: Registry, tags: set<Tag>, t: Tag, d: Tag)
    requires !HasCycle(reg, TagSet(reg) - tags) && t in Work(reg, tags) && d !in TagSet(reg)
    ensures LateFor(reg, tags, t, d) <==> WaitFor(reg, tags, t, d)
  {
    hide ChainsReach, Height;
    if d in tags && d in reg {
      assert d in Work(reg, tags);
      CompareHeights(reg, tags, t, d);
    }
  }

  lemma CompareHeights(reg: Registry, tags: set<Tag>, t: Tag, d: Tag)
    requires !HasCycle(reg, TagSet(reg) - tags) && t in Work(reg, tags) && d in Work(reg, tags)
    ensures var w := Work(reg, tags);
            Height(reg, w, t) <= Height(reg, w, d) <==> ChainsReach(reg, w, t, d)
  {
    var w := Work(reg, tags);
    hide Height, Work, Deep, HasCycle;
    forall k: nat ensures Deep(reg, w, t, k) <==> k <= Height(reg, w, t) {
      HeightIsLongest(reg, tags, t, k);
    }
    forall k: nat ensures Deep(reg, w, d, k) <==> k <= Height(reg, w, d) {
      HeightIsLongest(reg, tags, d, k);
    }
    assert Deep(reg, w, t, Height(reg, w, t));
  }

  // ---- The order that the file header promises ------------------------------------

  /** A tag that depends on a downgraded tag comes after its downgrader, or finds
      it gone from the start. */
  ghost predicate GoneFirst(reg: Registry, log: seq<Tag>, tags0: set<Tag>) {
    forall i, d :: 0 <= i < |log| && log[i] in reg && d in reg[log[i]].depends && d in UntagSet(reg) ==>
      d !in tags0 || d in log[..i]
  }

  predicate DependsOnDown(reg: Registry, t: Tag) {
    t in reg && exists d :: d in reg[t].depends && d in UntagSet(reg)
  }

  /** A tag is applied only in a round at whose start the downgraded tags it
      depends on are still there. */
  lemma {:induction false} StillThere(reg: Registry, todo: set<Tag>, tags: set<Tag>, r: nat, t: Tag, d: Tag)
    requires todo <= reg.Keys && r < |Rounds(reg, todo, tags)| && t in Rounds(reg, todo, tags)[r]
    requires t in reg && d in reg[t].depends && d in UntagSet(reg)
    ensures d in tags && forall q :: 0 <= q < r ==> d !in Rounds(reg, todo, tags)[q]
    decreases r
  {
    var ready := ReadyIn(reg, todo, tags);
    if r > 0 {
      StillThere(reg, todo - ready, Applied(reg, ready, tags), r - 1, t, d);
    }
  }

  lemma {:induction false} SomeOrder(round: set<Tag>) returns (log: seq<Tag>)
    ensures IsRound(log, round)
  {
    if round == {} {
      log := [];
    } else {
      var t :| t in round;
      var rest := SomeOrder(round - {t});
      log := StartWith(round, t, rest);
    }
  }

  lemma StartWith(round: set<Tag>, t: Tag, rest: seq<Tag>) returns (log: seq<Tag>)
    requires t in round && IsRound(rest, round - {t})
    ensures IsRound(log, round) && log != [] && log[0] == t
  {
    log := [t] + rest;
    forall j | 0 <= j < |rest| ensures rest[j] != t {
      assert rest[j] in Elems(rest);
    }
    assert Elems(log) == Elems(rest) + {t};
  }

  /** Any tag can come first in its round; before it come the earlier rounds. */
  lemma {:induction false} OrderWith(rounds: seq<set<Tag>>, r: nat, t: Tag) returns (log: seq<Tag>, i: nat)
    requires r < |rounds| ==> t in rounds[r]
    ensures Orders(log, rounds)
    ensures r < |rounds| ==>
      i < |log| && log[i] == t && forall x :: x in log[..i] ==> exists q :: 0 <= q < r && x in rounds[q]
  {
    hide Orders, IsRound;
    i := 0;
    if rounds == [] {
      log := [];
      NoOrder();
    } else {
      var first;
      if r == 0 {
        first := SomeOrder(rounds[0] - {t});
        first := StartWith(rounds[0], t, first);
        var rest, _ := OrderWith(rounds[1..], |rounds|, t);
        OrdersCons(first, rest, rounds);
        log := first + rest;
        assert log[..0] == [];
      } else {
        first := SomeOrder(rounds[0]);
        var rest, k := OrderWith(rounds[1..], r - 1, t);
        OrdersCons(first, rest, rounds);
        log, i := first + rest, |first| + k;
        if r < |rounds| {
          EarlierRounds(rounds, r, first, rest, k);
        }
      }
    }
  }

  lemma NoOrder()
    ensures Orders([], [])
  {
  }

  lemma EarlierRounds(rounds: seq<set<Tag>>, r: nat, first: seq<Tag>, rest: seq<Tag>, k: nat)
    requires 0 < r < |rounds| && IsRound(first, rounds[0]) && k < |rest|
    requires forall x :: x in rest[..k] ==> exists q :: 0 <= q < r - 1 && x in rounds[1..][q]
    ensures (first + rest)[..|first| + k] == first + rest[..k]
    ensures forall x :: x in first + rest[..k] ==> exists q :: 0 <= q < r && x in rounds[q]
  {
    forall x | x in first + rest[..k] ensures exists q :: 0 <= q < r && x in rounds[q] {
      if x in first {
        assert x in Elems(first);
        assert x in rounds[0];
      } else {
        var q :| 0 <= q < r - 1 && x in rounds[1..][q];
        assert x in rounds[q + 1];
      }
    }
  }

  lemma {:induction false} OrderMembers(log: seq<Tag>, rounds: seq<set<Tag>>, i: nat) returns (r: nat)
    requires Orders(log, rounds) && i < |log|
    ensures r < |rounds| && log[i] in rounds[r]
    decreases |rounds|
  {
    var k :| 0 <= k <= |log| && IsRound(log[..k], rounds[0]) && Orders(log[k..], rounds[1..]);
    if i < k {
      assert log[i] in Elems(log[..k]);
      r := 0;
    } else {
      var q := OrderMembers(log[k..], rounds[1..], i - k);
      r := q + 1;
    }
  }

  /** Main result on the header: in every order that the rounds of a run allow,
      downgraders come before the tags that depend on them, exactly when no tag
      that is applied depends on a tag with a downgrader. */
  lemma HeaderOrderIff(reg: Registry, tags: set<Tag>)
    ensures var rounds := Rounds(reg, Work(reg, tags), tags);
            (forall log :: Orders(log, rounds) ==> GoneFirst(reg, log, tags)) <==>
            forall r, t :: 0 <= r < |rounds| && t in rounds[r] ==> !DependsOnDown(reg, t)
  {
    var w := Work(reg, tags);
    var rounds := Rounds(reg, w, tags);
    if r, t :| 0 <= r < |rounds| && t in rounds[r] && DependsOnDown(reg, t) {
      var d :| d in reg[t].depends && d in UntagSet(reg);
      StillThere(reg, w, tags, r, t, d);
      var log, i := OrderWith(rounds, r, t);
      assert d !in log[..i];
      assert !GoneFirst(reg, log, tags);
    } else {
      forall log | Orders(log, rounds) ensures GoneFirst(reg, log, tags) {
        forall i | 0 <= i < |log| ensures !DependsOnDown(reg, log[i]) {
          var r := OrderMembers(log, rounds, i);
        }
      }
    }
  }

  /** A run that succeeds applies exactly the tags that it needs. */
  lemma {:induction false} RoundsCover(reg: Registry, todo: set<Tag>, tags: set<Tag>, t: Tag)
    requires todo <= reg.Keys && Run(reg, todo, tags).Migrated?
    ensures t in todo <==> exists r :: 0 <= r < |Rounds(reg, todo, tags)| && t in Rounds(reg, todo, tags)[r]
    decreases |todo|
  {
    var ready := ReadyIn(reg, todo, tags);
    if todo != {} {
      Shrinks(todo, ready);
      var rounds, later := Rounds(reg, todo, tags), Rounds(reg, todo - ready, Applied(reg, ready, tags));
      RoundsCover(reg, todo - ready, Applied(reg, ready, tags), t);
      hide Rounds, Run, Applied, ReadyIn;
      assert rounds[0] == ready && forall r :: 0 <= r < |later| ==> later[r] == rounds[r + 1];
      if exists r :: 0 <= r < |rounds| && t in rounds[r] {
        var r :| 0 <= r < |rounds| && t in rounds[r];
        assert r > 0 ==> t in later[r - 1];
      }
    }
  }

  /** So a run that succeeds is sure to keep the header's order exactly when no
      needed tag depends on a tag with a downgrader. */
  lemma HeaderKeptIff(reg: Registry, tags: set<Tag>)
    requires Run(reg, Work(reg, tags), tags).Migrated?
    ensures (forall log :: Orders(log, Rounds(reg, Work(reg, tags), tags)) ==> GoneFirst(reg, log, tags)) <==>
            forall t :: t in Work(reg, tags) ==> !DependsOnDown(reg, t)
  {
    HeaderOrderIff(reg, tags);
    forall t ensures t in Work(reg, tags) <==>
        exists r :: 0 <= r < |Rounds(reg, Work(reg, tags), tags)| && t in Rounds(reg, Work(reg, tags), tags)[r]
    {
      RoundsCover(reg, Work(reg, tags), tags, t);
    }
  }

  /** The smallest registry on which the header is wrong: it promises that "new"
      runs, since "old" is already gone. */
  lemma DowngradeCounterexample()
    ensures var reg: Registry := map["new" := Upgrader(Up, ["old"], []), "old" := Upgrader(Down, [], [])];
            Run(reg, Work(reg, {}), {}) == Stuck({"new"})
  {
    var reg: Registry := map["new" := Upgrader(Up, ["old"], []), "old" := Upgrader(Down, [], [])];
    assert "old" in reg["new"].depends;
    assert Work(reg, {}) == {"new"};
    assert ReadyIn(reg, {"new"}, {}) == {};
  }

  /** A tag that is present and has a downgrader can also block: "old" is removed
      in the first round, while "new" still waits for "base". */
  lemma EarlyDowngradeBlocks()
    ensures var reg: Registry := map["new" := Upgrader(Up, ["old", "base"], []), "base" := Upgrader(Up, [], []),
                                     "old" := Upgrader(Down, [], [])];
            Run(reg, Work(reg, {"old"}), {"old"}) == Stuck({"new"})
  {
    var reg: Registry := map["new" := Upgrader(Up, ["old", "base"], []), "base" := Upgrader(Up, [], []),
                             "old" := Upgrader(Down, [], [])];
    assert "old" in reg["new"].depends && "base" in reg["new"].depends;
    assert Work(reg, {"old"}) == {"new", "base", "old"};
    assert ReadyIn(reg, {"new", "base", "old"}, {"old"}) == {"base", "old"};
    assert Applied(reg, {"base", "old"}, {"old"}) == {"base"};
    assert {"new", "base", "old"} - {"base", "old"} == {"new"};
    assert ReadyIn(reg, {"new"}, {"base"}) == {};
  }

  // ---- Registries of upgraders ----------------------------------------------------

  /** Dependences name upgraders only. This holds in every registry without
      downgraders. */
  predicate UpDependences(reg: Registry) {
    forall t, d :: t in reg && d in reg[t].depends ==> d in reg && reg[d].kind == Up
  }

  /** When dependences name registered upgraders, a migration gives up exactly
      when the migrations it needs contain a cycle of dependences. */
  lemma StuckIffCycle(reg: Registry, tags: set<Tag>)
    requires UpDependences(reg)
    ensures Run(reg, Work(reg, tags), tags).Stuck? <==> HasCycle(reg, Work(reg, tags))
  {
    MigratesIff(reg, tags);
    UpCycles(reg, tags);
    assert DownsLate(reg, tags) by {
      hide Height, Work;
    }
    hide Run, HasCycle, DownsLate;
  }

  lemma UpCycles(reg: Registry, tags: set<Tag>)
    requires UpDependences(reg)
    ensures HasCycle(reg, Work(reg, tags)) <==> HasCycle(reg, TagSet(reg) - tags)
  {
    var w := Work(reg, tags);
    if HasCycle(reg, w) {
      var c :| IsCycle(DependsOn(reg), c, w);
      CycleOfUps(reg, tags, c);
    }
    if HasCycle(reg, TagSet(reg) - tags) {
      CycleWithin(DependsOn(reg), TagSet(reg) - tags, w);
    }
  }

  lemma CycleOfUps(reg: Registry, tags: set<Tag>, c: seq<Tag>)
    requires UpDependences(reg) && IsCycle(DependsOn(reg), c, Work(reg, tags))
    ensures IsCycle(DependsOn(reg), c, TagSet(reg) - tags)
  {
    hide Work, UpDependences, TagSet;
    forall i | 0 <= i < |c| ensures c[i] in TagSet(reg) - tags {
      MemberUp(reg, tags, c, i);
    }
  }

  lemma MemberUp(reg: Registry, tags: set<Tag>, c: seq<Tag>, i: nat)
    requires UpDependences(reg) && IsCycle(DependsOn(reg), c, Work(reg, tags)) && i < |c|
    ensures c[i] in TagSet(reg) - tags
  {
    hide UpDependences, Work, TagSet;
    var j := if i == 0 then |c| - 1 else i - 1;
    assert Next(c, j) == c[i] && DependsOn(reg)(c[j], c[i]);
    NeededUp(reg, tags, c[j], c[i]);
  }

  lemma NeededUp(reg: Registry, tags: set<Tag>, t: Tag, d: Tag)
    requires UpDependences(reg) && t in reg && d in reg[t].depends && d in Work(reg, tags)
    ensures d in TagSet(reg) - tags
  {
  }
}
