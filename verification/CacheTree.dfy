/** The memory tester's tree of caches: a specification gives the fan-out and
    the number of testers per level, counted from main memory. */
module CacheTree {

  /** The checks on the command line that concern the shape. */
  predicate ValidSpec(caches: seq<int>, testers: seq<int>) {
    && |caches| >= 1 && |testers| == |caches| + 1
    && testers[|testers| - 1] != 0
    && (forall k :: 0 <= k < |testers| ==> testers[k] >= 0)
    && (forall k :: 0 <= k < |caches| ==> caches[k] >= 1)
  }

  // ---- Counting the testers ------------------------------------------------------

  function Product(s: seq<int>): int {
    if s == [] then 1 else Product(s[..|s| - 1]) * s[|s| - 1]
  }

  /** Testers at depth `k`, times the number of subsystems at that depth, for
      the first `n` depths. */
  function WeightedSum(caches: seq<int>, testers: seq<int>, n: nat): int
    requires n <= |testers| && n <= |caches| + 1
  {
    if n == 0 then 0 else WeightedSum(caches, testers, n - 1) + testers[n - 1] * Product(caches[..n - 1])
  }

  method NumTesters(caches: seq<int>, testers: seq<int>) returns (total: int)
    requires |testers| == |caches| + 1
    ensures total == WeightedSum(caches, testers, |testers|)
  {
    var multiplier := [1];
    for i := 0 to |caches|
      invariant |multiplier| == i + 1
      invariant forall k :: 0 <= k <= i ==> multiplier[k] == Product(caches[..k])
    {
      assert caches[..i + 1][..i] == caches[..i];
      multiplier := multiplier + [multiplier[|multiplier| - 1] * caches[i]];
    }
    total := 0;
    for i := 0 to |testers|
      invariant total == WeightedSum(caches, testers, i)
    {
      total := total + testers[i] * multiplier[i];
    }
  }

  /** The testers in a tree, by its structure: those at the root, and those of
      the subtree below each cache. */
  function Testers(caches: seq<int>, testers: seq<int>): int
    requires |testers| == |caches| + 1
  {
    testers[0] + if caches == [] then 0 else caches[0] * Testers(caches[1..], testers[1..])
  }

  lemma {:induction false} ProductFront(c: int, s: seq<int>)
    ensures Product([c] + s) == c * Product(s)
  {
    if s == [] {
      assert ([c] + s)[..0] == [];
    } else {
      assert ([c] + s)[..|s|] == [c] + s[..|s| - 1];
      ProductFront(c, s[..|s| - 1]);
      var p, l := Product(s[..|s| - 1]), s[|s| - 1];
      assert c * p * l == c * (p * l);
    }
  }

  lemma {:induction false} SumFront(caches: seq<int>, testers: seq<int>, n: nat)
    requires |testers| == |caches| + 1 && caches != [] && n <= |caches|
    ensures WeightedSum(caches, testers, n + 1) ==
            testers[0] + caches[0] * WeightedSum(caches[1..], testers[1..], n)
  {
    if n == 0 {
      assert caches[..0] == [];
      assert WeightedSum(caches, testers, 1) == testers[0] * Product(caches[..0]);
    } else {
      SumFront(caches, testers, n - 1);
      var c, rest := caches[0], caches[1..];
      assert caches[..n] == [c] + rest[..n - 1];
      ProductFront(c, rest[..n - 1]);
      var t, p, w := testers[n], Product(rest[..n - 1]), WeightedSum(rest, testers[1..], n - 1);
      assert testers[1..][n - 1] == t;
      Distribute(c, w, t, p);
    }
  }

  lemma Distribute(c: int, w: int, t: int, p: int)
    ensures c * (w + t * p) == c * w + t * (c * p)
  {
    assert c * (t * p) == t * (c * p);
  }

  /** The formula and the tree agree. */
  lemma {:induction false} FormulaIsTree(caches: seq<int>, testers: seq<int>)
    requires |testers| == |caches| + 1
    ensures WeightedSum(caches, testers, |testers|) == Testers(caches, testers)
  {
    if caches == [] {
      assert caches[..0] == [];
      assert WeightedSum(caches, testers, 1) == testers[0] * Product(caches[..0]);
    } else {
      FormulaIsTree(caches[1..], testers[1..]);
      SumFront(caches, testers, |caches|);
    }
  }

  // ---- Prototypes -----------------------------------------------------------------

  /** A cache prototype: the L1 scaled up, its latency, and whether it is mostly
      inclusive. */
  datatype Proto = Proto(scale: int, latency: int, inclusive: bool)

  function Power10(n: nat): int {
    if n == 0 then 1 else 10 * Power10(n - 1)
  }

  method MakePrototypes(caches: seq<int>) returns (protos: seq<Proto>)
    requires |caches| >= 1
    ensures |protos| == |caches|
    ensures forall j :: 0 <= j < |protos| ==>
      var up := |protos| - 1 - j;
      protos[j] == Proto(Product(caches[..up]), Power10(up), up % 2 == 0)
  {
    protos := [Proto(1, 1, true)];
    assert caches[..0] == [];
    for i := 0 to |caches| - 1
      invariant |protos| == i + 1
      invariant forall j :: 0 <= j < |protos| ==>
        var up := |protos| - 1 - j; protos[j] == Proto(Product(caches[..up]), Power10(up), up % 2 == 0)
    {
      assert caches[..i + 1][..i] == caches[..i];
      var prev := protos[0];
      protos := [Proto(prev.scale * caches[i], prev.latency * 10, !prev.inclusive)] + protos;
    }
  }

  // ---- Building the tree -----------------------------------------------------------

  /** A subsystem, named by level and index, and its testers. */
  datatype Sub = Sub(level: nat, index: nat, testers: int)

  /** Subsystems of level `l` in a tree of height |caches|. */
  function Width(caches: seq<int>, l: nat): int {
    if l > |caches| then 0
    else if l == |caches| then 1
    else caches[0] * Width(caches[1..], l)
  }

  function Total(log: seq<Sub>): int {
    if log == [] then 0 else Total(log[..|log| - 1]) + log[|log| - 1].testers
  }

  predicate Named(log: seq<Sub>, l: nat, i: nat) {
    exists k :: 0 <= k < |log| && log[k].level == l && log[k].index == i
  }

  /** The subsystems built so far have distinct names, and those of each level
      have used up the indices below its counter. */
  ghost predicate Consistent(log: seq<Sub>, next: seq<nat>) {
    && (forall k :: 0 <= k < |log| ==> log[k].level < |next| && log[k].index < next[log[k].level])
    && (forall j, k :: 0 <= j < k < |log| ==> (log[j].level, log[j].index) != (log[k].level, log[k].index))
    && (forall l, i :: 0 <= l < |next| && 0 <= i < next[l] ==> Named(log, l, i))
  }

  class Builder {
    const cachespec: seq<int>
    const testerspec: seq<int>
    var nextIndex: seq<nat>
    var subs: seq<Sub>

    ghost predicate Valid()
      reads this
    {
      ValidSpec(cachespec, testerspec) && |nextIndex| == |cachespec| + 1 && Consistent(subs, nextIndex)
    }

    constructor (caches: seq<int>, testers: seq<int>)
      requires ValidSpec(caches, testers)
      ensures Valid() && cachespec == caches && testerspec == testers && subs == []
      ensures forall l :: 0 <= l < |nextIndex| ==> nextIndex[l] == 0
    {
      cachespec, testerspec := caches, testers;
      nextIndex := seq(|caches| + 1, _ => 0);
      subs := [];
    }

    /** Takes the next index of the level and creates the subsystem. */
    method AddSub(level: nat) returns (ntesters: int)
      requires Valid() && level <= |cachespec|
      modifies this
      ensures Valid() && ntesters == testerspec[|cachespec| - level]
      ensures Total(subs) == old(Total(subs)) + ntesters
      ensures nextIndex == old(nextIndex)[level := old(nextIndex)[level] + 1]
    {
      hide Consistent;
      ntesters := testerspec[|cachespec| - level];
      var index := nextIndex[level];
      NewSub(subs, nextIndex, Sub(level, index, ntesters));
      nextIndex := nextIndex[level := index + 1];
      subs := subs + [Sub(level, index, ntesters)];
      assert subs[..|subs| - 1] == old(subs);
    }

    /** One subtree for each of `count` caches. */
    method MakeSubtrees(count: nat, ncaches: seq<int>, prototypes: seq<Proto>, level: nat) returns (ok: bool)
      requires Valid() && level <= |cachespec|
      requires ncaches == cachespec[|cachespec| - level..] && |prototypes| == level
      modifies this
      ensures Valid() && ok
      ensures Total(subs) == old(Total(subs)) + count * Testers(ncaches, testerspec[|cachespec| - level..])
      ensures forall l :: 0 <= l < |nextIndex| ==> nextIndex[l] == old(nextIndex[l]) + count * Width(ncaches, l)
      decreases level, 1
    {
      hide Consistent, Testers, Width, Total;
      ok := true;
      ghost var n := nextIndex;
      ghost var x := Testers(ncaches, testerspec[|cachespec| - level..]);
      for i := 0 to count
        invariant Valid() && ok
        invariant Total(subs) == old(Total(subs)) + i * x
        invariant forall l :: 0 <= l < |nextIndex| ==> nextIndex[l] == n[l] + i * Width(ncaches, l)
      {
        ghost var before := nextIndex;
        ok := MakeCacheLevel(ncaches, prototypes, level, true);
        OneMore(i, x);
        forall l | 0 <= l < |nextIndex| ensures nextIndex[l] == n[l] + (i + 1) * Width(ncaches, l) {
          OneMore(i, Width(ncaches, l));
          assert before[l] == n[l] + i * Width(ncaches, l);
        }
      }
    }

    /** Builds the subtree at `level`; `ok` is false where the source stops for
        want of a cache to connect to, of a prototype or of a tester. */
    method MakeCacheLevel(ncaches: seq<int>, prototypes: seq<Proto>, level: nat, nextCache: bool) returns (ok: bool)
      requires Valid() && level <= |cachespec|
      requires ncaches == cachespec[|cachespec| - level..] && |prototypes| == level
      requires level == 0 ==> nextCache
      modifies this
      ensures Valid() && ok
      ensures Total(subs) == old(Total(subs)) + Testers(ncaches, testerspec[|cachespec| - level..])
      ensures forall l :: 0 <= l < |nextIndex| ==> nextIndex[l] == old(nextIndex[l]) + Width(ncaches, l)
      decreases level, 0
    {
      hide Consistent, Total;
      ghost var ts := testerspec[|cachespec| - level..];
      assert ts[0] == testerspec[|cachespec| - level];
      var ntesters := AddSub(level);
      if level == 0 {
        return nextCache && ntesters >= 1;
      }
      if |prototypes| == 0 {
        return false;
      }
      assert ncaches[1..] == cachespec[|cachespec| - (level - 1)..];
      assert ts[1..] == testerspec[|cachespec| - (level - 1)..];
      assert ncaches[0] == cachespec[|cachespec| - level];
      ok := MakeSubtrees(ncaches[0], ncaches[1..], prototypes[1..], level - 1);
      WidthAbove(ncaches[1..]);
    }

    /** The top-level call, with the prototypes scaled from the specification. */
    method Build() returns (ok: bool)
      requires Valid() && subs == [] && forall l :: 0 <= l < |nextIndex| ==> nextIndex[l] == 0
      modifies this
      ensures Valid() && ok
      ensures Total(subs) == WeightedSum(cachespec, testerspec, |testerspec|)
      ensures forall l :: 0 <= l < |nextIndex| ==> nextIndex[l] == Width(cachespec, l)
    {
      var protos := MakePrototypes(cachespec);
      assert cachespec[0..] == cachespec && testerspec[0..] == testerspec;
      ok := MakeCacheLevel(cachespec, protos, |cachespec|, false);
      FormulaIsTree(cachespec, testerspec);
    }
  }

  lemma OneMore(i: int, x: int)
    ensures (i + 1) * x == i * x + x
  {
  }

  lemma WidthAbove(caches: seq<int>)
    ensures forall l: nat :: l > |caches| ==> Width(caches, l) == 0
  {
  }

  lemma NewSub(log: seq<Sub>, next: seq<nat>, s: Sub)
    requires Consistent(log, next) && s.level < |next| && s.index == next[s.level]
    ensures Consistent(log + [s], next[s.level := s.index + 1])
  {
    var log', next' := log + [s], next[s.level := s.index + 1];
    assert log'[|log|] == s;
    forall l, i | 0 <= l < |next'| && 0 <= i < next'[l] ensures Named(log', l, i) {
      if l == s.level && i == s.index {
        assert log'[|log|].level == l;
      } else {
        assert Named(log, l, i);
        var k :| 0 <= k < |log| && log[k].level == l && log[k].index == i;
        assert log'[k] == log[k];
      }
    }
  }
}
