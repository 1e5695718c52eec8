/** Finite sets, lists without repetition, and cycles in finite graphs. */
module Finite {

  predicate NoRepeats<T(==)>(s: seq<T>) {
    forall i, j :: 0 <= i < j < |s| ==> s[i] != s[j]
  }

  function Elems<T(==)>(s: seq<T>): set<T> {
    set x | x in s
  }

  lemma SubsetSize<T>(a: set<T>, b: set<T>)
    requires a <= b
    ensures |a| <= |b| && (|a| == |b| <==> a == b)
  {
    assert b == a + (b - a);
    assert |b| == |a| + |b - a|;
  }

  lemma Member<T>(s: set<T>) returns (x: T)
    requires s != {}
    ensures x in s && |s - {x}| == |s| - 1
  {
    x :| x in s;
  }

  lemma {:induction false} ElemsSize<T>(s: seq<T>)
    requires NoRepeats(s)
    ensures |Elems(s)| == |s|
  {
    if s != [] {
      var r, x := s[..|s| - 1], s[|s| - 1];
      assert s == r + [x];
      ElemsSize(r);
      assert Elems(s) == Elems(r) + {x};
    }
  }

  lemma NoRepeatsSnoc<T>(s: seq<T>, x: T)
    requires NoRepeats(s) && x !in s
    ensures NoRepeats(s + [x])
  {
  }

  /** The last `n` elements, or all if there are fewer. */
  function Latest<T>(s: seq<T>, n: nat): seq<T> {
    if |s| > n then s[|s| - n..] else s
  }

  lemma LatestSnoc<T>(s: seq<T>, x: T, n: nat)
    requires n > 0
    ensures var l := Latest(s, n); Latest(s + [x], n) == (if |l| == n then l[1..] else l) + [x]
  {
  }

  // ---- Cycles -----------------------------------------------------------------------

  function Next<T>(c: seq<T>, i: nat): T
    requires i < |c|
  {
    if i + 1 == |c| then c[0] else c[i + 1]
  }

  /** The members of `c` are in `s`, with an edge from each to the next one and
      from the last to the first. */
  ghost predicate IsCycle<T>(edge: (T, T) -> bool, c: seq<T>, s: set<T>) {
    && c != []
    && (forall i :: 0 <= i < |c| ==> c[i] in s)
    && (forall i :: 0 <= i < |c| ==> edge(c[i], Next(c, i)))
  }

  ghost predicate Cyclic<T(!new)>(edge: (T, T) -> bool, s: set<T>) {
    exists c :: IsCycle(edge, c, s)
  }

  ghost predicate StepsInto<T(!new)>(edge: (T, T) -> bool, x: T, s: set<T>) {
    exists y :: y in s && edge(x, y)
  }

  ghost predicate Walk<T>(edge: (T, T) -> bool, p: seq<T>, s: set<T>) {
    && p != []
    && (forall i :: 0 <= i < |p| ==> p[i] in s)
    && (forall i :: 0 <= i < |p| - 1 ==> edge(p[i], p[i + 1]))
  }

  lemma CloseWalk<T>(edge: (T, T) -> bool, s: set<T>, p: seq<T>, k: nat)
    requires Walk(edge, p, s) && k < |p| && edge(p[|p| - 1], p[k])
    ensures IsCycle(edge, p[k..], s)
  {
    var c := p[k..];
    forall i | 0 <= i < |c| ensures edge(c[i], Next(c, i)) {
      assert c[i] == p[k + i];
      if i + 1 < |c| {
        assert c[i + 1] == p[k + i + 1];
      }
    }
  }

  lemma ExtendWalk<T>(edge: (T, T) -> bool, s: set<T>, p: seq<T>, x: T)
    requires Walk(edge, p, s) && x in s && edge(p[|p| - 1], x)
    ensures Walk(edge, p + [x], s)
  {
  }

  lemma WalkFits<T>(edge: (T, T) -> bool, s: set<T>, p: seq<T>)
    requires Walk(edge, p, s) && NoRepeats(p)
    ensures |p| <= |s|
  {
    ElemsSize(p);
    SubsetSize(Elems(p), s);
  }

  /** Following edges inside a finite set comes back to a member. */
  lemma {:induction false} FindCycle<T(!new)>(edge: (T, T) -> bool, s: set<T>, p: seq<T>)
    requires forall x :: x in s ==> StepsInto(edge, x, s)
    requires Walk(edge, p, s) && NoRepeats(p)
    ensures Cyclic(edge, s)
    decreases |s| - |p|
  {
    var last := p[|p| - 1];
    assert StepsInto(edge, last, s);
    var x :| x in s && edge(last, x);
    hide IsCycle, NoRepeats, Walk;
    if x in p {
      var k :| 0 <= k < |p| && p[k] == x;
      CloseWalk(edge, s, p, k);
    } else {
      NoRepeatsSnoc(p, x);
      ExtendWalk(edge, s, p, x);
      WalkFits(edge, s, p + [x]);
      FindCycle(edge, s, p + [x]);
    }
  }

  /** If every member has an edge to a member, there is a cycle. */
  lemma TrapHasCycle<T(!new)>(edge: (T, T) -> bool, s: set<T>)
    requires s != {} && forall x :: x in s ==> StepsInto(edge, x, s)
    ensures Cyclic(edge, s)
  {
    var x :| x in s;
    FindCycle(edge, s, [x]);
  }

  lemma CycleWithin<T(!new)>(edge: (T, T) -> bool, a: set<T>, b: set<T>)
    requires a <= b && Cyclic(edge, a)
    ensures Cyclic(edge, b)
  {
    var c :| IsCycle(edge, c, a);
    assert IsCycle(edge, c, b);
  }
}
