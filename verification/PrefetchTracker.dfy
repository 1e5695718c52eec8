/** Attribution of prefetches to the child prefetcher that issued them: a table
    of outstanding addresses and per-child counters. */
module PrefetchTracker {

  type Addr = nat

  const MAX_TRACKED: nat := 2048

  /** Counters exist for the first four children. */
  const COUNTED: nat := 4

  /** `table` maps an address to the child it is attributed to. */
  datatype Tracker = Tracker(table: map<Addr, int>, issued: seq<nat>, useful: seq<nat>, redundant: seq<nat>) {
    predicate Valid() {
      |issued| == COUNTED && |useful| == COUNTED && |redundant| == COUNTED && |table| <= MAX_TRACKED
    }
  }

  const FRESH := Tracker(map[], [0, 0, 0, 0], [0, 0, 0, 0], [0, 0, 0, 0])

  datatype Op = Issue(child: int, addr: Addr) | Hit(addr: Addr)

  /** `counter[i]++`, where child `i` has a counter */
  function Inc(s: seq<nat>, i: int): (r: seq<nat>)
    ensures |r| == |s|
  {
    if 0 <= i < |s| then s[i := s[i] + 1] else s
  }

  /** A full table is thrown away before the next entry. */
  function Room(table: map<Addr, int>): map<Addr, int> {
    if |table| >= MAX_TRACKED then map[] else table
  }

  function Apply(t: Tracker, op: Op): Tracker {
    match op
    case Issue(child, addr) =>
      if child < 0 then t
      else
        var table := Room(t.table);
        if addr in table then t.(table := table[addr := child], redundant := Inc(t.redundant, child))
        else t.(table := table[addr := child], issued := Inc(t.issued, child))
    case Hit(addr) =>
      if addr !in t.table then t
      else t.(table := t.table - {addr}, useful := Inc(t.useful, t.table[addr]))
  }

  function Run(t: Tracker, ops: seq<Op>): Tracker {
    if ops == [] then t else Apply(Run(t, ops[..|ops| - 1]), ops[|ops| - 1])
  }

  lemma RunSnoc(t: Tracker, ops: seq<Op>, op: Op)
    ensures Run(t, ops + [op]) == Apply(Run(t, ops), op)
  {
    assert (ops + [op])[..|ops|] == ops;
  }

  // ---- The object ---------------------------------------------------------------

  class ChildTable {
    var childPfTable: map<Addr, int>
    var pfIssued: seq<nat>
    var pfUseful: seq<nat>
    var pfRedundant: seq<nat>

    ghost function View(): Tracker
      reads this
    {
      Tracker(childPfTable, pfIssued, pfUseful, pfRedundant)
    }

    constructor ()
      ensures View() == FRESH
    {
      childPfTable, pfIssued, pfUseful, pfRedundant := map[], [0, 0, 0, 0], [0, 0, 0, 0], [0, 0, 0, 0];
    }

    method TrackIssuedForChild(childIndex: int, addr: Addr)
      modifies this
      ensures View() == Apply(old(View()), Issue(childIndex, addr))
    {
      if childIndex < 0 {
        return;
      }
      if |childPfTable| >= MAX_TRACKED {
        childPfTable := map[];
      }
      if addr in childPfTable {
        pfRedundant := Inc(pfRedundant, childIndex);
      } else {
        pfIssued := Inc(pfIssued, childIndex);
      }
      childPfTable := childPfTable[addr := childIndex];
    }

    method TrackUsefulForAddr(addr: Addr)
      modifies this
      ensures View() == Apply(old(View()), Hit(addr))
    {
      if addr !in childPfTable {
        return;
      }
      pfUseful := Inc(pfUseful, childPfTable[addr]);
      childPfTable := childPfTable - {addr};
    }

    /** Consults every child, so that all of them train on the access, and
        issues the candidates of the active one. `candidates[i]` is what child
        `i` proposes; `None` stands for a child that is not of the queued kind. */
    method CalculatePrefetch(candidates: seq<Proposal>, active: int) returns (addresses: seq<Addr>)
      modifies this
      ensures addresses == Issued(candidates, active)
      ensures View() == Run(old(View()), Issues(addresses, active))
    {
      addresses := [];
      for i := 0 to |candidates|
        invariant addresses == Issued(candidates[..i], active)
        invariant View() == Run(old(View()), Issues(addresses, active))
      {
        assert candidates[..i + 1] == candidates[..i] + [candidates[i]];
        if candidates[i].NotQueued? {
          continue;
        }
        var tmp := candidates[i].addrs;
        if i == active {
          assert addresses == [];
          for k := 0 to |tmp|
            invariant addresses == tmp[..k]
            invariant View() == Run(old(View()), Issues(addresses, active))
          {
            assert tmp[..k + 1] == tmp[..k] + [tmp[k]];
            IssuesSnoc(addresses, tmp[k], active);
            RunSnoc(old(View()), Issues(addresses, active), Issue(active, tmp[k]));
            addresses := addresses + [tmp[k]];
            TrackIssuedForChild(i, tmp[k]);
          }
          assert tmp[..|tmp|] == tmp;
        }
      }
      assert candidates[..|candidates|] == candidates;
    }
  }

  datatype Proposal = NotQueued | Proposed(addrs: seq<Addr>)

  /** Only the active child's candidates are issued; none when prefetching is
      off or the child is not of the queued kind. */
  function Issued(candidates: seq<Proposal>, active: int): seq<Addr> {
    if 0 <= active < |candidates| && candidates[active].Proposed? then candidates[active].addrs else []
  }

  function Issues(addrs: seq<Addr>, child: int): seq<Op> {
    if addrs == [] then [] else Issues(addrs[..|addrs| - 1], child) + [Issue(child, addrs[|addrs| - 1])]
  }

  lemma IssuesSnoc(addrs: seq<Addr>, a: Addr, child: int)
    ensures Issues(addrs + [a], child) == Issues(addrs, child) + [Issue(child, a)]
  {
    assert (addrs + [a])[..|addrs|] == addrs;
  }

  // ---- Where every prefetch goes -----------------------------------------------

  /** The addresses attributed to child `i`. */
  function Owned(table: map<Addr, int>, i: int): set<Addr> {
    set a | a in table && table[a] == i
  }

  /** What the counters do not show: entries of child `i` taken over from or by
      another child, and entries thrown away with a full table. */
  datatype Flow = Flow(gained: nat, lost: nat, cleared: nat)

  function Follow(t: Tracker, f: Flow, op: Op, i: int): Flow {
    match op
    case Hit(_) => f
    case Issue(child, addr) =>
      if child < 0 then f
      else
        var g := if |t.table| >= MAX_TRACKED then f.(cleared := f.cleared + |Owned(t.table, i)|) else f;
        var table := Room(t.table);
        if addr !in table || table[addr] == child then g
        else if child == i then g.(gained := g.gained + 1)
        else if table[addr] == i then g.(lost := g.lost + 1)
        else g
  }

  function RunFlow(t: Tracker, ops: seq<Op>, i: int): Flow {
    if ops == [] then Flow(0, 0, 0)
    else Follow(Run(t, ops[..|ops| - 1]), RunFlow(t, ops[..|ops| - 1], i), ops[|ops| - 1], i)
  }

  /** Issued or taken over, a prefetch of child `i` was useful, or is still in
      the table, or was taken over by another child, or was thrown away. */
  predicate Balanced(t: Tracker, f: Flow, i: int)
    requires t.Valid() && 0 <= i < COUNTED
  {
    && t.issued[i] + f.gained == t.useful[i] + |Owned(t.table, i)| + f.lost + f.cleared
    && f.gained <= t.redundant[i]
  }

  lemma OwnedSet(table: map<Addr, int>, addr: Addr, child: int, i: int)
    ensures |Owned(table[addr := child], i)| ==
            |Owned(table, i)| + (if child == i then 1 else 0) - if addr in table && table[addr] == i then 1 else 0
  {
    var a, b := Owned(table, i), Owned(table[addr := child], i);
    if child == i {
      assert b == a + {addr};
    } else {
      assert b == a - {addr};
    }
  }

  lemma OwnedDrop(table: map<Addr, int>, addr: Addr, i: int)
    requires addr in table
    ensures |Owned(table - {addr}, i)| == |Owned(table, i)| - if table[addr] == i then 1 else 0
  {
    assert Owned(table - {addr}, i) == Owned(table, i) - {addr};
  }

  lemma RoomLeft(table: map<Addr, int>, addr: Addr, child: int)
    requires |table| <= MAX_TRACKED
    ensures |Room(table)[addr := child]| <= MAX_TRACKED
  {
    var r := Room(table);
    assert |r| < MAX_TRACKED;
    OneKeyMore(r, addr, child);
  }

  lemma OneKeyMore(m: map<Addr, int>, addr: Addr, child: int)
    ensures |m[addr := child]| <= |m| + 1
  {
    assert m[addr := child].Keys == m.Keys + {addr};
  }

  lemma ApplyBalanced(t: Tracker, f: Flow, op: Op, i: int)
    requires t.Valid() && 0 <= i < COUNTED && Balanced(t, f, i)
    ensures Apply(t, op).Valid() && Balanced(Apply(t, op), Follow(t, f, op, i), i)
  {
    match op {
      case Issue(child, addr) =>
        if child >= 0 {
          RoomLeft(t.table, addr, child);
          OwnedSet(Room(t.table), addr, child, i);
          assert Owned(map[], i) == {};
        }
      case Hit(addr) =>
        if addr in t.table {
          OwnedDrop(t.table, addr, i);
          assert (t.table - {addr}).Keys == t.table.Keys - {addr};
        }
    }
  }

  /** Main result on attribution: over every run of issues and hits, each
      child's prefetches are accounted for exactly, and the table stays within
      its limit. */
  lemma {:induction false} RunBalanced(ops: seq<Op>, i: int)
    requires 0 <= i < COUNTED
    ensures Run(FRESH, ops).Valid() && Balanced(Run(FRESH, ops), RunFlow(FRESH, ops, i), i)
  {
    if ops == [] {
      assert Owned(map[], i) == {};
    } else {
      var r, op := ops[..|ops| - 1], ops[|ops| - 1];
      RunBalanced(r, i);
      ApplyBalanced(Run(FRESH, r), RunFlow(FRESH, r, i), op, i);
    }
  }

  /** A child's useful prefetches never exceed its issued and redundant ones. */
  lemma UsefulBound(ops: seq<Op>, i: int)
    requires 0 <= i < COUNTED
    ensures Run(FRESH, ops).Valid()
    ensures Run(FRESH, ops).useful[i] <= Run(FRESH, ops).issued[i] + Run(FRESH, ops).redundant[i]
  {
    RunBalanced(ops, i);
  }

  /** They can exceed the issued ones alone: child 1 proposes an address that
      child 0 issued before, and gets the credit for it. */
  lemma UsefulWithoutIssue(a: Addr)
    ensures var t := Run(FRESH, [Issue(0, a), Issue(1, a), Hit(a)]);
            t.issued == [1, 0, 0, 0] && t.redundant == [0, 1, 0, 0] && t.useful == [0, 1, 0, 0]
  {
    ThreeSteps(Issue(0, a), Issue(1, a), Hit(a));
    hide Run;
    assert |map[a := 0]| == 1;
  }

  // ---- When useful prefetches stay within the issued ones --------------------------

  /** Only these children issue only these addresses. */
  predicate IssuesFrom(ops: seq<Op>, pairs: set<(int, Addr)>) {
    forall k :: 0 <= k < |ops| && ops[k].Issue? ==> (ops[k].child, ops[k].addr) in pairs
  }

  /** No other child issues an address of child `i`. */
  ghost predicate NotShared(pairs: set<(int, Addr)>, i: int) {
    forall j, a :: j >= 0 && (j, a) in pairs && (i, a) in pairs ==> j == i
  }

  predicate TableFrom(table: map<Addr, int>, pairs: set<(int, Addr)>) {
    forall a :: a in table ==> table[a] >= 0 && (table[a], a) in pairs
  }

  lemma ApplyGainsNothing(t: Tracker, f: Flow, op: Op, pairs: set<(int, Addr)>, i: int)
    requires NotShared(pairs, i) && TableFrom(t.table, pairs) && f.gained == 0
    requires op.Issue? ==> (op.child, op.addr) in pairs
    ensures TableFrom(Apply(t, op).table, pairs) && Follow(t, f, op, i).gained == 0
  {
    if op.Issue? && op.child >= 0 {
      assert TableFrom(Room(t.table), pairs);
    }
  }

  lemma {:induction false} NothingGained(ops: seq<Op>, pairs: set<(int, Addr)>, i: int)
    requires IssuesFrom(ops, pairs) && NotShared(pairs, i)
    ensures TableFrom(Run(FRESH, ops).table, pairs) && RunFlow(FRESH, ops, i).gained == 0
  {
    if ops != [] {
      var r := ops[..|ops| - 1];
      NothingGained(r, pairs, i);
      ApplyGainsNothing(Run(FRESH, r), RunFlow(FRESH, r, i), ops[|ops| - 1], pairs, i);
    }
  }

  /** The credit for an address that child `j` issued goes to child `i`. */
  lemma CreditMoves(i: int, j: int, a: Addr)
    requires 0 <= i < COUNTED && 0 <= j && i != j
    ensures var t := Run(FRESH, [Issue(j, a), Issue(i, a), Hit(a)]);
            t.Valid() && t.issued[i] == 0 && t.useful[i] == 1
  {
    var x, y, z := Issue(j, a), Issue(i, a), Hit(a);
    ThreeSteps(x, y, z);
    hide Run;
    assert |map[a := j]| == 1;
    assert Apply(FRESH, x) == Tracker(map[a := j], Inc([0, 0, 0, 0], j), FRESH.useful, FRESH.redundant);
    var t := Apply(Apply(FRESH, x), y);
    assert t.table == map[a := i] && t.issued == Inc([0, 0, 0, 0], j) && t.useful == [0, 0, 0, 0];
    assert Apply(t, z).table == map[];
  }

  lemma ThreeSteps(x: Op, y: Op, z: Op)
    ensures Run(FRESH, [x, y, z]) == Apply(Apply(Apply(FRESH, x), y), z)
  {
    RunSnoc(FRESH, [], x);
    RunSnoc(FRESH, [x], y);
    RunSnoc(FRESH, [x, y], z);
    hide Apply;
    assert [] + [x] == [x] && [x] + [y] == [x, y] && [x, y] + [z] == [x, y, z];
  }

  /** In every run of these issues, and any hits, child `i` has no more useful
      prefetches than issued ones. */
  ghost predicate AlwaysWithinIssued(pairs: set<(int, Addr)>, i: int)
    requires 0 <= i < COUNTED
  {
    forall ops :: IssuesFrom(ops, pairs) ==>
      Run(FRESH, ops).Valid() && Run(FRESH, ops).useful[i] <= Run(FRESH, ops).issued[i]
  }

  /** Main result on credit: a child's useful prefetches stay within those it issued
      in every run exactly when no other child issues one of its addresses. */
  lemma WithinIssuedIff(pairs: set<(int, Addr)>, i: int)
    requires 0 <= i < COUNTED
    ensures AlwaysWithinIssued(pairs, i) <==> NotShared(pairs, i)
  {
    hide Run, RunFlow;
    if NotShared(pairs, i) {
      forall ops | IssuesFrom(ops, pairs)
        ensures Run(FRESH, ops).Valid() && Run(FRESH, ops).useful[i] <= Run(FRESH, ops).issued[i]
      {
        RunBalanced(ops, i);
        NothingGained(ops, pairs, i);
      }
    } else {
      var j, a :| j >= 0 && (j, a) in pairs && (i, a) in pairs && j != i;
      CreditMoves(i, j, a);
      assert IssuesFrom([Issue(j, a), Issue(i, a), Hit(a)], pairs);
    }
  }
}
