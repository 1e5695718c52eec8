/** Priority and age over runs of the prefetch queue. Eviction takes the packet at
    the back for one of the lowest priority, and the front of the last run of equal
    priorities for the oldest of them; both hold only for few priorities or for
    small queues. */
module PrefetchOrder {
  import opened Finite
  import opened PrefetchQueue
  import opened PrefetchRuns

  predicate OpFrom(op: Op, ps: set<int>) {
    op.Offer? ==> op.x.priority in ps
  }

  /** Only priorities of `ps` are offered. */
  predicate From(ops: seq<Op>, ps: set<int>) {
    forall k :: 0 <= k < |ops| ==> OpFrom(ops[k], ps)
  }

  lemma FromFront(ops: seq<Op>, ps: set<int>)
    requires From(ops, ps) && ops != []
    ensures From(ops[..|ops| - 1], ps) && OpFrom(ops[|ops| - 1], ps)
  {
  }

  // ---- The queue stays sorted -----------------------------------------------------

  /** `r` is a part of `q`, in order: `at` gives the places. */
  ghost predicate Part(r: Queue, q: Queue, at: seq<nat>) {
    && |at| == |r|
    && (forall i :: 0 <= i < |r| ==> at[i] < |q| && r[i] == q[at[i]])
    && forall i, j :: 0 <= i < j < |r| ==> at[i] < at[j]
  }

  lemma {:induction false} SquashedPart(q: Queue, addr: nat, secure: bool) returns (at: seq<nat>)
    ensures Part(Squashed(q, addr, secure), q, at)
  {
    if q == [] {
      at := [];
    } else {
      at := SquashedPart(q[..|q| - 1], addr, secure);
      var p := q[|q| - 1];
      if !(p.addr == addr && p.secure == secure) {
        at := at + [|q| - 1];
      }
    }
  }

  lemma FrontPart(q: Queue) returns (at: seq<nat>)
    requires q != []
    ensures Part(q[1..], q, at)
  {
    at := seq(|q| - 1, i => i + 1);
  }

  lemma VictimPart(q: Queue) returns (at: seq<nat>)
    requires q != []
    ensures Part(Evicted(q), q, at)
  {
    EvictedPart(q);
    var v := Victim(q, |q| - 1);
    at := seq(|q| - 1, i => if i < v then i else i + 1);
    hide Evicted, Victim;
  }

  /** The packet at `it` was raised and is the only one that may be out of order. */
  predicate OneRaised(q: Queue, it: nat)
    requires it < |q|
  {
    && (forall i, j :: 0 <= i < j < |q| && i != it && j != it ==> q[i].priority >= q[j].priority)
    && forall j :: it < j < |q| ==> q[it].priority >= q[j].priority
  }

  lemma {:induction false} BubbleStays(q: Queue, it: nat, prev: nat)
    requires Sorted(q) && it < |q| && prev <= it
    ensures Bubble(q, it, prev) == q
  {
    if prev > 0 {
      BubbleStays(q, it, prev - 1);
    }
  }

  lemma {:induction false} BubbleSorts(q: Queue, it: nat)
    requires it < |q| && OneRaised(q, it)
    ensures Sorted(Bubble(q, it, it))
    decreases it
  {
    if it > 0 {
      var p := it - 1;
      if q[it].priority > q[p].priority {
        BubbleSorts(q[it := q[p]][p := q[it]], p);
      } else {
        assert Sorted(q);
        BubbleStays(q, it, p);
      }
    }
  }

  lemma SearchedSorts(q: Queue, x: Packet)
    requires Sorted(q)
    ensures Sorted(Searched(q, x))
  {
    var k := Find(q, x, 0);
    hide Bubble, Find;
    if k + 1 < |q| && q[k + 1].priority < x.priority {
      var r := q[k + 1 := q[k + 1].(priority := x.priority)];
      assert OneRaised(r, k + 1);
      BubbleSorts(r, k + 1);
    }
  }

  predicate Among(q: Queue, ps: set<int>) {
    forall i :: 0 <= i < |q| ==> q[i].priority in ps
  }

  lemma SearchedAmong(q: Queue, x: Packet, ps: set<int>)
    requires Among(q, ps) && x.priority in ps
    ensures Among(Searched(q, x), ps)
  {
    var k := Find(q, x, 0);
    var r := Raised(q, x, k);
    SearchedPermutes(q, x);
    assert Among(r, ps);
    hide Searched, Raised, Find;
    InMultiset(r);
    var s := Searched(q, x);
    forall i | 0 <= i < |s| ensures s[i].priority in ps {
      assert s[i] in multiset(s);
    }
  }

  lemma InsertedAmong(q: Queue, x: Packet, ps: set<int>)
    requires Among(q, ps) && x.priority in ps
    ensures Among(Inserted(q, x), ps)
  {
  }

  lemma PartSorted(r: Queue, q: Queue, at: seq<nat>)
    requires Part(r, q, at)
    ensures Sorted(q) ==> Sorted(r)
    ensures forall ps :: Among(q, ps) ==> Among(r, ps)
  {
  }

  lemma ThreeIn(ps: set<int>, a: int, b: int, c: int)
    requires a in ps && b in ps && c in ps && a < b < c
    ensures |ps| >= 3
  {
    SubsetSize({a, b, c}, ps);
  }

  lemma HasThree(ps: set<int>) returns (a: int, b: int, c: int)
    requires |ps| >= 3
    ensures a in ps && b in ps && c in ps && a < b < c
  {
    var x := Member(ps);
    var y := Member(ps - {x});
    var z := Member(ps - {x} - {y});
    var lo, hi := if x < y then x else y, if x < y then y else x;
    if z < lo {
      a, b, c := z, lo, hi;
    } else if z < hi {
      a, b, c := lo, z, hi;
    } else {
      a, b, c := lo, hi, z;
    }
  }

  lemma HasTwo(ps: set<int>) returns (a: int, b: int)
    requires |ps| >= 2
    ensures a in ps && b in ps && a < b
  {
    var x := Member(ps);
    var y := Member(ps - {x});
    a, b := if x < y then x else y, if x < y then y else x;
  }

  /** An insertion that breaks the order needs three packets and three
      priorities. */
  lemma MisplacedNeeds(q: Queue, p: int, ps: set<int>)
    requires Misplaced(q, p) && Among(q, ps) && p in ps
    ensures |q| >= 3 && |ps| >= 3
  {
    ThreeIn(ps, q[|q| - 1].priority, p, q[1].priority);
  }

  predicate FewForOrder(ps: set<int>, s: Setup) {
    |ps| <= 2 || s.queueSize <= 3
  }

  lemma BeforePart(q: Queue, n: nat, ps: set<int>)
    requires Sorted(q) && Among(q, ps)
    ensures Sorted(Before(q, n)) && Among(Before(q, n), ps)
  {
    if |q| == n && q != [] {
      var at := VictimPart(q);
      hide Evicted;
      PartSorted(Evicted(q), q, at);
    }
  }

  lemma OfferSorts(q: Queue, x: Packet, s: Setup, ps: set<int>)
    requires s.queueSize >= 2 && |q| <= s.queueSize && FewForOrder(ps, s)
    requires Sorted(q) && Among(q, ps) && x.priority in ps
    ensures Sorted(Offered(q, x, s)) && Among(Offered(q, x, s), ps)
  {
    var b := Before(q, s.queueSize);
    AddedIs(q, x, s.queueSize);
    BeforeSize(q, s.queueSize);
    BeforePart(q, s.queueSize, ps);
    hide Before, Added, Searched, Find, Sorted, Among, Inserted;
    SearchedSorts(q, x);
    SearchedAmong(q, x, ps);
    InsertSortedIff(b, x);
    InsertedAmong(b, x, ps);
    if Misplaced(b, x.priority) {
      MisplacedNeeds(b, x.priority, ps);
    }
  }

  lemma {:induction false} RunSorted(ops: seq<Op>, s: Setup, ps: set<int>)
    requires s.queueSize >= 2 && FewForOrder(ps, s) && From(ops, ps)
    ensures Sorted(Run(ops, s)) && Among(Run(ops, s), ps)
  {
    if ops != [] {
      var q, op := Run(ops[..|ops| - 1], s), ops[|ops| - 1];
      FromFront(ops, ps);
      RunSorted(ops[..|ops| - 1], s, ps);
      RunSize(ops[..|ops| - 1], s);
      RunLast(ops, s);
      hide Run, Offered, Sorted, Among, From, FewForOrder;
      match op {
        case Offer(x) => OfferSorts(q, x.(born := |ops| - 1), s, ps);
        case Issue =>
          if q != [] {
            var at := FrontPart(q);
            PartSorted(q[1..], q, at);
          }
        case Squash(a, b) =>
          var at := SquashedPart(q, a, b);
          PartSorted(Squashed(q, a, b), q, at);
      }
    }
  }

  /** Two packets of the highest of three priorities, one of the lowest and one
      of the middle one, which comes to stand between the first two. */
  function Wedge(a: int, b: int, c: int): seq<Op> {
    [Offer(Packet(0, false, c)), Offer(Packet(1, false, c)), Offer(Packet(2, false, a)), Offer(Packet(3, false, b))]
  }

  lemma ThreeOffers(x: Packet, y: Packet, z: Packet, s: Setup)
    requires s.queueSize >= 4 && x.priority == y.priority >= z.priority
    requires !x.SameAddr(y) && !x.SameAddr(z) && !y.SameAddr(z)
    ensures Run([Offer(x), Offer(y), Offer(z)], s) == [x.(born := 0), y.(born := 1), z.(born := 2)]
  {
    var x', y', z' := x.(born := 0), y.(born := 1), z.(born := 2);
    OfferOne(x, s);
    RunSnoc([Offer(x)], Offer(y), s);
    NotFound([x'], y');
    AddBack([x'], y', s.queueSize);
    RunSnoc([Offer(x), Offer(y)], Offer(z), s);
    NotFound([x', y'], z');
    AddBack([x', y'], z', s.queueSize);
    hide Run, Added, Searched, Find;
    assert [Offer(x)] + [Offer(y)] == [Offer(x), Offer(y)];
    assert [x'] + [y'] == [x', y'];
    assert [Offer(x), Offer(y)] + [Offer(z)] == [Offer(x), Offer(y), Offer(z)];
    assert [x', y'] + [z'] == [x', y', z'];
  }

  lemma NotFound(q: Queue, x: Packet)
    requires forall i :: 0 <= i < |q| ==> !q[i].SameAddr(x)
    ensures Find(q, x, 0) == |q|
  {
  }

  /** A packet that is not above the second one goes in front of it if it is above
      the third. */
  lemma InsertBetween(a: Packet, b: Packet, c: Packet, x: Packet)
    requires a.priority >= b.priority >= x.priority > c.priority
    ensures Inserted([a, b, c], x) == [a, x, b, c]
  {
    var q := [a, b, c];
    assert Stop(q, x.priority, 2) == Stop(q, x.priority, 1) == 1;
    assert q[..1] == [a] && q[1..] == [b, c];
  }

  /** Two packets of one priority, a lower one, and one that is placed before the
      second. */
  lemma FourOffers(x: Packet, y: Packet, z: Packet, w: Packet, s: Setup)
    requires s.queueSize >= 4 && x.priority == y.priority >= w.priority > z.priority
    requires x.addr == 0 && y.addr == 1 && z.addr == 2 && w.addr == 3
    ensures Run([Offer(x), Offer(y), Offer(z), Offer(w)], s) ==
            [x.(born := 0), w.(born := 3), y.(born := 1), z.(born := 2)]
  {
    ThreeOffers(x, y, z, s);
    var three := [Offer(x), Offer(y), Offer(z)];
    var q := [x.(born := 0), y.(born := 1), z.(born := 2)];
    RunSnoc(three, Offer(w), s);
    NotFound(q, w.(born := 3));
    InsertBetween(q[0], q[1], q[2], w.(born := 3));
    hide Run, Find, Inserted;
    assert three + [Offer(w)] == [Offer(x), Offer(y), Offer(z), Offer(w)];
  }

  /** In every run with these priorities the queue is sorted. */
  ghost predicate AlwaysSorted(ps: set<int>, s: Setup) {
    forall ops :: From(ops, ps) ==> Sorted(Run(ops, s))
  }

  /** Main result on order: the queue stays ordered by priority in every run
      exactly when at most two priorities are offered or it holds at most three
      packets. */
  lemma AlwaysSortedIff(ps: set<int>, s: Setup)
    requires s.queueSize >= 2
    ensures AlwaysSorted(ps, s) <==> FewForOrder(ps, s)
  {
    if FewForOrder(ps, s) {
      forall ops | From(ops, ps) ensures Sorted(Run(ops, s)) {
        RunSorted(ops, s, ps);
      }
    } else {
      var a, b, c := HasThree(ps);
      FourOffers(Packet(0, false, c), Packet(1, false, c), Packet(2, false, a), Packet(3, false, b), s);
      var q := Run(Wedge(a, b, c), s);
      hide Run;
      assert From(Wedge(a, b, c), ps);
      assert q[1].priority == b && q[2].priority == c;
    }
  }

  // ---- The oldest packet of the lowest priority -----------------------------------

  /** A full queue and a packet that is not dropped. */
  predicate Evicts(q: Queue, op: Op, s: Setup) {
    op.Offer? && q != [] && |q| == s.queueSize && !Dropped(q, op.x, s)
  }

  /** The packet that would be evicted is the first that came among those of the
      lowest priority. */
  predicate VictimIsOldest(q: Queue)
    requires q != []
  {
    var v := q[Victim(q, |q| - 1)];
    forall p :: p in q ==> v.priority < p.priority || (v.priority == p.priority && v.born <= p.born)
  }

  /** Sorted, and by age within a priority; `now` is later than all. */
  predicate ByAge(q: Queue, now: nat) {
    && Sorted(q)
    && (forall i :: 0 <= i < |q| ==> q[i].born < now)
    && forall i, j :: 0 <= i < j < |q| && q[i].priority == q[j].priority ==> q[i].born < q[j].born
  }

  lemma ByAgeOldest(q: Queue, now: nat)
    requires ByAge(q, now) && q != []
    ensures VictimIsOldest(q)
  {
    var k := Victim(q, |q| - 1);
    forall p | p in q ensures q[k].priority < p.priority || (q[k].priority == p.priority && q[k].born <= p.born) {
      var i :| 0 <= i < |q| && q[i] == p;
      if i < k {
        assert q[k - 1].priority != q[k].priority;
        assert q[i].priority >= q[k - 1].priority;
      }
    }
  }

  lemma PartByAge(r: Queue, q: Queue, at: seq<nat>, now: nat)
    requires Part(r, q, at) && ByAge(q, now)
    ensures ByAge(r, now + 1)
  {
    PartSorted(r, q, at);
    hide Sorted;
  }

  /** A packet that comes now and is put behind its equals. */
  lemma InsertByAge(q: Queue, x: Packet)
    requires ByAge(q, x.born) && !Misplaced(q, x.priority) && !Overtakes(q, x.priority)
    ensures ByAge(Inserted(q, x), x.born + 1)
  {
    InsertSortedIff(q, x);
    BehindEqualsIff(q, x.priority);
    hide Sorted, Misplaced, Overtakes;
    InsertAges(q, x, Place(q, x.priority));
  }

  lemma InsertAges(q: Queue, x: Packet, k: nat)
    requires k <= |q| && (forall i :: 0 <= i < |q| ==> q[i].born < x.born)
    requires forall i, j :: 0 <= i < j < |q| && q[i].priority == q[j].priority ==> q[i].born < q[j].born
    requires forall i :: 0 <= i < |q| && q[i].priority == x.priority ==> i < k
    ensures var r := q[..k] + [x] + q[k..];
            && (forall i :: 0 <= i < |r| ==> r[i].born < x.born + 1)
            && forall i, j :: 0 <= i < j < |r| && r[i].priority == r[j].priority ==> r[i].born < r[j].born
  {
    var r := q[..k] + [x] + q[k..];
    assert (forall m :: 0 <= m < k ==> r[m] == q[m]) && r[k] == x;
    assert forall m :: k < m < |r| ==> r[m] == q[m - 1];
  }

  /** When age is kept: one priority, or a small queue that is not searched. */
  predicate FewForAge(ps: set<int>, s: Setup) {
    |ps| <= 1 || (!s.filter && s.queueSize <= 3)
  }

  lemma OneElement(ps: set<int>, a: int, b: int)
    requires |ps| <= 1 && a in ps && b in ps
    ensures a == b
  {
    SubsetSize({a, b}, ps);
  }

  /** Neither in a queue of at most two packets nor among equals is anything
      misplaced or overtaken. */
  lemma NothingOvertaken(q: Queue, p: int, ps: set<int>)
    requires Among(q, ps) && p in ps && (|q| <= 2 || |ps| <= 1)
    ensures !Misplaced(q, p) && !Overtakes(q, p)
  {
    if q != [] && |ps| <= 1 {
      OneElement(ps, q[|q| - 1].priority, p);
    }
  }

  lemma NotRaised(q: Queue, x: Packet, ps: set<int>)
    requires Among(q, ps) && x.priority in ps && |ps| <= 1
    ensures Searched(q, x) == q
  {
    var k := Find(q, x, 0);
    if k + 1 < |q| {
      OneElement(ps, q[k + 1].priority, x.priority);
    }
  }

  lemma BeforeByAge(q: Queue, n: nat, now: nat)
    requires ByAge(q, now)
    ensures ByAge(Before(q, n), now)
  {
    if |q| == n && q != [] {
      var at := VictimPart(q);
      hide Evicted;
      PartSorted(Evicted(q), q, at);
    }
  }

  lemma OfferByAge(q: Queue, x: Packet, s: Setup, ps: set<int>)
    requires s.queueSize >= 2 && |q| <= s.queueSize && FewForAge(ps, s)
    requires ByAge(q, x.born) && Among(q, ps) && x.priority in ps
    ensures ByAge(Offered(q, x, s), x.born + 1)
  {
    var b := Before(q, s.queueSize);
    AddedIs(q, x, s.queueSize);
    BeforeSize(q, s.queueSize);
    BeforePart(q, s.queueSize, ps);
    BeforeByAge(q, s.queueSize, x.born);
    if Dropped(q, x, s) {
      NotRaised(q, x, ps);
    } else {
      hide Before, Added, Inserted, Among, ByAge;
      NothingOvertaken(b, x.priority, ps);
      InsertByAge(b, x);
    }
  }

  lemma {:induction false} RunByAge(ops: seq<Op>, s: Setup, ps: set<int>)
    requires s.queueSize >= 2 && FewForAge(ps, s) && From(ops, ps)
    ensures ByAge(Run(ops, s), |ops|)
  {
    if ops != [] {
      var q, op, now := Run(ops[..|ops| - 1], s), ops[|ops| - 1], |ops| - 1;
      FromFront(ops, ps);
      RunByAge(ops[..|ops| - 1], s, ps);
      RunSorted(ops[..|ops| - 1], s, ps);
      RunSize(ops[..|ops| - 1], s);
      RunLast(ops, s);
      hide Run, Offered, Among, From, FewForAge, Sorted;
      match op {
        case Offer(x) => OfferByAge(q, x.(born := now), s, ps);
        case Issue =>
          if q != [] {
            var at := FrontPart(q);
            PartByAge(q[1..], q, at, now);
          }
        case Squash(a, b) =>
          var at := SquashedPart(q, a, b);
          PartByAge(Squashed(q, a, b), q, at, now);
      }
    }
  }

  // ---- Runs that evict a newer packet ------------------------------------------------

  /** `m` packets of priority `p` to fresh addresses. */
  function Fills(p: int, m: nat): seq<Op> {
    seq(m, (j: nat) => Offer(Packet(10 + j, false, p)))
  }

  function Filled(p: int, m: nat, now: nat): Queue {
    seq(m, (j: nat) => Packet(10 + j, false, p, now + j))
  }

  lemma FillsSnoc(p: int, m: nat, now: nat)
    ensures Fills(p, m + 1) == Fills(p, m) + [Offer(Packet(10 + m, false, p))]
    ensures Filled(p, m + 1, now) == Filled(p, m, now) + [Packet(10 + m, false, p, now + m)]
  {
  }

  /** Packets of the same priority fill the queue up at the back. */
  lemma {:induction false} FillRun(ops: seq<Op>, s: Setup, p: int, m: nat)
    requires var q := Run(ops, s);
             Uniform(q, p) && |q| + m <= s.queueSize && forall i :: 0 <= i < |q| ==> q[i].addr < 10
    ensures Run(ops + Fills(p, m), s) == Run(ops, s) + Filled(p, m, |ops|)
  {
    var q := Run(ops, s);
    hide Run;
    if m == 0 {
      assert ops + Fills(p, 0) == ops && q + Filled(p, 0, |ops|) == q;
    } else {
      FillRun(ops, s, p, m - 1);
      FillsSnoc(p, m - 1, |ops|);
      var front, x := ops + Fills(p, m - 1), Packet(10 + m - 1, false, p);
      var r := q + Filled(p, m - 1, |ops|);
      assert ops + Fills(p, m) == front + [Offer(x)];
      RunSnoc(front, Offer(x), s);
      var x' := x.(born := |ops| + m - 1);
      NotFound(r, x');
      AddBack(r, x', s.queueSize);
      hide Find, Added, Searched;
      assert r + [x'] == q + Filled(p, m, |ops|);
    }
  }

  /** Two packets of one priority in the wrong order of age: once the queue is full
      of that priority, the next offer evicts the younger of them. */
  lemma FillEvicts(ops: seq<Op>, s: Setup, a: Packet, b: Packet)
    requires s.queueSize >= 2 && Run(ops, s) == [a, b] && a.priority == b.priority && a.born > b.born
    requires a.addr < 10 && b.addr < 10
    ensures var full := ops + Fills(a.priority, s.queueSize - 2);
            && Run(full, s) == [a, b] + Filled(a.priority, s.queueSize - 2, |ops|)
            && Evicts(Run(full, s), Offer(Packet(9 + s.queueSize, false, a.priority)), s)
            && !VictimIsOldest(Run(full, s))
  {
    var p, m := a.priority, s.queueSize - 2;
    FillRun(ops, s, p, m);
    hide Run;
    var q := [a, b] + Filled(p, m, |ops|);
    NotFound(q, Packet(9 + s.queueSize, false, p));
    assert Uniform(q, p);
    UniformVictim(q, p);
    assert q[0] == a && q[1] == b;
    assert b in q;
  }

  lemma UniformVictim(q: Queue, p: int)
    requires Uniform(q, p) && q != []
    ensures Victim(q, |q| - 1) == 0
  {
  }

  /** With the filter on: asking again for the packet at the front raises the older
      one behind it to the same priority. */
  function Repeat(lo: int, hi: int): seq<Op> {
    [Offer(Packet(1, false, lo)), Offer(Packet(2, false, hi)), Offer(Packet(2, false, hi))]
  }

  lemma RepeatRun(lo: int, hi: int, s: Setup)
    requires s.queueSize >= 2 && s.filter && lo < hi
    ensures Run(Repeat(lo, hi), s) == [Packet(2, false, hi, 1), Packet(1, false, hi, 0)]
  {
    hide Run, Inserted, Searched, Find;
    var x, y := Packet(1, false, lo), Packet(2, false, hi);
    var y', z' := y.(born := 1), y.(born := 2);
    var two := [Offer(x)] + [Offer(y)];
    OfferOne(x, s);
    RunSnoc([Offer(x)], Offer(y), s);
    NotFound([x], y');
    InsertFirst(x, y');
    assert Run(two, s) == [y', x];
    RunSnoc(two, Offer(y), s);
    RaiseSecond(y', x, z');
    assert Run(two + [Offer(y)], s) == Searched([y', x], z');
    assert two + [Offer(y)] == Repeat(lo, hi);
  }

  lemma InsertFirst(a: Packet, x: Packet)
    requires a.priority < x.priority
    ensures Inserted([a], x) == [x, a]
  {
    assert Stop([a], x.priority, 0) == 0;
    assert [a][..0] == [] && [a][0..] == [a];
  }

  lemma RaiseSecond(a: Packet, b: Packet, x: Packet)
    requires a.SameAddr(x) && a.priority == x.priority > b.priority
    ensures Find([a, b], x, 0) == 0 && Searched([a, b], x) == [a, b.(priority := x.priority)]
  {
    var q, c := [a, b], b.(priority := x.priority);
    assert Find(q, x, 0) == 0;
    assert q[1 := c] == [a, c];
    assert Bubble([a, c], 1, 1) == Bubble([a, c], 1, 0);
  }

  /** With the filter off: a packet is placed before an older one of its priority,
      and the packets around the two go. */
  function Overtaking(lo: int, hi: int): seq<Op> {
    [Offer(Packet(0, false, hi)), Offer(Packet(1, false, hi)), Offer(Packet(2, false, lo)),
     Offer(Packet(3, false, hi)), Issue, Squash(2, false)]
  }

  lemma OvertakingRun(lo: int, hi: int, s: Setup)
    requires s.queueSize >= 4 && lo < hi
    ensures Run(Overtaking(lo, hi), s) == [Packet(3, false, hi, 3), Packet(1, false, hi, 1)]
  {
    var x, y, z, w := Packet(0, false, hi), Packet(1, false, hi), Packet(2, false, lo), Packet(3, false, hi);
    var four := [Offer(x), Offer(y), Offer(z), Offer(w)];
    FourOffers(x, y, z, w, s);
    RunSnoc(four, Issue, s);
    RunSnoc(four + [Issue], Squash(2, false), s);
    hide Run;
    var w', y', z' := w.(born := 3), y.(born := 1), z.(born := 2);
    assert Run(four + [Issue], s) == [w', y', z'];
    SquashThird(w', y', z');
    assert four + [Issue] + [Squash(2, false)] == Overtaking(lo, hi);
  }

  lemma SquashThird(a: Packet, b: Packet, c: Packet)
    requires a.addr != 2 && b.addr != 2 && c.addr == 2 && !c.secure
    ensures Squashed([a, b, c], 2, false) == [a, b]
  {
    assert [a, b, c][..2] == [a, b] && [a, b][..1] == [a] && [a][..0] == [];
    assert Squashed([a], 2, false) == [a];
    assert Squashed([a, b], 2, false) == [a, b];
  }

  /** In every run with these priorities, every eviction removes the packet that
      came first among those of the lowest priority. */
  ghost predicate AlwaysOldest(ps: set<int>, s: Setup) {
    forall ops, op :: From(ops, ps) && OpFrom(op, ps) && Evicts(Run(ops, s), op, s) ==> VictimIsOldest(Run(ops, s))
  }

  /** Main result on eviction: every eviction of every run removes the oldest packet
      of the lowest priority exactly when only one priority is offered, or when the
      filter is off and the queue holds at most three packets. */
  lemma AlwaysOldestIff(ps: set<int>, s: Setup)
    requires s.queueSize >= 2
    ensures AlwaysOldest(ps, s) <==> FewForAge(ps, s)
  {
    hide Run, VictimIsOldest;
    if FewForAge(ps, s) {
      forall ops, op | From(ops, ps) && OpFrom(op, ps) && Evicts(Run(ops, s), op, s)
        ensures VictimIsOldest(Run(ops, s))
      {
        RunByAge(ops, s, ps);
        ByAgeOldest(Run(ops, s), |ops|);
      }
    } else {
      var lo, hi := HasTwo(ps);
      var ops;
      if s.filter {
        ops := Repeat(lo, hi);
        RepeatRun(lo, hi, s);
        FillEvicts(ops, s, Packet(2, false, hi, 1), Packet(1, false, hi, 0));
      } else {
        ops := Overtaking(lo, hi);
        OvertakingRun(lo, hi, s);
        FillEvicts(ops, s, Packet(3, false, hi, 3), Packet(1, false, hi, 1));
      }
      var full := ops + Fills(hi, s.queueSize - 2);
      assert From(full, ps);
      assert OpFrom(Offer(Packet(9 + s.queueSize, false, hi)), ps);
    }
  }

  /** With a queue of two: packet 2 is evicted although packet 1 came before it and
      has the same priority. */
  lemma YoungerEvicted()
    ensures var s := Setup(2, true);
            var ops := [Offer(Packet(1, false, 3)), Offer(Packet(2, false, 5)), Offer(Packet(2, false, 5))];
            && Run(ops, s) == [Packet(2, false, 5, 1), Packet(1, false, 5, 0)]
            && Run(ops + [Offer(Packet(3, false, 5))], s) == [Packet(1, false, 5, 0), Packet(3, false, 5, 3)]
  {
    var s := Setup(2, true);
    var ops := Repeat(3, 5);
    RepeatRun(3, 5, s);
    RunSnoc(ops, Offer(Packet(3, false, 5)), s);
    var q, x := [Packet(2, false, 5, 1), Packet(1, false, 5, 0)], Packet(3, false, 5, 3);
    NotFound(q, x);
    UniformIsFifo(q, x, 2);
    hide Run, Added, Searched;
    assert q[1..] + [x] == [Packet(1, false, 5, 0), x];
  }
}
