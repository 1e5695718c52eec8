/** The queue of pending prefetches that the controller inherits: packets wait
    in a list that is meant to be ordered by priority, front first. */
module PrefetchQueue {
  import opened Finite

  /** `born` numbers the packets by arrival; no operation looks at it. */
  datatype Packet = Packet(addr: nat, secure: bool, priority: int, born: nat := 0) {
    predicate SameAddr(that: Packet) {
      addr == that.addr && secure == that.secure
    }
  }

  type Queue = seq<Packet>

  predicate Sorted(q: Queue) {
    forall i, j :: 0 <= i < j < |q| ==> q[i].priority >= q[j].priority
  }

  predicate NoDuplicates(q: Queue) {
    forall i, j :: 0 <= i < j < |q| ==> !q[i].SameAddr(q[j])
  }

  // ---- Adding a packet ------------------------------------------------------------

  /** The front of the run of equal priorities at the back of the queue. */
  function Victim(q: Queue, it: nat): (v: nat)
    requires it < |q|
    ensures v <= it && q[v].priority == q[it].priority
    ensures v == 0 || q[v - 1].priority != q[it].priority
    ensures forall k :: v <= k <= it ==> q[k].priority == q[it].priority
  {
    if it > 0 && q[it - 1].priority == q[it].priority then Victim(q, it - 1) else it
  }

  function Erase(q: Queue, k: nat): Queue
    requires k < |q|
  {
    q[..k] + q[k + 1..]
  }

  function Evicted(q: Queue): Queue
    requires q != []
  {
    Erase(q, Victim(q, |q| - 1))
  }

  /** Where the backward search for a place stops. */
  function Stop(q: Queue, p: int, it: nat): (j: nat)
    requires it < |q|
    ensures j <= it
    ensures j == 0 || p <= q[j].priority
    ensures forall k :: j < k <= it ==> p > q[k].priority
  {
    if it > 0 && p > q[it].priority then Stop(q, p, it - 1) else it
  }

  function Place(q: Queue, p: int): (k: nat)
    ensures k <= |q|
  {
    if q == [] || p <= q[|q| - 1].priority then |q|
    else
      var j := Stop(q, p, |q| - 1);
      if j == 0 && p <= q[0].priority then 1 else j
  }

  function Inserted(q: Queue, x: Packet): Queue {
    var k := Place(q, x.priority);
    q[..k] + [x] + q[k..]
  }

  function Added(q: Queue, x: Packet, queueSize: nat): Queue {
    if |q| == queueSize && q != [] then Inserted(Evicted(q), x) else Inserted(q, x)
  }

  /** Drops the front packet of the run of equal priorities at the back, which the
      source takes for the oldest of the lowest priority. */
  method Evict(q: Queue) returns (r: Queue)
    requires q != []
    ensures r == Evicted(q)
  {
    var it := |q| - 1;
    var prev, cont := it, true;
    while cont && prev != 0
      invariant 0 <= prev <= it < |q| && (cont ==> prev == it)
      invariant Victim(q, |q| - 1) == if cont then Victim(q, it) else it
      decreases prev, cont
    {
      prev := prev - 1;
      cont := q[prev].priority == q[it].priority;
      if cont {
        it := prev;
      }
    }
    r := q[..it] + q[it + 1..];
  }

  method InsertByPriority(q: Queue, x: Packet) returns (r: Queue)
    ensures r == Inserted(q, x)
  {
    if q == [] || x.priority <= q[|q| - 1].priority {
      assert q[..|q|] == q && q[|q|..] == [];
      return q + [x];
    }
    var it := |q| - 1;
    while it != 0 && x.priority > q[it].priority
      invariant 0 <= it < |q| && Stop(q, x.priority, |q| - 1) == Stop(q, x.priority, it)
    {
      it := it - 1;
    }
    if it == 0 && x.priority <= q[0].priority {
      it := 1;
    }
    r := q[..it] + [x] + q[it..];
  }

  /** `ok` is false where the source panics: on a full queue of no or of one
      element. */
  method AddToQueue(q: Queue, x: Packet, queueSize: nat) returns (ok: bool, r: Queue)
    ensures ok <==> !(|q| == queueSize && queueSize <= 1)
    ensures ok ==> r == Added(q, x, queueSize)
  {
    hide Evicted, Inserted;
    r := q;
    if |r| == queueSize {
      if |r| <= 1 {
        return false, q;
      }
      r := Evict(r);
    }
    r := InsertByPriority(r, x);
    ok := true;
  }

  /** The search stops on a packet of at least the new priority, and the new
      packet goes in front of it. The order by priority survives exactly unless
      the new priority lies strictly between two that are queued behind the
      front and no packet behind the front has it. */
  predicate Misplaced(q: Queue, p: int) {
    && |q| >= 2
    && q[|q| - 1].priority < p < q[1].priority
    && forall k :: 1 <= k < |q| ==> q[k].priority != p
  }

  lemma SortedInsertAt(q: Queue, x: Packet, k: nat)
    requires Sorted(q) && k <= |q|
    ensures Sorted(q[..k] + [x] + q[k..]) <==>
            (k == 0 || q[k - 1].priority >= x.priority) && (k == |q| || x.priority >= q[k].priority)
  {
    var r := q[..k] + [x] + q[k..];
    assert r[k] == x && (forall i :: 0 <= i < k ==> r[i] == q[i]) && (forall i :: k < i < |r| ==> r[i] == q[i - 1]);
    if k > 0 {
      assert r[k - 1] == q[k - 1];
    }
    if k < |q| {
      assert r[k + 1] == q[k];
    }
  }

  lemma InsertSortedIff(q: Queue, x: Packet)
    requires Sorted(q)
    ensures Sorted(Inserted(q, x)) <==> !Misplaced(q, x.priority)
  {
    var p := x.priority;
    SortedInsertAt(q, x, Place(q, p));
    if q != [] && p > q[|q| - 1].priority {
      var j := Stop(q, p, |q| - 1);
      if j == 0 {
        assert |q| >= 2 ==> p > q[1].priority;
      } else if p == q[j].priority {
        assert !Misplaced(q, p);
      } else {
        assert q[1].priority >= q[j].priority;
      }
    }
  }

  /** A queue of priorities 9, 8, 5 gets a packet of priority 7. */
  lemma MisplacedExample()
    ensures var q := [Packet(0, false, 9), Packet(1, false, 8), Packet(2, false, 5)];
            Inserted(q, Packet(3, false, 7)) ==
            [Packet(0, false, 9), Packet(3, false, 7), Packet(1, false, 8), Packet(2, false, 5)]
  {
    var q := [Packet(0, false, 9), Packet(1, false, 8), Packet(2, false, 5)];
    assert Stop(q, 7, 2) == Stop(q, 7, 1) == 1;
    assert q[..1] == [Packet(0, false, 9)] && q[1..] == [Packet(1, false, 8), Packet(2, false, 5)];
  }

  // ---- Age within a priority ----------------------------------------------------

  /** The new packet goes in front of a queued one of the same priority. */
  predicate Overtakes(q: Queue, p: int) {
    q != [] && q[|q| - 1].priority < p && exists k :: 1 <= k < |q| && q[k].priority == p
  }

  /** A new packet goes behind all packets of its priority exactly unless it
      overtakes one. */
  lemma BehindEqualsIff(q: Queue, p: int)
    requires Sorted(q)
    ensures (forall i :: 0 <= i < |q| && q[i].priority == p ==> i < Place(q, p)) <==> !Overtakes(q, p)
  {
    if q != [] && q[|q| - 1].priority < p {
      var j := Stop(q, p, |q| - 1);
      if Overtakes(q, p) {
        var k :| 1 <= k < |q| && q[k].priority == p;
        assert k <= j;
        assert q[j].priority == p && !(j < Place(q, p));
      }
    }
  }

  /** Priorities 9, 5, 3 get another 5, which comes to stand in front of the old
      one. When two urgent packets then fill the queue, the newer 5 is evicted as
      the oldest of its priority. */
  lemma NewerEvicted()
    ensures var old5, new5 := Packet(1, false, 5), Packet(3, false, 5);
            var q := Inserted([Packet(0, false, 9), old5, Packet(2, false, 3)], new5);
            && q == [Packet(0, false, 9), new5, old5, Packet(2, false, 3)]
            && Added(Added(q, Packet(4, false, 10), 4), Packet(5, false, 11), 4) ==
               [Packet(5, false, 11), Packet(4, false, 10), Packet(0, false, 9), old5]
  {
    var p9, p3, p10, p11 := Packet(0, false, 9), Packet(2, false, 3), Packet(4, false, 10), Packet(5, false, 11);
    var old5, new5 := Packet(1, false, 5), Packet(3, false, 5);
    InsertSecond(p9, old5, p3, new5);
    EvictOne(p9, new5, old5, p3);
    InsertFront(p9, new5, old5, p10);
    EvictOfTwo(p10, p9, new5, old5);
    InsertFront(p10, p9, old5, p11);
    hide Inserted, Evicted;
  }

  lemma InsertSecond(a: Packet, b: Packet, c: Packet, x: Packet)
    requires a.priority > b.priority == x.priority > c.priority
    ensures Inserted([a, b, c], x) == [a, x, b, c]
  {
    var q := [a, b, c];
    assert Stop(q, x.priority, 2) == Stop(q, x.priority, 1) == 1;
    assert q[..1] == [a] && q[1..] == [b, c];
  }

  lemma InsertFront(a: Packet, b: Packet, c: Packet, x: Packet)
    requires a.priority < x.priority && b.priority < x.priority && c.priority < x.priority
    ensures Inserted([a, b, c], x) == [x, a, b, c]
  {
    var q := [a, b, c];
    assert Stop(q, x.priority, 2) == Stop(q, x.priority, 1) == Stop(q, x.priority, 0);
    assert q[..0] == [] && q[0..] == q;
  }

  lemma EvictOne(a: Packet, b: Packet, c: Packet, d: Packet)
    requires c.priority != d.priority
    ensures Evicted([a, b, c, d]) == [a, b, c]
  {
    var q := [a, b, c, d];
    assert Victim(q, 3) == 3;
    assert q[..3] == [a, b, c] && q[4..] == [];
  }

  lemma EvictOfTwo(a: Packet, b: Packet, c: Packet, d: Packet)
    requires b.priority != c.priority == d.priority
    ensures Evicted([a, b, c, d]) == [a, b, d]
  {
    var q := [a, b, c, d];
    assert Victim(q, 3) == Victim(q, 2) == 2;
    assert q[..2] == [a, b] && q[3..] == [d];
  }

  // ---- Looking for an address -----------------------------------------------------

  function Find(q: Queue, x: Packet, k: nat): (r: nat)
    requires k <= |q|
    ensures k <= r <= |q|
    ensures r < |q| ==> q[r].SameAddr(x)
    ensures forall i :: k <= i < r ==> !q[i].SameAddr(x)
    decreases |q| - k
  {
    if k == |q| || q[k].SameAddr(x) then k else Find(q, x, k + 1)
  }

  /** Moving the packet at `it` forward over packets of lower priority; `prev`
      runs to the front. */
  function Bubble(q: Queue, it: nat, prev: nat): (r: Queue)
    requires it < |q| && prev <= it
    ensures |r| == |q|
    decreases prev
  {
    if prev == 0 then q
    else
      var p := prev - 1;
      if q[it].priority > q[p].priority then Bubble(q[it := q[p]][p := q[it]], p, p)
      else Bubble(q, it, p)
  }

  /** The queue after looking for `x`. The search steps once more after finding
      it, so it is the next packet whose priority is raised. */
  function Searched(q: Queue, x: Packet): Queue {
    var k := Find(q, x, 0);
    if k + 1 < |q| && q[k + 1].priority < x.priority then
      Bubble(q[k + 1 := q[k + 1].(priority := x.priority)], k + 1, k + 1)
    else q
  }

  method AlreadyInQueue(q: Queue, x: Packet) returns (found: bool, r: Queue)
    ensures found <==> Find(q, x, 0) < |q|
    ensures r == Searched(q, x)
  {
    found, r := false, q;
    var it := 0;
    while it < |q| && !found
      invariant 0 <= it <= |q|
      invariant found ==> it > 0 && Find(q, x, 0) == it - 1
      invariant !found ==> Find(q, x, 0) == Find(q, x, it)
      decreases |q| - it
    {
      found := q[it].SameAddr(x);
      it := it + 1;
    }
    if it != |q| {
      if r[it].priority < x.priority {
        r := r[it := r[it].(priority := x.priority)];
        ghost var start := r;
        ghost var at := it;
        var prev := it;
        while prev != 0
          invariant 0 <= prev <= it < |r|
          invariant Bubble(r, it, prev) == Bubble(start, at, at)
          decreases prev
        {
          prev := prev - 1;
          if r[it].priority > r[prev].priority {
            r := r[it := r[prev]][prev := r[it]];
            it := prev;
          }
        }
      }
    }
  }

  lemma {:induction false} BubblePermutes(q: Queue, it: nat, prev: nat)
    requires it < |q| && prev <= it
    ensures multiset(Bubble(q, it, prev)) == multiset(q)
    decreases prev
  {
    if prev > 0 {
      var p := prev - 1;
      if q[it].priority > q[p].priority {
        BubblePermutes(q[it := q[p]][p := q[it]], p, p);
      } else {
        BubblePermutes(q, it, p);
      }
    }
  }

  /** The header promises that a request found in the queue has its priority
      updated. It is the next packet that is raised and moved; the one that was
      found keeps its priority, so the promise is kept exactly when it already had
      that priority or more. */
  lemma PriorityUpdatedIff(q: Queue, x: Packet)
    requires NoDuplicates(q) && Find(q, x, 0) < |q|
    ensures multiset(Searched(q, x)) == multiset(Raised(q, x, Find(q, x, 0)))
    ensures var was := q[Find(q, x, 0)];
            && was in Searched(q, x)
            && ((exists p :: p in Searched(q, x) && p.SameAddr(x) && p.priority >= x.priority) <==>
                was.priority >= x.priority)
  {
    var k := Find(q, x, 0);
    var r := Searched(q, x);
    SearchedHolds(q, x);
    hide Searched, Find, Bubble;
    assert q[k] in multiset(r);
    forall p | p in r && p.SameAddr(x) ensures p == q[k] {
      assert p in multiset(r);
      var i :| 0 <= i < |q| && Raised(q, x, k)[i] == p;
      assert q[i].SameAddr(x) && i == k;
    }
  }

  /** The queue with the packet behind position `k` raised to the priority of
      `x`, before it is moved. */
  function Raised(q: Queue, x: Packet, k: nat): (r: Queue)
    ensures |r| == |q| && forall i :: 0 <= i < |q| ==> r[i].SameAddr(q[i]) && (i != k + 1 ==> r[i] == q[i])
  {
    if k + 1 < |q| && q[k + 1].priority < x.priority then q[k + 1 := q[k + 1].(priority := x.priority)] else q
  }

  /** Asking for address 1 with priority 5 raises address 2 behind it, which even
      overtakes it. */
  lemma NextRaised()
    ensures Searched([Packet(0, false, 9), Packet(1, false, 3), Packet(2, false, 2)], Packet(1, false, 5)) ==
            [Packet(0, false, 9), Packet(2, false, 5), Packet(1, false, 3)]
  {
    var a, b, c, x := Packet(0, false, 9), Packet(1, false, 3), Packet(2, false, 2), Packet(1, false, 5);
    var q := [a, b, c];
    assert Find(q, x, 0) == Find(q, x, 1) == 1;
    var d := Packet(2, false, 5);
    assert q[2 := d] == [a, b, d];
    assert [a, b, d][2 := b][1 := d] == [a, d, b];
    assert Bubble([a, b, d], 2, 2) == Bubble([a, d, b], 1, 1) == Bubble([a, d, b], 1, 0);
  }

  lemma SearchedHolds(q: Queue, x: Packet)
    requires Find(q, x, 0) < |q|
    ensures var k := Find(q, x, 0);
            && multiset(Searched(q, x)) == multiset(Raised(q, x, k))
            && Raised(q, x, k)[k] in multiset(Raised(q, x, k))
            && forall p :: p in multiset(Searched(q, x)) ==> exists i :: 0 <= i < |q| && Raised(q, x, k)[i] == p
  {
    var k := Find(q, x, 0);
    SearchedPermutes(q, x);
    hide Find, Searched, Raised;
    InMultiset(Raised(q, x, k));
  }

  lemma SearchedPermutes(q: Queue, x: Packet)
    ensures multiset(Searched(q, x)) == multiset(Raised(q, x, Find(q, x, 0)))
  {
    var k := Find(q, x, 0);
    assert Searched(q, x) ==
      if k + 1 < |q| && q[k + 1].priority < x.priority then Bubble(Raised(q, x, k), k + 1, k + 1) else Raised(q, x, k);
    hide *;
    if k + 1 < |q| && q[k + 1].priority < x.priority {
      BubblePermutes(Raised(q, x, k), k + 1, k + 1);
    }
  }

  lemma InMultiset(q: Queue)
    ensures forall p :: p in multiset(q) ==> exists i :: 0 <= i < |q| && q[i] == p
    ensures forall i :: 0 <= i < |q| ==> q[i] in multiset(q)
  {
    forall p | p in multiset(q) ensures exists i :: 0 <= i < |q| && q[i] == p {
      assert p in q;
    }
  }

  // ---- One priority for all ----------------------------------------------------------

  predicate Uniform(q: Queue, p: int) {
    forall k :: 0 <= k < |q| ==> q[k].priority == p
  }

  /** With one priority for all packets, as the stride and tagged prefetchers
      use, the list is a queue: first in, first out, and a full one loses its
      oldest packet. */
  lemma UniformIsFifo(q: Queue, x: Packet, queueSize: nat)
    requires Uniform(q, x.priority) && |q| <= queueSize && queueSize >= 2
    ensures Added(q, x, queueSize) == (if |q| == queueSize then q[1..] else q) + [x]
    ensures Uniform(Added(q, x, queueSize), x.priority)
  {
    var r := if |q| == queueSize then q[1..] else q;
    if |q| == queueSize {
      assert Victim(q, |q| - 1) == 0;
      assert Evicted(q) == r;
    }
    assert r[..|r|] == r && r[|r|..] == [];
  }

  function Enqueued(xs: seq<Packet>, queueSize: nat): Queue {
    if xs == [] then [] else Added(Enqueued(xs[..|xs| - 1], queueSize), xs[|xs| - 1], queueSize)
  }

  lemma UniformLatest(xs: seq<Packet>, p: int, n: nat)
    requires Uniform(xs, p)
    ensures Uniform(Latest(xs, n), p) && |Latest(xs, n)| <= n
  {
  }

  /** The packets in a queue that is only added to are the last ones that came. */
  lemma {:induction false} EnqueuedIsTail(xs: seq<Packet>, p: int, queueSize: nat)
    requires Uniform(xs, p) && queueSize >= 2
    ensures Enqueued(xs, queueSize) == Latest(xs, queueSize)
  {
    if xs != [] {
      var r, x := xs[..|xs| - 1], xs[|xs| - 1];
      assert x.priority == p && xs == r + [x];
      EnqueuedIsTail(r, p, queueSize);
      hide Added, Latest;
      UniformLatest(r, p, queueSize);
      UniformIsFifo(Latest(r, queueSize), x, queueSize);
      LatestSnoc(r, x, queueSize);
    }
  }
}
