/** Runs of the prefetch queue, in which every packet gets an arrival number, and
    what no run breaks. */
module PrefetchRuns {
  import opened Finite
  import opened PrefetchQueue

  /** What happens to the queue: a packet is offered, the front packet is issued,
      or a demand access squashes the packets to its address. */
  datatype Op = Offer(x: Packet) | Issue | Squash(addr: nat, secure: bool)

  /** With the filter on, an address that is queued is not queued again. */
  datatype Setup = Setup(queueSize: nat, filter: bool)

  predicate Dropped(q: Queue, x: Packet, s: Setup) {
    s.filter && Find(q, x, 0) < |q|
  }

  function Offered(q: Queue, x: Packet, s: Setup): Queue {
    if Dropped(q, x, s) then Searched(q, x) else Added(q, x, s.queueSize)
  }

  function Squashed(q: Queue, addr: nat, secure: bool): (r: Queue)
    ensures |r| <= |q|
    ensures forall p :: p in r ==> p in q && !(p.addr == addr && p.secure == secure)
  {
    if q == [] then []
    else
      var r := Squashed(q[..|q| - 1], addr, secure);
      var p := q[|q| - 1];
      if p.addr == addr && p.secure == secure then r else r + [p]
  }

  /** A packet gets the number of the operation that brings it. */
  function Apply(q: Queue, op: Op, s: Setup, now: nat): Queue {
    match op
    case Offer(x) => Offered(q, x.(born := now), s)
    case Issue => if q == [] then [] else q[1..]
    case Squash(a, b) => Squashed(q, a, b)
  }

  function Run(ops: seq<Op>, s: Setup): Queue {
    if ops == [] then [] else Apply(Run(ops[..|ops| - 1], s), ops[|ops| - 1], s, |ops| - 1)
  }

  lemma RunSnoc(ops: seq<Op>, op: Op, s: Setup)
    ensures Run(ops + [op], s) == Apply(Run(ops, s), op, s, |ops|)
  {
    assert (ops + [op])[..|ops|] == ops;
  }

  lemma RunLast(ops: seq<Op>, s: Setup)
    requires ops != []
    ensures Run(ops, s) == Apply(Run(ops[..|ops| - 1], s), ops[|ops| - 1], s, |ops| - 1)
  {
  }

  // ---- Sizes ------------------------------------------------------------------------

  lemma SearchedSize(q: Queue, x: Packet)
    ensures |Searched(q, x)| == |q|
  {
  }

  /** The queue to which a new packet is added. */
  function Before(q: Queue, queueSize: nat): (r: Queue) {
    if |q| == queueSize && q != [] then Evicted(q) else q
  }

  lemma AddedIs(q: Queue, x: Packet, queueSize: nat)
    ensures Added(q, x, queueSize) == Inserted(Before(q, queueSize), x)
  {
  }

  lemma BeforeSize(q: Queue, queueSize: nat)
    requires |q| <= queueSize && queueSize >= 2
    ensures |Before(q, queueSize)| < queueSize && |Before(q, queueSize)| <= |q|
  {
  }

  lemma InsertedSize(q: Queue, x: Packet)
    ensures |Inserted(q, x)| == |q| + 1
  {
  }

  lemma OfferSize(q: Queue, x: Packet, s: Setup)
    requires |q| <= s.queueSize && s.queueSize >= 2
    ensures |Offered(q, x, s)| <= s.queueSize
  {
    hide Searched, Added, Inserted, Before, Find;
    SearchedSize(q, x);
    AddedIs(q, x, s.queueSize);
    BeforeSize(q, s.queueSize);
    InsertedSize(Before(q, s.queueSize), x);
  }

  lemma {:induction false} RunSize(ops: seq<Op>, s: Setup)
    requires s.queueSize >= 2
    ensures |Run(ops, s)| <= s.queueSize
  {
    if ops != [] {
      var q, op := Run(ops[..|ops| - 1], s), ops[|ops| - 1];
      RunSize(ops[..|ops| - 1], s);
      RunLast(ops, s);
      hide Run, Offered;
      if op.Offer? {
        OfferSize(q, op.x.(born := |ops| - 1), s);
      }
    }
  }

  // ---- No address twice ---------------------------------------------------------------

  lemma {:induction false} SquashedKeeps(q: Queue, addr: nat, secure: bool)
    requires NoDuplicates(q)
    ensures NoDuplicates(Squashed(q, addr, secure))
  {
    if q != [] {
      var r, p := q[..|q| - 1], q[|q| - 1];
      SquashedKeeps(r, addr, secure);
      var s := Squashed(r, addr, secure);
      forall i | 0 <= i < |s| ensures !s[i].SameAddr(p) {
        assert s[i] in r;
      }
    }
  }

  lemma InsertedKeeps(q: Queue, x: Packet)
    requires NoDuplicates(q) && forall p :: p in q ==> !p.SameAddr(x)
    ensures NoDuplicates(Inserted(q, x))
  {
    var k := Place(q, x.priority);
    var r := q[..k] + [x] + q[k..];
    assert forall i :: 0 <= i < k ==> r[i] == q[i];
    assert forall i :: k < i < |r| ==> r[i] == q[i - 1];
    forall i, j | 0 <= i < j < |r| ensures !r[i].SameAddr(r[j]) {
      assert r[i] == x || r[i] in q;
      assert r[j] == x || r[j] in q;
    }
  }

  /** Evicting leaves a part of the queue, in order. */
  lemma EvictedPart(q: Queue)
    requires q != []
    ensures var v, r := Victim(q, |q| - 1), Evicted(q);
            |r| == |q| - 1 && forall i :: 0 <= i < |r| ==> r[i] == q[if i < v then i else i + 1]
  {
  }

  lemma EvictedKeeps(q: Queue)
    requires NoDuplicates(q) && q != []
    ensures NoDuplicates(Evicted(q))
    ensures forall p :: p in Evicted(q) ==> p in q
  {
    EvictedPart(q);
    hide Evicted;
  }

  lemma {:induction false} BubbleKeeps(q: Queue, it: nat, prev: nat)
    requires it < |q| && prev <= it && NoDuplicates(q)
    ensures NoDuplicates(Bubble(q, it, prev))
    decreases prev
  {
    if prev > 0 {
      var p := prev - 1;
      if q[it].priority > q[p].priority {
        var r := q[it := q[p]][p := q[it]];
        assert forall i :: 0 <= i < |r| ==> r[i] == q[if i == it then p else if i == p then it else i];
        BubbleKeeps(r, p, p);
      } else {
        BubbleKeeps(q, it, p);
      }
    }
  }

  lemma SearchedKeeps(q: Queue, x: Packet)
    requires NoDuplicates(q)
    ensures NoDuplicates(Searched(q, x))
  {
    var k := Find(q, x, 0);
    if k + 1 < |q| && q[k + 1].priority < x.priority {
      var raised := q[k + 1 := q[k + 1].(priority := x.priority)];
      assert NoDuplicates(raised);
      BubbleKeeps(raised, k + 1, k + 1);
    }
  }

  lemma OfferKeeps(q: Queue, x: Packet, s: Setup)
    requires NoDuplicates(q) && s.filter
    ensures NoDuplicates(Offered(q, x, s))
  {
    SearchedKeeps(q, x);
    AddedIs(q, x, s.queueSize);
    hide Searched, Added, Inserted, Evicted;
    if Find(q, x, 0) == |q| {
      var r := Before(q, s.queueSize);
      if |q| == s.queueSize && q != [] {
        EvictedKeeps(q);
      }
      forall p | p in r ensures !p.SameAddr(x) {
        assert p in q;
      }
      InsertedKeeps(r, x);
    }
  }

  /** In every run of offers, issues and squashes the queue stays within its size,
      and with the filter on no address is queued twice. */
  lemma {:induction false} RunKeeps(ops: seq<Op>, s: Setup)
    requires s.queueSize >= 2
    ensures |Run(ops, s)| <= s.queueSize
    ensures s.filter ==> NoDuplicates(Run(ops, s))
  {
    RunSize(ops, s);
    if ops != [] && s.filter {
      var q, op := Run(ops[..|ops| - 1], s), ops[|ops| - 1];
      RunKeeps(ops[..|ops| - 1], s);
      RunLast(ops, s);
      hide Run, Offered;
      match op {
        case Offer(x) => OfferKeeps(q, x.(born := |ops| - 1), s);
        case Issue =>
        case Squash(a, b) => SquashedKeeps(q, a, b);
      }
    }
  }

  /** The filter is what keeps addresses apart. */
  lemma FilterIff(s: Setup)
    requires s.queueSize >= 2
    ensures (forall ops :: NoDuplicates(Run(ops, s))) <==> s.filter
  {
    if s.filter {
      forall ops ensures NoDuplicates(Run(ops, s)) {
        RunKeeps(ops, s);
      }
    } else {
      var x := Packet(0, false, 0);
      var ops := [Offer(x)] + [Offer(x)];
      OfferOne(x, s);
      RunSnoc([Offer(x)], Offer(x), s);
      hide Run;
      AddBack([x], x.(born := 1), s.queueSize);
      assert !NoDuplicates([x] + [x.(born := 1)]) by {
        assert ([x] + [x.(born := 1)])[0].SameAddr(([x] + [x.(born := 1)])[1]);
      }
    }
  }

  lemma OfferOne(x: Packet, s: Setup)
    requires s.queueSize >= 2
    ensures Run([Offer(x)], s) == [x.(born := 0)]
  {
    RunSnoc([], Offer(x), s);
    assert [] + [Offer(x)] == [Offer(x)];
    AddBack([], x.(born := 0), s.queueSize);
    assert [] + [x.(born := 0)] == [x.(born := 0)];
  }

  /** A packet of no higher priority than the last goes to the back. */
  lemma AddBack(q: Queue, x: Packet, queueSize: nat)
    requires |q| < queueSize && (q == [] || x.priority <= q[|q| - 1].priority)
    ensures Added(q, x, queueSize) == q + [x]
  {
    assert q[..|q|] == q && q[|q|..] == [];
  }
}
