/** The print queue of the viewer: instructions arrive out of order, the queue
    is sorted and drained to `lo` whenever it grows past `hi`, and drained
    completely at the end. */
module PipeBuffer {
  import opened PipeOrder

  const MAX_THRESHOLD: nat := 2000
  const MIN_THRESHOLD: nat := 1000

  /** `popped` is everything taken from the front of the queue so far. */
  datatype Buffer = Buffer(queue: seq<Inst>, popped: seq<Inst>)

  function Drain(b: Buffer, lower: nat): Buffer {
    var s := StableSort(b.queue);
    var n := if |s| > lower then |s| - lower else 0;
    Buffer(s[n..], b.popped + s[..n])
  }

  function Push(b: Buffer, x: Inst, hi: nat, lo: nat): Buffer {
    var c := Buffer(b.queue + [x], b.popped);
    if |c.queue| > hi then Drain(c, lo) else c
  }

  function Run(arrivals: seq<Inst>, hi: nat, lo: nat): Buffer {
    if arrivals == [] then Buffer([], [])
    else Push(Run(Init(arrivals), hi, lo), Last(arrivals), hi, lo)
  }

  lemma RunSnoc(a: seq<Inst>, x: Inst, hi: nat, lo: nat)
    ensures Run(a + [x], hi, lo) == Push(Run(a, hi, lo), x, hi, lo)
  {
    assert Init(a + [x]) == a && Last(a + [x]) == x;
  }

  /** The order in which the whole trace leaves the queue. */
  function Output(arrivals: seq<Inst>, hi: nat, lo: nat): seq<Inst> {
    Drain(Run(arrivals, hi, lo), 0).popped
  }

  // ---- When the queue is drained -----------------------------------------

  /** Queue length after `n` arrivals. */
  function Waiting(n: nat, hi: nat, lo: nat): nat {
    if n == 0 then 0
    else if Waiting(n - 1, hi, lo) + 1 > hi then lo
    else Waiting(n - 1, hi, lo) + 1
  }

  /** How many instructions had arrived at the last drain among the first `n`
      arrivals, or 0 before the first drain. */
  function LastDrain(n: nat, hi: nat, lo: nat): nat
    ensures LastDrain(n, hi, lo) <= n
  {
    if n == 0 then 0
    else if Waiting(n - 1, hi, lo) + 1 > hi then n
    else LastDrain(n - 1, hi, lo)
  }

  /** Of the instructions that arrived before the last drain, at most `lo`
      belong behind arrival `j`. */
  predicate InTime(arrivals: seq<Inst>, j: nat, hi: nat, lo: nat)
    requires j < |arrivals|
  {
    Larger(arrivals[..LastDrain(j, hi, lo)], arrivals[j].sn) <= lo
  }

  predicate AllInTime(arrivals: seq<Inst>, hi: nat, lo: nat) {
    forall j :: 0 <= j < |arrivals| ==> InTime(arrivals, j, hi, lo)
  }

  /** The assumption the viewer documents: nothing is out of order by more
      than `lo` places. */
  predicate Displaced(arrivals: seq<Inst>, lo: nat) {
    forall j :: 0 <= j < |arrivals| ==> Larger(arrivals[..j], arrivals[j].sn) <= lo
  }

  // ---- Nothing is lost or duplicated -------------------------------------

  /** Everything that has arrived: popped or still waiting. */
  ghost function Held(b: Buffer): multiset<Inst> {
    multiset(b.popped) + multiset(b.queue)
  }

  lemma DrainConserves(b: Buffer, lower: nat)
    ensures Held(Drain(b, lower)) == Held(b)
    ensures b.popped <= Drain(b, lower).popped
  {
    var s := StableSort(b.queue);
    var n := if |s| > lower then |s| - lower else 0;
    assert multiset(s) == multiset(b.queue) by { SortSorts(b.queue); }
    assert s == s[..n] + s[n..];
    assert multiset(s) == multiset(s[..n]) + multiset(s[n..]);
  }

  lemma PushConserves(b: Buffer, x: Inst, hi: nat, lo: nat)
    ensures Held(Push(b, x, hi, lo)) == Held(b) + multiset{x}
    ensures b.popped <= Push(b, x, hi, lo).popped
  {
    var c := Buffer(b.queue + [x], b.popped);
    assert Held(c) == Held(b) + multiset{x};
    DrainConserves(c, lo);
  }

  lemma {:induction false} RunConserves(a: seq<Inst>, hi: nat, lo: nat)
    ensures Held(Run(a, hi, lo)) == multiset(a)
  {
    if a != [] {
      RunConserves(Init(a), hi, lo);
      PushConserves(Run(Init(a), hi, lo), Last(a), hi, lo);
      assert a == Init(a) + [Last(a)];
    }
  }

  /** Every arrival leaves the queue exactly once, whatever the order. */
  lemma OutputConserves(a: seq<Inst>, hi: nat, lo: nat)
    ensures multiset(Output(a, hi, lo)) == multiset(a)
  {
    RunConserves(a, hi, lo);
    DrainConserves(Run(a, hi, lo), 0);
    assert Drain(Run(a, hi, lo), 0).queue == [];
  }

  // ---- The streaming order is the sorted order ---------------------------

  /** What the queue has let go is the front of the sorted prefix that had
      arrived at the last drain. */
  ghost predicate InStep(a: seq<Inst>, hi: nat, lo: nat) {
    var b, n := Run(a, hi, lo), LastDrain(|a|, hi, lo);
    && StableSort(a) == b.popped + StableSort(b.queue)
    && |b.queue| == Waiting(|a|, hi, lo)
    && (n == 0 ==> b.popped == [])
    && (n > 0 ==> lo < n && b.popped == StableSort(a[..n])[..n - lo])
  }

  lemma {:induction false} RunInStep(a: seq<Inst>, hi: nat, lo: nat)
    requires lo <= hi
    requires AllInTime(a, hi, lo)
    ensures InStep(a, hi, lo)
  {
    if a != [] {
      var r, x := Init(a), Last(a);
      assert a == r + [x];
      InitInTime(a, hi, lo);
      RunInStep(r, hi, lo);
      PoppedBefore(a, hi, lo);
      PushInStep(r, x, hi, lo);
    }
  }

  lemma InitInTime(a: seq<Inst>, hi: nat, lo: nat)
    requires a != [] && AllInTime(a, hi, lo)
    ensures AllInTime(Init(a), hi, lo)
  {
    var r := Init(a);
    forall j | 0 <= j < |r| ensures InTime(r, j, hi, lo) {
      assert InTime(a, j, hi, lo);
      assert r[..LastDrain(j, hi, lo)] == a[..LastDrain(j, hi, lo)];
    }
  }

  /** An arrival in time is not smaller than anything already popped. */
  lemma PoppedBefore(a: seq<Inst>, hi: nat, lo: nat)
    requires a != [] && InStep(Init(a), hi, lo)
    ensures InTime(a, |a| - 1, hi, lo) <==>
            var e := Run(Init(a), hi, lo).popped; e == [] || Last(e).sn <= Last(a).sn
    ensures Sorted(Run(Init(a), hi, lo).popped)
  {
    hide StableSort, Insert, Run;
    var r, x := Init(a), Last(a);
    var n, e := LastDrain(|r|, hi, lo), Run(r, hi, lo).popped;
    assert a[..n] == r[..n];
    var s := StableSort(r[..n]);
    SortSorts(r[..n]);
    LargerOfSort(r[..n], x.sn);
    if n > 0 {
      LargerInSorted(s, lo, x.sn);
      assert Last(e) == s[n - 1 - lo];
    }
  }

  /** Appending an arrival that is in time keeps the popped part in front. */
  lemma AppendInStep(r: seq<Inst>, x: Inst, b: Buffer)
    requires StableSort(r) == b.popped + StableSort(b.queue)
    requires Sorted(b.popped) && (b.popped == [] || Last(b.popped).sn <= x.sn)
    ensures StableSort(r + [x]) == b.popped + StableSort(b.queue + [x])
  {
    hide StableSort, Insert;
    SortSnoc(r, x);
    SortSnoc(b.queue, x);
    InsertBehind(b.popped, StableSort(b.queue), x);
  }

  lemma DrainInStep(a: seq<Inst>, c: Buffer, lo: nat)
    requires StableSort(a) == c.popped + StableSort(c.queue)
    requires lo < |c.queue|
    ensures var d := Drain(c, lo);
            && StableSort(a) == d.popped + StableSort(d.queue)
            && |d.queue| == lo
            && d.popped == StableSort(a)[..|a| - lo]
  {
    hide StableSort;
    var s := StableSort(c.queue);
    var n := |s| - lo;
    SortSorts(c.queue);
    SortOfSorted(s[n..]);
    assert s == s[..n] + s[n..];
    assert c.popped + s == (c.popped + s[..n]) + s[n..];
  }

  lemma CountSnoc(n: nat, hi: nat, lo: nat)
    ensures Waiting(n + 1, hi, lo) == if Waiting(n, hi, lo) + 1 > hi then lo else Waiting(n, hi, lo) + 1
    ensures LastDrain(n + 1, hi, lo) == if Waiting(n, hi, lo) + 1 > hi then n + 1 else LastDrain(n, hi, lo)
  {
  }

  lemma PushInStep(r: seq<Inst>, x: Inst, hi: nat, lo: nat)
    requires lo <= hi
    requires InStep(r, hi, lo)
    requires var e := Run(r, hi, lo).popped; Sorted(e) && (e == [] || Last(e).sn <= x.sn)
    ensures InStep(r + [x], hi, lo)
  {
    hide StableSort, Drain, Run, Waiting, LastDrain;
    var a := r + [x];
    RunSnoc(r, x, hi, lo);
    CountSnoc(|r|, hi, lo);
    var b := Run(r, hi, lo);
    AppendInStep(r, x, b);
    var c := Buffer(b.queue + [x], b.popped);
    if |c.queue| > hi {
      DrainInStep(a, c, lo);
      assert a[..|a|] == a;
    } else {
      assert a[..LastDrain(|a|, hi, lo)] == r[..LastDrain(|a|, hi, lo)];
    }
  }

  lemma OutputOfSteps(a: seq<Inst>, hi: nat, lo: nat)
    requires InStep(a, hi, lo)
    ensures Output(a, hi, lo) == StableSort(a)
  {
    var b := Run(a, hi, lo);
    SortSorts(b.queue);
    var s := StableSort(b.queue);
    assert s[..|s|] == s;
  }

  lemma {:induction false} PoppedGrows(a: seq<Inst>, j: nat, hi: nat, lo: nat)
    requires j <= |a|
    ensures Run(a[..j], hi, lo).popped <= Run(a, hi, lo).popped
  {
    if j == |a| {
      assert a[..j] == a;
    } else {
      PoppedGrows(Init(a), j, hi, lo);
      assert Init(a)[..j] == a[..j];
      PushConserves(Run(Init(a), hi, lo), Last(a), hi, lo);
    }
  }

  /** An arrival that is too late for what was popped before it spoils the
      order for good. */
  lemma LateArrivalShows(a: seq<Inst>, j: nat, hi: nat, lo: nat)
    requires j < |a|
    requires var e := Run(a[..j], hi, lo).popped; e != [] && Last(e).sn > a[j].sn
    ensures !Sorted(Output(a, hi, lo))
  {
    var e, o := Run(a[..j], hi, lo).popped, Output(a, hi, lo);
    PoppedGrows(a, j, hi, lo);
    DrainConserves(Run(a, hi, lo), 0);
    assert e <= o;
    hide Run, Drain, Output;
    var rest := o[|e|..];
    assert o == e + rest;
    RunConserves(a[..j], hi, lo);
    OutputConserves(a, hi, lo);
    RestHolds(a, j, e, rest);
    var k :| 0 <= k < |rest| && rest[k] == a[j];
    assert o[|e| + k] == a[j] && o[|e| - 1] == Last(e);
  }

  lemma RestHolds(a: seq<Inst>, j: nat, e: seq<Inst>, rest: seq<Inst>)
    requires j < |a|
    requires multiset(e) <= multiset(a[..j])
    requires multiset(e + rest) == multiset(a)
    ensures a[j] in rest
  {
    assert a == a[..j] + a[j..];
    assert multiset(a) == multiset(a[..j]) + multiset(a[j..]);
    assert multiset(e + rest) == multiset(e) + multiset(rest);
    assert a[j] == a[j..][0];
    assert multiset(a[j..])[a[j]] > 0;
    assert multiset(e)[a[j]] <= multiset(a[..j])[a[j]];
    assert (multiset(e) + multiset(rest))[a[j]] == (multiset(a[..j]) + multiset(a[j..]))[a[j]];
    assert multiset(rest)[a[j]] > 0;
  }

  lemma {:induction false} SortedMeansInTime(a: seq<Inst>, n: nat, hi: nat, lo: nat)
    requires lo <= hi && n <= |a|
    requires Sorted(Output(a, hi, lo))
    ensures AllInTime(a[..n], hi, lo)
  {
    hide StableSort, Run, Output, InStep;
    if n > 0 {
      SortedMeansInTime(a, n - 1, hi, lo);
      var r, b := a[..n - 1], a[..n];
      RunInStep(r, hi, lo);
      assert Init(b) == r && Last(b) == a[n - 1];
      PoppedBefore(b, hi, lo);
      var e := Run(r, hi, lo).popped;
      if e != [] && Last(e).sn > a[n - 1].sn {
        LateArrivalShows(a, n - 1, hi, lo);
      }
      forall j | 0 <= j < |b| ensures InTime(b, j, hi, lo) {
        if j < n - 1 {
          assert InTime(r, j, hi, lo);
          assert r[..LastDrain(j, hi, lo)] == b[..LastDrain(j, hi, lo)];
        }
      }
    }
  }

  /** Main result on the queue: the trace comes out in stable sorted order
      exactly when no arrival has more than `lo` larger instructions among
      those that had arrived at the last drain before it. */
  lemma OutputSortedIff(a: seq<Inst>, hi: nat, lo: nat)
    requires lo <= hi
    ensures AllInTime(a, hi, lo) <==> Output(a, hi, lo) == StableSort(a)
    ensures AllInTime(a, hi, lo) <==> Sorted(Output(a, hi, lo))
  {
    SortSorts(a);
    if AllInTime(a, hi, lo) {
      RunInStep(a, hi, lo);
      OutputOfSteps(a, hi, lo);
    }
    if Sorted(Output(a, hi, lo)) {
      SortedMeansInTime(a, |a|, hi, lo);
      assert a[..|a|] == a;
    }
  }

  /** The documented assumption is enough. */
  lemma DisplacedInTime(a: seq<Inst>, hi: nat, lo: nat)
    requires Displaced(a, lo)
    ensures AllInTime(a, hi, lo)
  {
    hide LastDrain, Larger;
    forall j | 0 <= j < |a| ensures InTime(a, j, hi, lo) {
      var n := LastDrain(j, hi, lo);
      assert a[..j] == a[..n] + a[n..j];
      LargerMonotone(a[..n], a[n..j], a[j].sn);
    }
  }

  lemma StreamingEqualsSorting(a: seq<Inst>, hi: nat, lo: nat)
    requires lo <= hi
    requires Displaced(a, lo)
    ensures Output(a, hi, lo) == StableSort(a)
  {
    DisplacedInTime(a, hi, lo);
    OutputSortedIff(a, hi, lo);
  }
}
