/** Binding ports from a connection list that names every link in both
    directions: one pass over the list makes a connection when both its ports
    are next in line, and the pass fails unless half of the list was made. */
module PortBinder {
  import opened Finite

  type Key = (string, string)

  datatype Port = Port(objectName: string, portName: string, index: nat) {
    function Key(): Key {
      (objectName, portName)
    }
  }

  datatype Conn = Conn(src: Port, dst: Port) {
    function Rev(): Conn {
      Conn(dst, src)
    }

    predicate Touches(p: Port) {
      src == p || dst == p
    }
  }

  /** Both directions of every link, no entry twice, no port linked to itself. */
  predicate LinkList(cs: seq<Conn>) {
    && (forall c :: c in cs ==> c.Rev() in cs && c.src != c.dst)
    && NoRepeats(cs)
  }

  function Bump(c: Conn, k: Key): nat {
    (if c.src.Key() == k then 1 else 0) + if c.dst.Key() == k then 1 else 0
  }

  /** How often port `k` is bound by the connections `m`. */
  function Uses(m: seq<Conn>, k: Key): nat {
    if m == [] then 0 else Uses(m[..|m| - 1], k) + Bump(m[|m| - 1], k)
  }

  /** Both ports of `c` are next in line after `m`. */
  predicate Fits(m: seq<Conn>, c: Conn) {
    Uses(m, c.src.Key()) == c.src.index && Uses(m, c.dst.Key()) == c.dst.index
  }

  /** Every binding in `m` is at the next index of both its ports, so each port
      is bound at 0, 1, 2, ... in that order. */
  predicate InOrder(m: seq<Conn>) {
    forall i :: 0 <= i < |m| ==> Fits(m[..i], m[i])
  }

  /** The connections that the pass makes. */
  function Made(scan: seq<Conn>): seq<Conn> {
    if scan == [] then []
    else
      var m, c := Made(scan[..|scan| - 1]), scan[|scan| - 1];
      if Fits(m, c) then m + [c] else m
  }

  // ---- The pass itself -----------------------------------------------------

  /** Scans the connections in the given order; `ok` is false where the source
      raises "Port bindings can't be ordered". */
  method BindPorts(scan: seq<Conn>) returns (ok: bool, made: seq<Conn>)
    requires forall c :: c in scan ==> c.Rev() in scan
    ensures made == Made(scan)
    ensures ok <==> 2 * |made| == |scan|
  {
    var bound: map<Key, nat> := map[];
    for i := 0 to |scan|
      invariant forall j :: 0 <= j < i ==> scan[j].src.Key() in bound
      invariant forall k :: k in bound ==> bound[k] == 0
    {
      bound := bound[scan[i].src.Key() := 0];
    }
    made := [];
    for i := 0 to |scan|
      invariant made == Made(scan[..i])
      invariant forall j :: 0 <= j < |scan| ==> scan[j].src.Key() in bound
      invariant forall k :: k in bound ==> bound[k] == Uses(made, k)
    {
      var c := scan[i];
      assert scan[..i + 1][..i] == scan[..i];
      assert c.dst.Key() in bound by {
        assert c.Rev() in scan;
      }
      if bound[c.src.Key()] == c.src.index && bound[c.dst.Key()] == c.dst.index {
        UsesSnoc(made, c);
        made := made + [c];
        bound := bound[c.src.Key() := bound[c.src.Key()] + 1];
        bound := bound[c.dst.Key() := bound[c.dst.Key()] + 1];
      }
    }
    assert scan[..|scan|] == scan;
    ok := |made| * 2 == |scan|;
  }

  lemma UsesSnoc(m: seq<Conn>, c: Conn)
    ensures forall k :: Uses(m + [c], k) == Uses(m, k) + Bump(c, k)
  {
    assert (m + [c])[..|m|] == m;
  }

  lemma InOrderSnoc(m: seq<Conn>, c: Conn)
    ensures InOrder(m + [c]) <==> InOrder(m) && Fits(m, c)
  {
    var n := m + [c];
    assert n[..|m|] == m && n[|m|] == c;
    assert forall i :: 0 <= i < |m| ==> n[..i] == m[..i] && n[i] == m[i];
    if InOrder(n) {
      assert Fits(n[..|m|], n[|m|]);
      forall i | 0 <= i < |m| ensures Fits(m[..i], m[i]) {
        assert Fits(n[..i], n[i]);
      }
    }
  }

  lemma {:induction false} MadeInOrder(scan: seq<Conn>)
    ensures InOrder(Made(scan))
    ensures forall c :: c in Made(scan) ==> c in scan
  {
    if scan != [] {
      var s, c := scan[..|scan| - 1], scan[|scan| - 1];
      assert scan == s + [c];
      MadeInOrder(s);
      InOrderSnoc(Made(s), c);
    }
  }

  // ---- Ports in use --------------------------------------------------------

  predicate Bound(m: seq<Conn>, p: Port) {
    exists c :: c in m && c.Touches(p)
  }

  /** In-order bindings use up the indices of a port from 0 without gaps. */
  lemma {:induction false} BoundIff(m: seq<Conn>, p: Port)
    requires InOrder(m) && forall c :: c in m ==> c.src != c.dst
    ensures Bound(m, p) <==> p.index < Uses(m, p.Key())
  {
    hide InOrder, Uses;
    if m == [] {
      UsesNone(p.Key());
    } else {
      var r, c := m[..|m| - 1], m[|m| - 1];
      assert m == r + [c];
      InOrderSnoc(r, c);
      BoundIff(r, p);
      UsesSnoc(r, c);
      BoundSnoc(r, c, p);
      assert c in m && c.src != c.dst;
    }
  }

  lemma UsesNone(k: Key)
    ensures Uses([], k) == 0
  {
  }

  lemma BoundSnoc(m: seq<Conn>, c: Conn, p: Port)
    ensures Bound(m + [c], p) <==> Bound(m, p) || c.Touches(p)
  {
    if c.Touches(p) {
      assert c in m + [c];
    }
    if Bound(m, p) {
      var d :| d in m && d.Touches(p);
      assert d in m + [c];
    }
  }

  /** No port is bound twice. */
  lemma OneUser(m: seq<Conn>, j: nat, p: Port)
    requires InOrder(m) && forall c :: c in m ==> c.src != c.dst
    requires j < |m| && m[j].Touches(p)
    ensures forall i :: 0 <= i < j ==> !m[i].Touches(p)
  {
    var r := m[..j];
    assert forall k :: 0 <= k < |r| ==> r[..k] == m[..k] && r[k] == m[k];
    forall k | 0 <= k < |r| ensures Fits(r[..k], r[k]) {
      assert Fits(m[..k], m[k]);
    }
    BoundIff(r, p);
    assert Fits(m[..j], m[j]);
    assert !Bound(r, p);
    forall i | 0 <= i < j ensures !m[i].Touches(p) {
      assert r[i] in r;
    }
  }

  lemma SameUser(m: seq<Conn>, c: Conn, d: Conn, p: Port)
    requires InOrder(m) && forall c :: c in m ==> c.src != c.dst
    requires c in m && d in m && c.Touches(p) && d.Touches(p)
    ensures c == d
  {
    var i :| 0 <= i < |m| && m[i] == c;
    var j :| 0 <= j < |m| && m[j] == d;
    OneUser(m, i, p);
    OneUser(m, j, p);
  }

  // ---- The final count forces a perfect matching --------------------------

  ghost function Reversed(cs: set<Conn>): set<Conn> {
    set c | c in cs :: c.Rev()
  }

  lemma {:induction false} ReversedSize(cs: set<Conn>)
    ensures |Reversed(cs)| == |cs|
  {
    if cs != {} {
      var c :| c in cs;
      ReversedSize(cs - {c});
      assert Reversed(cs) == Reversed(cs - {c}) + {c.Rev()};
      assert c.Rev() !in Reversed(cs - {c}) by {
        assert forall d: Conn :: d.Rev() == c.Rev() ==> d == c;
      }
    }
  }

  /** `m` picks exactly one direction of every link of `scan`. */
  predicate OneDirection(m: seq<Conn>, scan: seq<Conn>) {
    && NoRepeats(m)
    && (forall c :: c in m ==> c in scan)
    && forall c :: c in scan ==> (c in m <==> c.Rev() !in m)
  }

  predicate Candidate(m: seq<Conn>, scan: seq<Conn>) {
    InOrder(m) && forall c :: c in m ==> c in scan
  }

  lemma CandidateDistinct(m: seq<Conn>, scan: seq<Conn>)
    requires LinkList(scan) && Candidate(m, scan)
    ensures NoRepeats(m) && Elems(m) !! Reversed(Elems(m))
  {
    forall i, j | 0 <= i < j < |m| ensures m[i] != m[j] {
      OneUser(m, j, m[j].src);
    }
    forall c, d | c in m && d in m ensures d.Rev() != c {
      assert c in scan;
      if d.Touches(c.src) {
        SameUser(m, c, d, c.src);
      }
    }
  }

  lemma CandidateSize(m: seq<Conn>, scan: seq<Conn>)
    requires LinkList(scan) && Candidate(m, scan)
    ensures 2 * |m| <= |scan|
    ensures 2 * |m| == |scan| <==> Elems(m) + Reversed(Elems(m)) == Elems(scan)
  {
    CandidateDistinct(m, scan);
    ElemsSize(m);
    ElemsSize(scan);
    ReversedSize(Elems(m));
    var u := Elems(m) + Reversed(Elems(m));
    assert |u| == 2 * |m|;
    assert u <= Elems(scan);
    SubsetSize(u, Elems(scan));
  }

  /** Every port lies on one link only. */
  predicate Matching(scan: seq<Conn>) {
    forall c, d :: c in scan && d in scan && c.src == d.src ==> c == d
  }

  lemma FullCount(m: seq<Conn>, scan: seq<Conn>)
    requires LinkList(scan) && Candidate(m, scan) && 2 * |m| == |scan|
    ensures OneDirection(m, scan) && Matching(scan)
  {
    CandidateDistinct(m, scan);
    CandidateSize(m, scan);
    forall c | c in scan ensures c in m <==> c.Rev() !in m {
      assert c in Elems(scan);
      assert c.Rev() in m ==> c.Rev().Rev() in Reversed(Elems(m));
    }
    forall c, d | c in scan && d in scan && c.src == d.src ensures c == d {
      var c', d' := if c in m then c else c.Rev(), if d in m then d else d.Rev();
      SameUser(m, c', d', c.src);
    }
  }

  /** Main result: whenever binding does not fail, whatever the scan order,
      exactly one direction of each link was made, every port is bound at the
      indices 0, 1, 2, ... in that order, and every port is on one link. */
  lemma BindSound(scan: seq<Conn>)
    requires LinkList(scan) && 2 * |Made(scan)| == |scan|
    ensures OneDirection(Made(scan), scan) && InOrder(Made(scan)) && Matching(scan)
  {
    MadeInOrder(scan);
    FullCount(Made(scan), scan);
  }

  // ---- The greedy pass finds an order if the scan contains one -------------

  /** The connections at the positions `at`. */
  function Pick(scan: seq<Conn>, at: set<nat>): seq<Conn> {
    if scan == [] then []
    else Pick(scan[..|scan| - 1], at) + if |scan| - 1 in at then [scan[|scan| - 1]] else []
  }

  /** Binding at the positions `at` would work. */
  predicate Bindable(scan: seq<Conn>, at: set<nat>) {
    InOrder(Pick(scan, at)) && 2 * |Pick(scan, at)| == |scan|
  }

  lemma {:induction false} PickMembers(scan: seq<Conn>, at: set<nat>)
    ensures forall c :: c in Pick(scan, at) ==> c in scan
  {
    if scan != [] {
      PickMembers(scan[..|scan| - 1], at);
      assert scan == scan[..|scan| - 1] + [scan[|scan| - 1]];
    }
  }

  /** `c` or its reverse is among `m`. */
  predicate LinkIn(c: Conn, m: seq<Conn>) {
    c in m || c.Rev() in m
  }

  /** If the links of `a` are all in `b`, a connection that is next in line
      after `a` is next in line after `b`, or its link is already there. */
  lemma StillFits(a: seq<Conn>, b: seq<Conn>, c: Conn, scan: seq<Conn>)
    requires LinkList(scan) && Matching(scan) && c in scan
    requires Candidate(a, scan) && Candidate(b, scan)
    requires forall d :: d in a ==> LinkIn(d, b)
    requires Fits(a, c)
    ensures LinkIn(c, b) || Fits(b, c)
  {
    if !LinkIn(c, b) {
      NextInLine(a, b, c, c.src, scan);
      NextInLine(a, b, c, c.dst, scan);
    }
  }

  lemma NextInLine(a: seq<Conn>, b: seq<Conn>, c: Conn, p: Port, scan: seq<Conn>)
    requires LinkList(scan) && Matching(scan) && c in scan && c.Touches(p)
    requires Candidate(a, scan) && Candidate(b, scan)
    requires forall d :: d in a ==> LinkIn(d, b)
    requires !LinkIn(c, b) && Uses(a, p.Key()) == p.index
    ensures Uses(b, p.Key()) == p.index
  {
    if p.index > 0 {
      var q := p.(index := p.index - 1);
      BoundIff(a, q);
      var d :| d in a && d.Touches(q);
      var e := if d in b then d else d.Rev();
      assert e in b && e.Touches(q);
      BoundIff(b, q);
    }
    BoundIff(b, p);
    forall d | d in b ensures !d.Touches(p) {
      var c', d' := if c.src == p then c else c.Rev(), if d.src == p then d else d.Rev();
      assert d in scan && d'.src == p ==> d' in scan && c' == d';
    }
  }

  lemma {:induction false} GreedyAhead(scan: seq<Conn>, n: nat, at: set<nat>)
    requires n <= |scan| && LinkList(scan) && Matching(scan)
    requires InOrder(Pick(scan[..n], at))
    ensures forall c :: c in Pick(scan[..n], at) ==> LinkIn(c, Made(scan[..n]))
  {
    if n > 0 {
      var s, c := scan[..n - 1], scan[n - 1];
      assert scan[..n] == s + [c] && scan[..n][..n - 1] == s;
      var a, b := Pick(s, at), Made(s);
      assert Pick(scan[..n], at) == if n - 1 in at then a + [c] else a;
      PickMembers(s, at);
      MadeInOrder(s);
      InOrderSnoc(a, c);
      GreedyAhead(scan, n - 1, at);
      if n - 1 in at {
        assert c in scan;
        StillFits(a, b, c, scan);
      }
    }
  }

  /** The positions of the connections that the pass makes. */
  function MadeAt(scan: seq<Conn>): set<nat> {
    if scan == [] then {}
    else
      var s := scan[..|scan| - 1];
      MadeAt(s) + if Fits(Made(s), scan[|scan| - 1]) then {|s|} else {}
  }

  lemma {:induction false} MadeIsPick(scan: seq<Conn>)
    ensures forall k :: k in MadeAt(scan) ==> k < |scan|
    ensures Pick(scan, MadeAt(scan)) == Made(scan)
  {
    if scan != [] {
      var s := scan[..|scan| - 1];
      MadeIsPick(s);
      PickAgrees(s, MadeAt(s), MadeAt(scan));
    }
  }

  lemma {:induction false} PickAgrees(scan: seq<Conn>, a: set<nat>, b: set<nat>)
    requires forall k :: 0 <= k < |scan| ==> (k in a <==> k in b)
    ensures Pick(scan, a) == Pick(scan, b)
  {
    if scan != [] {
      PickAgrees(scan[..|scan| - 1], a, b);
    }
  }

  /** Binding fails only if no choice of positions in the scan would work. */
  lemma BindComplete(scan: seq<Conn>)
    requires LinkList(scan)
    ensures 2 * |Made(scan)| == |scan| <==> exists at :: Bindable(scan, at)
  {
    MadeInOrder(scan);
    MadeIsPick(scan);
    if 2 * |Made(scan)| == |scan| {
      assert Bindable(scan, MadeAt(scan));
    }
    if exists at :: Bindable(scan, at) {
      var at :| Bindable(scan, at);
      GreedyFull(scan, at);
    }
  }

  lemma GreedyFull(scan: seq<Conn>, at: set<nat>)
    requires LinkList(scan) && Bindable(scan, at)
    ensures 2 * |Made(scan)| == |scan|
  {
    var a, b := Pick(scan, at), Made(scan);
    PickMembers(scan, at);
    MadeInOrder(scan);
    FullCount(a, scan);
    assert scan[..|scan|] == scan;
    GreedyAhead(scan, |scan|, at);
    forall c | c in Elems(scan) ensures c in Elems(b) + Reversed(Elems(b)) {
      assert LinkIn(if c in a then c else c.Rev(), b);
      assert c.Rev() in b ==> c.Rev().Rev() in Reversed(Elems(b));
    }
    CandidateDistinct(b, scan);
    CandidateSize(b, scan);
    assert forall c :: c in Reversed(Elems(b)) ==> c in scan;
    assert Elems(b) + Reversed(Elems(b)) == Elems(scan);
  }

  /** The source expects a sorted scan to bind every list. Two links between
      the same two ports that cross cannot be bound in any order. */
  lemma CrossingFails(scan: seq<Conn>, c: Conn, d: Conn)
    requires LinkList(scan) && c in scan && d in scan
    requires c.src.Key() == d.src.Key() && c.dst.Key() == d.dst.Key()
    requires c.src.index < d.src.index && c.dst.index > d.dst.index
    ensures 2 * |Made(scan)| != |scan|
  {
    if 2 * |Made(scan)| == |scan| {
      BindSound(scan);
      var m := Made(scan);
      var c', d' := if c in m then c else c.Rev(), if d in m then d else d.Rev();
      var i :| 0 <= i < |m| && m[i] == c';
      var j :| 0 <= j < |m| && m[j] == d';
      BindsEarlier(m, i, j, c.src, d.src);
      BindsEarlier(m, j, i, d.dst, c.dst);
    }
  }

  lemma BindsEarlier(m: seq<Conn>, i: nat, j: nat, p: Port, q: Port)
    requires InOrder(m) && i < |m| && j < |m| && m[i].Touches(p) && m[j].Touches(q)
    requires p.Key() == q.Key() && p.index < q.index
    ensures i < j
  {
    assert Fits(m[..i], m[i]) && Fits(m[..j], m[j]);
    if j <= i {
      UsesGrow(m, j, i, p.Key());
    }
  }

  lemma {:induction false} UsesGrow(m: seq<Conn>, i: nat, j: nat, k: Key)
    requires i <= j <= |m|
    ensures Uses(m[..i], k) <= Uses(m[..j], k)
  {
    if i < j {
      UsesGrow(m, i, j - 1, k);
      assert m[..j][..j - 1] == m[..j - 1];
    }
  }
}
