/** Which connection lists can be bound at all, in some order of the scan, and why
    sorting does not find that order. */
module PortOrder {
  import opened Finite
  import opened PortBinder

  /** Some order of the list binds it. */
  ghost predicate Orderable(cs: seq<Conn>) {
    exists scan :: multiset(scan) == multiset(cs) && 2 * |Made(scan)| == |scan|
  }

  /** `q` has to be bound before `p`: same port, smaller index. */
  predicate Behind(p: Port, q: Port) {
    p.Key() == q.Key() && q.index < p.index
  }

  /** The link of `c` has to wait for the link of `d`. */
  predicate WaitsFor(c: Conn, d: Conn) {
    Behind(c.src, d.src) || Behind(c.src, d.dst) || Behind(c.dst, d.src) || Behind(c.dst, d.dst)
  }

  function Waits(): (Conn, Conn) -> bool {
    (c, d) => WaitsFor(c, d)
  }

  predicate OnLink(cs: seq<Conn>, p: Port) {
    exists c :: c in cs && c.Touches(p)
  }

  /** The indices of every port run from 0 without gaps. */
  predicate Contiguous(cs: seq<Conn>) {
    forall c :: c in cs && c.src.index > 0 ==> OnLink(cs, c.src.(index := c.src.index - 1))
  }

  // ---- Lists that are bound meet the condition ---------------------------------------

  lemma SameList(scan: seq<Conn>, cs: seq<Conn>)
    requires multiset(scan) == multiset(cs) && LinkList(cs)
    ensures LinkList(scan) && Elems(scan) == Elems(cs)
  {
    forall c ensures c in scan <==> c in cs {
      assert c in multiset(scan) <==> c in multiset(cs);
    }
    forall i, j | 0 <= i < j < |scan| ensures scan[i] != scan[j] {
      if scan[i] == scan[j] {
        TwiceIn(scan, i, j);
        OnceIn(cs, scan[i]);
      }
    }
  }

  lemma TwiceIn(s: seq<Conn>, i: nat, j: nat)
    requires i < j < |s| && s[i] == s[j]
    ensures multiset(s)[s[i]] >= 2
  {
    assert s == s[..j] + s[j..];
    assert s[i] in s[..j] && s[j..][0] == s[j];
  }

  lemma {:induction false} OnceIn(s: seq<Conn>, c: Conn)
    requires NoRepeats(s)
    ensures multiset(s)[c] <= 1
  {
    if s != [] {
      var r, x := s[..|s| - 1], s[|s| - 1];
      assert s == r + [x];
      OnceIn(r, c);
      if c == x {
        assert c !in r;
      }
    }
  }

  lemma BoundIsContiguous(scan: seq<Conn>)
    requires LinkList(scan) && 2 * |Made(scan)| == |scan|
    ensures Contiguous(scan)
  {
    var m := Made(scan);
    BindSound(scan);
    MadeInOrder(scan);
    LinksIn(m, scan);
    hide Made, InOrder, OnLink, Matching, OneDirection, LinkList, LinkIn;
    forall c | c in scan && c.src.index > 0 ensures OnLink(scan, c.src.(index := c.src.index - 1)) {
      OneLower(m, scan, c, c.src);
    }
  }

  lemma LinksIn(m: seq<Conn>, scan: seq<Conn>)
    requires OneDirection(m, scan)
    ensures forall c :: c in scan ==> LinkIn(c, m)
    ensures forall c :: c in m ==> c in scan
  {
  }

  lemma OneLower(m: seq<Conn>, scan: seq<Conn>, c: Conn, p: Port)
    requires InOrder(m) && LinkList(scan) && forall d :: d in m ==> d in scan
    requires LinkIn(c, m) && c.Touches(p) && p.index > 0
    ensures OnLink(scan, p.(index := p.index - 1))
  {
    var q := p.(index := p.index - 1);
    assert Bound(m, p) by {
      assert (if c in m then c else c.Rev()).Touches(p);
    }
    assert forall d :: d in m ==> d.src != d.dst;
    hide InOrder, LinkList;
    BoundIff(m, p);
    BoundIff(m, q);
    var d :| d in m && d.Touches(q);
    assert d in scan;
  }

  /** Where the link of `c` stands in `m`. */
  ghost function Position(m: seq<Conn>, c: Conn): nat
    requires LinkIn(c, m)
    ensures Position(m, c) < |m| && (m[Position(m, c)] == c || m[Position(m, c)] == c.Rev())
  {
    var i :| 0 <= i < |m| && (m[i] == c || m[i] == c.Rev());
    i
  }

  lemma TouchedAt(m: seq<Conn>, c: Conn, p: Port)
    requires LinkIn(c, m) && c.Touches(p)
    ensures m[Position(m, c)].Touches(p)
  {
  }

  lemma EarlierDoesNotWait(m: seq<Conn>, c: Conn, d: Conn)
    requires InOrder(m) && LinkIn(c, m) && LinkIn(d, m) && Position(m, c) <= Position(m, d)
    ensures !WaitsFor(c, d)
  {
    forall p, q | c.Touches(p) && d.Touches(q) ensures !Behind(p, q) {
      TouchedAt(m, c, p);
      TouchedAt(m, d, q);
      if Behind(p, q) {
        BindsEarlier(m, Position(m, d), Position(m, c), q, p);
      }
    }
  }

  /** The first link of a list to be bound. */
  lemma {:induction false} Earliest(m: seq<Conn>, c: seq<Conn>, n: nat) returns (i: nat)
    requires 0 < n <= |c| && forall k :: 0 <= k < |c| ==> LinkIn(c[k], m)
    ensures i < n && forall k :: 0 <= k < n ==> Position(m, c[i]) <= Position(m, c[k])
  {
    i := 0;
    if n > 1 {
      i := Earliest(m, c, n - 1);
      if Position(m, c[n - 1]) < Position(m, c[i]) {
        i := n - 1;
      }
    }
  }

  lemma NoCycleInOrder(m: seq<Conn>, c: seq<Conn>, s: set<Conn>)
    requires InOrder(m) && forall d :: d in s ==> LinkIn(d, m)
    ensures !IsCycle(Waits(), c, s)
  {
    if c != [] && forall i :: 0 <= i < |c| ==> c[i] in s {
      var i := Earliest(m, c, |c|);
      EarlierDoesNotWait(m, c[i], Next(c, i));
      assert !Waits()(c[i], Next(c, i));
    }
  }

  lemma BoundIsAcyclic(scan: seq<Conn>)
    requires LinkList(scan) && 2 * |Made(scan)| == |scan|
    ensures !Cyclic(Waits(), Elems(scan))
  {
    var m := Made(scan);
    BindSound(scan);
    hide Made, InOrder, IsCycle;
    forall d | d in Elems(scan) ensures LinkIn(d, m) {
    }
    forall c ensures !IsCycle(Waits(), c, Elems(scan)) {
      NoCycleInOrder(m, c, Elems(scan));
    }
  }

  // ---- The condition is enough --------------------------------------------------------

  /** The lists that can be bound in some order. */
  ghost predicate Bindings(cs: seq<Conn>) {
    Matching(cs) && Contiguous(cs) && !Cyclic(Waits(), Elems(cs))
  }

  ghost function Left(cs: seq<Conn>, m: seq<Conn>): set<Conn> {
    set c | c in cs && !LinkIn(c, m)
  }

  lemma {:induction false} AllLower(cs: seq<Conn>, p: Port, i: nat)
    requires LinkList(cs) && Contiguous(cs) && OnLink(cs, p) && i <= p.index
    ensures OnLink(cs, p.(index := i))
    decreases p.index
  {
    if i < p.index {
      var c :| c in cs && c.Touches(p);
      var d := if c.src == p then c else c.Rev();
      assert d in cs && d.src == p;
      AllLower(cs, p.(index := p.index - 1), i);
    }
  }

  lemma SameLink(cs: seq<Conn>, c: Conn, d: Conn, p: Port)
    requires LinkList(cs) && Matching(cs) && c in cs && d in cs && c.Touches(p) && d.Touches(p)
    ensures d == c || d == c.Rev()
  {
    var c', d' := if c.src == p then c else c.Rev(), if d.src == p then d else d.Rev();
    assert c' in cs && d' in cs && c'.src == d'.src;
  }

  /** A link that is left and has a port that is not next in line waits for
      another link that is left. */
  lemma WaitsForLeft(cs: seq<Conn>, m: seq<Conn>, c: Conn, p: Port)
    requires LinkList(cs) && Matching(cs) && Contiguous(cs) && Candidate(m, cs)
    requires c in Left(cs, m) && c.Touches(p) && Uses(m, p.Key()) != p.index
    ensures StepsInto(Waits(), c, Left(cs, m))
  {
    hide InOrder, Uses, Contiguous, Matching;
    forall d | d in m ensures !d.Touches(p) {
      if d.Touches(p) {
        SameLink(cs, c, d, p);
      }
    }
    BoundIff(m, p);
    var q := p.(index := Uses(m, p.Key()));
    BoundIff(m, q);
    assert OnLink(cs, p);
    AllLower(cs, p, q.index);
    var d :| d in cs && d.Touches(q);
    assert !LinkIn(d, m) by {
      assert d in m ==> Bound(m, q);
      assert d.Rev() in m ==> Bound(m, q);
    }
    assert WaitsFor(c, d) && Waits()(c, d);
  }

  lemma SomeFits(cs: seq<Conn>, m: seq<Conn>) returns (c: Conn)
    requires LinkList(cs) && Bindings(cs) && Candidate(m, cs) && Left(cs, m) != {}
    ensures c in Left(cs, m) && Fits(m, c)
  {
    var left := Left(cs, m);
    if forall d :: d in left ==> !Fits(m, d) {
      forall d | d in left ensures StepsInto(Waits(), d, left) {
        WaitsForLeft(cs, m, d, if Uses(m, d.src.Key()) != d.src.index then d.src else d.dst);
      }
      TrapHasCycle(Waits(), left);
      CycleWithin(Waits(), left, Elems(cs));
    }
    c :| c in left && Fits(m, c);
  }

  lemma {:induction false} Complete(cs: seq<Conn>, m: seq<Conn>) returns (n: seq<Conn>)
    requires LinkList(cs) && Bindings(cs) && Candidate(m, cs)
    ensures Candidate(n, cs) && Left(cs, n) == {}
    decreases |Left(cs, m)|
  {
    if Left(cs, m) == {} {
      n := m;
    } else {
      var c := SomeFits(cs, m);
      hide Bindings, InOrder, Fits, LinkList;
      InOrderSnoc(m, c);
      assert Left(cs, m + [c]) <= Left(cs, m) - {c};
      SubsetSize(Left(cs, m + [c]), Left(cs, m) - {c});
      n := Complete(cs, m + [c]);
    }
  }

  lemma {:induction false} MadeOfInOrder(m: seq<Conn>)
    requires InOrder(m)
    ensures Made(m) == m
  {
    if m != [] {
      var r, c := m[..|m| - 1], m[|m| - 1];
      assert m == r + [c];
      InOrderSnoc(r, c);
      MadeOfInOrder(r);
    }
  }

  lemma {:induction false} MadeGrows(a: seq<Conn>, b: seq<Conn>)
    ensures |Made(a + b)| >= |Made(a)|
  {
    if b == [] {
      assert a + b == a;
    } else {
      MadeGrows(a, b[..|b| - 1]);
      assert (a + b)[..|a + b| - 1] == a + b[..|b| - 1];
    }
  }

  function Reverses(m: seq<Conn>): (r: seq<Conn>)
    ensures |r| == |m| && forall i :: 0 <= i < |m| ==> r[i] == m[i].Rev()
  {
    seq(|m|, i requires 0 <= i < |m| => m[i].Rev())
  }

  lemma SameElems(a: seq<Conn>, b: seq<Conn>)
    requires NoRepeats(a) && NoRepeats(b) && Elems(a) == Elems(b)
    ensures multiset(a) == multiset(b)
  {
    forall c ensures multiset(a)[c] == multiset(b)[c] {
      OnceIn(a, c);
      OnceIn(b, c);
      assert c in a <==> c in Elems(a);
      assert c in b <==> c in Elems(b);
      assert c in a <==> c in multiset(a);
      assert c in b <==> c in multiset(b);
    }
  }

  lemma BothDirections(cs: seq<Conn>, n: seq<Conn>)
    requires LinkList(cs) && Candidate(n, cs) && Left(cs, n) == {}
    ensures multiset(n + Reverses(n)) == multiset(cs)
  {
    CandidateDistinct(n, cs);
    var r := Reverses(n);
    var scan := n + r;
    forall c | c in r ensures c.Rev() in n && c in cs {
    }
    forall c | c in n ensures c.Rev() in r {
      var i :| 0 <= i < |n| && n[i] == c;
      assert r[i] == c.Rev();
    }
    hide InOrder;
    forall c ensures c in scan <==> c in cs {
      if c in cs {
        assert c !in Left(cs, n) && LinkIn(c, n);
        assert c.Rev() in n ==> c.Rev().Rev() in r;
      }
    }
    assert Elems(scan) == Elems(cs);
    forall i, j | 0 <= i < j < |scan| ensures scan[i] != scan[j] {
      Apart(n, i, j);
    }
    SameElems(scan, cs);
  }

  lemma Apart(n: seq<Conn>, i: nat, j: nat)
    requires NoRepeats(n) && Elems(n) !! Reversed(Elems(n)) && i < j < 2 * |n|
    ensures (n + Reverses(n))[i] != (n + Reverses(n))[j]
  {
    if i < |n| <= j {
      assert n[i] in Elems(n) && n[j - |n|] in Elems(n);
      assert n[j - |n|].Rev() in Reversed(Elems(n));
    } else if |n| <= i {
      assert n[i - |n|] != n[j - |n|];
      assert n[i - |n|].Rev().Rev() != n[j - |n|].Rev().Rev();
    }
  }

  lemma BindingsOrder(cs: seq<Conn>)
    requires LinkList(cs) && Bindings(cs)
    ensures Orderable(cs)
  {
    assert Candidate([], cs);
    var n := Complete(cs, []);
    var scan := n + Reverses(n);
    BothDirections(cs, n);
    SameList(scan, cs);
    MadeOfInOrder(n);
    MadeGrows(n, Reverses(n));
    MadeInOrder(scan);
    CandidateSize(Made(scan), scan);
  }

  /** Main result on orders: a list can be bound in some order of the scan exactly
      when every port is on one link, its indices run from 0 without gaps, and no
      links wait for each other in a cycle. */
  lemma OrderableIff(cs: seq<Conn>)
    requires LinkList(cs)
    ensures Orderable(cs) <==> Bindings(cs)
  {
    if Bindings(cs) {
      BindingsOrder(cs);
    }
    if Orderable(cs) {
      var scan :| multiset(scan) == multiset(cs) && 2 * |Made(scan)| == |scan|;
      SameList(scan, cs);
      BindSound(scan);
      BoundIsContiguous(scan);
      BoundIsAcyclic(scan);
      hide Made, LinkList;
      SameBindings(scan, cs);
    }
  }

  lemma SameBindings(a: seq<Conn>, b: seq<Conn>)
    requires Elems(a) == Elems(b) && Bindings(a)
    ensures Bindings(b)
  {
    hide Cyclic;
    assert forall c :: c in a <==> c in Elems(a);
    assert forall c :: c in b <==> c in Elems(b);
    forall c | c in b && c.src.index > 0 ensures OnLink(b, c.src.(index := c.src.index - 1)) {
      assert OnLink(a, c.src.(index := c.src.index - 1));
      var d :| d in a && d.Touches(c.src.(index := c.src.index - 1));
      assert d in b;
    }
  }

  // ---- The sorted order ---------------------------------------------------------------

  predicate TextLess(a: string, b: string) {
    b != "" && (a == "" || a[0] < b[0] || (a[0] == b[0] && TextLess(a[1..], b[1..])))
  }

  /** By object, port and index. */
  predicate PortLess(p: Port, q: Port) {
    || TextLess(p.objectName, q.objectName)
    || (p.objectName == q.objectName &&
        (TextLess(p.portName, q.portName) || (p.portName == q.portName && p.index < q.index)))
  }

  predicate ConnLess(c: Conn, d: Conn) {
    PortLess(c.src, d.src) || (c.src == d.src && PortLess(c.dst, d.dst))
  }

  predicate Sorted(scan: seq<Conn>) {
    forall i :: 0 <= i < |scan| - 1 ==> ConnLess(scan[i], scan[i + 1])
  }

  const AM := Port("a", "m", 0)
  const BS0 := Port("b", "s", 0)
  const BS1 := Port("b", "s", 1)
  const CM0 := Port("c", "m", 0)
  const CM1 := Port("c", "m", 1)
  const DP := Port("d", "p", 0)

  /** Three links, both ways, in sorted order. */
  const CHAIN := [Conn(AM, BS1), Conn(BS0, CM1), Conn(BS1, AM), Conn(CM0, DP), Conn(CM1, BS0), Conn(DP, CM0)]

  /** The same with the last link first. */
  const REORDERED := [Conn(CM0, DP), Conn(CM1, BS0), Conn(AM, BS1), Conn(DP, CM0), Conn(BS0, CM1), Conn(BS1, AM)]

  lemma MadeSnoc(scan: seq<Conn>, c: Conn)
    ensures Made(scan + [c]) == if Fits(Made(scan), c) then Made(scan) + [c] else Made(scan)
  {
    assert (scan + [c])[..|scan|] == scan;
  }

  /** A sorted list that can be bound in another order: sorting makes two of its
      three links. */
  lemma SortedFails()
    ensures Sorted(CHAIN) && LinkList(CHAIN) && multiset(CHAIN) == multiset(REORDERED)
    ensures |Made(CHAIN)| == 2 && |Made(REORDERED)| == 3
  {
    ChainSorted();
    ChainLinks();
    ChainReordered();
    ChainMade();
    ReorderedMade();
  }

  lemma LetterLess(a: char, b: char)
    ensures TextLess([a], [b]) <==> a < b
  {
    assert [a][1..] == [] && [b][1..] == [];
  }

  lemma ChainSorted()
    ensures Sorted(CHAIN)
  {
    LetterLess('a', 'b');
    LetterLess('b', 'c');
    LetterLess('c', 'd');
    hide TextLess;
    assert ConnLess(CHAIN[0], CHAIN[1]) && ConnLess(CHAIN[1], CHAIN[2]) && ConnLess(CHAIN[2], CHAIN[3]);
    assert ConnLess(CHAIN[3], CHAIN[4]) && ConnLess(CHAIN[4], CHAIN[5]);
  }

  lemma ChainLinks()
    ensures LinkList(CHAIN)
  {
    assert CHAIN[0].Rev() == CHAIN[2] && CHAIN[1].Rev() == CHAIN[4] && CHAIN[3].Rev() == CHAIN[5];
  }

  lemma ChainReordered()
    ensures multiset(CHAIN) == multiset(REORDERED)
  {
    ChainLinks();
    var a, b := CHAIN, REORDERED;
    assert a[0] == b[2] && a[1] == b[4] && a[2] == b[5] && a[3] == b[0] && a[4] == b[1] && a[5] == b[3];
    assert Elems(a) == Elems(b);
    assert NoRepeats(b);
    SameElems(a, b);
  }

  lemma FewUses(c: Conn, d: Conn, k: Key)
    ensures Uses([], k) == 0 && Uses([c], k) == Bump(c, k) && Uses([c, d], k) == Bump(c, k) + Bump(d, k)
  {
    UsesSnoc([], c);
    UsesSnoc([c], d);
    assert [] + [c] == [c] && [c] + [d] == [c, d];
  }

  /** Which connections fit after none, one or two are made. */
  lemma WhatFits(c: Conn, d: Conn, x: Conn)
    ensures Fits([], x) <==> x.src.index == 0 && x.dst.index == 0
    ensures Fits([c], x) <==> Bump(c, x.src.Key()) == x.src.index && Bump(c, x.dst.Key()) == x.dst.index
    ensures Fits([c, d], x) <==> Bump(c, x.src.Key()) + Bump(d, x.src.Key()) == x.src.index &&
                                 Bump(c, x.dst.Key()) + Bump(d, x.dst.Key()) == x.dst.index
  {
    FewUses(c, d, x.src.Key());
    FewUses(c, d, x.dst.Key());
  }

  lemma ChainMade()
    ensures |Made(CHAIN)| == 2
  {
    var c, d := Conn(CM0, DP), Conn(CM1, BS0);
    var s3 := [Conn(AM, BS1), Conn(BS0, CM1), Conn(BS1, AM)];
    NoneFit(Conn(AM, BS1), Conn(BS0, CM1), Conn(BS1, AM));
    WhatFits(c, d, c);
    WhatFits(c, d, d);
    WhatFits(c, d, Conn(DP, CM0));
    hide Made, Fits;
    TwoFit(s3, c, d, Conn(DP, CM0));
    assert CHAIN == s3 + [c] + [d] + [Conn(DP, CM0)];
  }

  lemma TwoFit(s: seq<Conn>, c: Conn, d: Conn, x: Conn)
    requires Made(s) == [] && Fits([], c) && Fits([c], d) && !Fits([c, d], x)
    ensures Made(s + [c] + [d] + [x]) == [c, d]
  {
    hide Made, Fits;
    MadeSnoc(s, c);
    assert [] + [c] == [c];
    MadeSnoc(s + [c], d);
    assert [c] + [d] == [c, d];
    MadeSnoc(s + [c] + [d], x);
  }

  /** Nothing is made of three connections that need an index above 0. */
  lemma NoneFit(x: Conn, y: Conn, z: Conn)
    requires forall c :: c in [x, y, z] ==> c.src.index + c.dst.index > 0
    ensures Made([x, y, z]) == []
  {
    assert x in [x, y, z] && y in [x, y, z] && z in [x, y, z];
    WhatFits(x, y, x);
    WhatFits(x, y, y);
    WhatFits(x, y, z);
    MadeNone();
    hide Made, Fits;
    MadeSnoc([], x);
    MadeSnoc([x], y);
    MadeSnoc([x, y], z);
    assert [] + [x] == [x] && [x] + [y] == [x, y] && [x, y] + [z] == [x, y, z];
  }

  lemma MadeNone()
    ensures Made([]) == []
  {
  }

  lemma ReorderedMade()
    ensures |Made(REORDERED)| == 3
  {
    var c, d, e := Conn(CM0, DP), Conn(CM1, BS0), Conn(AM, BS1);
    WhatFits(c, d, c);
    WhatFits(c, d, d);
    WhatFits(c, d, e);
    MadeNone();
    hide Made, Fits;
    MadeSnoc([], c);
    assert [] + [c] == [c];
    MadeSnoc([c], d);
    assert [c] + [d] == [c, d];
    MadeSnoc([c, d], e);
    var s := [c, d] + [e];
    assert Made(s) == [c, d, e];
    MadeGrows(s, REORDERED[3..]);
    assert REORDERED == s + REORDERED[3..];
    ReorderedLinks();
    MadeInOrder(REORDERED);
    CandidateSize(Made(REORDERED), REORDERED);
  }

  lemma ReorderedLinks()
    ensures LinkList(REORDERED)
  {
    ChainLinks();
    ChainReordered();
    hide *;
    SameList(REORDERED, CHAIN);
  }
}
