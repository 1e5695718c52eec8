/** Instructions of an O3 pipeline trace and the stable sort by sequence
    number that the viewer applies to its print queue. */
module PipeOrder {

  /** The keys of an instruction record that hold ticks. */
  datatype Stage = Fetch | Decode | Rename | Dispatch | Issue | Complete | Retire | Store

  datatype Inst = Inst(sn: int, ticks: map<Stage, int>, pc: string, upc: string, disasm: string)

  predicate Sorted(s: seq<Inst>) {
    forall i, j :: 0 <= i < j < |s| ==> s[i].sn <= s[j].sn
  }

  function Init(s: seq<Inst>): seq<Inst>
    requires s != []
  {
    s[..|s| - 1]
  }

  function Last(s: seq<Inst>): Inst
    requires s != []
  {
    s[|s| - 1]
  }

  /** Puts `x` after every element that is not larger, scanning from the back. */
  function Insert(s: seq<Inst>, x: Inst): (r: seq<Inst>)
    ensures |r| == |s| + 1
  {
    if s == [] then [x]
    else if x.sn < Last(s).sn then Insert(Init(s), x) + [Last(s)]
    else s + [x]
  }

  function StableSort(s: seq<Inst>): (r: seq<Inst>)
    ensures |r| == |s|
  {
    if s == [] then [] else Insert(StableSort(Init(s)), Last(s))
  }

  /** The elements that satisfy `p`, in order. */
  function Keep(s: seq<Inst>, p: Inst -> bool): seq<Inst> {
    if s == [] then []
    else Keep(Init(s), p) + if p(Last(s)) then [Last(s)] else []
  }

  /** How many elements have a sequence number above `sn`. */
  function Larger(s: seq<Inst>, sn: int): nat {
    |Keep(s, Above(sn))|
  }

  function Above(sn: int): Inst -> bool {
    (i: Inst) => i.sn > sn
  }

  function HasSn(sn: int): Inst -> bool {
    (i: Inst) => i.sn == sn
  }

  // ---- Insert and StableSort --------------------------------------------

  lemma InsertSnoc(s: seq<Inst>, l: Inst, x: Inst)
    ensures Insert(s + [l], x) == if x.sn < l.sn then Insert(s, x) + [l] else s + [l] + [x]
  {
    assert Init(s + [l]) == s && Last(s + [l]) == l;
  }

  lemma SortSnoc(s: seq<Inst>, x: Inst)
    ensures StableSort(s + [x]) == Insert(StableSort(s), x)
  {
    assert Init(s + [x]) == s && Last(s + [x]) == x;
  }

  lemma {:induction false} InsertPermutes(s: seq<Inst>, x: Inst)
    ensures multiset(Insert(s, x)) == multiset(s) + multiset{x}
  {
    if s != [] {
      var r, l := Init(s), Last(s);
      assert s == r + [l];
      InsertPermutes(r, x);
      InsertSnoc(r, l, x);
      hide Insert;
    }
  }

  lemma SortedSnoc(s: seq<Inst>, l: Inst)
    ensures Sorted(s + [l]) <==> Sorted(s) && forall i :: 0 <= i < |s| ==> s[i].sn <= l.sn
  {
    var t := s + [l];
    assert t[|s|] == l && forall i :: 0 <= i < |s| ==> t[i] == s[i];
  }

  /** Inserting a smaller element keeps all below `l`. */
  lemma InsertBelow(s: seq<Inst>, x: Inst, l: Inst)
    requires x.sn <= l.sn && forall i :: 0 <= i < |s| ==> s[i].sn <= l.sn
    ensures forall i :: 0 <= i < |Insert(s, x)| ==> Insert(s, x)[i].sn <= l.sn
  {
    InsertPermutes(s, x);
    var t := Insert(s, x);
    hide Insert;
    forall i | 0 <= i < |t| ensures t[i].sn <= l.sn {
      assert t[i] in multiset(t);
      assert t[i] == x || t[i] in multiset(s);
    }
  }

  lemma {:induction false} InsertSorts(s: seq<Inst>, x: Inst)
    requires Sorted(s)
    ensures Sorted(Insert(s, x))
    ensures multiset(Insert(s, x)) == multiset(s) + multiset{x}
  {
    InsertPermutes(s, x);
    if s != [] {
      var r, l := Init(s), Last(s);
      assert s == r + [l];
      InsertSnoc(r, l, x);
      SortedSnoc(r, l);
      hide Insert, Sorted;
      if x.sn < l.sn {
        InsertSorts(r, x);
        InsertBelow(r, x, l);
        SortedSnoc(Insert(r, x), l);
      } else {
        SortedSnoc(s, x);
      }
    }
  }

  lemma {:induction false} SortSorts(s: seq<Inst>)
    ensures Sorted(StableSort(s))
    ensures multiset(StableSort(s)) == multiset(s)
  {
    if s != [] {
      var r, l := Init(s), Last(s);
      assert s == r + [l];
      SortSnoc(r, l);
      SortSorts(r);
      hide StableSort, Insert, Sorted;
      InsertSorts(StableSort(r), l);
    }
  }

  /** A new element goes behind a prefix none of whose members is larger. */
  lemma {:induction false} InsertBehind(e: seq<Inst>, q: seq<Inst>, x: Inst)
    requires forall i :: 0 <= i < |e| ==> e[i].sn <= x.sn
    ensures Insert(e + q, x) == e + Insert(q, x)
  {
    if q == [] {
      assert e + q == e;
    } else {
      assert Init(e + q) == e + Init(q) && Last(e + q) == Last(q);
      InsertBehind(e, Init(q), x);
    }
  }

  lemma {:induction false} SortOfSorted(s: seq<Inst>)
    requires Sorted(s)
    ensures StableSort(s) == s
  {
    if s != [] {
      SortOfSorted(Init(s));
      assert Init(s) + [Last(s)] == s;
      InsertBehind(Init(s), [], Last(s));
      assert Init(s) + [] == Init(s);
    }
  }

  // ---- Keep ---------------------------------------------------------------

  lemma {:induction false} KeepAppend(a: seq<Inst>, b: seq<Inst>, p: Inst -> bool)
    ensures Keep(a + b, p) == Keep(a, p) + Keep(b, p)
  {
    if b == [] {
      assert a + b == a;
    } else {
      assert Init(a + b) == a + Init(b) && Last(a + b) == Last(b);
      KeepAppend(a, Init(b), p);
    }
  }

  lemma {:induction false} KeepMembers(s: seq<Inst>, p: Inst -> bool)
    ensures forall x :: x in Keep(s, p) <==> x in s && p(x)
    ensures |Keep(s, p)| <= |s|
  {
    if s != [] {
      KeepMembers(Init(s), p);
      assert s == Init(s) + [Last(s)];
    }
  }

  lemma {:induction false} KeepNone(s: seq<Inst>, p: Inst -> bool)
    requires forall x :: x in s ==> !p(x)
    ensures Keep(s, p) == []
  {
    if s != [] {
      assert s == Init(s) + [Last(s)];
      KeepNone(Init(s), p);
    }
  }

  lemma KeepSnoc(s: seq<Inst>, x: Inst, p: Inst -> bool)
    ensures Keep(s + [x], p) == if p(x) then Keep(s, p) + [x] else Keep(s, p)
  {
    assert Init(s + [x]) == s && Last(s + [x]) == x;
  }

  lemma InsertLast(s: seq<Inst>, x: Inst)
    requires forall i :: 0 <= i < |s| ==> s[i].sn <= x.sn
    ensures Insert(s, x) == s + [x]
  {
  }

  /** The kept elements are not larger than `x` if none is. */
  lemma KeepLast(s: seq<Inst>, x: Inst, p: Inst -> bool)
    requires forall i :: 0 <= i < |s| ==> s[i].sn <= x.sn
    ensures Insert(Keep(s, p), x) == Keep(s, p) + [x]
  {
    KeepMembers(s, p);
    var k := Keep(s, p);
    hide Keep, Insert;
    forall i | 0 <= i < |k| ensures k[i].sn <= x.sn {
      assert k[i] in s;
    }
    InsertLast(k, x);
  }

  lemma {:induction false} KeepInsert(s: seq<Inst>, x: Inst, p: Inst -> bool)
    requires Sorted(s)
    ensures Keep(Insert(s, x), p) == if p(x) then Insert(Keep(s, p), x) else Keep(s, p)
  {
    hide Insert, Keep;
    if s == [] || Last(s).sn <= x.sn {
      InsertLast(s, x);
      KeepSnoc(s, x, p);
      KeepLast(s, x, p);
    } else {
      var r, l := Init(s), Last(s);
      assert s == r + [l];
      InsertSnoc(r, l, x);
      KeepInsert(r, x, p);
      KeepSnoc(Insert(r, x), l, p);
      KeepSnoc(r, l, p);
      InsertSnoc(Keep(r, p), l, x);
    }
  }

  /** Filtering commutes with the stable sort. */
  lemma {:induction false} KeepSort(s: seq<Inst>, p: Inst -> bool)
    ensures Keep(StableSort(s), p) == StableSort(Keep(s, p))
  {
    if s != [] {
      var r, x := Init(s), Last(s);
      assert s == r + [x];
      KeepSort(r, p);
      SortSorts(r);
      KeepInsert(StableSort(r), x, p);
      KeepSnoc(r, x, p);
      SortSnoc(Keep(r, p), x);
    }
  }

  // ---- What the stable sort is, without its recursion --------------------

  /** Elements with equal sequence numbers keep their arrival order. */
  lemma SortIsStable(s: seq<Inst>, sn: int)
    ensures Keep(StableSort(s), HasSn(sn)) == Keep(s, HasSn(sn))
  {
    KeepSort(s, HasSn(sn));
    KeepMembers(s, HasSn(sn));
    var k := Keep(s, HasSn(sn));
    forall i | 0 <= i < |k| ensures k[i].sn == sn {
      assert k[i] in k;
    }
    SortOfSorted(k);
  }

  /** Sortedness and stability determine the result. */
  lemma SortIsUnique(s: seq<Inst>, t: seq<Inst>)
    requires Sorted(t)
    requires SameByKey(t, s)
    ensures t == StableSort(s)
  {
    forall sn ensures Keep(t, HasSn(sn)) == Keep(StableSort(s), HasSn(sn)) {
      SortIsStable(s, sn);
    }
    SortSorts(s);
    SortedAgree(t, StableSort(s));
  }

  ghost predicate SameByKey(a: seq<Inst>, b: seq<Inst>) {
    forall sn :: Keep(a, HasSn(sn)) == Keep(b, HasSn(sn))
  }

  lemma {:induction false} SortedAgree(a: seq<Inst>, b: seq<Inst>)
    requires Sorted(a) && Sorted(b)
    requires SameByKey(a, b)
    ensures a == b
  {
    if a == [] {
      if b != [] {
        LastPresent(b, a);
      }
    } else {
      LastPresent(a, b);
      LastPresent(b, a);
      var r, l, t, m := Init(a), Last(a), Init(b), Last(b);
      assert a == r + [l] && b == t + [m];
      SameLast(r, l, t, m);
      DropLast(r, t, l);
      SortedAgree(r, t);
    }
  }

  lemma SameLast(r: seq<Inst>, l: Inst, t: seq<Inst>, m: Inst)
    requires SameByKey(r + [l], t + [m]) && l.sn == m.sn
    ensures l == m
  {
    KeepSnoc(r, l, HasSn(l.sn));
    KeepSnoc(t, m, HasSn(l.sn));
    assert Keep(r + [l], HasSn(l.sn)) == Keep(t + [m], HasSn(l.sn));
    assert Last(Keep(r, HasSn(l.sn)) + [l]) == l;
    assert Last(Keep(t, HasSn(l.sn)) + [m]) == m;
  }

  lemma DropLast(r: seq<Inst>, t: seq<Inst>, l: Inst)
    requires SameByKey(r + [l], t + [l])
    ensures SameByKey(r, t)
  {
    forall sn ensures Keep(r, HasSn(sn)) == Keep(t, HasSn(sn)) {
      KeepSnoc(r, l, HasSn(sn));
      KeepSnoc(t, l, HasSn(sn));
      assert Keep(r + [l], HasSn(sn)) == Keep(t + [l], HasSn(sn));
      SnocCancel(Keep(r, HasSn(sn)), Keep(t, HasSn(sn)), l);
    }
  }

  lemma SnocCancel(a: seq<Inst>, b: seq<Inst>, x: Inst)
    ensures a + [x] == b + [x] ==> a == b
  {
    assert (a + [x])[..|a|] == a && (b + [x])[..|b|] == b;
  }

  lemma LastPresent(a: seq<Inst>, b: seq<Inst>)
    requires a != [] && Sorted(a) && Sorted(b)
    requires SameByKey(a, b)
    ensures b != [] && Last(a).sn <= Last(b).sn
  {
    var sn := Last(a).sn;
    KeepMembers(a, HasSn(sn));
    KeepMembers(b, HasSn(sn));
    assert Last(a) in Keep(b, HasSn(sn));
  }

  // ---- Counting -----------------------------------------------------------

  lemma LargerOfSort(s: seq<Inst>, sn: int)
    ensures Larger(StableSort(s), sn) == Larger(s, sn)
  {
    hide StableSort, Insert;
    KeepSort(s, Above(sn));
    SortSorts(Keep(s, Above(sn)));
  }

  lemma LargerMonotone(a: seq<Inst>, b: seq<Inst>, sn: int)
    ensures Larger(a + b, sn) == Larger(a, sn) + Larger(b, sn)
  {
    KeepAppend(a, b, Above(sn));
  }

  lemma {:induction false} KeepEvery(s: seq<Inst>, p: Inst -> bool)
    requires forall x :: x in s ==> p(x)
    ensures Keep(s, p) == s
  {
    if s != [] {
      assert s == Init(s) + [Last(s)];
      KeepEvery(Init(s), p);
    }
  }

  /** In a sorted sequence at most `k` elements exceed `sn` exactly when the
      element with `k` elements behind it does not. */
  lemma LargerInSorted(s: seq<Inst>, k: nat, sn: int)
    requires Sorted(s) && k < |s|
    ensures Larger(s, sn) <= k <==> s[|s| - 1 - k].sn <= sn
  {
    var m := |s| - 1 - k;
    if s[m].sn <= sn {
      assert s == s[..m + 1] + s[m + 1..];
      LargerMonotone(s[..m + 1], s[m + 1..], sn);
      KeepNone(s[..m + 1], Above(sn));
      KeepMembers(s[m + 1..], Above(sn));
    } else {
      assert s == s[..m] + s[m..];
      LargerMonotone(s[..m], s[m..], sn);
      KeepEvery(s[m..], Above(sn));
    }
  }
}
