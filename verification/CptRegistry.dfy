/** Building the registry of upgraders: versions from the time of linear
    checkpoint numbers are chained, forward dependences are turned round, and
    every dependence is audited. */
module CptRegistry {
  import opened CptUpgrader
  import opened CptDowngrade
  import opened Finite

  /** Version `v` and all versions from 3 up to it have an upgrader. */
  predicate InChain(legacy: map<int, Tag>, v: int) {
    v >= 3 && forall j :: 3 <= j <= v ==> j in legacy
  }

  predicate ChainedAt(legacy: map<int, Tag>, t: Tag, v: int) {
    InChain(legacy, v) && legacy[v] == t
  }

  /** Each version belongs to one registered upgrader, and no upgrader to two
      versions. */
  predicate LegacyFits(m: Registry, legacy: map<int, Tag>) {
    && (forall v :: v in legacy ==> legacy[v] in m)
    && (forall v, w :: v in legacy && w in legacy && legacy[v] == legacy[w] ==> v == w)
  }

  /** The dependences of `t` once the legacy versions are chained. */
  ghost function Linked(m: Registry, legacy: map<int, Tag>, t: Tag): seq<Tag>
    requires t in m && (3 in legacy ==> 2 in legacy)
  {
    if exists v :: ChainedAt(legacy, t, v) then
      var v :| ChainedAt(legacy, t, v);
      [legacy[v - 1]]
    else m[t].depends
  }

  /** All forward and ordinary dependences name registered tags. */
  ghost predicate Loadable(m: Registry, legacy: map<int, Tag>) {
    && (3 in legacy ==> 2 in legacy)
    && (forall t, d :: t in m && d in Linked(m, legacy, t) ==> d in m)
    && (forall t, f :: t in m && f in m[t].fwdDepends ==> f in m)
  }

  /** `m` with every entry's dependences replaced by the chained ones. */
  ghost predicate IsLinked(m0: Registry, m: Registry, legacy: map<int, Tag>) {
    && (3 in legacy ==> 2 in legacy)
    && m0.Keys == m.Keys
    && forall t :: t in m ==> m0[t] == m[t].(depends := Linked(m, legacy, t))
  }

  predicate Known(m: Registry, t: Tag)
    requires t in m
  {
    (forall f :: f in m[t].fwdDepends ==> f in m) && (forall d :: d in m[t].depends ==> d in m)
  }

  /** The loaded registry: kinds unchanged, and a tag depends on what its
      script or the chain says and on every tag that names it forward. */
  ghost predicate Loaded(m1: Registry, m: Registry, legacy: map<int, Tag>)
    requires 3 in legacy ==> 2 in legacy
  {
    && m1.Keys == m.Keys
    && Audited(m1)
    && forall t :: t in m ==>
         && m1[t].kind == m[t].kind
         && forall d :: d in m1[t].depends <==> d in Linked(m, legacy, t) || (d in m && t in m[d].fwdDepends)
  }

  lemma LoadableIff(m: Registry, legacy: map<int, Tag>, m0: Registry)
    requires IsLinked(m0, m, legacy)
    ensures Loadable(m, legacy) <==> forall t :: t in m0 ==> Known(m0, t)
  {
  }

  lemma LoadHolds(m: Registry, legacy: map<int, Tag>, m0: Registry, m1: Registry)
    requires IsLinked(m0, m, legacy)
    requires TurnedRound(m1, m0, m0.Keys)
    requires forall t :: t in m0 ==> Known(m0, t)
    ensures Loaded(m1, m, legacy)
  {
  }

  function FromVersion(legacy: map<int, Tag>, i: int): set<int> {
    set v | v in legacy.Keys && v >= i
  }

  function AddDepend(m: Registry, t: Tag, d: Tag): Registry
    requires t in m
  {
    m[t := m[t].(depends := m[t].depends + [d])]
  }

  /** `m` is `m0` with the dependences of `f` turned round for the tags `us`. */
  ghost predicate TurnedRound(m: Registry, m0: Registry, us: set<Tag>)
    requires us <= m0.Keys
  {
    && m.Keys == m0.Keys
    && forall t :: t in m0 ==>
         && m[t].kind == m0[t].kind && m[t].fwdDepends == m0[t].fwdDepends
         && forall d :: d in m[t].depends <==> d in m0[t].depends || (d in us && t in m0[d].fwdDepends)
  }

  /** `m1` is `m` with `tag` added to the dependences of the tags in `fs`. */
  ghost predicate PartlyTurned(m1: Registry, m: Registry, tag: Tag, fs: seq<Tag>) {
    && m1.Keys == m.Keys
    && forall t :: t in m ==>
         && m1[t].kind == m[t].kind && m1[t].fwdDepends == m[t].fwdDepends
         && forall d :: d in m1[t].depends <==> d in m[t].depends || (d == tag && t in fs)
  }

  lemma StepTurned(m1: Registry, m: Registry, tag: Tag, fs: seq<Tag>, f: Tag)
    requires PartlyTurned(m1, m, tag, fs) && f in m1
    ensures AddDepend(m1, f, tag).Keys == m1.Keys
    ensures PartlyTurned(AddDepend(m1, f, tag), m, tag, fs + [f])
  {
    var m2 := AddDepend(m1, f, tag);
    forall t, d | t in m ensures d in m2[t].depends <==> d in m[t].depends || (d == tag && t in fs + [f]) {
      if t == f {
        assert m2[t].depends == m1[t].depends + [tag];
      }
    }
  }

  lemma AllTurned(m1: Registry, m: Registry, tag: Tag, m0: Registry, done: set<Tag>)
    requires done <= m0.Keys && tag in m0 && tag !in done && TurnedRound(m, m0, done)
    requires PartlyTurned(m1, m, tag, m0[tag].fwdDepends)
    ensures TurnedRound(m1, m0, done + {tag})
  {
  }

  lemma SameTags(m: Registry, m0: Registry, done: set<Tag>, tag: Tag)
    requires done <= m0.Keys && tag in m0 && TurnedRound(m, m0, done)
    ensures m.Keys == m0.Keys && m[tag].fwdDepends == m0[tag].fwdDepends
  {
  }

  lemma NonePartly(m: Registry, tag: Tag)
    ensures PartlyTurned(m, m, tag, [])
  {
  }

  class Loader {
    var byTag: Registry
    var legacy: map<int, Tag>

    ghost predicate Valid()
      reads this
    {
      LegacyFits(byTag, legacy)
    }

    /** Chains the legacy versions; fails when version 3 has no predecessor. */
    method LinkLegacy() returns (ok: bool)
      requires Valid()
      modifies this`byTag
      ensures Valid()
      ensures ok <==> (3 in legacy ==> 2 in legacy)
      ensures ok ==> IsLinked(byTag, old(byTag), legacy)
    {
      if 3 in legacy && 2 !in legacy {
        return false;
      }
      ghost var m := byTag;
      var i := 3;
      while i in legacy
        invariant i >= 3 && forall j :: 3 <= j < i ==> j in legacy
        invariant byTag.Keys == m.Keys
        invariant forall t :: t in m ==>
          byTag[t] ==
          if exists v :: v < i && ChainedAt(legacy, t, v) then m[t].(depends := Linked(m, legacy, t)) else m[t]
        decreases FromVersion(legacy, i)
      {
        var t := legacy[i];
        assert ChainedAt(legacy, t, i);
        assert legacy[i] in m;
        byTag := byTag[t := byTag[t].(depends := [legacy[i - 1]])];
        assert Linked(m, legacy, t) == [legacy[i - 1]];
        assert FromVersion(legacy, i + 1) == FromVersion(legacy, i) - {i};
        assert i in FromVersion(legacy, i);
        i := i + 1;
      }
      forall t | t in m ensures byTag[t] == m[t].(depends := Linked(m, legacy, t)) {
        assert forall v :: ChainedAt(legacy, t, v) ==> v < i;
      }
      return true;
    }

    /** Adds `tag` to the dependences of every tag it names. */
    method TurnRound(tag: Tag, ghost m0: Registry, ghost done: set<Tag>) returns (ok: bool)
      requires done <= m0.Keys && tag in m0 && tag !in done
      requires TurnedRound(byTag, m0, done)
      modifies this`byTag
      ensures ok <==> forall f :: f in m0[tag].fwdDepends ==> f in m0
      ensures ok ==> TurnedRound(byTag, m0, done + {tag})
    {
      hide TurnedRound, PartlyTurned, AddDepend;
      SameTags(byTag, m0, done, tag);
      var fwd := byTag[tag].fwdDepends;
      ghost var m := byTag;
      NonePartly(m, tag);
      for k := 0 to |fwd|
        invariant byTag.Keys == m0.Keys
        invariant forall j :: 0 <= j < k ==> fwd[j] in m0
        invariant PartlyTurned(byTag, m, tag, fwd[..k])
      {
        assert fwd[..k + 1] == fwd[..k] + [fwd[k]];
        if fwd[k] !in byTag {
          assert fwd[k] in m0[tag].fwdDepends;
          return false;
        }
        StepTurned(byTag, m, tag, fwd[..k], fwd[k]);
        byTag := AddDepend(byTag, fwd[k], tag);
      }
      assert fwd[..|fwd|] == fwd;
      AllTurned(byTag, m, tag, m0, done);
      return true;
    }

    method ResolveOne(tag: Tag, ghost m0: Registry, ghost done: set<Tag>) returns (ok: bool)
      requires done <= m0.Keys && tag in m0 && tag !in done
      requires TurnedRound(byTag, m0, done)
      modifies this`byTag
      ensures ok <==> Known(m0, tag)
      ensures ok ==> TurnedRound(byTag, m0, done + {tag})
    {
      ok := TurnRound(tag, m0, done);
      if ok {
        ok := AuditOne(tag, m0, done + {tag});
      }
    }

    method AuditOne(tag: Tag, ghost m0: Registry, ghost done: set<Tag>) returns (ok: bool)
      requires done <= m0.Keys && tag in m0
      requires TurnedRound(byTag, m0, done)
      ensures ok <==> forall d :: d in m0[tag].depends ==> d in m0
    {
      var deps := byTag[tag].depends;
      for k := 0 to |deps|
        invariant forall j :: 0 <= j < k ==> deps[j] in m0
      {
        if deps[k] !in byTag {
          assert deps[k] in m0[tag].depends;
          return false;
        }
      }
      assert forall d :: d in m0[tag].depends ==> d in deps;
      return true;
    }

    /** Loads the registry; `order` is the order in which the dictionary yields
        the tags. */
    method LoadAll(order: seq<Tag>) returns (ok: bool)
      requires Valid() && NoRepeats(order) && Elems(order) == byTag.Keys
      modifies this`byTag
      ensures ok <==> Loadable(old(byTag), legacy)
      ensures ok ==> Loaded(byTag, old(byTag), legacy)
    {
      hide Loadable, Linked, TurnedRound, Loaded, Known;
      ok := LinkLegacy();
      if !ok {
        NotLoadable(old(byTag), legacy);
        return;
      }
      ghost var m0 := byTag;
      LoadableIff(old(byTag), legacy, m0);
      NoneTurned(m0);
      assert Elems(order[..0]) == {};
      for n := 0 to |order|
        invariant Elems(order[..n]) <= m0.Keys
        invariant TurnedRound(byTag, m0, Elems(order[..n]))
        invariant forall t :: t in Elems(order[..n]) ==> Known(m0, t)
      {
        assert order[n] in Elems(order);
        assert order[n] !in Elems(order[..n]);
        assert Elems(order[..n + 1]) == Elems(order[..n]) + {order[n]};
        ok := ResolveOne(order[n], m0, Elems(order[..n]));
        if !ok {
          return;
        }
      }
      assert order[..|order|] == order;
      LoadHolds(old(byTag), legacy, m0, byTag);
    }
  }

  lemma NotLoadable(m: Registry, legacy: map<int, Tag>)
    ensures Loadable(m, legacy) ==> (3 in legacy ==> 2 in legacy)
  {
  }

  lemma NoneTurned(m: Registry)
    ensures TurnedRound(m, m, {})
  {
  }

  /** In a loaded registry of upgraders only, a migration gives up exactly when
      the missing tags contain a cycle of dependences, and otherwise adds them
      all. */
  lemma LoadedMigrates(m1: Registry, m: Registry, legacy: map<int, Tag>, tags: set<Tag>)
    requires (3 in legacy ==> 2 in legacy) && Loaded(m1, m, legacy)
    requires forall t :: t in m ==> m[t].kind == Up
    ensures Work(m1, tags) == m.Keys - tags
    ensures HasCycle(m1, m.Keys - tags) <==> Run(m1, m.Keys - tags, tags).Stuck?
    ensures !HasCycle(m1, m.Keys - tags) <==> Run(m1, m.Keys - tags, tags) == Migrated(tags + m.Keys)
  {
    hide Run, HasCycle;
    assert TagSet(m1) == m.Keys && UntagSet(m1) == {};
    StuckIffCycle(m1, tags);
    MigratedTags(m1, tags);
  }
}
