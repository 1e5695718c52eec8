/** The table of outstanding prefetches is described as keyed by block address.
    The keys are the addresses as given; here is when that makes a difference. */
module PrefetchBlocks {
  import opened PrefetchTracker

  /** Block address for blocks of `size` bytes. */
  function Block(a: Addr, size: nat): Addr
    requires size > 0
  {
    a / size * size
  }

  function OpInBlocks(op: Op, size: nat): Op
    requires size > 0
  {
    op.(addr := Block(op.addr, size))
  }

  /** The run as the description has it: every address cut to its block. */
  function InBlocks(ops: seq<Op>, size: nat): (bs: seq<Op>)
    requires size > 0
    ensures |bs| == |ops| && forall k :: 0 <= k < |ops| ==> bs[k] == OpInBlocks(ops[k], size)
  {
    seq(|ops|, k requires 0 <= k < |ops| => OpInBlocks(ops[k], size))
  }

  predicate Over(ops: seq<Op>, addrs: set<Addr>) {
    forall k :: 0 <= k < |ops| ==> ops[k].addr in addrs
  }

  /** No two of the addresses lie in the same block. */
  predicate OnePerBlock(addrs: set<Addr>, size: nat)
    requires size > 0
  {
    forall a, b :: a in addrs && b in addrs && Block(a, size) == Block(b, size) ==> a == b
  }

  predicate SameCounters(t: Tracker, u: Tracker) {
    t.issued == u.issued && t.useful == u.useful && t.redundant == u.redundant
  }

  // ---- One address per block ------------------------------------------------------

  /** `u` holds for each key of `t` its block. */
  ghost predicate Mirrors(t: Tracker, u: Tracker, addrs: set<Addr>, size: nat)
    requires size > 0
  {
    && SameCounters(t, u) && t.table.Keys <= addrs
    && (forall a :: a in addrs ==> (Block(a, size) in u.table <==> a in t.table))
    && (forall a :: a in t.table ==> Block(a, size) in u.table && u.table[Block(a, size)] == t.table[a])
    && (forall b :: b in u.table ==> exists a :: a in t.table && Block(a, size) == b)
  }

  lemma {:induction false} SameSize(ks: set<Addr>, bs: set<Addr>, size: nat)
    requires size > 0 && OnePerBlock(ks, size)
    requires forall a :: a in ks ==> Block(a, size) in bs
    requires forall b :: b in bs ==> exists a :: a in ks && Block(a, size) == b
    ensures |ks| == |bs|
    decreases ks
  {
    hide Block;
    if ks == {} {
      assert bs == {};
    } else {
      var a :| a in ks;
      var ks', bs' := ks - {a}, bs - {Block(a, size)};
      forall b | b in bs' ensures exists a' :: a' in ks' && Block(a', size) == b {
        var a' :| a' in ks && Block(a', size) == b;
        assert a' in ks';
      }
      SameSize(ks', bs', size);
    }
  }

  lemma RoomMirrors(t: Tracker, u: Tracker, addrs: set<Addr>, size: nat)
    requires size > 0 && OnePerBlock(addrs, size) && Mirrors(t, u, addrs, size)
    ensures Mirrors(t.(table := Room(t.table)), u.(table := Room(u.table)), addrs, size)
  {
    hide Block;
    assert OnePerBlock(t.table.Keys, size);
    SameSize(t.table.Keys, u.table.Keys, size);
  }

  lemma PutMirrors(t: Tracker, u: Tracker, addrs: set<Addr>, size: nat, a: Addr, child: int)
    requires size > 0 && OnePerBlock(addrs, size) && Mirrors(t, u, addrs, size) && a in addrs
    ensures Mirrors(t.(table := t.table[a := child]), u.(table := u.table[Block(a, size) := child]), addrs, size)
  {
    hide Block;
    var m, n := t.table[a := child], u.table[Block(a, size) := child];
    forall b | b in n ensures exists a' :: a' in m && Block(a', size) == b {
      if b == Block(a, size) {
        assert a in m;
      } else {
        var a' :| a' in t.table && Block(a', size) == b;
        assert a' in m;
      }
    }
  }

  lemma DropMirrors(t: Tracker, u: Tracker, addrs: set<Addr>, size: nat, a: Addr)
    requires size > 0 && OnePerBlock(addrs, size) && Mirrors(t, u, addrs, size) && a in addrs
    ensures Mirrors(t.(table := t.table - {a}), u.(table := u.table - {Block(a, size)}), addrs, size)
  {
    hide Block;
    var m, n := t.table - {a}, u.table - {Block(a, size)};
    forall b | b in n ensures exists a' :: a' in m && Block(a', size) == b {
      var a' :| a' in t.table && Block(a', size) == b;
      assert a' in m;
    }
  }

  /** Only the tables matter once the counters are the same. */
  lemma CountMirrors(t: Tracker, u: Tracker, addrs: set<Addr>, size: nat, t': Tracker, u': Tracker)
    requires size > 0 && Mirrors(t, u, addrs, size)
    requires t'.table == t.table && u'.table == u.table && SameCounters(t', u')
    ensures Mirrors(t', u', addrs, size)
  {
    hide Block;
  }

  lemma Lookup(t: Tracker, u: Tracker, addrs: set<Addr>, size: nat, a: Addr)
    requires size > 0 && Mirrors(t, u, addrs, size) && a in addrs
    ensures SameCounters(t, u) && (a in t.table <==> Block(a, size) in u.table)
    ensures a in t.table ==> t.table[a] == u.table[Block(a, size)]
  {
  }

  lemma ApplyMirrors(t: Tracker, u: Tracker, addrs: set<Addr>, size: nat, op: Op)
    requires size > 0 && OnePerBlock(addrs, size) && Mirrors(t, u, addrs, size) && op.addr in addrs
    ensures Mirrors(Apply(t, op), Apply(u, OpInBlocks(op, size)), addrs, size)
  {
    hide Block, Room, Mirrors, OnePerBlock;
    var a := op.addr;
    var b := Block(a, size);
    var t', u' := Apply(t, op), Apply(u, OpInBlocks(op, size));
    if op.Issue? && op.child >= 0 {
      RoomMirrors(t, u, addrs, size);
      var tr, ur := t.(table := Room(t.table)), u.(table := Room(u.table));
      Lookup(tr, ur, addrs, size, a);
      PutMirrors(tr, ur, addrs, size, a, op.child);
      CountMirrors(tr.(table := tr.table[a := op.child]), ur.(table := ur.table[b := op.child]), addrs, size, t', u');
    } else if op.Hit? {
      Lookup(t, u, addrs, size, a);
      if a in t.table {
        DropMirrors(t, u, addrs, size, a);
        CountMirrors(t.(table := t.table - {a}), u.(table := u.table - {b}), addrs, size, t', u');
      }
    }
  }

  lemma {:induction false} RunMirrors(ops: seq<Op>, addrs: set<Addr>, size: nat)
    requires size > 0 && OnePerBlock(addrs, size) && Over(ops, addrs)
    ensures Mirrors(Run(FRESH, ops), Run(FRESH, InBlocks(ops, size)), addrs, size)
  {
    if ops != [] {
      var r, op := ops[..|ops| - 1], ops[|ops| - 1];
      RunMirrors(r, addrs, size);
      assert InBlocks(ops, size)[..|ops| - 1] == InBlocks(r, size);
      ApplyMirrors(Run(FRESH, r), Run(FRESH, InBlocks(r, size)), addrs, size, op);
    }
  }

  // ---- Two addresses in a block -----------------------------------------------------

  /** A hit elsewhere in the block of a prefetch is not credited, although the
      description says it is. With blocks of 64 bytes: an issue at 64 and a hit at
      72. */
  lemma HitInBlockLost(a: Addr, b: Addr, size: nat)
    requires size > 0 && a != b && Block(a, size) == Block(b, size)
    ensures var ops := [Issue(0, a), Hit(b)];
            && Run(FRESH, ops).useful == [0, 0, 0, 0]
            && Run(FRESH, InBlocks(ops, size)).useful == [1, 0, 0, 0]
  {
    TwoSteps(FRESH, Issue(0, a), Hit(b));
    var c := Block(a, size);
    TwoSteps(FRESH, Issue(0, c), Hit(c));
    assert InBlocks([Issue(0, a), Hit(b)], size) == [Issue(0, c), Hit(c)];
    assert FRESH.table == map[] && Room(map[]) == map[];
    hide Block;
    assert Apply(FRESH, Issue(0, a)).table == map[a := 0];
    assert Apply(FRESH, Issue(0, c)).table == map[c := 0];
  }

  lemma TwoSteps(t: Tracker, x: Op, y: Op)
    ensures Run(t, [x, y]) == Apply(Apply(t, x), y)
  {
    RunSnoc(t, [], x);
    RunSnoc(t, [x], y);
    assert [] + [x] == [x] && [x] + [y] == [x, y];
  }

  lemma Hit72()
    ensures Run(FRESH, [Issue(0, 64), Hit(72)]).useful == [0, 0, 0, 0]
  {
    HitInBlockLost(64, 72, 64);
  }

  /** Main result on the keys: the counters are those of a table keyed by block,
      in every run over some addresses, exactly when no two of these addresses lie
      in the same block. Addresses that are all block-aligned are such. */
  lemma BlockKeysIff(addrs: set<Addr>, size: nat)
    requires size > 0
    ensures (forall ops :: Over(ops, addrs) ==> SameCounters(Run(FRESH, ops), Run(FRESH, InBlocks(ops, size)))) <==>
            OnePerBlock(addrs, size)
  {
    if OnePerBlock(addrs, size) {
      forall ops | Over(ops, addrs) ensures SameCounters(Run(FRESH, ops), Run(FRESH, InBlocks(ops, size))) {
        RunMirrors(ops, addrs, size);
      }
    } else {
      var a, b :| a in addrs && b in addrs && Block(a, size) == Block(b, size) && a != b;
      HitInBlockLost(a, b, size);
      hide Block, Run;
      var ops := [Issue(0, a), Hit(b)];
      assert Over(ops, addrs);
    }
  }

  lemma AlignedIsOnePerBlock(addrs: set<Addr>, size: nat)
    requires size > 0 && forall a :: a in addrs ==> a % size == 0
    ensures OnePerBlock(addrs, size)
  {
    forall a | a in addrs ensures Block(a, size) == a {
      assert a == a / size * size + a % size;
    }
  }

  // ---- Single hits --------------------------------------------------------------------

  /** What the description promises of a hit at `a`. */
  predicate BlockTracked(t: Tracker, a: Addr, size: nat)
    requires size > 0
  {
    exists k :: k in t.table && Block(k, size) == Block(a, size)
  }

  lemma {:induction false} KeysOver(ops: seq<Op>, addrs: set<Addr>)
    requires Over(ops, addrs)
    ensures Run(FRESH, ops).table.Keys <= addrs
  {
    if ops != [] {
      KeysOver(ops[..|ops| - 1], addrs);
    }
  }

  /** After every run a hit changes the tracker exactly when its address is a
      key. That is what the description promises of the hit as long as the run and
      the hit keep to one address per block. */
  lemma HitCredited(ops: seq<Op>, a: Addr, addrs: set<Addr>, size: nat)
    requires size > 0
    ensures var t := Run(FRESH, ops); Apply(t, Hit(a)) != t <==> a in t.table
    ensures var t := Run(FRESH, ops); Apply(t, Hit(a)) != t ==> BlockTracked(t, a, size)
    ensures var t := Run(FRESH, ops);
            OnePerBlock(addrs, size) && Over(ops, addrs) && a in addrs ==>
              (Apply(t, Hit(a)) != t <==> BlockTracked(t, a, size))
  {
    var t := Run(FRESH, ops);
    if a in t.table {
      assert a !in Apply(t, Hit(a)).table;
    }
    if Over(ops, addrs) {
      KeysOver(ops, addrs);
    }
  }
}
