/** The saved value table of the controller: signature of the children, number
    of states, then the rows in ascending order of state. Doubles are written
    as their 64-bit patterns. */
module QTableFile {
  import opened Bits
  import opened Text

  type Word = w: int | 0 <= w < 0x1_0000_0000_0000_0000
  type Row = seq<Word>

  // ---- Little-endian numbers -----------------------------------------------

  function Little(v: nat, n: nat): (s: seq<Byte>)
    ensures |s| == n
  {
    if n == 0 then [] else [v % 256] + Little(v / 256, n - 1)
  }

  function Number(s: seq<Byte>): nat {
    if s == [] then 0 else s[0] + 256 * Number(s[1..])
  }

  function Limit(n: nat): nat {
    if n == 0 then 1 else 256 * Limit(n - 1)
  }

  lemma {:induction false} NumberLittle(v: nat, n: nat)
    requires v < Limit(n)
    ensures Number(Little(v, n)) == v
  {
    if n > 0 {
      NumberLittle(v / 256, n - 1);
      assert Little(v, n)[1..] == Little(v / 256, n - 1);
    }
  }

  lemma Limits()
    ensures Limit(4) == 0x1_0000_0000 && Limit(8) == 0x1_0000_0000_0000_0000
  {
    assert Limit(4) == 256 * 256 * 256 * 256;
    assert Limit(8) == 256 * 256 * 256 * 256 * Limit(4);
  }

  // ---- Saving -----------------------------------------------------------------

  datatype Entry = Entry(state: Word, row: Row)

  function WordBytes(row: Row): (s: seq<Byte>)
    ensures |s| == 8 * |row|
  {
    if row == [] then [] else Little(row[0], 8) + WordBytes(row[1..])
  }

  function EntryBytes(e: Entry): seq<Byte> {
    Little(e.state, 8) + Little(|e.row|, 4) + WordBytes(e.row)
  }

  function EntriesBytes(es: seq<Entry>): seq<Byte> {
    if es == [] then [] else EntryBytes(es[0]) + EntriesBytes(es[1..])
  }

  /** The file for a table whose entries are `es`. */
  function FileBytes(sig: seq<Byte>, es: seq<Entry>): seq<Byte> {
    Little(|sig|, 4) + sig + Little(|es|, 8) + EntriesBytes(es)
  }

  // ---- Loading ----------------------------------------------------------------

  /** `Kept`: the table in memory is not touched. `Cleared`: it is left empty. */
  datatype Loaded = Kept | Cleared | Table(entries: seq<Entry>, consumed: nat)

  function ReadRow(s: seq<Byte>, n: nat): Row
    requires |s| >= 8 * n
  {
    if n == 0 then []
    else
      NumberBelow(s[..8]);
      [Number(s[..8])] + ReadRow(s[8..], n - 1)
  }

  lemma {:induction false} NumberBelow(s: seq<Byte>)
    requires |s| == 8
    ensures Number(s) < 0x1_0000_0000_0000_0000
  {
    Limits();
    BelowLimit(s);
  }

  lemma {:induction false} BelowLimit(s: seq<Byte>)
    ensures Number(s) < Limit(|s|)
  {
    if s != [] {
      BelowLimit(s[1..]);
    }
  }

  /** Reads `n` entries, or stops at the first read that runs out of data. */
  function ReadEntries(s: seq<Byte>, n: nat): (r: Loaded)
    ensures r.Table? ==> r.consumed <= |s|
    ensures !r.Kept?
  {
    if n == 0 then Table([], 0)
    else if |s| < 12 then Cleared
    else
      NumberBelow(s[..8]);
      var state, len := Number(s[..8]), Number(s[8..12]);
      if |s| < 12 + 8 * len then Cleared
      else
        var e, used := Entry(state, ReadRow(s[12..], len)), 12 + 8 * len;
        var r := ReadEntries(s[used..], n - 1);
        if r.Table? then Table([e] + r.entries, used + r.consumed) else Cleared
  }

  /** Having read the entries `done`, reading goes on with `m` entries in `t`. */
  ghost predicate Continues(s: seq<Byte>, n: nat, done: seq<Entry>, t: seq<Byte>, m: nat) {
    var all, rest := ReadEntries(s, n), ReadEntries(t, m);
    (all.Table? <==> rest.Table?) && (all.Table? ==> all.entries == done + rest.entries)
  }

  lemma ReadsOn(s: seq<Byte>, n: nat, done: seq<Entry>, t: seq<Byte>, m: nat)
    requires Continues(s, n, done, t, m) && m > 0
    ensures |t| < 12 ==> !ReadEntries(s, n).Table?
    ensures |t| >= 12 ==>
      var len := Number(t[8..12]);
      && Number(t[..8]) < 0x1_0000_0000_0000_0000
      && (|t| < 12 + 8 * len ==> !ReadEntries(s, n).Table?)
      && (|t| >= 12 + 8 * len ==>
            Continues(s, n, done + [Entry(Number(t[..8]), ReadRow(t[12..], len))], t[12 + 8 * len..], m - 1))
  {
    if |t| >= 12 {
      NumberBelow(t[..8]);
      hide Number, ReadRow;
      var rest := ReadEntries(t, m);
      if rest.Table? {
        var e := rest.entries[0];
        assert done + ([e] + rest.entries[1..]) == done + [e] + rest.entries[1..];
      }
    }
  }

  /** Loading a file with the signature of the current children. */
  function Load(s: seq<Byte>, sig: seq<Byte>): Loaded {
    if |s| < 4 then Kept
    else
      var len := Number(s[..4]);
      if |s| < 4 + len then Kept
      else if s[4..4 + len] != sig then Kept
      else if |s| < 4 + len + 8 then Kept
      else
        var at := 4 + len + 8;
        match ReadEntries(s[at..], Number(s[4 + len..at]))
        case Table(es, k) => Table(es, at + k)
        case other => other
  }

  // ---- As the object does it --------------------------------------------------

  class Store {
    var qTable: map<Word, Row>

    /** Writes the file; `es` is the order in which the table yields its rows. */
    method SaveQTable(sig: seq<Byte>, es: seq<Entry>) returns (out: seq<Byte>)
      requires Lists(qTable, es)
      ensures out == FileBytes(sig, es)
    {
      hide Lists, Little, EntryBytes;
      out := Little(|sig|, 4) + sig + Little(|es|, 8);
      ghost var head := out;
      for i := 0 to |es|
        invariant out + EntriesBytes(es[i..]) == head + EntriesBytes(es)
      {
        assert es[i..][0] == es[i] && es[i..][1..] == es[i + 1..];
        var entry := EntryBytes(es[i]);
        assert out + (entry + EntriesBytes(es[i + 1..])) == out + entry + EntriesBytes(es[i + 1..]);
        out := out + entry;
      }
    }

    /** Reads the rows into the table; a failed read empties it. */
    method ReadRows(s: seq<Byte>, n: nat) returns (ok: bool)
      modifies this
      ensures ok <==> ReadEntries(s, n).Table?
      ensures !ok ==> qTable == map[]
      ensures ok ==> qTable == Insert(map[], ReadEntries(s, n).entries)
    {
      hide Number, ReadRow, ReadEntries, Continues;
      qTable := map[];
      var rest, i := s, 0;
      ghost var done: seq<Entry> := [];
      NothingRead(s, n);
      while i < n
        invariant 0 <= i <= n && Continues(s, n, done, rest, n - i)
        invariant qTable == Insert(map[], done)
      {
        ReadsOn(s, n, done, rest, n - i);
        if |rest| < 12 {
          qTable := map[];
          return false;
        }
        var state, len := Number(rest[..8]), Number(rest[8..12]);
        if |rest| < 12 + 8 * len {
          qTable := map[];
          return false;
        }
        var row := ReadRow(rest[12..], len);
        InsertSnoc(map[], done, Entry(state, row));
        qTable := qTable[state := row];
        done := done + [Entry(state, row)];
        rest := rest[12 + 8 * len..];
        i := i + 1;
      }
      AllRead(s, n, done, rest);
      return true;
    }

    method LoadQTable(s: seq<Byte>, sig: seq<Byte>) returns (ok: bool)
      modifies this
      ensures ok <==> Load(s, sig).Table?
      ensures qTable == match Load(s, sig)
                        case Kept => old(qTable)
                        case Cleared => map[]
                        case Table(es, _) => Insert(map[], es)
    {
      if |s| < 4 {
        return false;
      }
      var len := Number(s[..4]);
      if |s| < 4 + len {
        return false;
      }
      if s[4..4 + len] != sig {
        return false;
      }
      if |s| < 4 + len + 8 {
        return false;
      }
      ok := ReadRows(s[4 + len + 8..], Number(s[4 + len..4 + len + 8]));
    }
  }

  lemma NothingRead(s: seq<Byte>, n: nat)
    ensures Continues(s, n, [], s, n)
  {
    var r := ReadEntries(s, n);
    if r.Table? {
      assert [] + r.entries == r.entries;
    }
  }

  lemma AllRead(s: seq<Byte>, n: nat, done: seq<Entry>, t: seq<Byte>)
    requires Continues(s, n, done, t, 0)
    ensures ReadEntries(s, n).Table? && ReadEntries(s, n).entries == done
  {
  }

  /** `es` lists the rows of `m`, each once. */
  predicate Lists(m: map<Word, Row>, es: seq<Entry>) {
    && (forall k :: 0 <= k < |es| ==> es[k].state in m && m[es[k].state] == es[k].row)
    && (forall j, k :: 0 <= j < k < |es| ==> es[j].state != es[k].state)
    && (forall w :: w in m ==> exists k :: 0 <= k < |es| && es[k].state == w)
  }

  lemma {:induction false} InsertKeys(es: seq<Entry>, n: nat)
    requires n <= |es| && forall j, k :: 0 <= j < k < |es| ==> es[j].state != es[k].state
    ensures var m := Insert(map[], es[..n]);
            && (forall k :: 0 <= k < n ==> es[k].state in m && m[es[k].state] == es[k].row)
            && forall w :: w in m ==> exists k :: 0 <= k < n && es[k].state == w
  {
    if n > 0 {
      InsertKeys(es, n - 1);
      assert es[..n][..n - 1] == es[..n - 1];
    }
  }

  lemma InsertLists(m: map<Word, Row>, es: seq<Entry>)
    requires Lists(m, es)
    ensures Insert(map[], es) == m
  {
    InsertKeys(es, |es|);
    assert es[..|es|] == es;
    var i := Insert(map[], es);
    assert i.Keys == m.Keys;
  }

  /** The entries put into a table one after the other. */
  function Insert(m: map<Word, Row>, es: seq<Entry>): map<Word, Row> {
    if es == [] then m else Insert(m, es[..|es| - 1])[es[|es| - 1].state := es[|es| - 1].row]
  }

  lemma InsertSnoc(m: map<Word, Row>, es: seq<Entry>, e: Entry)
    ensures Insert(m, es + [e]) == Insert(m, es)[e.state := e.row]
  {
    assert (es + [e])[..|es|] == es;
  }

  // ---- A saved table loads back ---------------------------------------------

  lemma WordBack(w: Word)
    ensures Number(Little(w, 8)) == w
  {
    Limits();
    NumberLittle(w, 8);
  }

  lemma {:induction false} RowBack(row: Row, rest: seq<Byte>)
    ensures ReadRow(WordBytes(row) + rest, |row|) == row
  {
    if row != [] {
      hide Number, Little;
      var s := WordBytes(row) + rest;
      WordBack(row[0]);
      assert s[..8] == Little(row[0], 8);
      assert s[8..] == WordBytes(row[1..]) + rest;
      RowBack(row[1..], rest);
      assert row == [row[0]] + row[1..];
    }
  }

  predicate Storable(es: seq<Entry>) {
    forall k :: 0 <= k < |es| ==> |es[k].row| < 0x1_0000_0000
  }

  lemma EntryBack(e: Entry, rest: seq<Byte>)
    requires |e.row| < 0x1_0000_0000
    ensures var s := EntryBytes(e) + rest;
            && |s| >= 12 + 8 * |e.row| && s[12 + 8 * |e.row|..] == rest
            && Number(s[..8]) == e.state && Number(s[8..12]) == |e.row| && ReadRow(s[12..], |e.row|) == e.row
  {
    hide Limit, Little, Number, WordBytes, ReadRow;
    var s := EntryBytes(e) + rest;
    Limits();
    NumberLittle(e.state, 8);
    NumberLittle(|e.row|, 4);
    RowBack(e.row, rest);
    assert s[..8] == Little(e.state, 8);
    assert s[8..12] == Little(|e.row|, 4);
    assert s[12..] == WordBytes(e.row) + rest;
  }

  lemma EntryRead(e: Entry, t: seq<Byte>, n: nat)
    requires |e.row| < 0x1_0000_0000 && n > 0 && ReadEntries(t, n - 1).Table?
    ensures var r := ReadEntries(t, n - 1);
            ReadEntries(EntryBytes(e) + t, n) == Table([e] + r.entries, |EntryBytes(e)| + r.consumed)
  {
    EntryBack(e, t);
    hide EntryBytes, Number, ReadRow;
    assert |EntryBytes(e) + t| == |EntryBytes(e)| + |t|;
  }

  lemma {:induction false} EntriesBack(es: seq<Entry>, rest: seq<Byte>)
    requires Storable(es)
    ensures ReadEntries(EntriesBytes(es) + rest, |es|) == Table(es, |EntriesBytes(es)|)
  {
    if es != [] {
      var e, t := es[0], EntriesBytes(es[1..]) + rest;
      assert EntriesBytes(es) + rest == EntryBytes(e) + t;
      assert es == [e] + es[1..];
      EntriesBack(es[1..], rest);
      hide EntryBytes, ReadEntries;
      EntryRead(e, t, |es|);
    }
  }

  lemma Slices(a: seq<Byte>, b: seq<Byte>, c: seq<Byte>, d: seq<Byte>)
    ensures var s := a + b + c + d;
            && s[..|a|] == a && s[|a|..|a| + |b|] == b
            && s[|a| + |b|..|a| + |b| + |c|] == c && s[|a| + |b| + |c|..] == d
  {
  }

  lemma HeaderBack(sig: seq<Byte>, n: nat, rest: seq<Byte>)
    requires |sig| < 0x1_0000_0000 && n < 0x1_0000_0000_0000_0000
    ensures var s := Little(|sig|, 4) + sig + Little(n, 8) + rest;
            && Number(s[..4]) == |sig| && s[4..4 + |sig|] == sig
            && Number(s[4 + |sig|..4 + |sig| + 8]) == n && s[4 + |sig| + 8..] == rest
  {
    hide Limit, Little, Number;
    Limits();
    NumberLittle(|sig|, 4);
    NumberLittle(n, 8);
    Slices(Little(|sig|, 4), sig, Little(n, 8), rest);
  }

  /** What was saved for the same children is loaded, to the last byte. */
  lemma SaveLoad(sig: seq<Byte>, es: seq<Entry>)
    requires |sig| < 0x1_0000_0000 && |es| < 0x1_0000_0000_0000_0000 && Storable(es)
    ensures Load(FileBytes(sig, es), sig) == Table(es, |FileBytes(sig, es)|)
  {
    hide Little, Number, ReadEntries, EntriesBytes;
    HeaderBack(sig, |es|, EntriesBytes(es));
    EntriesBack(es, []);
    assert EntriesBytes(es) + [] == EntriesBytes(es);
  }

  /** Saving a table and loading it with the same children gives it back. */
  lemma TableSurvives(sig: seq<Byte>, m: map<Word, Row>, es: seq<Entry>)
    requires |sig| < 0x1_0000_0000 && |es| < 0x1_0000_0000_0000_0000 && Storable(es) && Lists(m, es)
    ensures Load(FileBytes(sig, es), sig).Table? && Insert(map[], Load(FileBytes(sig, es), sig).entries) == m
  {
    SaveLoad(sig, es);
    InsertLists(m, es);
  }

  /** A file saved for other children leaves the table as it is. */
  lemma OtherChildren(sig: seq<Byte>, other: seq<Byte>, es: seq<Entry>)
    requires |other| < 0x1_0000_0000 && |es| < 0x1_0000_0000_0000_0000 && sig != other
    ensures Load(FileBytes(other, es), sig) == Kept
  {
    hide Little, Number, ReadEntries, EntriesBytes;
    HeaderBack(other, |es|, EntriesBytes(es));
  }

  // ---- A cut file is never taken for a table ----------------------------------

  lemma {:induction false} ReadEntriesStable(s: seq<Byte>, t: seq<Byte>, n: nat)
    requires ReadEntries(s, n).Table?
    ensures ReadEntries(s + t, n) == ReadEntries(s, n)
  {
    hide *;
    if n == 0 {
      ReadNone(s);
      ReadNone(s + t);
    } else {
      HasFirst(s, n);
      var len := Number(s[8..12]);
      EntrySlices(s, t, 12 + 8 * len);
      ReadFirst(s, n);
      ReadFirst(s + t, n);
      RowStable(s[12..], t, len);
      ReadEntriesStable(s[12 + 8 * len..], t, n - 1);
    }
  }

  lemma ReadNone(s: seq<Byte>)
    ensures ReadEntries(s, 0) == Table([], 0)
  {
  }

  lemma HasFirst(s: seq<Byte>, n: nat)
    requires n > 0 && ReadEntries(s, n).Table?
    ensures |s| >= 12 && |s| >= 12 + 8 * Number(s[8..12])
  {
    hide Number, ReadRow;
  }

  lemma EntrySlices(s: seq<Byte>, t: seq<Byte>, used: nat)
    requires 12 <= used <= |s|
    ensures (s + t)[..8] == s[..8] && (s + t)[8..12] == s[8..12]
    ensures (s + t)[12..] == s[12..] + t && (s + t)[used..] == s[used..] + t
  {
  }

  lemma ReadFirst(s: seq<Byte>, n: nat)
    requires n > 0 && |s| >= 12 && |s| >= 12 + 8 * Number(s[8..12])
    ensures var len := Number(s[8..12]);
            var r := ReadEntries(s[12 + 8 * len..], n - 1);
            && Number(s[..8]) < 0x1_0000_0000_0000_0000
            && ReadEntries(s, n) ==
               if r.Table? then
                 Table([Entry(Number(s[..8]), ReadRow(s[12..], len))] + r.entries, 12 + 8 * len + r.consumed)
               else Cleared
  {
    NumberBelow(s[..8]);
    hide Number, ReadRow;
  }

  lemma {:induction false} RowStable(s: seq<Byte>, t: seq<Byte>, n: nat)
    requires |s| >= 8 * n
    ensures ReadRow(s + t, n) == ReadRow(s, n)
  {
    if n > 0 {
      assert (s + t)[..8] == s[..8] && (s + t)[8..] == s[8..] + t;
      RowStable(s[8..], t, n - 1);
    }
  }

  lemma LoadStable(s: seq<Byte>, t: seq<Byte>, sig: seq<Byte>)
    requires Load(s, sig).Table?
    ensures Load(s + t, sig) == Load(s, sig) && Load(s, sig).consumed <= |s|
  {
    hide Number, ReadEntries;
    var len := Number(s[..4]);
    var at := 4 + len + 8;
    assert (s + t)[..4] == s[..4] && (s + t)[4..4 + len] == s[4..4 + len];
    assert (s + t)[4 + len..at] == s[4 + len..at] && (s + t)[at..] == s[at..] + t;
    ReadEntriesStable(s[at..], t, Number(s[4 + len..at]));
  }

  /** A prefix that ends inside the header leaves the table alone; a longer one
      has the header of the file. */
  lemma HeaderCut(sig: seq<Byte>, n: nat, rest: seq<Byte>, cut: seq<Byte>)
    requires |sig| < 0x1_0000_0000 && n < 0x1_0000_0000_0000_0000
    requires cut <= Little(|sig|, 4) + sig + Little(n, 8) + rest
    ensures Load(cut, sig).Kept? <==> |cut| < 4 + |sig| + 8
  {
    var s := Little(|sig|, 4) + sig + Little(n, 8) + rest;
    HeaderBack(sig, n, rest);
    hide Number, Little, ReadEntries;
    if |cut| >= 4 {
      assert cut[..4] == s[..4];
      if |cut| >= 4 + |sig| {
        assert cut[4..4 + |sig|] == s[4..4 + |sig|];
      }
    }
  }

  /** Main result on the file: no proper prefix of a saved table loads, not even
      in part. One that ends in front of the rows leaves the table in memory as it
      is, any longer one empties it. */
  lemma CutFile(sig: seq<Byte>, es: seq<Entry>, cut: seq<Byte>)
    requires |sig| < 0x1_0000_0000 && |es| < 0x1_0000_0000_0000_0000 && Storable(es)
    requires cut < FileBytes(sig, es)
    ensures Load(cut, sig) == if |cut| < 4 + |sig| + 8 then Kept else Cleared
  {
    var s := FileBytes(sig, es);
    HeaderCut(sig, |es|, EntriesBytes(es), cut);
    SaveLoad(sig, es);
    hide Load, FileBytes;
    assert s == cut + s[|cut|..];
    if Load(cut, sig).Table? {
      LoadStable(cut, s[|cut|..], sig);
    }
  }

  // ---- The signature of the children -----------------------------------------

  function Signature(names: seq<string>): string {
    if names == [] then "" else names[0] + ";" + Signature(names[1..])
  }

  /** Child lists with the same signature are the same, as long as no name
      contains the separator. */
  lemma {:induction false} SignatureInjective(a: seq<string>, b: seq<string>)
    requires forall k :: 0 <= k < |a| ==> ';' !in a[k]
    requires forall k :: 0 <= k < |b| ==> ';' !in b[k]
    requires Signature(a) == Signature(b)
    ensures a == b
  {
    if a != [] && b != [] {
      SplitFirst(a[0], Signature(a[1..]), ';');
      SplitFirst(b[0], Signature(b[1..]), ';');
      var s := Signature(a);
      assert a[0] == Split(s, ';')[0] == b[0];
      assert s[|a[0]| + 1..] == Signature(a[1..]) && s[|b[0]| + 1..] == Signature(b[1..]);
      SignatureInjective(a[1..], b[1..]);
    }
  }
}
