/** Merging checkpoints: memory images are concatenated page by page, physical
    addresses move with them, and sections are renamed apart. */
module CptAggregator {
  import opened Bits
  import opened Text
  import opened CptNames

  const PAGE: nat := 4096

  /** An option of a section. Options named paddr hold a physical address. */
  datatype Item = Plain(key: string, text: string) | Paddr(addr: int) | Number(name: string, value: int)

  datatype Section = Section(name: string, items: seq<Item>)

  /** A checkpoint directory: the sections of m5.cpt, the page count and tick
      they give, and the memory image. */
  datatype Checkpoint = Checkpoint(sections: seq<Section>, pages: nat, curTick: int, image: seq<Byte>)

  datatype Merged = Merged(
    sections: seq<Section>, image: seq<Byte>, pages: nat, paddedPages: nat, maxTick: int)

  // ---- Memory ------------------------------------------------------------------

  /** Pages in front of checkpoint `i` in the merged image. */
  function PagesBefore(cs: seq<Checkpoint>, i: nat): nat
    requires i <= |cs|
  {
    if i == 0 then 0 else PagesBefore(cs, i - 1) + cs[i - 1].pages
  }

  function Min(a: int, b: int): int {
    if a < b then a else b
  }

  /** What reading `pages` pages from an image yields. */
  function Read(c: Checkpoint): seq<Byte> {
    c.image[..Min(|c.image|, PAGE * c.pages)]
  }

  function Images(cs: seq<Checkpoint>): seq<Byte> {
    if cs == [] then [] else Images(cs[..|cs| - 1]) + Read(cs[|cs| - 1])
  }

  predicate Full(c: Checkpoint) {
    |c.image| >= PAGE * c.pages
  }

  /** One page of padding: 4096 characters '0'. */
  function Dummy(): (s: seq<Byte>)
    ensures |s| == PAGE
  {
    seq(PAGE, _ => 48)
  }

  method ReadPages(c: Checkpoint, mem0: seq<Byte>) returns (mem: seq<Byte>)
    ensures mem == mem0 + Read(c)
  {
    mem := mem0;
    var x, pos := 0, 0;
    while x < c.pages
      invariant 0 <= x <= c.pages && pos == Min(|c.image|, PAGE * x)
      invariant mem == mem0 + c.image[..pos]
    {
      var next := Min(|c.image|, pos + PAGE);
      assert c.image[..next] == c.image[..pos] + c.image[pos..next];
      mem := mem + c.image[pos..next];
      pos := next;
      x := x + 1;
    }
  }

  /** Appends whole pages until the image covers `memorySize`. */
  method Pad(mem0: seq<Byte>, pages0: nat, memorySize: int) returns (mem: seq<Byte>, pages: nat)
    ensures mem0 <= mem && pages0 <= pages
    ensures |mem| - |mem0| == PAGE * (pages - pages0)
    ensures forall k :: |mem0| <= k < |mem| ==> mem[k] == 48
    ensures PAGE * pages >= memorySize
    ensures pages > pages0 ==> PAGE * (pages - 1) < memorySize
  {
    mem, pages := mem0, pages0;
    var size := pages * PAGE;
    while size < memorySize
      invariant size == PAGE * pages && pages0 <= pages && mem0 <= mem
      invariant |mem| - |mem0| == PAGE * (pages - pages0)
      invariant forall k :: |mem0| <= k < |mem| ==> mem[k] == 48
      invariant pages > pages0 ==> PAGE * (pages - 1) < memorySize
    {
      mem := mem + Dummy();
      size := size + PAGE;
      pages := pages + 1;
    }
  }

  // ---- Sections ------------------------------------------------------------------

  const LAST_WORD := "FdMap256"

  /** `re.search("workload.FdMap256$", name)` */
  predicate IsFdMap(name: string) {
    && |name| >= 17
    && name[|name| - 17..|name| - 9] == "workload"
    && name[|name| - 9] != '\n'
    && name[|name| - 8..] == LAST_WORD
  }

  function Key(it: Item): string {
    match it
    case Plain(k, _) => k
    case Paddr(_) => "paddr"
    case Number(k, _) => k
  }

  /** `config.set(section, key, value)` */
  function SetItem(items: seq<Item>, it: Item): seq<Item> {
    if items == [] then [it]
    else if Key(items[0]) == Key(it) then [it] + items[1..]
    else [items[0]] + SetItem(items[1..], it)
  }

  function Relocate(items: seq<Item>, offset: nat): (r: seq<Item>)
    ensures |r| == |items|
    ensures forall k :: 0 <= k < |r| ==>
      r[k] == if items[k].Paddr? then Paddr(items[k].addr + PAGE * offset) else items[k]
  {
    if items == [] then []
    else
      Relocate(items[..|items| - 1], offset) +
      [if items[|items| - 1].Paddr? then Paddr(items[|items| - 1].addr + PAGE * offset) else items[|items| - 1]]
  }

  /** The section that checkpoint `i` of `n` contributes for `s`, if any. */
  function Contribution(s: Section, i: nat, n: nat, offset: nat): seq<Section>
    requires i < n
  {
    if HasCpu(s.name) then
      var items := Relocate(s.items, offset);
      [Section(Tagged(s.name, Padded(i, |Decimal(n - 1)|)),
               if IsFdMap(s.name) then SetItem(items, Number("M5_pid", i)) else items)]
    else if s.name == "system" || s.name == "Globals" then []
    else if i == n - 1 then [s]
    else []
  }

  function Contributions(ss: seq<Section>, i: nat, n: nat, offset: nat): seq<Section>
    requires i < n
  {
    if ss == [] then []
    else Contributions(ss[..|ss| - 1], i, n, offset) + Contribution(ss[|ss| - 1], i, n, offset)
  }

  function Sections(cs: seq<Checkpoint>, i: nat): seq<Section>
    requires i <= |cs|
  {
    if i == 0 then []
    else Sections(cs, i - 1) + Contributions(cs[i - 1].sections, i - 1, |cs|, PagesBefore(cs, i - 1))
  }

  /** Sets the size of the memory in its section; `None` if there is none. */
  function SetRange(ss: seq<Section>, size: int): Option<seq<Section>> {
    if ss == [] then None
    else if ss[|ss| - 1].name == "system.physmem.store0" then
      Some(ss[..|ss| - 1] + [ss[|ss| - 1].(items := SetItem(ss[|ss| - 1].items, Number("range_size", size)))])
    else
      match SetRange(ss[..|ss| - 1], size)
      case None => None
      case Some(r) => Some(r + [ss[|ss| - 1]])
  }

  function MaxTick(cs: seq<Checkpoint>): (m: int)
    ensures m >= 0 && forall c :: c in cs ==> c.curTick <= m
    ensures m == 0 || exists c :: c in cs && c.curTick == m
  {
    if cs == [] then 0
    else
      var m := MaxTick(cs[1..]);
      if cs[0].curTick > m then cs[0].curTick else m
  }

  method MergeSections(c: Checkpoint, i: nat, n: nat, offset: nat, out0: seq<Section>) returns (out: seq<Section>)
    requires i < n
    ensures out == out0 + Contributions(c.sections, i, n, offset)
  {
    hide Contribution;
    out := out0;
    for k := 0 to |c.sections|
      invariant out == out0 + Contributions(c.sections[..k], i, n, offset)
    {
      assert c.sections[..k + 1][..k] == c.sections[..k];
      out := out + Contribution(c.sections[k], i, n, offset);
    }
    assert c.sections[..|c.sections|] == c.sections;
  }

  /** The whole merge; `None` where the source fails for want of a section
      system.physmem.store0 in the last checkpoint, or of any checkpoint. */
  method Aggregate(cs: seq<Checkpoint>, memorySize: int) returns (result: Option<Merged>)
    ensures result.None? <==> SetRange(Sections(cs, |cs|), 0).None?
    ensures result.Some? ==>
      var m := result.value;
      && m.pages == PagesBefore(cs, |cs|)
      && Images(cs) <= m.image && |m.image| - |Images(cs)| == PAGE * (m.paddedPages - m.pages)
      && PAGE * m.paddedPages >= memorySize && m.paddedPages >= m.pages
      && m.maxTick == MaxTick(cs)
      && Some(m.sections) == Final(cs, m.paddedPages)
  {
    hide Contributions, Read, SetRange;
    var pagePtr, maxTick := 0, 0;
    var mem: seq<Byte> := [];
    var sections := [];
    for i := 0 to |cs|
      invariant pagePtr == PagesBefore(cs, i)
      invariant mem == Images(cs[..i])
      invariant sections == Sections(cs, i)
      invariant maxTick >= 0 && forall c :: c in cs[..i] ==> c.curTick <= maxTick
      invariant maxTick == 0 || exists c :: c in cs[..i] && c.curTick == maxTick
    {
      assert cs[..i + 1][..i] == cs[..i] && cs[..i + 1] == cs[..i] + [cs[i]];
      sections := MergeSections(cs[i], i, |cs|, pagePtr, sections);
      if cs[i].curTick > maxTick {
        maxTick := cs[i].curTick;
      }
      mem := ReadPages(cs[i], mem);
      pagePtr := pagePtr + cs[i].pages;
    }
    assert cs[..|cs|] == cs;
    var padded;
    mem, padded := Pad(mem, pagePtr, memorySize);
    RangeSome(sections, 0, PAGE * padded);
    var ranged := SetRange(sections, PAGE * padded);
    if ranged.None? {
      return None;
    }
    result := Some(Merged(ranged.value + Closing(pagePtr, |cs|, maxTick), mem, pagePtr, padded, maxTick));
  }

  function Closing(pages: nat, n: nat, tick: int): seq<Section> {
    [Section("system", [Number("pagePtr", pages), Number("nextPID", n)]), Section("Globals", [Number("curTick", tick)])]
  }

  /** The sections of the merged checkpoint, in file order. */
  function Final(cs: seq<Checkpoint>, padded: nat): Option<seq<Section>> {
    match SetRange(Sections(cs, |cs|), PAGE * padded)
    case None => None
    case Some(r) => Some(r + Closing(PagesBefore(cs, |cs|), |cs|, MaxTick(cs)))
  }

  lemma {:induction false} RangeSome(ss: seq<Section>, a: int, b: int)
    ensures SetRange(ss, a).None? <==> SetRange(ss, b).None?
  {
    if ss != [] {
      RangeSome(ss[..|ss| - 1], a, b);
    }
  }

  // ---- Every byte is where its relocated address says --------------------------

  /** The images in front of checkpoint `i` fill exactly the pages in front of
      it when, and only when, each of them has all its pages. */
  lemma {:induction false} OffsetIff(cs: seq<Checkpoint>, i: nat)
    requires i <= |cs|
    ensures |Images(cs[..i])| <= PAGE * PagesBefore(cs, i)
    ensures |Images(cs[..i])| == PAGE * PagesBefore(cs, i) <==> forall j :: 0 <= j < i ==> Full(cs[j])
  {
    if i > 0 {
      OffsetIff(cs, i - 1);
      assert cs[..i][..i - 1] == cs[..i - 1];
      assert (forall j :: 0 <= j < i ==> Full(cs[j])) <==>
             (forall j :: 0 <= j < i - 1 ==> Full(cs[j])) && Full(cs[i - 1]);
    }
  }

  lemma {:induction false} ImagesGrow(cs: seq<Checkpoint>, i: nat)
    requires i <= |cs|
    ensures Images(cs[..i]) <= Images(cs)
  {
    if i == |cs| {
      assert cs[..i] == cs;
    } else {
      ImagesGrow(cs[..|cs| - 1], i);
      assert cs[..|cs| - 1][..i] == cs[..i];
    }
  }

  lemma {:induction false} PagesGrow(cs: seq<Checkpoint>, i: nat, j: nat)
    requires i < j <= |cs|
    ensures PagesBefore(cs, i) + cs[i].pages <= PagesBefore(cs, j)
  {
    if i + 1 < j {
      PagesGrow(cs, i, j - 1);
    }
  }

  /** Main result on memory: in the merged image, the byte at the relocated
      address is the byte that the checkpoint had at the original address. */
  lemma ByteRelocated(cs: seq<Checkpoint>, image: seq<Byte>, i: nat, addr: nat)
    requires i < |cs| && (forall j :: 0 <= j < i ==> Full(cs[j])) && Images(cs) <= image
    requires addr < PAGE * cs[i].pages && addr < |cs[i].image|
    ensures addr + PAGE * PagesBefore(cs, i) < |image|
    ensures image[addr + PAGE * PagesBefore(cs, i)] == cs[i].image[addr]
  {
    var b := Images(cs[..i]);
    OffsetIff(cs, i);
    ImagesGrow(cs, i + 1);
    assert cs[..i + 1][..i] == cs[..i];
    assert b + Read(cs[i]) <= image;
    assert (b + Read(cs[i]))[|b| + addr] == Read(cs[i])[addr];
  }

  /** Addresses of different checkpoints stay apart. */
  lemma RegionsDisjoint(cs: seq<Checkpoint>, i: nat, j: nat, a: nat, b: nat)
    requires i < |cs| && j < |cs| && i != j
    requires a < PAGE * cs[i].pages && b < PAGE * cs[j].pages
    ensures a + PAGE * PagesBefore(cs, i) != b + PAGE * PagesBefore(cs, j)
  {
    if i < j {
      PagesGrow(cs, i, j);
    } else {
      PagesGrow(cs, j, i);
    }
  }

  /** The padded image has as many bytes as the page count says exactly when
      every checkpoint has all its pages. */
  lemma PaddedSize(cs: seq<Checkpoint>, image: seq<Byte>, padded: nat)
    requires |image| - |Images(cs)| == PAGE * (padded - PagesBefore(cs, |cs|))
    ensures |image| == PAGE * padded <==> forall j :: 0 <= j < |cs| ==> Full(cs[j])
  {
    OffsetIff(cs, |cs|);
    assert cs[..|cs|] == cs;
  }

  // ---- No two sections of the merged file share a name -------------------------

  predicate Distinct(ss: seq<Section>) {
    forall i, j :: 0 <= i < j < |ss| ==> ss[i].name != ss[j].name
  }

  predicate Apart(a: seq<Section>, b: seq<Section>) {
    forall i, j :: 0 <= i < |a| && 0 <= j < |b| ==> a[i].name != b[j].name
  }

  lemma DistinctAppend(a: seq<Section>, b: seq<Section>)
    requires Distinct(a) && Distinct(b) && Apart(a, b)
    ensures Distinct(a + b)
  {
  }

  /** `name` is the new name of some section of checkpoint `i`. */
  ghost predicate NamedBy(name: string, ss: seq<Section>, i: nat, n: nat)
    requires i < n
  {
    exists k :: 0 <= k < |ss| && Renames(name, ss[k].name, i, n)
  }

  predicate Renames(name: string, was: string, i: nat, n: nat)
    requires i < n
  {
    if HasCpu(was) then name == Tagged(was, Padded(i, |Decimal(n - 1)|))
    else name == was && i == n - 1 && was != "system" && was != "Globals"
  }

  /** New names determine the checkpoint and the old name. */
  lemma RenamesInjective(name: string, a: string, i: nat, b: string, j: nat, n: nat)
    requires i < n && j < n && Renames(name, a, i, n) && Renames(name, b, j, n)
    ensures i == j && a == b
  {
    hide Decimal, Padded, Tagged, HasCpu;
    TagUndone(a, Padded(i, |Decimal(n - 1)|));
    TagUndone(b, Padded(j, |Decimal(n - 1)|));
    if HasCpu(a) {
      RenameInjective(i, j, n - 1, a, b);
    }
  }

  lemma {:induction false} ContributionNames(ss: seq<Section>, i: nat, n: nat, offset: nat)
    requires i < n && Distinct(ss)
    ensures Distinct(Contributions(ss, i, n, offset))
    ensures forall k :: 0 <= k < |Contributions(ss, i, n, offset)| ==>
      NamedBy(Contributions(ss, i, n, offset)[k].name, ss, i, n)
  {
    if ss != [] {
      var r, s := ss[..|ss| - 1], ss[|ss| - 1];
      ContributionNames(r, i, n, offset);
      var a, b := Contributions(r, i, n, offset), Contribution(s, i, n, offset);
      hide Contributions, Contribution, Renames;
      OneContribution(s, i, n, offset);
      forall p | 0 <= p < |a|
        ensures NamedBy(a[p].name, ss, i, n) && forall q :: 0 <= q < |b| ==> a[p].name != b[q].name
      {
        var k :| 0 <= k < |r| && Renames(a[p].name, r[k].name, i, n);
        assert ss[k] == r[k] && ss[|r|] == s;
        forall q | 0 <= q < |b| ensures a[p].name != b[q].name {
          if a[p].name == b[q].name {
            RenamesInjective(a[p].name, ss[k].name, i, s.name, i, n);
          }
        }
      }
      forall q | 0 <= q < |b| ensures NamedBy(b[q].name, ss, i, n) {
        assert ss[|r|] == s;
      }
      DistinctAppend(a, b);
    }
  }

  lemma OneContribution(s: Section, i: nat, n: nat, offset: nat)
    requires i < n
    ensures var b := Contribution(s, i, n, offset);
            |b| <= 1 && forall q :: 0 <= q < |b| ==> Renames(b[q].name, s.name, i, n)
  {
    hide Relocate, SetItem, Tagged, Padded;
  }

  predicate DistinctNames(cs: seq<Checkpoint>) {
    forall i :: 0 <= i < |cs| ==> Distinct(cs[i].sections)
  }

  /** `name` is the new name of a section of one of the first `i` checkpoints. */
  ghost predicate FromSome(name: string, cs: seq<Checkpoint>, i: nat)
    requires i <= |cs|
  {
    exists j :: 0 <= j < i && NamedBy(name, cs[j].sections, j, |cs|)
  }

  ghost predicate AllNamed(ss: seq<Section>, cs: seq<Checkpoint>, i: nat)
    requires i <= |cs|
  {
    forall k :: 0 <= k < |ss| ==> FromSome(ss[k].name, cs, i)
  }

  lemma {:induction false} SectionNames(cs: seq<Checkpoint>, i: nat)
    requires i <= |cs| && DistinctNames(cs)
    ensures Distinct(Sections(cs, i)) && AllNamed(Sections(cs, i), cs, i)
  {
    hide *;
    if i == 0 {
      NoSections(cs);
    } else {
      var offset, ss := PagesBefore(cs, i - 1), cs[i - 1].sections;
      SectionNames(cs, i - 1);
      SectionsNext(cs, i);
      NamesDistinct(cs, i - 1);
      ContributionNames(ss, i - 1, |cs|, offset);
      NamesAppend(cs, i, Sections(cs, i - 1), Contributions(ss, i - 1, |cs|, offset));
    }
  }

  lemma NoSections(cs: seq<Checkpoint>)
    ensures Sections(cs, 0) == [] && Distinct([]) && AllNamed([], cs, 0)
  {
  }

  lemma NamesDistinct(cs: seq<Checkpoint>, i: nat)
    requires i < |cs| && DistinctNames(cs)
    ensures Distinct(cs[i].sections)
  {
  }

  lemma NamesAppend(cs: seq<Checkpoint>, i: nat, a: seq<Section>, b: seq<Section>)
    requires 0 < i <= |cs| && Distinct(a) && AllNamed(a, cs, i - 1) && Distinct(b)
    requires forall k :: 0 <= k < |b| ==> NamedBy(b[k].name, cs[i - 1].sections, i - 1, |cs|)
    ensures Distinct(a + b) && AllNamed(a + b, cs, i)
  {
    hide *;
    NamedApart(cs, i, a, b);
    DistinctAppend(a, b);
    NamedAppend(cs, i, a, b);
  }

  lemma SectionsNext(cs: seq<Checkpoint>, i: nat)
    requires 0 < i <= |cs|
    ensures Sections(cs, i) ==
            Sections(cs, i - 1) + Contributions(cs[i - 1].sections, i - 1, |cs|, PagesBefore(cs, i - 1))
  {
    hide Contributions, PagesBefore;
  }

  lemma NamedAppend(cs: seq<Checkpoint>, i: nat, a: seq<Section>, b: seq<Section>)
    requires 0 < i <= |cs| && AllNamed(a, cs, i - 1)
    requires forall k :: 0 <= k < |b| ==> NamedBy(b[k].name, cs[i - 1].sections, i - 1, |cs|)
    ensures AllNamed(a + b, cs, i)
  {
    hide NamedBy;
    forall k | 0 <= k < |a + b| ensures FromSome((a + b)[k].name, cs, i) {
      if k < |a| {
        assert FromSome(a[k].name, cs, i - 1);
        var j :| 0 <= j < i - 1 && NamedBy(a[k].name, cs[j].sections, j, |cs|);
      } else {
        assert NamedBy(b[k - |a|].name, cs[i - 1].sections, i - 1, |cs|);
      }
    }
  }

  /** Sections of earlier checkpoints and sections of the next one. */
  lemma NamedApart(cs: seq<Checkpoint>, i: nat, a: seq<Section>, b: seq<Section>)
    requires 0 < i <= |cs| && AllNamed(a, cs, i - 1)
    requires forall k :: 0 <= k < |b| ==> NamedBy(b[k].name, cs[i - 1].sections, i - 1, |cs|)
    ensures Apart(a, b)
  {
    hide NamedBy;
    forall p, q | 0 <= p < |a| && 0 <= q < |b| ensures a[p].name != b[q].name {
      assert FromSome(a[p].name, cs, i - 1);
      var j :| 0 <= j < i - 1 && NamedBy(a[p].name, cs[j].sections, j, |cs|);
      if a[p].name == b[q].name {
        NamedOnce(a[p].name, cs, j, i - 1);
      }
    }
  }

  lemma NamedOnce(name: string, cs: seq<Checkpoint>, i: nat, j: nat)
    requires i < |cs| && j < |cs|
    requires NamedBy(name, cs[i].sections, i, |cs|) && NamedBy(name, cs[j].sections, j, |cs|)
    ensures i == j
  {
    var a, b := cs[i].sections, cs[j].sections;
    var k :| 0 <= k < |a| && Renames(name, a[k].name, i, |cs|);
    var l :| 0 <= l < |b| && Renames(name, b[l].name, j, |cs|);
    RenamesInjective(name, a[k].name, i, b[l].name, j, |cs|);
  }

  lemma {:induction false} RangeKeepsNames(ss: seq<Section>, size: int)
    ensures var r := SetRange(ss, size);
            r.Some? ==> |r.value| == |ss| && forall k :: 0 <= k < |ss| ==>
              r.value[k].name == ss[k].name && (ss[k].name != "system.physmem.store0" ==> r.value[k] == ss[k])
  {
    if ss != [] {
      RangeKeepsNames(ss[..|ss| - 1], size);
      assert forall k :: 0 <= k < |ss| - 1 ==> ss[k] == ss[..|ss| - 1][k];
    }
  }

  lemma NotClosing(name: string, cs: seq<Checkpoint>, i: nat)
    requires i < |cs| && NamedBy(name, cs[i].sections, i, |cs|)
    ensures name != "system" && name != "Globals"
  {
    var ss := cs[i].sections;
    var k :| 0 <= k < |ss| && Renames(name, ss[k].name, i, |cs|);
    TagUndone(ss[k].name, Padded(i, |Decimal(|cs| - 1)|));
    assert !HasCpu("system") && !HasCpu("Globals") by {
      NoCpu();
    }
  }

  lemma NoCpu()
    ensures !HasCpu("system") && !HasCpu("Globals")
  {
    FreeOfC("system");
    FreeOfC("Globals");
  }

  lemma {:induction false} FreeOfC(s: string)
    requires 'c' !in s
    ensures !HasCpu(s)
  {
    if s != "" {
      FreeOfC(s[1..]);
    }
  }

  /** Main result on sections: if no checkpoint repeats a section name, neither
      does the merged file, so nothing is overwritten or rejected. */
  lemma MergedNamesDistinct(cs: seq<Checkpoint>, padded: nat)
    requires DistinctNames(cs)
    ensures Final(cs, padded).Some? ==> Distinct(Final(cs, padded).value)
  {
    hide Sections, SetRange, NamedBy;
    var ss := Sections(cs, |cs|);
    SectionNames(cs, |cs|);
    RangeKeepsNames(ss, PAGE * padded);
    var r := SetRange(ss, PAGE * padded);
    if r.Some? {
      var c := Closing(PagesBefore(cs, |cs|), |cs|, MaxTick(cs));
      forall p, q | 0 <= p < |r.value| && 0 <= q < |c| ensures r.value[p].name != c[q].name {
        assert FromSome(ss[p].name, cs, |cs|);
        var j :| 0 <= j < |cs| && NamedBy(ss[p].name, cs[j].sections, j, |cs|);
        NotClosing(ss[p].name, cs, j);
      }
      assert c[0].name != c[1].name;
      DistinctAppend(r.value, c);
    }
  }

  // ---- Addresses in the merged file ---------------------------------------------

  lemma {:induction false} SetKeepsAddress(items: seq<Item>, it: Item, q: nat)
    requires q < |items| && items[q].Paddr? && Key(it) != "paddr"
    ensures q < |SetItem(items, it)| && SetItem(items, it)[q] == items[q]
  {
    if q > 0 && Key(items[0]) != Key(it) {
      SetKeepsAddress(items[1..], it, q - 1);
    }
  }

  /** Section `t` is section `s` of checkpoint `i` with the address in item `q`
      moved by the pages in front of the checkpoint. */
  ghost predicate Moved(t: Section, s: Section, q: nat, cs: seq<Checkpoint>, i: nat)
    requires q < |s.items| && s.items[q].Paddr? && i < |cs|
  {
    && t.name == Tagged(s.name, Padded(i, |Decimal(|cs| - 1)|))
    && q < |t.items| && t.items[q] == Paddr(s.items[q].addr + PAGE * PagesBefore(cs, i))
  }

  lemma ContributionMoves(cs: seq<Checkpoint>, i: nat, s: Section, q: nat)
    requires i < |cs| && HasCpu(s.name) && q < |s.items| && s.items[q].Paddr?
    ensures var b := Contribution(s, i, |cs|, PagesBefore(cs, i)); |b| == 1 && Moved(b[0], s, q, cs, i)
  {
    hide Tagged, Padded, Decimal, HasCpu, SetItem, PagesBefore;
    var items := Relocate(s.items, PagesBefore(cs, i));
    SetKeepsAddress(items, Number("M5_pid", i), q);
  }

  lemma {:induction false} ContributionsHold(ss: seq<Section>, k: nat, i: nat, n: nat, offset: nat)
    requires i < n && k < |ss|
    ensures forall t :: t in Contribution(ss[k], i, n, offset) ==> t in Contributions(ss, i, n, offset)
  {
    hide Contribution;
    if k < |ss| - 1 {
      assert ss[..|ss| - 1][k] == ss[k];
      ContributionsHold(ss[..|ss| - 1], k, i, n, offset);
    }
  }

  lemma {:induction false} SectionsHold(cs: seq<Checkpoint>, i: nat, m: nat, t: Section)
    requires i < m <= |cs| && t in Contributions(cs[i].sections, i, |cs|, PagesBefore(cs, i))
    ensures t in Sections(cs, m)
  {
    hide Contributions, PagesBefore;
    if i < m - 1 {
      SectionsHold(cs, i, m - 1, t);
    }
  }

  lemma NoCpuInStore(name: string)
    requires HasCpu(name)
    ensures name != "system.physmem.store0"
  {
    hide HasCpu;
    FreeOfC("system.physmem.store0");
  }

  /** Main result on the merge: every address of a CPU section of any checkpoint
      is in the merged file, in the renamed section and at the same item, and
      finds in the merged image the byte that it named before. */
  lemma AddressFollowsByte(cs: seq<Checkpoint>, image: seq<Byte>, padded: nat, i: nat, k: nat, q: nat) returns (p: nat)
    requires i < |cs| && k < |cs[i].sections| && Final(cs, padded).Some?
    requires var s := cs[i].sections[k]; HasCpu(s.name) && q < |s.items| && s.items[q].Paddr?
    ensures p < |Final(cs, padded).value| && Moved(Final(cs, padded).value[p], cs[i].sections[k], q, cs, i)
    ensures var was, now := cs[i].sections[k].items[q].addr, Final(cs, padded).value[p].items[q].addr;
            && (forall j :: 0 <= j < i ==> Full(cs[j])) && Images(cs) <= image
            && 0 <= was < PAGE * cs[i].pages && was < |cs[i].image| ==>
              0 <= now < |image| && image[now] == cs[i].image[was]
  {
    hide Sections, SetRange, Contributions, Contribution, Images, Tagged, Padded, HasCpu, PagesBefore, Closing;
    var s := cs[i].sections[k];
    ContributionMoves(cs, i, s, q);
    var t := Contribution(s, i, |cs|, PagesBefore(cs, i))[0];
    ContributionsHold(cs[i].sections, k, i, |cs|, PagesBefore(cs, i));
    SectionsHold(cs, i, |cs|, t);
    var ss := Sections(cs, |cs|);
    p :| 0 <= p < |ss| && ss[p] == t;
    TagUndone(s.name, Padded(i, |Decimal(|cs| - 1)|));
    NoCpuInStore(t.name);
    RangeKeepsNames(ss, PAGE * padded);
    var was := s.items[q].addr;
    if && (forall j :: 0 <= j < i ==> Full(cs[j])) && Images(cs) <= image
       && 0 <= was < PAGE * cs[i].pages && was < |cs[i].image| {
      ByteRelocated(cs, image, i, was);
    }
  }
}
