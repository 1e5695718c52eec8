/** The ASCII form of an instruction dependency trace: the decoder prints one
    line per record and the encoder parses such lines back into records. */
module InstDepTrace {
  import opened Text

  datatype Kind = Invalid | Load | Store | Comp

  /** An InstDepRecord message; optional fields may be absent. */
  datatype Record = Record(
    seqNum: nat, pc: Option<nat>, weight: Option<nat>, kind: Kind,
    pAddr: Option<nat>, size: Option<nat>, flags: Option<nat>,
    compDelay: nat, robDep: seq<nat>, regDep: seq<nat>)

  function KindName(k: Kind): string {
    match k
    case Invalid => "INVALID"
    case Load => "LOAD"
    case Store => "STORE"
    case Comp => "COMP"
  }

  function KindOf(name: string): Option<Kind> {
    if name == "INVALID" then Some(Invalid)
    else if name == "LOAD" then Some(Load)
    else if name == "STORE" then Some(Store)
    else if name == "COMP" then Some(Comp)
    else None
  }

  /** What the printer fills in for a missing pc and weight. */
  function WithDefaults(r: Record): Record {
    r.(pc := Some(Or(r.pc, 0)), weight := Some(Or(r.weight, 1)))
  }

  function Or(o: Option<nat>, default: nat): nat {
    if o.Some? then o.value else default
  }

  // ---- Printing ---------------------------------------------------------------

  function Given(o: Option<nat>): seq<string> {
    if o.Some? then [Decimal(o.value)] else []
  }

  /** The comma-separated part of a line. */
  function Fields(r: Record): seq<string> {
    [Decimal(r.seqNum), Decimal(Or(r.pc, 0)), Decimal(Or(r.weight, 1)), KindName(r.kind)] +
    Given(r.pAddr) + Given(r.size) + Given(r.flags) + [Decimal(r.compDelay)]
  }

  function DepsText(ds: seq<nat>): string {
    if ds == [] then "" else DepsText(ds[..|ds| - 1]) + "," + Decimal(ds[|ds| - 1])
  }

  function LineBody(r: Record): string {
    Join(Fields(r), ',') + ":" + DepsText(r.robDep) + ":" + DepsText(r.regDep)
  }

  function PrintAll(rs: seq<Record>): string {
    if rs == [] then "" else PrintAll(rs[..|rs| - 1]) + LineBody(rs[|rs| - 1]) + "\n"
  }

  method WriteDeps(ds: seq<nat>) returns (out: string)
    ensures out == DepsText(ds)
  {
    out := "";
    for i := 0 to |ds|
      invariant out == DepsText(ds[..i])
    {
      assert ds[..i + 1][..i] == ds[..i];
      out := out + "," + Decimal(ds[i]);
    }
    assert ds[..|ds|] == ds;
  }

  lemma {:induction false} JoinSnoc(ps: seq<string>, p: string, c: char)
    requires ps != []
    ensures Join(ps + [p], c) == Join(ps, c) + [c] + p
  {
    if |ps| > 1 {
      assert (ps + [p])[1..] == ps[1..] + [p];
      JoinSnoc(ps[1..], p, c);
    } else {
      assert (ps + [p])[1..] == [p];
    }
  }

  /** One more field of the line. */
  method WriteField(ghost fs: seq<string>, out0: string, f: string) returns (out: string)
    requires fs != [] && out0 == Join(fs, ',')
    ensures out == Join(fs + [f], ',')
  {
    JoinSnoc(fs, f, ',');
    out := out0 + "," + f;
  }

  /** Prints the records of a trace, and counts those with dependences. */
  method PrintTrace(rs: seq<Record>) returns (out: string, numPackets: nat, numRobDeps: nat, numRegDeps: nat)
    ensures out == PrintAll(rs)
    ensures numPackets == |rs|
    ensures numRobDeps == |WithRobDeps(rs, |rs|)|
    ensures numRegDeps == |WithRegDeps(rs, |rs|)|
  {
    hide PrintAll, WithRobDeps, WithRegDeps;
    out, numPackets, numRobDeps, numRegDeps := "", 0, 0, 0;
    NonePrinted(rs);
    for i := 0 to |rs|
      invariant out == PrintAll(rs[..i]) && numPackets == i
      invariant numRobDeps == |WithRobDeps(rs, i)| && numRegDeps == |WithRegDeps(rs, i)|
    {
      hide LineBody;
      OneMorePrinted(rs, i);
      numPackets := numPackets + 1;
      var line := PrintRecord(rs[i]);
      if rs[i].robDep != [] {
        numRobDeps := numRobDeps + 1;
      }
      if rs[i].regDep != [] {
        numRegDeps := numRegDeps + 1;
      }
      out := out + line + "\n";
    }
    assert rs[..|rs|] == rs;
  }

  /** The records among the first `n` that have order dependences. */
  function WithRobDeps(rs: seq<Record>, n: nat): set<int>
    requires n <= |rs|
  {
    set k | 0 <= k < n && rs[k].robDep != []
  }

  function WithRegDeps(rs: seq<Record>, n: nat): set<int>
    requires n <= |rs|
  {
    set k | 0 <= k < n && rs[k].regDep != []
  }

  lemma NonePrinted(rs: seq<Record>)
    ensures PrintAll(rs[..0]) == "" && WithRobDeps(rs, 0) == {} && WithRegDeps(rs, 0) == {}
  {
  }

  lemma OneMorePrinted(rs: seq<Record>, i: nat)
    requires i < |rs|
    ensures PrintAll(rs[..i + 1]) == PrintAll(rs[..i]) + LineBody(rs[i]) + "\n"
    ensures |WithRobDeps(rs, i + 1)| == |WithRobDeps(rs, i)| + if rs[i].robDep != [] then 1 else 0
    ensures |WithRegDeps(rs, i + 1)| == |WithRegDeps(rs, i)| + if rs[i].regDep != [] then 1 else 0
  {
    hide LineBody;
    assert rs[..i + 1][..i] == rs[..i];
    assert WithRobDeps(rs, i + 1) == WithRobDeps(rs, i) + if rs[i].robDep != [] then {i} else {};
    assert WithRegDeps(rs, i + 1) == WithRegDeps(rs, i) + if rs[i].regDep != [] then {i} else {};
  }

  method PrintRecord(r: Record) returns (out: string)
    ensures out == LineBody(r)
  {
    out := PrintFields(r);
    var rob := WriteDeps(r.robDep);
    var reg := WriteDeps(r.regDep);
    out := out + ":" + rob + ":" + reg;
  }

  /** The part of the line in front of the dependences. */
  method PrintFields(r: Record) returns (out: string)
    ensures out == Join(Fields(r), ',')
  {
    hide Decimal, KindName, Join;
    ghost var fs := [Decimal(r.seqNum)];
    out := Decimal(r.seqNum);
    JoinOne(out);
    var pc := if r.pc.Some? then Decimal(r.pc.value) else Decimal(0);
    out := WriteField(fs, out, pc);
    fs := fs + [pc];
    var weight := if r.weight.Some? then Decimal(r.weight.value) else Decimal(1);
    out := WriteField(fs, out, weight);
    fs := fs + [weight];
    out := WriteField(fs, out, KindName(r.kind));
    fs := fs + [KindName(r.kind)];
    out := WriteGiven(fs, out, r.pAddr);
    fs := fs + Given(r.pAddr);
    out := WriteGiven(fs, out, r.size);
    fs := fs + Given(r.size);
    out := WriteGiven(fs, out, r.flags);
    fs := fs + Given(r.flags);
    out := WriteField(fs, out, Decimal(r.compDelay));
    fs := fs + [Decimal(r.compDelay)];
    assert fs == Fields(r);
  }

  /** A field that is written only if the record has it. */
  method WriteGiven(ghost fs: seq<string>, out0: string, o: Option<nat>) returns (out: string)
    requires fs != [] && out0 == Join(fs, ',')
    ensures out == Join(fs + Given(o), ',')
  {
    hide Join;
    out := out0;
    if o.Some? {
      out := WriteField(fs, out, Decimal(o.value));
    } else {
      assert fs + Given(o) == fs;
    }
  }

  lemma JoinOne(s: string)
    ensures Join([s], ',') == s
  {
  }

  // ---- Parsing ---------------------------------------------------------------

  /** `int(s)` assigned to an unsigned field. */
  function ParseField(s: string): Option<nat> {
    match ParseInt(s)
    case Some(n) => if n >= 0 then Some(n) else None
    case None => None
  }

  /** The numbers among the pieces; empty pieces are skipped. */
  function ParseDeps(ps: seq<string>): Option<seq<nat>> {
    if ps == [] then Some([])
    else
      match ParseDeps(ps[..|ps| - 1])
      case None => None
      case Some(ds) =>
        var p := ps[|ps| - 1];
        if p == "" then Some(ds)
        else match ParseField(p)
          case Some(n) => Some(ds + [n])
          case None => None
  }

  /** A parsed line, or `None` where the encoder stops with an error. */
  function ParseLine(line: string): Option<Record> {
    var parts := Split(Strip(line), ':');
    if |parts| != 3 then None
    else
      var info := Split(parts[0], ',');
      if |info| < 5 then None
      else
        match (ParseField(info[0]), ParseField(info[1]), ParseField(info[2]), KindOf(info[3]))
        case (Some(sn), Some(pc), Some(w), Some(k)) =>
          (match (ParseDeps(Split(Strip(parts[1]), ',')), ParseDeps(Split(parts[2], ',')))
           case (Some(rob), Some(reg)) => ParseBody(info, sn, pc, w, k, rob, reg)
           case _ => None)
        case _ => None
  }

  function ParseBody(info: seq<string>, sn: nat, pc: nat, w: nat, k: Kind, rob: seq<nat>, reg: seq<nat>): Option<Record>
    requires |info| >= 5
  {
    if k == Invalid then None
    else if k == Load || k == Store then
      if |info| < 8 then None
      else
        match (ParseField(info[4]), ParseField(info[5]), ParseField(info[6]), ParseField(info[7]))
        case (Some(a), Some(s), Some(f), Some(d)) =>
          Some(Record(sn, Some(pc), Some(w), k, Some(a), Some(s), Some(f), d, rob, reg))
        case _ => None
    else
      match ParseField(info[4])
      case Some(d) => Some(Record(sn, Some(pc), Some(w), k, None, None, None, d, rob, reg))
      case None => None
  }

  /** The lines of a file; the last one may lack its newline. */
  function FileLines(text: string): seq<string> {
    var ps := Split(text, '\n');
    if ps[|ps| - 1] == "" then ps[..|ps| - 1] else ps
  }

  function ParseLines(ls: seq<string>): Option<seq<Record>> {
    if ls == [] then Some([])
    else
      match (ParseLines(ls[..|ls| - 1]), ParseLine(ls[|ls| - 1]))
      case (Some(rs), Some(r)) => Some(rs + [r])
      case _ => None
  }

  /** The parsing loop of the encoder. */
  method ParseTrace(text: string) returns (result: Option<seq<Record>>)
    ensures result == ParseLines(FileLines(text))
  {
    hide ParseLine, FileLines;
    var ls := FileLines(text);
    var rs := [];
    for i := 0 to |ls|
      invariant ParseLines(ls[..i]) == Some(rs)
    {
      assert ls[..i + 1][..i] == ls[..i];
      var r := ParseLine(ls[i]);
      if r == None {
        LinesFail(ls, i + 1);
        return None;
      }
      rs := rs + [r.value];
    }
    assert ls[..|ls|] == ls;
    return Some(rs);
  }

  lemma {:induction false} LinesFail(ls: seq<string>, n: nat)
    requires n <= |ls| && ParseLines(ls[..n]) == None
    ensures ParseLines(ls) == None
  {
    if n == |ls| {
      assert ls[..n] == ls;
    } else {
      assert ls[..|ls| - 1][..n] == ls[..n];
      LinesFail(ls[..|ls| - 1], n);
    }
  }

  // ---- Characters of a line ---------------------------------------------------

  /** No white space, and none of the separators `,` and `:`. */
  predicate Plain(s: string) {
    NoSpace(s) && Free(s, ',') && Free(s, ':')
  }

  predicate AllPlain(ps: seq<string>) {
    forall k :: 0 <= k < |ps| ==> Plain(ps[k])
  }

  lemma DecimalPlain(n: nat)
    ensures Plain(Decimal(n)) && Decimal(n) != ""
  {
  }

  lemma FieldsPlain(r: Record)
    ensures AllPlain(Fields(r))
  {
    hide Decimal;
    forall n: nat ensures Plain(Decimal(n)) {
      DecimalPlain(n);
    }
    assert Plain(KindName(r.kind));
  }

  lemma {:induction false} JoinPlain(ps: seq<string>)
    requires AllPlain(ps)
    ensures NoSpace(Join(ps, ',')) && Free(Join(ps, ','), ':')
  {
    if |ps| > 1 {
      JoinPlain(ps[1..]);
    }
  }

  function Decimals(ds: seq<nat>): (ps: seq<string>)
    ensures |ps| == |ds| && forall k :: 0 <= k < |ds| ==> ps[k] == Decimal(ds[k])
  {
    if ds == [] then [] else Decimals(ds[..|ds| - 1]) + [Decimal(ds[|ds| - 1])]
  }

  /** A dependency list starts with a comma, so its first piece is empty. */
  lemma {:induction false} DepsJoin(ds: seq<nat>)
    ensures DepsText(ds) == Join([""] + Decimals(ds), ',')
    ensures AllPlain([""] + Decimals(ds))
  {
    if ds == [] {
      assert [""] + Decimals(ds) == [""];
    } else {
      var r, d := ds[..|ds| - 1], ds[|ds| - 1];
      DepsJoin(r);
      DecimalPlain(d);
      assert [""] + Decimals(ds) == [""] + Decimals(r) + [Decimal(d)];
      JoinSnoc([""] + Decimals(r), Decimal(d), ',');
    }
  }

  lemma ParseFieldDecimal(n: nat)
    ensures ParseField(Decimal(n)) == Some(n)
  {
    ParseDecimal(n);
  }

  lemma {:induction false} DepsBack(ds: seq<nat>)
    ensures ParseDeps([""] + Decimals(ds)) == Some(ds)
  {
    hide Decimal, ParseField;
    var ps := [""] + Decimals(ds);
    if ds == [] {
      assert ps[..|ps| - 1] == [];
    } else {
      var r, d := ds[..|ds| - 1], ds[|ds| - 1];
      DepsBack(r);
      assert ps[..|ps| - 1] == [""] + Decimals(r) && ps[|ps| - 1] == Decimal(d);
      DecimalPlain(d);
      ParseFieldDecimal(d);
      assert ds == r + [d];
    }
  }

  lemma DepsRoundTrip(ds: seq<nat>)
    ensures ParseDeps(Split(DepsText(ds), ',')) == Some(ds)
    ensures Strip(DepsText(ds)) == DepsText(ds)
    ensures NoSpace(DepsText(ds)) && Free(DepsText(ds), ':')
  {
    hide Decimal, ParseDeps, Strip, Split, DepsText, Decimals;
    DepsJoin(ds);
    SplitJoin([""] + Decimals(ds), ',');
    DepsBack(ds);
    JoinPlain([""] + Decimals(ds));
    StripNoSpace(DepsText(ds));
  }

  lemma JoinThree(x: string, y: string, z: string, c: char)
    ensures Join([x, y, z], c) == x + [c] + y + [c] + z
  {
    assert [x, y, z][1..] == [y, z] && [y, z][1..] == [z];
    assert Join([y, z], c) == y + [c] + z;
    assert x + [c] + (y + [c] + z) == x + [c] + y + [c] + z;
  }

  lemma LinePlain(r: Record)
    ensures NoSpace(LineBody(r))
    ensures Split(LineBody(r), ':') == [Join(Fields(r), ','), DepsText(r.robDep), DepsText(r.regDep)]
  {
    hide Fields, DepsText, Split;
    FieldsPlain(r);
    JoinPlain(Fields(r));
    DepsRoundTrip(r.robDep);
    DepsRoundTrip(r.regDep);
    var ps := [Join(Fields(r), ','), DepsText(r.robDep), DepsText(r.regDep)];
    JoinThree(ps[0], ps[1], ps[2], ':');
    SplitJoin(ps, ':');
  }

  // ---- A line parses back to its record -------------------------------------

  /** Loads and stores carry an address, a size and flags; others do not. */
  predicate WellShaped(r: Record) {
    match r.kind
    case Invalid => false
    case Comp => r.pAddr.None? && r.size.None? && r.flags.None?
    case _ => r.pAddr.Some? && r.size.Some? && r.flags.Some?
  }

  lemma FieldsBack(r: Record)
    ensures var fs := Fields(r);
            && |fs| >= 5
            && ParseField(fs[0]) == Some(r.seqNum) && ParseField(fs[1]) == Some(Or(r.pc, 0))
            && ParseField(fs[2]) == Some(Or(r.weight, 1)) && KindOf(fs[3]) == Some(r.kind)
            && (WellShaped(r) <==>
                ParseBody(fs, r.seqNum, Or(r.pc, 0), Or(r.weight, 1), r.kind, r.robDep, r.regDep) ==
                Some(WithDefaults(r)))
  {
    hide Decimal, ParseField;
    forall n: nat ensures ParseField(Decimal(n)) == Some(n) {
      ParseFieldDecimal(n);
    }
  }

  lemma ParseOfBody(r: Record)
    ensures ParseLine(LineBody(r)) ==
            ParseBody(Fields(r), r.seqNum, Or(r.pc, 0), Or(r.weight, 1), r.kind, r.robDep, r.regDep)
  {
    hide Fields, DepsText, LineBody, ParseField, ParseDeps, ParseBody, Split, Strip, KindOf;
    LinePlain(r);
    StripNoSpace(LineBody(r));
    FieldsPlain(r);
    FieldsBack(r);
    SplitJoin(Fields(r), ',');
    DepsRoundTrip(r.robDep);
    DepsRoundTrip(r.regDep);
  }

  /** Printing and parsing a record gives it back, with the defaults filled in,
      exactly when it is shaped as its type demands. */
  lemma LineRoundTrip(r: Record)
    ensures ParseLine(LineBody(r)) == Some(WithDefaults(r)) <==> WellShaped(r)
  {
    ParseOfBody(r);
    FieldsBack(r);
  }

  // ---- Whole files ------------------------------------------------------------

  function Bodies(rs: seq<Record>): (ps: seq<string>)
    ensures |ps| == |rs| && forall k :: 0 <= k < |rs| ==> ps[k] == LineBody(rs[k])
  {
    if rs == [] then [] else Bodies(rs[..|rs| - 1]) + [LineBody(rs[|rs| - 1])]
  }

  lemma {:induction false} PrintIsJoin(rs: seq<Record>)
    ensures PrintAll(rs) == Join(Bodies(rs) + [""], '\n')
  {
    hide LineBody;
    if rs == [] {
      assert Bodies(rs) + [""] == [""];
    } else {
      var r, x := rs[..|rs| - 1], rs[|rs| - 1];
      PrintIsJoin(r);
      JoinSnoc(Bodies(rs), "", '\n');
      if r == [] {
        assert Bodies(rs) == [LineBody(x)];
      } else {
        JoinSnoc(Bodies(r), LineBody(x), '\n');
        JoinSnoc(Bodies(r), "", '\n');
      }
    }
  }

  lemma LinesOfPrint(rs: seq<Record>)
    ensures FileLines(PrintAll(rs)) == Bodies(rs)
  {
    hide LineBody, PrintAll, Bodies;
    PrintIsJoin(rs);
    var ps := Bodies(rs) + [""];
    forall k | 0 <= k < |ps| ensures Free(ps[k], '\n') {
      if k < |rs| {
        LinePlain(rs[k]);
        NoNewline(LineBody(rs[k]));
      }
    }
    SplitJoin(ps, '\n');
  }

  lemma NoNewline(s: string)
    requires NoSpace(s)
    ensures Free(s, '\n')
  {
  }

  function AllWithDefaults(rs: seq<Record>): (qs: seq<Record>)
    ensures |qs| == |rs| && forall k :: 0 <= k < |rs| ==> qs[k] == WithDefaults(rs[k])
  {
    if rs == [] then [] else AllWithDefaults(rs[..|rs| - 1]) + [WithDefaults(rs[|rs| - 1])]
  }

  lemma {:induction false} LinesRoundTrip(rs: seq<Record>)
    ensures ParseLines(Bodies(rs)) == Some(AllWithDefaults(rs)) <==>
            forall k :: 0 <= k < |rs| ==> WellShaped(rs[k])
  {
    if rs != [] {
      var r, x := rs[..|rs| - 1], rs[|rs| - 1];
      LinesRoundTrip(r);
      LineRoundTrip(x);
      LinesSnoc(rs);
      hide *;
      var p, q := ParseLines(Bodies(r)), ParseLine(LineBody(x));
      if p.Some? && q.Some? {
        SnocEqual(p.value, q.value, AllWithDefaults(r), WithDefaults(x));
      }
    }
  }

  lemma LinesSnoc(rs: seq<Record>)
    requires rs != []
    ensures var r, x := rs[..|rs| - 1], rs[|rs| - 1];
            && ParseLines(Bodies(rs)) ==
               (var p, q := ParseLines(Bodies(r)), ParseLine(LineBody(x));
                if p.Some? && q.Some? then Some(p.value + [q.value]) else None)
            && AllWithDefaults(rs) == AllWithDefaults(r) + [WithDefaults(x)]
            && ((forall k :: 0 <= k < |rs| ==> WellShaped(rs[k])) <==>
                (forall k :: 0 <= k < |r| ==> WellShaped(r[k])) && WellShaped(x))
  {
    hide LineBody, ParseLine, WithDefaults, WellShaped;
    var r, x := rs[..|rs| - 1], rs[|rs| - 1];
    assert rs == r + [x];
    assert Bodies(rs)[..|rs| - 1] == Bodies(r) && Bodies(rs)[|rs| - 1] == LineBody(x);
  }

  lemma SnocEqual(a: seq<Record>, x: Record, b: seq<Record>, y: Record)
    ensures a + [x] == b + [y] <==> a == b && x == y
  {
    if a + [x] == b + [y] {
      assert (a + [x])[..|a|] == a && (b + [y])[..|b|] == b;
      assert (a + [x])[|a|] == x && (b + [y])[|b|] == y;
    }
  }

  /** Main result: a printed trace parses back to its records, with defaults
      filled in, exactly when all of them are well shaped. */
  lemma TraceRoundTrip(rs: seq<Record>)
    ensures ParseLines(FileLines(PrintAll(rs))) == Some(AllWithDefaults(rs)) <==>
            forall k :: 0 <= k < |rs| ==> WellShaped(rs[k])
  {
    LinesOfPrint(rs);
    LinesRoundTrip(rs);
  }
}
