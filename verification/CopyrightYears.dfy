/** Years in copyright lines: a set of years is printed as ranges, and such
    text is read back as a set. */
module CopyrightYears {
  import opened Finite
  import opened Text

  datatype Range = Range(first: nat, second: nat)

  function Span(a: int, b: int): (s: set<int>)
    ensures forall y :: y in s <==> a <= y <= b
    decreases b - a
  {
    if a > b then {} else Span(a, b - 1) + {b}
  }

  function Years(r: Range): set<int> {
    Span(r.first, r.second)
  }

  function AllYears(rs: seq<Range>): set<int> {
    if rs == [] then {} else AllYears(rs[..|rs| - 1]) + Years(rs[|rs| - 1])
  }

  /** The ranges are increasing and no two of them touch. */
  predicate Separate(rs: seq<Range>) {
    && (forall k :: 0 <= k < |rs| ==> rs[k].first <= rs[k].second)
    && (forall j, k :: 0 <= j < k < |rs| ==> rs[j].second + 1 < rs[k].first)
  }

  // ---- Printing -----------------------------------------------------------------

  function RangeText(r: Range): string {
    if r.first == r.second then Decimal(r.first) else Decimal(r.first) + "-" + Decimal(r.second)
  }

  function Texts(rs: seq<Range>): (ts: seq<string>)
    ensures |ts| == |rs| && forall k :: 0 <= k < |rs| ==> ts[k] == RangeText(rs[k])
  {
    if rs == [] then [] else Texts(rs[..|rs| - 1]) + [RangeText(rs[|rs| - 1])]
  }

  predicate Increasing(s: seq<nat>) {
    forall i, j :: 0 <= i < j < |s| ==> s[i] < s[j]
  }

  /** The years `done` are those of `ranges` and of the run from `first` to
      `second`, which is still growing. */
  predicate Grouped(ranges: seq<Range>, first: nat, second: nat, done: seq<nat>) {
    && done != [] && second == done[|done| - 1]
    && Separate(ranges + [Range(first, second)])
    && AllYears(ranges + [Range(first, second)]) == Elems(done)
  }

  lemma GroupFirst(first: nat)
    ensures Grouped([], first, first, [first])
  {
    assert [] + [Range(first, first)] == [Range(first, first)];
    YearsSnoc([], Range(first, first));
  }

  lemma GroupNext(ranges: seq<Range>, first: nat, second: nat, done: seq<nat>, next: nat)
    requires Grouped(ranges, first, second, done) && Increasing(done + [next])
    ensures next == second + 1 ==> Grouped(ranges, first, next, done + [next])
    ensures next != second + 1 ==> Grouped(ranges + [Range(first, second)], next, next, done + [next])
  {
    if next == second + 1 {
      GroupGrows(ranges, first, second, done, next);
    } else {
      GroupStarts(ranges, first, second, done, next);
    }
  }

  lemma GroupGrows(ranges: seq<Range>, first: nat, second: nat, done: seq<nat>, next: nat)
    requires Grouped(ranges, first, second, done) && Increasing(done + [next]) && next == second + 1
    ensures Grouped(ranges, first, next, done + [next])
  {
    LastYear(done, next, second);
    hide Span, AllYears, Elems, Separate, Increasing;
    YearsSnoc(ranges, Range(first, second));
    YearsSnoc(ranges, Range(first, next));
    SeparateSnoc(ranges, Range(first, second));
    SeparateSnoc(ranges, Range(first, next));
    OneYearMore(first, second);
  }

  lemma GroupStarts(ranges: seq<Range>, first: nat, second: nat, done: seq<nat>, next: nat)
    requires Grouped(ranges, first, second, done) && Increasing(done + [next]) && next != second + 1
    ensures Grouped(ranges + [Range(first, second)], next, next, done + [next])
  {
    LastYear(done, next, second);
    var r := ranges + [Range(first, second)];
    hide Span, AllYears, Elems, Separate, Increasing;
    YearsSnoc(r, Range(next, next));
    SeparateSnoc(ranges, Range(first, second));
    SeparateSnoc(r, Range(next, next));
    assert Years(Range(next, next)) == {next};
    forall k | 0 <= k < |r| ensures r[k].second + 1 < next {
      assert k < |ranges| ==> r[k] == ranges[k];
    }
  }

  lemma OneYearMore(first: nat, second: nat)
    requires first <= second
    ensures Years(Range(first, second + 1)) == Years(Range(first, second)) + {second + 1}
  {
    hide Span;
  }

  lemma LastYear(done: seq<nat>, next: nat, second: nat)
    requires done != [] && second == done[|done| - 1] && Increasing(done + [next])
    ensures second < next && Elems(done + [next]) == Elems(done) + {next}
  {
    var d := done + [next];
    assert d[|done| - 1] == second && d[|done|] == next;
  }

  lemma SeparateSnoc(rs: seq<Range>, r: Range)
    ensures Separate(rs + [r]) <==>
            Separate(rs) && r.first <= r.second && forall k :: 0 <= k < |rs| ==> rs[k].second + 1 < r.first
  {
    var q := rs + [r];
    assert q[|rs|] == r && forall k :: 0 <= k < |rs| ==> q[k] == rs[k];
  }

  lemma YearsSnoc(rs: seq<Range>, r: Range)
    ensures AllYears(rs + [r]) == AllYears(rs) + Years(r)
  {
    assert (rs + [r])[..|rs|] == rs;
  }

  lemma TextsSnoc(rs: seq<Range>, r: Range)
    ensures Texts(rs + [r]) == Texts(rs) + [RangeText(r)]
  {
    assert (rs + [r])[..|rs|] == rs;
  }

  /** Prints a sorted list of years; `None` where the source fails on an empty
      one. The ranges are those that the text names. */
  method DateStr(sorted: seq<nat>) returns (text: Option<string>, ranges: seq<Range>)
    requires Increasing(sorted)
    ensures text == if sorted == [] then None else Some(Join(Texts(ranges), ','))
    ensures Separate(ranges) && AllYears(ranges) == Elems(sorted)
    ensures ranges == [] <==> sorted == []
  {
    hide AllYears, Join, Grouped, RangeText, Texts, Separate, Increasing, Elems;
    ranges := [];
    var output: seq<string> := [];
    NoYears();
    if sorted == [] {
      return None, [];
    }
    var dates := sorted[1..];
    var first, second := sorted[0], sorted[0];
    ghost var k := 1;
    assert sorted[..1] == [first];
    GroupFirst(first);
    while dates != []
      invariant 1 <= k <= |sorted| && dates == sorted[k..]
      invariant Grouped(ranges, first, second, sorted[..k])
      invariant output == Texts(ranges)
      decreases |dates|
    {
      var next := dates[0];
      dates := dates[1..];
      FrontIncreasing(sorted, k);
      GroupNext(ranges, first, second, sorted[..k], next);
      if next == second + 1 {
        second := next;
      } else {
        TextsSnoc(ranges, Range(first, second));
        output := output + [RangeText(Range(first, second))];
        ranges := ranges + [Range(first, second)];
        first, second := next, next;
      }
      k := k + 1;
    }
    assert sorted[..k] == sorted;
    GroupDone(ranges, first, second, sorted);
    TextsSnoc(ranges, Range(first, second));
    output := output + [RangeText(Range(first, second))];
    ranges := ranges + [Range(first, second)];
    text := Some(Join(output, ','));
  }

  lemma NoYears()
    ensures Separate([]) && AllYears([]) == {} == Elems<nat>([]) && Texts([]) == []
  {
  }

  lemma FrontIncreasing(sorted: seq<nat>, k: nat)
    requires Increasing(sorted) && k < |sorted|
    ensures sorted[..k + 1] == sorted[..k] + [sorted[k]] && Increasing(sorted[..k] + [sorted[k]])
  {
    assert sorted[..k + 1] == sorted[..k] + [sorted[k]];
  }

  lemma GroupDone(ranges: seq<Range>, first: nat, second: nat, done: seq<nat>)
    requires Grouped(ranges, first, second, done)
    ensures Separate(ranges + [Range(first, second)]) && AllYears(ranges + [Range(first, second)]) == Elems(done)
  {
  }

  // ---- Reading ------------------------------------------------------------------

  /** `([0-9]{4})\s*-\s*([0-9]{4})` at the start of `d` */
  function MatchRange(d: string): Option<Range> {
    if |d| < 4 || !Digits(d[..4]) then None
    else
      var r := StripLeft(d[4..]);
      if r == "" || r[0] != '-' then None
      else
        var t := StripLeft(r[1..]);
        if |t| < 4 || !Digits(t[..4]) then None
        else Some(Range(Value(d[..4]), Value(t[..4])))
  }

  function PieceYears(d: string): set<int> {
    match MatchRange(d)
    case Some(r) => Years(r)
    case None =>
      match ParseInt(d)
      case Some(n) => {n}
      case None => {}
  }

  function ReadPieces(ps: seq<string>): set<int> {
    if ps == [] then {} else ReadPieces(ps[..|ps| - 1]) + PieceYears(Strip(ps[|ps| - 1]))
  }

  function ReadYears(text: string): set<int> {
    ReadPieces(Split(text, ','))
  }

  method AddRange(years: set<int>, r: Range) returns (output: set<int>)
    ensures output == years + Years(r)
  {
    output := years;
    var i: int := r.first;
    while i <= r.second
      invariant r.first <= i && (i <= r.second + 1 || i == r.first)
      invariant output == years + Span(r.first, i - 1)
    {
      output := output + {i};
      i := i + 1;
    }
  }

  method ProcessDates(text: string) returns (output: set<int>)
    ensures output == ReadYears(text)
  {
    hide Split, Strip, MatchRange, ParseInt, Years;
    var dates := Split(text, ',');
    output := {};
    for k := 0 to |dates|
      invariant output == ReadPieces(dates[..k])
    {
      assert dates[..k + 1][..k] == dates[..k];
      var date := Strip(dates[k]);
      var m := MatchRange(date);
      if m.Some? {
        output := AddRange(output, m.value);
      } else {
        var n := ParseInt(date);
        if n.Some? {
          output := output + {n.value};
        }
      }
    }
    assert dates[..|dates|] == dates;
  }

  // ---- Reading back what was printed -------------------------------------------

  /** The ranges that the pattern for four-digit years can read. */
  predicate Readable(r: Range) {
    r.first == r.second || (1000 <= r.first && r.second <= 9999)
  }

  lemma DecimalLength(n: nat)
    ensures |Decimal(n)| < 4 <==> n < 1000
    ensures |Decimal(n)| == 4 <==> 1000 <= n <= 9999
  {
    hide Decimal;
    DigitCount(n);
    DigitCount(n / 10);
    DigitCount(n / 100);
    DigitCount(n / 1000);
    assert n / 10 / 10 == n / 100 && n / 100 / 10 == n / 1000;
    if n >= 10000 {
      DigitCount(n / 10000);
      assert n / 1000 / 10 == n / 10000;
    }
  }

  lemma DigitCount(n: nat)
    ensures |Decimal(n)| == if n < 10 then 1 else |Decimal(n / 10)| + 1
  {
  }

  lemma FourDigits(s: string)
    requires Digits(s) && |s| == 4
    ensures Value(s) <= 9999
  {
    var a, b := s[..3], s[..2];
    assert a[..2] == b && b[..1] == [s[0]];
    assert Value(b) <= 99;
    assert Value(a) <= 999;
  }

  lemma OneYear(n: nat)
    ensures PieceYears(Decimal(n)) == {n}
  {
    var d := Decimal(n);
    ParseDecimal(n);
    if |d| > 4 {
      assert d[4..][0] == d[4];
    }
    assert MatchRange(d) == None;
  }

  lemma StripLeftDigit(s: string)
    requires s != "" && !IsSpace(s[0])
    ensures StripLeft(s) == s
  {
  }

  lemma DashText(a: string, b: string)
    requires Digits(a) && Digits(b)
    ensures NoSpace(a + "-" + b) && ParseInt(a + "-" + b) == None
  {
    var d := a + "-" + b;
    StripNoSpace(d);
    assert d[|a|] == '-' && d[0] == a[0];
    assert !IsDigit(d[|a|]);
  }

  lemma MatchDash(a: string, b: string)
    requires Digits(a) && Digits(b)
    ensures MatchRange(a + "-" + b) ==
            if |a| != 4 || |b| < 4 then None else Some(Range(Value(a), Value(b[..4])))
  {
    var d := a + "-" + b;
    if |a| < 4 {
      assert |d| >= 4 ==> d[..4][|a|] == '-';
    } else {
      assert d[..4] == a[..4];
      var r := d[4..];
      StripLeftDigit(r);
      if |a| > 4 {
        assert r[0] == a[4];
      } else {
        assert a[..4] == a;
        assert r[1..] == b;
        StripLeftDigit(b);
      }
    }
  }

  /** A printed range is read back whole if it is readable. Otherwise its last
      year is lost, and no year outside it is read. */
  lemma PieceExact(r: Range)
    requires r.first <= r.second
    ensures Readable(r) ==> PieceYears(RangeText(r)) == Years(r)
    ensures !Readable(r) ==> r.second !in PieceYears(RangeText(r))
    ensures PieceYears(RangeText(r)) <= Years(r)
    ensures NoSpace(RangeText(r)) && Free(RangeText(r), ',')
  {
    hide MatchRange, ParseInt, Decimal, Span;
    if r.first == r.second {
      OneYear(r.first);
    } else {
      var a, b := Decimal(r.first), Decimal(r.second);
      DashText(a, b);
      MatchDash(a, b);
      DecimalLength(r.first);
      DecimalLength(r.second);
      DecimalValue(r.first);
      DecimalValue(r.second);
      if |a| == 4 && |b| >= 4 {
        FourDigits(b[..4]);
        if |b| == 4 {
          assert b[..4] == b;
        }
      }
    }
  }

  lemma {:induction false} ReadWhole(rs: seq<Range>)
    requires forall k :: 0 <= k < |rs| ==> rs[k].first <= rs[k].second && Readable(rs[k])
    ensures ReadPieces(Texts(rs)) == AllYears(rs)
  {
    if rs != [] {
      var q, r := rs[..|rs| - 1], rs[|rs| - 1];
      assert rs == q + [r];
      ReadWhole(q);
      ReadLast(q, r);
    }
  }

  lemma ReadLast(q: seq<Range>, r: Range)
    requires r.first <= r.second && Readable(r)
    requires ReadPieces(Texts(q)) == AllYears(q)
    ensures ReadPieces(Texts(q + [r])) == AllYears(q + [r])
  {
    hide *;
    TextsSnoc(q, r);
    YearsSnoc(q, r);
    ReadSnoc(Texts(q), RangeText(r));
    PieceExact(r);
    StripNoSpace(RangeText(r));
  }

  lemma ReadSnoc(ps: seq<string>, p: string)
    ensures ReadPieces(ps + [p]) == ReadPieces(ps) + PieceYears(Strip(p))
  {
    assert (ps + [p])[..|ps|] == ps;
  }

  lemma {:induction false} ReadInside(rs: seq<Range>, y: int)
    requires Separate(rs) && y in ReadPieces(Texts(rs))
    ensures exists k :: 0 <= k < |rs| && y in PieceYears(RangeText(rs[k]))
  {
    hide PieceYears, RangeText, Strip;
    if rs != [] {
      var q, r := rs[..|rs| - 1], rs[|rs| - 1];
      assert rs == q + [r];
      TextsSnoc(q, r);
      ReadSnoc(Texts(q), RangeText(r));
      PieceExact(r);
      StripNoSpace(RangeText(r));
      if y in ReadPieces(Texts(q)) {
        ReadInside(q, y);
        var k :| 0 <= k < |q| && y in PieceYears(RangeText(q[k]));
        assert rs[k] == q[k];
      } else {
        assert y in PieceYears(RangeText(rs[|q|]));
      }
    }
  }

  lemma {:induction false} YearIn(rs: seq<Range>, k: nat)
    requires k < |rs| && rs[k].first <= rs[k].second
    ensures rs[k].first in AllYears(rs) && rs[k].second in AllYears(rs)
  {
    if k < |rs| - 1 {
      assert rs[..|rs| - 1][k] == rs[k];
      YearIn(rs[..|rs| - 1], k);
    }
  }

  /** One unreadable range is enough to lose a year. */
  lemma ReadLoses(rs: seq<Range>, k: nat)
    requires Separate(rs) && k < |rs| && !Readable(rs[k])
    ensures ReadPieces(Texts(rs)) != AllYears(rs)
  {
    hide PieceYears, RangeText, ReadPieces, Texts, AllYears, Readable;
    var y := rs[k].second;
    YearIn(rs, k);
    if y in ReadPieces(Texts(rs)) {
      ReadInside(rs, y);
      var j :| 0 <= j < |rs| && y in PieceYears(RangeText(rs[j]));
      PieceExact(rs[j]);
      PieceExact(rs[k]);
    }
  }

  lemma SplitTexts(rs: seq<Range>)
    requires Separate(rs) && rs != []
    ensures Split(Join(Texts(rs), ','), ',') == Texts(rs)
  {
    hide PieceYears, RangeText, Texts;
    forall k | 0 <= k < |rs| ensures Free(Texts(rs)[k], ',') {
      PieceExact(rs[k]);
    }
    SplitJoin(Texts(rs), ',');
  }

  /** Main result: the printed years are read back exactly when every range of
      more than one year lies within the four-digit years. */
  lemma YearsRoundTrip(rs: seq<Range>)
    requires Separate(rs) && rs != []
    ensures ReadYears(Join(Texts(rs), ',')) == AllYears(rs) <==>
            forall k :: 0 <= k < |rs| ==> Readable(rs[k])
  {
    hide ReadPieces, Texts, AllYears, Readable, Join, Split;
    SplitTexts(rs);
    if forall k :: 0 <= k < |rs| ==> Readable(rs[k]) {
      ReadWhole(rs);
    } else {
      var k :| 0 <= k < |rs| && !Readable(rs[k]);
      ReadLoses(rs, k);
    }
  }

  /** A set of four-digit years always comes back. */
  lemma FourDigitYears(rs: seq<Range>)
    requires Separate(rs) && rs != []
    requires forall y :: y in AllYears(rs) ==> 1000 <= y <= 9999
    ensures ReadYears(Join(Texts(rs), ',')) == AllYears(rs)
  {
    hide ReadYears, Texts, AllYears, Join;
    forall k | 0 <= k < |rs| ensures Readable(rs[k]) {
      YearIn(rs, k);
    }
    YearsRoundTrip(rs);
  }

  /** The ranges are maximal: the years next to a range are not in the set. */
  lemma {:induction false} RangesMaximal(rs: seq<Range>, k: nat)
    requires Separate(rs) && k < |rs|
    ensures rs[k].first - 1 !in AllYears(rs) && rs[k].second + 1 !in AllYears(rs)
  {
    NotCovered(rs, rs[k].first - 1);
    NotCovered(rs, rs[k].second + 1);
    forall j | 0 <= j < |rs| ensures !(rs[j].first <= rs[k].first - 1 <= rs[j].second) {
      assert j != k ==> j < k || k < j;
    }
  }

  lemma {:induction false} NotCovered(rs: seq<Range>, y: int)
    ensures y in AllYears(rs) ==> exists j :: 0 <= j < |rs| && rs[j].first <= y <= rs[j].second
  {
    if rs != [] {
      NotCovered(rs[..|rs| - 1], y);
      if y in AllYears(rs[..|rs| - 1]) {
        var j :| 0 <= j < |rs| - 1 && rs[..|rs| - 1][j].first <= y <= rs[..|rs| - 1][j].second;
        assert rs[j].first <= y;
      }
    }
  }

  // ---- Printing and reading a set ----------------------------------------------

  /** Years next to each other have four digits. */
  predicate RunsReadable(d: set<int>) {
    forall y :: y in d && y + 1 in d ==> 1000 <= y <= 9998
  }

  lemma {:induction false} InAll(rs: seq<Range>, k: nat, y: int)
    requires k < |rs| && rs[k].first <= y <= rs[k].second
    ensures y in AllYears(rs)
  {
    hide Span;
    if k < |rs| - 1 {
      assert rs[..|rs| - 1][k] == rs[k];
      InAll(rs[..|rs| - 1], k, y);
    } else {
      assert y in Years(rs[k]);
    }
  }

  lemma SameRange(rs: seq<Range>, y: int) returns (k: nat)
    requires Separate(rs) && y in AllYears(rs) && y + 1 in AllYears(rs)
    ensures k < |rs| && rs[k].first <= y < rs[k].second
  {
    NotCovered(rs, y);
    NotCovered(rs, y + 1);
    hide AllYears;
    var i :| 0 <= i < |rs| && rs[i].first <= y <= rs[i].second;
    var j :| 0 <= j < |rs| && rs[j].first <= y + 1 <= rs[j].second;
    assert i == j;
    k := i;
  }

  lemma ReadableIff(rs: seq<Range>)
    requires Separate(rs)
    ensures (forall k :: 0 <= k < |rs| ==> Readable(rs[k])) <==> RunsReadable(AllYears(rs))
  {
    hide AllYears;
    if forall k :: 0 <= k < |rs| ==> Readable(rs[k]) {
      forall y | y in AllYears(rs) && y + 1 in AllYears(rs) ensures 1000 <= y <= 9998 {
        var k := SameRange(rs, y);
        assert Readable(rs[k]);
      }
    }
    if RunsReadable(AllYears(rs)) {
      forall k | 0 <= k < |rs| && rs[k].first < rs[k].second ensures Readable(rs[k]) {
        InAll(rs, k, rs[k].first);
        InAll(rs, k, rs[k].first + 1);
        InAll(rs, k, rs[k].second - 1);
        InAll(rs, k, rs[k].second);
      }
    }
  }

  /** Main result on sets of years: printing a set and reading the text gives the
      set back exactly when neighbouring years have four digits. */
  method PrintAndRead(sorted: seq<nat>) returns (years: set<int>)
    requires Increasing(sorted) && sorted != []
    ensures years == Elems(sorted) <==> RunsReadable(Elems(sorted))
  {
    hide ReadYears, Texts, AllYears, Join, RunsReadable, Elems;
    var text, ranges := DateStr(sorted);
    years := ProcessDates(text.value);
    YearsRoundTrip(ranges);
    ReadableIff(ranges);
  }
}
