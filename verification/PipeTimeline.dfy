/** Drawing one instruction: its pipeline stages become letters in rows of
    `width` cells, one cell per CPU cycle. Terminal colours are left out. */
module PipeTimeline {
  import opened Arith
  import opened PipeOrder

  datatype Layout = Layout(width: int, cycleTime: int, storeCompletions: bool) {
    predicate Valid() {
      width > 0 && cycleTime > 0
    }

    function TimeWidth(): (t: int)
      requires Valid()
      ensures t >= 1
    {
      Positive(width, cycleTime);
      width * cycleTime
    }

    function Stages(): seq<Stage> {
      [Fetch, Decode, Rename, Dispatch, Issue, Complete, Retire] +
      if storeCompletions then [Store] else []
    }
  }

  /** The record has every key that drawing it reads. */
  predicate HasTicks(i: Inst, y: Layout) {
    forall s :: s in y.Stages() ==> s in i.ticks
  }

  datatype Event = Event(offset: int, stage: Stage, tick: int)

  function Shorthand(s: Stage): char {
    match s
    case Fetch => 'f'
    case Decode => 'd'
    case Rename => 'n'
    case Dispatch => 'p'
    case Issue => 'i'
    case Complete => 'c'
    case Retire => 'r'
    case Store => 's'
  }

  /** Position of the stage's name in alphabetical order. */
  function NameRank(s: Stage): nat {
    match s
    case Complete => 0
    case Decode => 1
    case Dispatch => 2
    case Fetch => 3
    case Issue => 4
    case Rename => 5
    case Retire => 6
    case Store => 7
  }

  function BaseTick(i: Inst, y: Layout): int
    requires y.Valid() && HasTicks(i, y)
  {
    i.ticks[Fetch] / y.TimeWidth() * y.TimeWidth()
  }

  function MaxTick(i: Inst, stages: seq<Stage>): (m: int)
    requires stages != [] && forall s :: s in stages ==> s in i.ticks
    ensures forall s :: s in stages ==> i.ticks[s] <= m
    ensures exists s :: s in stages && i.ticks[s] == m
  {
    var t := i.ticks[stages[0]];
    if |stages| == 1 then t
    else
      var m := MaxTick(i, stages[1..]);
      if m > t then m else t
  }

  function LastEvent(i: Inst, y: Layout): int
    requires HasTicks(i, y)
  {
    MaxTick(i, y.Stages())
  }

  function NumLines(i: Inst, y: Layout): int
    requires y.Valid() && HasTicks(i, y)
  {
    if LastEvent(i, y) - i.ticks[Fetch] < y.TimeWidth() then 1
    else (LastEvent(i, y) - BaseTick(i, y)) / y.TimeWidth() + 1
  }

  function RowStart(i: Inst, r: nat, y: Layout): int
    requires y.Valid() && HasTicks(i, y)
  {
    BaseTick(i, y) + r * y.TimeWidth()
  }

  /** A single row is compact: it wraps round to reach a full width behind
      the fetch. */
  function RowEnd(i: Inst, r: nat, y: Layout): int
    requires y.Valid() && HasTicks(i, y)
  {
    RowStart(i, r, y) + y.TimeWidth() +
    if NumLines(i, y) == 1 then i.ticks[Fetch] - BaseTick(i, y) else 0
  }

  predicate InRow(i: Inst, s: Stage, r: nat, y: Layout)
    requires y.Valid() && HasTicks(i, y) && s in y.Stages()
  {
    i.ticks[s] != 0 && RowStart(i, r, y) <= i.ticks[s] < RowEnd(i, r, y)
  }

  function Column(tick: int, y: Layout): int
    requires y.Valid()
  {
    tick % y.TimeWidth() / y.cycleTime
  }

  /** An issue in the cycle of the dispatch is drawn instead of it. */
  predicate Hidden(i: Inst, s: Stage)
    requires Dispatch in i.ticks && Issue in i.ticks
  {
    s == Dispatch && i.ticks[Dispatch] == i.ticks[Issue]
  }

  predicate Drawn(i: Inst, s: Stage, r: nat, y: Layout)
    requires y.Valid() && HasTicks(i, y)
  {
    s in y.Stages() && InRow(i, s, r, y) && !Hidden(i, s)
  }

  function Dot(i: Inst): char
    requires Retire in i.ticks
  {
    if i.ticks[Retire] == 0 then '=' else '.'
  }

  // ---- The text of a row, as it is written -------------------------------

  function Collect(i: Inst, r: nat, stages: seq<Stage>, y: Layout): seq<Event>
    requires y.Valid() && HasTicks(i, y) && stages <= y.Stages()
  {
    if stages == [] then []
    else
      var s := stages[|stages| - 1];
      var rest := Collect(i, r, stages[..|stages| - 1], y);
      if InRow(i, s, r, y) then rest + [Event(i.ticks[s] % y.TimeWidth(), s, i.ticks[s])] else rest
  }

  predicate Before(a: Event, b: Event) {
    a.offset < b.offset || (a.offset == b.offset && NameRank(a.stage) < NameRank(b.stage))
  }

  function InsertEvent(x: Event, es: seq<Event>): seq<Event> {
    if es == [] || Before(x, es[0]) then [x] + es else [es[0]] + InsertEvent(x, es[1..])
  }

  function SortEvents(es: seq<Event>): seq<Event> {
    if es == [] then [] else InsertEvent(es[0], SortEvents(es[1..]))
  }

  function Repeat(c: char, n: int): (s: string)
    ensures |s| == if n > 0 then n else 0
    ensures forall k :: 0 <= k < |s| ==> s[k] == c
    decreases if n > 0 then n else 0
  {
    if n <= 0 then "" else [c] + Repeat(c, n - 1)
  }

  predicate Drawable(i: Inst, y: Layout) {
    y.Valid() && HasTicks(i, y)
  }

  function Draw(i: Inst, es: seq<Event>, pos: int, y: Layout): string
    requires Drawable(i, y)
  {
    if es == [] then Repeat(Dot(i), y.width - pos)
    else if Hidden(i, es[0].stage) then Draw(i, es[1..], pos, y)
    else
      var c := es[0].offset / y.cycleTime;
      Repeat(Dot(i), c - pos) + [Shorthand(es[0].stage)] + Draw(i, es[1..], c + 1, y)
  }

  function RowText(i: Inst, r: nat, y: Layout): string
    requires Drawable(i, y)
  {
    Draw(i, SortEvents(Collect(i, r, y.Stages(), y)), 0, y)
  }

  // ---- Drawing as the source does it -------------------------------------

  lemma DrawStep(i: Inst, es: seq<Event>, k: nat, pos: int, y: Layout)
    requires Drawable(i, y) && k < |es|
    ensures Draw(i, es[k..], pos, y) ==
            if Hidden(i, es[k].stage) then Draw(i, es[k + 1..], pos, y)
            else
              var c := es[k].offset / y.cycleTime;
              Repeat(Dot(i), c - pos) + [Shorthand(es[k].stage)] + Draw(i, es[k + 1..], c + 1, y)
  {
    assert es[k..][1..] == es[k + 1..];
  }

  /** The row so far and the rest to draw, one event further. */
  lemma DrawOn(i: Inst, es: seq<Event>, k: nat, pos: int, y: Layout, row: string)
    requires Drawable(i, y) && k < |es|
    ensures Hidden(i, es[k].stage) ==> Draw(i, es[k..], pos, y) == Draw(i, es[k + 1..], pos, y)
    ensures var c := es[k].offset / y.cycleTime;
            !Hidden(i, es[k].stage) ==>
              row + Draw(i, es[k..], pos, y) ==
              row + (Repeat(Dot(i), c - pos) + [Shorthand(es[k].stage)]) + Draw(i, es[k + 1..], c + 1, y)
  {
    DrawStep(i, es, k, pos, y);
    var c := es[k].offset / y.cycleTime;
    hide Draw, Repeat, Hidden, Shorthand, Dot;
    if !Hidden(i, es[k].stage) {
      Regroup(row, Repeat(Dot(i), c - pos) + [Shorthand(es[k].stage)], Draw(i, es[k + 1..], c + 1, y));
    }
  }

  method DrawRow(i: Inst, es: seq<Event>, y: Layout) returns (row: string)
    requires Drawable(i, y)
    ensures row == Draw(i, es, 0, y)
  {
    hide *;
    row := "";
    var pos := 0;
    assert es[0..] == es;
    for k := 0 to |es|
      invariant row + Draw(i, es[k..], pos, y) == Draw(i, es, 0, y)
    {
      var e := es[k];
      DrawNeeds(i, e.stage, y);
      DrawOn(i, es, k, pos, y, row);
      if e.stage == Dispatch && i.ticks[Dispatch] == i.ticks[Issue] {
        continue;
      }
      var c := e.offset / y.cycleTime;
      row := row + (Repeat(Dot(i), c - pos) + [Shorthand(e.stage)]);
      pos := c + 1;
    }
    DrawRest(i, es[|es|..], pos, y);
    row := row + Repeat(Dot(i), y.width - pos);
  }

  lemma DrawNeeds(i: Inst, s: Stage, y: Layout)
    requires Drawable(i, y)
    ensures y.Valid() && y.cycleTime > 0 && Dispatch in i.ticks && Issue in i.ticks && Retire in i.ticks
    ensures Hidden(i, s) <==> s == Dispatch && i.ticks[Dispatch] == i.ticks[Issue]
  {
  }

  lemma DrawRest(i: Inst, es: seq<Event>, pos: int, y: Layout)
    requires Drawable(i, y) && es == []
    ensures Retire in i.ticks && Draw(i, es, pos, y) == Repeat(Dot(i), y.width - pos)
  {
  }

  lemma Regroup(a: string, b: string, c: string)
    ensures a + (b + c) == a + b + c
  {
  }

  method CollectEvents(i: Inst, r: nat, y: Layout) returns (es: seq<Event>)
    requires Drawable(i, y)
    ensures es == Collect(i, r, y.Stages(), y)
  {
    es := [];
    var stages := y.Stages();
    for k := 0 to |stages|
      invariant es == Collect(i, r, stages[..k], y)
    {
      var tick := i.ticks[stages[k]];
      assert stages[..k + 1][..k] == stages[..k];
      if tick != 0 && RowStart(i, r, y) <= tick < RowEnd(i, r, y) {
        es := es + [Event(tick % y.TimeWidth(), stages[k], tick)];
      }
    }
    assert stages[..|stages|] == stages;
  }

  /** A single row asks for its first event, which must be there. */
  predicate NothingToDraw(i: Inst, y: Layout)
    requires Drawable(i, y)
  {
    NumLines(i, y) == 1 && forall s :: s in y.Stages() ==> !InRow(i, s, 0, y)
  }

  lemma {:induction false} CollectNone(i: Inst, r: nat, stages: seq<Stage>, y: Layout)
    requires Drawable(i, y) && stages <= y.Stages()
    ensures Collect(i, r, stages, y) == [] <==> forall s :: s in stages ==> !InRow(i, s, r, y)
  {
    if stages != [] {
      var q, s := stages[..|stages| - 1], stages[|stages| - 1];
      assert stages == q + [s];
      CollectNone(i, r, q, y);
    }
  }

  /** Prints one instruction as a sequence of rows; `ok` is false where the source
      fails, on a single row without an event. */
  method PrintInst(i: Inst, y: Layout) returns (ok: bool, rows: seq<string>)
    requires Drawable(i, y)
    ensures ok <==> !NothingToDraw(i, y)
    ensures ok ==> |rows| == NumLines(i, y) && forall r :: 0 <= r < |rows| ==> rows[r] == RowText(i, r, y)
  {
    SingleRow(i, y);
    NothingIsNone(i, y);
    hide NumLines, Collect, SortEvents, Draw, NothingToDraw, RowText;
    rows := [];
    while |rows| < NumLines(i, y)
      invariant |rows| <= NumLines(i, y) && (rows != [] ==> !NothingToDraw(i, y))
      invariant AllRows(i, rows, y)
      decreases NumLines(i, y) - |rows|
    {
      var es := CollectEvents(i, |rows|, y);
      if NumLines(i, y) == 1 && es == [] {
        return false, rows;
      }
      var row := DrawRow(i, SortEvents(es), y);
      OneMoreRow(i, rows, row, y);
      rows := rows + [row];
    }
    ok := true;
  }

  ghost predicate AllRows(i: Inst, rows: seq<string>, y: Layout)
    requires Drawable(i, y)
  {
    forall r :: 0 <= r < |rows| ==> rows[r] == RowText(i, r, y)
  }

  lemma OneMoreRow(i: Inst, rows: seq<string>, row: string, y: Layout)
    requires Drawable(i, y) && AllRows(i, rows, y)
    requires row == Draw(i, SortEvents(Collect(i, |rows|, y.Stages(), y)), 0, y)
    ensures AllRows(i, rows + [row], y)
  {
    hide Draw, SortEvents, Collect;
  }

  lemma NothingIsNone(i: Inst, y: Layout)
    requires Drawable(i, y)
    ensures NothingToDraw(i, y) <==> NumLines(i, y) == 1 && Collect(i, 0, y.Stages(), y) == []
  {
    CollectNone(i, 0, y.Stages(), y);
    hide NumLines, Collect, InRow;
  }

  /** That is the case exactly when no stage ever happened. */
  lemma NothingIff(i: Inst, y: Layout)
    requires Drawable(i, y) && forall s :: s in y.Stages() ==> i.ticks[s] >= 0
    ensures NothingToDraw(i, y) <==> forall s :: s in y.Stages() ==> i.ticks[s] == 0
  {
    SingleRow(i, y);
    hide NumLines, LastEvent, InRow;
    if NumLines(i, y) == 1 {
      forall s | s in y.Stages() ensures InRow(i, s, 0, y) ==> i.ticks[s] != 0 {
        InFirstRow(i, s, y);
      }
      if i.ticks[Fetch] != 0 {
        InFirstRow(i, Fetch, y);
      } else {
        forall s | s in y.Stages() ensures InRow(i, s, 0, y) <==> i.ticks[s] != 0 {
          InFirstRow(i, s, y);
        }
      }
    } else {
      LastIsSome(i, y);
    }
  }

  lemma LastIsSome(i: Inst, y: Layout)
    requires Drawable(i, y)
    ensures exists s :: s in y.Stages() && i.ticks[s] == LastEvent(i, y)
  {
    var m := MaxTick(i, y.Stages());
    hide MaxTick;
    assert LastEvent(i, y) == m;
  }

  /** A single row shows the fetch, and with a fetch at 0 every other stage. */
  lemma InFirstRow(i: Inst, s: Stage, y: Layout)
    requires Drawable(i, y) && s in y.Stages() && i.ticks[s] >= 0 && NumLines(i, y) == 1
    ensures InRow(i, s, 0, y) ==> i.ticks[s] != 0
    ensures i.ticks[s] != 0 && (s == Fetch || i.ticks[Fetch] == 0) ==> InRow(i, s, 0, y)
  {
    SingleRow(i, y);
    BaseBefore(i, y);
    assert i.ticks[s] <= LastEvent(i, y);
    if i.ticks[Fetch] == 0 {
      BaseOfZero(i, y);
    }
    FirstRow(i, y);
    hide NumLines, LastEvent, BaseTick, HasTicks, RowStart, RowEnd;
  }

  lemma BaseOfZero(i: Inst, y: Layout)
    requires Drawable(i, y) && i.ticks[Fetch] == 0
    ensures BaseTick(i, y) == 0
  {
  }

  lemma FirstRow(i: Inst, y: Layout)
    requires Drawable(i, y) && NumLines(i, y) == 1
    ensures RowStart(i, 0, y) == BaseTick(i, y) && RowEnd(i, 0, y) == i.ticks[Fetch] + y.TimeWidth()
  {
    hide NumLines, BaseTick;
  }

  // ---- Every stage is drawn once, in its own cell ------------------------

  /** Two stages share a cell of row `r`. */
  predicate Overlap(i: Inst, s: Stage, t: Stage, r: nat, y: Layout)
    requires Drawable(i, y)
  {
    s != t && Drawn(i, s, r, y) && Drawn(i, t, r, y) && Column(i.ticks[s], y) == Column(i.ticks[t], y)
  }

  predicate IsEvent(i: Inst, e: Event, r: nat, stages: seq<Stage>, y: Layout)
    requires Drawable(i, y) && stages <= y.Stages()
  {
    && e.stage in stages && InRow(i, e.stage, r, y)
    && e.tick == i.ticks[e.stage]
    && e.offset == e.tick % y.TimeWidth()
  }

  ghost predicate EventsOf(i: Inst, es: seq<Event>, r: nat, stages: seq<Stage>, y: Layout)
    requires Drawable(i, y) && stages <= y.Stages()
  {
    Distinct(es) && forall e :: e in es <==> IsEvent(i, e, r, stages, y)
  }

  predicate Apart(x: Event, es: seq<Event>) {
    forall e :: e in es ==> e.stage != x.stage
  }

  predicate Distinct(es: seq<Event>) {
    es == [] || (Apart(es[0], es[1..]) && Distinct(es[1..]))
  }

  predicate Ordered(es: seq<Event>) {
    es == [] || ((forall e :: e in es[1..] ==> es[0].offset <= e.offset) && Ordered(es[1..]))
  }

  ghost predicate SameEvents(a: seq<Event>, b: seq<Event>) {
    forall e :: e in a <==> e in b
  }

  lemma InsertMembers(x: Event, es: seq<Event>)
    ensures SameEvents(InsertEvent(x, es), [x] + es)
  {
    if es != [] && !Before(x, es[0]) {
      InsertMembers(x, es[1..]);
      assert es == [es[0]] + es[1..];
    }
  }

  lemma {:induction false} InsertEventOrders(x: Event, es: seq<Event>)
    requires Ordered(es) && Distinct(es) && Apart(x, es)
    ensures Ordered(InsertEvent(x, es)) && Distinct(InsertEvent(x, es))
  {
    if es != [] {
      var r := es[1..];
      assert es == [es[0]] + r;
      if Before(x, es[0]) {
        assert ([x] + es)[1..] == es;
      } else {
        InsertEventOrders(x, r);
        InsertMembers(x, r);
        assert ([es[0]] + InsertEvent(x, r))[1..] == InsertEvent(x, r);
      }
    }
  }

  lemma {:induction false} SortEventsOrders(es: seq<Event>)
    requires Distinct(es)
    ensures Ordered(SortEvents(es)) && Distinct(SortEvents(es))
    ensures SameEvents(SortEvents(es), es)
  {
    if es != [] {
      var t := SortEvents(es[1..]);
      assert es == [es[0]] + es[1..];
      SortEventsOrders(es[1..]);
      InsertEventOrders(es[0], t);
      InsertMembers(es[0], t);
    }
  }

  lemma {:induction false} DistinctSnoc(es: seq<Event>, x: Event)
    requires Distinct(es) && Apart(x, es)
    ensures Distinct(es + [x])
  {
    if es != [] {
      assert es == [es[0]] + es[1..];
      assert (es + [x])[1..] == es[1..] + [x];
      DistinctSnoc(es[1..], x);
    }
  }

  lemma {:induction false} CollectHolds(i: Inst, r: nat, stages: seq<Stage>, y: Layout)
    requires Drawable(i, y) && stages <= y.Stages()
    ensures EventsOf(i, Collect(i, r, stages, y), r, stages, y)
  {
    if stages != [] {
      var rest, s := stages[..|stages| - 1], stages[|stages| - 1];
      CollectHolds(i, r, rest, y);
      assert stages == rest + [s];
      assert s !in rest by { StagesDiffer(y, |rest|); }
      var a := Collect(i, r, rest, y);
      if InRow(i, s, r, y) {
        DistinctSnoc(a, Event(i.ticks[s] % y.TimeWidth(), s, i.ticks[s]));
      }
    }
  }

  lemma StagesDiffer(y: Layout, n: nat)
    requires n < |y.Stages()|
    ensures y.Stages()[n] !in y.Stages()[..n]
  {
  }

  /** The events of a row in drawing order. */
  lemma RowEvents(i: Inst, r: nat, y: Layout) returns (es: seq<Event>)
    requires Drawable(i, y)
    ensures RowText(i, r, y) == Draw(i, es, 0, y)
    ensures Ordered(es) && EventsOf(i, es, r, y.Stages(), y)
  {
    CollectHolds(i, r, y.Stages(), y);
    SortEventsOrders(Collect(i, r, y.Stages(), y));
    es := SortEvents(Collect(i, r, y.Stages(), y));
  }

  // ---- Widths --------------------------------------------------------------

  /** The visible events sit in increasing cells from `pos` on. */
  predicate Spread(i: Inst, es: seq<Event>, pos: int, y: Layout)
    requires Drawable(i, y)
  {
    if es == [] then true
    else if Hidden(i, es[0].stage) then Spread(i, es[1..], pos, y)
    else
      var c := es[0].offset / y.cycleTime;
      pos <= c && Spread(i, es[1..], c + 1, y)
  }

  predicate Cells(es: seq<Event>, low: int, y: Layout)
    requires y.Valid()
  {
    && Ordered(es)
    && forall e :: e in es ==> low <= e.offset / y.cycleTime < y.width
  }

  lemma CellsTail(es: seq<Event>, low: int, y: Layout)
    requires y.Valid() && es != [] && Cells(es, low, y)
    ensures Cells(es[1..], es[0].offset / y.cycleTime, y)
  {
    forall e | e in es[1..] ensures es[0].offset / y.cycleTime <= e.offset / y.cycleTime < y.width {
      assert e in es;
      DivMonotone(es[0].offset, e.offset, y.cycleTime);
    }
  }

  /** A row is never too narrow, and it is too wide exactly when two visible
      events share a cell. */
  lemma {:induction false} DrawLength(i: Inst, es: seq<Event>, pos: int, y: Layout)
    requires Drawable(i, y) && 0 <= pos <= y.width
    requires Cells(es, pos - 1, y)
    ensures |Draw(i, es, pos, y)| >= y.width - pos
    ensures |Draw(i, es, pos, y)| == y.width - pos <==> Spread(i, es, pos, y)
  {
    if es != [] {
      CellsTail(es, pos - 1, y);
      assert es[0] in es;
      var c := es[0].offset / y.cycleTime;
      if Hidden(i, es[0].stage) {
        DrawLength(i, es[1..], pos, y);
      } else {
        DrawLength(i, es[1..], c + 1, y);
      }
    }
  }

  /** No two visible events share a cell. */
  predicate NoOverlap(i: Inst, es: seq<Event>, y: Layout)
    requires Drawable(i, y)
  {
    forall e, f ::
      e in es && f in es && e.stage != f.stage && !Hidden(i, e.stage) && !Hidden(i, f.stage) ==>
      e.offset / y.cycleTime != f.offset / y.cycleTime
  }

  lemma {:induction false} SpreadIff(i: Inst, es: seq<Event>, pos: int, y: Layout)
    requires Drawable(i, y) && Cells(es, pos - 1, y) && Distinct(es)
    ensures Spread(i, es, pos, y) <==>
            && NoOverlap(i, es, y)
            && forall e :: e in es && !Hidden(i, e.stage) ==> pos <= e.offset / y.cycleTime
  {
    if es != [] {
      var r, c := es[1..], es[0].offset / y.cycleTime;
      assert es == [es[0]] + r;
      CellsTail(es, pos - 1, y);
      if Hidden(i, es[0].stage) {
        SpreadIff(i, r, pos, y);
      } else {
        SpreadIff(i, r, c + 1, y);
        assert es[0] in es;
        assert forall e :: e in r ==> e in es && e.stage != es[0].stage;
      }
    }
  }

  /** What cell `c` shows: the first visible event there, or a dot. */
  function CellAt(i: Inst, es: seq<Event>, c: int, y: Layout): char
    requires Drawable(i, y)
  {
    if es == [] then Dot(i)
    else if !Hidden(i, es[0].stage) && es[0].offset / y.cycleTime == c then Shorthand(es[0].stage)
    else CellAt(i, es[1..], c, y)
  }

  predicate ShowsAt(i: Inst, e: Event, c: int, y: Layout)
    requires Drawable(i, y)
  {
    !Hidden(i, e.stage) && e.offset / y.cycleTime == c
  }

  lemma {:induction false} CellAtMeaning(i: Inst, es: seq<Event>, c: int, y: Layout)
    requires Drawable(i, y) && NoOverlap(i, es, y) && Distinct(es)
    ensures forall e :: e in es && ShowsAt(i, e, c, y) ==> CellAt(i, es, c, y) == Shorthand(e.stage)
    ensures (forall e :: e in es ==> !ShowsAt(i, e, c, y)) ==> CellAt(i, es, c, y) == Dot(i)
  {
    if es != [] {
      assert es == [es[0]] + es[1..];
      assert es[0] in es && forall e :: e in es[1..] ==> e in es;
      CellAtMeaning(i, es[1..], c, y);
    }
  }

  lemma {:induction false} CellAtBefore(i: Inst, es: seq<Event>, pos: int, c: int, y: Layout)
    requires Drawable(i, y) && Spread(i, es, pos, y) && c < pos
    ensures CellAt(i, es, c, y) == Dot(i)
  {
    if es != [] {
      CellAtBefore(i, es[1..], if Hidden(i, es[0].stage) then pos else es[0].offset / y.cycleTime + 1, c, y);
    }
  }

  lemma {:induction false} DrawCells(i: Inst, es: seq<Event>, pos: int, c: int, y: Layout)
    requires Drawable(i, y) && 0 <= pos <= c < y.width
    requires Cells(es, pos - 1, y) && Spread(i, es, pos, y)
    ensures |Draw(i, es, pos, y)| == y.width - pos
    ensures Draw(i, es, pos, y)[c - pos] == CellAt(i, es, c, y)
  {
    DrawLength(i, es, pos, y);
    if es != [] {
      var r, k := es[1..], es[0].offset / y.cycleTime;
      CellsTail(es, pos - 1, y);
      assert es[0] in es;
      if Hidden(i, es[0].stage) {
        DrawCells(i, r, pos, c, y);
      } else if k < c {
        DrawCells(i, r, k + 1, c, y);
        assert Draw(i, es, pos, y)[c - pos] == Draw(i, r, k + 1, y)[c - (k + 1)];
      } else {
        CellAtBefore(i, r, k + 1, c, y);
      }
    }
  }

  // ---- Rows of an instruction ---------------------------------------------

  lemma ColumnInRange(tick: int, y: Layout)
    requires y.Valid()
    ensures 0 <= Column(tick, y) < y.width
  {
    var o := tick % y.TimeWidth();
    assert o == o / y.cycleTime * y.cycleTime + o % y.cycleTime;
    var x := y.width - 1 - o / y.cycleTime;
    assert x * y.cycleTime == y.width * y.cycleTime - y.cycleTime - o / y.cycleTime * y.cycleTime;
    NotBelow(x, y.cycleTime);
    DivMonotone(0, o, y.cycleTime);
  }

  lemma RowCells(i: Inst, es: seq<Event>, r: nat, y: Layout)
    requires Drawable(i, y) && Ordered(es) && EventsOf(i, es, r, y.Stages(), y)
    ensures Cells(es, -1, y)
    ensures NoOverlap(i, es, y) <==> forall s, t :: !Overlap(i, s, t, r, y)
  {
    forall e | e in es ensures -1 <= e.offset / y.cycleTime < y.width {
      ColumnInRange(e.tick, y);
    }
    if NoOverlap(i, es, y) {
      forall s, t | s != t && Drawn(i, s, r, y) && Drawn(i, t, r, y)
        ensures Column(i.ticks[s], y) != Column(i.ticks[t], y)
      {
        var e := Event(i.ticks[s] % y.TimeWidth(), s, i.ticks[s]);
        var f := Event(i.ticks[t] % y.TimeWidth(), t, i.ticks[t]);
        assert IsEvent(i, e, r, y.Stages(), y) && IsEvent(i, f, r, y.Stages(), y);
      }
    }
    if forall s, t :: !Overlap(i, s, t, r, y) {
      forall e, f | e in es && f in es && e.stage != f.stage && !Hidden(i, e.stage) && !Hidden(i, f.stage)
        ensures e.offset / y.cycleTime != f.offset / y.cycleTime
      {
        assert IsEvent(i, e, r, y.Stages(), y) && IsEvent(i, f, r, y.Stages(), y);
        assert !Overlap(i, e.stage, f.stage, r, y);
      }
    }
  }

  /** A row is `width` cells wide exactly when no two of its visible stages
      fall in the same cell; otherwise it is wider. */
  lemma RowWidthIff(i: Inst, r: nat, y: Layout)
    requires Drawable(i, y)
    ensures |RowText(i, r, y)| >= y.width
    ensures |RowText(i, r, y)| == y.width <==> forall s, t :: !Overlap(i, s, t, r, y)
  {
    hide RowText;
    var es := RowEvents(i, r, y);
    RowCells(i, es, r, y);
    DrawLength(i, es, 0, y);
    SpreadIff(i, es, 0, y);
    forall e | e in es ensures 0 <= e.offset / y.cycleTime {
      ColumnInRange(e.tick, y);
    }
  }

  /** Without overlaps every visible stage of the row stands in its column
      and every other cell holds a dot. */
  lemma RowShows(i: Inst, r: nat, y: Layout, c: int)
    requires Drawable(i, y) && 0 <= c < y.width
    requires forall s, t :: !Overlap(i, s, t, r, y)
    ensures |RowText(i, r, y)| == y.width
    ensures forall s :: Drawn(i, s, r, y) && Column(i.ticks[s], y) == c ==> RowText(i, r, y)[c] == Shorthand(s)
    ensures (forall s :: Drawn(i, s, r, y) ==> Column(i.ticks[s], y) != c) ==> RowText(i, r, y)[c] == Dot(i)
  {
    var es := RowCell(i, r, y, c);
    CellAtMeaning(i, es, c, y);
    hide RowText, CellAt, NoOverlap, Overlap, Distinct;
    forall s | Drawn(i, s, r, y) && Column(i.ticks[s], y) == c ensures RowText(i, r, y)[c] == Shorthand(s) {
      var e := Event(i.ticks[s] % y.TimeWidth(), s, i.ticks[s]);
      assert IsEvent(i, e, r, y.Stages(), y);
      assert ShowsAt(i, e, c, y);
    }
    if forall s :: Drawn(i, s, r, y) ==> Column(i.ticks[s], y) != c {
      forall e | e in es ensures !ShowsAt(i, e, c, y) {
        assert IsEvent(i, e, r, y.Stages(), y);
        assert !Hidden(i, e.stage) ==> Drawn(i, e.stage, r, y);
      }
    }
  }

  lemma RowCell(i: Inst, r: nat, y: Layout, c: int) returns (es: seq<Event>)
    requires Drawable(i, y) && 0 <= c < y.width
    requires forall s, t :: !Overlap(i, s, t, r, y)
    ensures EventsOf(i, es, r, y.Stages(), y) && NoOverlap(i, es, y) && Distinct(es)
    ensures |RowText(i, r, y)| == y.width && RowText(i, r, y)[c] == CellAt(i, es, c, y)
  {
    es := RowEvents(i, r, y);
    RowCells(i, es, r, y);
    forall e | e in es ensures 0 <= e.offset / y.cycleTime {
      ColumnInRange(e.tick, y);
    }
    hide RowText, Draw, Spread, CellAt, Overlap, NoOverlap, Cells;
    SpreadIff(i, es, 0, y);
    DrawCells(i, es, 0, c, y);
  }

  // ---- Instructions as the simulator writes them --------------------------

  predicate Aligned(tick: int, y: Layout)
    requires y.Valid()
  {
    tick % y.cycleTime == 0
  }

  /** Ticks are 0 or not before a positive fetch tick, and lie on cycle
      boundaries; two stages share a cycle only if an instruction is dispatched
      and issued at once. */
  predicate WellTimed(i: Inst, y: Layout)
    requires Drawable(i, y)
  {
    && i.ticks[Fetch] > 0
    && (forall s :: s in y.Stages() ==> Aligned(i.ticks[s], y) && (i.ticks[s] == 0 || i.ticks[s] >= i.ticks[Fetch]))
    && (forall s, t :: s in y.Stages() && t in y.Stages() && s != t && i.ticks[s] == i.ticks[t] != 0 ==>
          (s == Dispatch && t == Issue) || (s == Issue && t == Dispatch))
  }

  /** The one row that a stage falls in. */
  function RowOf(i: Inst, s: Stage, y: Layout): int
    requires Drawable(i, y) && s in y.Stages()
  {
    if NumLines(i, y) == 1 then 0 else (i.ticks[s] - BaseTick(i, y)) / y.TimeWidth()
  }

  lemma BaseBefore(i: Inst, y: Layout)
    requires Drawable(i, y)
    ensures BaseTick(i, y) <= i.ticks[Fetch] < BaseTick(i, y) + y.TimeWidth()
  {
    var f, w := i.ticks[Fetch], y.TimeWidth();
    assert f == f / w * w + f % w;
  }

  /** A single row means that the instruction fits in one width. */
  lemma SingleRow(i: Inst, y: Layout)
    requires Drawable(i, y)
    ensures NumLines(i, y) == 1 <==> LastEvent(i, y) - i.ticks[Fetch] < y.TimeWidth()
    ensures NumLines(i, y) >= 1
  {
    BaseBefore(i, y);
    var x, w := LastEvent(i, y) - BaseTick(i, y), y.TimeWidth();
    if x >= w {
      DivBounds(w, w, 1);
      DivMonotone(w, x, w);
    }
  }

  lemma InMultiRow(t: int, b: int, w: int, r: int)
    requires w > 0
    ensures b + r * w <= t < b + r * w + w <==> (t - b) / w == r
  {
    DivBounds(t - b, w, r);
    assert (r + 1) * w == r * w + w;
  }

  /** Every stage that happened falls in exactly one of the rows. */
  lemma ExactlyOneRow(i: Inst, s: Stage, y: Layout)
    requires Drawable(i, y) && WellTimed(i, y)
    requires s in y.Stages() && i.ticks[s] != 0
    ensures 0 <= RowOf(i, s, y) < NumLines(i, y)
    ensures forall r: nat :: r < NumLines(i, y) ==> (InRow(i, s, r, y) <==> r == RowOf(i, s, y))
  {
    BaseBefore(i, y);
    SingleRow(i, y);
    assert i.ticks[Fetch] <= i.ticks[s] <= LastEvent(i, y);
    RowOfInRange(i, s, y);
    forall r: nat | r < NumLines(i, y) ensures InRow(i, s, r, y) <==> r == RowOf(i, s, y) {
      InRowIff(i, s, r, y);
    }
  }

  lemma InRowIff(i: Inst, s: Stage, r: nat, y: Layout)
    requires Drawable(i, y) && s in y.Stages() && i.ticks[s] != 0 && r < NumLines(i, y)
    requires BaseTick(i, y) <= i.ticks[Fetch] <= i.ticks[s] <= LastEvent(i, y)
    requires NumLines(i, y) == 1 ==> LastEvent(i, y) < i.ticks[Fetch] + y.TimeWidth()
    ensures InRow(i, s, r, y) <==> r == RowOf(i, s, y)
  {
    var t, b, w := i.ticks[s], BaseTick(i, y), y.TimeWidth();
    hide NumLines, BaseTick, LastEvent, HasTicks;
    if NumLines(i, y) == 1 {
      assert RowStart(i, 0, y) == b;
    } else {
      InMultiRow(t, b, w, r);
    }
  }

  lemma RowOfInRange(i: Inst, s: Stage, y: Layout)
    requires Drawable(i, y) && s in y.Stages() && i.ticks[Fetch] <= i.ticks[s]
    ensures 0 <= RowOf(i, s, y) < NumLines(i, y)
  {
    BaseBefore(i, y);
    SingleRow(i, y);
    var t, b, w := i.ticks[s], BaseTick(i, y), y.TimeWidth();
    assert t <= LastEvent(i, y);
    hide BaseTick, LastEvent, HasTicks;
    DivMonotone(t - b, LastEvent(i, y) - b, w);
    DivMonotone(0, t - b, w);
  }

  // ---- Distinct cycles are distinct columns -------------------------------

  lemma ColumnOfCycle(k: int, y: Layout)
    requires y.Valid()
    ensures Column(k * y.cycleTime, y) == k % y.width
  {
    var w, d := y.width, y.cycleTime;
    var q, m := k / w, k % w;
    Expand(q, w, m, d);
    MulBelow(m, w, d);
    DivMod(k * d, w * d, q, m * d);
    DivMod(m * d, d, m, 0);
    DivBounds(m * d, d, m);
    assert (m + 1) * d == m * d + d;
  }

  lemma Expand(q: int, w: int, m: int, d: int)
    ensures (q * w + m) * d == q * (w * d) + m * d
  {
    assert (q * w + m) * d == q * w * d + m * d;
    assert q * w * d == q * (w * d);
  }

  lemma CyclesOf(tick: int, y: Layout) returns (k: int)
    requires y.Valid() && Aligned(tick, y)
    ensures tick == k * y.cycleTime
  {
    k := tick / y.cycleTime;
    assert tick == k * y.cycleTime + tick % y.cycleTime;
  }

  /** Within one width of each other, aligned ticks share a column only when
      they are equal. */
  lemma ColumnsDiffer(a: int, b: int, low: int, y: Layout)
    requires y.Valid() && Aligned(a, y) && Aligned(b, y) && a != b
    requires low <= a < low + y.TimeWidth() && low <= b < low + y.TimeWidth()
    ensures Column(a, y) != Column(b, y)
  {
    var k := CyclesOf(a, y);
    var l := CyclesOf(b, y);
    ColumnOfCycle(k, y);
    ColumnOfCycle(l, y);
    var d, w := y.cycleTime, y.width;
    assert -(w * d) < (k - l) * d < w * d by {
      assert (k - l) * d == k * d - l * d;
    }
    Within(k - l, w, d);
    if k % w == l % w {
      SameRemainder(k, l, w);
    }
  }

  /** The first tick that a row can show. */
  function RowLow(i: Inst, r: nat, y: Layout): int
    requires Drawable(i, y)
  {
    if NumLines(i, y) == 1 then i.ticks[Fetch] else RowStart(i, r, y)
  }

  lemma DrawnWindow(i: Inst, s: Stage, r: nat, y: Layout)
    requires Drawable(i, y) && WellTimed(i, y) && r < NumLines(i, y)
    requires Drawn(i, s, r, y)
    ensures i.ticks[s] != 0 && Aligned(i.ticks[s], y)
    ensures RowLow(i, r, y) <= i.ticks[s] < RowLow(i, r, y) + y.TimeWidth()
  {
    hide NumLines, BaseTick;
    BaseBefore(i, y);
    if NumLines(i, y) == 1 {
      assert RowStart(i, 0, y) == BaseTick(i, y);
    }
  }

  lemma VisibleTicksDiffer(i: Inst, s: Stage, t: Stage, y: Layout)
    requires Drawable(i, y) && WellTimed(i, y)
    requires s in y.Stages() && t in y.Stages() && s != t && i.ticks[s] != 0
    requires !Hidden(i, s) && !Hidden(i, t)
    ensures i.ticks[s] != i.ticks[t]
  {
  }

  lemma VisibleDiffer(i: Inst, s: Stage, t: Stage, r: nat, y: Layout)
    requires Drawable(i, y) && WellTimed(i, y) && r < NumLines(i, y)
    requires s != t && Drawn(i, s, r, y) && Drawn(i, t, r, y)
    ensures Column(i.ticks[s], y) != Column(i.ticks[t], y)
  {
    hide NumLines, RowLow, WellTimed, Column, InRow, Hidden;
    DrawnWindow(i, s, r, y);
    DrawnWindow(i, t, r, y);
    VisibleTicksDiffer(i, s, t, y);
    ColumnsDiffer(i.ticks[s], i.ticks[t], RowLow(i, r, y), y);
  }

  /** Main result on the timeline: an instruction as the simulator writes it
      is drawn without overlaps, so every row is `width` cells wide and shows
      each of its visible stages at that stage's column and dots elsewhere. */
  lemma TimelineExact(i: Inst, r: nat, y: Layout, c: int)
    requires Drawable(i, y) && WellTimed(i, y) && r < NumLines(i, y)
    requires 0 <= c < y.width
    ensures |RowText(i, r, y)| == y.width
    ensures forall s :: Drawn(i, s, r, y) && Column(i.ticks[s], y) == c ==> RowText(i, r, y)[c] == Shorthand(s)
    ensures (forall s :: Drawn(i, s, r, y) ==> Column(i.ticks[s], y) != c) ==> RowText(i, r, y)[c] == Dot(i)
  {
    hide RowText, NumLines, BaseTick, Column, Drawn;
    forall s, t ensures !Overlap(i, s, t, r, y) {
      if s != t && Drawn(i, s, r, y) && Drawn(i, t, r, y) {
        VisibleDiffer(i, s, t, r, y);
      }
    }
    RowShows(i, r, y, c);
  }
}
