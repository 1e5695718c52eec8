/** Reading a trace: the lines before the window are skipped, reading stops
    early behind it, and the instructions in between pass through the print
    queue. */
module PipeWindow {
  import opened PipeOrder
  import opened PipeBuffer

  /** A trace line split at its colons. `Noise` is any line of another debug
      flag; a retire line also carries the store completion tick. */
  datatype Line =
    | Noise
    | FetchLine(tick: int, pc: string, upc: string, sn: int, disasm: string)
    | StageLine(stage: Stage, tick: int)
    | RetireLine(tick: int, store: int)

  datatype Options = Options(
    startTick: int, stopTick: int, startSn: int, stopSn: int,
    committedOnly: bool, storeCompletions: bool, cycleTime: int)
  {
    /** What the command line accepts: a start of at least 0. A cycle lasts
        at least one tick. */
    predicate Valid() {
      startTick >= 0 && startSn >= 0 && cycleTime > 0
    }

    function Drift(): int {
      2000 * cycleTime
    }
  }

  const MIDDLE: set<Stage> := {Decode, Rename, Dispatch, Issue, Complete}

  const BLANK := Inst(0, map[], "", "", "")

  function At(i: Inst, stage: Stage): int {
    if stage in i.ticks then i.ticks[stage] else 0
  }

  /** The print filter. */
  function Shown(o: Options): Inst -> bool {
    (i: Inst) =>
      && (o.startSn > 0 ==> i.sn >= o.startSn)
      && (o.stopSn > 0 ==> i.sn <= o.stopSn)
      && (o.startTick > 0 ==> At(i, Fetch) >= o.startTick)
      && (o.stopTick > 0 ==> At(i, Fetch) <= o.stopTick)
      && (o.committedOnly ==> At(i, Retire) != 0)
  }

  // ---- Assembling instructions from lines --------------------------------

  /** The record that is filled in, after one more line. It is never cleared,
      so stages that a trace leaves out keep their previous tick. */
  function Step(c: Inst, l: Line, o: Options): Inst {
    match l
    case Noise => c
    case FetchLine(t, pc, upc, sn, d) => Inst(sn, c.ticks[Fetch := t], pc, upc, d)
    case StageLine(s, t) => c.(ticks := c.ticks[s := t])
    case RetireLine(t, st) =>
      var ticks := c.ticks[Retire := t];
      c.(ticks := if o.storeCompletions then ticks[Store := st] else ticks,
         disasm := if t == 0 then "-----" + c.disasm else c.disasm)
  }

  function After(c: Inst, ls: seq<Line>, o: Options): Inst {
    if ls == [] then c else Step(After(c, ls[..|ls| - 1], o), ls[|ls| - 1], o)
  }

  /** The instructions completed by `ls`, one for every retire line. */
  function Insts(c: Inst, ls: seq<Line>, o: Options): seq<Inst> {
    if ls == [] then []
    else
      Insts(c, ls[..|ls| - 1], o) +
      if ls[|ls| - 1].RetireLine? then [After(c, ls, o)] else []
  }

  lemma {:induction false} Append(c: Inst, a: seq<Line>, b: seq<Line>, o: Options)
    ensures After(c, a + b, o) == After(After(c, a, o), b, o)
    ensures Insts(c, a + b, o) == Insts(c, a, o) + Insts(After(c, a, o), b, o)
  {
    if b == [] {
      assert a + b == a;
    } else {
      var r, l := b[..|b| - 1], b[|b| - 1];
      assert (a + b)[..|a + b| - 1] == a + r && (a + b)[|a + b| - 1] == l;
      Append(c, a, r, o);
    }
  }

  // ---- Traces made of whole instruction blocks ---------------------------

  datatype Phase = Between | Inside(seen: set<Stage>) | Broken

  function NextPhase(p: Phase, l: Line): Phase {
    match (p, l)
    case (Broken, _) => Broken
    case (_, Noise) => p
    case (Between, FetchLine(_, _, _, _, _)) => Inside({Fetch})
    case (Inside(seen), StageLine(s, _)) => if s in MIDDLE then Inside(seen + {s}) else Broken
    case (Inside(seen), RetireLine(_, _)) => if MIDDLE <= seen then Between else Broken
    case _ => Broken
  }

  function PhaseAfter(ls: seq<Line>): Phase {
    if ls == [] then Between else NextPhase(PhaseAfter(ls[..|ls| - 1]), ls[|ls| - 1])
  }

  /** The simulator writes the lines of an instruction together: fetch, then
      every middle stage, then retire. The last block may be cut short. */
  predicate Blocks(ls: seq<Line>) {
    !PhaseAfter(ls).Broken?
  }

  lemma {:induction false} PhaseSplit(a: seq<Line>, b: seq<Line>)
    requires Blocks(a + b)
    ensures Blocks(a)
    ensures b != [] && b[0].FetchLine? ==> Blocks(b)
    ensures PhaseAfter(a).Between? ==> PhaseAfter(b) == PhaseAfter(a + b)
    ensures b != [] && b[0].FetchLine? ==> PhaseAfter(a).Between?
  {
    if b == [] {
      assert a + b == a;
    } else {
      var r, l := b[..|b| - 1], b[|b| - 1];
      assert (a + b)[..|a + b| - 1] == a + r && (a + b)[|a + b| - 1] == l;
      PhaseSplit(a, r);
      assert r == [] ==> a + r == a;
    }
  }

  /** The keys that a complete block sets. */
  function Keys(o: Options): set<Stage> {
    MIDDLE + {Fetch, Retire} + if o.storeCompletions then {Store} else {}
  }

  predicate Agree(c: Inst, d: Inst, seen: set<Stage>) {
    && c.sn == d.sn && c.pc == d.pc && c.upc == d.upc && c.disasm == d.disasm
    && seen <= c.ticks.Keys && seen <= d.ticks.Keys
    && forall s :: s in seen ==> c.ticks[s] == d.ticks[s]
  }

  lemma {:induction false} KeysStay(c: Inst, ls: seq<Line>, o: Options)
    requires c.ticks.Keys <= Keys(o) && Blocks(ls)
    ensures After(c, ls, o).ticks.Keys <= Keys(o)
  {
    if ls != [] {
      PhaseSplit(ls[..|ls| - 1], [ls[|ls| - 1]]);
      assert ls == ls[..|ls| - 1] + [ls[|ls| - 1]];
      KeysStay(c, ls[..|ls| - 1], o);
    }
  }

  /** Whole blocks overwrite every key, so what was in the record before the
      first of them does not show in any instruction. */
  lemma {:induction false} FreshBlocks(c: Inst, d: Inst, ls: seq<Line>, o: Options)
    requires Blocks(ls)
    requires c.ticks.Keys <= Keys(o) && d.ticks.Keys <= Keys(o)
    ensures Insts(c, ls, o) == Insts(d, ls, o)
    ensures PhaseAfter(ls).Inside? ==> Agree(After(c, ls, o), After(d, ls, o), PhaseAfter(ls).seen)
    ensures PhaseAfter(ls).Inside? ==> Fetch in PhaseAfter(ls).seen
  {
    if ls != [] {
      var r, l := ls[..|ls| - 1], ls[|ls| - 1];
      assert ls == r + [l];
      PhaseSplit(r, [l]);
      FreshBlocks(c, d, r, o);
      KeysStay(c, r, o);
      KeysStay(d, r, o);
      if l.RetireLine? {
        RetireAgrees(After(c, r, o), After(d, r, o), l, PhaseAfter(r).seen, o);
      }
    }
  }

  lemma RetireAgrees(c: Inst, d: Inst, l: Line, seen: set<Stage>, o: Options)
    requires l.RetireLine? && Agree(c, d, seen)
    requires MIDDLE + {Fetch} <= seen
    requires c.ticks.Keys <= Keys(o) && d.ticks.Keys <= Keys(o)
    ensures Step(c, l, o) == Step(d, l, o)
  {
    var c', d' := Step(c, l, o), Step(d, l, o);
    assert c'.ticks.Keys == Keys(o) == d'.ticks.Keys;
    forall s | s in Keys(o) ensures c'.ticks[s] == d'.ticks[s] {
      assert s in seen || s == Retire || s == Store;
    }
    assert c'.ticks == d'.ticks;
  }

  /** `i` carries the sequence number and fetch tick of a fetch line. */
  ghost predicate FetchedIn(i: Inst, ls: seq<Line>) {
    exists k :: 0 <= k < |ls| && ls[k].FetchLine? && ls[k].sn == i.sn && ls[k].tick == At(i, Fetch)
  }

  lemma FetchedLater(i: Inst, r: seq<Line>, l: Line)
    requires FetchedIn(i, r)
    ensures FetchedIn(i, r + [l])
  {
    var k :| 0 <= k < |r| && r[k].FetchLine? && r[k].sn == i.sn && r[k].tick == At(i, Fetch);
    assert (r + [l])[k] == r[k];
  }

  lemma {:induction false} Origin(c: Inst, ls: seq<Line>, o: Options)
    requires Blocks(ls)
    ensures forall x :: x in Insts(c, ls, o) ==> FetchedIn(x, ls)
    ensures PhaseAfter(ls).Inside? ==> FetchedIn(After(c, ls, o), ls)
  {
    if ls != [] {
      var r, l := ls[..|ls| - 1], ls[|ls| - 1];
      assert ls == r + [l];
      PhaseSplit(r, [l]);
      Origin(c, r, o);
      var before, now := After(c, r, o), After(c, ls, o);
      if PhaseAfter(r).Inside? {
        assert now.sn == before.sn && At(now, Fetch) == At(before, Fetch);
        FetchedLater(before, r, l);
        assert FetchedIn(now, ls);
      } else if l.FetchLine? {
        assert ls[|ls| - 1] == l;
        assert FetchedIn(now, ls);
      }
      forall x | x in Insts(c, ls, o) ensures FetchedIn(x, ls) {
        if x in Insts(c, r, o) {
          FetchedLater(x, r, l);
        }
      }
    }
  }

  // ---- Where reading begins and ends -------------------------------------

  /** The first line from `k` on that satisfies `p`, or the end. */
  function Seek(ls: seq<Line>, k: nat, p: Line -> bool): (r: nat)
    requires k <= |ls|
    ensures k <= r <= |ls|
    ensures r < |ls| ==> p(ls[r])
    ensures forall i :: k <= i < r ==> !p(ls[i])
    decreases |ls| - k
  {
    if k == |ls| || p(ls[k]) then k else Seek(ls, k + 1, p)
  }

  function ReachesTick(o: Options): Line -> bool {
    (l: Line) => !l.Noise? && l.tick >= o.startTick
  }

  function ReachesSn(o: Options): Line -> bool {
    (l: Line) => l.FetchLine? && l.sn >= o.startSn
  }

  function IsFetch(): Line -> bool {
    (l: Line) => l.FetchLine?
  }

  function PastStop(o: Options): Line -> bool {
    (l: Line) =>
      && l.FetchLine?
      && (|| (o.stopTick > 0 && l.tick > o.stopTick + o.Drift())
          || (o.stopSn > 0 && l.sn > o.stopSn + MAX_THRESHOLD))
  }

  function WindowStart(ls: seq<Line>, o: Options): (r: nat)
    ensures r <= |ls|
  {
    if o.startTick != 0 then Seek(ls, 0, ReachesTick(o))
    else if o.startSn != 0 then Seek(ls, 0, ReachesSn(o))
    else 0
  }

  function Begin(ls: seq<Line>, o: Options): (r: nat)
    ensures r <= |ls|
  {
    Seek(ls, WindowStart(ls, o), IsFetch())
  }

  function End(ls: seq<Line>, o: Options): (r: nat)
    ensures Begin(ls, o) <= r <= |ls|
  {
    Seek(ls, Begin(ls, o), PastStop(o))
  }

  function Arrivals(ls: seq<Line>, o: Options): seq<Inst> {
    Insts(BLANK, ls[Begin(ls, o)..End(ls, o)], o)
  }

  /** What the viewer prints. */
  function Printed(ls: seq<Line>, o: Options): seq<Inst> {
    Keep(Output(Arrivals(ls, o), MAX_THRESHOLD, MIN_THRESHOLD), Shown(o))
  }

  /** The simple program: sort the whole trace, then filter. */
  function SortThenFilter(ls: seq<Line>, o: Options): seq<Inst> {
    Keep(StableSort(Insts(BLANK, ls, o)), Shown(o))
  }

  /** The other documented assumption: behind a fetch line that ends the
      reading, no fetch tick falls back by more than the drift and no sequence
      number by more than the upper threshold. */
  predicate BoundedRegress(ls: seq<Line>, o: Options) {
    forall i, j :: 0 <= i < j < |ls| && ls[i].FetchLine? && ls[j].FetchLine? ==>
      && (o.stopTick > 0 ==> ls[j].tick >= ls[i].tick - o.Drift())
      && (o.stopSn > 0 ==> ls[j].sn >= ls[i].sn - MAX_THRESHOLD)
  }

  /** Nothing in the skipped lines belongs to the window. */
  lemma SkippedNotShown(ls: seq<Line>, o: Options)
    requires o.Valid() && Blocks(ls)
    ensures Keep(Insts(BLANK, ls[..Begin(ls, o)], o), Shown(o)) == []
  {
    var b := Begin(ls, o);
    var pre := ls[..b];
    assert ls == pre + ls[b..];
    PhaseSplit(pre, ls[b..]);
    Origin(BLANK, pre, o);
    forall x | x in Insts(BLANK, pre, o) ensures !Shown(o)(x) {
      var k :| 0 <= k < |pre| && pre[k].FetchLine? && pre[k].sn == x.sn && pre[k].tick == At(x, Fetch);
      assert pre[k] == ls[k];
      assert k < WindowStart(ls, o) by { assert ls[k].FetchLine?; }
      if o.startTick != 0 {
        assert !ReachesTick(o)(ls[k]);
      } else {
        assert !ReachesSn(o)(ls[k]);
      }
    }
    KeepNone(Insts(BLANK, pre, o), Shown(o));
  }

  lemma BeyondStop(first: Line, x: Inst, o: Options)
    requires o.Valid() && PastStop(o)(first)
    requires x.sn >= first.sn - MAX_THRESHOLD || o.stopSn <= 0
    requires At(x, Fetch) >= first.tick - o.Drift() || o.stopTick <= 0
    ensures !Shown(o)(x)
  {
  }

  /** Nothing behind the line that ends the reading belongs to the window. */
  lemma BehindNotShown(ls: seq<Line>, c: Inst, o: Options)
    requires o.Valid() && Blocks(ls) && BoundedRegress(ls, o)
    ensures Keep(Insts(c, ls[End(ls, o)..], o), Shown(o)) == []
  {
    hide PhaseAfter, Shown, PastStop;
    var e := End(ls, o);
    var post := ls[e..];
    if post != [] {
      assert post[0] == ls[e];
      assert PastStop(o)(ls[e]);
      assert ls[e].FetchLine? by { PastStopFetches(ls[e], o); }
      assert ls == ls[..e] + post;
      PhaseSplit(ls[..e], post);
      Origin(c, post, o);
      forall x | x in Insts(c, post, o) ensures !Shown(o)(x) {
        var k :| 0 <= k < |post| && post[k].FetchLine? && post[k].sn == x.sn && post[k].tick == At(x, Fetch);
        assert post[k] == ls[e + k];
        BeyondStop(ls[e], x, o);
      }
      KeepNone(Insts(c, post, o), Shown(o));
    }
  }

  lemma PastStopFetches(l: Line, o: Options)
    requires PastStop(o)(l)
    ensures l.FetchLine?
  {
  }

  /** The whole trace is the skipped part, the arrivals and the part behind. */
  lemma TraceSplits(ls: seq<Line>, o: Options) returns (pre: seq<Inst>, post: seq<Inst>)
    requires o.Valid() && Blocks(ls) && BoundedRegress(ls, o)
    ensures Insts(BLANK, ls, o) == pre + Arrivals(ls, o) + post
    ensures Keep(pre, Shown(o)) == [] && Keep(post, Shown(o)) == []
  {
    hide Insts, After, PhaseAfter, Keep, Seek;
    var b, e := Begin(ls, o), End(ls, o);
    var first, mid, last := ls[..b], ls[b..e], ls[e..];
    assert ls == first + (mid + last);
    assert mid + last == ls[b..];
    PhaseSplit(first, mid + last);
    var c := After(BLANK, first, o);
    Append(BLANK, first, mid + last, o);
    KeysStay(BLANK, first, o);
    Append(c, mid, last, o);
    pre, post := Insts(BLANK, first, o), Insts(After(c, mid, o), last, o);
    SkippedNotShown(ls, o);
    BehindNotShown(ls, After(c, mid, o), o);
    MiddleFresh(ls, c, o);
  }

  lemma MiddleFresh(ls: seq<Line>, c: Inst, o: Options)
    requires Blocks(ls) && c.ticks.Keys <= Keys(o)
    ensures Insts(c, ls[Begin(ls, o)..End(ls, o)], o) == Arrivals(ls, o)
  {
    var b, e := Begin(ls, o), End(ls, o);
    assert b < |ls| ==> IsFetch()(ls[b]);
    hide Seek, Begin, End, Blocks, Insts, Keys;
    if b < e {
      BlocksWithin(ls, b, e);
      FreshBlocks(c, BLANK, ls[b..e], o);
    } else {
      NoInsts(c, ls[b..e], o);
      NoInsts(BLANK, ls[b..e], o);
    }
  }

  lemma NoInsts(c: Inst, none: seq<Line>, o: Options)
    requires none == []
    ensures Insts(c, none, o) == []
  {
  }

  lemma BlocksWithin(ls: seq<Line>, b: nat, e: nat)
    requires Blocks(ls) && b < e <= |ls| && ls[b].FetchLine?
    ensures Blocks(ls[b..e])
  {
    hide Blocks, PhaseAfter;
    assert ls == ls[..b] + ls[b..] && ls[b..][0] == ls[b];
    PhaseSplit(ls[..b], ls[b..]);
    assert ls[b..] == ls[b..e] + ls[e..];
    PhaseSplit(ls[b..e], ls[e..]);
  }

  /** Skipping and stopping early change nothing in the filtered trace. */
  lemma WindowKeepsInstructions(ls: seq<Line>, o: Options)
    requires o.Valid() && Blocks(ls) && BoundedRegress(ls, o)
    ensures Keep(Arrivals(ls, o), Shown(o)) == Keep(Insts(BLANK, ls, o), Shown(o))
  {
    hide Insts, Keep, Arrivals;
    var pre, post := TraceSplits(ls, o);
    var a := Arrivals(ls, o);
    KeepAppend(pre + a, post, Shown(o));
    KeepAppend(pre, a, Shown(o));
  }

  lemma DisplacedInfix(pre: seq<Inst>, a: seq<Inst>, post: seq<Inst>, lo: nat)
    requires Displaced(pre + a + post, lo)
    ensures Displaced(a, lo)
  {
    var all := pre + a + post;
    forall j | 0 <= j < |a| ensures Larger(a[..j], a[j].sn) <= lo {
      var k := |pre| + j;
      assert all[k] == a[j];
      assert all[..k] == pre + a[..j];
      LargerMonotone(pre, a[..j], a[j].sn);
    }
  }

  /** Main result on the viewer: for every trace within the documented
      disorder and every window, reading it in one bounded pass prints exactly
      what sorting the whole trace and filtering it would. */
  lemma ViewerIsSortThenFilter(ls: seq<Line>, o: Options)
    requires o.Valid() && Blocks(ls) && BoundedRegress(ls, o)
    requires Displaced(Insts(BLANK, ls, o), MIN_THRESHOLD)
    ensures Printed(ls, o) == SortThenFilter(ls, o)
  {
    hide Insts, Keep, Arrivals, StableSort, Output, Displaced;
    var pre, post := TraceSplits(ls, o);
    var a := Arrivals(ls, o);
    DisplacedInfix(pre, a, post, MIN_THRESHOLD);
    StreamingEqualsSorting(a, MAX_THRESHOLD, MIN_THRESHOLD);
    KeepSort(a, Shown(o));
    KeepSort(Insts(BLANK, ls, o), Shown(o));
    WindowKeepsInstructions(ls, o);
  }

  // ---- The viewer itself --------------------------------------------------

  class Viewer {
    const opts: Options
    var queue: seq<Inst>
    /** The instructions written to the output file, in order. */
    var out: seq<Inst>
    ghost var popped: seq<Inst>

    ghost predicate Valid()
      reads this
    {
      out == Keep(popped, Shown(opts))
    }

    ghost function Contents(): Buffer
      reads this
    {
      Buffer(queue, popped)
    }

    constructor (o: Options)
      ensures Valid() && opts == o && Contents() == Buffer([], [])
    {
      opts := o;
      queue, out, popped := [], [], [];
    }

    method PrintInsts(lower: nat)
      requires Valid()
      modifies this
      ensures Valid() && Contents() == Drain(old(Contents()), lower)
    {
      hide StableSort, Keep;
      queue := StableSort(queue);
      ghost var s, p := queue, popped;
      ghost var k := 0;
      while |queue| > lower
        invariant 0 <= k <= |s| && queue == s[k..] && popped == p + s[..k]
        invariant k > 0 ==> k <= |s| - lower
        invariant Valid()
      {
        var item := queue[0];
        queue := queue[1..];
        popped := popped + [item];
        k := k + 1;
        KeepSnoc(p + s[..k - 1], item, Shown(opts));
        assert popped == p + s[..k];
        if opts.startSn > 0 && item.sn < opts.startSn {
          continue;
        }
        if opts.stopSn > 0 && item.sn > opts.stopSn {
          continue;
        }
        if opts.startTick > 0 && At(item, Fetch) < opts.startTick {
          continue;
        }
        if opts.stopTick > 0 && At(item, Fetch) > opts.stopTick {
          continue;
        }
        if opts.committedOnly && At(item, Retire) == 0 {
          continue;
        }
        out := out + [item];
      }
    }

    method QueueInst(x: Inst)
      requires Valid()
      modifies this
      ensures Valid() && Contents() == Push(old(Contents()), x, MAX_THRESHOLD, MIN_THRESHOLD)
    {
      queue := queue + [x];
      if |queue| > MAX_THRESHOLD {
        PrintInsts(MIN_THRESHOLD);
      }
    }

    /** Skips to the first fetch line at or behind the start of the window. */
    method SkipLines(ls: seq<Line>) returns (pos: nat)
      ensures pos == Begin(ls, opts)
    {
      pos := 0;
      if opts.startTick != 0 {
        while pos < |ls| && (ls[pos].Noise? || ls[pos].tick < opts.startTick)
          invariant pos <= |ls| && WindowStart(ls, opts) == Seek(ls, pos, ReachesTick(opts))
        {
          pos := pos + 1;
        }
      } else if opts.startSn != 0 {
        while pos < |ls| && !(ls[pos].FetchLine? && ls[pos].sn >= opts.startSn)
          invariant pos <= |ls| && WindowStart(ls, opts) == Seek(ls, pos, ReachesSn(opts))
        {
          pos := pos + 1;
        }
      }
      while pos < |ls| && !ls[pos].FetchLine?
        invariant pos <= |ls| && Begin(ls, opts) == Seek(ls, pos, IsFetch())
      {
        pos := pos + 1;
      }
    }

    /** Reads the region of interest, queueing an instruction at every retire
        line, until the trace or the window ends. */
    method ReadRegion(ls: seq<Line>, b: nat)
      requires Valid() && Contents() == Buffer([], [])
      requires b == Begin(ls, opts)
      modifies this
      ensures Valid() && Contents() == Run(Arrivals(ls, opts), MAX_THRESHOLD, MIN_THRESHOLD)
    {
      hide Push, Shown, Begin, Seek, After, Insts, Run, Step;
      var pos := b;
      var curr := BLANK;
      NothingRead(ls[b..b], opts);
      while pos < |ls|
        invariant b <= pos <= |ls| && End(ls, opts) == Seek(ls, pos, PastStop(opts))
        invariant curr == After(BLANK, ls[b..pos], opts)
        invariant Valid() && Contents() == Run(Insts(BLANK, ls[b..pos], opts), MAX_THRESHOLD, MIN_THRESHOLD)
      {
        var l := ls[pos];
        SeekStep(ls, pos, PastStop(opts));
        if l.FetchLine? &&
           ((opts.stopTick > 0 && l.tick > opts.stopTick + opts.Drift()) ||
            (opts.stopSn > 0 && l.sn > opts.stopSn + MAX_THRESHOLD)) {
          break;
        }
        LineRead(ls[b..pos], l, opts);
        assert ls[b..pos + 1] == ls[b..pos] + [l];
        curr := Step(curr, l, opts);
        if l.RetireLine? {
          QueueInst(curr);
        }
        pos := pos + 1;
      }
    }

    method ProcessTrace(ls: seq<Line>)
      requires Valid() && Contents() == Buffer([], [])
      modifies this
      ensures out == Printed(ls, opts)
    {
      var b := SkipLines(ls);
      ReadRegion(ls, b);
      PrintInsts(0);
    }
  }

  lemma SeekStep(ls: seq<Line>, k: nat, p: Line -> bool)
    requires k < |ls|
    ensures Seek(ls, k, p) == if p(ls[k]) then k else Seek(ls, k + 1, p)
  {
  }

  lemma NothingRead(none: seq<Line>, o: Options)
    requires none == []
    ensures After(BLANK, none, o) == BLANK && Insts(BLANK, none, o) == []
    ensures Run([], MAX_THRESHOLD, MIN_THRESHOLD) == Buffer([], [])
  {
  }

  lemma LineRead(r: seq<Line>, l: Line, o: Options)
    ensures After(BLANK, r + [l], o) == Step(After(BLANK, r, o), l, o)
    ensures var a := Insts(BLANK, r, o);
            Run(Insts(BLANK, r + [l], o), MAX_THRESHOLD, MIN_THRESHOLD) ==
            if l.RetireLine? then
              Push(Run(a, MAX_THRESHOLD, MIN_THRESHOLD), Step(After(BLANK, r, o), l, o), MAX_THRESHOLD, MIN_THRESHOLD)
            else Run(a, MAX_THRESHOLD, MIN_THRESHOLD)
  {
    hide Push;
    var x, a := After(BLANK, r + [l], o), Insts(BLANK, r, o);
    assert (r + [l])[..|r|] == r;
    assert Insts(BLANK, r + [l], o) == if l.RetireLine? then a + [x] else a;
    RunSnoc(a, x, MAX_THRESHOLD, MIN_THRESHOLD);
  }
}
