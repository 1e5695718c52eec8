/** A rolling buffer for the last lines of some output. */
module LogRoll {
  import opened Finite

  type Line = string

  /** `dump_lines(lines, idx)` */
  function Dump(lines: seq<Line>, idx: nat): seq<Line>
    requires idx <= |lines|
  {
    lines[idx..] + lines[..idx]
  }

  /** Everything read if the target is below 1 (the buffer then never fills),
      the last `target` lines otherwise. */
  function Kept(target: int, read: seq<Line>): seq<Line> {
    if target >= 1 then Latest(read, target) else read
  }

  ghost predicate Recorded(shown: seq<seq<Line>>, target: int, incoming: seq<Line>)
    requires |shown| <= |incoming| + 1
  {
    forall i :: 0 <= i < |shown| ==> shown[i] == Kept(target, incoming[..i])
  }

  lemma Record(shown: seq<seq<Line>>, target: int, incoming: seq<Line>, dump: seq<Line>)
    requires |shown| <= |incoming| && Recorded(shown, target, incoming)
    requires dump == Kept(target, incoming[..|shown|])
    ensures Recorded(shown + [dump], target, incoming)
  {
  }

  /** Appending while the buffer is not full: the dump is everything read. */
  lemma Filling(target: int, incoming: seq<Line>, k: nat)
    requires k <= |incoming| && (target >= 1 ==> k <= target)
    ensures Dump(incoming[..k], k) == Dump(incoming[..k], 0) == Kept(target, incoming[..k]) == incoming[..k]
    ensures k < |incoming| ==> incoming[..k] + [incoming[k]] == incoming[..k + 1]
  {
  }

  function Following(idx: nat, n: nat): nat
    requires idx < n
  {
    if idx == n - 1 then 0 else idx + 1
  }

  lemma DumpSize(lines: seq<Line>, idx: nat)
    requires idx <= |lines|
    ensures |Dump(lines, idx)| == |lines|
  {
  }

  lemma DumpStep(lines: seq<Line>, idx: nat, line: Line)
    requires idx < |lines|
    ensures Dump(lines[idx := line], Following(idx, |lines|)) == Dump(lines, idx)[1..] + [line]
  {
    var next := lines[idx := line];
    assert next[..idx] == lines[..idx] && next[idx + 1..] == lines[idx + 1..];
    assert Dump(lines, idx)[1..] == lines[idx + 1..] + lines[..idx];
    assert next[..idx + 1] == lines[..idx] + [line];
  }

  /** Overwriting the oldest line and stepping on keeps the last lines. */
  lemma Overwrite(lines: seq<Line>, idx: nat, incoming: seq<Line>, k: nat)
    requires idx < |lines| <= k < |incoming| && Dump(lines, idx) == Kept(|lines|, incoming[..k])
    ensures Dump(lines[idx := incoming[k]], Following(idx, |lines|)) == Kept(|lines|, incoming[..k + 1])
  {
    hide Dump, Latest, Following;
    DumpStep(lines, idx, incoming[k]);
    LatestSnoc(incoming[..k], incoming[k], |lines|);
    DumpSize(lines, idx);
    assert incoming[..k + 1] == incoming[..k] + [incoming[k]];
  }

  /** Reads all of `incoming`. `shown[i]` is what a signal would print while line
      `i` is being waited for; the last one is printed at the end. */
  method Roll(target: int, incoming: seq<Line>) returns (shown: seq<seq<Line>>)
    ensures |shown| == |incoming| + 1 && Recorded(shown, target, incoming)
  {
    hide Kept, Dump;
    var lines: seq<Line>, idx: nat, k: nat := [], 0, 0;
    var lastIdx := target - 1;
    shown := [];
    while true
      invariant k <= |incoming| && |shown| == k && Recorded(shown, target, incoming)
      invariant lines == incoming[..k] && idx == k && (target >= 1 ==> k < target)
      decreases |incoming| - k
    {
      Filling(target, incoming, k);
      Record(shown, target, incoming, Dump(lines, idx));
      shown := shown + [Dump(lines, idx)];
      if k == |incoming| {
        return;
      }
      lines := lines + [incoming[k]];
      k := k + 1;
      if idx == lastIdx {
        idx := 0;
        break;
      } else {
        idx := idx + 1;
      }
    }
    Filling(target, incoming, k);
    while true
      invariant k <= |incoming| && |shown| == k && Recorded(shown, target, incoming)
      invariant |lines| == target <= k && idx < target && Dump(lines, idx) == Kept(target, incoming[..k])
      decreases |incoming| - k
    {
      Record(shown, target, incoming, Dump(lines, idx));
      shown := shown + [Dump(lines, idx)];
      if k == |incoming| {
        return;
      }
      Overwrite(lines, idx, incoming, k);
      lines := lines[idx := incoming[k]];
      k := k + 1;
      idx := if idx == lastIdx then 0 else idx + 1;
    }
  }
}
