/** Renaming the sections of a checkpoint: the zero-padded number of the
    checkpoint is inserted behind every "cpu". */
module CptNames {
  import opened Text

  predicate StartsCpu(s: string) {
    |s| >= 3 && s[0] == 'c' && s[1] == 'p' && s[2] == 'u'
  }

  /** `re.search("cpu", s)` */
  predicate HasCpu(s: string) {
    s != "" && (StartsCpu(s) || HasCpu(s[1..]))
  }

  /** `re.sub("cpu", "cpu" + t, s)` */
  function Tagged(s: string, t: string): string {
    if s == "" then ""
    else if StartsCpu(s) then "cpu" + t + Tagged(s[3..], t)
    else [s[0]] + Tagged(s[1..], t)
  }

  /** Drops `w` characters behind every "cpu". */
  function Untagged(s: string, w: nat): string
    decreases |s|
  {
    if s == "" then ""
    else if StartsCpu(s) then "cpu" + Untagged(if |s| >= 3 + w then s[3 + w..] else "", w)
    else [s[0]] + Untagged(s[1..], w)
  }

  /** The `w` characters behind the first "cpu". */
  function TagOf(s: string, w: nat): string {
    if s == "" then ""
    else if StartsCpu(s) then s[3..if |s| >= 3 + w then 3 + w else |s|]
    else TagOf(s[1..], w)
  }

  /** Tagging does not touch the first two characters. */
  lemma TaggedStart(s: string, t: string)
    ensures |s| < 2 ==> Tagged(s, t) == s
    ensures |s| >= 2 ==> |Tagged(s, t)| >= 2 && Tagged(s, t)[0] == s[0] && Tagged(s, t)[1] == s[1]
  {
    if s != "" && !StartsCpu(s) && |s| >= 2 {
      var r := s[1..];
      assert r != "" ==> Tagged(r, t) != "" && Tagged(r, t)[0] == r[0];
    }
  }

  /** Tagging neither makes nor breaks a "cpu" at the start. */
  lemma StartsSame(s: string, t: string)
    requires s != "" && !StartsCpu(s)
    ensures !StartsCpu(Tagged(s, t))
  {
    TaggedStart(s[1..], t);
  }

  /** The tag and the old name can be read off the new one. */
  lemma {:induction false} TagUndone(s: string, t: string)
    ensures Untagged(Tagged(s, t), |t|) == s
    ensures HasCpu(Tagged(s, t)) == HasCpu(s)
    ensures HasCpu(s) ==> TagOf(Tagged(s, t), |t|) == t
  {
    var n := Tagged(s, t);
    if s == "" {
    } else if StartsCpu(s) {
      TagUndone(s[3..], t);
      assert n[3 + |t|..] == Tagged(s[3..], t);
      assert n[3..3 + |t|] == t;
      assert s == "cpu" + s[3..];
    } else {
      TagUndone(s[1..], t);
      StartsSame(s, t);
      assert n[1..] == Tagged(s[1..], t);
      assert s == [s[0]] + s[1..];
    }
  }

  // ---- Numbers of equal width --------------------------------------------

  function Zeros(n: nat): (s: string)
    ensures |s| == n && forall k :: 0 <= k < n ==> s[k] == '0'
  {
    if n == 0 then "" else "0" + Zeros(n - 1)
  }

  /** `str(i).zfill(w)` */
  function Padded(i: nat, w: nat): (s: string)
    ensures |s| >= w
  {
    var d := Decimal(i);
    if |d| >= w then d else Zeros(w - |d|) + d
  }

  lemma {:induction false} DecimalGrows(i: nat, j: nat)
    requires i <= j
    ensures |Decimal(i)| <= |Decimal(j)|
  {
    if j >= 10 {
      if i >= 10 {
        DecimalGrows(i / 10, j / 10);
      }
    }
  }

  lemma {:induction false} ValueOfZeros(n: nat, s: string)
    requires Digits(s)
    ensures Digits(Zeros(n) + s) && Value(Zeros(n) + s) == Value(s)
    decreases |s|
  {
    var z := Zeros(n) + s;
    assert z[|z| - 1] == s[|s| - 1];
    if |s| > 1 {
      ValueOfZeros(n, s[..|s| - 1]);
      assert z[..|z| - 1] == Zeros(n) + s[..|s| - 1];
    } else if n > 0 {
      assert z[..|z| - 1] == Zeros(n);
      ValueZero(n);
    }
  }

  lemma {:induction false} ValueZero(n: nat)
    requires n > 0
    ensures Digits(Zeros(n)) && Value(Zeros(n)) == 0
  {
    if n > 1 {
      ValueZero(n - 1);
      assert Zeros(n)[..n - 1] == Zeros(n - 1);
    }
  }

  /** All checkpoint numbers up to `last` get the same width, and differ. */
  lemma PaddedDiffer(i: nat, j: nat, last: nat)
    requires i <= last && j <= last
    ensures |Padded(i, |Decimal(last)|)| == |Decimal(last)|
    ensures Padded(i, |Decimal(last)|) == Padded(j, |Decimal(last)|) ==> i == j
  {
    hide Decimal, Value;
    var w := |Decimal(last)|;
    DecimalGrows(i, last);
    DecimalGrows(j, last);
    PaddedValue(i, w);
    PaddedValue(j, w);
  }

  lemma PaddedValue(i: nat, w: nat)
    ensures Digits(Padded(i, w)) && Value(Padded(i, w)) == i
  {
    hide Decimal, Value;
    var d := Decimal(i);
    DecimalValue(i);
    if |d| < w {
      ValueOfZeros(w - |d|, d);
    }
  }

  /** Main result on names: over all checkpoints up to `last`, two renamed
      sections have the same name only if they are the same section of the
      same checkpoint. */
  lemma RenameInjective(i: nat, j: nat, last: nat, a: string, b: string)
    requires i <= last && j <= last && HasCpu(a)
    requires Tagged(a, Padded(i, |Decimal(last)|)) == Tagged(b, Padded(j, |Decimal(last)|))
    ensures i == j && a == b
  {
    hide Decimal, Padded, Tagged, HasCpu, Untagged, TagOf;
    var w := |Decimal(last)|;
    PaddedDiffer(i, j, last);
    PaddedDiffer(j, i, last);
    TagUndone(a, Padded(i, w));
    TagUndone(b, Padded(j, w));
  }
}
