/** The string operations of Python that the scripts rely on: decimal numbers,
    `split`, `join` and `strip`. */
module Text {

  datatype Option<+T> = None | Some(value: T)

  // ---- Decimal numbers -----------------------------------------------------

  predicate IsDigit(c: char) {
    '0' <= c <= '9'
  }

  predicate Digits(s: string) {
    s != "" && forall k :: 0 <= k < |s| ==> IsDigit(s[k])
  }

  function DigitChar(d: nat): (c: char)
    requires d < 10
    ensures IsDigit(c) && DigitValue(c) == d
  {
    ('0' as int + d) as char
  }

  function DigitValue(c: char): (d: nat)
    requires IsDigit(c)
    ensures d < 10
  {
    c as int - '0' as int
  }

  /** `str(n)` */
  function Decimal(n: nat): (s: string)
    ensures Digits(s)
  {
    if n < 10 then [DigitChar(n)] else Decimal(n / 10) + [DigitChar(n % 10)]
  }

  function Value(s: string): nat
    requires Digits(s)
  {
    var d := DigitValue(s[|s| - 1]);
    if |s| == 1 then d else 10 * Value(s[..|s| - 1]) + d
  }

  lemma {:induction false} DecimalValue(n: nat)
    ensures Value(Decimal(n)) == n
  {
    if n >= 10 {
      DecimalValue(n / 10);
      var s := Decimal(n);
      assert s[..|s| - 1] == Decimal(n / 10);
    }
  }

  // ---- Python's split and join at a character ------------------------------

  /** `s.split(c)` */
  function Split(s: string, c: char): (r: seq<string>)
    ensures r != []
  {
    if s == "" then [""]
    else
      var rest := Split(s[1..], c);
      if s[0] == c then [""] + rest else [[s[0]] + rest[0]] + rest[1..]
  }

  /** `c.join(ps)` */
  function Join(ps: seq<string>, c: char): string {
    if ps == [] then ""
    else if |ps| == 1 then ps[0]
    else ps[0] + [c] + Join(ps[1..], c)
  }

  predicate Free(s: string, c: char) {
    c !in s
  }

  lemma {:induction false} SplitWhole(s: string, c: char)
    requires Free(s, c)
    ensures Split(s, c) == [s]
  {
    if s != "" {
      SplitWhole(s[1..], c);
      assert s == [s[0]] + s[1..];
    }
  }

  lemma {:induction false} SplitFirst(a: string, b: string, c: char)
    requires Free(a, c)
    ensures Split(a + [c] + b, c) == [a] + Split(b, c)
  {
    var s := a + [c] + b;
    if a == "" {
      assert s[1..] == b;
    } else {
      assert a == [a[0]] + a[1..];
      assert s[1..] == a[1..] + [c] + b;
      SplitFirst(a[1..], b, c);
    }
  }

  lemma {:induction false} SplitJoin(ps: seq<string>, c: char)
    requires ps != [] && forall k :: 0 <= k < |ps| ==> Free(ps[k], c)
    ensures Split(Join(ps, c), c) == ps
  {
    if |ps| == 1 {
      SplitWhole(ps[0], c);
    } else {
      SplitJoin(ps[1..], c);
      SplitFirst(ps[0], Join(ps[1..], c), c);
      assert ps == [ps[0]] + ps[1..];
    }
  }

  // ---- White space -----------------------------------------------------------

  predicate IsSpace(c: char) {
    c == ' ' || '\t' <= c <= '\r'
  }

  /** `s.lstrip()` */
  function StripLeft(s: string): string {
    if s != "" && IsSpace(s[0]) then StripLeft(s[1..]) else s
  }

  function StripRight(s: string): string {
    if s != "" && IsSpace(s[|s| - 1]) then StripRight(s[..|s| - 1]) else s
  }

  /** `s.strip()` */
  function Strip(s: string): string {
    StripRight(StripLeft(s))
  }

  predicate NoSpace(s: string) {
    forall k :: 0 <= k < |s| ==> !IsSpace(s[k])
  }

  lemma StripNoSpace(s: string)
    requires NoSpace(s)
    ensures Strip(s) == s
  {
  }

  function Word(s: string): (w: string)
    ensures w <= s && NoSpace(w)
    ensures |w| < |s| ==> IsSpace(s[|w|])
  {
    if s == "" || IsSpace(s[0]) then "" else [s[0]] + Word(s[1..])
  }

  /** `s.split()`: the maximal runs of other characters */
  function Words(s: string): (ws: seq<string>)
    ensures forall w :: w in ws ==> w != "" && NoSpace(w)
    decreases |s|
  {
    if s == "" then []
    else if IsSpace(s[0]) then Words(s[1..])
    else [Word(s)] + Words(s[|Word(s)|..])
  }

  lemma {:induction false} WordAppend(a: string, b: string)
    requires NoSpace(a) && (b == "" || IsSpace(b[0]))
    ensures Word(a + b) == a
  {
    if a != "" {
      assert (a + b)[1..] == a[1..] + b;
      WordAppend(a[1..], b);
      assert a == [a[0]] + a[1..];
    }
  }

  lemma WordsFirst(a: string, b: string)
    requires a != "" && NoSpace(a)
    ensures Words(a + [' '] + b) == [a] + Words(b)
    ensures Words(a) == [a]
  {
    var s := a + [' '] + b;
    assert s == a + ([' '] + b);
    WordAppend(a, [' '] + b);
    assert s[|a|..] == [' '] + b && ([' '] + b)[1..] == b;
    WordAppend(a, "");
    assert a + "" == a;
  }

  lemma {:induction false} WordsJoin(ws: seq<string>)
    requires forall w :: w in ws ==> w != "" && NoSpace(w)
    ensures Words(Join(ws, ' ')) == ws
  {
    if ws != [] {
      assert ws[0] in ws;
      WordsFirst(ws[0], Join(ws[1..], ' '));
      assert ws == [ws[0]] + ws[1..];
      assert forall w :: w in ws[1..] ==> w in ws;
      WordsJoin(ws[1..]);
    }
  }

  // ---- int() ------------------------------------------------------------------

  /** `int(s)`: surrounding white space, a sign, decimal digits. */
  function ParseInt(s: string): Option<int> {
    var t := Strip(s);
    if Digits(t) then Some(Value(t) as int)
    else if |t| > 1 && t[0] == '-' && Digits(t[1..]) then Some(0 - Value(t[1..]))
    else if |t| > 1 && t[0] == '+' && Digits(t[1..]) then Some(Value(t[1..]))
    else None
  }

  lemma ParseDecimal(n: nat)
    ensures ParseInt(Decimal(n)) == Some(n)
  {
    DecimalValue(n);
    StripNoSpace(Decimal(n));
  }
}
