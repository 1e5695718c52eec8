/** Length-prefixed messages in a byte stream. The prefix is a base 128 varint
    as in the section "Base 128 Varints" of the Protocol Buffers Encoding
    document; message bodies are opaque bytes. */
module ProtoLib {
  import opened Arith
  import opened Bits

  // ---- Varints as byte sequences ------------------------------------------

  /** The bytes of `v`: seven bits each, lowest first, the top bit set on all
      but the last. */
  function Varint(v: nat): (s: seq<Byte>)
    ensures s != []
  {
    if v < 128 then [v] else [128 + v % 128] + Varint(v / 128)
  }

  /** What a decoder of 32-bit values makes of an accumulated 70-bit value: the
      low 32 bits, negative if bit 63 or above was set. */
  function Fold(v: nat): int {
    if v > 0x7FFF_FFFF_FFFF_FFFF then v % 0x1_0000_0000 - 0x1_0000_0000
    else v % 0x1_0000_0000
  }

  /** `Ended`: the input ran out inside the varint. */
  datatype Decoded = Got(value: int, size: nat) | Ended | Overlong

  /** Decodes a varint at the start of `s`, with `acc` holding the bits below
      `shift` that were read before. */
  function Scan(s: seq<Byte>, shift: nat, acc: nat): (d: Decoded)
    ensures d.Got? ==> 0 < d.size <= |s|
    ensures d.Overlong? ==> s != []
  {
    if s == [] then Ended
    else
      var acc' := Or(acc, Shl(And(s[0], 0x7F), shift));
      if And(s[0], 0x80) == 0 then Got(Fold(acc'), 1)
      else if shift + 7 >= 64 then Overlong
      else
        match Scan(s[1..], shift + 7, acc')
        case Got(v, n) => Got(v, n + 1)
        case d => d
  }

  // ---- Streams --------------------------------------------------------------

  class Reader {
    const data: seq<Byte>
    var pos: nat

    ghost predicate Valid()
      reads this
    {
      pos <= |data|
    }

    ghost function Rest(): seq<Byte>
      requires Valid()
      reads this
    {
      data[pos..]
    }

    constructor (bytes: seq<Byte>)
      ensures Valid() && data == bytes && pos == 0
    {
      data, pos := bytes, 0;
    }

    /** `read(n)`: up to `n` bytes, everything for a negative `n`. */
    method Read(n: int) returns (buf: seq<Byte>)
      requires Valid()
      modifies this
      ensures Valid() && old(Rest()) == buf + Rest()
      ensures |buf| == if 0 <= n <= |old(Rest())| then n else |old(Rest())|
    {
      var k := if 0 <= n <= |data| - pos then n else |data| - pos;
      buf := data[pos..pos + k];
      pos := pos + k;
    }

    method DecodeVarint32() returns (d: Decoded)
      requires Valid()
      modifies this
      ensures Valid() && d == Scan(old(Rest()), 0, 0)
      ensures d.Got? ==> Rest() == old(Rest())[d.size..]
    {
      var result, shift, n := 0, 0, 0;
      while true
        invariant Valid() && n == pos - old(pos) && shift < 64
        invariant match Scan(Rest(), shift, result)
                  case Got(v, k) => Scan(old(Rest()), 0, 0) == Got(v, k + n)
                  case e => Scan(old(Rest()), 0, 0) == e
        decreases |data| - pos
      {
        ghost var before := Rest();
        var c := Read(1);
        if |c| == 0 {
          return Ended;
        }
        var b := c[0];
        assert before[0] == b && before[1..] == Rest();
        result := Or(result, Shl(And(b, 0x7F), shift));
        n := n + 1;
        if And(b, 0x80) == 0 {
          return Got(Fold(result), n);
        }
        shift := shift + 7;
        if shift >= 64 {
          return Overlong;
        }
      }
    }

    /** Reads one message; `None` where the source returns False. */
    method DecodeMessage() returns (m: Message)
      requires Valid()
      modifies this
      ensures Valid() && m == FirstMessage(old(Rest()))
      ensures m.Body? ==> Rest() == old(Rest())[m.consumed..]
    {
      ghost var s := Rest();
      var d := DecodeVarint32();
      if !d.Got? || d.value == 0 {
        return NoMessage;
      }
      assert Rest() == s[d.size..];
      var buf := Read(d.value);
      m := Body(buf, d.size + |buf|);
      assert buf == s[d.size..d.size + |buf|];
    }

    /** `while decodeMessage(...)`: all messages up to the first failure. */
    method DecodeAll() returns (bodies: seq<seq<Byte>>)
      requires Valid()
      modifies this
      ensures Valid() && bodies == Messages(old(Rest()))
    {
      bodies := [];
      ghost var s := Rest();
      var m := DecodeMessage();
      while m.Body?
        invariant Valid() && m == FirstMessage(s)
        invariant m.Body? ==> Rest() == s[m.consumed..]
        invariant bodies + Messages(s) == Messages(old(Rest()))
        decreases |s|
      {
        bodies := bodies + [m.body];
        s := Rest();
        m := DecodeMessage();
      }
    }
  }

  datatype Message = NoMessage | Body(body: seq<Byte>, consumed: nat)

  function FirstMessage(s: seq<Byte>): (m: Message)
    ensures m.Body? ==> 0 < m.consumed <= |s|
  {
    match Scan(s, 0, 0)
    case Got(v, n) =>
      if v == 0 then NoMessage
      else
        var k := if 0 <= v <= |s| - n then v else |s| - n;
        Body(s[n..n + k], n + k)
    case _ => NoMessage
  }

  function Messages(s: seq<Byte>): seq<seq<Byte>>
    decreases |s|
  {
    match FirstMessage(s)
    case NoMessage => []
    case Body(b, n) => [b] + Messages(s[n..])
  }

  // ---- Writing ---------------------------------------------------------------

  method EncodeVarint32(v: nat) returns (out: seq<Byte>)
    ensures out == Varint(v)
  {
    hide Varint, And, Or;
    out := [];
    SevenBits(v);
    var bits: nat, value: nat := And(v, 0x7F), v / 128;
    while value != 0
      invariant bits < 128 && out + Varint(bits + 128 * value) == Varint(v)
      decreases value
    {
      OrTop(bits);
      SevenBits(value);
      VarintStep(bits, value);
      var x := Or(0x80, bits);
      assert out + ([x] + Varint(value)) == out + [x] + Varint(value);
      out := out + [x];
      bits := And(value, 0x7F);
      value := value / 128;
    }
    VarintStep(bits, 0);
    out := out + [bits];
  }

  lemma VarintStep(bits: nat, value: nat)
    requires bits < 128
    ensures Varint(bits + 128 * value) == if value == 0 then [bits] else [128 + bits] + Varint(value)
  {
    DivMod(bits + 128 * value, 128, value, bits);
  }

  lemma SevenBits(v: nat)
    ensures And(v, 0x7F) == v % 128
  {
    AndMask(v, 7);
    assert Pow2(7) == 128;
  }

  function Frame(body: seq<Byte>): seq<Byte> {
    Varint(|body|) + body
  }

  method EncodeMessage(body: seq<Byte>) returns (out: seq<Byte>)
    ensures out == Frame(body)
  {
    var prefix := EncodeVarint32(|body|);
    out := prefix + body;
  }

  function FrameAll(bodies: seq<seq<Byte>>): seq<Byte> {
    if bodies == [] then [] else Frame(bodies[0]) + FrameAll(bodies[1..])
  }

  // ---- What a varint is, without the recursion -----------------------------

  function Base128(s: seq<Byte>): nat {
    if s == [] then 0 else s[0] % 128 + 128 * Base128(s[1..])
  }

  /** A well-formed varint: only the last byte lacks the top bit, and there are
      no more bytes than needed. */
  predicate Canonical(s: seq<Byte>) {
    && s != []
    && (forall k :: 0 <= k < |s| - 1 ==> s[k] >= 128)
    && s[|s| - 1] < 128
    && (|s| > 1 ==> s[|s| - 1] != 0)
  }

  lemma {:induction false} VarintMeaning(v: nat)
    ensures Canonical(Varint(v)) && Base128(Varint(v)) == v
  {
    if v < 128 {
      assert Varint(v) == [v] && [v][1..] == [];
    } else {
      VarintMeaning(v / 128);
      VarintMore(v, Varint(v / 128));
    }
  }

  lemma VarintMore(v: nat, t: seq<Byte>)
    requires v >= 128 && Canonical(t) && Base128(t) == v / 128
    ensures var s := [128 + v % 128] + t; Canonical(s) && Base128(s) == v
  {
    var s := [128 + v % 128] + t;
    assert s[1..] == t && s[|s| - 1] == t[|t| - 1];
    assert forall k :: 1 <= k < |s| ==> s[k] == t[k - 1];
    TopByte(s);
    if |t| == 1 {
      assert t[1..] == [];
    }
    hide Base128;
    assert v == v / 128 * 128 + v % 128;
  }

  lemma CanonicalTail(s: seq<Byte>)
    requires Canonical(s) && |s| > 1
    ensures s[0] >= 128 && Canonical(s[1..]) && (|s[1..]| == 1 ==> Base128(s[1..]) >= 1)
  {
    var t := s[1..];
    assert forall k :: 0 <= k < |t| ==> t[k] == s[k + 1];
    if |t| == 1 {
      assert t[1..] == [];
    }
  }

  lemma TopByte(s: seq<Byte>)
    requires s != [] && s[0] >= 128
    ensures Base128(s) == s[0] - 128 + 128 * Base128(s[1..])
  {
    assert s[0] % 128 == s[0] - 128;
  }

  lemma {:induction false} VarintUnique(s: seq<Byte>)
    requires Canonical(s)
    ensures s == Varint(Base128(s))
    ensures |s| > 1 ==> Base128(s) >= 128
  {
    hide Varint, Base128, Canonical;
    if |s| == 1 {
      OneByte(s);
    } else {
      CanonicalNotEmpty(s);
      var t := s[1..];
      CanonicalTail(s);
      VarintUnique(t);
      TopByte(s);
      assert s == [s[0]] + t;
      VarintStep(s[0] - 128, Base128(t));
    }
  }

  lemma CanonicalNotEmpty(s: seq<Byte>)
    requires Canonical(s)
    ensures s != []
  {
  }

  lemma OneByte(s: seq<Byte>)
    requires Canonical(s) && |s| == 1
    ensures s == Varint(Base128(s))
  {
    assert s[1..] == [];
  }

  /** No varint is a proper prefix of another. */
  lemma {:induction false} VarintPrefixFree(a: nat, b: nat)
    requires Varint(a) <= Varint(b)
    ensures a == b
  {
    var s, t := Varint(a), Varint(b);
    VarintMeaning(a);
    VarintMeaning(b);
    assert s[|s| - 1] == t[|s| - 1];
    assert |s| == |t|;
    assert s == t;
  }

  // ---- Decoding undoes encoding --------------------------------------------

  lemma TopBit(b: Byte)
    ensures And(b, 0x80) == 0 <==> b < 128
  {
    assert Pow2(7) == 128;
    AndBit(b, 7);
  }

  lemma AddSeven(x: nat, acc: nat, p: nat)
    requires x < 128 && acc < p
    ensures acc + x * p < 128 * p
  {
    assert (x + 1) * p <= 128 * p;
    assert (x + 1) * p == x * p + p;
  }

  lemma ScanByte(b: Byte, shift: nat, acc: nat)
    requires acc < Pow2(shift)
    ensures Or(acc, Shl(And(b, 0x7F), shift)) == acc + b % 128 * Pow2(shift)
  {
    SevenBits(b);
    OrAbove(acc, b % 128, shift);
  }

  /** The value of `v` in units of `p`, on top of `acc`. */
  function Total(acc: nat, v: nat, p: nat): nat {
    acc + v * p
  }

  /** Scanning the varint of `v` with `acc` already read adds up the value, as
      long as it fits in the ten bytes that a decoder accepts. */
  lemma {:induction false} ScanVarint(v: nat, rest: seq<Byte>, shift: nat, acc: nat)
    requires acc < Pow2(shift) && shift <= 63 && shift % 7 == 0
    ensures var total := Total(acc, v, Pow2(shift));
            Scan(Varint(v) + rest, shift, acc) ==
            if total < Pow2(70) then Got(Fold(total), |Varint(v)|) else Overlong
    decreases v
  {
    hide Pow2, Or, And, Shl, Fold, Scan, Total;
    var s, p := Varint(v) + rest, Pow2(shift);
    ScanFirst(s, shift, acc);
    TotalStep(acc, v, p);
    Pow2Step(shift);
    if v < 128 {
      Pow2Grows(shift + 7, 70);
    } else {
      assert s[1..] == Varint(v / 128) + rest;
      if shift < 63 {
        ScanVarint(v / 128, rest, shift + 7, Total(acc, v % 128, p));
      }
    }
  }

  /** One byte of a varint. */
  lemma ScanFirst(s: seq<Byte>, shift: nat, acc: nat)
    requires s != [] && acc < Pow2(shift)
    ensures var acc' := Total(acc, s[0] % 128, Pow2(shift));
            Scan(s, shift, acc) ==
            if s[0] < 128 then Got(Fold(acc'), 1)
            else if shift + 7 >= 64 then Overlong
            else
              match Scan(s[1..], shift + 7, acc')
              case Got(v, n) => Got(v, n + 1)
              case d => d
  {
    hide Pow2, Or, And, Shl, Fold;
    ScanByte(s[0], shift, acc);
    TopBit(s[0]);
  }

  lemma TotalStep(acc: nat, v: nat, p: nat)
    requires acc < p
    ensures Total(acc, v % 128, p) < 128 * p
    ensures Total(acc, v, p) == Total(Total(acc, v % 128, p), v / 128, 128 * p)
    ensures v >= 128 ==> Total(acc, v, p) >= 128 * p
  {
    AddSeven(v % 128, acc, p);
    Regroup(v, p);
    if v >= 128 {
      MulAtLeast(v, 128, p);
    }
  }

  lemma MulAtLeast(v: nat, w: nat, p: nat)
    requires v >= w
    ensures v * p >= w * p
  {
    assert (v - w) * p == v * p - w * p;
  }

  lemma Pow2Step(k: nat)
    ensures Pow2(k + 7) == 128 * Pow2(k)
  {
    Pow2Add(k, 7);
    assert Pow2(7) == 128;
  }

  lemma Regroup(v: nat, p: nat)
    ensures v % 128 * p + v / 128 * (128 * p) == v * p
  {
    assert v == v % 128 + v / 128 * 128;
    assert v / 128 * (p * 128) == v / 128 * 128 * p;
    assert (v % 128 + v / 128 * 128) * p == v % 128 * p + v / 128 * 128 * p;
  }

  lemma Pow2Grows(a: nat, b: nat)
    requires a <= b
    ensures Pow2(a) <= Pow2(b)
  {
    if a < b {
      Pow2Grows(a, b - 1);
    }
  }

  /** A value comes back exactly when it has at most 32 bits, and its bytes are
      then all that is consumed. */
  lemma DecodeEncode(v: nat, rest: seq<Byte>)
    ensures Scan(Varint(v) + rest, 0, 0) == Got(v, |Varint(v)|) <==> v < 0x1_0000_0000
  {
    hide Scan, Varint, Pow2;
    TenBytes();
    ScanVarint(v, rest, 0, 0);
    assert v * 1 == v;
  }

  lemma TenBytes()
    ensures Pow2(0) == 1 && Pow2(70) >= 0x1_0000_0000
  {
    assert Pow2(8) == 256;
    hide Pow2;
    Pow2Add(8, 8);
    Pow2Add(16, 16);
    Pow2Grows(32, 70);
  }

  /** The messages up to the first empty one. */
  function BeforeEmpty(bodies: seq<seq<Byte>>): seq<seq<Byte>> {
    if bodies == [] || bodies[0] == [] then [] else [bodies[0]] + BeforeEmpty(bodies[1..])
  }

  lemma FirstOfFrame(body: seq<Byte>, rest: seq<Byte>)
    requires |body| < 0x1_0000_0000
    ensures FirstMessage(Frame(body) + rest) ==
            if body == [] then NoMessage else Body(body, |Frame(body)|)
  {
    var p := Varint(|body|);
    DecodeEncode(|body|, body + rest);
    assert Frame(body) + rest == p + (body + rest);
    assert (p + (body + rest))[|p|..|p| + |body|] == body;
  }

  /** Main result on the stream: reading back what was written yields the
      messages before the first empty one, in order. */
  lemma {:induction false} StreamRoundTrip(bodies: seq<seq<Byte>>)
    requires forall k :: 0 <= k < |bodies| ==> |bodies[k]| < 0x1_0000_0000
    ensures Messages(FrameAll(bodies)) == BeforeEmpty(bodies)
  {
    if bodies != [] {
      var b, rest := bodies[0], FrameAll(bodies[1..]);
      FirstOfFrame(b, rest);
      assert (Frame(b) + rest)[|Frame(b)|..] == rest;
      StreamRoundTrip(bodies[1..]);
    }
  }
}
