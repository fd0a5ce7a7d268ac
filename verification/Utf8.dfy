/** Decoding bytes as Buffer.toString("utf8") does, with a replacement character for each
    malformed sequence (section 3 of RFC 3629 for the well-formed ones), and why that
    commutes with splitting at line feeds. */
module Utf8 {
  /** A byte; decoding treats any value above 0xF4 alike. */
  type Byte = nat

  const LF: Byte := 10
  const REPLACEMENT := 0xFFFD

  /** A multi-byte sequence under way: bytes still needed, the range of the next one, and
      the bits so far. */
  datatype Pending = Pending(needed: nat, lower: nat, upper: nat, point: nat)

  const NONE := Pending(0, 0x80, 0xBF, 0)

  /** What a byte starts: a complete code point, or a pending sequence. */
  function Lead(b: Byte): (r: (seq<nat>, Pending)) {
    if b < 0x80 then ([b], NONE)
    else if 0xC2 <= b <= 0xDF then ([], Pending(1, 0x80, 0xBF, b - 0xC0))
    else if 0xE0 <= b <= 0xEF then
      ([], Pending(2, if b == 0xE0 then 0xA0 else 0x80, if b == 0xED then 0x9F else 0xBF, b - 0xE0))
    else if 0xF0 <= b <= 0xF4 then
      ([], Pending(3, if b == 0xF0 then 0x90 else 0x80, if b == 0xF4 then 0x8F else 0xBF, b - 0xF0))
    else ([REPLACEMENT], NONE)
  }

  /** One byte of decoding. A byte that cannot continue the pending sequence ends it with a
      replacement character and starts afresh. */
  function Step(p: Pending, b: Byte): (seq<nat>, Pending) {
    if p.needed == 0 then Lead(b)
    else if !(p.lower <= b <= p.upper) then
      var (out, next) := Lead(b);
      ([REPLACEMENT] + out, next)
    else
      var point := p.point * 64 + (if b >= 0x80 then b - 0x80 else 0);
      if p.needed == 1 then ([point], NONE) else ([], Pending(p.needed - 1, 0x80, 0xBF, point))
  }

  /** Buffer.toString("utf8"), as code points. */
  function Decode(p: Pending, bytes: seq<Byte>): seq<nat>
    decreases |bytes|
  {
    if bytes == [] then (if p.needed == 0 then [] else [REPLACEMENT]) else
      var (out, next) := Step(p, bytes[0]);
      out + Decode(next, bytes[1..])
  }

  function Text(bytes: seq<Byte>): seq<nat> { Decode(NONE, bytes) }

  /** Whatever is pending decodes to a code point above the ASCII range. */
  predicate Wide(p: Pending) {
    && p.lower >= 0x80
    && (p.needed == 1 ==> p.point >= 2)
    && (p.needed == 2 ==> p.point >= 1 || p.lower >= 0xA0)
    && (p.needed == 3 ==> p.point >= 1 || p.lower >= 0x90)
    && p.needed <= 3
  }

  // ---------------------------------------------------------------- encoding

  predicate Scalar(point: nat) { point < 0xD800 || 0xE000 <= point < 0x110000 }

  predicate AllScalar(points: seq<nat>) { forall i | 0 <= i < |points| :: Scalar(points[i]) }

  /** The bytes of one code point. */
  function Encode(point: nat): (r: seq<Byte>)
    ensures 1 <= |r| <= 4
  {
    if point < 0x80 then [point]
    else if point < 0x800 then [0xC0 + point / 0x40, 0x80 + point % 0x40]
    else if point < 0x10000 then [0xE0 + point / 0x1000, 0x80 + point / 0x40 % 0x40, 0x80 + point % 0x40]
    else [0xF0 + point / 0x40000, 0x80 + point / 0x1000 % 0x40, 0x80 + point / 0x40 % 0x40, 0x80 + point % 0x40]
  }

  function EncodeAll(points: seq<nat>): seq<Byte> {
    if points == [] then [] else Encode(points[0]) + EncodeAll(points[1..])
  }

  /** A last byte completes the code point. */
  lemma {:induction false} DecodeLast(p: Pending, b: Byte, rest: seq<Byte>)
    requires p.needed == 1 && p.lower <= b <= p.upper && b >= 0x80
    ensures Decode(p, [b] + rest) == [p.point * 64 + b - 0x80] + Text(rest)
  {
    assert ([b] + rest)[1..] == rest;
  }

  lemma {:induction false} DecodeInner(p: Pending, b: Byte, rest: seq<Byte>)
    requires p.needed > 1 && p.lower <= b <= p.upper && b >= 0x80
    ensures Decode(p, [b] + rest) == Decode(Pending(p.needed - 1, 0x80, 0xBF, p.point * 64 + b - 0x80), rest)
  {
    assert ([b] + rest)[1..] == rest;
    assert [] + Decode(Step(p, b).1, rest) == Decode(Step(p, b).1, rest);
  }

  lemma {:induction false} DecodeLead(b: Byte, rest: seq<Byte>)
    requires 0xC2 <= b <= 0xF4
    ensures Text([b] + rest) == Decode(Lead(b).1, rest)
  {
    assert ([b] + rest)[1..] == rest;
    assert [] + Decode(Lead(b).1, rest) == Decode(Lead(b).1, rest);
  }

  lemma {:induction false} DecodeTwo(point: nat, rest: seq<Byte>)
    requires 0x80 <= point < 0x800
    ensures Text(Encode(point) + rest) == [point] + Text(rest)
  {
    var a, b := 0xC0 + point / 0x40, 0x80 + point % 0x40;
    assert [a, b] + rest == [a] + ([b] + rest);
    DecodeLead(a, [b] + rest);
    DecodeLast(Lead(a).1, b, rest);
  }

  /** Each sextet joins the bits in front of it. */
  lemma {:induction false} Sextets(point: nat)
    ensures point / 0x40 * 64 + point % 0x40 == point
    ensures point / 0x1000 * 64 + point / 0x40 % 0x40 == point / 0x40
    ensures point / 0x40000 * 64 + point / 0x1000 % 0x40 == point / 0x1000
  {
  }

  lemma {:induction false} ThreeInOrder(first: Pending, b: Byte, c: Byte, rest: seq<Byte>)
    requires first.needed == 2 && first.lower <= b <= first.upper && b >= 0x80 && 0x80 <= c <= 0xBF
    ensures Decode(first, [b] + ([c] + rest)) == [(first.point * 64 + b - 0x80) * 64 + c - 0x80] + Text(rest)
  {
    DecodeInner(first, b, [c] + rest);
    DecodeLast(Pending(1, 0x80, 0xBF, first.point * 64 + b - 0x80), c, rest);
  }

  lemma {:induction false} ThirdLead(point: nat)
    requires 0x800 <= point < 0x10000 && Scalar(point)
    ensures var p, b := Lead(0xE0 + point / 0x1000).1, 0x80 + point / 0x40 % 0x40;
            p.needed == 2 && p.point == point / 0x1000 && p.lower <= b <= p.upper
  {
  }

  lemma {:induction false} ThreeSplit(a: Byte, b: Byte, c: Byte, rest: seq<Byte>)
    ensures [a, b, c] + rest == [a] + ([b] + ([c] + rest))
  {
  }

  lemma {:induction false} DecodeThree(point: nat, rest: seq<Byte>)
    requires 0x800 <= point < 0x10000 && Scalar(point)
    ensures Text(Encode(point) + rest) == [point] + Text(rest)
  {
    var a, b, c := 0xE0 + point / 0x1000, 0x80 + point / 0x40 % 0x40, 0x80 + point % 0x40;
    assert Encode(point) == [a, b, c];
    ThreeSplit(a, b, c, rest);
    DecodeLead(a, [b] + ([c] + rest));
    ThirdLead(point);
    ThreeInOrder(Lead(a).1, b, c, rest);
    Sextets(point);
  }

  lemma {:induction false} FourInOrder(first: Pending, b: Byte, c: Byte, d: Byte, rest: seq<Byte>)
    requires first.needed == 3 && first.lower <= b <= first.upper && b >= 0x80 && 0x80 <= c <= 0xBF && 0x80 <= d <= 0xBF
    ensures Decode(first, [b] + ([c] + ([d] + rest)))
         == [((first.point * 64 + b - 0x80) * 64 + c - 0x80) * 64 + d - 0x80] + Text(rest)
  {
    DecodeInner(first, b, [c] + ([d] + rest));
    var second := Pending(2, 0x80, 0xBF, first.point * 64 + b - 0x80);
    DecodeInner(second, c, [d] + rest);
    DecodeLast(Pending(1, 0x80, 0xBF, second.point * 64 + c - 0x80), d, rest);
  }

  lemma {:induction false} FourthLead(point: nat)
    requires 0x10000 <= point < 0x110000
    ensures var p, b := Lead(0xF0 + point / 0x40000).1, 0x80 + point / 0x1000 % 0x40;
            p.needed == 3 && p.point == point / 0x40000 && p.lower <= b <= p.upper
  {
  }

  lemma {:induction false} DecodeFour(point: nat, rest: seq<Byte>)
    requires 0x10000 <= point < 0x110000
    ensures Text(Encode(point) + rest) == [point] + Text(rest)
  {
    var a, b := 0xF0 + point / 0x40000, 0x80 + point / 0x1000 % 0x40;
    var c, d := 0x80 + point / 0x40 % 0x40, 0x80 + point % 0x40;
    assert Encode(point) == [a, b, c, d];
    FourSplit(a, b, c, d, rest);
    DecodeLead(a, [b] + ([c] + ([d] + rest)));
    FourthLead(point);
    FourInOrder(Lead(a).1, b, c, d, rest);
    Sextets(point);
  }

  lemma {:induction false} FourSplit(a: Byte, b: Byte, c: Byte, d: Byte, rest: seq<Byte>)
    ensures [a, b, c, d] + rest == [a] + ([b] + ([c] + ([d] + rest)))
  {
  }

  /** Decoding inverts encoding. */
  lemma {:induction false} DecodeEncoded(points: seq<nat>)
    requires AllScalar(points)
    ensures Text(EncodeAll(points)) == points
  {
    if points != [] {
      var point, rest := points[0], EncodeAll(points[1..]);
      DecodeEncoded(points[1..]);
      if point < 0x80 {
        assert ([point] + rest)[1..] == rest;
      } else if point < 0x800 {
        DecodeTwo(point, rest);
      } else if point < 0x10000 {
        DecodeThree(point, rest);
      } else {
        DecodeFour(point, rest);
      }
    }
  }

  // ---------------------------------------------------------------- newlines

  /** No newline. */
  predicate Plain(s: seq<nat>) { forall i | 0 <= i < |s| :: s[i] != LF }

  lemma {:induction false} StepKeepsWide(p: Pending, b: Byte)
    requires Wide(p)
    ensures Wide(Step(p, b).1)
    ensures b != LF ==> Plain(Step(p, b).0)
    ensures b == LF ==> Step(p, b) == (if p.needed == 0 then [LF] else [REPLACEMENT, LF], NONE)
  {
    assert [REPLACEMENT] + [LF] == [REPLACEMENT, LF];
  }

  /** A newline byte is always a newline, whatever surrounds it. */
  lemma {:induction false} DecodeAtNewline(p: Pending, a: seq<Byte>, b: seq<Byte>)
    requires Wide(p)
    ensures Decode(p, a + [LF] + b) == Decode(p, a) + [LF] + Text(b)
    decreases |a|
  {
    var all := a + [LF] + b;
    if a == [] {
      assert all[0] == LF && all[1..] == b;
      StepKeepsWide(p, LF);
    } else {
      assert all[0] == a[0] && all[1..] == a[1..] + [LF] + b;
      StepKeepsWide(p, a[0]);
      DecodeAtNewline(Step(p, a[0]).1, a[1..], b);
    }
  }

  lemma {:induction false} DecodeNoNewline(p: Pending, a: seq<Byte>)
    requires Wide(p) && Plain(a)
    ensures Plain(Decode(p, a))
    decreases |a|
  {
    if a != [] {
      StepKeepsWide(p, a[0]);
      DecodeNoNewline(Step(p, a[0]).1, a[1..]);
    }
  }

  /** Text whose newlines are exactly the newline bytes: decoding may be cut at any of them. */
  ghost predicate KeepsNewlines(text: seq<Byte> -> seq<nat>) {
    && text([]) == []
    && (forall a: seq<Byte> {:trigger text(a)} :: Plain(a) ==> Plain(text(a)))
    && (forall a: seq<Byte>, b: seq<Byte> :: CutsAt(text, a, b))
  }

  ghost predicate CutsAt(text: seq<Byte> -> seq<nat>, a: seq<Byte>, b: seq<Byte>) {
    text(a + [LF] + b) == text(a) + [LF] + text(b)
  }

  function Decoder(): seq<Byte> -> seq<nat> { (bytes: seq<Byte>) => Text(bytes) }

  /** UTF-8 decoding keeps newlines, for malformed input too. */
  lemma {:induction false} DecodingKeepsNewlines()
    ensures KeepsNewlines(Decoder())
  {
    forall a: seq<Byte> | Plain(a)
      ensures Plain(Decoder()(a))
    {
      DecodeNoNewline(NONE, a);
    }
    forall a: seq<Byte>, b: seq<Byte>
      ensures CutsAt(Decoder(), a, b)
    {
      DecodeAtNewline(NONE, a, b);
    }
  }
}
