/** JSON string literals: what the writer of the diagnostics writes, a reader reads back. */
module JsonStrings {
  import Utf8
  import opened DiagnosticPruner

  const BACKSLASH: nat := 92
  const QUOTE_MARK: nat := 34

  // ---------------------------------------------------------------- a reader

  function HexValue(b: nat): nat { if 48 <= b <= 57 then b - 48 else if 97 <= b <= 102 then b - 87 else 0 }

  /** The character behind a backslash. */
  function Named(b: nat): nat {
    if b == 98 then 8 else if b == 102 then 12 else if b == 110 then 10 else if b == 114 then 13 else if b == 116 then 9 else b
  }

  /** The bytes a literal stands for. */
  function Unescaped(bytes: Bytes): Bytes
    decreases |bytes|
  {
    if bytes == [] then []
    else if bytes[0] != BACKSLASH then [bytes[0]] + Unescaped(bytes[1..])
    else if |bytes| >= 6 && bytes[1] == 117 then
      Utf8.Encode(HexValue(bytes[2]) * 4096 + HexValue(bytes[3]) * 256 + HexValue(bytes[4]) * 16 + HexValue(bytes[5]))
      + Unescaped(bytes[6..])
    else if |bytes| >= 2 then [Named(bytes[1])] + Unescaped(bytes[2..])
    else []
  }

  /** Where the literal ends: at the first quotation mark that is not behind a backslash. */
  function End(bytes: Bytes): nat
    decreases |bytes|
  {
    if bytes == [] || bytes[0] == QUOTE_MARK then 0
    else if bytes[0] == BACKSLASH && |bytes| >= 2 then 2 + End(bytes[2..])
    else 1 + End(bytes[1..])
  }

  // ---------------------------------------------------------------- one character

  predicate Unmarked(bytes: Bytes) { forall i | 0 <= i < |bytes| :: bytes[i] != BACKSLASH && bytes[i] != QUOTE_MARK }

  lemma {:induction false} ReadUnmarked(bytes: Bytes, rest: Bytes)
    requires Unmarked(bytes)
    ensures Unescaped(bytes + rest) == bytes + Unescaped(rest)
    ensures End(bytes + rest) == |bytes| + End(rest)
    decreases |bytes|
  {
    if bytes == [] {
      assert [] + rest == rest;
    } else {
      assert (bytes + rest)[1..] == bytes[1..] + rest;
      ReadUnmarked(bytes[1..], rest);
    }
  }

  lemma {:induction false} ReadNamed(b: nat, rest: Bytes)
    requires b != 117
    ensures Unescaped([BACKSLASH, b] + rest) == [Named(b)] + Unescaped(rest)
    ensures End([BACKSLASH, b] + rest) == 2 + End(rest)
  {
    assert ([BACKSLASH, b] + rest)[2..] == rest;
  }

  lemma {:induction false} ReadControl(h: nat, l: nat, rest: Bytes)
    requires h < 2 && l < 16
    ensures var e := [BACKSLASH, 117, 48, 48, Hex(h), Hex(l)];
            && Unescaped(e + rest) == [h * 16 + l] + Unescaped(rest)
            && End(e + rest) == 6 + End(rest)
  {
    var e := [BACKSLASH, 117, 48, 48, Hex(h), Hex(l)];
    assert (e + rest)[6..] == rest;
    assert (e + rest)[2..] == [48, 48, Hex(h), Hex(l)] + rest;
    ReadUnmarked([48, 48, Hex(h), Hex(l)], rest);
  }

  lemma {:induction false} ReadCharacter(c: char, rest: Bytes)
    ensures Unescaped(Escaped(c) + rest) == Utf8.Encode(c as int) + Unescaped(rest)
    ensures End(Escaped(c) + rest) == |Escaped(c)| + End(rest)
  {
    var n := c as int;
    if c == '"' || c == '\\' {
      ReadNamed(n, rest);
    } else if n == 8 || n == 9 || n == 10 || n == 12 || n == 13 {
      ReadNamed(Escaped(c)[1], rest);
    } else if n < 32 {
      ReadControl(n / 16, n % 16, rest);
    } else {
      ReadUnmarked(Utf8.Encode(n), rest);
    }
  }

  /** No escape is longer than it has to be: two bytes where the character has a name, six for
      the other control characters, and none for the rest. */
  lemma {:induction false} EscapedSize(c: char)
    ensures var n := c as int;
            |Escaped(c)| == if n in {8, 9, 10, 12, 13, 34, 92} then 2 else if n < 32 then 6 else |Utf8.Encode(n)|
  {
  }

  // ---------------------------------------------------------------- whole literals

  function Codes(s: string): seq<nat> { seq(|s|, i requires 0 <= i < |s| => s[i] as nat) }

  lemma {:induction false} EncodePush(points: seq<nat>, point: nat)
    ensures Utf8.EncodeAll(points + [point]) == Utf8.EncodeAll(points) + Utf8.Encode(point)
  {
    if points == [] {
      assert points + [point] == [point] && [point][1..] == [];
    } else {
      assert (points + [point])[1..] == points[1..] + [point];
      EncodePush(points[1..], point);
    }
  }

  lemma {:induction false} CodesPush(s: string)
    requires s != []
    ensures Utf8.EncodeAll(Codes(s)) == Utf8.EncodeAll(Codes(s[..|s| - 1])) + Utf8.Encode(s[|s| - 1] as nat)
  {
    assert Codes(s) == Codes(s[..|s| - 1]) + [s[|s| - 1] as nat];
    EncodePush(Codes(s[..|s| - 1]), s[|s| - 1] as nat);
  }

  lemma {:induction false} Joined(a: Bytes, b: Bytes, c: Bytes)
    ensures a + b + c == a + (b + c)
  {
  }

  lemma {:induction false} ReadCharacters(s: string, rest: Bytes)
    ensures Unescaped(Characters(s) + rest) == Utf8.EncodeAll(Codes(s)) + Unescaped(rest)
    ensures End(Characters(s) + rest) == |Characters(s)| + End(rest)
  {
    if s == [] {
      assert [] + rest == rest;
    } else {
      var front, c := s[..|s| - 1], s[|s| - 1];
      ReadCharacters(front, Escaped(c) + rest);
      ReadCharacter(c, rest);
      Joined(Characters(front), Escaped(c), rest);
      CodesPush(s);
      Joined(Utf8.EncodeAll(Codes(front)), Utf8.Encode(c as nat), Unescaped(rest));
    }
  }

  /** A literal ends at its closing quotation mark, whatever comes behind it, and what is
      between its marks stands for exactly the characters that were written. */
  lemma {:induction false} QuotedReadsBack(s: string, rest: Bytes)
    ensures var text := Quote(s) + rest;
            && text[0] == QUOTE_MARK && End(text[1..]) == |Quote(s)| - 2
            && Utf8.Text(Unescaped(text[1..|Quote(s)| - 1])) == Codes(s)
  {
    var text, written := Quote(s) + rest, Characters(s);
    assert text[1..] == written + ([QUOTE_MARK] + rest);
    ReadCharacters(s, [QUOTE_MARK] + rest);
    assert text[1..|Quote(s)| - 1] == written && written + [] == written;
    ReadCharacters(s, []);
    assert Utf8.EncodeAll(Codes(s)) + [] == Utf8.EncodeAll(Codes(s));
    Utf8.DecodeEncoded(Codes(s));
  }
}
