/** Clamping an incoming log: its lines are redacted, and the newest of them that fit both
    caps are kept. Redaction and the UTF-8 length of a line are parameters; a line costs its
    bytes and one for its line end. */
module LogClamp {
  const LINES_MAX := 300
  const LINE_MAX := 2000
  const BYTES_MAX := 200 * 1024

  datatype Value = Line(text: string) | Other

  type Redaction = string -> string
  type Sizes = string -> nat

  /** The text lines of the input, redacted. */
  function Cleaned(raw: seq<Value>, clean: Redaction): seq<string> {
    if raw == [] then []
    else
      var front := Cleaned(raw[..|raw| - 1], clean);
      if raw[|raw| - 1].Line? then front + [clean(raw[|raw| - 1].text)] else front
  }

  /** What the lines take with their line ends. */
  function Bytes(lines: seq<string>, size: Sizes): nat {
    if lines == [] then 0 else size(lines[0]) + 1 + Bytes(lines[1..], size)
  }

  /** Every text line is there once, redacted and in order, and nothing else. */
  lemma {:induction false} CleanedIsAllText(raw: seq<Value>, texts: seq<string>, clean: Redaction)
    requires Texts(raw) == texts
    ensures |Cleaned(raw, clean)| == |texts| && forall i | 0 <= i < |texts| :: Cleaned(raw, clean)[i] == clean(texts[i])
  {
    if raw != [] {
      CleanedIsAllText(raw[..|raw| - 1], Texts(raw[..|raw| - 1]), clean);
    }
  }

  /** The texts among the values. */
  function Texts(raw: seq<Value>): seq<string> {
    if raw == [] then [] else
      Texts(raw[..|raw| - 1]) + (match raw[|raw| - 1] case Line(text) => [text] case Other => [])
  }

  lemma {:induction false} BytesAdd(a: seq<string>, line: string, size: Sizes)
    ensures Bytes(a + [line], size) == Bytes(a, size) + size(line) + 1 && Bytes([], size) == 0
  {
    if a == [] {
      assert a + [line] == [line] && [line][1..] == [];
    } else {
      assert (a + [line])[1..] == a[1..] + [line];
      BytesAdd(a[1..], line, size);
    }
  }

  /** The newest `k` lines. */
  function Newest(lines: seq<string>, k: nat): seq<string>
    requires k <= |lines|
  {
    lines[|lines| - k..]
  }

  predicate Fits(lines: seq<string>, size: Sizes, k: nat)
    requires k <= |lines|
  {
    k <= LINES_MAX && Bytes(Newest(lines, k), size) <= BYTES_MAX
  }

  predicate Untouched(raw: seq<Value>, logs: seq<string>) {
    |raw| == |logs| && forall i | 0 <= i < |raw| :: raw[i] == Line(logs[i])
  }

  lemma {:induction false} FewerFit(lines: seq<string>, size: Sizes, few: nat, many: nat)
    requires few <= many <= |lines|
    ensures Bytes(Newest(lines, few), size) <= Bytes(Newest(lines, many), size)
    decreases many
  {
    if few < many {
      assert Newest(lines, many)[1..] == Newest(lines, many - 1);
      FewerFit(lines, size, few, many - 1);
    }
  }

  lemma {:induction false} DropOldest(all: seq<string>, size: Sizes, k: nat)
    requires 0 < k <= |all|
    ensures Newest(all, k)[1..] == Newest(all, k - 1)
    ensures Bytes(Newest(all, k), size) == size(Newest(all, k)[0]) + 1 + Bytes(Newest(all, k - 1), size)
  {
    assert Newest(all, k)[1..] == Newest(all, k - 1);
  }

  /** The loop over the input. */
  method CleanLines(raw: seq<Value>, clean: Redaction) returns (lines: seq<string>, changed: bool)
    requires forall s :: |clean(s)| <= 2000
    ensures lines == Cleaned(raw, clean) && |lines| <= |raw|
    ensures changed <==> !Untouched(raw, lines)
  {
    lines, changed := [], false;
    for i := 0 to |raw|
      invariant lines == Cleaned(raw[..i], clean) && |lines| <= i
      invariant changed <==> !Untouched(raw[..i], lines)
    {
      ghost var before := lines;
      assert raw[..i + 1][..i] == raw[..i];
      if raw[i].Line? {
        var text := raw[i].text;
        var cleaned := clean(text);
        if cleaned != text || |text| > LINE_MAX {
          changed := true;
        }
        lines := lines + [cleaned];
        UntouchedPush(raw, i, before, cleaned);
      } else {
        changed := true;
      }
    }
    assert raw[..|raw|] == raw;
  }

  lemma {:induction false} UntouchedPush(raw: seq<Value>, i: nat, lines: seq<string>, last: string)
    requires i < |raw| && |lines| <= i
    ensures Untouched(raw[..i + 1], lines + [last]) <==> Untouched(raw[..i], lines) && raw[i] == Line(last)
  {
    if Untouched(raw[..i + 1], lines + [last]) {
      assert forall k | 0 <= k < i :: raw[..i + 1][k] == Line((lines + [last])[k]);
      assert raw[..i + 1][i] == Line((lines + [last])[i]);
    }
  }

  /** The kept lines are the longest run of newest lines that fits, and `truncated` says
      exactly whether anything of the input is missing or changed. */
  method ClampLogs(raw: seq<Value>, clean: Redaction, size: Sizes) returns (logs: seq<string>, truncated: bool)
    requires forall s :: |clean(s)| <= 2000
    ensures var all := Cleaned(raw, clean);
            && |logs| <= |all| && logs == Newest(all, |logs|)
            && (forall k | 0 <= k <= |all| :: k <= 300 && Bytes(Newest(all, k), size) <= 200 * 1024 <==> k <= |logs|)
    ensures truncated <==> !Untouched(raw, logs)
  {
    var all, changed := CleanLines(raw, clean);
    truncated := changed;
    var lines := all;
    if |lines| > LINES_MAX {
      lines := lines[|lines| - LINES_MAX..];
      truncated := true;
    }
    logs := DropToFit(all, lines, size);
    truncated := truncated || |logs| < |lines|;
  }

  /** Drops oldest lines until the bytes fit. */
  method DropToFit(all: seq<string>, newest: seq<string>, size: Sizes) returns (lines: seq<string>)
    requires |newest| <= |all| && |newest| <= LINES_MAX && newest == Newest(all, |newest|)
    requires |newest| < |all| ==> !Fits(all, size, |newest| + 1)
    ensures |lines| <= |newest| && lines == Newest(all, |lines|)
    ensures forall k | 0 <= k <= |all| :: k <= 300 && Bytes(Newest(all, k), size) <= 200 * 1024 <==> k <= |lines|
  {
    lines := newest;
    var bytes := Total(lines, size);
    while |lines| > 0 && bytes > BYTES_MAX
      invariant |lines| <= |newest| && lines == Newest(all, |lines|)
      invariant bytes == Bytes(lines, size)
      invariant |lines| < |all| ==> !Fits(all, size, |lines| + 1)
      decreases |lines|
    {
      DropOldest(all, size, |lines|);
      bytes := bytes - (size(lines[0]) + 1);
      lines := lines[1..];
    }
    Longest(all, size, |lines|);
  }

  /** If the newest `n` lines fit and one more does not, exactly the shorter runs fit. */
  lemma {:induction false} Longest(all: seq<string>, size: Sizes, n: nat)
    requires n <= |all| && Fits(all, size, n) && (n < |all| ==> !Fits(all, size, n + 1))
    ensures forall k | 0 <= k <= |all| :: k <= 300 && Bytes(Newest(all, k), size) <= 200 * 1024 <==> k <= n
  {
    forall k | 0 <= k <= |all|
      ensures k <= 300 && Bytes(Newest(all, k), size) <= 200 * 1024 <==> k <= n
    {
      if k <= n {
        FewerFit(all, size, k, n);
      } else {
        FewerFit(all, size, n + 1, k);
      }
    }
  }

  method Total(lines: seq<string>, size: Sizes) returns (n: nat)
    ensures n == Bytes(lines, size)
  {
    n := 0;
    var i := |lines|;
    while i > 0
      invariant 0 <= i <= |lines| && n == Bytes(lines[i..], size)
    {
      i := i - 1;
      assert lines[i..][1..] == lines[i + 1..];
      n := n + size(lines[i]) + 1;
    }
  }
}
