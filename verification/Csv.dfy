/** The partner CSV reader: a character loop, against quoted rendering (section 2 of
    RFC 4180) with any line ending. Text is a sequence of UTF-16 code units. */
module Csv {
  import opened Basics

  type Table = seq<seq<Text>>

  const QUOTE := 34
  const COMMA := 44
  const CR := 13
  const LF := 10
  const MAX_LENGTH := 1_000_000
  const MAX_ROWS := 5000

  datatype Outcome = Rows(rows: Table) | TooLarge | Malformed | TooManyRows | Unclosed

  // ---------------------------------------------------------------- trim

  function TrimStart(s: Text): Text { if s != [] && Space(s[0]) then TrimStart(s[1..]) else s }
  function TrimEnd(s: Text): Text { if s != [] && Space(s[|s| - 1]) then TrimEnd(s[..|s| - 1]) else s }
  function Trim(s: Text): Text { TrimEnd(TrimStart(s)) }

  predicate Trimmed(s: Text) { s == [] || (!Space(s[0]) && !Space(s[|s| - 1])) }

  lemma {:induction false} StartTrimmed(s: Text)
    ensures TrimStart(s) == [] || !Space(TrimStart(s)[0])
  {
    if s != [] && Space(s[0]) {
      StartTrimmed(s[1..]);
    }
  }

  lemma {:induction false} EndTrimmed(s: Text)
    ensures var t := TrimEnd(s); |t| <= |s| && t == s[..|t|] && (t == [] || !Space(t[|t| - 1]))
  {
    if s != [] && Space(s[|s| - 1]) {
      EndTrimmed(s[..|s| - 1]);
    }
  }

  /** Trimming trims, and leaves a trimmed text alone. */
  lemma {:induction false} TrimTrims(s: Text)
    ensures Trimmed(Trim(s))
    ensures Trimmed(s) ==> Trim(s) == s
  {
    StartTrimmed(s);
    EndTrimmed(TrimStart(s));
  }

  // ---------------------------------------------------------------- the reader

  datatype State = State(rows: Table, row: seq<Text>, cell: Text, quoted: bool, ended: bool)

  const START := State([], [], [], false, false)

  /** `row.some(Boolean)`: some cell is not the empty text. */
  predicate NotEmpty(row: seq<Text>) { row != [] && (row[0] != [] || NotEmpty(row[1..])) }

  function CellEnds(st: State): State { State(st.rows, st.row + [Trim(st.cell)], [], false, false) }

  function RowEnds(st: State): State {
    var row := st.row + [Trim(st.cell)];
    State(if NotEmpty(row) then st.rows + [row] else st.rows, [], [], false, false)
  }

  /** One turn of the loop: the characters it takes and the new state, or an error. */
  datatype Turn = Turn(state: State, taken: nat) | Fails(outcome: Outcome)

  function Advance(st: State, rest: Text): (t: Turn)
    requires rest != []
    ensures t.Turn? ==> 1 <= t.taken <= |rest|
  {
    var c := rest[0];
    var doubled := |rest| > 1 && rest[1] == QUOTE;
    if st.quoted then
      if c == QUOTE && doubled then Turn(st.(cell := st.cell + [QUOTE]), 2)
      else if c == QUOTE then Turn(st.(quoted := false, ended := true), 1)
      else Turn(st.(cell := st.cell + [c]), 1)
    else if c == QUOTE && st.cell == [] && !st.ended then Turn(st.(quoted := true), 1)
    else if c == COMMA then Turn(CellEnds(st), 1)
    else if c == LF || c == CR then
      var next := RowEnds(st);
      if |next.rows| > MAX_ROWS then Fails(TooManyRows)
      else Turn(next, if c == CR && |rest| > 1 && rest[1] == LF then 2 else 1)
    else if st.ended || c == QUOTE then Fails(Malformed)
    else Turn(st.(cell := st.cell + [c]), 1)
  }

  function Read(st: State, rest: Text): Outcome
    decreases |rest|
  {
    if rest == [] then
      if st.quoted then Unclosed else Rows(RowEnds(st).rows)
    else
      match Advance(st, rest)
      case Fails(outcome) => outcome
      case Turn(next, taken) => Read(next, rest[taken..])
  }

  function CsvRows(input: Text): Outcome {
    if |input| > MAX_LENGTH then TooLarge else Read(START, input)
  }

  lemma {:induction false} From(input: Text, i: nat)
    requires i < |input|
    ensures var rest := input[i..];
            && rest[0] == input[i] && rest[1..] == input[i + 1..]
            && (i + 1 < |input| ==> rest[1] == input[i + 1] && rest[2..] == input[i + 2..])
  {
  }

  /** csvRows() itself. */
  method ReadRows(input: Text) returns (outcome: Outcome)
    ensures outcome == CsvRows(input)
  {
    if |input| > MAX_LENGTH {
      return TooLarge;
    }
    var rows: Table, row: seq<Text>, cell: Text, quoted, ended := [], [], [], false, false;
    var i := 0;
    while i < |input|
      invariant 0 <= i <= |input| && |rows| <= MAX_ROWS
      invariant Read(State(rows, row, cell, quoted, ended), input[i..]) == Read(START, input)
    {
      ghost var rest := input[i..];
      var c := input[i];
      var doubled := i + 1 < |input| && input[i + 1] == QUOTE;
      From(input, i);
      if quoted {
        if c == QUOTE {
          if doubled {
            cell := cell + [QUOTE];
            i := i + 1;
          } else {
            quoted, ended := false, true;
          }
        } else {
          cell := cell + [c];
        }
      } else if c == QUOTE && cell == [] && !ended {
        quoted := true;
      } else if c == COMMA || c == LF || c == CR {
        row := row + [Trim(cell)];
        cell, ended := [], false;
        if c != COMMA {
          if c == CR && i + 1 < |input| && input[i + 1] == LF {
            i := i + 1;
          }
          if NotEmpty(row) {
            rows := rows + [row];
          }
          row := [];
        }
        if |rows| > MAX_ROWS {
          return TooManyRows;
        }
      } else {
        if ended || c == QUOTE {
          return Malformed;
        }
        cell := cell + [c];
      }
      i := i + 1;
    }
    if quoted {
      return Unclosed;
    }
    row := row + [Trim(cell)];
    return Rows(if NotEmpty(row) then rows + [row] else rows);
  }

  // ---------------------------------------------------------------- rendering

  datatype Ending = Lf | Cr | CrLf | Eof

  /** A row as somebody writes it: its cells, which of them are quoted, and its line end. */
  datatype Line = Line(cells: seq<Text>, quoted: seq<bool>, ending: Ending)

  function EndText(e: Ending): Text {
    match e case Lf => [LF] case Cr => [CR] case CrLf => [CR, LF] case Eof => []
  }

  predicate Special(c: nat) { c == QUOTE || c == COMMA || c == CR || c == LF }

  /** A text that may stand without quotes. */
  predicate Bare(s: Text) { forall i | 0 <= i < |s| :: !Special(s[i]) }

  function Escape(s: Text): Text {
    if s == [] then [] else (if s[0] == QUOTE then [QUOTE, QUOTE] else [s[0]]) + Escape(s[1..])
  }

  function RenderCell(cell: Text, quoted: bool): Text {
    if quoted then [QUOTE] + Escape(cell) + [QUOTE] else cell
  }

  function RenderCells(cells: seq<Text>, quoted: seq<bool>): Text
    requires |cells| == |quoted| > 0
  {
    if |cells| == 1 then RenderCell(cells[0], quoted[0])
    else RenderCell(cells[0], quoted[0]) + [COMMA] + RenderCells(cells[1..], quoted[1..])
  }

  /** At least one cell, each of them trimmed, and quoted where it has to be. */
  predicate CellsOk(cells: seq<Text>, quoted: seq<bool>) {
    && |cells| == |quoted| > 0
    && Trimmed(cells[0]) && (quoted[0] || Bare(cells[0]))
    && (|cells| > 1 ==> CellsOk(cells[1..], quoted[1..]))
  }

  /** Only the last line may end with the text. */
  predicate LinesOk(lines: seq<Line>) {
    && (forall i | 0 <= i < |lines| :: CellsOk(lines[i].cells, lines[i].quoted) && NotEmpty(lines[i].cells))
    && (forall i | 0 <= i < |lines| :: lines[i].ending.Eof? ==> i == |lines| - 1)
  }

  function Render(lines: seq<Line>): Text
    requires LinesOk(lines)
  {
    if lines == [] then []
    else RenderCells(lines[0].cells, lines[0].quoted) + EndText(lines[0].ending) + Render(lines[1..])
  }

  function Cells(lines: seq<Line>): Table {
    if lines == [] then [] else [lines[0].cells] + Cells(lines[1..])
  }

  // ---------------------------------------------------------------- the reader inverts it

  predicate CellFollows(rest: Text) { rest == [] || rest[0] == COMMA || rest[0] == CR || rest[0] == LF }

  lemma {:induction false} ReadEscaped(st: State, s: Text, rest: Text)
    requires st.quoted && !(rest != [] && rest[0] == QUOTE)
    ensures Read(st, Escape(s) + [QUOTE] + rest) == Read(st.(cell := st.cell + s, quoted := false, ended := true), rest)
    decreases |s|
  {
    var all := Escape(s) + [QUOTE] + rest;
    if s == [] {
      assert all == [QUOTE] + rest;
      assert all[1..] == rest && st.cell + s == st.cell;
    } else {
      var taken := if s[0] == QUOTE then 2 else 1;
      assert all[taken..] == Escape(s[1..]) + [QUOTE] + rest;
      assert st.cell + s == st.cell + [s[0]] + s[1..];
      ReadEscaped(st.(cell := st.cell + [s[0]]), s[1..], rest);
    }
  }

  lemma {:induction false} ReadBare(st: State, s: Text, rest: Text)
    requires !st.quoted && !st.ended && Bare(s)
    ensures Read(st, s + rest) == Read(st.(cell := st.cell + s), rest)
    decreases |s|
  {
    if s == [] {
      assert s + rest == rest && st.cell + s == st.cell;
    } else {
      assert (s + rest)[1..] == s[1..] + rest;
      assert st.cell + s == st.cell + [s[0]] + s[1..];
      ReadBare(st.(cell := st.cell + [s[0]]), s[1..], rest);
    }
  }

  lemma {:induction false} ReadCell(rows: Table, row: seq<Text>, cell: Text, quoted: bool, rest: Text)
    requires (quoted || Bare(cell)) && CellFollows(rest)
    ensures Read(State(rows, row, [], false, false), RenderCell(cell, quoted) + rest) == Read(State(rows, row, cell, false, quoted), rest)
  {
    var st := State(rows, row, [], false, false);
    if quoted {
      var all := RenderCell(cell, quoted) + rest;
      assert all[1..] == Escape(cell) + [QUOTE] + rest;
      ReadEscaped(st.(quoted := true), cell, rest);
      assert [] + cell == cell;
    } else {
      ReadBare(st, cell, rest);
      assert [] + cell == cell;
    }
  }

  /** A cell and the comma behind it. */
  lemma {:induction false} ReadCellAndComma(rows: Table, row: seq<Text>, cell: Text, quoted: bool, rest: Text,
                                            text: Text)
    requires (quoted || Bare(cell)) && Trimmed(cell)
    requires text == RenderCell(cell, quoted) + ([COMMA] + rest)
    ensures Read(State(rows, row, [], false, false), text) == Read(State(rows, row + [cell], [], false, false), rest)
  {
    ReadCell(rows, row, cell, quoted, [COMMA] + rest);
    assert ([COMMA] + rest)[1..] == rest;
    TrimTrims(cell);
  }

  lemma {:induction false} Dropped(a: Text, b: Text)
    ensures (a + b)[|a|..] == b
  {
  }

  lemma {:induction false} Regroup(a: Text, b: Text, c: Text, d: Text)
    ensures a + b + c + d == a + (b + (c + d))
  {
  }

  lemma {:induction false} OtherCells(row: seq<Text>, cells: seq<Text>, quoted: seq<bool>)
    requires CellsOk(cells, quoted) && |cells| > 1
    ensures cells[1..][|cells| - 2] == cells[|cells| - 1] && quoted[1..][|cells| - 2] == quoted[|cells| - 1]
    ensures row + [cells[0]] + cells[1..][..|cells| - 2] == row + cells[..|cells| - 1]
  {
    var n := |cells| - 1;
    assert cells[..n] == [cells[0]] + cells[1..][..n - 1];
    RegroupThree(row, [cells[0]], cells[1..][..n - 1]);
  }

  lemma {:induction false} ReadCells(rows: Table, row: seq<Text>, cells: seq<Text>, quoted: seq<bool>, rest: Text,
                                     text: Text)
    requires CellsOk(cells, quoted) && CellFollows(rest)
    requires text == RenderCells(cells, quoted) + rest
    ensures var n := |cells| - 1;
            && Trimmed(cells[n])
            && Read(State(rows, row, [], false, false), text) == Read(State(rows, row + cells[..n], cells[n], false, quoted[n]), rest)
    decreases |cells|
  {
    if |cells| == 1 {
      ReadCell(rows, row, cells[0], quoted[0], rest);
      assert row + cells[..0] == row;
    } else {
      OtherCells(row, cells, quoted);
      Regroup(RenderCell(cells[0], quoted[0]), [COMMA], RenderCells(cells[1..], quoted[1..]), rest);
      var others := RenderCells(cells[1..], quoted[1..]) + rest;
      ReadCellAndComma(rows, row, cells[0], quoted[0], others, text);
      ReadCells(rows, row + [cells[0]], cells[1..], quoted[1..], rest, others);
    }
  }

  /** A line never starts with a line feed, so it is not taken for half of a CR LF. */
  lemma {:induction false} NoLeadingLf(lines: seq<Line>)
    requires LinesOk(lines)
    ensures Render(lines) != [] ==> Render(lines)[0] != LF
    ensures lines != [] ==> Render(lines) != []
  {
    if lines != [] {
      CellsStart(lines[0].cells, lines[0].quoted);
    }
  }

  lemma {:induction false} CellsStart(cells: seq<Text>, quoted: seq<bool>)
    requires CellsOk(cells, quoted) && NotEmpty(cells)
    ensures RenderCells(cells, quoted) != [] && RenderCells(cells, quoted)[0] != LF
  {
    if !quoted[0] && cells[0] != [] {
      assert !Special(cells[0][0]);
    }
  }

  /** How many rows the reader takes: it counts them at line ends only. */
  predicate Fits(before: nat, lines: seq<Line>) {
    || before + |lines| <= 5000
    || (before + |lines| == 5001 && lines != [] && lines[|lines| - 1].ending.Eof?)
  }

  /** The last cell of a line. */
  lemma {:induction false} LastCell(rows: Table, cells: seq<Text>, ended: bool)
    requires cells != [] && NotEmpty(cells) && Trimmed(cells[|cells| - 1])
    ensures var n := |cells| - 1;
            RowEnds(State(rows, [] + cells[..n], cells[n], false, ended)) == State(rows + [cells], [], [], false, false)
  {
    var n := |cells| - 1;
    TrimTrims(cells[n]);
    FrontAndLast(cells);
  }

  lemma {:induction false} FrontAndLast<T>(s: seq<T>)
    requires s != []
    ensures [] + s[..|s| - 1] + [s[|s| - 1]] == s
  {
  }

  /** A line and its end. */
  lemma {:induction false} ReadLine(rows: Table, l: Line, others: seq<Line>, text: Text)
    requires CellsOk(l.cells, l.quoted) && NotEmpty(l.cells) && LinesOk(others) && (l.ending.Eof? ==> others == [])
    requires text == RenderCells(l.cells, l.quoted) + (EndText(l.ending) + Render(others))
    ensures Read(State(rows, [], [], false, false), text) == AfterLine(rows + [l.cells], l, others)
  {
    var n := |l.cells| - 1;
    var tail := EndText(l.ending) + Render(others);
    EndFollows(l, others);
    ReadCells(rows, [], l.cells, l.quoted, tail, text);
    LastCell(rows, l.cells, l.quoted[n]);
    LineEnd(State(rows, [] + l.cells[..n], l.cells[n], false, l.quoted[n]), l, others, tail);
  }

  lemma {:induction false} EndFollows(l: Line, others: seq<Line>)
    requires LinesOk(others) && (l.ending.Eof? ==> others == [])
    ensures CellFollows(EndText(l.ending) + Render(others))
  {
  }

  function AfterLine(rows: Table, l: Line, others: seq<Line>): Outcome
    requires LinesOk(others)
  {
    if l.ending.Eof? then Rows(rows)
    else if |rows| > MAX_ROWS then TooManyRows
    else Read(State(rows, [], [], false, false), Render(others))
  }

  lemma {:induction false} OtherLines(lines: seq<Line>)
    requires LinesOk(lines) && lines != []
    ensures LinesOk(lines[1..]) && (lines[0].ending.Eof? ==> lines[1..] == [])
    ensures CellsOk(lines[0].cells, lines[0].quoted) && NotEmpty(lines[0].cells)
  {
    assert forall i | 0 <= i < |lines| - 1 :: lines[1..][i] == lines[i + 1];
  }

  lemma {:induction false} RegroupThree<T>(a: seq<T>, b: seq<T>, c: seq<T>)
    ensures a + b + c == a + (b + c)
  {
  }

  lemma {:induction false} FirstOfLines(rows: Table, lines: seq<Line>)
    requires LinesOk(lines) && lines != [] && LinesOk(lines[1..]) && CellsOk(lines[0].cells, lines[0].quoted)
    ensures Render(lines)
         == RenderCells(lines[0].cells, lines[0].quoted) + (EndText(lines[0].ending) + Render(lines[1..]))
    ensures rows + Cells(lines) == rows + [lines[0].cells] + Cells(lines[1..])
  {
    RegroupThree(RenderCells(lines[0].cells, lines[0].quoted), EndText(lines[0].ending), Render(lines[1..]));
    RegroupThree(rows, [lines[0].cells], Cells(lines[1..]));
  }

  /** The empty text behind a line end is not a row. */
  lemma {:induction false} NothingRead(rows: Table)
    ensures RowEnds(State(rows, [], [], false, false)).rows == rows
  {
    var row: seq<Text> := [] + [Trim([])];
    assert row == [[]] && row[1..] == [] && !NotEmpty(row[1..]);
  }

  lemma {:induction false} ReadLines(rows: Table, lines: seq<Line>)
    requires LinesOk(lines) && |rows| <= MAX_ROWS
    ensures Read(State(rows, [], [], false, false), Render(lines))
         == if Fits(|rows|, lines) then Rows(rows + Cells(lines)) else TooManyRows
    decreases |lines|
  {
    if lines == [] {
      NothingRead(rows);
      assert rows + Cells(lines) == rows;
    } else {
      var l, others := lines[0], lines[1..];
      OtherLines(lines);
      FirstOfLines(rows, lines);
      ReadLine(rows, l, others, Render(lines));
      if l.ending.Eof? {
        assert rows + Cells(lines) == rows + [l.cells];
      } else if |rows| < MAX_ROWS {
        ReadLines(rows + [l.cells], others);
      }
    }
  }

  /** A line feed is only taken as half of a line end it belongs to. */
  lemma {:induction false} Lookahead(e: Ending, rest: Text)
    requires !e.Eof? && (rest != [] ==> rest[0] != LF)
    ensures var tail := EndText(e) + rest;
            && (tail[0] == LF || tail[0] == CR)
            && |EndText(e)| == if tail[0] == CR && |tail| > 1 && tail[1] == LF then 2 else 1
  {
  }

  /** What the line end does. */
  lemma {:induction false} LineEnd(st: State, l: Line, others: seq<Line>, tail: Text)
    requires !st.quoted && LinesOk(others) && (l.ending.Eof? ==> others == [])
    requires RowEnds(st) == State(RowEnds(st).rows, [], [], false, false)
    requires tail == EndText(l.ending) + Render(others)
    ensures Read(st, tail) == AfterLine(RowEnds(st).rows, l, others)
  {
    NoLeadingLf(others);
    Dropped(EndText(l.ending), Render(others));
    if !l.ending.Eof? {
      Lookahead(l.ending, Render(others));
    }
  }

  /** For every table of trimmed cells without an all-empty row, however it is quoted and
      whatever ends its lines: reading inverts rendering, up to the size limits. */
  lemma {:induction false} ReadingInvertsRendering(lines: seq<Line>)
    requires LinesOk(lines) && |Render(lines)| <= 1_000_000
    ensures CsvRows(Render(lines)) == if Fits(0, lines) then Rows(Cells(lines)) else TooManyRows
  {
    ReadLines([], lines);
    assert [] + Cells(lines) == Cells(lines);
  }

  /** n rows of the one letter `a`, each with its own line end but perhaps the last. */
  function Letters(n: nat, last: Ending): seq<Line> {
    if n == 0 then [] else [Line([[97]], [false], if n == 1 then last else Lf)] + Letters(n - 1, last)
  }

  lemma {:induction false} LettersOk(n: nat, last: Ending)
    ensures var lines := Letters(n, last);
            && LinesOk(lines) && |lines| == n && |Render(lines)| <= 3 * n
            && (n > 0 ==> lines[n - 1].ending == last)
  {
    if n > 0 {
      var l, rest := Line([[97]], [false], if n == 1 then last else Lf), Letters(n - 1, last);
      LettersOk(n - 1, last);
      assert CellsOk(l.cells, l.quoted) && NotEmpty(l.cells);
      assert RenderCells(l.cells, l.quoted) == [97];
      assert Letters(n, last)[1..] == rest;
      forall i | 0 <= i < n
        ensures var line := Letters(n, last)[i];
                CellsOk(line.cells, line.quoted) && NotEmpty(line.cells) && (line.ending.Eof? ==> i == n - 1)
      {
        assert i > 0 ==> Letters(n, last)[i] == rest[i - 1];
      }
    }
  }

  /** The row limit at 5,001 rows: a last row without a line end passes, one with it does not. */
  lemma {:induction false} LastRowUncounted()
    ensures CsvRows(Render(Counted(Eof))) == Rows(Cells(Counted(Eof))) && |Counted(Eof)| == 5001
    ensures CsvRows(Render(Counted(Lf))) == TooManyRows && |Counted(Lf)| == 5001
  {
    LettersOk(MAX_ROWS + 1, Eof);
    LettersOk(MAX_ROWS + 1, Lf);
    ReadingInvertsRendering(Counted(Eof));
    ReadingInvertsRendering(Counted(Lf));
  }

  function Counted(last: Ending): (lines: seq<Line>)
    ensures LinesOk(lines)
  {
    LettersOk(MAX_ROWS + 1, last);
    Letters(MAX_ROWS + 1, last)
  }

  lemma {:induction false} ReadIsNotTooLarge(st: State, rest: Text)
    ensures !Read(st, rest).TooLarge?
    decreases |rest|
  {
    if rest != [] && Advance(st, rest).Turn? {
      ReadIsNotTooLarge(Advance(st, rest).state, rest[Advance(st, rest).taken..]);
    }
  }

  /** A text is too large from one million and one characters on, whatever it holds. */
  lemma {:induction false} TooLargeExact(input: Text)
    ensures CsvRows(input).TooLarge? <==> |input| > 1_000_000
  {
    ReadIsNotTooLarge(START, input);
  }

  // ---------------------------------------------------------------- what reading returns

  predicate CellsTrimmed(row: seq<Text>) { forall i | 0 <= i < |row| :: Trimmed(row[i]) }

  /** Rows of trimmed cells, none of them all-empty, at most one above the limit. */
  predicate TableOk(t: Table) {
    |t| <= MAX_ROWS + 1 && forall i | 0 <= i < |t| :: NotEmpty(t[i]) && CellsTrimmed(t[i])
  }

  lemma {:induction false} ReadYieldsTable(st: State, rest: Text)
    requires |st.rows| <= MAX_ROWS && TableOk(st.rows) && CellsTrimmed(st.row)
    ensures Read(st, rest).Rows? ==> TableOk(Read(st, rest).rows)
    decreases |rest|
  {
    TrimTrims(st.cell);
    if rest != [] {
      var t := Advance(st, rest);
      if t.Turn? {
        ReadYieldsTable(t.state, rest[t.taken..]);
      }
    }
  }

  /** Whatever the text, a successful read is a table of trimmed cells without all-empty rows. */
  lemma {:induction false} ReadingYieldsTable(input: Text)
    ensures CsvRows(input).Rows? ==> TableOk(CsvRows(input).rows)
  {
    ReadYieldsTable(START, input);
  }

  /** Everything quoted, line feeds, no final line end. */
  function Canonical(t: Table): seq<Line> {
    if t == [] then []
    else Canonical(t[..|t| - 1]) + [Line(t[|t| - 1], seq(|t[|t| - 1]|, _ => true), Lf)]
  }

  function CanonicalText(t: Table): seq<Line> {
    if t == [] then [] else Canonical(t[..|t| - 1]) + [Line(t[|t| - 1], seq(|t[|t| - 1]|, _ => true), Eof)]
  }

  lemma {:induction false} CellsAppend(a: seq<Line>, l: Line)
    ensures Cells(a + [l]) == Cells(a) + [l.cells]
  {
    if a == [] {
      assert a + [l] == [l];
    } else {
      assert (a + [l])[1..] == a[1..] + [l];
      CellsAppend(a[1..], l);
    }
  }

  lemma {:induction false} QuotedOk(row: seq<Text>)
    requires row != [] && CellsTrimmed(row)
    ensures CellsOk(row, seq(|row|, _ => true))
  {
    if |row| > 1 {
      QuotedOk(row[1..]);
      assert seq(|row|, _ => true)[1..] == seq(|row[1..]|, _ => true);
    }
  }

  lemma {:induction false} CanonicalOk(t: Table)
    requires forall i | 0 <= i < |t| :: NotEmpty(t[i]) && CellsTrimmed(t[i])
    ensures |Canonical(t)| == |t| && Cells(Canonical(t)) == t && LinesOk(Canonical(t))
    ensures forall i | 0 <= i < |t| :: Canonical(t)[i].ending.Lf?
  {
    if t != [] {
      var n := |t| - 1;
      CanonicalOk(t[..n]);
      QuotedOk(t[n]);
      CellsAppend(Canonical(t[..n]), Line(t[n], seq(|t[n]|, _ => true), Lf));
    }
  }

  lemma {:induction false} LineAppended(front: seq<Line>, l: Line)
    requires LinesOk(front) && forall i | 0 <= i < |front| :: front[i].ending.Lf?
    requires CellsOk(l.cells, l.quoted) && NotEmpty(l.cells)
    ensures LinesOk(front + [l]) && Cells(front + [l]) == Cells(front) + [l.cells]
  {
    CellsAppend(front, l);
  }

  lemma {:induction false} LastFits(front: seq<Line>, l: Line)
    requires |front| <= 5000 && l.ending.Eof?
    ensures Fits(0, front + [l])
  {
  }

  lemma {:induction false} CanonicalTextOk(t: Table)
    requires TableOk(t)
    ensures var lines := CanonicalText(t); LinesOk(lines) && Cells(lines) == t && Fits(0, lines)
  {
    if t != [] {
      var n := |t| - 1;
      var front, last := Canonical(t[..n]), Line(t[n], seq(|t[n]|, _ => true), Eof);
      CanonicalOk(t[..n]);
      QuotedOk(t[n]);
      LineAppended(front, last);
      LastFits(front, last);
      assert t[..n] + [t[n]] == t;
    }
  }

  /** Reading, writing in canonical form and reading again gives the same table: the reader
      accepts every table it returns. */
  lemma {:induction false} ReadWriteRead(input: Text)
    requires CsvRows(input).Rows?
    ensures var lines := CanonicalText(CsvRows(input).rows);
            && LinesOk(lines)
            && (|Render(lines)| <= MAX_LENGTH ==> CsvRows(Render(lines)) == CsvRows(input))
  {
    ReadingYieldsTable(input);
    CanonicalTextOk(CsvRows(input).rows);
    if |Render(CanonicalText(CsvRows(input).rows))| <= MAX_LENGTH {
      ReadingInvertsRendering(CanonicalText(CsvRows(input).rows));
    }
  }
}
