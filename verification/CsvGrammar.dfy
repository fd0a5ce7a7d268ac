/** Which texts the CSV reader accepts: renderings, and nothing else. */
module CsvGrammar {
  import opened Basics
  import opened Csv

  /** A cell as it stands in a text, and a line of such cells. */
  datatype Raw = Raw(content: Text, quoted: bool)
  datatype RawLine = RawLine(cells: seq<Raw>, ending: Ending)

  function RawText(c: Raw): Text { if c.quoted then [QUOTE] + Escape(c.content) + [QUOTE] else c.content }

  /** Cells with a comma behind each. */
  function CellsText(cells: seq<Raw>): Text {
    if cells == [] then [] else CellsText(cells[..|cells| - 1]) + RawText(cells[|cells| - 1]) + [COMMA]
  }

  /** Cells with a comma between them. */
  function RowText(cells: seq<Raw>): Text {
    if cells == [] then [] else CellsText(cells[..|cells| - 1]) + RawText(cells[|cells| - 1])
  }

  predicate CellOk(c: Raw) { c.quoted || Bare(c.content) }

  predicate AllCellsOk(cells: seq<Raw>) { forall i | 0 <= i < |cells| :: CellOk(cells[i]) }

  predicate LineOk(l: RawLine) { l.cells != [] && AllCellsOk(l.cells) }

  predicate AllLinesOk(lines: seq<RawLine>) { forall i | 0 <= i < |lines| :: LineOk(lines[i]) }

  function LinesText(lines: seq<RawLine>): Text {
    if lines == [] then [] else
      var l := lines[|lines| - 1];
      LinesText(lines[..|lines| - 1]) + RowText(l.cells) + EndText(l.ending)
  }

  /** The trimmed contents of a row's cells. */
  function Contents(cells: seq<Raw>): seq<Text> {
    if cells == [] then [] else Contents(cells[..|cells| - 1]) + [Trim(cells[|cells| - 1].content)]
  }

  /** The rows of the lines that are not all empty. */
  function Kept(lines: seq<RawLine>): Table {
    if lines == [] then [] else
      var row := Contents(lines[|lines| - 1].cells);
      Kept(lines[..|lines| - 1]) + (if NotEmpty(row) then [row] else [])
  }

  // ---------------------------------------------------------------- what has been read so far

  /** The cell under way: an open quote, a closed one, or bare text. */
  function Partial(st: State): Text {
    if st.quoted then [QUOTE] + Escape(st.cell)
    else if st.ended then [QUOTE] + Escape(st.cell) + [QUOTE]
    else st.cell
  }

  datatype Trace = Trace(lines: seq<RawLine>, cells: seq<Raw>)

  function TraceText(t: Trace): Text { LinesText(t.lines) + CellsText(t.cells) }

  predicate NoneLast(lines: seq<RawLine>) { forall i | 0 <= i < |lines| :: !lines[i].ending.Eof? }

  predicate TraceOk(t: Trace) { AllLinesOk(t.lines) && AllCellsOk(t.cells) && NoneLast(t.lines) }

  predicate StateOk(st: State) { (!st.quoted && !st.ended ==> Bare(st.cell)) && !(st.quoted && st.ended) }

  /** The text read so far is these lines, these cells and the cell under way. */
  predicate Explains(t: Trace, read: Text, st: State) {
    && TraceOk(t) && StateOk(st)
    && read == TraceText(t) + Partial(st)
    && st.rows == Kept(t.lines) && st.row == Contents(t.cells)
  }

  lemma {:induction false} CellsPush(cells: seq<Raw>, c: Raw)
    ensures CellsText(cells + [c]) == CellsText(cells) + RawText(c) + [COMMA]
    ensures RowText(cells + [c]) == CellsText(cells) + RawText(c)
    ensures Contents(cells + [c]) == Contents(cells) + [Trim(c.content)]
  {
    assert (cells + [c])[..|cells|] == cells;
  }

  lemma {:induction false} LinesPush(lines: seq<RawLine>, l: RawLine)
    ensures LinesText(lines + [l]) == LinesText(lines) + RowText(l.cells) + EndText(l.ending)
    ensures Kept(lines + [l]) == if NotEmpty(Contents(l.cells)) then Kept(lines) + [Contents(l.cells)] else Kept(lines)
  {
    assert (lines + [l])[..|lines|] == lines;
  }

  lemma {:induction false} JoinFour(a: Text, b: Text, c: Text, d: Text)
    ensures a + b + c + d == a + (b + c + d) == a + (b + c) + d
  {
  }

  lemma {:induction false} JoinThree(a: Text, b: Text, c: Text)
    ensures a + b + c == a + (b + c)
  {
  }

  lemma {:induction false} EscapePush(s: Text, c: nat)
    ensures Escape(s + [c]) == Escape(s) + (if c == QUOTE then [QUOTE, QUOTE] else [c])
  {
    if s == [] {
      assert s + [c] == [c];
    } else {
      assert (s + [c])[1..] == s[1..] + [c];
      EscapePush(s[1..], c);
    }
  }

  /** Only the cell under way grows. */
  lemma {:induction false} CellGrows(t: Trace, read: Text, st: State, next: State, more: Text)
    requires Explains(t, read, st) && next.rows == st.rows && next.row == st.row
    requires Partial(next) == Partial(st) + more && StateOk(next)
    ensures Explains(t, read + more, next)
  {
    JoinThree(TraceText(t), Partial(st), more);
  }

  function ClosedCell(st: State): Raw { Raw(st.cell, st.ended) }

  lemma {:induction false} CellDone(st: State)
    requires !st.quoted && StateOk(st)
    ensures CellOk(ClosedCell(st)) && Partial(st) == RawText(ClosedCell(st))
  {
  }

  lemma {:induction false} CommaText(lines: Text, cells: Text, cell: Text)
    ensures lines + cells + cell + [COMMA] == lines + (cells + cell + [COMMA]) + []
  {
    JoinFour(lines, cells, cell, [COMMA]);
  }

  lemma {:induction false} CommaStep(t: Trace, read: Text, st: State)
    requires Explains(t, read, st) && !st.quoted
    ensures Explains(Trace(t.lines, t.cells + [ClosedCell(st)]), read + [COMMA], CellEnds(st))
  {
    CellDone(st);
    CellsPush(t.cells, ClosedCell(st));
    CommaText(LinesText(t.lines), CellsText(t.cells), Partial(st));
    assert Bare([]);
  }

  function LineOf(t: Trace, st: State, ending: Ending): RawLine { RawLine(t.cells + [ClosedCell(st)], ending) }

  function WithLine(t: Trace, st: State, ending: Ending): seq<RawLine> { t.lines + [LineOf(t, st, ending)] }

  lemma {:induction false} LineText(lines: Text, cells: Text, cell: Text, ending: Text)
    ensures lines + cells + cell + ending == lines + (cells + cell) + ending
  {
    JoinFour(lines, cells, cell, ending);
  }

  lemma {:induction false} LineRows(t: Trace, st: State, ending: Ending)
    requires st.rows == Kept(t.lines) && st.row == Contents(t.cells)
    ensures Kept(WithLine(t, st, ending)) == RowEnds(st).rows
  {
    CellsPush(t.cells, ClosedCell(st));
    LinesPush(t.lines, LineOf(t, st, ending));
  }

  lemma {:induction false} LineRead(t: Trace, st: State, ending: Ending)
    requires !st.quoted && StateOk(st)
    ensures LinesText(WithLine(t, st, ending)) == TraceText(t) + Partial(st) + EndText(ending)
  {
    CellDone(st);
    CellsPush(t.cells, ClosedCell(st));
    LinesPush(t.lines, LineOf(t, st, ending));
    LineText(LinesText(t.lines), CellsText(t.cells), Partial(st), EndText(ending));
  }

  lemma {:induction false} LinesStayOk(t: Trace, st: State, ending: Ending)
    requires TraceOk(t) && StateOk(st) && !st.quoted
    ensures AllLinesOk(WithLine(t, st, ending))
  {
    CellDone(st);
    assert LineOk(LineOf(t, st, ending));
  }

  lemma {:induction false} LineStep(t: Trace, read: Text, st: State, ending: Ending)
    requires Explains(t, read, st) && !st.quoted
    ensures AllLinesOk(WithLine(t, st, ending))
    ensures LinesText(WithLine(t, st, ending)) == read + EndText(ending)
    ensures Kept(WithLine(t, st, ending)) == RowEnds(st).rows
  {
    LineRows(t, st, ending);
    LineRead(t, st, ending);
    LinesStayOk(t, st, ending);
  }

  /** Between two lines there is nothing but lines. */
  lemma {:induction false} FreshLine(lines: seq<RawLine>, st: State, read: Text)
    requires AllLinesOk(lines) && NoneLast(lines) && read == LinesText(lines)
    requires st == State(Kept(lines), [], [], false, false)
    ensures Explains(Trace(lines, []), read, st)
  {
    assert Partial(st) == [] && TraceText(Trace(lines, [])) == LinesText(lines);
    assert Bare([]);
  }

  lemma {:induction false} LineEndStep(t: Trace, read: Text, st: State, ending: Ending)
    requires Explains(t, read, st) && !st.quoted && !ending.Eof?
    ensures Explains(Trace(WithLine(t, st, ending), []), read + EndText(ending), RowEnds(st))
  {
    LineStep(t, read, st, ending);
    FreshLine(WithLine(t, st, ending), RowEnds(st), read + EndText(ending));
  }

  function EndingOf(rest: Text): Ending
    requires rest != []
  {
    if rest[0] == LF then Lf else if |rest| > 1 && rest[1] == LF then CrLf else Cr
  }

  lemma {:induction false} QuotedTurn(t: Trace, read: Text, st: State, rest: Text)
    requires Explains(t, read, st) && rest != [] && st.quoted && Advance(st, rest).Turn?
    ensures var turn := Advance(st, rest); Explains(t, read + rest[..turn.taken], turn.state)
  {
    var turn := Advance(st, rest);
    var more := rest[..turn.taken];
    if rest[0] == QUOTE && |rest| > 1 && rest[1] == QUOTE {
      EscapePush(st.cell, QUOTE);
      assert more == [QUOTE, QUOTE];
    } else if rest[0] == QUOTE {
      assert more == [QUOTE];
    } else {
      EscapePush(st.cell, rest[0]);
      assert more == [rest[0]];
    }
    PartialGrows(st, turn.state, more);
    CellGrows(t, read, st, turn.state, more);
  }

  lemma {:induction false} PartialGrows(st: State, next: State, more: Text)
    requires st.quoted
    requires (next.quoted && Escape(next.cell) == Escape(st.cell) + more)
          || (!next.quoted && next.ended && next.cell == st.cell && more == [QUOTE])
    ensures Partial(next) == Partial(st) + more
  {
    if next.quoted {
      assert [QUOTE] + (Escape(st.cell) + more) == [QUOTE] + Escape(st.cell) + more;
    }
  }

  lemma {:induction false} OtherTurn(t: Trace, read: Text, st: State, rest: Text)
    requires Explains(t, read, st) && rest != [] && !st.quoted && Advance(st, rest).Turn?
    requires rest[0] != COMMA && rest[0] != LF && rest[0] != CR
    ensures var turn := Advance(st, rest); Explains(t, read + rest[..turn.taken], turn.state)
  {
    var turn := Advance(st, rest);
    var more := rest[..1];
    assert more == [rest[0]] && turn.taken == 1;
    if rest[0] == QUOTE {
      assert Escape([]) == [] && Partial(turn.state) == [QUOTE] + [] == [] + [QUOTE];
    }
    CellGrows(t, read, st, turn.state, more);
  }

  lemma {:induction false} CommaTurn(t: Trace, read: Text, st: State, rest: Text)
    requires Explains(t, read, st) && rest != [] && !st.quoted && rest[0] == COMMA
    ensures Explains(Trace(t.lines, t.cells + [ClosedCell(st)]), read + rest[..1], CellEnds(st))
  {
    CommaStep(t, read, st);
    assert rest[..1] == [COMMA];
  }

  lemma {:induction false} EndingTaken(rest: Text)
    requires rest != [] && (rest[0] == LF || rest[0] == CR)
    ensures var e := EndText(EndingOf(rest)); |e| <= |rest| && rest[..|e|] == e
  {
  }

  lemma {:induction false} LineTurn(t: Trace, read: Text, st: State, rest: Text)
    requires Explains(t, read, st) && rest != [] && !st.quoted && (rest[0] == LF || rest[0] == CR)
    ensures Explains(Trace(WithLine(t, st, EndingOf(rest)), []), read + rest[..|EndText(EndingOf(rest))|], RowEnds(st))
  {
    EndingTaken(rest);
    LineEndStep(t, read, st, EndingOf(rest));
  }

  /** What one turn does, case by case. */
  lemma {:induction false} TurnCases(st: State, rest: Text)
    requires rest != [] && Advance(st, rest).Turn? && !st.quoted
    ensures var turn := Advance(st, rest);
            && (rest[0] == COMMA ==> turn == Turn(CellEnds(st), 1))
            && (rest[0] == LF || rest[0] == CR ==> turn == Turn(RowEnds(st), |EndText(EndingOf(rest))|))
  {
  }

  lemma {:induction false} OneTurn(t: Trace, read: Text, st: State, rest: Text) returns (next: Trace)
    requires Explains(t, read, st) && rest != [] && Advance(st, rest).Turn?
    ensures Explains(next, read + rest[..Advance(st, rest).taken], Advance(st, rest).state)
  {
    next := t;
    if st.quoted {
      QuotedTurn(t, read, st, rest);
    } else if rest[0] == COMMA {
      next := Trace(t.lines, t.cells + [ClosedCell(st)]);
      CommaTurn(t, read, st, rest);
      TurnCases(st, rest);
    } else if rest[0] == LF || rest[0] == CR {
      next := Trace(WithLine(t, st, EndingOf(rest)), []);
      LineTurn(t, read, st, rest);
      TurnCases(st, rest);
    } else {
      OtherTurn(t, read, st, rest);
    }
  }

  ghost predicate KeptByTurns(P: (Trace, Text, State) -> bool) {
    forall t, read, st, rest {:trigger P(t, read, st), Advance(st, rest)} ::
      P(t, read, st) && rest != [] && Advance(st, rest).Turn? ==>
        exists next :: P(next, read + rest[..Advance(st, rest).taken], Advance(st, rest).state)
  }

  /** What every turn keeps holds when the reader is done. */
  lemma {:induction false} ReadKeeps(P: (Trace, Text, State) -> bool, t: Trace, read: Text, st: State, rest: Text)
    returns (last: Trace, end: State)
    requires KeptByTurns(P) && P(t, read, st) && Read(st, rest).Rows?
    ensures P(last, read + rest, end) && !end.quoted && Read(st, rest).rows == RowEnds(end).rows
    decreases |rest|
  {
    if rest == [] {
      last, end := t, st;
      assert read + rest == read;
    } else {
      var turn := Advance(st, rest);
      var next :| P(next, read + rest[..turn.taken], turn.state);
      last, end := ReadKeeps(P, next, read + rest[..turn.taken], turn.state, rest[turn.taken..]);
      assert read + rest[..turn.taken] + rest[turn.taken..] == read + rest;
    }
  }

  function Explaining(): (Trace, Text, State) -> bool { (t, read, st) => Explains(t, read, st) }

  lemma {:induction false} ExplainingKept()
    ensures KeptByTurns(Explaining())
  {
    var P := Explaining();
    forall t, read, st, rest {:trigger P(t, read, st), Advance(st, rest)} | P(t, read, st) && rest != [] && Advance(st, rest).Turn?
      ensures exists next :: P(next, read + rest[..Advance(st, rest).taken], Advance(st, rest).state)
    {
      var next := OneTurn(t, read, st, rest);
      assert P(next, read + rest[..Advance(st, rest).taken], Advance(st, rest).state);
    }
  }

  lemma {:induction false} ReadExplained(input: Text) returns (last: Trace, end: State)
    requires Read(START, input).Rows?
    ensures Explaining()(last, input, end) && !end.quoted && Read(START, input).rows == RowEnds(end).rows
  {
    ExplainingKept();
    assert Explaining()(Trace([], []), [], START);
    last, end := ReadKeeps(Explaining(), Trace([], []), [], START, input);
    assert [] + input == input;
  }

  /** Lines of well-formed cells, all but the last with a line end. */
  predicate Rendering(lines: seq<RawLine>, input: Text) {
    && lines != [] && AllLinesOk(lines) && LinesText(lines) == input
    && (forall i | 0 <= i < |lines| :: lines[i].ending.Eof? <==> i == |lines| - 1)
  }

  /** Every text the reader accepts is a rendering: each cell is bare, without quotes, commas or
      line ends, or quoted as a whole with its quotes doubled. What is read are its rows, with
      their cells trimmed and the all-empty ones left out. */
  lemma {:induction false} AcceptedIsRendering(input: Text) returns (lines: seq<RawLine>)
    requires CsvRows(input).Rows?
    ensures Rendering(lines, input) && CsvRows(input).rows == Kept(lines)
  {
    var last, end := ReadExplained(input);
    LineStep(last, input, end, Eof);
    lines := WithLine(last, end, Eof);
    assert input + EndText(Eof) == input;
  }
}
