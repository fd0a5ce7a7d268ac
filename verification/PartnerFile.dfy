/** An exchange partner's month file: CSV text to lines of exchange, account and cents. */
module PartnerFile {
  import opened Basics
  import Csv
  import Dollars

  datatype Line = Line(exchange: Text, uid: Text, cents: nat)

  const MARK := 0xFEFF

  function Units(s: string): Text { seq(|s|, i requires 0 <= i < |s| => s[i] as nat) }

  const COLUMNS: seq<Text> := [Units("exchange"), Units("uid"), Units("commission_usd")]
  const HEADER: Text := Units("exchange" + "," + "uid" + "," + "commission_usd")

  /** `row.join(',')`. */
  function Joined(row: seq<Text>): Text {
    if row == [] then [] else if |row| == 1 then row[0] else row[0] + [Csv.COMMA] + Joined(row[1..])
  }

  /** One leading byte order mark is dropped. */
  function Unmarked(text: Text): Text { if text != [] && text[0] == MARK then text[1..] else text }

  /** A row below the header: three columns, the third an amount. */
  function LineOf(row: seq<Text>): Option<Line> {
    if |row| != 3 then None else
      var cents := Dollars.UsdCents(row[2]);
      if cents.None? then None else Some(Line(row[0], row[1], cents.value))
  }

  function LinesOf(rows: Csv.Table): (r: Option<seq<Line>>)
    ensures r.Some? ==> |r.value| == |rows|
  {
    if rows == [] then Some([]) else
      var n := |rows| - 1;
      var front, last := LinesOf(rows[..n]), LineOf(rows[n]);
      if front.None? || last.None? then None else Some(front.value + [last.value])
  }

  /** The lines of a file, or None where the program refuses its form. */
  function FileLines(text: Text): Option<seq<Line>> {
    match Csv.CsvRows(Unmarked(text))
    case Rows(rows) => if rows == [] || Joined(rows[0]) != HEADER then None else LinesOf(rows[1..])
    case _ => None
  }

  lemma {:induction false} LinesExact(rows: Csv.Table)
    ensures LinesOf(rows).Some? <==> forall i | 0 <= i < |rows| :: LineOf(rows[i]).Some?
    ensures LinesOf(rows).Some? ==> forall i | 0 <= i < |rows| :: LineOf(rows[i]) == Some(LinesOf(rows).value[i])
  {
    if rows != [] {
      var n := |rows| - 1;
      LinesExact(rows[..n]);
      assert forall i | 0 <= i < n :: rows[..n][i] == rows[i];
      if forall i | 0 <= i < |rows| :: LineOf(rows[i]).Some? {
        assert LineOf(rows[n]).Some?;
      }
    }
  }

  lemma {:induction false} HeaderIs()
    ensures HEADER == Units("exchange,uid,commission_usd")
  {
    assert "exchange" + "," + "uid" + "," + "commission_usd" == "exchange,uid,commission_usd";
  }

  /** Three columns, the third an amount. */
  predicate Good(row: seq<Text>) { |row| == 3 && Dollars.UsdCents(row[2]).Some? }

  predicate IsLine(row: seq<Text>, line: Line) {
    |row| == 3 && Dollars.UsdCents(row[2]) == Some(line.cents) && line.exchange == row[0] && line.uid == row[1]
  }

  lemma {:induction false} BelowHeader(rows: Csv.Table)
    requires rows != []
    ensures LinesOf(rows[1..]).Some? <==> forall i | 1 <= i < |rows| :: Good(rows[i])
    ensures LinesOf(rows[1..]).Some? ==> forall i | 1 <= i < |rows| :: IsLine(rows[i], LinesOf(rows[1..]).value[i - 1])
  {
    LinesExact(rows[1..]);
    assert forall i | 1 <= i < |rows| :: rows[1..][i - 1] == rows[i];
    assert forall i | 0 <= i < |rows| - 1 :: rows[1..][i] == rows[i + 1];
  }

  /** A file is taken exactly when it is readable CSV with the expected header and three columns
      in every row below it, the third an amount; its lines are those rows. */
  lemma {:induction false} FileExact(text: Text)
    ensures var table := Csv.CsvRows(if text != [] && text[0] == 0xFEFF then text[1..] else text);
            && (FileLines(text).Some? <==>
                  && table.Rows? && table.rows != [] && Joined(table.rows[0]) == Units("exchange,uid,commission_usd")
                  && forall i | 1 <= i < |table.rows| :: Good(table.rows[i]))
            && (FileLines(text).Some? ==>
                  table.Rows? && |table.rows| == |FileLines(text).value| + 1
                  && forall i | 1 <= i < |table.rows| :: IsLine(table.rows[i], FileLines(text).value[i - 1]))
  {
    HeaderIs();
    var table := Csv.CsvRows(Unmarked(text));
    if table.Rows? && table.rows != [] {
      BelowHeader(table.rows);
    }
  }

  /** One row that is no line spoils every file with it. */
  lemma {:induction false} LinesOfFront(rows: Csv.Table, n: nat)
    requires n <= |rows|
    ensures LinesOf(rows[..n]).None? ==> LinesOf(rows).None?
    ensures LinesOf(rows).Some? ==> LinesOf(rows[..n]) == Some(LinesOf(rows).value[..n])
  {
    if n == |rows| {
      assert rows[..n] == rows;
      if LinesOf(rows).Some? {
        assert LinesOf(rows).value[..n] == LinesOf(rows).value;
      }
    } else {
      var m := |rows| - 1;
      LinesOfFront(rows[..m], n);
      assert rows[..m][..n] == rows[..n];
      if LinesOf(rows).Some? {
        assert LinesOf(rows).value[..n] == LinesOf(rows[..m]).value[..n];
      }
    }
  }

  // ---------------------------------------------------------------- a written file reads back

  function CellsOf(line: Line): seq<Text> { [line.exchange, line.uid, Dollars.Fixed(line.cents)] }

  function RowsFrom(lines: seq<Line>): Csv.Table {
    if lines == [] then [] else RowsFrom(lines[..|lines| - 1]) + [CellsOf(lines[|lines| - 1])]
  }

  lemma {:induction false} CellsRead(line: Line)
    requires line.cents <= Dollars.MAX_CENTS
    ensures LineOf(CellsOf(line)) == Some(line)
  {
    Dollars.CentsRoundTrip(line.cents);
    assert CellsOf(line)[2] == Dollars.Fixed(line.cents);
  }

  lemma {:induction false} LinesOfRows(lines: seq<Line>)
    requires forall i | 0 <= i < |lines| :: lines[i].cents <= Dollars.MAX_CENTS
    ensures LinesOf(RowsFrom(lines)) == Some(lines)
  {
    if lines != [] {
      var front, last := lines[..|lines| - 1], lines[|lines| - 1];
      LinesOfRows(front);
      CellsRead(last);
      assert lines == front + [last];
      assert RowsFrom(lines) == RowsFrom(front) + [CellsOf(last)];
      OneMore(RowsFrom(front), front, CellsOf(last), last);
    }
  }

  lemma {:induction false} OneMore(rows: Csv.Table, lines: seq<Line>, row: seq<Text>, line: Line)
    requires LinesOf(rows) == Some(lines) && LineOf(row) == Some(line)
    ensures LinesOf(rows + [row]) == Some(lines + [line])
  {
    assert (rows + [row])[..|rows|] == rows;
  }

  lemma {:induction false} UnitsJoin(a: string, b: string)
    ensures Units(a + b) == Units(a) + Units(b)
  {
  }

  lemma {:induction false} HeaderJoined()
    ensures Joined(COLUMNS) == HEADER
  {
    var rest := COLUMNS[1..];
    assert rest == [Units("uid"), Units("commission_usd")] && rest[1..] == [Units("commission_usd")];
    assert Units(",") == [Csv.COMMA];
    UnitsJoin("exchange", ",");
    UnitsJoin("exchange" + ",", "uid");
    UnitsJoin("exchange" + "," + "uid", ",");
    UnitsJoin("exchange" + "," + "uid" + ",", "commission_usd");
  }

  /** The mark is white space, so no trimmed cell starts with it. */
  lemma {:induction false} NoMark(written: seq<Csv.Line>)
    requires Csv.LinesOk(written) && written != [] && written[0].cells[0] != []
    ensures Csv.Render(written) != [] && Csv.Render(written)[0] != MARK
  {
    assert Csv.CellsOk(written[0].cells, written[0].quoted);
  }

  /** However the header and the lines are quoted and whatever ends them, with or without a
      mark in front: the file reads back as its lines, amounts written with two decimals. */
  lemma {:induction false} FileRoundTrip(written: seq<Csv.Line>, lines: seq<Line>, marked: bool)
    requires Csv.LinesOk(written) && |Csv.Render(written)| <= Csv.MAX_LENGTH && Csv.Fits(0, written)
    requires Csv.Cells(written) == [COLUMNS] + RowsFrom(lines)
    requires forall i | 0 <= i < |lines| :: lines[i].cents <= Dollars.MAX_CENTS
    ensures FileLines((if marked then [MARK] else []) + Csv.Render(written)) == Some(lines)
  {
    var text := Csv.Render(written);
    assert written != [] && written[0].cells == COLUMNS by {
      assert Csv.Cells(written)[0] == COLUMNS;
    }
    NoMark(written);
    assert Unmarked((if marked then [MARK] else []) + text) == text by {
      assert marked ==> ([MARK] + text)[1..] == text;
      assert [] + text == text;
    }
    Csv.ReadingInvertsRendering(written);
    HeaderJoined();
    assert Csv.Cells(written)[1..] == RowsFrom(lines);
    LinesOfRows(lines);
  }
}
