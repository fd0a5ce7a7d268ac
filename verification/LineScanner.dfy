/** The feedback tracker read two ways: all at once and split into lines, or block by block
    with only line offsets kept. Both see the same records. */
module LineScanner {
  import opened Basics
  import opened Utf8

  /** A stored report: its time, 0 when it is not a finite number, and the rest of it. */
  datatype Record = Record(at: int, body: seq<nat>)

  /** How bytes become text, and how the text of a line becomes a record. */
  datatype Reader = Reader(text: seq<Byte> -> seq<nat>, json: seq<nat> -> Option<Record>)

  // ---------------------------------------------------------------- lines

  /** The first newline at or after `from`, or the length. */
  function NextNewline(s: seq<nat>, from: nat): (at: nat)
    requires from <= |s|
    ensures from <= at <= |s| && (at < |s| ==> s[at] == LF)
    ensures forall i | from <= i < at :: s[i] != LF
    decreases |s| - from
  {
    if from == |s| || s[from] == LF then from else NextNewline(s, from + 1)
  }

  /** `split("\n")`. */
  function Split(s: seq<nat>): seq<seq<nat>> {
    var at := NextNewline(s, 0);
    if at == |s| then [s] else [s[..at]] + Split(s[at + 1..])
  }

  lemma {:induction false} SplitLine(line: seq<nat>, rest: seq<nat>)
    requires Plain(line)
    ensures Split(line + [LF] + rest) == [line] + Split(rest)
  {
    var s := line + [LF] + rest;
    assert forall i | 0 <= i < |line| :: s[i] == line[i];
    assert s[|line|] == LF;
    assert NextNewline(s, 0) == |line|;
    assert s[..|line|] == line && s[|line| + 1..] == rest;
  }

  lemma {:induction false} SplitLast(line: seq<nat>)
    requires Plain(line)
    ensures Split(line) == [line]
  {
  }

  predicate Blank(line: seq<nat>) { line == [] || (Space(line[0]) && Blank(line[1..])) }

  /** parseStoredFeedbackLine: a blank line is skipped before the JSON is looked at. */
  function ParseLine(reader: Reader, line: seq<nat>): Option<Record> {
    if Blank(line) then None else reader.json(line)
  }

  /** `if (rec) out.push(rec)`. */
  function Push<T>(out: seq<T>, last: Option<T>): seq<T> { if last.Some? then out + [last.value] else out }

  /** The records of the remaining lines pushed onto those found so far. */
  function Parsed(reader: Reader, out: seq<Record>, lines: seq<seq<nat>>): seq<Record>
    decreases |lines|
  {
    if lines == [] then out else Parsed(reader, Push(out, ParseLine(reader, lines[0])), lines[1..])
  }

  /** listFeedback: the whole file as text, split, parsed. */
  function ListFeedback(reader: Reader, content: seq<Byte>): seq<Record> {
    Parsed(reader, [], Split(reader.text(content)))
  }

  /** Lines with a newline between each and the next. */
  function Joined(lines: seq<seq<nat>>): seq<nat>
    requires lines != []
  {
    if |lines| == 1 then lines[0] else lines[0] + [LF] + Joined(lines[1..])
  }

  predicate AllPlain(lines: seq<seq<nat>>) { forall i | 0 <= i < |lines| :: Plain(lines[i]) }

  lemma {:induction false} SplitJoined(lines: seq<seq<nat>>)
    requires lines != [] && AllPlain(lines)
    ensures Split(Joined(lines)) == lines
  {
    if |lines| == 1 {
      SplitLast(lines[0]);
    } else {
      SplitLine(lines[0], Joined(lines[1..]));
      SplitJoined(lines[1..]);
      assert lines == [lines[0]] + lines[1..];
    }
  }

  /** What a tracker holds line by line: a report, or a blank or torn line. */
  datatype Stored = Report(record: Record) | Garbage

  predicate Holds(reader: Reader, line: seq<nat>, s: Stored) {
    match s
    case Report(record) => reader.json(line) == Some(record) && exists i :: 0 <= i < |line| && !Space(line[i])
    case Garbage => (forall i | 0 <= i < |line| :: Space(line[i])) || reader.json(line).None?
  }

  function Reports(stored: seq<Stored>): seq<Record> {
    if stored == [] then [] else
      Reports(stored[..|stored| - 1]) + (match stored[|stored| - 1] case Report(record) => [record] case Garbage => [])
  }

  lemma {:induction false} BlankIsAllSpace(line: seq<nat>)
    ensures Blank(line) <==> forall i | 0 <= i < |line| :: Space(line[i])
  {
    if line != [] {
      BlankIsAllSpace(line[1..]);
      assert forall i | 1 <= i < |line| :: line[i] == line[1..][i - 1];
      if Blank(line) {
        forall i | 0 <= i < |line|
          ensures Space(line[i])
        {
          assert i > 0 ==> line[i] == line[1..][i - 1];
        }
      }
    }
  }

  lemma {:induction false} HeldIsParsed(reader: Reader, line: seq<nat>, s: Stored)
    requires Holds(reader, line, s)
    ensures ParseLine(reader, line) == match s case Report(record) => Some(record) case Garbage => None
  {
    BlankIsAllSpace(line);
  }

  lemma {:induction false} ReportsPush(stored: seq<Stored>, n: nat)
    requires n < |stored|
    ensures Reports(stored[..n + 1])
         == Push(Reports(stored[..n]), match stored[n] case Report(record) => Some(record) case Garbage => None)
  {
    assert stored[..n + 1][..n] == stored[..n];
  }

  lemma {:induction false} ParsedIsReports(reader: Reader, lines: seq<seq<nat>>, stored: seq<Stored>, n: nat)
    requires n <= |lines| == |stored| && forall i | 0 <= i < |lines| :: Holds(reader, lines[i], stored[i])
    ensures Parsed(reader, Reports(stored[..n]), lines[n..]) == Reports(stored)
    decreases |lines| - n
  {
    if n == |lines| {
      assert stored[..n] == stored;
    } else {
      assert lines[n..][1..] == lines[n + 1..] && lines[n..][0] == lines[n];
      HeldIsParsed(reader, lines[n], stored[n]);
      ReportsPush(stored, n);
      ParsedIsReports(reader, lines, stored, n + 1);
    }
  }

  /** A tracker reads back: its reports in order, whatever blank or torn lines are between. */
  lemma {:induction false} TrackerReadsBack(reader: Reader, content: seq<Byte>, lines: seq<seq<nat>>,
                                            stored: seq<Stored>)
    requires lines != [] && AllPlain(lines) && reader.text(content) == Joined(lines)
    requires |lines| == |stored| && forall i | 0 <= i < |lines| :: Holds(reader, lines[i], stored[i])
    ensures ListFeedback(reader, content) == Reports(stored)
  {
    SplitJoined(lines);
    assert stored[..0] == [] && lines[0..] == lines;
    ParsedIsReports(reader, lines, stored, 0);
  }

  // ---------------------------------------------------------------- offsets

  datatype Row = Row(offset: nat, length: nat, at: int, order: nat)

  function RowFor(reader: Reader, line: seq<Byte>, offset: nat, order: nat): Option<Row> {
    var r := ParseLine(reader, reader.text(line));
    if r.Some? then Some(Row(offset, |line|, r.value.at, order)) else None
  }

  /** The rows of the lines that start at `from` or later, pushed onto those found so far; a
      final empty line has no row. */
  function Offsets(reader: Reader, content: seq<Byte>, rows: seq<Row>, from: nat, order: nat): seq<Row>
    requires from <= |content|
    decreases |content| - from
  {
    if from == |content| then rows else
      var at := NextNewline(content, from);
      var next := Push(rows, RowFor(reader, content[from..at], from, order));
      if at == |content| then next else Offsets(reader, content, next, at + 1, order + 1)
  }

  function AllOffsets(reader: Reader, content: seq<Byte>): seq<Row> { Offsets(reader, content, [], 0, 0) }

  /** The record a row's bytes hold. */
  function RecordAt(reader: Reader, content: seq<Byte>, row: Row): Option<Record> {
    if row.offset + row.length > |content| then None
    else ParseLine(reader, reader.text(content[row.offset..row.offset + row.length]))
  }

  /** Row i is record i: its bytes parse to it and it carries its time. */
  predicate Matches(reader: Reader, content: seq<Byte>, rows: seq<Row>, records: seq<Record>) {
    && |rows| == |records|
    && (forall i | 0 <= i < |rows| ::
          RecordAt(reader, content, rows[i]) == Some(records[i]) && rows[i].at == records[i].at)
  }

  lemma {:induction false} MatchesPush(reader: Reader, content: seq<Byte>, from: nat, at: nat, order: nat,
                                       rows: seq<Row>, records: seq<Record>)
    requires from <= at <= |content| && Matches(reader, content, rows, records)
    ensures var line := content[from..at];
            Matches(reader, content, Push(rows, RowFor(reader, line, from, order)),
                    Push(records, ParseLine(reader, reader.text(line))))
  {
    var line := content[from..at];
    var r := ParseLine(reader, reader.text(line));
    if r.Some? {
      assert RecordAt(reader, content, Row(from, |line|, r.value.at, order)) == r;
    }
  }

  /** Rows come in file order. */
  predicate InOrder(rows: seq<Row>) { forall i, k | 0 <= i < k < |rows| :: rows[i].order < rows[k].order }

  /** Rows found so far are of lines before `order`. */
  predicate Below(rows: seq<Row>, order: nat) { forall i | 0 <= i < |rows| :: rows[i].order < order }

  lemma {:induction false} OffsetsInOrder(reader: Reader, content: seq<Byte>, rows: seq<Row>, from: nat, order: nat)
    requires from <= |content| && InOrder(rows) && Below(rows, order)
    ensures InOrder(Offsets(reader, content, rows, from, order))
    decreases |content| - from
  {
    if from < |content| {
      var at := NextNewline(content, from);
      var next := Push(rows, RowFor(reader, content[from..at], from, order));
      assert InOrder(next) && Below(next, order + 1);
      if at < |content| {
        OffsetsInOrder(reader, content, next, at + 1, order + 1);
      }
    }
  }

  lemma {:induction false} ParsedFirst(reader: Reader, out: seq<Record>, line: seq<nat>, lines: seq<seq<nat>>)
    ensures Parsed(reader, out, [line] + lines) == Parsed(reader, Push(out, ParseLine(reader, line)), lines)
  {
    assert ([line] + lines)[1..] == lines;
  }

  /** The text from one line on splits into that line and the text of the following ones. */
  lemma {:induction false} TextSplits(reader: Reader, content: seq<Byte>, from: nat, at: nat)
    requires KeepsNewlines(reader.text) && from <= |content| && NextNewline(content, from) == at
    ensures at == |content| ==> Split(reader.text(content[from..])) == [reader.text(content[from..at])]
    ensures at < |content| ==>
              Split(reader.text(content[from..])) == [reader.text(content[from..at])] + Split(reader.text(content[at + 1..]))
  {
    var line := content[from..at];
    assert forall i | 0 <= i < |line| :: line[i] == content[from + i];
    if at == |content| {
      assert content[from..] == line;
      SplitLast(reader.text(line));
    } else {
      var next := content[at + 1..];
      assert content[from..] == line + [LF] + next;
      assert CutsAt(reader.text, line, next);
      SplitLine(reader.text(line), reader.text(next));
    }
  }

  /** A relation of rows to records that one line keeps. */
  ghost predicate KeptByLine(reader: Reader, content: seq<Byte>, related: (seq<Row>, seq<Record>) -> bool) {
    forall rows, records, from: nat, order: nat | from <= |content| && related(rows, records) ::
      related(WithRow(reader, content, rows, from, order), WithRecord(reader, content, records, from))
  }

  function LineFrom(content: seq<Byte>, from: nat): seq<Byte>
    requires from <= |content|
  {
    content[from..NextNewline(content, from)]
  }

  function WithRow(reader: Reader, content: seq<Byte>, rows: seq<Row>, from: nat, order: nat): seq<Row>
    requires from <= |content|
  {
    Push(rows, RowFor(reader, LineFrom(content, from), from, order))
  }

  function WithRecord(reader: Reader, content: seq<Byte>, records: seq<Record>, from: nat): seq<Record>
    requires from <= |content|
  {
    Push(records, ParseLine(reader, reader.text(LineFrom(content, from))))
  }

  /** What one line keeps holds between reading by offsets and reading the split text. */
  lemma {:induction false} OffsetsFollow(reader: Reader, content: seq<Byte>, related: (seq<Row>, seq<Record>) -> bool,
                                         rows: seq<Row>, records: seq<Record>, from: nat, order: nat)
    requires KeepsNewlines(reader.text) && from <= |content|
    requires KeptByLine(reader, content, related) && related(rows, records)
    ensures related(Offsets(reader, content, rows, from, order), Parsed(reader, records, Split(reader.text(content[from..]))))
    decreases |content| - from
  {
    var at := NextNewline(content, from);
    ParsedStep(reader, content, records, from, at);
    OffsetsStep(reader, content, rows, from, order);
    if at < |content| {
      OffsetsFollow(reader, content, related, WithRow(reader, content, rows, from, order),
                    WithRecord(reader, content, records, from), at + 1, order + 1);
    }
  }

  /** One line of reading by offsets; the empty last line has no row. */
  lemma {:induction false} OffsetsStep(reader: Reader, content: seq<Byte>, rows: seq<Row>, from: nat, order: nat)
    requires KeepsNewlines(reader.text) && from <= |content|
    ensures var at := NextNewline(content, from);
            var next := WithRow(reader, content, rows, from, order);
            Offsets(reader, content, rows, from, order)
            == if at == |content| then next else Offsets(reader, content, next, at + 1, order + 1)
  {
    if from == |content| {
      assert LineFrom(content, from) == [];
    }
  }

  /** Reading by offsets finds exactly the records of the split text, in order. */
  lemma {:induction false} OffsetsMatch(reader: Reader, content: seq<Byte>)
    requires KeepsNewlines(reader.text)
    ensures Matches(reader, content, AllOffsets(reader, content), Parsed(reader, [], Split(reader.text(content[0..]))))
  {
    var related := (rows: seq<Row>, records: seq<Record>) => Matches(reader, content, rows, records);
    forall rows, records, from: nat, order: nat | from <= |content| && related(rows, records)
      ensures related(WithRow(reader, content, rows, from, order), WithRecord(reader, content, records, from))
    {
      MatchesPush(reader, content, from, NextNewline(content, from), order, rows, records);
    }
    OffsetsFollow(reader, content, related, [], [], 0, 0);
  }

  lemma {:induction false} ParsedStep(reader: Reader, content: seq<Byte>, records: seq<Record>, from: nat, at: nat)
    requires KeepsNewlines(reader.text) && from <= |content| && NextNewline(content, from) == at
    ensures var found := WithRecord(reader, content, records, from);
            Parsed(reader, records, Split(reader.text(content[from..])))
            == if at == |content| then found else Parsed(reader, found, Split(reader.text(content[at + 1..])))
  {
    var text := reader.text(content[from..at]);
    TextSplits(reader, content, from, at);
    if at == |content| {
      ParsedOne(reader, records, text);
    } else {
      ParsedFirst(reader, records, text, Split(reader.text(content[at + 1..])));
    }
  }

  lemma {:induction false} ParsedOne(reader: Reader, out: seq<Record>, line: seq<nat>)
    ensures Parsed(reader, out, [line]) == Push(out, ParseLine(reader, line))
  {
    assert [line][1..] == [];
  }

  /** The tracker's rows are the tracker's records. */
  lemma {:induction false} RowsAreRecords(reader: Reader, content: seq<Byte>)
    requires KeepsNewlines(reader.text)
    ensures Matches(reader, content, AllOffsets(reader, content), ListFeedback(reader, content))
    ensures InOrder(AllOffsets(reader, content))
  {
    assert content[0..] == content;
    OffsetsInOrder(reader, content, [], 0, 0);
    OffsetsMatch(reader, content);
  }

  // ---------------------------------------------------------------- the scanner

  /** `block.indexOf(0x0a, cursor)` over the whole block, stale bytes included. */
  method IndexOfNewline(block: array<Byte>, cursor: nat) returns (at: int)
    requires cursor <= block.Length
    ensures at < 0 ==> forall i | cursor <= i < block.Length :: block[i] != LF
    ensures at >= 0 ==> cursor <= at < block.Length && block[at] == LF && forall i | cursor <= i < at :: block[i] != LF
  {
    for i := cursor to block.Length
      invariant forall k | cursor <= k < i :: block[k] != LF
    {
      if block[i] == LF {
        return i;
      }
    }
    at := -1;
  }

  /** A positive read, possibly short, into the front of the block; the rest of the block
      keeps what it held. */
  method ReadBlock(block: array<Byte>, content: seq<Byte>, offset: nat, short: nat) returns (count: nat)
    requires block.Length > 0 && offset < |content|
    modifies block
    ensures 0 < count <= block.Length && offset + count <= |content|
    ensures block[..count] == content[offset..offset + count]
  {
    var wanted := if block.Length < |content| - offset then block.Length else |content| - offset;
    count := 1 + short % wanted;
    for i := 0 to count
      invariant block[..i] == content[offset..offset + i]
    {
      block[i] := content[offset + i];
      assert block[..i + 1] == block[..i] + [block[i]];
    }
  }

  /** The scanner's variables: rows found, where the current line starts, its number, and
      the bytes of it collected so far. */
  datatype Cursor = Cursor(rows: seq<Row>, lineOffset: nat, order: nat, pieces: seq<Byte>)

  /** The collected pieces are the current line up to `upTo`. */
  predicate Collected(content: seq<Byte>, c: Cursor, upTo: nat) {
    && c.lineOffset <= upTo <= |content|
    && c.pieces == content[c.lineOffset..upTo]
    && (forall i | c.lineOffset <= i < upTo :: content[i] != LF)
  }

  /** Going on from the rows found gives all rows. */
  predicate OnCourse(reader: Reader, content: seq<Byte>, c: Cursor) {
    c.lineOffset <= |content| && Offsets(reader, content, c.rows, c.lineOffset, c.order) == AllOffsets(reader, content)
  }

  /** The scanner's `inspect` at a newline: a row if the collected line parses. */
  function EndLine(reader: Reader, c: Cursor, newline: nat): Cursor {
    Cursor(Push(c.rows, RowFor(reader, c.pieces, c.lineOffset, c.order)), newline + 1, c.order + 1, [])
  }

  function AddPiece(c: Cursor, piece: seq<Byte>): Cursor { c.(pieces := c.pieces + piece) }

  lemma {:induction false} NewlineIs(s: seq<nat>, from: nat, at: nat)
    requires from <= at < |s| && s[at] == LF && forall i | from <= i < at :: s[i] != LF
    ensures NextNewline(s, from) == at
  {
  }

  lemma {:induction false} LineEnds(reader: Reader, content: seq<Byte>, c: Cursor, upTo: nat)
    requires Collected(content, c, upTo) && OnCourse(reader, content, c) && upTo < |content| && content[upTo] == LF
    ensures OnCourse(reader, content, EndLine(reader, c, upTo))
  {
    NewlineIs(content, c.lineOffset, upTo);
  }

  lemma {:induction false} PieceAdded(content: seq<Byte>, c: Cursor, from: nat, to: nat, piece: seq<Byte>)
    requires Collected(content, c, from) && from <= to <= |content| && piece == content[from..to]
    requires forall i | from <= i < to :: content[i] != LF
    ensures Collected(content, AddPiece(c, piece), to)
  {
    assert content[c.lineOffset..to] == content[c.lineOffset..from] + content[from..to];
  }

  /** One piece of a block is collected; if a newline ends it, so is one line. */
  lemma {:induction false} BlockStep(reader: Reader, content: seq<Byte>, block: seq<Byte>, blockOffset: nat,
                                     c: Cursor, from: nat, to: nat)
    requires from <= to <= |block| && blockOffset + |block| <= |content| && block == content[blockOffset..blockOffset + |block|]
    requires forall i | from <= i < to :: block[i] != LF
    requires Collected(content, c, blockOffset + from) && OnCourse(reader, content, c)
    ensures var d := AddPiece(c, block[from..to]);
            && Collected(content, d, blockOffset + to) && OnCourse(reader, content, d)
            && (to < |block| && block[to] == LF ==>
                  Collected(content, EndLine(reader, d, blockOffset + to), blockOffset + to + 1)
                  && OnCourse(reader, content, EndLine(reader, d, blockOffset + to)))
  {
    BlockPiece(block, content, blockOffset, from, to);
    PieceAdded(content, c, blockOffset + from, blockOffset + to, block[from..to]);
    if to < |block| && block[to] == LF {
      BlockPiece(block, content, blockOffset, to, to);
      LineEnds(reader, content, AddPiece(c, block[from..to]), blockOffset + to);
    }
  }

  lemma {:induction false} SamePiece(block: seq<Byte>, count: nat, from: nat, to: nat)
    requires from <= to <= count <= |block|
    ensures block[..count][from..to] == block[from..to]
    ensures forall i | from <= i < count :: block[..count][i] == block[i]
  {
  }

  /** One block: every newline in its first `count` bytes ends a line. */
  method ScanBlock(reader: Reader, content: seq<Byte>, block: array<Byte>, count: nat,
                      blockOffset: nat, start: Cursor) returns (c: Cursor)
    requires count <= block.Length && blockOffset + count <= |content|
    requires block[..count] == content[blockOffset..blockOffset + count]
    requires Collected(content, start, blockOffset) && OnCourse(reader, content, start)
    ensures Collected(content, c, blockOffset + count) && OnCourse(reader, content, c)
  {
    c := start;
    var cursor := 0;
    while true
      invariant cursor <= count && Collected(content, c, blockOffset + cursor)
      invariant OnCourse(reader, content, c)
      decreases count - cursor
    {
      var newline := IndexOfNewline(block, cursor);
      var end := if newline < 0 || newline >= count then count else newline;
      BlockStep(reader, content, block[..count], blockOffset, c, cursor, end);
      SamePiece(block[..], count, cursor, end);
      c := AddPiece(c, block[cursor..end]);
      if end == count {
        return;
      }
      c := EndLine(reader, c, blockOffset + end);
      cursor := end + 1;
    }
  }

  /** scanFeedbackOffsets, for every block size and every sequence of positive short reads. */
  method ScanFeedbackOffsets(reader: Reader, content: seq<Byte>, blockSize: nat,
                                shorts: nat -> nat) returns (rows: seq<Row>)
    requires blockSize > 0
    ensures rows == AllOffsets(reader, content)
  {
    var block := new Byte[blockSize];
    var blockOffset, calls := 0, 0;
    var c := Cursor([], 0, 0, []);
    while blockOffset < |content|
      invariant Collected(content, c, blockOffset) && OnCourse(reader, content, c)
    {
      var count := ReadBlock(block, content, blockOffset, shorts(calls));
      calls := calls + 1;
      c := ScanBlock(reader, content, block, count, blockOffset, c);
      blockOffset := blockOffset + count;
    }
    rows := c.rows;
    if c.lineOffset < |content| {
      assert NextNewline(content, c.lineOffset) == |content|;
      rows := EndLine(reader, c, |content|).rows;
    }
  }

  lemma {:induction false} BlockPiece(block: seq<Byte>, content: seq<Byte>, offset: nat, from: nat, to: nat)
    requires from <= to <= |block| && offset + |block| <= |content| && block == content[offset..offset + |block|]
    requires forall i | from <= i < to :: block[i] != LF
    ensures block[from..to] == content[offset + from..offset + to]
    ensures forall i | offset + from <= i < offset + to :: content[i] != LF
    ensures forall i | 0 <= i < |block| :: content[offset + i] == block[i]
  {
    forall i | offset <= i < offset + |block|
      ensures content[i] == block[i - offset]
    {
      assert content[i] == content[offset..offset + |block|][i - offset];
    }
  }

  /** readFeedbackAt, for every sequence of positive short reads. */
  method ReadFeedbackAt(reader: Reader, content: seq<Byte>, row: Row, shorts: nat -> nat) returns (r: Option<Record>)
    requires row.offset + row.length <= |content|
    ensures r == RecordAt(reader, content, row)
  {
    var bytes: seq<Byte> := [];
    var calls := 0;
    while |bytes| < row.length
      invariant |bytes| <= row.length && bytes == content[row.offset..row.offset + |bytes|]
    {
      var count := 1 + shorts(calls) % (row.length - |bytes|);
      calls := calls + 1;
      bytes := bytes + content[row.offset + |bytes|..row.offset + |bytes| + count];
    }
    r := ParseLine(reader, reader.text(bytes));
  }

  // ---------------------------------------------------------------- the export

  /** Newest first; rows of one time in file order. */
  predicate Newer(a: Row, b: Row) { a.at > b.at || (a.at == b.at && a.order < b.order) }

  function InsertRow(rows: seq<Row>, row: Row): (r: seq<Row>)
    ensures multiset(r) == multiset(rows) + multiset{row}
  {
    if rows == [] || Newer(rows[|rows| - 1], row) then rows + [row] else
      var last := rows[|rows| - 1];
      assert rows == rows[..|rows| - 1] + [last];
      InsertRow(rows[..|rows| - 1], row) + [last]
  }

  function SortNewest(rows: seq<Row>): (r: seq<Row>)
    ensures multiset(r) == multiset(rows)
  {
    if rows == [] then [] else
      assert rows == rows[..|rows| - 1] + [rows[|rows| - 1]];
      InsertRow(SortNewest(rows[..|rows| - 1]), rows[|rows| - 1])
  }

  predicate NewestFirst(rows: seq<Row>) { forall i, k | 0 <= i < k < |rows| :: Newer(rows[i], rows[k]) }

  lemma {:induction false} InsertNewest(rows: seq<Row>, row: Row)
    requires NewestFirst(rows) && forall r | r in rows :: r.order != row.order
    ensures NewestFirst(InsertRow(rows, row))
    ensures forall r :: r in InsertRow(rows, row) <==> r in rows || r == row
  {
    if rows != [] && !Newer(rows[|rows| - 1], row) {
      var last := rows[|rows| - 1];
      var front := rows[..|rows| - 1];
      assert rows == front + [last];
      InsertNewest(front, row);
      var r := InsertRow(front, row);
      forall i | 0 <= i < |r|
        ensures Newer(r[i], last)
      {
        assert r[i] in r;
        if r[i] != row {
          var k :| 0 <= k < |front| && front[k] == r[i];
          assert Newer(rows[k], rows[|rows| - 1]);
        }
      }
    } else if rows != [] {
      var last := rows[|rows| - 1];
      forall i | 0 <= i < |rows|
        ensures Newer(rows[i], row)
      {
        if i < |rows| - 1 {
          assert Newer(rows[i], last);
        }
      }
    }
  }

  lemma {:induction false} SortedNewest(rows: seq<Row>)
    requires InOrder(rows)
    ensures NewestFirst(SortNewest(rows))
    ensures forall r :: r in SortNewest(rows) <==> r in rows
  {
    if rows != [] {
      var front, last := rows[..|rows| - 1], rows[|rows| - 1];
      assert rows == front + [last];
      SortedNewest(front);
      forall r | r in SortNewest(front)
        ensures r.order != last.order
      {
        var i :| 0 <= i < |front| && front[i] == r;
        assert rows[i].order < rows[|rows| - 1].order;
      }
      InsertNewest(SortNewest(front), last);
    }
  }

  /** Reading rows one after the other. */
  function ReadAll(reader: Reader, content: seq<Byte>, rows: seq<Row>): seq<Record> {
    if rows == [] then [] else
      Push(ReadAll(reader, content, rows[..|rows| - 1]), RecordAt(reader, content, rows[|rows| - 1]))
  }

  lemma {:induction false} ReadAllMatches(reader: Reader, content: seq<Byte>, rows: seq<Row>, records: seq<Record>)
    requires Matches(reader, content, rows, records)
    ensures ReadAll(reader, content, rows) == records
  {
    if rows != [] {
      var n := |rows| - 1;
      assert Matches(reader, content, rows[..n], records[..n]);
      ReadAllMatches(reader, content, rows[..n], records[..n]);
    }
  }

  function One(r: Option<Record>): multiset<Record> { if r.Some? then multiset{r.value} else multiset{} }

  /** The records of the rows, in no order. */
  function Bag(reader: Reader, content: seq<Byte>, rows: seq<Row>): multiset<Record> {
    if rows == [] then multiset{}
    else Bag(reader, content, rows[..|rows| - 1]) + One(RecordAt(reader, content, rows[|rows| - 1]))
  }

  lemma {:induction false} ReadAllBag(reader: Reader, content: seq<Byte>, rows: seq<Row>)
    ensures multiset(ReadAll(reader, content, rows)) == Bag(reader, content, rows)
  {
    if rows != [] {
      ReadAllBag(reader, content, rows[..|rows| - 1]);
    }
  }

  lemma {:induction false} BagLast(reader: Reader, content: seq<Byte>, front: seq<Row>, row: Row)
    ensures Bag(reader, content, front + [row]) == Bag(reader, content, front) + One(RecordAt(reader, content, row))
  {
    assert (front + [row])[..|front|] == front;
  }

  lemma {:induction false} BagInsert(reader: Reader, content: seq<Byte>, rows: seq<Row>, row: Row)
    ensures Bag(reader, content, InsertRow(rows, row)) == Bag(reader, content, rows) + One(RecordAt(reader, content, row))
  {
    if rows == [] || Newer(rows[|rows| - 1], row) {
      BagLast(reader, content, rows, row);
    } else {
      var front, last := rows[..|rows| - 1], rows[|rows| - 1];
      BagInsert(reader, content, front, row);
      BagLast(reader, content, InsertRow(front, row), last);
    }
  }

  lemma {:induction false} BagSorted(reader: Reader, content: seq<Byte>, rows: seq<Row>)
    ensures Bag(reader, content, SortNewest(rows)) == Bag(reader, content, rows)
  {
    if rows != [] {
      var front, last := rows[..|rows| - 1], rows[|rows| - 1];
      BagSorted(reader, content, front);
      BagInsert(reader, content, SortNewest(front), last);
    }
  }

  lemma {:induction false} ReadAllSorted(reader: Reader, content: seq<Byte>, rows: seq<Row>)
    ensures multiset(ReadAll(reader, content, SortNewest(rows))) == multiset(ReadAll(reader, content, rows))
  {
    ReadAllBag(reader, content, rows);
    ReadAllBag(reader, content, SortNewest(rows));
    BagSorted(reader, content, rows);
  }

  /** A row whose bytes are inside the file and parse to a record of the row's time. */
  predicate Readable(reader: Reader, content: seq<Byte>, row: Row) {
    && row.offset + row.length <= |content|
    && RecordAt(reader, content, row).Some? && row.at == RecordAt(reader, content, row).value.at
  }

  lemma {:induction false} RowsReadable(reader: Reader, content: seq<Byte>, rows: seq<Row>, records: seq<Record>)
    requires Matches(reader, content, rows, records)
    ensures forall r | r in rows :: Readable(reader, content, r)
  {
    forall r | r in rows
      ensures Readable(reader, content, r)
    {
      var i :| 0 <= i < |rows| && rows[i] == r;
      assert RecordAt(reader, content, rows[i]) == Some(records[i]);
    }
  }

  method ReadRows(reader: Reader, content: seq<Byte>, rows: seq<Row>, shorts: nat -> nat) returns (out: seq<Record>)
    requires forall i | 0 <= i < |rows| :: Readable(reader, content, rows[i])
    ensures out == ReadAll(reader, content, rows) && |out| == |rows|
    ensures forall k | 0 <= k < |rows| :: RecordAt(reader, content, rows[k]) == Some(out[k]) && rows[k].at == out[k].at
  {
    out := [];
    for k := 0 to |rows|
      invariant |out| == k && out == ReadAll(reader, content, rows[..k])
      invariant forall i | 0 <= i < k :: RecordAt(reader, content, rows[i]) == Some(out[i]) && rows[i].at == out[i].at
    {
      assert rows[..k + 1][..k] == rows[..k];
      var r := ReadFeedbackAt(reader, content, rows[k], shorts);
      if r.Some? {
        out := out + [r.value];
      }
    }
    assert rows[..|rows|] == rows;
  }

  /** feedbackExport: for any block size and any short reads, the export reads one row after
      the other in a permutation of the tracker that is newest first and keeps file order
      within one time; row k of that permutation is record k of the export. */
  method FeedbackExport(reader: Reader, content: seq<Byte>, blockSize: nat, shorts: nat -> nat)
    returns (out: seq<Record>, ghost rows: seq<Row>)
    requires blockSize > 0 && KeepsNewlines(reader.text)
    ensures multiset(rows) == multiset(AllOffsets(reader, content)) && NewestFirst(rows) && |out| == |rows|
    ensures forall k | 0 <= k < |rows| :: RecordAt(reader, content, rows[k]) == Some(out[k]) && rows[k].at == out[k].at
    ensures multiset(out) == multiset(ListFeedback(reader, content))
  {
    var scanned := ScanFeedbackOffsets(reader, content, blockSize, shorts);
    RowsAreRecords(reader, content);
    SortedNewest(scanned);
    RowsReadable(reader, content, scanned, ListFeedback(reader, content));
    var sorted := SortNewest(scanned);
    rows := sorted;
    assert forall i | 0 <= i < |sorted| :: sorted[i] in scanned;
    out := ReadRows(reader, content, sorted, shorts);
    ReadAllSorted(reader, content, scanned);
    ReadAllMatches(reader, content, scanned, ListFeedback(reader, content));
  }

  /** The tracker as the Hub reads it: any bytes, decoded as UTF-8. */
  method ExportTracker(json: seq<nat> -> Option<Record>, content: seq<Byte>, blockSize: nat, shorts: nat -> nat)
    returns (out: seq<Record>, ghost rows: seq<Row>)
    requires blockSize > 0
    ensures var reader := Reader(Decoder(), json);
            && multiset(rows) == multiset(AllOffsets(reader, content)) && |out| == |rows|
            && (forall i, k | 0 <= i < k < |out| :: out[i].at > out[k].at || (out[i].at == out[k].at && rows[i].order < rows[k].order))
            && (forall k | 0 <= k < |rows| :: RecordAt(reader, content, rows[k]) == Some(out[k]) && rows[k].at == out[k].at)
    ensures multiset(out) == multiset(ListFeedback(Reader(Decoder(), json), content))
    ensures forall i, k | 0 <= i < k < |out| :: out[i].at >= out[k].at
  {
    DecodingKeepsNewlines();
    out, rows := FeedbackExport(Reader(Decoder(), json), content, blockSize, shorts);
    assert forall i, k | 0 <= i < k < |rows| :: Newer(rows[i], rows[k]);
  }
}
