/**
 * Patches in the unified format ("Diff -u or -U Output Format" of the diff utility, POSIX.1-2017 XCU),
 * printed line by line, and what the side-by-side rows show of them.
 */
module DiffTheorems {
  import opened DiffRows
  import opened Wrappers

  /** A line of a patch: something around the hunks, a hunk header, or one of the three body lines. */
  datatype Item =
    | Meta(line: string)
    | Head(oldStart: nat, oldCount: Option<nat>, newStart: nat, newCount: Option<nat>, section: string)
    | Context(text: string)
    | Removed(text: string)
    | Added(text: string)

  function Decimal(n: nat): (s: string)
    ensures s != "" && IsDigit(s[0])
  {
    var digit := ('0' as int + n % 10) as char;
    if n < 10 then [digit] else Decimal(n / 10) + [digit]
  }

  function RangeText(start: nat, count: Option<nat>): string {
    Decimal(start) + if count.Some? then "," + Decimal(count.value) else ""
  }

  function Print(item: Item): string {
    match item
    case Meta(line) => line
    case Head(oldStart, oldCount, newStart, newCount, section) =>
      "@@ -" + (RangeText(oldStart, oldCount) + (" +" + (RangeText(newStart, newCount) + (" @@" + section))))
    case Context(text) => " " + text
    case Removed(text) => "-" + text
    case Added(text) => "+" + text
  }

  /** Lines around hunks say nothing about either side: they neither start a hunk nor read as body lines. */
  predicate Valid(item: Item) {
    '\n' !in Print(item)
    && (item.Meta? ==>
          MatchHeader(item.line).None? && !StartsWith(item.line, " ")
          && (StartsWith(item.line, "-") || StartsWith(item.line, "+") ==> IsSkipped(item.line)))
  }

  function Join(items: seq<Item>): string
    requires items != []
  {
    if |items| == 1 then Print(items[0]) else Print(items[0]) + ("\n" + Join(items[1..]))
  }

  // ---------------------------------------------------------------- reading a printed line

  lemma {:induction false} DecimalDigits(n: nat)
    ensures forall i :: 0 <= i < |Decimal(n)| ==> IsDigit(Decimal(n)[i])
  {
    if n >= 10 { DecimalDigits(n / 10); }
  }

  lemma {:induction false} SpanStops(s: string, rest: string)
    requires forall i :: 0 <= i < |s| ==> IsDigit(s[i])
    requires rest == "" || !IsDigit(rest[0])
    ensures DigitSpan(s + rest) == |s|
  {
    if s == "" {
      assert s + rest == rest;
    } else {
      assert (s + rest)[1..] == s[1..] + rest;
      SpanStops(s[1..], rest);
    }
  }

  lemma {:induction false} DecimalReads(n: nat)
    ensures DigitSpan(Decimal(n)) == |Decimal(n)| && DecimalValue(Decimal(n)) == n
  {
    DecimalDigits(n);
    SpanStops(Decimal(n), "");
    assert Decimal(n) + "" == Decimal(n);
    var s := Decimal(n);
    if n >= 10 {
      DecimalReads(n / 10);
      assert s[..|s| - 1] == Decimal(n / 10);
    } else {
      assert s[..|s| - 1] == "";
    }
  }

  lemma {:induction false} NumberReads(n: nat, rest: string)
    requires rest == "" || !IsDigit(rest[0])
    ensures var s := Decimal(n) + rest;
            DigitSpan(s) == |Decimal(n)| && s[..DigitSpan(s)] == Decimal(n) && s[DigitSpan(s)..] == rest
  {
    DecimalDigits(n);
    SpanStops(Decimal(n), rest);
  }

  lemma {:induction false} RangeReads(start: nat, count: Option<nat>, rest: string)
    requires rest != "" && rest[0] == ' '
    ensures MatchRange(RangeText(start, count) + rest) == Some((start, rest))
  {
    DecimalReads(start);
    if count.None? {
      assert RangeText(start, count) + rest == Decimal(start) + rest;
      NumberReads(start, rest);
    } else {
      var tail := "," + (Decimal(count.value) + rest);
      assert RangeText(start, count) + rest == Decimal(start) + tail;
      NumberReads(start, tail);
      NumberReads(count.value, rest);
      assert tail[1..] == Decimal(count.value) + rest;
      var n := DigitSpan(tail[1..]);
      assert tail[1 + n..] == tail[1..][n..];
    }
  }

  lemma {:induction false} HeadReads(item: Item)
    requires item.Head?
    ensures Read(Print(item)).header == Some((item.oldStart, item.newStart)) && Marked(Read(Print(item)), '@')
  {
    var end := " @@" + item.section;
    var right := RangeText(item.newStart, item.newCount) + end;
    var middle := " +" + right;
    var left := RangeText(item.oldStart, item.oldCount) + middle;
    var line := Print(item);
    assert line == "@@ -" + left;
    assert line[..4] == "@@ -" && line[4..] == left;
    RangeReads(item.oldStart, item.oldCount, middle);
    assert middle[..2] == " +" && middle[2..] == right;
    RangeReads(item.newStart, item.newCount, end);
    assert end[..3] == " @@";
  }

  lemma {:induction false} PrefixBehindMark(mark: char, text: string, prefix: string)
    requires prefix != ""
    ensures StartsWith([mark] + text, prefix) <==> prefix[0] == mark && StartsWith(text, prefix[1..])
  {
    var line := [mark] + text;
    if |prefix| <= |line| {
      assert line[..|prefix|] == [mark] + text[..|prefix| - 1];
      assert prefix == [prefix[0]] + prefix[1..];
    }
  }

  lemma {:induction false} BodyReads(mark: char, text: string)
    requires mark in {' ', '-', '+'}
    ensures Read([mark] + text) == Line(None, IsSkipped([mark] + text), Some(mark), text)
  {
    PrefixBehindMark(mark, text, "@@ -");
    assert ([mark] + text)[1..] == text;
  }

  lemma {:induction false} BodySkipped(mark: char, text: string)
    requires mark in {' ', '-', '+'}
    ensures IsSkipped([mark] + text) <==> mark != ' ' && StartsWith(text, [mark, mark])
  {
    PrefixBehindMark(mark, text, "---");
    PrefixBehindMark(mark, text, "+++");
    PrefixBehindMark(mark, text, "diff ");
    PrefixBehindMark(mark, text, "index ");
    PrefixBehindMark(mark, text, "\\ No newline");
    assert "---"[1..] == ['-', '-'] && "+++"[1..] == ['+', '+'];
  }

  predicate Opens(text: string, mark: char) { text != "" && text[0] == mark }

  /** What reading the printed item yields, as far as the rows depend on it. */
  predicate Reads(line: Line, item: Item) {
    match item
    case Meta(text) =>
      && line.header.None? && !OpensBlock(line) && (line.skipped || !(Marked(line, ' ') || Marked(line, '+')))
      && (forall mark :: Marked(line, mark) <==> Opens(text, mark))
    case Head(oldStart, _, newStart, _, _) => line.header == Some((oldStart, newStart)) && Marked(line, '@')
    case Context(text) => line == Line(None, false, Some(' '), text)
    case Removed(text) => line == Line(None, StartsWith(text, "--"), Some('-'), text)
    case Added(text) => line == Line(None, StartsWith(text, "++"), Some('+'), text)
  }

  lemma {:induction false} PrintReads(item: Item)
    requires Valid(item)
    ensures Reads(Read(Print(item)), item)
  {
    match item
    case Meta(line) => MetaReads(line);
    case Head(_, _, _, _, _) => HeadReads(item);
    case Context(text) => BodyReads(' ', text); BodySkipped(' ', text);
    case Removed(text) => BodyReads('-', text); BodySkipped('-', text);
    case Added(text) => BodyReads('+', text); BodySkipped('+', text);
  }

  lemma {:induction false} MetaReads(line: string)
    requires Valid(Meta(line))
    ensures Reads(Read(line), Meta(line))
  {
    if line != "" { assert line[..1] == [line[0]]; }
  }

  // ---------------------------------------------------------------- the two sides of a patch

  /** The old side: context and removed lines, numbered from each hunk's first old line. */
  function Left(items: seq<Item>, oldLine: nat): seq<Cell> {
    if items == [] then []
    else
      match items[0]
      case Head(oldStart, _, _, _, _) => Left(items[1..], oldStart)
      case Context(text) => [Cell(oldLine, text, Unchanged)] + Left(items[1..], oldLine + 1)
      case Removed(text) => [Cell(oldLine, text, Deleted)] + Left(items[1..], oldLine + 1)
      case _ => Left(items[1..], oldLine)
  }

  /** The new side: context and added lines, numbered from each hunk's first new line. */
  function Right(items: seq<Item>, newLine: nat): seq<Cell> {
    if items == [] then []
    else
      match items[0]
      case Head(_, _, newStart, _, _) => Right(items[1..], newStart)
      case Context(text) => [Cell(newLine, text, Unchanged)] + Right(items[1..], newLine + 1)
      case Added(text) => [Cell(newLine, text, Inserted)] + Right(items[1..], newLine + 1)
      case _ => Right(items[1..], newLine)
  }

  datatype Side = Original | Current

  function On(row: Row, side: Side): Option<Cell> { if side == Original then row.original else row.current }

  /** The cells shown on one side, top to bottom. */
  function Column(rows: seq<Row>, side: Side): seq<Cell> {
    if rows == [] then []
    else (if On(rows[0], side).Some? then [On(rows[0], side).value] else []) + Column(rows[1..], side)
  }

  /** The removed lines at the front, and the added lines at the front. */
  function RemovedAhead(items: seq<Item>): (n: nat)
    ensures n <= |items| && forall i :: 0 <= i < n ==> items[i].Removed?
    ensures n < |items| ==> !items[n].Removed?
  {
    if items == [] || !items[0].Removed? then 0 else 1 + RemovedAhead(items[1..])
  }

  function AddedAhead(items: seq<Item>): (n: nat)
    ensures n <= |items| && forall i :: 0 <= i < n ==> items[i].Added?
    ensures n < |items| ==> !items[n].Added?
  {
    if items == [] || !items[0].Added? then 0 else 1 + AddedAhead(items[1..])
  }

  /** Where a block at the front ends: behind its added lines. */
  function BlockEnd(items: seq<Item>): (end: nat)
    ensures RemovedAhead(items) <= end <= |items|
  {
    RemovedAhead(items) + AddedAhead(items[RemovedAhead(items)..])
  }

  /**
   * No body line is mistaken for a file header: no change block opens with a removed text that starts
   * with two dashes, and no added text outside a block starts with two pluses.
   */
  predicate Readable(items: seq<Item>)
    decreases |items|
  {
    if items == [] then true
    else if items[0].Removed? then
      !StartsWith(items[0].text, "--") && Readable(items[BlockEnd(items)..])
    else (items[0].Added? ==> !StartsWith(items[0].text, "++")) && Readable(items[1..])
  }

  /** No file header stands where the block before it goes on: behind removed lines alone, or with pluses behind a block. */
  predicate SetApart(items: seq<Item>, r: nat, end: nat)
    requires r <= end <= |items|
  {
    end < |items| && items[end].Meta? ==> !Opens(items[end].line, '+') && (r < end || !Opens(items[end].line, '-'))
  }

  /** Every block that is opened ends before a line that does not read as more of it. */
  predicate Guarded(items: seq<Item>)
    decreases |items|
  {
    if items == [] then true
    else if items[0].Removed? && !StartsWith(items[0].text, "--") then
      SetApart(items, RemovedAhead(items), BlockEnd(items)) && Guarded(items[BlockEnd(items)..])
    else Guarded(items[1..])
  }

  lemma {:induction false} ColumnConcat(a: seq<Row>, b: seq<Row>, side: Side)
    ensures Column(a + b, side) == Column(a, side) + Column(b, side)
  {
    if a == [] {
      assert a + b == b;
    } else {
      var first := if On(a[0], side).Some? then [On(a[0], side).value] else [];
      ColumnConcat(a[1..], b, side);
      assert (a + b)[1..] == a[1..] + b;
      assert Column(a + b, side) == first + Column(a[1..] + b, side);
    }
  }

  /** Pairing keeps both columns. */
  lemma {:induction false} ZipKeepsColumns(removed: seq<Cell>, added: seq<Cell>)
    ensures Column(Zip(removed, added), Original) == removed && Column(Zip(removed, added), Current) == added
    decreases |removed| + |added|
  {
    if removed != [] || added != [] {
      ZipKeepsColumns(Behind(removed, 1), Behind(added, 1));
      assert Zip(removed, added)[1..] == Zip(Behind(removed, 1), Behind(added, 1));
    }
  }

  /** The k-th row pairs the k-th cells of both columns, as far as each goes. */
  lemma {:induction false} ZipPairs(removed: seq<Cell>, added: seq<Cell>, k: nat)
    ensures |Zip(removed, added)| == if |removed| < |added| then |added| else |removed|
    ensures k < |Zip(removed, added)| ==> Zip(removed, added)[k] == Row(At(removed, k), At(added, k))
    ensures At(removed, k) == (if k < |removed| then Some(removed[k]) else None)
    decreases |removed| + |added|
  {
    if removed != [] || added != [] {
      ZipPairs(Behind(removed, 1), Behind(added, 1), if k > 0 then k - 1 else 0);
      assert Zip(removed, added)[1..] == Zip(Behind(removed, 1), Behind(added, 1));
    }
  }

  lemma {:induction false} CellAt(lines: seq<Line>, first: nat, kind: Kind, k: nat)
    requires k < |lines|
    ensures Cells(lines, first, kind)[k] == Cell(first + k, lines[k].text, kind)
  {
    if k > 0 { CellAt(lines[1..], first + 1, kind, k - 1); }
  }

  /** Each row of a change block faces the k-th removed line with the k-th added one, each under its own number. */
  lemma {:induction false} BlockAligns(lines: seq<Line>, r: nat, end: nat, oldLine: nat, newLine: nat, k: nat)
    requires LineBounds(lines, r, end)
    ensures var rows := Block(lines, oldLine, newLine).rows;
            && |rows| == (if r < end - r then end - r else r)
            && (k < |rows| ==>
                  && rows[k].original == (if k < r then Some(Cell(oldLine + k, lines[k].text, Deleted)) else None)
                  && rows[k].current == (if k < end - r then Some(Cell(newLine + k, lines[r + k].text, Inserted)) else None))
  {
    var removed, added := Cells(lines[..r], oldLine, Deleted), Cells(lines[r..end], newLine, Inserted);
    BlockIs(lines, r, end, oldLine, newLine, Block(lines, oldLine, newLine));
    ZipPairs(removed, added, k);
    if k < r { CellAt(lines[..r], oldLine, Deleted, k); }
    if k < end - r { CellAt(lines[r..end], newLine, Inserted, k); }
  }

  lemma {:induction false} LeftOfRemoved(items: seq<Item>, r: nat, lines: seq<Line>, oldLine: nat, newLine: nat)
    requires r <= |items| == |lines| && forall i :: 0 <= i < r ==> items[i].Removed? && lines[i].text == items[i].text
    ensures Left(items, oldLine) == Cells(lines[..r], oldLine, Deleted) + Left(items[r..], oldLine + r)
    ensures Right(items, newLine) == Right(items[r..], newLine)
  {
    if r > 0 {
      LeftOfRemoved(items[1..], r - 1, lines[1..], oldLine + 1, newLine);
      assert items[1..][r - 1..] == items[r..];
      assert lines[..r][1..] == lines[1..][..r - 1];
    } else {
      assert items[r..] == items;
    }
  }

  lemma {:induction false} RightOfAdded(items: seq<Item>, a: nat, lines: seq<Line>, oldLine: nat, newLine: nat)
    requires a <= |items| == |lines| && forall i :: 0 <= i < a ==> items[i].Added? && lines[i].text == items[i].text
    ensures Right(items, newLine) == Cells(lines[..a], newLine, Inserted) + Right(items[a..], newLine + a)
    ensures Left(items, oldLine) == Left(items[a..], oldLine)
  {
    if a > 0 {
      RightOfAdded(items[1..], a - 1, lines[1..], oldLine, newLine + 1);
      assert items[1..][a - 1..] == items[a..];
      assert lines[..a][1..] == lines[1..][..a - 1];
    } else {
      assert items[a..] == items;
    }
  }

  // ---------------------------------------------------------------- rows show both sides

  ghost predicate Matches(lines: seq<Line>, items: seq<Item>) {
    |lines| == |items| && forall i :: 0 <= i < |lines| ==> Reads(lines[i], items[i])
  }

  /** Where a block of body lines ends, set apart, the marks of a block end too. */
  lemma {:induction false} MarksEnd(lines: seq<Line>, items: seq<Item>, r: nat, end: nat)
    requires Matches(lines, items) && Bounds(items, r, end) && SetApart(items, r, end)
    ensures r < |items| ==> !Marked(lines[r], '-')
    ensures end < |items| ==> !Marked(lines[end], '+')
  {
    BehindRuns(items, r, end, items[r..], AddedAhead(items[r..]));
    if r < |items| { assert Reads(lines[r], items[r]); }
    if end < |items| { assert Reads(lines[end], items[end]); }
  }

  /** The item behind the removed lines, when the added ones follow, and the item behind those. */
  lemma {:induction false} BehindRuns(items: seq<Item>, r: nat, end: nat, rest: seq<Item>, a: nat)
    requires r <= |items| && rest == items[r..] && a == AddedAhead(rest) && end == r + a
    ensures r < end ==> items[r].Added?
    ensures end < |items| ==> !items[end].Added?
  {
    if r < end { assert rest[0] == items[r]; }
    if end < |items| { assert rest[a] == items[end]; }
  }

  lemma {:induction false} BlockMarks(lines: seq<Line>, items: seq<Item>, r: nat, end: nat)
    requires Matches(lines, items) && Bounds(items, r, end)
    ensures forall i :: 0 <= i < r ==> Marked(lines[i], '-')
    ensures forall i :: r <= i < end ==> Marked(lines[i], '+')
  {
    forall i | 0 <= i < r ensures Marked(lines[i], '-') {
      assert Reads(lines[i], items[i]);
    }
    forall i | r <= i < end ensures Marked(lines[i], '+') {
      assert items[r..][i - r] == items[i] && Reads(lines[i], items[i]);
    }
  }

  lemma {:induction false} NumberingKeepsLength(items: seq<Item>, m: nat, n: nat)
    ensures |Left(items, m)| == |Left(items, n)| && |Right(items, m)| == |Right(items, n)|
  {
    if items != [] {
      var rest := items[1..];
      NumberingKeepsLength(rest, m, n);
      NumberingKeepsLength(rest, m + 1, n + 1);
    }
  }

  datatype Verdict = Exact | Fewer | More

  /** Rows show exactly these two sides, or fewer cells than both sides have, or more. */
  predicate Shows(rows: seq<Row>, left: seq<Cell>, right: seq<Cell>, verdict: Verdict) {
    var shown := |Column(rows, Original)| + |Column(rows, Current)|;
    match verdict
    case Exact => Column(rows, Original) == left && Column(rows, Current) == right
    case Fewer => shown < |left| + |right|
    case More => shown > |left| + |right|
  }

  lemma {:induction false} ShowsBehind(front: seq<Row>, rows: seq<Row>, left: seq<Cell>, right: seq<Cell>, verdict: Verdict)
    requires Shows(rows, left, right, verdict)
    ensures Shows(front + rows, Column(front, Original) + left, Column(front, Current) + right, verdict)
  {
    ColumnConcat(front, rows, Original);
    ColumnConcat(front, rows, Current);
  }

  lemma {:induction false} RowsOfStep(lines: seq<Line>, oldLine: nat, newLine: nat, step: Advance, rest: seq<Line>)
    requires lines != [] && step == Next(lines, oldLine, newLine) && rest == lines[step.used..]
    ensures Rows(lines, oldLine, newLine) == step.rows + Rows(rest, step.oldLine, step.newLine)
  {
  }

  lemma {:induction false} RowsOfSingle(lines: seq<Line>, oldLine: nat, newLine: nat, one: Advance, rest: seq<Line>)
    requires lines != [] && !OpensBlock(lines[0]) && one == Single(lines[0], oldLine, newLine) && rest == lines[1..]
    ensures Rows(lines, oldLine, newLine) == one.rows + Rows(rest, one.oldLine, one.newLine)
  {
    RowsOfStep(lines, oldLine, newLine, one, rest);
  }

  /** Where the removed lines of a block end, and where its added lines end. */
  ghost predicate LineBounds(lines: seq<Line>, r: nat, end: nat) {
    r <= end <= |lines| && r == Run('-', lines) && end - r == Run('+', lines[r..])
  }

  ghost predicate Bounds(items: seq<Item>, r: nat, end: nat) {
    r == RemovedAhead(items) && end == BlockEnd(items)
  }

  lemma {:induction false} BlockIs(lines: seq<Line>, r: nat, end: nat, oldLine: nat, newLine: nat, block: Advance)
    requires LineBounds(lines, r, end) && block == Block(lines, oldLine, newLine)
    ensures block.rows == Zip(Cells(lines[..r], oldLine, Deleted), Cells(lines[r..end], newLine, Inserted))
    ensures block.used == end && block.oldLine == oldLine + r && block.newLine == newLine + (end - r)
  {
  }

  lemma {:induction false} OneRow(row: Row)
    ensures Column([row], Original) == (if row.original.Some? then [row.original.value] else [])
    ensures Column([row], Current) == (if row.current.Some? then [row.current.value] else [])
  {
    assert [row][1..] == [];
  }

  lemma {:induction false} SingleSides(line: Line, items: seq<Item>, oldLine: nat, newLine: nat, one: Advance)
    requires items != [] && Reads(line, items[0]) && !items[0].Removed? && (items[0].Added? ==> !line.skipped)
    requires one == Single(line, oldLine, newLine)
    ensures Left(items, oldLine) == Column(one.rows, Original) + Left(items[1..], one.oldLine)
    ensures Right(items, newLine) == Column(one.rows, Current) + Right(items[1..], one.newLine)
  {
    if one.rows != [] { OneRow(one.rows[0]); }
  }

  /** A line that is taken for what it is adds its cells to both columns. */
  lemma {:induction false} SingleShows(lines: seq<Line>, items: seq<Item>, oldLine: nat, newLine: nat, verdict: Verdict)
    requires items != [] && |lines| == |items| && Reads(lines[0], items[0]) && !items[0].Removed?
    requires items[0].Added? ==> !lines[0].skipped
    requires var one := Single(lines[0], oldLine, newLine);
             Shows(Rows(lines[1..], one.oldLine, one.newLine),
                   Left(items[1..], one.oldLine), Right(items[1..], one.newLine), verdict)
    ensures Shows(Rows(lines, oldLine, newLine), Left(items, oldLine), Right(items, newLine), verdict)
  {
    var one := Single(lines[0], oldLine, newLine);
    RowsOfSingle(lines, oldLine, newLine, one, lines[1..]);
    SingleSides(lines[0], items, oldLine, newLine, one);
    ShowsBehind(one.rows, Rows(lines[1..], one.oldLine, one.newLine),
                Left(items[1..], one.oldLine), Right(items[1..], one.newLine), verdict);
  }

  lemma {:induction false} RowsOfSkipped(lines: seq<Line>, oldLine: nat, newLine: nat)
    requires lines != [] && lines[0].header.None? && lines[0].skipped
    ensures Rows(lines, oldLine, newLine) == Rows(lines[1..], oldLine, newLine)
  {
    RowsOfSingle(lines, oldLine, newLine, Advance([], 1, oldLine, newLine), lines[1..]);
  }

  lemma {:induction false} LengthsGrow(items: seq<Item>, oldLine: nat, newLine: nat)
    requires items != [] && (items[0].Removed? || items[0].Added?)
    ensures |Left(items, oldLine)| + |Right(items, newLine)|
      == 1 + |Left(items[1..], oldLine)| + |Right(items[1..], newLine)|
  {
    NumberingKeepsLength(items[1..], oldLine, oldLine + 1);
    NumberingKeepsLength(items[1..], newLine, newLine + 1);
  }

  /** A line that is skipped although it belongs to a side costs that side a cell. */
  lemma {:induction false} LostShows(lines: seq<Line>, items: seq<Item>, oldLine: nat, newLine: nat, verdict: Verdict)
    requires items != [] && |lines| == |items| && Reads(lines[0], items[0]) && verdict != More
    requires (items[0].Removed? || items[0].Added?) && lines[0].skipped
    requires Shows(Rows(lines[1..], oldLine, newLine), Left(items[1..], oldLine), Right(items[1..], newLine), verdict)
    ensures Shows(Rows(lines, oldLine, newLine), Left(items, oldLine), Right(items, newLine), Fewer)
  {
    LengthsGrow(items, oldLine, newLine);
    RowsOfSkipped(lines, oldLine, newLine);
  }

  lemma {:induction false} ZipShows(removed: seq<Cell>, added: seq<Cell>, later: seq<Row>,
                                    left: seq<Cell>, right: seq<Cell>, verdict: Verdict)
    requires Shows(later, left, right, verdict)
    ensures Shows(Zip(removed, added) + later, removed + left, added + right, verdict)
  {
    ZipKeepsColumns(removed, added);
    ShowsBehind(Zip(removed, added), later, left, right, verdict);
  }

  lemma {:induction false} BlockOpens(lines: seq<Line>, items: seq<Item>)
    requires Matches(lines, items) && items != [] && items[0].Removed? && !lines[0].skipped
    ensures OpensBlock(lines[0])
  {
    assert Reads(lines[0], items[0]);
  }

  lemma {:induction false} RunsAre(lines: seq<Line>, items: seq<Item>, r: nat, end: nat)
    requires Matches(lines, items) && items != [] && items[0].Removed? && !lines[0].skipped
    requires Bounds(items, r, end) && SetApart(items, r, end)
    ensures OpensBlock(lines[0]) && 0 < r && LineBounds(lines, r, end)
  {
    BlockOpens(lines, items);
    BlockMarks(lines, items, r, end);
    MarksEnd(lines, items, r, end);
    RunIs('-', lines, 0, r);
    assert lines[0..] == lines;
    RunIs('+', lines, r, end);
  }

  /** The rows of a block and those behind it. */
  lemma {:induction false} RowsSplit(lines: seq<Line>, r: nat, end: nat, oldLine: nat, newLine: nat,
                                     block: Advance, later: seq<Row>)
    requires lines != [] && OpensBlock(lines[0]) && 0 < r && LineBounds(lines, r, end)
    requires block == Block(lines, oldLine, newLine)
    requires later == Rows(lines[end..], block.oldLine, block.newLine)
    ensures Rows(lines, oldLine, newLine) == block.rows + later
  {
    BlockIs(lines, r, end, oldLine, newLine, block);
    RowsOfStep(lines, oldLine, newLine, block, lines[end..]);
  }

  lemma {:induction false} BlockShows(lines: seq<Line>, items: seq<Item>, r: nat, end: nat, oldLine: nat, newLine: nat,
                                      block: Advance, later: seq<Row>, verdict: Verdict)
    requires Matches(lines, items) && Bounds(items, r, end) && LineBounds(lines, r, end)
    requires block == Block(lines, oldLine, newLine)
    requires Shows(later, Left(items[end..], block.oldLine), Right(items[end..], block.newLine), verdict)
    ensures Shows(block.rows + later, Left(items, oldLine), Right(items, newLine), verdict)
  {
    BlockIs(lines, r, end, oldLine, newLine, block);
    BlockColumns(lines, items, r, end, oldLine, newLine, block.oldLine, block.newLine);
    ZipShows(Cells(lines[..r], oldLine, Deleted), Cells(lines[r..end], newLine, Inserted), later,
             Left(items[end..], block.oldLine), Right(items[end..], block.newLine), verdict);
  }

  lemma {:induction false} SameTexts(lines: seq<Line>, items: seq<Item>, k: nat, n: nat)
    requires Matches(lines, items) && k + n <= |items|
    requires forall i :: k <= i < k + n ==> items[i].Removed? || items[i].Added?
    ensures forall i :: 0 <= i < n ==> lines[k..][i].text == items[k..][i].text
  {
    forall i | 0 <= i < n ensures lines[k..][i].text == items[k..][i].text {
      assert Reads(lines[k + i], items[k + i]);
    }
  }

  lemma {:induction false} RemovedColumn(lines: seq<Line>, items: seq<Item>, r: nat, oldLine: nat, newLine: nat, oldNext: nat)
    requires Matches(lines, items) && r == RemovedAhead(items) && oldNext == oldLine + r
    ensures Left(items, oldLine) == Cells(lines[..r], oldLine, Deleted) + Left(items[r..], oldNext)
    ensures Right(items, newLine) == Right(items[r..], newLine)
  {
    assert items[0..] == items && lines[0..] == lines;
    SameTexts(lines, items, 0, r);
    LeftOfRemoved(items, r, lines, oldLine, newLine);
  }

  lemma {:induction false} AddedColumn(lines: seq<Line>, items: seq<Item>, r: nat, end: nat,
                                       oldLine: nat, newLine: nat, newNext: nat)
    requires Matches(lines, items) && r <= end <= |items| && end - r == AddedAhead(items[r..])
    requires newNext == newLine + (end - r)
    ensures Left(items[r..], oldLine) == Left(items[end..], oldLine)
    ensures Right(items[r..], newLine) == Cells(lines[r..end], newLine, Inserted) + Right(items[end..], newNext)
  {
    var rest, tail, a := items[r..], lines[r..], end - r;
    AddedTexts(lines, items, r, end, rest, tail, a);
    AddedSides(rest, a, tail, lines[r..end], items[end..], oldLine, newLine, newNext);
  }

  lemma {:induction false} AddedSides(rest: seq<Item>, a: nat, tail: seq<Line>, added: seq<Line>, back: seq<Item>,
                                      oldLine: nat, newLine: nat, newNext: nat)
    requires a <= |rest| == |tail| && forall i :: 0 <= i < a ==> rest[i].Added? && tail[i].text == rest[i].text
    requires added == tail[..a] && back == rest[a..] && newNext == newLine + a
    ensures Left(rest, oldLine) == Left(back, oldLine)
    ensures Right(rest, newLine) == Cells(added, newLine, Inserted) + Right(back, newNext)
  {
    RightOfAdded(rest, a, tail, oldLine, newLine);
  }

  lemma {:induction false} AddedTexts(lines: seq<Line>, items: seq<Item>, r: nat, end: nat,
                                      rest: seq<Item>, tail: seq<Line>, a: nat)
    requires Matches(lines, items) && r <= end <= |items| && a == end - r && a == AddedAhead(items[r..])
    requires rest == items[r..] && tail == lines[r..]
    ensures forall i :: 0 <= i < a ==> rest[i].Added? && tail[i].text == rest[i].text
    ensures tail[..a] == lines[r..end] && rest[a..] == items[end..]
  {
    forall i | r <= i < end ensures items[i].Added? {
      assert items[i] == rest[i - r];
    }
    SameTexts(lines, items, r, a);
  }

  lemma {:induction false} BlockColumns(lines: seq<Line>, items: seq<Item>, r: nat, end: nat,
                                        oldLine: nat, newLine: nat, oldNext: nat, newNext: nat)
    requires Matches(lines, items) && Bounds(items, r, end)
    requires oldNext == oldLine + r && newNext == newLine + (end - r)
    ensures Left(items, oldLine) == Cells(lines[..r], oldLine, Deleted) + Left(items[end..], oldNext)
    ensures Right(items, newLine) == Cells(lines[r..end], newLine, Inserted) + Right(items[end..], newNext)
  {
    RemovedColumn(lines, items, r, oldLine, newLine, oldNext);
    AddedColumn(lines, items, r, end, oldNext, newLine, newNext);
  }

  lemma {:induction false} MatchesFrom(lines: seq<Line>, items: seq<Item>, k: nat)
    requires k <= |items| && Matches(lines, items)
    ensures Matches(lines[k..], items[k..])
  {
    var rest := items[k..];
    assert forall i :: 0 <= i < |rest| ==> rest[i] == items[k + i] && lines[k..][i] == lines[k + i];
  }

  lemma {:induction false} GuardedBlock(items: seq<Item>, r: nat, end: nat)
    requires items != [] && items[0].Removed? && !StartsWith(items[0].text, "--") && Bounds(items, r, end)
    ensures 0 < r && (Guarded(items) <==> SetApart(items, r, end) && Guarded(items[end..]))
  {
  }

  lemma {:induction false} GuardedSingle(items: seq<Item>)
    requires items != [] && (items[0].Removed? ==> StartsWith(items[0].text, "--"))
    ensures Guarded(items) <==> Guarded(items[1..])
  {
  }

  lemma {:induction false} ReadableBlock(items: seq<Item>, r: nat, end: nat)
    requires items != [] && items[0].Removed? && !StartsWith(items[0].text, "--") && Bounds(items, r, end)
    ensures 0 < r && (Readable(items) <==> Readable(items[end..]))
  {
  }

  lemma {:induction false} ReadableSingle(items: seq<Item>)
    requires items != [] && !items[0].Removed? && (items[0].Added? ==> !StartsWith(items[0].text, "++"))
    ensures Readable(items) <==> Readable(items[1..])
  {
  }

  lemma {:induction false} NotReadable(items: seq<Item>)
    requires items != []
    requires (items[0].Removed? && StartsWith(items[0].text, "--")) || (items[0].Added? && StartsWith(items[0].text, "++"))
    ensures !Readable(items)
  {
  }

  function WhenReadable(items: seq<Item>): Verdict { if Readable(items) then Exact else Fewer }

  lemma {:induction false} LostCase(lines: seq<Line>, items: seq<Item>, oldLine: nat, newLine: nat)
    requires Matches(lines, items) && Guarded(items) && items != []
    requires (items[0].Removed? || items[0].Added?) && lines[0].skipped
    ensures Shows(Rows(lines, oldLine, newLine), Left(items, oldLine), Right(items, newLine), WhenReadable(items))
    decreases |items|, 0
  {
    assert Reads(lines[0], items[0]);
    MatchesFrom(lines, items, 1);
    GuardedSingle(items);
    RowsShowSides(lines[1..], items[1..], oldLine, newLine);
    NotReadable(items);
    LostShows(lines, items, oldLine, newLine, WhenReadable(items[1..]));
  }

  lemma {:induction false} RowsBehind(lines: seq<Line>, items: seq<Item>, k: nat, oldLine: nat, newLine: nat)
    requires Matches(lines, items) && 0 < k <= |items| && Guarded(items[k..])
    ensures Shows(Rows(lines[k..], oldLine, newLine),
                  Left(items[k..], oldLine), Right(items[k..], newLine), WhenReadable(items[k..]))
    decreases |items|, 0
  {
    MatchesFrom(lines, items, k);
    RowsShowSides(lines[k..], items[k..], oldLine, newLine);
  }

  lemma {:induction false} BlockCaseAt(lines: seq<Line>, items: seq<Item>, r: nat, end: nat, oldLine: nat, newLine: nat,
                                       block: Advance, later: seq<Row>, verdict: Verdict)
    requires Matches(lines, items) && items != [] && items[0].Removed? && !lines[0].skipped
    requires Bounds(items, r, end) && SetApart(items, r, end) && block == Block(lines, oldLine, newLine)
    requires later == Rows(lines[end..], block.oldLine, block.newLine)
    requires Shows(later, Left(items[end..], block.oldLine), Right(items[end..], block.newLine), verdict)
    ensures Shows(Rows(lines, oldLine, newLine), Left(items, oldLine), Right(items, newLine), verdict)
  {
    RunsAre(lines, items, r, end);
    RowsSplit(lines, r, end, oldLine, newLine, block, later);
    BlockShows(lines, items, r, end, oldLine, newLine, block, later, verdict);
  }

  lemma {:induction false} BlockCase(lines: seq<Line>, items: seq<Item>, r: nat, end: nat, oldLine: nat, newLine: nat,
                                     block: Advance)
    requires Matches(lines, items) && Guarded(items) && items != [] && items[0].Removed? && !lines[0].skipped
    requires Bounds(items, r, end) && block == Block(lines, oldLine, newLine)
    ensures Shows(Rows(lines, oldLine, newLine), Left(items, oldLine), Right(items, newLine), WhenReadable(items))
    decreases |items|, 1
  {
    assert Reads(lines[0], items[0]);
    ReadableBlock(items, r, end);
    GuardedBlock(items, r, end);
    RowsBehind(lines, items, end, block.oldLine, block.newLine);
    BlockCaseAt(lines, items, r, end, oldLine, newLine, block, Rows(lines[end..], block.oldLine, block.newLine),
                WhenReadable(items));
  }

  lemma {:induction false} SingleCase(lines: seq<Line>, items: seq<Item>, oldLine: nat, newLine: nat)
    requires Matches(lines, items) && Guarded(items) && items != [] && !items[0].Removed?
    requires items[0].Added? ==> !lines[0].skipped
    ensures Shows(Rows(lines, oldLine, newLine), Left(items, oldLine), Right(items, newLine), WhenReadable(items))
    decreases |items|, 0
  {
    assert Reads(lines[0], items[0]);
    var one := Single(lines[0], oldLine, newLine);
    MatchesFrom(lines, items, 1);
    ReadableSingle(items);
    GuardedSingle(items);
    RowsShowSides(lines[1..], items[1..], one.oldLine, one.newLine);
    SingleShows(lines, items, oldLine, newLine, WhenReadable(items));
  }

  /** With the blocks guarded, rows show both sides exactly when the patch is readable, and fewer cells otherwise. */
  lemma {:induction false} RowsShowSides(lines: seq<Line>, items: seq<Item>, oldLine: nat, newLine: nat)
    requires Matches(lines, items) && Guarded(items)
    ensures Shows(Rows(lines, oldLine, newLine), Left(items, oldLine), Right(items, newLine), WhenReadable(items))
    decreases |items|, 2
  {
    if items != [] {
      if (items[0].Removed? || items[0].Added?) && lines[0].skipped {
        LostCase(lines, items, oldLine, newLine);
      } else if items[0].Removed? {
        var r := RemovedAhead(items);
        BlockCase(lines, items, r, BlockEnd(items), oldLine, newLine, Block(lines, oldLine, newLine));
      } else {
        SingleCase(lines, items, oldLine, newLine);
      }
    }
  }

  // ---------------------------------------------------------------- swallowed headers

  lemma {:induction false} RunCovers(mark: char, lines: seq<Line>, start: nat, k: nat)
    requires start <= k < |lines| && forall i :: start <= i <= k ==> Marked(lines[i], mark)
    ensures Run(mark, lines[start..]) > k - start
    decreases k - start
  {
    assert lines[start..][1..] == lines[start + 1..];
    if start < k { RunCovers(mark, lines, start + 1, k); }
  }

  lemma {:induction false} RunMarked(mark: char, lines: seq<Line>)
    ensures forall i :: 0 <= i < Run(mark, lines) ==> Marked(lines[i], mark)
    ensures Run(mark, lines) < |lines| ==> !Marked(lines[Run(mark, lines)], mark)
  {
    if Run(mark, lines) > 0 { RunMarked(mark, lines[1..]); }
  }

  /** A header that is not set apart is taken into the block. */
  lemma {:induction false} HeaderIsTaken(lines: seq<Line>, items: seq<Item>, r: nat, end: nat, taken: nat, takenEnd: nat)
    requires Matches(lines, items) && items != [] && items[0].Removed?
    requires Bounds(items, r, end) && !SetApart(items, r, end) && LineBounds(lines, taken, takenEnd)
    ensures end < takenEnd && items[end].Meta?
  {
    BlockMarks(lines, items, r, end);
    assert Reads(lines[end], items[end]);
    assert lines[0..] == lines;
    if Opens(items[end].line, '+') {
      RunIs('-', lines, 0, r);
      RunCovers('+', lines, r, end);
    } else {
      RunCovers('-', lines, 0, end);
    }
  }

  /** The lines of a block are removed or added lines, or headers taken for such. */
  ghost predicate Taken(items: seq<Item>, k: nat)
    requires k <= |items|
  {
    forall i :: 0 <= i < k ==> items[i].Removed? || items[i].Added? || items[i].Meta?
  }

  lemma {:induction false} BlockTakes(lines: seq<Line>, items: seq<Item>, r: nat, end: nat)
    requires Matches(lines, items) && LineBounds(lines, r, end)
    ensures Taken(items, end)
    ensures forall i :: 0 <= i < r ==> Marked(lines[i], '-')
    ensures forall i :: r <= i < end ==> Marked(lines[i], '+')
    ensures end < |items| ==> !Marked(lines[end], '+') && (r < end || !Marked(lines[end], '-'))
  {
    RunMarked('-', lines);
    RunMarked('+', lines[r..]);
    forall i | r <= i < end ensures Marked(lines[i], '+') {
      assert lines[i] == lines[r..][i - r];
    }
    if end < |items| { assert lines[end] == lines[r..][end - r]; }
    forall i | 0 <= i < end ensures items[i].Removed? || items[i].Added? || items[i].Meta? {
      assert Reads(lines[i], items[i]);
    }
  }

  /** A position no block of body lines reaches across. */
  predicate Boundary(items: seq<Item>, k: nat)
    requires k <= |items|
  {
    0 < k < |items| ==>
      && !(items[k].Removed? && items[k - 1].Removed?)
      && !(items[k].Added? && (items[k - 1].Removed? || items[k - 1].Added?))
  }

  lemma {:induction false} BlockEndsAtBoundary(lines: seq<Line>, items: seq<Item>, r: nat, end: nat)
    requires Matches(lines, items) && LineBounds(lines, r, end) && 0 < r
    ensures Boundary(items, end)
  {
    BlockTakes(lines, items, r, end);
    if end < |items| {
      assert Reads(lines[end], items[end]) && Reads(lines[end - 1], items[end - 1]);
    }
  }

  lemma {:induction false} ReadableFrom(items: seq<Item>, k: nat)
    requires Readable(items) && k <= |items| && Boundary(items, k)
    ensures Readable(items[k..])
    decreases |items|, 0
  {
    if k == 0 {
      assert items[k..] == items;
    } else if items[0].Removed? {
      var r := RemovedAhead(items);
      var end := BlockEnd(items);
      ReadableBlock(items, r, end);
      WithinBlock(items, r, end, k);
      ReadableOn(items, end, k);
    } else {
      ReadableSingle(items);
      ReadableOn(items, 1, k);
    }
  }

  lemma {:induction false} ReadableOn(items: seq<Item>, step: nat, k: nat)
    requires 0 < step <= k <= |items| && Readable(items[step..]) && Boundary(items, k)
    ensures Readable(items[k..])
    decreases |items| - step, 1
  {
    var rest := items[step..];
    assert rest[k - step..] == items[k..];
    if k - step > 0 && k < |items| { assert rest[k - step] == items[k] && rest[k - step - 1] == items[k - 1]; }
    ReadableFrom(rest, k - step);
  }

  /** Inside a block there is no boundary. */
  lemma {:induction false} WithinBlock(items: seq<Item>, r: nat, end: nat, k: nat)
    requires Bounds(items, r, end) && 0 < r && 0 < k <= |items| && Boundary(items, k)
    ensures end <= k
  {
    assert forall i :: r <= i < end ==> items[i] == items[r..][i - r];
  }

  /** Lines taken into a block make a cell each; headers among them belong to neither side. */
  lemma {:induction false} TakenCells(items: seq<Item>, k: nat, oldLine: nat, newLine: nat, oldNext: nat, newNext: nat)
    requires k <= |items| && Taken(items, k)
    ensures |Left(items, oldLine)| + |Right(items, newLine)|
      <= k + |Left(items[k..], oldNext)| + |Right(items[k..], newNext)|
    ensures (exists i :: 0 <= i < k && items[i].Meta?) ==>
      |Left(items, oldLine)| + |Right(items, newLine)| < k + |Left(items[k..], oldNext)| + |Right(items[k..], newNext)|
  {
    if k == 0 {
      assert items[k..] == items;
      NumberingKeepsLength(items, oldLine, oldNext);
      NumberingKeepsLength(items, newLine, newNext);
    } else {
      assert items[1..][k - 1..] == items[k..];
      assert forall i :: 1 <= i < k ==> items[i] == items[1..][i - 1];
      TakenCells(items[1..], k - 1, oldLine, newLine, oldNext, newNext);
      if items[0].Meta? {
        assert Left(items, oldLine) == Left(items[1..], oldLine) && Right(items, newLine) == Right(items[1..], newLine);
      } else {
        LengthsGrow(items, oldLine, newLine);
      }
    }
  }

  /** A block that takes a header in shows more cells than both sides have. */
  lemma {:induction false} SwallowingShows(lines: seq<Line>, items: seq<Item>, r: nat, end: nat, meta: nat,
                                           oldLine: nat, newLine: nat, block: Advance, later: seq<Row>, verdict: Verdict)
    requires Matches(lines, items) && LineBounds(lines, r, end) && block == Block(lines, oldLine, newLine)
    requires Taken(items, end) && meta < end && items[meta].Meta? && verdict != Fewer
    requires Shows(later, Left(items[end..], block.oldLine), Right(items[end..], block.newLine), verdict)
    ensures Shows(block.rows + later, Left(items, oldLine), Right(items, newLine), More)
  {
    var removed, added := Cells(lines[..r], oldLine, Deleted), Cells(lines[r..end], newLine, Inserted);
    BlockIs(lines, r, end, oldLine, newLine, block);
    ZipKeepsColumns(removed, added);
    ColumnConcat(block.rows, later, Original);
    ColumnConcat(block.rows, later, Current);
    TakenCells(items, end, oldLine, newLine, block.oldLine, block.newLine);
  }

  function WhenGuarded(items: seq<Item>): Verdict { if Guarded(items) then Exact else More }

  lemma {:induction false} MoreBehind(lines: seq<Line>, items: seq<Item>, k: nat, oldLine: nat, newLine: nat)
    requires Matches(lines, items) && 0 < k <= |items| && Readable(items[k..])
    ensures Shows(Rows(lines[k..], oldLine, newLine),
                  Left(items[k..], oldLine), Right(items[k..], newLine), WhenGuarded(items[k..]))
    decreases |items|, 0
  {
    MatchesFrom(lines, items, k);
    RowsShowNoLess(lines[k..], items[k..], oldLine, newLine);
  }

  lemma {:induction false} SwallowingCase(lines: seq<Line>, items: seq<Item>, r: nat, end: nat, taken: nat, takenEnd: nat,
                                          oldLine: nat, newLine: nat, block: Advance)
    requires Matches(lines, items) && Readable(items) && items != [] && items[0].Removed? && OpensBlock(lines[0])
    requires Bounds(items, r, end) && !SetApart(items, r, end)
    requires LineBounds(lines, taken, takenEnd) && 0 < taken && block == Block(lines, oldLine, newLine)
    ensures Shows(Rows(lines, oldLine, newLine), Left(items, oldLine), Right(items, newLine), More)
    decreases |items|, 1
  {
    BlockTakes(lines, items, taken, takenEnd);
    BlockEndsAtBoundary(lines, items, taken, takenEnd);
    ReadableFrom(items, takenEnd);
    HeaderIsTaken(lines, items, r, end, taken, takenEnd);
    MoreBehind(lines, items, takenEnd, block.oldLine, block.newLine);
    var later := Rows(lines[takenEnd..], block.oldLine, block.newLine);
    RowsSplit(lines, taken, takenEnd, oldLine, newLine, block, later);
    SwallowingShows(lines, items, taken, takenEnd, end, oldLine, newLine, block, later, WhenGuarded(items[takenEnd..]));
  }

  lemma {:induction false} ReadableBlockCase(lines: seq<Line>, items: seq<Item>, r: nat, end: nat,
                                             oldLine: nat, newLine: nat, block: Advance)
    requires Matches(lines, items) && Readable(items) && items != [] && items[0].Removed? && !lines[0].skipped
    requires Bounds(items, r, end) && block == Block(lines, oldLine, newLine)
    ensures Shows(Rows(lines, oldLine, newLine), Left(items, oldLine), Right(items, newLine), WhenGuarded(items))
    decreases |items|, 2
  {
    assert Reads(lines[0], items[0]);
    ReadableBlock(items, r, end);
    GuardedBlock(items, r, end);
    if SetApart(items, r, end) {
      MoreBehind(lines, items, end, block.oldLine, block.newLine);
      BlockCaseAt(lines, items, r, end, oldLine, newLine, block, Rows(lines[end..], block.oldLine, block.newLine),
                  WhenGuarded(items));
    } else {
      BlockOpens(lines, items);
      var taken := Run('-', lines);
      SwallowingCase(lines, items, r, end, taken, taken + Run('+', lines[taken..]), oldLine, newLine, block);
    }
  }

  lemma {:induction false} ReadableSingleCase(lines: seq<Line>, items: seq<Item>, oldLine: nat, newLine: nat)
    requires Matches(lines, items) && Readable(items) && items != [] && !items[0].Removed?
    ensures Shows(Rows(lines, oldLine, newLine), Left(items, oldLine), Right(items, newLine), WhenGuarded(items))
    decreases |items|, 0
  {
    assert Reads(lines[0], items[0]);
    var one := Single(lines[0], oldLine, newLine);
    MatchesFrom(lines, items, 1);
    ReadableSingle(items);
    GuardedSingle(items);
    RowsShowNoLess(lines[1..], items[1..], one.oldLine, one.newLine);
    SingleShows(lines, items, oldLine, newLine, WhenGuarded(items));
  }

  /** Of a readable patch rows show both sides exactly when the blocks are guarded, and more cells otherwise. */
  lemma {:induction false} RowsShowNoLess(lines: seq<Line>, items: seq<Item>, oldLine: nat, newLine: nat)
    requires Matches(lines, items) && Readable(items)
    ensures Shows(Rows(lines, oldLine, newLine), Left(items, oldLine), Right(items, newLine), WhenGuarded(items))
    decreases |items|, 3
  {
    if items != [] {
      assert Reads(lines[0], items[0]);
      if items[0].Removed? {
        var r := RemovedAhead(items);
        ReadableBlockCase(lines, items, r, BlockEnd(items), oldLine, newLine, Block(lines, oldLine, newLine));
      } else {
        ReadableSingleCase(lines, items, oldLine, newLine);
      }
    }
  }

  // ---------------------------------------------------------------- whole patches

  lemma {:induction false} SplitLine(line: string, rest: string)
    requires '\n' !in line
    ensures Split(line) == [line]
    ensures Split(line + ("\n" + rest)) == [line] + Split(rest)
  {
    var text := line + ("\n" + rest);
    if line == "" {
      assert text == "\n" + rest && text[1..] == rest;
    } else {
      assert text[1..] == line[1..] + ("\n" + rest);
      SplitLine(line[1..], rest);
      assert [line[0]] + line[1..] == line;
      assert Split(line) == [[line[0]] + line[1..]] + [];
    }
  }

  lemma {:induction false} JoinedLinesMatch(items: seq<Item>)
    requires items != [] && forall i :: 0 <= i < |items| ==> Valid(items[i])
    ensures Matches(ReadAll(Split(Join(items))), items)
  {
    PrintReads(items[0]);
    if |items| == 1 {
      SplitLine(Print(items[0]), "");
    } else {
      SplitLine(Print(items[0]), Join(items[1..]));
      JoinedLinesMatch(items[1..]);
      MatchesCons(Print(items[0]), Split(Join(items[1..])), items);
    }
  }

  lemma {:induction false} MatchesCons(line: string, rest: seq<string>, items: seq<Item>)
    requires items != [] && Reads(Read(line), items[0]) && Matches(ReadAll(rest), items[1..])
    ensures Matches(ReadAll([line] + rest), items)
  {
    var lines := ReadAll([line] + rest);
    assert ([line] + rest)[1..] == rest;
    forall i | 0 <= i < |lines| ensures Reads(lines[i], items[i]) {
      if i > 0 { assert lines[i] == ReadAll(rest)[i - 1] && items[i] == items[1..][i - 1]; }
    }
  }

  /** The left cells are the context and removed lines, the right cells the context and added lines. */
  predicate SidesAreShown(items: seq<Item>)
    requires items != []
  {
    var rows := AllRows(Join(items));
    Column(rows, Original) == Left(items, 0) && Column(rows, Current) == Right(items, 0)
  }

  predicate Printable(items: seq<Item>) { items != [] && forall i :: 0 <= i < |items| ==> Valid(items[i]) }

  /**
   * For every patch text without a header behind a block that reads on: both columns are the two sides, in
   * order and numbered from the hunk headers, exactly when no body line is mistaken for a file header.
   */
  lemma {:induction false} SidesAreShownExactlyWhenReadable(items: seq<Item>)
    requires Printable(items) && Guarded(items)
    ensures SidesAreShown(items) <==> Readable(items)
  {
    JoinedLinesMatch(items);
    RowsShowSides(ReadAll(Split(Join(items))), items, 0, 0);
  }

  /** And for every readable patch text they are exactly when no header stands where a block reads on. */
  lemma {:induction false} SidesAreShownExactlyWhenGuarded(items: seq<Item>)
    requires Printable(items) && Readable(items)
    ensures SidesAreShown(items) <==> Guarded(items)
  {
    JoinedLinesMatch(items);
    RowsShowNoLess(ReadAll(Split(Join(items))), items, 0, 0);
  }

  /**
   * What the parser returns of a readable and guarded patch text: its columns are the front of the two sides, and
   * the sides themselves when there are no more than 600 rows.
   */
  lemma {:induction false} ParsedSides(items: seq<Item>, rows: seq<Row>)
    requires Printable(items) && Readable(items) && Guarded(items)
    requires rows <= AllRows(Join(items))
    requires |rows| == if |AllRows(Join(items))| < 600 then |AllRows(Join(items))| else 600
    ensures Column(rows, Original) <= Left(items, 0) && Column(rows, Current) <= Right(items, 0)
    ensures |AllRows(Join(items))| <= 600 ==> Column(rows, Original) == Left(items, 0) && Column(rows, Current) == Right(items, 0)
    ensures forall k :: 0 <= k < |rows| ==> PairsUp(rows[k])
  {
    var all := AllRows(Join(items));
    SidesAreShownExactlyWhenReadable(items);
    var rest := all[|rows|..];
    assert all == rows + rest;
    ColumnConcat(rows, rest, Original);
    ColumnConcat(rows, rest, Current);
    EveryRowPairsUp(ReadAll(Split(Join(items))), 0, 0);
    assert forall k :: 0 <= k < |rows| ==> rows[k] == all[k];
  }

  /** Two patches of one text, of which the second is neither readable nor guarded: its two faults cancel. */
  function TwoReadings(x: string, a: string): (seq<Item>, seq<Item>) {
    ([Meta("+++ " + x), Removed(a), Added("++ " + x)], [Added("++ " + x), Removed(a), Meta("+++ " + x)])
  }

  lemma {:induction false} FaultsCanCancel(x: string, a: string)
    requires '\n' !in x && '\n' !in a && !StartsWith(a, "--")
    ensures var (plain, odd) := TwoReadings(x, a);
            Join(plain) == Join(odd) && !Readable(odd) && !Guarded(odd) && SidesAreShown(odd)
  {
    var (plain, odd) := TwoReadings(x, a);
    PlainReading(x, a);
    SameText(x, a);
    SidesOfThree(plain[0], plain[1], plain[2]);
    SidesOfThree(odd[0], odd[1], odd[2]);
    OddReading(x, a);
    SidesAreShownExactlyWhenReadable(plain);
  }

  /** A removed line between a header and an added one, in either order. */
  lemma {:induction false} SidesOfThree(first: Item, middle: Item, last: Item)
    requires middle.Removed? && ((first.Meta? && last.Added?) || (first.Added? && last.Meta?))
    ensures Left([first, middle, last], 0) == [Cell(0, middle.text, Deleted)]
    ensures Right([first, middle, last], 0) == [Cell(0, if first.Meta? then last.text else first.text, Inserted)]
  {
    assert [first, middle, last][1..] == [middle, last];
    SidesOfTwo(middle, last, 0);
    SidesOfTwo(middle, last, 1);
  }

  lemma {:induction false} SidesOfTwo(middle: Item, last: Item, newLine: nat)
    requires middle.Removed? && (last.Meta? || last.Added?)
    ensures Left([middle, last], 0) == [Cell(0, middle.text, Deleted)]
    ensures Right([middle, last], newLine) == if last.Added? then [Cell(newLine, last.text, Inserted)] else []
  {
    assert [middle, last][1..] == [last] && [last][1..] == [];
    assert Left([], 1) == [] && Right([], newLine) == [] && Right([], newLine + 1) == [];
    assert Left([last], 1) == [];
  }

  lemma {:induction false} SameText(x: string, a: string)
    ensures var (plain, odd) := TwoReadings(x, a); Join(plain) == Join(odd)
  {
    var (plain, odd) := TwoReadings(x, a);
    assert Print(Added("++ " + x)) == Print(Meta("+++ " + x));
    assert plain[1..] == [Removed(a), Added("++ " + x)] && odd[1..] == [Removed(a), Meta("+++ " + x)];
    assert plain[1..][1..] == [Added("++ " + x)] && odd[1..][1..] == [Meta("+++ " + x)];
    assert Join([Added("++ " + x)]) == Join([Meta("+++ " + x)]);
    assert Join(plain[1..]) == Join(odd[1..]);
  }

  lemma {:induction false} HeaderIsValid(mark: char, x: string)
    requires '\n' !in x && mark in {'-', '+'}
    ensures Valid(Meta([mark, mark, mark, ' '] + x))
  {
    var text := [mark, mark, ' '] + x;
    assert [mark, mark, mark, ' '] + x == [mark] + text;
    assert text[..2] == [mark, mark];
    BodyReads(mark, text);
    BodySkipped(mark, text);
    PrefixBehindMark(mark, text, " ");
  }

  lemma {:induction false} PlainReading(x: string, a: string)
    requires '\n' !in x && '\n' !in a && !StartsWith(a, "--")
    ensures var (plain, odd) := TwoReadings(x, a); Printable(plain) && Readable(plain) && Guarded(plain)
  {
    var (plain, odd) := TwoReadings(x, a);
    HeaderIsValid('+', x);
    assert "+++ " == ['+', '+', '+', ' '];
    var rest, last := plain[1..], [Added("++ " + x)];
    assert rest == [Removed(a)] + last && rest[1..] == last && last[1..] == [];
    assert RemovedAhead(rest) == 1 && AddedAhead(last) == 1;
    assert rest[2..] == [];
    assert Readable(rest) && Guarded(rest);
  }

  lemma {:induction false} OddReading(x: string, a: string)
    requires !StartsWith(a, "--")
    ensures var (plain, odd) := TwoReadings(x, a); !Readable(odd) && !Guarded(odd)
  {
    var (plain, odd) := TwoReadings(x, a);
    assert ("++ " + x)[..2] == "++";
    var rest, last := odd[1..], [Meta("+++ " + x)];
    assert rest == [Removed(a)] + last && rest[1..] == last;
    assert RemovedAhead(rest) == 1 && AddedAhead(last) == 0;
    assert rest[1] == Meta("+++ " + x) && ("+++ " + x)[0] == '+';
    assert !Guarded(rest);
  }

  /** The header of the next file, directly behind a removed line, is shown as one more of them. */
  lemma {:induction false} SwallowedHeaderOccurs(a: string, x: string)
    requires '\n' !in a && '\n' !in x && !StartsWith(a, "--")
    ensures var items := [Removed(a), Meta("--- " + x)];
            Join(items) == ("-" + a) + ("\n" + ("--- " + x))
            && Printable(items) && Readable(items) && !Guarded(items) && !SidesAreShown(items)
  {
    var header := "--- " + x;
    HeaderIsValid('-', x);
    OneRemovedOneHeader(a, header);
    SidesAreShownExactlyWhenGuarded([Removed(a), Meta(header)]);
  }

  lemma {:induction false} OneRemovedOneHeader(a: string, header: string)
    requires '\n' !in a && !StartsWith(a, "--") && Opens(header, '-') && Valid(Meta(header))
    ensures var items := [Removed(a), Meta(header)];
            Join(items) == ("-" + a) + ("\n" + header) && Printable(items) && Readable(items) && !Guarded(items)
  {
    var items, last := [Removed(a), Meta(header)], [Meta(header)];
    assert items[1..] == last && last[1..] == [];
    assert Join(last) == header;
    assert RemovedAhead(items) == 1 && AddedAhead(last) == 0 && BlockEnd(items) == 1;
    assert items[1].Meta? && items[1].line == header;
    assert !SetApart(items, 1, 1);
    assert Readable(last) by { assert Readable([]); }
  }

  /** A removed line that starts with two dashes, as a comment in SQL or Lua does, is not shown. */
  lemma {:induction false} LostLineOccurs(x: string)
    requires '\n' !in x
    ensures var items := [Removed("-- " + x)];
            Join(items) == "-" + ("-- " + x)
            && Printable(items) && Guarded(items) && !Readable(items) && !SidesAreShown(items)
  {
    var text := "-- " + x;
    assert text[..2] == "--";
    var items := [Removed(text)];
    assert items[1..] == [];
    assert Guarded([]);
    NotReadable(items);
    SidesAreShownExactlyWhenReadable(items);
  }

  predicate PairsUp(row: Row) {
    match (row.original, row.current)
    case (Some(o), Some(c)) =>
      || (o.kind == Unchanged && c.kind == Unchanged && o.text == c.text)
      || (o.kind == Deleted && c.kind == Inserted)
    case (Some(o), None) => o.kind == Deleted
    case (None, Some(c)) => c.kind == Inserted
    case (None, None) => false
  }

  /** No row is empty on both sides; context faces the same context, a removed line an added one or nothing. */
  lemma {:induction false} EveryRowPairsUp(lines: seq<Line>, oldLine: nat, newLine: nat)
    ensures forall k :: 0 <= k < |Rows(lines, oldLine, newLine)| ==> PairsUp(Rows(lines, oldLine, newLine)[k])
    decreases |lines|
  {
    if lines != [] {
      var step := Next(lines, oldLine, newLine);
      RowsOfStep(lines, oldLine, newLine, step, lines[step.used..]);
      EveryRowPairsUp(lines[step.used..], step.oldLine, step.newLine);
      StepPairsUp(lines, oldLine, newLine, step);
    }
  }

  lemma {:induction false} StepPairsUp(lines: seq<Line>, oldLine: nat, newLine: nat, step: Advance)
    requires lines != [] && step == Next(lines, oldLine, newLine)
    ensures forall k :: 0 <= k < |step.rows| ==> PairsUp(step.rows[k])
  {
    if OpensBlock(lines[0]) {
      var r := Run('-', lines);
      var end := r + Run('+', lines[r..]);
      BlockIs(lines, r, end, oldLine, newLine, step);
      CellsHaveKind(lines[..r], oldLine, Deleted);
      CellsHaveKind(lines[r..end], newLine, Inserted);
      ZipPairsUp(Cells(lines[..r], oldLine, Deleted), Cells(lines[r..end], newLine, Inserted));
    }
  }

  predicate AllOf(cells: seq<Cell>, kind: Kind) { forall i :: 0 <= i < |cells| ==> cells[i].kind == kind }

  lemma {:induction false} CellsHaveKind(lines: seq<Line>, first: nat, kind: Kind)
    ensures AllOf(Cells(lines, first, kind), kind)
  {
    if lines != [] { CellsHaveKind(lines[1..], first + 1, kind); }
  }

  lemma {:induction false} ZipPairsUp(removed: seq<Cell>, added: seq<Cell>)
    requires AllOf(removed, Deleted) && AllOf(added, Inserted)
    ensures forall k :: 0 <= k < |Zip(removed, added)| ==> PairsUp(Zip(removed, added)[k])
    decreases |removed| + |added|
  {
    if removed != [] || added != [] { ZipPairsUp(Behind(removed, 1), Behind(added, 1)); }
  }
}
