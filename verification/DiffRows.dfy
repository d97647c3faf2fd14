/** The side-by-side rows of a unified patch: removed and added lines of a change block share rows. */
module DiffRows {
  import opened Wrappers

  const MAX_ALIGNED_ROWS: nat := 600

  datatype Kind = Unchanged | Deleted | Inserted
  datatype Cell = Cell(line: nat, text: string, kind: Kind)
  datatype Row = Row(original: Option<Cell>, current: Option<Cell>)

  predicate StartsWith(s: string, prefix: string) {
    |prefix| <= |s| && s[..|prefix|] == prefix
  }

  // ---------------------------------------------------------------- lines and hunk headers

  function Split(text: string): (lines: seq<string>)
    ensures lines != []
  {
    if text == "" then [""]
    else
      var rest := Split(text[1..]);
      if text[0] == '\n' then [""] + rest else [[text[0]] + rest[0]] + rest[1..]
  }

  predicate IsDigit(c: char) { '0' <= c <= '9' }

  /** The length of the longest prefix made of digits. */
  function DigitSpan(s: string): (n: nat)
    ensures n <= |s|
  {
    if s == "" || !IsDigit(s[0]) then 0 else 1 + DigitSpan(s[1..])
  }

  function DecimalValue(s: string): nat
    requires DigitSpan(s) == |s|
    decreases |s|
  {
    if s == "" then 0
    else
      DigitsSplit(s, |s| - 1);
      10 * DecimalValue(s[..|s| - 1]) + (s[|s| - 1] as int - '0' as int)
  }

  lemma {:induction false} DigitsSplit(s: string, k: nat)
    requires k <= |s| && DigitSpan(s) == |s|
    ensures DigitSpan(s[..k]) == k
    ensures forall i :: 0 <= i < |s| ==> IsDigit(s[i])
  {
    if k > 0 {
      DigitsSplit(s[1..], k - 1);
      assert s[..k][1..] == s[1..][..k - 1];
    } else if s != "" {
      DigitsSplit(s[1..], 0);
    }
  }

  /** `(\d+)(?:,(\d+))?`: the first number, and what follows the match. */
  function MatchRange(s: string): Option<(nat, string)> {
    var n := DigitSpan(s);
    if n == 0 then None
    else
      SpanIsDigits(s);
      var start, rest := DecimalValue(s[..n]), s[n..];
      if StartsWith(rest, ",") && DigitSpan(rest[1..]) > 0
      then Some((start, rest[1 + DigitSpan(rest[1..])..]))
      else Some((start, rest))
  }

  lemma {:induction false} SpanIsDigits(s: string)
    ensures DigitSpan(s[..DigitSpan(s)]) == DigitSpan(s)
  {
    if DigitSpan(s) > 0 {
      SpanIsDigits(s[1..]);
      assert s[..DigitSpan(s)][1..] == s[1..][..DigitSpan(s[1..])];
    }
  }

  /** The first old and the first new line number a hunk header announces. */
  function MatchHeader(line: string): Option<(nat, nat)> {
    if !StartsWith(line, "@@ -") then None
    else
      var range := MatchRange(line[4..]);
      if range.None? || !StartsWith(range.value.1, " +") then None
      else
        var range' := MatchRange(range.value.1[2..]);
        if range'.None? || !StartsWith(range'.value.1, " @@") then None
        else Some((range.value.0, range'.value.0))
  }

  predicate IsSkipped(line: string) {
    StartsWith(line, "---") || StartsWith(line, "+++") || StartsWith(line, "diff ")
    || StartsWith(line, "index ") || StartsWith(line, "\\ No newline")
  }

  // ---------------------------------------------------------------- rows

  /** What the parser sees of a line: both patterns, its first character, and the text behind that. */
  datatype Line = Line(header: Option<(nat, nat)>, skipped: bool, mark: Option<char>, text: string)

  function Read(line: string): Line {
    if line == "" then Line(None, false, None, "") else Line(MatchHeader(line), IsSkipped(line), Some(line[0]), line[1..])
  }

  function ReadAll(lines: seq<string>): (read: seq<Line>)
    ensures |read| == |lines|
  {
    if lines == [] then [] else [Read(lines[0])] + ReadAll(lines[1..])
  }

  predicate Marked(line: Line, mark: char) { line.mark == Some(mark) }

  /** The number of leading lines with this mark. */
  function Run(mark: char, lines: seq<Line>): (n: nat)
    ensures n <= |lines|
  {
    if lines == [] || !Marked(lines[0], mark) then 0 else 1 + Run(mark, lines[1..])
  }

  /** The cells of consecutive lines on one side. */
  function Cells(lines: seq<Line>, first: nat, kind: Kind): (cells: seq<Cell>)
    ensures |cells| == |lines|
  {
    if lines == [] then [] else [Cell(first, lines[0].text, kind)] + Cells(lines[1..], first + 1, kind)
  }

  function At(cells: seq<Cell>, k: nat): Option<Cell> { if k < |cells| then Some(cells[k]) else None }

  function Behind(cells: seq<Cell>, k: nat): seq<Cell> { if k < |cells| then cells[k..] else [] }

  function Max(a: nat, b: nat): nat { if a < b then b else a }

  /** Pairs two columns line by line, padding the shorter one. */
  function Zip(removed: seq<Cell>, added: seq<Cell>): seq<Row>
    decreases |removed| + |added|
  {
    if removed == [] && added == [] then []
    else [Row(At(removed, 0), At(added, 0))] + Zip(Behind(removed, 1), Behind(added, 1))
  }

  /** A line that starts a change block: a removed line that does not look like a file header. */
  predicate OpensBlock(line: Line) { line.header.None? && !line.skipped && Marked(line, '-') }

  /** The rows one step adds, the lines it uses up, and the line numbers after it. */
  datatype Advance = Advance(rows: seq<Row>, used: nat, oldLine: nat, newLine: nat)

  function Block(lines: seq<Line>, oldLine: nat, newLine: nat): (step: Advance)
    ensures step.used <= |lines|
  {
    var r := Run('-', lines);
    var a := Run('+', lines[r..]);
    Advance(Zip(Cells(lines[..r], oldLine, Deleted), Cells(lines[r..r + a], newLine, Inserted)),
            r + a, oldLine + r, newLine + a)
  }

  function Single(line: Line, oldLine: nat, newLine: nat): Advance {
    if line.header.Some? then Advance([], 1, line.header.value.0, line.header.value.1)
    else if line.skipped then Advance([], 1, oldLine, newLine)
    else if Marked(line, ' ') then
      Advance([Row(Some(Cell(oldLine, line.text, Unchanged)), Some(Cell(newLine, line.text, Unchanged)))],
              1, oldLine + 1, newLine + 1)
    else if Marked(line, '+') then
      Advance([Row(None, Some(Cell(newLine, line.text, Inserted)))], 1, oldLine, newLine + 1)
    else Advance([], 1, oldLine, newLine)
  }

  function Next(lines: seq<Line>, oldLine: nat, newLine: nat): (step: Advance)
    requires lines != []
    ensures 1 <= step.used <= |lines|
  {
    if OpensBlock(lines[0]) then Block(lines, oldLine, newLine) else Single(lines[0], oldLine, newLine)
  }

  function Rows(lines: seq<Line>, oldLine: nat, newLine: nat): seq<Row>
    decreases |lines|
  {
    if lines == [] then []
    else
      var step := Next(lines, oldLine, newLine);
      step.rows + Rows(lines[step.used..], step.oldLine, step.newLine)
  }

  /** The rows of a whole text. */
  function AllRows(patch: string): seq<Row> { Rows(ReadAll(Split(patch)), 0, 0) }

  // ---------------------------------------------------------------- the loops

  lemma {:induction false} RunIs(mark: char, lines: seq<Line>, start: nat, end: nat)
    requires start <= end <= |lines| && forall i :: start <= i < end ==> Marked(lines[i], mark)
    requires end < |lines| ==> !Marked(lines[end], mark)
    ensures Run(mark, lines[start..]) == end - start
    decreases end - start
  {
    if start < end {
      assert lines[start..][1..] == lines[start + 1..];
      RunIs(mark, lines, start + 1, end);
    }
  }

  lemma {:induction false} CellsSnoc(lines: seq<Line>, start: nat, end: nat, first: nat, kind: Kind)
    requires start <= end < |lines|
    ensures Cells(lines[start..end + 1], first, kind)
      == Cells(lines[start..end], first, kind) + [Cell(first + (end - start), lines[end].text, kind)]
    decreases end - start
  {
    if start < end {
      assert lines[start..end + 1][1..] == lines[start + 1..end + 1];
      assert lines[start..end][1..] == lines[start + 1..end];
      CellsSnoc(lines, start + 1, end, first + 1, kind);
    } else {
      assert lines[start..end + 1][1..] == [];
    }
  }

  method RemovedRun(lines: seq<Line>, start: nat, first: nat) returns (index: nat, removed: seq<Cell>)
    requires start < |lines| && Marked(lines[start], '-')
    ensures index == start + Run('-', lines[start..])
    ensures removed == Cells(lines[start..index], first, Deleted)
  {
    index, removed := start + 1, [];
    while index - 1 < |lines| && Marked(lines[index - 1], '-')
      invariant start < index <= |lines| && forall i :: start <= i < index ==> Marked(lines[i], '-')
      invariant removed == Cells(lines[start..index - 1], first, Deleted)
      decreases |lines| - index
    {
      CellsSnoc(lines, start, index - 1, first, Deleted);
      removed := removed + [Cell(first + |removed|, lines[index - 1].text, Deleted)];
      if index >= |lines| || !Marked(lines[index], '-') { break; }
      index := index + 1;
    }
    RunIs('-', lines, start, index);
  }

  method AddedRun(lines: seq<Line>, start: nat, first: nat) returns (index: nat, added: seq<Cell>)
    requires start <= |lines|
    ensures index == start + Run('+', lines[start..])
    ensures added == Cells(lines[start..index], first, Inserted)
  {
    index, added := start, [];
    while index < |lines| && Marked(lines[index], '+')
      invariant start <= index <= |lines| && forall i :: start <= i < index ==> Marked(lines[i], '+')
      invariant added == Cells(lines[start..index], first, Inserted)
    {
      CellsSnoc(lines, start, index, first, Inserted);
      added := added + [Cell(first + |added|, lines[index].text, Inserted)];
      index := index + 1;
    }
    RunIs('+', lines, start, index);
  }

  method Align(removed: seq<Cell>, added: seq<Cell>) returns (rows: seq<Row>)
    ensures rows == Zip(removed, added)
  {
    rows := [];
    var count := Max(|removed|, |added|);
    assert Behind(removed, 0) == removed && Behind(added, 0) == added;
    for offset := 0 to count
      invariant rows + Zip(Behind(removed, offset), Behind(added, offset)) == Zip(removed, added)
    {
      var row := Row(At(removed, offset), At(added, offset));
      ZipGoesOn(removed, added, offset);
      Regroup(rows, [row], Zip(Behind(removed, offset + 1), Behind(added, offset + 1)), rows + [row],
              Zip(Behind(removed, offset), Behind(added, offset)));
      rows := rows + [row];
    }
  }

  lemma {:induction false} ZipGoesOn(removed: seq<Cell>, added: seq<Cell>, k: nat)
    requires k < Max(|removed|, |added|)
    ensures Zip(Behind(removed, k), Behind(added, k))
      == [Row(At(removed, k), At(added, k))] + Zip(Behind(removed, k + 1), Behind(added, k + 1))
  {
    assert Behind(Behind(removed, k), 1) == Behind(removed, k + 1);
    assert Behind(Behind(added, k), 1) == Behind(added, k + 1);
  }

  /** Pushes one row that is not part of a block, if the line makes one. */
  method PushLine(line: Line, rows: seq<Row>, oldLine: nat, newLine: nat)
    returns (pushed: seq<Row>, oldNext: nat, newNext: nat)
    requires !OpensBlock(line)
    ensures var one := Single(line, oldLine, newLine);
            pushed == rows + one.rows && oldNext == one.oldLine && newNext == one.newLine
  {
    pushed, oldNext, newNext := rows, oldLine, newLine;
    if line.header.Some? {
      oldNext, newNext := line.header.value.0, line.header.value.1;
      return;
    }
    if line.skipped { return; }
    if Marked(line, ' ') {
      pushed := rows + [Row(Some(Cell(oldLine, line.text, Unchanged)), Some(Cell(newLine, line.text, Unchanged)))];
      oldNext, newNext := oldLine + 1, newLine + 1;
      return;
    }
    if Marked(line, '+') {
      pushed := rows + [Row(None, Some(Cell(newLine, line.text, Inserted)))];
      newNext := newLine + 1;
    }
  }

  lemma {:induction false} Slices(lines: seq<Line>, start: nat, middle: nat, end: nat)
    requires start <= middle <= end <= |lines|
    ensures lines[start..][..middle - start] == lines[start..middle]
    ensures lines[start..][middle - start..] == lines[middle..]
    ensures lines[start..][middle - start..end - start] == lines[middle..end]
    ensures lines[start..][end - start..] == lines[end..]
  {
  }

  lemma {:induction false} BlockFrom(lines: seq<Line>, start: nat, middle: nat, end: nat, oldLine: nat, newLine: nat)
    requires start <= middle <= end <= |lines|
    requires middle == start + Run('-', lines[start..]) && end == middle + Run('+', lines[middle..])
    ensures Block(lines[start..], oldLine, newLine) ==
            Advance(Zip(Cells(lines[start..middle], oldLine, Deleted), Cells(lines[middle..end], newLine, Inserted)),
                    end - start, oldLine + (middle - start), newLine + (end - middle))
  {
    Slices(lines, start, middle, end);
    BlockOf(lines[start..], middle - start, end - middle, lines[start..middle], lines[middle..end], oldLine, newLine);
  }

  lemma {:induction false} BlockOf(here: seq<Line>, r: nat, a: nat, removed: seq<Line>, added: seq<Line>, oldLine: nat, newLine: nat)
    requires r == Run('-', here) && a == Run('+', here[r..]) && removed == here[..r] && added == here[r..r + a]
    ensures Block(here, oldLine, newLine)
      == Advance(Zip(Cells(removed, oldLine, Deleted), Cells(added, newLine, Inserted)), r + a, oldLine + r, newLine + a)
  {
  }

  /** Takes the removed lines and the added lines behind them as one block. */
  method PushBlock(lines: seq<Line>, start: nat, oldLine: nat, newLine: nat, rows: seq<Row>)
    returns (index: nat, pushed: seq<Row>, oldNext: nat, newNext: nat)
    requires start < |lines| && Marked(lines[start], '-')
    ensures Pushed(Block(lines[start..], oldLine, newLine), start, rows, index, pushed, oldNext, newNext)
  {
    var removed, added, block;
    index, removed := RemovedRun(lines, start, oldLine);
    ghost var middle := index;
    index, added := AddedRun(lines, index, newLine);
    BlockFrom(lines, start, middle, index, oldLine, newLine);
    block := Align(removed, added);
    pushed, oldNext, newNext := rows + block, oldLine + |removed|, newLine + |added|;
  }

  method PushNext(lines: seq<Line>, start: nat, oldLine: nat, newLine: nat, rows: seq<Row>)
    returns (index: nat, pushed: seq<Row>, oldNext: nat, newNext: nat)
    requires start < |lines|
    ensures Pushed(Next(lines[start..], oldLine, newLine), start, rows, index, pushed, oldNext, newNext)
  {
    if OpensBlock(lines[start]) {
      index, pushed, oldNext, newNext := PushBlock(lines, start, oldLine, newLine, rows);
    } else {
      pushed, oldNext, newNext := PushLine(lines[start], rows, oldLine, newLine);
      index := start + 1;
    }
  }

  lemma {:induction false} RowsFrom(lines: seq<Line>, start: nat, oldLine: nat, newLine: nat, step: Advance, index: nat)
    requires start < index <= |lines| && index == start + step.used && step == Next(lines[start..], oldLine, newLine)
    ensures Rows(lines[start..], oldLine, newLine) == step.rows + Rows(lines[index..], step.oldLine, step.newLine)
  {
    var here := lines[start..];
    assert here[step.used..] == lines[index..];
  }

  lemma {:induction false} Regroup(rows: seq<Row>, more: seq<Row>, later: seq<Row>, pushed: seq<Row>, rest: seq<Row>)
    requires pushed == rows + more && rest == more + later
    ensures pushed + later == rows + rest
  {
  }

  predicate Pushed(step: Advance, start: nat, rows: seq<Row>, index: nat, pushed: seq<Row>, oldNext: nat, newNext: nat) {
    pushed == rows + step.rows && index == start + step.used && oldNext == step.oldLine && newNext == step.newLine
  }

  lemma {:induction false} TurnKeeps(lines: seq<Line>, start: nat, oldLine: nat, newLine: nat, rows: seq<Row>, step: Advance,
                  index: nat, pushed: seq<Row>, oldNext: nat, newNext: nat)
    requires start < index <= |lines| && Pushed(step, start, rows, index, pushed, oldNext, newNext)
    requires Rows(lines[start..], oldLine, newLine) == step.rows + Rows(lines[index..], step.oldLine, step.newLine)
    ensures pushed + Rows(lines[index..], oldNext, newNext) == rows + Rows(lines[start..], oldLine, newLine)
  {
    Regroup(rows, step.rows, Rows(lines[index..], oldNext, newNext), pushed, Rows(lines[start..], oldLine, newLine));
  }

  /** One turn of the main loop: the rows pushed and the rows still to come stay the same in total. */
  method Turn(lines: seq<Line>, start: nat, oldLine: nat, newLine: nat, rows: seq<Row>)
    returns (index: nat, pushed: seq<Row>, oldNext: nat, newNext: nat)
    requires start < |lines|
    ensures start < index <= |lines|
    ensures pushed + Rows(lines[index..], oldNext, newNext) == rows + Rows(lines[start..], oldLine, newLine)
  {
    index, pushed, oldNext, newNext := PushNext(lines, start, oldLine, newLine, rows);
    ghost var step := Next(lines[start..], oldLine, newLine);
    RowsFrom(lines, start, oldLine, newLine, step, index);
    TurnKeeps(lines, start, oldLine, newLine, rows, step, index, pushed, oldNext, newNext);
  }

  method ParsePatch(patch: string) returns (rows: seq<Row>)
    ensures rows <= AllRows(patch) && |rows| == if |AllRows(patch)| < 600 then |AllRows(patch)| else 600
  {
    rows := [];
    var oldLine: nat, newLine: nat, index: nat := 0, 0, 0;
    var lines := ReadAll(Split(patch));
    assert lines[index..] == lines;
    while index < |lines|
      invariant 0 <= index <= |lines|
      invariant rows + Rows(lines[index..], oldLine, newLine) == Rows(lines, 0, 0)
    {
      index, rows, oldLine, newLine := Turn(lines, index, oldLine, newLine, rows);
    }
    assert lines[index..] == [];
    assert rows == AllRows(patch);
    return if |rows| <= MAX_ALIGNED_ROWS then rows else rows[..MAX_ALIGNED_ROWS];
  }
}
