/** Counting the compliance map's rule rows: which lines of the page are rows,
    which status each states, and which rows no external referee judged. */
module RuleRows {
  import opened Text
  import opened TableCells

  const MARKERS: seq<char> := ['\U{2705}', '\U{1F9E9}', '\U{26A0}', '\U{274C}', '\U{26D4}', '\U{1F6A7}']
  const UNREFEREED := "**No external referee:**"
  const STATUS_HEADING := "Status"

  // ---------- tables ----------

  datatype Column = NotATable | NoStatus | StatusAt(i: nat)

  predicate SeparatorCell(cell: string) {
    forall c | c in cell :: c == '|' || c == ':' || c == '-' || c == ' '
  }

  function StripStars(s: string): string {
    if s != [] && (s[0] == '*' || s[0] == ' ') then StripStars(s[1..])
    else if s != [] && (s[|s| - 1] == '*' || s[|s| - 1] == ' ') then StripStars(s[..|s| - 1])
    else s
  }

  function StatusFrom(header: seq<string>, i: nat): Column
    requires i <= |header|
    decreases |header| - i
  {
    if i == |header| then NoStatus
    else if StripStars(header[i]) == STATUS_HEADING then StatusAt(i)
    else StatusFrom(header, i + 1)
  }

  /** status_column */
  function StatusColumn(block: seq<string>): Column {
    if |block| < 2 || !StartsWith(StripSpaces(block[0]), "|") then NotATable
    else
      var header, separator := Cells(block[0]), Cells(block[1]);
      if |header| < 2 || |separator| != |header| || exists c | c in separator :: !SeparatorCell(c) then NotATable
      else StatusFrom(header, 0)
  }

  // ---------- statuses ----------

  function Count(s: string, c: char): nat {
    if s == [] then 0 else Count(s[1..], c) + (if s[0] == c then 1 else 0)
  }

  predicate IsMarker(c: char) {
    c in MARKERS
  }

  predicate HasMarker(s: string) {
    exists c | c in s :: IsMarker(c)
  }

  function Repeat(c: char, n: nat): (r: seq<char>)
    ensures |r| == n
    ensures forall x | x in r :: x == c
  {
    if n == 0 then [] else [c] + Repeat(c, n - 1)
  }

  /** The markers a cell states, each as often as it does. */
  function Found(cell: string, markers: seq<char>): (r: seq<char>)
    ensures forall x | x in r :: x in markers
  {
    if markers == [] then [] else Repeat(markers[0], Count(cell, markers[0])) + Found(cell, markers[1..])
  }

  datatype Status = States(marker: char) | NoMarker | ManyMarkers

  function StatusCell(line: string, column: nat): string {
    var cells := Cells(line);
    if column < |cells| then cells[column] else ""
  }

  /** row_status */
  function RowStatus(line: string, column: nat): (r: Status)
    ensures r.States? ==> IsMarker(r.marker)
  {
    var found := Found(StatusCell(line, column), MARKERS);
    if found == [] then NoMarker else if |found| > 1 then ManyMarkers else States(found[0])
  }

  // ---------- what each line is ----------

  predicate Blank(line: string) {
    AllSpace(line)
  }

  /** The first line of the block a line stands in. */
  function BlockStart(lines: seq<string>, i: nat): (s: nat)
    requires i < |lines|
    ensures s <= i
  {
    if i > 0 && !Blank(lines[i - 1]) then BlockStart(lines, i - 1) else i
  }

  /** The line after the last of the block that goes on at i. */
  function BlockEnd(lines: seq<string>, i: nat): (e: nat)
    requires i <= |lines|
    ensures i <= e <= |lines|
    decreases |lines| - i
  {
    if i < |lines| && !Blank(lines[i]) then BlockEnd(lines, i + 1) else i
  }

  /** What a line does to the count. */
  datatype Effect = Prose | Refereed | Unrefereed | Row(marker: char) | Fault

  function EffectIn(line: string, offset: nat, column: Column): Effect {
    var text := Strip(line);
    match column
    case NotATable =>
      if StartsWith(text, "#") then Refereed
      else if StartsWith(text, UNREFEREED) then Unrefereed
      else if StartsWith(text, "|") && HasMarker(text) then Fault
      else Prose
    case NoStatus => if offset >= 2 && HasMarker(text) then Fault else Prose
    case StatusAt(c) =>
      if offset < 2 then Prose
      else match RowStatus(line, c)
        case States(marker) => Row(marker)
        case _ => Fault
  }

  function ColumnAt(lines: seq<string>, i: nat): Column
    requires i < |lines|
  {
    StatusColumn(lines[BlockStart(lines, i)..BlockEnd(lines, i)])
  }

  /** Each line by itself: its block's table and its place in it decide. */
  function EffectOf(lines: seq<string>, i: nat): Effect
    requires i < |lines|
  {
    if Blank(lines[i]) then Prose
    else EffectIn(lines[i], i - BlockStart(lines, i), ColumnAt(lines, i))
  }

  function Effects(lines: seq<string>): (effects: seq<Effect>)
    ensures |effects| == |lines|
  {
    seq(|lines|, i requires 0 <= i < |lines| => EffectOf(lines, i))
  }

  // ---------- what the lines come to ----------

  /** Whether the last heading or referee note before line n is such a note. */
  predicate SelfAssessed(effects: seq<Effect>, n: nat)
    requires n <= |effects|
  {
    if n == 0 then false
    else match effects[n - 1]
      case Refereed => false
      case Unrefereed => true
      case _ => SelfAssessed(effects, n - 1)
  }

  datatype RuleRow = RuleRow(number: nat, marker: char, selfAssessed: bool)

  /** The rows among the first n lines. */
  function RowsBefore(effects: seq<Effect>, n: nat): seq<RuleRow>
    requires n <= |effects|
  {
    if n == 0 then []
    else
      var before := RowsBefore(effects, n - 1);
      match effects[n - 1]
      case Row(marker) => before + [RuleRow(n, marker, SelfAssessed(effects, n - 1))]
      case _ => before
  }

  predicate FaultFree(effects: seq<Effect>, n: nat)
    requires n <= |effects|
  {
    forall i | 0 <= i < n :: effects[i] != Fault
  }

  datatype Census = Rows(rows: seq<RuleRow>) | Malformed(number: nat)

  /** What reading the first n lines comes to: their rows, or the first line that
      faults. */
  predicate Collected(effects: seq<Effect>, n: nat, r: Census, unrefereed: bool)
    requires n <= |effects|
  {
    match r
    case Rows(rows) =>
      FaultFree(effects, n) && rows == RowsBefore(effects, n) && unrefereed == SelfAssessed(effects, n)
    case Malformed(number) =>
      0 < number <= n && effects[number - 1] == Fault && FaultFree(effects, number - 1)
  }

  /** What a line that is this does to the rows so far and the referee flag. */
  predicate Reads(effect: Effect, number: nat, before: seq<RuleRow>, referee: bool, r: Census, unrefereed: bool) {
    match effect
    case Refereed => r == Rows(before) && !unrefereed
    case Unrefereed => r == Rows(before) && unrefereed
    case Row(marker) => r == Rows(before + [RuleRow(number, marker, referee)]) && unrefereed == referee
    case Fault => r == Malformed(number)
    case Prose => r == Rows(before) && unrefereed == referee
  }

  lemma {:induction false} CollectedStep(effects: seq<Effect>, n: nat, before: seq<RuleRow>, referee: bool,
                                         r: Census, unrefereed: bool)
    requires n < |effects| && Collected(effects, n, Rows(before), referee)
    requires Reads(effects[n], n + 1, before, referee, r, unrefereed)
    ensures Collected(effects, n + 1, r, unrefereed)
  {
  }

  lemma {:induction false} MalformedStays(effects: seq<Effect>, n: nat, r: Census, unrefereed: bool)
    requires n <= |effects| && r.Malformed? && Collected(effects, n, r, unrefereed)
    ensures Collected(effects, |effects|, r, unrefereed)
  {
  }

  // ---------- reading block by block ----------

  lemma {:induction false} BlockStartIs(lines: seq<string>, start: nat, i: nat)
    requires start <= i < |lines| && (start == 0 || Blank(lines[start - 1]))
    requires forall k | start <= k < i :: !Blank(lines[k])
    ensures BlockStart(lines, i) == start
  {
    if i > start {
      BlockStartIs(lines, start, i - 1);
    }
  }

  lemma {:induction false} BlockEndIs(lines: seq<string>, i: nat, end: nat)
    requires i <= end <= |lines| && (end == |lines| || Blank(lines[end]))
    requires forall k | i <= k < end :: !Blank(lines[k])
    ensures BlockEnd(lines, i) == end
    decreases end - i
  {
    if i < end {
      BlockEndIs(lines, i + 1, end);
    }
  }

  /** Lines start..end are a block: none blank, and none to add at either end. */
  predicate IsBlock(lines: seq<string>, start: nat, end: nat) {
    start <= end <= |lines| && (start == 0 || start == end || Blank(lines[start - 1])) &&
    (end == |lines| || Blank(lines[end])) && forall k | start <= k < end :: !Blank(lines[k])
  }

  lemma {:induction false} BlockOfLine(lines: seq<string>, start: nat, end: nat, i: nat)
    requires IsBlock(lines, start, end) && start <= i < end
    ensures BlockStart(lines, i) == start && BlockEnd(lines, i) == end && !Blank(lines[i])
  {
    BlockStartIs(lines, start, i);
    BlockEndIs(lines, i, end);
  }

  lemma {:induction false} EffectWithin(lines: seq<string>, start: nat, end: nat, i: nat)
    requires i < |lines| && !Blank(lines[i]) && BlockStart(lines, i) == start && BlockEnd(lines, i) == end
    ensures EffectOf(lines, i) == EffectIn(lines[i], i - start, StatusColumn(lines[start..end]))
  {
  }

  /** The line is what the column of the block that starts at `start` makes it. */
  predicate LineJudged(lines: seq<string>, start: nat, column: Column, effects: seq<Effect>, i: nat)
    requires start <= i < |lines| && |effects| == |lines|
  {
    effects[i] == EffectIn(lines[i], i - start, column)
  }

  predicate BlockJudged(lines: seq<string>, start: nat, end: nat, column: Column, effects: seq<Effect>)
    requires start <= end <= |lines| && |effects| == |lines|
  {
    forall i: nat | start <= i < end :: LineJudged(lines, start, column, effects, i)
  }

  /** Every block is judged by its own table, and blank lines are nothing. */
  ghost predicate PageJudged(lines: seq<string>, effects: seq<Effect>) {
    |effects| == |lines| &&
    (forall i | 0 <= i < |lines| && Blank(lines[i]) :: effects[i] == Prose) &&
    forall start: nat, end: nat | IsBlock(lines, start, end) ::
      BlockJudged(lines, start, end, StatusColumn(lines[start..end]), effects)
  }

  lemma {:induction false} JudgedAt(lines: seq<string>, start: nat, end: nat, i: nat)
    requires IsBlock(lines, start, end) && start <= i < end
    ensures LineJudged(lines, start, StatusColumn(lines[start..end]), Effects(lines), i)
  {
    BlockOfLine(lines, start, end, i);
    EffectWithin(lines, start, end, i);
    assert Effects(lines)[i] == EffectOf(lines, i);
  }

  lemma {:induction false} PagesAreJudged(lines: seq<string>)
    ensures PageJudged(lines, Effects(lines))
  {
    forall i | 0 <= i < |lines| && Blank(lines[i]) ensures Effects(lines)[i] == Prose {
      assert Effects(lines)[i] == EffectOf(lines, i);
    }
    forall start: nat, end: nat | IsBlock(lines, start, end)
      ensures BlockJudged(lines, start, end, StatusColumn(lines[start..end]), Effects(lines))
    {
      forall i: nat | start <= i < end
        ensures LineJudged(lines, start, StatusColumn(lines[start..end]), Effects(lines), i)
      {
        JudgedAt(lines, start, end, i);
      }
    }
  }

  /** One line's turn: the referee note it is, or the row it yields, or the fault. */
  method ReadLine(line: string, offset: nat, column: Column, number: nat, before: seq<RuleRow>, referee: bool,
                  ghost effect: Effect)
      returns (r: Census, unrefereed: bool)
    requires effect == EffectIn(line, offset, column)
    ensures Reads(effect, number, before, referee, r, unrefereed)
  {
    var text := Strip(line);
    r, unrefereed := Rows(before), referee;
    if column.NotATable? {
      if StartsWith(text, "#") {
        unrefereed := false;
      } else if StartsWith(text, UNREFEREED) {
        unrefereed := true;
      } else if StartsWith(text, "|") && HasMarker(text) {
        r := Malformed(number);
      }
    } else if column.NoStatus? {
      if offset >= 2 && HasMarker(text) {
        r := Malformed(number);
      }
    } else if offset >= 2 {
      var status := RowStatus(line, column.i);
      r := if status.States? then Rows(before + [RuleRow(number, status.marker, referee)]) else Malformed(number);
    }
  }

  /** The lines of one block, all judged by the one column its table has. */
  method ReadBlock(lines: seq<string>, start: nat, end: nat, column: Column, before: seq<RuleRow>, referee: bool,
                   ghost effects: seq<Effect>)
      returns (r: Census, unrefereed: bool)
    requires start <= end <= |lines| == |effects| && BlockJudged(lines, start, end, column, effects)
    requires Collected(effects, start, Rows(before), referee)
    ensures Collected(effects, end, r, unrefereed)
  {
    r, unrefereed := Rows(before), referee;
    for i := start to end
      invariant r.Rows? && Collected(effects, i, r, unrefereed)
    {
      ghost var reading, flag := r.rows, unrefereed;
      assert LineJudged(lines, start, column, effects, i);
      r, unrefereed := ReadLine(lines[i], i - start, column, i + 1, r.rows, unrefereed, effects[i]);
      CollectedStep(effects, i, reading, flag, r, unrefereed);
      if r.Malformed? {
        return;
      }
    }
  }

  /** rule_rows' loop over blocks of non-blank lines, each judged as one table or
      none; the first malformed row stops it. */
  method ReadBlocks(lines: seq<string>, ghost effects: seq<Effect>) returns (r: Census, unrefereed: bool)
    requires PageJudged(lines, effects)
    ensures Collected(effects, |lines|, r, unrefereed)
  {
    r, unrefereed := Rows([]), false;
    var start := 0;
    while start < |lines|
      invariant start <= |lines|
      invariant start == 0 || start == |lines| || Blank(lines[start - 1]) || Blank(lines[start])
      invariant r.Rows? && Collected(effects, start, r, unrefereed)
    {
      var end := start;
      while end < |lines| && !Blank(lines[end])
        invariant start <= end <= |lines|
        invariant forall k | start <= k < end :: !Blank(lines[k])
      {
        end := end + 1;
      }
      assert IsBlock(lines, start, end);
      r, unrefereed := ReadBlock(lines, start, end, StatusColumn(lines[start..end]), r.rows, unrefereed, effects);
      if r.Malformed? {
        MalformedStays(effects, end, r, unrefereed);
        return;
      }
      if end == start {
        CollectedStep(effects, start, r.rows, unrefereed, r, unrefereed);
      }
      start := if end > start + 1 then end else start + 1;
    }
  }

  /** rule_rows finds what each line by itself is. */
  method CollectRows(lines: seq<string>) returns (r: Census)
    ensures r.Rows? <==> FaultFree(Effects(lines), |lines|)
    ensures r.Rows? ==> r.rows == RowsBefore(Effects(lines), |lines|)
    ensures r.Malformed? ==> 0 < r.number <= |lines| && Effects(lines)[r.number - 1] == Fault &&
                             FaultFree(Effects(lines), r.number - 1)
  {
    ghost var effects := Effects(lines);
    PagesAreJudged(lines);
    var unrefereed;
    r, unrefereed := ReadBlocks(lines, effects);
  }
}
