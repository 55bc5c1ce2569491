/** What the count of rule rows owes the page: no row lost, each with the one
    status its cell states, and totals that add up. */
module RuleCounts {
  import opened Text
  import opened TableCells
  import opened RuleRows

  // ---------- one status ----------

  lemma {:induction false} CountIsPresence(s: string, c: char)
    ensures Count(s, c) > 0 <==> c in s
  {
    if s != [] {
      CountIsPresence(s[1..], c);
    }
  }

  lemma {:induction false} FoundIsWhatIsThere(cell: string, markers: seq<char>)
    ensures Found(cell, markers) == [] <==> forall m | m in markers :: m !in cell
  {
    if markers != [] {
      CountIsPresence(cell, markers[0]);
      FoundIsWhatIsThere(cell, markers[1..]);
    }
  }

  predicate Distinct(s: seq<char>) {
    forall i, j | 0 <= i < j < |s| :: s[i] != s[j]
  }

  /** The cell states m once and no other marker. */
  predicate StatesOnly(cell: string, markers: seq<char>, m: char) {
    m in markers && Count(cell, m) == 1 && forall x | x in markers && x != m :: x !in cell
  }

  lemma {:induction false} RepeatIsOne(c: char, n: nat, m: char)
    ensures Repeat(c, n) == [m] <==> n == 1 && c == m
  {
    if n == 1 {
      assert Repeat(c, 1) == [c] + Repeat(c, 0) == [c];
      assert [c][0] == c && [m][0] == m;
    }
  }

  lemma {:induction false} FoundOne(cell: string, markers: seq<char>, m: char)
    requires Distinct(markers)
    ensures Found(cell, markers) == [m] <==> StatesOnly(cell, markers, m)
  {
    if markers != [] {
      var first, rest := markers[0], markers[1..];
      var here, there := Repeat(first, Count(cell, first)), Found(cell, rest);
      CountIsPresence(cell, first);
      FoundIsWhatIsThere(cell, rest);
      FoundOne(cell, rest, m);
      RepeatIsOne(first, Count(cell, first), m);
      assert forall i | 0 <= i < |rest| :: rest[i] == markers[i + 1];
      if first in cell {
        assert |here| >= 1 && here[0] == first;
        assert here + there == [m] <==> here == [m] && there == [] by {
          if here + there == [m] {
            assert |here| + |there| == 1;
            assert here + there == here;
          }
        }
      } else {
        assert here + there == there;
      }
    }
  }

  /** A row's status is the one marker its status cell holds, held once: none is no
      status, and two, or one twice, are too many. */
  lemma {:induction false} StatusIsTheOneMarker(line: string, column: nat, m: char)
    ensures RowStatus(line, column) == States(m) <==> StatesOnly(StatusCell(line, column), MARKERS, m)
    ensures RowStatus(line, column) == NoMarker <==> forall x | x in MARKERS :: x !in StatusCell(line, column)
  {
    FoundIsWhatIsThere(StatusCell(line, column), MARKERS);
    FoundOne(StatusCell(line, column), MARKERS, m);
  }

  lemma {:induction false} StatusFromIsFirst(header: seq<string>, i: nat)
    requires i <= |header|
    ensures match StatusFrom(header, i)
            case NotATable => false
            case NoStatus => forall k | i <= k < |header| :: StripStars(header[k]) != STATUS_HEADING
            case StatusAt(c) =>
              i <= c < |header| && StripStars(header[c]) == STATUS_HEADING &&
              forall k | i <= k < c :: StripStars(header[k]) != STATUS_HEADING
    decreases |header| - i
  {
    if i < |header| && StripStars(header[i]) != STATUS_HEADING {
      StatusFromIsFirst(header, i + 1);
    }
  }

  /** A column found is the first headed Status, of a block whose first two lines
      split into as many cells, more than one, the second's all dashes and colons. */
  lemma {:induction false} StatusColumnIsFirst(block: seq<string>, c: nat)
    requires StatusColumn(block) == StatusAt(c)
    ensures |block| >= 2
    ensures var header, separator := Cells(block[0]), Cells(block[1]);
            2 <= |header| == |separator| && (forall s | s in separator :: SeparatorCell(s)) &&
            c < |header| && StripStars(header[c]) == STATUS_HEADING &&
            forall k | 0 <= k < c :: StripStars(header[k]) != STATUS_HEADING
  {
    StatusFromIsFirst(Cells(block[0]), 0);
  }

  // ---------- every row once ----------

  predicate RowNumbered(rows: seq<RuleRow>, number: nat) {
    exists r | r in rows :: r.number == number
  }

  /** The rows yielded are the lines that are rows, in order, once each. */
  lemma {:induction false} RowsAreTheRows(effects: seq<Effect>, n: nat)
    requires n <= |effects|
    ensures var rows := RowsBefore(effects, n);
            && (forall i, j | 0 <= i < j < |rows| :: rows[i].number < rows[j].number)
            && (forall r | r in rows :: 0 < r.number <= n && effects[r.number - 1] == Row(r.marker) &&
                                        r.selfAssessed == SelfAssessed(effects, r.number - 1))
            && (forall i | 0 <= i < n && effects[i].Row? :: RowNumbered(rows, i + 1))
  {
    if n > 0 {
      RowsAreTheRows(effects, n - 1);
      var before, rows := RowsBefore(effects, n - 1), RowsBefore(effects, n);
      forall i | 0 <= i < n && effects[i].Row? ensures RowNumbered(rows, i + 1) {
        if i < n - 1 {
          assert RowNumbered(before, i + 1);
        } else {
          assert rows[|before|].number == n;
        }
      }
    }
  }

  /** The flag a row carries is the last heading's or referee note's before it: no
      heading since the last note. */
  lemma {:induction false} SelfAssessedIsTheLastNote(effects: seq<Effect>, n: nat)
    requires n <= |effects|
    ensures SelfAssessed(effects, n) <==>
            exists j | 0 <= j < n && effects[j] == Unrefereed :: forall k | j < k < n :: effects[k] != Refereed
  {
    if n > 0 {
      SelfAssessedIsTheLastNote(effects, n - 1);
      if SelfAssessed(effects, n) && effects[n - 1] != Unrefereed {
        var j :| 0 <= j < n - 1 && effects[j] == Unrefereed && forall k | j < k < n - 1 :: effects[k] != Refereed;
        assert forall k | j < k < n :: effects[k] != Refereed;
      }
    }
  }

  /** No pipe row that states a marker is dropped in silence: unless it is one of a
      table's two header lines, a page that reads without a fault yields it. */
  lemma {:induction false} NoMarkedRowIsDropped(lines: seq<string>, i: nat)
    requires i < |lines| && !Blank(lines[i])
    requires StartsWith(Strip(lines[i]), "|") && HasMarker(Strip(lines[i]))
    requires ColumnAt(lines, i).NotATable? || i - BlockStart(lines, i) >= 2
    ensures Effects(lines)[i].Row? || Effects(lines)[i] == Fault
    ensures FaultFree(Effects(lines), |lines|) ==> RowNumbered(RowsBefore(Effects(lines), |lines|), i + 1)
  {
    var text := Strip(lines[i]);
    PipeIsNoNote(text);
    assert Effects(lines)[i] == EffectOf(lines, i);
    RowsAreTheRows(Effects(lines), |lines|);
  }

  lemma {:induction false} PipeIsNoNote(text: string)
    requires StartsWith(text, "|")
    ensures !StartsWith(text, "#") && !StartsWith(text, UNREFEREED)
  {
    assert text[0] == "|"[0];
    assert UNREFEREED[0] == '*';
  }

  // ---------- the totals ----------

  function Marked(rows: seq<RuleRow>, m: char): nat {
    if rows == [] then 0
    else Marked(rows[..|rows| - 1], m) + (if rows[|rows| - 1].marker == m then 1 else 0)
  }

  function SelfAssessedRows(rows: seq<RuleRow>): (n: nat)
    ensures n <= |rows|
  {
    if rows == [] then 0
    else SelfAssessedRows(rows[..|rows| - 1]) + (if rows[|rows| - 1].selfAssessed then 1 else 0)
  }

  function MarkedAny(rows: seq<RuleRow>, markers: seq<char>): nat {
    if markers == [] then 0
    else MarkedAny(rows, markers[..|markers| - 1]) + Marked(rows, markers[|markers| - 1])
  }

  lemma {:induction false} OneMoreMarked(rows: seq<RuleRow>, markers: seq<char>)
    requires rows != [] && Distinct(markers)
    ensures MarkedAny(rows, markers) == MarkedAny(rows[..|rows| - 1], markers) +
            (if rows[|rows| - 1].marker in markers then 1 else 0)
  {
    if markers != [] {
      var front, last := markers[..|markers| - 1], markers[|markers| - 1];
      OneMoreMarked(rows, front);
      assert last !in front;
      assert markers == front + [last];
    }
  }

  /** Markers that are all told apart, and every row has one: the counts by marker
      add up to the rows. */
  lemma {:induction false} MarkersPartitionRows(rows: seq<RuleRow>, markers: seq<char>)
    requires Distinct(markers) && forall r | r in rows :: r.marker in markers
    ensures MarkedAny(rows, markers) == |rows|
  {
    if rows == [] {
      NothingMarked(markers);
    } else {
      OneMoreMarked(rows, markers);
      MarkersPartitionRows(rows[..|rows| - 1], markers);
    }
  }

  lemma {:induction false} NothingMarked(markers: seq<char>)
    ensures MarkedAny([], markers) == 0
  {
    if markers != [] {
      NothingMarked(markers[..|markers| - 1]);
    }
  }

  lemma {:induction false} RowHasMarker(lines: seq<string>, i: nat)
    requires i < |lines| && Effects(lines)[i].Row?
    ensures IsMarker(Effects(lines)[i].marker)
  {
    assert Effects(lines)[i] == EffectOf(lines, i);
  }

  predicate RowEffectsMarked(effects: seq<Effect>) {
    forall i | 0 <= i < |effects| && effects[i].Row? :: IsMarker(effects[i].marker)
  }

  lemma {:induction false} RowsAreMarked(effects: seq<Effect>, rows: seq<RuleRow>)
    requires RowEffectsMarked(effects) && rows == RowsBefore(effects, |effects|)
    ensures forall r | r in rows :: IsMarker(r.marker)
  {
    RowsAreTheRows(effects, |effects|);
  }

  lemma {:induction false} RowsHaveMarkers(lines: seq<string>, rows: seq<RuleRow>)
    requires rows == RowsBefore(Effects(lines), |lines|)
    ensures forall r | r in rows :: IsMarker(r.marker)
  {
    forall i | 0 <= i < |lines| && Effects(lines)[i].Row? ensures IsMarker(Effects(lines)[i].marker) {
      RowHasMarker(lines, i);
    }
    RowsAreMarked(Effects(lines), rows);
  }

  datatype Counts = Counts(of: map<char, nat>, selfAssessed: nat, total: nat) | Uncounted(number: nat)

  /** The counts by marker of rows that all have one. */
  method Tally(rows: seq<RuleRow>) returns (of: map<char, nat>, selfAssessed: nat)
    requires forall r | r in rows :: IsMarker(r.marker)
    ensures of.Keys == (set m | m in MARKERS) && forall m | m in MARKERS :: of[m] == Marked(rows, m)
    ensures selfAssessed == SelfAssessedRows(rows)
  {
    of, selfAssessed := map m | m in MARKERS :: 0, 0;
    for i := 0 to |rows|
      invariant of.Keys == (set m | m in MARKERS)
      invariant forall m | m in MARKERS :: of[m] == Marked(rows[..i], m)
      invariant selfAssessed == SelfAssessedRows(rows[..i])
    {
      var row := rows[i];
      assert rows[..i + 1][..i] == rows[..i];
      assert IsMarker(row.marker);
      of := of[row.marker := of[row.marker] + 1];
      if row.selfAssessed {
        selfAssessed := selfAssessed + 1;
      }
    }
    assert rows[..|rows|] == rows;
  }

  /** sum(counts[m] for m in MARKERS) */
  method Total(of: map<char, nat>, rows: seq<RuleRow>) returns (total: nat)
    requires forall r | r in rows :: IsMarker(r.marker)
    requires forall m | m in MARKERS :: m in of && of[m] == Marked(rows, m)
    ensures total == |rows|
  {
    total := 0;
    for i := 0 to |MARKERS|
      invariant total == MarkedAny(rows, MARKERS[..i])
    {
      assert MARKERS[..i + 1][..i] == MARKERS[..i];
      assert MARKERS[i] in MARKERS;
      total := total + of[MARKERS[i]];
    }
    assert MARKERS[..|MARKERS|] == MARKERS;
    assert forall r | r in rows :: IsMarker(r.marker) ==> r.marker in MARKERS;
    MarkersPartitionRows(rows, MARKERS);
  }

  /** count_rules: the six counts add up to the rows of the page, of which the
      self-assessed are some. */
  method CountRules(lines: seq<string>) returns (c: Counts)
    ensures c.Counts? <==> FaultFree(Effects(lines), |lines|)
    ensures c.Counts? ==>
              var rows := RowsBefore(Effects(lines), |lines|);
              c.total == |rows| && c.selfAssessed == SelfAssessedRows(rows) <= c.total &&
              c.of.Keys == (set m | m in MARKERS) && forall m | m in MARKERS :: c.of[m] == Marked(rows, m)
  {
    var census := CollectRows(lines);
    if census.Malformed? {
      return Uncounted(census.number);
    }
    RowsHaveMarkers(lines, census.rows);
    var of, selfAssessed := Tally(census.rows);
    var total := Total(of, census.rows);
    return Counts(of, selfAssessed, total);
  }
}
