/** Splitting a Markdown table row into cells: a pipe divides unless it is escaped
    or stands inside a code span. */
module TableCells {
  import opened Text

  // ---------- tokens ----------

  /** A run of backticks, with the backslash before it when that escapes it; the
      ends are inclusive and `size` counts the backticks. */
  datatype Tics = Tics(start: nat, end: nat, size: nat, escaped: nat)

  datatype Scan = Scan(pipes: seq<nat>, tics: seq<Tics>)

  function RunEnd(row: string, i: nat): (e: nat)
    requires i <= |row|
    ensures i <= e <= |row|
    ensures forall k | i <= k < e :: row[k] == '`'
    ensures e < |row| ==> row[e] != '`'
    decreases |row| - i
  {
    if i < |row| && row[i] == '`' then RunEnd(row, i + 1) else i
  }

  /** What the pattern's alternatives match at i: how far, and what is noted. */
  datatype Match = Match(next: nat, noted: Noted)

  datatype Noted = Nothing | APipe(at: nat) | SomeTics(tics: Tics)

  function MatchAt(row: string, i: nat): (m: Match)
    requires i < |row|
    ensures i < m.next <= |row|
  {
    if row[i] == '\\' && i + 1 < |row| && row[i + 1] == '\\' then Match(i + 2, Nothing)
    else if row[i] == '\\' && i + 1 < |row| && row[i + 1] == '`' then
      var e := RunEnd(row, i + 1);
      Match(e, SomeTics(Tics(i, e - 1, e - (i + 1), 1)))
    else if row[i] == '`' then
      var e := RunEnd(row, i);
      Match(e, SomeTics(Tics(i, e - 1, e - i, 0)))
    else if row[i] == '\\' && i + 1 < |row| && row[i + 1] == '|' then Match(i + 2, Nothing)
    else if row[i] == '|' then Match(i + 1, APipe(i))
    else Match(i + 1, Nothing)
  }

  /** The pipes and the backtick runs from i on, left to right. */
  function ScanFrom(row: string, i: nat): Scan
    requires i <= |row|
    decreases |row| - i
  {
    if i == |row| then Scan([], [])
    else
      var m := MatchAt(row, i);
      var rest := ScanFrom(row, m.next);
      match m.noted
      case Nothing => rest
      case APipe(at) => Scan([at] + rest.pipes, rest.tics)
      case SomeTics(t) => Scan(rest.pipes, [t] + rest.tics)
  }

  // ---------- code spans ----------

  function FirstOfSize(tics: seq<Tics>, size: nat, i: nat): (j: nat)
    requires i <= |tics|
    ensures i <= j <= |tics|
    ensures j < |tics| ==> tics[j].size == size
    ensures forall k | i <= k < j :: tics[k].size != size
    decreases |tics| - i
  {
    if i == |tics| || tics[i].size == size then i else FirstOfSize(tics, size, i + 1)
  }

  datatype Region = Region(begin: nat, end: nat)

  /** An opening run's size, its first backtick lost to the escape. */
  function OpeningSize(t: Tics): nat {
    if t.size >= t.escaped then t.size - t.escaped else 0
  }

  /** Each run opens a span that the next run of its size closes; one that none
      closes, or of which the escape leaves nothing, opens none. */
  function Regions(tics: seq<Tics>, pos: nat): seq<Region>
    requires pos <= |tics|
    decreases |tics| - pos
  {
    if pos == |tics| then []
    else
      var j := FirstOfSize(tics, OpeningSize(tics[pos]), pos + 1);
      if OpeningSize(tics[pos]) == 0 || j == |tics| then Regions(tics, pos + 1)
      else [Region(tics[pos].start, tics[j].end)] + Regions(tics, j + 1)
  }

  predicate Within(regions: seq<Region>, i: nat) {
    exists r | r in regions :: r.begin <= i <= r.end
  }

  // ---------- cutting ----------

  /** The pipes that divide. */
  function Cuts(pipes: seq<nat>, regions: seq<Region>): seq<nat> {
    if pipes == [] then []
    else
      var before := Cuts(pipes[..|pipes| - 1], regions);
      var last := pipes[|pipes| - 1];
      if Within(regions, last) then before else before + [last]
  }

  predicate Increasing(s: seq<nat>, from: nat, to: nat) {
    (forall i | 0 <= i < |s| :: from <= s[i] < to) && forall i, j | 0 <= i < j < |s| :: s[i] < s[j]
  }

  /** Where the cell after the last cut starts. */
  function After(cuts: seq<nat>): nat {
    if cuts == [] then 0 else cuts[|cuts| - 1] + 1
  }

  lemma {:induction false} IncreasingFront(cuts: seq<nat>, to: nat)
    requires Increasing(cuts, 0, to) && cuts != []
    ensures Increasing(cuts[..|cuts| - 1], 0, cuts[|cuts| - 1])
    ensures After(cuts[..|cuts| - 1]) <= cuts[|cuts| - 1] < to
  {
  }

  /** The cells the cuts complete, as written. */
  function CellsBefore(row: string, cuts: seq<nat>): (cells: seq<string>)
    requires Increasing(cuts, 0, |row|)
    ensures |cells| == |cuts|
  {
    if cuts == [] then []
    else
      var front, last := cuts[..|cuts| - 1], cuts[|cuts| - 1];
      IncreasingFront(cuts, |row|);
      CellsBefore(row, front) + [row[After(front)..last]]
  }

  function Join(cells: seq<string>): string {
    if cells == [] then "" else if |cells| == 1 then cells[0] else cells[0] + "|" + Join(cells[1..])
  }

  // ---------- scanning is about backslashes ----------

  /** How many backslashes stand right before i. */
  function Backslashes(row: string, i: nat): (n: nat)
    requires i <= |row|
    ensures n <= i
  {
    if i > 0 && row[i - 1] == '\\' then 1 + Backslashes(row, i - 1) else 0
  }

  predicate Escaped(row: string, i: nat)
    requires i <= |row|
  {
    Backslashes(row, i) % 2 == 1
  }

  /** A position a scan can stand at: no escape is pending there, unless for a
      character no escape matters to. */
  predicate Boundary(row: string, i: nat)
    requires i <= |row|
  {
    i == |row| || !Escaped(row, i) || (row[i] != '\\' && row[i] != '`' && row[i] != '|')
  }

  lemma {:induction false} MatchKeepsBoundary(row: string, i: nat)
    requires i < |row| && Boundary(row, i)
    ensures Boundary(row, MatchAt(row, i).next)
  {
    var next := MatchAt(row, i).next;
    assert Backslashes(row, i + 1) == if row[i] == '\\' then Backslashes(row, i) + 1 else 0;
    if next == i + 2 {
      assert Backslashes(row, i + 2) == if row[i + 1] == '\\' then Backslashes(row, i + 1) + 1 else 0;
    }
  }

  /** The position is a pipe no escape takes away. */
  predicate BarePipe(row: string, i: nat) {
    i < |row| && row[i] == '|' && !Escaped(row, i)
  }

  lemma {:induction false} MatchedPipe(row: string, i: nat, k: nat)
    requires i < |row| && Boundary(row, i) && i <= k < MatchAt(row, i).next
    ensures BarePipe(row, k) <==> MatchAt(row, i).noted == APipe(k)
  {
    assert Backslashes(row, i + 1) == if row[i] == '\\' then Backslashes(row, i) + 1 else 0;
  }

  /** The pipes noted are exactly those an even number of backslashes precedes. */
  lemma {:induction false} PipesAreBare(row: string, i: nat)
    requires i <= |row| && Boundary(row, i)
    ensures Increasing(ScanFrom(row, i).pipes, i, |row|)
    ensures forall k | i <= k < |row| :: k in ScanFrom(row, i).pipes <==> BarePipe(row, k)
    decreases |row| - i
  {
    if i < |row| {
      var m := MatchAt(row, i);
      var rest := ScanFrom(row, m.next).pipes;
      MatchKeepsBoundary(row, i);
      PipesAreBare(row, m.next);
      forall k | i <= k < |row| ensures k in ScanFrom(row, i).pipes <==> BarePipe(row, k) {
        if k < m.next {
          MatchedPipe(row, i, k);
          assert k !in rest;
        }
      }
    }
  }

  /** A whole run of backticks, noted escaped when an odd number of backslashes
      precedes it. */
  predicate WholeRun(row: string, t: Tics) {
    var first := t.start + t.escaped;
    t.escaped <= 1 && first <= t.end < |row| && t.size == t.end + 1 - first &&
    (forall k | first <= k <= t.end :: row[k] == '`') &&
    (first > 0 ==> row[first - 1] != '`') && (t.end + 1 < |row| ==> row[t.end + 1] != '`') &&
    (t.escaped == 1 <==> Escaped(row, first))
  }

  predicate InOrder(tics: seq<Tics>, from: nat) {
    (forall i | 0 <= i < |tics| :: from <= tics[i].start <= tics[i].end) &&
    forall i, j | 0 <= i < j < |tics| :: tics[i].end < tics[j].start
  }

  /** No backtick stands right before a position the scan begins a run at. */
  predicate RunStarts(row: string, i: nat)
    requires i <= |row|
  {
    i == 0 || i == |row| || row[i] != '`' || row[i - 1] != '`'
  }

  lemma {:induction false} MatchedTics(row: string, i: nat)
    requires i < |row| && Boundary(row, i) && RunStarts(row, i)
    ensures RunStarts(row, MatchAt(row, i).next)
    ensures MatchAt(row, i).noted.SomeTics? ==>
              var t := MatchAt(row, i).noted.tics;
              WholeRun(row, t) && t.start == i && t.end + 1 == MatchAt(row, i).next
    ensures forall k | i <= k < MatchAt(row, i).next && row[k] == '`' :: MatchAt(row, i).noted.SomeTics?
  {
    assert Backslashes(row, i + 1) == if row[i] == '\\' then Backslashes(row, i) + 1 else 0;
  }

  predicate TicsCover(row: string, tics: seq<Tics>, from: nat) {
    forall k | from <= k < |row| && row[k] == '`' :: exists t | t in tics :: t.start + t.escaped <= k <= t.end
  }

  /** A match and what the scan notes after it make up what it notes from there. */
  lemma {:induction false} CoverNext(row: string, i: nat, next: nat, noted: seq<Tics>, rest: seq<Tics>)
    requires i <= next <= |row| && TicsCover(row, rest, next)
    requires forall k | i <= k < next && row[k] == '`' ::
               exists t | t in noted :: t.start + t.escaped <= k <= t.end
    ensures TicsCover(row, noted + rest, i)
  {
    forall k | i <= k < |row| && row[k] == '`'
      ensures exists t | t in noted + rest :: t.start + t.escaped <= k <= t.end
    {
      if k < next {
        var t :| t in noted && t.start + t.escaped <= k <= t.end;
        assert t in noted + rest;
      } else {
        var t :| t in rest && t.start + t.escaped <= k <= t.end;
        assert t in noted + rest;
      }
    }
  }

  function NotedTics(m: Match): seq<Tics> {
    if m.noted.SomeTics? then [m.noted.tics] else []
  }

  lemma {:induction false} MatchCovers(row: string, i: nat)
    requires i < |row| && Boundary(row, i) && RunStarts(row, i)
    ensures forall k | i <= k < MatchAt(row, i).next && row[k] == '`' ::
              exists t | t in NotedTics(MatchAt(row, i)) :: t.start + t.escaped <= k <= t.end
  {
    MatchedTics(row, i);
    var m := MatchAt(row, i);
    forall k | i <= k < m.next && row[k] == '`'
      ensures exists t | t in NotedTics(m) :: t.start + t.escaped <= k <= t.end
    {
      assert m.noted.tics in NotedTics(m);
    }
  }

  lemma {:induction false} ScanNotes(row: string, i: nat)
    requires i < |row|
    ensures ScanFrom(row, i).tics == NotedTics(MatchAt(row, i)) + ScanFrom(row, MatchAt(row, i).next).tics
  {
  }

  /** The runs noted are exactly the row's maximal runs of backticks, in order. */
  lemma {:induction false} TicsAreRuns(row: string, i: nat)
    requires i <= |row| && Boundary(row, i) && RunStarts(row, i)
    ensures InOrder(ScanFrom(row, i).tics, i)
    ensures forall t | t in ScanFrom(row, i).tics :: WholeRun(row, t)
    ensures TicsCover(row, ScanFrom(row, i).tics, i)
    decreases |row| - i
  {
    if i < |row| {
      var next := MatchAt(row, i).next;
      var noted, rest := NotedTics(MatchAt(row, i)), ScanFrom(row, next).tics;
      MatchKeepsBoundary(row, i);
      MatchedTics(row, i);
      TicsAreRuns(row, next);
      ScanNotes(row, i);
      MatchCovers(row, i);
      CoverNext(row, i, next, noted, rest);
    }
  }

  // ---------- spans ----------

  predicate Disjoint(regions: seq<Region>, from: nat) {
    (forall i | 0 <= i < |regions| :: from <= regions[i].begin <= regions[i].end) &&
    forall i, j | 0 <= i < j < |regions| :: regions[i].end < regions[j].begin
  }

  /** Code spans stand apart and in order. */
  lemma {:induction false} RegionsAreDisjoint(tics: seq<Tics>, pos: nat, from: nat)
    requires pos <= |tics| && InOrder(tics, 0)
    requires forall i | pos <= i < |tics| :: from <= tics[i].start
    ensures Disjoint(Regions(tics, pos), from)
    decreases |tics| - pos
  {
    if pos < |tics| {
      var j := FirstOfSize(tics, OpeningSize(tics[pos]), pos + 1);
      if OpeningSize(tics[pos]) == 0 || j == |tics| {
        RegionsAreDisjoint(tics, pos + 1, from);
      } else {
        RegionsAreDisjoint(tics, j + 1, tics[j].end + 1);
      }
    }
  }

  /** Nothing after the run closes it. */
  predicate StaysOpen(tics: seq<Tics>, p: nat)
    requires p < |tics|
  {
    OpeningSize(tics[p]) == 0 || forall k | p < k < |tics| :: tics[k].size != OpeningSize(tics[p])
  }

  lemma {:induction false} UnclosedStaysOpen(tics: seq<Tics>, p: nat)
    requires p < |tics| && FirstOfSize(tics, OpeningSize(tics[p]), p + 1) == |tics|
    ensures StaysOpen(tics, p)
  {
  }

  lemma {:induction false} RegionsNext(tics: seq<Tics>, pos: nat, j: nat)
    requires pos < j < |tics| && OpeningSize(tics[pos]) > 0
    requires j == FirstOfSize(tics, OpeningSize(tics[pos]), pos + 1)
    ensures Regions(tics, pos) == [Region(tics[pos].start, tics[j].end)] + Regions(tics, j + 1)
  {
  }

  lemma {:induction false} StartsBetween(tics: seq<Tics>, i: nat, p: nat, j: nat)
    requires i <= p <= j < |tics| && InOrder(tics, 0)
    ensures tics[i].start <= tics[p].start <= tics[j].end
  {
  }

  lemma {:induction false} FirstRegionCovers(tics: seq<Tics>, pos: nat, j: nat, p: nat, rest: seq<Region>)
    requires pos <= p <= j < |tics| && InOrder(tics, 0)
    ensures Within([Region(tics[pos].start, tics[j].end)] + rest, tics[p].start)
  {
    StartsBetween(tics, pos, p, j);
    WithinFirst(Region(tics[pos].start, tics[j].end), rest, tics[p].start);
  }

  /** A run no span covers opens none: nothing after it closes it. */
  lemma {:induction false} UncoveredRunsStayOpen(tics: seq<Tics>, pos: nat, p: nat)
    requires pos <= p < |tics| && InOrder(tics, 0)
    ensures Within(Regions(tics, pos), tics[p].start) || StaysOpen(tics, p)
    decreases |tics| - pos, 1
  {
    var j := FirstOfSize(tics, OpeningSize(tics[pos]), pos + 1);
    if OpeningSize(tics[pos]) == 0 || j == |tics| {
      if p > pos {
        UncoveredRunsStayOpen(tics, pos + 1, p);
      } else if j == |tics| {
        UnclosedStaysOpen(tics, pos);
      }
    } else {
      RegionsNext(tics, pos, j);
      UncoveredPastFirst(tics, pos, j, p);
    }
  }

  lemma {:induction false} UncoveredPastFirst(tics: seq<Tics>, pos: nat, j: nat, p: nat)
    requires pos < j < |tics| && pos <= p < |tics| && InOrder(tics, 0)
    ensures Within([Region(tics[pos].start, tics[j].end)] + Regions(tics, j + 1), tics[p].start) ||
            StaysOpen(tics, p)
    decreases |tics| - pos, 0
  {
    var rest := Regions(tics, j + 1);
    if p <= j {
      FirstRegionCovers(tics, pos, j, p, rest);
    } else {
      UncoveredRunsStayOpen(tics, j + 1, p);
      WithinRest(Region(tics[pos].start, tics[j].end), rest, tics[p].start);
    }
  }

  lemma {:induction false} WithinFirst(first: Region, rest: seq<Region>, i: nat)
    requires first.begin <= i <= first.end
    ensures Within([first] + rest, i)
  {
    assert ([first] + rest)[0] == first;
  }

  lemma {:induction false} WithinRest(first: Region, rest: seq<Region>, i: nat)
    ensures Within(rest, i) ==> Within([first] + rest, i)
  {
  }

  // ---------- the whole split ----------

  lemma {:induction false} CutsAreDividing(pipes: seq<nat>, regions: seq<Region>, to: nat)
    requires Increasing(pipes, 0, to)
    ensures Increasing(Cuts(pipes, regions), 0, to)
    ensures forall k :: k in Cuts(pipes, regions) <==> k in pipes && !Within(regions, k)
  {
    if pipes != [] {
      var before := pipes[..|pipes| - 1];
      var last := pipes[|pipes| - 1];
      CutsAreDividing(before, regions, last);
      assert pipes == before + [last];
    }
  }

  lemma {:induction false} JoinLast(cells: seq<string>, last: string)
    ensures Join(cells + [last]) == if cells == [] then last else Join(cells) + "|" + last
  {
    if cells != [] {
      assert (cells + [last])[1..] == cells[1..] + [last];
      JoinLast(cells[1..], last);
    }
  }

  lemma {:induction false} CellsJoin(row: string, cuts: seq<nat>, k: nat)
    requires Increasing(cuts, 0, |row|) && After(cuts) <= k <= |row|
    requires forall c | c in cuts :: row[c] == '|'
    ensures Join(CellsBefore(row, cuts) + [row[After(cuts)..k]]) == row[..k]
  {
    JoinLast(CellsBefore(row, cuts), row[After(cuts)..k]);
    if cuts != [] {
      var front, last := cuts[..|cuts| - 1], cuts[|cuts| - 1];
      IncreasingFront(cuts, |row|);
      CellsJoin(row, front, last);
      assert row[last] == '|';
      assert row[..k] == row[..last] + "|" + row[last + 1..k];
    }
  }

  function CodeSpans(row: string): seq<Region> {
    Regions(ScanFrom(row, 0).tics, 0)
  }

  function CutsOf(row: string): seq<nat> {
    Cuts(ScanFrom(row, 0).pipes, CodeSpans(row))
  }

  lemma {:induction false} CutsIncrease(row: string)
    ensures Increasing(CutsOf(row), 0, |row|)
  {
    PipesAreBare(row, 0);
    CutsAreDividing(ScanFrom(row, 0).pipes, CodeSpans(row), |row|);
  }

  /** The border-stripped row's cells, as written. */
  function RawCells(row: string): seq<string> {
    CutsIncrease(row);
    CellsBefore(row, CutsOf(row)) + [row[After(CutsOf(row))..]]
  }

  /** Splitting conserves the row, and divides it at exactly the pipes that are
      neither escaped nor inside a code span; the spans stand apart, in order. */
  lemma {:induction false} SplitConserves(row: string)
    ensures Join(RawCells(row)) == row
    ensures forall k :: k in CutsOf(row) <==> BarePipe(row, k) && !Within(CodeSpans(row), k)
    ensures Disjoint(CodeSpans(row), 0)
  {
    var scan := ScanFrom(row, 0);
    PipesAreBare(row, 0);
    CutsIncrease(row);
    TicsAreRuns(row, 0);
    RegionsAreDisjoint(scan.tics, 0, 0);
    CutsAreDividing(scan.pipes, CodeSpans(row), |row|);
    CellsJoin(row, CutsOf(row), |row|);
    assert row[..|row|] == row && row[After(CutsOf(row))..|row|] == row[After(CutsOf(row))..];
  }

  // ---------- the row as given ----------

  function StripSpaces(s: string): string {
    if s != [] && s[0] == ' ' then StripSpaces(s[1..])
    else if s != [] && s[|s| - 1] == ' ' then StripSpaces(s[..|s| - 1])
    else s
  }

  /** _strip_end_border: a closing pipe goes, with the backslashes that escape
      each other before it. */
  function StripEndBorder(row: string): string {
    if row == [] || row[|row| - 1] != '|' || Escaped(row, |row| - 1) then row
    else row[..|row| - 1 - Backslashes(row, |row| - 1)]
  }

  function Slashes(n: nat): (r: string)
    ensures |r| == n && forall i | 0 <= i < n :: r[i] == '\\'
  {
    if n == 0 then "" else Slashes(n - 1) + ['\\']
  }

  lemma {:induction false} SlashesCounted(body: string, n: nat, rest: string)
    requires body == [] || body[|body| - 1] != '\\'
    ensures Backslashes(body + Slashes(n) + rest, |body| + n) == n
  {
    var row := body + Slashes(n) + rest;
    if n > 0 {
      assert row == body + Slashes(n - 1) + (['\\'] + rest);
      SlashesCounted(body, n - 1, ['\\'] + rest);
      assert row[|body| + n - 1] == '\\';
    } else if body != [] {
      assert row[|body| - 1] == body[|body| - 1];
    }
  }

  /** A closing pipe is a border unless an odd run of backslashes escapes it, and
      goes with the whole run. */
  lemma {:induction false} EndBorderIsAnUnescapedPipe(body: string, n: nat)
    requires body == [] || body[|body| - 1] != '\\'
    ensures StripEndBorder(body + Slashes(n) + "|") ==
            if n % 2 == 0 then body else body + Slashes(n) + "|"
  {
    var row := body + Slashes(n) + "|";
    SlashesCounted(body, n, "|");
    assert row[|row| - 1] == '|';
    assert row[..|body|] == body;
  }

  /** The row between its borders. */
  function Inner(row: string): string {
    var r := StripSpaces(row);
    StripEndBorder(if r != [] && r[0] == '|' then r[1..] else r)
  }

  function StripAll(cells: seq<string>): (r: seq<string>)
    ensures |r| == |cells|
  {
    if cells == [] then [] else [Strip(cells[0])] + StripAll(cells[1..])
  }

  function Cells(row: string): (r: seq<string>)
    ensures r != []
  {
    StripAll(RawCells(Inner(row)))
  }

  // ---------- the loops of split_cells ----------

  method ScanRow(row: string) returns (pipes: seq<nat>, tics: seq<Tics>)
    ensures Scan(pipes, tics) == ScanFrom(row, 0)
  {
    pipes, tics := [], [];
    var i := 0;
    while i < |row|
      invariant i <= |row|
      invariant ScanFrom(row, 0) == Scan(pipes + ScanFrom(row, i).pipes, tics + ScanFrom(row, i).tics)
    {
      var m := MatchAt(row, i);
      match m.noted {
        case Nothing =>
        case APipe(at) => pipes := pipes + [at];
        case SomeTics(t) => tics := tics + [t];
      }
      i := m.next;
    }
  }

  method FindRegions(tics: seq<Tics>) returns (regions: seq<Region>)
    ensures regions == Regions(tics, 0)
  {
    regions := [];
    var pos := 0;
    while pos < |tics|
      invariant pos <= |tics|
      invariant Regions(tics, 0) == regions + Regions(tics, pos)
    {
      var size := OpeningSize(tics[pos]);
      var index := FirstOfSize(tics, size, pos + 1);
      if size == 0 || index == |tics| {
        pos := pos + 1;
      } else {
        regions := regions + [Region(tics[pos].start, tics[index].end)];
        pos := index + 1;
      }
    }
  }

  /** One more cut completes one more cell. */
  lemma {:induction false} CellsNext(row: string, cuts: seq<nat>, pipe: nat)
    requires Increasing(cuts, 0, |row|) && pipe < |row| && forall c | c in cuts :: c < pipe
    ensures Increasing(cuts + [pipe], 0, |row|) && After(cuts) <= pipe
    ensures CellsBefore(row, cuts + [pipe]) == CellsBefore(row, cuts) + [row[After(cuts)..pipe]]
  {
    assert (cuts + [pipe])[..|cuts|] == cuts;
    assert cuts != [] ==> cuts[|cuts| - 1] in cuts;
  }

  lemma {:induction false} CutsNext(pipes: seq<nat>, regions: seq<Region>, i: nat)
    requires i < |pipes|
    ensures Cuts(pipes[..i + 1], regions) ==
            Cuts(pipes[..i], regions) + if Within(regions, pipes[i]) then [] else [pipes[i]]
  {
    assert pipes[..i + 1][..i] == pipes[..i];
  }

  lemma {:induction false} CutStep(row: string, pipes: seq<nat>, regions: seq<Region>, i: nat, cuts: seq<nat>)
    requires Increasing(pipes, 0, |row|) && i < |pipes| && cuts == Cuts(pipes[..i], regions)
    ensures Increasing(cuts, 0, |row|) && After(cuts) <= pipes[i] < |row|
    ensures Cuts(pipes[..i + 1], regions) == if Within(regions, pipes[i]) then cuts else cuts + [pipes[i]]
    ensures Increasing(cuts + [pipes[i]], 0, |row|)
    ensures CellsBefore(row, cuts + [pipes[i]]) == CellsBefore(row, cuts) + [row[After(cuts)..pipes[i]]]
  {
    assert Increasing(pipes[..i], 0, pipes[i]);
    CutsAreDividing(pipes[..i], regions, pipes[i]);
    CutsNext(pipes, regions, i);
    CellsNext(row, cuts, pipes[i]);
  }

  /** The last loop: cut at each pipe outside every span. */
  method Cut(row: string, pipes: seq<nat>, regions: seq<Region>) returns (cells: seq<string>)
    requires Increasing(pipes, 0, |row|)
    ensures Increasing(Cuts(pipes, regions), 0, |row|)
    ensures cells == CellsBefore(row, Cuts(pipes, regions)) + [row[After(Cuts(pipes, regions))..]]
  {
    cells := [];
    var start := 0;
    ghost var cuts: seq<nat> := [];
    for i := 0 to |pipes|
      invariant cuts == Cuts(pipes[..i], regions) && Increasing(cuts, 0, |row|)
      invariant start == After(cuts) && cells == CellsBefore(row, cuts)
    {
      CutStep(row, pipes, regions, i, cuts);
      if !Within(regions, pipes[i]) {
        cells := cells + [row[start..pipes[i]]];
        start := pipes[i] + 1;
        cuts := cuts + [pipes[i]];
      }
    }
    assert pipes[..|pipes|] == pipes;
    cells := cells + [row[start..]];
  }

  /** split_cells: scan, pair the runs into spans, cut at the pipes left. */
  method SplitCells(row: string) returns (cells: seq<string>)
    ensures cells == Cells(row)
  {
    var inner := Inner(row);
    var pipes, tics := ScanRow(inner);
    var regions := FindRegions(tics);
    PipesAreBare(inner, 0);
    var raw := Cut(inner, pipes, regions);
    return StripAll(raw);
  }
}
