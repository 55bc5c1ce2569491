/** CHANGELOG.md as text: where "## Unreleased" is, what its sections hold, and
    how they print.  A text is its lines, split at each newline; so it has at
    least one, and a text ending in a newline ends in an empty line. */
module ChangelogText {

  import opened Text

  type Line = string

  // ---------- headings ----------

  /** "## Unreleased", spaces and tabs after it allowed. */
  predicate IsUnreleased(line: Line) {
    StartsWith(line, "## Unreleased") && forall c | c in line[13..] :: c == ' ' || c == '\t'
  }

  predicate IsVersion(line: Line) {
    StartsWith(line, "## ") && !StartsWith(line[3..], "Unreleased")
  }

  predicate IsSection(line: Line) {
    StartsWith(line, "### ")
  }

  function SectionName(line: Line): string
    requires IsSection(line)
  {
    Strip(line[4..])
  }

  /** The first Unreleased heading at or after i that a newline ends. */
  function FindUnreleased(text: seq<Line>, i: nat): (u: nat)
    ensures i <= |text| ==> i <= u <= |text|
    ensures u < |text| ==> u + 1 < |text|
    decreases |text| - i
  {
    if i + 1 >= |text| then |text|
    else if IsUnreleased(text[i]) then i
    else FindUnreleased(text, i + 1)
  }

  function FindVersion(text: seq<Line>, i: nat): (e: nat)
    requires i <= |text|
    ensures i <= e <= |text|
    decreases |text| - i
  {
    if i == |text| then i else if IsVersion(text[i]) then i else FindVersion(text, i + 1)
  }

  lemma {:induction false} UnreleasedFound(text: seq<Line>, i: nat)
    ensures var u := FindUnreleased(text, i);
            (u < |text| ==> IsUnreleased(text[u])) &&
            forall j | i <= j < u && j + 1 < |text| :: !IsUnreleased(text[j])
    decreases |text| - i
  {
    if i + 1 < |text| && !IsUnreleased(text[i]) {
      UnreleasedFound(text, i + 1);
    }
  }

  lemma {:induction false} UnreleasedIsAt(text: seq<Line>, i: nat, u: nat)
    requires i <= u && u + 1 < |text| && IsUnreleased(text[u])
    requires forall j | i <= j < u :: !IsUnreleased(text[j])
    ensures FindUnreleased(text, i) == u
    decreases u - i
  {
    if i < u {
      UnreleasedIsAt(text, i + 1, u);
    }
  }

  lemma {:induction false} VersionFound(text: seq<Line>, i: nat)
    requires i <= |text|
    ensures var e := FindVersion(text, i);
            (e < |text| ==> IsVersion(text[e])) && forall j | i <= j < e :: !IsVersion(text[j])
    decreases |text| - i
  {
    if i < |text| && !IsVersion(text[i]) {
      VersionFound(text, i + 1);
    }
  }

  lemma {:induction false} VersionIsAt(text: seq<Line>, i: nat, e: nat)
    requires i <= e <= |text| && (e < |text| ==> IsVersion(text[e]))
    requires forall j | i <= j < e :: !IsVersion(text[j])
    ensures FindVersion(text, i) == e
    decreases e - i
  {
    if i < e {
      VersionIsAt(text, i + 1, e);
    }
  }

  predicate HasUnreleased(text: seq<Line>) {
    FindUnreleased(text, 0) < |text|
  }

  /** _unreleased_bounds: the body's first line and the line after its last. */
  function Start(text: seq<Line>): (s: nat)
    requires HasUnreleased(text)
    ensures 0 < s < |text|
  {
    FindUnreleased(text, 0) + 1
  }

  function End(text: seq<Line>): (e: nat)
    requires HasUnreleased(text)
    ensures Start(text) <= e <= |text|
  {
    FindVersion(text, Start(text))
  }

  function Body(text: seq<Line>): seq<Line>
    requires HasUnreleased(text)
  {
    text[Start(text)..End(text)]
  }

  // ---------- blank lines ----------

  function DropLeading(lines: seq<Line>): (r: seq<Line>)
    ensures |r| <= |lines| && r == lines[|lines| - |r|..]
    ensures r != [] ==> r[0] != ""
    ensures forall i | 0 <= i < |lines| - |r| :: lines[i] == ""
  {
    if lines != [] && lines[0] == "" then DropLeading(lines[1..]) else lines
  }

  function DropTrailing(lines: seq<Line>): (r: seq<Line>)
    ensures |r| <= |lines| && r == lines[..|r|]
    ensures r != [] ==> r[|r| - 1] != ""
    ensures forall i | |r| <= i < |lines| :: lines[i] == ""
  {
    if lines != [] && lines[|lines| - 1] == "" then DropTrailing(lines[..|lines| - 1]) else lines
  }

  /** strip("\n"): the lines without the empty ones at either end. */
  function Trim(lines: seq<Line>): seq<Line> {
    DropTrailing(DropLeading(lines))
  }

  predicate Trimmed(lines: seq<Line>) {
    lines != [] ==> lines[0] != "" && lines[|lines| - 1] != ""
  }

  predicate AllEmpty(lines: seq<Line>) {
    forall i | 0 <= i < |lines| :: lines[i] == ""
  }

  lemma {:induction false} TrailingIsUnique(lines: seq<Line>, blank: seq<Line>)
    requires AllEmpty(blank) && (lines != [] ==> lines[|lines| - 1] != "")
    ensures DropTrailing(lines + blank) == lines
  {
    var all := lines + blank;
    assert lines != [] ==> all[|lines| - 1] == lines[|lines| - 1];
    assert forall i | |lines| <= i < |all| :: all[i] == blank[i - |lines|];
  }

  lemma {:induction false} LeadingIsUnique(lines: seq<Line>, blank: seq<Line>)
    requires AllEmpty(blank) && (lines != [] ==> lines[0] != "")
    ensures DropLeading(blank + lines) == lines
  {
    var all := blank + lines;
    var r := DropLeading(all);
    assert lines != [] ==> all[|blank|] == lines[0];
    assert r != [] ==> r[0] == all[|all| - |r|];
    assert forall i | 0 <= i < |blank| :: all[i] == blank[i];
  }

  lemma {:induction false} TrimIsTrimmed(lines: seq<Line>)
    ensures Trimmed(Trim(lines))
  {
  }

  /** Trimming takes off exactly the blank padding. */
  lemma {:induction false} TrimPadded(before: seq<Line>, lines: seq<Line>, after: seq<Line>)
    requires AllEmpty(before) && AllEmpty(after) && Trimmed(lines)
    ensures Trim(before + lines + after) == lines
  {
    if lines == [] {
      assert AllEmpty(before + lines + after);
      AllEmptyTrims(before + lines + after);
    } else {
      assert before + lines + after == before + (lines + after);
      LeadingIsUnique(lines + after, before);
      TrailingIsUnique(lines, after);
    }
  }

  lemma {:induction false} AllEmptyTrims(lines: seq<Line>)
    requires AllEmpty(lines)
    ensures Trim(lines) == []
  {
    LeadingIsUnique([], lines);
    assert lines + [] == lines;
  }

  // ---------- sections ----------

  datatype Section = Section(name: string, content: seq<Line>)

  /** A body read: its preamble, and its sections with the blank lines around
      each content gone, as every use of them strips those. */
  datatype Parsed = Parsed(preamble: seq<Line>, sections: seq<Section>)

  /** _split_sections: the lines before the first heading, and per heading its
      name and the lines up to the next. */
  function Split(body: seq<Line>): (r: (seq<Line>, seq<Section>))
  {
    if body == [] then ([], [])
    else
      var (lines, sections) := Split(body[1..]);
      if IsSection(body[0]) then ([], [Section(SectionName(body[0]), lines)] + sections)
      else ([body[0]] + lines, sections)
  }

  function TrimAll(sections: seq<Section>): (r: seq<Section>)
    ensures |r| == |sections|
  {
    if sections == [] then []
    else [Section(sections[0].name, Trim(sections[0].content))] + TrimAll(sections[1..])
  }

  /** A preamble of nothing but space is none; another loses its last blank lines. */
  function ReadPreamble(lines: seq<Line>): seq<Line> {
    if forall i | 0 <= i < |lines| :: AllSpace(lines[i]) then [] else DropTrailing(lines)
  }

  function Read(body: seq<Line>): Parsed {
    var (lines, sections) := Split(body);
    Parsed(ReadPreamble(lines), TrimAll(sections))
  }

  function PrintSection(s: Section): seq<Line> {
    ["### " + s.name, ""] + (if s.content == [] then [""] else s.content) + [""]
  }

  function PrintSections(sections: seq<Section>): seq<Line> {
    if sections == [] then [] else PrintSection(sections[0]) + PrintSections(sections[1..])
  }

  function PrintPreamble(lines: seq<Line>): seq<Line> {
    if lines == [] then [""] else lines + [""]
  }

  /** What fold writes between the bounds. */
  function Print(p: Parsed): seq<Line> {
    PrintPreamble(p.preamble) + PrintSections(p.sections)
  }

  // ---------- reading what was printed ----------

  predicate NoHeadings(lines: seq<Line>) {
    forall i | 0 <= i < |lines| :: !IsSection(lines[i]) && !IsVersion(lines[i])
  }

  predicate GoodSection(s: Section) {
    Strip(s.name) == s.name && Trimmed(s.content) && NoHeadings(s.content)
  }

  predicate GoodSections(sections: seq<Section>) {
    forall i | 0 <= i < |sections| :: GoodSection(sections[i])
  }

  predicate Good(p: Parsed) {
    NoHeadings(p.preamble) && ReadPreamble(p.preamble) == p.preamble && GoodSections(p.sections)
  }

  lemma {:induction false} SplitLines(lines: seq<Line>, rest: seq<Line>)
    requires forall i | 0 <= i < |lines| :: !IsSection(lines[i])
    ensures Split(lines + rest) == (lines + Split(rest).0, Split(rest).1)
  {
    if lines == [] {
      assert lines + rest == rest;
      assert [] + Split(rest).0 == Split(rest).0;
    } else {
      assert (lines + rest)[1..] == lines[1..] + rest;
      SplitLines(lines[1..], rest);
      assert [lines[0]] + (lines[1..] + Split(rest).0) == lines + Split(rest).0;
    }
  }

  lemma {:induction false} BlankIsNoHeading()
    ensures !IsSection("") && !IsVersion("")
  {
  }

  lemma {:induction false} HeadingOf(name: string)
    ensures IsSection("### " + name) && ("### " + name)[4..] == name
  {
  }

  /** A content as printed, between blank lines. */
  function Padded(content: seq<Line>): seq<Line> {
    [""] + (if content == [] then [""] else content) + [""]
  }

  lemma {:induction false} PaddedTrims(content: seq<Line>, blank: seq<Line>)
    requires Trimmed(content) && AllEmpty(blank)
    ensures Trim(Padded(content) + blank) == content
  {
    var after := [""] + blank;
    if content == [] {
      assert Padded(content) + blank == ["", ""] + [] + after;
      TrimPadded(["", ""], [], after);
    } else {
      assert Padded(content) + blank == [""] + content + after;
      TrimPadded([""], content, after);
    }
  }

  lemma {:induction false} SplitHeading(heading: Line, lines: seq<Line>)
    requires IsSection(heading)
    ensures Split([heading] + lines) ==
            ([], [Section(SectionName(heading), Split(lines).0)] + Split(lines).1)
  {
    assert ([heading] + lines)[1..] == lines;
  }

  /** A printed section reads back as itself; what follows is left to the next. */
  lemma {:induction false} SplitPrinted(s: Section, rest: seq<Line>)
    requires GoodSection(s)
    ensures var (lines, sections) := Split(PrintSection(s) + rest);
            lines == [] && |sections| == 1 + |Split(rest).1| && sections[1..] == Split(rest).1 &&
            sections[0].name == s.name &&
            (AllEmpty(Split(rest).0) ==> Trim(sections[0].content) == s.content)
  {
    BlankIsNoHeading();
    HeadingOf(s.name);
    var content := Padded(s.content);
    assert PrintSection(s) + rest == ["### " + s.name] + (content + rest);
    assert forall i | 0 <= i < |content| :: !IsSection(content[i]);
    SplitLines(content, rest);
    SplitHeading("### " + s.name, content + rest);
    if AllEmpty(Split(rest).0) {
      PaddedTrims(s.content, Split(rest).0);
    }
  }

  lemma {:induction false} TrimAllFirst(read: seq<Section>, sections: seq<Section>)
    requires read != [] && sections != [] && TrimAll(read[1..]) == sections[1..]
    requires Section(read[0].name, Trim(read[0].content)) == sections[0]
    ensures TrimAll(read) == sections
  {
    FirstAndRest(sections);
  }

  lemma {:induction false} FirstAndRest<T>(s: seq<T>)
    requires s != []
    ensures s == [s[0]] + s[1..]
  {
  }

  lemma {:induction false} SplitAllPrinted(sections: seq<Section>, blank: seq<Line>)
    requires GoodSections(sections) && AllEmpty(blank)
    ensures var (lines, read) := Split(PrintSections(sections) + blank);
            AllEmpty(lines) && TrimAll(read) == sections && (sections == [] ==> lines == blank)
  {
    BlankIsNoHeading();
    if sections == [] {
      assert PrintSections(sections) + blank == blank;
      SplitLines(blank, []);
      assert blank + [] == blank;
    } else {
      var rest := PrintSections(sections[1..]) + blank;
      SplitAllPrinted(sections[1..], blank);
      assert PrintSections(sections) + blank == PrintSection(sections[0]) + rest;
      SplitPrinted(sections[0], rest);
      TrimAllFirst(Split(PrintSections(sections) + blank).1, sections);
    }
  }

  /** Reading back what fold prints gives what it printed, whether a heading
      follows or the text ends there. */
  lemma {:induction false} ReadPrint(p: Parsed, blank: seq<Line>)
    requires Good(p) && AllEmpty(blank)
    ensures Read(Print(p) + blank) == p
  {
    BlankIsNoHeading();
    var pre := PrintPreamble(p.preamble);
    assert forall i | 0 <= i < |pre| :: !IsSection(pre[i]);
    assert Print(p) + blank == pre + (PrintSections(p.sections) + blank);
    SplitAllPrinted(p.sections, blank);
    var (lines, _) := Split(PrintSections(p.sections) + blank);
    SplitLines(pre, PrintSections(p.sections) + blank);
    ReadPaddedPreamble(p.preamble, lines);
  }

  lemma {:induction false} ReadPaddedPreamble(preamble: seq<Line>, blank: seq<Line>)
    requires ReadPreamble(preamble) == preamble && AllEmpty(blank)
    ensures ReadPreamble(PrintPreamble(preamble) + blank) == preamble
  {
    var all := PrintPreamble(preamble) + blank;
    if preamble == [] {
      assert forall i | 0 <= i < |all| :: all[i] == "";
    } else {
      assert all == preamble + ([""] + blank);
      var i :| 0 <= i < |preamble| && !AllSpace(preamble[i]);
      assert all[i] == preamble[i];
      TrailingIsUnique(preamble, [""] + blank);
    }
  }

  // ---------- what is read is good ----------

  lemma {:induction false} SplitIsGood(body: seq<Line>)
    requires forall i | 0 <= i < |body| :: !IsVersion(body[i])
    ensures var (lines, sections) := Split(body);
            NoHeadings(lines) &&
            forall i | 0 <= i < |sections| ::
              Strip(sections[i].name) == sections[i].name && NoHeadings(sections[i].content)
  {
    if body != [] {
      SplitIsGood(body[1..]);
      if IsSection(body[0]) {
        StrippedStaysStripped(body[0][4..]);
      }
    }
  }

  lemma {:induction false} PrefixHasNoHeadings(lines: seq<Line>, n: nat)
    requires NoHeadings(lines) && n <= |lines|
    ensures NoHeadings(lines[..n])
  {
  }

  lemma {:induction false} TrimKeepsNoHeadings(lines: seq<Line>)
    requires NoHeadings(lines)
    ensures NoHeadings(Trim(lines)) && NoHeadings(DropTrailing(lines))
  {
    var d := DropLeading(lines);
    assert NoHeadings(d) by {
      assert forall i | 0 <= i < |d| :: d[i] == lines[|lines| - |d| + i];
    }
    PrefixHasNoHeadings(d, |Trim(lines)|);
    PrefixHasNoHeadings(lines, |DropTrailing(lines)|);
  }

  lemma {:induction false} ReadPreambleSettles(lines: seq<Line>)
    ensures ReadPreamble(ReadPreamble(lines)) == ReadPreamble(lines)
  {
    if i :| 0 <= i < |lines| && !AllSpace(lines[i]) {
      var d := DropTrailing(lines);
      assert lines[i] != "";
      assert i < |d| && d[i] == lines[i];
      TrailingIsUnique(d, []);
      assert d + [] == d;
    }
  }

  /** Reading a body always gives a good one, whatever is in it. */
  lemma {:induction false} ReadIsGood(body: seq<Line>)
    requires forall i | 0 <= i < |body| :: !IsVersion(body[i])
    ensures Good(Read(body))
  {
    var (lines, sections) := Split(body);
    SplitIsGood(body);
    ReadPreambleSettles(lines);
    TrimKeepsNoHeadings(lines);
    TrimAllIsGood(sections);
  }

  lemma {:induction false} TrimAllIsGood(sections: seq<Section>)
    requires forall i | 0 <= i < |sections| ::
               Strip(sections[i].name) == sections[i].name && NoHeadings(sections[i].content)
    ensures GoodSections(TrimAll(sections))
  {
    if sections != [] {
      TrimKeepsNoHeadings(sections[0].content);
      TrimIsTrimmed(sections[0].content);
      TrimAllIsGood(sections[1..]);
    }
  }
}
