/** Folding entries into "## Unreleased": what it adds, what it keeps, and that
    folding in two batches is folding once. */
module ChangelogFold {
  import opened ChangelogText

  const SECTIONS := ["Added", "Changed", "Deprecated", "Removed", "Fixed", "Security", "Performance"]

  type Entry = seq<Line>
  type Entries = map<string, seq<Entry>>

  /** A fragment's body as parsed: no blank line at either end, no heading. */
  predicate IsEntry(e: Entry) {
    e != [] && Trimmed(e) && NoHeadings(e)
  }

  predicate GoodEntries(entries: Entries) {
    forall n | n in entries :: forall i | 0 <= i < |entries[n]| :: IsEntry(entries[n][i])
  }

  function ItemsFor(entries: Entries, name: string): seq<Entry> {
    if name in entries then entries[name] else []
  }

  /** "\n\n".join(items) */
  function Block(items: seq<Entry>): seq<Line> {
    if items == [] then []
    else if |items| == 1 then items[0]
    else Block(items[..|items| - 1]) + [""] + items[|items| - 1]
  }

  function Append(content: seq<Line>, block: seq<Line>): seq<Line> {
    if content == [] then block else content + [""] + block
  }

  // ---------- canonical order ----------

  /** The first place of x, past the end if it has none. */
  function IndexOf(s: seq<string>, x: string): (r: nat)
    ensures r <= |s|
    ensures r < |s| ==> s[r] == x
  {
    if s == [] || s[0] == x then 0 else 1 + IndexOf(s[1..], x)
  }

  /** The position of a name in SECTIONS, past the end for any other. */
  function Rank(name: string): (r: nat)
    ensures r <= |SECTIONS|
    ensures r < |SECTIONS| ==> SECTIONS[r] == name
  {
    IndexOf(SECTIONS, name)
  }

  predicate Known(name: string) {
    Rank(name) < |SECTIONS|
  }

  /** n is a canonical name standing before rank r; an unknown name never is. */
  predicate Precedes(n: string, r: nat) {
    Known(n) && Rank(n) < r
  }

  predicate HasName(sections: seq<Section>, name: string) {
    exists i | 0 <= i < |sections| :: sections[i].name == name
  }

  // ---------- folding one section ----------

  /** Append to the first section of the name. */
  function Update(sections: seq<Section>, name: string, block: seq<Line>): seq<Section>
    requires HasName(sections, name)
  {
    var last := sections[|sections| - 1];
    var before := sections[..|sections| - 1];
    if HasName(before, name) then Update(before, name, block) + [last]
    else before + [Section(name, Append(last.content, block))]
  }

  /** Insert after the last section that precedes it canonically. */
  function Insert(sections: seq<Section>, s: Section): seq<Section> {
    if sections == [] then [s]
    else
      var last := sections[|sections| - 1];
      if Precedes(last.name, Rank(s.name)) then sections + [s]
      else Insert(sections[..|sections| - 1], s) + [last]
  }

  function Place(sections: seq<Section>, name: string, items: seq<Entry>): seq<Section> {
    if items == [] then sections
    else if HasName(sections, name) then Update(sections, name, Block(items))
    else Insert(sections, Section(name, Block(items)))
  }

  /** The first k canonical sections folded, in canonical order. */
  function FoldUpTo(sections: seq<Section>, entries: Entries, k: nat): seq<Section>
    requires k <= |SECTIONS|
  {
    if k == 0 then sections
    else Place(FoldUpTo(sections, entries, k - 1), SECTIONS[k - 1], ItemsFor(entries, SECTIONS[k - 1]))
  }

  function FoldSections(sections: seq<Section>, entries: Entries): seq<Section> {
    FoldUpTo(sections, entries, |SECTIONS|)
  }

  function FoldParsed(p: Parsed, entries: Entries): Parsed {
    Parsed(p.preamble, FoldSections(p.sections, entries))
  }

  /** The text from the next version heading on; a final newline when none. */
  function Tail(text: seq<Line>): (t: seq<Line>)
    requires HasUnreleased(text)
    ensures t != []
  {
    if End(text) < |text| then text[End(text)..] else [""]
  }

  function Fold(text: seq<Line>, entries: Entries): seq<Line>
    requires HasUnreleased(text)
  {
    text[..Start(text)] + Print(FoldParsed(Read(Body(text)), entries)) + Tail(text)
  }

  // ---------- the loops of fold ----------

  function Names(sections: seq<Section>): seq<string> {
    seq(|sections|, i requires 0 <= i < |sections| => sections[i].name)
  }

  /** Where the enumerate loop of fold leaves `at`. */
  function InsertAt(names: seq<string>, r: nat): (at: nat)
    ensures at <= |names|
  {
    if names == [] then 0
    else if Precedes(names[|names| - 1], r) then |names|
    else InsertAt(names[..|names| - 1], r)
  }

  lemma {:induction false} SplicedBeforeLast<T>(before: seq<T>, x: T, last: T, at: nat)
    requires at <= |before|
    ensures (before[..at] + [x] + before[at..]) + [last] ==
            (before + [last])[..at] + [x] + (before + [last])[at..]
  {
  }

  lemma {:induction false} InsertIsAt(sections: seq<Section>, s: Section)
    ensures var at := InsertAt(Names(sections), Rank(s.name));
            Insert(sections, s) == sections[..at] + [s] + sections[at..]
  {
    if sections != [] {
      var last := sections[|sections| - 1];
      var before := sections[..|sections| - 1];
      assert Names(sections)[|sections| - 1] == last.name;
      if !Precedes(last.name, Rank(s.name)) {
        assert Names(sections)[..|sections| - 1] == Names(before);
        InsertIsAt(before, s);
        SplicedBeforeLast(before, s, last, InsertAt(Names(before), Rank(s.name)));
        assert before + [last] == sections;
      }
    }
  }

  predicate FirstAt(sections: seq<Section>, name: string, i: nat) {
    i < |sections| && sections[i].name == name && forall j | 0 <= j < i :: sections[j].name != name
  }

  lemma {:induction false} UpdateIsAt(sections: seq<Section>, name: string, block: seq<Line>, i: nat)
    requires FirstAt(sections, name, i)
    ensures HasName(sections, name)
    ensures Update(sections, name, block) == sections[i := Section(name, Append(sections[i].content, block))]
  {
    var before := sections[..|sections| - 1];
    if i < |sections| - 1 {
      assert before[i].name == name;
      UpdateIsAt(before, name, block, i);
    }
  }

  /** The body of fold's loop over SECTIONS. */
  method PlaceAt(sections: seq<Section>, name: string, items: seq<Entry>) returns (r: seq<Section>)
    requires Known(name)
    ensures r == Place(sections, name, items)
  {
    if items == [] {
      return sections;
    }
    var block := Block(items);
    var i := 0;
    while i < |sections| && sections[i].name != name
      invariant i <= |sections|
      invariant forall j | 0 <= j < i :: sections[j].name != name
    {
      i := i + 1;
    }
    if i < |sections| {
      UpdateIsAt(sections, name, block, i);
      return sections[i := Section(name, Append(sections[i].content, block))];
    }
    var rank := Rank(name);
    var at := 0;
    for j := 0 to |sections|
      invariant at == InsertAt(Names(sections[..j]), rank) <= j
    {
      assert sections[..j + 1][..j] == sections[..j];
      assert Names(sections[..j + 1])[..j] == Names(sections[..j]);
      if sections[j].name in SECTIONS && Rank(sections[j].name) < rank {
        at := j + 1;
      }
    }
    assert sections[..|sections|] == sections;
    InsertIsAt(sections, Section(name, block));
    return sections[..at] + [Section(name, block)] + sections[at..];
  }

  /** fold's loop over SECTIONS. */
  method FoldAtOnce(given: seq<Section>, entries: Entries) returns (sections: seq<Section>)
    ensures sections == FoldSections(given, entries)
  {
    sections := given;
    for k := 0 to |SECTIONS|
      invariant sections == FoldUpTo(given, entries, k)
    {
      CanonicalAt(k);
      sections := PlaceAt(sections, SECTIONS[k], ItemsFor(entries, SECTIONS[k]));
    }
  }

  /** fold's loop over the sections it prints. */
  method PrintAll(p: Parsed) returns (out: seq<Line>)
    ensures out == Print(p)
  {
    out := PrintPreamble(p.preamble);
    for i := 0 to |p.sections|
      invariant out == PrintPreamble(p.preamble) + PrintSections(p.sections[..i])
    {
      PrintOneMore(p.sections[..i], p.sections[i]);
      assert p.sections[..i + 1] == p.sections[..i] + [p.sections[i]];
      out := out + PrintSection(p.sections[i]);
    }
    assert p.sections[..|p.sections|] == p.sections;
  }

  /** fold: read the body, place every section's entries, print it back. */
  method FoldText(text: seq<Line>, entries: Entries) returns (r: seq<Line>)
    requires HasUnreleased(text)
    ensures r == Fold(text, entries)
  {
    var p := Read(Body(text));
    var sections := FoldAtOnce(p.sections, entries);
    var out := PrintAll(Parsed(p.preamble, sections));
    return text[..Start(text)] + out + Tail(text);
  }

  lemma {:induction false} PrintOneMore(sections: seq<Section>, s: Section)
    ensures PrintSections(sections + [s]) == PrintSections(sections) + PrintSection(s)
  {
    if sections != [] {
      assert (sections + [s])[1..] == sections[1..] + [s];
      PrintOneMore(sections[1..], s);
    }
  }

  lemma {:induction false} CanonicalNamesDiffer()
    ensures forall i, j | 0 <= i < j < |SECTIONS| :: SECTIONS[i] != SECTIONS[j]
  {
    assert SECTIONS[0] == "Added" && SECTIONS[1] == "Changed" && SECTIONS[2] == "Deprecated";
    assert SECTIONS[3] == "Removed" && SECTIONS[4] == "Fixed" && SECTIONS[5] == "Security";
    assert SECTIONS[6] == "Performance";
  }

  /** Each canonical name has its own rank. */
  lemma {:induction false} CanonicalAt(k: nat)
    requires k < |SECTIONS|
    ensures Rank(SECTIONS[k]) == k
  {
    CanonicalNamesDiffer();
    IndexIsFirst(SECTIONS, SECTIONS[k]);
  }

  lemma {:induction false} IndexIsFirst(s: seq<string>, x: string)
    ensures forall j | 0 <= j < IndexOf(s, x) :: s[j] != x
  {
    if s != [] && s[0] != x {
      IndexIsFirst(s[1..], x);
    }
  }

  lemma {:induction false} RankIs(k: nat, name: string)
    requires k < |SECTIONS|
    ensures Rank(name) == k <==> name == SECTIONS[k]
  {
    CanonicalAt(k);
  }
}
