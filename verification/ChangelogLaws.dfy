/** What folding keeps and how batches of it compose, over every changelog. */
module ChangelogLaws {
  import opened Text
  import opened ChangelogText
  import opened ChangelogFold

  // ---------- one section's entries, twice ----------

  lemma {:induction false} BlocksJoin(a: seq<Entry>, b: seq<Entry>)
    requires a != [] && b != []
    ensures Block(a + b) == Block(a) + [""] + Block(b)
  {
    if |b| == 1 {
      assert (a + b)[..|a + b| - 1] == a;
    } else {
      assert (a + b)[..|a + b| - 1] == a + b[..|b| - 1];
      BlocksJoin(a, b[..|b| - 1]);
    }
  }

  lemma {:induction false} BlockIsGood(items: seq<Entry>)
    requires items != [] && forall i | 0 <= i < |items| :: IsEntry(items[i])
    ensures IsEntry(Block(items))
  {
    if |items| > 1 {
      BlockIsGood(items[..|items| - 1]);
      BlankIsNoHeading();
    }
  }

  lemma {:induction false} AppendTwice(content: seq<Line>, a: seq<Entry>, b: seq<Entry>)
    requires a != [] && b != [] && forall i | 0 <= i < |a| :: IsEntry(a[i])
    ensures Append(Append(content, Block(a)), Block(b)) == Append(content, Block(a + b))
  {
    BlocksJoin(a, b);
    BlockIsGood(a);
  }

  lemma {:induction false} UpdateKeepsNames(sections: seq<Section>, name: string, block: seq<Line>)
    requires HasName(sections, name)
    ensures Names(Update(sections, name, block)) == Names(sections)
    ensures |Update(sections, name, block)| == |sections|
  {
    var i := FirstIndex(sections, name);
    UpdateIsAt(sections, name, block, i);
  }

  function FirstIndex(sections: seq<Section>, name: string): (i: nat)
    requires HasName(sections, name)
    ensures FirstAt(sections, name, i)
  {
    if sections[0].name == name then 0 else 1 + FirstIndex(sections[1..], name)
  }

  lemma {:induction false} SameNamesSameHas(s: seq<Section>, t: seq<Section>, name: string)
    requires Names(s) == Names(t)
    ensures HasName(s, name) == HasName(t, name)
  {
    assert |s| == |Names(s)| == |t|;
    assert forall i | 0 <= i < |s| :: s[i].name == Names(s)[i] && t[i].name == Names(t)[i];
  }

  lemma {:induction false} InsertBeforeLast(before: seq<Section>, last: Section, s: Section)
    ensures Insert(before + [last], s) ==
            if Precedes(last.name, Rank(s.name)) then before + [last] + [s] else Insert(before, s) + [last]
  {
    assert (before + [last])[..|before + [last]| - 1] == before;
  }

  lemma {:induction false} UpdateBeforeLast(before: seq<Section>, last: Section, name: string, block: seq<Line>)
    requires HasName(before + [last], name)
    ensures Update(before + [last], name, block) ==
            if HasName(before, name) then Update(before, name, block) + [last]
            else before + [Section(name, Append(last.content, block))]
  {
    assert (before + [last])[..|before + [last]| - 1] == before;
  }

  lemma {:induction false} HasInConcat(before: seq<Section>, last: Section, name: string)
    ensures HasName(before + [last], name) <==> HasName(before, name) || last.name == name
  {
    assert (before + [last])[|before|] == last;
    assert forall i | 0 <= i < |before| :: (before + [last])[i] == before[i];
  }

  lemma {:induction false} HasAfterInsert(sections: seq<Section>, s: Section, name: string)
    ensures HasName(Insert(sections, s), name) <==> HasName(sections, name) || s.name == name
  {
    HasInConcat(sections, s, name);
    if sections == [] {
      assert [] + [s] == [s];
    } else {
      var last := sections[|sections| - 1];
      var before := sections[..|sections| - 1];
      assert sections == before + [last];
      HasAfterInsert(before, s, name);
      HasInConcat(before, last, name);
      HasInConcat(Insert(before, s), last, name);
    }
  }

  lemma {:induction false} HasAfterPlace(sections: seq<Section>, name: string, items: seq<Entry>, other: string)
    ensures HasName(Place(sections, name, items), other) <==>
            HasName(sections, other) || (items != [] && other == name)
  {
    if items != [] {
      if HasName(sections, name) {
        UpdateKeepsNames(sections, name, Block(items));
        SameNamesSameHas(sections, Update(sections, name, Block(items)), other);
      } else {
        HasAfterInsert(sections, Section(name, Block(items)), other);
      }
    }
  }

  lemma {:induction false} UpdateTwice(sections: seq<Section>, name: string, a: seq<Entry>, b: seq<Entry>)
    requires HasName(sections, name)
    requires a != [] && b != [] && forall i | 0 <= i < |a| :: IsEntry(a[i])
    ensures Place(Update(sections, name, Block(a)), name, b) == Update(sections, name, Block(a + b))
  {
    var i := FirstIndex(sections, name);
    UpdateIsAt(sections, name, Block(a), i);
    UpdateIsAt(sections, name, Block(a + b), i);
    var once := Update(sections, name, Block(a));
    UpdateIsAt(once, name, Block(b), i);
    AppendTwice(sections[i].content, a, b);
  }

  lemma {:induction false} FirstInSplice(sections: seq<Section>, at: nat, s: Section)
    requires at <= |sections| && !HasName(sections, s.name)
    ensures FirstAt(sections[..at] + [s] + sections[at..], s.name, at)
  {
  }

  lemma {:induction false} SplicedReplaced<T>(before: seq<T>, x: T, y: T, after: seq<T>)
    ensures (before + [x] + after)[|before| := y] == before + [y] + after
  {
  }

  lemma {:induction false} UpdateInserted(sections: seq<Section>, name: string, block: seq<Line>, more: seq<Line>)
    requires !HasName(sections, name)
    ensures HasName(Insert(sections, Section(name, block)), name)
    ensures Update(Insert(sections, Section(name, block)), name, more) ==
            Insert(sections, Section(name, Append(block, more)))
  {
    var s, t := Section(name, block), Section(name, Append(block, more));
    var at := InsertAt(Names(sections), Rank(name));
    InsertIsAt(sections, s);
    InsertIsAt(sections, t);
    FirstInSplice(sections, at, s);
    UpdateIsAt(Insert(sections, s), name, more, at);
    SplicedReplaced(sections[..at], s, t, sections[at..]);
  }

  /** Placing two batches under one name is placing their concatenation. */
  lemma {:induction false} PlaceTwice(sections: seq<Section>, name: string, a: seq<Entry>, b: seq<Entry>)
    requires forall i | 0 <= i < |a| :: IsEntry(a[i])
    ensures Place(Place(sections, name, a), name, b) == Place(sections, name, a + b)
  {
    if a == [] {
      assert a + b == b;
    } else if b == [] {
      assert a + b == a;
    } else if HasName(sections, name) {
      UpdateTwice(sections, name, a, b);
    } else {
      UpdateInserted(sections, name, Block(a), Block(b));
      BlocksJoin(a, b);
      BlockIsGood(a);
    }
  }

  // ---------- different sections commute ----------

  /** The core: two new sections land in the same places whichever comes first,
      even among sections that are in no canonical order. */
  lemma {:induction false} InsertsCommute(sections: seq<Section>, s: Section, t: Section)
    requires Known(s.name) && Rank(s.name) < Rank(t.name)
    ensures Insert(Insert(sections, s), t) == Insert(Insert(sections, t), s)
  {
    assert Precedes(s.name, Rank(t.name)) && !Precedes(t.name, Rank(s.name));
    if sections == [] {
      assert [s, t][..1] == [s] && [t][..0] == [];
      assert Insert([], s) == [s] && Insert([], t) == [t];
      assert Insert([t], s) == Insert([], s) + [t];
    } else {
      var last := sections[|sections| - 1];
      var before := sections[..|sections| - 1];
      InsertBeforeLast(before, last, s);
      InsertBeforeLast(before, last, t);
      assert before + [last] == sections;
      if Precedes(last.name, Rank(s.name)) {
        InsertBeforeLast(sections, s, t);
        InsertBeforeLast(sections, t, s);
      } else if Precedes(last.name, Rank(t.name)) {
        InsertBeforeLast(Insert(before, s), last, t);
        InsertBeforeLast(sections, t, s);
      } else {
        InsertsCommute(before, s, t);
        InsertBeforeLast(Insert(before, s), last, t);
        InsertBeforeLast(Insert(before, t), last, s);
      }
    }
  }

  lemma {:induction false} UpdateInsertCommute(sections: seq<Section>, name: string, block: seq<Line>, s: Section)
    requires HasName(sections, name) && s.name != name
    ensures HasName(Insert(sections, s), name)
    ensures Update(Insert(sections, s), name, block) == Insert(Update(sections, name, block), s)
  {
    HasAfterInsert(sections, s, name);
    var last := sections[|sections| - 1];
    var before := sections[..|sections| - 1];
    assert sections == before + [last];
    InsertBeforeLast(before, last, s);
    UpdateBeforeLast(before, last, name, block);
    HasInConcat(before, last, name);
    var newLast := Section(name, Append(last.content, block));
    if Precedes(last.name, Rank(s.name)) {
      UpdateBeforeLast(sections, s, name, block);
      if HasName(before, name) {
        InsertBeforeLast(Update(before, name, block), last, s);
      } else {
        InsertBeforeLast(before, newLast, s);
      }
    } else {
      HasAfterInsert(before, s, name);
      UpdateBeforeLast(Insert(before, s), last, name, block);
      if HasName(before, name) {
        UpdateInsertCommute(before, name, block, s);
        InsertBeforeLast(Update(before, name, block), last, s);
      } else {
        InsertBeforeLast(before, newLast, s);
      }
    }
  }

  lemma {:induction false} UpdatesCommute(sections: seq<Section>, n: string, a: seq<Line>, m: string, b: seq<Line>)
    requires n != m && HasName(sections, n) && HasName(sections, m)
    ensures HasName(Update(sections, n, a), m) && HasName(Update(sections, m, b), n)
    ensures Update(Update(sections, n, a), m, b) == Update(Update(sections, m, b), n, a)
  {
    var i, j := FirstIndex(sections, n), FirstIndex(sections, m);
    UpdateIsAt(sections, n, a, i);
    UpdateIsAt(sections, m, b, j);
    var x, y := Update(sections, n, a), Update(sections, m, b);
    UpdateIsAt(x, m, b, j);
    UpdateIsAt(y, n, a, i);
  }

  /** Entries of different sections can be placed in either order. */
  lemma {:induction false} PlacesCommute(sections: seq<Section>, n: string, a: seq<Entry>, m: string, b: seq<Entry>)
    requires n != m && Known(n) && Known(m) && Rank(n) < Rank(m)
    ensures Place(Place(sections, n, a), m, b) == Place(Place(sections, m, b), n, a)
  {
    HasAfterPlace(sections, n, a, m);
    HasAfterPlace(sections, m, b, n);
    if a != [] && b != [] {
      var hasN, hasM := HasName(sections, n), HasName(sections, m);
      if hasN && hasM {
        UpdatesCommute(sections, n, Block(a), m, Block(b));
      } else if hasN {
        UpdateInsertCommute(sections, n, Block(a), Section(m, Block(b)));
      } else if hasM {
        UpdateInsertCommute(sections, m, Block(b), Section(n, Block(a)));
      } else {
        InsertsCommute(sections, Section(n, Block(a)), Section(m, Block(b)));
      }
    }
  }

  // ---------- two batches are one ----------

  /** The entries of two batches, section by section. */
  function Merge(a: Entries, b: Entries): Entries {
    map n | n in a.Keys + b.Keys :: ItemsFor(a, n) + ItemsFor(b, n)
  }

  lemma {:induction false} MergedItems(a: Entries, b: Entries, n: string)
    ensures ItemsFor(Merge(a, b), n) == ItemsFor(a, n) + ItemsFor(b, n)
  {
  }

  lemma {:induction false} ItemsAreEntries(a: Entries, n: string)
    requires GoodEntries(a)
    ensures forall i | 0 <= i < |ItemsFor(a, n)| :: IsEntry(ItemsFor(a, n)[i])
  {
  }

  /** One more name folded. */
  lemma {:induction false} FoldNext(sections: seq<Section>, entries: Entries, k: nat)
    requires k < |SECTIONS|
    ensures FoldUpTo(sections, entries, k + 1) ==
            Place(FoldUpTo(sections, entries, k), SECTIONS[k], ItemsFor(entries, SECTIONS[k]))
  {
  }

  lemma {:induction false} PlacePastFold(sections: seq<Section>, entries: Entries, k: nat, later: nat, items: seq<Entry>)
    requires k <= later < |SECTIONS|
    ensures Place(FoldUpTo(sections, entries, k), SECTIONS[later], items) ==
            FoldUpTo(Place(sections, SECTIONS[later], items), entries, k)
  {
    if k > 0 {
      var name, own := SECTIONS[k - 1], ItemsFor(entries, SECTIONS[k - 1]);
      CanonicalAt(k - 1);
      CanonicalAt(later);
      PlacesCommute(FoldUpTo(sections, entries, k - 1), name, own, SECTIONS[later], items);
      PlacePastFold(sections, entries, k - 1, later, items);
    }
  }

  /** The step of one name: its later entries pass the names before it. */
  lemma {:induction false} MergeStep(before: seq<Section>, b: Entries, k: nat, mine: seq<Entry>, theirs: seq<Entry>)
    requires k < |SECTIONS| && forall i | 0 <= i < |mine| :: IsEntry(mine[i])
    ensures Place(FoldUpTo(Place(before, SECTIONS[k], mine), b, k), SECTIONS[k], theirs) ==
            Place(FoldUpTo(before, b, k), SECTIONS[k], mine + theirs)
  {
    PlacePastFold(before, b, k, k, mine);
    PlaceTwice(FoldUpTo(before, b, k), SECTIONS[k], mine, theirs);
  }

  lemma {:induction false} FoldNextTwice(sections: seq<Section>, a: Entries, b: Entries, k: nat, name: string)
    requires k < |SECTIONS| && name == SECTIONS[k]
    ensures FoldUpTo(FoldUpTo(sections, a, k + 1), b, k + 1) ==
            Place(FoldUpTo(Place(FoldUpTo(sections, a, k), name, ItemsFor(a, name)), b, k), name, ItemsFor(b, name))
  {
    FoldNext(sections, a, k);
    FoldNext(FoldUpTo(sections, a, k + 1), b, k);
  }

  lemma {:induction false} FoldNextMerged(sections: seq<Section>, a: Entries, b: Entries, k: nat, name: string)
    requires k < |SECTIONS| && name == SECTIONS[k]
    ensures FoldUpTo(sections, Merge(a, b), k + 1) ==
            Place(FoldUpTo(sections, Merge(a, b), k), name, ItemsFor(a, name) + ItemsFor(b, name))
  {
    FoldNext(sections, Merge(a, b), k);
    MergedItems(a, b, name);
  }

  lemma {:induction false} FoldsMerge(sections: seq<Section>, a: Entries, b: Entries, k: nat)
    requires k <= |SECTIONS| && GoodEntries(a)
    ensures FoldUpTo(FoldUpTo(sections, a, k), b, k) == FoldUpTo(sections, Merge(a, b), k)
  {
    if k > 0 {
      var name := SECTIONS[k - 1];
      FoldsMerge(sections, a, b, k - 1);
      FoldNextTwice(sections, a, b, k - 1, name);
      FoldNextMerged(sections, a, b, k - 1, name);
      ItemsAreEntries(a, name);
      MergeStep(FoldUpTo(sections, a, k - 1), b, k - 1, ItemsFor(a, name), ItemsFor(b, name));
    }
  }

  // ---------- the folded text reads as what was folded ----------

  lemma {:induction false} CanonicalNamesAreStripped(k: nat)
    requires k < |SECTIONS|
    ensures Strip(SECTIONS[k]) == SECTIONS[k]
  {
    var s := SECTIONS[k];
    assert |"Added"| == 5 && |"Changed"| == 7 && |"Deprecated"| == 10 && |"Removed"| == 7;
    assert |"Fixed"| == 5 && |"Security"| == 8 && |"Performance"| == 11;
    assert s != [] && !IsSpace(s[0]) && !IsSpace(s[|s| - 1]);
  }

  lemma {:induction false} AppendIsGood(name: string, content: seq<Line>, items: seq<Entry>)
    requires items != [] && forall i | 0 <= i < |items| :: IsEntry(items[i])
    requires Strip(name) == name && Trimmed(content) && NoHeadings(content)
    ensures GoodSection(Section(name, Append(content, Block(items))))
  {
    BlockIsGood(items);
    BlankIsNoHeading();
  }

  lemma {:induction false} PlaceIsGood(sections: seq<Section>, name: string, items: seq<Entry>)
    requires GoodSections(sections) && Strip(name) == name
    requires forall i | 0 <= i < |items| :: IsEntry(items[i])
    ensures GoodSections(Place(sections, name, items))
  {
    if items != [] {
      if HasName(sections, name) {
        UpdateIsGood(sections, name, items);
      } else {
        AppendIsGood(name, [], items);
        InsertIsGood(sections, Section(name, Block(items)));
      }
    }
  }

  lemma {:induction false} UpdateIsGood(sections: seq<Section>, name: string, items: seq<Entry>)
    requires GoodSections(sections) && Strip(name) == name && HasName(sections, name)
    requires items != [] && forall i | 0 <= i < |items| :: IsEntry(items[i])
    ensures GoodSections(Update(sections, name, Block(items)))
  {
    var i := FirstIndex(sections, name);
    UpdateIsAt(sections, name, Block(items), i);
    assert GoodSection(sections[i]);
    AppendIsGood(name, sections[i].content, items);
    ReplacedIsGood(sections, i, Section(name, Append(sections[i].content, Block(items))));
  }

  lemma {:induction false} ReplacedIsGood(sections: seq<Section>, i: nat, s: Section)
    requires GoodSections(sections) && i < |sections| && GoodSection(s)
    ensures GoodSections(sections[i := s])
  {
  }

  lemma {:induction false} InsertIsGood(sections: seq<Section>, s: Section)
    requires GoodSections(sections) && GoodSection(s)
    ensures GoodSections(Insert(sections, s))
  {
    var at := InsertAt(Names(sections), Rank(s.name));
    InsertIsAt(sections, s);
    SplicedIsGood(sections, at, s);
  }

  lemma {:induction false} SplicedIsGood(sections: seq<Section>, at: nat, s: Section)
    requires GoodSections(sections) && at <= |sections| && GoodSection(s)
    ensures GoodSections(sections[..at] + [s] + sections[at..])
  {
  }

  lemma {:induction false} FoldIsGood(sections: seq<Section>, entries: Entries, k: nat)
    requires GoodSections(sections) && GoodEntries(entries) && k <= |SECTIONS|
    ensures GoodSections(FoldUpTo(sections, entries, k))
  {
    if k > 0 {
      FoldIsGood(sections, entries, k - 1);
      CanonicalNamesAreStripped(k - 1);
      PlaceIsGood(FoldUpTo(sections, entries, k - 1), SECTIONS[k - 1], ItemsFor(entries, SECTIONS[k - 1]));
    }
  }

  lemma {:induction false} PrintsNoVersion(p: Parsed)
    requires Good(p)
    ensures forall i | 0 <= i < |Print(p)| :: !IsVersion(Print(p)[i])
  {
    BlankIsNoHeading();
    SectionsPrintNoVersion(p.sections);
  }

  lemma {:induction false} SectionsPrintNoVersion(sections: seq<Section>)
    requires GoodSections(sections)
    ensures forall i | 0 <= i < |PrintSections(sections)| :: !IsVersion(PrintSections(sections)[i])
  {
    if sections != [] {
      BlankIsNoHeading();
      SectionsPrintNoVersion(sections[1..]);
      var heading := "### " + sections[0].name;
      assert heading[2] == '#' && !IsVersion(heading);
    }
  }

  /** A text whose lines after its Unreleased heading are replaced keeps it there. */
  lemma {:induction false} HeadingStays(text: seq<Line>, rest: seq<Line>)
    requires HasUnreleased(text) && rest != []
    ensures HasUnreleased(text[..Start(text)] + rest) && Start(text[..Start(text)] + rest) == Start(text)
  {
    var after := text[..Start(text)] + rest;
    var u := Start(text) - 1;
    UnreleasedFound(text, 0);
    assert forall j | 0 <= j <= u :: after[j] == text[j];
    UnreleasedIsAt(after, 0, u);
  }

  /** The body ends where the replaced lines do, at a version heading or at the end. */
  lemma {:induction false} BodyEnds(after: seq<Line>, body: seq<Line>, tail: seq<Line>, at: nat)
    requires HasUnreleased(after) && Start(after) == at && after[at..] == body + tail
    requires forall i | 0 <= i < |body| :: !IsVersion(body[i])
    requires tail == [] || IsVersion(tail[0])
    ensures End(after) == at + |body| && Body(after) == body && after[End(after)..] == tail
  {
    assert forall i | 0 <= i < |body| :: after[at + i] == after[at..][i] == body[i];
    assert tail != [] ==> after[at + |body|] == after[at..][|body|] == tail[0];
    assert |after| == at + |body| + |tail|;
    VersionIsAt(after, at, at + |body|);
    assert after[at..][..|body|] == body;
    assert after[at..][|body|..] == tail;
  }

  /** A text whose Unreleased body is replaced by printed sections keeps its
      bounds there: the heading before and the version after are the same. */
  lemma {:induction false} Rewritten(text: seq<Line>, p: Parsed)
    requires HasUnreleased(text) && Good(p)
    ensures var after := text[..Start(text)] + Print(p) + Tail(text);
            HasUnreleased(after) && Start(after) == Start(text) &&
            Read(Body(after)) == p && Tail(after) == Tail(text) &&
            (End(after) < |after| <==> End(text) < |text|)
  {
    var at, tail := Start(text), Tail(text);
    var after := text[..at] + Print(p) + tail;
    assert after == text[..at] + (Print(p) + tail);
    HeadingStays(text, Print(p) + tail);
    PrintsNoVersion(p);
    assert after[at..] == Print(p) + tail;
    if End(text) < |text| {
      VersionFound(text, at);
      BodyEnds(after, Print(p), tail, at);
      ReadPrint(p, []);
      assert Print(p) + [] == Print(p);
    } else {
      BlankIsNoHeading();
      assert after[at..] == Print(p) + [""] + [];
      BodyEnds(after, Print(p) + [""], [], at);
      ReadPrint(p, [""]);
    }
  }

  lemma {:induction false} BodyIsGood(text: seq<Line>)
    requires HasUnreleased(text)
    ensures Good(Read(Body(text)))
  {
    VersionFound(text, Start(text));
    assert forall i | 0 <= i < |Body(text)| :: Body(text)[i] == text[Start(text) + i];
    ReadIsGood(Body(text));
  }

  lemma {:induction false} FoldedIsGood(p: Parsed, entries: Entries)
    requires Good(p) && GoodEntries(entries)
    ensures Good(FoldParsed(p, entries))
  {
    FoldIsGood(p.sections, entries, |SECTIONS|);
  }

  /** Splitting the folded text gives the old sections with the entries folded in;
      everything outside the body is as it was. */
  lemma {:induction false} FoldReads(text: seq<Line>, entries: Entries)
    requires HasUnreleased(text) && GoodEntries(entries)
    ensures HasUnreleased(Fold(text, entries))
    ensures Read(Body(Fold(text, entries))) == FoldParsed(Read(Body(text)), entries)
    ensures Start(Fold(text, entries)) == Start(text)
    ensures Fold(text, entries)[..Start(text)] == text[..Start(text)]
    ensures Tail(Fold(text, entries)) == Tail(text)
    ensures End(Fold(text, entries)) < |Fold(text, entries)| <==> End(text) < |text|
  {
    var p := Read(Body(text));
    BodyIsGood(text);
    FoldedIsGood(p, entries);
    Rewritten(text, FoldParsed(p, entries));
  }

  /** Folding in two batches is folding once: the new sections land in the same
      places and each section's entries in the same order. */
  lemma {:induction false} FoldIsCompositional(text: seq<Line>, a: Entries, b: Entries)
    requires HasUnreleased(text) && GoodEntries(a)
    ensures HasUnreleased(Fold(text, a))
    ensures Fold(Fold(text, a), b) == Fold(text, Merge(a, b))
  {
    FoldReads(text, a);
    FoldsMerge(Read(Body(text)).sections, a, b, |SECTIONS|);
  }

  // ---------- what folding keeps ----------

  function NameSet(sections: seq<Section>): set<string> {
    set s | s in sections :: s.name
  }

  /** The sections of the given names, in order. */
  function Only(sections: seq<Section>, names: set<string>): seq<Section> {
    if sections == [] then []
    else
      var last := sections[|sections| - 1];
      var before := Only(sections[..|sections| - 1], names);
      if last.name in names then before + [last] else before
  }

  lemma {:induction false} OnlyLast(before: seq<Section>, last: Section, names: set<string>)
    ensures Only(before + [last], names) == if last.name in names then Only(before, names) + [last] else Only(before, names)
  {
    assert (before + [last])[..|before + [last]| - 1] == before;
  }

  lemma {:induction false} OnlyHas(sections: seq<Section>, names: set<string>, name: string)
    requires name in names
    ensures HasName(Only(sections, names), name) == HasName(sections, name)
  {
    if sections != [] {
      var last := sections[|sections| - 1];
      var before := sections[..|sections| - 1];
      assert sections == before + [last];
      OnlyHas(before, names, name);
      HasInConcat(before, last, name);
      HasInConcat(Only(before, names), last, name);
    }
  }

  lemma {:induction false} OnlyOfUpdate(sections: seq<Section>, names: set<string>, name: string, block: seq<Line>)
    requires name in names && HasName(sections, name)
    ensures HasName(Only(sections, names), name)
    ensures Only(Update(sections, name, block), names) == Update(Only(sections, names), name, block)
  {
    OnlyHas(sections, names, name);
    var last := sections[|sections| - 1];
    var before := sections[..|sections| - 1];
    assert sections == before + [last];
    HasInConcat(before, last, name);
    OnlyHas(before, names, name);
    var newLast := Section(name, Append(last.content, block));
    if HasName(before, name) {
      OnlyOfUpdate(before, names, name, block);
      OnlyLast(Update(before, name, block), last, names);
      if last.name in names {
        UpdateBeforeLast(Only(before, names), last, name, block);
      }
    } else {
      OnlyLast(before, newLast, names);
      UpdateBeforeLast(Only(before, names), last, name, block);
    }
  }

  lemma {:induction false} OnlyOfInsert(sections: seq<Section>, names: set<string>, s: Section)
    requires s.name !in names
    ensures Only(Insert(sections, s), names) == Only(sections, names)
  {
    if sections != [] {
      var last := sections[|sections| - 1];
      var before := sections[..|sections| - 1];
      assert sections == before + [last];
      OnlyOfInsert(before, names, s);
      OnlyLast(sections, s, names);
      OnlyLast(Insert(before, s), last, names);
    } else {
      OnlyLast([], s, names);
      assert [] + [s] == [s];
    }
  }

  lemma {:induction false} OnlyNone(sections: seq<Section>, name: string)
    requires !HasName(sections, name)
    ensures Only(sections, {name}) == []
  {
    if sections != [] {
      HasInConcat(sections[..|sections| - 1], sections[|sections| - 1], name);
      assert sections == sections[..|sections| - 1] + [sections[|sections| - 1]];
      OnlyNone(sections[..|sections| - 1], name);
    }
  }

  lemma {:induction false} OnlyInserted(sections: seq<Section>, s: Section)
    requires !HasName(sections, s.name)
    ensures Only(Insert(sections, s), {s.name}) == [s]
  {
    if sections == [] {
      OnlyLast([], s, {s.name});
      assert [] + [s] == [s];
    } else {
      var last := sections[|sections| - 1];
      var before := sections[..|sections| - 1];
      assert sections == before + [last];
      HasInConcat(before, last, s.name);
      OnlyNone(sections, s.name);
      OnlyLast(sections, s, {s.name});
      OnlyInserted(before, s);
      OnlyLast(Insert(before, s), last, {s.name});
    }
  }

  lemma {:induction false} OnlyAll(sections: seq<Section>, names: set<string>)
    requires forall i | 0 <= i < |sections| :: sections[i].name in names
    ensures Only(sections, names) == sections
  {
    if sections != [] {
      OnlyAll(sections[..|sections| - 1], names);
    }
  }

  /** A section with its entries appended, if it is the first of a name among the
      first k and has any. */
  function AppendedTo(sections: seq<Section>, entries: Entries, k: nat, i: nat): Section
    requires i < |sections|
  {
    var s := sections[i];
    var items := ItemsFor(entries, s.name);
    if FirstAt(sections, s.name, i) && Rank(s.name) < k && items != [] then
      Section(s.name, Append(s.content, Block(items)))
    else s
  }

  /** The old sections with the entries of the first k names appended. */
  function Appended(sections: seq<Section>, entries: Entries, k: nat): (r: seq<Section>)
    requires k <= |SECTIONS|
    ensures |r| == |sections|
  {
    seq(|sections|, i requires 0 <= i < |sections| => AppendedTo(sections, entries, k, i))
  }

  lemma {:induction false} AppendedNames(sections: seq<Section>, entries: Entries, k: nat)
    requires k <= |SECTIONS|
    ensures Names(Appended(sections, entries, k)) == Names(sections)
  {
  }

  /** Only a section of the k-th name changes from k names appended to k + 1. */
  lemma {:induction false} AppendedAt(sections: seq<Section>, entries: Entries, k: nat, name: string, j: nat)
    requires k < |SECTIONS| && name == SECTIONS[k] && j < |sections|
    ensures Appended(sections, entries, k + 1)[j] ==
            if FirstAt(sections, name, j) && ItemsFor(entries, name) != []
            then Section(name, Append(sections[j].content, Block(ItemsFor(entries, name))))
            else Appended(sections, entries, k)[j]
    ensures sections[j].name == name ==> Appended(sections, entries, k)[j] == sections[j]
  {
    CanonicalAt(k);
    if Rank(sections[j].name) == k {
      assert sections[j].name == name;
    }
  }

  lemma {:induction false} AppendedStep(sections: seq<Section>, entries: Entries, k: nat)
    requires 0 < k <= |SECTIONS|
    ensures var name := SECTIONS[k - 1];
            var prior := Appended(sections, entries, k - 1);
            HasName(prior, name) == HasName(sections, name) &&
            Appended(sections, entries, k) ==
            if ItemsFor(entries, name) != [] && HasName(sections, name)
            then Update(prior, name, Block(ItemsFor(entries, name))) else prior
  {
    AppendedNext(sections, entries, k - 1, SECTIONS[k - 1], Appended(sections, entries, k - 1),
                 Appended(sections, entries, k), ItemsFor(entries, SECTIONS[k - 1]));
  }

  lemma {:induction false} AppendedNext(sections: seq<Section>, entries: Entries, k: nat, name: string,
                                        prior: seq<Section>, next: seq<Section>, items: seq<Entry>)
    requires k < |SECTIONS| && name == SECTIONS[k] && items == ItemsFor(entries, name)
    requires prior == Appended(sections, entries, k) && next == Appended(sections, entries, k + 1)
    ensures HasName(prior, name) == HasName(sections, name)
    ensures next == if items != [] && HasName(sections, name) then Update(prior, name, Block(items)) else prior
  {
    AppendedNames(sections, entries, k);
    SameNamesSameHas(prior, sections, name);
    forall j | 0 <= j < |sections|
      ensures next[j] == if FirstAt(sections, name, j) && items != []
                         then Section(name, Append(sections[j].content, Block(items))) else prior[j]
      ensures sections[j].name == name ==> prior[j] == sections[j]
    {
      AppendedAt(sections, entries, k, name, j);
    }
    SplicedNext(sections, prior, next, name, items);
  }

  lemma {:induction false} SplicedNext(sections: seq<Section>, prior: seq<Section>, next: seq<Section>, name: string,
                                       items: seq<Entry>)
    requires |prior| == |next| == |sections| && HasName(prior, name) == HasName(sections, name)
    requires forall j | 0 <= j < |sections| :: prior[j].name == sections[j].name
    requires forall j | 0 <= j < |sections| ::
               next[j] == if FirstAt(sections, name, j) && items != []
                          then Section(name, Append(sections[j].content, Block(items))) else prior[j]
    requires forall j | 0 <= j < |sections| && sections[j].name == name :: prior[j] == sections[j]
    ensures next == if items != [] && HasName(sections, name) then Update(prior, name, Block(items)) else prior
  {
    if items != [] && HasName(sections, name) {
      var i := FirstIndex(sections, name);
      assert FirstAt(prior, name, i);
      UpdateIsAt(prior, name, Block(items), i);
      forall j | 0 <= j < |sections| ensures next[j] == prior[i := next[i]][j] {
        assert FirstAt(sections, name, j) ==> j == i;
      }
      assert next == prior[i := next[i]];
    } else {
      assert next == prior;
    }
  }

  lemma {:induction false} HasAfterNext(t: seq<Section>, k: nat, n: string, items: seq<Entry>, name: string)
    requires k < |SECTIONS| && n == SECTIONS[k]
    ensures HasName(Place(t, n, items), name) <==> HasName(t, name) || (Rank(name) == k && items != [])
  {
    RankIs(k, name);
    HasAfterPlace(t, n, items, name);
  }

  lemma {:induction false} HasAfterFold(sections: seq<Section>, entries: Entries, k: nat, name: string)
    requires k <= |SECTIONS|
    ensures HasName(FoldUpTo(sections, entries, k), name) <==>
            HasName(sections, name) || (Rank(name) < k && ItemsFor(entries, name) != [])
  {
    if k > 0 {
      var n := SECTIONS[k - 1];
      HasAfterFold(sections, entries, k - 1, name);
      RankIs(k - 1, name);
      FoldNext(sections, entries, k - 1);
      HasAfterNext(FoldUpTo(sections, entries, k - 1), k - 1, n, ItemsFor(entries, n), name);
    }
  }

  lemma {:induction false} PlaceKeepsOld(t: seq<Section>, names: set<string>, name: string, items: seq<Entry>)
    requires items != [] && (HasName(t, name) <==> name in names)
    ensures name in names ==>
              HasName(Only(t, names), name) &&
              Only(Place(t, name, items), names) == Update(Only(t, names), name, Block(items))
    ensures name !in names ==> Only(Place(t, name, items), names) == Only(t, names)
  {
    if HasName(t, name) {
      OnlyOfUpdate(t, names, name, Block(items));
    } else {
      OnlyOfInsert(t, names, Section(name, Block(items)));
    }
  }

  /** One more name: what it does to the old sections is what it does to them alone. */
  lemma {:induction false} OldSectionsNext(sections: seq<Section>, entries: Entries, k: nat, name: string,
                                           t: seq<Section>, items: seq<Entry>)
    requires k < |SECTIONS| && name == SECTIONS[k] && items == ItemsFor(entries, name)
    requires Only(t, NameSet(sections)) == Appended(sections, entries, k)
    requires HasName(t, name) <==> HasName(sections, name)
    ensures Only(Place(t, name, items), NameSet(sections)) == Appended(sections, entries, k + 1)
  {
    AppendedStep(sections, entries, k + 1);
    NamesAreHad(sections, name);
    if items != [] {
      PlaceKeepsOld(t, NameSet(sections), name, items);
    }
  }

  /** The names before the k-th bring no section of its name. */
  lemma {:induction false} NotYetFolded(sections: seq<Section>, entries: Entries, k: nat, name: string)
    requires k < |SECTIONS| && name == SECTIONS[k]
    ensures HasName(FoldUpTo(sections, entries, k), name) <==> HasName(sections, name)
  {
    HasAfterFold(sections, entries, k, name);
    RankIs(k, name);
  }

  lemma {:induction false} OldSectionsStep(sections: seq<Section>, entries: Entries, k: nat)
    requires k < |SECTIONS|
    requires Only(FoldUpTo(sections, entries, k), NameSet(sections)) == Appended(sections, entries, k)
    ensures Only(FoldUpTo(sections, entries, k + 1), NameSet(sections)) == Appended(sections, entries, k + 1)
  {
    var name := SECTIONS[k];
    NotYetFolded(sections, entries, k, name);
    FoldNext(sections, entries, k);
    OldSectionsNext(sections, entries, k, name, FoldUpTo(sections, entries, k), ItemsFor(entries, name));
  }

  lemma {:induction false} NothingAppended(sections: seq<Section>, entries: Entries)
    ensures Appended(sections, entries, 0) == sections
  {
  }

  lemma {:induction false} OldSectionsKept(sections: seq<Section>, entries: Entries, k: nat)
    requires k <= |SECTIONS|
    ensures Only(FoldUpTo(sections, entries, k), NameSet(sections)) == Appended(sections, entries, k)
  {
    if k == 0 {
      OnlyAll(sections, NameSet(sections));
      NothingAppended(sections, entries);
    } else {
      OldSectionsKept(sections, entries, k - 1);
      OldSectionsStep(sections, entries, k - 1);
    }
  }

  lemma {:induction false} NamesAreHad(sections: seq<Section>, name: string)
    ensures HasName(sections, name) <==> name in NameSet(sections)
  {
  }

  lemma {:induction false} NewSectionsNext(t: seq<Section>, k: nat, n: string, items: seq<Entry>, name: string)
    requires k < |SECTIONS| && n == SECTIONS[k] && (n == name ==> !HasName(t, name))
    ensures Only(Place(t, n, items), {name}) ==
            if n == name && items != [] then [Section(name, Block(items))] else Only(t, {name})
  {
    if items != [] {
      if n == name {
        OnlyInserted(t, Section(n, Block(items)));
      } else if HasName(t, n) {
        OnlyIgnoresUpdate(t, {name}, n, Block(items));
      } else {
        OnlyOfInsert(t, {name}, Section(n, Block(items)));
      }
    }
  }

  lemma {:induction false} NewSectionsAdded(sections: seq<Section>, entries: Entries, k: nat, name: string)
    requires k <= |SECTIONS| && !HasName(sections, name)
    ensures Only(FoldUpTo(sections, entries, k), {name}) ==
            if Rank(name) < k && ItemsFor(entries, name) != []
            then [Section(name, Block(ItemsFor(entries, name)))] else []
  {
    if k == 0 {
      OnlyNone(sections, name);
    } else {
      var n := SECTIONS[k - 1];
      NewSectionsAdded(sections, entries, k - 1, name);
      NotYetFolded(sections, entries, k - 1, n);
      RankIs(k - 1, name);
      FoldNext(sections, entries, k - 1);
      NewSectionsNext(FoldUpTo(sections, entries, k - 1), k - 1, n, ItemsFor(entries, n), name);
    }
  }

  lemma {:induction false} OnlyIgnoresUpdate(sections: seq<Section>, names: set<string>, name: string, block: seq<Line>)
    requires name !in names && HasName(sections, name)
    ensures Only(Update(sections, name, block), names) == Only(sections, names)
  {
    var last := sections[|sections| - 1];
    var before := sections[..|sections| - 1];
    assert sections == before + [last];
    HasInConcat(before, last, name);
    if HasName(before, name) {
      OnlyIgnoresUpdate(before, names, name, block);
      OnlyLast(Update(before, name, block), last, names);
    } else {
      OnlyLast(before, Section(name, Append(last.content, block)), names);
    }
  }

  /** Folding conserves: the old sections stay in their order, each with its old
      content first and its entries after; every other canonical name that has
      entries appears once, holding exactly them; nothing else appears. */
  lemma {:induction false} FoldConserves(sections: seq<Section>, entries: Entries)
    ensures Only(FoldSections(sections, entries), NameSet(sections)) == Appended(sections, entries, |SECTIONS|)
    ensures forall name: string | !HasName(sections, name) ::
              Only(FoldSections(sections, entries), {name}) ==
              if Known(name) && ItemsFor(entries, name) != []
              then [Section(name, Block(ItemsFor(entries, name)))] else []
  {
    OldSectionsKept(sections, entries, |SECTIONS|);
    forall name: string | !HasName(sections, name)
      ensures Only(FoldSections(sections, entries), {name}) ==
              if Known(name) && ItemsFor(entries, name) != []
              then [Section(name, Block(ItemsFor(entries, name)))] else []
    {
      NewSectionsAdded(sections, entries, |SECTIONS|, name);
    }
  }

  /** The known sections stand in canonical order. */
  predicate Ordered(names: seq<string>) {
    forall i, j | 0 <= i < j < |names| && Known(names[i]) && Known(names[j]) :: Rank(names[i]) <= Rank(names[j])
  }

  lemma {:induction false} InsertAtDivides(names: seq<string>, r: nat)
    ensures var at := InsertAt(names, r);
            (at > 0 ==> Precedes(names[at - 1], r)) && forall j | at <= j < |names| :: !Precedes(names[j], r)
  {
    if names != [] && !Precedes(names[|names| - 1], r) {
      var before := names[..|names| - 1];
      InsertAtDivides(before, r);
      assert forall j | 0 <= j < |before| :: before[j] == names[j];
    }
  }

  lemma {:induction false} OrderedSplice(names: seq<string>, at: nat, n: string)
    requires Ordered(names) && at <= |names|
    requires forall i | 0 <= i < at && Known(names[i]) :: Rank(names[i]) <= Rank(n)
    requires forall i | at <= i < |names| && Known(names[i]) :: Rank(n) <= Rank(names[i])
    ensures Ordered(names[..at] + [n] + names[at..])
  {
    var r := names[..at] + [n] + names[at..];
    forall i, j | 0 <= i < j < |r| && Known(r[i]) && Known(r[j]) ensures Rank(r[i]) <= Rank(r[j]) {
      assert r[i] == if i < at then names[i] else if i == at then n else names[i - 1];
      assert r[j] == if j < at then names[j] else if j == at then n else names[j - 1];
    }
  }

  lemma {:induction false} NamesOfInsert(sections: seq<Section>, s: Section)
    ensures var at := InsertAt(Names(sections), Rank(s.name));
            Names(Insert(sections, s)) == Names(sections)[..at] + [s.name] + Names(sections)[at..]
  {
    InsertIsAt(sections, s);
  }

  lemma {:induction false} InsertKeepsOrder(sections: seq<Section>, s: Section)
    requires Ordered(Names(sections)) && Known(s.name)
    ensures Ordered(Names(Insert(sections, s)))
  {
    NamesOfInsert(sections, s);
    SpliceKeepsOrder(Names(sections), s.name, Rank(s.name));
  }

  lemma {:induction false} SpliceKeepsOrder(names: seq<string>, n: string, r: nat)
    requires Ordered(names) && Known(n) && r == Rank(n)
    ensures var at := InsertAt(names, r); Ordered(names[..at] + [n] + names[at..])
  {
    var at := InsertAt(names, r);
    InsertAtDivides(names, r);
    forall i | 0 <= i < at && Known(names[i]) ensures Rank(names[i]) <= r {
      assert i < at - 1 ==> Rank(names[i]) <= Rank(names[at - 1]);
    }
    forall i | at <= i < |names| && Known(names[i]) ensures r <= Rank(names[i]) {
      assert !Precedes(names[i], r);
    }
    OrderedSplice(names, at, n);
  }

  lemma {:induction false} PlaceKeepsOrder(t: seq<Section>, name: string, items: seq<Entry>)
    requires Ordered(Names(t)) && Known(name)
    ensures Ordered(Names(Place(t, name, items)))
  {
    if items != [] {
      if HasName(t, name) {
        UpdateKeepsNames(t, name, Block(items));
      } else {
        InsertKeepsOrder(t, Section(name, Block(items)));
      }
    }
  }

  /** A body in canonical order stays in it. */
  lemma {:induction false} FoldKeepsOrder(sections: seq<Section>, entries: Entries, k: nat)
    requires k <= |SECTIONS| && Ordered(Names(sections))
    ensures Ordered(Names(FoldUpTo(sections, entries, k)))
  {
    if k > 0 {
      FoldKeepsOrder(sections, entries, k - 1);
      CanonicalAt(k - 1);
      FoldNext(sections, entries, k - 1);
      PlaceKeepsOrder(FoldUpTo(sections, entries, k - 1), SECTIONS[k - 1], ItemsFor(entries, SECTIONS[k - 1]));
    }
  }
}
