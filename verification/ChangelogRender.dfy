/** Rendering the fragments into the changelog and deleting them: a render that
    dies part-way loses nothing and folds nothing twice when it is run again. */
module ChangelogRender {
  import opened Text
  import opened ChangelogText
  import opened ChangelogFold
  import opened ChangelogLaws

  // ---------- fragments ----------

  const KEYS := ["added", "changed", "deprecated", "removed", "fixed", "security", "performance"]

  /** A file of the fragments directory; `key` is what <slug>.<section>.md gives
      for its section, if its name has that form. */
  datatype File = File(name: string, key: Key, lines: seq<Line>)

  datatype Key = NoKey | Key(text: string)

  datatype Fragment = Fragment(section: string, entry: Entry)

  datatype Problem = BadName | BadSection | EmptyBody | HeadingInBody | NotAList

  datatype Parse = Good(fragment: Fragment) | Bad(problem: Problem)

  function FirstInked(lines: seq<Line>): Line {
    if lines == [] then "" else if AllSpace(lines[0]) then FirstInked(lines[1..]) else StripLeft(lines[0])
  }

  function ParseFragment(f: File): Parse {
    if f.key.NoKey? then Bad(BadName)
    else if IndexOf(KEYS, f.key.text) == |KEYS| then Bad(BadSection)
    else
      var body := Trim(f.lines);
      if forall i | 0 <= i < |body| :: AllSpace(body[i]) then Bad(EmptyBody)
      else if exists i | 0 <= i < |body| :: StartsWith(body[i], "#") then Bad(HeadingInBody)
      else if !StartsWith(FirstInked(body), "- ") then Bad(NotAList)
      else Good(Fragment(SECTIONS[IndexOf(KEYS, f.key.text)], body))
  }

  lemma {:induction false} HeadingsStartWithHash(line: Line)
    ensures IsSection(line) || IsVersion(line) ==> StartsWith(line, "#")
  {
  }

  lemma {:induction false} BodyIsEntry(lines: seq<Line>)
    requires exists i | 0 <= i < |Trim(lines)| :: !AllSpace(Trim(lines)[i])
    requires forall i | 0 <= i < |Trim(lines)| :: !StartsWith(Trim(lines)[i], "#")
    ensures IsEntry(Trim(lines))
  {
    var body := Trim(lines);
    TrimIsTrimmed(lines);
    forall i | 0 <= i < |body| ensures !IsSection(body[i]) && !IsVersion(body[i]) {
      HeadingsStartWithHash(body[i]);
    }
  }

  lemma {:induction false} KeysAreCanonical(k: nat)
    requires k < |KEYS|
    ensures Known(SECTIONS[k])
  {
    CanonicalAt(k);
  }

  lemma {:induction false} ParsedIsEntry(f: File)
    requires ParseFragment(f).Good?
    ensures IsEntry(ParseFragment(f).fragment.entry) && Known(ParseFragment(f).fragment.section)
  {
    KeysAreCanonical(IndexOf(KEYS, f.key.text));
    BodyIsEntry(f.lines);
  }

  function Parses(files: seq<File>): (r: seq<Parse>)
    ensures |r| == |files|
  {
    seq(|files|, i requires 0 <= i < |files| => ParseFragment(files[i]))
  }

  predicate AllGood(parses: seq<Parse>) {
    forall i | 0 <= i < |parses| :: parses[i].Good?
  }

  function FragmentsOf(parses: seq<Parse>): (r: seq<Fragment>)
    requires AllGood(parses)
    ensures |r| == |parses|
  {
    seq(|parses|, i requires 0 <= i < |parses| => parses[i].fragment)
  }

  predicate AllParse(files: seq<File>) {
    AllGood(Parses(files))
  }

  function Fragments(files: seq<File>): (r: seq<Fragment>)
    requires AllParse(files)
    ensures |r| == |files|
  {
    FragmentsOf(Parses(files))
  }

  lemma {:induction false} ParsesWhenEachDoes(files: seq<File>)
    requires forall i | 0 <= i < |files| :: ParseFragment(files[i]).Good?
    ensures AllParse(files)
  {
  }

  lemma {:induction false} FragmentAt(files: seq<File>, i: nat)
    requires AllParse(files) && i < |files|
    ensures ParseFragment(files[i]).Good? && Fragments(files)[i] == ParseFragment(files[i]).fragment
  {
    assert Parses(files)[i] == ParseFragment(files[i]);
  }

  predicate IsFragment(f: Fragment) {
    IsEntry(f.entry) && Known(f.section)
  }

  // ---------- already folded ----------

  /** The entry stands at line i, whole, on item boundaries. */
  predicate OccursAt(content: seq<Line>, entry: Entry, i: nat) {
    i + |entry| <= |content| && content[i..i + |entry|] == entry &&
    (i == 0 || (i >= 2 && content[i - 1] == "")) &&
    (i + |entry| == |content| || (content[i + |entry|] == "" && i + |entry| + 1 < |content|))
  }

  predicate Occurs(content: seq<Line>, entry: Entry) {
    exists i | 0 <= i <= |content| :: OccursAt(content, entry, i)
  }

  /** A section of the fragment's name carries its entry. */
  predicate FoldedIn(sections: seq<Section>, f: Fragment) {
    sections != [] &&
    ((sections[0].name == f.section && Occurs(sections[0].content, f.entry)) || FoldedIn(sections[1..], f))
  }

  lemma {:induction false} FoldedAt(sections: seq<Section>, f: Fragment, i: nat)
    requires i < |sections| && sections[i].name == f.section && Occurs(sections[i].content, f.entry)
    ensures FoldedIn(sections, f)
  {
    if i > 0 {
      FoldedAt(sections[1..], f, i - 1);
    }
  }

  lemma {:induction false} FoldedWhere(sections: seq<Section>, f: Fragment) returns (i: nat)
    requires FoldedIn(sections, f)
    ensures i < |sections| && sections[i].name == f.section && Occurs(sections[i].content, f.entry)
  {
    if sections[0].name == f.section && Occurs(sections[0].content, f.entry) {
      i := 0;
    } else {
      var j := FoldedWhere(sections[1..], f);
      i := j + 1;
    }
  }

  /** The sections of the latest release, the version heading text starts with. */
  function LatestRelease(text: seq<Line>): seq<Section>
    requires HasUnreleased(text)
  {
    if End(text) == |text| then []
    else var tail := Tail(text); Read(tail[1..FindVersion(tail, 1)]).sections
  }

  /** What _already_folded searches: "## Unreleased" and the latest release. */
  datatype Candidates = Candidates(unreleased: seq<Section>, latest: seq<Section>)
  {
    predicate Carry(f: Fragment) {
      FoldedIn(unreleased, f) || FoldedIn(latest, f)
    }
  }

  function CandidatesOf(text: seq<Line>): Candidates
    requires HasUnreleased(text)
  {
    Candidates(Read(Body(text)).sections, LatestRelease(text))
  }

  predicate AlreadyFolded(text: seq<Line>, f: Fragment)
    requires HasUnreleased(text)
  {
    CandidatesOf(text).Carry(f)
  }

  /** The entries _folded collects, in fragment order per section. */
  function Collect(c: Candidates, fragments: seq<Fragment>): Entries {
    if fragments == [] then map[]
    else
      var f := fragments[|fragments| - 1];
      var before := Collect(c, fragments[..|fragments| - 1]);
      if c.Carry(f) then before else before[f.section := ItemsFor(before, f.section) + [f.entry]]
  }

  function Folded(text: seq<Line>, fragments: seq<Fragment>): seq<Line>
    requires HasUnreleased(text)
  {
    var entries := Collect(CandidatesOf(text), fragments);
    if entries == map[] then text else Fold(text, entries)
  }

  // ---------- what was folded is found ----------

  lemma {:induction false} OccursBefore(content: seq<Line>, block: seq<Line>, entry: Entry)
    requires Occurs(content, entry) && entry != [] && block != []
    ensures Occurs(Append(content, block), entry)
  {
    var i :| 0 <= i <= |content| && OccursAt(content, entry, i);
    var all := Append(content, block);
    assert all[i..i + |entry|] == content[i..i + |entry|];
    assert OccursAt(all, entry, i);
  }

  lemma {:induction false} OccursAfter(content: seq<Line>, block: seq<Line>, entry: Entry)
    requires Occurs(block, entry) && entry != []
    ensures Occurs(Append(content, block), entry)
  {
    var i :| 0 <= i <= |block| && OccursAt(block, entry, i);
    if content != [] {
      var all := Append(content, block);
      var at := |content| + 1 + i;
      assert all[at..at + |entry|] == block[i..i + |entry|];
      assert all[at - 1] == if i == 0 then "" else block[i - 1];
      assert OccursAt(all, entry, at);
    }
  }

  lemma {:induction false} OccursInBlock(items: seq<Entry>, k: nat)
    requires k < |items| && forall i | 0 <= i < |items| :: IsEntry(items[i])
    ensures Occurs(Block(items), items[k])
  {
    if |items| == 1 {
      assert OccursAt(Block(items), items[0], 0);
    } else {
      var before, last := items[..|items| - 1], items[|items| - 1];
      BlockIsGood(before);
      assert Block(items) == Append(Block(before), last);
      if k == |items| - 1 {
        assert OccursAt(last, last, 0);
        OccursAfter(Block(before), last, last);
      } else {
        OccursInBlock(before, k);
        OccursBefore(Block(before), last, items[k]);
      }
    }
  }

  lemma {:induction false} PlaceKeepsFolded(sections: seq<Section>, name: string, items: seq<Entry>, f: Fragment)
    requires FoldedIn(sections, f) && f.entry != []
    requires forall i | 0 <= i < |items| :: IsEntry(items[i])
    ensures FoldedIn(Place(sections, name, items), f)
  {
    var i := FoldedWhere(sections, f);
    if items != [] {
      BlockIsGood(items);
      if HasName(sections, name) {
        UpdateKeepsFolded(sections, name, Block(items), f, i);
      } else {
        InsertKeepsFolded(sections, Section(name, Block(items)), f, i);
      }
    }
  }

  lemma {:induction false} UpdateKeepsFolded(sections: seq<Section>, name: string, block: seq<Line>, f: Fragment, i: nat)
    requires HasName(sections, name) && block != [] && f.entry != []
    requires i < |sections| && sections[i].name == f.section && Occurs(sections[i].content, f.entry)
    ensures FoldedIn(Update(sections, name, block), f)
  {
    var at := FirstIndex(sections, name);
    UpdateIsAt(sections, name, block, at);
    OccursBefore(sections[i].content, block, f.entry);
    FoldedAt(Update(sections, name, block), f, i);
  }

  lemma {:induction false} InsertKeepsFolded(sections: seq<Section>, s: Section, f: Fragment, i: nat)
    requires i < |sections| && sections[i].name == f.section && Occurs(sections[i].content, f.entry)
    ensures FoldedIn(Insert(sections, s), f)
  {
    var at := InsertAt(Names(sections), Rank(s.name));
    InsertIsAt(sections, s);
    FoldedAt(Insert(sections, s), f, if i < at then i else i + 1);
  }

  lemma {:induction false} PlaceFolds(sections: seq<Section>, name: string, items: seq<Entry>, k: nat)
    requires k < |items| && forall i | 0 <= i < |items| :: IsEntry(items[i])
    ensures FoldedIn(Place(sections, name, items), Fragment(name, items[k]))
  {
    OccursInBlock(items, k);
    if HasName(sections, name) {
      var at := FirstIndex(sections, name);
      UpdateIsAt(sections, name, Block(items), at);
      OccursAfter(sections[at].content, Block(items), items[k]);
      FoldedAt(Place(sections, name, items), Fragment(name, items[k]), at);
    } else {
      var s := Section(name, Block(items));
      InsertIsAt(sections, s);
      FoldedAt(Place(sections, name, items), Fragment(name, items[k]), InsertAt(Names(sections), Rank(name)));
    }
  }

  lemma {:induction false} FoldKeepsFolded(sections: seq<Section>, entries: Entries, k: nat, f: Fragment)
    requires k <= |SECTIONS| && GoodEntries(entries) && f.entry != [] && FoldedIn(sections, f)
    ensures FoldedIn(FoldUpTo(sections, entries, k), f)
  {
    if k > 0 {
      FoldKeepsFolded(sections, entries, k - 1, f);
      PlaceKeepsFolded(FoldUpTo(sections, entries, k - 1), SECTIONS[k - 1], ItemsFor(entries, SECTIONS[k - 1]), f);
    }
  }

  lemma {:induction false} FoldFolds(sections: seq<Section>, entries: Entries, k: nat, f: Fragment)
    requires k <= |SECTIONS| && GoodEntries(entries) && IsFragment(f)
    requires Rank(f.section) < k && f.entry in ItemsFor(entries, f.section)
    ensures FoldedIn(FoldUpTo(sections, entries, k), f)
  {
    var before := FoldUpTo(sections, entries, k - 1);
    var items := ItemsFor(entries, SECTIONS[k - 1]);
    if Rank(f.section) < k - 1 {
      FoldFolds(sections, entries, k - 1, f);
      PlaceKeepsFolded(before, SECTIONS[k - 1], items, f);
    } else {
      assert SECTIONS[k - 1] == f.section;
      var j :| 0 <= j < |items| && items[j] == f.entry;
      PlaceFolds(before, f.section, items, j);
      assert Fragment(f.section, items[j]) == f;
    }
  }

  // ---------- collecting ----------

  lemma {:induction false} CollectIsGood(c: Candidates, fragments: seq<Fragment>)
    requires forall i | 0 <= i < |fragments| :: IsFragment(fragments[i])
    ensures GoodEntries(Collect(c, fragments))
  {
    if fragments != [] {
      CollectIsGood(c, fragments[..|fragments| - 1]);
      assert IsFragment(fragments[|fragments| - 1]);
      OneMoreIsGood(Collect(c, fragments[..|fragments| - 1]), fragments[|fragments| - 1]);
    }
  }

  lemma {:induction false} OneMoreIsGood(before: Entries, f: Fragment)
    requires GoodEntries(before) && IsEntry(f.entry)
    ensures GoodEntries(before[f.section := ItemsFor(before, f.section) + [f.entry]])
  {
  }

  lemma {:induction false} CollectHolds(c: Candidates, fragments: seq<Fragment>, i: nat)
    requires i < |fragments| && !c.Carry(fragments[i])
    ensures fragments[i].entry in ItemsFor(Collect(c, fragments), fragments[i].section)
  {
    if i < |fragments| - 1 {
      assert fragments[..|fragments| - 1][i] == fragments[i];
      CollectHolds(c, fragments[..|fragments| - 1], i);
    }
  }

  lemma {:induction false} CollectIsEmpty(c: Candidates, fragments: seq<Fragment>)
    requires forall i | 0 <= i < |fragments| :: c.Carry(fragments[i])
    ensures Collect(c, fragments) == map[]
  {
    if fragments != [] {
      assert c.Carry(fragments[|fragments| - 1]);
      assert forall i | 0 <= i < |fragments| - 1 :: fragments[..|fragments| - 1][i] == fragments[i];
      CollectIsEmpty(c, fragments[..|fragments| - 1]);
    }
  }

  lemma {:induction false} CollectsNothing(text: seq<Line>, fragments: seq<Fragment>)
    requires HasUnreleased(text) && forall i | 0 <= i < |fragments| :: AlreadyFolded(text, fragments[i])
    ensures Folded(text, fragments) == text
  {
    CollectIsEmpty(CandidatesOf(text), fragments);
  }

  /** After a fold, every fragment it was given is found already folded. */
  lemma {:induction false} FoldedIsFound(text: seq<Line>, fragments: seq<Fragment>, i: nat)
    requires HasUnreleased(text) && i < |fragments|
    requires forall j | 0 <= j < |fragments| :: IsFragment(fragments[j])
    ensures HasUnreleased(Folded(text, fragments))
    ensures AlreadyFolded(Folded(text, fragments), fragments[i])
  {
    var entries := Collect(CandidatesOf(text), fragments);
    var f := fragments[i];
    if entries == map[] {
      if !AlreadyFolded(text, f) {
        CollectHolds(CandidatesOf(text), fragments, i);
      }
    } else {
      CollectIsGood(CandidatesOf(text), fragments);
      FoldReads(text, entries);
      var sections := Read(Body(text)).sections;
      if !AlreadyFolded(text, f) {
        CollectHolds(CandidatesOf(text), fragments, i);
        FoldFolds(sections, entries, |SECTIONS|, f);
      } else if FoldedIn(sections, f) {
        FoldKeepsFolded(sections, entries, |SECTIONS|, f);
      } else {
        assert LatestRelease(Fold(text, entries)) == LatestRelease(text);
      }
    }
  }

  /** So folding any of them again changes nothing. */
  lemma {:induction false} FoldedIsSettled(text: seq<Line>, fragments: seq<Fragment>, left: seq<Fragment>)
    requires HasUnreleased(text) && forall j | 0 <= j < |fragments| :: IsFragment(fragments[j])
    requires forall f | f in left :: f in fragments
    ensures HasUnreleased(Folded(text, fragments))
    ensures Folded(Folded(text, fragments), left) == Folded(text, fragments)
  {
    if left == [] {
      UnreleasedStays(text, fragments);
    } else {
      forall i | 0 <= i < |left|
        ensures HasUnreleased(Folded(text, fragments)) && AlreadyFolded(Folded(text, fragments), left[i])
      {
        assert left[i] in fragments;
        var j :| 0 <= j < |fragments| && fragments[j] == left[i];
        FoldedIsFound(text, fragments, j);
      }
      assert AlreadyFolded(Folded(text, fragments), left[0]);
      CollectsNothing(Folded(text, fragments), left);
    }
  }

  lemma {:induction false} UnreleasedStays(text: seq<Line>, fragments: seq<Fragment>)
    requires HasUnreleased(text) && forall j | 0 <= j < |fragments| :: IsFragment(fragments[j])
    ensures HasUnreleased(Folded(text, fragments))
  {
    CollectIsGood(CandidatesOf(text), fragments);
    FoldReads(text, Collect(CandidatesOf(text), fragments));
  }

  lemma {:induction false} CollectNext(c: Candidates, parses: seq<Parse>, f: Fragment)
    requires AllGood(parses)
    ensures AllGood(parses + [Good(f)])
    ensures var before := Collect(c, FragmentsOf(parses));
            Collect(c, FragmentsOf(parses + [Good(f)])) ==
            if c.Carry(f) then before else before[f.section := ItemsFor(before, f.section) + [f.entry]]
  {
    assert FragmentsOf(parses + [Good(f)])[..|parses|] == FragmentsOf(parses);
  }

  // ---------- render ----------

  /** The loop of _folded over the fragments as they parse; it stops at the first
      malformed one. */
  method CollectFrom(c: Candidates, parses: seq<Parse>) returns (ok: bool, entries: Entries)
    ensures ok <==> AllGood(parses)
    ensures ok ==> entries == Collect(c, FragmentsOf(parses))
  {
    entries := map[];
    for i := 0 to |parses|
      invariant AllGood(parses[..i]) && entries == Collect(c, FragmentsOf(parses[..i]))
    {
      if parses[i].Bad? {
        return false, map[];
      }
      var f := parses[i].fragment;
      CollectNext(c, parses[..i], f);
      assert parses[..i + 1] == parses[..i] + [Good(f)];
      if !c.Carry(f) {
        entries := entries[f.section := ItemsFor(entries, f.section) + [f.entry]];
      }
    }
    assert parses[..|parses|] == parses;
    return true, entries;
  }

  /** _folded up to the fold: a changelog without its Unreleased heading is refused
      once there is a fragment to look for in it. */
  method CollectEntries(text: seq<Line>, files: seq<File>) returns (ok: bool, entries: Entries)
    ensures ok <==> files == [] || (AllParse(files) && HasUnreleased(text))
    ensures ok && files != [] ==> entries == Collect(CandidatesOf(text), Fragments(files))
    ensures ok && files == [] ==> entries == map[]
  {
    if files == [] {
      return true, map[];
    }
    if !HasUnreleased(text) {
      return false, map[];
    }
    ok, entries := CollectFrom(CandidatesOf(text), Parses(files));
  }

  /** The repository as render sees it: the changelog, and the fragment files in
      the sorted order they are listed in. */
  class Repository {
    var changelog: seq<Line>
    var files: seq<File>

    constructor (changelog: seq<Line>, files: seq<File>)
      ensures this.changelog == changelog && this.files == files
    {
      this.changelog := changelog;
      this.files := files;
    }

    /** _folded: the text with every fragment folded in, written nowhere. */
    method FoldAll() returns (r: Outcome)
      ensures r.Written? <==> files == [] || (AllParse(files) && HasUnreleased(changelog))
      ensures r.Written? && files != [] ==> r.text == Folded(changelog, Fragments(files))
      ensures r.Written? && files == [] ==> r.text == changelog
    {
      var ok, entries := CollectEntries(changelog, files);
      if !ok {
        return Refused;
      }
      if entries == map[] {
        return Written(changelog);
      }
      var text := FoldText(changelog, entries);
      return Written(text);
    }

    /** render: write the folded changelog, then unlink every fragment; nothing
        is touched when there is nothing to fold or something is malformed. */
    method Render() returns (done: bool)
      modifies this
      ensures done <==> old(files) == [] || (AllParse(old(files)) && HasUnreleased(old(changelog)))
      ensures !done || old(files) == [] ==> changelog == old(changelog) && files == old(files)
      ensures done && old(files) != [] ==>
                changelog == Folded(old(changelog), Fragments(old(files))) && files == []
    {
      if files == [] {
        return true;
      }
      var r := FoldAll();
      if r.Refused? {
        return false;
      }
      changelog := r.text;
      var paths := files;
      for i := 0 to |paths|
        invariant files == paths[i..]
        invariant changelog == r.text
      {
        files := files[1..];
      }
      return true;
    }
  }

  datatype Outcome = Written(text: seq<Line>) | Refused

  // ---------- renders that die ----------

  /** `pending` is the fragments a running render has still to unlink; None when
      no render runs.  Writing the changelog is one step. */
  datatype State = State(text: seq<Line>, files: seq<File>, pending: Pending)

  datatype Pending = Idle | Unlinking(paths: seq<File>)

  function Without(files: seq<File>, f: File): seq<File> {
    if files == [] then []
    else if files[0] == f then Without(files[1..], f)
    else [files[0]] + Without(files[1..], f)
  }

  predicate Write(s: State, t: State) {
    s.pending.Idle? && s.files != [] && AllParse(s.files) && HasUnreleased(s.text) &&
    t == State(Folded(s.text, Fragments(s.files)), s.files, Unlinking(s.files))
  }

  predicate Unlink(s: State, t: State) {
    s.pending.Unlinking? && s.pending.paths != [] &&
    t == State(s.text, Without(s.files, s.pending.paths[0]), Unlinking(s.pending.paths[1..]))
  }

  predicate Finish(s: State, t: State) {
    s.pending == Unlinking([]) && t == s.(pending := Idle)
  }

  predicate Crash(s: State, t: State) {
    t == s.(pending := Idle)
  }

  predicate Next(s: State, t: State) {
    Write(s, t) || Unlink(s, t) || Finish(s, t) || Crash(s, t)
  }

  predicate IsRun(run: seq<State>) {
    run != [] && forall i | 0 <= i < |run| - 1 :: Next(run[i], run[i + 1])
  }

  predicate Renderable(s: State) {
    s.pending.Idle? && s.files != [] && AllParse(s.files) && HasUnreleased(s.text)
  }

  /** Before the write everything is as it was; after it the changelog is the
      folded one and what is left of the fragments are fragments it carries. */
  predicate Safe(start: State, s: State)
    requires Renderable(start)
  {
    s == start ||
    (s.text == Folded(start.text, Fragments(start.files)) &&
     (forall f | f in s.files :: f in start.files) &&
     (s.pending.Unlinking? ==> forall f | f in s.files :: f in s.pending.paths))
  }

  lemma {:induction false} WithoutKeeps(files: seq<File>, f: File)
    ensures forall g :: g in Without(files, f) <==> g in files && g != f
  {
    if files != [] {
      WithoutKeeps(files[1..], f);
    }
  }

  lemma {:induction false} FragmentsOfSome(files: seq<File>, some: seq<File>)
    requires AllParse(files) && forall f | f in some :: f in files
    ensures AllParse(some)
    ensures forall g | g in Fragments(some) :: g in Fragments(files)
    ensures forall i | 0 <= i < |files| :: IsFragment(Fragments(files)[i])
  {
    forall i | 0 <= i < |some|
      ensures ParseFragment(some[i]).Good? && ParseFragment(some[i]).fragment in Fragments(files)
    {
      assert some[i] in files;
      var j :| 0 <= j < |files| && files[j] == some[i];
      FragmentAt(files, j);
    }
    ParsesWhenEachDoes(some);
    forall g | g in Fragments(some) ensures g in Fragments(files) {
      var i :| 0 <= i < |some| && Fragments(some)[i] == g;
      FragmentAt(some, i);
    }
    forall i | 0 <= i < |files| ensures IsFragment(Fragments(files)[i]) {
      FragmentAt(files, i);
      ParsedIsEntry(files[i]);
    }
  }

  /** Whatever fragments are left, rendering them again writes the same text. */
  lemma {:induction false} RenderingAgainChangesNothing(start: State, s: State)
    requires Renderable(start) && Safe(start, s) && AllParse(s.files)
    ensures HasUnreleased(s.text)
    ensures Folded(s.text, Fragments(s.files)) == Folded(start.text, Fragments(start.files))
  {
    if s != start {
      FragmentsOfSome(start.files, s.files);
      FoldedIsSettled(start.text, Fragments(start.files), Fragments(s.files));
    }
  }

  lemma {:induction false} StepIsSafe(start: State, s: State, t: State)
    requires Renderable(start) && Safe(start, s) && Next(s, t)
    ensures Safe(start, t)
  {
    if Write(s, t) {
      RenderingAgainChangesNothing(start, s);
    } else if Unlink(s, t) {
      WithoutKeeps(s.files, s.pending.paths[0]);
    }
  }

  /** Any number of crashes, between any two steps: the changelog is never other
      than the old one with every fragment still there, or the folded one; once
      no fragment is left it is the folded one, and rendering whatever is left
      gives it again. */
  lemma {:induction false} CrashesAreSafe(run: seq<State>)
    requires IsRun(run) && Renderable(run[0])
    ensures var start, s := run[0], run[|run| - 1];
            var folded := Folded(start.text, Fragments(start.files));
            Safe(start, s) &&
            (s.files == [] ==> s.text == folded) &&
            (s.pending == Unlinking([]) ==> s.files == []) &&
            AllParse(s.files) && HasUnreleased(s.text) && Folded(s.text, Fragments(s.files)) == folded
  {
    var start, s := run[0], run[|run| - 1];
    if |run| > 1 {
      var before := run[..|run| - 1];
      assert before[|before| - 1] == run[|run| - 2];
      assert IsRun(before) by {
        forall i | 0 <= i < |before| - 1 ensures Next(before[i], before[i + 1]) {
          assert Next(run[i], run[i + 1]);
        }
      }
      CrashesAreSafe(before);
      assert Next(run[|run| - 2], run[|run| - 2 + 1]);
      StepIsSafe(start, run[|run| - 2], s);
    }
    assert Safe(start, s);
    assert s.files == [] || s.files[0] in s.files;
    FragmentsOfSome(start.files, s.files);
    RenderingAgainChangesNothing(start, s);
  }

  /** Writing truncates the file first, and the run above takes both as one step: a
      crash between the two can leave any first part of the text.  One that stops
      before its Unreleased heading ends no render gets past, fragments or not. */
  lemma {:induction false} ATruncatedChangelogStays(run: seq<State>)
    requires IsRun(run) && run[0].pending.Idle? && !HasUnreleased(run[0].text)
    ensures run[|run| - 1] == run[0]
  {
    if |run| > 1 {
      var before := run[..|run| - 1];
      assert IsRun(before) by {
        forall i | 0 <= i < |before| - 1 ensures Next(before[i], before[i + 1]) {
          assert Next(run[i], run[i + 1]);
        }
      }
      ATruncatedChangelogStays(before);
      assert before[|before| - 1] == run[|run| - 2];
      assert Next(run[|run| - 2], run[|run| - 2 + 1]);
    }
  }
}
