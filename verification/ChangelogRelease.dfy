/** Dating the Unreleased section as a release, and the fragments that come back
    afterwards. */
module ChangelogRelease {
  import opened Text
  import opened ChangelogText
  import opened ChangelogFold
  import opened ChangelogLaws
  import opened ChangelogRender

  /** release, once rendered: an empty Unreleased section is put above the old one,
      which takes the version heading. */
  function Release(text: seq<Line>, heading: Line): seq<Line>
    requires HasUnreleased(text)
  {
    text[..Start(text) - 1] + ["## Unreleased", "", heading] + text[Start(text)..]
  }

  lemma {:induction false} ReleasedTail(text: seq<Line>, heading: Line)
    requires HasUnreleased(text) && IsVersion(heading)
    ensures var tail := [heading] + text[Start(text)..];
            FindVersion(tail, 1) == End(text) - Start(text) + 1 &&
            tail[1..FindVersion(tail, 1)] == Body(text)
  {
    var tail := [heading] + text[Start(text)..];
    var d := End(text) - Start(text) + 1;
    VersionFound(text, Start(text));
    assert forall j | 1 <= j < |tail| :: tail[j] == text[Start(text) + j - 1];
    VersionIsAt(tail, 1, d);
  }

  /** Where the released text has its headings. */
  lemma {:induction false} ReleasedStart(text: seq<Line>, heading: Line)
    requires HasUnreleased(text)
    ensures HasUnreleased(Release(text, heading)) && Start(Release(text, heading)) == Start(text)
  {
    var r := Release(text, heading);
    var u := Start(text) - 1;
    UnreleasedFound(text, 0);
    assert forall j | 0 <= j < u :: r[j] == text[j];
    assert r[u] == "## Unreleased" && u + 1 < |r|;
    UnreleasedIsAt(r, 0, u);
  }

  lemma {:induction false} ReleasedEnd(text: seq<Line>, heading: Line)
    requires HasUnreleased(text) && IsVersion(heading)
    ensures HasUnreleased(Release(text, heading)) && Start(Release(text, heading)) == Start(text)
    ensures End(Release(text, heading)) == Start(text) + 1
  {
    var r, at := Release(text, heading), Start(text);
    ReleasedStart(text, heading);
    assert r[at] == "" && r[at + 1] == heading;
    BlankIsNoHeading();
    VersionIsAt(r, at, at + 1);
  }

  lemma {:induction false} ReleasedTailIs(text: seq<Line>, heading: Line)
    requires HasUnreleased(text) && IsVersion(heading)
    ensures HasUnreleased(Release(text, heading))
    ensures Body(Release(text, heading)) == [""]
    ensures Tail(Release(text, heading)) == [heading] + text[Start(text)..]
    ensures Release(text, heading)[Start(Release(text, heading))..] == ["", heading] + text[Start(text)..]
  {
    ReleasedEnd(text, heading);
    var r, at := Release(text, heading), Start(text);
    assert r[at..] == ["", heading] + text[at..];
    assert r[at..at + 1] == [""];
    assert r[at + 1..] == [heading] + text[at..];
  }

  /** The released text: nothing unreleased, and the old body the latest release. */
  lemma {:induction false} ReleasedReads(text: seq<Line>, heading: Line)
    requires HasUnreleased(text) && IsVersion(heading)
    ensures HasUnreleased(Release(text, heading))
    ensures Read(Body(Release(text, heading))) == Parsed([], [])
    ensures LatestRelease(Release(text, heading)) == Read(Body(text)).sections
  {
    ReleasedEnd(text, heading);
    ReleasedTailIs(text, heading);
    assert [""] == Print(Parsed([], [])) + [];
    ReadPrint(Parsed([], []), []);
    ReleasedTail(text, heading);
  }

  /** A fragment that comes back after the release is found exactly when the
      released section itself carried it: the release before it is out of sight. */
  lemma {:induction false} FoundAfterRelease(text: seq<Line>, heading: Line, f: Fragment)
    requires HasUnreleased(text) && IsVersion(heading)
    ensures HasUnreleased(Release(text, heading))
    ensures AlreadyFolded(Release(text, heading), f) <==> FoldedIn(Read(Body(text)).sections, f)
  {
    ReleasedReads(text, heading);
  }

  /** Fragments a release folded are not folded again however many reappear. */
  lemma {:induction false} ReleasedFragmentsStayFolded(text: seq<Line>, fragments: seq<Fragment>, heading: Line,
                                                       back: seq<Fragment>)
    requires HasUnreleased(text) && IsVersion(heading)
    requires forall i | 0 <= i < |fragments| :: IsFragment(fragments[i])
    requires forall f | f in back :: f in fragments && !FoldedIn(LatestRelease(text), f)
    ensures HasUnreleased(Folded(text, fragments)) && HasUnreleased(Release(Folded(text, fragments), heading))
    ensures var released := Release(Folded(text, fragments), heading);
            Folded(released, back) == released
  {
    UnreleasedStays(text, fragments);
    var rendered := Folded(text, fragments);
    ReleasedReads(rendered, heading);
    CollectIsGood(CandidatesOf(text), fragments);
    FoldReads(text, Collect(CandidatesOf(text), fragments));
    assert LatestRelease(rendered) == LatestRelease(text);
    forall i | 0 <= i < |back| ensures AlreadyFolded(Release(rendered, heading), back[i]) {
      assert back[i] in fragments;
      var j :| 0 <= j < |fragments| && fragments[j] == back[i];
      FoldedIsFound(text, fragments, j);
      FoundAfterRelease(rendered, heading, back[i]);
    }
    CollectsNothing(Release(rendered, heading), back);
  }

  /** So a fragment folded, released, and left lying until the next release is out
      of sight: skipped before that release, it would be folded again after it. */
  lemma {:induction false} OutOfSightAfterTwoReleases(text: seq<Line>, f: Fragment, first: Line, second: Line)
    requires HasUnreleased(text) && IsFragment(f) && !AlreadyFolded(text, f)
    requires IsVersion(first) && IsVersion(second)
    ensures HasUnreleased(Folded(text, [f]))
    ensures var released := Release(Folded(text, [f]), first);
            HasUnreleased(released) && AlreadyFolded(released, f) &&
            HasUnreleased(Release(released, second)) && !AlreadyFolded(Release(released, second), f)
  {
    FoldedIsFound(text, [f], 0);
    var folded := Folded(text, [f]);
    CollectIsGood(CandidatesOf(text), [f]);
    FoldReads(text, Collect(CandidatesOf(text), [f]));
    assert LatestRelease(folded) == LatestRelease(text);
    FoundAfterRelease(folded, first, f);
    ReleasedReads(folded, first);
    FoundAfterRelease(Release(folded, first), second, f);
  }

  lemma {:induction false} TwoReleasesTail(text: seq<Line>, first: Line, second: Line)
    requires HasUnreleased(text) && IsVersion(first) && IsVersion(second)
    ensures HasUnreleased(Release(text, first)) && HasUnreleased(Release(Release(text, first), second))
    ensures Tail(Release(Release(text, first), second)) == [second, "", first] + text[Start(text)..]
  {
    ReleasedTailIs(text, first);
    ReleasedTailIs(Release(text, first), second);
    assert [second] + (["", first] + text[Start(text)..]) == [second, "", first] + text[Start(text)..];
  }

  /** Folding a fragment not yet carried puts it under "## Unreleased" and leaves
      what follows alone. */
  lemma {:induction false} FoldedAfresh(text: seq<Line>, f: Fragment)
    requires HasUnreleased(text) && IsFragment(f) && !AlreadyFolded(text, f)
    ensures HasUnreleased(Folded(text, [f])) && FoldedIn(Read(Body(Folded(text, [f]))).sections, f)
    ensures Tail(Folded(text, [f])) == Tail(text)
    ensures LatestRelease(Folded(text, [f])) == LatestRelease(text)
  {
    FoldedIsFound(text, [f], 0);
    CollectIsGood(CandidatesOf(text), [f]);
    FoldReads(text, Collect(CandidatesOf(text), [f]));
  }

  /** So the entry comes to stand twice: under "## Unreleased" again, and still in
      the release that first carried it, two headings down. */
  lemma {:induction false} FoldedAgainAfterTwoReleases(text: seq<Line>, f: Fragment, first: Line, second: Line)
    requires HasUnreleased(text) && IsFragment(f) && !AlreadyFolded(text, f)
    requires IsVersion(first) && IsVersion(second)
    ensures var folded := Folded(text, [f]);
            HasUnreleased(folded) && HasUnreleased(Release(folded, first)) &&
            HasUnreleased(Release(Release(folded, first), second)) &&
            var again := Folded(Release(Release(folded, first), second), [f]);
            && HasUnreleased(again) && FoldedIn(Read(Body(again)).sections, f)
            && FoldedIn(Read(Body(folded)).sections, f)
            && Tail(again) == [second, "", first] + folded[Start(folded)..]
  {
    var folded := Folded(text, [f]);
    FoldedAfresh(text, f);
    OutOfSightAfterTwoReleases(text, f, first, second);
    TwoReleasesTail(folded, first, second);
    FoldedAfresh(Release(Release(folded, first), second), f);
  }

  lemma {:induction false} FixedEntry()
    ensures IsFragment(Fragment("Fixed", ["- a"]))
  {
    RankIs(4, "Fixed");
    assert SECTIONS[4] == "Fixed";
    HeadingsStartWithHash("- a");
    assert "- a"[0] == '-' && "#"[0] == '#';
    assert !StartsWith("- a", "#");
    assert NoHeadings(["- a"]);
    assert Trimmed(["- a"]);
  }

  lemma {:induction false} EmptyChangelog()
    ensures var text := ["## Unreleased", ""];
            HasUnreleased(text) && CandidatesOf(text) == Candidates([], [])
  {
    var text := ["## Unreleased", ""];
    assert IsUnreleased(text[0]);
    BlankIsNoHeading();
    UnreleasedIsAt(text, 0, 0);
    VersionIsAt(text, 1, 2);
    assert Body(text) == Print(Parsed([], [])) + [];
    ReadPrint(Parsed([], []), []);
  }

  /** It happens from an empty changelog with one fragment. */
  lemma {:induction false} AnEntryCanBeFoldedTwice()
    ensures var text, f := ["## Unreleased", ""], Fragment("Fixed", ["- a"]);
            HasUnreleased(text) && IsFragment(f) && !AlreadyFolded(text, f) &&
            var folded := Folded(text, [f]);
            HasUnreleased(folded) && HasUnreleased(Release(folded, "## 1.0")) &&
            HasUnreleased(Release(Release(folded, "## 1.0"), "## 1.1")) &&
            var again := Folded(Release(Release(folded, "## 1.0"), "## 1.1"), [f]);
            && HasUnreleased(again) && FoldedIn(Read(Body(again)).sections, f)
            && FoldedIn(Read(Body(folded)).sections, f)
            && Tail(again) == ["## 1.1", "", "## 1.0"] + folded[Start(folded)..]
  {
    FixedEntry();
    EmptyChangelog();
    VersionHeadings();
    FoldedAgainAfterTwoReleases(["## Unreleased", ""], Fragment("Fixed", ["- a"]), "## 1.0", "## 1.1");
  }

  lemma {:induction false} VersionHeadings()
    ensures IsVersion("## 1.0") && IsVersion("## 1.1")
  {
    assert "## 1.0"[3..] == "1.0" && "## 1.1"[3..] == "1.1";
    assert "1.0"[0] != 'U' && "1.1"[0] != 'U';
  }
}
