# OpenSysML, verified parts

A Dafny model of the parts of OpenSysML whose behaviour is hardest to see from
one function at a time, with proofs over every input, every run and every
interleaving. `dafny verify dfyconfig.toml` checks all of it.

**The value algebra of the Go client** (`client/opensysml`). `Numbers`, `Units`
and `Values` model the 22 kinds of value and the equality that recurses through
order-free sets, absent values, exact and inexact numbers and unit-reduced
quantities. Equality is tied to a meaning: each value denotes at most one thing,
and `Equal` decides exactly whether two values denote the same. Symmetry,
transitivity, where reflexivity holds, and what sets and repeats amount to
follow from that (`ValueLaws`). `Wire`, `Decimal` and `Codec` model the wire
messages, the decimal text of unbounded integers and the two directions of the
codec; `CodecLaws` proves them inverse exactly on canonical values, `CodecNormal`
what every other value is read as, and `CodecSets` which sets come back as sets. `Preflight`
and `Fitting` tie what a call announces, or rewrites for a service that reads no
rationals, to what its messages hold.

**The changelog folder** (`scripts/changelog.py`). `ChangelogText` reads and
prints the text, `ChangelogFold` is the fold and its loops, `ChangelogLaws` what
it conserves and how batches of it compose, `ChangelogRender` the render that
writes the file and then unlinks fragments one by one, with crashes between any
two steps, and `ChangelogRelease` dating a release and what comes back after it.

**Two script algorithms.** `ExportPaths` is the depth-first walk over a cyclic
graph of exported Python objects; `TableCells`, `RuleRows` and `RuleCounts` are
the Markdown table splitter and the counting of rule rows.

**Smaller transformations.** `Conditions` is query negation against the
service's own evaluation; `Lifecycle` the open, close and cache protocol of one
client under any number of goroutines; `Authoring` the capabilities an edit list
needs and the depth-limited tree it sends; `Sbom` the rewriting of an npm SBOM
and the check after it.

Where the proofs found the code and its promises apart, a lemma says exactly
when the promise holds and another gives a case where it does not:

- A value inside an enumeration literal's scalar is sent but announced only when
  it is a big integer (`Preflight.ArmsAreCarriedOrHidden`,
  `Preflight.AnEnumScalarEscapesThePreflight`).
- A fragment that reappears after a release is found when the released section
  carried it, and only then: one that only the release before it carried is
  folded again, and its entry stands twice (`ChangelogRelease.FoundAfterRelease`,
  `ChangelogRelease.FoldedAgainAfterTwoReleases`,
  `ChangelogRelease.AnEntryCanBeFoldedTwice`).
- In process, a nil operand makes a filter and its negation both match the
  elements that owe the filter's verdict to it (`Conditions.NoElementIsMissed`,
  `Conditions.ANilOperandSatisfiesBoth`); a remote service refuses any filter
  that has one, so what it accepts negates exactly
  (`Conditions.RemoteNegationIsOpposite`).
- A client can ask its service for its info more than once, although the comment
  at client/opensysml/client.go:748 says at most once. It is asked at most once
  exactly when one goroutine uses the client and every answer the service can
  give is one to keep (or nobody asks, or nothing answers): two goroutines can
  both look before either keeps an answer, and one goroutine asks again when the
  service failed it (`Lifecycle.AskedAtMostOnceExactlyWhen`,
  `Lifecycle.TheServiceCanBeAskedTwice`, `Lifecycle.AFailingServiceIsAskedAgain`).
- A set is sent when its members are unequal, but comes back as a set exactly when
  their normal forms are: a value is read in the form its numbers settle into,
  with a null for each part the wire's canonical form has no room for, such as a
  rational a binary64 holds or an array that does not fill its dimensions. Two
  such members merge: a half and a quarter, or two misshapen arrays
  (`CodecNormal.ReadsAsNormal`, `CodecSets.SetsComeBackWhenNormalMembersDiffer`,
  `CodecSets.HeldRationalsMerge`, `CodecSets.MisshapenMembersMerge`).
- The search of nested items for a statement never decides anything: an item
  that has nested items already needs the capability
  (`Authoring.NestedItemsDecideNothing`).

Real numbers are idealised: a finite binary64 is a real number, with NaN, the two
infinities and negative zero apart, so scaling and adding exponents do not round.
Which rationals a binary64 holds is exact, range and precision included.

## Model

| member | source | states |
|---|---|---|
| Numbers.NumbersEqualIsSamePoint | client/opensysml/equal.go:104-159 | the branching comparison of Int, BigInt, Rational, Real and Complex holds exactly when both denote one point of the extended complex plane; NaN denotes none |
| Units.SumExponents | client/opensysml/equal.go:223-235 | the loops over a map leave each base unit's summed exponent, and no zero |
| Units.DropZeros | client/opensysml/equal.go:223-235 | the deleting loop drops exactly the units whose exponents cancel |
| Units.SameTotalsSameExponents | client/opensysml/equal.go:223-235 | two factor lists give one exponent map exactly when every unit's exponents sum alike |
| Units.FactorOrderIsImmaterial | client/opensysml/equal.go:223-235 | permuting factors leaves the exponent map as it is |
| Units.CancellingFactorsAreImmaterial | client/opensysml/equal.go:223-235 | so does adding a factor and its inverse |
| Units.CommensurableIsSameExponents | client/opensysml/equal.go:237-248 | the length test and one-sided loop decide equality of the exponent maps |
| Units.SameIsSameReduction | client/opensysml/equal.go:216-221 | the cross-multiplied comparison is equality of exponents and of scale ratios, false on zero scales; hence transitive |
| Units.BranchesAgree | client/opensysml/equal.go:161-200 | where the exact branch applies it answers what the floating branch would |
| Units.QuantityEqualIsSameAmount | client/opensysml/equal.go:161-200 | quantities are equal exactly when they denote one amount, in a unit as written or over base units |
| Units.ReferenceEqualIsSameMeasure | client/opensysml/equal.go:202-214 | measurement references are equal exactly when they denote one measure, declarations counting only for dimension one |
| Values.EqualIsSameMeaning | client/opensysml/equal.go:21-136 | at any nesting, Equal holds exactly when both values have the same meaning; null, the empty sequence and the empty set share one |
| Values.Repeated | client/opensysml/equal.go:93-100 | the loop returns the first member listed before, and none exactly when no member repeats |
| ValueLaws.EqualIsSymmetric | client/opensysml/equal.go:21-136 | Equal is symmetric on all values, although set comparison swaps its arguments |
| ValueLaws.EqualIsTransitive | client/opensysml/equal.go:21-136 | Equal is transitive on all values |
| ValueLaws.EqualIsReflexiveExactlyOnWellFormed | client/opensysml/equal.go:21-136 | a value equals itself exactly when, at any depth, it holds no NaN, no missing vector component, no zero scale and no missing magnitude on a quantity without a term |
| ValueLaws.QuantitiesEqualOverBaseUnits | client/opensysml/equal.go:161-200 | with terms, nonzero scales and finite magnitudes, equality is equality of exponents and of magnitude times num over den |
| ValueLaws.MembershipRespectsEqual | client/opensysml/equal.go:79-81 | equal values are members of the same sets |
| ValueLaws.SetsAreTheirMembers | client/opensysml/equal.go:83-91 | well-formed sets are equal exactly when they have the same members |
| ValueLaws.OrderAndRepetitionAreImmaterial | client/opensysml/equal.go:83-91 | permuting a set or repeating a member keeps it equal |
| ValueLaws.RepeatsIsSomePairEqual | client/opensysml/equal.go:93-100 | the duplicate check fails exactly when some two positions hold equal members |
| ValueLaws.RepeatsIsAboutMeanings | client/opensysml/equal.go:93-100 | whether a list repeats a member depends only on what its members mean |
| CodecNormal.ReadsAsNormal | client/opensysml/convert.go:100-394 | a value that encodes is read, at every depth, as its normal form, told from the value: big integers within int64 settle, and unreduced or binary64-held rationals, unfilled arrays, vectors and quantities missing such a number, unreduced references and sets whose normal members repeat are nulls |
| CodecNormal.NormalIsCanonical | client/opensysml/convert.go:100-394 | the normal form of a value that encodes is canonical, and is the value itself exactly when that is |
| CodecSets.SetsComeBackWhenNormalMembersDiffer | client/opensysml/convert.go:207-216 | a set that is sent is read as the set of its members' normal forms exactly when these are pairwise unequal, and else as the null that says a member repeats |
| CodecSets.BothDirectionsRefuseTheSame | client/opensysml/convert.go:344-358 | on canonical members that encode, the encoder's and the decoder's duplicate checks accept the same lists, those pairwise unequal |
| CodecSets.HeldRationalsMerge | client/opensysml/convert.go:596-609 | a half and a quarter, as rationals, are sent as a set and read as the null that says a member repeats |
| CodecSets.MisshapenMembersMerge | client/opensysml/convert.go:207-216 | two unequal arrays that fill no dimensions are sent as a set and read as the null that says a member repeats |
| Decimal.ParsePrint | internal/semantic/semantics/integer.go:45-60 | the decimal text of any integer reads back as it |
| Wire.CheckShape | internal/frontend/protoconv/convert.go:970-996 | the overflow-guarded loop accepts exactly positive dimensions whose product is the component count |
| Wire.SpelledRational | internal/semantic/semantics/rational.go:640-667 | a printed fraction reads back exactly when it is in lowest terms with a positive denominator |
| Codec.EncodeElements | client/opensysml/convert.go:247-396 | the appending loop gives the messages of all elements in order, or fails with the first that fails |
| Codec.DecodeSet | client/opensysml/convert.go:207-216 | the loop that checks the slice built so far answers as the whole-list duplicate check does |
| Codec.DecodeVector | client/opensysml/convert.go:170-179 | the loop over components stops at the first that is no number, with the null that says so |
| CodecLaws.EncodesExactlySendable | client/opensysml/convert.go:247-492 | encoding succeeds exactly when, at any depth, there is no Unset or Undetermined, no missing magnitude or name, no set that repeats a member and no tensor its dimensions do not fill |
| CodecLaws.DecodedIsCanonical | client/opensysml/convert.go:100-242 | decoding any message at all gives a canonical value |
| CodecLaws.RoundTrip | client/opensysml/convert.go:100-394 | a canonical value that encodes decodes to the identical value |
| CodecLaws.CanonicalIsSendable | client/opensysml/convert.go:247-394 | a canonical value is one that encodes exactly when it holds no Unset or Undetermined at any depth |
| CodecLaws.RoundTripsExactlyCanonical | client/opensysml/convert.go:100-394 | no other value comes back identical |
| CodecLaws.EncodingIsInjective | client/opensysml/convert.go:247-394 | different canonical values have different messages |
| CodecLaws.DecodingIsIdempotent | client/opensysml/convert.go:100-492 | re-encoding a decoded value fails only for Unset or Undetermined, and otherwise decodes to the same value again |
| Preflight.CarriesIsOnTheWire | client/opensysml/client.go:773-834 | each carries function agrees with the service's own search of the encoded message |
| Preflight.ArmsAreCarriedOrHidden | client/opensysml/client.go:773-834 | a kind's arm is anywhere in the message exactly when the function reports it or an enumeration scalar hides it |
| Preflight.AnEnumScalarEscapesThePreflight | client/opensysml/client.go:773-834 | a literal whose scalar is a complex number hides it there |
| Preflight.BigIntsAreAnnounced | client/opensysml/client.go:836-859 | a big-integer arm at any depth is always reported, and on canonical values nothing else is |
| Preflight.AdmitsWhatTheServiceReads | client/opensysml/client.go:716-748 | on canonical values the preflight passes exactly when every kind the service would find in the messages is advertised |
| Fitting.FitRationals | client/opensysml/client.go:861-882 | the rewriting in place succeeds exactly when the capability is advertised or no message still carries a rational, and touches messages only when the service lacks it |
| Fitting.FittingKeepsMeaning | internal/frontend/protoconv/convert.go:656-720 | a fitted message carries a rational exactly when the value holds one no binary64 holds; otherwise it still means what was sent |
| Fitting.FittingKeepsScalars | internal/frontend/protoconv/convert.go:656-720 | the scalar of every literal, at every depth, still means what it did |
| ChangelogText.ReadPrint | scripts/changelog.py:127-146 | printed sections read back as themselves |
| ChangelogText.ReadIsGood | scripts/changelog.py:138-146 | reading any body gives sections that print and read back |
| ChangelogFold.PlaceAt | scripts/changelog.py:182-196 | the loop body appends to the first section of the name, or inserts a new one after the last that precedes it canonically |
| ChangelogFold.FoldText | scripts/changelog.py:174-202 | the loops compute the fold |
| ChangelogLaws.PlacesCommute | scripts/changelog.py:182-196 | placing two sections' entries commutes, new or not, whatever order the sections stand in |
| ChangelogLaws.FoldReads | scripts/changelog.py:174-202 | splitting the folded text gives the folded sections; everything outside the Unreleased bounds is unchanged |
| ChangelogLaws.FoldIsCompositional | scripts/changelog.py:174-202 | folding two batches is folding one in which each section has the first batch's entries and then the second's |
| ChangelogLaws.FoldConserves | scripts/changelog.py:174-202 | the old sections stay in order, each with its old content first; each new canonical section appears once with exactly its entries; nothing else appears |
| ChangelogLaws.FoldKeepsOrder | scripts/changelog.py:174-202 | a body in canonical order stays in it |
| ChangelogRender.ParsedIsEntry | scripts/changelog.py:85-105 | a fragment that parses has a known section and a body without headings or outer blank lines |
| ChangelogRender.CollectEntries | scripts/changelog.py:205-216 | the loop refuses malformed fragments and otherwise collects exactly those not already carried |
| ChangelogRender.FoldedIsFound | scripts/changelog.py:149-166 | every fragment a fold was given is found already folded in its result |
| ChangelogRender.FoldedIsSettled | scripts/changelog.py:205-216 | folding any of them again changes nothing |
| ChangelogRender.Repository.FoldAll | scripts/changelog.py:205-216 | the folded text of the files, or a refusal |
| ChangelogRender.Repository.Render | scripts/changelog.py:219-232 | writes the folded text and leaves no fragment, or touches nothing |
| ChangelogRender.StepIsSafe | scripts/changelog.py:219-232 | every write, unlink, finish or crash keeps the changelog old with all fragments or folded with only folded ones left |
| ChangelogRender.CrashesAreSafe | scripts/changelog.py:219-232 | after any number of crashes at any points, rendering what is left gives the uninterrupted result |
| ChangelogRender.ATruncatedChangelogStays | scripts/changelog.py:219-232 | from a changelog without its Unreleased heading, as a crash inside the write can leave, no run of steps changes anything |
| ChangelogRender.RenderingAgainChangesNothing | scripts/changelog.py:219-232 | whatever fragments are left of a safe state, they fold to the same text |
| ChangelogRelease.ReleasedReads | scripts/changelog.py:265-285 | after a release nothing is unreleased and the latest release is the old Unreleased body |
| ChangelogRelease.FoundAfterRelease | scripts/changelog.py:149-166 | a fragment is found after a release exactly when the released section carried it |
| ChangelogRelease.ReleasedFragmentsStayFolded | scripts/changelog.py:265-285 | fragments folded and released are not folded again however many come back |
| ChangelogRelease.OutOfSightAfterTwoReleases | scripts/changelog.py:149-166 | after a second release they are no longer found |
| ChangelogRelease.FoldedAgainAfterTwoReleases | scripts/changelog.py:149-166 | so rendering one again puts its entry under Unreleased while the release that first carried it still does |
| ChangelogRelease.AnEntryCanBeFoldedTwice | scripts/changelog.py:149-166 | a concrete changelog and fragment for which that happens, and the text it ends in |
| ExportPaths.Walk.Visit | scripts/griffe_sphinx_roles.py:109-134 | one visit terminates on any graph, restores the paths under way, and settles what it reaches |
| ExportPaths.Walk.VisitMembers | scripts/griffe_sphinx_roles.py:125-133 | so does the loop over an object's members |
| ExportPaths.SimplePathsVisited | scripts/griffe_sphinx_roles.py:104-139 | a finished walk has visited every path that repeats no object |
| ExportPaths.Shortcut | scripts/griffe_sphinx_roles.py:104-139 | cutting a cycle out of a walk leaves a walk to the same object |
| ExportPaths.ReachedIsRecorded | scripts/griffe_sphinx_roles.py:104-139 | so every object any walk reaches is recorded |
| ExportPaths.ExportedPaths | scripts/griffe_sphinx_roles.py:104-139 | the map's keys are exactly the package's reachable canonical paths, and every recorded path walks to its object |
| TableCells.PipesAreBare | scripts/mkdocs_census.py:27-55 | the pattern notes exactly the pipes an even number of backslashes precedes |
| TableCells.TicsAreRuns | scripts/mkdocs_census.py:27-55 | and exactly the maximal runs of backticks, in order, marked escaped when an odd number precedes |
| TableCells.RegionsAreDisjoint | scripts/mkdocs_census.py:56-69 | code spans are increasing and pairwise disjoint |
| TableCells.UncoveredRunsStayOpen | scripts/mkdocs_census.py:56-69 | a run no span covers has no later run of its size to close it |
| TableCells.SplitConserves | scripts/mkdocs_census.py:40-79 | joining the unstripped cells with pipes gives the row, which is cut at exactly the unescaped pipes outside every span |
| TableCells.EndBorderIsAnUnescapedPipe | scripts/mkdocs_census.py:31-37 | a closing pipe goes, with the backslashes before it, exactly when their number is even |
| TableCells.ScanRow | scripts/mkdocs_census.py:46-55 | the loop over matches notes what the pattern finds left to right |
| TableCells.FindRegions | scripts/mkdocs_census.py:56-69 | the position loop pairs each run with the next of its size |
| TableCells.Cut | scripts/mkdocs_census.py:70-78 | the last loop cuts at the pipes outside every span |
| TableCells.SplitCells | scripts/mkdocs_census.py:40-79 | the loops together split the border-stripped row |
| RuleRows.ReadLine | scripts/mkdocs_census.py:114-128 | one line changes the referee flag, yields a row, faults or does nothing, as its table makes it |
| RuleRows.ReadBlocks | scripts/mkdocs_census.py:104-129 | the block loops terminate and read every line as the table of its own block makes it |
| RuleRows.CollectRows | scripts/mkdocs_census.py:104-129 | the rows are those each line gives by itself, or the first faulty line |
| RuleCounts.StatusColumnIsFirst | scripts/mkdocs_census.py:82-90 | a status column is the first headed Status of a block whose header and separator split into as many cells, more than one |
| RuleCounts.StatusIsTheOneMarker | scripts/mkdocs_census.py:93-101 | a row's status is the one marker its status cell holds, held once and with no other |
| RuleCounts.RowsAreTheRows | scripts/mkdocs_census.py:104-129 | rows are numbered increasingly and are exactly the lines that are rows |
| RuleCounts.SelfAssessedIsTheLastNote | scripts/mkdocs_census.py:116-121 | a row is self-assessed exactly when no heading stands between it and the last referee note |
| RuleCounts.NoMarkedRowIsDropped | scripts/mkdocs_census.py:114-128 | a pipe line with a marker that is not a table's header is yielded or faults |
| RuleCounts.MarkersPartitionRows | scripts/mkdocs_census.py:132-140 | the counts by marker add up to the number of rows |
| RuleCounts.CountRules | scripts/mkdocs_census.py:132-140 | on success the total is the number of rows and the self-assessed are some of them |
| Conditions.Not | client/opensysml/query.go:109-128 | the copying loop computes the negation |
| Conditions.ToWire | client/opensysml/query.go:184-201 | the appending loop computes the wire form |
| Conditions.Matches | internal/frontend/grpc/query.go:562-709 | the service's short-circuiting evaluation is conjunction or disjunction of its parts |
| Conditions.NotTwice | client/opensysml/query.go:109-128 | negating twice is the identity |
| Conditions.NegationIsDual | client/opensysml/query.go:109-128 | on any element the negation's wire form evaluates to the opposite of the filter's read with nil operands the other way |
| Conditions.NegationIsOpposite | client/opensysml/query.go:109-128 | without nil operands that is the opposite verdict |
| Conditions.NoElementIsMissed | client/opensysml/query.go:109-128 | with them no element fails both, and one satisfies both exactly when only nil operands make it match |
| Conditions.ANilOperandSatisfiesBoth | client/opensysml/query.go:109-128 | a conjunction with a nil operand does break the negation |
| Conditions.RemoteRefusesNilOperands | internal/frontend/grpc/query.go:431-443 | a filter the service accepts after a trip as bytes has no nil operand at any depth |
| Conditions.RemoteNegationIsOpposite | client/opensysml/query.go:109-128 | so does its negation, which is accepted too and gives the opposite verdict on every element |
| Conditions.NegationKeepsFaults | internal/frontend/grpc/query.go:428-557 | the service finds the same fault, or none, in a filter and its negation |
| Lifecycle.Client.Close | client/opensysml/client.go:679-687 | closes the transport the first time and does nothing after |
| Lifecycle.Client.Preflight | client/opensysml/client.go:748-769 | the kept info, or a fresh answer kept, or none from a closed client or a failing service |
| Lifecycle.StepKeepsExclusive | client/opensysml/client.go:403-410 | every step of every goroutine keeps the mutex with at most one of them |
| Lifecycle.TransportClosesOnce | client/opensysml/client.go:679-687 | over all interleavings the transport is closed at most once, and is once a Close has returned |
| Lifecycle.NoLateCall | client/opensysml/client.go:403-410 | no operation begun after a Close returned reaches the transport |
| Lifecycle.PreflightsAgree | client/opensysml/client.go:748-769 | when the service has one info to give, every preflight that gets one gets that one |
| Lifecycle.KeptAnswersAreNotAskedFor | client/opensysml/client.go:748-769 | a preflight that begins after an answer is kept does not ask |
| Lifecycle.AskedAtMostOnceExactlyWhen | client/opensysml/client.go:748-769 | over all runs of n goroutines whose answers are among those given, the service is asked at most once exactly when n is 0, there is no answer, or n is 1 and every answer is one to keep |
| Lifecycle.TheServiceCanBeAskedTwice | client/opensysml/client.go:748-769 | with two goroutines or more, two preflights can both ask whatever the answer |
| Lifecycle.AFailingServiceIsAskedAgain | client/opensysml/client.go:748-769 | one goroutine alone asks twice when the service fails |
| Lifecycle.SomeoneCanGoOn | client/opensysml/client.go:403-410 | a goroutine that is not idle can step, or the holder of the mutex can |
| Lifecycle.PreflightAlone | client/opensysml/client.go:748-769 | undisturbed, the steps of a preflight are the sequential method |
| Lifecycle.CloseAlone | client/opensysml/client.go:679-687 | so are those of a Close |
| Authoring.RequiredCapabilities | client/opensysml/authoring.go:907-963 | the loops list, in the fixed order, what the edits mark |
| Authoring.NestedItemsDecideNothing | client/opensysml/authoring.go:605-635 | the recursive search is the test of the item itself |
| Authoring.ListsExactlyTheMarked | client/opensysml/authoring.go:907-963 | every capability any edit marks is listed, once, and no other |
| Authoring.AuthoringComesFirst | client/opensysml/authoring.go:907-963 | nothing is needed exactly when every edit sets a value or renames; else authoring is needed and listed first |
| Authoring.ListedComesFromEdits | client/opensysml/authoring.go:605-992 | each of the seventeen capabilities is listed exactly when some edit brings it in by one table, in which a member brings what it is documented, prefixed or constrained with and an item is asked only for itself |
| Authoring.MarksOfConcatenation | client/opensysml/authoring.go:907-963 | joining edit lists unites what they mark |
| Authoring.OrderOfEditsIsImmaterial | client/opensysml/authoring.go:907-963 | permuting or repeating edits changes nothing |
| Authoring.SendSequence | client/opensysml/authoring.go:1139-1168 | the recursion over both lists computes the message, or refuses |
| Authoring.SentWhenShallow | client/opensysml/authoring.go:1139-1168 | it succeeds exactly when no item stands more than 128 deep, and the message mirrors the tree |
| Sbom.Document.DescribeNpm | scripts/release-sbom.py:392-419 | rewrites packages and relationships in place to the described document; a document that describes nothing is refused with its root already replaced |
| Sbom.RefusedWhenItDescribesNothing | scripts/release-sbom.py:197-202 | a document is refused exactly when it described nothing to begin with, or a replaced package takes its identifier |
| Sbom.DependenciesHangOffThePackage | scripts/release-sbom.py:392-419 | old relationships keep their places and kinds, ends at a replaced package move to the packed one, and new ones contain it or hang off it |
| Sbom.DescribingKeepsClosed | scripts/release-sbom.py:392-419 | a graph whose relationships name existing elements stays one |
| Sbom.NothingRefersToTheRemoved | scripts/release-sbom.py:402-406 | whatever it was before, no relationship afterwards names a package that is gone |
| Sbom.NpmDependencies | scripts/release-sbom.py:339-344 | the updates leave each name the optional range if there is one, else the plain one |
| Sbom.CheckNpm | scripts/release-sbom.py:422-432 | refuses exactly when some declared dependency is absent or pinned to a version the SBOM lacks, naming one |
| Sbom.PassesExactlyWhenLocked | scripts/release-sbom.py:392-432 | after describing, a dependency passes exactly when the lockfile has it, at its pin, or it is a platform package of this release that the lockfile lacks |

## Left out

- ValueLaws.EqualIsTransitive: states transitivity with finite reals unrounded; with binary64 rounding in scales and exponents it holds on the exact branch only, as client/opensysml/equal.go:168-170 notes.
- Values.EqualIsSameMeaning: quantities inside it are compared unrounded, and the scales and exponents of a unit term are finite real numbers, without NaN or infinities.
- ValueLaws.MembershipRespectsEqual: rests on that transitivity.
- ValueLaws.SetsAreTheirMembers: rests on that transitivity.
- ValueLaws.QuantitiesEqualOverBaseUnits: is stated over unrounded reals.
- Units.FactorOrderIsImmaterial: exponents are added as reals, so a sum that rounds differently in another order is not modelled.
- Units.CancellingFactorsAreImmaterial: exponents are added as reals, so a sum that a large factor rounds away is not modelled.
- Units.SameIsSameReduction: the cross products are taken as reals, without rounding or overflow.
- Units.BranchesAgree: compares the exact branch with the floating one as real formulas, without rounding.
- Units.QuantityEqualIsSameAmount: base magnitudes are reals, without rounding or overflow.
- Units.ReferenceEqualIsSameMeasure: scales are compared as reals.
- Wire.CheckShape: does not tell a non-positive dimension from a mismatched product, which differ only in the error returned.
- ChangelogRender.ParsedIsEntry: takes the section key of a fragment's file name as recognised, and lines as split at newlines only.
- ChangelogRender.StepIsSafe: takes writing the changelog as one step; the script truncates the file before it writes it (scripts/changelog.py:229), and a crash in between is not among the steps, and from a text that lacks its Unreleased heading no render recovers (`ChangelogRender.ATruncatedChangelogStays`).
- ChangelogRender.CrashesAreSafe: allows crashes between any two steps but not inside that write, for the same reason.
- ChangelogRender.CollectEntries: parses every fragment before it looks any up, where the script does both file by file; only the reports on standard error differ.
- ChangelogRelease.ReleasedReads: takes the version heading as given; the checks of the version and date are not part of this model.
- RuleRows.CollectRows: the page is a list of lines; replacing the census block in it is not part of this model.
- ExportPaths.ExportedPaths: takes members and alias targets as resolved; rewriting roles in docstrings and resolving references are not part of this model.
- CodecLaws.RoundTrip: composes the two conversions as the in-process transport does; by the remote one a nil element of a sequence, array or set, which reads as nil here, arrives as a message with no arm.
- Conditions.NoElementIsMissed: is about the in-process transport; the remote one is in `Conditions.RemoteNegationIsOpposite`, which takes it that a nil element of a repeated field arrives as an empty message.
- Conditions.ANilOperandSatisfiesBoth: is about the in-process transport, as `Conditions.NoElementIsMissed` is.
- Conditions.Matches: takes one comparison's verdict on an element, and one comparison's faults, as functions of its property, operator and values; resolving metaclasses is not part of this model.
- Lifecycle.NoLateCall: an operation is a liveness check followed by any number of preflights and calls; sessions, contexts and the transports themselves are not part of this model.
- Authoring.SentWhenShallow: the other edit kinds copy their fields and are not part of this model.
- Sbom.CheckNpm: does not say which of several failing dependencies is named, which is the first by name; which ranges are exact versions is a predicate, and package fields other than name, identifier and version are not part of this model.
- Error texts, and the texts of the nulls that say why a value was not read, except where they tell cases apart.
- Sharing of slices and messages between copies: values are immutable here, so a caller that changes a slice it passed in is not modelled.
- The wire's unit term is the client's own record; nil factors are not modelled.
- Rendering of values as text, release notes, SBOM scanning, document cells, session and server code, and everything generated: no properties beyond one body.
