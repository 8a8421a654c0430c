# Verification of the fix loop

Dafny models of the parts of Togi that must not go wrong while an untrusted agent edits a worktree, with proofs about
them. Each module follows one part of the program:

- `Constraints`, `Matching`, `Suppression`: are the lint suppressions of an attempt new? Build constraints are compared by
  truth table, sites by a maximum matching.
- `Findings`, `Regrouping`, `DiffScope`: findings and their canonical grouping, and changed lines.
- `ChangedFiles`, `ChangedPaths`: the status of a worktree, and which of its paths are believed.
- `Plan`, `Ledger`, `Validator`, `Rails`: waves and batches with their identities, the independent check of a report, the
  judgement of one attempt, and the execution rails.
- `Ports`, `EngineState`, `Waves`, `Engine`: the serial loop over waves, batches and attempts. The side effects are the
  methods of `Ports.Ports`. They may answer anything their contracts allow, and they write a ghost trace. What the engine
  must have done before it uses one of them is a precondition of it.
- `Refs`, `SquashObject`, `LandingEvidence`, `Workspace`, `Reachability`: commits, squash, landing and cleanup. Before every
  Git operation foreign writers may change both branches, and a compare-and-swap may apply and still report a failure. The
  history of the refs is a ghost log.
- `GitState`: which Git control surfaces differ, and the restoration of the two that are owned.
- `FixLoop`: the command around the engine.
- `Version`: version precedence and constraints.

`Options`, `Text` and `Sorting` hold what the others share. SHA-256 is an unknown function without collisions whose results
are not empty. Strings are sequences of characters. Times and durations are integers. Error texts are enum cases or short
strings.

In these places the code does less than its own comments or checks would have one expect, and the proofs say exactly when:

- The order on suppressions is not transitive if one identity is used both for a legacy build directive and for something
  else (`Suppression.TransitiveExactly`). It is transitive on the sites that the scanner makes.
- `Group` may refuse what it has returned: a leading "./" can be all that keeps a path from being blank, rooted or on a
  drive, and grouping takes it away. It leaves its result alone exactly when the cleaned paths are valid
  (`Regrouping.GroupingIsIdempotentExactly`, `Regrouping.RegroupingIsRefused`).
- The count of changed lines goes by paths as they are spelled. It is that of distinct lines exactly when no line is listed
  under two spellings of its file (`DiffScope.LinesCountedExactly`, `DiffScope.TwoSpellingsCountTwice`). Parsed diffs list
  cleaned paths.
- A validator may give a reason of spaces. The engine records it, the plan is written without a check, and the check of the
  report does not believe it (`EngineState.BlankReasonIsRefused`). The validator of the repository never gives such a reason
  (`Validator.Validate`).
- Git may report a changed path that the ledger does not believe, such as a file in a directory named `c:`
  (`ChangedPaths.DrivePathIsRefused`, exactly `ChangedPaths.GitPathIsCanonical`). The attempt validator refuses every such
  path first, so no passed attempt carries one (`ChangedPaths.ChangedPathIsCanonical`).
- Rounding up to milliseconds makes a rail look used up in the last moments before its limit, exactly those of
  `Rails.VerdictAcceptedExactly`. A rail that is used up always looks so.
- After a landing, a cleanup may delete the run branch: a commit made after it is safe exactly when the feature branch has
  its tree (`Reachability.CommitAfterLandingExactly`, `Reachability.CommitAfterLandingIsLost`). The fix loop makes no commit
  after a landing.
- A rollback whose swap is applied but not acknowledged leaves the green commit off the run branch. It is reported as
  failed, and the tree is sure to be within reach exactly under the condition of
  `Reachability.UnacknowledgedRollbackExactly`.

## Model

| member | source | states |
|---|---|---|
| Constraints.EvalDependsOnTags | internal/flywheel/suppression.go:1651-1679 | evaluating a build constraint depends on nothing but the tags that are collected from it |
| Constraints.MaskOfBits | internal/flywheel/suppression.go:1596-1598 | every assignment of the listed tags is the reading of some mask below two to the number of tags |
| Constraints.SomeMaskReads | internal/flywheel/suppression.go:1586-1602 | for every assignment of all tags some row of the truth table evaluates the constraint alike |
| Constraints.ImpliesTable | internal/flywheel/suppression.go:1606-1636 | implication on every row of the table is implication under every assignment of tags, both ways |
| Constraints.AgreeTable | internal/flywheel/suppression.go:1572-1604 | agreement on every row of the table is equivalence under every assignment of tags, both ways |
| Constraints.SpendSuppressionWork | internal/flywheel/suppression.go:870-876 | pays exactly the amount or refuses and leaves the budget alone; the budget never goes below zero |
| Constraints.ScanImplies | internal/flywheel/suppression.go:1619-1636 | the loop over masks answers for the whole table, fails only when the counters cannot pay for it, and keeps both counters inside their limits |
| Constraints.ConstraintImplies | internal/flywheel/suppression.go:1606-1636 | true exactly when the implication holds under every assignment; refuses only for too many tags or too little budget; never overruns a counter |
| Constraints.ConstraintsEquivalent | internal/flywheel/suppression.go:1572-1604 | true exactly when the constraints are equivalent under every assignment; the same refusals and limits |
| Matching.SaturatedIsMaximum | internal/flywheel/suppression.go:1473-1524 | a matching with a set of candidates that holds every unmatched one and whose neighbours are all matched back into it is maximum (Koenig) |
| Matching.Visit | internal/flywheel/suppression.go:1494-1514 | looking along one edge keeps the search forest and marks a baseline once; a free baseline ends the search |
| Matching.Expand | internal/flywheel/suppression.go:1491-1515 | expanding one candidate explores all its edges or finds a free baseline |
| Matching.Round | internal/flywheel/suppression.go:1490-1516 | one turn of the queue keeps the forest and charges at most one row of edges |
| Matching.Drain | internal/flywheel/suppression.go:1490-1516 | the queue loop ends in a free baseline or in a forest closed under alternating paths |
| Matching.FindPath | internal/flywheel/suppression.go:1484-1516 | breadth-first search from an unmatched candidate: a free baseline at the end of an augmenting path, or a closed forest; work stays within edges times rows |
| Matching.WalkStep | internal/flywheel/suppression.go:1517-1523 | one step back along `previous` and `matchCandidate` keeps the matching consistent but for the baseline about to change hands |
| Matching.Augment | internal/flywheel/suppression.go:1517-1523 | the walk back terminates and leaves a consistent matching with exactly one more candidate matched |
| Matching.TryStart | internal/flywheel/suppression.go:1485-1524 | one start keeps the invariant that all failed starts lie in the closed set |
| Matching.ProgressIsMaximum | internal/flywheel/suppression.go:1485-1524 | when every start has been tried the invariant makes the matching maximum |
| Matching.MaximumMatching | internal/flywheel/suppression.go:1473-1524 | the whole loop returns a maximum matching unless the budget cannot pay |
| Suppression.SuppressionNarrows | internal/flywheel/suppression.go:1544-1570 | decides the order on suppressions on every input, unless the budget cannot pay |
| Suppression.NarrowsReflexive | internal/flywheel/suppression.go:1544-1570 | the order is reflexive |
| Suppression.NarrowsTransitive | internal/flywheel/suppression.go:1544-1570 | the order is transitive on sites of one identity when legacy directives carry their own identities |
| Suppression.TransitiveExactly | internal/flywheel/suppression.go:1544-1570 | for every three kinds, the order is transitive on all sites of these kinds (duplicates carrying their constraint) exactly when no other kind stands between two legacy duplicates |
| Suppression.MaximumIsBest | internal/flywheel/suppression.go:1473-1524 | a maximum matching of the edges is a best one-to-one accounting for the attempted sites |
| Suppression.BuildEdges | internal/flywheel/suppression.go:1450-1472 | the edges are exactly the pairs of equal identity that narrow |
| Suppression.CompareSuppressionSitesBounded | internal/flywheel/suppression.go:1443-1542 | the reported sites are those a best accounting leaves over, in order; it answers whenever the budget suffices |
| Suppression.ReportsCount | internal/flywheel/suppression.go:1525-1541 | the number of findings is the number of attempted sites less the size of a best accounting |
| Suppression.NoFindingsIffQuiet | internal/flywheel/suppression.go:1525-1541 | no finding exactly when every attempted site can be accounted for at once |
| Suppression.FewerSuppressionsAreQuiet | internal/flywheel/suppression.go:1443-1542 | an attempted list that is, lines and snippets aside, a sub-multiset of the original yields no finding |
| Suppression.QuietComposes | internal/flywheel/suppression.go:1443-1570 | no finding from original to middle and from middle to attempted means none from original to attempted |
| Suppression.PartitionLegacy | internal/flywheel/suppression.go:814-840 | the legacy pass splits directives into pairwise inequivalent representatives and duplicates of them |
| Suppression.RepresentativesSuffice | internal/flywheel/suppression.go:814-858 | the conjunction of the representatives holds exactly where the conjunction of all directives does |
| Suppression.DuplicatesAreRedundant | internal/flywheel/suppression.go:814-858 | the constraint built from the representatives is equivalent to the one built from all directives |
| Findings.FingerprintIsIdentity | internal/finding/finding.go:44-58 | two findings have one fingerprint exactly when gate, rule, file and normalized snippet agree |
| Findings.NormalizeFileIdempotent | internal/finding/finding.go:75-77 | a normalized file name is its own normal form |
| Findings.LessFindingLaws | internal/finding/group.go:124-137 | the report order is irreflexive, asymmetric and negatively transitive |
| Findings.CollectLocations | internal/finding/group.go:109-115 | each distinct location is collected once, with the first finding that has it |
| Findings.HighestSeverity | internal/finding/group.go:70-78 | the result is the severity of a member and no member has a higher one |
| Findings.CombinationIsUnique | internal/finding/group.go:41-68 | what a set of findings combines to does not depend on their order |
| Findings.Combine | internal/finding/group.go:41-68 | all locations once in order, the least one first, the metadata of the least owner, the highest severity |
| Findings.GroupingIsUnique | internal/finding/group.go:9-29 | any two permutations of the same findings have one grouping, whatever the map iteration and the unstable sorts do |
| Findings.Group | internal/finding/group.go:9-29 | fails exactly when a finding is invalid, and names the first; otherwise one combination for each fingerprint, in strict report order |
| Findings.GroupingConservesLocations | internal/finding/group.go:9-68 | under every fingerprint the grouped finding has exactly the locations of its members |
| Findings.GroupingFixpoint | internal/finding/group.go:9-29 | a strictly ordered list of combined findings is its own grouping |
| Findings.GroupingOfGrouping | internal/finding/group.go:9-29 | a grouping of acceptable findings has the form of its own grouping |
| Regrouping.StaysValid | internal/finding/path.go:23-40 | cleaning a valid path leaves it valid exactly when it does not become blank, rooted by a backslash, or absolute on a drive; it never brings a `..` to light |
| Regrouping.GroupedValidExactly | internal/finding/group.go:9-29 | all grouped findings are valid exactly when the cleaned paths of all findings are |
| Regrouping.GroupingIsIdempotentExactly | internal/finding/group.go:9-29 | `Group` answers its own result with that result exactly when the cleaned paths of all findings are valid, and otherwise refuses it |
| Regrouping.RegroupingIsRefused | internal/finding/group.go:9-29 | a valid finding in a file whose cleaned path is one space: grouping its group fails |
| DiffScope.CompactStep | internal/run/diff.go:653-660 | one turn joins a range to the last kept one or puts it behind, and leaves the unread part alone |
| DiffScope.CompactInPlace | internal/run/diff.go:651-661 | the write-index loop leaves in the front of the array sorted, disjoint, non-adjacent ranges that cover the same lines |
| DiffScope.MergeLineRanges | internal/run/diff.go:640-662 | the result is in normal form and covers exactly the lines of the input |
| DiffScope.NormalIsUnique | internal/run/diff.go:640-662 | two normal forms with the same lines are equal |
| DiffScope.DeletionAnchor | internal/run/diff.go:681-703 | the anchor of a deletion is a line of the file, or there is none |
| DiffScope.ParseDiffHunks | internal/run/diff.go:595-638 | the ranges are in normal form and cover exactly the added lines and the anchors of deletions |
| DiffScope.ValidatedChangedLines | internal/finding/scope.go:70-85 | succeeds exactly on valid paths and ranges, and pools the ranges of each normalized file |
| DiffScope.OverlapsChanged | internal/finding/scope.go:87-98 | true exactly when a line of the location is a changed line |
| DiffScope.KeepTouched | internal/finding/scope.go:41-46 | the in-place filter keeps exactly the touched locations, in order |
| DiffScope.FilterOne | internal/finding/scope.go:33-59 | one finding keeps its touched locations, sorted, or goes when none is left |
| DiffScope.FilterTouched | internal/finding/scope.go:19-62 | fails exactly on invalid ranges or an invalid finding; otherwise the findings that are left, with the locations that share a changed line |
| DiffScope.KeptIsExact | internal/finding/scope.go:19-62 | a location is kept exactly when it was there and shares a changed line |
| DiffScope.KeptIsUnique | internal/finding/scope.go:50-58 | what is kept of a finding is unique, so unstable sorting does not show |
| DiffScope.FilterSeesLinesOnly | internal/finding/scope.go:19-62 | two maps that cover the same lines filter alike |
| DiffScope.MergingKeepsScope | internal/run/diff.go:640-662 | filtering by raw and by merged ranges gives the same result |
| DiffScope.CountRanges | internal/run/run.go:219-235 | accepts exactly the spaced ranges and adds up their lengths |
| DiffScope.FilesCountedExactly | internal/run/run.go:213-215 | the number of listed paths is the number of files exactly when no file is spelled twice |
| DiffScope.LinesCountedExactly | internal/run/run.go:219-235 | the count is the number of distinct changed lines exactly when no line is listed under two spellings of its file, as with cleaned paths |
| DiffScope.TwoSpellingsCountTwice | internal/run/run.go:206-240 | line 1 of one file, listed as a and as ./a, is counted as two lines of two files |
| DiffScope.ValidateDiff | internal/run/run.go:206-240 | accepts exactly well-formed ranges whose total, path by path, is the reported number; it is that of distinct lines of files exactly when no line is listed under two spellings |
| DiffScope.CardinalityIsCount | internal/run/run.go:229-238 | the sum of the lengths of normal ranges is the number of distinct changed lines |
| DiffScope.ParsedRangesAreAccepted | internal/run/run.go:206-240 | what parsing and merging produce always passes the structural check |
| Version.ParseSemanticVersion | internal/gate/version.go:63-96 | accepts exactly what sections 2, 9 and 10 of Semantic Versioning 2.0.0 allow, and returns the version that is written |
| Version.WritesIsUnique | internal/gate/version.go:63-96 | a text writes one version at most |
| Version.NumericOrder | internal/gate/version.go:187-205 | comparing digit strings by length and then by characters is comparing the numbers they denote |
| Version.CompareCore | internal/gate/version.go:140-147 | the first difference of the three numbers decides |
| Version.ComparePrerelease | internal/gate/version.go:148-168 | identifier by identifier, a longer list above its own beginning, a release above its pre-releases |
| Version.CompareSemanticVersions | internal/gate/version.go:140-168 | the sign decides precedence as section 11 of Semantic Versioning 2.0.0 defines it; zero exactly for equal core and pre-release |
| Version.Trichotomy | internal/gate/version.go:140-168 | of two versions one is lower or they are equal, never both |
| Version.LowerTransitive | internal/gate/version.go:140-168 | precedence is transitive |
| Version.ParseOne | internal/gate/version.go:207-235 | one constraint: an operator and a version it writes |
| Version.ParseConstraint | internal/gate/version.go:207-235 | a conjunction of constraints, accepted exactly when every part is |
| Version.Observe | internal/gate/version.go:27-51 | the observed version satisfies the constraint exactly when every part holds in the order |
| Version.AcceptedAreConvex | internal/gate/version.go:37-50 | what a constraint accepts is convex: with two versions it accepts everything between them |
| LandingEvidence.StateFollowsProjection | internal/flywheel/landing.go:697-716 | the state variable of the scan always is the length of the expected transition sequence seen so far |
| LandingEvidence.ScanLog | internal/flywheel/landing.go:686-720 | accepts exactly when every line is well formed with the right nonce and a known stage, and the projection to the feature ref is prepared then committed, from origin to squash |
| LandingEvidence.AuthenticateLandingEvidence | internal/flywheel/landing.go:677-722 | accepts exactly a regular, valid ORIG_HEAD together with such a log, and returns the origin |
| Rails.Rails.AdmitAttempt | internal/flywheel/rails.go:90-104 | admits and counts, or refuses for the used-up rail; state and answer are those of the transition function |
| Rails.Rails.AdmitLanding | internal/flywheel/rails.go:107-117 | refuses exactly when the observed time has reached the deadline |
| Rails.Rails.ExecutionContext | internal/flywheel/rails.go:120-134 | refuses exactly when no wall clock is left |
| Rails.Rails.ObserveExecutionContext | internal/flywheel/rails.go:138-147 | a context cancelled by the wall-clock rail counts as time observed |
| Rails.Rails.TakeSnapshot | internal/flywheel/rails.go:150-168 | the fields with elapsed time never negative |
| Rails.NewRails | internal/flywheel/rails.go:68-87 | refuses limits that are not positive, otherwise a sound state with nothing used |
| Rails.RunKeeps | internal/flywheel/rails.go:90-176 | for every sequence of calls under any clock: time never runs back, iterations stay within the maximum, and each admitted attempt is counted once |
| Rails.ExhaustionIsPermanent | internal/flywheel/rails.go:90-134 | once the wall clock is up nothing is admitted after any further calls |
| Rails.RefusalMeansSpent | internal/flywheel/rails.go:90-134 | a refusal leaves a rail visibly used up, and nothing is refused before |
| Rails.SpentIsAccepted | internal/run/ledger.go:793-798 | a used-up rail passes the evidence check of the report after rounding up to milliseconds, whatever happens in between |
| Rails.VerdictAcceptedExactly | internal/run/ledger.go:793-798 | the evidence for a rails verdict is accepted exactly when a rail is used up or the clock is in the last millisecond of its limit; wrongly exactly in the latter case |
| Rails.WrongVerdictsExactly | internal/run/ledger.go:793-798 | such a moment exists for every wall-clock limit but those one nanosecond past a whole millisecond |
| Rails.RoundingMayAccuseEarly | internal/run/fix.go:656-665 | one such moment: 1.2 of 1.5 milliseconds |
| Plan.IsCanonical | internal/flywheel/plan.go:104-114 | a finding is canonical exactly when grouping it alone gives it back |
| Plan.CanonicalFindings | internal/flywheel/plan.go:97-127 | accepts exactly valid, combined findings with distinct fingerprints and returns them in report order |
| Plan.OrderingIsUnique | internal/flywheel/plan.go:122-126 | a list of findings has one report order |
| Plan.BlockingMultiset | internal/flywheel/plan.go:130-140 | counts every blocking occurrence under its fingerprint, on exactly the canonical lists |
| Plan.StrictlyShrinks | internal/flywheel/plan.go:143-162 | true exactly for a proper sub-multiset, in whatever order the maps are walked |
| Plan.MultisetSubset | internal/flywheel/validate.go:272-279 | true exactly for a sub-multiset |
| Plan.ShrinkingIsSmaller | internal/flywheel/plan.go:143-162 | a proper sub-multiset has fewer occurrences |
| Plan.WaveDecodes | internal/flywheel/plan.go:223-235 | the bytes behind a wave digest determine the blockers |
| Plan.DigestDecidesBlockers | internal/flywheel/plan.go:223-235 | waves with different blockers have different digests |
| Plan.BatchIDDecodes | internal/flywheel/plan.go:237-247 | a batch ID determines its primary file and its wave |
| Plan.FindingDecodes | internal/flywheel/plan.go:249-285 | the bytes of a finding determine every field of it |
| Plan.ProofDecidesFindings | internal/flywheel/plan.go:249-285 | an identity proof determines the findings |
| Plan.NewPlan | internal/flywheel/plan.go:65-95 | fails exactly on lists that are not canonical; otherwise the findings in order, cut where the file changes, with their identities |
| Plan.BatchOfWave | internal/flywheel/plan.go:65-95 | each batch holds a canonical part of the blockers of its wave |
| Plan.WaveIDsDistinct | internal/flywheel/plan.go:73-86 | batch IDs are pairwise distinct within a wave |
| Plan.AcrossWavesIDsDistinct | internal/flywheel/plan.go:223-247 | waves with different blockers never share a batch ID |
| Plan.BriefAcceptsIdentity | internal/flywheel/brief.go:52-73 | the identity checks of a brief accept exactly batches whose ID and proof fit their findings |
| Plan.PlannedBatchAccepted | internal/flywheel/brief.go:52-73 | every batch of a plan passes them, whatever its status and attempts |
| Plan.AlteredBatchRefused | internal/flywheel/brief.go:52-73 | with other findings in it a batch is refused, unless they are the same findings in another order |
| Ledger.ValidateFixBatches | internal/run/ledger.go:889-974 | the loop with its `seen` map accepts exactly: distinct IDs, canonical findings per file, statuses that agree with attempts, evidence that fits |
| Ledger.FindingsCanonical | internal/run/ledger.go:903-914 | the findings of a batch are believed exactly when they are their own grouping |
| Ledger.AttemptsAccepted | internal/run/ledger.go:923-953 | attempts are numbered in order, with the evidence their status needs |
| Ledger.FreshBatchAccepted | internal/run/ledger.go:889-974 | the batches of a new wave are accepted as they stand |
| ChangedFiles.SplitNRow | internal/flywheel/worktree.go:705-731 | pieces without spaces and a rest come apart again under `SplitN` |
| ChangedFiles.ReadsBack | internal/flywheel/worktree.go:703-744 | every kind of entry is read back from its own record |
| ChangedFiles.ReadIsEntry | internal/flywheel/worktree.go:703-744 | what is read is a valid entry and its record is the one at hand |
| ChangedFiles.ListingIsUnique | internal/flywheel/worktree.go:687-751 | a status output lists one sequence of entries at most |
| ChangedFiles.ParseChangedFiles | internal/flywheel/worktree.go:687-751 | accepts exactly the listings of valid entries and returns every path they touch, rename sources included, in strict order, each relative to the repository |
| ChangedPaths.GitPathIsCanonical | internal/run/ledger.go:947-952 | a path that the parser accepts is believed in a plan exactly when it is not blank, rooted, on a drive, or leading out once backslashes are slashes |
| ChangedPaths.PlainPathIsCanonical | internal/run/ledger.go:947-952 | so every path with a visible character, no backslash and no drive is believed |
| ChangedPaths.CleanAgrees | internal/flywheel/validate.go:562 | the two ways of cleaning a path agree on relative paths without `..` |
| ChangedPaths.ChangedPathExactly | internal/flywheel/validate.go:555-567 | the validator takes exactly the paths that Git may report which begin and end visibly and have no NUL, backslash or drive, and no others |
| ChangedPaths.ChangedPathIsCanonical | internal/flywheel/validate.go:555-567 | what the validator takes, the ledger believes |
| ChangedPaths.UsablePaths | internal/flywheel/validate.go:408-412 | the loop accepts exactly lists of such paths |
| ChangedPaths.PassedPathsAreCanonical | internal/run/ledger.go:944-952 | so the ledger believes the changed files of every attempt that was passed |
| ChangedPaths.DrivePathIsRefused | internal/flywheel/validate.go:555-571 | a file x in a directory c: is reported by Git and not believed by the ledger, but the validator refuses it first |
| Ports.Extend | internal/flywheel/engine.go:326-525 | one more event keeps the rules of the trace, given what the event needs |
| Ports.Ports.WritePlan | internal/run/ledger.go:1257-1291 | a failed write leaves the old plan on disk or has put the new one there; the engine writes only plans whose batches the report check accepts |
| Ports.Ports.RunAdapter | internal/flywheel/engine.go:416-418 | an agent runs only when the leftovers of the last one have been committed or reset |
| Ports.Ports.Validate | internal/flywheel/engine.go:455-457 | validation is asked only about batches whose blockers were blockers at the start; nothing passes unless its paths are usable |
| Ports.Ports.CommitBatch | internal/flywheel/engine.go:416-496 | a commit needs, just before it, the preparation, the clean validation and the renewed verification of the same proof, and before these that the Git check of the last agent run found nothing touched |
| EngineState.BeginAccepted | internal/flywheel/engine.go:377-379 | recording a running attempt keeps a batch acceptable and its commits as they were |
| EngineState.FailAccepted | internal/flywheel/engine.go:585-588 | so does recording a failure with a reason |
| EngineState.PassAccepted | internal/flywheel/engine.go:503-504 | so does recording a pass, which adds exactly its commit |
| EngineState.StuckAccepted | internal/flywheel/engine.go:562-563 | a batch may be called stuck after two failures |
| EngineState.BlankReasonIsRefused | internal/flywheel/engine.go:635-646 | a failure is believed exactly when its reason is not blank, while the check of the attempt only asks that it is not empty |
| EngineState.EventKeeps | internal/flywheel/engine.go:326-525 | no event but a commit or a rollback changes what the plans and the workspace agree on |
| EngineState.Recording | internal/flywheel/engine.go:503-504 | between a commit and its record workspace and memory are exactly one commit ahead of the plan on disk |
| EngineState.RollingBack | internal/flywheel/engine.go:508-515 | a rollback keeps plan, trace and rails right |
| EngineState.Admitting | internal/flywheel/engine.go:332-338 | the next admission keeps the limit of two for every batch |
| EngineState.Rematched | internal/flywheel/engine.go:326-374 | after an attempt every admission has its recorded attempt |
| EngineState.Broken | internal/flywheel/engine.go:572-579 | an infrastructure failure with a bounded reason that still says something |
| Waves.FreshBatchBorn | internal/flywheel/engine.go:207-213 | a batch of a new wave has the identity of its wave and blockers from the baseline |
| Waves.FreshIsNew | internal/flywheel/engine.go:207-213 | a batch of a strictly smaller wave has an ID no earlier batch has |
| Waves.NextWave | internal/flywheel/engine.go:207-214 | appending a strictly smaller wave keeps the plan acceptable, the lineage and the commits |
| Waves.Growing | internal/flywheel/engine.go:207-214 | the appended wave leaves the workspace and both plans in agreement |
| Waves.TurnMeans | internal/flywheel/engine.go:259-282 | a ready outcome from findings has batches, all done, and commits |
| Engine.Engine.Persist | internal/flywheel/engine.go:125-134 | the plan in `persisted` is the one on disk, whether the write failed before or after it was published |
| Engine.Engine.StopForContext | internal/flywheel/engine.go:687-706 | stops exactly when the context is done, out of rails only when a rail is used up |
| Engine.Engine.StopForRail | internal/flywheel/engine.go:708-719 | stops only with a truthful outcome |
| Engine.Engine.FailAndReset | internal/flywheel/engine.go:585-605 | the failure is recorded, and once the reset has worked the run branch is at the green commits again |
| Engine.Engine.CheckpointContext | internal/flywheel/engine.go:546-555 | goes on unchanged, or ends with a truthful outcome |
| Engine.Engine.Checkpoint | internal/flywheel/engine.go:527-544 | goes on with only time having passed, or ends with a truthful outcome |
| Engine.Engine.AbortSemantic | internal/flywheel/engine.go:557-570 | after the second failure the batch is stuck, after the first it may be tried again, and the worktree is clean |
| Engine.Engine.Start | internal/flywheel/engine.go:376-385 | the running attempt is on record before anything else happens |
| Engine.Engine.Brief | internal/flywheel/engine.go:387-390 | the brief of a batch of the plan is built exactly if it fits its bounds: its identity checks never refuse |
| Engine.Engine.Launch | internal/flywheel/engine.go:416-434 | the agent runs on a clean worktree; the attempt goes on only if the Git check that follows finds nothing touched, is a semantic failure if the state was restored, and a failure without a second try if it is unsafe |
| Engine.Engine.Judge | internal/flywheel/engine.go:436-491 | goes on only with changed files and a proof that was prepared, validated without objection and verified again |
| Engine.Engine.Weigh | internal/flywheel/engine.go:455-494 | validation and the renewed verification, in that order, and what they amount to |
| Engine.Engine.Classify | internal/flywheel/engine.go:477-491 | only a pass without failure and findings and with a proof goes on |
| Engine.Engine.Record | internal/flywheel/engine.go:496-524 | a commit ends up in the plan, or is taken back, or the failed rollback is reported |
| Engine.Engine.Compensate | internal/flywheel/engine.go:508-518 | a commit that no plan on disk claims is taken back, or the failed rollback is reported |
| Engine.Engine.Publish | internal/flywheel/engine.go:505-524 | a published plan keeps its commit even when the write failed; an unpublished one has it rolled back |
| Engine.Engine.Attempt | internal/flywheel/engine.go:376-525 | whatever the result, plan, disk, workspace and trace agree, and only this batch was worked on |
| Engine.Engine.Admit | internal/flywheel/engine.go:329-342 | the batch is admitted exactly once for the attempt, or the run ends |
| Engine.Engine.Conclude | internal/flywheel/engine.go:346-371 | how each result of an attempt goes on |
| Engine.Engine.ExecuteBatch | internal/flywheel/engine.go:326-374 | at most two attempts, then the batch is done or stuck with a clean worktree, unless the run ends |
| Engine.Engine.RunWave | internal/flywheel/engine.go:181-191 | all batches of the wave are done or stuck, and it is known whether one is stuck |
| Engine.Engine.Assess | internal/flywheel/engine.go:233-265 | ready only with no stuck batch, a passed barrier and no blockers; going on only with strictly fewer blockers |
| Engine.Engine.EvaluateBarrier | internal/flywheel/engine.go:225-285 | the verdict is durable before it is given |
| Engine.Engine.Turn | internal/flywheel/engine.go:177-217 | one turn of the loop ends the run or leaves strictly fewer blockers and a fresh, acceptable wave |
| Engine.Engine.RunWaves | internal/flywheel/engine.go:166-217 | the loop terminates by the number of blocking occurrences, and every ending is truthful |
| Engine.Execute | internal/flywheel/engine.go:138-218 | for every run: the outcome carries the plan on disk, which the ledger accepts; unless a failed recovery is reported the run branch holds exactly the commits of its passed attempts in order, and even then the workspace vouches for these, with at most one more after a failed rollback; the trace kept its rules; a rails outcome has a used-up rail; ready means all done, with commits if there were findings |
| Validator.UnwaivedIntegrityFindings | internal/flywheel/validate.go:197-205 | keeps exactly the findings whose fingerprint is not waived, in order |
| Validator.AssignedRemains | internal/flywheel/validate.go:151-155 | true exactly when a blocker of the batch is still there |
| Validator.RemovalIsProgress | internal/flywheel/validate.go:151-161 | with a blocker of the batch gone and none new, the multiset has strictly shrunk, so the third refusal cannot occur |
| Validator.JudgeGates | internal/flywheel/validate.go:119-161 | goes on exactly when the proof still verifies, nothing is cancelled or too large, the gates ran, the assigned blockers are gone and nothing blocks more than before |
| Validator.Validate | internal/flywheel/validate.go:55-191 | passes exactly when there is a proof, nothing is wrong with the attempt, no obstacle stood in the way and nothing was cancelled, so never with a path the ledger would not believe; a semantic failure means the agent is at fault; every failure has a reason that is not blank and no proof |
| Refs.SnapshotFacts | internal/flywheel/landing.go:196-219 | a commit of one tree line and one parent line has that tree and that parent only |
| Refs.OursIsThere | internal/flywheel/worktree.go:1519-1541 | if the last act on the run ref was our move, the ref is where we moved it |
| Refs.TipIsStartExactly | internal/flywheel/worktree.go:1389-1440 | a chain of commits, each on the one before, leads back to where it started only if it is empty |
| Refs.OrderlyNext | internal/flywheel/worktree.go:1442-1453 | what is permitted keeps the history in order: each write replaced what it says, each observation says what was there, a deletion follows the removal of the worktree, a merge follows the guard, and the reading of evidence the merge |
| Refs.SparesForeign | internal/flywheel/worktree.go:1389-1492 | a stretch of history whose writes name only certain commits has changed no other value of the run ref |
| Refs.ForeignStands | internal/flywheel/worktree.go:1389-1492 | so a foreign value of the run ref stays until somebody else changes it |
| Refs.WentThen | internal/flywheel/worktree.go:1389-1492 | stretches of history compose, and with polite writers the run ref has gone forward from where our own writes put it |
| Refs.ForwardReaches | internal/flywheel/landing.go:919-1066 | a tree within reach of a ref stays so when the ref moves forward |
| SquashObject.CheckSquashHeader | internal/flywheel/landing.go:192-219 | the scan accepts exactly one tree, one parent, one author and one committer line as wanted, and none besides |
| SquashObject.CheckSquashObject | internal/flywheel/landing.go:179-220 | accepts exactly the fixed message over such a header |
| Workspace.Workspace.Advance | internal/flywheel/worktree.go:1442-1453 | writes only over the green commit and over our own, each write replacing what the ref was at that moment; when it says the ref was not advanced our commit is not left there by us |
| Workspace.Workspace.PrepareCommit | internal/flywheel/worktree.go:1389-1440 | success after exactly these steps: the proof verified twice, the run ref seen, the object made, the proof verified, the run ref seen and the proof verified again, all at the green commit, which the new one is not; nothing is written to a ref |
| Workspace.Workspace.CommitBatch | internal/flywheel/worktree.go:1389-1479 | green moves exactly on success, to a commit of the prepared tree on the old green; no value of the run ref but the old green and our commit is ever changed; on the other errors our commit is not left behind; wherever the swap occurs the proof was verified at the old green just before, after the whole preparation, and success comes with the proof verified at the new one |
| Workspace.Workspace.VerifySquashObject | internal/flywheel/landing.go:179-220 | success means one tree and the original HEAD as sole parent |
| Workspace.Workspace.Squash | internal/flywheel/landing.go:72-166 | success gives a commit of exactly the latest green tree with the original HEAD as sole parent; the swap comes just after the run ref was seen at the old green; the same guarantees for green, foreign values of the run ref and leftovers |
| Workspace.Workspace.SquashValidated | internal/flywheel/landing.go:58-67 | anything but a refusal without a write needs an owned snapshot that was verified first |
| Workspace.Workspace.ResetAttempt | internal/flywheel/worktree.go:821-859 | swaps the run ref with itself at most, changes no value but the green commit, and success means it was seen there |
| Workspace.Workspace.RollbackBatch | internal/flywheel/worktree.go:1496-1517 | takes back exactly the latest green commit and changes no other value of the run ref; success means ref and green are at its parent |
| Workspace.Workspace.GuardLanding | internal/flywheel/landing.go:724-756 | success means the squash object still is one tree on the original HEAD |
| Workspace.Workspace.Land | internal/flywheel/landing.go:225-454 | complete on a squash only after four passed guards, the merge right after the last of them, and the reading, after the merge, of evidence that is authentic and proves that the feature branch went from the original HEAD to the squash, and with the branch seen there; the run ref is never written |
| Workspace.Workspace.RemoveWorktree | internal/flywheel/landing.go:939-1010 | repeatable removal: done only when worktree and registration were seen to be gone, with nothing but foreign acts since |
| Workspace.Workspace.Quarantine | internal/flywheel/landing.go:940-969 | the worktree is set aside only after the run ref has been seen at the green commit |
| Workspace.Workspace.SettleRunRef | internal/flywheel/landing.go:1012-1065 | the run ref is kept, or deleted when it is at the green commit and only then |
| Workspace.Workspace.Cleanup | internal/flywheel/landing.go:919-1066 | the disposition never changes; the run ref is deleted only after a verified landing or with nothing to keep, and only with the worktree seen to be gone; no value of the run ref but the green commit is changed |
| Reachability.CommitKeeps | internal/flywheel/worktree.go:1389-1479 | a commit keeps the green tree within reach, acknowledged or not |
| Reachability.SquashKeeps | internal/flywheel/landing.go:72-166 | so does a squash |
| Reachability.LandingKeeps | internal/flywheel/landing.go:225-454 | so does a landing |
| Reachability.CleaningKeeps | internal/flywheel/landing.go:919-1066 | so does a cleanup |
| Reachability.RollbackKeeps | internal/flywheel/worktree.go:1496-1517 | so does a rollback that is acknowledged, for the tree of the parent |
| Reachability.RunSaves | internal/flywheel/landing.go:919-1066 | across every run of commits, squashes, resets, rollbacks, landings and repeated cleanups the tree of the latest green commit stays within reach of the run or the feature branch, if others take neither back, no commit is added or taken back after the landing, and no rollback moved the branch unacknowledged |
| Reachability.StartIsRetained | internal/run/fix.go:265-272 | a new workspace satisfies the invariant |
| Reachability.LandedTreeIsSafeExactly | internal/flywheel/landing.go:919-1066 | after a landing a tree stays within reach whatever is done exactly when the feature branch has it |
| Reachability.CommitAfterLandingExactly | internal/flywheel/landing.go:232-236 | a commit after a landing is there at first, and safe for ever exactly when the feature branch has its tree anyway |
| Reachability.CommitAfterLandingIsLost | internal/flywheel/landing.go:232-236 | one that is lost: an empty landing, a commit, and the landed cleanup that is then allowed |
| Reachability.UnacknowledgedRollbackExactly | internal/flywheel/worktree.go:1507-1510 | after a swap that is not acknowledged the green tree is sure to be within reach exactly when the history of the parent or the feature branch has it |
| GitState.MapsMeanFiles | internal/flywheel/worktree.go:3090-3101 | comparing sizes and the left entries is comparing the maps |
| GitState.NoViolation | internal/flywheel/worktree.go:1805-1842 | no violation exactly when no protected surface differs |
| GitState.RefsChain | internal/flywheel/worktree.go:1977-2008 | the refs are the baseline again, through the exception for the run ref |
| GitState.StorageChain | internal/flywheel/worktree.go:2031-2060 | the ref storage has the content of the baseline again, through the exceptions for the run ref and its directories |
| GitState.Chained | internal/flywheel/worktree.go:1977-2111 | baseline, observed and final snapshot chained: HEAD, run ref, index tree and bytes, all refs, config, hooks, pseudorefs and raw control agree |
| GitState.Keeper.GitStateViolations | internal/flywheel/worktree.go:1805-1842 | lists exactly the surfaces that differ |
| GitState.Keeper.PreservedChanges | internal/flywheel/worktree.go:1845-1878 | no complaint exactly when only owned surfaces differ |
| GitState.Keeper.RestoreRunRef | internal/flywheel/worktree.go:1880-1913 | at most one swap, from the observed value to that of the baseline, and only between plain values |
| GitState.Keeper.RestoreIndex | internal/flywheel/worktree.go:1915-1927 | at most one replacement, of the observed bytes by those of the baseline |
| GitState.Keeper.RestoreGitState | internal/flywheel/worktree.go:1844-1930 | writes nothing but the owned run ref and the owned index, each only because it had changed |
| GitState.Keeper.CheckGitState | internal/flywheel/worktree.go:1706-1776 | untouched exactly when nothing protected differs in the first snapshot taken; restored only when the last of at least three snapshots agrees with the baseline on every protected surface; a write, which is to an owned file only, comes after the second found the observed state unchanged |
| FixLoop.CommitMeansDone | internal/run/fix.go:761-768 | a plan with a commit has a batch that is done |
| FixLoop.FinalSuite | internal/run/fix.go:348-459 | every way of stopping before the landing reports the run branch, and out of rails only with a used-up rail |
| FixLoop.FinishReady | internal/run/fix.go:348-503 | the landing is reported complete exactly when it is; nothing to squash and no landing needed cannot occur |
| FixLoop.ExecuteFixLoop | internal/run/fix.go:240-503 | success exactly for a finished landing; the disposition is landed exactly when the landing is complete; the run branch is reported exactly when validated work has not landed, and then, unless a recovery failed, exactly when the cleanup may not delete it |
| FixLoop.CleanUp | internal/run/fix.go:208-209 | the cleanup that follows keeps the run branch at the green commit exactly when it was reported, and deletes it otherwise |

## Left out

- Process execution, Git subprocesses, the file system, tar, locks, rendering, TOML and JSON: their effects are the contracts of the ports.
- Go parsing, type checking and the search for suppressions in source files: the lists of sites are the input.
- Digest formats: batch IDs and fingerprints are only known to be distinct and to have their prefix; that they are 64 hexadecimal digits is not modelled.
- Bytes: strings are valid text; invalid UTF-8, byte lengths of bounded failures and the order of invalid bytes are not modelled.
- Outcome findings: what `Execute` collects for the report (`outcomeFindings`, `semanticFindings`) is not part of the outcome here.
- Missing inputs: a nil context, port or workspace, and rails that were not made by `NewRails`, are refused by guards that are not repeated here.
- The mutex of the rails: calls are taken one at a time.
- Size limits of briefs, changed paths, findings and gate output: exceeding them is a refusal that may happen at any time.
- Reports: `composeFixReport` and the other rules of `validateFixReport` are left out; it refuses some reachable combinations.
- Symbolic refs between a check and the compare-and-swap that follows it: Git is trusted to compare the direct value.
- `Land`: the snapshots of control files and of the index are one yes or no for each guard, and recovery texts are not told apart.
- The regular expression of a version probe: `Observe` starts from the text that it extracts.
- `deletionAnchor`: the cache of line counts is not modelled, the count itself is an input.
- Worktree bytes, the index file, attributes and filters: a batch proof is opaque, its verification a port.
- Ports.Ports.Validate: the list of changed files that the validator reads for itself is taken to be the one of the proof, which it verifies right after.
- Ports: that the methods of `Workspace` keep the contracts of the ports of the same names is read off the two contracts and not proved, because commits there are IDs in a store and here a list since the original HEAD.
- FixLoop.Adopt: that the green commit is the tip of the chain of commits that the engine records is taken over by contract, because the two are modelled by different classes; what follows for chains is `Refs.TipIsStartExactly`.
- Waivers, wikis, exit codes, enrichers, gate loading and configuration: they would add easy members only.
