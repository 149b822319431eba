# Release and CI guarantees, verified

A Dafny model of the release and CI tooling under `scripts/`: the import-cycle check, the publication
protocol that promotes a release candidate, the two programs that judge its evidence, the support-boundary
validator, the sdist digest and publish plan, Docker build sharding, dispatch coordination, CI lane selection
and the evidence bundle. `dafny verify dfyconfig.toml` checks everything.

## What is proved

**Import cycles** (`Graphs`, `TarjanInvariant`, `ImportCycles`). The recursive `visit` is a method of a class
with the same index map, low-link map, stack and active set. Its contract is Tarjan's invariant; the result is
exactly the set of nontrivial strongly connected components, sorted, and it is empty exactly when a topological
order of the modules exists. Recursion ends on the number of nodes not yet indexed.

**Publication** (`Publication`, `Promotion`, `PublishOrder`, `PromotionSteps`, `PromotionRuns`,
`PromotionTheorems`, `Convergence`, `StrandedRelease`, `DryRuns`, `Receipts`, `Candidates`, `PromotionGaps`,
`Staging`, `BomValidation`). The outside world is one value: tags, PyPI files, image tags, signatures, a release.
Every external read or command consumes an outcome: it works, or it breaks after any prefix of its effects, or is
cut off inside an asset upload, which leaves the asset without a digest; so a killed job is a run that breaks
there. For every plan, world and schedule of failures: from each moment of a run to the next the world changes
only in the fixed order; an absent or draft release becomes final only with every file of the candidate attached;
and recorded steps are completed ones, then at most one failed, then steps not run. For a publishable plan in a
world that does not contradict it, any number of interrupted runs followed by a failure-free one ends in the same
public state as one uninterrupted run, if and only if no run was cut off inside an asset upload. A dry run has no
effect; what it plans is a lawful publication that ends where a real one does, and no real run does anything it
did not announce.

**Evidence** (`Redaction`, `JsonText`, `Evidence`, `EvidenceRuns`, `EvidenceRules`, `Qualification`,
`QualificationRules`). Redaction hides what stands under secret keys and nothing else, and the redaction check
refuses exactly the values with a path that exposes something; every run of recordings keeps the bundle sealed,
redacted and its artifact list canonical; the validator accepts exactly the bundles that meet its rules, read off
their fields; the seal covers every field. The fail-fast gate and the per-bundle report name the same bundles, and
each acceptance, refusal, verdict and gap is tied to the bundles' own fields.

**Support boundary** (`SupportSchema`, `SchemaProblems`, `Pep440`, `SupportGates`). The schema checker agrees with
a declarative reading of its keywords and reports exactly the keywords that fail, each at its place; the version
threshold agrees with the full PEP 440 order, and the separate gate checks add up to the release rule.

**The rest.** `SdistDigest`, `SdistPaths`: the digest stream can be read back, so it is injective, archive order
does not matter, and a name is accepted exactly when it leads inside every directory it may be unpacked in.
`PublishPlan`: no conflicts means the uploads complete every release, and planning again leaves nothing to do.
`Dispatch`, `DispatchRounds`: a dispatch protocol as a state machine over every log, and every run of the
coordinator as a chain of rounds that ends exactly as its last round decides. `Shards`, `SelectCi`, `SelectRules`:
an exact balanced partition in first-seen order, the least closed set of affected packages, and what decides each
lane flag.

## Where a promise fails, and exactly when it holds

- A run can replace a public image tag: `validate_bom` allows two first-party images with one name and different
  digests (`PromotionGaps.ValidBomAllowsImageClash`). No run replaces anything public if and only if the plan has
  no such pair (`PromotionTheorems.NothingReplacedIff`).
- Failure-free runs complete from every world that does not contradict the plan if and only if the staged files
  do not change under the upload, images agree and asset names are distinct
  (`PromotionTheorems.CompletesIffPublishable`); a publishable plan completes from a world if and only if the world
  does not contradict it (`Convergence.CompletesIffConforms`).
- A complete publication may never earn a promoted receipt: `validate_bom` does not ask that the source artifact
  names the release commit (`PromotionGaps.ValidBomAllowsForeignSource`). A clean publication earns one if and only
  if it does (`Receipts.PromotedIffSourceBound`); for other BOMs no run ever does
  (`Receipts.PromotedNeedsSourceBound`). A dry run reconciles on the same condition
  (`Candidates.DryRunReconcilesIff`).
- `validate_receipt` re-derives the checksum and the success flag, not the status: a receipt may claim a promotion
  without any step and validate (`Receipts.ValidationAllowsUnsupportedStatus`). A validated receipt is one that is
  built if and only if its status is the one its mode, steps and reconciliation give (`Receipts.ReceiptGenuineIff`).
- The pair rule of `validate_bom` says "exactly one sdist and one wheel" but collects kinds in sets: every valid BOM
  stays valid with a second sdist (`BomValidation.SecondSdistStaysValid`). There is exactly one of each if and only
  if the pairs are complete and no kind is listed twice for a name and version (`BomValidation.OneOfEachIff`).
- Interrupted runs do not always converge: an upload that is cut off can leave a release asset without a digest, and
  `_check_assets` then refuses every rerun. Convergence holds if and only if no run was cut off there
  (`Convergence.InterruptedRunsConvergeIff`); every publishable plan has a run that is
  (`StrandedRelease.EveryPlanCanBeStranded`). In general some reruns finish if and only if nothing public
  contradicts the plan (`Convergence.RecoverableIff`).
- A set the report calls qualified may be refused by the gate as a whole, because the gate stops at the first
  offence: one bundle for another candidate is enough, whatever the setting
  (`Qualification.ForeignBundleSplitsThem`). The gate accepts the set if and only if every bundle is distinct and
  bound to the candidate, and each one the validator accepts has passed, fits, is unused and timed
  (`Qualification.GateIffReport`); on the sublist the report names they always agree.
- The sdist digest is meant to depend on content only, but members are sorted by the raw name and written under
  the normal name, so `./b` and `b` can give different digests (`SdistDigest.SpellingChangesStream`). Against an
  archive in normal order the digests agree if and only if the raw order is the normal order
  (`SdistDigest.SameContentSameStreamIff`).
- `ensure_runs` can return one run twice when a listing loses a run and shows it again
  (`Dispatch.FlickerReturnsTwice`). It never does if and only if it is asked for at most two runs
  (`Dispatch.ReturnedDistinctIff`). The release asks for one, two and one (scripts/release_merge.py:117-124), so
  every call it makes is safe. For larger counts, the runs are distinct if and only if no counted listing shows a
  run again that the one before had lost (`Dispatch.DistinctIff`).
- `finalize_bundle` concludes "passed" when nothing was recorded; its branch for "no demonstration completed" is
  never taken (`Evidence.FinalizedFollowsFirstFailure`). The validator still refuses such a bundle
  (`EvidenceRuns.NothingRecordedPasses`).

## Model

| member | source | states |
|---|---|---|
| ImportCycles.CycleFinder.Visit | scripts/check_import_cycles.py:64-83 | one recursive visit keeps Tarjan's invariant, indexes the node and leaves its low-link reached and bounded by every edge out of its part of the stack |
| ImportCycles.CycleFinder.PopThrough | scripts/check_import_cycles.py:75-81 | the pop loop removes exactly the stack from the node up, from the active set too |
| ImportCycles.CycleFinder.Close | scripts/check_import_cycles.py:74-83 | a node whose low-link is its own index closes a component, which is reported when nontrivial; any other node stays on the stack |
| ImportCycles.StronglyConnectedComponents | scripts/check_import_cycles.py:56-88 | the result is the sorted list of all nontrivial components, disjoint, covering every module on a cycle; it is empty exactly when a topological order exists |
| ImportCycles.SearchComplete | scripts/check_import_cycles.py:85-88 | when no visit is running the stack is empty and every indexed node lies in a finished component |
| ImportCycles.CycleReportUnique | scripts/check_import_cycles.py:56-88 | the graph alone determines the report, whatever the order of visits |
| ImportCycles.OrderIffNothingReported | scripts/check_import_cycles.py:108-129 | nothing is reported exactly when the modules can be put in import order, which the main program cross-checks |
| Graphs.CycleIffNontrivial | scripts/check_import_cycles.py:82-83 | a node lies on a cycle exactly when its component has two nodes or a self-loop |
| Graphs.OrderedHasNoCycle | scripts/check_import_cycles.py:124-128 | a topological order rules out every cycle |
| TarjanInvariant.PushKeepsInvariant | scripts/check_import_cycles.py:65-67 | indexing and stacking a new node keeps the invariant |
| TarjanInvariant.TargetVisited | scripts/check_import_cycles.py:68-71 | lowering the link after a nested visit keeps what the loop relies on |
| TarjanInvariant.TargetSeen | scripts/check_import_cycles.py:72-73 | a target indexed before lowers the link only when it is still on the stack |
| TarjanInvariant.LeaveOnStack | scripts/check_import_cycles.py:74-74 | a node with a smaller low-link stays on the stack and completes its visit |
| TarjanInvariant.TopIsScc | scripts/check_import_cycles.py:74-81 | when low-link equals index the stack from the node up is one component, mutually reachable and maximal |
| TarjanInvariant.PopScc | scripts/check_import_cycles.py:74-83 | popping that component keeps the invariant and completes the visit |
| Staging.VerifyStagedDistributions | scripts/release_candidate_bom.py:672-705 | succeeds exactly when staged digests are the BOM's distribution digests and no two distributions share one; the paths then follow BOM order one to one |
| BomValidation.ValidateDistributionPairs | scripts/release_candidate_bom.py:592-604 | the dictionary of kinds accepts exactly the lists in which every package with a distribution has both kinds |
| BomValidation.ValidateUniqueImages | scripts/release_candidate_bom.py:607-619 | counting identities accepts exactly the lists without a repeated image entry |
| BomValidation.WellShapedIff | scripts/release_candidate_bom.py:567-589 | an entry is accepted exactly when no field is empty and its digest is a commit id, a SHA-256 or an image digest, as its kind asks; a last newline slips through |
| BomValidation.ValidateBom | scripts/release_candidate_bom.py:644-669 | the checks in order accept exactly the BOMs that meet every rule, and what each refusal stands for |
| BomValidation.OneOfEachIff | scripts/release_candidate_bom.py:592-604 | exactly one sdist and one wheel of each package exactly when the pair rule holds and no kind is listed twice |
| BomValidation.SecondSdistStaysValid | scripts/release_candidate_bom.py:592-604 | every valid BOM stays valid when a second sdist of a listed package is added |
| Promotion.StepRunner.constructor | scripts/promote_release_candidate.py:842-852 | a runner starts with no step and not aborted |
| Promotion.StepRunner.Fail | scripts/promote_release_candidate.py:854-864 | a failure is recorded and aborts the rest |
| Promotion.StepRunner.Attempt | scripts/promote_release_candidate.py:866-926 | what one attempt records and does, for every preparation, check and outcome of its commands; without the executing runner no command runs |
| Promotion.PromotePlan | scripts/promote_release_candidate.py:961-1066 | the four attempts in their fixed order on one runner |
| Promotion.DryRunTouchesNothing | scripts/promote_release_candidate.py:900-926 | a dry run has no effect, also when a gate ends it; when it is gated, and otherwise four planned steps |
| DryRuns.DryRunForetells | scripts/promote_release_candidate.py:803-840 | what a dry run plans, carried out where nothing is public, is lawful, replaces nothing and ends in the public state of a real run |
| DryRuns.NothingUnannounced | scripts/promote_release_candidate.py:929-1066 | every effect of every real run, whatever fails, was announced by every dry run that was not gated |
| Promotion.Promote | scripts/promote_release_candidate.py:929-960 | staged bytes that do not match the BOM and configured tokens stop the promotion before any effect, and a dry run has none |
| PromotionSteps.TagStep | scripts/promote_release_candidate.py:753-778 | the tag step is lawful under every failure, touches only tags, and ends with the remote tag at the commit |
| PromotionSteps.MissingFacts | scripts/promote_release_candidate.py:613-626 | the missing files are exactly the staged ones PyPI lacks; a file there with other bytes stops the step |
| PromotionSteps.PypiStep | scripts/promote_release_candidate.py:613-687 | the PyPI step is lawful under every failure, adds only missing files, and when it completes all are there with their digests |
| PromotionSteps.ImageCommandsFacts | scripts/promote_release_candidate.py:629-650 | images with absent tags are copied, every subject is signed, and a tag elsewhere stops the step |
| PromotionSteps.ImageStage | scripts/promote_release_candidate.py:629-713 | the image step is lawful under every failure and when it completes every tag points to its signed digest |
| PromotionSteps.ReleaseStage | scripts/promote_release_candidate.py:716-750 | the release step is lawful under every failure: assets are only added, and the draft ends after the check |
| PromotionTheorems.EveryRunIsOrdered | scripts/promote_release_candidate.py:929-1066 | every effect of every run comes after what the order demands: tag, then all distributions, then all images, then the release |
| PromotionTheorems.EveryMomentInOrder | scripts/promote_release_candidate.py:929-1066 | from each moment of a run to the next: nothing reaches PyPI before the tag is public, no image before all distributions, no release change before all images, no final release before every asset |
| PromotionTheorems.FinalOnlyWithAssets | scripts/promote_release_candidate.py:900-909 | from an absent or draft release no run makes it final without every required asset under its digest |
| PromotionTheorems.NothingReplacedIff | scripts/promote_release_candidate.py:629-650 | from any moment of any run to any later one nothing public is replaced or taken away, exactly when no two images share a name with different digests |
| PromotionTheorems.CompletesIffPublishable | scripts/promote_release_candidate.py:929-1066 | failure-free runs complete from every world that does not contradict the plan exactly when the plan is publishable |
| PromotionTheorems.CompletedRunsAreDone | scripts/promote_release_candidate.py:866-926 | a run with four completed steps leaves everything of the plan public and the release final |
| PromotionTheorems.StepsAreAPrefix | scripts/promote_release_candidate.py:866-926 | steps are completed ones, then at most one failed, then only not-run ones; a gate error comes before any effect |
| Convergence.SessionsGrow | scripts/promote_release_candidate.py:929-1066 | over any number of interrupted runs nothing public is lost or changed, and all that is added is the plan's or a stub of one of its assets |
| Convergence.FinishedWorldsAgree | scripts/promote_release_candidate.py:929-1066 | two finished worlds grown from one start are publicly the same |
| Convergence.InterruptedRunsConvergeIff | scripts/promote_release_candidate.py:929-1066 | after any interrupted runs a failure-free run completes and reaches the public state of one uninterrupted run exactly when none was cut off inside an asset upload; after one that was, no sequence of runs ever finishes |
| Convergence.SessionFitsIff | scripts/promote_release_candidate.py:603-610 | a run leaves the release's assets fitting exactly when it left no asset without its digest |
| StrandedRelease.EveryPlanCanBeStranded | scripts/promote_release_candidate.py:716-744 | for every publishable plan, a world and one run cut off inside its first upload, after which no sequence of runs finishes |
| Convergence.RecoverableIff | scripts/promote_release_candidate.py:603-650 | from any world whatever, some sequence of runs finishes exactly when nothing public contradicts the plan |
| Convergence.CompletesIffConforms | scripts/promote_release_candidate.py:753-778 | a failure-free run of a publishable plan completes exactly from the worlds that contradict it nowhere |
| Receipts.Reconcile | scripts/promote_release_candidate.py:1093-1185 | the reconciliation loop matches exactly when no step mismatches and no publishable digest is uncovered |
| Receipts.PromotedMeansDone | scripts/promote_release_candidate.py:1194-1276 | a promoted receipt means four completed steps, everything public, and every publishable BOM digest bound to a step |
| Receipts.PromotedIffSourceBound | scripts/promote_release_candidate.py:1093-1185 | a complete failure-free publication is promoted exactly when the source artifacts name the release commit |
| Receipts.PromotedNeedsSourceBound | scripts/promote_release_candidate.py:1093-1276 | no run and no reconciliation, whatever fails in them, earns a promoted receipt for a BOM whose source artifacts name another commit |
| Receipts.ReceiptsValidate | scripts/promote_release_candidate.py:1194-1300 | every receipt that is built validates, whatever the hash, and is a success exactly for a real publication with all four steps done and reconciled |
| Receipts.ReceiptGenuineIff | scripts/promote_release_candidate.py:1279-1300 | a validated receipt is one that is built exactly when its status follows from its content; partial and dry-run receipts marked as success are refused |
| Receipts.ValidationAllowsUnsupportedStatus | scripts/promote_release_candidate.py:1279-1300 | for every hash, a receipt without steps that claims a promotion, validates and is never built |
| Receipts.ReceiptsTamperEvident | scripts/promote_release_candidate.py:1279-1300 | a validated receipt with the checksum of a built one is that receipt or a collision of the hash |
| Receipts.PlanFacts | scripts/promote_release_candidate.py:961-1040 | a validated candidate gives a well-formed plan: distinct PyPI keys, at least one image |
| Receipts.CandidateAssetsHaveDigests | scripts/promote_release_candidate.py:1033-1044 | every file a validated candidate attaches has a digest, so a stub is told from an asset |
| Candidates.AssetsAreTheFiles | scripts/promote_release_candidate.py:1043-1052 | the release carries the BOM, every staged file and the archive, and nothing else |
| Candidates.DistsAreTheArtifacts | scripts/promote_release_candidate.py:970-1011 | PyPI gets the sdists and wheels of the BOM one for one and in order, under their names and versions, with name and bytes of the staged file of that digest |
| Candidates.ImagesAreTheArtifacts | scripts/promote_release_candidate.py:1015-1026 | the images are the first-party ones of the BOM by name and digest |
| Candidates.FinalReleaseCarriesAll | scripts/promote_release_candidate.py:1043-1064 | from an absent or draft release, whatever fails, a final release carries each of these files under its digest |
| Candidates.CompletedRunPublishesAll | scripts/promote_release_candidate.py:929-1066 | four completed steps mean that each artifact of the BOM is public where it belongs and each file is on the final release |
| Candidates.DryRunReconcilesIff | scripts/promote_release_candidate.py:1093-1185 | a dry run reconciles exactly when the source artifacts name the release commit, and its receipt is no success |
| PromotionGaps.ValidBomAllowsImageClash | scripts/release_candidate_bom.py:607-669 | for every SHA-256, a concrete BOM that meets every rule of the validation, and a run of its promotion that replaces a public image tag |
| PromotionGaps.ValidBomAllowsForeignSource | scripts/release_candidate_bom.py:568-669 | for every SHA-256, a concrete BOM that meets every rule of the validation, is publishable, completes from an empty world and is never promoted by any run and reconciliation |
| Qualification.ScreenBundles | scripts/promote_release_candidate.py:326-360 | the screening loop computes the recursive screening of the gate |
| Qualification.ScreenIff | scripts/promote_release_candidate.py:306-360 | screening succeeds exactly on distinct, usable, bound bundles whose valid ones passed in a fitting environment, and keeps the valid ones |
| QualificationRules.GateAcceptsIff | scripts/promote_release_candidate.py:263-453 | the gate accepts exactly distinct bound bundles whose valid ones are three or more qualifying runs on their own fields, one finished within seven days, none started before staging; it returns them by start time |
| QualificationRules.GateRefuses | scripts/promote_release_candidate.py:306-453 | each refusal names the first offence of the first offending bundle, or a flaw of a set without offence |
| QualificationRules.VerdictMeans | scripts/release_qualification_status.py:61-147 | for each verdict, exactly which fields of the bundle it stands for |
| QualificationRules.ReportQualifiesIff | scripts/release_qualification_status.py:105-171 | the report qualifies exactly when three bundles do, one of them finished within seven days, and none that does started before staging |
| QualificationRules.GapsMean | scripts/release_qualification_status.py:148-171 | each gap is listed exactly when it is there, with its count, instant or checksums |
| Qualification.ReportStatus | scripts/release_qualification_status.py:105-171 | the verdicts and gaps the report lists, or that it raises on an unreadable staging time; it is qualified exactly when it lists no gap |
| Qualification.JudgeAll | scripts/release_qualification_status.py:114-147 | the first loop gives each bundle its verdict and keeps the qualifying ones in order |
| Qualification.QualifyingSound | scripts/release_qualification_status.py:61-88 | what a qualifying verdict says of its bundle |
| Qualification.SameBundles | scripts/release_qualification_status.py:105-171 | where screening succeeds the two programs keep the same bundles |
| Qualification.GateImpliesReport | scripts/release_qualification_status.py:105-171 | a set the gate accepts is qualified in the report, with the same bundles |
| Qualification.ReportImpliesGate | scripts/promote_release_candidate.py:416-453 | the gate accepts the bundles a qualified report names |
| Qualification.GateIffReport | scripts/promote_release_candidate.py:416-453 | the gate accepts the whole set exactly when the report is qualified and every bundle is bound, distinct and, if the validator accepts it, without any flaw |
| Qualification.RejectedBundleAdded | scripts/release_qualification_status.py:114-147 | for every setting, one more bundle the report rejects leaves it qualified, and the gate accepts the larger set exactly when it tolerates the rest and the new bundle merely fails the evidence validator |
| Qualification.ForeignBundleSplitsThem | scripts/promote_release_candidate.py:306-347 | for every setting and qualified set, adding a bundle for another candidate keeps the report qualified and makes the gate refuse |
| SupportSchema.FollowIffChainEnds | scripts/validate_support_manifest.py:145-149 | following references finds a node exactly when finitely many hops reach it, so endless chains are told apart exactly |
| SupportSchema.NoErrorsIffSatisfied | scripts/validate_support_manifest.py:189-211 | no errors exactly on the values that satisfy the declarative reading of the keywords |
| SchemaProblems.ProblemsAreReal | scripts/validate_support_manifest.py:189-211 | whenever the checker returns, it reports exactly the keywords that fail, each at the place the path leads to |
| SupportSchema.TypeMatchesIff | scripts/validate_support_manifest.py:134-142 | the type test accepts exactly the type names a value has, and every name it does not know |
| SupportSchema.ItemsIff | scripts/validate_support_manifest.py:152-161 | the same for the items of an array |
| SupportSchema.FieldsIff | scripts/validate_support_manifest.py:164-183 | the same for the members of an object, by property or additional schema |
| SupportSchema.ObjectIff | scripts/validate_support_manifest.py:164-183 | an object has no errors exactly when required members are there, none is unknown where they are closed, and its members have none |
| SupportSchema.SoundRefsNeverCrash | scripts/validate_support_manifest.py:189-211 | with references that lead somewhere the checker always returns |
| Pep440.AtLeastOneIsNotLess | scripts/validate_support_manifest.py:986-1003 | the threshold test is "not less than 1.0.0" in the order of PEP 440, for every version |
| Pep440.TupleAgree | scripts/validate_support_manifest.py:997-1003 | padding with zeros and trimming them compare the release alike, for any length |
| Pep440.LessTransitive | scripts/validate_support_manifest.py:986-1003 | the reference order is transitive |
| Pep440.ThresholdMonotone | scripts/validate_support_manifest.py:986-1003 | nothing above a version that passes the threshold fails it |
| Pep440.ExampleInOrder | scripts/validate_support_manifest.py:986-1003 | the reference order puts the example of the PEP 440 summary in its order |
| SupportGates.GateComponentErrors | scripts/validate_support_manifest.py:910-943 | no errors exactly for a component whose status and blockers are derived from its gates |
| SupportGates.GateErrors | scripts/validate_support_manifest.py:946-960 | no errors exactly when required gates, components and statuses are consistent |
| SupportGates.ReadinessErrors | scripts/validate_support_manifest.py:1006-1039 | no errors exactly when production status, readiness, maturity and version agree |
| SupportGates.ComponentPassedIff | scripts/validate_support_manifest.py:910-943 | an accepted component is passed or not required exactly when all its gates are passed |
| SupportGates.DerivedMeans | scripts/validate_support_manifest.py:925-943 | which status an accepted component has, and that it lists exactly its open gates |
| SupportGates.ConsistentMeans | scripts/validate_support_manifest.py:946-960 | an accepted table lists each blessed component once and no other |
| SupportGates.ReadyMeans | scripts/validate_support_manifest.py:1006-1039 | which production status an accepted manifest has, on the five gates and the blessed components |
| SupportGates.OneNeedsEveryGate | scripts/validate_support_manifest.py:963-983 | with both checks empty a release not below 1.0.0 has every required gate and every blessed-core gate passed |
| SdistDigest.SafeIff | scripts/release_identity.py:279-281 | the textual safety test accepts exactly the relative names whose normal pieces are there and do not climb |
| SdistPaths.NormalisingKeepsTarget | scripts/release_identity.py:279-280 | a normalised path leads where the path leads, from every directory |
| SdistPaths.SafeIffLeadsInside | scripts/release_identity.py:279-281 | a name is accepted exactly when it is relative and leads strictly inside whatever directory it is unpacked in |
| SdistDigest.NormpathSettles | scripts/release_identity.py:279-284 | an accepted name is in normal form once normalised |
| SdistDigest.SdistStream | scripts/release_identity.py:273-297 | the loop feeds the framing of the visited regular files, or reports the first problem in visiting order |
| SdistDigest.RejectionMeans | scripts/release_identity.py:278-289 | everything before the rejected member is in order, and what is wrong with it |
| SdistDigest.AcceptedIff | scripts/release_identity.py:276-296 | which archives are digested, by a condition in which member order plays no part |
| SdistDigest.DecodeEncode | scripts/release_identity.py:292-296 | the framed stream reads back to the records |
| SdistDigest.EncodeDecode | scripts/release_identity.py:292-296 | whatever reads back is the framing of what was read |
| SdistDigest.EncodeInjective | scripts/release_identity.py:292-296 | equal streams hold equal records |
| SdistDigest.BigEndianByte | scripts/release_identity.py:293-295 | the most significant byte of a length comes first |
| SdistDigest.ArchiveOrderIrrelevant | scripts/release_identity.py:270-276 | any reordering of an accepted archive feeds the same bytes |
| SdistDigest.SameStreamIff | scripts/release_identity.py:273-297 | two archives feed the same bytes exactly when they hold the same named files in the same visiting order |
| SdistDigest.SameContentSameStreamIff | scripts/release_identity.py:270-297 | against an archive in normal order, equal content gives equal bytes exactly when the raw-name order is the normal order |
| SdistDigest.NormalNamesNormalOrder | scripts/release_identity.py:276-279 | archives with normal names are in normal order |
| SdistDigest.SpellingChangesStream | scripts/release_identity.py:276-296 | two sdists with a metadata file, equal content and different bytes |
| PublishPlan.Plan | scripts/release_identity.py:337-372 | every release is read once and judged against that one listing; uploads, file conflicts and unexpected files in their order, or the read that failed |
| PublishPlan.NoConflictsIffUploadsComplete | scripts/release_identity.py:342-372 | no conflicts exactly when remote files and uploads are disjoint, together are the built files, and what is there is unyanked and the same |
| PublishPlan.ConflictMeans | scripts/release_identity.py:352-371 | exactly the conflicts that are there are reported: yanked files, different files, and all files nobody built |
| PublishPlan.EveryArtifactOnce | scripts/release_identity.py:342-362 | each artifact is uploaded, accused or already published, and only one of the three |
| PublishPlan.RerunHasNothingToDo | scripts/release_identity.py:337-372 | with unique filenames, planning again after the uploads gives no upload and no conflict |
| Shards.SelectBuildableServices | scripts/verify_installed_provider_artifacts.py:349-368 | the selection is the shard's contiguous run of families, and an index outside the count is refused |
| Shards.GroupFamilies | scripts/verify_installed_provider_artifacts.py:355-361 | the dictionary holds the families in first-seen order with their members in order |
| Shards.FamiliesAre | scripts/verify_installed_provider_artifacts.py:355-361 | the families are the pairs of image and build of the buildable services |
| Shards.FirstSeenOrder | scripts/verify_installed_provider_artifacts.py:355-361 | before the first member of a family come only members of earlier families |
| Shards.ShardsPartition | scripts/verify_installed_provider_artifacts.py:365-368 | the shards in order give every buildable service exactly once, in family order |
| Shards.FamiliesStayTogether | scripts/verify_installed_provider_artifacts.py:362-368 | no family is split across shards |
| Shards.ShardsBalanced | scripts/verify_installed_provider_artifacts.py:365-367 | shard sizes in families differ by at most one, larger ones first |
| Dispatch.WaitRun | scripts/release_merge.py:22-46 | a run is returned only after a trusted, completed, successful reading, and which reading each failure stands for |
| Dispatch.WaitAll | scripts/release_merge.py:65-65 | runs are confirmed one after the other, in order, stopping at the first failure |
| DispatchRounds.PollIff | scripts/release_merge.py:27-46 | waiting times out exactly when no reading before the deadline settles the run, and otherwise ends at the first one that does |
| DispatchRounds.SearchIff | scripts/release_merge.py:82-94 | the search gives up exactly when no listing read before the limit shows a new run, and otherwise stops at the first one that does |
| Dispatch.EnsureRuns | scripts/release_merge.py:60-95 | what is returned and done, for every GitHub and clock; the log is one the protocol machine accepts, and a normal return has at least the count of runs, all confirmed |
| DispatchRounds.EveryRunIsRounds | scripts/release_merge.py:60-95 | every run is a chain of rounds, each a dispatch, the first listing with a new run and its confirmation; the last round decides the outcome |
| DispatchRounds.NeverVisibleIff | scripts/release_merge.py:82-94 | a dispatched run is given up exactly when a round is reached in which no listing read within five minutes, or before the deadline, shows it |
| DispatchRounds.VisibleRunIsFound | scripts/release_merge.py:84-91 | a run that some reading in the window shows is found and confirmed |
| DispatchRounds.DelayedRun | scripts/release_merge.py:82-94 | a run that shows late is returned if that is within five minutes and given up otherwise, for every delay |
| Dispatch.CoordinateAccepted | scripts/release_merge.py:60-95 | every log of the coordinator is accepted and was witnessed, also when it stops early |
| Dispatch.FewDispatches | scripts/release_merge.py:66-81 | no log has more dispatches than runs were missing at the start |
| Dispatch.NoBlindRetry | scripts/release_merge.py:82-94 | between two dispatches a run absent before the first was seen and succeeded |
| Dispatch.CompletedWereConfirmed | scripts/release_merge.py:65-95 | every returned run was confirmed |
| Dispatch.DistinctIff | scripts/release_merge.py:69-90 | returned runs are distinct exactly when no listing repeats a run and none reappears after a counted listing left it out |
| Dispatch.MonotoneListings | scripts/release_merge.py:69-90 | with listings that keep their runs the result is every run of the last listing, once |
| Dispatch.ReturnedDistinctIff | scripts/release_merge.py:60-95 | with listings that repeat no run, what the coordinator returns is free of repetitions for every GitHub and clock exactly when at most two runs are asked for |
| Dispatch.LoggedDistinctIff | scripts/release_merge.py:60-95 | the same for every accepted log, finished or not |
| Dispatch.FlickerReturnsTwice | scripts/release_merge.py:69-90 | for every count from three on, a GitHub for which the coordinator returns one run twice |
| SelectCi.Dependents | scripts/select_ci.py:83-95 | the map holds for each package exactly those that require it |
| SelectCi.Affected | scripts/select_ci.py:96-101 | the worklist computes exactly the packages that transitively need a change, whatever the order of popping |
| SelectCi.ClosedIsAffected | scripts/select_ci.py:96-101 | a set closed under dependents and reached from the changes is that set |
| SelectCi.Select | scripts/select_ci.py:26-129 | the documentation, full and targeted answers, with the affected packages given by reachability |
| SelectRules.BroadIff | scripts/select_ci.py:53-70 | everything is run exactly for an empty diff or a path that is not recognised, component by component |
| SelectRules.SelectionMeans | scripts/select_ci.py:38-129 | which answer is given, and for a targeted one what decides each flag and each lane |
| SelectCi.NothingEscapes | scripts/select_ci.py:53-107 | every changed path is inert, or everything runs, or its package's transitive dependents all run on every version, or its own lane runs |
| SelectCi.NothingWithoutCause | scripts/select_ci.py:102-107 | outside a full run each lane holds a package that transitively needs a change |
| Redaction.SanitizeEstablishes | scripts/release_evidence.py:97-108 | a redacted value passes the redaction check |
| Redaction.SanitizedIffNothingExposed | scripts/release_evidence.py:357-370 | the check refuses exactly the values in which some path leads under a secret key to something not blank |
| Redaction.RedactedAt | scripts/release_evidence.py:97-108 | the mark stands under every secret key, and every other place is as it was |
| Redaction.SanitizeIdempotent | scripts/release_evidence.py:97-108 | redacting twice is redacting once |
| Redaction.RedactionHidesExactlySecrets | scripts/release_evidence.py:97-108 | two values are redacted alike exactly when they differ only under secret keys |
| Evidence.EvidenceBundle.constructor | scripts/release_evidence.py:117-143 | a new bundle is failed, empty and sealed |
| EvidenceRules.NewBundle | scripts/release_evidence.py:117-143 | the fields of a new bundle; it says clean host and no source checkout whatever it is given |
| EvidenceRules.RecordedEntry | scripts/release_evidence.py:161-174 | each field of a recording stands under its own name |
| Evidence.EvidenceBundle.Record | scripts/release_evidence.py:146-187 | one recording appends the redacted entry, merges its artifacts and reseals |
| Evidence.EvidenceBundle.Finalize | scripts/release_evidence.py:190-217 | the conclusion and failure record follow the demonstrations, both branches included, and the bundle is resealed |
| Evidence.FinalizedFollowsFirstFailure | scripts/release_evidence.py:195-217 | for every bundle, passed exactly when no demonstration fails, otherwise with the first failing one's record; the guard of the second branch is false |
| Evidence.UsableToolsExist | scripts/release_evidence.py:177-186 | a text form of JSON values that reads back exists, for any redaction pattern and hash, so the lifecycle results are about something |
| EvidenceRuns.RunKeeps | scripts/release_evidence.py:146-187 | over any recordings entries stay redacted, the seal valid, and the artifact list the duplicate-free union in text order |
| EvidenceRuns.RunRecords | scripts/release_evidence.py:161-176 | a run's entries are the redacted demonstrations in order and nothing else changes |
| EvidenceRuns.ValidateDemonstrations | scripts/release_evidence.py:247-274 | accepts exactly well-formed entries with distinct ids that expose nothing, and what each refusal stands for |
| EvidenceRuns.ValidateBundle | scripts/release_evidence.py:330-354 | accepts exactly the bundles the declarative condition describes, and what the refusals mean |
| EvidenceRules.AcceptedIff | scripts/release_evidence.py:330-354 | acceptance, rule by rule on the fields of the bundle and its entries |
| EvidenceRules.ContentIsEverything | scripts/release_evidence.py:111-114 | what is hashed determines every field but the checksum |
| EvidenceRules.RunsTamperEvident | scripts/release_evidence.py:111-114 | an accepted bundle with the checksum of a run is the bundle of that run or a collision of the hash |
| EvidenceRuns.PassedRecordsEachOnce | scripts/release_evidence.py:277-305 | an accepted passed bundle records every required demonstration once, as passed |
| EvidenceRuns.RunAcceptedIff | scripts/release_evidence.py:330-354 | exactly which runs end in an accepted bundle, as a condition on what the driver passes in |
| EvidenceRuns.NothingRecordedPasses | scripts/release_evidence.py:195-214 | finalizing with nothing recorded concludes passed, and only the validator stops the bundle |

## Left out

- Git, GitHub, PyPI, registries, Docker and clocks: reads and transitions on explicit values, with failure as an outcome; other people changing the world during a run are not modelled.
- SHA-256, JSON text, regular expressions, timestamps, tar and TOML parsing: hashes, parsers and the evidence validator are parameters, assumed injective only where a lemma says so.
- Promotion: staged files changing between two of its own checks; the model only lets the uploaded bytes differ from the checked ones. The recorded `assets` of a step, a missing distributions directory and exceptions the runner does not catch, which end the run like a kill, are not modelled separately.
- Promotion: PyPI is read for each file instead of once for each release, which only adds points of failure; a dry run's image commands keep their effects but not their exact interleaving.
- Publication: other effects than asset uploads happen whole or not at all; deleting an asset that was left without its digest by hand is not a step of the model.
- Staging: the candidate's BOM carries no embedded support manifest, so the check of its digest is not modelled; the canonical digest of a BOM is a function of its artifact digests.
- Authorization records, the evidence archive, rejection records, the audit command and the candidate lock.
- SupportSchema: errors are a set with path and keyword, so their order and wording are not modelled; references are a table from name to schema; Python's `True == 1` and `1 == 1.0` are excluded because values are typed.
- SupportGates: the checks on evidence entries are a parameter; the other sections of the manifest are not modelled.
- SdistDigest: names that cannot be encoded, and embedded null characters.
- PublishPlan.Plan: retries inside one PyPI read; a failed read and an unreadable sdist end the plan.
- Shards: the JSON text that keys a family is the pair of image and build text itself.
- SelectCi.Select: the requirement pattern and the documentation suffix test are inputs, and the explanatory reasons are left out.
- Dispatch.EnsureRuns: the workflow lookup and pagination; the identity checks on a run are one flag.
- EvidenceRuns.ValidateBundle: demonstration ids and artifact digests that are not strings count as malformed or unknown, where Python compares their text; the shape of a checksum is that of the hash function.
- Evidence: the digest check that selects a BOM's qualification profile is an input.
- Dependency deltas (`scripts/dependency_delta.py`), the import parser, the CI shard helper, report rendering and the live acceptance drivers: they would only add easy members or plumbing.
