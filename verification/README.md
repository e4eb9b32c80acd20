# Hartevo control plane and result plugins in Dafny

This project models the parts of Hartevo Desktop where a whole run has to come out right: the merge train and the gate
behind it, the governance ledger, the reviews and the admission controller, and the kernels of the Algolia, Adyen and
Airtable plugins. `dafny verify dfyconfig.toml` checks everything.

## What is modelled

- **Merge train** (`Trees`, `GitStore`, `TrainChain`, `MergeTrain`, `TrainTheorems`). A repository is an append-only list
  of commits whose parents come earlier. Trees map paths to blobs. `git merge` is the three-way merge per path over the
  merge base git picks; when git finds several merge bases, the tree it makes of them is a function parameter.
  `Worktree.Prepare` builds the train merge by merge, the two verifiers walk and rebuild it.
- **Bootstrap gate** (`AttestedReviews`, `BootstrapGate`, `TrainDelivery`). What `verify_bootstrap_push` accepts, with the
  second look at every attested review, what follows for any run of accepted pushes, and exactly when the trains that
  `prepare` builds are accepted. What GitHub shows of the candidates at that time is a parameter; receipts are in the
  commits.
- **Admission fence** (`AdmissionFence`). Any number of controller runs on one commit, interleaved step by step: create,
  list, post pending, list again, publish, complete. Listing and posting are separate steps. The steps are those of the
  admission workflow in `.github/workflows`, whose order `scripts/ci-workflow-policy.py` insists on.
- **Ledger** (`LineText`, `GovernanceLedger`, `LedgerTheorems`, `LedgerSamples`). Ledger text is split into lines as Python
  does it, each line decodes to an event, and events are chained by digest. The digest, the JSON codec and the reading of
  timestamps are parameters. The digest is not taken to be injective: where two inputs would have to hash alike, the
  result names the two inputs. A sample scheme shows that what is taken for granted about the codec can be had.
- **Reviews** (`StringOrder`, `GithubReviews`, `ReviewStability`, `ReviewChoices`). The latest review of every actor
  decides, when the order of the listing cannot matter, and which verdicts it can bring about.
- **Algolia plugin** (`CivilCalendar`, `AnalyticsDates`, `DailyNormalization`, `SearchRegistration`, `RegistrationRuns`).
  Day numbers by the closed form, date text by the rules of `str::parse`, the sort-and-refuse-duplicates normaliser, and
  the registration, its secret reference and the consumer fenced by the registration. Dates are those of sections 5.6
  and 5.7 of RFC 3339, except where the parser is laxer.
- **Adyen plugin** (`DigestPreimage`, `PaymentProvider`, `PaymentRuns`). The length-prefixed digest preimage, and the
  provider as a class proved against functions over which whole runs are studied.
- **Airtable plugin** (`RecordPages`, `RecordProposals`). Reading along opaque offsets, compiling proposals, batching.
- **Image sizes** (`ImageDimensions`). The PNG and JPEG scanner, against sections B.1.1.2, B.1.1.4 and B.2.2 of ITU-T T.81.

`Wrappers`, `Machine` and `Sequences` are shared helpers.

## Where the code does less than it seems to promise

Each entry names a lemma with a concrete case first, and then the lemma that says exactly when the code does meet the
property.

- A train of checked, path-disjoint candidates is not always the base overlaid with their changes. Two candidates that
  share a commit beyond the base pass every check of `prepare`, merge cleanly and can lose a file
  (`SharedCommitLosesChange`). The overlay holds exactly when every merge base agrees with the train base on the changed
  paths (`PreparedOverlayIff`, `AcceptedEntryIsOverlayIff`). Candidates that share nothing beyond the base satisfy this.
- The overlap check of `prepare` never sees review receipts, so a candidate may write another one's receipt
  (`ForeignReceiptConflicts`). Whole diffs are disjoint exactly when no candidate does (`WholeDiffsDisjointIff`).
- A train that `prepare` built is not always accepted when it is pushed as built: the gate looks every attested GitHub
  review up again, and a candidate that is no longer open stops the train (`ClosedCandidateStopsTrain`). It is accepted
  exactly when every ordinary candidate is still ready at that time, with the same base, head and standing review; a
  train of receipt-reviewed candidates always is (`PreparedTrainPassesGateIff`).
- `append_event` checks neither that the event id is new (`RepeatedEventBreaksLedger`), nor that time moves forward
  (`EarlierTimeSpoilsLedger`), nor that the encoded event has no line boundary such as U+2028
  (`LineSeparatorSpoilsLedger`), nor that the file ends in a newline (`UnterminatedFileSpoilsLedger`). The result is a
  valid ledger exactly when the id is new, time does not move back, the event holds no line boundary and its line, with
  whatever stood there unterminated, still decodes to it (`AppendKeepsLedgerIff`); of a terminated file the last
  condition is always true, and of a file that ends in an open event it never is (`AppendByTermination`).
- Decisions appear in run order, but an older decision can cover a newer run's pending status
  (`OlderDecisionCanCoverNewerPending`). That happens exactly when some newer run has posted its pending status and not
  decided (`CoversNewerIff`). The merge gate stays shut then: it is ready exactly when the newest run has ended green
  with a success (`ReadyIffNewestSucceeded`).
- Reviews without ids are ordered by their position in the listing (`PositionDecidesWithoutIds`). The latest review of an
  actor is the same in every listing exactly when it outranks the actor's other reviews: those at the latest time are one
  and the same, or all carry integer ids and the greatest belongs to one of them (`LatestAnywayIffTop`, which also covers
  negative ids and repeated records). Which reviews can be the latest of their actor in some listing is
  `LatestSomewhereIff`, and no listing is vetoed exactly when none of those requests changes (`NeverVetoedIff`).
- `parse_date` accepts a plus sign in place of a leading zero (`PlusSignDate`). Which texts are accepted is
  `ParsesIffSpelled`; a date has one accepted spelling exactly when no field starts with a zero (`OneSpellingIff`), and
  the duplicate check on date text allows one point per calendar day exactly when no day of the window has such a date
  (`OnePointPerDayIff`).
- Revoking the Algolia secret reference does not stop a consumer (`RevokedSecretStillConsumes`). In every run it changes
  nothing but reads and its own state (`RevokedSecretDoesNotFence`), and no later read of the run succeeds
  (`RevokedSecretStopsReads`): a secret reference can be restored, but the provider exposes no call that does.
- Reading Adyen evidence back fails when link and session disagree on the status (`DisagreeingStatusesFailReadBack`), and
  only then (`ReadBackIffStatusesAgree`).
- A record limit of zero returns one record (`ZeroLimitReadsOne`). A reading stays within its limit exactly when the limit
  is not zero or no page of the chain holds a record (`WithinLimitIff`).
- A revision beyond a signed 64-bit integer compiles and drops out of the proposal (`LargeRevisionCompiles`,
  `RevisionIsDropped`); the identity is complete exactly otherwise (`IdentityIsCompleteIff`).

## Model

| member | source | states |
|---|---|---|
| Trees.ChangedPaths | scripts/repository_governance.py:751-760 | exactly the paths at which two trees differ |
| Trees.MergeTrees | scripts/ci-merge-train.py:627-649 | conflicts exactly when both sides changed a path differently; otherwise the changed side wins at every path |
| Trees.OverlayStep | scripts/ci-merge-train.py:627-649 | one more merge keeps the overlay at a path exactly when its merge base agrees with the train base there |
| Trees.MergedEntryAlternatives | scripts/ci-merge-train.py:672-691 | whatever the merge bases, a path of a clean train holds the base entry or the overlay entry |
| Trees.OverlayPrefix | scripts/ci-merge-train.py:672-691 | a wrong entry is never repaired by a later merge |
| Trees.MergedEntryIsOverlayIff | scripts/ci-merge-train.py:672-691 | per path: the clean fold of merges is the overlay if and only if the merge bases are neutral there |
| Trees.NeutralMergesAreClean | scripts/ci-merge-train.py:627-649 | path-disjoint heads over neutral merge bases never conflict |
| Trees.MergeAllIsOverlayIff | scripts/ci-merge-train.py:672-691 | path-disjoint heads merge cleanly to the base overlaid with every change if and only if the merge bases are neutral |
| Trees.OverlayOrderIndependent | scripts/ci-merge-train.py:417-440 | the overlay does not depend on the order of the heads |
| TrainChain.TrainReaches | scripts/ci-merge-train.py:463-480 | a train contains exactly the old commits contained in its base or in one of its heads |
| TrainChain.TrainMergeBases | scripts/ci-merge-train.py:627-649 | the merge bases of a train and the next head can be told from the store before the train |
| TrainChain.IndependentBases | scripts/ci-merge-train.py:442-461 | for heads that share nothing beyond the base, every merge base is the base |
| TrainChain.NextMerge | scripts/ci-merge-train.py:463-480 | merging the next head onto a fresh train carries exactly the tree of the longer train |
| TrainChain.AppendedTrain | scripts/ci-merge-train.py:463-480 | a two-parent commit on a fresh train is a fresh train over one more head |
| MergeTrain.PreparableIsRooted | scripts/repository_governance.py:751-760 | reviewed candidates all descend from the base, so no merge joins unrelated histories |
| MergeTrain.EveryMergeIsReal | scripts/ci-merge-train.py:429-477 | after the containment and stacking checks no head is contained in the train before it, so every merge makes a commit |
| MergeTrain.EndsTrainSnoc | scripts/ci-merge-train.py:652-669 | a commit ends a train exactly when it merges the last head onto a commit that ends the shorter train |
| MergeTrain.CheckReview | scripts/ci-merge-train.py:417-440 | one round of the review loop: grows the owned paths, or the candidates do not pass the reviews |
| MergeTrain.CheckReviews | scripts/ci-merge-train.py:417-440 | succeeds exactly when every candidate is reviewed and no two attested path sets meet |
| MergeTrain.CheckUnstacked | scripts/ci-merge-train.py:442-461 | succeeds exactly when no candidate is an ancestor of another |
| MergeTrain.Worktree.MergeNoFastForward | scripts/ci-merge-train.py:463-480 | the three outcomes of a merge: already contained, conflict with nothing changed, or a new two-parent commit |
| MergeTrain.Worktree.MergeCandidates | scripts/ci-merge-train.py:463-480 | succeeds exactly when the train tree exists, and then the branch is a fresh train carrying that tree; a conflict leaves it at the train before the first merge that conflicts |
| MergeTrain.Worktree.CheckCandidates | scripts/ci-merge-train.py:400-461 | succeeds exactly on a train branch, with no train open, for candidates that meet every condition of `prepare` |
| MergeTrain.Worktree.CommitManifest | scripts/ci-merge-train.py:482-502 | adds one single-parent commit that changes the manifest path, unless the manifest is already there |
| MergeTrain.Worktree.Prepare | scripts/ci-merge-train.py:400-502 | success leaves a prepared train; refusals change nothing; a conflict is reported only when the train tree does not exist |
| MergeTrain.Worktree.VerifyExactHistory | scripts/ci-merge-train.py:652-669 | accepts exactly the single-parent commits on top of the chain base, merge of head 1, ..., merge of head n |
| MergeTrain.Worktree.VerifyExactTree | scripts/ci-merge-train.py:672-691 | accepts exactly the trees that differ from the rebuilt train at the manifest path and nowhere else |
| TrainTheorems.TrainTreeStable | scripts/ci-merge-train.py:672-691 | the rebuilt train is the same in every later state of the repository |
| TrainTheorems.PreparedTrainIsAccepted | scripts/ci-merge-train.py:652-691 | both verifiers accept every train that `prepare` builds |
| TrainTheorems.AcceptedEntryIsOverlayIff | scripts/ci-merge-train.py:672-691 | off the manifest path an accepted head of path-disjoint candidates is the overlay exactly where the merge bases are neutral |
| TrainTheorems.IndependentTrainIsOverlay | scripts/ci-merge-train.py:417-480 | independent path-disjoint candidates never conflict and give the base overlaid with every change |
| TrainTheorems.TrainOrderIndependent | scripts/ci-merge-train.py:417-480 | their train has the same tree in every candidate order |
| TrainTheorems.WholeDiff | scripts/repository_governance.py:1112-1143 | a reviewed head changes exactly its attested paths and, for a receipt review, its own receipt |
| TrainTheorems.WholeDiffsDisjointIff | scripts/ci-merge-train.py:417-440 | passing the overlap check makes whole diffs disjoint if and only if no candidate changes another one's receipt |
| TrainTheorems.PreparedOverlayIff | scripts/ci-merge-train.py:400-480 | candidates that pass `prepare` and keep to their receipts merge to the base overlaid with every change if and only if the merge bases are neutral |
| TrainTheorems.IndependentPreparation | scripts/ci-merge-train.py:400-480 | candidates that pass `prepare`, share no commit and keep to their receipts always merge cleanly |
| TrainTheorems.PreparedTrainIsOverlay | scripts/ci-merge-train.py:400-502 | what `prepare` builds of them is, off the manifest path, the base overlaid with every change |
| TrainTheorems.SharedCommitLosesChange | scripts/ci-merge-train.py:442-480 | concrete candidates that pass every check and lose a file without a conflict |
| TrainTheorems.ForeignReceiptConflicts | scripts/ci-merge-train.py:417-440 | concrete independent candidates that pass every check and conflict on a receipt |
| AttestedReviews.CheckAttestedReview | scripts/ci-merge-train.py:823-882 | one round of the second look: the reviews so far, with this one, are unchanged and own no path in common, or the reviews do not all hold |
| AttestedReviews.VerifyAttestedReviews | scripts/ci-merge-train.py:823-882 | succeeds exactly when every attested review is found again unchanged and no two of them own a path |
| AttestedReviews.ReviewStable | scripts/repository_governance.py:1112-1143 | later commits change neither the review commit found nor the review of a candidate |
| AttestedReviews.AttestedReviewHoldsIff | scripts/ci-merge-train.py:305-354 | a review attested earlier still holds if and only if the candidate is receipt-reviewed or GitHub still shows it ready with the same base, head and standing review |
| AttestedReviews.AttestedReviewsHoldIff | scripts/ci-merge-train.py:823-882 | for candidates that may be prepared the second look succeeds if and only if every ordinary one is still ready |
| BootstrapGate.DiscoverManifest | scripts/ci-merge-train.py:799-820 | a manifest is found exactly when it is valid, the last commit changes only the path it is named after, and it stands there |
| BootstrapGate.VerifyTrainPush | scripts/ci-merge-train.py:885-958 | train mode accepts exactly what the gate's conditions allow |
| BootstrapGate.VerifyPush | scripts/ci-merge-train.py:885-958 | accepts a push, in the mode it reports, exactly under the gate's conditions; commits are only added |
| BootstrapGate.AcceptedHeadContainsPrior | scripts/ci-merge-train.py:885-958 | in either mode the merged head contains the prior protected head, although train mode never asks git |
| BootstrapGate.AcceptedPushAdvances | scripts/ci-merge-train.py:885-958 | an accepted push merges a head that contains the prior head, and carries that head's tree |
| BootstrapGate.RunDescends | scripts/ci-merge-train.py:885-958 | first-parent history of a later head passes through every earlier protected head, at the right distance |
| BootstrapGate.RunKeepsHistory | scripts/ci-merge-train.py:885-958 | over every run of accepted pushes: history in order, every merged head kept, every protected tree that of its pull request |
| TrainDelivery.PreparedTrainAddsManifest | scripts/ci-merge-train.py:482-502 | the last commit of a prepared train changes the manifest path and nothing else |
| TrainDelivery.PreparedManifestIsValid | scripts/ci-merge-train.py:138-216 | candidates that may be prepared make a valid manifest |
| TrainDelivery.PreparedTrainPassesGateIff | scripts/ci-merge-train.py:885-958 | merged onto its base with its tree, a train that `prepare` built is accepted, in train mode with that manifest and in no other mode, if and only if every ordinary candidate is still ready at the time of the push |
| TrainDelivery.ClosedCandidateStopsTrain | scripts/ci-merge-train.py:823-882 | a concrete train, pushed as built, that is refused once its ordinary candidate is no longer ready and accepted while it is |
| AdmissionFence.MaxId | scripts/repository_governance.py:985-1024 | the largest listed run id |
| AdmissionFence.AdmissionRunOrder | scripts/repository_governance.py:985-1024 | accepts exactly, for a head of forty lower-case hex digits, a whole page of that head that lists the run; current exactly when no listed run is newer; the older active runs are exactly the listed older ones not completed |
| AdmissionFence.AcceptedListingIsComplete | scripts/repository_governance.py:985-1024 | the page bound makes an accepted listing speak about every run there is |
| AdmissionFence.OnlyNewerRunsPost | scripts/repository_governance.py:985-1024 | a run that can still post is newer than every run whose decision is out |
| AdmissionFence.FenceKeepsOrder | scripts/repository_governance.py:985-1024 | passing or failing a fence keeps the order of runs and posts |
| AdmissionFence.PublishKeepsOrder | scripts/ci-workflow-policy.py:987-1018 | publishing a decision keeps it |
| AdmissionFence.PendingKeepsOrder | scripts/ci-workflow-policy.py:987-1018 | posting a pending status keeps it, even though it is not fenced against older runs |
| AdmissionFence.StepKeepsStatuses | scripts/ci-workflow-policy.py:987-1018 | after every step the runs with a status are exactly those that posted a pending one |
| AdmissionFence.StepPreservesInv | scripts/ci-workflow-policy.py:987-1018 | every step of every run keeps it |
| AdmissionFence.ExecutionKeepsInv | scripts/ci-workflow-policy.py:987-1018 | it holds in every state of every interleaving |
| AdmissionFence.DecisionsInRunOrder | scripts/ci-workflow-policy.py:987-1018 | in every interleaving whatever is posted after a decision belongs to a newer run |
| AdmissionFence.ReadyIffNewestSucceeded | scripts/repository_governance.py:979-982 | in every reachable state the merge gate is ready if and only if the newest run ended green with a success, and then every run has ended |
| AdmissionFence.CoversNewerIff | scripts/ci-workflow-policy.py:987-1018 | in every interleaving a post covers a newer run's status if and only if some newer run has posted pending and not decided, and it covers pending statuses only |
| AdmissionFence.OlderDecisionCanCoverNewerPending | scripts/ci-workflow-policy.py:987-1018 | a concrete interleaving in which an older success lands on a newer pending status, with the gate shut, for every head |
| LineText.SplitAtBoundary | scripts/repository_governance.py:471-508 | text behind a line boundary is split on its own |
| LineText.SplitOneLine | scripts/repository_governance.py:471-508 | an unbroken line, with or without its newline, is one line |
| GovernanceLedger.ValidChainSnoc | scripts/repository_governance.py:471-508 | one more event keeps the chain valid exactly when it is sealed, linked to the last digest, new and not earlier |
| GovernanceLedger.CheckNext | scripts/repository_governance.py:471-508 | the check on the next event passes exactly under those conditions, told from the loop's own variables |
| GovernanceLedger.ParseLedger | scripts/repository_governance.py:471-508 | returns the events of the text when they form a valid non-empty chain, and fails only when none do |
| GovernanceLedger.VerifyAppendOnly | scripts/repository_governance.py:529-548 | accepts exactly two valid ledgers of which the second equals the first or extends it behind a newline |
| GovernanceLedger.Seal | scripts/repository_governance.py:561-575 | fills in missing schema, id and time; succeeds exactly on a valid event and digest; keeps the event and links it; a hexadecimal digest makes it sealed |
| GovernanceLedger.LedgerFile.AppendEvent | scripts/repository_governance.py:578-586 | adds one encoded line sealed onto the last digest, or fails and leaves the file alone |
| LedgerTheorems.AcceptedUpdateKeepsEvents | scripts/repository_governance.py:529-548 | an accepted update keeps every event of the ledger it starts from |
| LedgerTheorems.UpdatesKeepEvents | scripts/repository_governance.py:529-548 | along any run of accepted updates every earlier ledger is a prefix of every later one |
| LedgerTheorems.DigestFixesLedger | scripts/repository_governance.py:471-508 | two valid ledgers with the same last digest are equal if and only if they do not hold, at one place counted from the end, two different events with one digest or an event with the zero digest |
| LedgerTheorems.CollisionIsReal | scripts/repository_governance.py:471-508 | the two events pointed out are two different inputs of the digest with one result |
| LedgerTheorems.LinesAfterAppend | scripts/repository_governance.py:578-586 | which lines a ledger has after text is written behind it, terminated or not |
| LedgerTheorems.AppendKeepsLedgerIff | scripts/repository_governance.py:578-586 | appending leaves a valid ledger if and only if the id is new, time does not move back and the event stays on a line of its own |
| LedgerTheorems.AppendByTermination | scripts/repository_governance.py:578-586 | behind a newline the new id, the time and an unbroken line decide; behind an open event appending always leaves no ledger |
| LedgerTheorems.RepeatedEventBreaksLedger | scripts/repository_governance.py:578-586 | appending any event of a ledger again makes it unreadable |
| LedgerSamples.SampleIsFaithful | scripts/repository_governance.py:578-586 | a digest and a codec that meet everything taken for granted |
| LedgerSamples.AppendSecond | scripts/repository_governance.py:578-586 | for these, appending a valid new event succeeds exactly when it is not earlier, holds no line boundary and the file is terminated |
| LedgerSamples.EarlierTimeSpoilsLedger | scripts/repository_governance.py:578-586 | a concrete earlier event that leaves no ledger |
| LedgerSamples.LineSeparatorSpoilsLedger | scripts/repository_governance.py:578-586 | a concrete event with U+2028 that leaves no ledger |
| LedgerSamples.UnterminatedFileSpoilsLedger | scripts/repository_governance.py:578-586 | a concrete file without its last newline that appending spoils |
| LedgerTheorems.GlobalStateIsLatestTransition | scripts/repository_governance.py:551-558 | paused exactly when the latest pause or resume is a pause, undecided exactly without one |
| GithubReviews.LatestSnoc | scripts/repository_governance.py:697-744 | one more record turns the latest reviews so far into the latest reviews including it |
| GithubReviews.LatestByActor | scripts/repository_governance.py:697-744 | the fold finds, for exactly the actors with a review of the head and in the order of their first appearance, the review greatest by time, id and position |
| GithubReviews.ValidateReviews | scripts/repository_governance.py:697-744 | refuses exactly when some latest review requests changes; accepts exactly when none does and some latest one is an independent approval, and reports the one of the actor who appeared first |
| GithubReviews.LatestIsUnique | scripts/repository_governance.py:697-744 | an actor has one latest review |
| GithubReviews.VerdictIgnoresOrderAndOtherCommits | scripts/repository_governance.py:697-744 | with logins and distinct ids the verdict depends only on which reviews of the head there are |
| GithubReviews.PositionDecidesWithoutIds | scripts/repository_governance.py:697-744 | without ids, swapping two records turns a veto into none |
| ReviewStability.TopIsLatest | scripts/repository_governance.py:697-744 | a review that outranks the others of its actor is the latest one in every rearrangement with any padding |
| ReviewStability.LatestAnywayIsTop | scripts/repository_governance.py:697-744 | a review that is the latest one in every rearrangement outranks the others |
| ReviewStability.LatestAnywayIffTop | scripts/repository_governance.py:697-744 | both directions, for all listings whose reviews name their actors |
| ReviewStability.DecidedVerdict | scripts/repository_governance.py:697-744 | when every actor has such a review, the verdict is the same in every rearrangement |
| ReviewChoices.PlacesFit | scripts/repository_governance.py:697-744 | reviews that all stand at position k or before number at most k + 1 |
| ReviewChoices.LatestCanBeLatest | scripts/repository_governance.py:697-744 | in every rearrangement the latest review of an actor is neither earlier nor of a smaller id than another one, and those that count as their position fit below its id |
| ReviewChoices.LatestSomewhereIff | scripts/repository_governance.py:697-744 | some rearrangement makes a review the latest of its actor if and only if no other is later or of a greater id at the same time and those without an integer id fit into the positions up to its id |
| ReviewChoices.NeverVetoedIff | scripts/repository_governance.py:697-744 | no rearrangement is vetoed if and only if no review that can be the latest of its actor requests changes |
| ReviewChoices.SometimesApprovedIff | scripts/repository_governance.py:697-744 | some rearrangement has an independent approval if and only if some review that can be the latest of its actor is one |
| CivilCalendar.DaysFromCivilIs | hartevo-rs/algolia-search-result-plugin/src/model.rs:1532-1540 | the era formula with truncating division equals the closed form with flooring division, in every year |
| CivilCalendar.MarchYear | hartevo-rs/algolia-search-result-plugin/src/model.rs:1532-1540 | years counted from March have 366 days exactly when they end in a leap February |
| CivilCalendar.NextDayIsOneMore | hartevo-rs/algolia-search-result-plugin/src/model.rs:1532-1540 | the next calendar day has the next number, in every year |
| CivilCalendar.DifferencesCountDays | hartevo-rs/algolia-search-result-plugin/src/model.rs:1532-1540 | differences count the days of the years and months between |
| CivilCalendar.EarlierIsSmaller | hartevo-rs/algolia-search-result-plugin/src/model.rs:1532-1540 | day numbers are strictly monotone and injective |
| AnalyticsDates.ParseDate | hartevo-rs/algolia-search-result-plugin/src/model.rs:1507-1529 | what parses is a real date of the years 1 to 9999 |
| AnalyticsDates.ParsesIffSpelled | hartevo-rs/algolia-search-result-plugin/src/model.rs:1507-1529 | exactly which texts parse to a date: hyphens in place and every field in digits or in one digit fewer behind a plus sign |
| AnalyticsDates.PlusSignDate | hartevo-rs/algolia-search-result-plugin/src/model.rs:1507-1529 | 2024-01-05 and 2024-01-+5 are the same date |
| AnalyticsDates.NewWindow | hartevo-rs/algolia-search-result-plugin/src/model.rs:235-254 | succeeds exactly on two dates at most thirty days apart, in order, with a positive revision, and keeps them |
| AnalyticsDates.InclusiveDays | hartevo-rs/algolia-search-result-plugin/src/model.rs:270-276 | is the number of days, between 1 and 31, with nothing lost in the cast |
| AnalyticsDates.PlainDatesInOrder | hartevo-rs/algolia-search-result-plugin/src/model.rs:1507-1540 | for plain digits, text order is calendar order and equal text is the equal date |
| AnalyticsDates.PlainParses | hartevo-rs/algolia-search-result-plugin/src/model.rs:1507-1529 | writing a date in plain digits and parsing it gives the date back |
| AnalyticsDates.OneSpellingIff | hartevo-rs/algolia-search-result-plugin/src/model.rs:1507-1529 | a date has one accepted text if and only if no field starts with a zero |
| DailyNormalization.NormalizeDay | hartevo-rs/algolia-search-result-plugin/src/model.rs:1200-1240 | succeeds exactly inside the window with checked counts; keeps date and rate and reads the counts of the metric |
| DailyNormalization.InsertByDate | hartevo-rs/algolia-search-result-plugin/src/model.rs:1147-1198 | inserting into a sorted list keeps it sorted and keeps every point |
| DailyNormalization.SortByDate | hartevo-rs/algolia-search-result-plugin/src/model.rs:1147-1198 | sorted, and a permutation of the points |
| DailyNormalization.HasTwins | hartevo-rs/algolia-search-result-plugin/src/model.rs:1147-1198 | comparing neighbours decides whether any date occurs twice |
| DailyNormalization.NormalizeDays | hartevo-rs/algolia-search-result-plugin/src/model.rs:1147-1198 | succeeds exactly when every day normalises and no date is given twice; the result is the strictly sorted normal form; otherwise the error is the first failing day's |
| DailyNormalization.Normalize | hartevo-rs/algolia-search-result-plugin/src/model.rs:1147-1198 | the same with the totals, which are checked separately |
| DailyNormalization.NormalFormIsUnique | hartevo-rs/algolia-search-result-plugin/src/model.rs:1147-1198 | strictly sorted lists with the same points are equal |
| DailyNormalization.NormalizationIgnoresOrder | hartevo-rs/algolia-search-result-plugin/src/model.rs:1147-1198 | every permutation of the days succeeds alike and gives the same points |
| DailyNormalization.PlainNormalForm | hartevo-rs/algolia-search-result-plugin/src/model.rs:1147-1240 | plainly written dates come out in calendar order, inside the window, at most as many as it has days |
| DailyNormalization.OnePointPerDayIff | hartevo-rs/algolia-search-result-plugin/src/model.rs:1147-1240 | no two points share a calendar day if and only if no date of the window has a leading zero |
| SearchRegistration.AlgoliaRegistration.Bind | hartevo-rs/algolia-search-result-plugin/src/model.rs:1576-1620 | a new registration is active at revision 1, binds the secret by its digest and has the digest of that state |
| SearchRegistration.AlgoliaRegistration.Revoke | hartevo-rs/algolia-search-result-plugin/src/model.rs:1651-1676 | refines the revocation step; a failure changes nothing |
| SearchRegistration.AlgoliaRegistration.Restore | hartevo-rs/algolia-search-result-plugin/src/model.rs:1678-1694 | refines the restoration step; a failure changes nothing |
| SearchRegistration.SecretReference.Revoke | hartevo-rs/algolia-search-result-plugin/src/model.rs:514-521 | revokes once |
| SearchRegistration.SecretReference.Restore | hartevo-rs/algolia-search-result-plugin/src/model.rs:523-530 | undoes a revocation, and fails when there is none |
| SearchRegistration.AnalyticsProvider.EnsureReady | hartevo-rs/algolia-search-result-plugin/src/provider.rs:727-744 | ready exactly when the registration validates, the secret is not revoked and the permission is there |
| SearchRegistration.MissionConsumer.Consume | hartevo-rs/algolia-search-result-plugin/src/consumer.rs:132-167 | refines the consumption step; a refused proposal changes nothing |
| SearchRegistration.MissionConsumer.Revoke | hartevo-rs/algolia-search-result-plugin/src/consumer.rs:169-173 | refines the consumer's revocation |
| SearchRegistration.MissionConsumer.Restore | hartevo-rs/algolia-search-result-plugin/src/consumer.rs:175-181 | refines the consumer's restoration |
| RegistrationRuns.RunIsCoherent | hartevo-rs/algolia-search-result-plugin/src/model.rs:1576-1694 | over every run from a bound registration it is active exactly at odd revisions and its digest is current |
| RegistrationRuns.ReachedIffCoherent | hartevo-rs/algolia-search-result-plugin/src/model.rs:1576-1694 | the registrations that runs from `bind` reach are exactly those with such a revision, state and digest |
| RegistrationRuns.RevisionCountsChanges | hartevo-rs/algolia-search-result-plugin/src/model.rs:1651-1694 | the revision counts the successful revocations and restorations, and without one the registration stays as it is |
| RegistrationRuns.PreimagesNeverRepeat | hartevo-rs/algolia-search-result-plugin/src/model.rs:1651-1694 | two states of a run from a bound registration hash the same preimage if and only if no change lies between them |
| RegistrationRuns.ChangedRegistrationFencesConsumer | hartevo-rs/algolia-search-result-plugin/src/consumer.rs:132-190 | once the registration is revoked or restored, a consumer built before accepts only if the registration it pinned and the later one in force hash alike |
| RegistrationRuns.NoProposalTwice | hartevo-rs/algolia-search-result-plugin/src/consumer.rs:132-167 | in no run is one proposal digest consumed twice |
| RegistrationRuns.RevokedSecretDoesNotFence | hartevo-rs/algolia-search-result-plugin/src/service.rs:233-253 | two runs that differ in whether the secret is revoked stay the same but for that, and every call that does not read succeeds in both or in neither |
| RegistrationRuns.RevokedSecretStopsReads | hartevo-rs/algolia-search-result-plugin/src/provider.rs:727-744 | after the secret is revoked no provider read succeeds in any run |
| RegistrationRuns.RevokedSecretStillConsumes | hartevo-rs/algolia-search-result-plugin/src/service.rs:233-253 | a concrete consumer that cannot read and still consumes |
| DigestPreimage.BigEndianValue | hartevo-rs/adyen-payment-result-plugin/src/model.rs:75-78 | reading back a big-endian number that fits gives the number |
| DigestPreimage.FromParts | hartevo-rs/adyen-payment-result-plugin/src/model.rs:27-35 | the buffer filled in the loop is the encoding of domain, names and values in order |
| DigestPreimage.DecodeEncode | hartevo-rs/adyen-payment-result-plugin/src/model.rs:27-35 | a decoder of length-prefixed texts recovers every text |
| DigestPreimage.PreimageIsInjective | hartevo-rs/adyen-payment-result-plugin/src/model.rs:27-35 | equal preimages come from the same domain and fields |
| PaymentProvider.FromApi | hartevo-rs/adyen-payment-result-plugin/src/model.rs:1149-1272 | accepts exactly a well-formed record of the payment of the scope, and keeps its status, instrument and times |
| PaymentProvider.AdyenPaymentsProvider.EnsureIdentity | hartevo-rs/adyen-payment-result-plugin/src/provider.rs:326-356 | passes exactly on the first or the same identity, and says what it writes either way |
| PaymentProvider.AdyenPaymentsProvider.EnsureStatusTransition | hartevo-rs/adyen-payment-result-plugin/src/provider.rs:358-371 | refines the transition rule, and says what it writes either way |
| PaymentProvider.AdyenPaymentsProvider.Read | hartevo-rs/adyen-payment-result-plugin/src/provider.rs:283-316 | refines one fenced read: state, memory and outcome |
| PaymentProvider.AdyenPaymentsProvider.ReadPaymentEvidence | hartevo-rs/adyen-payment-result-plugin/src/provider.rs:188-219 | refines a link read followed by a session read |
| PaymentProvider.AdyenPaymentsProvider.ReadBackAndVerify | hartevo-rs/adyen-payment-result-plugin/src/provider.rs:263-270 | refines the second reading and its comparison |
| PaymentProvider.AdyenPaymentsProvider.RevokeRegistration | hartevo-rs/adyen-payment-result-plugin/src/provider.rs:272-277 | refines revocation, with saturating revisions |
| PaymentRuns.CallKeepsOrder | hartevo-rs/adyen-payment-result-plugin/src/provider.rs:283-371 | every call, failed or not, keeps the accepted statuses in order |
| PaymentRuns.AcceptedStatusesInOrder | hartevo-rs/adyen-payment-result-plugin/src/provider.rs:358-371 | over every run the accepted statuses are received, then pending, then one terminal or unknown status for ever |
| PaymentRuns.NothingSucceedsAfterRevoke | hartevo-rs/adyen-payment-result-plugin/src/provider.rs:221-277 | after a successful revocation no read, receipt, proposal, verification or revocation ever succeeds |
| PaymentRuns.RunSeesScope | hartevo-rs/adyen-payment-result-plugin/src/provider.rs:326-356 | over every run the payment seen is the one of the scope |
| PaymentRuns.ReplacementIsUnreachable | hartevo-rs/adyen-payment-result-plugin/src/provider.rs:188-219 | with one scope no run ever reports a replaced payment |
| PaymentRuns.EvidenceDescribesHost | hartevo-rs/adyen-payment-result-plugin/src/provider.rs:188-219 | evidence carries the session's status and the link's instrument, and the link is never ahead of the session |
| PaymentRuns.ReadBackIffStatusesAgree | hartevo-rs/adyen-payment-result-plugin/src/model.rs:1649-1674 | over an unchanged host the read-back returns the same evidence if and only if link and session agree on the status, else a status regression |
| PaymentRuns.DisagreeingStatusesFailReadBack | hartevo-rs/adyen-payment-result-plugin/src/provider.rs:263-270 | a pending link over an authorised session: read once, refused when read back |
| RecordPages.RecordingProvider.SetPage | hartevo-rs/airtable-ops-plugin/src/provider.rs:132-147 | stores a page exactly when all its records are in scope |
| RecordPages.RecordingProvider.ListRecords | hartevo-rs/airtable-ops-plugin/src/provider.rs:235-261 | refuses a foreign scope and a large page without a trace; else logs the request and answers with the first queued error or from the page map |
| RecordPages.TakePage | hartevo-rs/airtable-ops-plugin/src/service.rs:159-232 | taking one page cuts at the limit and refuses a foreign record exactly when one comes before the cut |
| RecordPages.ReadPage | hartevo-rs/airtable-ops-plugin/src/service.rs:159-232 | one round either finishes the reading, goes on one page further with a new offset, or fails when nothing can be read |
| RecordPages.ReadRecords | hartevo-rs/airtable-ops-plugin/src/service.rs:159-232 | ends within one request per page and one more; succeeds, when nothing is queued, exactly on a readable chain; the receipt counts pages, records and offsets |
| RecordPages.StopIsUnique | hartevo-rs/airtable-ops-plugin/src/service.rs:159-232 | a reading can stop with one page only |
| RecordPages.ReadingCutsWholeChain | hartevo-rs/airtable-ops-plugin/src/service.rs:186-206 | what is read is the whole chain or its first records up to the limit, at least one, all in scope |
| RecordPages.WithinLimitIff | hartevo-rs/airtable-ops-plugin/src/service.rs:186-206 | a reading stays within its limit if and only if the limit is not zero or no page of the chain holds a record |
| RecordPages.ZeroLimitReadsOne | hartevo-rs/airtable-ops-plugin/src/service.rs:186-206 | a limit of zero and a page of one record: the record is read |
| RecordProposals.FindField | hartevo-rs/airtable-ops-plugin/src/model.rs:412-416 | finds a definition with the id exactly when there is one |
| RecordProposals.ValidateAllowlist | hartevo-rs/airtable-ops-plugin/src/model.rs:520-562 | accepts exactly the allowlists that bind writable fields of the schema under distinct names |
| RecordProposals.TargetsAreDistinct | hartevo-rs/airtable-ops-plugin/src/model.rs:520-562 | unique names already force distinct field ids |
| RecordProposals.ProposeFields | hartevo-rs/airtable-ops-plugin/src/service.rs:73-140 | succeeds exactly when every value fits its field; proposes, in order, exactly the allowed fields that have a value |
| RecordProposals.CompileProposal | hartevo-rs/airtable-ops-plugin/src/service.rs:73-140 | succeeds exactly on a valid allowlist with the identity fields and fitting values |
| RecordProposals.RequireIdentity | hartevo-rs/airtable-ops-plugin/src/service.rs:395-425 | accepts exactly allowlists with every required identity field |
| RecordProposals.TargetIsWritable | hartevo-rs/airtable-ops-plugin/src/service.rs:73-140 | every field of a compiled proposal is a writable, current field of the schema that accepts its value |
| RecordProposals.ProposalTargets | hartevo-rs/airtable-ops-plugin/src/service.rs:73-140 | no two fields of a compiled proposal write to the same field |
| RecordProposals.IdentityIsCompleteIff | hartevo-rs/airtable-ops-plugin/src/service.rs:428-461 | every required identity field is proposed if and only if the revision fits a signed 64-bit integer |
| RecordProposals.RevisionIsDropped | hartevo-rs/airtable-ops-plugin/src/service.rs:428-461 | a revision beyond the signed range is never proposed |
| RecordProposals.LargeRevisionCompiles | hartevo-rs/airtable-ops-plugin/src/service.rs:73-140 | a concrete output of revision 2^63 that compiles |
| RecordProposals.IdentityRoundTripIff | hartevo-rs/airtable-ops-plugin/src/service.rs:395-461 | kind, ids, revision, fingerprint and key can be read back from a proposal if and only if the revision fits, and otherwise nothing can |
| RecordProposals.Partition | hartevo-rs/airtable-ops-plugin/src/model.rs:1072-1090 | batches concatenate back to the input, all but the last are ten long and none is empty |
| RecordProposals.BatchCount | hartevo-rs/airtable-ops-plugin/src/model.rs:1072-1090 | there are as many batches as proposals over ten, rounded up |
| ImageDimensions.AfterFill | scripts/run-live-model-journeys.py:94-117 | stops at the first byte that is no fill byte |
| ImageDimensions.ScanMarker | scripts/run-live-model-journeys.py:94-117 | one round of the scan decides the size or moves on to bytes with the same outcome |
| ImageDimensions.FindDimensions | scripts/run-live-model-journeys.py:94-117 | ends within bounds on every input and returns what the recursive scan of the segments finds |
| ImageDimensions.JpegSizeIsFound | scripts/run-live-model-journeys.py:94-117 | for every list of length-carrying segments with any fill, then a frame header, the size is the one in that header |
| ImageDimensions.JpegFileSizeIsFound | scripts/run-live-model-journeys.py:94-117 | the same for whole files behind the start marker |
| ImageDimensions.PngSizeIsFound | scripts/run-live-model-journeys.py:94-117 | every PNG file with a header chunk has the width and height written there |
| ImageDimensions.FoundSizeIsInFrame | scripts/run-live-model-journeys.py:94-117 | a size is found only in bytes of that shape |
| ImageDimensions.SizeIffImage | scripts/run-live-model-journeys.py:94-117 | a size is found if and only if the file is a PNG or JPEG file of these shapes with that size |

## Left out

- Subprocesses of git and gh, HTTP, files and the environment: replaced by the commit list, listings, page maps and API records they would deliver.
- SHA-256, hexadecimal rendering and JSON: parameters.
- Shard planning for Rust tests (`scripts/ci-rust-test-shards.py`): list and set comparisons that would only add easy members.
- Rates of the Algolia model: a range check over reals or "not finite"; rounding is not modelled.
- Admission controller: repeated attempts of one run id, the polling deadline and outages; only safety is stated, no progress.
- High-risk path classes other than review receipts and train manifests.
- Direct mutable access to the Adyen registration (`registration_mut`): the provider's own calls only.
- Airtable read-back comparison, idempotency keys and content fingerprints: given as values.
- Mission lifecycle planning, snapshots, user interface and native launchers.
- Trees.MergeTrees: merges whole files; git also merges lines within a file changed on both sides and follows renames, so some conflicts here are none there, and the other way round: where one candidate adds a file to a directory that another one renames, git may move the file or conflict and this model merges cleanly.
- TrainTheorems.IndependentTrainIsOverlay: for git itself this takes for granted that no candidate renames a directory another one adds to.
- MergeTrain.Worktree.CheckCandidates: the metadata, required checks and admission of a pull request are the flags `ready` and `ordinary`, and its GitHub reviews the value `endorsement`, which `GithubReviews` computes.
- AttestedReviews.VerifyAttestedReviews: reads a pull request as those flags, too; digest, disposition and preflight of a receipt are one flag of its content.
- ReviewStability.DecidedVerdict: one direction only; which listings are all vetoed depends on how the reviews of several actors share positions.
- AdmissionFence.AdmissionRunOrder: the active older runs are a set, not the sorted list the source prints.
- SearchRegistration.MissionConsumer.Consume: the checks of a proposal's evidence are the flag `evidenceHolds`.
- RegistrationRuns.RevokedSecretStopsReads: what happens in a read behind the readiness check is the flag `answered`; the request budget is not modelled.
- PaymentProvider.UseEvidence: the shared fence of receipts, proposals and verification; the content checks behind it are not modelled.
- PaymentProvider.AdyenPaymentsProvider.ReadBackAndVerify: the evidence handed in is taken as a value; its own field checks are not modelled.
- PaymentProvider.FromApi: validity of identifiers, currency and amount is one flag of the record; which of several mismatches is reported is not stated.
