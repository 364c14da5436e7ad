# Verified models of the console, release and swarm code

This project models the parts of the repository whose behaviour depends on
state that many steps change, and proves what every step keeps. Each module
follows one component.

**Release protocol** (`ReleaseNames`, `Candidates`, `Release`,
`ReleaseTheorems`, `ReleaseWitness`, `ReleaseHost`). A release is absent, a draft
or public, and maps asset names to an id and bytes. A promotion creates the draft,
uploads the receipt first, then the other files, reads everything back and makes
the release public. A recovery only adds files; the trailing tier goes up in rank
order. Every command may stop after any remote write, and commands follow each
other in any order with any selection. `ReleaseHost.Host` is the imperative form
of the two commands. A recorded hash stands for the bytes it names (hashing is
injective); attestations, green runs and the flat-asset verification of recorded
bytes are facts of a `World`. `ReleaseWitness` holds real inputs for the refusals
and dead ends.

**Release assets** (`ReleaseAssets`). Normalising the tag, flattening archives into
a release directory, printing and parsing the checksums file, and the file-set
verification of one or several tiers.

**Identity log** (`Frames`, `Transcript`, `IdentityLog`, `ConsoleLog`). Frames
in arrival order, the key index and the lazily kept transcript view through
append, in-place update, trim and reset; the cursors used for paging.
`ConsoleLog.Store` is the imperative form.

**SSE parser** (`SseParser`, `SseRoundTrip`). The streaming parser as a class
with its buffer, and an encoder for the round trip. The code accepts only LF and
CRLF, trims field values and flushes an unterminated last block; the model
follows the code where section 9.2.6 of the WHATWG HTML Standard says otherwise.

**Send queue** (`SendAttempts`, `SendMerge`, `SendQueue`, `SendTabs`,
`SendWitness`). The life of a queued message, the three-way merge every save goes
through, the lock sections over one saved document, and any number of tabs running
them, among them tabs that import an older queue. `SendWitness` holds runs that do
what one would not expect.

**Render scheduler** (`RenderScheduler`) and **reconcile latch**
(`ReconcileLatch`): event-driven state machines with their imperative forms.

**Swarm** (`Circulant`, `SwarmGraph`, `BoundedPool`): the wrap-around peer graph
for any number of agents and any half-degree, and the bounded worker pool under
any schedule.

**Identity aliases** (`IdentityAliases`): the alias map against the roster scan.

`Strings` and `Wrappers` hold string order, trimming, `Option` and `Result`.

## What turned out different from what the code's comments or callers suggest

- The transcript comparator is not transitive: a frame whose cursor does not
  parse can sit between two frames of the same timestamp whose cursor order is
  against arrival order. A transcript exists if and only if no such wedge exists
  (`Transcript.TranscriptExistsIff`); "per timestamp all cursors parse or none
  do" is a sufficient condition (`Transcript.HomogeneousHasNoWedge`).
- `recomputeBusyStateFromLog` sorts the very array the log caches, with another
  comparator (console/src/ConsoleApp.tsx:1491-1498). The cached view stays right
  if and only if neighbouring frames are already in replay order
  (`IdentityLog.BusyResortHarmlessIff`); a later trim can then drop the last
  frame of the transcript and keep the first (`IdentityLog.BusyResortBreaksView`).
- The alias map and the scan can differ in two ways, not one: an agent whose
  first id is blank, and an agent with a label but no id at all
  (`IdentityAliases.MapEqualsScanIff` is the exact condition).
- Promotion binds archives and metadata by hash, bundles by attestation and the
  staged receipt by its JSON value, but compares all of them with the release byte
  by byte. A rerun goes through exactly when the staged bundles and receipt have
  the bytes already uploaded (`ReleaseTheorems.PublishAllowedIff`);
  `ReleaseWitness.OtherBytesAreRefused` gives a world, a selection and three valid
  stagings of which the other two are refused.
- There are two dead ends. A draft left empty by a stop between creation and receipt
  is reached (`ReleaseTheorems.EmptyDraftIsReached`) and refused by every later
  command (`ReleaseTheorems.EmptyDraftIsStuck`). And a partly added trailing tier is
  stuck once its candidate's artifacts have expired, if the manifest is not on the
  release yet or a target bundle is there without an archive: verification fails,
  and promotions and recoveries of both tiers are refused
  (`ReleaseTheorems.ExpiredPartIsStuck`; `ReleaseWitness.ExpiredPartialTier` reaches
  such a release). From every other non-empty release a promotion of its receipt
  can finish (`ReleaseTheorems.PromotionFinishesIff`). With no trailing file, or all
  of them, nothing needs to be retained (`ReleaseTheorems.PublicReleaseVerifiesIff`,
  `ReleaseTheorems.SettledReleaseVerifies`).
- `runBounded` with a concurrency of zero or less calls nothing and resolves
  (`BoundedPool.EveryRunFinishes` is an equivalence).
- A checksums file round-trips only for flat names without line breaks. Tag
  normalisation removes slashes but keeps backslashes and inner line ends, and
  with those flattening a complete set fails at its own verification
  (`ReleaseAssets.PrepareAssets` is an equivalence;
  `ReleaseAssets.BackslashTagFails` gives the tag `v1\0`).
- Every queue update lays the loaded rows over the tab's own copies, so a key that
  the stored row lacks keeps the tab's old value. Still, no lease, envelope, receipt
  or failure kind of a stale copy is ever stored, and an error line only by editing
  the text or contexts of a draft (`SendQueue.CommitStores` says of every stored row
  what it is). `SendWitness.DraftErrorIsStored` shows that case; the console itself
  writes error lines only on rows that have left the draft state for good.
- The overlay can also refuse work: a tab that still shows a settled row in flight
  cannot record an acceptance for it (`SendQueue.StaleViewBlocksIff` is the exact
  condition, `SendQueue.StaleLeaseBlocks` an input).
- Whether an older queue was imported is asked outside the lock, and each import
  makes new keys. If two imports overlap, any older message can be sent twice under
  two keys without a resend (`SendWitness.OverlappingImportsSendTwice`, for every
  such row; `SendWitness.ImportedTwice` is one). What holds of every run is at most
  one submission per key (`SendTabs.SubmittedAtMostOncePerKey`); per message it
  holds as long as no two imports overlap (`SendTabs.SubmittedAtMostOnce`).
- Canonicalising an identity twice can give another answer than once when agents
  share an alias (`IdentityAliases.SharedAliasIsNotIdempotent`);
  `IdentityAliases.CanonicalisationIsIdempotentIff` is the exact condition.

## Model

| member | source | states |
|---|---|---|
| `ReleaseNames.TierFilesByKind` | scripts/release-candidate.py:739-743 | the file set of a tier is exactly the names it owns, kind by kind: archives, bundles, metadata, receipt, manifest |
| `ReleaseNames.TiersAreDisjoint` | scripts/release-candidate.py:739-743 | no name belongs to both the core and the trailing tier |
| `ReleaseNames.NamesAreInjective` | scripts/verify-release-assets.py:77-95 | the printed names of two different release files never coincide, for every version |
| `ReleaseNames.RanksAgree` | scripts/release-candidate.py:1241-1252 | the upload rank computed from a printed name is the rank of the file it names |
| `Candidates.VerifyProofsIff` | scripts/release-candidate.py:895-911 | published proofs verify if and only if every file of the tier is present and genuine for an approved selection |
| `Candidates.CandidateIsGenuine` | scripts/release-candidate.py:751-796 | every staged file of a valid candidate is what its selection allows under that name |
| `Candidates.FlatIsSelected` | scripts/release-candidate.py:729-736 | whether genuine files verify as a flat set depends on the selection alone |
| `Candidates.PartialTrailingVerifiesIff` | scripts/release-candidate.py:923-986 | on every rank-closed part of one trailing candidate the check passes, reporting exactly the number of missing files, if and only if the candidate is retained or none of its artifacts is needed: no trailing file, or the manifest on the release and every target bundle with an archive |
| `Candidates.CompleteTrailingVerifies` | scripts/release-candidate.py:989-1000 | a complete trailing tier passes with nothing missing, and as a flat set, whatever has expired |
| `Candidates.AcceptedTrailingIsBound` | scripts/release-candidate.py:923-986 | conversely, whatever the trailing check accepts binds each archive and metadata file present to the manifest of the receipt on the release |
| `Release.UploadsSpec` | scripts/release-candidate.py:1109-1110 | after any number of uploads exactly the uploaded names are new, with the given bytes and fresh ids, and nothing else changed |
| `Release.PublishKeepsSafe` | scripts/release-candidate.py:1113-1155 | a promotion cut after any remote write keeps the release invariant and changes no existing asset |
| `Release.RecoverKeepsSafe` | scripts/release-candidate.py:1255-1297 | a recovery of either tier cut after any upload keeps the release invariant and changes no existing asset |
| `Release.TrailingUploadsKeepRank` | scripts/release-candidate.py:1241-1252 | every interrupted trailing addition is closed under upload rank |
| `Release.EveryHistoryIsSafe` | scripts/release-candidate.py:1068-1155 | over every sequence of cut promotions and recoveries: a non-empty release holds the receipt, every file of its tier is the one that receipt binds, a public release is complete, trailing files are one candidate's, closed under rank, on a public core release |
| `Release.HistoryIsAddOnly` | scripts/release-candidate.py:1091-1110 | from any point of any history on, no existing asset changes id or bytes and a public release stays public |
| `ReleaseTheorems.PublicReleaseVerifiesIff` | scripts/release-candidate.py:1003-1034 | a reachable public release passes the read-only verification, flat sets included, if and only if the trailing candidate is retained or none of its artifacts is needed |
| `ReleaseTheorems.SettledReleaseVerifies` | scripts/release-candidate.py:877-892 | with no trailing file or all of them it passes whatever has expired |
| `ReleaseTheorems.TrailingFilesAreGrounded` | scripts/release-candidate.py:1203-1238 | a trailing file exists only on a public release with the complete core set, both receipts name the same source, and receipt, manifest bundle, manifest, target bundle and (for index and checksums) all archives are there with it |
| `ReleaseTheorems.PublishAllowedIff` | scripts/release-candidate.py:1037-1088 | on a reachable release a valid staging is let through if and only if the receipt is this selection's, the staged bundles and the staged receipt have the bytes on the release, and the trailing candidate is retained or none of its artifacts is needed |
| `ReleaseTheorems.PublishConverges` | scripts/release-candidate.py:1095-1154 | rerun to its end from any state it may continue from, a promotion ends public with exactly the old files and the staged ones, and passes readback |
| `ReleaseTheorems.EmptyDraftIsReached` | scripts/release-candidate.py:1132-1142 | a first promotion cut right after creation leaves the empty draft |
| `ReleaseTheorems.EmptyDraftIsStuck` | scripts/release-candidate.py:1121-1142 | no command changes the empty draft |
| `ReleaseTheorems.PromotionFinishesIff` | scripts/release-candidate.py:1121-1154 | for every reachable release that is not empty there is a valid staging of its own receipt whose promotion is let through and ends published, if and only if the trailing candidate is retained or not needed; for every non-empty draft there always is |
| `ReleaseTheorems.ExpiredPartIsStuck` | scripts/release-candidate.py:1068-1297 | on every reachable release whose trailing candidate has expired while one of its artifacts is needed, no promotion and no recovery of either tier changes anything |
| `ReleaseWitness.OtherBytesAreRefused` | scripts/release-candidate.py:1037-1088 | a world, a selection and three valid stagings, the second with another attested bundle, the third with the receipt in another layout: after a run with the first is cut, both others are refused and the first can finish |
| `ReleaseWitness.CreationAloneIsADeadEnd` | scripts/release-candidate.py:1121-1142 | in that world the run cut after creation leaves a draft that no command changes |
| `ReleaseWitness.ExpiredPartialTier` | scripts/release-candidate.py:923-1034 | in that world a full promotion and a trailing recovery cut after one upload leave a public release that verifies while the trailing candidate is retained; with nothing retained it fails to verify and no command changes it |
| `ReleaseHost.InsertEntry` | scripts/release-candidate.py:1241-1252 | one insertion keeps the upload order sorted and adds exactly one entry |
| `ReleaseHost.SortNames` | scripts/release-candidate.py:1241-1252 | all names once each, sorted by rank (trailing tier) and then by printed name |
| `ReleaseHost.Host.UploadAll` | scripts/release-candidate.py:1109-1110 | the upload loop performs the specified prefix of uploads and stops when the run is cut |
| `ReleaseHost.Host.WriteAll` | scripts/release-candidate.py:1132-1154 | the writes of a promotion in order; it reaches its end exactly when there are enough of them, and then everything reads back |
| `ReleaseHost.Host.Publish` | scripts/release-candidate.py:1113-1155 | the imperative promotion is the specified run with a legal order; it is done if and only if it is let through and not cut, and then public and read back |
| `ReleaseHost.Host.Recover` | scripts/release-candidate.py:1255-1297 | the imperative recovery is the specified run, by rank for the trailing tier; it is done if and only if it is let through and not cut, and then old files and additions read back |
| `ReleaseAssets.ReadChecksums` | scripts/verify-release-assets.py:129-154 | parses line by line: the first bad line decides the error, otherwise the map of all entries |
| `ReleaseAssets.ChecksumRoundTrip` | scripts/verify-release-assets.py:129-154 | reading the printed form of any list of distinct clean names with digests gives back that map |
| `ReleaseAssets.ReadNamesAreClean` | scripts/verify-release-assets.py:129-154 | every name a checksums file can be read to is flat and free of line breaks |
| `ReleaseAssets.PreparedVerifiesIff` | scripts/verify-release-assets.py:236-289 | what flattening writes passes the verification of its own tier if and only if the archive names are clean |
| `ReleaseAssets.ArchivesAreCleanIff` | scripts/verify-release-assets.py:77-86 | the archive names of a tier are clean if and only if the version is |
| `ReleaseAssets.VerifyDetectsChange` | scripts/verify-release-assets.py:198-233 | for any list of tiers, with every index and checksums file as it was, verification still holds if and only if the file set is the same and every archive has the same hash |
| `ReleaseAssets.TiersVerifyTogetherIff` | scripts/verify-release-assets.py:198-233 | a core and a trailing directory put together verify as two tiers if and only if each verifies as its own |
| `ReleaseAssets.PreparedTiersVerifyTogetherIff` | scripts/verify-release-assets.py:184-233 | two prepared tiers put together verify if and only if the version is clean |
| `ReleaseAssets.NormalizationIsStable` | scripts/verify-release-assets.py:49-57 | normalising a normalised tag changes nothing |
| `ReleaseAssets.CleanVersionIff` | scripts/verify-release-assets.py:49-57 | the version of a tag is clean if and only if the tag holds no backslash and no line end |
| `ReleaseAssets.IndexByName` | scripts/verify-release-assets.py:236-264 | archives found under one name twice are refused, otherwise each name maps to its file |
| `ReleaseAssets.PrepareAssets` | scripts/verify-release-assets.py:236-289 | succeeds if and only if the tag has a version, holds no backslash and no line end, and the archives are the tier's, once each; what it writes verifies and holds their hashes |
| `ReleaseAssets.BackslashTagFails` | scripts/verify-release-assets.py:236-289 | for the tag `v1\0` a complete set of archives is flattened and fails its own verification |
| `Transcript.MixedCursorsCycle` | console/src/lib/identity-log.ts:32-45 | three frames of one timestamp, one without a cursor, that the comparator orders in a circle |
| `Transcript.HomogeneousHasNoWedge` | console/src/lib/identity-log.ts:32-45 | per timestamp all cursors parse or none do: then no wedge |
| `Transcript.BeforeIsTransitive` | console/src/lib/identity-log.ts:32-45 | without a wedge the comparator is transitive on the log |
| `Transcript.FaithfulIsUnique` | console/src/lib/identity-log.ts:63-71 | a log has at most one transcript view |
| `Transcript.InsertKeepsFaithful` | console/src/lib/identity-log.ts:51-61 | inserting a new frame at its split point gives the view of the longer log |
| `Transcript.ReplaceKeepsFaithful` | console/src/lib/identity-log.ts:112-121 | replacing a frame by one with the same timestamp and cursor keeps the view right in place |
| `Transcript.TrimKeepsFaithful` | console/src/lib/identity-log.ts:126-142 | the tail of the view is the view of the retained frames |
| `Transcript.FullSortIsFaithful` | console/src/lib/identity-log.ts:63-71 | without a wedge the full sort is the transcript view |
| `Transcript.TranscriptExistsIff` | console/src/lib/identity-log.ts:32-45 | a transcript view exists if and only if the log holds no wedge, and it is then the full sort |
| `IdentityLog.SearchFindsSplit` | console/src/lib/identity-log.ts:51-61 | the binary search ends at the split point |
| `IdentityLog.InsertSorted` | console/src/lib/identity-log.ts:51-61 | the loop and the splice insert at the split point wherever there is one |
| `IdentityLog.MergeTouchesOne` | console/src/lib/identity-log.ts:96-123 | an update changes at most the frame it names, never lowers its frame version and raises the version by one; it is refused, changing nothing, when the held frame is newer |
| `IdentityLog.TrimKeepsTheLast` | console/src/lib/identity-log.ts:126-142 | a trim keeps exactly the last `max` frames of the transcript, in arrival order |
| `IdentityLog.RebuiltIndex` | console/src/lib/identity-log.ts:137-139 | the rebuilt key index is the exact inverse of the events |
| `IdentityLog.RunKeepsIndex` | console/src/lib/identity-log.ts:75-149 | the key index is the exact inverse of the events after every sequence of push, merge, trim, reset, view and replay sort, with no assumption on cursors |
| `IdentityLog.VersionCountsMutations` | console/src/lib/identity-log.ts:75-149 | `version` is the number of calls of any sequence that were accepted: pushes of a new key, updates of a held frame, trims that drop, and resets, also of an empty log |
| `IdentityLog.RunIsSound` | console/src/lib/identity-log.ts:63-149 | over every sequence that never passes through a wedged log and whose replay sorts find neighbours in their order, the cached view stays the transcript of the events |
| `IdentityLog.CachedViewIsFullSort` | console/src/lib/identity-log.ts:63-71 | the view after every such sequence equals the full sort |
| `IdentityLog.BusySortPermutes` | console/src/ConsoleApp.tsx:1491-1498 | the replay sort loses no frame and invents none |
| `IdentityLog.BusyResortHarmlessIff` | console/src/ConsoleApp.tsx:1487-1498 | the in-place replay sort keeps the cached view right if and only if neighbouring frames are in replay order |
| `IdentityLog.BusyResortBreaksView` | console/src/ConsoleApp.tsx:1487-1498 | a two-frame log on which it does not, and what a trim then keeps |
| `ConsoleLog.LogStaysBounded` | console/src/ConsoleApp.tsx:1339-1382 | after every sequence of appends, updates, views, replay sorts and resets the log holds at most the ceiling plus the slack |
| `ConsoleLog.TrimBoundary` | console/src/ConsoleApp.tsx:1389-1397 | the new paging boundary is the least parsable cursor retained; when cursors increase along the transcript every dropped frame with a parsable cursor lies strictly before it |
| `ConsoleLog.PagesKeepExtremes` | console/src/ConsoleApp.tsx:1550-1600 | over any sequence of pages the latest cursor carries the greatest and the oldest the least parsable sequence seen |
| `ConsoleLog.PageOrderIsIrrelevant` | console/src/ConsoleApp.tsx:1550-1600 | any rearrangement of the same pages ends with cursors of the same sequence |
| `ConsoleLog.OldestCursor` | console/src/ConsoleApp.tsx:1392-1394 | the loop finds the least parsable cursor |
| `ConsoleLog.Filter` | console/src/lib/identity-log.ts:135 | keeps exactly the frames that are not dropped, in order |
| `ConsoleLog.RebuildIndex` | console/src/lib/identity-log.ts:138-139 | the loop rebuilds the index of the retained frames |
| `ConsoleLog.Store.SortedEvents` | console/src/lib/identity-log.ts:63-71 | returns the cached view or sorts and caches, changing nothing else |
| `ConsoleLog.Store.PushFrame` | console/src/lib/identity-log.ts:75-82 | a seen key is a no-op; otherwise event, index, version and view change together |
| `ConsoleLog.Store.MergeFrameUpdate` | console/src/lib/identity-log.ts:96-123 | the in-place update is the specified one, and reports previous and next frame and whether it moved |
| `ConsoleLog.Store.TrimCore` | console/src/lib/identity-log.ts:126-142 | the trim is the specified one and returns the retained frames only when something was dropped |
| `ConsoleLog.Store.Reset` | console/src/lib/identity-log.ts:144-149 | empties events, index, view and cursors and raises the version |
| `ConsoleLog.Store.AppendFrame` | console/src/ConsoleApp.tsx:1376-1397 | append, trim past the limit and the new paging boundary in one step |
| `ConsoleLog.Store.SortForReplay` | console/src/ConsoleApp.tsx:1491-1498 | replaces the cached view by its replay order |
| `ConsoleLog.Store.NoteTimelinePage` | console/src/ConsoleApp.tsx:1566-1600 | both cursors and both exhausted fields after a page, for every kind of page, and whether any of them changed |
| `SseParser.RestHasNoSeparator` | packages/console-core/index.js:113-120 | the retained buffer never holds a complete separator |
| `SseParser.SplitIsIncremental` | packages/console-core/index.js:113-120 | splitting a text in two steps, at any cut, gives the blocks and the rest of splitting it at once |
| `SseParser.FeedIsOnePush` | packages/console-core/index.js:113-120 | pushing chunks leaves the frames and the buffer of pushing their concatenation |
| `SseParser.ChunkInvariance` | packages/console-core/index.js:67-131 | for every text and every cutting into chunks, also inside CRLF pairs, push over the chunks and end emit the frames of one push and end |
| `SseParser.Parser.FlushBlock` | packages/console-core/index.js:70-110 | the line loop emits the frame of the block, none for a blank one |
| `SseParser.Parser.Push` | packages/console-core/index.js:113-120 | buffer and emitted frames after one chunk |
| `SseParser.Parser.End` | packages/console-core/index.js:121-126 | flushes an unterminated last block and empties the buffer |
| `SseRoundTrip.BlockRoundTrip` | packages/console-core/index.js:70-110 | the block written for an event is read back as that event |
| `SseRoundTrip.EncodedEventsComeBack` | packages/console-core/index.js:67-131 | any list of sendable events, written with LF or CRLF and cut into chunks anywhere, comes back as that list |
| `SendAttempts.BeginFreezes` | packages/console-core/src/send-attempt.ts:105-134 | exactly which attempts may begin; a begun one is well formed, leased, and carries its message frozen now or as frozen before |
| `SendAttempts.RecoverIsSafe` | packages/console-core/src/send-attempt.ts:137-144 | recovery only turns an in-flight attempt unknown, keeps its envelope and is idempotent |
| `SendAttempts.FinishSettles` | packages/console-core/src/send-attempt.ts:146-159 | exactly which attempts can be settled; acceptance once recorded survives every later outcome |
| `SendAttempts.EnvelopeFixesMessage` | packages/console-core/src/send-attempt.ts:71-103 | two well-formed attempts with one envelope agree on destination, origin, key and content |
| `SendAttempts.ParseRows` | console/src/lib/send-attempt-storage.ts:31-51 | the parse loop accepts exactly the documents whose rows all pass and have distinct ids, and recovers stale leases |
| `SendAttempts.LoadAttempts` | console/src/lib/send-attempt-storage.ts:19-51 | a missing document is an empty queue, an unreadable one is refused whole |
| `SendAttempts.ApplyUpdates` | console/src/lib/send-attempt-storage.ts:62-77 | the first merge loop fails exactly on a clash with a begun send, and otherwise leaves every row its outcome |
| `SendAttempts.SaveRows` | console/src/lib/send-attempt-storage.ts:53-97 | the whole save is the specified merge and check |
| `SendMerge.MergedRows` | console/src/lib/send-attempt-storage.ts:58-83 | a row is in the merged queue if and only if it is kept, with its outcome |
| `SendMerge.SaveKeepsFrozen` | console/src/lib/send-attempt-storage.ts:53-97 | no save, however stale the view it was made from, replaces a frozen envelope or changes an accepted row |
| `SendMerge.SaveKeepsOthers` | console/src/lib/send-attempt-storage.ts:79-82 | rows other tabs added are kept as they are |
| `SendMerge.SaveHonoursRemoval` | console/src/lib/send-attempt-storage.ts:66-68 | a removed row stays removed, whoever removed it |
| `SendMerge.SaveStaysReadable` | console/src/lib/send-attempt-storage.ts:84-97 | what is saved can be loaded again |
| `SendMerge.LockedSaveIsUpdate` | console/src/lib/send-attempt-storage.ts:53-97 | under the lock the three-way merge is the caller's own update, row for row and in its order |
| `SendMerge.LockedSaveSucceeds` | console/src/lib/send-attempt-storage.ts:53-97 | under the lock a well-formed update that keeps frozen envelopes is never refused |
| `SendQueue.MovedPermutes` | console/src/ConsoleApp.tsx:4034-4043 | a drag loses no row and invents none, also when a row is dropped on itself |
| `SendQueue.ApplyContinues` | console/src/ConsoleApp.tsx:4003-4045 | every edit, discard, drag and settlement keeps ids distinct and takes no frozen or accepted row back |
| `SendQueue.CommitContinues` | console/src/ConsoleApp.tsx:1944-1993 | a committed update continues the stored queue and leaves it loadable, whatever rows the tab itself showed and whatever the clocks say |
| `SendQueue.CommitStores` | console/src/ConsoleApp.tsx:1976-1993 | for every row stored by a commit over any visible rows: it is the row stored before, perhaps recovered; or that draft with the edited text or contexts and the error line the tab showed; or the outcome recorded on the stored row as recovered at load |
| `SendQueue.StaleViewBlocksIff` | console/src/ConsoleApp.tsx:1986-1990 | exactly when the tab's copy of a row, accepted ones included, keeps a settlement from being recorded |
| `SendQueue.StaleLeaseBlocks` | console/src/ConsoleApp.tsx:3989-3990 | two rows for which it does |
| `SendQueue.FreezeSucceedsIff` | console/src/ConsoleApp.tsx:3889-3905 | exactly which stored rows can be frozen: with a live view, a writable console and an open panel, drafts, and on an explicit resend rejected ones and, if the gateway deduplicates, unknown or expired ones, in their first handling mode |
| `SendQueue.FreezeSavesFrozenForm` | console/src/ConsoleApp.tsx:3894-3905 | after a freeze the store holds the very attempt that is handed to the wire, and the other rows go on as they were |
| `SendQueue.Store.Update` | console/src/ConsoleApp.tsx:1976-1993 | a lock section, with its overlay on the tab's rows, either writes the committed queue or leaves the document untouched |
| `SendQueue.Store.FreezeAttempt` | console/src/ConsoleApp.tsx:3889-3908 | hands out an attempt only after it is saved |
| `SendTabs.StepKeepsSound` | console/src/ConsoleApp.tsx:1944-1993 | every step of every tab keeps the invariant linking rows, dispatches and the log of freezes, submissions and acceptances |
| `SendTabs.OneEnvelopePerKey` | console/src/ConsoleApp.tsx:3889-3913 | over every interleaving of any number of tabs, imports included, two submissions under one key are of one attempt by two dispatches, one an explicit resend, and carry one envelope |
| `SendTabs.SubmittedAtMostOncePerKey` | console/src/ConsoleApp.tsx:3889-3913 | over every interleaving a message is submitted at most once for each key it was queued under plus once per explicit resend |
| `SendTabs.SubmittedAtMostOnce` | console/src/ConsoleApp.tsx:3889-3913 | over every interleaving in which no two imports overlap a message is submitted at most once plus once per explicit resend |
| `SendWitness.OverlappingImportsSendTwice` | console/src/ConsoleApp.tsx:4083-4096 | for every older row and two new keys: two tabs ask, and each imports, sends and removes it; every step is allowed, the message is submitted twice and no resend was asked for |
| `SendWitness.ImportedTwice` | console/src/ConsoleApp.tsx:4083-4096 | such a run for the row `legacy:1` |
| `SendWitness.DraftErrorIsStored` | console/src/ConsoleApp.tsx:1986-1990 | an edited draft is stored with the error line of the tab's copy, for every such pair |
| `SendTabs.SubmissionFollowsSave` | console/src/ConsoleApp.tsx:3905-3912 | each submission follows the save of its frozen form, and one that is not an explicit resend froze a draft, so draining never sends an in-flight, rejected or unknown attempt |
| `SendTabs.KeysIdentifyAttempts` | packages/console-core/src/send-attempt.ts:109-112 | two submissions carry one idempotency key only if they are of one attempt, and, unless two imports overlap, if and only if |
| `SendTabs.AcceptedIsNeverResent` | console/src/ConsoleApp.tsx:3899-3900 | once the acceptance of a key is saved no attempt is frozen under it again |
| `SendTabs.QueueStaysReadable` | console/src/lib/send-attempt-storage.ts:31-51 | in every reachable state the saved queue can be loaded, whatever the clock says |
| `RenderScheduler.RunIsWired` | console/src/ConsoleApp.tsx:1041-1115 | in every reachable state the one live callback is the recorded one, and unpublished frames have a flush coming |
| `RenderScheduler.FlushByDeadline` | console/src/ConsoleApp.tsx:1056-1065 | once the remaining callbacks of a deadline have come, whatever happened in between, a flush has published the buffer held or a later one |
| `RenderScheduler.RequestDeadlines` | console/src/ConsoleApp.tsx:1073-1101 | text waits for at most the third frame, anything else for the next callback, "now" commits at once |
| `RenderScheduler.CommittedFramesArePublished` | console/src/ConsoleApp.tsx:1834-1840 | in every reachable state a committed buffer, or a later one, is published at once for "now", by the third callback for text and by the next one for anything else |
| `RenderScheduler.StaleCallbackIsIgnored` | console/src/ConsoleApp.tsx:1066-1072 | a cancelled callback changes nothing |
| `RenderScheduler.Scheduler.RequestRender` | console/src/ConsoleApp.tsx:1073-1101 | the imperative request is the specified state change |
| `RenderScheduler.Scheduler.RunCallback` | console/src/ConsoleApp.tsx:1056-1065 | the imperative callback is the specified state change |
| `RenderScheduler.Scheduler.CommitLiveFrames` | console/src/ConsoleApp.tsx:1834-1840 | marks the frames dirty and requests a render |
| `RenderScheduler.Scheduler.OnVisibilityChange` | console/src/ConsoleApp.tsx:1104-1109 | a tab made visible flushes its pending timer at once |
| `ReconcileLatch.AttemptsAreBounded` | flow-editor/src/app.tsx:125-139 | within one edit epoch an intent is requested at most four times between convergences |
| `ReconcileLatch.LatchHolds` | flow-editor/src/app.tsx:122-127 | once latched nothing is requested until the epoch advances, whatever converges or settles |
| `ReconcileLatch.OverrunLatches` | flow-editor/src/app.tsx:132-137 | a request beyond the cap is refused and latches |
| `ReconcileLatch.EditReleases` | flow-editor/src/app.tsx:726-731 | after an edit every intent has its full budget again |
| `ReconcileLatch.StaleResultIsIgnored` | flow-editor/src/app.tsx:151-157 | a result issued in an older epoch latches nothing |
| `ReconcileLatch.RunIsSound` | flow-editor/src/app.tsx:118-157 | recorded epochs never lie ahead of the current one |
| `ReconcileLatch.Reconciler.AdvanceEpoch` | flow-editor/src/app.tsx:726-731 | an edit advances the epoch and leaves latch and counts alone |
| `ReconcileLatch.Reconciler.MarkReconcileConverged` | flow-editor/src/app.tsx:142-148 | resets the count of one intent, in the current epoch only |
| `ReconcileLatch.Reconciler.ReconcileShouldRun` | flow-editor/src/app.tsx:125-141 | the imperative gate is the specified state change and answer |
| `ReconcileLatch.Reconciler.ReconcileEffect` | flow-editor/src/app.tsx:428-496 | one gated effect: converge when nothing changed, otherwise ask the gate |
| `ReconcileLatch.Reconciler.LatchReconcileFailure` | flow-editor/src/app.tsx:151-157 | latches a validated failure of the current epoch only |
| `Circulant.Joined` | examples/003-swarm-stress-pack/scenario.ts:226-230 | two nodes are joined if and only if one is within h steps of the other |
| `Circulant.EdgesCounted` | examples/003-swarm-stress-pack/scenario.ts:226-230 | n*h edges when n >= 2h+1, otherwise n(n-1)/2; no self loops |
| `Circulant.Degree` | examples/003-swarm-stress-pack/scenario.ts:226-230 | every node has min(n-1, 2h) neighbours |
| `SwarmGraph.KeyIsInjective` | examples/003-swarm-stress-pack/scenario.ts:221-225 | edge keys of names without a colon identify the edge |
| `SwarmGraph.EdgeSetSize` | examples/003-swarm-stress-pack/scenario.ts:213-234 | base edges plus exactly one per present child with a present parent |
| `SwarmGraph.ComputeEdges` | examples/003-swarm-stress-pack/scenario.ts:213-234 | the nested loops build exactly that edge set, and its size is the formula |
| `SwarmGraph.AddRow` | examples/003-swarm-stress-pack/scenario.ts:227-229 | the inner loop adds the edges of one node |
| `SwarmGraph.PeersFor` | examples/003-swarm-stress-pack/scenario.ts:240-250 | the loop collects exactly the other ends of the edges of one agent |
| `SwarmGraph.NotOwnPeer` | examples/003-swarm-stress-pack/scenario.ts:221-225 | nobody is its own peer |
| `SwarmGraph.BasePeerCount` | examples/003-swarm-stress-pack/scenario.ts:213-250 | a base agent has min(n-1, 2h) base peers |
| `SwarmGraph.ChildPeer` | examples/003-swarm-stress-pack/scenario.ts:231-233 | a present child's only peer is its parent |
| `SwarmGraph.SwarmIsValid` | examples/003-swarm-stress-pack/scenario.ts:106-136 | the generated agents have distinct names without colons and children of base agents |
| `SwarmGraph.WholeRosterEdges` | examples/003-swarm-stress-pack/scenario.ts:213-234 | with every agent present the number of edges is given by the roster's sizes |
| `SwarmGraph.WholeRosterPeers` | examples/003-swarm-stress-pack/scenario.ts:240-250 | with every agent present so is the number of base peers of each base agent |
| `SwarmGraph.WholeSwarm` | examples/003-swarm-stress-pack/scenario.ts:106-234 | the whole swarm has 22740 edges |
| `SwarmGraph.WholeSwarmPeers` | examples/003-swarm-stress-pack/scenario.ts:106-250 | in the whole swarm every base agent has 150 base peers |
| `BoundedPool.RunIsSound` | examples/003-swarm-stress-pack/scenario.ts:252-269 | under every schedule indices are started in order, and every started one is finished or held by exactly one worker |
| `BoundedPool.StartedOnceAndBounded` | examples/003-swarm-stress-pack/scenario.ts:252-269 | each index is started at most once and at most min(concurrency, n) callbacks are in flight |
| `BoundedPool.MoveDecreases` | examples/003-swarm-stress-pack/scenario.ts:261-266 | every move of a live worker lowers the measure |
| `BoundedPool.EveryRunFinishes` | examples/003-swarm-stress-pack/scenario.ts:252-269 | no run makes more than 2n + min(concurrency, n) moves, and one that cannot move on has started and finished all n if and only if concurrency is at least one or there is nothing to do |
| `IdentityAliases.BuildAliasMap` | console/src/lib/agents.ts:13-30 | the nested loops build the specified map |
| `IdentityAliases.Scan` | console/src/lib/agents.ts:41-63 | the early-exit loop gives the answer of the first agent with the alias |
| `IdentityAliases.AliasMapSpec` | console/src/lib/agents.ts:13-30 | the map holds an alias if and only if a named agent has it, and answers with the first one's name |
| `IdentityAliases.MapEqualsScanIff` | console/src/lib/agents.ts:32-63 | for every roster and query, map and scan agree if and only if the query is blank or its first owner is named, or has no id and the map's answer is the query itself |
| `IdentityAliases.MapEqualsScan` | console/src/lib/agents.ts:32-63 | they agree on every query when each agent's first id is not blank |
| `IdentityAliases.BlankIdDiverges` | console/src/lib/agents.ts:15-16 | a roster with a blank first id on which they differ |
| `IdentityAliases.LabelOnlyDiverges` | console/src/lib/agents.ts:15-16 | a roster with a label-only agent on which they differ |
| `IdentityAliases.CanonicalisationIsIdempotentIff` | console/src/lib/agents.ts:32-39 | for every roster and query, canonicalising twice is canonicalising once if and only if the query is blank, unknown, or the first named owner of the answer is itself called that |
| `IdentityAliases.CanonicalisationIsIdempotent` | console/src/lib/agents.ts:32-39 | so it is when no two agents share an alias |
| `IdentityAliases.SharedAliasIsNotIdempotent` | console/src/lib/agents.ts:32-39 | a roster with a shared alias where it is not |

## Left out

- Release commands: `gh`, git, ZIP and TAR reading, certificate fields and environment parsing; they are facts of the `World`.
- Legacy recovery: schema 1 candidates are modelled (the untiered tier); `recover_original` (scripts/release-candidate.py:1158-1200), for releases older than receipts, is not, so the histories hold no such release.
- Two operators creating drafts for one tag at the same instant; it depends on the host of the releases.
- Candidates.FlatOk: whether given archives, index and checksums verify as a flat set is a fact of the `World`; that verification is modelled in `ReleaseAssets` on its own.
- ReleaseAssets.PrepareAssets: works on file contents by name; directories, links and permissions are not modelled.
- Cursor numbers above 2^53 and non-finite ones: `cursorSeq` is modelled on integers.
- Transcript.FullSort: is an insertion sort; what an engine's sort does with an inconsistent comparator is not fixed by the language, and matters only on wedged logs.
- Frame payloads, and fields set to null or undefined in an update: an update field is present or absent.
- IdentityLog.PushLog: uses `frameKey` for the key of a pushed frame, as the only caller does.
- IdentityLog.BusySort: what the replay comparator does at equal timestamps (transition rank, then `localeCompare`) is a parameter.
- SSE `data` field: it is a function of `rawData`, which the model keeps.
- Send queue: the queue without a persistent namespace, and attachment sends.
- SendTabs.Allowed: an import brings rows of the oldest queue only. Rows of the pre-0.9 queue keep their id and key, so an overlapping import could bring one back after its removal under a key already submitted.
- SendQueue.Store.Update: the view-only fields of a row (editing, expanded, status) are not modelled, and storage does not come and go inside one section.
- SendAttempts.Valid: checks of quoted contexts and error texts are left out; contents are compared as values, not as JSON text with a key order.
- Automatic drain: the tokens that keep one tab from asking twice; a request may come at any time on any stale view, which is more than the code allows.
- RenderScheduler.Step: unmounting and a browser without animation frames are not modelled.
- BoundedPool.Move: a rejecting callback is not modelled; all callbacks resolve.
- SwarmGraph.ComputeEdges: the final sorts of edge and peer lists are left out; the results are a map of edges and a set of peers.
- Console: panels, rendering, voice, memory and access fetches and display-text normalisers are not modelled; of what they feed, only the frames, cursors, queue rows and render requests above appear.
- `ConsoleActivityProjection` and the CI scripts: not modelled; nothing above depends on them.
- The example servers: not modelled beyond the swarm's roster, graph and worker pool.
