# Verified models of the community bot

The bot keeps the archive of one chat, gates its membership, and turns messages into reviewed
knowledge cards. This project models eight parts of it whose correctness does not show in any one
function, and proves what each part is for. Every part has a specification (values, functions and
predicates), the program's own code as methods proved against it, and the theorems about it.

* **Message versions** (`MessageHistory`, `MessageRaces`, `MessageArchive`). A message row, its version
  list and its policy marks under edits, off-record flips and the version backfill. Off-record is never
  left and leaves no content behind, in every interleaving of edit transactions with the backfill's
  select, lock, re-read, insert and pointer steps. After a redaction the history no longer depends on
  what was written. Each interleaving leaves a message as exactly the edits and backfills that were
  committed on it, whole and in the order of their commits, would leave it. The policy detector and the
  content hash are arbitrary functions.
* **Card approval** (`CardApproval`, `CardRaces`, `CardSafety`, `CardEligibility`, `CardCitations`, `CardDeadlock`,
  `CardWorkers`, `CardProgress`, `CardPairs`, `CardVerdict`, `CardEdits`, `CardSolo`). Approve, reject and forget as
  concurrent transactions over advisory locks, candidate rows, and the version and message rows that
  re-validation share-locks and cascades write. Cards come from sources that are clean when the card is
  written. Three promises fail, and each has its exact condition:
  * *No deadlock.* Re-validation waits for two rows on purpose (`bot/services/governance_revalidation.py:46-53`,
    70-73), while the cascade worker handles up to ten requests in one transaction
    (`bot/services/forget_cascade.py:2155-2204`, committed at 2239-2245) and for each takes a sorted round of
    advisory locks (2075-2084), writes the message rows (271-292) and then all of their versions (644-662). For
    a message it locks only the current version (1935-1947). So the comment at 2075 is wrong for a batch, whose
    rounds can be out of order, and for a single message with an older version that a card candidate still
    cites: `CardVerdict.OldVersionDeadlocks`. While no message or version is added, a worker is safe beside every
    approval exactly when its locks are in order and, before it writes a row, cover all versions of the message
    (`CardVerdict.DeadlockIff`, `CardWorkers.SafeTargetsIff`); `CardPairs.PairDeadlockIff` is exact for one approval and
    one worker. `CardEdits.EditOvertakesWorker` shows that an edit at the wrong moment undoes that, and
    `CardDeadlock.NoDeadlock` covers any number of transactions, edits included, as long as workers in fact ask
    in that way.
  * *Sources are eligible at the commit.* A forget request takes no source lock
    (`bot/db/repos/forget_event.py:63-74`; the cascade locks only later,
    `bot/services/forget_cascade.py:2056-2084`, unlike the summary at lines 67-99 of that file), so it can land
    between re-validation and commit; `CardSafety.RequestOvertakesApproval` shows it for every approval about
    to commit. `CardEligibility.EligibleAtCommitIff` is exact: no request has been made before the one check
    of a source begins, and the source is eligible at the commit if and only if none is made after that.
  * *No card cites what has been forgotten.* The cascade of a message redacts all of its versions but unlinks
    only the current one (`bot/services/forget_cascade.py:930-945`), so a card that cites an older version keeps
    citing it: `CardSolo.CitationSurvives` gives the run. `CardCitations.StaleIff` is exact over all runs: a
    citation outlives a finished cascade if and only if its version was superseded when a cascade for its
    message ended. For users and hashes the promise holds (`CardSafety.EveryRunIsSafe`).
* **Import framing** (`ImportFraming`). The bytes fed to the import hash: length-prefixed names, chunks
  and terminators, then the salt stage over UTF-8 names in sorted order. A decoder undoes the encoding,
  so different page lists never feed equal bytes. The chunk boundaries are part of the bytes. The salt
  stage never feeds the bytes of a page list, short of a first name of 1,936,223,087 bytes.
* **Layered configuration** (`ConfigMerge`, `ConfigLayers`). The keyed array merge with its index loop,
  the recursive merge, lookups along paths, and the layer fold.
* **Memory log** (`MemLog`, `MemLogCommands`, `MemLogFields`). Splitting, printing and the three commands over text with
  all of the line breaks and white space that the program's string functions know. No field value
  can cut the front matter short, as the code's comment promises, but a key with a line break can hide a
  `---` fence, and a tag with one splits an entry over several lines. `MemLogCommands.AppendOnlyIff` and
  `MemLogCommands.AppendOnlyFromInitIff` state exactly which runs are append-only.
* **Migration 091** (`HtmlEscape`, `Migration091`). The preflight, the updates in order and the
  constraints added at the end. The verdict is told by the legacy tables alone.
* **Admission** (`Admission`, `AdmissionRuns`). Joining, leaving, vouching and the privacy retry. A join
  reads membership before it locks the user's row (`bot/handlers/chat_events.py:142-151`), so a leave
  between the two lets a former member back in on an old admission, which the comment at line 141 means to
  rule out. `AdmissionRuns.OutdatedReadReadmits` gives the run, `AdmissionRuns.EntryBySchedule` the exact
  condition on the schedule, and `AdmissionRuns.EveryEntryUsesAnApplication` the promise when nothing comes between.
* **Refresh** (`RefreshMask`, `RefreshWave`). Bit-mask selection, and the phase of one member's wave row
  under the two callbacks, the sender and the effect worker. The sender writes `offer_sent`
  unconditionally after sending (`bot/services/scheduler.py:280-289`), so a decline that arrives first is
  overwritten: `RefreshWave.DeclineIsLost`; `RefreshWave.RunAdvancesIff` is the exact condition.
* **Coverage audit** (`CoverageAudit`, `CoverageReport`). Cursor paging, the set comparison and the verdict.

`dafny verify dfyconfig.toml` checks everything.

## Model

| member | source | states |
|---|---|---|
| MessageHistory.EditKeepsCoherence | bot/handlers/edited_message.py:244-391 | One edit keeps versions numbered 1..n in insertion order, hashes of live versions distinct, the row equal to its current version, "no current" exactly when there are no versions, and off-record messages without content; off-record is never left |
| MessageHistory.RunKeepsCoherence | bot/handlers/edited_message.py:244-391 | The same over every run of edits and backfills of one message |
| MessageHistory.BackfillKeepsCoherence | alembic/versions/023_backfill_v1_live_post_t1_07.py:93-139 | Filling a row keeps coherence and policy and leaves it with a current version |
| MessageHistory.OffRecordEditIgnoresContent | bot/handlers/edited_message.py:274-284 | Off the record, two edits that differ only in text, caption, entities and author, even under different detectors, have the same effect |
| MessageHistory.Independence | bot/handlers/edited_message.py:267-391 | From an off-record state, two runs that agree on kind, dates and raw-update ids end in identical row, versions and marks |
| MessageHistory.EditOutcome | bot/handlers/edited_message.py:304-391 | Outside off-record an edit with unknown content becomes the current version with exactly that content; a known hash leaves content and history alone |
| MessageHistory.FlipOutcome | bot/handlers/edited_message.py:97-145 | A flip erases row and all versions in place, keeps their numbers and hashes and all earlier marks, and appends a redacted version exactly when the empty-content hash changes |
| MessageHistory.AppendedVersion | bot/db/repos/message_version.py:49-124 | Field by field, off the record included: an edit adds at most one version; that one carries the edit's date, raw update and time of capture, its content unless off the record, and the hash looked up; every earlier version keeps number, hash, dates and raw update |
| MessageHistory.EditAppendsIff | bot/handlers/edited_message.py:344-364 | A version is added exactly when its hash is not the row's and, on the record, no stored version has it |
| MessageHistory.MarksAndRow | bot/handlers/edited_message.py:97-197 | New marks name the rule that fired, the author and the thread, and only the detected policy gets one; kind, date and raw update of the row stay |
| MessageHistory.StalePolicyLeaks | bot/handlers/edited_message.py:217-226 | Without the lock an edit that read the policy before a flip would write content back |
| MessageHistory.StaleBackfillLeaks | alembic/versions/023_backfill_v1_live_post_t1_07.py:93-112 | A backfill from the batch row instead of the re-read row would store erased text; the re-read one does not |
| MessageRaces.StepKeepsInv | alembic/versions/023_backfill_v1_live_post_t1_07.py:84-140 | Every step of every agent keeps the invariant, including the state between insert and pointer update |
| MessageRaces.InterleavingSafety | bot/handlers/edited_message.py:223-391 | In every interleaving every off-record message stays so and carries no content, and every message the backfill does not hold is coherent |
| MessageRaces.InterleavingSafetyFromStart | alembic/versions/008_backfill_message_versions_v1.py:97-162 | From coherent tables, no interleaving breaks privacy, and after the backfill commits every message is coherent |
| MessageRaces.Serializable | bot/db/locks.py:13-22 | Every interleaving leaves a message as exactly the edits and fills committed on it, each whole and in the order of their commits, with the half-done insert as the only intermediate state |
| MessageRaces.SerializableSinceIngest | bot/db/locks.py:13-22 | The same for a message that is ingested during the run, from then on |
| MessageRaces.CommittedEditsArrived | bot/handlers/edited_message.py:223-391 | Each committed edit is one that arrived for that message, unchanged |
| MessageArchive.Archive.FindChatMessage | bot/handlers/edited_message.py:72-94 | Finds the row of the address exactly when it exists |
| MessageArchive.Archive.ApplyOffrecordFlip | bot/handlers/edited_message.py:97-155 | The loop over versions redacts all of them; the row is redacted and one mark recorded |
| MessageArchive.Archive.UpdateMemoryPolicy | bot/handlers/edited_message.py:158-197 | Changes policy and mark only, and nothing when the row is off-record |
| MessageArchive.Archive.GetByHash | bot/db/repos/message_version.py:22-35 | Finds a live version with the hash exactly when there is one |
| MessageArchive.Archive.InsertVersion | bot/db/repos/message_version.py:49-124 | Returns the live version with the hash, else appends one numbered max + 1, whose fields `MessageHistory.AppendedVersion` names |
| MessageArchive.Archive.HandleEditedMessage | bot/handlers/edited_message.py:200-391 | The handler, statement by statement, is one edit of the specification; an unknown message changes nothing |
| MessageArchive.Archive.FillRow | alembic/versions/023_backfill_v1_live_post_t1_07.py:96-140 | The statements of one row are one backfill step, and skip a row that has a version |
| MessageArchive.Archive.FillRound | alembic/versions/023_backfill_v1_live_post_t1_07.py:79-143 | One round either leaves fewer rows without a version, or stops with none left, whatever others do meanwhile |
| MessageArchive.Archive.Upgrade | alembic/versions/008_backfill_message_versions_v1.py:97-162 | The loops end for every schedule of concurrent edits, no row is left without a version, and the counter is the number of fills; the edits in the log are exactly those of the schedule on rows not yet locked, in order, and a row that was not filled is as those edits leave it |
| MessageArchive.UnfilledRowsFollowTheirEdits | alembic/versions/023_backfill_v1_live_post_t1_07.py:105-107 | A row that the backfill skips is exactly as the edits in the log leave it |
| MessageArchive.FilledRowsCopyTheLockedRow | alembic/versions/023_backfill_v1_live_post_t1_07.py:109-139 | A filled row ends with one version, a copy of the row as locked, dated by the message |
| MessageArchive.SecondRunFillsNothing | alembic/versions/023_backfill_v1_live_post_t1_07.py:78-82 | A second run can fill nothing |
| CardApproval.BlockReason | bot/services/governance_revalidation.py:53-178 | A source is passed exactly when it exists, is current, eligible, unredacted, of normal policy and not tombstoned; otherwise the first violation is named |
| CardApproval.ReasonsInOrder | bot/services/governance_revalidation.py:105-178 | Which violation is named: missing, tombstoned, not current, control message, redacted, policy, each only when none before it is there |
| CardApproval.TombstonedMeansCovered | bot/services/governance_revalidation.py:76-92 | The three tombstone keys of a version are there exactly when some recorded request covers it, by its message, its hash or its author |
| CardApproval.ReviewDesk.AcquireMvidLocks | bot/handlers/admin_cards.py:163-185 | Takes one lock per source in ascending order of lock id |
| CardApproval.ReviewDesk.RevalidateSources | bot/services/governance_revalidation.py:105-178 | Reports the first ineligible source in list order, or none |
| CardApproval.ReviewDesk.CmdApprove | bot/handlers/admin_cards.py:245-398 | The outcome is the specified one; approved adds one card with the candidate's own title and body, trimmed or a dash, approved by the admin, cites the sources in order, and decides the candidate once; anything else changes nothing |
| CardApproval.ReviewDesk.PromoteLocked | bot/handlers/admin_cards.py:286-398 | From the row lock on, for any sources locked before: the same card and decision, and more locks are taken exactly when the row names others, then one for each source of the union, in ascending order |
| CardApproval.ApprovalEnds | bot/handlers/admin_cards.py:245-364 | How an approval ends, case by case: not found, no sources, already decided, blocked by the first source that may not be cited, or a source listed twice |
| CardApproval.ApprovalPromotes | bot/handlers/admin_cards.py:366-398 | The four writes, column by column |
| CardApproval.LockOrderIsOneOnly | bot/handlers/admin_cards.py:328-340 | However a set of sources is listed, the same locks are taken for it in the same order |
| CardApproval.ReviewDesk.InsertCardSources | bot/db/repos/card_source.py:36-60 | Adds one row per source in order, or fails on a repeated one |
| CardApproval.ReviewDesk.CmdReject | bot/handlers/admin_cards.py:440-476 | Decides a pending candidate once, in the admin's name, adds no card, and keeps the trimmed reason up to 1024 characters |
| CardApproval.RejectionTurnsDown | bot/handlers/admin_cards.py:440-476 | The writes of a rejection, column by column |
| CardApproval.ForgetAllIsOnce | bot/services/forget_cascade.py:2155-2204 | A batch of cascades, one after the other, writes what one cascade with all of their rows and versions would |
| CardSafety.StepKeeps | bot/handlers/admin_cards.py:245-398 | Every step of approve, reject and forget, and of everybody else, keeps the invariant, share locks and row locks included |
| CardSafety.EveryRunIsSafe | bot/handlers/admin_cards.py:337-398 | In every run what a card still cites of a finished cascade is a superseded version of a message asked for by itself; there is one card per approval and at most one decision per candidate, and a card is archived exactly when it has no source left |
| CardSafety.InitialIsSafe | bot/db/repos/card_source.py:34-60 | Consistent tables with no transaction under way satisfy the invariant |
| CardSafety.CardsComeFromCleanSources | bot/handlers/admin_cards.py:342-380 | When a card is created each of its sources is current, content-eligible, unredacted, under a normal policy and in no finished cascade; the candidate was pending; the card cites exactly its sources, which differ, in order |
| CardSafety.NewCardIsTheCandidates | bot/handlers/admin_cards.py:366-398 | In a run too: a step that creates a card adds exactly one, with the trimmed title and body of its candidate (or a dash), approved by the job's admin, who is the candidate's reviewer |
| CardSafety.RejectionIsRecorded | bot/handlers/admin_cards.py:440-476 | A step that ends in a rejection records it in the admin's name and writes no card |
| CardSafety.OnlyCommitsWrite | bot/handlers/admin_cards.py:344-364 | A step that ends blocked, decided or rolled back leaves all tables unchanged |
| CardSafety.NoSecondRoundOfLocks | bot/handlers/admin_cards.py:308-340 | No run reaches the second round of locks, because nothing changes the source list of a candidate once it is created: no transaction of the model does, as the comment in the code says of the program |
| CardSafety.ForgetDisjointFromValidated | bot/services/governance_revalidation.py:46-73 | A cascade that may write covers no source that an approval has validated; one whose check is still waiting is covered only through a message whose row the cascade holds |
| CardSafety.RequestOvertakesApproval | bot/db/repos/forget_event.py:63-74 | Any approval about to commit can be overtaken by a forget request that covers one of its sources, and still creates the card |
| CardSafety.CascadeUnlinks | bot/services/forget_cascade.py:872-1041 | A worker's commit removes exactly the rows of the versions its targets resolve to, archives the cards left without any, and leaves nothing eligible that a target covers |
| CardSafety.CascadeLeavesCitationIff | bot/services/forget_cascade.py:930-945 | After a commit a covered version is still cited exactly when a card cited a superseded version of a message asked for, and nothing else in the batch unlinks it |
| CardSafety.CascadeRedacts | bot/services/forget_cascade.py:271-292 | A worker's commit redacts exactly the message and version rows it holds, and takes those messages out of the normal policy; authors, current versions and hashes stay |
| CardCitations.StaleIff | bot/services/forget_cascade.py:930-1041 | Over every run: a citation of a version that a finished cascade covers is there exactly when a cascade for its message ended while the version was cited and superseded |
| CardCitations.MissedIsRedacted | bot/services/forget_cascade.py:644-662 | In every run such a version and its message are redacted from that moment on |
| CardCitations.CoveredIsRedacted | bot/services/forget_cascade.py:644-662 | In every run, once a cascade for a message or a user has ended, every version it covers that was there before the worker began is redacted, with its message, and stays so |
| CardSolo.CitationSurvives | bot/services/forget_cascade.py:930-945 | From any quiet state with a clean candidate of one source: approve, edit, forget, and the card still cites the redacted version and is not archived |
| CardDeadlock.NoDeadlock | bot/services/forget_cascade.py:2056-2084 | However many transactions there are and whatever others write: no run is stuck in which workers ask for advisory locks in order and for rows only under the locks of the versions concerned, and do not meet at a message without versions |
| CardWorkers.SafeTargetsNeverDeadlock | bot/services/forget_cascade.py:2155-2204 | While no message or version is added, workers whose targets are safe by the tables they find never deadlock |
| CardWorkers.SafeTargetsIff | bot/services/forget_cascade.py:2075-2126 | Targets are safe exactly when their advisory locks are in order and, before each row, the locks taken cover all versions of the message |
| CardWorkers.OneTargetSafeIff | bot/services/forget_cascade.py:1935-1980 | One request is safe exactly when every version it writes has the lock of one that it resolves to: always for a user or a hash |
| CardPairs.CrossingDeadlocks | bot/handlers/admin_cards.py:245-398 | From any quiet state an approval and a worker whose lists of locks cross reach a deadlock |
| CardPairs.PairDeadlockIff | bot/handlers/admin_cards.py:245-398 | One approval and one worker can deadlock exactly when their lists of locks and rows have beginnings with nothing in common, each followed by something in the other |
| CardVerdict.OldVersionDeadlocks | bot/services/forget_cascade.py:1935-1947 | One request for a message with a version whose lock is not that of the current one: some run with an approval deadlocks |
| CardVerdict.UnsafeDeadlocks | bot/services/forget_cascade.py:2155-2204 | Any targets that are not safe deadlock with the approval of a candidate of one or two sources |
| CardVerdict.DeadlockIff | bot/services/forget_cascade.py:2155-2204 | While no message or version is added, a worker is safe beside all approvals and rejections exactly when its targets are safe |
| CardEdits.EditOvertakesWorker | bot/services/forget_cascade.py:2070-2084 | Even where targets were safe: an edit after the worker has resolved a message, and the approval of the new version, can deadlock with the worker, unless the new version's lock is among those taken |
| CardProgress.GoIsProgress | bot/handlers/admin_cards.py:245-398 | Each step of a transaction, waits for rows and a worker's later stages counted, shortens its own remaining work and leaves everyone else's as it is |
| CardProgress.EveryoneCanFinish | bot/handlers/admin_cards.py:245-398 | From every state in which the locks held and still to be asked for are safe some schedule ends all transactions |
| CardEligibility.CheckOutcome | bot/services/governance_revalidation.py:105-178 | Once both rows are free, a check goes on to the next source exactly when its statement saw no tombstone as it began and the source is clean now, else the approval ends blocked with the first violation |
| CardEligibility.CheckSees | bot/services/governance_revalidation.py:76-92 | A check that begins sees exactly the tombstones of that moment, and a missing source at once |
| CardEligibility.EligibleAtCommitIff | bot/services/governance_revalidation.py:105-178 | Over every run: a source of a new card was checked in exactly one statement before the commit, no request on record covered it as that began, and it is eligible at the commit exactly when none is made between the two |
| CardEligibility.ForgottenBeforeCheckBlocks | bot/services/governance_revalidation.py:105-178 | A source that is tombstoned before an approval begins to check it never gets into a card of that approval |
| ImportFraming.PagesRoundTrip | bot/cli.py:1065-1073 | Decoding undoes encoding for every list of named pages and every split into non-empty chunks |
| ImportFraming.EncodingIsInjective | bot/cli.py:1065-1073 | Page lists encode to the same bytes exactly when they are the same |
| ImportFraming.MostSignificantFirst | bot/cli.py:1066 | The four bytes of a length, the most significant first |
| ImportFraming.FilesReadBack | bot/cli.py:1064-1073 | What is fed decodes to the files in order: each name, and the contents cut after every megabyte |
| ImportFraming.HtmlStreamsAreUnique | bot/cli.py:1064-1074 | Two exports feed the hash equal bytes exactly when names and contents agree, in order |
| ImportFraming.ChunkBoundariesAreVisible | bot/cli.py:1070-1072 | The same contents cut differently feed different bytes |
| ImportFraming.Utf8IsInjective | bot/cli.py:1067 | Equal encoded names are equal names |
| ImportFraming.TextReadsBack | bot/cli.py:1065 | Decoding by the table in section 3 of RFC 3629 gives the code points of every name back |
| ImportFraming.SaltedStreamsAreUnique | bot/cli.py:1083-1090 | The salted stream determines the inner digest and the set of names, and does not depend on the set's order |
| ImportFraming.SaltedStreamReadsBack | bot/cli.py:1083-1090 | The salted bytes are the label's characters, the inner digest, and the excluded names as framed text, each once, in increasing order |
| ImportFraming.SaltedIsNoPageStream | bot/cli.py:1077-1090 | What the salt stage feeds is never what a page list feeds, unless the first page name is as long as the first four bytes of the label say |
| ImportFraming.FeedWhole | bot/cli.py:1056-1058 | The JSON loop feeds the file unchanged |
| ImportFraming.FeedChunks | bot/cli.py:1070-1073 | The chunk loop feeds each full-size chunk framed, then the terminator |
| ImportFraming.FeedPages | bot/cli.py:1064-1073 | The page loop feeds exactly the framed pages, or stops at a name too long for four bytes |
| ImportFraming.FeedSource | bot/cli.py:1054-1074 | The two branches of the source hash |
| ImportFraming.SaltImportHash | bot/cli.py:1077-1090 | No names: the inner hash alone; otherwise bytes that read back as label, digest and sorted framed names, and an error exactly when a name is too long |
| ConfigMerge.MergeByKey | _bmad/scripts/resolve_customization.py:115-138 | The loop with its index of positions computes the keyed merge, whatever the items are |
| ConfigMerge.KeyedMergeKeeps | _bmad/scripts/resolve_customization.py:115-138 | Base positions and keys stay, new keys follow in first-seen order, each key has its last override item else its base item, and distinct keys stay distinct |
| ConfigMerge.MergedByPosition | _bmad/scripts/resolve_customization.py:115-138 | Position by position, repeated keys included: the last base item of a key gives way to the last override item with it, other base items stay, and new keys follow in the order first named |
| ConfigMerge.PutFacts | _bmad/scripts/resolve_customization.py:126-136 | Storing one item changes only that key's item |
| ConfigLayers.MergeArraysByLoop | _bmad/scripts/resolve_customization.py:141-149 | The array case: keyed or appended |
| ConfigLayers.ArraysMerge | _bmad/scripts/resolve_customization.py:98-149 | Any two arrays: by `code` when every item of both has it, else by `id` when every item has that, else the override after the base |
| ConfigLayers.ExtractKey | _bmad/scripts/resolve_customization.py:171-179 | The cursor walk is the path lookup |
| ConfigLayers.PathLaw | _bmad/scripts/resolve_customization.py:152-168 | Along tables the merged tree holds the merge of the two values, or the one that exists |
| ConfigLayers.OneSideDecides | _bmad/scripts/resolve_customization.py:158-168 | Past the last common table one tree alone decides, except that two arrays meet in their array merge |
| ConfigLayers.EmptyLayer | _bmad/scripts/resolve_customization.py:158-165 | An empty layer changes nothing on either side |
| ConfigLayers.MergeConforms | _bmad/scripts/resolve_config.py:73-125 | Trees of one schema merge without raising into that schema |
| ConfigLayers.MergeAssociative | _bmad/scripts/resolve_config.py:114-125 | On one schema merging is associative |
| ConfigLayers.MergeIdempotent | _bmad/scripts/resolve_config.py:114-125 | Without plain arrays merging a tree with itself changes nothing |
| ConfigLayers.PlainArrayDoubles | _bmad/scripts/resolve_config.py:105-111 | A non-empty plain array merged with itself doubles |
| ConfigLayers.KeyedMergeAssociative | _bmad/scripts/resolve_config.py:82-102 | Keyed arrays with distinct keys merge associatively |
| ConfigLayers.MergeLayers | _bmad/scripts/resolve_config.py:161-163 | The fold of any number of layers, lowest priority first |
| ConfigLayers.FoldConforms | _bmad/scripts/resolve_config.py:161-163 | Folding layers of one schema raises nothing and stays in the schema |
| ConfigLayers.LastLayerDecides | _bmad/scripts/resolve_config.py:154-163 | For any trees: of all layers the last one with the path decides a scalar, whatever stands below it |
| ConfigLayers.LeftFoldIsRightFold | _bmad/scripts/resolve_config.py:161-163 | The left fold equals the right fold for any number of layers of one schema |
| MemLog.JoinedLinesSplit | _bmad/scripts/memlog.py:96-113 | Break-free lines joined by newlines split back into themselves |
| MemLog.NewlinesDoNotMatter | _bmad/scripts/memlog.py:96 | Reading with any line endings gives the same lines |
| MemLog.BodySurvives | _bmad/scripts/memlog.py:90-113 | A printed log reads back with its body exactly when no front line is a fence |
| MemLog.RoundTrip | _bmad/scripts/memlog.py:90-113 | With keys free of colons and breaks, the fields come back trimmed, on one line and in order, and the body unchanged |
| MemLog.WordsCollapse | _bmad/scripts/memlog.py:167 | The collapsed text has exactly the characters of the text that are no white space, in order, with one space exactly where white space stood between two of them, and none at the ends |
| MemLog.CollapsesOnce | _bmad/scripts/memlog.py:167 | Only one text is that |
| MemLogCommands.CountIsByLine | _bmad/scripts/memlog.py:132-133 | Each line counts on its own, and as one exactly when a dash and a space start it |
| MemLogCommands.LogFile.CountLines | _bmad/scripts/memlog.py:132-133 | The count of entry lines |
| MemLogCommands.LogFile.ReadText | _bmad/scripts/memlog.py:90-107 | The fence search and the field loop compute the specified reading, and name the missing or unterminated front matter |
| MemLogCommands.LogFile.CmdInit | _bmad/scripts/memlog.py:145-161 | Creates the log, or refuses an existing file or a field without `=` and changes nothing |
| MemLogCommands.LogFile.CmdAppend | _bmad/scripts/memlog.py:164-177 | Rewrites the file with the new entry last (`MemLogCommands.LinesRecordAppends` says what it holds), or reports why it cannot be read |
| MemLogCommands.LogFile.CmdSet | _bmad/scripts/memlog.py:180-187 | Rewrites one field and stamps the file |
| MemLogCommands.StepStores | _bmad/scripts/memlog.py:164-187 | On a log whose front matter hides no fence: an append adds one line at the end, a set leaves the body alone, the acknowledged number is the number of entries, and `updated` is last |
| MemLogCommands.AppendOnly | _bmad/scripts/memlog.py:116-187 | After any run of commands whose tags have no line break and whose keys hide no fence, the body lines are the old ones followed by the appended entries in order, all counted |
| MemLogCommands.AppendOnlyFromInit | _bmad/scripts/memlog.py:145-187 | The same from nothing: the k-th body line is the k-th appended entry |
| MemLogCommands.EntryRecords | _bmad/scripts/memlog.py:167-171 | What an entry holds: a dash, the tag of kind and author, and the text collapsed |
| MemLogCommands.LinesRecordAppends | _bmad/scripts/memlog.py:164-177 | After any such run the k-th new body line records the text, kind and author of the k-th append |
| MemLogFields.LastLineSets | _bmad/scripts/memlog.py:98-106 | Reading fields line by line: a line with a colon sets its key, any other changes nothing |
| MemLogFields.PrintedReadsBack | _bmad/scripts/memlog.py:90-113 | A dictionary printed with a body and read again has the same keys, with values on one line and trimmed |
| MemLogFields.GivenFields | _bmad/scripts/memlog.py:151-156 | One more field given to `init`: its trimmed key holds its trimmed value, split at the first `=`, and no other key changes |
| MemLogFields.InitReadsBack | _bmad/scripts/memlog.py:145-161 | A new log reads back with the fields given and the time of `updated` |
| MemLogFields.SetReadsBack | _bmad/scripts/memlog.py:180-187 | After a set the key reads back with the new value, `updated` with the time, every other key and the body as before |
| MemLogFields.AppendKeepsFields | _bmad/scripts/memlog.py:164-177 | An append leaves every field as it was, except `updated` |
| MemLogCommands.StepKeepsBodyIff | _bmad/scripts/memlog.py:164-187 | One command leaves the body it should exactly when its tag has no line break, or its key hides no fence |
| MemLogCommands.AppendOnlyIff | _bmad/scripts/memlog.py:116-187 | The body is the old one and the entries so far after every command of a run exactly when every tag and key is of that kind |
| MemLogCommands.AppendOnlyFromInitIff | _bmad/scripts/memlog.py:145-187 | The same from any `init` that succeeds: its fields may hide no fence either |
| MemLogCommands.FenceComesFromAKey | _bmad/scripts/memlog.py:110-113 | The front matter holds a fence exactly when one of its keys hides one |
| MemLogCommands.SetKeepsBodyIff | _bmad/scripts/memlog.py:180-187 | A set keeps the body exactly when no stored key hides a fence |
| MemLogCommands.SetKeepsBodyUnlessKeyHidesFence | _bmad/scripts/memlog.py:93-95 | On a log whose front matter hides no fence, a set keeps the body exactly when the new key hides none |
| HtmlEscape.ChainIsPerCharacter | alembic/versions/091_versioned_intro_flow.py:37-42 | The five nested replaces are one substitution per character |
| HtmlEscape.EscapedIsSafe | alembic/versions/091_versioned_intro_flow.py:37-42 | No raw markup or quote is left, and every ampersand starts one of the five entities |
| HtmlEscape.EscapeLosesNothing | alembic/versions/091_versioned_intro_flow.py:37-42 | A reader of HTML gets the input back |
| Migration091.PreflightMeansComplete | alembic/versions/091_versioned_intro_flow.py:64-84 | The counting test passes exactly when each of the seven questions has exactly one current answer |
| Migration091.NoDuplicateOwners | alembic/versions/091_versioned_intro_flow.py:46-62 | The grouping test finds nothing exactly when active applications have distinct users |
| Migration091.SnapshotIsSafe | alembic/versions/091_versioned_intro_flow.py:112-141 | Whatever the answers contain, the snapshot holds no markup |
| Migration091.FinalFieldsDiffer | alembic/versions/091_versioned_intro_flow.py:142-159 | No two answers of an application get the same field |
| Migration091.ContractIff | alembic/versions/091_versioned_intro_flow.py:198-363 | The migrated tables meet every constraint exactly when the legacy ones hold the six legacy statuses, at most one filling application per member, and answers owned by their applicants |
| Migration091.SnapshotIntroduces | alembic/versions/091_versioned_intro_flow.py:115-133 | The snapshot has seven lines: each label stands before the escaped current answer to its question |
| Migration091.FinalIsMigrated | alembic/versions/091_versioned_intro_flow.py:107-191 | Row by row and value by value: flow, catalogue and snapshot of an application by its status, field and currency of an answer by its question and its application's status; all else stays |
| Migration091.Migration.StringAgg | alembic/versions/091_versioned_intro_flow.py:115-133 | The aggregate is the seven labelled escaped answers in question order |
| Migration091.Migration.WriteSnapshots | alembic/versions/091_versioned_intro_flow.py:113-141 | Every active application gets its snapshot, kind and catalogue, no other row changes |
| Migration091.Migration.Transform | alembic/versions/091_versioned_intro_flow.py:107-191 | The seven updates in order amount to one classification of each row |
| Migration091.Migration.Upgrade | alembic/versions/091_versioned_intro_flow.py:87-363 | Succeeds exactly on the legacy tables described, with every row migrated value by value and the contract established; every error is predicted and leaves the tables as they were |
| Admission.Gate.GetActive | bot/db/repos/application.py:52-75 | The latest eligible application, including past admissions only on request |
| Admission.EligibleIff | bot/db/repos/application.py:52-75 | Which applications the lookup leaves out: refreshes, failed and rejected ones, past admissions unless asked for |
| Admission.Gate.UpdateStatusIf | bot/db/repos/application.py:105-120 | Changes the row exactly when it has the expected status |
| Admission.Gate.FindAdmission | bot/handlers/chat_events.py:144-160 | The upsert and the lookup of a join |
| Admission.Gate.FinishJoin | bot/handlers/chat_events.py:161-204 | Refuses, admits, swaps and queues as specified, including the lost swap |
| Admission.Gate.HandleChatMember | bot/handlers/chat_events.py:50-74 | Which updates are joins and leaves, and what each does |
| Admission.Gate.HandleVouch | bot/handlers/vouch.py:40-95 | Tests in order, then the swap: a pending application is vouched for by the voucher and bound to its own user, no other application changes, and log and invite rows are added |
| Admission.Gate.HandleReady | bot/handlers/vouch.py:133-159 | Moves the applicant's own blocked application to vouched, bound to the applicant, and keeps its voucher |
| Admission.LeaveUndoesJoin | bot/handlers/chat_events.py:22-37 | A leave is a join reversed, except that being restricted is no leave while lifting it is a join |
| Admission.JoinsAndLeaves | bot/handlers/chat_events.py:22-37 | A join leads inside from anywhere else, a leave from inside to left or kicked |
| Admission.JoinOutcome | bot/handlers/chat_events.py:153-204 | Who is let in, told by administrators, the claim and the rows at the swap; nobody else's membership and no other application changes |
| Admission.VouchAnswers | bot/handlers/vouch.py:43-58 | Which answer a refused vouch gets, and when none |
| Admission.VouchBinds | bot/handlers/vouch.py:60-95 | A vouch that passes the tests and finds the application pending binds the invite to the applicant, and records who vouched for whom |
| Admission.ReadyBinds | bot/handlers/vouch.py:133-159 | So does the privacy retry |
| Admission.VouchedApplicantEnters | bot/handlers/chat_events.py:153-204 | Whoever has a bound vouched application newer than their others is let in on exactly that one, and queued unless they have an intro |
| Admission.VouchedForEnters | bot/handlers/vouch.py:60-95 | From the vouch to the door: after an accepted vouch the applicant's join, if that application is their newest, makes them a member on it |
| AdmissionRuns.RunRecords | bot/handlers/vouch.py:83-95 | In every run each recorded voucher has a log row for the applicant and each vouched application an invite |
| AdmissionRuns.StepKeeps | bot/handlers/chat_events.py:139-204 | Every step of joins, leaves, vouches and the other writers keeps the invariant |
| AdmissionRuns.CommitCases | bot/handlers/chat_events.py:171-204 | A join that found a vouched application never loses the swap: its user's row is locked |
| AdmissionRuns.VouchedIsBound | bot/handlers/vouch.py:60-95 | In every run each application that becomes vouched is bound to its own user |
| AdmissionRuns.DemotionNeverFires | bot/services/invite_worker.py:44-53 | In no run does the demotion to `privacy_block` match, as an invited application is no longer pending |
| AdmissionRuns.EntryIff | bot/handlers/chat_events.py:141-204 | Every entry of a non-administrator commits a join, and it uses up a vouched application bound to the joiner exactly when it was not let in on a past admission by an outdated membership read |
| AdmissionRuns.EntryBySchedule | bot/handlers/chat_events.py:141-204 | The same told by the schedule: an entry uses up an application unless the user was a member when the join read membership, had left when it looked the application up, and that was a past admission |
| AdmissionRuns.EveryEntryUsesAnApplication | bot/handlers/chat_events.py:141-165 | With membership read right before the lookup, every entry uses up such an application |
| AdmissionRuns.OutdatedReadReadmits | bot/handlers/chat_events.py:141-151 | Any member on a past admission can leave and be let in on it again when the leave overtakes the read |
| AdmissionRuns.UsedOnce | bot/handlers/chat_events.py:172-192 | No two entries use the same application |
| AdmissionRuns.UsedWasVouched | bot/handlers/vouch.py:43-95 | The application was vouched for in the run by someone else who was a member when tested, unless it was past the vouch at the start |
| AdmissionRuns.TestedVoucherMayLeave | bot/handlers/vouch.py:43-95 | Any vouch that passes the tests can be overtaken by the voucher's leave, and still counts |
| AdmissionRuns.VoucherIsMemberAtSwap | bot/handlers/vouch.py:43-95 | When the voucher's membership does not end between test and swap, the voucher is a member at the swap and not the applicant |
| AdmissionRuns.WhoLoses | bot/handlers/chat_events.py:50-74 | Only a leave, or a refused join of one's own, ends a membership |
| AdmissionRuns.QueuedOnUse | bot/db/repos/intro_effect_outbox.py:14-20 | The introduction effect is queued only by such an entry of a user without an intro, at most once per application |
| RefreshMask.BitIsParity | bot/handlers/intro_refresh.py:406-410 | A bit is set exactly when its box is offered and was pressed an odd number of times |
| RefreshMask.SelectableQuestions | bot/handlers/intro_refresh.py:94-101 | All seven questions are offered, but for the referral when it is already a username |
| RefreshMask.CounterIff | bot/keyboards/inline.py:128-147 | For any mask the counter equals the size of the handed set exactly when no bit is foreign |
| RefreshMask.ToggleRun | bot/keyboards/inline.py:120-147 | After any presses: bits within the offered boxes, checked exactly when pressed oddly often, counter equal to the selection |
| RefreshMask.SelectedAreChecked | bot/handlers/intro_refresh.py:427-429 | The handed set holds exactly the fields whose boxes are checked |
| RefreshWave.Tracking.HandleOffer | bot/handlers/intro_refresh.py:216-268 | The answer to an offer computes the specified row (`RefreshWave.OfferAnswered`) |
| RefreshWave.Tracking.HandleSelection | bot/handlers/intro_refresh.py:272-469 | The selection callback computes the specified row and outcome (`RefreshWave.SelectionAnswered`) |
| RefreshWave.OfferAnswered | bot/handlers/intro_refresh.py:242-268 | Only an open offer can be declined or accepted, and the reminder is booked once, when the row leaves `claimed` |
| RefreshWave.SelectionAnswered | bot/handlers/intro_refresh.py:316-461 | A request from the wave that passes leaves the row started exactly when the workflow took the fields, cancelled exactly when the member closed the form, else accepted; any other changes nothing |
| RefreshWave.RunIsSound | bot/handlers/intro_refresh.py:242-246 | In every run of callbacks, sender and worker: completed exactly when past claimed, then with one reminder unless none was sent |
| RefreshWave.StepAdvancesIff | bot/services/scheduler.py:264-289 | A step takes the phase back, or leaves a last phase, exactly when it is the sender's update after the member's answer |
| RefreshWave.RunAdvancesIff | bot/services/scheduler.py:264-289 | Over any run the phase only advances and last phases are final exactly when the sender's update is never overtaken |
| RefreshWave.RunAdvancesBySchedule | bot/services/scheduler.py:264-289 | Told by the schedule alone: with callbacks and messages that arrive, that is exactly when no message is recorded as sent after the member has answered |
| RefreshWave.CallbacksAdvance | bot/handlers/intro_refresh.py:242-268 | Callbacks alone always advance, from a claimed row on |
| RefreshWave.DeclineIsLost | bot/services/scheduler.py:280-289 | A decline before the sender's update is overwritten and can then be accepted |
| RefreshWave.PressedFieldsAreHanded | bot/handlers/intro_refresh.py:404-449 | From the boxes to the workflow: exactly the fields pressed oddly often are handed over, as many as the counter shows, or the request is refused |
| RefreshWave.StartedMeansHanded | bot/handlers/intro_refresh.py:362-455 | A wave is started only by a request the workflow accepted, with at least one field |
| CoverageAudit.Collect | scripts/backfill_semantic_index.py:193-213 | The paging loop ends for every lister over finitely many documents; for one that returns whole sources in cursor order it records exactly the eligible documents |
| CoverageAudit.EligibleIdentities | scripts/backfill_semantic_index.py:180-234 | Both loops into one dictionary: when documents differ, each has its entry, part by part, with its own version list, and there is no other |
| CoverageAudit.RecordIsExact | scripts/backfill_semantic_index.py:163-177 | The dictionary holds exactly the documents: source, revision, chunk, chunks, chat and hash are each that document's, the model is the audited one, and each has its own sources |
| CoverageReport.ReadRows | scripts/backfill_semantic_index.py:288-307 | The row loop separates live, invalidated and unresolved rows |
| CoverageReport.TallySums | scripts/backfill_semantic_index.py:323 | The sum over the counter is the number of unresolved live rows |
| CoverageReport.Compare | scripts/backfill_semantic_index.py:309-356 | The verdict and the counts; indexed and missing make up eligible, and active is indexed, mismatched and unexpected |
| CoverageReport.CoverageReport | scripts/backfill_semantic_index.py:237-356 | Passes exactly when expected is non-empty and equals the live completed rows and no live row is unresolved |
| CoverageReport.AgreementIsOneToOne | scripts/backfill_semantic_index.py:163-177 | The index agrees exactly when documents and live completed rows match one to one, part by part |
| CoverageReport.Audit | scripts/backfill_semantic_index.py:237-356 | From listers to verdict: passes exactly when something is eligible, no live row is unresolved, and documents and live completed rows match one to one: source, revision, chunk, chunks, chat, hash and versions are the document's, the model the audited one |

## Left out

* Telegram calls, message texts, keyboards other than the selection mask, logging, argument parsing, administrator checks, and the parsing of callback data.
* SHA-256 (only the bytes fed to it), the content hash and the policy detector (any function; `bot/services/governance.py` at present always answers normal), clocks (an input), search and embeddings.
* The rest of `bot/cli.py`, the other migrations and the downgrades, the services behind the callbacks beyond what they write to the modelled rows.
* Version row ids: a version is named by its position in the message's history. Edits of rows that the backfill has locked wait until it commits.
* Edit transactions in `MessageRaces` write in one commit step after their lock and read steps; `MessageArchive` has the handler statement by statement.
* The meeting of migration 016 with 023 (a cleared pointer beside remaining versions): runs start from tables where "no current version" holds exactly when there are no versions.
* The locks of cascades on event rows and card rows, their other layers (search, digests, wiki, graph, butler), and `export` requests, which cascade to nothing. A worker's cascades write at its commit, when all of its locks are held; an event of a batch that fails and is skipped.
* Locks and waits of the transactions that add and edit messages: each is one step here, and needs the rows it changes to be free. An off-record edit writes the message row and then its versions (`bot/handlers/edited_message.py:97-145`), as a cascade does.
* The order in which a statement finds rows: one fixed order for each set of rows, whichever it is.
* How a deadlock ends: the database aborts one of the transactions, which `CardRaces` has as an abort at any time.
* Other writers of a message row in `MessageRaces` (the upsert of a message that is delivered twice), and a rollback of the version backfill, which would take its fills back and release its locks.
* Table key order, NaN and non-string table keys in configuration trees; a key value that cannot be hashed raises in the program, and `Mergeable` says exactly when that does not happen.
* Code points that have no UTF-8 encoding; reading a log file that is not valid UTF-8.
* Intros and the two new outbox tables of migration 091, whose new columns start NULL or empty; column widths; the choice among equal question indices, which the preflight excludes.
* The coverage percentage, which is rounded for display.
* Collation: the audit model orders card identifiers by code point, as the program compares them; the database orders identifiers of one fixed shape the same way.
- CardSafety.CardsComeFromCleanSources: a source may have a recorded forget request when its card is created; `CardEligibility.EligibleAtCommitIff` says exactly when.
- CardSafety.EveryRunIsSafe: a card may go on citing a superseded version of a forgotten message; `CardCitations.StaleIff` says exactly when.
- CardSafety.NoSecondRoundOfLocks: nothing in the model changes a source list, as nothing in the program does.
- CardDeadlock.NoDeadlock: stated for workers that ask safely, because others can deadlock; `CardVerdict.DeadlockIff` is exact while nothing is added.
- CardVerdict.DeadlockIff: for runs that add no message and no version; with edits even safe targets can deadlock (`CardEdits.EditOvertakesWorker`).
- CardProgress.EveryoneCanFinish: stated for one worker at a time that is safe.
- RefreshWave.RunAdvancesBySchedule: for runs in which sending does not fail; `RefreshWave.RunAdvancesIff` covers every run.
- ImportFraming.SaltedIsNoPageStream: about HTML page lists; a JSON export is fed unframed, so a file that holds the bytes of a salted stream feeds them.
- ConfigMerge.MergeByKey: stated where no key value is unhashable, because the program raises otherwise.
- ConfigLayers.MergeLayers: stated where no merge along the fold raises.
- MemLogCommands.AppendOnly: stated for plain commands, because the others break the body (`MemLogCommands.AppendOnlyIff`); "updated is last" is about the printed front matter; reading it back moves nothing unless a key contains a colon.
- MemLogFields.SetReadsBack: for keys as a reader makes them (trimmed, on one line, no colon); `MemLogCommands.SetKeepsBodyIff` covers every key.
- CoverageReport.Audit: for documents and rows of which no two have the same parts: chunks of one source are numbered, and the index table has a unique key (`alembic/versions/089_semantic_qa.py:197-205`).
- Admission.Gate.GetActive: ties on the creation time are broken arbitrarily, as the query leaves them.
- AdmissionRuns.UsedWasVouched: applications that were already vouched or blocked when the run began are excepted, because nothing records who was a member then; the voucher is a member at the test, and at the swap under the condition of `AdmissionRuns.VoucherIsMemberAtSwap`.
- RefreshWave.Tracking.HandleSelection: the workflow's own result is an input; errors other than the workflow's roll the transaction back and are not modelled.
- CoverageAudit.Collect: exact only for a lister that returns whole sources in cursor order; rows that change between two pages are not modelled.
