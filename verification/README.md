# Emailibrium sync engine: a verified model

This project models the mail synchronisation and background work engine of the Emailibrium backend and
proves what its operations guarantee over whole runs. SQLite tables are maps or sequences of rows, each
public method is one atomic step, and whatever comes from outside (provider answers, clocks, generated
ids, handler verdicts) is a parameter.

- `Labels`, `EmailRows`, `EmailStore`, `Counts`: the `emails` table. Label comparison, the state labels
  imply, the comma-separated column, the column merge of an upsert, the folder handlers, the retention
  purge, the dashboard counts.
- `History`, `DeltaSync`, `Outlook`, `MailSync`: provider synchronisation. Aggregation of a history window,
  its three-phase application, Outlook's delta, the full listing with its fallback.
- `GmailLabels`, `Refinement`, `UnsafeWindows`: when the incremental path may stand in for the full one, over
  one window and over any number of them, and the histories where it may not.
- `SyncWrites`: every sync as a sequence of single row writes, which carries what holds of their runs across syncs.
- `Jobs`, `OfflineQueue`, `RetryEquivalence`, `Conflicts`: the two durable retry queues, their workers,
  and conflict resolution.
- `ImapPaging`: descending UID pagination over a mailbox that changes between pages.
- `AccountLock`: the per-account pipeline lock and the two programs that use it.
- `Mime`, `AuditLog`: the body search in a MIME tree, and the append-only audit log.

## Findings

Where the code does not do what its comments or the obvious expectation say, the model follows the code
and the exact condition is proved.

- Incremental sync forgets the order of label events in a window. A message with events in the window gets
  the flags of a full sync exactly when its replayed window is safe (`Refinement.IncrementalRefinesFull`); after
  any number of windows only the last one with an event of the message matters (`StepAfterWindows`). Trashed
  and restored, or moved from spam to trash, within one window is not safe (`UnsafeWindows.TrashRoundTripFails`,
  `SpamToTrashFails`). The folder column also goes wrong for sent mail and drafts that leave trash or spam
  (`IncrementalFolder`, `RestoredSentMailIsMisfiled`), and a label event overwrites a deletion reported in the
  same window (`DeletedMessage`, `TrashedThenDeletedHasNoStamp`).
- A message whose fetch fails is skipped, while the marker moves on (`MailSync.FailedFetchIsNotRepeated`); what
  becomes of its row, and when that is right, is `Refinement.FailedFetchRow` and `FailedFetchFlags`.
- The status of a delta response is not looked at, and an error body parses as an empty window. An expired marker
  answered that way never leads to a full sync: every sync succeeds with nothing done
  (`MailSync.ErrorBodiesNeverFallBack`).
- Incremental sync reads one history page and still moves the marker past the window
  (`LaterHistoryPagesAreSkipped`). No sync loses anything of a message by that exactly when the first page reads
  like all of them (`FirstPageSuffices`).
- It fetches single messages with raw label ids, the listing with label names. The flags of all messages agree
  exactly when no label is named like another label the sync interprets (`GmailLabels.NamesAgreeExactly`); a user
  label named Trash is the counterexample (`UserLabelNamedTrash`).
- The listing loop also stops at an empty page that carries a token (`MailSync.ListingComplete`,
  `EmptyPageEndsListing`).
- `upsert_email` is documented to answer 1 for an insert and 0 otherwise; an update counts too, so the reported
  number is that of the messages upserted exactly when none is both added and relabelled (`DeltaSync.CountedTwice`).
- The purge compares timestamps of two text formats, which makes it a comparison of whole days: never early,
  at most a day late, and late exactly while the two dates are the retention period apart
  (`EmailStore.ExpiryBounds`, `ExpiryIsLate`).
- An upsert keeps a row's deletion stamp while taking its state from the labels. A stamped row stays in the trash
  exactly as long as no upsert of that message takes it out (`EmailStore.TrashedUnlessUntrashed`); otherwise the
  purges may remove it at once, by the old stamp (`ReTrashedIsPurgedAtOnce`, `ReSyncedSpamIsPurgedAtOnce`). Marking
  as spam clears the stamp, so the spam purge finds nothing but such rows (`SpamPurgeExactly`).
- Restoring and unmarking always lead to the inbox (`UndoReachesInboxOnly`).
- A move to a target with commas is not idempotent, unless the target is made of commas only
  (`Labels.AppendLabelIdempotence`).
- Recovery after a crash does not take the interrupted try back in the job queue, and the operation queue
  has no recovery (`RetryEquivalence.RecoveryBreaksIt`).
- Resolving under the manual strategy clears an earlier resolution (`Conflicts.UnresolvedExactly`).
- The IMAP listing keeps the order of the server's FETCH answer within a page. The requests are descending, the
  walk is so exactly when the server gave each of its answers in descending order (`ImapPaging.FollowTokens`,
  `AscendingWalk`); it repeats no UID either way.
- HTML data that does not decode ends the search of its level only, so a later part may be returned instead of
  the first (`Mime.HtmlIsFirstInPreOrder`, `BrokenNestedPartIsPassedOver`, `BrokenPartHidesSibling`).
- `extract_body_text` is described as recursive but looks at two levels only. It finds the first plain-text part
  exactly when that lies there (`Mime.TextIsRecursiveExactly`, `ThirdLevelTextMissed`).
- Outlook syncs are never incremental: the comment on `fetch_provider_history_id` expects a first delta call, but
  no account of another provider than Gmail ever gets the marker that leads to one (`MailSync.NoMarkerOutsideGmail`).
- The Outlook mapping nobody reaches is wrong as written: moves back to the inbox are mapped to nothing, so a move
  into trash or junk followed by another within one response ends in the wrong place (`Outlook.RowFollowsLastMove`,
  `MoveBackToInboxFails`).
- Folder moves upper-case by Unicode, labels compare by ASCII case: a target spelled with a long s is filed in one
  place and labelled as another (`EmailStore.FolderMoveFollowsLabels`, `LongSentMove`).
- Rule actions write single state columns, so with rules enabled the row invariant can break
  (`EmailStore.RulesAndCoherence`).

## Model

| member | source | states |
|---|---|---|
| Labels.DeriveConcat | backend/src/db/mod.rs:99-113 | deriving the state of two label lists together is the higher of the two derived states in the order inbox, draft, sent, spam, trash |
| Labels.DeriveMonotone | backend/src/db/mod.rs:99-113 | a list that covers another up to letter case never derives a lower state |
| Labels.SameLabelsSameState | backend/src/db/mod.rs:99-113 | order, repetition and ASCII case of labels do not matter |
| Labels.DerivedColumns | backend/src/db/mod.rs:99-113 | which labels set which of the three state columns, trash before spam before sent before draft |
| Labels.SplitJoin | backend/src/api/emails.rs:836-850 | splitting a joined list of comma-free labels gives the list back |
| Labels.JoinSplit | backend/src/api/emails.rs:836-850 | joining the pieces of a labels column gives the column back |
| Labels.AppendLabelState | backend/src/api/emails.rs:826-855 | a label move leaves the maximum of the old labels' state and the target's, for every column content and target |
| Labels.AppendLabelIdempotence | backend/src/api/emails.rs:826-855 | repeating a move changes nothing if and only if the target is free of commas or made of nothing else |
| EmailRows.FirstUpsert | backend/src/api/ingestion.rs:694-748 | a first upsert inserts the message's own fields and the column defaults; the text is its body, or without one its snippet |
| EmailRows.LaterUpsert | backend/src/api/ingestion.rs:704-716 | a later upsert replaces texts by non-empty ones only and headers by present ones only, always takes labels, flags and state, and touches nothing else |
| EmailRows.UpsertHistory | backend/src/api/ingestion.rs:685-748 | after any sequence of upserts each column of a row is the value of one named message of the history: last non-empty bodies, last present unsubscribe headers, last flags, labels and state, everything else as first stored |
| EmailRows.UpsertedAllIdempotent | backend/src/api/ingestion.rs:685-748 | repeating a whole sequence of upserts changes no row, whatever the sequence |
| EmailRows.UpsertedAllKeys | backend/src/api/ingestion.rs:685-748 | upserts lose no row and add exactly the ids of their messages |
| EmailStore.EmailTable.UpdateEmailState | backend/src/db/mod.rs:68-91 | writes the state columns and the stamp of one row, and answers whether there was one |
| EmailStore.EmailTable.DeleteEmail | backend/src/api/emails.rs:478-556 | soft or permanent delete of one row, its columns named; missing rows are reported and nothing is written |
| EmailStore.EmailTable.SpamEmail | backend/src/api/emails.rs:561-588 | the row is spam, filed as spam, without a deletion stamp; every other column and row as before |
| EmailStore.EmailTable.UnspamEmail | backend/src/api/emails.rs:591-618 | the row becomes inbox mail without a stamp |
| EmailStore.EmailTable.RestoreEmail | backend/src/api/emails.rs:621-648 | the row becomes inbox mail without a stamp |
| EmailStore.EmailTable.MoveEmail | backend/src/api/emails.rs:781-860 | nothing is written when the provider refuses; a folder move stores the target and the state of the folder it names; a label move keeps the non-empty pieces, adds the target's unless present, and derives the state from them |
| EmailStore.EmailTable.ArchiveEmail | backend/src/api/emails.rs:373-398 | sets the archive flag and the labels column, leaves the state alone |
| EmailStore.EmailTable.StarEmail | backend/src/api/emails.rs:402-434 | toggles the star of one row; a missing row is reported |
| EmailStore.EmailTable.MarkReadEmail | backend/src/api/emails.rs:445-468 | sets the read flag of one row; a missing row is no error |
| EmailStore.EmailTable.EmptyTrashFor | backend/src/api/emails.rs:657-720 | removes exactly the trashed rows, of the account if one is given, keeps the others as they are, and answers how many |
| EmailStore.EmailTable.Purge | backend/src/main.rs:757-801 | one tick removes exactly the stamped rows whose date is more than the retention period ago, in trash or in spam, each if its period is set |
| EmailStore.RunsStayCoherent | backend/src/api/emails.rs:478-648 | in every run of the row writers no row is trash and spam, and each flag agrees with the folder |
| EmailStore.UndoReachesInboxOnly | backend/src/api/emails.rs:591-648 | restore undoes delete, and unspam undoes spam, exactly for unstamped inbox mail |
| EmailStore.LabelMoveFollowsLabels | backend/src/api/emails.rs:826-855 | after a label move the state columns agree with the labels column and are the higher of the old labels' state and the target's |
| EmailStore.FolderMoveFollowsLabels | backend/src/api/emails.rs:802-825 | after a folder move they agree if and only if the target is not DRAFTS and names no folder by a long s; for a target with commas if and only if none of its pieces has a state |
| EmailStore.LongSentMove | backend/src/api/emails.rs:803-825 | a folder called by a long s: filed as sent, while its label says inbox |
| EmailStore.RulesAndCoherence | backend/src/rules/executor.rs:22-58 | exactly which rows two of the rule actions leave incoherent |
| EmailStore.ExpiryBounds | backend/src/main.rs:765-769 | an expired stamp is older than the retention period, one more day always expires it, and an older stamp is missed if and only if the dates are exactly the period apart |
| EmailStore.ExpiryIsLate | backend/src/main.rs:765-769 | a stamp almost a day past the retention period that is not expired |
| EmailStore.StampInTrashStep | backend/src/api/ingestion.rs:697-716 | a write leaves a row stamped outside the trash if and only if it upserts that row with labels that do not derive trash |
| EmailStore.StampedSince | backend/src/main.rs:763-769 | in every run a row's stamp names its last deletion, and its state is that of the last upsert since |
| EmailStore.TrashedUnlessUntrashed | backend/src/api/ingestion.rs:697-716 | since that deletion the row has been in the trash without interruption if and only if no upsert of this message took it out |
| EmailStore.PurgedWasLongInTrash | backend/src/main.rs:757-781 | in every run what the trash purge removes was deleted longer ago than the retention period, and was in the trash ever since if and only if no upsert of it took it out |
| EmailStore.SpamPurgeExactly | backend/src/main.rs:782-801 | in every run the spam purge removes exactly the messages with an expired deletion whose last upsert since saw them as spam |
| EmailStore.ReSyncedSpamIsPurgedAtOnce | backend/src/main.rs:782-801 | a deleted message seen as spam by a sync is removed by the spam purge at once |
| EmailStore.ReTrashedIsPurgedAtOnce | backend/src/main.rs:763-781 | a deleted message that a sync put back into the inbox, trashed again on the provider, is removed by the trash purge at once |
| Counts.CountsAreSizes | backend/src/api/emails.rs:1071-1093 | which rows the total, unread and archived counts count |
| Counts.FolderCountsAreSizes | backend/src/api/emails.rs:1095-1115 | which rows the spam, trash and sent counts, and the default listing, count |
| Counts.GroupsAreSizes | backend/src/api/emails.rs:1117-1136 | one group for each category of an active row, with its active and its unread rows |
| Counts.CountsCoverTable | backend/src/api/emails.rs:1071-1115 | total, spam and trash counts add up to the table plus the rows that are both |
| Counts.RunCountsAddUp | backend/src/api/emails.rs:1071-1115 | in every run of the writers the three counts partition the mailbox |
| Counts.CategoriesAddUp | backend/src/api/emails.rs:1117-1136 | per-category totals and unreads add up to the total and unread counts |
| Counts.ListingMatchesCounts | backend/src/api/emails.rs:165-182 | the default listing's total is the total count minus the archived count |
| History.DedupSameElements | backend/src/email/delta.rs:99-111 | the guarded pushes list every id once, losing and inventing none |
| History.DedupFirstOccurrenceOrder | backend/src/email/delta.rs:99-111 | the ids come in the order of their first occurrence |
| History.ParseGmailHistory | backend/src/email/delta.rs:86-144 | deduplicated ids in first-occurrence order and one entry per relabelled message, in whatever order the hash map is iterated |
| History.LabelMapAggregates | backend/src/email/delta.rs:114-132 | the entry of a message holds the deduplicated union of all labels added, and removed, in the window; there is one exactly for messages some change names |
| History.MergeSaysSame | backend/src/email/gmail.rs:1072-1078 | appending a page's delta says the same as parsing the longer window |
| History.HistoryListAll | backend/src/email/gmail.rs:1051-1097 | following all pages gives the ids and per-message label unions of the concatenated history and the latest history id |
| History.LatestIsLast | backend/src/email/gmail.rs:1074-1076 | the history id kept is that of the last page that has one |
| History.TypedKeepsPairs | backend/src/email/gmail.rs:1113-1143 | the typed response keeps every (message, label) pair of either direction |
| History.TypedLists | backend/src/email/gmail.rs:1135-1142 | the id lists are taken over as they are, a missing history id becomes empty |
| History.TypedEntries | backend/src/email/gmail.rs:1118-1133 | no entry of either direction is without labels |
| DeltaSync.FetchedAllAt | backend/src/api/ingestion.rs:566-585 | fetching depends on the set of ids only: order, repetition and overlap of new and updated ids do not matter |
| DeltaSync.LabelWritesAt | backend/src/api/ingestion.rs:607-658 | the label loop, message by message, reads the map and not its iteration order; SPAM entries override TRASH entries |
| DeltaSync.LabelWritesOrderFree | backend/src/api/ingestion.rs:607-658 | all iteration orders leave the same table and a second pass changes nothing |
| DeltaSync.AppliedAt | backend/src/api/ingestion.rs:566-658 | every row after an incremental apply, computed from the raw window |
| DeltaSync.AppliedOrderFree | backend/src/email/delta.rs:135-141 | the table after an incremental apply does not depend on the hash map's order |
| DeltaSync.SameEffectExactly | backend/src/api/ingestion.rs:566-658 | two windows leave the same row of a message, whatever the table, the mailbox and the time, if and only if they agree on whether it is fetched, which state its labels write and, if none, whether it is deleted |
| DeltaSync.ReportedCount | backend/src/api/ingestion.rs:566-580 | the reported number counts each fetchable id once for being added and once for being relabelled |
| DeltaSync.CountedTwice | backend/src/api/ingestion.rs:684-684 | the reported number is that of the messages upserted plus that of those both added and relabelled |
| MailSync.AccountSync.IncrementalSync | backend/src/api/ingestion.rs:435-681 | for Gmail and Outlook: failure leaves everything as it was; otherwise rows, answer, counter and marker for every response, the empty one included |
| MailSync.AccountSync.FullSync | backend/src/api/ingestion.rs:300-422 | rows, answer, counter and marker after the listing loop, including the pages stored before a failure; a marker for Gmail only |
| MailSync.AccountSync.Sync | backend/src/api/ingestion.rs:238-290 | the outcome of an incremental sync when a marker exists and the provider answers, otherwise that of a full sync with the marker forgotten |
| MailSync.NoMarkerOutsideGmail | backend/src/api/ingestion.rs:754-776 | in every run of syncs an account of another provider than Gmail, Outlook included, never has a marker, and each of its syncs is a full one |
| MailSync.GmailMarker | backend/src/api/ingestion.rs:392-415 | a completed full sync of a Gmail account stores the profile's marker, if it has one, and otherwise keeps the old one |
| MailSync.DeltaMarker | backend/src/api/ingestion.rs:541-552 | an answered incremental sync stores the answer's marker, if it has one, and otherwise keeps the old one |
| MailSync.GmailStaysIncremental | backend/src/api/ingestion.rs:248-290 | in every run of a Gmail account, after a full sync that stored a marker every sync is incremental as long as the provider answers |
| MailSync.ErrorBodiesNeverFallBack | backend/src/api/ingestion.rs:450-460 | any number of error bodies in answer to a marker leave rows, marker and counter as they are, each sync succeeding with nothing done |
| SyncWrites.SyncIsWrites | backend/src/api/ingestion.rs:238-681 | whatever a sync does, successful or not, is a sequence of the single row writes |
| SyncWrites.SyncsStayCoherent | backend/src/api/ingestion.rs:566-716 | no sync breaks the row invariant |
| SyncWrites.RunsGoOnThroughSyncs | backend/src/api/ingestion.rs:238-681 | a run of single writes goes on through a sync, so what holds of all runs holds with syncs in between |
| MailSync.ListingComplete | backend/src/api/ingestion.rs:310-362 | the listing takes in everything the provider offers if and only if no page with messages follows an empty page |
| MailSync.EmptyPageEndsListing | backend/src/api/ingestion.rs:384-387 | an empty page with a token followed by a message that is never listed |
| MailSync.FullSyncTwice | backend/src/api/ingestion.rs:300-422 | a second full sync over an unchanged provider changes no row and answers the same; only the counter counts everything again |
| MailSync.FirstPageSuffices | backend/src/api/ingestion.rs:445-458 | every incremental sync given the first history page leaves a message's row as the whole history would if and only if the first page reads the same for it |
| MailSync.LaterHistoryPagesAreSkipped | backend/src/api/ingestion.rs:445-458 | an incremental sync on a two-page window succeeds, stores the new marker and leaves the second page's message without a row, which the whole window would have inserted |
| GmailLabels.NamesAgreeExactly | backend/src/email/gmail.rs:89-118 | a listed and a singly fetched message agree on state, read flag and star for all messages if and only if the label names are honest |
| GmailLabels.UserLabelNamedTrash | backend/src/email/gmail.rs:472-489 | a user label named Trash: trash when listed, inbox mail when fetched |
| Refinement.ReplayTracksMailbox | backend/src/email/delta.rs:99-132 | replaying the window's events from what a message carried gives what it carries at the end |
| Refinement.FullListingInStep | backend/src/api/ingestion.rs:310-362 | a full listing puts the table in step with the mailbox |
| Refinement.FullSyncConfirms | backend/src/api/ingestion.rs:300-362 | a full sync on top changes no flag and adds no row if and only if the table was in step |
| Refinement.TouchedRow | backend/src/api/ingestion.rs:566-658 | a message with events gets the read flag and star of its labels without condition, and the state of the last matching branch |
| Refinement.UntouchedRow | backend/src/api/ingestion.rs:566-658 | a message without events keeps its row, and is unchanged on the provider |
| Refinement.IncrementalRefinesFull | backend/src/api/ingestion.rs:459-658 | where listing and fetching agree on a message, its four flags equal a fresh full sync's if and only if its replayed window is safe or, without events, its row was in step before |
| Refinement.IncrementalFolder | backend/src/api/ingestion.rs:607-658 | under the same agreement the folder equals a fresh full sync's if and only if in addition no removal branch applies to sent mail or a draft |
| Refinement.FailedFetchRow | backend/src/api/ingestion.rs:566-658 | a message that could not be fetched gets no new row; its row keeps read flag and star and has the state of the last matching branch, or its old one |
| Refinement.FailedFetchFlags | backend/src/api/ingestion.rs:566-658 | after a failed fetch the flags are a fresh full sync's if and only if there was a row, its read flag and star are still right, and the branches applied to its old state give the new one |
| MailSync.FailedFetchIsNotRepeated | backend/src/api/ingestion.rs:566-671 | a new message whose fetch fails has no row, and the marker has moved past it |
| Refinement.SyncKeepsStep | backend/src/api/ingestion.rs:459-658 | where they agree on all messages with events, a sync leaves the whole table in step if and only if every message with events has safe ones and every other row was in step |
| Refinement.SyncWindow | backend/src/api/ingestion.rs:435-681 | the account's incremental sync on any reported window succeeds and is one of the syncs the sequences consist of |
| Refinement.StepAfterWindows | backend/src/api/ingestion.rs:459-681 | after any number of incremental syncs, where listing and fetching agree on a message, its flags are a fresh full sync's if and only if the last window with an event of it was safe, or there was none and it was in step from the start |
| Refinement.DeletedMessage | backend/src/api/ingestion.rs:587-658 | a message gone at the end of the window, even one that arrived in it, gets no new row, and its row ends stamped in the trash if and only if the window has no TRASH or SPAM event for it |
| Refinement.OneKindIsSafe | backend/src/api/ingestion.rs:607-658 | events of one label and one direction, never both labels, real removals and unreused ids make a message replay-safe |
| UnsafeWindows.TrashRoundTripFails | backend/src/api/ingestion.rs:615-634 | for every table, a reported window that trashes and restores a message leaves its row in the trash; a fresh listing has it in the inbox |
| UnsafeWindows.SpamToTrashFails | backend/src/api/ingestion.rs:637-657 | for every table, a reported window that moves a message from spam to trash leaves its row in the inbox; a fresh listing has it in the trash |
| UnsafeWindows.RestoredSentMailIsMisfiled | backend/src/api/ingestion.rs:624-634 | sent mail taken out of the trash is filed in the inbox; a fresh listing has it under sent |
| UnsafeWindows.TrashedThenDeletedHasNoStamp | backend/src/api/ingestion.rs:587-634 | a message trashed and then deleted in one window ends in the trash without a deletion stamp |
| Outlook.ParseOutlookDelta | backend/src/email/delta.rs:212-242 | removed and modified ids, the folder moves and the delta link, in response order |
| Outlook.ItemsPartitioned | backend/src/email/delta.rs:221-239 | every item of a response is in exactly one of the two id lists |
| Outlook.MapFolderMoves | backend/src/api/ingestion.rs:505-523 | moves into trash and junk become label changes, others nothing |
| Outlook.FolderNamesByContent | backend/src/email/delta.rs:249-268 | a folder's name is the first well-known name that occurs in its lower-cased id, or else the id |
| Outlook.LabelledFolders | backend/src/api/ingestion.rs:499-504 | which folder names stand for trash, and which for spam |
| Outlook.LastLabelledMoveWins | backend/src/api/ingestion.rs:505-523 | a message ends where its last move into trash or junk put it, whatever came after |
| Outlook.OutlookRow | backend/src/api/ingestion.rs:486-658 | every row after an Outlook response; a fetched message has the read flag and star the provider reported |
| Outlook.RowFollowsLastMove | backend/src/api/ingestion.rs:505-523 | a fetched message ends in the state of its last folder if and only if no move into trash or junk is followed by a move elsewhere, or the state is the same |
| Outlook.MoveBackToInboxFails | backend/src/api/ingestion.rs:505-523 | what the branch would make of a message deleted and moved back within one response: trash |
| Jobs.JobQueue.Enqueue | backend/src/content/jobs.rs:217-240 | a fresh id adds a pending job with no attempts and the default limit; a known id changes nothing |
| Jobs.JobQueue.Dequeue | backend/src/content/jobs.rs:245-285 | hands out a pending job of the type with the smallest (priority, creation time), marked running with one more attempt, or nothing exactly when none is pending |
| Jobs.JobQueue.MarkCompleted | backend/src/content/jobs.rs:288-300 | completes the job and touches no other |
| Jobs.JobQueue.MarkFailed | backend/src/content/jobs.rs:306-337 | back to pending below the limit, failed at it, and no other job touched |
| Jobs.JobQueue.Cancel | backend/src/content/jobs.rs:340-351 | cancels a pending or running job and answers whether there was one |
| Jobs.JobQueue.ResumeAbandoned | backend/src/content/jobs.rs:376-390 | every running job and no other becomes pending, attempts kept; answers how many, and the pending count grows by that |
| Jobs.JobQueue.Drain | backend/src/content/jobs.rs:415-450 | a worker draining a fixed queue runs exactly the pending jobs of its type, in key order; a job's earlier runs failed, its last verdict decides whether it is completed, and one that fails was run exactly until its limit and carries the last message |
| Jobs.RunsAreContiguous | backend/src/content/jobs.rs:250-262 | with distinct keys each job's runs are one contiguous block |
| Jobs.StepsOneByOne | backend/src/content/jobs.rs:217-390 | what each action of the runs below does to the rows and the workers' hands |
| Jobs.ProgressBounded | backend/src/content/jobs.rs:245-450 | over any run of workers, cancels, enqueues and crashes the worker steps are bounded by the initial work, six per enqueue and four per crash |
| Jobs.QuiescentMeansDone | backend/src/content/jobs.rs:422-448 | when no worker can act every job is completed, failed or cancelled |
| Jobs.AttemptsStayBounded | backend/src/content/jobs.rs:264-390 | attempts never exceed the retry limit plus the number of recoveries |
| OfflineQueue.Queue.Enqueue | backend/src/email/offline_queue.rs:172-197 | stores the operation as given, or refuses a known id |
| OfflineQueue.Queue.DequeueBatch | backend/src/email/offline_queue.rs:203-228 | the oldest pending operations in creation order, and exactly those marked as processing |
| OfflineQueue.BatchSize | backend/src/email/offline_queue.rs:203-216 | a batch has min(limit, pending) operations |
| OfflineQueue.Queue.Complete | backend/src/email/offline_queue.rs:231-243 | completes one operation and touches no other |
| OfflineQueue.Queue.Fail | backend/src/email/offline_queue.rs:250-282 | counts the try and re-queues below the limit, fails at it |
| OfflineQueue.Queue.MarkConflict | backend/src/email/offline_queue.rs:285-298 | marks one operation as conflicting and touches no other |
| OfflineQueue.Queue.CountPending | backend/src/email/offline_queue.rs:301-309 | the number of an account's pending operations |
| OfflineQueue.StepsOneByOne | backend/src/email/offline_queue.rs:172-298 | what each action of the runs below does to the operations, and when a hand-out is counted |
| OfflineQueue.RunKeepsInv | backend/src/email/offline_queue.rs:203-298 | over every run each hand-out is accounted for by a failed try or the current or last one, none beyond the limit |
| OfflineQueue.TerminalIsFinal | backend/src/email/offline_queue.rs:203-298 | completed, conflicting and finally failed operations never change and are never handed out again |
| OfflineQueue.FirstInFirstOut | backend/src/email/offline_queue.rs:208-213 | a younger operation is in a batch only behind every older pending one |
| RetryEquivalence.HalfSteps | backend/src/email/offline_queue.rs:250-282 | handing out and reporting keep the two machines related, for every limit |
| RetryEquivalence.Bisimulation | backend/src/content/jobs.rs:264-323 | for every sequence of verdicts the two machines agree in status and number of tries |
| RetryEquivalence.AlwaysFailing | backend/src/content/jobs.rs:306-323 | an always-failing item is tried max_retries times by both, once if that is zero |
| RetryEquivalence.RecoveryBreaksIt | backend/src/content/jobs.rs:376-390 | crash recovery leaves the correspondence |
| Conflicts.ConflictDetected | backend/src/email/conflict_resolution.rs:123-162 | there is a conflict if and only if the remote is deleted or was modified after the queueing; what it records |
| Conflicts.LastWriterOutcome | backend/src/email/conflict_resolution.rs:123-184 | a detected conflict goes to the local side exactly for a deleted remote last modified before the queueing |
| Conflicts.ConflictResolver.LogConflict | backend/src/email/conflict_resolution.rs:219-243 | succeeds exactly for an id the history does not know, and extends the history |
| Conflicts.ConflictResolver.Resolve | backend/src/email/conflict_resolution.rs:165-216 | who wins under each strategy; the verdict is stored on the conflict's row only, a manual one clears it; extends the history |
| Conflicts.ConflictResolver.ListUnresolved | backend/src/email/conflict_resolution.rs:246-258 | newest first, exactly the conflicts the history leaves open |
| Conflicts.UnresolvedExactly | backend/src/email/conflict_resolution.rs:165-258 | after any sequence of logs and resolutions, the unresolved are the logged ones whose last resolution, if any, was manual |
| ImapPaging.ListMessages | backend/src/email/imap.rs:640-682 | one page: the largest UIDs below the token, descending, and a next token exactly when more remain |
| ImapPaging.FollowTokens | backend/src/email/imap.rs:640-710 | following tokens over a changing mailbox ends, requests UIDs in strictly descending order, visits the server's answers in the server's order, repeats no UID, visits exactly those present and delivered when their band was requested, and is descending if and only if the server gave each of its answers in descending order |
| ImapPaging.AscendingWalk | backend/src/email/imap.rs:690-710 | a server that answers from the oldest message up: the walk visits both messages in ascending order |
| ImapPaging.VisitedIffThereAtItsRequest | backend/src/email/imap.rs:652-682 | each UID below the maximum has one request, which decides whether a completed walk visits it |
| ImapPaging.StableMessageVisited | backend/src/email/imap.rs:640-682 | a message that stays is visited |
| ImapPaging.LateArrivalNotVisited | backend/src/email/imap.rs:652-664 | a newer message arriving after the first page neither disturbs the walk nor is visited by it |
| ImapPaging.LargestUidNeverVisited | backend/src/email/imap.rs:652-664 | the largest 32-bit UID is never listed |
| AccountLock.AccountLockMap.TryAcquire | backend/src/sync_lock.rs:39-50 | takes a free account or answers the existing activity and changes nothing |
| AccountLock.ReleaseUndoesAcquire | backend/src/sync_lock.rs:39-63 | acquiring, announcing a phase and releasing restores the map if and only if the account was free |
| AccountLock.AccountLockMap.Poll | backend/src/main.rs:613-668 | on every path of the poll closure the map is as before; what it reports when busy, after a failed and after a finished sync, and what is shown meanwhile |
| AccountLock.AccountLockMap.Ingest | backend/src/api/ingestion.rs:801-952 | the ingestion request and its task leave the map as before; a busy account answers the activity found |
| AccountLock.StepsOneByOne | backend/src/main.rs:613-668 | what each step of a poll closure and of an ingestion task changes, the branches after a failed sync included |
| AccountLock.ActKeepsInv | backend/src/main.rs:613-668 | every atomic step of every client keeps the map equal to the holders' announcements |
| AccountLock.LockedIffHeld | backend/src/api/ingestion.rs:801-952 | in every interleaving an account is locked exactly while one client holds it, and shows that client's activity |
| AccountLock.RefusalNamesHolder | backend/src/sync_lock.rs:44-47 | a refused client is told about the real holder and changes nothing |
| AccountLock.RunLength | backend/src/main.rs:613-668 | each client takes at most five steps |
| AccountLock.NothingLeaks | backend/src/main.rs:634-668 | when no client can move, all have ended on whatever path and the map is empty |
| AccountLock.StrayRelease | backend/src/sync_lock.rs:53-55 | a release from outside the protocol is harmless exactly when the account is free |
| Mime.HtmlIsFirstReadable | backend/src/email/gmail.rs:219-259 | on all trees the first readable HTML part, in pre-order, of what the search reaches |
| Mime.HtmlIsFirstInPreOrder | backend/src/email/gmail.rs:219-259 | on all trees the first HTML part with data in pre-order, payload included, if and only if that part decodes, there is none, or nothing reached decodes |
| Mime.NoHtmlExactly | backend/src/email/gmail.rs:219-259 | nothing is returned if and only if nothing the search reaches decodes |
| Mime.BrokenNestedPartIsPassedOver | backend/src/email/gmail.rs:238-259 | an undecodable first part inside a multipart, and a later one returned instead |
| Mime.HtmlComesFromTheTree | backend/src/email/gmail.rs:238-259 | on all trees an answer is the decoded data of some HTML part |
| Mime.BrokenPartHidesSibling | backend/src/email/gmail.rs:241-246 | undecodable data ends the search of its level |
| Mime.TextIsFirstInTwoLevels | backend/src/email/gmail.rs:182-212 | a direct body is taken whatever its type, also when it does not decode; without one, the first plain-text part with data in pre-order of the tree cut at two levels |
| Mime.TextIsRecursiveExactly | backend/src/email/gmail.rs:182-212 | for every payload and every decoding it is the first plain-text part of the whole tree if and only if: a direct body is plain text, or the part lies on the top two levels, or there is none, or the data coincide |
| Mime.AlternativeMessage | backend/src/email/gmail.rs:182-259 | a message with both bodies: each is found by its type |
| Mime.ShallowFirstIsFound | backend/src/email/gmail.rs:189-209 | a first plain-text part on the top two levels of a tree of any depth is what the search returns |
| Mime.ThirdLevelTextMissed | backend/src/email/gmail.rs:183-212 | a plain-text part on a third level is not found |
| AuditLog.EncodedColumns | backend/src/cleanup/audit.rs:231-262 | the column each field of an entry is stored in, and the names of outcomes, reasons and kinds |
| AuditLog.DecodeEncode | backend/src/cleanup/audit.rs:317-369 | a stored entry reads back as written, 64-bit sequence number included |
| AuditLog.EncodeDecode | backend/src/cleanup/audit.rs:317-369 | a row that can be read is the row of the entry read, up to an error message without its code or a code without message |
| AuditLog.UnreadableRows | backend/src/cleanup/audit.rs:320-355 | exactly which rows cannot be read, and what is reported about them |
| AuditLog.StoredOrder | backend/src/cleanup/audit.rs:254 | when the signed column orders two sequence numbers as they are |
| AuditLog.LogIsFirsts | backend/src/cleanup/audit.rs:230-263 | after any writes the log is the first entry of each (plan, job, seq, outcome), in writing order |
| AuditLog.ReplayChangesNothing | backend/src/cleanup/audit.rs:202-204 | writing any part of the past again changes nothing |
| AuditLog.AuditWriter.Write | backend/src/cleanup/audit.rs:230-263 | extends the history by the entry |
| AuditLog.RowsOfPlan | backend/src/cleanup/audit.rs:266-275 | the query takes every row of the plan as often as it occurs, and no other |
| AuditLog.AuditWriter.ListForPlan | backend/src/cleanup/audit.rs:265-277 | exactly the plan's logged entries, in stored order; reading never fails on rows that were written |
| AuditLog.ListedInCallersOrder | backend/src/cleanup/audit.rs:265-277 | for sequence numbers below 2^63 that order is (timestamp, seq) |

## Left out

- HTTP plumbing, OAuth, Redis, SMTP and IMAP transport, JSON parsing, base64 and HTML sanitising: foreign calls; provider answers are arguments.
- Failures of the database itself: every statement is taken to succeed.
- Gmail's own choice of what a listing contains: the comparison is with a listing that returns every message of the mailbox.
- Unicode case mappings other than the three letters outside ASCII that map into it: they cannot lead into the names compared with.
- The interleaving of the SELECT and the UPDATE inside one `dequeue` or `dequeue_batch`: each call is one step.
- Cancelling a job while a worker holds it: the run theorems restrict cancels to jobs no worker holds.
- Panics and process restarts between acquiring and releasing the pipeline lock, and provider syncs that do not take it.
- Rule matching and execution in runs: rules are taken as disabled; two rule actions are modelled to show the limits of the row invariant.
- The order of equal creation times or keys: left open, as the queries leave it.
- `list_emails` filters other than the default ones, `pending_count` of jobs, `list_pending`, `conflicts_for_entry` and `list_for_user`: easy members.
- The text formats of timestamps: times are integers, except that the purge's text comparison is modelled by the whole days it amounts to.
- The byte encodings of user and account ids in the audit log: strings are stored as they are.
- ImapPaging.SortDescending: the in-place library sort is modelled by its result, a descending list of the same UIDs.
- MailSync.AccountSync.UpsertEmail: takes the number of affected rows to be 1 for an insert and for an update on conflict, as the database counts them.
- ImapPaging.FollowTokens: takes a FETCH to be answered with the messages asked for, each once; messages a server volunteers are not part of the model.
- Jobs.JobQueue.Drain: fixes the queue during the drain; interleavings with other writers are covered by ProgressBounded and AttemptsStayBounded.
