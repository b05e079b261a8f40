# A verified model of the PushSDK gateway

The gateway stands between face-recognition terminals and school servers. This
project models its three durable state machines and its small exact pieces in
Dafny and proves what they guarantee over every input, every interleaving and
every reachable state.

- **Command queue and retained-event sync** (`SyncModel`, `SyncInvariant`,
  `SyncEvolution`, `SyncSteps`, `SyncTheorems`, `SyncHistories`, `SyncPages`,
  `SyncQueue`, `CommandStore`, `RetainedSearch`, `Ordering`). ISAPI commands go queued → sent →
  completed/expired. A sync run goes awaiting time → running → finished/failed
  and drives itself by linking one live command at a time.
- **PushSDK sessions** (`SessionModel`, `SessionInvariant`, `SessionTheorems`,
  `SessionDisagreements`, `SessionReplies`, `SessionDeadlines`, `SessionService`).
  Rotating challenges in memory, their checkpoints in the database, the idle sweep,
  replacement by AuthInfo, Logout, crash and restart. Every store call commits, fails, or is where the process dies.
- **All of it together** (`Gateway`). Sessions, command queue and outbox over one
  table of terminals: the status column that sessions write is the one that the
  command queue reads, and the work of a CommandResult or Event request is its
  transaction.
- **Outbox with leases** (`Messages`, `Backfill`, `OutboxModel`,
  `OutboxInvariant`, `OutboxTheorems`, `OutboxHistory`, `OutboxRoutes`,
  `OutboxRecords`, `OutboxStore`, `DeliveryWorker`, `WorkerHistories`). Ingestion,
  attendance and picture deliveries, routes, retries, preview-token backfills, and
  the worker that claims, sends and reports.
- **Envelope** (`Envelope`). PKCS#7 padding, cipher block chaining and base64.

Each state machine has a value-level model: a datatype for the tables and a
function per transaction, with `Apply` and `Exec` (`Handle` and `Run` for
sessions) over arbitrary step sequences. Invariants and theorems are about those
functions. Beside it stands the imperative form of the code — `CommandStore.Store`,
`SessionService.Service` and `OutboxStore.Outbox`, with fields that methods
update, loops over rows, and rollback — and every public method is proved to do
exactly what the model says and to keep the invariant.

What each transaction does is also stated without the model's own tests: `SyncPages`,
`SyncQueue`, `SessionReplies`, `SessionDeadlines`, `OutboxRecords` and the receipts of
`DeliveryWorker` say, over documents, columns and constants written out, exactly when
a transaction takes effect and which fields it writes.

`dafny verify dfyconfig.toml` checks the whole project.

## What the proofs found

- A retained-event page that announces more is rejected outright, and its run
  waits until its deadline, exactly when the end of the search as the gateway
  reads it back is not past the beginning of the year 2000 in the gateway's own
  location: the next request is rebuilt from the stored instant
  (internal/store/access_event_sync.go:342). `SyncHistories.MoreRejectedIff`
  says so of the received batch, `SyncHistories.MoreRejectedExample` is a history
  that ends in such a rejection.
- A login challenge can be accepted twice: a Logout whose checkpoint deletion
  fails leaves the session unauthenticated in memory with its old login challenge
  (internal/pushsdk/service.go:577-592). `SessionTheorems.LoginReplayExample`
  shows it; `SessionDisagreements.ReplayedLoginHasBrokenLogout` finds such a Logout
  between any two accepted logins with one challenge, and
  `SessionTheorems.ErroredLogoutAllowsReplay` is the converse.
- The gauge of active sessions drifts exactly when AuthInfo replaces an online
  session and both the transition and the compensation fail
  (internal/pushsdk/service.go:344-352). `SessionTheorems.GaugeDrifts`, with
  `SessionTheorems.GaugeDriftExample`.
- Memory and database come to disagree about a session after exactly two steps: a
  Login whose transition and compensating write fail
  (internal/pushsdk/service.go:460-467), and a Logout that errors after taking the
  terminal offline (577-592). `SessionDisagreements.DisagreeIff`, with
  `UndoneLoginExample` and `BrokenLogoutExample`.
- Work in flight does not always go to its terminal's current destination. An
  attendance delivery with a picture does until it is delivered, because its
  waiting picture keeps the route from changing
  (internal/store/event_deliveries.go:109-117); `OutboxRoutes.TrackedForever`. A
  failed picture, a failed delivery from before the table of pictures
  (db/migrations/015_event_attachments.sql) and a delivered event without a picture
  keep no route. Retrying the first two, or a picture backfill over the third,
  after the route has changed sends to the earlier destination, and nothing else
  does: `OutboxRoutes.StepAimed` and `AimedExactly`, for both queues.
  `PictureAstrayExample` is such a history from an empty database, `StrayExample`
  and `OutdatedBackfillExample` the other two.
- A sync run that loses its administrator between two pages has stored the records
  of the last page without counting them (internal/store/access_event_sync.go:315-340).
  `SyncTheorems.FailedRunAccounts`, `SyncHistories.UncountedPage`.

## Model

| member | source | states |
|---|---|---|
| `SyncTheorems.OneLiveCommand` | internal/store/access_event_sync.go:179-276 | In every reachable state an active run has exactly one live command, and what it asks the terminal is what the run waits for: the time while it awaits time, else the page of the search with the run's UUID at imported plus duplicate records, up to the end that the run recorded. A run that ended has none. |
| `SyncTheorems.OneActiveRunPerTerminal` | internal/store/access_event_sync.go:70-155 | A terminal never has two active runs. |
| `SyncTheorems.FinishedRunAccounts` | internal/store/access_event_sync.go:338-377 | A finished run has imported + duplicate = total, owns exactly `imported` retained rows, and read between ceil(total/30) and max(1,total) pages, one per page command. |
| `SyncTheorems.FailedRunAccounts` | internal/store/access_event_sync.go:315-340 | A failed run counts exactly its retained rows, unless it failed because its administrator was gone before the next page, where it has up to one page more. |
| `SyncHistories.UncountedPage` | internal/store/access_event_sync.go:338-340 | In that case the rows it has more are exactly the new ones of the page that announced more. |
| `SyncTheorems.PositionsNeverRepeat` | internal/store/access_event_sync.go:338-367 | Over any history no two commands of a run ask the terminal for the same position, nor any for one beyond 150000. |
| `SyncTheorems.RequestsMatchLinks` | internal/store/access_event_sync.go:222-367 | In every reachable state each time command of a run asks for the system time, and each page command asks, under the run's UUID, for the position it is linked at, up to the recorded end of the search and from before it; the first page from the recorded start. |
| `SyncTheorems.DefensiveFailuresNeverHappen` | internal/store/access_event_sync.go:222-377 | The failures "time after the search began", "no active page", "no match after the first page" and "totals differ" are unreachable. |
| `SyncTheorems.DefensiveErrorsNeverHappen` | internal/store/access_event_sync.go:179-220 | No batch is ever rejected because its command is linked to another terminal's run or to an inactive one. |
| `SyncTheorems.AcceptedResultsAdvance` | internal/store/access_event_sync.go:285-305 | Every accepted sync result strictly decreases a budget of at most 150002. |
| `SyncHistories.ResultsAreBounded` | internal/store/access_event_sync.go:179-393 | Over any history, the results that a run takes plus those it can still take never exceed what it could take before: at most 150002 in all. |
| `SyncHistories.DeadlineEndsRun` | internal/store/access_event_sync.go:457-471 | An active run waits for a command such that any sweep at or after that command's deadline ends the run. |
| `SyncHistories.MoreRejectedIff` | internal/store/access_event_sync.go:338-362 | After earlier results of a batch were accepted, a result whose page continues the search and announces more, its administrator present, is rejected for want of a next request exactly when the stored end is not after the year 2000 in the gateway's location; the whole batch is then rejected, whatever follows. |
| `SyncHistories.LoneMoreRejectedIff` | internal/store/access_event_sync.go:338-362 | The same for a timely result alone, in terms of the rows before the batch. |
| `SyncHistories.MoreRejectedExample` | internal/store/access_event_sync.go:342-345 | A history from an empty database — administrator, terminal, sync, claim, time, claim — after which the first page is rejected and its run stays active. |
| `SyncTheorems.ExecKeepsInv` | internal/store/access_event_sync.go:70-471 | Every history keeps the invariant, and rows only evolve: commands move forward, ended runs stay as they are, the bounds of a search and totals are fixed once known, counters grow, links and retained rows stay. |
| `SyncTheorems.DeadlinesHold` | internal/store/isapi_commands.go:433-491 | Every completion is strictly before the deadline, every expiry at or after it. |
| `SyncTheorems.ReplayChangesNothing` | internal/store/isapi_commands.go:256-338 | An accepted batch, replayed after any history, is accepted again and does nothing beyond the expiry sweep. |
| `SyncTheorems.ConflictRejectsBatch` | internal/store/isapi_commands.go:256-338 | A batch with a result for an unknown, foreign, queued, expired or overdue command, or one that contradicts a stored result, is rejected and leaves the database as it was. |
| `SyncTheorems.CompleteOneAddsDraw` | internal/store/isapi_commands.go:256-338 | The only command that a result can add is the one with the UUID drawn for it, and it changes no other. |
| `SyncTheorems.ClaimedOnce` | internal/store/isapi_commands.go:181-251 | Over any history no command is handed out by two claims. |
| `SyncSteps.PickedOldest` | internal/store/isapi_commands.go:181-251 | A claim takes claimable commands oldest first, at most the limit, and skips none that is older than one it takes. |
| `SyncQueue.ClaimExactly` | internal/store/isapi_commands.go:181-251 | A claim of 1 to 20 commands hands out the terminal's oldest queued commands with a deadline ahead, by creation and then UUID, and marks those as sent now; any other limit is refused. |
| `SyncQueue.QueueCommandIff` | internal/store/isapi_commands.go:122-179 | A command is queued exactly for a named administrator that exists, a deadline ahead, an online terminal and a fresh UUID, and nothing else is added. |
| `SyncQueue.QueueSyncIff` | internal/store/access_event_sync.go:70-155 | A sync starts exactly for a named administrator that exists, an online terminal with no sync whose command is still in time, and fresh UUIDs; it adds the run, a time command with 300 seconds to live and their link. |
| `SyncQueue.CommandExpires` | internal/store/isapi_commands.go:433-491 | Exactly the live commands in scope at or past their deadline expire, stamped with the time of the sweep. |
| `SyncQueue.RunExpires` | internal/store/access_event_sync.go:457-471 | An active run ends in a sweep exactly when the command that drives it is at or past its deadline: as unanswered if that command was handed out, as never fetched otherwise; its counts stay. |
| `SyncQueue.ResultRecorded` | internal/store/isapi_commands.go:256-338 | A result that is taken completes its sent command now with exactly its format and text; for a completed command only the same result is taken, and nothing changes. |
| `SyncSteps.CompleteCommandsKeepsInv` | internal/store/isapi_commands.go:256-338 | Completing a batch keeps the invariant; its errors never come from the run's bookkeeping. |
| `SyncSteps.QueueSyncKeepsInv` | internal/store/access_event_sync.go:70-155 | Starting a sync keeps the invariant and leaves every other row evolving. |
| `SyncSteps.RemoveAdminKeepsInv` | db/schema.sql:234-294 | Deleting an administrator clears references and keeps the invariant. |
| `SyncInvariant.ExpireKeepsInv` | internal/store/isapi_commands.go:433-491 | Expiring overdue commands fails exactly the runs they drive and keeps the invariant. |
| `SyncInvariant.InsertRetainedAccounts` | internal/store/access_event_sync.go:395-428 | Storing a page adds exactly the rows it counts as inserted, all for this run, and changes no stored row. |
| `SyncInvariant.EveryRecordRetained` | internal/store/access_event_sync.go:395-428 | Every record of a stored page is retained, by this run or an earlier one. |
| `SyncInvariant.PageSettles` | internal/store/access_event_sync.go:274-393 | Whatever a page result contains, the run afterwards has its one next command, or has ended with its accounts in order. Which pages are taken is `SyncPages.PageTakenIff`. |
| `SyncPages.PageTakenIff` | internal/store/access_event_sync.go:274-393 | A page command's result in time is stored exactly when it decodes, its format is absent or jsonData, its document is a page in order, its search id is the run, its total is the announced one, its position plus records stays within the total, MORE advances and stays below it, OK reaches it, NO MATCH is at 0, and every record is documented. Otherwise the run fails for a fault that the result has, and no record, link or command is added. Only a page that announces more can be rejected with its batch. |
| `SyncPages.BroughtPageMoves` | internal/store/access_event_sync.go:306-393 | What a stored page does: its rows, the run's new counts, and the end of the run, its failure for want of an administrator or an online terminal, or the next request — next position, recorded end, 300 seconds to live. It is rejected only for a stored end not past the year 2000 or for the UUID drawn. |
| `SyncPages.OtherResultFails` | internal/store/access_event_sync.go:274-313 | A result that brings no such page is accepted, fails the run with a reason that is true of it, and changes no other table. |
| `SyncPages.ForeignPageFails` | internal/store/access_event_sync.go:282-284 | A page of another search fails the run as a search id mismatch. |
| `SyncPages.RetainsExactly` | internal/store/access_event_sync.go:395-428 | After a page is stored every record has a row, old rows are as they were, and each new row is the first record of its source, with its projection, run and command. |
| `SyncInvariant.TimeSettles` | internal/store/access_event_sync.go:222-272 | The same for the time result. |
| `SyncPages.TimeTakenIff` | internal/store/access_event_sync.go:222-272 | A time result starts the search exactly when it tells a time past the beginning of 2000 there, the administrator is known and the terminal online: bounds recorded, first page asked for at position 0 within them. Otherwise the run fails; the batch is rejected only for the UUID drawn. |
| `RetainedSearch.ParsePage` | internal/accesscontrol/retained.go:130-168 | A parsed page has as many records as it counts, at most 30, within 150000, with a search id of 1 to 64 characters, and none when it says no match. |
| `RetainedSearch.ParsePageExact` | internal/accesscontrol/retained.go:130-168 | A page is read from a document exactly when the document spells it out and it satisfies those conditions. |
| `CommandStore.Store.ExpireOverdue` | internal/store/isapi_commands.go:433-491 | The sweep over expired commands commits the model's expiry. |
| `CommandStore.Store.QueueSync` | internal/store/access_event_sync.go:70-155 | Starting a sync commits what the model says or rolls back to the state before. |
| `CommandStore.Store.ClaimCommands` | internal/store/isapi_commands.go:181-251 | The claim hands out the model's choice in order and marks exactly those as sent. |
| `CommandStore.Store.InsertRetained` | internal/store/access_event_sync.go:395-428 | The loop counts inserted and duplicate records correctly and stores the model's rows. |
| `CommandStore.Store.CompletePage` | internal/store/access_event_sync.go:274-393 | The branches of a page result commit what the model says, which `SyncPages.PageTakenIff` and `SyncPages.BroughtPageMoves` state over columns. |
| `CommandStore.Store.CompleteTime` | internal/store/access_event_sync.go:222-272 | The branches of a time result commit what the model says. |
| `CommandStore.Store.CompleteCommands` | internal/store/isapi_commands.go:256-338 | A batch commits whole or leaves the tables as they were. |
| `Ordering.Sort` | internal/store/isapi_commands.go:195-201 | The order asked of the database: ascending, every key once. |
| `SessionTheorems.AuthenticatedIsDurable` | internal/pushsdk/session.go:109-186 | Through any fates, a session that memory holds as authenticated equals its checkpoint, which is valid and restores to it, offline. |
| `SessionTheorems.OnlineIsDurable` | internal/pushsdk/service.go:448-514 | An online session is authenticated and its terminal's durable status is online. |
| `SessionTheorems.ExposedIsDurable` | internal/pushsdk/service.go:435-601 | The challenge in an accepted Login or exchange is in the checkpoint when the terminal sees it. |
| `SessionTheorems.AnsweredMeansCommitted` | internal/pushsdk/service.go:551-601 | An answer goes out only if the store call of the action and the rotation both committed; `Gateway` puts the transaction of a CommandResult or Event request in its place. |
| `SessionTheorems.GaugeCounts` | internal/pushsdk/service.go:61-68 | The gauge is the number of online sessions plus the replacements lost since the start. |
| `SessionTheorems.GaugeExact` | internal/pushsdk/service.go:134-146 | Without a double failure the gauge is exact. |
| `SessionTheorems.GaugeDrifts` | internal/pushsdk/service.go:318-359 | An AuthInfo changes the gauge's error exactly when it replaces an online session and both transition and compensation fail. |
| `SessionTheorems.GaugeDriftExample` | internal/pushsdk/service.go:344-352 | A concrete run that ends with gauge 1 and no online session. |
| `SessionTheorems.ChallengeAcceptedOnce` | internal/pushsdk/service.go:483-601 | Over a whole run, restarts and rollbacks included, no challenge of a terminal authorises two accepted exchanges. |
| `SessionTheorems.LoginAcceptedOnce` | internal/pushsdk/service.go:406-476 | Without an errored Logout no login challenge is accepted twice. |
| `SessionDisagreements.ReplayedLoginHasBrokenLogout` | internal/pushsdk/service.go:577-592 | Between two accepted logins of a terminal with the same challenge lies a Logout of that terminal that took effect and then errored. |
| `SessionTheorems.ReplayNeedsErroredLogout` | internal/pushsdk/service.go:577-592 | The session that accepts a login challenge again is unauthenticated and holds a next challenge. |
| `SessionDisagreements.DisagreeIff` | internal/pushsdk/service.go:318-601 | From agreement, memory and checkpoint of a terminal disagree after a step exactly if it is a Login that was written and not undone, or a Logout that took effect and errored. |
| `SessionDisagreements.DisagreementIsAuthentication` | internal/pushsdk/service.go:460-467 | In either case the checkpoint is authenticated and memory is not. |
| `SessionDisagreements.UndoneLoginExample` | internal/pushsdk/service.go:460-467 | A run that ends in the first disagreement. |
| `SessionDisagreements.BrokenLogoutExample` | internal/pushsdk/service.go:577-592 | A run that ends in the second. |
| `SessionTheorems.ErroredLogoutAllowsReplay` | internal/pushsdk/service.go:577-592 | After an errored Logout, within the handshake deadline, the same login is accepted once more. |
| `SessionTheorems.LoginReplayExample` | internal/pushsdk/service.go:577-592 | A concrete run in which one login challenge is accepted twice. |
| `SessionTheorems.RevocationPoint` | internal/pushsdk/service.go:166-190 | After an accepted Logout neither memory nor checkpoint holds the session; after an accepted AuthInfo both hold only its own challenge. |
| `SessionTheorems.RevokedForever` | internal/pushsdk/service.go:483-601 | Whatever happens afterwards, that terminal's accepted requests prove challenges drawn later. |
| `SessionTheorems.SilenceNeverRevokes` | internal/pushsdk/session.go:109-167 | However long the silence and through any restarts, the last challenge handed out is accepted. |
| `SessionTheorems.HeldForever` | internal/pushsdk/session.go:109-149 | A held challenge stays held while the terminal is silent and its configuration stays. |
| `SessionInvariant.AuthInfoKeepsInv` | internal/pushsdk/service.go:318-359 | AuthInfo keeps the invariant under every fate of its three store calls. |
| `SessionInvariant.LoginKeepsInv` | internal/pushsdk/service.go:406-476 | Login keeps the invariant under every fate of its store calls. |
| `SessionInvariant.ExchangeKeepsInv` | internal/pushsdk/service.go:483-601 | Every authenticated exchange keeps the invariant under every fate of its store calls. |
| `SessionInvariant.SweepKeepsInv` | internal/pushsdk/service.go:106-160 | Every fate of a sweep's store call keeps the invariant. What a sweep does, and when, is `SessionDeadlines.SweepExactly`. |
| `SessionDeadlines.SweepExactly` | internal/pushsdk/service.go:106-160 | A committed sweep takes an online session offline, in memory, status and gauge, exactly when now is at least its challenge's time plus 60 seconds; it removes a handshake, in memory and database, exactly when now is at least its start plus three command intervals; it changes nothing else. |
| `SessionDeadlines.MaintainsEach` | internal/pushsdk/service.go:106-130 | Maintenance does to every terminal whose lock is free what one sweep of it does. |
| `SessionDeadlines.OnlineForAMinute` | internal/pushsdk/session.go:155-157 | After an answered request at some time the terminal is online, in memory and status, whatever else happens short of a crash or restart; a committed sweep less than 60 seconds later changes nothing, and one from then on takes it offline. |
| `SessionDeadlines.HandshakeDeadline` | internal/pushsdk/session.go:151-153 | After a granted handshake its challenge logs the terminal in exactly until three command intervals have passed; from then on a login is refused and, like a sweep, removes the handshake from memory and database. |
| `SessionDeadlines.RestartExactly` | internal/pushsdk/session.go:109-150 | A complete start takes back exactly the checkpoints of configured terminals with an unchanged fingerprint, 4096 rounds and challenges that fit their state, handshakes only if less than three intervals old; each field as stored, offline; it deletes the others. |
| `SessionReplies.AuthInfoGrantedIff` | internal/pushsdk/service.go:318-365 | A handshake is granted exactly to a configured terminal with a known mode whose two store calls commit, and the whole state it leaves. |
| `SessionReplies.AuthInfoRefusedKeeps` | internal/pushsdk/service.go:335-359 | A refused handshake whose undoing did not fail leaves every session, status and the gauge as they were, and the checkpoint that of the session. |
| `SessionReplies.LoginGrantedIff` | internal/pushsdk/service.go:406-481 | A login is granted exactly for a proof of the challenge of an unfinished handshake within three command intervals when draw and store calls succeed, and the whole state it leaves. |
| `SessionReplies.LoginRefusedKeeps` | internal/pushsdk/service.go:435-476 | A refused login within the deadline leaves sessions, statuses and the gauge as they were. |
| `SessionReplies.ExchangeGrantedIff` | internal/pushsdk/service.go:483-601 | An exchange is granted exactly to an authenticated session for a proof of its current challenge, a payload in order, and a draw and store calls that succeed. |
| `SessionReplies.AnsweredState` | internal/pushsdk/service.go:483-601 | The whole state after an answered exchange: online with the new challenge, in memory and checkpoint. |
| `SessionReplies.LoggedOutState` | internal/pushsdk/service.go:551-601 | After an answered Logout session and checkpoint are gone, the status is offline and the gauge does not count it. |
| `SessionReplies.ExchangeRefusedKeeps` | internal/pushsdk/service.go:483-601 | A refused exchange without the right proof changes nothing; with it, unless a Logout already took effect, every challenge stays, in memory and database, and only the terminal's presence is recorded. |
| `SessionInvariant.RestartKeepsInv` | internal/pushsdk/session.go:109-149 | A start, complete or stopped half way, keeps the invariant. |
| `SessionService.Service.AuthInfo` | internal/pushsdk/service.go:318-359 | Replacing the session in memory first and undoing it on failure has the model's outcome. |
| `SessionService.Service.Login` | internal/pushsdk/service.go:406-476 | Changing session fields first and restoring them on failure has the model's outcome. |
| `SessionService.Service.Exchange` | internal/pushsdk/service.go:483-601 | The authenticated handler has the model's outcome. |
| `SessionService.Service.MaintainSessions` | internal/pushsdk/service.go:106-130 | The loop over the terminals whose locks are free is the model's sequence of sweeps, each as `SessionDeadlines.SweepExactly` says. |
| `SessionService.Service.Start` | internal/pushsdk/session.go:109-149 | Restoring checkpoints one after the other succeeds exactly when no deletion fails and has the model's outcome either way. |
| `Gateway.SyncsAreNeverRefused` | internal/store/access_event_sync.go:243-254 | However requests, sweeps, crashes and administrators interleave, no run ever fails because its search or next page was refused for an offline terminal. |
| `Gateway.AnsweredEventsArchived` | internal/pushsdk/service.go:603-628 | In any joint history every event of an answered Event request is archived, in that state and in every later one. |
| `Gateway.ResentEventsChangeNothing` | internal/pushsdk/service.go:583-601 | A batch whose transaction committed, answered or not, commits again later without changing anything; each of its events has one archive row and at most one delivery. |
| `Gateway.AdmittedEventsCommit` | internal/pushsdk/service.go:603-628 | The batch of an admitted request is stored exactly when its payload formats are known. |
| `Gateway.AdmittedIsOnline` | internal/pushsdk/service.go:496-514 | When an authenticated CommandResult reaches its work, the database says that its terminal is online. |
| `Gateway.ResultsUnrefused` | internal/store/access_event_sync.go:351-362 | Completing commands of an online terminal never refuses a follow-up command. |
| `Backfill.MakePreview` | internal/store/event_backfills.go:67-192 | The one-pass preview satisfies the declarative rule, or is too large exactly above 10000 rows. |
| `Backfill.PassClassifies` | internal/store/event_backfills.go:113-141 | With live rows first, remembering the scans seen so far classifies a row as looking at the whole range does. |
| `Backfill.ClassesPartition` | internal/store/event_backfills.go:113-141 | Every row is in exactly one of eligible, already queued, duplicate and invalid. |
| `Backfill.TotalsAddUp` | internal/store/event_backfills.go:142-179 | Totals per person and per source sum to eligible, classes sum to the rows, identities are sorted by employee number. |
| `Backfill.PreviewUnique` | internal/store/event_backfills.go:180-191 | The rule determines the preview, counts, true first and last scans, sorted distinct names and candidates included. |
| `Backfill.NextPreview` | internal/store/event_backfills.go:132-141 | Once its candidates are queued, and whatever else is queued since, the same rows have no eligible one, already queued grown by that number, and unchanged duplicates and invalids. |
| `Backfill.Tally` | internal/store/event_backfills.go:147-170 | Counting one row keeps counts, true first and last scans and distinct names per person. |
| `Backfill.Arrange` | internal/store/event_backfills.go:175-179 | Sorting names and persons yields the rule's identities. |
| `OutboxTheorems.AttemptsCountClaims` | internal/store/event_deliveries.go:169-181 | The attempts of an item equal the claims that handed it out. |
| `OutboxTheorems.ClaimedOnce` | internal/store/event_deliveries.go:169-181 | For any interleaved workers, later claims of an item carry larger generations: none is handed out twice. |
| `OutboxTheorems.ReportedOnce` | internal/store/event_deliveries.go:183-194 | No generation of an item is reported successfully twice. |
| `OutboxTheorems.OvertakenReportChangesNothing` | internal/store/event_attachments.go:97-106 | Once an item was claimed again, the earlier worker's report fails and changes nothing. |
| `OutboxTheorems.LeaseExclusive` | internal/store/event_deliveries.go:169-181 | Until its worker reports, an item is not handed out again within 60 seconds. |
| `OutboxTheorems.BackOffHolds` | internal/delivery/worker.go:55-84 | After a postponed attempt the item is not handed out before the time in the report. |
| `OutboxTheorems.FailedUntilRetried` | internal/store/event_deliveries.go:196-220 | A failed item changes only by a retry. |
| `OutboxTheorems.RetriedIsClaimable` | internal/store/event_attachments.go:141-162 | A retried item is claimable at once exactly when its terminal's route is enabled. |
| `OutboxTheorems.DeliveredForever` | internal/store/event_deliveries.go:183-220 | Delivered is final. |
| `OutboxTheorems.ContentForever` | internal/store/event_deliveries.go:61-94 | Origin, destination, key and body of a delivery never change. |
| `OutboxTheorems.ClaimsRespectRoutes` | internal/store/event_deliveries.go:169-181 | A claim takes the lowest unlocked due item, and only for an enabled route. |
| `OutboxRecords.ClaimTakesFirst` | internal/store/event_deliveries.go:169-181 | A claim hands out a row exactly when it is the lowest unlocked one that is pending and due or sent with its lease over, its route enabled, and, for a picture, its event delivered. |
| `OutboxRecords.ItemLife` | internal/store/event_deliveries.go:169-220 | What a step writes to a row's status, attempts, next time and lease: a claim, 60 seconds and one attempt; the report of the current generation, by verdict; a retry of a failed row; nothing else. |
| `OutboxTheorems.NoOrphans` | internal/store/event_deliveries.go:231-258 | In every state reachable from tables with or without deliveries that are older than pictures, a terminal with an undelivered delivery or picture has a route. |
| `OutboxTheorems.PicturesFollowEvents` | internal/store/event_attachments.go:34-111 | From the same initial states: a picture that was ever handed out has a delivered parent, names its source, event and terminal, shows the payload archived for a live event and none for a retained one, and is that parent's only picture. |
| `OutboxTheorems.ClaimsAgree` | internal/store/event_attachments.go:34-95 | All claims of an item hand out the same body for the same destination. |
| `OutboxTheorems.PicturesLeaveEventsAlone` | internal/store/event_attachments.go:34-253 | No picture step alters any attendance delivery. |
| `OutboxInvariant.ApplyKeepsInv` | internal/store/event_deliveries.go:61-258 | Every step keeps the invariant of the outbox. |
| `OutboxInvariant.ClaimItemKeepsInv` | internal/store/event_attachments.go:68-95 | A claim never finds the event of a picture missing, and keeps the invariant. |
| `OutboxInvariant.PreviewIsReady` | internal/store/event_backfills.go:209-255 | Candidates of a preview are archived records of the terminal, pairwise different and carried by no delivery, so no uniqueness constraint can fire. |
| `OutboxInvariant.AcceptedIsUnspent` | internal/store/event_backfills.go:209-255 | A token that is accepted differs from the token of every recorded batch. |
| `OutboxHistory.IngestArchives` | internal/store/store.go:596-648 | An acknowledged batch is archived entirely. |
| `OutboxHistory.ReplayChangesNothing` | internal/store/store.go:596-648 | An acknowledged batch, sent again after any history, is acknowledged and changes nothing. |
| `OutboxHistory.FirstPayloadWins` | internal/store/store.go:605-616 | Per terminal and vendor identity the first payload stays for ever. |
| `OutboxHistory.IngestQueuesExactly` | internal/store/event_deliveries.go:61-94 | Exactly the newly archived events of type 5/75, state active, with an enabled route are queued, each once: source, event id, terminal, state, instant, employee, name and serial of the message are the archived event's, the destination is that route's, nothing was tried, and one untried picture waits. Nothing else becomes queued; what is newly archived is the batch as sent, first of its identity. |
| `OutboxHistory.OneDeliveryPerEvent` | db/schema.sql:351-376 | No two deliveries carry one record and no two pictures belong to one delivery. |
| `OutboxHistory.TokenAcceptedOnce` | internal/store/event_backfills.go:209-255 | Over any history no preview token is accepted twice. |
| `OutboxHistory.BatchesDiffer` | internal/store/event_backfills.go:229-233 | No two recorded batches spent the same token. |
| `OutboxHistory.PictureTokenAcceptedOnce` | internal/store/event_attachments.go:171-253 | The token of a picture backfill is accepted at most once, in any history from any consistent database. |
| `OutboxRoutes.PictureTokenExample` | internal/store/event_attachments.go:223-253 | A delivery older than pictures for which a token is accepted, and the picture delivery it then has. |
| `OutboxRoutes.PicturesAcceptedIff` | internal/store/event_attachments.go:171-253 | Some token is accepted exactly when the route is enabled and between 1 and 5000 delivered events up to the bound lack a picture. |
| `OutboxRoutes.PicturesComplete` | internal/store/event_attachments.go:223-253 | After an accepted picture backfill no delivered event up to its bound lacks a picture. |
| `OutboxHistory.BackfillQueuesExactly` | internal/store/event_backfills.go:229-249 | An accepted backfill adds one delivery and one picture per candidate, with the previewed body and destination, and no other row. |
| `OutboxHistory.NextPreviewFindsNothing` | internal/store/event_backfills.go:132-141 | While the archive stays, whatever workers and administrators do, the next preview of the range has nothing eligible, already queued grown by the queued number, and unchanged duplicates and invalids. |
| `OutboxHistory.RowsCoverRange` | internal/store/event_backfills.go:78-90 | The preview looks at exactly the terminal's records of type 5/75, live ones with state active, in the half-open range, of both archives. |
| `OutboxRecords.RowsTell` | internal/store/event_backfills.go:78-90 | Each row of a preview has the fields of its record: for a live event source, vendor id, terminal, state, instant, employee, name and serial; for a retained one its digest, no state and its own scan; and knows whether a delivery carries it. |
| `OutboxRecords.BackfillQueuesWanted` | internal/store/event_backfills.go:96-145 | After an accepted backfill exactly these records are queued besides those before: of the terminal, type 5/75 (live: active), in the range, deliverable, and, if retained, without a deliverable live event in the range of the same serial, instant, person and name. |
| `OutboxRecords.BackfillTells` | internal/store/event_backfills.go:229-249 | Every delivery that a backfill adds has its record's fields, the route's destination and key, the batch, no attempt, and one untried picture. |
| `OutboxRecords.ImportIff` | internal/store/access_event_sync.go:395-428 | A retained record enters the archive as it is exactly when its terminal is known and has no record of its digest. |
| `Messages.ValidIffDeliverable` | internal/store/event_backfills.go:194-207 | A message is valid exactly when its event id is 1 to 64 letters, digits or ". _ : -", it is dated, its employee has 1 to 32 characters without Unicode white space, a name has at most 100, and a serial is not negative; characters by code. |
| `OutboxRecords.PicturesQueueWanted` | internal/store/event_attachments.go:171-253 | An accepted picture backfill adds an untried picture to exactly the delivered events of the terminal, up to the bound asked for or all, that had none. |
| `OutboxRoutes.TrackedForever` | internal/store/event_deliveries.go:96-129 | From any consistent database, an attendance delivery with a picture, or queued since, goes to its terminal's current destination until delivered, through every route edit, failure and retry. |
| `OutboxRoutes.TrackedAlways` | internal/store/event_deliveries.go:96-129 | From an empty database every undelivered attendance delivery, failed ones included, goes to its terminal's current destination. |
| `OutboxRoutes.StepAimed` | internal/store/event_deliveries.go:96-220 | Everything in flight in both queues stays aimed at the current destination after a step exactly if the step neither retries a failed delivery or picture with an outdated destination nor is an accepted picture backfill over an event with one. |
| `OutboxRoutes.AimedExactly` | internal/store/event_attachments.go:141-253 | Throughout a history from any consistent database everything in flight in both queues goes to the current destination if and only if no such step happens in it. |
| `OutboxRoutes.StrayEventHasNoPicture` | internal/store/event_deliveries.go:109-117 | A failed attendance delivery with an outdated destination has no picture delivery. |
| `OutboxRoutes.PictureAstrayExample` | internal/store/event_attachments.go:43-62 | A history from an empty database — event delivered, picture refused, route changed, picture retried — after which the picture is handed out for the earlier destination. |
| `OutboxRoutes.OutdatedBackfillExample` | internal/store/event_attachments.go:184-253 | A delivered event older than pictures whose route changes and whose backfilled picture goes to the earlier destination. |
| `OutboxRoutes.StrayExample` | internal/store/event_deliveries.go:109-117 | A failed delivery older than pictures whose route changes and which a retry then sends to the earlier destination. |
| `OutboxStore.Outbox.Inherit` | db/migrations/015_event_attachments.sql:1-16 | The outbox over tables of the version before pictures satisfies the invariant. |
| `OutboxStore.Outbox.Claim` | internal/store/event_deliveries.go:169-181 | Selecting the lowest row and taking its lease is the model's claim, for both queues. |
| `OutboxStore.Outbox.LeasePicture` | internal/store/event_attachments.go:34-95 | The body is made once, at the first claim, and then reused. |
| `OutboxStore.Outbox.Finish` | internal/store/event_deliveries.go:183-194 | Only the current generation may report. |
| `OutboxStore.Outbox.Retry` | internal/store/event_deliveries.go:196-220 | Only a failed row is made pending again. |
| `OutboxStore.Outbox.SaveRoute` | internal/store/event_deliveries.go:96-129 | A destination changes only when nothing of the terminal is in flight. |
| `OutboxRecords.SaveRouteIff` | internal/store/event_deliveries.go:96-129 | A route row is replaced by the given one, and nothing else, unless the terminal is unknown, or endpoint or key change while an attendance message or picture of the terminal is pending or sending. |
| `OutboxStore.Outbox.DeleteRoute` | internal/store/event_deliveries.go:231-258 | A route is removed only when everything of the terminal is delivered. |
| `OutboxRecords.DeleteRouteIff` | internal/store/event_deliveries.go:231-258 | A route row is removed, and nothing else, exactly when the terminal is known, has one, and all its messages and pictures are delivered. |
| `OutboxStore.Outbox.Ingest` | internal/store/store.go:596-648 | The loop over a request's events commits whole what `OutboxHistory.IngestQueuesExactly` says, or leaves the tables as they were. |
| `OutboxStore.Outbox.QueueBackfill` | internal/store/event_backfills.go:209-255 | Preview, comparison and inserts commit the model's backfill or nothing. |
| `OutboxStore.Outbox.QueuePictures` | internal/store/event_attachments.go:223-253 | The same for pictures, with its limit of 5000 and its bound. |
| `DeliveryWorker.RetryDelay` | internal/delivery/worker.go:44-53 | The loop computes min(300, 5·2^(n−1)) seconds for n ≥ 1 and 5 below, and its variable never exceeds 320. |
| `DeliveryWorker.BackOffMonotone` | internal/delivery/worker.go:44-53 | The delay is monotone, between 5 and 300. |
| `DeliveryWorker.ValidReceipt` | internal/delivery/worker.go:128-177 | The streaming check accepts exactly the objects that list the expected fields in some order, each once, with matching values, and nothing after. |
| `DeliveryWorker.ReceiptIsComplete` | internal/delivery/worker.go:128-177 | A receipt leaves out no expected field. |
| `DeliveryWorker.ReceiptsNeverConfused` | internal/delivery/worker.go:128-177 | No body is valid both as an event receipt and as a picture receipt. |
| `DeliveryWorker.ReceiptsAreExact` | internal/delivery/worker.go:128-177 | For every body with a non-empty event identity, accepted are exactly the orderings of the expected fields with exactly the expected values. |
| `DeliveryWorker.EventReceiptIff` | internal/delivery/worker.go:112-177 | An answer is the receipt of an attendance message exactly when it is one object of three members: schemaVersion 2, its event id, receipt "stored". |
| `DeliveryWorker.PictureReceiptIff` | internal/delivery/worker.go:112-177 | That of a picture: four members, schemaVersion 1, its event id, "stored", and attachmentId "Picture". |
| `DeliveryWorker.ReceiptBindsBody` | internal/delivery/worker.go:112-125 | A receipt acknowledges one event identity, and either its attendance message or its picture. |
| `DeliveryWorker.Send` | internal/delivery/worker.go:86-126 | Delivered exactly on status 200 with a valid receipt; retried exactly, with known key and good destination, on no connection or a code of 408, 429 or at least 500; failed otherwise, so for every other code that is not an acknowledged 200; each with its own failure text. |
| `DeliveryWorker.Tick` | internal/delivery/worker.go:55-84 | One tick of a worker by itself is at most 25 claims, fewer only when nothing more is claimable, each followed by the report on that claim of what its answer means, with the back-off of its generation; nothing else happens. |
| `DeliveryWorker.TickDeliversAcknowledged` | internal/delivery/worker.go:86-126 | What a tick delivers, the receiver acknowledged in that tick with status 200 and a receipt for the body that was claimed. |
| `WorkerHistories.DeliveredWasAcknowledged` | internal/delivery/worker.go:55-126 | However workers interleave, what becomes delivered was acknowledged with status 200 and a receipt for the very body it carries, in answer to an earlier claim of the generation that reported it. |
| `WorkerHistories.DeliveredByReport` | internal/store/event_deliveries.go:183-194 | Nothing becomes delivered but by an accepting report of the current generation. |
| `Envelope.DecryptInvertsEncrypt` | internal/pushsdk/crypto.go:113-140 | For every byte string and every block permutation, decrypt inverts encrypt. |
| `Envelope.DecryptOnlyEncrypted` | internal/pushsdk/crypto.go:113-140 | A text opens to a plaintext exactly when it decodes to that plaintext's encryption. |
| `Envelope.UnpadPad` | internal/pushsdk/crypto.go:142-166 | Unpadding inverts padding. |
| `Envelope.PadUnpad` | internal/pushsdk/crypto.go:142-166 | Whatever unpads is the padding of what comes out. |
| `Envelope.PadIsPKCS7` | internal/pushsdk/crypto.go:142-150 | Padding appends 1 to 16 bytes, each of their number as value, up to a multiple of 16. |
| `Envelope.PadPKCS7` | internal/pushsdk/crypto.go:142-150 | The copy and fill loops produce the padding. |
| `Envelope.UnpadPKCS7` | internal/pushsdk/crypto.go:152-166 | The scan accepts exactly well-padded values and returns the rest. |
| `Envelope.CbcInverts` | internal/pushsdk/crypto.go:113-140 | Chained decryption inverts chained encryption. |
| `Envelope.CbcSurjective` | internal/pushsdk/crypto.go:113-140 | Chained encryption inverts chained decryption. |
| `Envelope.CbcChains` | internal/pushsdk/crypto.go:129-140 | Each 16-byte block of the secret is the cipher of its plain block xor the secret block before it, the first with the initial vector. |

## Left out

- HTTP routing, headers, cookies, the WebSocket monitor, metrics, static files and the console: no hard property.
- JSON, XML, multipart, JPEG and RFC 3339 text: documents arrive parsed, so DeliveryPicture is represented by the payload that it reads, and projections arrive with their events.
- Hashes, HMAC, PBKDF2, AES and constant-time comparison: SHA-256 digests are identified with what they digest, a challenge proof with the challenge, AES with any permutation of blocks, base64 with any codec that decodes what it encodes.
- PostgreSQL locking and isolation: each transaction is one atomic step, requests of one terminal are serialised by its lock, and rows locked by other claims appear as a parameter of a claim.
- Commits whose outcome is unknown to the caller: a store error means no effect.
- Randomness: a challenge or salt is the next value of a counter; a drawn UUID is a parameter whose collision aborts the transaction, and of its pattern only the length is checked.
- Administrator accounts, activity records, last_seen_at, schema migrations, configuration loading and archive queries.
- The retained records of the sync and of the outbox are two tables: records enter the outbox by a step of their own, not by the page that a sync stores.
- Versions before pictures: a history of the outbox starts from tables whose rows satisfy the schema's keys and references and whose unfinished deliveries have a route; how such versions got there is not modelled.
- Identity columns: one counter serves every table of the outbox, without the gaps that rollbacks leave; batches keep their token and terminal only.
- A terminal's PushSDK serial is identified with its serial number; messages omit it and the constant event type.
- Attendance messages of the earlier schema version, and the rewriting of an endpoint's path for pictures: a picture's ticket carries its event's endpoint.
- Aliasing of `*Session`: a session is a value in the map of sessions, and a handler writes it back after each field change.
- Context cancellation, signatures and timestamps of the delivery worker, and the byte limit of a receipt, which arrives as a parameter.
- BackfillAccessEventProjections appears only as a step that may revise any archived event's projection; its batching is not modelled.
