/**
 The durable state behind the ISAPI command queue and the retained-event sync,
 and what each transaction over it commits
 (internal/store/isapi_commands.go, internal/store/access_event_sync.go).

 Tables are maps keyed by their primary key. A transaction is a function from
 the state it finds to the state it commits, or to the error that rolls it
 back. Clock readings and drawn UUIDs are arguments.
 */
module SyncModel {
  import opened Wrappers
  import opened Ordering
  import opened RetainedSearch
  import opened Terminals

  type Uuid = string

  // ----- isapi_commands ------------------------------------------------------

  datatype CommandStatus = Queued | Sent | Completed | Expired

  datatype Request =
    | SystemTime
    | EventSearch(condition: SearchCondition)
    | Generic(method_: string, url: string, format: string, data: string)

  /** The exact result text; `format` is None when the terminal declared none. */
  datatype Response = Response(format: Option<string>, text: string)

  datatype Command = Command(terminal: Serial, request: Request, status: CommandStatus, createdAt: nat, expiresAt: nat,
                             sentAt: Option<nat>, completedAt: Option<nat>, response: Option<Response>)

  predicate Live(c: Command) { c.status.Queued? || c.status.Sent? }

  // ----- access_event_sync_runs and access_event_sync_commands ---------------

  datatype RunStatus = AwaitingTime | Running | Finished | Failed

  datatype Failure =
    | UndecodableResult
    | TimeAfterSearchBegan
    | NotATimeDocument
    | TimeCannotBoundSearch
    | AdministratorGoneBeforeSearch
    | SearchNotQueued
    | WrongFormat
    | NoActivePage
    | NotAPageDocument
    | SearchIdMismatch
    | TotalChanged
    | ExceedsTotal
    | NoMatchAfterFirstPage
    | MoreWithoutAdvance
    | OkWithoutCompletion
    | UndocumentedRecord
    | AdministratorGoneBeforePage
    | PageNotQueued
    | TotalsMismatch
    | ExpiredBeforeDelivery
    | ExpiredAwaitingResult

  datatype Run = Run(terminal: Serial, createdBy: Option<nat>, createdByName: string, searchId: string,
                     status: RunStatus,
                     searchStartedAt: Option<int>, searchEndedAt: Option<int>, totalMatches: Option<nat>,
                     pages: nat, imported: nat, duplicate: nat, failure: Option<Failure>, completedAt: Option<nat>)

  predicate Active(run: Run) { run.status.AwaitingTime? || run.status.Running? }

  datatype Phase = TimePhase | PagePhase(position: nat)

  datatype Link = Link(run: Uuid, phase: Phase)

  // ----- retained_access_events ----------------------------------------------

  /** The SHA-256 of a source record stands for the record, so the source is the unique key. */
  datatype RecordKey = RecordKey(terminal: Serial, source: string)

  datatype Retained = Retained(run: Uuid, command: Uuid, projection: Projection)

  // ----- The database --------------------------------------------------------

  datatype Db = Db(terminals: map<Serial, Connection>, admins: set<nat>, commands: map<Uuid, Command>,
                   runs: map<Uuid, Run>, links: map<Uuid, Link>, retained: map<RecordKey, Retained>)

  datatype Admin = Admin(id: nat, name: string)

  datatype StoreError =
    | AdministratorRequired
    | ExpiryNotInFuture
    | UnknownTerminal
    | TerminalNotOnline
    | SyncInProgress
    | BadLimit
    | UnknownCommand
    | ConflictingResult
    | NotSent
    | LinkedToAnotherTerminal
    | RunNotActive
    | SearchNotBuilt
    | ConstraintViolated // a PostgreSQL error, after which the transaction cannot continue

  /** The column check on UUIDs; of the pattern only the length matters here. */
  predicate UuidForm(uuid: Uuid) { |uuid| == 36 }

  const SYNC_COMMAND_TTL: nat := 300

  // ----- Queueing ------------------------------------------------------------

  function QueueCommand(db: Db, terminal: Serial, admin: Admin, request: Request, expiresAt: nat, now: nat, uuid: Uuid)
    : Result<Db, StoreError>
  {
    if admin.id == 0 || admin.name == "" then Err(AdministratorRequired)
    else if expiresAt <= now then Err(ExpiryNotInFuture)
    else if terminal !in db.terminals then Err(UnknownTerminal)
    else if !db.terminals[terminal].Online? then Err(TerminalNotOnline)
    else if uuid in db.commands || !UuidForm(uuid) || admin.id !in db.admins then Err(ConstraintViolated)
    else
      var command := Command(terminal, request, Queued, now, expiresAt, None, None, None);
      Ok(db.(commands := db.commands[uuid := command]))
  }

  /** The uniqueness, range and reference constraints of access_event_sync_commands. */
  predicate LinkAllowed(db: Db, uuid: Uuid, link: Link) {
    && uuid !in db.links && uuid in db.commands && link.run in db.runs
    && (link.phase.PagePhase? ==>
          link.phase.position <= MAX_MATCHES && forall u :: u in db.links ==> db.links[u] != link)
  }

  function InsertLink(db: Db, uuid: Uuid, link: Link): Result<Db, StoreError> {
    if LinkAllowed(db, uuid, link) then Ok(db.(links := db.links[uuid := link])) else Err(ConstraintViolated)
  }

  /** The lifecycle constraint of access_event_sync_runs (db/schema.sql). */
  predicate Lifecycle(run: Run) {
    match run.status
    case AwaitingTime =>
      && run.searchStartedAt.None? && run.searchEndedAt.None? && run.totalMatches.None?
      && run.pages == 0 && run.imported == 0 && run.duplicate == 0
      && run.failure.None? && run.completedAt.None?
    case Running =>
      run.searchStartedAt.Some? && run.searchEndedAt.Some? && run.failure.None? && run.completedAt.None?
    case Finished =>
      && run.searchStartedAt.Some? && run.searchEndedAt.Some? && run.totalMatches.Some?
      && run.pages >= 1 && run.imported + run.duplicate == run.totalMatches.value
      && run.failure.None? && run.completedAt.Some?
    case Failed =>
      run.failure.Some? && run.completedAt.Some?
  }

  function UpdateRun(db: Db, uuid: Uuid, run: Run): Result<Db, StoreError> {
    if Lifecycle(run) then Ok(db.(runs := db.runs[uuid := run])) else Err(ConstraintViolated)
  }

  predicate ActiveFor(db: Db, r: Uuid, terminal: Serial) {
    r in db.runs && db.runs[r].terminal == terminal && Active(db.runs[r])
  }

  function QueueSync(db0: Db, terminal: Serial, admin: Admin, now: nat, runUuid: Uuid, commandUuid: Uuid)
    : Result<Db, StoreError>
  {
    if admin.id == 0 || admin.name == "" then Err(AdministratorRequired)
    else
      var db := ExpireOverdue(db0, Some(terminal), now);
      if terminal !in db.terminals then Err(UnknownTerminal)
      else if !db.terminals[terminal].Online? then Err(TerminalNotOnline)
      else if exists r :: r in db.runs && ActiveFor(db, r, terminal) then Err(SyncInProgress)
      else if runUuid in db.runs || !UuidForm(runUuid) || admin.id !in db.admins then Err(ConstraintViolated)
      else
        var run := Run(terminal, Some(admin.id), admin.name, runUuid, AwaitingTime, None, None, None, 0, 0, 0, None,
                       None);
        match QueueCommand(db.(runs := db.runs[runUuid := run]), terminal, admin, SystemTime,
                           now + SYNC_COMMAND_TTL, now, commandUuid)
        case Err(e) => Err(e)
        case Ok(queued) => InsertLink(queued, commandUuid, Link(runUuid, TimePhase))
  }

  // ----- Expiry --------------------------------------------------------------

  predicate Overdue(c: Command, scope: Option<Serial>, now: nat) {
    Live(c) && c.expiresAt <= now && (scope.Some? ==> c.terminal == scope.value)
  }

  function Expire(c: Command, now: nat): Command {
    c.(status := Expired, completedAt := Some(now))
  }

  function Fail(run: Run, reason: Failure, now: nat): Run {
    if Active(run) then run.(status := Failed, failure := Some(reason), completedAt := Some(now)) else run
  }

  function FailRun(db: Db, r: Uuid, reason: Failure, now: nat): Db {
    if r in db.runs then db.(runs := db.runs[r := Fail(db.runs[r], reason, now)]) else db
  }

  /** Command `u` is overdue and drives run `r`. */
  predicate OverdueFor(db: Db, u: Uuid, r: Uuid, scope: Option<Serial>, now: nat) {
    u in db.links && db.links[u].run == r && u in db.commands && Overdue(db.commands[u], scope, now)
  }

  function ExpireRun(db: Db, r: Uuid, scope: Option<Serial>, now: nat): Run
    requires r in db.runs
  {
    if exists u :: u in db.links && OverdueFor(db, u, r, scope, now) && db.commands[u].sentAt.Some? then
      Fail(db.runs[r], ExpiredAwaitingResult, now)
    else if exists u :: u in db.links && OverdueFor(db, u, r, scope, now) then
      Fail(db.runs[r], ExpiredBeforeDelivery, now)
    else db.runs[r]
  }

  /** Every overdue command expires, and with it the active run it drives. */
  function ExpireOverdue(db: Db, scope: Option<Serial>, now: nat): Db {
    db.(commands := map u | u in db.commands ::
                      if Overdue(db.commands[u], scope, now) then Expire(db.commands[u], now) else db.commands[u],
        runs := map r | r in db.runs :: ExpireRun(db, r, scope, now))
  }

  // ----- Handing commands to the terminal ------------------------------------

  predicate Claimable(c: Command, terminal: Serial, now: nat) {
    c.terminal == terminal && c.status.Queued? && c.expiresAt > now
  }

  function CommandKey(db: Db, u: Uuid): Key
    requires u in db.commands
  {
    Key(db.commands[u].createdAt, u)
  }

  function ClaimableKeys(db: Db, terminal: Serial, now: nat): set<Key> {
    set u | u in db.commands && Claimable(db.commands[u], terminal, now) :: CommandKey(db, u)
  }

  /** The oldest claimable commands, at most `limit` of them, oldest first. */
  ghost function Picked(db: Db, terminal: Serial, limit: nat, now: nat): seq<Uuid> {
    var all := SortedKeys(ClaimableKeys(db, terminal, now));
    Texts(all[..if limit < |all| then limit else |all|])
  }

  function Send(c: Command, now: nat): Command {
    c.(status := Sent, sentAt := Some(now))
  }

  function SendAll(db: Db, picked: seq<Uuid>, now: nat): Db {
    db.(commands := map u | u in db.commands :: if u in picked then Send(db.commands[u], now) else db.commands[u])
  }

  datatype Claim = Claim(db: Db, uuids: seq<Uuid>)

  ghost function ClaimCommands(db0: Db, terminal: Serial, limit: int, now: nat): Result<Claim, StoreError> {
    if limit < 1 || limit > 20 then Err(BadLimit)
    else
      var db := ExpireOverdue(db0, Some(terminal), now);
      var picked := Picked(db, terminal, limit, now);
      Ok(Claim(SendAll(db, picked, now), picked))
  }

  // ----- Completing commands -------------------------------------------------

  /** What the result text decodes to, read as System/time XML and as an AcsEvent document. */
  datatype Decoded = NotBase64 | Decoded(time: Option<LocalTime>, page: Option<PageDocument>)

  /** One result, and the UUID drawn should this result queue a further command. */
  datatype CommandResult = CommandResult(uuid: Uuid, format: Option<string>, text: string, decoded: Decoded, draw: Uuid)

  /** `year2000` is the instant at which the year 2000 began in the location in which the gateway reads stored times. */
  datatype Clock = Clock(now: nat, year2000: int)

  function InsertRetained(rows: map<RecordKey, Retained>, terminal: Serial, run: Uuid, command: Uuid,
                          info: seq<RawRecord>)
    : (stored: map<RecordKey, Retained>)
    requires forall i :: 0 <= i < |info| ==> info[i].projection.Some?
    ensures |rows| <= |stored| <= |rows| + |info|
    decreases |info|
  {
    if info == [] then rows
    else
      var key := RecordKey(terminal, info[0].source);
      var next := if key in rows then rows else rows[key := Retained(run, command, info[0].projection.value)];
      InsertRetained(next, terminal, run, command, info[1..])
  }

  /** Queues and links the page command at `position`; a refused queue fails the run, a database error aborts. */
  function QueuePage(db: Db, r: Uuid, condition: SearchCondition, position: nat, refusal: Failure, now: nat, draw: Uuid)
    : Result<Db, StoreError>
    requires r in db.runs && db.runs[r].createdBy.Some?
  {
    var run := db.runs[r];
    match QueueCommand(db, run.terminal, Admin(run.createdBy.value, run.createdByName), EventSearch(condition),
                       now + SYNC_COMMAND_TTL, now, draw)
    case Err(ConstraintViolated) => Err(ConstraintViolated)
    case Err(_) => Ok(FailRun(db, r, refusal, now))
    case Ok(queued) => InsertLink(queued, draw, Link(r, PagePhase(position)))
  }

  function CompleteTime(db: Db, r: Uuid, time: Option<LocalTime>, clock: Clock, draw: Uuid): Result<Db, StoreError>
    requires r in db.runs
  {
    var run := db.runs[r];
    if !run.status.AwaitingTime? then Ok(FailRun(db, r, TimeAfterSearchBegan, clock.now))
    else if time.None? then Ok(FailRun(db, r, NotATimeDocument, clock.now))
    else
      var request := NewSearchRequest(run.searchId, 0, time.value);
      if request.None? then Ok(FailRun(db, r, TimeCannotBoundSearch, clock.now))
      else if run.createdBy.None? then Ok(FailRun(db, r, AdministratorGoneBeforeSearch, clock.now))
      else
        match UpdateRun(db, r, run.(status := Running, searchStartedAt := Some(time.value.year2000),
                                    searchEndedAt := Some(time.value.instant)))
        case Err(e) => Err(e)
        case Ok(started) => QueuePage(started, r, request.value, 0, SearchNotQueued, clock.now, draw)
  }

  /** The reason for which a parsed page does not continue the run at `position`, if any. */
  function PageRefusal(run: Run, position: nat, page: Page): Option<Failure> {
    var next := position + page.numOfMatches;
    if page.searchId != run.searchId then Some(SearchIdMismatch)
    else if run.totalMatches.Some? && page.totalMatches != run.totalMatches.value then Some(TotalChanged)
    else if next > page.totalMatches then Some(ExceedsTotal)
    else if page.status.NoMatch? && position != 0 then Some(NoMatchAfterFirstPage)
    else if page.status.More? && (page.numOfMatches == 0 || next >= page.totalMatches) then Some(MoreWithoutAdvance)
    else if page.status.Done? && next != page.totalMatches then Some(OkWithoutCompletion)
    else if exists i :: 0 <= i < |page.info| && page.info[i].projection.None? then Some(UndocumentedRecord)
    else None
  }

  function CompletePage(db: Db, r: Uuid, phase: Phase, command: Uuid, parsed: Option<Page>, clock: Clock, draw: Uuid)
    : Result<Db, StoreError>
    requires r in db.runs
  {
    var run := db.runs[r];
    if !run.status.Running? || phase.TimePhase? || run.searchStartedAt.None? || run.searchEndedAt.None? then
      Ok(FailRun(db, r, NoActivePage, clock.now))
    else if parsed.None? then Ok(FailRun(db, r, NotAPageDocument, clock.now))
    else AcceptPage(db, r, phase.position, command, parsed.value, clock, draw)
  }

  function AcceptPage(db: Db, r: Uuid, position: nat, command: Uuid, page: Page, clock: Clock, draw: Uuid)
    : Result<Db, StoreError>
    requires r in db.runs && db.runs[r].searchEndedAt.Some?
  {
    var run := db.runs[r];
    var refusal := PageRefusal(run, position, page);
    if refusal.Some? then Ok(FailRun(db, r, refusal.value, clock.now))
    else StorePage(db, r, position + page.numOfMatches, command, page, clock, draw)
  }

  /** Stores the records of an accepted page; the search then stands at `next`. */
  function StorePage(db: Db, r: Uuid, next: nat, command: Uuid, page: Page, clock: Clock,
                     draw: Uuid): Result<Db, StoreError>
    requires r in db.runs && db.runs[r].searchEndedAt.Some?
    requires forall i :: 0 <= i < |page.info| ==> page.info[i].projection.Some?
  {
    var rows := InsertRetained(db.retained, db.runs[r].terminal, r, command, page.info);
    AdvanceRun(db.(retained := rows), r, next, page, |rows| - |db.retained|, clock, draw)
  }

  /** The run after one more page, of which `inserted` records were new. */
  function Counted(run: Run, page: Page, inserted: nat): Run
    requires inserted <= |page.info|
  {
    run.(totalMatches := Some(page.totalMatches), pages := run.pages + 1,
         imported := run.imported + inserted, duplicate := run.duplicate + |page.info| - inserted)
  }

  /** After the records of an accepted page are stored: queue the next page, or account for all of them and finish. */
  function AdvanceRun(db: Db, r: Uuid, next: nat, page: Page, inserted: nat, clock: Clock,
                      draw: Uuid): Result<Db, StoreError>
    requires r in db.runs && db.runs[r].searchEndedAt.Some? && inserted <= |page.info|
  {
    var run := db.runs[r];
    var counted := Counted(run, page, inserted);
    if page.status.More? then
      if run.createdBy.None? then Ok(FailRun(db, r, AdministratorGoneBeforePage, clock.now))
      else
        var request := NewSearchRequest(run.searchId, next, LocalTime(run.searchEndedAt.value, clock.year2000));
        if request.None? then Err(SearchNotBuilt)
        else
          match UpdateRun(db, r, counted)
          case Err(e) => Err(e)
          case Ok(advanced) => QueuePage(advanced, r, request.value, next, PageNotQueued, clock.now, draw)
    else if counted.imported + counted.duplicate != page.totalMatches then Ok(FailRun(db, r, TotalsMismatch, clock.now))
    else UpdateRun(db, r, counted.(status := Finished, completedAt := Some(clock.now)))
  }

  function AdvanceSync(db: Db, terminal: Serial, result: CommandResult, clock: Clock): Result<Db, StoreError> {
    if result.uuid !in db.links || db.links[result.uuid].run !in db.runs then Ok(db)
    else
      var link := db.links[result.uuid];
      var run := db.runs[link.run];
      if run.terminal != terminal then Err(LinkedToAnotherTerminal)
      else if !Active(run) then Err(RunNotActive)
      else if result.decoded.NotBase64? then Ok(FailRun(db, link.run, UndecodableResult, clock.now))
      else if link.phase.TimePhase? then CompleteTime(db, link.run, result.decoded.time, clock, result.draw)
      else if result.format.Some? && result.format.value != "jsonData" then
        Ok(FailRun(db, link.run, WrongFormat, clock.now))
      else CompletePage(db, link.run, link.phase, result.uuid, ParsePage(result.decoded.page), clock, result.draw)
  }

  function Complete(c: Command, result: CommandResult, now: nat): Command {
    c.(status := Completed, completedAt := Some(now), response := Some(Response(result.format, result.text)))
  }

  function CompleteOne(db: Db, terminal: Serial, result: CommandResult, clock: Clock): Result<Db, StoreError> {
    if result.uuid !in db.commands || db.commands[result.uuid].terminal != terminal then Err(UnknownCommand)
    else
      var command := db.commands[result.uuid];
      match command.status
      case Sent =>
        AdvanceSync(db.(commands := db.commands[result.uuid := Complete(command, result, clock.now)]), terminal, result,
                    clock)
      case Completed =>
        if command.response == Some(Response(result.format, result.text)) then Ok(db) else Err(ConflictingResult)
      case _ => Err(NotSent)
  }

  function CompleteAll(db: Db, terminal: Serial, results: seq<CommandResult>, clock: Clock): Result<Db, StoreError>
    decreases |results|
  {
    if results == [] then Ok(db)
    else
      match CompleteOne(db, terminal, results[0], clock)
      case Err(e) => Err(e)
      case Ok(next) => CompleteAll(next, terminal, results[1..], clock)
  }

  function CompleteCommands(db: Db, terminal: Serial, results: seq<CommandResult>,
                            clock: Clock): Result<Db, StoreError> {
    CompleteAll(ExpireOverdue(db, Some(terminal), clock.now), terminal, results, clock)
  }

  // ----- Whole runs of the gateway -------------------------------------------

  /** One transaction, with everything it draws from outside. */
  datatype Step =
    | StepQueueSync(terminal: Serial, admin: Admin, now: nat, runUuid: Uuid, commandUuid: Uuid)
    | StepQueueCommand(terminal: Serial, admin: Admin, request: Request, expiresAt: nat, now: nat, uuid: Uuid)
    | StepClaim(terminal: Serial, limit: int, now: nat)
    | StepComplete(terminal: Serial, results: seq<CommandResult>, clock: Clock)
    | StepSweep(now: nat)
    | StepTerminal(terminal: Serial, connection: Connection)
    | StepAddAdmin(id: nat)
    | StepRemoveAdmin(id: nat)

  /** Deleting an administrator clears the references to it (ON DELETE SET NULL). */
  function RemoveAdmin(db: Db, id: nat): Db {
    db.(admins := db.admins - {id},
        runs := map r | r in db.runs ::
                  if db.runs[r].createdBy == Some(id) then db.runs[r].(createdBy := None) else db.runs[r])
  }

  function Commit(before: Db, outcome: Result<Db, StoreError>): Db {
    match outcome case Ok(after) => after case Err(_) => before
  }

  ghost function Apply(db: Db, step: Step): Db {
    match step
    case StepQueueSync(terminal, admin, now, runUuid, commandUuid) =>
      Commit(db, QueueSync(db, terminal, admin, now, runUuid, commandUuid))
    case StepQueueCommand(terminal, admin, request, expiresAt, now, uuid) =>
      Commit(db, QueueCommand(db, terminal, admin, request, expiresAt, now, uuid))
    case StepClaim(terminal, limit, now) =>
      (match ClaimCommands(db, terminal, limit, now) case Ok(claim) => claim.db case Err(_) => db)
    case StepComplete(terminal, results, clock) =>
      Commit(db, CompleteCommands(db, terminal, results, clock))
    case StepSweep(now) => ExpireOverdue(db, None, now)
    case StepTerminal(terminal, connection) => db.(terminals := db.terminals[terminal := connection])
    case StepAddAdmin(id) => db.(admins := db.admins + {id})
    case StepRemoveAdmin(id) => RemoveAdmin(db, id)
  }

  const EMPTY: Db := Db(map[], {}, map[], map[], map[], map[])

  ghost function Exec(db: Db, steps: seq<Step>): Db
    decreases |steps|
  {
    if steps == [] then db else Exec(Apply(db, steps[0]), steps[1..])
  }
}
