/**
 The session protocol, the sync and the outbox together, over one table of
 terminals. The connection status that the sessions write is the one that the
 command queue reads, so an authenticated CommandResult always finds its terminal
 online: asking for the search or for its next page is never refused. An Event
 request that is answered has its events archived for good.
 */
module Gateway {
  import opened Wrappers
  import opened Terminals
  import opened RetainedSearch
  import S = SessionModel
  import SI = SessionInvariant
  import Y = SyncModel
  import YI = SyncInvariant
  import YS = SyncSteps
  import YE = SyncEvolution
  import ST = SessionTheorems
  import O = OutboxModel
  import OI = OutboxInvariant
  import OT = OutboxTheorems
  import OH = OutboxHistory

  // ----- Asking for a page while the terminal is online ----------------------

  /** The failures of a run whose next command the queue refused. */
  predicate Refusal(f: Option<Y.Failure>) { f == Some(Y.SearchNotQueued) || f == Some(Y.PageNotQueued) }

  ghost predicate NoRefusals(runs: map<Y.Uuid, Y.Run>) {
    forall r :: r in runs ==> !Refusal(runs[r].failure)
  }

  predicate IsOnline(db: Y.Db, terminal: Serial) { terminal in db.terminals && db.terminals[terminal].Online? }

  /** The run can ask for more: its terminal is online and whoever started it is on record. */
  predicate CanAsk(db: Y.Db, r: Y.Uuid) {
    && r in db.runs && IsOnline(db, db.runs[r].terminal) && db.runs[r].createdByName != ""
    && (db.runs[r].createdBy.Some? ==> db.runs[r].createdBy.value != 0)
  }

  /** No failure of that kind appears, and connections stay as they are. */
  ghost predicate Unrefused(db: Y.Db, outcome: Result<Y.Db, Y.StoreError>) {
    match outcome
    case Ok(next) => next.terminals == db.terminals && (NoRefusals(db.runs) ==> NoRefusals(next.runs))
    case Err(_) => true
  }

  lemma FailUnrefused(db: Y.Db, r: Y.Uuid, reason: Y.Failure, now: nat)
    requires !Refusal(Some(reason))
    ensures Unrefused(db, Ok(Y.FailRun(db, r, reason, now)))
  {
  }

  lemma QueuePageUnrefused(db: Y.Db, r: Y.Uuid, condition: SearchCondition, position: nat, refusal: Y.Failure, now: nat,
                           draw: Y.Uuid)
    requires CanAsk(db, r) && db.runs[r].createdBy.Some?
    ensures Unrefused(db, Y.QueuePage(db, r, condition, position, refusal, now, draw))
  {
  }

  lemma RewriteUnrefused(db: Y.Db, r: Y.Uuid, run: Y.Run)
    requires r in db.runs && run.failure == db.runs[r].failure
    ensures Unrefused(db, Ok(db.(runs := db.runs[r := run])))
  {
    assert forall q :: q in db.runs[r := run] ==> q in db.runs;
  }

  lemma TimeUnrefused(db: Y.Db, r: Y.Uuid, time: Option<LocalTime>, clock: Y.Clock, draw: Y.Uuid)
    requires CanAsk(db, r)
    ensures Unrefused(db, Y.CompleteTime(db, r, time, clock, draw))
  {
    hide Y.QueuePage, Unrefused, Y.FailRun;
    FailUnrefused(db, r, Y.TimeAfterSearchBegan, clock.now);
    FailUnrefused(db, r, Y.NotATimeDocument, clock.now);
    FailUnrefused(db, r, Y.TimeCannotBoundSearch, clock.now);
    FailUnrefused(db, r, Y.AdministratorGoneBeforeSearch, clock.now);
    var run := db.runs[r];
    if time.Some? && run.createdBy.Some? {
      var started := run.(status := Y.Running, searchStartedAt := Some(time.value.year2000),
                          searchEndedAt := Some(time.value.instant));
      var request := NewSearchRequest(run.searchId, 0, time.value);
      if request.Some? {
        Chain(db, r, started, request.value, 0, Y.SearchNotQueued, clock.now, draw);
      }
    }
    AnyErrorUnrefused(db, Y.CompleteTime(db, r, time, clock, draw));
  }

  lemma AnyErrorUnrefused(db: Y.Db, outcome: Result<Y.Db, Y.StoreError>)
    ensures outcome.Err? ==> Unrefused(db, outcome)
  {
  }

  /** The run is rewritten without failing, and then asks for the page. */
  lemma Chain(db: Y.Db, r: Y.Uuid, run: Y.Run, condition: SearchCondition, position: nat, refusal: Y.Failure, now: nat,
              draw: Y.Uuid)
    requires CanAsk(db, r) && run.failure == db.runs[r].failure && run.terminal == db.runs[r].terminal
    requires run.createdBy == db.runs[r].createdBy && run.createdBy.Some?
    requires run.createdByName == db.runs[r].createdByName
    ensures Unrefused(db, Y.QueuePage(db.(runs := db.runs[r := run]), r, condition, position, refusal, now, draw))
  {
    hide Y.QueuePage, NoRefusals;
    var db' := db.(runs := db.runs[r := run]);
    RewriteUnrefused(db, r, run);
    QueuePageUnrefused(db', r, condition, position, refusal, now, draw);
  }

  lemma AdvanceUnrefused(db: Y.Db, r: Y.Uuid, next: nat, page: Page, inserted: nat, clock: Y.Clock, draw: Y.Uuid)
    requires CanAsk(db, r) && db.runs[r].searchEndedAt.Some? && inserted <= |page.info|
    ensures Unrefused(db, Y.AdvanceRun(db, r, next, page, inserted, clock, draw))
  {
    hide Y.QueuePage, Unrefused, Y.FailRun, NewSearchRequest, Y.Lifecycle;
    var run := db.runs[r];
    var counted := Y.Counted(run, page, inserted);
    FailUnrefused(db, r, Y.AdministratorGoneBeforePage, clock.now);
    FailUnrefused(db, r, Y.TotalsMismatch, clock.now);
    RewriteUnrefused(db, r, counted.(status := Y.Finished, completedAt := Some(clock.now)));
    var request := NewSearchRequest(run.searchId, next, LocalTime(run.searchEndedAt.value, clock.year2000));
    if run.createdBy.Some? && request.Some? {
      Chain(db, r, counted, request.value, next, Y.PageNotQueued, clock.now, draw);
    }
    AnyErrorUnrefused(db, Y.AdvanceRun(db, r, next, page, inserted, clock, draw));
  }

  lemma PageUnrefused(db: Y.Db, r: Y.Uuid, phase: Y.Phase, command: Y.Uuid, parsed: Option<Page>, clock: Y.Clock,
                      draw: Y.Uuid)
    requires CanAsk(db, r)
    ensures Unrefused(db, Y.CompletePage(db, r, phase, command, parsed, clock, draw))
  {
    hide Unrefused, Y.FailRun, Y.AdvanceRun, Y.InsertRetained, Y.PageRefusal;
    FailUnrefused(db, r, Y.NoActivePage, clock.now);
    FailUnrefused(db, r, Y.NotAPageDocument, clock.now);
    if phase.PagePhase? && db.runs[r].searchEndedAt.Some? && parsed.Some? {
      var page := parsed.value;
      var refusal := Y.PageRefusal(db.runs[r], phase.position, page);
      if refusal.Some? {
        PageRefusalIsNot(db.runs[r], phase.position, page);
        FailUnrefused(db, r, refusal.value, clock.now);
      } else {
        StoreUnrefused(db, r, phase.position, command, page, clock, draw);
      }
    }
  }

  lemma PageRefusalIsNot(run: Y.Run, position: nat, page: Page)
    ensures !Refusal(Y.PageRefusal(run, position, page))
  {
  }

  lemma StoreUnrefused(db: Y.Db, r: Y.Uuid, position: nat, command: Y.Uuid, page: Page, clock: Y.Clock, draw: Y.Uuid)
    requires CanAsk(db, r) && db.runs[r].searchEndedAt.Some? && Y.PageRefusal(db.runs[r], position, page).None?
    ensures forall i :: 0 <= i < |page.info| ==> page.info[i].projection.Some?
    ensures Unrefused(db, Y.StorePage(db, r, position + page.numOfMatches, command, page, clock, draw))
  {
    hide Y.AdvanceRun, Y.InsertRetained, NoRefusals;
    var rows := Y.InsertRetained(db.retained, db.runs[r].terminal, r, command, page.info);
    AdvanceUnrefused(db.(retained := rows), r, position + page.numOfMatches, page, |rows| - |db.retained|, clock, draw);
  }

  lemma SyncUnrefused(db: Y.Db, terminal: Serial, result: Y.CommandResult, clock: Y.Clock)
    requires IsOnline(db, terminal)
    requires forall r :: r in db.runs && db.runs[r].terminal == terminal ==> CanAsk(db, r)
    ensures Unrefused(db, Y.AdvanceSync(db, terminal, result, clock))
  {
    hide Unrefused, Y.FailRun, Y.CompleteTime, Y.CompletePage, ParsePage;
    AnyErrorUnrefused(db, Y.AdvanceSync(db, terminal, result, clock));
    Unchanged(db);
    if result.uuid in db.links && db.links[result.uuid].run in db.runs {
      var link := db.links[result.uuid];
      FailUnrefused(db, link.run, Y.UndecodableResult, clock.now);
      FailUnrefused(db, link.run, Y.WrongFormat, clock.now);
      if db.runs[link.run].terminal == terminal && result.decoded.Decoded? {
        TimeUnrefused(db, link.run, result.decoded.time, clock, result.draw);
        PageUnrefused(db, link.run, link.phase, result.uuid, ParsePage(result.decoded.page), clock, result.draw);
      }
    }
  }

  lemma Unchanged(db: Y.Db)
    ensures Unrefused(db, Ok(db))
  {
  }

  lemma CompleteOneUnrefused(db: Y.Db, terminal: Serial, result: Y.CommandResult, clock: Y.Clock)
    requires YI.Inv(db) && IsOnline(db, terminal)
    ensures Unrefused(db, Y.CompleteOne(db, terminal, result, clock))
  {
    hide Y.AdvanceSync, NoRefusals;
    if result.uuid in db.commands {
      var after := db.(commands := db.commands[result.uuid := Y.Complete(db.commands[result.uuid], result, clock.now)]);
      forall r | r in after.runs && after.runs[r].terminal == terminal ensures CanAsk(after, r) {
        assert YI.Settled(db, r);
      }
      SyncUnrefused(after, terminal, result, clock);
    }
  }

  lemma {:induction false} CompleteAllUnrefused(db: Y.Db, terminal: Serial, results: seq<Y.CommandResult>,
                                                clock: Y.Clock)
    requires YI.Inv(db) && YS.Timely(db, terminal, clock.now) && IsOnline(db, terminal)
    ensures Unrefused(db, Y.CompleteAll(db, terminal, results, clock))
    decreases |results|
  {
    hide YI.Inv, Y.CompleteOne, NoRefusals;
    if results != [] {
      CompleteOneUnrefused(db, terminal, results[0], clock);
      YS.CompleteOneKeepsInv(db, terminal, results[0], clock);
      if Y.CompleteOne(db, terminal, results[0], clock).Ok? {
        CompleteAllUnrefused(Y.CompleteOne(db, terminal, results[0], clock).value, terminal, results[1..], clock);
      }
    }
  }

  lemma ExpireUnrefused(db: Y.Db, scope: Option<Serial>, now: nat)
    ensures Unrefused(db, Ok(Y.ExpireOverdue(db, scope, now)))
  {
    hide Y.OverdueFor, Y.Overdue;
  }

  /** While the terminal is online, completing its commands refuses none of its syncs. */
  lemma ResultsUnrefused(db: Y.Db, terminal: Serial, results: seq<Y.CommandResult>, clock: Y.Clock)
    requires YI.Inv(db) && IsOnline(db, terminal)
    ensures Unrefused(db, Y.CompleteCommands(db, terminal, results, clock))
  {
    hide YI.Inv, NoRefusals, Y.ExpireOverdue;
    ExpireUnrefused(db, Some(terminal), clock.now);
    YI.ExpireKeepsInv(db, Some(terminal), clock.now);
    YS.ExpireIsTimely(db, terminal, clock.now);
    CompleteAllUnrefused(Y.ExpireOverdue(db, Some(terminal), clock.now), terminal, results, clock);
  }

  // ----- The machines over one database --------------------------------------

  /** `db.terminals` is the status column that the sessions write, and `outbox.terminals` the rows it belongs to. */
  datatype State = State(session: S.State, db: Y.Db, outbox: O.Db)

  datatype Step =
    | Protocol(event: S.Step)
    | Results(terminal: Serial, proof: Option<S.Nonce>, now: nat, random: bool, resume: S.Fate, fails: bool,
              finish: S.Fate,
              results: seq<Y.CommandResult>, clock: Y.Clock)
    | Events(terminal: Serial, proof: Option<S.Nonce>, now: nat, random: bool, resume: S.Fate, fails: bool,
             finish: S.Fate,
             batch: seq<O.DeviceEvent>, at: int)
    | Transaction(step: Y.Step)
    | Delivery(action: O.Step)

  /**
   Requests and maintenance other than CommandResult and Event; event batches of the terminal that sends them;
   transactions that no terminal and no session performs.
   */
  predicate Proper(step: Step) {
    match step
    case Protocol(e) => !(e.OnExchange? && (e.action.CommandResult? || e.action.Event?))
    case Results(_, _, _, _, _, _, _, _, _) => true
    case Events(t, _, _, _, _, _, _, batch, _) => forall i :: 0 <= i < |batch| ==> batch[i].terminal == t
    case Transaction(t) => !t.StepComplete? && !t.StepTerminal?
    case Delivery(action) => !action.StepIngest? && !action.StepTerminal?
  }

  /** The session lets the request through to its work. */
  predicate Admitted(s: S.State, t: Serial, proof: Option<S.Nonce>, resume: S.Fate) {
    && S.Served(s, t) && t in s.sessions && s.sessions[t].authenticated && proof.Some?
    && proof == s.sessions[t].nextChallenge
    && (s.sessions[t].online || resume.Commits?)
  }

  function WithStatus(db: Y.Db, s: S.State): Y.Db { db.(terminals := s.status) }

  function WithTerminals(outbox: O.Db, s: S.State): O.Db { outbox.(terminals := s.status.Keys) }

  /** The work of a CommandResult, in the database as it is once the terminal counts as online. */
  function Work(g: State, step: Step): Result<Y.Db, Y.StoreError>
    requires step.Results? && Admitted(g.session, step.terminal, step.proof, step.resume)
  {
    Y.CompleteCommands(WithStatus(g.db, S.Resume(g.session, step.terminal)), step.terminal, step.results, step.clock)
  }

  /** An exchange whose work commits when the transaction does; it may also fail for reasons of its own. */
  function ResultsExchange(g: State, step: Step): S.Step
    requires step.Results?
  {
    var committed := Admitted(g.session, step.terminal, step.proof, step.resume) && !step.fails && Work(g, step).Ok?;
    S.OnExchange(step.terminal, S.CommandResult, step.proof, true, step.now, step.random,
                 step.resume, if committed then S.Commits else S.Fails, step.finish)
  }

  /** The work of an Event request: its batch goes into the archive and the outbox. */
  function Archiving(g: State, step: Step): Result<O.Db, O.Error>
    requires step.Events?
  {
    O.Ingest(g.outbox, step.batch, step.at)
  }

  predicate Archives(g: State, step: Step) {
    step.Events? && Admitted(g.session, step.terminal, step.proof, step.resume) && !step.fails && Archiving(g, step).Ok?
  }

  function EventsExchange(g: State, step: Step): S.Step
    requires step.Events?
  {
    S.OnExchange(step.terminal, S.Event, step.proof, true, step.now, step.random,
                 step.resume, if Archives(g, step) then S.Commits else S.Fails, step.finish)
  }

  /** The terminal gets a positive answer. */
  predicate Answered(g: State, step: Step) {
    step.Events? && S.Handle(g.session, EventsExchange(g, step)).reply.Answered?
  }

  ghost function Apply(g: State, step: Step): State {
    match step
    case Protocol(e) =>
      var s := S.Handle(g.session, e).state;
      State(s, WithStatus(g.db, s), WithTerminals(g.outbox, s))
    case Results(t, proof, _, _, resume, fails, _, _, _) =>
      var s := S.Handle(g.session, ResultsExchange(g, step)).state;
      var committed := Admitted(g.session, t, proof, resume) && !fails && Work(g, step).Ok?;
      var db := if committed then Work(g, step).value else g.db;
      State(s, WithStatus(db, s), WithTerminals(g.outbox, s))
    case Events(_, _, _, _, _, _, _, _, _) =>
      var s := S.Handle(g.session, EventsExchange(g, step)).state;
      var outbox := if Archives(g, step) then Archiving(g, step).value else g.outbox;
      State(s, WithStatus(g.db, s), WithTerminals(outbox, s))
    case Transaction(t) => g.(db := Y.Apply(g.db, t))
    case Delivery(action) => g.(outbox := O.Apply(g.outbox, action))
  }

  ghost function Exec(g: State, steps: seq<Step>): State
    decreases |steps|
  {
    if steps == [] then g else Exec(Apply(g, steps[0]), steps[1..])
  }

  ghost predicate Inv(g: State) {
    && SI.Inv(g.session) && YI.Inv(g.db) && OI.Inv(g.outbox)
    && g.db.terminals == g.session.status && g.outbox.terminals == g.session.status.Keys
    && NoRefusals(g.db.runs)
  }

  /** No step forgets a terminal's row. */
  lemma StatusGrows(s: S.State, e: S.Step)
    ensures s.status.Keys <= S.Handle(s, e).state.status.Keys
  {
    match e {
      case OnAuthInfo(t, mode, now, persist, transition, restore) =>
        AuthInfoStatus(s, t, mode, now, persist, transition, restore);
      case OnLogin(t, proof, now, random, expire, persist, transition, restore) =>
        LoginStatus(s, t, proof, now, random, expire, persist, transition, restore);
      case OnExchange(t, action, proof, payload, now, random, resume, work, finish) =>
        ExchangeStatus(s, t, action, proof, payload, now, random, resume, work, finish);
      case OnSweep(t, now, fate) =>
      case OnCrash =>
      case OnRestart(config, now, startup) =>
    }
  }

  lemma AuthInfoStatus(s: S.State, t: Serial, mode: Option<S.Mode>, now: nat, persist: S.Fate, transition: S.Fate,
                       restore: S.Fate)
    ensures s.status.Keys <= S.AuthInfo(s, t, mode, now, persist, transition, restore).state.status.Keys
  {
  }

  lemma LoginStatus(s: S.State, t: Serial, proof: Option<S.Nonce>, now: nat, random: bool,
                    expire: S.Fate, persist: S.Fate, transition: S.Fate, restore: S.Fate)
    ensures s.status.Keys <= S.Login(s, t, proof, now, random, expire, persist, transition, restore).state.status.Keys
  {
  }

  lemma PerformStatus(s: S.State, t: Serial, action: S.Action, proof: S.Nonce, payload: bool, now: nat, random: bool,
                      work: S.Fate, finish: S.Fate)
    requires t in s.sessions && t in s.config
    ensures s.status.Keys <= S.Perform(s, t, action, proof, payload, now, random, work, finish).state.status.Keys
  {
  }

  lemma ExchangeStatus(s: S.State, t: Serial, action: S.Action, proof: Option<S.Nonce>, payload: bool, now: nat,
                       random: bool,
                       resume: S.Fate, work: S.Fate, finish: S.Fate)
    ensures s.status.Keys <= S.Exchange(s, t, action, proof, payload, now, random, resume, work,
                                        finish).state.status.Keys
  {
    if S.Served(s, t) && t in s.sessions && s.sessions[t].authenticated && proof.Some? {
      PerformStatus(S.Resume(s, t), t, action, proof.value, payload, now, random, work, finish);
    }
  }

  lemma WithTerminalsKeepsInv(outbox: O.Db, s: S.State)
    requires OI.Inv(outbox) && outbox.terminals <= s.status.Keys
    ensures OI.Inv(WithTerminals(outbox, s)) && OT.ArchiveStays(outbox, WithTerminals(outbox, s))
  {
    hide OI.Inv, OI.UniqueEvents;
    OI.InvArchive(outbox);
    var outbox' := WithTerminals(outbox, s);
    OI.UniqueEventsFrame(outbox, outbox');
    OI.ArchiveKeepsInv(outbox, outbox');
  }

  lemma WithStatusKeepsInv(db: Y.Db, s: S.State)
    requires YI.Inv(db) && db.terminals.Keys <= s.status.Keys
    ensures YI.Inv(WithStatus(db, s)) && WithStatus(db, s).runs == db.runs
  {
    hide YI.Inv, YE.Evolves;
    YS.SurroundingsKeepInv(db, s.status, db.admins);
    assert WithStatus(db, s) == db.(terminals := s.status, admins := db.admins);
  }

  lemma ProtocolKeepsInv(g: State, e: S.Step)
    requires Inv(g)
    ensures Inv(Apply(g, Protocol(e)))
  {
    hide YI.Inv, SI.Inv, OI.Inv, S.Handle;
    StatusGrows(g.session, e);
    SI.HandleKeepsInv(g.session, e);
    WithStatusKeepsInv(g.db, S.Handle(g.session, e).state);
    WithTerminalsKeepsInv(g.outbox, S.Handle(g.session, e).state);
  }

  /** The terminal of an admitted request is online in the database before its results are processed. */
  lemma AdmittedIsOnline(s: S.State, t: Serial, proof: Option<S.Nonce>, resume: S.Fate)
    requires SI.Inv(s) && Admitted(s, t, proof, resume)
    ensures var heard := S.Resume(s, t);
            t in heard.status && heard.status[t].Online? && s.status.Keys <= heard.status.Keys
  {
    assert SI.TerminalOk(s, t);
  }

  lemma ResultsKeepInv(g: State, step: Step)
    requires Inv(g) && step.Results?
    ensures Inv(Apply(g, step))
  {
    hide YI.Inv, SI.Inv, OI.Inv, S.Handle, Y.CompleteCommands, S.Resume, NoRefusals;
    var e := ResultsExchange(g, step);
    StatusGrows(g.session, e);
    SI.HandleKeepsInv(g.session, e);
    var s := S.Handle(g.session, e).state;
    WithTerminalsKeepsInv(g.outbox, s);
    if Admitted(g.session, step.terminal, step.proof, step.resume) && !step.fails && Work(g, step).Ok? {
      AdmittedIsOnline(g.session, step.terminal, step.proof, step.resume);
      var db := WithStatus(g.db, S.Resume(g.session, step.terminal));
      WithStatusKeepsInv(g.db, S.Resume(g.session, step.terminal));
      ResultsUnrefused(db, step.terminal, step.results, step.clock);
      YS.CompleteCommandsKeepsInv(db, step.terminal, step.results, step.clock);
      CommittedStatus(g, step);
      WithStatusKeepsInv(Work(g, step).value, s);
    } else {
      WithStatusKeepsInv(g.db, s);
    }
  }

  /** Once admitted, the exchange leaves the status row that its resumption wrote. */
  lemma CommittedStatus(g: State, step: Step)
    requires step.Results? && Admitted(g.session, step.terminal, step.proof, step.resume)
    ensures S.Resume(g.session, step.terminal).status.Keys
         <= S.Handle(g.session, ResultsExchange(g, step)).state.status.Keys
  {
    hide Y.CompleteCommands;
    var e := ResultsExchange(g, step);
    PerformStatus(S.Resume(g.session, e.t), e.t, e.action, e.proof.value, e.payload, e.now, e.random, e.work, e.finish);
  }

  lemma TransactionUnrefused(db: Y.Db, t: Y.Step)
    requires !t.StepComplete? && !t.StepTerminal?
    ensures Unrefused(db, Ok(Y.Apply(db, t)))
  {
    hide Y.ExpireOverdue, Y.Picked;
    match t
    case StepQueueSync(terminal, admin, now, runUuid, commandUuid) =>
      ExpireUnrefused(db, Some(terminal), now);
      if Y.QueueSync(db, terminal, admin, now, runUuid, commandUuid).Ok? {
        YS.QueueSyncStarts(db, terminal, admin, now, runUuid, commandUuid);
      }
    case StepQueueCommand(_, _, _, _, _, _) =>
    case StepClaim(terminal, limit, now) => ExpireUnrefused(db, Some(terminal), now);
    case StepSweep(now) => ExpireUnrefused(db, None, now);
    case StepAddAdmin(_) =>
    case StepRemoveAdmin(_) =>
  }

  lemma EventsKeepInv(g: State, step: Step)
    requires Inv(g) && step.Events?
    ensures Inv(Apply(g, step))
  {
    hide YI.Inv, SI.Inv, OI.Inv, S.Handle, O.Ingest, NoRefusals;
    var e := EventsExchange(g, step);
    StatusGrows(g.session, e);
    SI.HandleKeepsInv(g.session, e);
    var s := S.Handle(g.session, e).state;
    WithStatusKeepsInv(g.db, s);
    if Archives(g, step) {
      OI.IngestKeepsInv(g.outbox, step.batch, step.at);
      IngestKeepsTerminals(g.outbox, step.batch, step.at);
      WithTerminalsKeepsInv(Archiving(g, step).value, s);
    } else {
      WithTerminalsKeepsInv(g.outbox, s);
    }
  }

  lemma {:induction false} IngestKeepsTerminals(db: O.Db, batch: seq<O.DeviceEvent>, now: int)
    ensures O.Ingest(db, batch, now).Ok? ==> O.Ingest(db, batch, now).value.terminals == db.terminals
    decreases |batch|
  {
    if batch != [] && O.InsertEvent(db, batch[0], now).Ok? {
      IngestKeepsTerminals(O.InsertEvent(db, batch[0], now).value, batch[1..], now);
    }
  }

  lemma DeliveryKeepsInv(g: State, action: O.Step)
    requires Inv(g) && !action.StepIngest? && !action.StepTerminal?
    ensures Inv(Apply(g, Delivery(action)))
  {
    hide YI.Inv, SI.Inv, OI.Inv, NoRefusals, O.Apply;
    OI.ApplyKeepsInv(g.outbox, action);
    DeliveryKeepsTerminals(g.outbox, action);
  }

  lemma DeliveryKeepsTerminals(db: O.Db, action: O.Step)
    requires OI.Inv(db) && !action.StepIngest? && !action.StepTerminal?
    ensures O.Apply(db, action).terminals == db.terminals
  {
    hide OI.Inv, O.ClaimNext, O.ClaimItem, O.Claimable, O.QueueBackfill, O.QueuePictures, O.Busy, O.Open;
    match action
    case StepClaim(queue, locked, now) =>
      var claim := O.ClaimNext(db, queue, locked, now);
      if claim.Ok? && claim.value.Some? {
        OT.ClaimedItem(db, action, claim.value.value.ticket.item);
        ClaimKeepsTerminals(db, claim.value.value.ticket.item, now);
      }
    case StepBackfill(t, from, until, token, now) =>
      if O.QueueBackfill(db, t, from, until, token, now).Ok? {
        OH.AcceptedPreview(db, t, from, until, token, now);
        var begun := db.(batches := db.batches[db.nextId := O.Batch(t, token)], nextId := db.nextId + 1);
        OI.AddAllKeepsBatches(begun, begun.batches, db.nextId, t, token.route, token.candidates, now);
      }
    case StepPictures(t, asked, pictures, now) =>
      if O.QueuePictures(db, t, asked, pictures, now).Ok? {
        PicturesKeepTerminals(db, t, asked, pictures, now);
      }
    case _ =>
  }

  lemma ClaimKeepsTerminals(db: O.Db, item: O.Item, now: int)
    requires O.Claimable(db, item, now) && O.ClaimItem(db, item, now).Ok?
    ensures O.ClaimItem(db, item, now).value.db.terminals == db.terminals
  {
  }

  lemma {:induction false} AddPicturesKeepsTerminals(db: O.Db, entries: seq<O.PictureEntry>, now: int)
    ensures O.AddPictures(db, entries, now).terminals == db.terminals
    decreases |entries|
  {
    if entries != [] {
      var a := O.Attachment(entries[0].delivery, None, O.NewWork(now));
      AddPicturesKeepsTerminals(db.(attachments := db.attachments[db.nextId := a], nextId := db.nextId + 1),
                                entries[1..], now);
    }
  }

  lemma PicturesKeepTerminals(db: O.Db, terminal: Serial, asked: int, token: O.PictureToken, now: int)
    requires O.QueuePictures(db, terminal, asked, token, now).Ok?
    ensures O.QueuePictures(db, terminal, asked, token, now).value.terminals == db.terminals
  {
    hide O.IsPicturePreview, O.Through, O.AddPictures;
    AddPicturesKeepsTerminals(db, token.entries, now);
  }

  lemma ApplyKeepsInv(g: State, step: Step)
    requires Inv(g) && Proper(step)
    ensures Inv(Apply(g, step))
  {
    hide YI.Inv, SI.Inv, OI.Inv, NoRefusals, Y.Apply, O.Apply;
    match step
    case Protocol(e) => ProtocolKeepsInv(g, e);
    case Results(_, _, _, _, _, _, _, _, _) => ResultsKeepInv(g, step);
    case Events(_, _, _, _, _, _, _, _, _) => EventsKeepInv(g, step);
    case Delivery(action) => DeliveryKeepsInv(g, action);
    case Transaction(t) =>
      TransactionUnrefused(g.db, t);
      YS.ApplyKeepsInv(g.db, t);
  }

  lemma {:induction false} ExecKeepsInv(g: State, steps: seq<Step>)
    requires Inv(g) && forall step :: step in steps ==> Proper(step)
    ensures Inv(Exec(g, steps))
    decreases |steps|
  {
    hide Inv, Apply;
    if steps != [] {
      assert steps[0] in steps && forall step :: step in steps[1..] ==> step in steps;
      ApplyKeepsInv(g, steps[0]);
      ExecKeepsInv(Apply(g, steps[0]), steps[1..]);
    }
  }

  /** Before the first start: any sessions and deliveries left in the database, and no command or run yet. */
  ghost predicate Initial(g: State) {
    && S.Initial(g.session) && g.db == Y.EMPTY.(terminals := g.session.status)
    && OI.Initial(g.outbox) && g.outbox.terminals == g.session.status.Keys
  }

  lemma ReachableInv(g: State, steps: seq<Step>)
    requires Initial(g) && forall step :: step in steps ==> Proper(step)
    ensures Inv(Exec(g, steps))
  {
    hide Exec, OI.Inv, OI.Initial;
    SI.InitialInv(g.session);
    OI.InitialInv(g.outbox);
    assert YI.Inv(g.db);
    ExecKeepsInv(g, steps);
  }

  /**
   However requests, crashes, sweeps and administrators interleave, no sync fails because its next command was refused.
   */
  lemma SyncsAreNeverRefused(g: State, steps: seq<Step>, r: Y.Uuid)
    requires Initial(g) && forall step :: step in steps ==> Proper(step)
    requires r in Exec(g, steps).db.runs
    ensures Exec(g, steps).db.runs[r].failure != Some(Y.SearchNotQueued)
    ensures Exec(g, steps).db.runs[r].failure != Some(Y.PageNotQueued)
  {
    hide Exec, Initial, SI.Inv, YI.Inv, OI.Inv;
    ReachableInv(g, steps);
  }

  // ----- Events --------------------------------------------------------------

  /** What is archived stays archived, whatever any part of the gateway does. */
  lemma StepArchive(g: State, step: Step)
    requires Inv(g) && Proper(step)
    ensures OT.ArchiveStays(g.outbox, Apply(g, step).outbox)
  {
    hide YI.Inv, SI.Inv, OI.Inv, S.Handle, O.Ingest, O.Apply, Y.Apply, Y.CompleteCommands, NoRefusals;
    match step
    case Protocol(e) =>
      StatusGrows(g.session, e);
      WithTerminalsKeepsInv(g.outbox, S.Handle(g.session, e).state);
    case Results(_, _, _, _, _, _, _, _, _) =>
      StatusGrows(g.session, ResultsExchange(g, step));
      WithTerminalsKeepsInv(g.outbox, S.Handle(g.session, ResultsExchange(g, step)).state);
    case Events(_, _, _, _, _, _, _, _, _) =>
      StatusGrows(g.session, EventsExchange(g, step));
      var s := S.Handle(g.session, EventsExchange(g, step)).state;
      if Archives(g, step) {
        OT.InvFresh(g.outbox);
        OT.IngestAdds(g.outbox, step.batch, step.at);
        OI.IngestKeepsInv(g.outbox, step.batch, step.at);
        IngestKeepsTerminals(g.outbox, step.batch, step.at);
        WithTerminalsKeepsInv(Archiving(g, step).value, s);
      } else {
        WithTerminalsKeepsInv(g.outbox, s);
      }
    case Transaction(t) =>
      OH.ArchiveStaysSame(g.outbox);
    case Delivery(action) =>
      OH.StepArchive(g.outbox, action);
  }

  lemma {:induction false} RunArchive(g: State, steps: seq<Step>)
    requires Inv(g) && forall step :: step in steps ==> Proper(step)
    ensures Inv(Exec(g, steps)) && OT.ArchiveStays(g.outbox, Exec(g, steps).outbox)
    decreases |steps|
  {
    hide Inv, Apply;
    if steps != [] {
      assert steps[0] in steps && forall step :: step in steps[1..] ==> step in steps;
      StepArchive(g, steps[0]);
      ApplyKeepsInv(g, steps[0]);
      RunArchive(Apply(g, steps[0]), steps[1..]);
    }
  }

  /** The batch is in the archive. */
  ghost predicate Holds(outbox: O.Db, batch: seq<O.DeviceEvent>) {
    forall i :: 0 <= i < |batch| ==>
      OH.Storable(outbox, batch[i]) && O.Archived(outbox, batch[i].terminal, batch[i].vendorId)
  }

  /** Once the work has committed, answered or not, the batch is in the archive. */
  lemma ArchivesHolds(g: State, step: Step)
    requires Inv(g) && Archives(g, step)
    ensures Holds(Apply(g, step).outbox, step.batch)
  {
    hide YI.Inv, SI.Inv, OI.Inv, S.Handle, O.Ingest, O.Archived, OH.Storable, OT.ArchiveStays, NoRefusals;
    OT.InvFresh(g.outbox);
    OH.IngestArchives(g.outbox, step.batch, step.at);
    OI.IngestKeepsInv(g.outbox, step.batch, step.at);
    IngestKeepsTerminals(g.outbox, step.batch, step.at);
    StatusGrows(g.session, EventsExchange(g, step));
    var stored := Archiving(g, step).value;
    WithTerminalsKeepsInv(stored, S.Handle(g.session, EventsExchange(g, step)).state);
    HoldsStays(stored, Apply(g, step).outbox, step.batch);
  }

  lemma HoldsStays(outbox: O.Db, later: O.Db, batch: seq<O.DeviceEvent>)
    requires Holds(outbox, batch) && OT.ArchiveStays(outbox, later)
    ensures Holds(later, batch)
  {
    hide O.Archived, OH.Storable, OT.ArchiveStays;
    forall i | 0 <= i < |batch|
      ensures OH.Storable(later, batch[i]) && O.Archived(later, batch[i].terminal, batch[i].vendorId)
    {
      OH.ArchivedStays(outbox, later, batch[i]);
    }
  }

  /** A positive answer is given only for a committed batch. */
  lemma AnsweredArchives(g: State, step: Step)
    requires Answered(g, step)
    ensures Archives(g, step)
  {
    hide O.Ingest, S.Handle;
    ST.AnsweredMeansCommitted(g.session, EventsExchange(g, step));
  }

  lemma {:induction false} ExecConcat(g: State, a: seq<Step>, b: seq<Step>)
    ensures Exec(g, a + b) == Exec(Exec(g, a), b)
    decreases |a|
  {
    hide Apply;
    if a == [] {
      assert a + b == b;
    } else {
      assert (a + b)[1..] == a[1..] + b;
      ExecConcat(Apply(g, a[0]), a[1..], b);
    }
  }

  lemma ExecSplit(g: State, steps: seq<Step>, i: nat, j: nat)
    requires i < j <= |steps|
    ensures Exec(g, steps[..j]) == Exec(Apply(Exec(g, steps[..i]), steps[i]), steps[i + 1..j])
  {
    hide Apply;
    assert steps[..j] == steps[..i] + steps[i..j];
    ExecConcat(g, steps[..i], steps[i..j]);
    assert steps[i..j][0] == steps[i] && steps[i..j][1..] == steps[i + 1..j];
  }

  /** A batch whose work committed is in the archive in every later state. */
  lemma CommittedForever(g: State, steps: seq<Step>, i: nat, j: nat)
    requires Initial(g) && i < j <= |steps| && forall step :: step in steps ==> Proper(step)
    requires Archives(Exec(g, steps[..i]), steps[i])
    ensures Inv(Exec(g, steps[..j])) && Holds(Exec(g, steps[..j]).outbox, steps[i].batch)
  {
    hide Initial, Inv, Apply, Archives, Holds, OT.ArchiveStays;
    assert forall step :: step in steps[..i] ==> step in steps;
    assert forall step :: step in steps[i + 1..j] ==> step in steps;
    assert steps[i] in steps;
    var before := Exec(g, steps[..i]);
    var after := Apply(before, steps[i]);
    ReachableInv(g, steps[..i]);
    assert steps[i].Events? by { ArchivesEvents(before, steps[i]); }
    ArchivesHolds(before, steps[i]);
    ApplyKeepsInv(before, steps[i]);
    RunArchive(after, steps[i + 1..j]);
    ExecSplit(g, steps, i, j);
    HoldsStays(after.outbox, Exec(g, steps[..j]).outbox, steps[i].batch);
  }

  lemma ArchivesEvents(g: State, step: Step)
    ensures Archives(g, step) || Answered(g, step) ==> step.Events?
  {
  }

  /** Every event of an answered request is archived, in that state and in every later one, whatever happens. */
  lemma AnsweredEventsArchived(g: State, steps: seq<Step>, i: nat, j: nat)
    requires Initial(g) && i < j <= |steps| && forall step :: step in steps ==> Proper(step)
    requires Answered(Exec(g, steps[..i]), steps[i])
    ensures steps[i].Events? && Holds(Exec(g, steps[..j]).outbox, steps[i].batch)
  {
    hide Initial, Inv, Apply, Archives, Holds, Answered;
    assert steps[i].Events? by { ArchivesEvents(Exec(g, steps[..i]), steps[i]); }
    AnsweredArchives(Exec(g, steps[..i]), steps[i]);
    CommittedForever(g, steps, i, j);
  }

  /** An archived event has one row, and at most one delivery carries it. */
  ghost predicate Once(outbox: O.Db, e: O.DeviceEvent) {
    exists id :: O.IsEvent(outbox, id, e.terminal, e.vendorId)
                 && (forall other :: O.IsEvent(outbox, other, e.terminal, e.vendorId) ==> other == id)
                 && forall d, d' :: O.Carries(outbox, d, O.Live(id)) && O.Carries(outbox, d', O.Live(id)) ==> d == d'
  }

  lemma ArchivedOnce(outbox: O.Db, e: O.DeviceEvent)
    requires OI.Inv(outbox) && O.Archived(outbox, e.terminal, e.vendorId)
    ensures Once(outbox, e)
  {
    hide OI.Spent, O.MakePicture, OI.DeliveryOk, OI.AttachmentOk;
    var id :| id in outbox.events && O.IsEvent(outbox, id, e.terminal, e.vendorId);
    assert outbox.events[id].terminal == e.terminal && outbox.events[id].vendorId == e.vendorId;
  }

  /**
   A batch is sent again, be it that the checkpoint of the first exchange could not be written, that the answer was lost
   or that the process died: its work commits without changing anything, and each of its events has one row and at most
   one delivery.
   */
  lemma ResentEventsChangeNothing(g: State, steps: seq<Step>, i: nat, j: nat)
    requires Initial(g) && i < j < |steps| && forall step :: step in steps ==> Proper(step)
    requires Archives(Exec(g, steps[..i]), steps[i]) && steps[j].Events?
    ensures steps[i].Events?
    ensures steps[j].batch == steps[i].batch ==>
              && Archiving(Exec(g, steps[..j]), steps[j]) == Ok(Exec(g, steps[..j]).outbox)
              && forall k :: 0 <= k < |steps[i].batch| ==> Once(Exec(g, steps[..j]).outbox, steps[i].batch[k])
  {
    hide Initial, Apply, Exec, Archives, O.Ingest, O.Archived, OH.Storable, OI.Inv, SI.Inv, YI.Inv, Once;
    assert steps[i].Events? by { ArchivesEvents(Exec(g, steps[..i]), steps[i]); }
    CommittedForever(g, steps, i, j);
    var reached := Exec(g, steps[..j]);
    if steps[j].batch == steps[i].batch {
      OH.KnownBatchChangesNothing(reached.outbox, steps[j].batch, steps[j].at);
      forall k | 0 <= k < |steps[i].batch| ensures Once(reached.outbox, steps[i].batch[k]) {
        ArchivedOnce(reached.outbox, steps[i].batch[k]);
      }
    }
  }

  /** The events of an admitted request are stored unless a payload format is unknown: the terminal's row is there. */
  lemma AdmittedEventsCommit(g: State, step: Step)
    requires Inv(g) && step.Events? && Proper(step) && Admitted(g.session, step.terminal, step.proof, step.resume)
    ensures Archiving(g, step).Ok? <==>
              forall i :: 0 <= i < |step.batch| ==> KnownFormat(step.batch[i].payload.format)
  {
    hide YI.Inv, OI.Inv, NoRefusals;
    assert step.terminal in g.session.status;
    IngestCommits(g.outbox, step.batch, step.at);
  }

  predicate KnownFormat(format: string) {
    format == "jsonData" || format == "xmlData" || format == "boundaryData" || format == "noData"
  }

  lemma {:induction false} IngestCommits(db: O.Db, batch: seq<O.DeviceEvent>, now: int)
    requires forall i :: 0 <= i < |batch| ==> batch[i].terminal in db.terminals
    ensures O.Ingest(db, batch, now).Ok? <==> forall i :: 0 <= i < |batch| ==> KnownFormat(batch[i].payload.format)
    decreases |batch|
  {
    hide O.Archived;
    if batch != [] && O.InsertEvent(db, batch[0], now).Ok? {
      assert forall i :: 0 < i < |batch| ==> batch[1..][i - 1] == batch[i];
      IngestCommits(O.InsertEvent(db, batch[0], now).value, batch[1..], now);
      assert forall i :: 0 <= i < |batch[1..]| ==> batch[1..][i] == batch[i + 1];
    }
  }
}
