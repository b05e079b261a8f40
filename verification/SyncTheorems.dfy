/**
 What holds of the command queue and the retained-event sync over whole runs of
 the gateway: any sequence of transactions from an empty database, with any
 clocks, any drawn UUIDs, any terminal answers and any administrator changes.
 */
module SyncTheorems {
  import opened Wrappers
  import opened RetainedSearch
  import opened Terminals
  import opened SyncModel
  import opened SyncInvariant
  import opened SyncEvolution
  import opened SyncSteps

  // ----- Induction over runs -------------------------------------------------

  lemma {:induction false} ExecKeepsInv(db: Db, steps: seq<Step>)
    requires Inv(db)
    ensures Inv(Exec(db, steps)) && Evolves(db, Exec(db, steps))
    decreases |steps|
  {
    if steps != [] {
      ApplyKeepsInv(db, steps[0]);
      ExecKeepsInv(Apply(db, steps[0]), steps[1..]);
      EvolvesTransitive(db, Apply(db, steps[0]), Exec(db, steps));
    }
  }

  lemma ReachableInv(steps: seq<Step>)
    ensures Inv(Exec(EMPTY, steps))
  {
    ExecKeepsInv(EMPTY, steps);
  }

  lemma {:induction false} ExecConcat(db: Db, a: seq<Step>, b: seq<Step>)
    ensures Exec(db, a + b) == Exec(Exec(db, a), b)
    decreases |a|
  {
    if a == [] {
      assert a + b == b;
    } else {
      assert (a + b)[1..] == a[1..] + b;
      ExecConcat(Apply(db, a[0]), a[1..], b);
    }
  }

  // ----- Commands and runs ---------------------------------------------------

  /**
   An active run has exactly one live command, and it asks the terminal for what the run is waiting for: its time, or
   the page of this search at the number of records accounted for. A run that ended has none.
   */
  lemma OneLiveCommand(steps: seq<Step>, r: Uuid)
    requires r in Exec(EMPTY, steps).runs
    ensures var db := Exec(EMPTY, steps);
            var run := db.runs[r];
            if Active(run) then
              exists u :: u in db.links && Drives(db, u, r)
                          && db.links[u].phase == (if run.status.AwaitingTime? then TimePhase
                                                   else PagePhase(run.imported + run.duplicate))
                          && (if run.status.AwaitingTime? then db.commands[u].request == SystemTime
                              else
                                && db.commands[u].request.EventSearch?
                                && db.commands[u].request.condition.searchId == r
                                && db.commands[u].request.condition.position == run.imported + run.duplicate
                                && run.searchEndedAt == Some(db.commands[u].request.condition.endsAt))
                          && forall v :: Drives(db, v, r) ==> v == u
            else forall u :: !Drives(db, u, r)
  {
    ReachableInv(steps);
    var db := Exec(EMPTY, steps);
    assert Settled(db, r);
    if Active(db.runs[r]) {
      var u :| IsDriver(db, u, r);
      assert u in db.links && Drives(db, u, r) && LinkOk(db, u);
    }
  }

  lemma OneActiveRunPerTerminal(steps: seq<Step>, r: Uuid, q: Uuid)
    requires r in Exec(EMPTY, steps).runs && q in Exec(EMPTY, steps).runs
    requires Rivals(Exec(EMPTY, steps).runs[r], Exec(EMPTY, steps).runs[q])
    ensures r == q
  {
    ReachableInv(steps);
  }

  /** A finished run accounts for every announced record, row by row, and read a plausible number of pages. */
  lemma FinishedRunAccounts(steps: seq<Step>, r: Uuid)
    requires r in Exec(EMPTY, steps).runs && Exec(EMPTY, steps).runs[r].status.Finished?
    ensures var db := Exec(EMPTY, steps);
            var run := db.runs[r];
            && run.totalMatches.Some?
            && run.imported + run.duplicate == run.totalMatches.value
            && run.imported == |RecordsOf(db.retained, r)|
            && run.pages == |PageLinks(db, r)|
            && (run.totalMatches.value + 29) / 30 <= run.pages <= Max(1, run.totalMatches.value)
  {
    ReachableInv(steps);
    assert Settled(Exec(EMPTY, steps), r);
  }

  /** A failed run counts exactly its retained rows, unless the page stored last was not counted. */
  lemma FailedRunAccounts(steps: seq<Step>, r: Uuid)
    requires r in Exec(EMPTY, steps).runs && Exec(EMPTY, steps).runs[r].status.Failed?
    ensures var db := Exec(EMPTY, steps);
            var run := db.runs[r];
            && run.failure.Some?
            && (run.failure.value != AdministratorGoneBeforePage ==> |RecordsOf(db.retained, r)| == run.imported)
            && (run.failure.value == AdministratorGoneBeforePage ==>
                  run.imported <= |RecordsOf(db.retained, r)| <= run.imported + 30)
  {
    ReachableInv(steps);
    assert Settled(Exec(EMPTY, steps), r);
  }

  /** Every command of a run asks for what its link says, whether it is waiting, was answered or expired. */
  lemma RequestsMatchLinks(steps: seq<Step>, u: Uuid)
    requires u in Exec(EMPTY, steps).links
    ensures var db := Exec(EMPTY, steps);
            && u in db.commands && db.links[u].run in db.runs
            && var run := db.runs[db.links[u].run];
               match db.links[u].phase
               case TimePhase => db.commands[u].request == SystemTime
               case PagePhase(position) =>
                 && db.commands[u].request.EventSearch?
                 && var condition := db.commands[u].request.condition;
                    && condition.searchId == db.links[u].run && condition.position == position
                    && run.searchEndedAt == Some(condition.endsAt) && condition.startsAt < condition.endsAt
                    && (position == 0 ==> run.searchStartedAt == Some(condition.startsAt))
  {
    ReachableInv(steps);
    assert LinkOk(Exec(EMPTY, steps), u);
  }

  /** Command `u` of run `r` asks the terminal for the records from `position` on. */
  predicate AsksFor(db: Db, u: Uuid, r: Uuid, position: nat) {
    && u in db.links && db.links[u].run == r && u in db.commands
    && db.commands[u].request.EventSearch? && db.commands[u].request.condition.position == position
  }

  /** No two commands of a run ask the terminal for the same position, nor any for one beyond the archive limit. */
  lemma PositionsNeverRepeat(steps: seq<Step>, r: Uuid, u: Uuid, v: Uuid, position: nat)
    requires AsksFor(Exec(EMPTY, steps), u, r, position) && AsksFor(Exec(EMPTY, steps), v, r, position)
    ensures u == v && position <= 150000
  {
    ReachableInv(steps);
    assert LinkOk(Exec(EMPTY, steps), u) && LinkOk(Exec(EMPTY, steps), v);
  }

  /**
   The defensive failures are never recorded: a time after the search began, a page of no active run, no match after
   the first page, totals that differ.
   */
  lemma DefensiveFailuresNeverHappen(steps: seq<Step>, r: Uuid)
    requires r in Exec(EMPTY, steps).runs && Exec(EMPTY, steps).runs[r].failure.Some?
    ensures var failure := Exec(EMPTY, steps).runs[r].failure.value;
            && failure != TimeAfterSearchBegan && failure != NoActivePage
            && failure != NoMatchAfterFirstPage && failure != TotalsMismatch
  {
    ReachableInv(steps);
    assert Settled(Exec(EMPTY, steps), r);
  }

  /** No result batch is ever rejected for belonging to another terminal's run or to a run that is no longer active. */
  lemma DefensiveErrorsNeverHappen(steps: seq<Step>, terminal: Serial, results: seq<CommandResult>, clock: Clock)
    ensures var outcome := CompleteCommands(Exec(EMPTY, steps), terminal, results, clock);
            outcome != Err(LinkedToAnotherTerminal) && outcome != Err(RunNotActive)
  {
    ReachableInv(steps);
    CompleteCommandsKeepsInv(Exec(EMPTY, steps), terminal, results, clock);
  }

  /** Every completion is strictly before the deadline, every expiry at or after it. */
  lemma DeadlinesHold(steps: seq<Step>, u: Uuid)
    requires u in Exec(EMPTY, steps).commands
    ensures var c := Exec(EMPTY, steps).commands[u];
            && (c.status.Completed? ==> c.completedAt.Some? && c.completedAt.value < c.expiresAt)
            && (c.status.Expired? ==> c.completedAt.Some? && c.expiresAt <= c.completedAt.value)
  {
    ReachableInv(steps);
    assert CommandOk(Exec(EMPTY, steps).commands[u]);
  }

  // ----- Termination ---------------------------------------------------------

  /** How many more results a run can take. */
  function Remaining(run: Run): int {
    match run.status
    case AwaitingTime => MAX_MATCHES + 2
    case Running => MAX_MATCHES + 1 - Position(run)
    case Finished => 0
    case Failed => 0
  }

  lemma QueuePageRun(db: Db, r: Uuid, condition: SearchCondition, position: nat, refusal: Failure, now: nat, draw: Uuid)
    requires r in db.runs && db.runs[r].createdBy.Some?
    ensures match QueuePage(db, r, condition, position, refusal, now, draw)
            case Ok(next) =>
              r in next.runs && (next.runs[r] == db.runs[r] || next.runs[r] == Fail(db.runs[r], refusal, now))
            case Err(_) => true
  {
  }

  lemma TimeAdvances(db: Db, r: Uuid, time: Option<LocalTime>, clock: Clock, draw: Uuid)
    requires r in db.runs && db.runs[r].status.AwaitingTime? && Position(db.runs[r]) == 0
    ensures match CompleteTime(db, r, time, clock, draw)
            case Ok(next) => r in next.runs && Remaining(next.runs[r]) < Remaining(db.runs[r])
            case Err(_) => true
  {
    var run := db.runs[r];
    if time.Some? && NewSearchRequest(run.searchId, 0, time.value).Some? && run.createdBy.Some? {
      var started := run.(status := Running, searchStartedAt := Some(time.value.year2000),
                          searchEndedAt := Some(time.value.instant));
      QueuePageRun(db.(runs := db.runs[r := started]), r, NewSearchRequest(run.searchId, 0, time.value).value, 0,
                   SearchNotQueued, clock.now, draw);
    }
  }

  lemma CountAdvances(db: Db, r: Uuid, next: nat, page: Page, inserted: nat, clock: Clock, draw: Uuid)
    requires r in db.runs && db.runs[r].status.Running? && db.runs[r].searchEndedAt.Some? && inserted <= |page.info|
    requires Position(db.runs[r]) <= MAX_MATCHES && (page.status.More? ==> page.info != [])
    ensures match AdvanceRun(db, r, next, page, inserted, clock, draw)
            case Ok(after) => r in after.runs && Remaining(after.runs[r]) < Remaining(db.runs[r])
            case Err(_) => true
  {
    var run := db.runs[r];
    var request := NewSearchRequest(run.searchId, next, LocalTime(run.searchEndedAt.value, clock.year2000));
    if page.status.More? && run.createdBy.Some? && request.Some? {
      QueuePageRun(db.(runs := db.runs[r := Counted(run, page, inserted)]), r, request.value, next, PageNotQueued,
                   clock.now, draw);
    }
  }

  lemma StoreAdvances(db: Db, r: Uuid, position: nat, command: Uuid, page: Page, clock: Clock, draw: Uuid)
    requires r in db.runs && db.runs[r].status.Running? && db.runs[r].searchEndedAt.Some? && PageOk(page)
    requires Position(db.runs[r]) <= MAX_MATCHES && PageRefusal(db.runs[r], position, page).None?
    ensures match StorePage(db, r, position + page.numOfMatches, command, page, clock, draw)
            case Ok(next) => r in next.runs && Remaining(next.runs[r]) < Remaining(db.runs[r])
            case Err(_) => true
  {
    hide AdvanceRun, InsertRetained;
    var rows := InsertRetained(db.retained, db.runs[r].terminal, r, command, page.info);
    CountAdvances(db.(retained := rows), r, position + page.numOfMatches, page, |rows| - |db.retained|, clock, draw);
  }

  lemma PageAdvances(db: Db, r: Uuid, phase: Phase, command: Uuid, parsed: Option<Page>, clock: Clock, draw: Uuid)
    requires r in db.runs && db.runs[r].status.Running? && Position(db.runs[r]) <= MAX_MATCHES
    requires parsed.Some? ==> PageOk(parsed.value)
    ensures match CompletePage(db, r, phase, command, parsed, clock, draw)
            case Ok(next) => r in next.runs && Remaining(next.runs[r]) < Remaining(db.runs[r])
            case Err(_) => true
  {
    hide StorePage;
    if phase.PagePhase? && db.runs[r].searchEndedAt.Some? && parsed.Some?
       && PageRefusal(db.runs[r], phase.position, parsed.value).None?
    {
      StoreAdvances(db, r, phase.position, command, parsed.value, clock, draw);
    }
  }

  lemma SyncAdvances(db: Db, terminal: Serial, result: CommandResult, clock: Clock)
    requires result.uuid in db.links && db.links[result.uuid].run in db.runs
    requires var run := db.runs[db.links[result.uuid].run];
             && Lifecycle(run) && Position(run) <= MAX_MATCHES
             && db.links[result.uuid].phase == ExpectedPhase(run)
    ensures match AdvanceSync(db, terminal, result, clock)
            case Ok(next) =>
              var r := db.links[result.uuid].run;
              r in next.runs && Remaining(next.runs[r]) < Remaining(db.runs[r])
            case Err(_) => true
  {
    var link := db.links[result.uuid];
    if result.decoded.Decoded? && Active(db.runs[link.run]) {
      if link.phase.TimePhase? {
        TimeAdvances(db, link.run, result.decoded.time, clock, result.draw);
      } else {
        PageAdvances(db, link.run, link.phase, result.uuid, ParsePage(result.decoded.page), clock, result.draw);
      }
    }
  }

  /** Every accepted result of a sync command uses up part of a fixed budget. */
  lemma AcceptedResultsAdvance(db: Db, terminal: Serial, result: CommandResult, clock: Clock)
    requires Inv(db) && Timely(db, terminal, clock.now)
    requires result.uuid in db.links && result.uuid in db.commands && db.commands[result.uuid].status.Sent?
    ensures match CompleteOne(db, terminal, result, clock)
            case Ok(next) =>
              var r := db.links[result.uuid].run;
              r in db.runs && r in next.runs && 0 <= Remaining(next.runs[r]) < Remaining(db.runs[r]) <= 150002
            case Err(_) => true
  {
    var outcome := CompleteOne(db, terminal, result, clock);
    SentDrives(db, result.uuid);
    var link := db.links[result.uuid];
    assert RunOk(db, link.run) by {
      assert Settled(db, link.run);
    }
    if outcome.Ok? {
      var db' := AfterResult(db, result, clock.now);
      assert outcome == AdvanceSync(db', terminal, result, clock);
      SyncAdvances(db', terminal, result, clock);
      assert RunOk(outcome.value, link.run) by {
        CompleteOneKeepsInv(db, terminal, result, clock);
        assert Settled(outcome.value, link.run);
      }
    }
  }

  // ----- Replays -------------------------------------------------------------

  /** The command is completed with exactly this result. */
  predicate Acknowledged(db: Db, terminal: Serial, result: CommandResult) {
    && result.uuid in db.commands && db.commands[result.uuid].terminal == terminal
    && db.commands[result.uuid].status.Completed?
    && db.commands[result.uuid].response == Some(Response(result.format, result.text))
  }

  lemma AcknowledgedStays(db: Db, db': Db, terminal: Serial, result: CommandResult)
    requires Acknowledged(db, terminal, result) && Evolves(db, db')
    ensures Acknowledged(db', terminal, result)
  {
    assert result.uuid in db'.commands;
  }

  lemma CompleteOneAcknowledges(db: Db, terminal: Serial, result: CommandResult, clock: Clock)
    requires CompleteOne(db, terminal, result, clock).Ok?
    ensures Acknowledged(CompleteOne(db, terminal, result, clock).value, terminal, result)
  {
    if db.commands[result.uuid].status.Sent? {
      var db' := AfterResult(db, result, clock.now);
      SyncEvolves(db', terminal, result, clock);
      assert CompleteOne(db, terminal, result, clock) == AdvanceSync(db', terminal, result, clock);
      AcknowledgedStays(db', CompleteOne(db, terminal, result, clock).value, terminal, result);
    }
  }

  lemma {:induction false} CompleteAllAcknowledges(db: Db, terminal: Serial, results: seq<CommandResult>, clock: Clock)
    requires CompleteAll(db, terminal, results, clock).Ok?
    ensures var after := CompleteAll(db, terminal, results, clock).value;
            forall i :: 0 <= i < |results| ==> Acknowledged(after, terminal, results[i])
    decreases |results|
  {
    if results != [] {
      var first := CompleteOne(db, terminal, results[0], clock).value;
      var last := CompleteAll(db, terminal, results, clock).value;
      CompleteOneAcknowledges(db, terminal, results[0], clock);
      CompleteAllEvolves(first, terminal, results[1..], clock);
      AcknowledgedStays(first, last, terminal, results[0]);
      CompleteAllAcknowledges(first, terminal, results[1..], clock);
      forall i | 0 <= i < |results| ensures Acknowledged(last, terminal, results[i]) {
        assert i > 0 ==> results[i] == results[1..][i - 1];
      }
    }
  }

  lemma {:induction false} AcknowledgedChangesNothing(db: Db, terminal: Serial, results: seq<CommandResult>,
                                                      clock: Clock)
    requires forall i :: 0 <= i < |results| ==> Acknowledged(db, terminal, results[i])
    ensures CompleteAll(db, terminal, results, clock) == Ok(db)
    decreases |results|
  {
    if results != [] {
      assert forall i :: 0 <= i < |results[1..]| ==> results[1..][i] == results[i + 1];
      AcknowledgedChangesNothing(db, terminal, results[1..], clock);
    }
  }

  /**
   An accepted batch, replayed after any further transactions, is accepted again and does nothing beyond the expiry
   sweep.
   */
  lemma ReplayChangesNothing(db: Db, terminal: Serial, results: seq<CommandResult>, clock: Clock,
                             steps: seq<Step>, replayClock: Clock)
    requires Inv(db) && CompleteCommands(db, terminal, results, clock).Ok?
    ensures var later := Exec(CompleteCommands(db, terminal, results, clock).value, steps);
            CompleteCommands(later, terminal, results, replayClock)
            == Ok(ExpireOverdue(later, Some(terminal), replayClock.now))
  {
    var accepted := CompleteCommands(db, terminal, results, clock).value;
    var later := Exec(accepted, steps);
    var swept := ExpireOverdue(later, Some(terminal), replayClock.now);
    CompleteCommandsKeepsInv(db, terminal, results, clock);
    CompleteAllAcknowledges(ExpireOverdue(db, Some(terminal), clock.now), terminal, results, clock);
    ExecKeepsInv(accepted, steps);
    ExpireEvolves(later, Some(terminal), replayClock.now);
    EvolvesTransitive(accepted, later, swept);
    forall i | 0 <= i < |results| ensures Acknowledged(swept, terminal, results[i]) {
      AcknowledgedStays(accepted, swept, terminal, results[i]);
    }
    AcknowledgedChangesNothing(swept, terminal, results, replayClock);
  }

  /**
   The command cannot take this result: it is unknown, another terminal's, not sent, or completed with another result.
   */
  predicate Contradicts(db: Db, terminal: Serial, result: CommandResult) {
    || result.uuid !in db.commands || db.commands[result.uuid].terminal != terminal
    || db.commands[result.uuid].status.Queued? || db.commands[result.uuid].status.Expired?
    || (db.commands[result.uuid].status.Completed?
        && db.commands[result.uuid].response != Some(Response(result.format, result.text)))
  }

  /** The same when the batch is received: a command at its deadline takes no result either. */
  predicate Hopeless(db: Db, terminal: Serial, result: CommandResult, now: nat) {
    || Contradicts(db, terminal, result)
    || (db.commands[result.uuid].status.Sent? && db.commands[result.uuid].expiresAt <= now)
  }

  lemma {:induction false} ContradictionRejects(db: Db, terminal: Serial, results: seq<CommandResult>, clock: Clock,
                                                i: nat)
    requires i < |results| && Contradicts(db, terminal, results[i])
    requires results[i].uuid in db.commands || forall j :: 0 <= j < |results| ==> results[j].draw != results[i].uuid
    ensures CompleteAll(db, terminal, results, clock).Err?
    decreases |results|
  {
    if i > 0 && CompleteOne(db, terminal, results[0], clock).Ok? {
      var next := CompleteOne(db, terminal, results[0], clock).value;
      CompleteOneAddsDraw(db, terminal, results[0], clock);
      assert results[1..][i - 1] == results[i];
      ContradictionRejects(next, terminal, results[1..], clock, i - 1);
    }
  }

  /** One such result anywhere rejects the batch, and the database stays as it was. */
  lemma ConflictRejectsBatch(db: Db, terminal: Serial, results: seq<CommandResult>, clock: Clock, i: nat)
    requires i < |results| && Hopeless(db, terminal, results[i], clock.now)
    requires results[i].uuid in db.commands || forall j :: 0 <= j < |results| ==> results[j].draw != results[i].uuid
    ensures CompleteCommands(db, terminal, results, clock).Err?
    ensures Apply(db, StepComplete(terminal, results, clock)) == db
  {
    hide CompleteAll;
    var swept := ExpireOverdue(db, Some(terminal), clock.now);
    assert swept.commands.Keys == db.commands.Keys && Contradicts(swept, terminal, results[i]);
    ContradictionRejects(swept, terminal, results, clock, i);
  }

  /** No command but the one drawn is added, and those there before are untouched. */
  ghost predicate OnlyAdds(db: Db, outcome: Result<Db, StoreError>, draw: Uuid) {
    match outcome
    case Err(_) => true
    case Ok(next) =>
      && next.commands.Keys <= db.commands.Keys + {draw}
      && forall u :: u in db.commands ==> u in next.commands && next.commands[u] == db.commands[u]
  }

  /** The only command a result can add is the one with the UUID drawn for it, and it changes no other. */
  lemma CompleteOneAddsDraw(db: Db, terminal: Serial, result: CommandResult, clock: Clock)
    ensures match CompleteOne(db, terminal, result, clock)
            case Ok(next) =>
              && next.commands.Keys <= db.commands.Keys + {result.draw}
              && (forall u :: u in db.commands && u != result.uuid ==>
                    u in next.commands && next.commands[u] == db.commands[u])
              && result.uuid in next.commands
              && (!db.commands[result.uuid].status.Sent? ==> next == db)
            case Err(_) => true
  {
    hide CompleteTime, CompletePage;
    if result.uuid in db.commands && result.uuid in db.links && db.links[result.uuid].run in db.runs
       && result.decoded.Decoded?
    {
      var db' := AfterResult(db, result, clock.now);
      var link := db.links[result.uuid];
      TimeAddsDraw(db', link.run, result.decoded.time, clock, result.draw);
      PageAddsDraw(db', link.run, link.phase, result.uuid, ParsePage(result.decoded.page), clock, result.draw);
    }
  }

  lemma QueuePageAddsDraw(db: Db, r: Uuid, condition: SearchCondition, position: nat, refusal: Failure, now: nat,
                          draw: Uuid)
    requires r in db.runs && db.runs[r].createdBy.Some?
    ensures OnlyAdds(db, QueuePage(db, r, condition, position, refusal, now, draw), draw)
  {
  }

  lemma TimeAddsDraw(db: Db, r: Uuid, time: Option<LocalTime>, clock: Clock, draw: Uuid)
    requires r in db.runs
    ensures OnlyAdds(db, CompleteTime(db, r, time, clock, draw), draw)
  {
    hide QueuePage;
    var run := db.runs[r];
    if time.Some? && NewSearchRequest(run.searchId, 0, time.value).Some? && run.createdBy.Some? {
      var started := run.(status := Running, searchStartedAt := Some(time.value.year2000),
                          searchEndedAt := Some(time.value.instant));
      QueuePageAddsDraw(db.(runs := db.runs[r := started]), r, NewSearchRequest(run.searchId, 0, time.value).value, 0,
                        SearchNotQueued, clock.now, draw);
    }
  }

  lemma AdvanceAddsDraw(db: Db, r: Uuid, next: nat, page: Page, inserted: nat, clock: Clock, draw: Uuid)
    requires r in db.runs && db.runs[r].searchEndedAt.Some? && inserted <= |page.info|
    ensures OnlyAdds(db, AdvanceRun(db, r, next, page, inserted, clock, draw), draw)
  {
    hide QueuePage;
    var run := db.runs[r];
    var request := NewSearchRequest(run.searchId, next, LocalTime(run.searchEndedAt.value, clock.year2000));
    if page.status.More? && run.createdBy.Some? && request.Some? {
      QueuePageAddsDraw(db.(runs := db.runs[r := Counted(run, page, inserted)]), r, request.value, next, PageNotQueued,
                        clock.now, draw);
    }
  }

  lemma StoreAddsDraw(db: Db, r: Uuid, next: nat, command: Uuid, page: Page, clock: Clock, draw: Uuid)
    requires r in db.runs && db.runs[r].searchEndedAt.Some?
    requires forall i :: 0 <= i < |page.info| ==> page.info[i].projection.Some?
    ensures OnlyAdds(db, StorePage(db, r, next, command, page, clock, draw), draw)
  {
    hide AdvanceRun, InsertRetained;
    var rows := InsertRetained(db.retained, db.runs[r].terminal, r, command, page.info);
    AdvanceAddsDraw(db.(retained := rows), r, next, page, |rows| - |db.retained|, clock, draw);
  }

  lemma PageAddsDraw(db: Db, r: Uuid, phase: Phase, command: Uuid, parsed: Option<Page>, clock: Clock, draw: Uuid)
    requires r in db.runs
    ensures OnlyAdds(db, CompletePage(db, r, phase, command, parsed, clock, draw), draw)
  {
    hide StorePage;
    if phase.PagePhase? && db.runs[r].searchEndedAt.Some? && parsed.Some?
       && PageRefusal(db.runs[r], phase.position, parsed.value).None?
    {
      StoreAddsDraw(db, r, phase.position + parsed.value.numOfMatches, command, parsed.value, clock, draw);
    }
  }

  // ----- Claims --------------------------------------------------------------

  /** In state `db`, `step` is a claim that hands command `u` to the terminal. */
  ghost predicate HandsOut(db: Db, step: Step, u: Uuid) {
    && step.StepClaim?
    && var claim := ClaimCommands(db, step.terminal, step.limit, step.now);
       claim.Ok? && u in claim.value.uuids
  }

  lemma HandedOutIsSent(db: Db, step: Step, u: Uuid)
    requires HandsOut(db, step, u)
    ensures u in db.commands && db.commands[u].status.Queued?
    ensures u in Apply(db, step).commands && Apply(db, step).commands[u].status.Sent?
  {
    PickedClaimable(ExpireOverdue(db, Some(step.terminal), step.now), step.terminal, step.limit, step.now);
  }

  /** Over a whole run, no command is handed out by two claims. */
  lemma ClaimedOnce(steps: seq<Step>, i: nat, j: nat, u: Uuid)
    requires i < j < |steps|
    requires HandsOut(Exec(EMPTY, steps[..i]), steps[i], u)
    ensures !HandsOut(Exec(EMPTY, steps[..j]), steps[j], u)
  {
    var before := Exec(EMPTY, steps[..i]);
    var after := Apply(before, steps[i]);
    var later := Exec(EMPTY, steps[..j]);
    assert steps[..j] == steps[..i] + steps[i..j];
    ExecConcat(EMPTY, steps[..i], steps[i..j]);
    assert steps[i..j][0] == steps[i];
    ReachableInv(steps[..i]);
    ApplyKeepsInv(before, steps[i]);
    ExecKeepsInv(after, steps[i..j][1..]);
    HandedOutIsSent(before, steps[i], u);
    assert later == Exec(after, steps[i..j][1..]);
    assert u in later.commands && CommandEvolves(after.commands[u], later.commands[u]);
    if HandsOut(later, steps[j], u) {
      HandedOutIsSent(later, steps[j], u);
    }
  }
}
