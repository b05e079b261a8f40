/**
 Whole histories of a sync: it ends after a bounded number of results or at a
 deadline, and a history in which the next page cannot be asked for.
 */
module SyncHistories {
  import opened Wrappers
  import opened Ordering
  import opened RetainedSearch
  import opened Terminals
  import opened SyncModel
  import opened SyncInvariant
  import opened SyncEvolution
  import opened SyncSteps
  import opened SyncTheorems

  // ----- Termination ---------------------------------------------------------

  /** The result answers a command of run `r` that is waiting for it. */
  predicate Answers(db: Db, terminal: Serial, result: CommandResult, r: Uuid) {
    && result.uuid in db.links && db.links[result.uuid].run == r
    && result.uuid in db.commands && db.commands[result.uuid].status.Sent?
    && db.commands[result.uuid].terminal == terminal
  }

  /** How many results of the batch the run takes. */
  function Taken(db: Db, terminal: Serial, results: seq<CommandResult>, clock: Clock, r: Uuid): nat
    decreases |results|
  {
    if results == [] then 0
    else
      match CompleteOne(db, terminal, results[0], clock)
      case Err(_) => 0
      case Ok(next) =>
        (if Answers(db, terminal, results[0], r) then 1 else 0) + Taken(next, terminal, results[1..], clock, r)
  }

  /** How many results the run takes in one step; a rejected batch gives it none. */
  function TakenBy(db: Db, step: Step, r: Uuid): nat {
    if step.StepComplete? && CompleteCommands(db, step.terminal, step.results, step.clock).Ok? then
      Taken(ExpireOverdue(db, Some(step.terminal), step.clock.now), step.terminal, step.results, step.clock, r)
    else 0
  }

  ghost function TakenOver(db: Db, steps: seq<Step>, r: Uuid): nat
    decreases |steps|
  {
    if steps == [] then 0 else TakenBy(db, steps[0], r) + TakenOver(Apply(db, steps[0]), steps[1..], r)
  }

  /** How many results the run can still take, before it exists as long as it is active. */
  function Budget(db: Db, r: Uuid): int {
    if r in db.runs then Remaining(db.runs[r]) else MAX_MATCHES + 2
  }

  lemma BudgetRange(db: Db, r: Uuid)
    requires Inv(db)
    ensures 0 <= Budget(db, r) <= MAX_MATCHES + 2
  {
    if r in db.runs {
      assert Settled(db, r);
    }
  }

  /** Nothing that happens gives a run more results to take. */
  lemma BudgetShrinks(db: Db, db': Db, r: Uuid)
    requires Inv(db) && Inv(db') && Evolves(db, db')
    ensures Budget(db', r) <= Budget(db, r)
  {
    BudgetRange(db, r);
    BudgetRange(db', r);
    if r in db.runs {
      assert Settled(db, r);
      assert r in db'.runs && RunEvolves(db.runs[r], db'.runs[r]);
    }
  }

  lemma OneResult(db: Db, terminal: Serial, result: CommandResult, clock: Clock, r: Uuid)
    requires Inv(db) && Timely(db, terminal, clock.now) && CompleteOne(db, terminal, result, clock).Ok?
    ensures var next := CompleteOne(db, terminal, result, clock).value;
            && Inv(next) && Timely(next, terminal, clock.now)
            && (if Answers(db, terminal, result, r) then 1 else 0) + Budget(next, r) <= Budget(db, r)
  {
    hide Inv, CompleteOne, Evolves, Timely, Remaining;
    var next := CompleteOne(db, terminal, result, clock).value;
    CompleteOneKeepsInv(db, terminal, result, clock);
    assert Evolves(db, next) by { GrowthEvolves(db, terminal, result, clock); }
    BudgetShrinks(db, next, r);
    if Answers(db, terminal, result, r) {
      AcceptedResultsAdvance(db, terminal, result, clock);
    }
  }

  lemma GrowthEvolves(db: Db, terminal: Serial, result: CommandResult, clock: Clock)
    requires CompleteOne(db, terminal, result, clock).Ok?
    ensures Evolves(db, CompleteOne(db, terminal, result, clock).value)
  {
    hide CompleteOne, Evolves;
    CompleteOneEvolves(db, terminal, result, clock);
  }

  lemma {:induction false} BatchTakes(db: Db, terminal: Serial, results: seq<CommandResult>, clock: Clock, r: Uuid)
    requires Inv(db) && Timely(db, terminal, clock.now) && CompleteAll(db, terminal, results, clock).Ok?
    ensures var after := CompleteAll(db, terminal, results, clock).value;
            Taken(db, terminal, results, clock, r) + Budget(after, r) <= Budget(db, r)
    decreases |results|
  {
    hide Inv, CompleteOne, Timely, Budget, Answers;
    if results != [] {
      OneResult(db, terminal, results[0], clock, r);
      BatchTakes(CompleteOne(db, terminal, results[0], clock).value, terminal, results[1..], clock, r);
    }
  }

  lemma StepTakes(db: Db, step: Step, r: Uuid)
    requires Inv(db)
    ensures TakenBy(db, step, r) + Budget(Apply(db, step), r) <= Budget(db, r)
  {
    hide Inv, Budget, Taken, ExpireOverdue, CompleteAll, Evolves;
    ApplyKeepsInv(db, step);
    if TakenBy(db, step, r) == 0 {
      hide Apply;
      BudgetShrinks(db, Apply(db, step), r);
    } else {
      var swept := ExpireOverdue(db, Some(step.terminal), step.clock.now);
      ExpireKeepsInv(db, Some(step.terminal), step.clock.now);
      ExpireIsTimely(db, step.terminal, step.clock.now);
      ExpireEvolves(db, Some(step.terminal), step.clock.now);
      BudgetShrinks(db, swept, r);
      BatchTakes(swept, step.terminal, step.results, step.clock, r);
    }
  }

  /**
   Over any history, what a run takes and can still take is at most what it could take before: 150002 results in all.
   */
  lemma {:induction false} ResultsAreBounded(db: Db, steps: seq<Step>, r: Uuid)
    requires Inv(db)
    ensures 0 <= Budget(Exec(db, steps), r)
    ensures TakenOver(db, steps, r) + Budget(Exec(db, steps), r) <= Budget(db, r) <= 150002
    decreases |steps|
  {
    hide Inv, Apply, Budget, TakenBy, Evolves;
    BudgetRange(db, r);
    if steps != [] {
      StepTakes(db, steps[0], r);
      ApplyKeepsInv(db, steps[0]);
      ResultsAreBounded(Apply(db, steps[0]), steps[1..], r);
    }
  }

  /** A run that gets no further result ends at the deadline of the command it waits for. */
  lemma DeadlineEndsRun(db: Db, r: Uuid)
    requires Inv(db) && r in db.runs && Active(db.runs[r])
    ensures exists u :: u in db.commands && Drives(db, u, r)
                        && forall now: nat :: now >= db.commands[u].expiresAt ==>
                             r in Apply(db, StepSweep(now)).runs && Apply(db, StepSweep(now)).runs[r].status.Failed?
  {
    assert Settled(db, r);
    var u :| IsDriver(db, u, r);
    forall now: nat | now >= db.commands[u].expiresAt
      ensures r in Apply(db, StepSweep(now)).runs && Apply(db, StepSweep(now)).runs[r].status.Failed?
    {
      SweepFails(db, r, u, now);
    }
    assert u in db.commands && Drives(db, u, r);
  }

  lemma SweepFails(db: Db, r: Uuid, u: Uuid, now: nat)
    requires r in db.runs && Active(db.runs[r]) && Drives(db, u, r) && now >= db.commands[u].expiresAt
    ensures r in Apply(db, StepSweep(now)).runs && Apply(db, StepSweep(now)).runs[r].status.Failed?
  {
    assert u in db.links && OverdueFor(db, u, r, None, now);
  }

  // ----- The next page in the gateway's own location -------------------------

  /** The request for the next page is built exactly when the end of the search, as read back, is past the year 2000. */
  lemma AdvanceRejectedIff(db: Db, x: Uuid, page: Page, inserted: nat, clock: Clock, draw: Uuid)
    requires PageStored(db, x, page, inserted) && page.status.More? && db.runs[x].createdBy.Some?
    ensures AdvanceRun(db, x, Position(db.runs[x]) + page.numOfMatches, page, inserted, clock,
                       draw) == Err(SearchNotBuilt)
            <==> db.runs[x].searchEndedAt.value <= clock.year2000
  {
    CountedOk(db.runs[x], page, inserted, clock.now);
    assert RunOk(db, x);
    var counted := Counted(db.runs[x], page, inserted);
    assert PageRefusal(db.runs[x], Position(db.runs[x]), page).None?;
    if db.runs[x].searchEndedAt.value > clock.year2000 {
      var request := NewSearchRequest(db.runs[x].searchId, Position(counted),
                                      LocalTime(db.runs[x].searchEndedAt.value, clock.year2000));
      assert request.Some?;
    }
  }

  /** The result answers a page command with a page that continues the search and announces more. */
  predicate AnnouncesMore(db: Db, terminal: Serial, result: CommandResult, r: Uuid) {
    && Answers(db, terminal, result, r) && r in db.runs && db.runs[r].createdBy.Some?
    && db.links[result.uuid].phase.PagePhase? && result.decoded.Decoded? && result.format in {None, Some("jsonData")}
    && var page := ParsePage(result.decoded.page);
       page.Some? && page.value.status.More? && Acceptable(db.runs[r], page.value)
  }

  /** The run is searching, and the result is for the page it waits for. */
  lemma AnsweredRun(db: Db, terminal: Serial, result: CommandResult, r: Uuid, now: nat)
    requires Inv(db) && Timely(db, terminal, now) && AnnouncesMore(db, terminal, result, r)
    ensures db.runs[r].status.Running? && db.runs[r].terminal == terminal
    ensures db.runs[r].searchStartedAt.Some? && db.runs[r].searchEndedAt.Some?
    ensures db.links[result.uuid].phase == PagePhase(Position(db.runs[r]))
    ensures var after := AfterResult(db, result, now);
            Between(after, r) && Accounted(after, r, db.runs[r].pages + 1, Position(db.runs[r]))
  {
    hide ParsePage, Acceptable;
    SentDrives(db, result.uuid);
    assert Settled(db, r) && RunOk(db, r);
    ResultOpens(db, result, now);
    assert PageLinks(AfterResult(db, result, now), r) == PageLinks(db, r);
  }

  lemma ResultRejectedIff(db: Db, terminal: Serial, result: CommandResult, r: Uuid, clock: Clock)
    requires Inv(db) && Timely(db, terminal, clock.now) && AnnouncesMore(db, terminal, result, r)
    ensures db.runs[r].searchEndedAt.Some?
    ensures CompleteOne(db, terminal, result, clock) == Err(SearchNotBuilt)
            <==> db.runs[r].searchEndedAt.value <= clock.year2000
  {
    hide Inv, Timely, ParsePage, PageRefusal, InsertRetained, AdvanceRun, Between, Accounted;
    AnsweredRun(db, terminal, result, r, clock.now);
    var page := ParsePage(result.decoded.page).value;
    var after := AfterResult(db, result, clock.now);
    AcceptableIsDocumented(db.runs[r], page);
    var rows := InsertRetained(after.retained, terminal, r, result.uuid, page.info);
    StoringIsStored(after, r, result.uuid, page);
    AdvanceRejectedIff(after.(retained := rows), r, page, |rows| - |after.retained|, clock, result.draw);
    assert CompleteOne(db, terminal, result, clock)
        == StorePage(after, r, Position(db.runs[r]) + page.numOfMatches, result.uuid, page, clock, result.draw);
  }

  lemma AcceptableIsDocumented(run: Run, page: Page)
    requires Acceptable(run, page)
    ensures forall i :: 0 <= i < |page.info| ==> page.info[i].projection.Some?
  {
  }

  /** A sweep leaves alone a run whose command is not overdue. */
  lemma SweepSpares(db: Db, terminal: Serial, result: CommandResult, r: Uuid, now: nat)
    requires Inv(db) && AnnouncesMore(db, terminal, result, r) && db.commands[result.uuid].expiresAt > now
    ensures var swept := ExpireOverdue(db, Some(terminal), now);
            AnnouncesMore(swept, terminal, result, r) && swept.runs[r] == db.runs[r]
  {
    hide ParsePage, Acceptable;
    SentDrives(db, result.uuid);
    forall u | OverdueFor(db, u, r, Some(terminal), now) ensures u == result.uuid {
      assert Drives(db, u, r);
    }
    assert ExpireRun(db, r, Some(terminal), now) == db.runs[r];
  }

  /**
   A result in time that announces more is rejected for want of a next request exactly when the end of the search is not
   past the year 2000 in the gateway's own location.
   */
  lemma LoneMoreRejectedIff(db: Db, terminal: Serial, result: CommandResult, r: Uuid, clock: Clock)
    requires Inv(db) && AnnouncesMore(db, terminal, result, r) && db.commands[result.uuid].expiresAt > clock.now
    ensures db.runs[r].searchEndedAt.Some?
    ensures CompleteCommands(db, terminal, [result], clock) == Err(SearchNotBuilt)
            <==> db.runs[r].searchEndedAt.value <= clock.year2000
  {
    hide Inv, Timely, AnnouncesMore, ExpireOverdue, CompleteOne;
    var swept := ExpireOverdue(db, Some(terminal), clock.now);
    SweepSpares(db, terminal, result, r, clock.now);
    ExpireKeepsInv(db, Some(terminal), clock.now);
    ExpireIsTimely(db, terminal, clock.now);
    ResultRejectedIff(swept, terminal, result, r, clock);
    assert [result][1..] == [];
    assert CompleteAll(swept, terminal, [result], clock) ==
             match CompleteOne(swept, terminal, result, clock)
             case Err(e) => Err(e)
             case Ok(next) => CompleteAll(next, terminal, [], clock);
  }

  lemma {:induction false} CompleteAllConcat(db: Db, terminal: Serial, a: seq<CommandResult>, b: seq<CommandResult>,
                                             clock: Clock)
    ensures CompleteAll(db, terminal, a + b, clock) ==
              match CompleteAll(db, terminal, a, clock)
              case Err(e) => Err(e)
              case Ok(next) => CompleteAll(next, terminal, b, clock)
    decreases |a|
  {
    hide CompleteOne;
    if a == [] {
      assert a + b == b;
    } else {
      assert (a + b)[1..] == a[1..] + b;
      if CompleteOne(db, terminal, a[0], clock).Ok? {
        CompleteAllConcat(CompleteOne(db, terminal, a[0], clock).value, terminal, a[1..], b, clock);
      }
    }
  }

  /**
   A batch whose earlier results are accepted and whose next one announces more: that one is rejected, and with it the
   whole batch, whatever follows, exactly when the end of the search is not past the year 2000 in the gateway's own
   location.
   */
  lemma MoreRejectedIff(db: Db, terminal: Serial, earlier: seq<CommandResult>, result: CommandResult,
                        later: seq<CommandResult>, r: Uuid, clock: Clock)
    requires Inv(db) && CompleteCommands(db, terminal, earlier, clock).Ok?
    requires AnnouncesMore(CompleteCommands(db, terminal, earlier, clock).value, terminal, result, r)
    ensures var reached := CompleteCommands(db, terminal, earlier, clock).value;
            && reached.runs[r].searchEndedAt.Some?
            && (CompleteCommands(db, terminal, earlier + [result], clock) == Err(SearchNotBuilt)
                <==> reached.runs[r].searchEndedAt.value <= clock.year2000)
            && (reached.runs[r].searchEndedAt.value <= clock.year2000 ==>
                  && CompleteCommands(db, terminal, earlier + [result] + later, clock) == Err(SearchNotBuilt)
                  && Apply(db, StepComplete(terminal, earlier + [result] + later, clock)) == db)
  {
    hide Inv, Timely, AnnouncesMore, ExpireOverdue, CompleteOne, CompleteAll;
    var swept := ExpireOverdue(db, Some(terminal), clock.now);
    var reached := CompleteCommands(db, terminal, earlier, clock).value;
    ExpireKeepsInv(db, Some(terminal), clock.now);
    ExpireIsTimely(db, terminal, clock.now);
    CompleteAllKeepsInv(swept, terminal, earlier, clock);
    ResultRejectedIff(reached, terminal, result, r, clock);
    CompleteAllConcat(swept, terminal, earlier, [result], clock);
    CompleteAllConcat(swept, terminal, earlier + [result], later, clock);
    OneOfBatch(reached, terminal, result, clock);
  }

  lemma OneOfBatch(db: Db, terminal: Serial, result: CommandResult, clock: Clock)
    ensures CompleteAll(db, terminal, [result], clock) == CompleteOne(db, terminal, result, clock)
  {
    hide CompleteOne;
    assert [result][1..] == [];
    if CompleteOne(db, terminal, result, clock).Ok? {
      assert CompleteAll(CompleteOne(db, terminal, result, clock).value, terminal, [], clock)
          == CompleteOne(db, terminal, result, clock);
    }
  }

  /** What a run whose administrator is gone leaves uncounted: the new rows of the page that announced more. */
  lemma UncountedPage(db: Db, x: Uuid, page: Page, inserted: nat, clock: Clock, draw: Uuid)
    requires PageStored(db, x, page, inserted) && page.status.More? && db.runs[x].createdBy.None?
    ensures var outcome := AdvanceRun(db, x, Position(db.runs[x]) + page.numOfMatches, page, inserted, clock, draw);
            && outcome.Ok? && x in outcome.value.runs
            && outcome.value.runs[x].failure == Some(AdministratorGoneBeforePage)
            && |RecordsOf(outcome.value.retained, x)| == outcome.value.runs[x].imported + inserted
  {
  }

  // ----- A history that ends in such a rejection -----------------------------

  const RUN: Uuid := "a0000000-0000-4000-8000-000000000000"
  const TIME: Uuid := "b0000000-0000-4000-8000-000000000000"
  const FIRST: Uuid := "c0000000-0000-4000-8000-000000000000"
  const NEXT: Uuid := "d0000000-0000-4000-8000-000000000000"

  /**
   Half past midnight on 1 January 2000, eight hours east of a gateway at UTC, in seconds since that day began at UTC.
   */
  const EAST: LocalTime := LocalTime(-27000, -28800)

  /** The first of two records. */
  const PAGE: Page := Page(RUN, More, 1, 2, [RawRecord("record", Some(Projection(5, 75, -28000, None, None, None)))])

  const TIME_RESULT: CommandResult := CommandResult(TIME, None, "time", Decoded(Some(EAST), None), FIRST)
  const PAGE_RESULT: CommandResult := CommandResult(FIRST, Some("jsonData"), "page",
                                                    Decoded(None, Some(DocumentOf(PAGE))), NEXT)

  const HISTORY: seq<Step> :=
    [StepAddAdmin(1), StepTerminal("T", Online), StepQueueSync("T", Admin(1, "admin"), 0, RUN, TIME),
     StepClaim("T", 20, 1),
     StepComplete("T", [TIME_RESULT], Clock(2, 0)), StepClaim("T", 20, 3)]

  const STARTED: Run := Run("T", Some(1), "admin", RUN, AwaitingTime, None, None, None, 0, 0, 0, None, None)
  const SEARCHING: Run := STARTED.(status := Running, searchStartedAt := Some(-28800), searchEndedAt := Some(-27000))
  const ASKED: Command := Command("T", SystemTime, Queued, 0, 300, None, None, None)
  const ANSWERED: Command :=
    ASKED.(status := Completed, sentAt := Some(1), completedAt := Some(2), response := Some(Response(None, "time")))
  const SEARCH: Command := Command("T", EventSearch(SearchCondition(RUN, 0, -28800, -27000)), Queued, 2, 302, None,
                                   None, None)

  function Waiting(time: Command): Db {
    Db(map["T" := Online], {1}, map[TIME := time], map[RUN := STARTED], map[TIME := Link(RUN, TimePhase)], map[])
  }

  function Searching(search: Command): Db {
    Db(map["T" := Online], {1}, map[TIME := ANSWERED, FIRST := search], map[RUN := SEARCHING],
       map[TIME := Link(RUN, TimePhase), FIRST := Link(RUN, PagePhase(0))], map[])
  }

  lemma SweepNothing(db: Db, scope: Option<Serial>, now: nat)
    requires forall u :: u in db.commands ==> !Overdue(db.commands[u], scope, now)
    ensures ExpireOverdue(db, scope, now) == db
  {
    assert ExpireOverdue(db, scope, now).commands == db.commands;
    assert forall u, r :: !OverdueFor(db, u, r, scope, now);
    assert ExpireOverdue(db, scope, now).runs == db.runs;
  }

  /** The only claimable command is handed out. */
  lemma ClaimOnly(db: Db, terminal: Serial, u: Uuid, now: nat)
    requires u in db.commands && forall v :: v in db.commands ==> (Claimable(db.commands[v], terminal, now) <==> v == u)
    requires forall v :: v in db.commands ==> !Overdue(db.commands[v], Some(terminal), now)
    ensures Apply(db, StepClaim(terminal, 20, now))
         == db.(commands := db.commands[u := Send(db.commands[u], now)])
  {
    SweepNothing(db, Some(terminal), now);
    assert ClaimableKeys(db, terminal, now) == {CommandKey(db, u)};
    var keys := SortedKeys(ClaimableKeys(db, terminal, now));
    assert keys[0] in keys;
    assert keys == [CommandKey(db, u)];
    assert Picked(db, terminal, 20, now) == [u];
    assert SendAll(db, [u], now).commands == db.commands[u := Send(db.commands[u], now)];
  }

  lemma HistoryStarts()
    ensures Apply(Apply(Apply(EMPTY, HISTORY[0]), HISTORY[1]), HISTORY[2]) == Waiting(ASKED)
  {
    var db := Db(map["T" := Online], {1}, map[], map[], map[], map[]);
    assert Apply(Apply(EMPTY, HISTORY[0]), HISTORY[1]) == db;
    SweepNothing(db, Some("T"), 0);
    assert |RUN| == 36 && |TIME| == 36;
    assert QueueSync(db, "T", Admin(1, "admin"), 0, RUN, TIME) == Ok(Waiting(ASKED));
  }

  lemma TimeStartsSearch()
    ensures CompleteTime(Waiting(ANSWERED), RUN, Some(EAST), Clock(2, 0), FIRST) == Ok(Searching(SEARCH))
  {
    var db := Waiting(ANSWERED);
    assert TIME[0] != FIRST[0] && |FIRST| == 36 && |RUN| == 36;
    var request := SearchCondition(RUN, 0, -28800, -27000);
    assert NewSearchRequest(RUN, 0, EAST) == Some(request);
    var started := db.(runs := map[RUN := SEARCHING]);
    assert db.runs[RUN := SEARCHING] == map[RUN := SEARCHING];
    assert UpdateRun(db, RUN, SEARCHING) == Ok(started);
    assert QueuePage(started, RUN, request, 0, SearchNotQueued, 2, FIRST) == Ok(Searching(SEARCH)) by {
      var queued := started.(commands := started.commands[FIRST := SEARCH]);
      assert QueueCommand(started, "T", Admin(1, "admin"), EventSearch(request), 302, 2, FIRST) == Ok(queued);
      var link := Link(RUN, PagePhase(0));
      assert InsertLink(queued, FIRST, link) == Ok(queued.(links := queued.links[FIRST := link]));
    }
  }

  lemma HistorySearches()
    ensures Apply(Waiting(Send(ASKED, 1)), HISTORY[4]) == Searching(SEARCH)
  {
    hide CompleteTime;
    var db, clock := Waiting(Send(ASKED, 1)), Clock(2, 0);
    SweepNothing(db, Some("T"), 2);
    assert Waiting(ANSWERED) == db.(commands := db.commands[TIME := Complete(db.commands[TIME], TIME_RESULT, 2)]);
    TimeStartsSearch();
    assert CompleteOne(db, "T", TIME_RESULT, clock) == Ok(Searching(SEARCH));
    assert [TIME_RESULT][1..] == [];
    assert CompleteAll(Searching(SEARCH), "T", [], clock) == Ok(Searching(SEARCH));
    assert CompleteCommands(db, "T", [TIME_RESULT], clock) == Ok(Searching(SEARCH));
  }

  lemma HistoryReaches()
    ensures Exec(EMPTY, HISTORY) == Searching(Send(SEARCH, 3))
  {
    hide Apply;
    HistoryStarts();
    assert Apply(Waiting(ASKED), HISTORY[3]) == Waiting(Send(ASKED, 1)) by {
      ClaimOnly(Waiting(ASKED), "T", TIME, 1);
      assert Waiting(ASKED).commands[TIME := Send(ASKED, 1)] == Waiting(Send(ASKED, 1)).commands;
    }
    HistorySearches();
    assert Apply(Searching(SEARCH), HISTORY[5]) == Searching(Send(SEARCH, 3)) by {
      assert TIME[0] != FIRST[0];
      ClaimOnly(Searching(SEARCH), "T", FIRST, 3);
      assert Searching(SEARCH).commands[FIRST := Send(SEARCH, 3)] == Searching(Send(SEARCH, 3)).commands;
    }
    ExecSix(EMPTY, HISTORY);
  }

  lemma ExecSix(db: Db, steps: seq<Step>)
    requires |steps| == 6
    ensures Exec(db, steps)
         == Apply(Apply(Apply(Apply(Apply(Apply(db, steps[0]), steps[1]), steps[2]), steps[3]), steps[4]), steps[5])
  {
    hide Apply;
    assert steps == [steps[0], steps[1], steps[2], steps[3], steps[4], steps[5]];
    var a := Apply(Apply(db, steps[0]), steps[1]);
    var b := Apply(Apply(a, steps[2]), steps[3]);
    assert steps[1..][1..] == steps[2..] && steps[2..][1..][1..] == steps[4..] && steps[4..][1..][1..] == [];
    assert Exec(db, steps) == Exec(a, steps[2..]);
    assert steps[2..][0] == steps[2] && steps[2..][1..][0] == steps[3];
    assert Exec(a, steps[2..]) == Exec(b, steps[4..]);
    assert steps[4..][0] == steps[4] && steps[4..][1..][0] == steps[5];
    assert Exec(b, steps[4..]) == Exec(Apply(Apply(b, steps[4]), steps[5]), []);
  }

  lemma PageIsInOrder()
    ensures PageOk(PAGE)
  {
    assert |RUN| == 36 && |PAGE.info| == 1;
  }

  lemma PageIsOfSearch()
    ensures PAGE.searchId == SEARCHING.searchId
  {
  }

  lemma SearchIsAtItsStart()
    ensures Position(SEARCHING) == 0
  {
  }

  lemma PageIsDocumented()
    ensures forall i :: 0 <= i < |PAGE.info| ==> PAGE.info[i].projection.Some?
  {
  }

  lemma PageIsRead()
    ensures ParsePage(Some(DocumentOf(PAGE))) == Some(PAGE)
  {
    hide ParsePage, DocumentOf;
    PageIsInOrder();
    ParsePageExact(Some(DocumentOf(PAGE)), PAGE);
  }

  lemma FirstPageIsAcceptable(run: Run, page: Page)
    requires PageOk(page) && page.searchId == run.searchId && run.totalMatches.None? && Position(run) == 0
    requires page.status.More? && 0 < page.numOfMatches < page.totalMatches
    requires forall i :: 0 <= i < |page.info| ==> page.info[i].projection.Some?
    ensures Acceptable(run, page)
  {
  }

  lemma PageIsAcceptable()
    ensures Acceptable(SEARCHING, PAGE)
  {
    hide Acceptable, PageOk, Position;
    PageIsInOrder();
    PageIsOfSearch();
    SearchIsAtItsStart();
    PageIsDocumented();
    FirstPageIsAcceptable(SEARCHING, PAGE);
  }

  lemma PageAnnouncesMore()
    ensures AnnouncesMore(Searching(Send(SEARCH, 3)), "T", PAGE_RESULT, RUN)
  {
    hide ParsePage, Acceptable, DocumentOf;
    PageIsRead();
    PageIsAcceptable();
  }

  /** The first page of that search announces more and is rejected: its batch leaves the database as it was. */
  lemma MoreRejectedExample()
    ensures var db := Exec(EMPTY, HISTORY);
            && CompleteCommands(db, "T", [PAGE_RESULT], Clock(4, 0)) == Err(SearchNotBuilt)
            && Apply(db, StepComplete("T", [PAGE_RESULT], Clock(4, 0))) == db
            && RUN in db.runs && Active(db.runs[RUN])
  {
    hide Exec, Inv, CompleteCommands, AnnouncesMore;
    HistoryReaches();
    ReachableInv(HISTORY);
    PageAnnouncesMore();
    LoneMoreRejectedIff(Searching(Send(SEARCH, 3)), "T", PAGE_RESULT, RUN, Clock(4, 0));
  }
}
