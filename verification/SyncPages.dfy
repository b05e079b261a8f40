/**
 What a result does to its sync, stated over documents, columns and constants:
 which page is stored and which is refused, with what reason; which rows it
 adds; what the run counts afterwards and what it asks the terminal next.
 */
module SyncPages {
  import opened Wrappers
  import opened RetainedSearch
  import opened Terminals
  import opened SyncModel
  import opened SyncInvariant
  import opened SyncSteps
  import opened SyncHistories

  // ----- The page a result carries -------------------------------------------

  /** The result is in the expected format and its document spells out `page`, with as many records as it counts. */
  predicate Carries(result: CommandResult, page: Page) {
    && result.decoded.Decoded? && (result.format.None? || result.format.value == "jsonData")
    && result.decoded.page == Some(DocumentOf(page))
    && 1 <= |page.searchId| <= 64
    && |page.info| == page.numOfMatches <= 30 && page.totalMatches <= 150000
    && (page.status.NoMatch? ==> page.totalMatches == 0 && page.numOfMatches == 0)
  }

  /**
   The page belongs to search `r`, repeats the announced total, stays within it, has a status that fits the records
   accounted for before and with it, and documents every record.
   */
  predicate Continues(page: Page, run: Run, r: Uuid) {
    var next := run.imported + run.duplicate + page.numOfMatches;
    && page.searchId == r
    && (run.totalMatches.Some? ==> page.totalMatches == run.totalMatches.value)
    && next <= page.totalMatches
    && (match page.status
        case More => page.numOfMatches > 0 && next < page.totalMatches
        case Done => next == page.totalMatches
        case NoMatch => run.imported + run.duplicate == 0)
    && forall i :: 0 <= i < |page.info| ==> page.info[i].projection.Some?
  }

  /** The result carries a page that continues the run. */
  predicate Brings(result: CommandResult, page: Page, run: Run, r: Uuid) {
    Carries(result, page) && Continues(page, run, r)
  }

  /** What is wrong with a result for which the run fails with `reason`. */
  ghost predicate Blames(reason: Failure, result: CommandResult, run: Run, r: Uuid) {
    match reason
    case UndecodableResult => result.decoded.NotBase64?
    case WrongFormat => result.format.Some? && result.format.value != "jsonData"
    case NotAPageDocument => forall page :: !Carries(result, page)
    case SearchIdMismatch => exists page :: Carries(result, page) && page.searchId != r
    case TotalChanged => exists page :: Carries(result, page) && Some(page.totalMatches) != run.totalMatches
    case ExceedsTotal =>
      exists page :: Carries(result, page) && run.imported + run.duplicate + page.numOfMatches > page.totalMatches
    case MoreWithoutAdvance =>
      exists page :: Carries(result, page) && page.status.More?
                     && (page.numOfMatches == 0
                         || run.imported + run.duplicate + page.numOfMatches == page.totalMatches)
    case OkWithoutCompletion =>
      exists page :: Carries(result, page) && page.status.Done?
                     && run.imported + run.duplicate + page.numOfMatches < page.totalMatches
    case UndocumentedRecord =>
      exists page :: Carries(result, page) && exists i :: 0 <= i < |page.info| && page.info[i].projection.None?
    case _ => false
  }

  /** Only the run's own row changes: it fails with `reason`. */
  ghost predicate Fails(db: Db, next: Db, r: Uuid, reason: Failure, now: nat)
    requires r in db.runs
  {
    && next.runs == db.runs[r := db.runs[r].(status := Failed, failure := Some(reason), completedAt := Some(now))]
    && next.retained == db.retained && next.links == db.links && next.commands.Keys == db.commands.Keys
  }

  lemma CarriedIsParsed(result: CommandResult, page: Page)
    ensures Carries(result, page) <==>
            && result.decoded.Decoded? && (result.format.None? || result.format.value == "jsonData")
            && ParsePage(result.decoded.page) == Some(page)
  {
    hide ParsePage, DocumentOf;
    if result.decoded.Decoded? {
      ParsePageExact(result.decoded.page, page);
    }
  }

  /** A page in order is refused exactly when it does not continue the run, and then for a fault that it has. */
  lemma RefusedIff(result: CommandResult, page: Page, run: Run, r: Uuid)
    requires Carries(result, page) && run.searchId == r && run.status.Running? && CountersOk(run)
    ensures var refusal := PageRefusal(run, Position(run), page);
            && (refusal.None? <==> Continues(page, run, r))
            && (refusal.Some? ==> Blames(refusal.value, result, run, r))
            && (refusal == Some(SearchIdMismatch) <==> page.searchId != r)
  {
  }

  // ----- The rows it adds ----------------------------------------------------

  /** Row `row` under `key` is record `i`, the first of its source, credited to this run and command. */
  predicate IsRecord(info: seq<RawRecord>, i: int, key: RecordKey, row: Retained, terminal: Serial, r: Uuid,
                     command: Uuid) {
    && 0 <= i < |info| && key == RecordKey(terminal, info[i].source)
    && (forall j :: 0 <= j < i ==> info[j].source != info[i].source)
    && info[i].projection == Some(row.projection) && row.run == r && row.command == command
  }

  /** Afterwards every record has its row, the rows from before are as they were, and each new row is such a record. */
  ghost predicate Retains(rows: map<RecordKey, Retained>, stored: map<RecordKey, Retained>, terminal: Serial, r: Uuid,
                          command: Uuid, info: seq<RawRecord>) {
    && (forall k :: k in rows ==> k in stored && stored[k] == rows[k])
    && (forall i :: 0 <= i < |info| ==> RecordKey(terminal, info[i].source) in stored)
    && (forall k :: k in stored && k !in rows ==> exists i :: IsRecord(info, i, k, stored[k], terminal, r, command))
  }

  lemma {:induction false} RetainsExactly(rows: map<RecordKey, Retained>, terminal: Serial, r: Uuid, command: Uuid,
                                          info: seq<RawRecord>)
    requires forall i :: 0 <= i < |info| ==> info[i].projection.Some?
    ensures Retains(rows, InsertRetained(rows, terminal, r, command, info), terminal, r, command, info)
    decreases |info|
  {
    if info != [] {
      var key := RecordKey(terminal, info[0].source);
      var next := if key in rows then rows else rows[key := Retained(r, command, info[0].projection.value)];
      hide Retains;
      RetainsExactly(next, terminal, r, command, info[1..]);
      RetainsOneMore(rows, InsertRetained(next, terminal, r, command, info[1..]), terminal, r, command, info);
    }
  }

  /** The first record, then the others. */
  lemma RetainsOneMore(rows: map<RecordKey, Retained>, stored: map<RecordKey, Retained>, terminal: Serial, r: Uuid,
                       command: Uuid, info: seq<RawRecord>)
    requires info != [] && info[0].projection.Some?
    requires var key := RecordKey(terminal, info[0].source);
             var next := if key in rows then rows else rows[key := Retained(r, command, info[0].projection.value)];
             Retains(next, stored, terminal, r, command, info[1..])
    ensures Retains(rows, stored, terminal, r, command, info)
  {
    var key := RecordKey(terminal, info[0].source);
    var next := if key in rows then rows else rows[key := Retained(r, command, info[0].projection.value)];
    assert key in next && stored[key] == next[key];
    forall i | 0 <= i < |info| ensures RecordKey(terminal, info[i].source) in stored {
      assert i > 0 ==> info[1..][i - 1] == info[i];
    }
    forall k | k in stored && k !in rows ensures exists i :: IsRecord(info, i, k, stored[k], terminal, r, command) {
      if k == key {
        assert IsRecord(info, 0, k, stored[k], terminal, r, command);
      } else {
        var i :| IsRecord(info[1..], i, k, stored[k], terminal, r, command);
        RecordOfTail(info, i, k, stored[k], terminal, r, command);
      }
    }
  }

  lemma RecordOfTail(info: seq<RawRecord>, i: int, key: RecordKey, row: Retained, terminal: Serial, r: Uuid,
                     command: Uuid)
    requires info != [] && IsRecord(info[1..], i, key, row, terminal, r, command) && key.source != info[0].source
    ensures IsRecord(info, i + 1, key, row, terminal, r, command)
  {
    forall j | 0 <= j < i + 1 ensures info[j].source != info[i + 1].source {
      assert j > 0 ==> info[1..][j - 1] == info[j];
    }
  }

  // ----- What the run counts and asks next -----------------------------------

  /** The run's row after one more page, of which `inserted` records were new. */
  function OnePageOn(run: Run, page: Page, inserted: nat): Run
    requires inserted <= page.numOfMatches
  {
    run.(totalMatches := Some(page.totalMatches), pages := run.pages + 1, imported := run.imported + inserted,
         duplicate := run.duplicate + (page.numOfMatches - inserted))
  }

  /** The command `draw` is queued for 300 seconds and asks for the records from `position` on. */
  ghost predicate AsksNext(next: Db, draw: Uuid, terminal: Serial, r: Uuid, position: nat, startsAt: int, endsAt: int,
                           now: nat) {
    && draw in next.commands && draw in next.links && next.links[draw] == Link(r, PagePhase(position))
    && next.commands[draw] == Command(terminal, EventSearch(SearchCondition(r, position, startsAt, endsAt)), Queued,
                                      now, now + 300, None, None, None)
  }

  /** A page that continues the run moves it on. */
  ghost predicate Moves(db: Db, next: Db, terminal: Serial, r: Uuid, page: Page, clock: Clock, draw: Uuid)
    requires r in db.runs && terminal in db.terminals
  {
    var run := db.runs[r];
    var inserted := |next.retained| - |db.retained|;
    && 0 <= inserted <= page.numOfMatches && r in next.runs
    && var moved := OnePageOn(run, page, inserted);
       if !page.status.More? then
         next.runs[r] == moved.(status := Finished, completedAt := Some(clock.now)) && next.links == db.links
       else if run.createdBy.None? then
         && next.runs[r] == run.(status := Failed, failure := Some(AdministratorGoneBeforePage),
                                 completedAt := Some(clock.now))
         && next.links == db.links
       else if !db.terminals[terminal].Online? then
         && next.runs[r] == moved.(status := Failed, failure := Some(PageNotQueued), completedAt := Some(clock.now))
         && next.links == db.links
       else
         && next.runs[r] == moved && run.searchEndedAt.Some?
         && AsksNext(next, draw, terminal, r, run.imported + run.duplicate + page.numOfMatches, clock.year2000,
                     run.searchEndedAt.value, clock.now)
  }

  /** The only ways for a page that continues the run to be rejected, together with its batch. */
  ghost predicate Rejects(e: StoreError, db: Db, terminal: Serial, r: Uuid, page: Page, clock: Clock, draw: Uuid)
    requires r in db.runs && terminal in db.terminals
  {
    var run := db.runs[r];
    && page.status.More? && run.createdBy.Some? && run.searchEndedAt.Some?
    && if run.searchEndedAt.value <= clock.year2000 then e == SearchNotBuilt
       else e == ConstraintViolated && db.terminals[terminal].Online? && (draw in db.commands || |draw| != 36)
  }

  ghost predicate MovesOrRejects(db: Db, outcome: Result<Db, StoreError>, terminal: Serial, r: Uuid, page: Page,
                                 clock: Clock, draw: Uuid)
    requires r in db.runs && terminal in db.terminals
  {
    match outcome
    case Ok(next) => Moves(db, next, terminal, r, page, clock, draw)
    case Err(e) => Rejects(e, db, terminal, r, page, clock, draw)
  }

  lemma QueuePageAsks(db: Db, x: Uuid, condition: SearchCondition, position: nat, now: nat, draw: Uuid)
    requires Between(db, x) && db.runs[x].status.Running? && db.runs[x].createdBy.Some?
    requires Accounted(db, x, db.runs[x].pages, Position(db.runs[x]) - 1)
    requires position == Position(db.runs[x]) <= MAX_MATCHES
    ensures db.runs[x].terminal in db.terminals
    ensures var terminal := db.runs[x].terminal;
            match QueuePage(db, x, condition, position, PageNotQueued, now, draw)
            case Err(e) =>
              e == ConstraintViolated && db.terminals[terminal].Online? && (draw in db.commands || |draw| != 36)
            case Ok(next) =>
              && next.retained == db.retained
              && if db.terminals[terminal].Online? then
                   && next.runs == db.runs && draw !in db.commands && |draw| == 36
                   && next.links == db.links[draw := Link(x, PagePhase(position))]
                   && next.commands == db.commands[draw := Command(terminal, EventSearch(condition), Queued, now,
                                                                   now + 300, None, None, None)]
                 else
                   next == FailRun(db, x, PageNotQueued, now)
  {
    assert RunOk(db, x);
    if draw !in db.commands {
      LinkIsAllowed(db, x, draw, position);
    }
  }

  /** Apart from the rows of the page and the command's result, `db` is `db0`. */
  predicate StoredOver(db0: Db, db: Db, inserted: nat) {
    && db == db0.(commands := db.commands, retained := db.retained)
    && db.commands.Keys == db0.commands.Keys && inserted == |db.retained| - |db0.retained|
  }

  lemma LastMoves(db0: Db, db: Db, x: Uuid, page: Page, inserted: nat, clock: Clock, draw: Uuid)
    requires PageStored(db, x, page, inserted) && StoredOver(db0, db, inserted) && !page.status.More?
    ensures var outcome := AdvanceRun(db, x, Position(db.runs[x]) + page.numOfMatches, page, inserted, clock, draw);
            && db.runs[x].terminal in db.terminals
            && MovesOrRejects(db0, outcome, db.runs[x].terminal, x, page, clock, draw)
            && (outcome.Ok? ==> outcome.value.retained == db.retained)
  {
    hide AdvanceRun;
    LastSettles(db, x, page, inserted, clock.now);
    LastIsUpdate(db, x, page, inserted, clock, draw);
  }

  /** Once the page is counted, the run stands between two commands at the next position. */
  lemma CountedIsOpen(db: Db, x: Uuid, page: Page, inserted: nat)
    requires PageStored(db, x, page, inserted) && page.status.More?
    ensures var counted := Counted(db.runs[x], page, inserted);
            var db' := db.(runs := db.runs[x := counted]);
            && Between(db', x) && counted.status.Running? && Lifecycle(counted)
            && Accounted(db', x, counted.pages, Position(counted) - 1)
            && Position(counted) == Position(db.runs[x]) + page.numOfMatches <= MAX_MATCHES
            && db.runs[x].searchId == x && |x| == 36
  {
    var counted := Counted(db.runs[x], page, inserted);
    CountedOk(db.runs[x], page, inserted, 0);
    var db' := db.(runs := db.runs[x := counted]);
    RewriteFrame(db, x, counted);
    assert RunOk(db', x);
    assert PageLinks(db', x) == PageLinks(db, x);
  }

  lemma AskIsQueue(db: Db, x: Uuid, page: Page, inserted: nat, clock: Clock, draw: Uuid)
    requires PageStored(db, x, page, inserted) && page.status.More? && db.runs[x].createdBy.Some?
    ensures db.runs[x].searchEndedAt.Some?
    ensures var counted := Counted(db.runs[x], page, inserted);
            var endsAt := db.runs[x].searchEndedAt.value;
            AdvanceRun(db, x, Position(db.runs[x]) + page.numOfMatches, page, inserted, clock, draw)
            == if endsAt <= clock.year2000 then Err(SearchNotBuilt)
               else QueuePage(db.(runs := db.runs[x := counted]), x,
                              SearchCondition(x, Position(counted), clock.year2000, endsAt), Position(counted),
                              PageNotQueued, clock.now, draw)
  {
    hide QueuePage, Accounted, Tables;
    CountedIsOpen(db, x, page, inserted);
    assert db.runs[x].searchEndedAt.Some?;
  }

  lemma GoneMoves(db0: Db, db: Db, x: Uuid, page: Page, inserted: nat, clock: Clock, draw: Uuid)
    requires PageStored(db, x, page, inserted) && StoredOver(db0, db, inserted) && page.status.More?
    requires db.runs[x].createdBy.None?
    ensures var outcome := AdvanceRun(db, x, Position(db.runs[x]) + page.numOfMatches, page, inserted, clock, draw);
            && db.runs[x].terminal in db.terminals
            && MovesOrRejects(db0, outcome, db.runs[x].terminal, x, page, clock, draw)
            && (outcome.Ok? ==> outcome.value.retained == db.retained)
  {
    hide QueuePage, PageRefusal, Tables;
    assert RunOk(db, x);
  }

  lemma AskMoves(db0: Db, db: Db, x: Uuid, page: Page, inserted: nat, clock: Clock, draw: Uuid)
    requires PageStored(db, x, page, inserted) && StoredOver(db0, db, inserted) && page.status.More?
    requires db.runs[x].createdBy.Some?
    ensures var outcome := AdvanceRun(db, x, Position(db.runs[x]) + page.numOfMatches, page, inserted, clock, draw);
            && db.runs[x].terminal in db.terminals
            && MovesOrRejects(db0, outcome, db.runs[x].terminal, x, page, clock, draw)
            && (outcome.Ok? ==> outcome.value.retained == db.retained)
  {
    hide QueuePage, AdvanceRun, PageRefusal, Accounted, Tables;
    var run := db.runs[x];
    assert RunOk(db, x);
    AskIsQueue(db, x, page, inserted, clock, draw);
    if run.searchEndedAt.value > clock.year2000 {
      hide Between;
      var counted := Counted(run, page, inserted);
      CountedIsOpen(db, x, page, inserted);
      QueuePageAsks(db.(runs := db.runs[x := counted]), x,
                    SearchCondition(x, Position(counted), clock.year2000, run.searchEndedAt.value),
                    Position(counted), clock.now, draw);
    }
  }

  lemma StoreMoves(db0: Db, db: Db, x: Uuid, command: Uuid, page: Page, clock: Clock, draw: Uuid)
    requires Between(db, x) && db.runs[x].status.Running? && Acceptable(db.runs[x], page)
    requires Accounted(db, x, db.runs[x].pages + 1, Position(db.runs[x])) && StoredOver(db0, db, 0)
    requires db.retained == db0.retained
    ensures var terminal := db.runs[x].terminal;
            var outcome := StorePage(db, x, Position(db.runs[x]) + page.numOfMatches, command, page, clock, draw);
            && terminal in db.terminals
            && MovesOrRejects(db0, outcome, terminal, x, page, clock, draw)
            && (outcome.Ok? ==> Retains(db.retained, outcome.value.retained, terminal, x, command, page.info))
  {
    hide AdvanceRun, InsertRetained, MovesOrRejects, PageRefusal, Accounted, Retains;
    AcceptableIsDocumented(db.runs[x], page);
    var rows := InsertRetained(db.retained, db.runs[x].terminal, x, command, page.info);
    StoringIsStored(db, x, command, page);
    RetainsExactly(db.retained, db.runs[x].terminal, x, command, page.info);
    var inserted := |rows| - |db.retained|;
    var stored := db.(retained := rows);
    if !page.status.More? {
      LastMoves(db0, stored, x, page, inserted, clock, draw);
    } else if db.runs[x].createdBy.None? {
      GoneMoves(db0, stored, x, page, inserted, clock, draw);
    } else {
      AskMoves(db0, stored, x, page, inserted, clock, draw);
    }
  }

  // ----- Results of page commands --------------------------------------------

  /** The result answers a page command of run `r` that is waiting for it. */
  predicate AnswersPage(db: Db, terminal: Serial, result: CommandResult, r: Uuid) {
    Answers(db, terminal, result, r) && db.links[result.uuid].phase.PagePhase?
  }

  /** The run is searching at the command's position, and its row and accounts are in order. */
  lemma AnsweredPage(db: Db, terminal: Serial, result: CommandResult, r: Uuid, now: nat)
    requires Inv(db) && Timely(db, terminal, now) && AnswersPage(db, terminal, result, r)
    ensures r in db.runs && db.runs[r].status.Running? && db.runs[r].terminal == terminal && db.runs[r].searchId == r
    ensures Lifecycle(db.runs[r]) && CountersOk(db.runs[r]) && terminal in db.terminals
    ensures db.links[result.uuid].phase == PagePhase(Position(db.runs[r]))
    ensures var after := AfterResult(db, result, now);
            Between(after, r) && Accounted(after, r, db.runs[r].pages + 1, Position(db.runs[r]))
  {
    SentDrives(db, result.uuid);
    assert Settled(db, r) && RunOk(db, r);
    ResultOpens(db, result, now);
    assert PageLinks(AfterResult(db, result, now), r) == PageLinks(db, r);
  }

  /** A result that brings a page stores it and moves the run on, or is rejected with its batch for what comes next. */
  lemma BroughtPageMoves(db: Db, terminal: Serial, result: CommandResult, page: Page, r: Uuid, clock: Clock)
    requires Inv(db) && Timely(db, terminal, clock.now) && AnswersPage(db, terminal, result, r)
    requires r in db.runs && Brings(result, page, db.runs[r], r)
    ensures terminal in db.terminals
    ensures match CompleteOne(db, terminal, result, clock)
            case Ok(next) =>
              && Retains(db.retained, next.retained, terminal, r, result.uuid, page.info)
              && Moves(db, next, terminal, r, page, clock, result.draw)
            case Err(e) => Rejects(e, db, terminal, r, page, clock, result.draw)
  {
    hide Inv, Timely, ParsePage, PageRefusal, StorePage, Between, Accounted, Retains, Moves, Rejects;
    hide Carries, Continues;
    AnsweredPage(db, terminal, result, r, clock.now);
    CarriedIsParsed(result, page);
    RefusedIff(result, page, db.runs[r], r);
    AcceptableIsDocumented(db.runs[r], page);
    var after := AfterResult(db, result, clock.now);
    StoreMoves(db, after, r, result.uuid, page, clock, result.draw);
    assert CompleteOne(db, terminal, result, clock)
        == StorePage(after, r, Position(db.runs[r]) + page.numOfMatches, result.uuid, page, clock, result.draw);
  }

  /** A result that brings none fails the run for a fault of the result, and stores nothing. */
  lemma OtherResultFails(db: Db, terminal: Serial, result: CommandResult, r: Uuid, clock: Clock)
    requires Inv(db) && Timely(db, terminal, clock.now) && AnswersPage(db, terminal, result, r)
    requires r in db.runs && forall page :: !Brings(result, page, db.runs[r], r)
    ensures var outcome := CompleteOne(db, terminal, result, clock);
            && outcome.Ok?
            && exists reason :: Blames(reason, result, db.runs[r], r)
                                && Fails(db, outcome.value, r, reason, clock.now)
  {
    hide Inv, Timely, ParsePage, PageRefusal, StorePage, Between, Accounted, Carries, Continues;
    AnsweredPage(db, terminal, result, r, clock.now);
    var outcome := CompleteOne(db, terminal, result, clock);
    if result.decoded.NotBase64? {
      assert Fails(db, outcome.value, r, UndecodableResult, clock.now);
    } else if result.format.Some? && result.format.value != "jsonData" {
      assert Fails(db, outcome.value, r, WrongFormat, clock.now);
    } else if ParsePage(result.decoded.page).None? {
      forall page ensures !Carries(result, page) {
        CarriedIsParsed(result, page);
      }
      assert Fails(db, outcome.value, r, NotAPageDocument, clock.now);
    } else {
      var page := ParsePage(result.decoded.page).value;
      CarriedIsParsed(result, page);
      RefusedIff(result, page, db.runs[r], r);
      assert !Brings(result, page, db.runs[r], r);
      assert Fails(db, outcome.value, r, PageRefusal(db.runs[r], Position(db.runs[r]), page).value, clock.now);
    }
  }

  /** The page was stored: the run counts one more, or failed for want of an administrator before counting it. */
  predicate TookPage(db: Db, next: Db, r: Uuid)
    requires r in db.runs && r in next.runs
  {
    next.runs[r].pages == db.runs[r].pages + 1 || next.runs[r].failure == Some(AdministratorGoneBeforePage)
  }

  /**
   A page command's result in time is taken exactly when it brings a page that continues the run. Otherwise the run
   fails for a fault of the result, and no record, link or command is added. Only a page that announces more can be
   rejected with its batch.
   */
  lemma PageTakenIff(db: Db, terminal: Serial, result: CommandResult, r: Uuid, clock: Clock)
    requires Inv(db) && Timely(db, terminal, clock.now) && AnswersPage(db, terminal, result, r)
    ensures r in db.runs
    ensures match CompleteOne(db, terminal, result, clock)
            case Ok(next) =>
              && r in next.runs
              && (TookPage(db, next, r) <==> exists page :: Brings(result, page, db.runs[r], r))
              && (!TookPage(db, next, r) ==>
                    exists reason ::
                      Blames(reason, result, db.runs[r], r) && Fails(db, next, r, reason, clock.now))
            case Err(_) => exists page :: Brings(result, page, db.runs[r], r) && page.status.More?
  {
    hide Inv, Timely, CompleteOne, Between, Accounted, Retains, Brings;
    AnsweredPage(db, terminal, result, r, clock.now);
    if page :| Brings(result, page, db.runs[r], r) {
      BroughtPageMoves(db, terminal, result, page, r, clock);
    } else {
      OtherResultFails(db, terminal, result, r, clock);
    }
  }

  /** A page of another search is never taken: the run fails as `SearchIdMismatch`. */
  lemma ForeignPageFails(db: Db, terminal: Serial, result: CommandResult, page: Page, r: Uuid, clock: Clock)
    requires Inv(db) && Timely(db, terminal, clock.now) && AnswersPage(db, terminal, result, r)
    requires r in db.runs && Carries(result, page) && page.searchId != r
    ensures var outcome := CompleteOne(db, terminal, result, clock);
            outcome.Ok? && Fails(db, outcome.value, r, SearchIdMismatch, clock.now)
  {
    hide Inv, Timely, ParsePage, PageRefusal, StorePage, Between, Accounted, Carries;
    AnsweredPage(db, terminal, result, r, clock.now);
    CarriedIsParsed(result, page);
    RefusedIff(result, page, db.runs[r], r);
  }

  // ----- Results of time commands --------------------------------------------

  /** The search starts, or the run fails, or the UUID drawn cannot be used. */
  ghost predicate Starts(db: Db, outcome: Result<Db, StoreError>, terminal: Serial, r: Uuid, time: Option<LocalTime>,
                         clock: Clock, draw: Uuid)
    requires r in db.runs && terminal in db.terminals
  {
    var run := db.runs[r];
    var starts := time.Some? && time.value.year2000 < time.value.instant && run.createdBy.Some?
                  && db.terminals[terminal].Online?;
    match outcome
    case Ok(next) =>
      && r in next.runs && next.retained == db.retained
      && (if starts then
            && next.runs[r] == run.(status := Running, searchStartedAt := Some(time.value.year2000),
                                    searchEndedAt := Some(time.value.instant))
            && AsksNext(next, draw, terminal, r, 0, time.value.year2000, time.value.instant, clock.now)
          else next.runs[r].status.Failed? && next.runs[r].pages == 0 && next.links == db.links)
    case Err(e) => starts && e == ConstraintViolated && (draw in db.commands || |draw| != 36)
  }

  lemma TimeStarts(db: Db, x: Uuid, time: Option<LocalTime>, clock: Clock, draw: Uuid)
    requires x in db.runs && RunOk(db, x) && db.runs[x].status.AwaitingTime?
    requires draw !in db.commands ==>
               draw !in db.links && forall v :: v in db.links ==> db.links[v] != Link(x, PagePhase(0))
    ensures Starts(db, CompleteTime(db, x, time, clock, draw), db.runs[x].terminal, x, time, clock, draw)
  {
  }

  /**
   A time command's result in time starts the search exactly when it bounds one, the administrator is known and the
   terminal online: the first page is then asked for, from the beginning of 2000 up to that time. Otherwise the run
   fails. The batch is rejected only for the UUID drawn.
   */
  lemma TimeTakenIff(db: Db, terminal: Serial, result: CommandResult, r: Uuid, clock: Clock)
    requires Inv(db) && Answers(db, terminal, result, r) && db.links[result.uuid].phase.TimePhase?
    ensures r in db.runs && terminal in db.terminals
    ensures var time := if result.decoded.Decoded? then result.decoded.time else None;
            Starts(db, CompleteOne(db, terminal, result, clock), terminal, r, time, clock, result.draw)
  {
    hide CompleteTime;
    SentDrives(db, result.uuid);
    assert Settled(db, r) && RunOk(db, r);
    if result.draw !in db.commands {
      LinkIsAllowed(db, r, result.draw, 0);
    }
    if result.decoded.Decoded? {
      TimeStarts(AfterResult(db, result, clock.now), r, result.decoded.time, clock, result.draw);
    }
  }
}
