/**
 The inductive invariant of the command queue and the sync, and the proof that
 every transaction keeps it.
 */
module SyncInvariant {
  import opened Wrappers
  import opened RetainedSearch
  import opened Terminals
  import opened SyncModel

  function Max(a: int, b: int): int { if a < b then b else a }

  // ----- Rows ----------------------------------------------------------------

  /** Status and timestamps agree; completion is before the deadline, expiry is not. */
  predicate CommandOk(c: Command) {
    match c.status
    case Queued => c.sentAt.None? && c.completedAt.None? && c.response.None?
    case Sent => c.sentAt.Some? && c.completedAt.None? && c.response.None?
    case Completed => c.sentAt.Some? && c.completedAt.Some? && c.completedAt.value < c.expiresAt && c.response.Some?
    case Expired => c.completedAt.Some? && c.completedAt.value >= c.expiresAt && c.response.None?
  }

  function Position(run: Run): nat { run.imported + run.duplicate }

  /** Pages read, records accounted for and records announced are consistent. */
  predicate CountersOk(run: Run) {
    match run.status
    case AwaitingTime => true
    case Running =>
      if run.totalMatches.None? then run.pages == 0 && Position(run) == 0
      else
        && 1 <= run.pages <= Position(run) <= PAGE_SIZE * run.pages
        && Position(run) < run.totalMatches.value <= MAX_MATCHES
    case Finished =>
      && run.totalMatches.Some? && run.totalMatches.value <= MAX_MATCHES
      && run.totalMatches.value <= PAGE_SIZE * run.pages && run.pages <= Max(1, run.totalMatches.value)
    case Failed => true
  }

  /** The failures that the code guards against and that cannot occur. */
  predicate Unreachable(f: Failure) {
    f.TimeAfterSearchBegan? || f.NoActivePage? || f.NoMatchAfterFirstPage? || f.TotalsMismatch?
  }

  predicate RunOk(db: Db, r: Uuid)
    requires r in db.runs
  {
    var run := db.runs[r];
    && Lifecycle(run) && CountersOk(run)
    && UuidForm(r) && run.searchId == r
    && run.createdByName != ""
    && (run.createdBy.Some? ==> run.createdBy.value in db.admins && run.createdBy.value != 0)
    && (run.failure.Some? ==> !Unreachable(run.failure.value))
    && run.terminal in db.terminals
  }

  /**
   A time command asks for the terminal's time. A page command asks, in the run's own search, for the position it is
   linked at and up to the end that the run recorded; the first one from the start that the run recorded.
   */
  predicate Asks(request: Request, link: Link, run: Run) {
    match link.phase
    case TimePhase => request.SystemTime?
    case PagePhase(position) =>
      && request.EventSearch? && request.condition.searchId == link.run && request.condition.position == position
      && run.searchEndedAt == Some(request.condition.endsAt) && request.condition.startsAt < request.condition.endsAt
      && (position == 0 ==> run.searchStartedAt == Some(request.condition.startsAt))
  }

  predicate LinkOk(db: Db, u: Uuid)
    requires u in db.links
  {
    && u in db.commands && db.links[u].run in db.runs
    && db.commands[u].terminal == db.runs[db.links[u].run].terminal
    && (db.links[u].phase.PagePhase? ==> db.links[u].phase.position <= MAX_MATCHES)
    && Asks(db.commands[u].request, db.links[u], db.runs[db.links[u].run])
  }

  // ----- Which command drives which run --------------------------------------

  predicate Drives(db: Db, u: Uuid, r: Uuid) {
    u in db.links && db.links[u].run == r && u in db.commands && Live(db.commands[u])
  }

  /** An active run waits for its time command, or for the page at the number of records it has accounted for. */
  function ExpectedPhase(run: Run): Phase {
    if run.status.AwaitingTime? then TimePhase else PagePhase(Position(run))
  }

  ghost predicate NoDriver(db: Db, r: Uuid) {
    forall u :: !Drives(db, u, r)
  }

  ghost predicate IsDriver(db: Db, u: Uuid, r: Uuid)
    requires r in db.runs
  {
    Drives(db, u, r) && db.links[u].phase == ExpectedPhase(db.runs[r]) && forall v :: Drives(db, v, r) ==> v == u
  }

  /** Exactly one live command while the run is active, none afterwards. */
  ghost predicate Driven(db: Db, r: Uuid)
    requires r in db.runs
  {
    if Active(db.runs[r]) then exists u :: IsDriver(db, u, r) else NoDriver(db, r)
  }

  // ----- Accounting ----------------------------------------------------------

  function PageLinks(db: Db, r: Uuid): set<Uuid> {
    set u | u in db.links && db.links[u].run == r && db.links[u].phase.PagePhase?
  }

  function RecordsOf(rows: map<RecordKey, Retained>, r: Uuid): set<RecordKey> {
    set k | k in rows && rows[k].run == r
  }

  /**
   The retained rows credited to a run are those it counts as imported; only a run that lost its administrator after
   storing a page has stored it without counting it.
   */
  predicate Credits(records: nat, imported: nat, failure: Option<Failure>) {
    if failure == Some(AdministratorGoneBeforePage) then imported <= records <= imported + PAGE_SIZE
    else records == imported
  }

  ghost predicate AccountsOk(db: Db, r: Uuid)
    requires r in db.runs
  {
    var run := db.runs[r];
    && Credits(|RecordsOf(db.retained, r)|, run.imported, run.failure)
    && (run.status.AwaitingTime? ==> PageLinks(db, r) == {})
    && (run.status.Running? ==> |PageLinks(db, r)| == run.pages + 1)
    && (run.status.Finished? ==> |PageLinks(db, r)| == run.pages)
    && (run.status.Running? ==> forall u :: u in PageLinks(db, r) ==> db.links[u].phase.position <= Position(run))
  }

  // ----- The invariant -------------------------------------------------------

  ghost predicate Tables(db: Db) {
    && (forall u {:trigger CommandOk(db.commands[u])} :: u in db.commands ==> CommandOk(db.commands[u]))
    && (forall u {:trigger LinkOk(db, u)} :: u in db.links ==> LinkOk(db, u))
    && (forall k :: k in db.retained ==> db.retained[k].run in db.runs)
    && PositionsDistinct(db)
    && OneActivePerTerminal(db)
  }

  ghost predicate PositionsDistinct(db: Db) {
    forall u, v :: u in db.links && v in db.links && db.links[u] == db.links[v] && db.links[u].phase.PagePhase? ==>
      u == v
  }

  predicate Rivals(a: Run, b: Run) { Active(a) && Active(b) && a.terminal == b.terminal }

  ghost predicate OneActivePerTerminal(db: Db) {
    forall r, q :: r in db.runs && q in db.runs && Rivals(db.runs[r], db.runs[q]) ==> r == q
  }

  ghost predicate Settled(db: Db, r: Uuid)
    requires r in db.runs
  {
    RunOk(db, r) && Driven(db, r) && AccountsOk(db, r)
  }

  ghost predicate Inv(db: Db) {
    Tables(db) && forall r {:trigger Settled(db, r)} :: r in db.runs ==> Settled(db, r)
  }

  /** Within a transaction, run `x` has received its result and has no live command yet. */
  ghost predicate Between(db: Db, x: Uuid) {
    && Tables(db)
    && x in db.runs && RunOk(db, x) && Active(db.runs[x]) && NoDriver(db, x)
    && forall r {:trigger Settled(db, r)} :: r in db.runs && r != x ==> Settled(db, r)
  }

  // ----- Frames --------------------------------------------------------------

  /** Rows referred to by runs stay, links are only added. */
  predicate Extends(db: Db, db': Db) {
    && db.admins <= db'.admins && db.terminals.Keys <= db'.terminals.Keys
    && forall u :: u in db.links ==> u in db'.links && db'.links[u] == db.links[u]
  }

  /** Run `r` stays settled when its row, its commands' liveness, its links and its records stay. */
  lemma SettledFrame(db: Db, db': Db, r: Uuid)
    requires r in db.runs && Settled(db, r) && Extends(db, db')
    requires r in db'.runs && db'.runs[r] == db.runs[r]
    requires forall u :: Drives(db', u, r) <==> Drives(db, u, r)
    requires PageLinks(db', r) == PageLinks(db, r)
    requires RecordsOf(db'.retained, r) == RecordsOf(db.retained, r)
    ensures Settled(db', r)
  {
    if Active(db.runs[r]) {
      var u :| IsDriver(db, u, r);
      assert IsDriver(db', u, r);
    }
  }

  // ----- Expiry --------------------------------------------------------------

  lemma ExpireRunStatus(db: Db, r: Uuid, scope: Option<Serial>, now: nat)
    requires r in db.runs
    ensures ExpireRun(db, r, scope, now) == db.runs[r]
            || (Active(db.runs[r]) && exists reason ::
                  (reason == ExpiredAwaitingResult || reason == ExpiredBeforeDelivery)
                  && ExpireRun(db, r, scope, now) == Fail(db.runs[r], reason, now))
  {
  }

  lemma ExpireKeepsDriven(db: Db, scope: Option<Serial>, now: nat, r: Uuid)
    requires r in db.runs && Driven(db, r)
    ensures Driven(ExpireOverdue(db, scope, now), r)
  {
    var db' := ExpireOverdue(db, scope, now);
    assert db'.runs[r] == ExpireRun(db, r, scope, now);
    forall v ensures Drives(db', v, r) <==> Drives(db, v, r) && !OverdueFor(db, v, r, scope, now) {
    }
    if Active(db.runs[r]) {
      var u :| IsDriver(db, u, r);
      forall v | OverdueFor(db, v, r, scope, now) ensures v == u {
        assert Drives(db, v, r);
      }
      if !OverdueFor(db, u, r, scope, now) {
        assert IsDriver(db', u, r);
      }
    }
  }

  lemma ExpireKeepsSettled(db: Db, scope: Option<Serial>, now: nat, r: Uuid)
    requires r in db.runs && Settled(db, r)
    ensures Settled(ExpireOverdue(db, scope, now), r)
  {
    var db' := ExpireOverdue(db, scope, now);
    ExpireKeepsDriven(db, scope, now, r);
    ExpireRunStatus(db, r, scope, now);
    assert db'.runs[r] == ExpireRun(db, r, scope, now);
    assert PageLinks(db', r) == PageLinks(db, r);
  }

  lemma ExpireKeepsLink(db: Db, scope: Option<Serial>, now: nat, u: Uuid)
    requires u in db.links && LinkOk(db, u)
    ensures LinkOk(ExpireOverdue(db, scope, now), u)
  {
    ExpireRunStatus(db, db.links[u].run, scope, now);
  }

  lemma ExpireKeepsTables(db: Db, scope: Option<Serial>, now: nat)
    requires Tables(db)
    ensures Tables(ExpireOverdue(db, scope, now))
  {
    hide ExpireRun, LinkOk;
    var db' := ExpireOverdue(db, scope, now);
    forall r | r in db'.runs
      ensures Active(db'.runs[r]) ==> Active(db.runs[r])
      ensures db'.runs[r].terminal == db.runs[r].terminal
    {
      ExpireRunStatus(db, r, scope, now);
    }
    forall u | u in db'.links ensures LinkOk(db', u) {
      ExpireKeepsLink(db, scope, now, u);
    }
    forall u | u in db'.commands ensures CommandOk(db'.commands[u]) {
      assert CommandOk(db.commands[u]);
    }
  }

  lemma ExpireKeepsInv(db: Db, scope: Option<Serial>, now: nat)
    requires Inv(db)
    ensures Inv(ExpireOverdue(db, scope, now))
  {
    ExpireKeepsTables(db, scope, now);
    forall r | r in db.runs ensures Settled(ExpireOverdue(db, scope, now), r) {
      ExpireKeepsSettled(db, scope, now, r);
    }
  }

  // ----- Queueing and claiming -----------------------------------------------

  /** Changes to commands that leave liveness, terminals, requests and well-formedness alone keep the invariant. */
  lemma CommandsChangeKeepsInv(db: Db, db': Db)
    requires Inv(db)
    requires db' == db.(commands := db'.commands)
    requires forall u :: u in db.commands ==>
                           && u in db'.commands && db'.commands[u].terminal == db.commands[u].terminal
                           && db'.commands[u].request == db.commands[u].request
    requires forall u :: u in db'.commands ==> CommandOk(db'.commands[u])
    requires forall u :: u in db.links && u in db.commands ==> Live(db.commands[u]) == Live(db'.commands[u])
    ensures Inv(db')
  {
    forall u | u in db'.links ensures LinkOk(db', u) {
      assert LinkOk(db, u);
    }
    forall r | r in db'.runs ensures Settled(db', r) {
      assert PageLinks(db', r) == PageLinks(db, r);
      forall u ensures Drives(db', u, r) <==> Drives(db, u, r) {
        assert u in db.links ==> LinkOk(db, u);
      }
      SettledFrame(db, db', r);
    }
  }

  lemma QueueCommandKeepsInv(db: Db, terminal: Serial, admin: Admin, request: Request, expiresAt: nat, now: nat,
                             uuid: Uuid)
    requires Inv(db)
    ensures Inv(Commit(db, QueueCommand(db, terminal, admin, request, expiresAt, now, uuid)))
  {
    var db' := Commit(db, QueueCommand(db, terminal, admin, request, expiresAt, now, uuid));
    forall u | u in db'.commands ensures CommandOk(db'.commands[u]) {
      assert u in db.commands ==> CommandOk(db.commands[u]);
    }
    CommandsChangeKeepsInv(db, db');
  }

  lemma SendKeepsInv(db: Db, picked: seq<Uuid>, now: nat)
    requires Inv(db)
    requires forall u :: u in picked ==> u in db.commands && db.commands[u].status.Queued?
    ensures Inv(SendAll(db, picked, now))
  {
    var db' := SendAll(db, picked, now);
    forall u | u in db'.commands ensures CommandOk(db'.commands[u]) {
      assert CommandOk(db.commands[u]);
    }
    CommandsChangeKeepsInv(db, db');
  }

  // ----- Storing the records of a page ---------------------------------------

  /** Inserted records are exactly the growth of the table, all credited to this run; nothing stored before changes. */
  lemma OneMoreRecord(rows: map<RecordKey, Retained>, run: Uuid, key: RecordKey, row: Retained)
    requires key !in rows && row.run == run
    ensures |RecordsOf(rows[key := row], run)| == |RecordsOf(rows, run)| + 1 && |rows[key := row]| == |rows| + 1
  {
    assert RecordsOf(rows[key := row], run) == RecordsOf(rows, run) + {key};
  }

  lemma {:induction false} InsertRetainedAccounts(rows: map<RecordKey, Retained>, terminal: Serial, run: Uuid,
                                                  command: Uuid, info: seq<RawRecord>)
    requires forall i :: 0 <= i < |info| ==> info[i].projection.Some?
    ensures var stored := InsertRetained(rows, terminal, run, command, info);
            && (forall k :: k in rows ==> k in stored && stored[k] == rows[k])
            && (forall k :: k in stored && k !in rows ==> stored[k].run == run && k.terminal == terminal)
            && |RecordsOf(stored, run)| == |RecordsOf(rows, run)| + |stored| - |rows|
    decreases |info|
  {
    if info != [] {
      var key := RecordKey(terminal, info[0].source);
      var next := if key in rows then rows else rows[key := Retained(run, command, info[0].projection.value)];
      InsertRetainedAccounts(next, terminal, run, command, info[1..]);
      hide RecordsOf;
      if key !in rows {
        OneMoreRecord(rows, run, key, Retained(run, command, info[0].projection.value));
      }
    }
  }

  /** Afterwards every record of the page is in the archive, whoever brought it first. */
  lemma {:induction false} EveryRecordRetained(rows: map<RecordKey, Retained>, terminal: Serial, run: Uuid,
                                               command: Uuid, info: seq<RawRecord>, i: nat)
    requires forall k :: 0 <= k < |info| ==> info[k].projection.Some?
    requires i < |info|
    ensures RecordKey(terminal, info[i].source) in InsertRetained(rows, terminal, run, command, info)
    decreases |info|
  {
    var key := RecordKey(terminal, info[0].source);
    var next := if key in rows then rows else rows[key := Retained(run, command, info[0].projection.value)];
    if i == 0 {
      InsertRetainedAccounts(next, terminal, run, command, info[1..]);
    } else {
      EveryRecordRetained(next, terminal, run, command, info[1..], i - 1);
    }
  }

  // ----- From a result to the next command -----------------------------------

  /** The run between two commands has accounted for what it stored, and asked for `asked` pages up to `bound`. */
  ghost predicate Accounted(db: Db, x: Uuid, asked: nat, bound: int)
    requires x in db.runs
  {
    && |RecordsOf(db.retained, x)| == db.runs[x].imported
    && |PageLinks(db, x)| == asked
    && forall u :: u in PageLinks(db, x) ==> db.links[u].phase.position <= bound
  }

  /** The bounds of a search stay once pages were asked for within them. */
  predicate SameBounds(a: Run, b: Run) {
    b.searchStartedAt == a.searchStartedAt && b.searchEndedAt == a.searchEndedAt
  }

  /** Rewriting only the row of run `x`, without reviving it, keeps the tables and the other runs. */
  lemma RewriteFrame(db: Db, x: Uuid, run: Run)
    requires Between(db, x) && run.terminal == db.runs[x].terminal
    requires SameBounds(db.runs[x], run) || PageLinks(db, x) == {}
    ensures var db' := db.(runs := db.runs[x := run]);
            && Tables(db')
            && NoDriver(db', x)
            && forall r {:trigger Settled(db', r)} :: r in db'.runs && r != x ==> Settled(db', r)
  {
    var db' := db.(runs := db.runs[x := run]);
    forall r | r in db'.runs && r != x ensures Settled(db', r) {
      assert PageLinks(db', r) == PageLinks(db, r);
      SettledFrame(db, db', r);
    }
    forall u | u in db'.links ensures LinkOk(db', u) {
      assert LinkOk(db, u);
      assert db.links[u].run == x && db.links[u].phase.PagePhase? ==> u in PageLinks(db, x);
    }
    assert forall u :: Drives(db', u, x) ==> Drives(db, u, x);
  }

  lemma FailSettles(db: Db, x: Uuid, reason: Failure, now: nat)
    requires Between(db, x) && !Unreachable(reason)
    requires Credits(|RecordsOf(db.retained, x)|, db.runs[x].imported, Some(reason))
    ensures Inv(FailRun(db, x, reason, now))
  {
    RewriteFrame(db, x, Fail(db.runs[x], reason, now));
    assert Settled(FailRun(db, x, reason, now), x);
  }

  /** A fresh command linked at the run's position satisfies every constraint on links. */
  lemma LinkIsAllowed(db: Db, x: Uuid, u: Uuid, position: nat)
    requires Tables(db) && x in db.runs && position <= MAX_MATCHES && u !in db.commands
    requires forall v :: v in PageLinks(db, x) ==> db.links[v].phase.position < position
    ensures u !in db.links
    ensures forall v :: v in db.links ==> db.links[v] != Link(x, PagePhase(position))
  {
    forall v | v in db.links ensures v in db.commands && db.links[v] != Link(x, PagePhase(position)) {
      assert LinkOk(db, v);
      assert db.links[v].run == x && db.links[v].phase.PagePhase? ==> v in PageLinks(db, x);
    }
  }

  lemma LinkKeepsTables(db: Db, x: Uuid, u: Uuid, command: Command, link: Link)
    requires Tables(db) && x in db.runs && u !in db.commands && u !in db.links && link.run == x
    requires CommandOk(command) && command.terminal == db.runs[x].terminal
    requires Asks(command.request, link, db.runs[x])
    requires link.phase.PagePhase? ==>
               link.phase.position <= MAX_MATCHES && forall v :: v in db.links ==> db.links[v] != link
    ensures Tables(db.(commands := db.commands[u := command], links := db.links[u := link]))
  {
    var db' := db.(commands := db.commands[u := command], links := db.links[u := link]);
    forall v | v in db'.links ensures LinkOk(db', v) {
      assert v in db.links ==> LinkOk(db, v);
    }
  }

  lemma LinkKeepsOthers(db: Db, u: Uuid, command: Command, link: Link, r: Uuid)
    requires r in db.runs && Settled(db, r) && r != link.run && u !in db.commands && u !in db.links
    ensures Settled(db.(commands := db.commands[u := command], links := db.links[u := link]), r)
  {
    var db' := db.(commands := db.commands[u := command], links := db.links[u := link]);
    assert PageLinks(db', r) == PageLinks(db, r);
    SettledFrame(db, db', r);
  }

  /** A run without a live command is driven again by the fresh command linked at its position. */
  lemma LinkDrives(db: Db, x: Uuid, u: Uuid, command: Command)
    requires x in db.runs && RunOk(db, x) && NoDriver(db, x) && db.runs[x].status.Running?
    requires Accounted(db, x, db.runs[x].pages, Position(db.runs[x]) - 1)
    requires u !in db.commands && u !in db.links && command.status.Queued?
    ensures var link := Link(x, PagePhase(Position(db.runs[x])));
            Settled(db.(commands := db.commands[u := command], links := db.links[u := link]), x)
  {
    var link := Link(x, PagePhase(Position(db.runs[x])));
    var db' := db.(commands := db.commands[u := command], links := db.links[u := link]);
    assert PageLinks(db', x) == PageLinks(db, x) + {u};
    assert forall v :: Drives(db', v, x) ==> v == u || Drives(db, v, x);
    assert IsDriver(db', u, x);
  }

  /** Queueing the page at the run's position can fail only on the drawn UUID, and otherwise settles the run. */
  lemma QueuePageSettles(db: Db, x: Uuid, condition: SearchCondition, refusal: Failure, now: nat, draw: Uuid)
    requires Between(db, x) && db.runs[x].status.Running? && db.runs[x].createdBy.Some? && !Unreachable(refusal)
    requires Accounted(db, x, db.runs[x].pages, Position(db.runs[x]) - 1)
    requires Position(db.runs[x]) <= MAX_MATCHES
    requires Asks(EventSearch(condition), Link(x, PagePhase(Position(db.runs[x]))), db.runs[x])
    ensures var outcome := QueuePage(db, x, condition, Position(db.runs[x]), refusal, now, draw);
            match outcome
            case Ok(next) => Inv(next)
            case Err(e) => e.ConstraintViolated? && (draw in db.commands || !UuidForm(draw))
  {
    var run := db.runs[x];
    var command := Command(run.terminal, EventSearch(condition), Queued, now, now + SYNC_COMMAND_TTL, None, None, None);
    if !db.terminals[run.terminal].Online? {
      FailSettles(db, x, refusal, now);
    } else if draw !in db.commands && UuidForm(draw) {
      var link := Link(x, PagePhase(Position(run)));
      LinkIsAllowed(db, x, draw, Position(run));
      LinkKeepsTables(db, x, draw, command, link);
      LinkDrives(db, x, draw, command);
      forall r | r in db.runs && r != x
        ensures Settled(db.(commands := db.commands[draw := command], links := db.links[draw := link]), r)
      {
        LinkKeepsOthers(db, draw, command, link, r);
      }
    }
  }

  // ----- Results of sync commands --------------------------------------------

  /** The outcome of a result keeps the invariant, or rolls back for a reason outside the run's bookkeeping. */
  ghost predicate GoodOutcome(outcome: Result<Db, StoreError>, commands: map<Uuid, Command>, draw: Uuid) {
    match outcome
    case Ok(next) => Inv(next)
    case Err(e) => e.SearchNotBuilt? || (e.ConstraintViolated? && (draw in commands || !UuidForm(draw)))
  }

  lemma TimeSettles(db: Db, x: Uuid, time: Option<LocalTime>, clock: Clock, draw: Uuid)
    requires Between(db, x) && db.runs[x].status.AwaitingTime?
    requires RecordsOf(db.retained, x) == {} && PageLinks(db, x) == {}
    ensures GoodOutcome(CompleteTime(db, x, time, clock, draw), db.commands, draw)
  {
    var run := db.runs[x];
    FailSettles(db, x, NotATimeDocument, clock.now);
    FailSettles(db, x, TimeCannotBoundSearch, clock.now);
    FailSettles(db, x, AdministratorGoneBeforeSearch, clock.now);
    if time.Some? && NewSearchRequest(run.searchId, 0, time.value).Some? && run.createdBy.Some? {
      var started := run.(status := Running, searchStartedAt := Some(time.value.year2000),
                          searchEndedAt := Some(time.value.instant));
      var db' := db.(runs := db.runs[x := started]);
      RewriteFrame(db, x, started);
      assert RunOk(db', x);
      assert PageLinks(db', x) == {};
      QueuePageSettles(db', x, NewSearchRequest(run.searchId, 0, time.value).value, SearchNotQueued, clock.now, draw);
    }
  }

  /** Storing the records of a page touches no other run and credits the new rows to this one. */
  lemma StoringKeepsBetween(db: Db, x: Uuid, command: Uuid, info: seq<RawRecord>)
    requires Between(db, x)
    requires forall i :: 0 <= i < |info| ==> info[i].projection.Some?
    ensures var rows := InsertRetained(db.retained, db.runs[x].terminal, x, command, info);
            && Between(db.(retained := rows), x)
            && |RecordsOf(rows, x)| == |RecordsOf(db.retained, x)| + |rows| - |db.retained|
  {
    var rows := InsertRetained(db.retained, db.runs[x].terminal, x, command, info);
    var db' := db.(retained := rows);
    InsertRetainedAccounts(db.retained, db.runs[x].terminal, x, command, info);
    forall u | u in db'.links ensures LinkOk(db', u) {
      assert LinkOk(db, u);
    }
    forall r | r in db'.runs && r != x ensures Settled(db', r) {
      assert PageLinks(db', r) == PageLinks(db, r);
      assert RecordsOf(rows, r) == RecordsOf(db.retained, r);
      SettledFrame(db, db', r);
    }
    assert forall u :: Drives(db', u, x) ==> Drives(db, u, x);
  }

  /** A page that parsed and that the run accepts at its position. */
  predicate Acceptable(run: Run, page: Page) {
    PageOk(page) && PageRefusal(run, Position(run), page).None?
  }

  /** Before the page is counted: its rows are stored and every page asked for so far is at or before the position. */
  ghost predicate PageStored(db: Db, x: Uuid, page: Page, inserted: nat) {
    && Between(db, x) && db.runs[x].status.Running? && Acceptable(db.runs[x], page) && inserted <= |page.info|
    && |RecordsOf(db.retained, x)| == db.runs[x].imported + inserted
    && |PageLinks(db, x)| == db.runs[x].pages + 1
    && forall u :: u in PageLinks(db, x) ==> db.links[u].phase.position <= Position(db.runs[x])
  }

  lemma CountedOk(run: Run, page: Page, inserted: nat, now: nat)
    requires run.status.Running? && Lifecycle(run) && CountersOk(run)
    requires Acceptable(run, page) && inserted <= |page.info|
    ensures Position(Counted(run, page, inserted)) == Position(run) + page.numOfMatches
    ensures page.status.More? ==> CountersOk(Counted(run, page, inserted)) && page.numOfMatches > 0
    ensures !page.status.More? ==> Position(run) + page.numOfMatches == page.totalMatches
    ensures !page.status.More? ==>
              CountersOk(Counted(run, page, inserted).(status := Finished, completedAt := Some(now)))
  {
  }

  lemma MoreSettles(db: Db, x: Uuid, page: Page, inserted: nat, condition: SearchCondition, now: nat, draw: Uuid)
    requires PageStored(db, x, page, inserted) && page.status.More? && db.runs[x].createdBy.Some?
    requires Asks(EventSearch(condition), Link(x, PagePhase(Position(db.runs[x]) + page.numOfMatches)), db.runs[x])
    ensures var counted := Counted(db.runs[x], page, inserted);
            GoodOutcome(QueuePage(db.(runs := db.runs[x := counted]), x, condition, Position(counted), PageNotQueued,
                                  now, draw),
                        db.commands, draw)
  {
    var counted := Counted(db.runs[x], page, inserted);
    CountedOk(db.runs[x], page, inserted, now);
    var db' := db.(runs := db.runs[x := counted]);
    RewriteFrame(db, x, counted);
    assert RunOk(db', x);
    assert PageLinks(db', x) == PageLinks(db, x);
    QueuePageSettles(db', x, condition, PageNotQueued, now, draw);
  }

  lemma LastSettles(db: Db, x: Uuid, page: Page, inserted: nat, now: nat)
    requires PageStored(db, x, page, inserted) && !page.status.More?
    ensures var finished := Counted(db.runs[x], page, inserted).(status := Finished, completedAt := Some(now));
            Lifecycle(finished) && Inv(db.(runs := db.runs[x := finished]))
  {
    var finished := Counted(db.runs[x], page, inserted).(status := Finished, completedAt := Some(now));
    CountedOk(db.runs[x], page, inserted, now);
    var db' := db.(runs := db.runs[x := finished]);
    RewriteFrame(db, x, finished);
    assert PageLinks(db', x) == PageLinks(db, x);
    assert Settled(db', x);
  }

  /** The run then asks for the next position, or has accounted for every announced record. */
  lemma AdvanceSettles(db: Db, x: Uuid, page: Page, inserted: nat, clock: Clock, draw: Uuid)
    requires PageStored(db, x, page, inserted)
    ensures GoodOutcome(AdvanceRun(db, x, Position(db.runs[x]) + page.numOfMatches, page, inserted, clock, draw),
                        db.commands, draw)
  {
    if !page.status.More? {
      LastSettles(db, x, page, inserted, clock.now);
      LastIsUpdate(db, x, page, inserted, clock, draw);
    } else {
      AskSettles(db, x, page, inserted, clock, draw);
    }
  }

  lemma LastIsUpdate(db: Db, x: Uuid, page: Page, inserted: nat, clock: Clock, draw: Uuid)
    requires PageStored(db, x, page, inserted) && !page.status.More?
    ensures AdvanceRun(db, x, Position(db.runs[x]) + page.numOfMatches, page, inserted, clock, draw)
         == UpdateRun(db, x, Counted(db.runs[x], page, inserted).(status := Finished, completedAt := Some(clock.now)))
  {
    CountedOk(db.runs[x], page, inserted, clock.now);
  }

  /** The request built for a later page asks for that page. */
  lemma NextAsks(run: Run, x: Uuid, next: nat, year2000: int)
    requires run.searchId == x && run.searchEndedAt.Some? && next > 0
    requires NewSearchRequest(run.searchId, next, LocalTime(run.searchEndedAt.value, year2000)).Some?
    ensures var request := NewSearchRequest(run.searchId, next, LocalTime(run.searchEndedAt.value, year2000));
            Asks(EventSearch(request.value), Link(x, PagePhase(next)), run)
  {
  }

  lemma AskSettles(db: Db, x: Uuid, page: Page, inserted: nat, clock: Clock, draw: Uuid)
    requires PageStored(db, x, page, inserted) && page.status.More?
    ensures GoodOutcome(AdvanceRun(db, x, Position(db.runs[x]) + page.numOfMatches, page, inserted, clock, draw),
                        db.commands, draw)
  {
    hide QueuePage, NewSearchRequest;
    var run := db.runs[x];
    CountedOk(run, page, inserted, clock.now);
    var outcome := AdvanceRun(db, x, Position(run) + page.numOfMatches, page, inserted, clock, draw);
    var counted := Counted(run, page, inserted);
    var request := NewSearchRequest(run.searchId, Position(counted),
                                    LocalTime(run.searchEndedAt.value, clock.year2000));
    if run.createdBy.None? {
      assert outcome == Ok(FailRun(db, x, AdministratorGoneBeforePage, clock.now));
      FailSettles(db, x, AdministratorGoneBeforePage, clock.now);
    } else if request.Some? {
      assert outcome == QueuePage(db.(runs := db.runs[x := counted]), x, request.value, Position(counted),
                                  PageNotQueued,
                                  clock.now, draw);
      NextAsks(run, x, Position(counted), clock.year2000);
      MoreSettles(db, x, page, inserted, request.value, clock.now, draw);
    } else {
      assert outcome == Err(SearchNotBuilt);
    }
  }

  lemma StoringIsStored(db: Db, x: Uuid, command: Uuid, page: Page)
    requires Between(db, x) && db.runs[x].status.Running? && Acceptable(db.runs[x], page)
    requires Accounted(db, x, db.runs[x].pages + 1, Position(db.runs[x]))
    ensures var rows := InsertRetained(db.retained, db.runs[x].terminal, x, command, page.info);
            PageStored(db.(retained := rows), x, page, |rows| - |db.retained|)
  {
    var rows := InsertRetained(db.retained, db.runs[x].terminal, x, command, page.info);
    StoringKeepsBetween(db, x, command, page.info);
    assert PageLinks(db.(retained := rows), x) == PageLinks(db, x);
  }

  lemma StoreSettles(db: Db, x: Uuid, command: Uuid, page: Page, clock: Clock, draw: Uuid)
    requires Between(db, x) && db.runs[x].status.Running? && Acceptable(db.runs[x], page)
    requires Accounted(db, x, db.runs[x].pages + 1, Position(db.runs[x]))
    ensures GoodOutcome(StorePage(db, x, Position(db.runs[x]) + page.numOfMatches, command, page, clock, draw),
                        db.commands, draw)
  {
    hide AdvanceRun, InsertRetained, GoodOutcome;
    var rows := InsertRetained(db.retained, db.runs[x].terminal, x, command, page.info);
    StoringIsStored(db, x, command, page);
    AdvanceSettles(db.(retained := rows), x, page, |rows| - |db.retained|, clock, draw);
  }

  /** Past the first page the total is known and positive, so a page without matches has changed the total. */
  lemma RefusalIsReachable(run: Run, page: Page)
    requires run.status.Running? && CountersOk(run) && PageOk(page)
    ensures var refusal := PageRefusal(run, Position(run), page);
            refusal.Some? ==> !Unreachable(refusal.value)
  {
  }

  lemma PageSettles(db: Db, x: Uuid, command: Uuid, parsed: Option<Page>, clock: Clock, draw: Uuid)
    requires Between(db, x) && db.runs[x].status.Running? && (parsed.Some? ==> PageOk(parsed.value))
    requires Accounted(db, x, db.runs[x].pages + 1, Position(db.runs[x]))
    ensures GoodOutcome(CompletePage(db, x, PagePhase(Position(db.runs[x])), command, parsed, clock, draw), db.commands,
                        draw)
  {
    hide StorePage;
    if parsed.None? {
      FailSettles(db, x, NotAPageDocument, clock.now);
    } else if PageRefusal(db.runs[x], Position(db.runs[x]), parsed.value).Some? {
      RefusalIsReachable(db.runs[x], parsed.value);
      FailSettles(db, x, PageRefusal(db.runs[x], Position(db.runs[x]), parsed.value).value, clock.now);
    } else {
      StoreSettles(db, x, command, parsed.value, clock, draw);
    }
  }
}
