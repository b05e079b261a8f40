/**
 The store's transactions as the code performs them: row by row, in loops, with
 the tables rolled back when a statement fails. Each is proved to commit exactly
 what SyncModel says, and to keep the invariant.
 */
module CommandStore {
  import opened Wrappers
  import opened Ordering
  import opened RetainedSearch
  import opened Terminals
  import M = SyncModel
  import opened SyncInvariant
  import opened SyncSteps

  class Store {
    var terminals: map<Serial, Connection>
    var admins: set<nat>
    var commands: map<M.Uuid, M.Command>
    var runs: map<M.Uuid, M.Run>
    var links: map<M.Uuid, M.Link>
    var retained: map<M.RecordKey, M.Retained>

    ghost function View(): M.Db
      reads this
    {
      M.Db(terminals, admins, commands, runs, links, retained)
    }

    ghost predicate Valid()
      reads this
    {
      Inv(View())
    }

    constructor ()
      ensures View() == M.EMPTY && Valid()
    {
      terminals, admins, commands, runs, links, retained := map[], {}, map[], map[], map[], map[];
    }

    // ----- Expiry ------------------------------------------------------------

    method FailSync(run: M.Uuid, reason: M.Failure, now: nat)
      modifies this`runs
      ensures View() == M.FailRun(old(View()), run, reason, now)
    {
      if run in runs && M.Active(runs[run]) {
        runs := runs[run := runs[run].(status := M.Failed, failure := Some(reason), completedAt := Some(now))];
      } else if run in runs {
        assert runs == runs[run := runs[run]];
      }
    }

    method ExpireOverdue(scope: Option<Serial>, now: nat)
      requires Valid()
      modifies this`commands, this`runs
      ensures Valid() && View() == M.ExpireOverdue(old(View()), scope, now)
    {
      ghost var before := View();
      var overdue := set u | u in commands && M.Overdue(commands[u], scope, now);
      commands := map u | u in commands ::
        if M.Overdue(commands[u], scope, now) then M.Expire(commands[u], now) else commands[u];
      FailExpired(before, overdue, scope, now);
      ExpireKeepsInv(before, scope, now);
    }

    /** Fails the run of each command that has just expired. */
    method FailExpired(ghost before: M.Db, overdue: set<M.Uuid>, ghost scope: Option<Serial>, now: nat)
      requires Inv(before) && overdue == set u | u in before.commands && M.Overdue(before.commands[u], scope, now)
      requires View() == M.ExpireOverdue(before, scope, now).(runs := before.runs)
      modifies this`runs
      ensures runs == M.ExpireOverdue(before, scope, now).runs
    {
      hide M.ExpireRun, Inv;
      var rest := overdue;
      assert overdue - rest == {};
      SweptNone(before, scope, now);
      while rest != {}
        invariant rest <= overdue
        invariant runs == SweptRuns(before, overdue - rest, scope, now)
        decreases |rest|
      {
        var u :| u in rest;
        SweptOne(before, overdue - rest, u, scope, now);
        assert overdue - (rest - {u}) == (overdue - rest) + {u};
        if u in links {
          FailSync(links[u].run,
                   if commands[u].sentAt.Some? then M.ExpiredAwaitingResult else M.ExpiredBeforeDelivery, now);
        }
        rest := rest - {u};
      }
      assert overdue - rest == overdue;
      SweptAll(before, overdue, scope, now);
    }

    // ----- Queueing ----------------------------------------------------------

    method QueueCommand(terminal: Serial, admin: M.Admin, request: M.Request, expiresAt: nat, now: nat, uuid: M.Uuid)
      returns (error: Option<M.StoreError>)
      modifies this`commands
      ensures match M.QueueCommand(old(View()), terminal, admin, request, expiresAt, now, uuid)
              case Ok(next) => error.None? && View() == next
              case Err(e) => error == Some(e) && View() == old(View())
    {
      if admin.id == 0 || admin.name == "" {
        return Some(M.AdministratorRequired);
      }
      if expiresAt <= now {
        return Some(M.ExpiryNotInFuture);
      }
      if terminal !in terminals {
        return Some(M.UnknownTerminal);
      }
      if !terminals[terminal].Online? {
        return Some(M.TerminalNotOnline);
      }
      if uuid in commands || !M.UuidForm(uuid) || admin.id !in admins {
        return Some(M.ConstraintViolated);
      }
      commands := commands[uuid := M.Command(terminal, request, M.Queued, now, expiresAt, None, None, None)];
      return None;
    }

    method InsertLink(uuid: M.Uuid, link: M.Link) returns (error: Option<M.StoreError>)
      modifies this`links
      ensures match M.InsertLink(old(View()), uuid, link)
              case Ok(next) => error.None? && View() == next
              case Err(e) => error == Some(e)
    {
      if uuid in links || uuid !in commands || link.run !in runs {
        return Some(M.ConstraintViolated);
      }
      if link.phase.PagePhase? && (link.phase.position > MAX_MATCHES || exists u :: u in links && links[u] == link) {
        return Some(M.ConstraintViolated);
      }
      links := links[uuid := link];
      return None;
    }

    /** Starts a sync, or leaves the database as it was and reports why. */
    method QueueSync(terminal: Serial, admin: M.Admin, now: nat, runUuid: M.Uuid, commandUuid: M.Uuid)
      returns (error: Option<M.StoreError>)
      requires Valid()
      modifies this
      ensures Valid()
      ensures match M.QueueSync(old(View()), terminal, admin, now, runUuid, commandUuid)
              case Ok(next) => error.None? && View() == next
              case Err(e) => error == Some(e) && View() == old(View())
    {
      QueueSyncKeepsInv(View(), terminal, admin, now, runUuid, commandUuid);
      var savedCommands, savedRuns, savedLinks := commands, runs, links;
      error := QueueSyncTx(terminal, admin, now, runUuid, commandUuid);
      if error.Some? {
        commands, runs, links := savedCommands, savedRuns, savedLinks;
      }
    }

    method QueueSyncTx(terminal: Serial, admin: M.Admin, now: nat, runUuid: M.Uuid, commandUuid: M.Uuid)
      returns (error: Option<M.StoreError>)
      requires Valid()
      modifies this`commands, this`runs, this`links
      ensures match M.QueueSync(old(View()), terminal, admin, now, runUuid, commandUuid)
              case Ok(next) => error.None? && View() == next
              case Err(e) => error == Some(e)
    {
      if admin.id == 0 || admin.name == "" {
        return Some(M.AdministratorRequired);
      }
      ExpireOverdue(Some(terminal), now);
      if terminal !in terminals {
        return Some(M.UnknownTerminal);
      }
      if !terminals[terminal].Online? {
        return Some(M.TerminalNotOnline);
      }
      if exists r :: r in runs && runs[r].terminal == terminal && M.Active(runs[r]) {
        ghost var r :| r in runs && runs[r].terminal == terminal && M.Active(runs[r]);
        assert M.ActiveFor(View(), r, terminal);
        return Some(M.SyncInProgress);
      }
      if runUuid in runs || !M.UuidForm(runUuid) || admin.id !in admins {
        return Some(M.ConstraintViolated);
      }
      runs := runs[runUuid := M.Run(terminal, Some(admin.id), admin.name, runUuid, M.AwaitingTime,
                                    None, None, None, 0, 0, 0, None, None)];
      error := QueueCommand(terminal, admin, M.SystemTime, now + M.SYNC_COMMAND_TTL, now, commandUuid);
      if error.None? {
        error := InsertLink(commandUuid, M.Link(runUuid, M.TimePhase));
      }
    }

    // ----- Claiming ----------------------------------------------------------

    /** The claimable commands in order of creation, cut off at the limit. */
    method SelectOldest(terminal: Serial, limit: nat, now: nat) returns (uuids: seq<M.Uuid>)
      ensures uuids == M.Picked(View(), terminal, limit, now)
    {
      var all := Sort(M.ClaimableKeys(M.Db(terminals, admins, commands, runs, links, retained), terminal, now));
      uuids := Texts(all[..if limit < |all| then limit else |all|]);
    }

    method SendEach(uuids: seq<M.Uuid>, now: nat)
      requires forall k :: 0 <= k < |uuids| ==> uuids[k] in commands
      requires forall k, l :: 0 <= k < l < |uuids| ==> uuids[k] != uuids[l]
      modifies this`commands
      ensures View() == M.SendAll(old(View()), uuids, now)
    {
      SendNone(View(), now);
      var i := 0;
      while i < |uuids|
        invariant 0 <= i <= |uuids|
        invariant View() == M.SendAll(old(View()), uuids[..i], now)
      {
        SendOne(old(View()), uuids, i, now);
        commands := commands[uuids[i] := M.Send(commands[uuids[i]], now)];
        i := i + 1;
      }
      assert uuids[..i] == uuids;
    }

    /** Hands the oldest claimable commands to the terminal, each exactly once. */
    method ClaimCommands(terminal: Serial, limit: int, now: nat)
      returns (uuids: seq<M.Uuid>, error: Option<M.StoreError>)
      requires Valid()
      modifies this
      ensures Valid()
      ensures match M.ClaimCommands(old(View()), terminal, limit, now)
              case Ok(claim) => error.None? && View() == claim.db && uuids == claim.uuids
              case Err(e) => error == Some(e) && View() == old(View()) && uuids == []
    {
      ClaimKeepsInv(View(), terminal, limit, now);
      if limit < 1 || limit > 20 {
        return [], Some(M.BadLimit);
      }
      ExpireOverdue(Some(terminal), now);
      uuids := SelectOldest(terminal, limit, now);
      PickedOldest(View(), terminal, limit, now);
      SendEach(uuids, now);
      error := None;
    }

    // ----- Completing --------------------------------------------------------

    /** Stores the records not stored before, and counts them. */
    method InsertRetained(terminal: Serial, run: M.Uuid, command: M.Uuid, info: seq<RawRecord>)
      returns (inserted: nat, duplicate: nat)
      requires forall i :: 0 <= i < |info| ==> info[i].projection.Some?
      modifies this`retained
      ensures retained == M.InsertRetained(old(retained), terminal, run, command, info)
      ensures inserted == |retained| - |old(retained)| && inserted + duplicate == |info|
      ensures |RecordsOf(retained, run)| == |RecordsOf(old(retained), run)| + inserted
    {
      inserted := 0;
      var i := 0;
      while i < |info|
        invariant 0 <= i <= |info|
        invariant M.InsertRetained(retained, terminal, run, command, info[i..])
               == M.InsertRetained(old(retained), terminal, run, command, info)
        invariant inserted == |retained| - |old(retained)| && inserted <= i
      {
        var key := M.RecordKey(terminal, info[i].source);
        assert info[i..][0] == info[i] && info[i..][1..] == info[i + 1..];
        if key !in retained {
          retained := retained[key := M.Retained(run, command, info[i].projection.value)];
          inserted := inserted + 1;
        }
        i := i + 1;
      }
      assert info[i..] == [];
      InsertRetainedAccounts(old(retained), terminal, run, command, info);
      duplicate := |info| - inserted;
    }

    method QueuePage(r: M.Uuid, condition: SearchCondition, position: nat, refusal: M.Failure, now: nat, draw: M.Uuid)
      returns (error: Option<M.StoreError>)
      requires r in runs && runs[r].createdBy.Some?
      modifies this`commands, this`runs, this`links
      ensures match M.QueuePage(old(View()), r, condition, position, refusal, now, draw)
              case Ok(next) => error.None? && View() == next
              case Err(e) => error == Some(e)
    {
      var run := runs[r];
      error := QueueCommand(run.terminal, M.Admin(run.createdBy.value, run.createdByName), M.EventSearch(condition),
                            now + M.SYNC_COMMAND_TTL, now, draw);
      if error == Some(M.ConstraintViolated) {
        return;
      }
      if error.Some? {
        FailSync(r, refusal, now);
        return None;
      }
      error := InsertLink(draw, M.Link(r, M.PagePhase(position)));
    }

    method CompleteTime(r: M.Uuid, time: Option<LocalTime>, clock: M.Clock,
                        draw: M.Uuid) returns (error: Option<M.StoreError>)
      requires r in runs
      modifies this`commands, this`runs, this`links
      ensures match M.CompleteTime(old(View()), r, time, clock, draw)
              case Ok(next) => error.None? && View() == next
              case Err(e) => error == Some(e)
    {
      var run := runs[r];
      error := None;
      if !run.status.AwaitingTime? {
        FailSync(r, M.TimeAfterSearchBegan, clock.now);
        return;
      }
      if time.None? {
        FailSync(r, M.NotATimeDocument, clock.now);
        return;
      }
      var request := NewSearchRequest(run.searchId, 0, time.value);
      if request.None? {
        FailSync(r, M.TimeCannotBoundSearch, clock.now);
        return;
      }
      if run.createdBy.None? {
        FailSync(r, M.AdministratorGoneBeforeSearch, clock.now);
        return;
      }
      var started := run.(status := M.Running, searchStartedAt := Some(time.value.year2000),
                          searchEndedAt := Some(time.value.instant));
      if !M.Lifecycle(started) {
        return Some(M.ConstraintViolated);
      }
      runs := runs[r := started];
      error := QueuePage(r, request.value, 0, M.SearchNotQueued, clock.now, draw);
    }

    method AdvanceRun(r: M.Uuid, next: nat, page: Page, inserted: nat, clock: M.Clock, draw: M.Uuid)
      returns (error: Option<M.StoreError>)
      requires r in runs && runs[r].searchEndedAt.Some? && inserted <= |page.info|
      modifies this`commands, this`runs, this`links
      ensures match M.AdvanceRun(old(View()), r, next, page, inserted, clock, draw)
              case Ok(after) => error.None? && View() == after
              case Err(e) => error == Some(e)
    {
      error := None;
      if page.status.More? && runs[r].createdBy.None? {
        FailSync(r, M.AdministratorGoneBeforePage, clock.now);
      } else if page.status.More? {
        error := AskForPage(r, next, page, inserted, clock, draw);
      } else {
        error := FinishRun(r, page, inserted, clock.now);
      }
    }

    method AskForPage(r: M.Uuid, next: nat, page: Page, inserted: nat, clock: M.Clock, draw: M.Uuid)
      returns (error: Option<M.StoreError>)
      requires r in runs && runs[r].searchEndedAt.Some? && inserted <= |page.info|
      requires page.status.More? && runs[r].createdBy.Some?
      modifies this`commands, this`runs, this`links
      ensures match M.AdvanceRun(old(View()), r, next, page, inserted, clock, draw)
              case Ok(after) => error.None? && View() == after
              case Err(e) => error == Some(e)
    {
      hide M.QueuePage;
      var run := runs[r];
      var counted := run.(totalMatches := Some(page.totalMatches), pages := run.pages + 1,
                          imported := run.imported + inserted, duplicate := run.duplicate + |page.info| - inserted);
      var request := NewSearchRequest(run.searchId, next, LocalTime(run.searchEndedAt.value, clock.year2000));
      if request.None? {
        return Some(M.SearchNotBuilt);
      }
      if !M.Lifecycle(counted) {
        return Some(M.ConstraintViolated);
      }
      runs := runs[r := counted];
      error := QueuePage(r, request.value, next, M.PageNotQueued, clock.now, draw);
    }

    method FinishRun(r: M.Uuid, page: Page, inserted: nat, now: nat) returns (error: Option<M.StoreError>)
      requires r in runs && inserted <= |page.info|
      modifies this`runs
      ensures var counted := M.Counted(old(runs)[r], page, inserted);
              var finished := counted.(status := M.Finished, completedAt := Some(now));
              if counted.imported + counted.duplicate != page.totalMatches then
                error.None? && View() == M.FailRun(old(View()), r, M.TotalsMismatch, now)
              else match M.UpdateRun(old(View()), r, finished)
                case Ok(after) => error.None? && View() == after
                case Err(e) => error == Some(e)
    {
      var run := runs[r];
      error := None;
      var counted := run.(totalMatches := Some(page.totalMatches), pages := run.pages + 1,
                          imported := run.imported + inserted, duplicate := run.duplicate + |page.info| - inserted);
      if counted.imported + counted.duplicate != page.totalMatches {
        FailSync(r, M.TotalsMismatch, now);
        return;
      }
      var finished := counted.(status := M.Finished, completedAt := Some(now));
      if !M.Lifecycle(finished) {
        return Some(M.ConstraintViolated);
      }
      runs := runs[r := finished];
    }

    method CompletePage(r: M.Uuid, phase: M.Phase, command: M.Uuid, parsed: Option<Page>, clock: M.Clock, draw: M.Uuid)
      returns (error: Option<M.StoreError>)
      requires r in runs
      modifies this`commands, this`runs, this`links, this`retained
      ensures match M.CompletePage(old(View()), r, phase, command, parsed, clock, draw)
              case Ok(next) => error.None? && View() == next
              case Err(e) => error == Some(e)
    {
      hide M.StorePage;
      var run := runs[r];
      error := None;
      if !run.status.Running? || phase.TimePhase? || run.searchStartedAt.None? || run.searchEndedAt.None? {
        FailSync(r, M.NoActivePage, clock.now);
        return;
      }
      if parsed.None? {
        FailSync(r, M.NotAPageDocument, clock.now);
        return;
      }
      var refusal := M.PageRefusal(run, phase.position, parsed.value);
      if refusal.Some? {
        FailSync(r, refusal.value, clock.now);
        return;
      }
      error := StorePage(r, phase.position + parsed.value.numOfMatches, command, parsed.value, clock, draw);
    }

    method StorePage(r: M.Uuid, next: nat, command: M.Uuid, page: Page, clock: M.Clock, draw: M.Uuid)
      returns (error: Option<M.StoreError>)
      requires r in runs && runs[r].searchEndedAt.Some?
      requires forall i :: 0 <= i < |page.info| ==> page.info[i].projection.Some?
      modifies this`commands, this`runs, this`links, this`retained
      ensures match M.StorePage(old(View()), r, next, command, page, clock, draw)
              case Ok(db) => error.None? && View() == db
              case Err(e) => error == Some(e)
    {
      hide M.AdvanceRun;
      var inserted, duplicate := InsertRetained(runs[r].terminal, r, command, page.info);
      error := AdvanceRun(r, next, page, inserted, clock, draw);
    }

    method AdvanceSync(terminal: Serial, result: M.CommandResult, clock: M.Clock) returns (error: Option<M.StoreError>)
      modifies this`commands, this`runs, this`links, this`retained
      ensures match M.AdvanceSync(old(View()), terminal, result, clock)
              case Ok(next) => error.None? && View() == next
              case Err(e) => error == Some(e)
    {
      error := None;
      if result.uuid !in links || links[result.uuid].run !in runs {
        return;
      }
      var link := links[result.uuid];
      if runs[link.run].terminal != terminal {
        return Some(M.LinkedToAnotherTerminal);
      }
      if !M.Active(runs[link.run]) {
        return Some(M.RunNotActive);
      }
      if result.decoded.NotBase64? {
        FailSync(link.run, M.UndecodableResult, clock.now);
        return;
      }
      if link.phase.TimePhase? {
        error := CompleteTime(link.run, result.decoded.time, clock, result.draw);
        return;
      }
      if result.format.Some? && result.format.value != "jsonData" {
        FailSync(link.run, M.WrongFormat, clock.now);
        return;
      }
      var parsed := ParsePage(result.decoded.page);
      error := CompletePage(link.run, link.phase, result.uuid, parsed, clock, result.draw);
    }

    method CompleteOne(terminal: Serial, result: M.CommandResult, clock: M.Clock) returns (error: Option<M.StoreError>)
      modifies this`commands, this`runs, this`links, this`retained
      ensures match M.CompleteOne(old(View()), terminal, result, clock)
              case Ok(next) => error.None? && View() == next
              case Err(e) => error == Some(e)
    {
      if result.uuid !in commands || commands[result.uuid].terminal != terminal {
        return Some(M.UnknownCommand);
      }
      match commands[result.uuid].status {
        case Sent =>
          commands := commands[result.uuid := M.Complete(commands[result.uuid], result, clock.now)];
          error := AdvanceSync(terminal, result, clock);
        case Completed =>
          if commands[result.uuid].response != Some(M.Response(result.format, result.text)) {
            return Some(M.ConflictingResult);
          }
          return None;
        case Queued =>
          return Some(M.NotSent);
        case Expired =>
          return Some(M.NotSent);
      }
    }

    /** All results of a batch, in order, or none of them. */
    method CompleteCommands(terminal: Serial, results: seq<M.CommandResult>, clock: M.Clock)
      returns (error: Option<M.StoreError>)
      requires Valid()
      modifies this
      ensures Valid()
      ensures match M.CompleteCommands(old(View()), terminal, results, clock)
              case Ok(next) => error.None? && View() == next
              case Err(e) => error == Some(e) && View() == old(View())
    {
      CompleteCommandsKeepsInv(View(), terminal, results, clock);
      ghost var before := View();
      var savedCommands, savedRuns, savedLinks, savedRetained := commands, runs, links, retained;
      ExpireOverdue(Some(terminal), clock.now);
      error := None;
      var i := 0;
      while i < |results| && error.None?
        invariant 0 <= i <= |results|
        invariant terminals == before.terminals && admins == before.admins
        invariant match M.CompleteCommands(before, terminal, results, clock)
                  case Ok(_) => error.None? && M.CompleteAll(View(), terminal, results[i..], clock)
                                               == M.CompleteCommands(before, terminal, results, clock)
                  case Err(e) =>
                    || error == Some(e)
                    || (error.None? && M.CompleteAll(View(), terminal, results[i..], clock) == Err(e))
        decreases |results| - i, error.None?
      {
        assert results[i..][0] == results[i] && results[i..][1..] == results[i + 1..];
        error := CompleteOne(terminal, results[i], clock);
        i := i + 1;
      }
      if error.Some? {
        commands, runs, links, retained := savedCommands, savedRuns, savedLinks, savedRetained;
      }
    }
  }

  // ----- The order in which overdue commands are visited does not matter -----

  /** Run `r` after the overdue commands in `visited` have failed their runs. */
  ghost function Swept(db: M.Db, visited: set<M.Uuid>, r: M.Uuid, scope: Option<Serial>, now: nat): M.Run
    requires r in db.runs
  {
    if exists u :: u in visited && M.OverdueFor(db, u, r, scope, now) then M.ExpireRun(db, r, scope, now)
    else db.runs[r]
  }

  ghost function SweptRuns(db: M.Db, visited: set<M.Uuid>, scope: Option<Serial>, now: nat): map<M.Uuid, M.Run> {
    map r | r in db.runs :: Swept(db, visited, r, scope, now)
  }

  lemma SweptNone(db: M.Db, scope: Option<Serial>, now: nat)
    ensures SweptRuns(db, {}, scope, now) == db.runs
  {
  }

  lemma SweptAll(db: M.Db, overdue: set<M.Uuid>, scope: Option<Serial>, now: nat)
    requires forall u :: u in db.commands && M.Overdue(db.commands[u], scope, now) ==> u in overdue
    ensures SweptRuns(db, overdue, scope, now) == M.ExpireOverdue(db, scope, now).runs
  {
    forall r | r in db.runs ensures Swept(db, overdue, r, scope, now) == M.ExpireRun(db, r, scope, now) {
      assert forall u :: M.OverdueFor(db, u, r, scope, now) ==> u in overdue;
    }
  }

  /** The one overdue command of an active run decides how that run fails. */
  lemma OverdueDecides(db: M.Db, u: M.Uuid, scope: Option<Serial>, now: nat)
    requires Inv(db) && u in db.links && u in db.commands && M.Overdue(db.commands[u], scope, now)
    ensures var r := db.links[u].run;
            && r in db.runs
            && (forall v :: M.OverdueFor(db, v, r, scope, now) ==> v == u)
            && M.ExpireRun(db, r, scope, now)
               == M.Fail(db.runs[r],
                         if db.commands[u].sentAt.Some? then M.ExpiredAwaitingResult else M.ExpiredBeforeDelivery,
                         now)
  {
    var r := db.links[u].run;
    assert LinkOk(db, u);
    assert Settled(db, r);
    assert Drives(db, u, r);
    forall v | M.OverdueFor(db, v, r, scope, now) ensures v == u {
      assert Drives(db, v, r);
    }
    assert M.OverdueFor(db, u, r, scope, now);
  }

  lemma SweptOne(db: M.Db, visited: set<M.Uuid>, u: M.Uuid, scope: Option<Serial>, now: nat)
    requires Inv(db) && u in db.commands && M.Overdue(db.commands[u], scope, now) && u !in visited
    ensures u !in db.links ==> SweptRuns(db, visited + {u}, scope, now) == SweptRuns(db, visited, scope, now)
    ensures u in db.links ==>
              var r := db.links[u].run;
              && r in db.runs
              && SweptRuns(db, visited + {u}, scope, now)
                 == SweptRuns(db, visited, scope, now)[r := M.Fail(SweptRuns(db, visited, scope, now)[r],
                    if db.commands[u].sentAt.Some? then M.ExpiredAwaitingResult else M.ExpiredBeforeDelivery, now)]
  {
    if u in db.links {
      OverdueDecides(db, u, scope, now);
      assert M.OverdueFor(db, u, db.links[u].run, scope, now);
    }
    forall q | q in db.runs && (u in db.links ==> q != db.links[u].run)
      ensures Swept(db, visited + {u}, q, scope, now) == Swept(db, visited, q, scope, now)
    {
      assert forall v :: v in visited + {u} && M.OverdueFor(db, v, q, scope, now) ==> v in visited;
    }
  }

  // ----- Sending one command after the other ---------------------------------

  lemma SendNone(db: M.Db, now: nat)
    ensures M.SendAll(db, [], now) == db
  {
  }

  lemma SendOne(db: M.Db, picked: seq<M.Uuid>, i: nat, now: nat)
    requires i < |picked| && picked[i] in db.commands
    requires forall k, l :: 0 <= k < l < |picked| ==> picked[k] != picked[l]
    ensures picked[..i + 1] == picked[..i] + [picked[i]]
    ensures var before := M.SendAll(db, picked[..i], now).commands;
            picked[i] in before && M.SendAll(db, picked[..i + 1], now).commands
                                   == before[picked[i] := M.Send(before[picked[i]], now)]
  {
    assert picked[i] !in picked[..i];
  }
}
