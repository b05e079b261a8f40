/**
 What no transaction ever undoes: commands only move forward through their
 statuses, finished runs keep their outcome, the bounds of a search and an
 announced total stay, and links and retained records are never altered or removed.
 */
module SyncEvolution {
  import opened Wrappers
  import opened RetainedSearch
  import opened Terminals
  import opened SyncModel
  import opened SyncInvariant

  function Rank(s: CommandStatus): nat {
    match s case Queued => 0 case Sent => 1 case Completed => 2 case Expired => 2
  }

  predicate CommandEvolves(c: Command, c': Command) {
    c == c' || (Rank(c.status) < Rank(c'.status)
                && c'.terminal == c.terminal && c'.request == c.request
                && c'.createdAt == c.createdAt && c'.expiresAt == c.expiresAt)
  }

  predicate RunEvolves(a: Run, b: Run) {
    && b.terminal == a.terminal && b.searchId == a.searchId && b.createdByName == a.createdByName
    && (b.createdBy == a.createdBy || b.createdBy.None?)
    && (!Active(a) ==> b == a.(createdBy := b.createdBy))
    && (a.status.Running? ==> !b.status.AwaitingTime? && SameBounds(a, b))
    && (a.totalMatches.Some? ==> b.totalMatches == a.totalMatches)
    && a.pages <= b.pages && a.imported <= b.imported && a.duplicate <= b.duplicate
  }

  ghost predicate Evolves(db: Db, db': Db) {
    && (forall u {:trigger u in db'.commands} {:trigger db'.commands[u]} ::
          u in db.commands ==> u in db'.commands && CommandEvolves(db.commands[u], db'.commands[u]))
    && (forall r {:trigger r in db'.runs} {:trigger db'.runs[r]} ::
          r in db.runs ==> r in db'.runs && RunEvolves(db.runs[r], db'.runs[r]))
    && (forall u {:trigger u in db'.links} {:trigger db'.links[u]} ::
          u in db.links ==> u in db'.links && db'.links[u] == db.links[u])
    && (forall k {:trigger k in db'.retained} {:trigger db'.retained[k]} ::
          k in db.retained ==> k in db'.retained && db'.retained[k] == db.retained[k])
  }

  lemma EvolvesTransitive(a: Db, b: Db, c: Db)
    requires Evolves(a, b) && Evolves(b, c)
    ensures Evolves(a, c)
  {
    forall u | u in a.commands ensures u in c.commands && CommandEvolves(a.commands[u], c.commands[u]) {
      assert u in b.commands;
    }
    forall r | r in a.runs ensures r in c.runs && RunEvolves(a.runs[r], c.runs[r]) {
      assert r in b.runs;
    }
    forall u | u in a.links ensures u in c.links && c.links[u] == a.links[u] {
      assert u in b.links;
    }
    forall k | k in a.retained ensures k in c.retained && c.retained[k] == a.retained[k] {
      assert k in b.retained;
    }
  }

  /** Evolution at time `now`: what is added has its deadline ahead. */
  ghost predicate Grows(db: Db, db': Db, now: nat) {
    Evolves(db, db') && forall u :: u in db'.commands && u !in db.commands ==> db'.commands[u].expiresAt > now
  }

  lemma GrowsTransitive(a: Db, b: Db, c: Db, now: nat)
    requires Grows(a, b, now) && Grows(b, c, now)
    ensures Grows(a, c, now)
  {
    EvolvesTransitive(a, b, c);
    forall u | u in c.commands && u !in a.commands ensures c.commands[u].expiresAt > now {
      assert u in b.commands ==> CommandEvolves(b.commands[u], c.commands[u]);
    }
  }

  lemma ExpireEvolves(db: Db, scope: Option<Serial>, now: nat)
    ensures Evolves(db, ExpireOverdue(db, scope, now))
  {
    forall r | r in db.runs ensures RunEvolves(db.runs[r], ExpireOverdue(db, scope, now).runs[r]) {
      ExpireRunStatus(db, r, scope, now);
    }
  }

  lemma FailEvolves(db: Db, r: Uuid, reason: Failure, now: nat)
    ensures Grows(db, FailRun(db, r, reason, now), now)
  {
  }

  lemma QueuePageEvolves(db: Db, r: Uuid, condition: SearchCondition, position: nat, refusal: Failure, now: nat,
                         draw: Uuid)
    requires r in db.runs && db.runs[r].createdBy.Some?
    ensures match QueuePage(db, r, condition, position, refusal, now, draw)
            case Ok(next) => Grows(db, next, now)
            case Err(_) => true
  {
    FailEvolves(db, r, refusal, now);
  }

  /** Rewriting one run row forward. */
  lemma RewriteEvolves(db: Db, r: Uuid, run: Run, now: nat)
    requires r in db.runs && RunEvolves(db.runs[r], run)
    ensures Grows(db, db.(runs := db.runs[r := run]), now)
  {
  }

  lemma TimeEvolves(db: Db, r: Uuid, time: Option<LocalTime>, clock: Clock, draw: Uuid)
    requires r in db.runs
    ensures match CompleteTime(db, r, time, clock, draw) case Ok(next) => Grows(db, next, clock.now) case Err(_) => true
  {
    var run := db.runs[r];
    var outcome := CompleteTime(db, r, time, clock, draw);
    if run.status.AwaitingTime? && run.createdBy.Some? && time.Some?
       && NewSearchRequest(run.searchId, 0, time.value).Some?
    {
      var started := run.(status := Running, searchStartedAt := Some(time.value.year2000),
                          searchEndedAt := Some(time.value.instant));
      var db' := db.(runs := db.runs[r := started]);
      var condition := NewSearchRequest(run.searchId, 0, time.value).value;
      assert outcome.Ok? ==> outcome == QueuePage(db', r, condition, 0, SearchNotQueued, clock.now, draw);
      RewriteEvolves(db, r, started, clock.now);
      QueuePageEvolves(db', r, condition, 0, SearchNotQueued, clock.now, draw);
      if outcome.Ok? {
        GrowsTransitive(db, db', outcome.value, clock.now);
      }
    } else {
      assert outcome.Ok? && exists reason :: outcome.value == FailRun(db, r, reason, clock.now);
      var reason :| outcome.value == FailRun(db, r, reason, clock.now);
      FailEvolves(db, r, reason, clock.now);
    }
  }

  lemma AdvanceEvolves(db: Db, r: Uuid, next: nat, page: Page, inserted: nat, clock: Clock, draw: Uuid)
    requires r in db.runs && db.runs[r].searchEndedAt.Some? && inserted <= |page.info| && Active(db.runs[r])
    requires db.runs[r].totalMatches.Some? ==> page.totalMatches == db.runs[r].totalMatches.value
    requires db.runs[r].status.Running?
    ensures match AdvanceRun(db, r, next, page, inserted, clock, draw)
            case Ok(after) => Grows(db, after, clock.now)
            case Err(_) => true
  {
    var run := db.runs[r];
    var counted := Counted(run, page, inserted);
    var outcome := AdvanceRun(db, r, next, page, inserted, clock, draw);
    var request := NewSearchRequest(run.searchId, next, LocalTime(run.searchEndedAt.value, clock.year2000));
    if page.status.More? && run.createdBy.Some? && request.Some? {
      var db' := db.(runs := db.runs[r := counted]);
      assert outcome.Ok? ==> outcome == QueuePage(db', r, request.value, next, PageNotQueued, clock.now, draw);
      RewriteEvolves(db, r, counted, clock.now);
      QueuePageEvolves(db', r, request.value, next, PageNotQueued, clock.now, draw);
      if outcome.Ok? {
        GrowsTransitive(db, db', outcome.value, clock.now);
      }
    } else {
      FailEvolves(db, r, AdministratorGoneBeforePage, clock.now);
      FailEvolves(db, r, TotalsMismatch, clock.now);
      RewriteEvolves(db, r, counted.(status := Finished, completedAt := Some(clock.now)), clock.now);
    }
  }

  lemma StoringGrows(db: Db, r: Uuid, command: Uuid, page: Page, now: nat)
    requires r in db.runs && forall i :: 0 <= i < |page.info| ==> page.info[i].projection.Some?
    ensures Grows(db, db.(retained := InsertRetained(db.retained, db.runs[r].terminal, r, command, page.info)), now)
  {
    InsertRetainedAccounts(db.retained, db.runs[r].terminal, r, command, page.info);
  }

  lemma StoreEvolves(db: Db, r: Uuid, next: nat, command: Uuid, page: Page, clock: Clock, draw: Uuid)
    requires r in db.runs && db.runs[r].searchEndedAt.Some? && db.runs[r].status.Running?
    requires db.runs[r].totalMatches.Some? ==> page.totalMatches == db.runs[r].totalMatches.value
    requires forall i :: 0 <= i < |page.info| ==> page.info[i].projection.Some?
    ensures match StorePage(db, r, next, command, page, clock, draw)
            case Ok(db') => Grows(db, db', clock.now)
            case Err(_) => true
  {
    hide AdvanceRun, InsertRetained, Grows;
    var outcome := StorePage(db, r, next, command, page, clock, draw);
    var rows := InsertRetained(db.retained, db.runs[r].terminal, r, command, page.info);
    var stored := db.(retained := rows);
    StoringGrows(db, r, command, page, clock.now);
    AdvanceEvolves(stored, r, next, page, |rows| - |db.retained|, clock, draw);
    if outcome.Ok? {
      GrowsTransitive(db, stored, outcome.value, clock.now);
    }
  }

  lemma PageEvolves(db: Db, r: Uuid, phase: Phase, command: Uuid, parsed: Option<Page>, clock: Clock, draw: Uuid)
    requires r in db.runs
    ensures match CompletePage(db, r, phase, command, parsed, clock, draw)
            case Ok(next) => Grows(db, next, clock.now)
            case Err(_) => true
  {
    var run := db.runs[r];
    if !run.status.Running? || phase.TimePhase? || run.searchStartedAt.None? || run.searchEndedAt.None? {
      FailEvolves(db, r, NoActivePage, clock.now);
    } else if parsed.None? {
      FailEvolves(db, r, NotAPageDocument, clock.now);
    } else if PageRefusal(run, phase.position, parsed.value).Some? {
      FailEvolves(db, r, PageRefusal(run, phase.position, parsed.value).value, clock.now);
    } else {
      StoreEvolves(db, r, phase.position + parsed.value.numOfMatches, command, parsed.value, clock, draw);
    }
  }

  lemma SyncEvolves(db: Db, terminal: Serial, result: CommandResult, clock: Clock)
    ensures match AdvanceSync(db, terminal, result, clock)
            case Ok(next) => Grows(db, next, clock.now)
            case Err(_) => true
  {
    if result.uuid in db.links && db.links[result.uuid].run in db.runs {
      var link := db.links[result.uuid];
      FailEvolves(db, link.run, UndecodableResult, clock.now);
      FailEvolves(db, link.run, WrongFormat, clock.now);
      if result.decoded.Decoded? {
        TimeEvolves(db, link.run, result.decoded.time, clock, result.draw);
        PageEvolves(db, link.run, link.phase, result.uuid, ParsePage(result.decoded.page), clock, result.draw);
      }
    }
  }

  lemma CompleteOneEvolves(db: Db, terminal: Serial, result: CommandResult, clock: Clock)
    ensures match CompleteOne(db, terminal, result, clock)
            case Ok(next) => Grows(db, next, clock.now)
            case Err(_) => true
  {
    var outcome := CompleteOne(db, terminal, result, clock);
    if result.uuid in db.commands && db.commands[result.uuid].status.Sent? && outcome.Ok? {
      var db' := db.(commands := db.commands[result.uuid := Complete(db.commands[result.uuid], result, clock.now)]);
      assert outcome == AdvanceSync(db', terminal, result, clock);
      SyncEvolves(db', terminal, result, clock);
      GrowsTransitive(db, db', outcome.value, clock.now);
    }
  }

  lemma {:induction false} CompleteAllEvolves(db: Db, terminal: Serial, results: seq<CommandResult>, clock: Clock)
    ensures match CompleteAll(db, terminal, results, clock)
            case Ok(next) => Grows(db, next, clock.now)
            case Err(_) => true
    decreases |results|
  {
    if results != [] {
      CompleteOneEvolves(db, terminal, results[0], clock);
      var first := CompleteOne(db, terminal, results[0], clock);
      if first.Ok? {
        CompleteAllEvolves(first.value, terminal, results[1..], clock);
        var all := CompleteAll(first.value, terminal, results[1..], clock);
        if all.Ok? {
          GrowsTransitive(db, first.value, all.value, clock.now);
        }
      }
    }
  }
}
