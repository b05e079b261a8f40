/** Every transaction of the command queue keeps the invariant of SyncInvariant. */
module SyncSteps {
  import opened Wrappers
  import opened Ordering
  import opened RetainedSearch
  import opened Terminals
  import opened SyncModel
  import opened SyncInvariant
  import opened SyncEvolution

  // ----- Completing one command ----------------------------------------------

  /** No live command of the terminal has reached its deadline, as after an expiry sweep at `now`. */
  ghost predicate Timely(db: Db, terminal: Serial, now: nat) {
    forall u :: u in db.commands && db.commands[u].terminal == terminal && Live(db.commands[u]) ==>
      db.commands[u].expiresAt > now
  }

  lemma ExpireIsTimely(db: Db, terminal: Serial, now: nat)
    ensures Timely(ExpireOverdue(db, Some(terminal), now), terminal, now)
  {
  }

  lemma GrowthIsTimely(db: Db, db': Db, terminal: Serial, now: nat)
    requires Timely(db, terminal, now) && Grows(db, db', now)
    ensures Timely(db', terminal, now)
  {
    forall u | u in db'.commands && db'.commands[u].terminal == terminal && Live(db'.commands[u])
      ensures db'.commands[u].expiresAt > now
    {
      assert u in db.commands ==> CommandEvolves(db.commands[u], db'.commands[u]);
    }
  }

  /** A sent sync command drives an active run and is the one the run expects. */
  lemma SentDrives(db: Db, u: Uuid)
    requires Inv(db) && u in db.links && u in db.commands && db.commands[u].status.Sent?
    ensures var r := db.links[u].run;
            && r in db.runs && Active(db.runs[r]) && IsDriver(db, u, r)
            && db.runs[r].terminal == db.commands[u].terminal
  {
    var r := db.links[u].run;
    assert LinkOk(db, u);
    assert Settled(db, r);
    assert Drives(db, u, r);
  }

  ghost function AfterResult(db: Db, result: CommandResult, now: nat): Db
    requires result.uuid in db.commands
  {
    db.(commands := db.commands[result.uuid := Complete(db.commands[result.uuid], result, now)])
  }

  /** Once its result is stored, the run stands between two commands and everything else is as before. */
  lemma ResultOpens(db: Db, result: CommandResult, now: nat)
    requires Inv(db) && result.uuid in db.links && result.uuid in db.commands
    requires db.commands[result.uuid].status.Sent? && db.commands[result.uuid].expiresAt > now
    ensures Between(AfterResult(db, result, now), db.links[result.uuid].run)
  {
    SentDrives(db, result.uuid);
    var u, r, db' := result.uuid, db.links[result.uuid].run, AfterResult(db, result, now);
    assert Settled(db, r);
    forall v | v in db'.commands ensures CommandOk(db'.commands[v]) {
      assert CommandOk(db.commands[v]);
    }
    forall v | v in db'.links ensures LinkOk(db', v) {
      assert LinkOk(db, v);
    }
    forall v ensures !Drives(db', v, r) {
      assert Drives(db', v, r) ==> Drives(db, v, r);
    }
    forall q | q in db'.runs && q != r ensures Settled(db', q) {
      assert PageLinks(db', q) == PageLinks(db, q);
      assert forall v :: Drives(db', v, q) <==> Drives(db, v, q);
      SettledFrame(db, db', q);
    }
  }

  lemma SyncKeepsInv(db: Db, terminal: Serial, result: CommandResult, clock: Clock)
    requires Inv(db) && result.uuid in db.links && result.uuid in db.commands
    requires db.commands[result.uuid].status.Sent? && db.commands[result.uuid].expiresAt > clock.now
    requires db.commands[result.uuid].terminal == terminal
    ensures GoodOutcome(AdvanceSync(AfterResult(db, result, clock.now), terminal, result, clock), db.commands,
                        result.draw)
  {
    SentDrives(db, result.uuid);
    ResultOpens(db, result, clock.now);
    var link := db.links[result.uuid];
    var db' := AfterResult(db, result, clock.now);
    assert Settled(db, link.run);
    assert PageLinks(db', link.run) == PageLinks(db, link.run);
    var outcome := AdvanceSync(db', terminal, result, clock);
    if result.decoded.NotBase64? {
      assert outcome == Ok(FailRun(db', link.run, UndecodableResult, clock.now));
      FailSettles(db', link.run, UndecodableResult, clock.now);
    } else if link.phase.TimePhase? {
      assert outcome == CompleteTime(db', link.run, result.decoded.time, clock, result.draw);
      TimeSettles(db', link.run, result.decoded.time, clock, result.draw);
    } else if result.format.Some? && result.format.value != "jsonData" {
      assert outcome == Ok(FailRun(db', link.run, WrongFormat, clock.now));
      FailSettles(db', link.run, WrongFormat, clock.now);
    } else {
      var parsed := ParsePage(result.decoded.page);
      assert outcome == CompletePage(db', link.run, link.phase, result.uuid, parsed, clock, result.draw);
      PageSettles(db', link.run, result.uuid, parsed, clock, result.draw);
    }
  }

  /** The errors a result can be rejected with; being linked elsewhere or to an inactive run is not among them. */
  predicate Explained(e: StoreError, db: Db, draw: Uuid) {
    || e.UnknownCommand? || e.ConflictingResult? || e.NotSent? || e.SearchNotBuilt?
    || (e.ConstraintViolated? && (draw in db.commands || !UuidForm(draw)))
  }

  lemma CompleteOneKeepsInv(db: Db, terminal: Serial, result: CommandResult, clock: Clock)
    requires Inv(db) && Timely(db, terminal, clock.now)
    ensures match CompleteOne(db, terminal, result, clock)
            case Ok(next) => Inv(next) && Timely(next, terminal, clock.now)
            case Err(e) => Explained(e, db, result.draw)
  {
    var outcome := CompleteOne(db, terminal, result, clock);
    CompleteOneEvolves(db, terminal, result, clock);
    if outcome.Ok? {
      GrowthIsTimely(db, outcome.value, terminal, clock.now);
    }
    if result.uuid in db.commands && db.commands[result.uuid].terminal == terminal
       && db.commands[result.uuid].status.Sent?
    {
      var db' := AfterResult(db, result, clock.now);
      assert outcome == AdvanceSync(db', terminal, result, clock);
      if result.uuid in db.links {
        SyncKeepsInv(db, terminal, result, clock);
      } else {
        forall v | v in db'.commands ensures CommandOk(db'.commands[v]) {
          assert CommandOk(db.commands[v]);
        }
        CommandsChangeKeepsInv(db, db');
      }
    }
  }

  lemma {:induction false} CompleteAllKeepsInv(db: Db, terminal: Serial, results: seq<CommandResult>, clock: Clock)
    requires Inv(db) && Timely(db, terminal, clock.now)
    ensures match CompleteAll(db, terminal, results, clock)
            case Ok(next) => Inv(next) && Timely(next, terminal, clock.now)
            case Err(e) => !e.LinkedToAnotherTerminal? && !e.RunNotActive?
    decreases |results|
  {
    if results != [] {
      CompleteOneKeepsInv(db, terminal, results[0], clock);
      var first := CompleteOne(db, terminal, results[0], clock);
      if first.Ok? {
        CompleteAllKeepsInv(first.value, terminal, results[1..], clock);
      }
    }
  }

  lemma CompleteCommandsKeepsInv(db: Db, terminal: Serial, results: seq<CommandResult>, clock: Clock)
    requires Inv(db)
    ensures match CompleteCommands(db, terminal, results, clock)
            case Ok(next) => Inv(next)
            case Err(e) => !e.LinkedToAnotherTerminal? && !e.RunNotActive?
  {
    ExpireKeepsInv(db, Some(terminal), clock.now);
    ExpireIsTimely(db, terminal, clock.now);
    CompleteAllKeepsInv(ExpireOverdue(db, Some(terminal), clock.now), terminal, results, clock);
  }

  // ----- Starting a sync -----------------------------------------------------

  ghost function Started(db: Db, r: Uuid, run: Run, u: Uuid, command: Command): Db {
    db.(runs := db.runs[r := run], commands := db.commands[u := command], links := db.links[u := Link(r, TimePhase)])
  }

  lemma StartKeepsOthers(db: Db, r: Uuid, run: Run, u: Uuid, command: Command, q: Uuid)
    requires r !in db.runs && u !in db.commands && u !in db.links && q in db.runs && Settled(db, q)
    ensures Settled(Started(db, r, run, u, command), q)
  {
    var db' := Started(db, r, run, u, command);
    assert PageLinks(db', q) == PageLinks(db, q);
    assert forall v :: Drives(db', v, q) <==> Drives(db, v, q);
    SettledFrame(db, db', q);
  }

  lemma StartSettles(db: Db, r: Uuid, run: Run, u: Uuid, command: Command)
    requires Tables(db) && r !in db.runs && u !in db.commands && command.status.Queued?
    requires run.status.AwaitingTime? && RunOk(db.(runs := db.runs[r := run]), r)
    ensures Settled(Started(db, r, run, u, command), r)
  {
    var db' := Started(db, r, run, u, command);
    forall v | v in db.links ensures db.links[v].run != r {
      assert LinkOk(db, v);
    }
    assert PageLinks(db', r) == {};
    assert RecordsOf(db'.retained, r) == {};
    assert IsDriver(db', u, r);
  }

  lemma StartKeepsTables(db: Db, r: Uuid, run: Run, u: Uuid, command: Command)
    requires Tables(db) && r !in db.runs && u !in db.commands && CommandOk(command) && command.terminal == run.terminal
    requires command.request.SystemTime?
    requires forall q :: q in db.runs ==> !ActiveFor(db, q, run.terminal)
    ensures u !in db.links
    ensures Tables(Started(db, r, run, u, command))
  {
    var db' := Started(db, r, run, u, command);
    forall v | v in db.links ensures v in db.commands && LinkOk(db', v) {
      assert LinkOk(db, v);
    }
    forall v | v in db'.commands ensures CommandOk(db'.commands[v]) {
      assert v in db.commands ==> CommandOk(db.commands[v]);
    }
    forall p, q | p in db'.runs && q in db'.runs && Rivals(db'.runs[p], db'.runs[q]) ensures p == q {
      assert p in db.runs ==> !ActiveFor(db, p, run.terminal);
      assert q in db.runs ==> !ActiveFor(db, q, run.terminal);
    }
  }

  lemma StartEvolves(db: Db, r: Uuid, run: Run, u: Uuid, command: Command)
    requires r !in db.runs && u !in db.commands && u !in db.links
    ensures Evolves(db, Started(db, r, run, u, command))
  {
  }

  lemma StartKeepsInv(db: Db, r: Uuid, run: Run, u: Uuid, command: Command)
    requires Inv(db) && r !in db.runs && u !in db.commands
    requires run.status.AwaitingTime? && RunOk(db.(runs := db.runs[r := run]), r)
    requires command.status.Queued? && CommandOk(command) && command.terminal == run.terminal
    requires command.request.SystemTime?
    requires forall q :: q in db.runs ==> !ActiveFor(db, q, run.terminal)
    ensures Inv(Started(db, r, run, u, command)) && Evolves(db, Started(db, r, run, u, command))
  {
    StartKeepsTables(db, r, run, u, command);
    StartSettles(db, r, run, u, command);
    StartEvolves(db, r, run, u, command);
    var next := Started(db, r, run, u, command);
    forall q | q in next.runs ensures Settled(next, q) {
      if q != r {
        StartKeepsOthers(db, r, run, u, command, q);
      }
    }
  }

  /** A queued sync adds one run that waits for the terminal's time, its command and their link. */
  lemma QueueSyncStarts(db: Db, terminal: Serial, admin: Admin, now: nat, r: Uuid, u: Uuid)
    requires QueueSync(db, terminal, admin, now, r, u).Ok?
    ensures var swept := ExpireOverdue(db, Some(terminal), now);
            var run := Run(terminal, Some(admin.id), admin.name, r, AwaitingTime, None, None, None, 0, 0, 0, None,
                           None);
            var command := Command(terminal, SystemTime, Queued, now, now + SYNC_COMMAND_TTL, None, None, None);
            && QueueSync(db, terminal, admin, now, r, u) == Ok(Started(swept, r, run, u, command))
            && r !in swept.runs && u !in swept.commands
            && RunOk(swept.(runs := swept.runs[r := run]), r)
            && forall q :: q in swept.runs ==> !ActiveFor(swept, q, terminal)
  {
  }

  lemma QueueSyncKeepsInv(db: Db, terminal: Serial, admin: Admin, now: nat, runUuid: Uuid, commandUuid: Uuid)
    requires Inv(db)
    ensures match QueueSync(db, terminal, admin, now, runUuid, commandUuid)
            case Ok(next) => Inv(next) && Evolves(db, next)
            case Err(_) => true
  {
    var outcome := QueueSync(db, terminal, admin, now, runUuid, commandUuid);
    if outcome.Ok? {
      var swept := ExpireOverdue(db, Some(terminal), now);
      QueueSyncStarts(db, terminal, admin, now, runUuid, commandUuid);
      ExpireKeepsInv(db, Some(terminal), now);
      ExpireEvolves(db, Some(terminal), now);
      StartKeepsInv(swept, runUuid,
                    Run(terminal, Some(admin.id), admin.name, runUuid, AwaitingTime, None, None, None, 0, 0, 0, None,
                        None),
                    commandUuid,
                    Command(terminal, SystemTime, Queued, now, now + SYNC_COMMAND_TTL, None, None, None));
      EvolvesTransitive(db, swept, outcome.value);
    }
  }

  // ----- Claiming ------------------------------------------------------------

  predicate Older(db: Db, u: Uuid, v: Uuid)
    requires u in db.commands && v in db.commands
  {
    Less(CommandKey(db, u), CommandKey(db, v))
  }

  ghost predicate AllClaimable(db: Db, picked: seq<Uuid>, terminal: Serial, now: nat) {
    forall u :: u in picked ==> u in db.commands && Claimable(db.commands[u], terminal, now)
  }

  lemma PickedClaimable(db: Db, terminal: Serial, limit: nat, now: nat)
    ensures AllClaimable(db, Picked(db, terminal, limit, now), terminal, now)
  {
    var all := SortedKeys(ClaimableKeys(db, terminal, now));
    forall u | u in Picked(db, terminal, limit, now)
      ensures u in db.commands && Claimable(db.commands[u], terminal, now)
    {
      var i :| 0 <= i < |all| && u == all[i].text;
      assert all[i] in ClaimableKeys(db, terminal, now);
    }
  }

  /** Claims come oldest first, each command once, and skip no claimable command older than one they take. */
  lemma PickedOldest(db: Db, terminal: Serial, limit: nat, now: nat)
    ensures var picked := Picked(db, terminal, limit, now);
            && AllClaimable(db, picked, terminal, now)
            && |picked| <= limit
            && (forall i, j :: 0 <= i < j < |picked| ==> Older(db, picked[i], picked[j]) && picked[i] != picked[j])
            && (forall v :: v in db.commands && Claimable(db.commands[v], terminal, now) && v !in picked ==>
                  |picked| == limit && forall i :: 0 <= i < |picked| ==> Older(db, picked[i], v))
  {
    var picked := Picked(db, terminal, limit, now);
    var all := SortedKeys(ClaimableKeys(db, terminal, now));
    PickedClaimable(db, terminal, limit, now);
    forall i | 0 <= i < |picked| ensures CommandKey(db, picked[i]) == all[i] {
      assert all[i] in ClaimableKeys(db, terminal, now);
      assert picked[i] in picked;
    }
    forall i, j | 0 <= i < j < |picked| ensures Older(db, picked[i], picked[j]) && picked[i] != picked[j] {
      LessTotal(all[i], all[j]);
    }
    forall v | v in db.commands && Claimable(db.commands[v], terminal, now) && v !in picked
      ensures |picked| == limit && forall i :: 0 <= i < |picked| ==> Older(db, picked[i], v)
    {
      assert CommandKey(db, v) in ClaimableKeys(db, terminal, now);
      assert forall i :: 0 <= i < |picked| ==> all[i].text == picked[i] != v;
      var k :| 0 <= k < |all| && all[k] == CommandKey(db, v);
    }
  }

  lemma SendEvolves(db: Db, picked: seq<Uuid>, now: nat)
    requires forall u :: u in picked ==> u in db.commands && db.commands[u].status.Queued?
    ensures Evolves(db, SendAll(db, picked, now))
  {
  }

  lemma ClaimKeepsInv(db: Db, terminal: Serial, limit: int, now: nat)
    requires Inv(db)
    ensures match ClaimCommands(db, terminal, limit, now)
            case Ok(claim) => Inv(claim.db) && Evolves(db, claim.db)
            case Err(_) => true
  {
    var swept := ExpireOverdue(db, Some(terminal), now);
    ExpireKeepsInv(db, Some(terminal), now);
    ExpireEvolves(db, Some(terminal), now);
    if 1 <= limit <= 20 {
      var picked := Picked(swept, terminal, limit, now);
      PickedClaimable(swept, terminal, limit, now);
      SendKeepsInv(swept, picked, now);
      SendEvolves(swept, picked, now);
      EvolvesTransitive(db, swept, SendAll(swept, picked, now));
    }
  }

  // ----- The rest ------------------------------------------------------------

  lemma RemoveAdminSettles(db: Db, id: nat, r: Uuid)
    requires r in db.runs && Settled(db, r)
    ensures Settled(RemoveAdmin(db, id), r)
  {
    var db' := RemoveAdmin(db, id);
    assert PageLinks(db', r) == PageLinks(db, r);
    assert forall v :: Drives(db', v, r) <==> Drives(db, v, r);
    if Active(db.runs[r]) {
      var u :| IsDriver(db, u, r);
      assert IsDriver(db', u, r);
    }
  }

  lemma RemoveAdminKeepsTables(db: Db, id: nat)
    requires Tables(db)
    ensures Tables(RemoveAdmin(db, id)) && Evolves(db, RemoveAdmin(db, id))
  {
    var db' := RemoveAdmin(db, id);
    forall u | u in db'.links ensures LinkOk(db', u) {
      assert LinkOk(db, u);
    }
    forall u | u in db'.commands ensures CommandOk(db'.commands[u]) {
      assert CommandOk(db.commands[u]);
    }
  }

  lemma RemoveAdminKeepsInv(db: Db, id: nat)
    requires Inv(db)
    ensures Inv(RemoveAdmin(db, id)) && Evolves(db, RemoveAdmin(db, id))
  {
    RemoveAdminKeepsTables(db, id);
    forall r | r in db.runs ensures Settled(RemoveAdmin(db, id), r) {
      RemoveAdminSettles(db, id, r);
    }
  }

  /** Terminal states and new administrators are outside the invariant. */
  lemma SurroundingsKeepInv(db: Db, terminals: map<Serial, Connection>, admins: set<nat>)
    requires Inv(db) && db.terminals.Keys <= terminals.Keys && db.admins <= admins
    ensures var db' := db.(terminals := terminals, admins := admins);
            Inv(db') && Evolves(db, db')
  {
    hide Asks, Lifecycle, CountersOk;
    var db' := db.(terminals := terminals, admins := admins);
    forall u | u in db'.links ensures LinkOk(db', u) {
      assert LinkOk(db, u);
    }
    forall r | r in db'.runs ensures Settled(db', r) {
      assert PageLinks(db', r) == PageLinks(db, r);
      SettledFrame(db, db', r);
    }
  }

  lemma ApplyKeepsInv(db: Db, step: Step)
    requires Inv(db)
    ensures Inv(Apply(db, step))
    ensures Evolves(db, Apply(db, step))
  {
    match step {
      case StepQueueSync(terminal, admin, now, runUuid, commandUuid) =>
        QueueSyncKeepsInv(db, terminal, admin, now, runUuid, commandUuid);
      case StepQueueCommand(terminal, admin, request, expiresAt, now, uuid) =>
        QueueCommandKeepsInv(db, terminal, admin, request, expiresAt, now, uuid);
        QueueCommandEvolves(db, terminal, admin, request, expiresAt, now, uuid);
      case StepClaim(terminal, limit, now) =>
        ClaimKeepsInv(db, terminal, limit, now);
      case StepComplete(terminal, results, clock) =>
        CompleteCommandsKeepsInv(db, terminal, results, clock);
        CompleteCommandsEvolves(db, terminal, results, clock);
      case StepSweep(now) =>
        ExpireKeepsInv(db, None, now);
        ExpireEvolves(db, None, now);
      case StepTerminal(terminal, connection) =>
        SurroundingsKeepInv(db, db.terminals[terminal := connection], db.admins);
      case StepAddAdmin(id) =>
        SurroundingsKeepInv(db, db.terminals, db.admins + {id});
      case StepRemoveAdmin(id) =>
        RemoveAdminKeepsInv(db, id);
    }
  }

  lemma QueueCommandEvolves(db: Db, terminal: Serial, admin: Admin, request: Request, expiresAt: nat, now: nat,
                            uuid: Uuid)
    ensures Evolves(db, Commit(db, QueueCommand(db, terminal, admin, request, expiresAt, now, uuid)))
  {
  }

  lemma CompleteCommandsEvolves(db: Db, terminal: Serial, results: seq<CommandResult>, clock: Clock)
    ensures Evolves(db, Commit(db, CompleteCommands(db, terminal, results, clock)))
  {
    var swept := ExpireOverdue(db, Some(terminal), clock.now);
    ExpireEvolves(db, Some(terminal), clock.now);
    CompleteAllEvolves(swept, terminal, results, clock);
    var outcome := CompleteAll(swept, terminal, results, clock);
    if outcome.Ok? {
      EvolvesTransitive(db, swept, outcome.value);
    }
  }
}
