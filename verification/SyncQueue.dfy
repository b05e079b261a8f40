/**
 Queueing, handing out and expiring commands, stated over columns and constants.
 */
module SyncQueue {
  import opened Wrappers
  import opened Ordering
  import opened Terminals
  import opened SyncModel
  import opened SyncInvariant
  import opened SyncEvolution
  import opened SyncSteps

  // ----- Queueing ------------------------------------------------------------

  /** The transaction adds this command, waiting, and changes nothing else about commands. */
  predicate AddsCommand(db: Db, next: Db, uuid: Uuid, terminal: Serial, request: Request, now: nat, expiresAt: nat) {
    && uuid !in db.commands && |uuid| == 36
    && next.commands == db.commands[uuid := Command(terminal, request, Queued, now, expiresAt, None, None, None)]
  }

  /**
   A command is queued exactly for a named administrator that exists, a deadline ahead, an online terminal and a fresh
   UUID, and then nothing but the command is added.
   */
  lemma QueueCommandIff(db: Db, terminal: Serial, admin: Admin, request: Request, expiresAt: nat, now: nat, uuid: Uuid)
    ensures match QueueCommand(db, terminal, admin, request, expiresAt, now, uuid)
            case Ok(next) =>
              && admin.id != 0 && admin.name != "" && admin.id in db.admins && now < expiresAt
              && terminal in db.terminals && db.terminals[terminal] == Online
              && AddsCommand(db, next, uuid, terminal, request, now, expiresAt)
              && next == db.(commands := next.commands)
            case Err(_) =>
              || admin.id == 0 || admin.name == "" || admin.id !in db.admins || expiresAt <= now
              || terminal !in db.terminals || db.terminals[terminal] != Online
              || uuid in db.commands || |uuid| != 36
  {
  }

  /** The terminal's active run, if it has one, is not about to expire at `now`. */
  ghost predicate InProgress(db: Db, terminal: Serial, now: nat) {
    exists r, u :: r in db.runs && db.runs[r].terminal == terminal
                   && (db.runs[r].status.AwaitingTime? || db.runs[r].status.Running?)
                   && Drives(db, u, r) && now < db.commands[u].expiresAt
  }

  lemma ExpiredRuns(db: Db, terminal: Serial, now: nat)
    requires Inv(db)
    ensures var swept := ExpireOverdue(db, Some(terminal), now);
            (exists r :: r in swept.runs && ActiveFor(swept, r, terminal)) <==> InProgress(db, terminal, now)
  {
    hide ExpireOverdue, Inv, IsDriver;
    var swept := ExpireOverdue(db, Some(terminal), now);
    forall r | r in db.runs
      ensures r in swept.runs
      ensures swept.runs[r].terminal == db.runs[r].terminal
      ensures db.runs[r].terminal == terminal && Active(db.runs[r]) ==>
                exists u :: Drives(db, u, r)
                            && (Active(swept.runs[r]) <==> now < db.commands[u].expiresAt)
                            && forall v :: Drives(db, v, r) ==> v == u
      ensures !Active(db.runs[r]) ==> !Active(swept.runs[r])
    {
      RunExpires(db, r, Some(terminal), now);
    }
    if r :| r in swept.runs && ActiveFor(swept, r, terminal) {
      assert r in db.runs by { SweptRuns(db, Some(terminal), now); }
      assert Active(db.runs[r]);
      var u :| Drives(db, u, r) && (Active(swept.runs[r]) <==> now < db.commands[u].expiresAt);
      assert InProgress(db, terminal, now);
    }
    if InProgress(db, terminal, now) {
      var r, u :| r in db.runs && db.runs[r].terminal == terminal && Active(db.runs[r])
                  && Drives(db, u, r) && now < db.commands[u].expiresAt;
      assert ActiveFor(swept, r, terminal);
    }
  }

  /**
   A sync is started exactly for a named administrator that exists, an online terminal without a sync in progress and
   fresh UUIDs. It then waits for the terminal's time, asked for by a command that lives for 300 seconds.
   */
  lemma QueueSyncIff(db: Db, terminal: Serial, admin: Admin, now: nat, r: Uuid, u: Uuid)
    requires Inv(db)
    ensures match QueueSync(db, terminal, admin, now, r, u)
            case Ok(next) =>
              && admin.id != 0 && admin.name != "" && admin.id in db.admins
              && terminal in db.terminals && db.terminals[terminal] == Online && !InProgress(db, terminal, now)
              && r !in db.runs && |r| == 36 && u !in db.commands && |u| == 36
              && var swept := ExpireOverdue(db, Some(terminal), now);
                 && next.runs == swept.runs[r := Run(terminal, Some(admin.id), admin.name, r, AwaitingTime, None, None,
                                                     None, 0, 0, 0, None, None)]
                 && next.links == db.links[u := Link(r, TimePhase)] && next.retained == db.retained
                 && AddsCommand(swept, next, u, terminal, SystemTime, now, now + 300)
            case Err(_) =>
              || admin.id == 0 || admin.name == "" || admin.id !in db.admins
              || terminal !in db.terminals || db.terminals[terminal] != Online || InProgress(db, terminal, now)
              || r in db.runs || |r| != 36 || u in db.commands || |u| != 36
  {
    hide Inv, InProgress, Active;
    ExpiredRuns(db, terminal, now);
    SweptRuns(db, Some(terminal), now);
    assert u in db.links ==> u in db.commands by { LinkedIsCommand(db, u); }
  }

  lemma LinkedIsCommand(db: Db, u: Uuid)
    requires Inv(db)
    ensures u in db.links ==> u in db.commands
  {
    if u in db.links {
      assert LinkOk(db, u);
    }
  }

  lemma SweptRuns(db: Db, scope: Option<Serial>, now: nat)
    ensures ExpireOverdue(db, scope, now).runs.Keys == db.runs.Keys
  {
  }

  // ----- Expiry --------------------------------------------------------------

  /** Exactly the live commands in scope at or past their deadline expire, and nothing else about them changes. */
  lemma CommandExpires(db: Db, u: Uuid, scope: Option<Serial>, now: nat)
    requires u in db.commands
    ensures var c := db.commands[u];
            var c' := ExpireOverdue(db, scope, now).commands[u];
            var due := && (c.status == Queued || c.status == Sent) && c.expiresAt <= now
                       && (scope == None || scope == Some(c.terminal));
            c' == if due then c.(status := Expired, completedAt := Some(now)) else c
  {
  }

  /**
   An active run in scope ends exactly when the command that drives it is at or past its deadline: as one that got no
   answer if the command was handed out, as one that was never fetched otherwise. Its counts stay. Other runs stay as
   they are.
   */
  lemma RunExpires(db: Db, r: Uuid, scope: Option<Serial>, now: nat)
    requires Inv(db) && r in db.runs
    ensures r in ExpireOverdue(db, scope, now).runs
    ensures var run, run' := db.runs[r], ExpireOverdue(db, scope, now).runs[r];
            if Active(run) && (scope == None || scope == Some(run.terminal)) then
              exists u :: && Drives(db, u, r) && (forall v :: Drives(db, v, r) ==> v == u)
                          && run' == if now < db.commands[u].expiresAt then run
                                     else run.(status := Failed, completedAt := Some(now),
                                               failure := Some(if db.commands[u].status == Sent
                                                               then ExpiredAwaitingResult
                                                               else ExpiredBeforeDelivery))
            else run' == run
  {
    hide RunOk, AccountsOk, PositionsDistinct, OneActivePerTerminal;
    assert Settled(db, r);
    var run := db.runs[r];
    forall u | u in db.links && db.links[u].run == r
      ensures u in db.commands && db.commands[u].terminal == run.terminal
    {
      assert LinkOk(db, u);
    }
    if Active(run) {
      var u :| IsDriver(db, u, r);
      assert CommandOk(db.commands[u]);
      forall v | OverdueFor(db, v, r, scope, now) ensures v == u {
        assert Drives(db, v, r);
      }
      assert OverdueFor(db, u, r, scope, now) <==>
             db.commands[u].expiresAt <= now && (scope == None || scope == Some(run.terminal));
      assert Drives(db, u, r);
    } else {
      forall v ensures !OverdueFor(db, v, r, scope, now) {
        assert !Drives(db, v, r);
      }
    }
  }

  // ----- Handing out ---------------------------------------------------------

  /** The command waits for this terminal and its deadline is ahead. */
  predicate WaitsFor(c: Command, terminal: Serial, now: nat) {
    c.terminal == terminal && c.status == Queued && now < c.expiresAt
  }

  /**
   A claim of 1 to 20 commands hands out the terminal's oldest waiting commands, by creation and then by UUID, and
   marks those, and no others, as sent now.
   */
  lemma ClaimExactly(db: Db, terminal: Serial, limit: int, now: nat)
    ensures match ClaimCommands(db, terminal, limit, now)
            case Err(_) => limit < 1 || limit > 20
            case Ok(claim) =>
              && 1 <= limit <= 20 && |claim.uuids| <= limit
              && (forall u :: u in claim.uuids ==> u in db.commands && WaitsFor(db.commands[u], terminal, now))
              && (forall i, j :: 0 <= i < j < |claim.uuids| ==>
                    Before(db.commands, claim.uuids[i], claim.uuids[j]))
              && (forall v :: v in db.commands && WaitsFor(db.commands[v], terminal, now) && v !in claim.uuids ==>
                    && |claim.uuids| == limit
                    && forall i :: 0 <= i < |claim.uuids| ==> Before(db.commands, claim.uuids[i], v))
              && claim.db.commands.Keys == db.commands.Keys
              && (forall u :: u in db.commands ==>
                    claim.db.commands[u]
                    == if u in claim.uuids then db.commands[u].(status := Sent, sentAt := Some(now))
                       else ExpireOverdue(db, Some(terminal), now).commands[u])
  {
    hide Picked;
    if 1 <= limit <= 20 {
      var swept := ExpireOverdue(db, Some(terminal), now);
      PickedOldest(swept, terminal, limit, now);
      var picked := Picked(swept, terminal, limit, now);
      forall u | u in db.commands
        ensures Claimable(swept.commands[u], terminal, now) <==> WaitsFor(db.commands[u], terminal, now)
        ensures Claimable(swept.commands[u], terminal, now) ==> swept.commands[u] == db.commands[u]
      {
        CommandExpires(db, u, Some(terminal), now);
      }
      forall i | 0 <= i < |picked|
        ensures picked[i] in db.commands && swept.commands[picked[i]] == db.commands[picked[i]]
      {
        assert picked[i] in picked;
      }
    }
  }

  /** The command was created earlier, or at the same time with a smaller UUID. */
  predicate Before(commands: map<Uuid, Command>, u: Uuid, v: Uuid) {
    && u in commands && v in commands
    && (commands[u].createdAt < commands[v].createdAt
        || (commands[u].createdAt == commands[v].createdAt && TextLess(u, v)))
  }

  // ----- Taking results ------------------------------------------------------

  /**
   A result is taken exactly as it came, and for good: the command is completed now with its format and text, whatever
   else the result brings about. A command that is already completed is left alone.
   */
  lemma ResultRecorded(db: Db, terminal: Serial, result: CommandResult, clock: Clock)
    requires CompleteOne(db, terminal, result, clock).Ok?
    ensures var next := CompleteOne(db, terminal, result, clock).value;
            && result.uuid in db.commands && db.commands[result.uuid].terminal == terminal
            && result.uuid in next.commands
            && match db.commands[result.uuid].status
               case Sent =>
                 next.commands[result.uuid]
                 == db.commands[result.uuid].(status := Completed, completedAt := Some(clock.now),
                                              response := Some(Response(result.format, result.text)))
               case Completed =>
                 next == db && db.commands[result.uuid].response == Some(Response(result.format, result.text))
               case _ => false
  {
    hide AdvanceSync;
    if db.commands[result.uuid].status.Sent? {
      var after := AfterResult(db, result, clock.now);
      SyncEvolves(after, terminal, result, clock);
      assert CompleteOne(db, terminal, result, clock) == AdvanceSync(after, terminal, result, clock);
    }
  }
}
