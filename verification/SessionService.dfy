/**
 The PushSDK handlers as the code performs them: fields of the session in memory
 change first, the store call follows, and a failed call is undone field by
 field. Each handler is proved to do what SessionModel says and to keep the
 invariant.
 */
module SessionService {
  import opened Wrappers
  import opened Terminals
  import M = SessionModel
  import opened SessionInvariant

  class Service {
    // Memory
    var up: bool
    var config: map<Serial, M.Terminal>
    var sessions: map<Serial, M.Session>
    var gauge: int
    // Database
    var checkpoints: map<Serial, M.Checkpoint>
    var status: map<Serial, Connection>
    // Source of nonces
    var nextNonce: M.Nonce
    // What has happened
    ghost var accepted: seq<M.Proof>
    ghost var logins: seq<M.Proof>
    ghost var leaked: nat

    ghost function View(): M.State
      reads this
    {
      M.State(up, config, sessions, gauge, checkpoints, status, nextNonce, accepted, logins, leaked)
    }

    ghost predicate Valid()
      reads this
    {
      Inv(View())
    }

    /** A process that has not started, over a database left by earlier ones. */
    constructor (checkpoints: map<Serial, M.Checkpoint>, status: map<Serial, Connection>, nextNonce: M.Nonce)
      requires forall t :: t in checkpoints ==> M.CheckpointBelow(checkpoints[t], nextNonce)
      ensures M.Initial(View()) && Valid()
      ensures this.checkpoints == checkpoints && this.status == status && this.nextNonce == nextNonce
    {
      up, config, sessions, gauge := false, map[], map[], 0;
      this.checkpoints, this.status, this.nextNonce := checkpoints, status, nextNonce;
      accepted, logins, leaked := [], [], 0;
      new;
      InitialInv(View());
    }

    method Crash()
      modifies this`up, this`sessions, this`gauge, this`leaked
      ensures View() == M.Crash(old(View()))
    {
      up, sessions, gauge, leaked := false, map[], 0, 0;
    }

    method DrawNonce() returns (nonce: M.Nonce)
      modifies this`nextNonce
      ensures nonce == old(nextNonce) && nextNonce == old(nextNonce) + 1
    {
      nonce := nextNonce;
      nextNonce := nextNonce + 1;
    }

    /** Writes the terminal's session as it now is in memory, unless the table's check refuses it. */
    method PersistSession(t: Serial, fate: M.Fate) returns (ok: bool)
      requires t in sessions && t in config && !fate.Dies?
      modifies this`checkpoints
      ensures ok == (fate.Commits? && M.Storable(sessions[t]))
      ensures View() == if ok then M.Persist(old(View()), t) else old(View())
    {
      ok := fate.Commits? && M.Storable(sessions[t]);
      if ok {
        checkpoints := checkpoints[t := M.PersistentState(sessions[t], config[t])];
      }
    }

    method Transition(t: Serial, connection: Connection, fate: M.Fate) returns (ok: bool)
      requires !fate.Dies?
      modifies this`status
      ensures ok == fate.Commits?
      ensures View() == if ok then M.SetStatus(old(View()), t, connection) else old(View())
    {
      ok := fate.Commits?;
      if ok {
        status := status[t := connection];
      }
    }

    method AuthInfo(t: Serial, mode: Option<M.Mode>, now: nat, persist: M.Fate, transition: M.Fate, restore: M.Fate)
      returns (reply: M.Reply)
      requires Valid()
      modifies this
      ensures Valid()
      ensures M.Outcome(View(), reply) == M.AuthInfo(old(View()), t, mode, now, persist, transition, restore)
    {
      AuthInfoKeepsInv(View(), t, mode, now, persist, transition, restore);
      reply := HandleAuthInfo(t, mode, now, persist, transition, restore);
    }

    method HandleAuthInfo(t: Serial, mode: Option<M.Mode>, now: nat, persist: M.Fate, transition: M.Fate,
                          restore: M.Fate)
      returns (reply: M.Reply)
      modifies this
      ensures M.Outcome(View(), reply) == M.AuthInfo(old(View()), t, mode, now, persist, transition, restore)
    {
      hide M.FinishAuthInfo, M.Storable, M.PersistentState, M.NewSession;
      if !up || t !in config || mode.None? {
        return M.Rejected;
      }
      var hadPrevious := t in sessions;
      var previous := if hadPrevious then Some(sessions[t]) else None;
      var replacedOnline := hadPrevious && sessions[t].online;
      if persist.Dies? {
        StartSession(t, mode.value, now);
        Crash();
        return M.Died;
      }
      var ok := StartPersisted(t, mode.value, now, previous, persist);
      if !ok {
        return M.Rejected;
      }
      reply := FinishAuthInfo(t, previous, replacedOnline, transition, restore);
    }

    /** Starts the session and writes it; when that fails, memory is as before but for the nonces drawn. */
    method StartPersisted(t: Serial, mode: M.Mode, now: nat, previous: Option<M.Session>, persist: M.Fate)
      returns (ok: bool)
      requires t in config && !persist.Dies?
      requires previous == if t in sessions then Some(sessions[t]) else None
      modifies this`sessions, this`nextNonce, this`checkpoints
      ensures ok == persist.Commits?
      ensures var drawn := old(View()).(nextNonce := old(nextNonce) + 2);
              View() == if ok then M.Persist(M.SetSession(drawn, t, M.NewSession(old(View()), mode, now)), t) else drawn
    {
      hide M.Storable, M.PersistentState, M.NewSession;
      StartSession(t, mode, now);
      ok := PersistSession(t, persist);
      if !ok {
        Replace(t, previous);
        assert sessions == old(sessions);
      }
    }

    method StartSession(t: Serial, mode: M.Mode, now: nat)
      modifies this`sessions, this`nextNonce
      ensures View() == M.SetSession(old(View()).(nextNonce := old(nextNonce) + 2), t,
                                     M.NewSession(old(View()), mode, now))
      ensures t in sessions && M.Storable(sessions[t])
    {
      var salt := DrawNonce();
      var challenge := DrawNonce();
      sessions := sessions[t := M.Session(mode, salt, challenge, None, M.ITERATIONS, now, None, false, false)];
    }

    method FinishAuthInfo(t: Serial, previous: Option<M.Session>, replacedOnline: bool, transition: M.Fate,
                          restore: M.Fate)
      returns (reply: M.Reply)
      requires t in config && t in sessions && replacedOnline == (previous.Some? && previous.value.online)
      modifies this
      ensures M.Outcome(View(), reply) == M.FinishAuthInfo(old(View()), t, previous, transition, restore)
    {
      if transition.Dies? {
        Crash();
        return M.Died;
      }
      var ok := Transition(t, Authenticating, transition);
      if !ok {
        if restore.Dies? {
          Crash();
          return M.Died;
        }
        if restore.Commits? && (previous.None? || M.Storable(previous.value)) {
          RestoreReplaced(t, previous);
        } else {
          leaked := leaked + if replacedOnline then 1 else 0;
        }
        return M.Rejected;
      }
      if replacedOnline {
        gauge := gauge - 1;
      }
      return M.Challenged(sessions[t].loginChallenge);
    }

    method Replace(t: Serial, previous: Option<M.Session>)
      modifies this`sessions
      ensures sessions == match previous
                          case None => old(sessions) - {t}
                          case Some(session) => old(sessions)[t := session]
    {
      if previous.None? {
        sessions := sessions - {t};
      } else {
        sessions := sessions[t := previous.value];
      }
    }

    method RestoreReplaced(t: Serial, previous: Option<M.Session>)
      requires t in config
      modifies this`checkpoints, this`sessions
      ensures View() == M.RestoreReplaced(old(View()), t, previous)
    {
      if previous.None? {
        checkpoints := checkpoints - {t};
      } else {
        checkpoints := checkpoints[t := M.PersistentState(previous.value, config[t])];
      }
      Replace(t, previous);
    }

    method ExpireLogin(t: Serial, fate: M.Fate) returns (reply: M.Reply)
      modifies this
      ensures M.Outcome(View(), reply) == M.ExpireLogin(old(View()), t, fate)
    {
      if fate.Dies? {
        Crash();
        return M.Died;
      }
      if fate.Commits? {
        checkpoints := checkpoints - {t};
        status := status[t := Offline];
        sessions := sessions - {t};
      }
      return M.Rejected;
    }

    method Login(t: Serial, proof: Option<M.Nonce>, now: nat, random: bool,
                 expire: M.Fate, persist: M.Fate, transition: M.Fate, restore: M.Fate)
      returns (reply: M.Reply)
      requires Valid()
      modifies this
      ensures Valid()
      ensures M.Outcome(View(), reply) == M.Login(old(View()), t, proof, now, random, expire, persist, transition,
                                                  restore)
    {
      LoginKeepsInv(View(), t, proof, now, random, expire, persist, transition, restore);
      reply := HandleLogin(t, proof, now, random, expire, persist, transition, restore);
    }

    method HandleLogin(t: Serial, proof: Option<M.Nonce>, now: nat, random: bool,
                       expire: M.Fate, persist: M.Fate, transition: M.Fate, restore: M.Fate)
      returns (reply: M.Reply)
      modifies this
      ensures M.Outcome(View(), reply) == M.Login(old(View()), t, proof, now, random, expire, persist, transition,
                                                  restore)
    {
      ghost var before := View();
      ghost var expected := M.Login(before, t, proof, now, random, expire, persist, transition, restore);
      if !up || t !in config || t !in sessions || sessions[t].authenticated {
        assert expected == M.Reject(before);
        reply := M.Rejected;
      } else if M.LoginExpired(sessions[t].createdAt, config[t], now) {
        assert expected == M.ExpireLogin(before, t, expire);
        reply := ExpireLogin(t, expire);
      } else if proof != Some(sessions[t].loginChallenge) || !random {
        assert expected == M.Reject(before);
        reply := M.Rejected;
      } else {
        assert expected == M.BeginLogin(before, t, now, persist, transition, restore);
        reply := BeginLogin(t, now, persist, transition, restore);
      }
    }

    method BeginLogin(t: Serial, now: nat, persist: M.Fate, transition: M.Fate,
                      restore: M.Fate) returns (reply: M.Reply)
      requires t in config && t in sessions && !sessions[t].authenticated
      modifies this
      ensures M.Outcome(View(), reply) == M.BeginLogin(old(View()), t, now, persist, transition, restore)
    {
      hide M.FinishLogin;
      var previousChallenge, previousChallengeAt := sessions[t].nextChallenge, sessions[t].nextChallengeAt;
      var next := DrawNonce();
      Authenticate(t, next, now);
      if persist.Dies? {
        Crash();
        return M.Died;
      }
      var ok := PersistSession(t, persist);
      if !ok {
        UndoLogin(t, previousChallenge, previousChallengeAt);
        assert sessions == old(sessions);
        return M.Rejected;
      }
      reply := FinishLogin(t, previousChallenge, previousChallengeAt, next, transition, restore);
    }

    method Authenticate(t: Serial, next: M.Nonce, now: nat)
      requires t in sessions
      modifies this`sessions
      ensures sessions == old(sessions)[t := old(sessions)[t].(nextChallenge := Some(next),
                                                               nextChallengeAt := Some(now),
                                                               authenticated := true)]
    {
      sessions := sessions[t := sessions[t].(nextChallenge := Some(next), nextChallengeAt := Some(now))];
      sessions := sessions[t := sessions[t].(authenticated := true)];
    }

    method FinishLogin(t: Serial, previousChallenge: Option<M.Nonce>, previousChallengeAt: Option<nat>, next: M.Nonce,
                       transition: M.Fate, restore: M.Fate)
      returns (reply: M.Reply)
      requires t in config && t in sessions
      modifies this
      ensures var previous := old(sessions)[t].(nextChallenge := previousChallenge,
                                                nextChallengeAt := previousChallengeAt,
                                                authenticated := false);
              M.Outcome(View(), reply) == M.FinishLogin(old(View()), t, previous, next, transition, restore)
    {
      if transition.Dies? {
        Crash();
        return M.Died;
      }
      var ok := Transition(t, Online, transition);
      if !ok {
        UndoLogin(t, previousChallenge, previousChallengeAt);
        if restore.Dies? {
          Crash();
          return M.Died;
        }
        ok := PersistSession(t, restore);
        return M.Rejected;
      }
      sessions := sessions[t := sessions[t].(online := true)];
      gauge := gauge + 1;
      logins := logins + [M.Proof(t, sessions[t].loginChallenge)];
      return M.LoggedIn(next);
    }

    method UndoLogin(t: Serial, challenge: Option<M.Nonce>, challengeAt: Option<nat>)
      requires t in sessions
      modifies this`sessions
      ensures sessions == old(sessions)[t := old(sessions)[t].(nextChallenge := challenge,
                                                               nextChallengeAt := challengeAt,
                                                               authenticated := false)]
    {
      sessions := sessions[t := sessions[t].(nextChallenge := challenge)];
      sessions := sessions[t := sessions[t].(nextChallengeAt := challengeAt)];
      sessions := sessions[t := sessions[t].(authenticated := false)];
    }

    method Exchange(t: Serial, action: M.Action, proof: Option<M.Nonce>, payload: bool, now: nat, random: bool,
                    resume: M.Fate, work: M.Fate, finish: M.Fate)
      returns (reply: M.Reply)
      requires Valid()
      modifies this
      ensures Valid()
      ensures M.Outcome(View(), reply)
           == M.Exchange(old(View()), t, action, proof, payload, now, random, resume, work, finish)
    {
      ExchangeKeepsInv(View(), t, action, proof, payload, now, random, resume, work, finish);
      reply := HandleExchange(t, action, proof, payload, now, random, resume, work, finish);
    }

    method HandleExchange(t: Serial, action: M.Action, proof: Option<M.Nonce>, payload: bool, now: nat, random: bool,
                          resume: M.Fate, work: M.Fate, finish: M.Fate)
      returns (reply: M.Reply)
      modifies this
      ensures M.Outcome(View(), reply)
           == M.Exchange(old(View()), t, action, proof, payload, now, random, resume, work, finish)
    {
      hide M.Perform;
      ghost var before := View();
      if !up || t !in config || t !in sessions || !sessions[t].authenticated || proof.None?
         || proof != sessions[t].nextChallenge
      {
        return M.Rejected;
      }
      if !sessions[t].online {
        if resume.Dies? {
          Crash();
          return M.Died;
        }
        var ok := Transition(t, Online, resume);
        if !ok {
          return M.Rejected;
        }
        sessions := sessions[t := sessions[t].(online := true)];
        gauge := gauge + 1;
      }
      assert View() == M.Resume(before, t);
      assert M.Exchange(before, t, action, proof, payload, now, random, resume, work, finish)
          == M.Perform(M.Resume(before, t), t, action, proof.value, payload, now, random, work, finish);
      reply := Perform(t, action, proof.value, payload, now, random, work, finish);
    }

    method Perform(t: Serial, action: M.Action, proof: M.Nonce, payload: bool, now: nat, random: bool, work: M.Fate,
                   finish: M.Fate)
      returns (reply: M.Reply)
      requires t in sessions && t in config && sessions[t].authenticated
      modifies this
      ensures M.Outcome(View(), reply) == M.Perform(old(View()), t, action, proof, payload, now, random, work, finish)
    {
      if !payload {
        return M.Rejected;
      }
      if work.Dies? {
        Crash();
        return M.Died;
      }
      if work.Fails? {
        return M.Rejected;
      }
      if action.Logout? {
        reply := FinishLogout(t, proof, now, random, finish);
      } else {
        reply := FinishExchange(t, proof, now, random, finish);
      }
    }

    method FinishExchange(t: Serial, proof: M.Nonce, now: nat, random: bool, persist: M.Fate) returns (reply: M.Reply)
      requires t in sessions && t in config && sessions[t].authenticated
      modifies this
      ensures M.Outcome(View(), reply) == M.FinishExchange(old(View()), t, proof, now, random, persist)
    {
      var previousChallenge, previousChallengeAt := sessions[t].nextChallenge, sessions[t].nextChallengeAt;
      if !random {
        return M.Rejected;
      }
      var next := IssueNextChallenge(t, now);
      if persist.Dies? {
        Crash();
        return M.Died;
      }
      var ok := PersistSession(t, persist);
      if !ok {
        sessions := sessions[t := sessions[t].(nextChallenge := previousChallenge,
                                               nextChallengeAt := previousChallengeAt)];
        assert sessions == old(sessions);
        return M.Rejected;
      }
      accepted := accepted + [M.Proof(t, proof)];
      return M.Answered(next);
    }

    method LeaveOnline(t: Serial)
      requires t in sessions
      modifies this`status, this`sessions, this`gauge
      ensures View() == M.LeaveOnline(old(View()), t)
    {
      status := status[t := Offline];
      sessions := sessions[t := sessions[t].(authenticated := false, online := false)];
      gauge := gauge - 1;
    }

    method IssueNextChallenge(t: Serial, now: nat) returns (next: M.Nonce)
      requires t in sessions
      modifies this`sessions, this`nextNonce
      ensures next == old(nextNonce) && View() == M.Rotate(old(View()), t, now)
    {
      next := DrawNonce();
      sessions := sessions[t := sessions[t].(nextChallenge := Some(next), nextChallengeAt := Some(now))];
    }

    method FinishLogout(t: Serial, proof: M.Nonce, now: nat, random: bool, remove: M.Fate) returns (reply: M.Reply)
      requires t in sessions && t in config
      modifies this
      ensures M.Outcome(View(), reply) == M.FinishLogout(old(View()), t, proof, now, random, remove)
    {
      hide M.LeaveOnline, M.Rotate;
      LeaveOnline(t);
      assert t in sessions by { LeavingStays(old(View()), t); }
      if !random {
        return M.Rejected;
      }
      var next := IssueNextChallenge(t, now);
      if remove.Dies? {
        Crash();
        return M.Died;
      }
      if remove.Fails? {
        return M.Rejected;
      }
      checkpoints := checkpoints - {t};
      sessions := sessions - {t};
      accepted := accepted + [M.Proof(t, proof)];
      return M.LoggedOut(next);
    }

    method Sweep(t: Serial, now: nat, fate: M.Fate)
      requires Valid()
      modifies this
      ensures Valid() && View() == M.Sweep(old(View()), t, now, fate).state
    {
      SweepKeepsInv(View(), t, now, fate);
      if !up || t !in config || t !in sessions {
        return;
      }
      if sessions[t].authenticated && sessions[t].online && M.IsIdle(sessions[t], now) {
        if fate.Dies? {
          Crash();
          return;
        }
        var ok := Transition(t, Offline, fate);
        if ok {
          sessions := sessions[t := sessions[t].(online := false)];
          gauge := gauge - 1;
        }
      } else if !sessions[t].authenticated && M.LoginExpired(sessions[t].createdAt, config[t], now) {
        var _ := ExpireLogin(t, fate);
      }
    }

    /** Visits every configured terminal whose lock is free. */
    method MaintainSessions(terminals: seq<Serial>, locked: set<Serial>, now: nat, fates: map<Serial, M.Fate>)
      requires Valid()
      modifies this
      ensures Valid() && View() == M.Run(old(View()), Sweeps(terminals, locked, now, fates))
    {
      var i := 0;
      while i < |terminals|
        invariant 0 <= i <= |terminals| && Valid()
        invariant M.Run(View(), Sweeps(terminals[i..], locked, now, fates))
               == M.Run(old(View()), Sweeps(terminals, locked, now, fates))
      {
        var t := terminals[i];
        assert terminals[i..][0] == t && terminals[i..][1..] == terminals[i + 1..];
        if t !in locked {
          assert Sweeps(terminals[i..], locked, now, fates)[1..] == Sweeps(terminals[i + 1..], locked, now, fates);
          Sweep(t, now, if t in fates then fates[t] else M.Commits);
        }
        i := i + 1;
      }
      assert terminals[i..] == [];
    }

    /**
     Starts the process: every terminal is offline, and each checkpoint is taken back or deleted in turn.
     `failing` are the terminals whose deletion fails, which stops the start.
     */
    method Start(terminals: map<Serial, M.Terminal>, now: nat, failing: set<Serial>)
      returns (started: bool, ghost deleted: set<Serial>)
      requires Valid()
      modifies this
      ensures Valid()
      ensures started <==> M.Dropped(old(View()), terminals, now) !! failing
      ensures View() == M.Restart(old(View()), terminals, now, if started then M.Completes else M.Stops(deleted))
    {
      started, deleted := RestoreSessions(terminals, now, failing);
      RestartKeepsInv(old(View()), terminals, now, if started then M.Completes else M.Stops(deleted));
    }

    method RestoreSessions(terminals: map<Serial, M.Terminal>, now: nat, failing: set<Serial>)
      returns (started: bool, ghost deleted: set<Serial>)
      modifies this
      ensures started <==> M.Dropped(old(View()), terminals, now) !! failing
      ensures View() == M.Restart(old(View()), terminals, now, if started then M.Completes else M.Stops(deleted))
    {
      ghost var before := View();
      Seed(terminals);
      var restored;
      started, restored, deleted := RestoreEach(now, failing, M.Dropped(before, terminals, now));
      if started {
        assert restored == map t | t in checkpoints :: M.FromCheckpoint(checkpoints[t]);
        sessions := restored;
        up := true;
      }
    }

    /** Nothing in memory, and every configured terminal offline. */
    method Seed(terminals: map<Serial, M.Terminal>)
      modifies this
      ensures View() == M.Crash(old(View())).(config := terminals, status := M.Seeded(old(View()), terminals))
    {
      Crash();
      config := terminals;
      status := map t | t in status.Keys + terminals.Keys :: if t in terminals then Offline else status[t];
    }

    /**
     Takes back or deletes each checkpoint in turn, and stops at the first deletion that fails.
     `dropped` are the checkpoints to delete, `visited` those that were looked at.
     */
    method RestoreEach(now: nat, failing: set<Serial>, ghost dropped: set<Serial>)
      returns (completed: bool, restored: map<Serial, M.Session>, ghost visited: set<Serial>)
      requires forall t :: t in dropped <==> t in checkpoints && !M.Restorable(checkpoints[t], t, config, now)
      modifies this`checkpoints
      ensures completed <==> dropped !! failing
      ensures checkpoints == old(checkpoints) - if completed then dropped else dropped * visited
      ensures completed ==> restored.Keys == checkpoints.Keys
      ensures completed ==> forall t :: t in restored ==> restored[t] == M.FromCheckpoint(checkpoints[t])
    {
      var stored := checkpoints;
      var rest := stored.Keys;
      restored, completed := map[], true;
      while rest != {} && completed
        invariant rest <= stored.Keys && stored == old(checkpoints)
        invariant forall t :: t in checkpoints <==> t in stored && (t in dropped ==> t in rest)
        invariant forall t :: t in checkpoints ==> checkpoints[t] == stored[t]
        invariant forall t :: t in restored <==> t in stored && t !in dropped && t !in rest
        invariant forall t :: t in restored ==> restored[t] == M.FromCheckpoint(stored[t])
        invariant completed ==> forall t :: t in dropped && t in failing ==> t in rest
        invariant !completed ==> exists t :: t in dropped && t in failing
        decreases |rest|, completed
      {
        var t :| t in rest;
        if M.Restorable(stored[t], t, config, now) {
          restored := restored[t := M.FromCheckpoint(stored[t])];
          rest := rest - {t};
        } else if t in failing {
          completed := false;
        } else {
          checkpoints := checkpoints - {t};
          rest := rest - {t};
        }
      }
      visited := stored.Keys - rest;
    }
  }

  lemma LeavingStays(s: M.State, t: Serial)
    requires t in s.sessions
    ensures t in M.LeaveOnline(s, t).sessions
  {
  }

  // ----- The steps of one sweep over the terminals ---------------------------

  function Sweeps(terminals: seq<Serial>, locked: set<Serial>, now: nat, fates: map<Serial, M.Fate>): seq<M.Step>
    decreases |terminals|
  {
    if terminals == [] then []
    else
      var rest := Sweeps(terminals[1..], locked, now, fates);
      var t := terminals[0];
      if t in locked then rest else [M.OnSweep(t, now, if t in fates then fates[t] else M.Commits)] + rest
  }
}
