/**
 When memory and database disagree about a terminal's session, and what a login
 that is accepted twice tells about the time between.
 */
module SessionDisagreements {
  import opened Wrappers
  import opened Terminals
  import opened SessionModel
  import opened SessionInvariant
  import opened SessionTheorems

  // ----- The two steps that make them disagree -------------------------------

  /** The database holds exactly what memory holds for the terminal. */
  predicate Agree(s: State, t: Serial) {
    && (t in s.sessions <==> t in s.checkpoints)
    && (t in s.sessions ==> t in s.config && s.checkpoints[t] == PersistentState(s.sessions[t], s.config[t]))
  }

  /** A Login that is written, refused its transition, and whose compensating write fails or is refused by the table. */
  predicate UndoneLogin(s: State, e: Step, t: Serial) {
    && e.OnLogin? && e.t == t && Served(s, t) && t in s.sessions && !s.sessions[t].authenticated
    && !LoginExpired(s.sessions[t].createdAt, s.config[t], e.now)
    && e.proof == Some(s.sessions[t].loginChallenge) && e.random
    && e.persist.Commits? && e.transition.Fails? && (e.restore.Fails? || !Storable(s.sessions[t]))
  }

  /** A Logout that took the terminal offline and then drew no challenge or failed to delete the checkpoint. */
  predicate BrokenLogout(s: State, e: Step, t: Serial) {
    && ErroredLogout(e) && e.t == t && e.payload && Served(s, t) && t in s.sessions && s.sessions[t].authenticated
    && e.proof.Some? && e.proof == s.sessions[t].nextChallenge && (s.sessions[t].online || e.resume.Commits?)
  }

  lemma AuthInfoAgrees(s: State, t: Serial, mode: Option<Mode>, now: nat, persist: Fate, transition: Fate,
                       restore: Fate)
    requires s.up && Agree(s, t)
    ensures var o := AuthInfo(s, t, mode, now, persist, transition, restore);
            !o.reply.Died? ==> Agree(o.state, t)
  {
  }

  lemma FinishLoginAgrees(s: State, t: Serial, previous: Session, next: Nonce, transition: Fate, restore: Fate)
    requires t in s.config && t in s.sessions && Agree(s, t) && s.sessions[t].authenticated && !previous.authenticated
    ensures var o := FinishLogin(s, t, previous, next, transition, restore);
            !o.reply.Died? ==>
              (Agree(o.state, t) <==> !(transition.Fails? && (restore.Fails? || !Storable(previous))))
  {
  }

  lemma LoginAgrees(s: State, e: Step)
    requires s.up && e.OnLogin? && Agree(s, e.t)
    ensures !Handle(s, e).reply.Died? ==> (Agree(Handle(s, e).state, e.t) <==> !UndoneLogin(s, e, e.t))
  {
    hide FinishLogin, Storable;
    var t := e.t;
    if Served(s, t) && t in s.sessions && !s.sessions[t].authenticated && e.persist.Commits? {
      var begun := s.sessions[t].(nextChallenge := Some(s.nextNonce), nextChallengeAt := Some(e.now),
                                  authenticated := true);
      var stored := Persist(SetSession(s.(nextNonce := s.nextNonce + 1), t, begun), t);
      FinishLoginAgrees(stored, t, s.sessions[t], s.nextNonce, e.transition, e.restore);
    }
  }

  lemma PerformAgrees(s: State, t: Serial, action: Action, proof: Nonce, payload: bool, now: nat, random: bool,
                      work: Fate, finish: Fate)
    requires t in s.config && t in s.sessions && Agree(s, t) && s.sessions[t].authenticated
    ensures var o := Perform(s, t, action, proof, payload, now, random, work, finish);
            !o.reply.Died? ==>
              (Agree(o.state, t) <==>
                 !(payload && action.Logout? && work.Commits? && (!random || finish.Fails?)))
  {
  }

  lemma ExchangeAgrees(s: State, e: Step)
    requires s.up && e.OnExchange? && Agree(s, e.t)
    ensures !Handle(s, e).reply.Died? ==> (Agree(Handle(s, e).state, e.t) <==> !BrokenLogout(s, e, e.t))
  {
    hide Perform;
    var t := e.t;
    if Served(s, t) && t in s.sessions && s.sessions[t].authenticated && e.proof.Some? {
      assert Agree(Resume(s, t), t);
      PerformAgrees(Resume(s, t), t, e.action, e.proof.value, e.payload, e.now, e.random, e.work, e.finish);
    }
  }

  lemma SweepAgrees(s: State, t: Serial, now: nat, fate: Fate)
    requires s.up && Agree(s, t)
    ensures var o := Sweep(s, t, now, fate);
            !o.reply.Died? ==> Agree(o.state, t)
  {
  }

  lemma RestartAgrees(s: State, config: map<Serial, Terminal>, now: nat, t: Serial)
    ensures Agree(Restart(s, config, now, Completes), t)
  {
    var s' := Restart(s, config, now, Completes);
    if t in s'.checkpoints {
      assert Restorable(s'.checkpoints[t], t, config, now);
    }
  }

  lemma AuthInfoDown(s: State, t: Serial, mode: Option<Mode>, now: nat, persist: Fate, transition: Fate, restore: Fate)
    ensures var o := AuthInfo(s, t, mode, now, persist, transition, restore); o.reply.Died? ==> !o.state.up
  {
  }

  lemma LoginDown(s: State, t: Serial, proof: Option<Nonce>, now: nat, random: bool,
                  expire: Fate, persist: Fate, transition: Fate, restore: Fate)
    ensures var o := Login(s, t, proof, now, random, expire, persist, transition, restore);
            o.reply.Died? ==> !o.state.up
  {
  }

  lemma PerformDown(s: State, t: Serial, action: Action, proof: Nonce, payload: bool, now: nat, random: bool,
                    work: Fate, finish: Fate)
    requires t in s.sessions && t in s.config
    ensures var o := Perform(s, t, action, proof, payload, now, random, work, finish); o.reply.Died? ==> !o.state.up
  {
  }

  lemma DownAfterDeath(s: State, e: Step)
    ensures Handle(s, e).reply.Died? ==> !Handle(s, e).state.up
  {
    hide AuthInfo, Login, Perform;
    match e {
      case OnAuthInfo(t, mode, now, persist, transition, restore) =>
        AuthInfoDown(s, t, mode, now, persist, transition, restore);
      case OnLogin(t, proof, now, random, expire, persist, transition, restore) =>
        LoginDown(s, t, proof, now, random, expire, persist, transition, restore);
      case OnExchange(t, action, proof, payload, now, random, resume, work, finish) =>
        if Served(s, t) && t in s.sessions && proof.Some? {
          PerformDown(Resume(s, t), t, action, proof.value, payload, now, random, work, finish);
        }
      case OnSweep(t, now, fate) =>
      case OnCrash =>
      case OnRestart(config, now, startup) =>
    }
  }

  /** From agreement, while the process stays up, memory and database disagree after exactly these two steps. */
  lemma DisagreeIff(s: State, e: Step, t: Serial)
    requires s.up && Agree(s, t) && Handle(s, e).state.up
    ensures !Agree(Handle(s, e).state, t) <==> UndoneLogin(s, e, t) || BrokenLogout(s, e, t)
  {
    hide AuthInfo, Login, Exchange, Sweep, Restart, Agree;
    DownAfterDeath(s, e);
    if !Concerns(e, t) {
      HandleElsewhere(s, e, t);
      ElsewhereAgrees(s, Handle(s, e).state, t);
    } else {
      match e {
        case OnAuthInfo(_, mode, now, persist, transition, restore) =>
          AuthInfoAgrees(s, t, mode, now, persist, transition, restore);
        case OnLogin(_, _, _, _, _, _, _, _) => LoginAgrees(s, e);
        case OnExchange(_, _, _, _, _, _, _, _, _) => ExchangeAgrees(s, e);
        case OnSweep(_, now, fate) => SweepAgrees(s, t, now, fate);
        case OnCrash =>
        case OnRestart(config, now, startup) =>
          StartedCompletely(s, config, now, startup);
          RestartAgrees(s, config, now, t);
      }
    }
  }

  lemma StartedCompletely(s: State, config: map<Serial, Terminal>, now: nat, startup: Startup)
    requires Restart(s, config, now, startup).up
    ensures startup == Completes
  {
  }

  lemma ElsewhereAgrees(s: State, s': State, t: Serial)
    requires Elsewhere(s, s', t) && s'.up
    ensures Agree(s', t) <==> Agree(s, t)
  {
  }

  /** In either case the checkpoint says authenticated and memory does not. */
  lemma DisagreementIsAuthentication(s: State, e: Step, t: Serial)
    requires s.up && Agree(s, t) && (UndoneLogin(s, e, t) || BrokenLogout(s, e, t)) && Handle(s, e).state.up
    ensures var after := Handle(s, e).state;
            && t in after.sessions && !after.sessions[t].authenticated
            && t in after.checkpoints && after.checkpoints[t].authenticated
  {
  }

  // ----- A run for each ------------------------------------------------------

  const EXAMPLE_UNDONE: Step := OnLogin("GN0953967", Some(1), 2, true, Commits, Commits, Fails, Fails)

  /** Handshake, then a login whose transition and compensation fail. */
  lemma UndoneLoginExample()
    ensures var s := Run(NOTHING, EXAMPLE[..2]);
            && Initial(NOTHING) && Agree(s, "GN0953967") && UndoneLogin(s, EXAMPLE_UNDONE, "GN0953967")
            && Handle(s, EXAMPLE_UNDONE).state.up && !Agree(Handle(s, EXAMPLE_UNDONE).state, "GN0953967")
  {
    HandshakeExample();
    var s1 := Handle(NOTHING, EXAMPLE[0]).state;
    RunOne(s1, EXAMPLE[1], []);
    RunOne(NOTHING, EXAMPLE[0], [EXAMPLE[1]]);
    assert EXAMPLE[..2] == [EXAMPLE[0]] + ([EXAMPLE[1]] + []);
    assert [EXAMPLE[1]] + [] == [EXAMPLE[1]];
    assert Run(NOTHING, EXAMPLE[..2]) == CHALLENGED;
    DisagreeIff(CHALLENGED, EXAMPLE_UNDONE, "GN0953967");
  }

  /** Handshake, login, then a Logout whose deletion fails. */
  lemma BrokenLogoutExample()
    ensures var s := Run(NOTHING, EXAMPLE[..3]);
            && Initial(NOTHING) && Agree(s, "GN0953967") && BrokenLogout(s, EXAMPLE[3], "GN0953967")
            && Handle(s, EXAMPLE[3]).state.up && !Agree(Handle(s, EXAMPLE[3]).state, "GN0953967")
  {
    LoginExample();
    var s := Run(NOTHING, EXAMPLE[..3]);
    ReachableInv(NOTHING, EXAMPLE[..3]);
    assert TerminalOk(s, "GN0953967");
    DisagreeIff(s, EXAMPLE[3], "GN0953967");
  }

  // ----- A login that is accepted twice --------------------------------------

  ghost predicate NoBrokenLogout(s: State, events: seq<Step>, t: Serial)
    decreases |events|
  {
    events != [] ==> !BrokenLogout(s, events[0], t) && NoBrokenLogout(Handle(s, events[0]).state, events[1..], t)
  }

  lemma ExchangeKeepsAuthentication(s: State, e: Step, t: Serial)
    requires NotRevived(s, t) && e.OnExchange? && e.t == t && !BrokenLogout(s, e, t)
    ensures NotRevived(Handle(s, e).state, t)
  {
    hide Perform;
    if Served(s, t) && t in s.sessions && s.sessions[t].authenticated && e.proof.Some? {
      if e.payload && ErroredLogout(e) {
        assert e.proof != s.sessions[t].nextChallenge || (!s.sessions[t].online && !e.resume.Commits?);
      } else {
        PerformKeeps(Resume(s, t), t, e.action, e.proof.value, e.payload, e.now, e.random, e.work, e.finish);
      }
    }
  }

  lemma PerformKeeps(s: State, t: Serial, action: Action, proof: Nonce, payload: bool, now: nat, random: bool,
                     work: Fate, finish: Fate)
    requires t in s.sessions && t in s.config && s.sessions[t].authenticated
    requires !(payload && action.Logout? && work.Commits? && (!random || finish.Fails?))
    ensures NotRevived(Perform(s, t, action, proof, payload, now, random, work, finish).state, t)
  {
  }

  lemma StepKeepsAuthentication(s: State, e: Step, t: Serial)
    requires NotRevived(s, t) && !BrokenLogout(s, e, t)
    ensures NotRevived(Handle(s, e).state, t)
  {
    hide Handle;
    if !Concerns(e, t) {
      HandleElsewhere(s, e, t);
    } else if e.OnExchange? {
      ExchangeKeepsAuthentication(s, e, t);
    } else {
      NotRevivedStays(s, e, t);
    }
  }

  lemma {:induction false} RunKeepsAuthentication(s: State, events: seq<Step>, t: Serial)
    requires NotRevived(s, t) && NoBrokenLogout(s, events, t)
    ensures NotRevived(Run(s, events), t)
    decreases |events|
  {
    hide Handle, BrokenLogout, NotRevived;
    if events != [] {
      StepKeepsAuthentication(s, events[0], t);
      RunKeepsAuthentication(Handle(s, events[0]).state, events[1..], t);
    }
  }

  /** A history with a broken Logout of the terminal has it at some place. */
  lemma {:induction false} BrokenSomewhere(s: State, events: seq<Step>, t: Serial)
    requires !NoBrokenLogout(s, events, t)
    ensures exists k :: 0 <= k < |events| && BrokenLogout(Run(s, events[..k]), events[k], t)
    decreases |events|
  {
    hide Handle, BrokenLogout;
    assert events[..0] == [];
    if BrokenLogout(s, events[0], t) {
      assert Run(s, events[..0]) == s;
    } else {
      var next, rest := Handle(s, events[0]).state, events[1..];
      BrokenSomewhere(next, rest, t);
      var k :| 0 <= k < |rest| && BrokenLogout(Run(next, rest[..k]), rest[k], t);
      assert events[..k + 1][0] == events[0] && events[..k + 1][1..] == rest[..k];
      assert BrokenLogout(Run(s, events[..k + 1]), events[k + 1], t);
    }
  }

  lemma {:induction false} LoginsStay(s: State, events: seq<Step>, p: Proof)
    requires p in s.logins
    ensures p in Run(s, events).logins
    decreases |events|
  {
    hide Handle;
    if events != [] {
      LoginIsRecorded(s, events[0]);
      LoginsStay(Handle(s, events[0]).state, events[1..], p);
    }
  }

  lemma LoginAuthenticates(s: State, e: Step)
    requires Handle(s, e).reply.LoggedIn?
    ensures e.OnLogin? && NotRevived(Handle(s, e).state, e.t)
  {
    ExposedIsDurable(s, e);
    LoginIsRecorded(s, e);
  }

  /** Between two accepted logins of a terminal with the same challenge lies a broken Logout of that terminal. */
  lemma ReplayedLoginHasBrokenLogout(s: State, events: seq<Step>, i: nat, j: nat)
    requires Initial(s) && i < j < |events|
    requires Handle(Run(s, events[..i]), events[i]).reply.LoggedIn?
    requires Handle(Run(s, events[..j]), events[j]).reply.LoggedIn?
    ensures events[i].OnLogin? && events[j].OnLogin?
    ensures events[i].t == events[j].t && events[i].proof == events[j].proof ==>
              exists k :: i < k < j && BrokenLogout(Run(s, events[..k]), events[k], events[i].t)
  {
    hide Handle, BrokenLogout, NotRevived, Initial, Inv;
    var first, later := Run(s, events[..i]), Run(s, events[..j]);
    LoginAuthenticates(first, events[i]);
    LoginAuthenticates(later, events[j]);
    var t := events[i].t;
    if events[j].t == t && events[i].proof == events[j].proof {
      var after, between := Handle(first, events[i]).state, events[i + 1..j];
      RunSplit(s, events, i, j);
      ReachableInv(s, events[..j]);
      LoginIsRecorded(first, events[i]);
      LoginsStay(after, between, Proof(t, events[i].proof.value));
      if NoBrokenLogout(after, between, t) {
        RunKeepsAuthentication(after, between, t);
        FreshLogin(later, events[j]);
        assert false;
      }
      BrokenSomewhere(after, between, t);
      var k :| 0 <= k < |between| && BrokenLogout(Run(after, between[..k]), between[k], t);
      RunSplit(s, events, i, i + 1 + k);
      assert events[i + 1..i + 1 + k] == between[..k] && events[i + 1 + k] == between[k];
    }
  }

  /** A login on a session that never lost its authentication proves a challenge not accepted before. */
  lemma FreshLogin(s: State, e: Step)
    requires Inv(s) && Handle(s, e).reply.LoggedIn? && e.OnLogin? && NotRevived(s, e.t)
    ensures e.proof.Some? && Proof(e.t, e.proof.value) !in s.logins
  {
    LoginIsRecorded(s, e);
    assert TerminalOk(s, e.t);
  }
}
