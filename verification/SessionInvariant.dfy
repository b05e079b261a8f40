/**
 The inductive invariant of the session protocol, kept by every handler under
 every fate of its store calls, by sweeps, crashes and restarts.
 */
module SessionInvariant {
  import opened Wrappers
  import opened Terminals
  import opened SessionModel

  // ----- The invariant -------------------------------------------------------

  predicate MemoryOk(s: State, t: Serial)
    requires t in s.sessions
  {
    var session := s.sessions[t];
    && t in s.config && session.iterations == ITERATIONS
    && session.salt < s.nextNonce && session.loginChallenge < s.nextNonce
    && (session.nextChallenge.Some? ==> session.nextChallenge.value < s.nextNonce)
    && (session.nextChallenge.Some? <==> session.nextChallengeAt.Some?)
    // An authenticated session is exactly what the database would restore.
    && (session.authenticated ==>
          && t in s.checkpoints && s.checkpoints[t] == PersistentState(session, s.config[t])
          && session.nextChallenge.Some? && Proof(t, session.nextChallenge.value) !in s.accepted)
    && (session.online ==> session.authenticated && t in s.status && s.status[t].Online?)
    // Only a handshake that never reached a challenge has an unused login challenge for certain.
    && (!session.authenticated && session.nextChallenge.None? ==> Proof(t, session.loginChallenge) !in s.logins)
  }

  predicate CheckpointOk(s: State, t: Serial)
    requires t in s.checkpoints
  {
    var c := s.checkpoints[t];
    && CheckpointBelow(c, s.nextNonce)
    && (c.authenticated && c.nextChallenge.Some? ==> Proof(t, c.nextChallenge.value) !in s.accepted)
    && (!c.authenticated && c.nextChallenge.None? ==> Proof(t, c.loginChallenge) !in s.logins)
  }

  predicate TerminalOk(s: State, t: Serial) {
    (t in s.sessions ==> MemoryOk(s, t)) && (t in s.checkpoints ==> CheckpointOk(s, t))
  }

  function OnlineSessions(s: State): set<Serial> {
    set t | t in s.sessions && s.sessions[t].online
  }

  ghost predicate Distinct(q: seq<Proof>) {
    forall i, j :: 0 <= i < j < |q| ==> q[i] != q[j]
  }

  ghost predicate Ledger(s: State) {
    && Distinct(s.accepted)
    && (forall p :: p in s.accepted ==> p.challenge < s.nextNonce)
    && (forall p :: p in s.logins ==> p.challenge < s.nextNonce)
    && s.gauge == |OnlineSessions(s)| + s.leaked
    && (!s.up ==> s.sessions == map[])
    && (s.up ==> s.config.Keys <= s.status.Keys)
  }

  ghost predicate Inv(s: State) {
    Ledger(s) && forall t {:trigger TerminalOk(s, t)} :: TerminalOk(s, t)
  }

  // ----- Framing -------------------------------------------------------------

  /** Only terminal `t` is touched; what has been drawn or accepted only grows. */
  ghost predicate OnlyTouches(s: State, s': State, t: Serial) {
    && s'.config == s.config && s.nextNonce <= s'.nextNonce
    && (forall q :: q != t ==> (q in s'.sessions <==> q in s.sessions)
                               && (q in s.sessions ==> s'.sessions[q] == s.sessions[q]))
    && (forall q :: q != t ==> (q in s'.checkpoints <==> q in s.checkpoints)
                               && (q in s.checkpoints ==> s'.checkpoints[q] == s.checkpoints[q]))
    && (forall q :: q != t && q in s.status ==> q in s'.status && s'.status[q] == s.status[q])
    && (forall p :: p in s'.accepted && p.terminal != t ==> p in s.accepted)
    && (forall p :: p in s'.logins && p.terminal != t ==> p in s.logins)
  }

  lemma OthersKeep(s: State, s': State, t: Serial, q: Serial)
    requires OnlyTouches(s, s', t) && q != t && TerminalOk(s, q)
    ensures TerminalOk(s', q)
  {
  }

  lemma TouchKeepsInv(s: State, s': State, t: Serial)
    requires Inv(s) && OnlyTouches(s, s', t) && TerminalOk(s', t) && Ledger(s')
    ensures Inv(s')
  {
    forall q ensures TerminalOk(s', q) {
      if q != t {
        OthersKeep(s, s', t, q);
      }
    }
  }

  function Bit(b: bool): nat { if b then 1 else 0 }

  predicate IsOnline(s: State, t: Serial) { t in s.sessions && s.sessions[t].online }

  lemma OnlineSplit(s: State, t: Serial)
    ensures |OnlineSessions(s)| == |OnlineSessions(s) - {t}| + Bit(IsOnline(s, t))
  {
    if IsOnline(s, t) {
      assert OnlineSessions(s) == (OnlineSessions(s) - {t}) + {t};
    } else {
      assert OnlineSessions(s) == OnlineSessions(s) - {t};
    }
  }

  lemma OnlineCount(s: State, s': State, t: Serial)
    requires OnlyTouches(s, s', t)
    ensures |OnlineSessions(s')| == |OnlineSessions(s)| - Bit(IsOnline(s, t)) + Bit(IsOnline(s', t))
  {
    OnlineSplit(s, t);
    OnlineSplit(s', t);
    SameElsewhere(s, s', t);
  }

  lemma SameElsewhere(s: State, s': State, t: Serial)
    requires OnlyTouches(s, s', t)
    ensures OnlineSessions(s) - {t} == OnlineSessions(s') - {t}
  {
  }

  // ----- Crash and restart ---------------------------------------------------

  lemma CrashKeepsInv(s: State)
    requires Inv(s)
    ensures Inv(Crash(s))
  {
    forall t ensures TerminalOk(Crash(s), t) {
      assert TerminalOk(s, t);
    }
    assert OnlineSessions(Crash(s)) == {};
  }

  lemma RestartKeepsInv(s: State, config: map<Serial, Terminal>, now: nat, startup: Startup)
    requires Inv(s)
    ensures Inv(Restart(s, config, now, startup))
  {
    var s' := Restart(s, config, now, startup);
    forall t ensures TerminalOk(s', t) {
      assert TerminalOk(s, t);
    }
    assert OnlineSessions(s') == {};
  }

  // ----- AuthInfo ------------------------------------------------------------

  lemma FinishAuthInfoTouches(s: State, t: Serial, previous: Option<Session>, transition: Fate, restore: Fate)
    requires t in s.config && t in s.sessions
    ensures var o := FinishAuthInfo(s, t, previous, transition, restore);
            o.reply.Died? || OnlyTouches(s, o.state, t)
  {
  }

  lemma AuthInfoTouches(s: State, t: Serial, mode: Option<Mode>, now: nat, persist: Fate, transition: Fate,
                        restore: Fate)
    ensures var o := AuthInfo(s, t, mode, now, persist, transition, restore);
            o.reply.Died? || OnlyTouches(s, o.state, t)
  {
    hide FinishAuthInfo;
    var o := AuthInfo(s, t, mode, now, persist, transition, restore);
    if Served(s, t) && mode.Some? && persist.Commits? && !o.reply.Died? {
      var previous := if t in s.sessions then Some(s.sessions[t]) else None;
      var stored := Persist(SetSession(s.(nextNonce := s.nextNonce + 2), t, NewSession(s, mode.value, now)), t);
      assert OnlyTouches(s, stored, t);
      FinishAuthInfoTouches(stored, t, previous, transition, restore);
      TouchesTransitive(s, stored, o.state, t);
    }
  }

  lemma AuthInfoTerminal(s: State, t: Serial, mode: Option<Mode>, now: nat, persist: Fate, transition: Fate,
                         restore: Fate)
    requires Inv(s)
    ensures var o := AuthInfo(s, t, mode, now, persist, transition, restore);
            o.reply.Died? || TerminalOk(o.state, t)
  {
    assert TerminalOk(s, t);
  }

  lemma AuthInfoLedger(s: State, t: Serial, mode: Option<Mode>, now: nat, persist: Fate, transition: Fate,
                       restore: Fate)
    requires Inv(s)
    ensures var o := AuthInfo(s, t, mode, now, persist, transition, restore);
            o.reply.Died? || Ledger(o.state)
  {
    var o := AuthInfo(s, t, mode, now, persist, transition, restore);
    AuthInfoTouches(s, t, mode, now, persist, transition, restore);
    if !o.reply.Died? {
      OnlineCount(s, o.state, t);
    }
  }

  /** Whatever was written before the process died is a checkpoint like any other. */
  lemma AuthInfoDeath(s: State, t: Serial, mode: Option<Mode>, now: nat, persist: Fate, transition: Fate, restore: Fate)
    requires Inv(s) && AuthInfo(s, t, mode, now, persist, transition, restore).reply.Died?
    ensures Inv(AuthInfo(s, t, mode, now, persist, transition, restore).state)
  {
    var s' := AuthInfo(s, t, mode, now, persist, transition, restore).state;
    forall q ensures TerminalOk(s', q) {
      assert TerminalOk(s, q);
    }
    assert OnlineSessions(s') == {};
  }

  lemma AuthInfoKeepsInv(s: State, t: Serial, mode: Option<Mode>, now: nat, persist: Fate, transition: Fate,
                         restore: Fate)
    requires Inv(s)
    ensures Inv(AuthInfo(s, t, mode, now, persist, transition, restore).state)
  {
    var o := AuthInfo(s, t, mode, now, persist, transition, restore);
    if o.reply.Died? {
      AuthInfoDeath(s, t, mode, now, persist, transition, restore);
    } else {
      AuthInfoTouches(s, t, mode, now, persist, transition, restore);
      AuthInfoTerminal(s, t, mode, now, persist, transition, restore);
      AuthInfoLedger(s, t, mode, now, persist, transition, restore);
      TouchKeepsInv(s, o.state, t);
    }
  }

  // ----- Login and sweep -----------------------------------------------------

  lemma TouchesTransitive(a: State, b: State, c: State, t: Serial)
    requires OnlyTouches(a, b, t) && OnlyTouches(b, c, t)
    ensures OnlyTouches(a, c, t)
  {
  }

  lemma FinishLoginTouches(s: State, t: Serial, previous: Session, next: Nonce, transition: Fate, restore: Fate)
    requires t in s.config && t in s.sessions
    ensures var o := FinishLogin(s, t, previous, next, transition, restore);
            o.reply.Died? || OnlyTouches(s, o.state, t)
  {
  }

  lemma BeginLoginTouches(s: State, t: Serial, now: nat, persist: Fate, transition: Fate, restore: Fate)
    requires t in s.config && t in s.sessions
    ensures var o := BeginLogin(s, t, now, persist, transition, restore);
            o.reply.Died? || OnlyTouches(s, o.state, t)
  {
    hide FinishLogin;
    var o := BeginLogin(s, t, now, persist, transition, restore);
    if persist.Commits? && !o.reply.Died? {
      var begun := SetSession(s.(nextNonce := s.nextNonce + 1), t,
                              s.sessions[t].(nextChallenge := Some(s.nextNonce), nextChallengeAt := Some(now),
                                             authenticated := true));
      var stored := Persist(begun, t);
      assert OnlyTouches(s, stored, t);
      FinishLoginTouches(stored, t, s.sessions[t], s.nextNonce, transition, restore);
      TouchesTransitive(s, stored, o.state, t);
    }
  }

  lemma LoginTouches(s: State, t: Serial, proof: Option<Nonce>, now: nat, random: bool,
                     expire: Fate, persist: Fate, transition: Fate, restore: Fate)
    ensures var o := Login(s, t, proof, now, random, expire, persist, transition, restore);
            o.reply.Died? || OnlyTouches(s, o.state, t)
  {
    if t in s.config && t in s.sessions {
      BeginLoginTouches(s, t, now, persist, transition, restore);
    }
  }

  lemma LoginTerminal(s: State, t: Serial, proof: Option<Nonce>, now: nat, random: bool,
                      expire: Fate, persist: Fate, transition: Fate, restore: Fate)
    requires Inv(s)
    ensures var o := Login(s, t, proof, now, random, expire, persist, transition, restore);
            o.reply.Died? || TerminalOk(o.state, t)
  {
    assert TerminalOk(s, t);
    assert forall p :: p in s.accepted ==> p.challenge < s.nextNonce;
  }

  lemma LoginLedger(s: State, t: Serial, proof: Option<Nonce>, now: nat, random: bool,
                    expire: Fate, persist: Fate, transition: Fate, restore: Fate)
    requires Inv(s)
    ensures var o := Login(s, t, proof, now, random, expire, persist, transition, restore);
            o.reply.Died? || Ledger(o.state)
  {
    var o := Login(s, t, proof, now, random, expire, persist, transition, restore);
    assert TerminalOk(s, t);
    LoginTouches(s, t, proof, now, random, expire, persist, transition, restore);
    if !o.reply.Died? {
      OnlineCount(s, o.state, t);
    }
  }

  lemma LoginDeath(s: State, t: Serial, proof: Option<Nonce>, now: nat, random: bool,
                   expire: Fate, persist: Fate, transition: Fate, restore: Fate)
    requires Inv(s) && Login(s, t, proof, now, random, expire, persist, transition, restore).reply.Died?
    ensures Inv(Login(s, t, proof, now, random, expire, persist, transition, restore).state)
  {
    var s' := Login(s, t, proof, now, random, expire, persist, transition, restore).state;
    assert TerminalOk(s, t);
    forall q ensures TerminalOk(s', q) {
      assert TerminalOk(s, q);
    }
    assert OnlineSessions(s') == {};
  }

  lemma LoginKeepsInv(s: State, t: Serial, proof: Option<Nonce>, now: nat, random: bool,
                      expire: Fate, persist: Fate, transition: Fate, restore: Fate)
    requires Inv(s)
    ensures Inv(Login(s, t, proof, now, random, expire, persist, transition, restore).state)
  {
    var o := Login(s, t, proof, now, random, expire, persist, transition, restore);
    if o.reply.Died? {
      LoginDeath(s, t, proof, now, random, expire, persist, transition, restore);
    } else {
      LoginTouches(s, t, proof, now, random, expire, persist, transition, restore);
      LoginTerminal(s, t, proof, now, random, expire, persist, transition, restore);
      LoginLedger(s, t, proof, now, random, expire, persist, transition, restore);
      TouchKeepsInv(s, o.state, t);
    }
  }

  lemma SweepKeepsInv(s: State, t: Serial, now: nat, fate: Fate)
    requires Inv(s)
    ensures Inv(Sweep(s, t, now, fate).state)
  {
    var o := Sweep(s, t, now, fate);
    assert TerminalOk(s, t);
    if o.reply.Died? {
      CrashKeepsInv(s);
    } else {
      OnlineCount(s, o.state, t);
      TouchKeepsInv(s, o.state, t);
    }
  }

  // ----- Authenticated exchanges ---------------------------------------------

  lemma ResumeKeepsInv(s: State, t: Serial)
    requires Inv(s) && t in s.sessions && s.sessions[t].authenticated
    ensures Inv(Resume(s, t))
    ensures t in Resume(s, t).sessions && Resume(s, t).sessions[t] == s.sessions[t].(online := true)
    ensures OnlyTouches(s, Resume(s, t), t)
  {
    assert TerminalOk(s, t);
    OnlineCount(s, Resume(s, t), t);
    TouchKeepsInv(s, Resume(s, t), t);
  }

  lemma AppendDistinct(q: seq<Proof>, p: Proof)
    requires Distinct(q) && p !in q
    ensures Distinct(q + [p])
  {
  }

  lemma FinishExchangeKeepsInv(s: State, t: Serial, proof: Nonce, now: nat, random: bool, persist: Fate)
    requires Inv(s) && t in s.sessions && s.sessions[t].authenticated && s.sessions[t].nextChallenge == Some(proof)
    requires t in s.config
    ensures Inv(FinishExchange(s, t, proof, now, random, persist).state)
  {
    var o := FinishExchange(s, t, proof, now, random, persist);
    assert TerminalOk(s, t);
    if o.reply.Died? {
      var drawn := s.(nextNonce := s.nextNonce + 1);
      TouchKeepsInv(s, drawn, t);
      CrashKeepsInv(drawn);
    } else {
      AppendDistinct(s.accepted, Proof(t, proof));
      OnlineCount(s, o.state, t);
      TouchKeepsInv(s, o.state, t);
    }
  }

  lemma FinishLogoutKeepsInv(s: State, t: Serial, proof: Nonce, now: nat, random: bool, remove: Fate)
    requires Inv(s) && t in s.sessions && s.sessions[t].authenticated && s.sessions[t].nextChallenge == Some(proof)
    requires t in s.config && s.sessions[t].online
    ensures Inv(FinishLogout(s, t, proof, now, random, remove).state)
  {
    var o := FinishLogout(s, t, proof, now, random, remove);
    assert TerminalOk(s, t);
    AppendDistinct(s.accepted, Proof(t, proof));
    if o.reply.Died? {
      var s' := o.state;
      forall q ensures TerminalOk(s', q) {
        assert TerminalOk(s, q);
      }
      assert OnlineSessions(s') == {};
    } else {
      OnlineCount(s, o.state, t);
      TouchKeepsInv(s, o.state, t);
    }
  }

  lemma ExchangeKeepsInv(s: State, t: Serial, action: Action, proof: Option<Nonce>, payload: bool, now: nat,
                         random: bool,
                         resume: Fate, work: Fate, finish: Fate)
    requires Inv(s)
    ensures Inv(Exchange(s, t, action, proof, payload, now, random, resume, work, finish).state)
  {
    hide Inv, FinishLogout, FinishExchange, Crash;
    CrashKeepsInv(s);
    if Served(s, t) && t in s.sessions && s.sessions[t].authenticated && proof.Some?
       && proof == s.sessions[t].nextChallenge
    {
      ResumeKeepsInv(s, t);
      var heard := Resume(s, t);
      CrashKeepsInv(heard);
      if action.Logout? {
        FinishLogoutKeepsInv(heard, t, proof.value, now, random, finish);
      } else {
        FinishExchangeKeepsInv(heard, t, proof.value, now, random, finish);
      }
    }
  }

  // ----- Whole runs ----------------------------------------------------------

  lemma HandleKeepsInv(s: State, e: Step)
    requires Inv(s)
    ensures Inv(Handle(s, e).state)
  {
    match e {
      case OnAuthInfo(t, mode, now, persist, transition, restore) =>
        AuthInfoKeepsInv(s, t, mode, now, persist, transition, restore);
      case OnLogin(t, proof, now, random, expire, persist, transition, restore) =>
        LoginKeepsInv(s, t, proof, now, random, expire, persist, transition, restore);
      case OnExchange(t, action, proof, payload, now, random, resume, work, finish) =>
        ExchangeKeepsInv(s, t, action, proof, payload, now, random, resume, work, finish);
      case OnSweep(t, now, fate) => SweepKeepsInv(s, t, now, fate);
      case OnCrash => CrashKeepsInv(s);
      case OnRestart(config, now, startup) => RestartKeepsInv(s, config, now, startup);
    }
  }

  lemma {:induction false} RunKeepsInv(s: State, events: seq<Step>)
    requires Inv(s)
    ensures Inv(Run(s, events))
    decreases |events|
  {
    if events != [] {
      HandleKeepsInv(s, events[0]);
      RunKeepsInv(Handle(s, events[0]).state, events[1..]);
    }
  }

  lemma InitialInv(s: State)
    requires Initial(s)
    ensures Inv(s)
  {
    assert OnlineSessions(s) == {};
  }
}
