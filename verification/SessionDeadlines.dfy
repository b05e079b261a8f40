/**
 Time in the session protocol: a terminal counts as online for 60 seconds after
 the last challenge it was given, an unfinished handshake lives for three
 command intervals, and a restart takes back exactly the checkpoints that are
 still good.
 */
module SessionDeadlines {
  import opened Wrappers
  import opened Terminals
  import opened SessionModel
  import opened SessionInvariant
  import opened SessionTheorems
  import opened SessionService

  // ----- One sweep -----------------------------------------------------------

  /**
   A committed sweep takes an online session offline, in memory, in the database and in the gauge, exactly when the
   challenge is 60 seconds old; it removes a handshake, in memory and in the database, exactly when that is three
   command intervals old; and it changes nothing else.
   */
  lemma SweepExactly(s: State, t: Serial, now: nat)
    requires Inv(s) && Served(s, t) && t in s.sessions
    ensures var session := s.sessions[t];
            var next := Sweep(s, t, now, Commits).state;
            if session.online then
              && session.authenticated && session.nextChallengeAt.Some?
              && next == if now < session.nextChallengeAt.value + 60 then s
                         else s.(sessions := s.sessions[t := session.(online := false)],
                                 status := s.status[t := Offline], gauge := s.gauge - 1)
            else if session.authenticated then next == s
            else next == if now < session.createdAt + 3 * s.config[t].commandInterval then s
                         else s.(sessions := s.sessions - {t}, checkpoints := s.checkpoints - {t},
                                 status := s.status[t := Offline])
  {
    assert TerminalOk(s, t);
  }

  // ----- One sweep over the terminals ----------------------------------------

  /** A sweep at `now` would leave the terminal alone. */
  predicate AtRest(s: State, t: Serial, now: nat) {
    t in s.sessions ==>
      var session := s.sessions[t];
      if session.authenticated then
        session.online ==> session.nextChallengeAt.Some? && now < session.nextChallengeAt.value + 60
      else t in s.config && now < session.createdAt + 3 * s.config[t].commandInterval
  }

  /** The terminal's session, checkpoint and status are the same in both states. */
  predicate SameTerminal(s: State, s': State, t: Serial) {
    && s'.up == s.up && s'.config == s.config
    && (t in s'.sessions <==> t in s.sessions) && (t in s.sessions ==> s'.sessions[t] == s.sessions[t])
    && (t in s'.checkpoints <==> t in s.checkpoints) && (t in s.checkpoints ==> s'.checkpoints[t] == s.checkpoints[t])
    && (t in s'.status <==> t in s.status) && (t in s.status ==> s'.status[t] == s.status[t])
  }

  lemma {:induction false} RestingStays(s: State, terminals: seq<Serial>, locked: set<Serial>, now: nat, t: Serial)
    requires Inv(s) && s.up && AtRest(s, t, now)
    ensures SameTerminal(s, Run(s, Sweeps(terminals, locked, now, map[])), t)
    decreases |terminals|
  {
    if terminals != [] {
      var q := terminals[0];
      var sweeps := Sweeps(terminals, locked, now, map[]);
      var next := if q in locked then s else Sweep(s, q, now, Commits).state;
      assert q !in locked ==> sweeps[1..] == Sweeps(terminals[1..], locked, now, map[]);
      SweepKeepsInv(s, q, now, Commits);
      SweepOther(s, q, now, t);
      RestingStays(next, terminals[1..], locked, now, t);
    }
  }

  lemma SweepOther(s: State, q: Serial, now: nat, t: Serial)
    requires q != t || AtRest(s, t, now)
    ensures SameTerminal(s, Sweep(s, q, now, Commits).state, t)
  {
  }

  /** Maintenance whose store calls commit does to every terminal it visits what one sweep does. */
  lemma {:induction false} MaintainsEach(s: State, terminals: seq<Serial>, locked: set<Serial>, now: nat, t: Serial)
    requires Inv(s) && s.up && t in terminals && t !in locked
    ensures SameTerminal(Sweep(s, t, now, Commits).state, Run(s, Sweeps(terminals, locked, now, map[])), t)
    decreases |terminals|
  {
    var q := terminals[0];
    var sweeps := Sweeps(terminals, locked, now, map[]);
    var next := if q in locked then s else Sweep(s, q, now, Commits).state;
    assert q !in locked ==> sweeps[1..] == Sweeps(terminals[1..], locked, now, map[]);
    SweepKeepsInv(s, q, now, Commits);
    if q == t {
      SweepRests(s, t, now);
      RestingStays(next, terminals[1..], locked, now, t);
    } else {
      SweepOther(s, q, now, t);
      MaintainsEach(next, terminals[1..], locked, now, t);
      SameSweep(s, next, t, now);
    }
  }

  lemma SweepRests(s: State, t: Serial, now: nat)
    requires Inv(s)
    ensures AtRest(Sweep(s, t, now, Commits).state, t, now)
    ensures Sweep(s, t, now, Commits).state.up == s.up
  {
    assert TerminalOk(s, t);
  }

  lemma SameSweep(s: State, s': State, t: Serial, now: nat)
    requires SameTerminal(s, s', t)
    ensures SameTerminal(Sweep(s, t, now, Commits).state, Sweep(s', t, now, Commits).state, t)
  {
  }

  // ----- Between requests ----------------------------------------------------

  /** The session's time is not up: 60 seconds since its challenge, or three intervals since its handshake began. */
  predicate InTime(session: Session, terminal: Terminal, now: nat) {
    if session.authenticated then session.nextChallengeAt.Some? && now < session.nextChallengeAt.value + 60
    else now < session.createdAt + 3 * terminal.commandInterval
  }

  predicate Kept(s: State, t: Serial, session: Session, terminal: Terminal) {
    s.up && t in s.sessions && s.sessions[t] == session && t in s.config && s.config[t] == terminal
  }

  /** Nothing from this terminal, no crash or restart, and no sweep of it after its time is up. */
  predicate Undisturbed(e: Step, t: Serial, session: Session, terminal: Terminal) {
    !e.OnCrash? && !e.OnRestart? && (e.t == t ==> e.OnSweep? && InTime(session, terminal, e.now))
  }

  lemma KeptStays(s: State, e: Step, t: Serial, session: Session, terminal: Terminal)
    requires Kept(s, t, session, terminal) && Undisturbed(e, t, session, terminal)
    ensures Handle(s, e).state.up ==> Kept(Handle(s, e).state, t, session, terminal)
  {
    if e.t != t {
      HandleElsewhere(s, e, t);
    }
  }

  /** A process that died stays down until it is started again. */
  lemma {:induction false} DownStays(s: State, events: seq<Step>, t: Serial, session: Session, terminal: Terminal)
    requires !s.up && forall e :: e in events ==> Undisturbed(e, t, session, terminal)
    ensures !Run(s, events).up
    decreases |events|
  {
    if events != [] {
      assert events[0] in events && forall e :: e in events[1..] ==> e in events;
      DownStays(Handle(s, events[0]).state, events[1..], t, session, terminal);
    }
  }

  lemma {:induction false} KeptForever(s: State, events: seq<Step>, t: Serial, session: Session, terminal: Terminal)
    requires Kept(s, t, session, terminal) && forall e :: e in events ==> Undisturbed(e, t, session, terminal)
    requires Run(s, events).up
    ensures Kept(Run(s, events), t, session, terminal)
    decreases |events|
  {
    if events != [] {
      assert events[0] in events && forall e :: e in events[1..] ==> e in events;
      var next := Handle(s, events[0]).state;
      KeptStays(s, events[0], t, session, terminal);
      if !next.up {
        DownStays(next, events[1..], t, session, terminal);
      }
      KeptForever(next, events[1..], t, session, terminal);
    }
  }

  /** What an answered request leaves behind: its challenge dates from the request. */
  lemma AnsweredSession(s: State, e: Step)
    requires Inv(s) && (e.OnLogin? || e.OnExchange?) && (Handle(s, e).reply.LoggedIn? || Handle(s, e).reply.Answered?)
    ensures var after := Handle(s, e).state;
            && after.up && after.config == s.config && e.t in s.config && e.t in after.sessions
            && after.sessions[e.t].authenticated && after.sessions[e.t].online
            && after.sessions[e.t].nextChallengeAt == Some(e.now)
  {
    if e.OnExchange? {
      hide Perform;
      ExchangeRefreshes(s, e);
    } else {
      hide Exchange;
    }
  }

  lemma ExchangeRefreshes(s: State, e: Step)
    requires e.OnExchange? && Handle(s, e).reply.Answered?
    ensures e.t in s.sessions && s.sessions[e.t].authenticated && Served(s, e.t)
    ensures var after := Handle(s, e).state;
            && after.up && after.config == s.config && e.t in after.sessions
            && after.sessions[e.t].authenticated && after.sessions[e.t].online
            && after.sessions[e.t].nextChallengeAt == Some(e.now)
  {
    hide Perform;
    PerformRefreshes(Resume(s, e.t), e.t, e.action, e.proof.value, e.payload, e.now, e.random, e.work, e.finish);
  }

  lemma PerformRefreshes(s: State, t: Serial, action: Action, proof: Nonce, payload: bool, now: nat, random: bool,
                         work: Fate, finish: Fate)
    requires t in s.sessions && t in s.config
    requires Perform(s, t, action, proof, payload, now, random, work, finish).reply.Answered?
    ensures var after := Perform(s, t, action, proof, payload, now, random, work, finish).state;
            && after.up == s.up && after.config == s.config && t in after.sessions
            && after.sessions[t].authenticated == s.sessions[t].authenticated
            && after.sessions[t].online == s.sessions[t].online
            && after.sessions[t].nextChallengeAt == Some(now)
  {
  }

  /**
   After an answered request the terminal is online for 60 seconds, in memory and in the database, whatever else happens
   in the gateway; the first committed sweep from then on takes it offline, and none before.
   */
  lemma OnlineForAMinute(s: State, e: Step, events: seq<Step>, now: nat)
    requires Inv(s) && (e.OnLogin? || e.OnExchange?) && (Handle(s, e).reply.LoggedIn? || Handle(s, e).reply.Answered?)
    requires forall f :: f in events ==>
               !f.OnCrash? && !f.OnRestart? && (f.t == e.t ==> f.OnSweep? && f.now < e.now + 60)
    requires Run(Handle(s, e).state, events).up
    ensures var later := Run(Handle(s, e).state, events);
            var swept := Sweep(later, e.t, now, Commits).state;
            && e.t in later.sessions && later.sessions[e.t].online
            && e.t in later.status && later.status[e.t].Online?
            && (now < e.now + 60 ==> swept == later)
            && (now >= e.now + 60 ==>
                  swept == later.(sessions := later.sessions[e.t := later.sessions[e.t].(online := false)],
                                  status := later.status[e.t := Offline], gauge := later.gauge - 1))
  {
    hide Sweep, Handle, Inv;
    AnsweredSession(s, e);
    var after := Handle(s, e).state;
    KeptForever(after, events, e.t, after.sessions[e.t], s.config[e.t]);
    HandleKeepsInv(s, e);
    RunKeepsInv(after, events);
    var later := Run(after, events);
    assert TerminalOk(later, e.t) by { InvAt(later, e.t); }
    SweepExactly(later, e.t, now);
  }

  lemma InvAt(s: State, t: Serial)
    requires Inv(s)
    ensures TerminalOk(s, t)
  {
  }

  lemma ChallengedSession(s: State, e: Step)
    requires Inv(s) && e.OnAuthInfo? && Handle(s, e).reply.Challenged?
    ensures var after := Handle(s, e).state;
            && after.up && after.config == s.config && e.t in s.config && e.t in after.sessions
            && !after.sessions[e.t].authenticated && !after.sessions[e.t].online
            && after.sessions[e.t].loginChallenge == Handle(s, e).reply.challenge
            && after.sessions[e.t].createdAt == e.now
  {
  }

  /**
   After a handshake began, its challenge logs the terminal in for three command intervals, whatever else happens in the
   gateway. From then on the login is refused and removes the handshake, and so does the first committed sweep.
   */
  lemma HandshakeDeadline(s: State, e: Step, events: seq<Step>, now: nat)
    requires Inv(s) && e.OnAuthInfo? && Handle(s, e).reply.Challenged? && e.t in s.config
    requires forall f :: f in events ==>
               && !f.OnCrash? && !f.OnRestart?
               && (f.t == e.t ==> f.OnSweep? && f.now < e.now + 3 * s.config[e.t].commandInterval)
    requires Run(Handle(s, e).state, events).up
    ensures var deadline := e.now + 3 * s.config[e.t].commandInterval;
            var later := Run(Handle(s, e).state, events);
            var login := Login(later, e.t, Some(Handle(s, e).reply.challenge), now, true, Commits, Commits, Commits,
                               Commits);
            var swept := Sweep(later, e.t, now, Commits).state;
            && (login.reply.LoggedIn? <==> now < deadline)
            && (now < deadline ==> swept == later)
            && (now >= deadline ==>
                  && login.state == swept
                  && swept == later.(sessions := later.sessions - {e.t}, checkpoints := later.checkpoints - {e.t},
                                     status := later.status[e.t := Offline]))
  {
    hide Sweep, Handle, Inv;
    ChallengedSession(s, e);
    var after := Handle(s, e).state;
    KeptForever(after, events, e.t, after.sessions[e.t], s.config[e.t]);
    HandleKeepsInv(s, e);
    RunKeepsInv(after, events);
    SweepExactly(Run(after, events), e.t, now);
  }

  // ----- Restart -------------------------------------------------------------

  /**
   A complete start takes back exactly the checkpoints of configured terminals with an unchanged contract, 4096 rounds
   and challenges that fit, of which a handshake must be less than three command intervals old; it deletes the others.
   What it takes back is the session as stored, offline, with every terminal's status offline and the gauge at zero.
   */
  lemma RestartExactly(s: State, config: map<Serial, Terminal>, now: nat, t: Serial)
    ensures var after := Restart(s, config, now, Completes);
            var good := && t in s.checkpoints && t in config
                        && s.checkpoints[t].fingerprint == config[t].fingerprint
                        && s.checkpoints[t].iterations == 4096
                        && s.checkpoints[t].nextChallenge.Some? == s.checkpoints[t].authenticated
                        && s.checkpoints[t].nextChallengeAt.Some? == s.checkpoints[t].authenticated
                        && (s.checkpoints[t].authenticated
                            || now < s.checkpoints[t].createdAt + 3 * config[t].commandInterval);
            && (t in after.sessions <==> good) && (t in after.checkpoints <==> good)
            && (good ==>
                  && after.checkpoints[t] == s.checkpoints[t]
                  && PersistentState(after.sessions[t], config[t]) == s.checkpoints[t]
                  && after.sessions[t].mode == s.checkpoints[t].mode
                  && after.sessions[t].salt == s.checkpoints[t].salt
                  && after.sessions[t].loginChallenge == s.checkpoints[t].loginChallenge
                  && after.sessions[t].nextChallenge == s.checkpoints[t].nextChallenge
                  && after.sessions[t].createdAt == s.checkpoints[t].createdAt
                  && after.sessions[t].nextChallengeAt == s.checkpoints[t].nextChallengeAt
                  && after.sessions[t].authenticated == s.checkpoints[t].authenticated
                  && !after.sessions[t].online)
            && (t in config ==> t in after.status && after.status[t].Offline?)
            && after.up && after.config == config && after.gauge == 0
  {
    assert t in s.checkpoints ==>
        (t in Dropped(s, config, now) <==> !Restorable(s.checkpoints[t], t, config, now));
  }
}
