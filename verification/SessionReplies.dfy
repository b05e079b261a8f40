/**
 When each PushSDK request is granted, and the whole state it then leaves, in
 memory and in the database; and what a refused request leaves as it was.
 */
module SessionReplies {
  import opened Wrappers
  import opened Terminals
  import opened SessionModel

  // ----- AuthInfo ------------------------------------------------------------

  /**
   A handshake is granted exactly to a configured terminal with a known payload mode whose two store calls commit. It
   replaces the terminal's session by an unauthenticated one with a fresh salt and challenge, in memory and in the
   database.
   */
  lemma AuthInfoGrantedIff(s: State, t: Serial, mode: Option<Mode>, now: nat, persist: Fate, transition: Fate,
                           restore: Fate)
    ensures var o := AuthInfo(s, t, mode, now, persist, transition, restore);
            var wasOnline := t in s.sessions && s.sessions[t].online;
            && (o.reply.Challenged? <==>
                  s.up && t in s.config && mode.Some? && persist == Commits && transition == Commits)
            && (o.reply.Challenged? ==>
                  && o.reply.challenge == s.nextNonce + 1
                  && o.state == s.(nextNonce := s.nextNonce + 2,
                                   sessions := s.sessions[t := Session(mode.value, s.nextNonce, s.nextNonce + 1, None,
                                                                       4096, now, None, false, false)],
                                   checkpoints := s.checkpoints[t := Checkpoint(s.config[t].fingerprint, mode.value,
                                                                                s.nextNonce, s.nextNonce + 1, None,
                                                                                4096, now, None, false)],
                                   status := s.status[t := Authenticating],
                                   gauge := s.gauge - if wasOnline then 1 else 0))
  {
  }

  /** A refused handshake changes nothing but the draws, unless the undoing of its second store call fails too. */
  lemma AuthInfoRefusedKeeps(s: State, t: Serial, mode: Option<Mode>, now: nat, persist: Fate, transition: Fate,
                             restore: Fate)
    requires AuthInfo(s, t, mode, now, persist, transition, restore).reply.Rejected?
    requires transition.Fails? ==> restore.Commits? && (t in s.sessions ==> Storable(s.sessions[t]))
    ensures var after := AuthInfo(s, t, mode, now, persist, transition, restore).state;
            && after.status == s.status && after.gauge == s.gauge && after.leaked == s.leaked && after.up == s.up
            && after.sessions == s.sessions
            && (forall q :: q != t ==> (q in after.checkpoints <==> q in s.checkpoints)
                                       && (q in s.checkpoints ==> after.checkpoints[q] == s.checkpoints[q]))
            && (after.checkpoints == s.checkpoints
                || (t in s.sessions && t in after.checkpoints && t in s.config
                    && after.checkpoints[t] == PersistentState(s.sessions[t], s.config[t]))
                || (t !in s.sessions && t !in after.checkpoints))
  {
    if Served(s, t) && mode.Some? && persist.Commits? {
      var added := s.sessions[t := NewSession(s, mode.value, now)];
      if t in s.sessions {
        assert added[t := s.sessions[t]] == s.sessions;
      } else {
        assert added - {t} == s.sessions;
      }
    }
  }

  // ----- Login ---------------------------------------------------------------

  /**
   A login is granted exactly to a configured terminal with an unfinished handshake less than three command intervals
   old, for a proof of its challenge, when a new challenge can be drawn and the two store calls commit. The session is
   then authenticated and online with that challenge.
   */
  lemma LoginGrantedIff(s: State, t: Serial, proof: Option<Nonce>, now: nat, random: bool, expire: Fate, persist: Fate,
                        transition: Fate, restore: Fate)
    ensures var o := Login(s, t, proof, now, random, expire, persist, transition, restore);
            && (o.reply.LoggedIn? <==>
                  && s.up && t in s.config && t in s.sessions && !s.sessions[t].authenticated
                  && now < s.sessions[t].createdAt + 3 * s.config[t].commandInterval
                  && proof == Some(s.sessions[t].loginChallenge) && random
                  && persist == Commits && transition == Commits)
            && (o.reply.LoggedIn? ==>
                  var session := s.sessions[t].(nextChallenge := Some(s.nextNonce), nextChallengeAt := Some(now),
                                                authenticated := true, online := true);
                  && o.reply.challenge == s.nextNonce
                  && o.state == s.(nextNonce := s.nextNonce + 1, sessions := s.sessions[t := session],
                                   checkpoints := s.checkpoints[t := Checkpoint(s.config[t].fingerprint, session.mode,
                                                                                session.salt, session.loginChallenge,
                                                                                Some(s.nextNonce), session.iterations,
                                                                                session.createdAt, Some(now), true)],
                                   status := s.status[t := Online], gauge := s.gauge + 1,
                                   logins := s.logins + [Proof(t, session.loginChallenge)]))
  {
  }

  /** A refused login within the deadline leaves every session, every status and the gauge as they were. */
  lemma LoginRefusedKeeps(s: State, t: Serial, proof: Option<Nonce>, now: nat, random: bool, expire: Fate,
                          persist: Fate, transition: Fate, restore: Fate)
    requires Login(s, t, proof, now, random, expire, persist, transition, restore).reply.Rejected?
    requires t in s.sessions && t in s.config && !s.sessions[t].authenticated ==>
               now < s.sessions[t].createdAt + 3 * s.config[t].commandInterval
    ensures var after := Login(s, t, proof, now, random, expire, persist, transition, restore).state;
            && after.sessions == s.sessions && after.status == s.status && after.gauge == s.gauge && after.up == s.up
            && after.logins == s.logins
            && (!(persist.Commits? && transition.Fails?) ==> after.checkpoints == s.checkpoints)
  {
    if t in s.sessions {
      var next := s.sessions[t].(nextChallenge := Some(s.nextNonce), nextChallengeAt := Some(now),
                                 authenticated := true);
      assert s.sessions[t := next][t := s.sessions[t]] == s.sessions;
    }
  }

  // ----- Authenticated exchanges ---------------------------------------------

  /** The request can be performed: its proof is of the current challenge, and the terminal is or comes online. */
  predicate Entitled(s: State, t: Serial, proof: Option<Nonce>, resume: Fate) {
    && s.up && t in s.config && t in s.sessions && s.sessions[t].authenticated
    && proof.Some? && proof == s.sessions[t].nextChallenge && (s.sessions[t].online || resume == Commits)
  }

  /**
   An exchange is granted exactly to an authenticated session for a proof of its current challenge, when the payload is
   in order, a new challenge can be drawn and the store calls commit. The session is then online with the new challenge;
   after a logout it is gone, in memory and in the database.
   */
  lemma ExchangeGrantedIff(s: State, t: Serial, action: Action, proof: Option<Nonce>, payload: bool, now: nat,
                           random: bool, resume: Fate, work: Fate, finish: Fate)
    ensures var o := Exchange(s, t, action, proof, payload, now, random, resume, work, finish);
            var granted := && Entitled(s, t, proof, resume) && payload && random
                           && work == Commits && finish == Commits;
            && (o.reply.Answered? <==> granted && action != Logout)
            && (o.reply.LoggedOut? <==> granted && action == Logout)
  {
  }

  lemma AnsweredState(s: State, t: Serial, action: Action, proof: Option<Nonce>, payload: bool, now: nat,
                      random: bool, resume: Fate, work: Fate, finish: Fate)
    requires Exchange(s, t, action, proof, payload, now, random, resume, work, finish).reply.Answered?
    ensures t in s.sessions && t in s.config && proof.Some?
    ensures var o := Exchange(s, t, action, proof, payload, now, random, resume, work, finish);
            var session := s.sessions[t].(nextChallenge := Some(s.nextNonce), nextChallengeAt := Some(now),
                                          online := true);
            && o.reply.challenge == s.nextNonce
            && o.state.sessions == s.sessions[t := session]
            && o.state.checkpoints == s.checkpoints[t := Checkpoint(s.config[t].fingerprint, session.mode, session.salt,
                                                                    session.loginChallenge, Some(s.nextNonce),
                                                                    session.iterations, session.createdAt, Some(now),
                                                                    session.authenticated)]
            && o.state.status == (if s.sessions[t].online then s.status else s.status[t := Online])
            && o.state.gauge == s.gauge + (if s.sessions[t].online then 0 else 1)
            && o.state.accepted == s.accepted + [Proof(t, proof.value)] && o.state.nextNonce == s.nextNonce + 1
            && o.state.up && o.state.config == s.config
  {
  }

  lemma LoggedOutState(s: State, t: Serial, action: Action, proof: Option<Nonce>, payload: bool, now: nat,
                       random: bool, resume: Fate, work: Fate, finish: Fate)
    requires Exchange(s, t, action, proof, payload, now, random, resume, work, finish).reply.LoggedOut?
    ensures t in s.sessions && proof.Some?
    ensures var o := Exchange(s, t, action, proof, payload, now, random, resume, work, finish);
            && o.state.sessions == s.sessions - {t} && o.state.checkpoints == s.checkpoints - {t}
            && t in o.state.status && o.state.status[t] == Offline
            && o.state.gauge == s.gauge - (if s.sessions[t].online then 1 else 0)
            && o.state.accepted == s.accepted + [Proof(t, proof.value)] && o.state.up && o.state.config == s.config
  {
  }

  /**
   A refused exchange without the right proof changes nothing. With it, unless it is a logout whose transition
   committed, it only shows that the terminal is there: every challenge stays as it was, in memory and in the database.
   */
  lemma ExchangeRefusedKeeps(s: State, t: Serial, action: Action, proof: Option<Nonce>, payload: bool, now: nat,
                             random: bool, resume: Fate, work: Fate, finish: Fate)
    requires Exchange(s, t, action, proof, payload, now, random, resume, work, finish).reply.Rejected?
    requires !(action == Logout && work.Commits?)
    ensures var after := Exchange(s, t, action, proof, payload, now, random, resume, work, finish).state;
            && after.checkpoints == s.checkpoints && after.accepted == s.accepted && after.up == s.up
            && (!Entitled(s, t, proof, resume) ==> after == s)
            && (Entitled(s, t, proof, resume) ==>
                  && after.sessions == s.sessions[t := s.sessions[t].(online := true)]
                  && after.gauge == s.gauge + (if s.sessions[t].online then 0 else 1)
                  && (s.sessions[t].online ==> after.status == s.status)
                  && (!s.sessions[t].online ==> after.status == s.status[t := Online]))
  {
    hide Perform;
    if Entitled(s, t, proof, resume) {
      PerformRefusedKeeps(Resume(s, t), t, action, proof.value, payload, now, random, work, finish);
      assert s.sessions[t].online ==> s.sessions[t := s.sessions[t].(online := true)] == s.sessions;
    }
  }

  lemma PerformRefusedKeeps(s: State, t: Serial, action: Action, proof: Nonce, payload: bool, now: nat, random: bool,
                            work: Fate, finish: Fate)
    requires t in s.sessions && t in s.config && !(action == Logout && work.Commits?)
    requires Perform(s, t, action, proof, payload, now, random, work, finish).reply.Rejected?
    ensures var after := Perform(s, t, action, proof, payload, now, random, work, finish).state;
            after == s.(nextNonce := after.nextNonce)
  {
  }
}
