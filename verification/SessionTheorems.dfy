/**
 What the session protocol guarantees through any interleaving of requests,
 sweeps, failed store calls, failed compensations, crashes and restarts.
 */
module SessionTheorems {
  import opened Wrappers
  import opened Terminals
  import opened SessionModel
  import opened SessionInvariant

  lemma ReachableInv(s: State, events: seq<Step>)
    requires Initial(s)
    ensures Inv(Run(s, events))
  {
    InitialInv(s);
    RunKeepsInv(s, events);
  }

  lemma {:induction false} RunConcat(s: State, a: seq<Step>, b: seq<Step>)
    ensures Run(s, a + b) == Run(Run(s, a), b)
    decreases |a|
  {
    if a == [] {
      assert a + b == b;
    } else {
      assert (a + b)[1..] == a[1..] + b;
      RunConcat(Handle(s, a[0]).state, a[1..], b);
    }
  }

  lemma RunSplit(s: State, events: seq<Step>, i: nat, j: nat)
    requires i < j <= |events|
    ensures Run(s, events[..j]) == Run(Handle(Run(s, events[..i]), events[i]).state, events[i + 1..j])
  {
    assert events[..j] == events[..i] + events[i..j];
    RunConcat(s, events[..i], events[i..j]);
    assert events[i..j][0] == events[i] && events[i..j][1..] == events[i + 1..j];
  }

  // ----- One request concerns one terminal -----------------------------------

  /** Terminal `t` is untouched, except that memory may be gone. */
  predicate Elsewhere(s: State, s': State, t: Serial) {
    && s.nextNonce <= s'.nextNonce
    && (t in s'.checkpoints <==> t in s.checkpoints) && (t in s.checkpoints ==> s'.checkpoints[t] == s.checkpoints[t])
    && (t in s'.sessions ==> t in s.sessions && s'.sessions[t] == s.sessions[t])
    && (s'.up ==> s.up && s'.config == s.config && (t in s.sessions ==> t in s'.sessions))
  }

  lemma AuthInfoElsewhere(s: State, t: Serial, mode: Option<Mode>, now: nat, persist: Fate, transition: Fate,
                          restore: Fate, q: Serial)
    requires q != t
    ensures Elsewhere(s, AuthInfo(s, t, mode, now, persist, transition, restore).state, q)
  {
  }

  lemma LoginElsewhere(s: State, t: Serial, proof: Option<Nonce>, now: nat, random: bool,
                       expire: Fate, persist: Fate, transition: Fate, restore: Fate, q: Serial)
    requires q != t
    ensures Elsewhere(s, Login(s, t, proof, now, random, expire, persist, transition, restore).state, q)
  {
    var o := Login(s, t, proof, now, random, expire, persist, transition, restore);
    if !o.reply.Died? {
      LoginTouches(s, t, proof, now, random, expire, persist, transition, restore);
      assert o.state.up == s.up;
    }
  }

  lemma PerformElsewhere(s: State, t: Serial, action: Action, proof: Nonce, payload: bool, now: nat, random: bool,
                         work: Fate, finish: Fate, q: Serial)
    requires q != t && t in s.sessions && t in s.config && s.up
    ensures Elsewhere(s, Perform(s, t, action, proof, payload, now, random, work, finish).state, q)
  {
  }

  lemma ExchangeElsewhere(s: State, t: Serial, action: Action, proof: Option<Nonce>, payload: bool, now: nat,
                          random: bool,
                          resume: Fate, work: Fate, finish: Fate, q: Serial)
    requires q != t
    ensures Elsewhere(s, Exchange(s, t, action, proof, payload, now, random, resume, work, finish).state, q)
  {
    if Served(s, t) && t in s.sessions && proof.Some? {
      var heard := Resume(s, t);
      assert Elsewhere(s, heard, q);
      PerformElsewhere(heard, t, action, proof.value, payload, now, random, work, finish, q);
      var last := Perform(heard, t, action, proof.value, payload, now, random, work, finish).state;
      assert Elsewhere(s, last, q);
      assert Elsewhere(s, s, q) && Elsewhere(s, Crash(s), q);
    }
  }

  lemma SweepElsewhere(s: State, t: Serial, now: nat, fate: Fate, q: Serial)
    requires q != t
    ensures Elsewhere(s, Sweep(s, t, now, fate).state, q)
  {
  }

  predicate Concerns(e: Step, t: Serial) { e.OnRestart? || e.OnCrash? || e.t == t }

  lemma HandleElsewhere(s: State, e: Step, t: Serial)
    requires !Concerns(e, t)
    ensures Elsewhere(s, Handle(s, e).state, t)
  {
    match e {
      case OnAuthInfo(q, mode, now, persist, transition, restore) =>
        AuthInfoElsewhere(s, q, mode, now, persist, transition, restore, t);
      case OnLogin(q, proof, now, random, expire, persist, transition, restore) =>
        LoginElsewhere(s, q, proof, now, random, expire, persist, transition, restore, t);
      case OnExchange(q, action, proof, payload, now, random, resume, work, finish) =>
        ExchangeElsewhere(s, q, action, proof, payload, now, random, resume, work, finish, t);
      case OnSweep(q, now, fate) => SweepElsewhere(s, q, now, fate, t);
    }
  }

  // ----- Memory and database agree -------------------------------------------

  /** A session that memory holds as authenticated is, field by field, the one the database would restore. */
  lemma AuthenticatedIsDurable(s: State, events: seq<Step>, t: Serial)
    requires Initial(s)
    requires t in Run(s, events).sessions && Run(s, events).sessions[t].authenticated
    ensures var now := Run(s, events);
            && t in now.config && t in now.checkpoints
            && now.checkpoints[t] == PersistentState(now.sessions[t], now.config[t])
            && FromCheckpoint(now.checkpoints[t]) == now.sessions[t].(online := false)
            && ValidStored(now.checkpoints[t])
  {
    ReachableInv(s, events);
    assert TerminalOk(Run(s, events), t);
  }

  /** An online session is authenticated, and the database says that its terminal is online. */
  lemma OnlineIsDurable(s: State, events: seq<Step>, t: Serial)
    requires Initial(s)
    requires IsOnline(Run(s, events), t)
    ensures var now := Run(s, events);
            now.up && now.sessions[t].authenticated && t in now.status && now.status[t] == Online
  {
    ReachableInv(s, events);
    assert TerminalOk(Run(s, events), t);
  }

  /** The terminal's checkpoint is authenticated and its next challenge is `c`, in memory as in the database. */
  predicate Exposed(s: State, t: Serial, c: Nonce) {
    && t in s.checkpoints && s.checkpoints[t].authenticated && s.checkpoints[t].nextChallenge == Some(c)
    && t in s.sessions && s.sessions[t].authenticated && s.sessions[t].nextChallenge == Some(c)
  }

  lemma LoginExposes(s: State, t: Serial, proof: Option<Nonce>, now: nat, random: bool,
                     expire: Fate, persist: Fate, transition: Fate, restore: Fate)
    ensures var o := Login(s, t, proof, now, random, expire, persist, transition, restore);
            o.reply.LoggedIn? ==> Exposed(o.state, t, o.reply.challenge) && o.state.config == s.config && o.state.up
  {
  }

  lemma PerformExposes(s: State, t: Serial, action: Action, proof: Nonce, payload: bool, now: nat, random: bool,
                       work: Fate, finish: Fate)
    requires t in s.sessions && t in s.config && s.sessions[t].authenticated
    ensures var o := Perform(s, t, action, proof, payload, now, random, work, finish);
            o.reply.Answered? ==> Exposed(o.state, t,
                                          o.reply.challenge) && o.state.config == s.config && o.state.up == s.up
  {
  }

  lemma ExchangeExposes(s: State, t: Serial, action: Action, proof: Option<Nonce>, payload: bool, now: nat,
                        random: bool,
                        resume: Fate, work: Fate, finish: Fate)
    ensures var o := Exchange(s, t, action, proof, payload, now, random, resume, work, finish);
            o.reply.Answered? ==> Exposed(o.state, t, o.reply.challenge) && o.state.config == s.config && o.state.up
  {
    if Served(s, t) && t in s.sessions && s.sessions[t].authenticated && proof.Some? {
      PerformExposes(Resume(s, t), t, action, proof.value, payload, now, random, work, finish);
    }
  }

  /** The challenge in an accepted Login or exchange was in the database before the terminal saw it. */
  lemma ExposedIsDurable(s: State, e: Step)
    requires Handle(s, e).reply.LoggedIn? || Handle(s, e).reply.Answered?
    ensures var o := Handle(s, e);
            (e.OnLogin? || e.OnExchange?) && Exposed(o.state, e.t,
                                                     o.reply.challenge) && o.state.config == s.config && o.state.up
  {
    if e.OnLogin? {
      LoginExposes(s, e.t, e.proof, e.now, e.random, e.expire, e.persist, e.transition, e.restore);
    } else if e.OnExchange? {
      ExchangeExposes(s, e.t, e.action, e.proof, e.payload, e.now, e.random, e.resume, e.work, e.finish);
    }
  }

  /**
   An answer goes out only after the action's own transaction committed; a failed one is refused and may be sent again.
   */
  lemma AnsweredMeansCommitted(s: State, e: Step)
    requires Handle(s, e).reply.Answered? || Handle(s, e).reply.LoggedOut?
    ensures e.OnExchange? && e.payload && e.work.Commits? && e.finish.Commits? && e.random
  {
    HandleRecords(s, e);
    if e.OnExchange? && Served(s, e.t) && e.t in s.sessions && s.sessions[e.t].authenticated && e.proof.Some? {
      PerformCommits(Resume(s, e.t), e.t, e.action, e.proof.value, e.payload, e.now, e.random, e.work, e.finish);
    }
  }

  lemma PerformCommits(s: State, t: Serial, action: Action, proof: Nonce, payload: bool, now: nat, random: bool,
                       work: Fate, finish: Fate)
    requires t in s.sessions && t in s.config
    ensures var o := Perform(s, t, action, proof, payload, now, random, work, finish);
            o.reply.Answered? || o.reply.LoggedOut? ==> payload && work.Commits? && finish.Commits? && random
  {
  }

  // ----- The gauge of active sessions ----------------------------------------

  lemma GaugeCounts(s: State, events: seq<Step>)
    requires Initial(s)
    ensures Run(s, events).gauge == |OnlineSessions(Run(s, events))| + Run(s, events).leaked
  {
    ReachableInv(s, events);
  }

  /** AuthInfo whose transition and compensation both fail. */
  predicate DoubleFailure(e: Step) { e.OnAuthInfo? && e.transition.Fails? && e.restore.Fails? }

  predicate OnlineIsStorable(s: State, t: Serial) { IsOnline(s, t) ==> Storable(s.sessions[t]) }

  lemma AuthInfoRecords(s: State, t: Serial, mode: Option<Mode>, now: nat, persist: Fate, transition: Fate,
                        restore: Fate)
    ensures var o := AuthInfo(s, t, mode, now, persist, transition, restore);
            && o.state.accepted == s.accepted && o.state.logins == s.logins
            && (o.reply.Rejected? || o.reply.Died? || o.reply.Challenged?)
            && (s.leaked == 0 && !(transition.Fails? && restore.Fails?) && OnlineIsStorable(s, t) ==>
                  o.state.leaked == 0)
  {
  }

  lemma LoginRecords(s: State, t: Serial, proof: Option<Nonce>, now: nat, random: bool,
                     expire: Fate, persist: Fate, transition: Fate, restore: Fate)
    ensures var o := Login(s, t, proof, now, random, expire, persist, transition, restore);
            && o.state.accepted == s.accepted && (s.leaked == 0 ==> o.state.leaked == 0)
            && if o.reply.LoggedIn? then
                 && t in s.sessions && !s.sessions[t].authenticated && proof == Some(s.sessions[t].loginChallenge)
                 && o.state.logins == s.logins + [Proof(t, s.sessions[t].loginChallenge)]
               else o.state.logins == s.logins && (o.reply.Rejected? || o.reply.Died?)
  {
  }

  lemma PerformRecords(s: State, t: Serial, action: Action, proof: Nonce, payload: bool, now: nat, random: bool,
                       work: Fate, finish: Fate)
    requires t in s.sessions && t in s.config
    ensures var o := Perform(s, t, action, proof, payload, now, random, work, finish);
            && o.state.logins == s.logins && (s.leaked == 0 ==> o.state.leaked == 0)
            && if o.reply.Answered? || o.reply.LoggedOut? then o.state.accepted == s.accepted + [Proof(t, proof)]
               else o.state.accepted == s.accepted && (o.reply.Rejected? || o.reply.Died?)
  {
  }

  lemma ExchangeRecords(s: State, t: Serial, action: Action, proof: Option<Nonce>, payload: bool, now: nat,
                        random: bool,
                        resume: Fate, work: Fate, finish: Fate)
    ensures var o := Exchange(s, t, action, proof, payload, now, random, resume, work, finish);
            && o.state.logins == s.logins && (s.leaked == 0 ==> o.state.leaked == 0)
            && if o.reply.Answered? || o.reply.LoggedOut? then
                 && proof.Some? && t in s.sessions && s.sessions[t].authenticated
                 && s.sessions[t].nextChallenge == proof
                 && o.state.accepted == s.accepted + [Proof(t, proof.value)]
               else o.state.accepted == s.accepted && (o.reply.Rejected? || o.reply.Died?)
  {
    if Served(s, t) && t in s.sessions && s.sessions[t].authenticated && proof.Some?
       && proof == s.sessions[t].nextChallenge
    {
      PerformRecords(Resume(s, t), t, action, proof.value, payload, now, random, work, finish);
    }
  }

  lemma SweepRecords(s: State, t: Serial, now: nat, fate: Fate)
    ensures var o := Sweep(s, t, now, fate);
            && o.state.accepted == s.accepted && o.state.logins == s.logins && (o.reply.Rejected? || o.reply.Died?)
            && (s.leaked == 0 ==> o.state.leaked == 0)
  {
  }

  lemma LeakStays(s: State, e: Step)
    requires Inv(s) && s.leaked == 0 && !DoubleFailure(e)
    ensures Handle(s, e).state.leaked == 0
  {
    HandleRecords(s, e);
    if e.OnAuthInfo? {
      assert TerminalOk(s, e.t);
      AuthInfoRecords(s, e.t, e.mode, e.now, e.persist, e.transition, e.restore);
    }
  }

  /** What one step adds to the record of accepted exchanges and of logins. */
  lemma HandleRecords(s: State, e: Step)
    ensures var o := Handle(s, e);
            && (!e.OnExchange? ==> o.state.accepted == s.accepted && !o.reply.Answered? && !o.reply.LoggedOut?)
            && (!e.OnLogin? ==> o.state.logins == s.logins && !o.reply.LoggedIn?)
            && (s.leaked == 0 && !e.OnAuthInfo? ==> o.state.leaked == 0)
  {
    match e {
      case OnAuthInfo(t, mode, now, persist, transition, restore) =>
        AuthInfoRecords(s, t, mode, now, persist, transition, restore);
      case OnLogin(t, proof, now, random, expire, persist, transition, restore) =>
        LoginRecords(s, t, proof, now, random, expire, persist, transition, restore);
      case OnExchange(t, action, proof, payload, now, random, resume, work, finish) =>
        ExchangeRecords(s, t, action, proof, payload, now, random, resume, work, finish);
      case OnSweep(t, now, fate) => SweepRecords(s, t, now, fate);
      case OnCrash =>
      case OnRestart(config, now, startup) =>
    }
  }

  lemma {:induction false} NoDoubleFailureNoLeak(s: State, events: seq<Step>)
    requires Inv(s) && s.leaked == 0 && forall e :: e in events ==> !DoubleFailure(e)
    ensures Run(s, events).leaked == 0
    decreases |events|
  {
    if events != [] {
      assert events[0] in events && forall e :: e in events[1..] ==> e in events;
      LeakStays(s, events[0]);
      HandleKeepsInv(s, events[0]);
      NoDoubleFailureNoLeak(Handle(s, events[0]).state, events[1..]);
    }
  }

  /** Without such a double failure the gauge is exactly the number of online sessions. */
  lemma GaugeExact(s: State, events: seq<Step>)
    requires Initial(s) && forall e :: e in events ==> !DoubleFailure(e)
    ensures Run(s, events).gauge == |OnlineSessions(Run(s, events))|
  {
    GaugeCounts(s, events);
    InitialInv(s);
    NoDoubleFailureNoLeak(s, events);
  }

  /**
   A double failure that replaces an online session leaves the gauge one too high; any other AuthInfo keeps its error.
   */
  lemma GaugeDrifts(s: State, e: Step)
    requires Inv(s) && e.OnAuthInfo?
    ensures var o := Handle(s, e);
            o.reply.Died? ||
            (o.state.gauge - |OnlineSessions(o.state)| == s.gauge - |OnlineSessions(s)|
             <==> !(Served(s, e.t) && e.mode.Some? && e.persist.Commits? && DoubleFailure(e) && IsOnline(s, e.t)))
  {
    assert TerminalOk(s, e.t);
    HandleKeepsInv(s, e);
  }

  // ----- A challenge is good for one exchange --------------------------------

  predicate AcceptedExchange(s: State, e: Step) {
    e.OnExchange? && (Handle(s, e).reply.Answered? || Handle(s, e).reply.LoggedOut?)
  }

  lemma AcceptedIsRecorded(s: State, e: Step)
    ensures AcceptedExchange(s, e) ==>
              && e.proof.Some? && e.t in s.sessions && s.sessions[e.t].authenticated
              && s.sessions[e.t].nextChallenge == e.proof
              && Handle(s, e).state.accepted == s.accepted + [Proof(e.t, e.proof.value)]
    ensures !AcceptedExchange(s, e) ==> Handle(s, e).state.accepted == s.accepted
  {
    if e.OnExchange? {
      ExchangeRecords(s, e.t, e.action, e.proof, e.payload, e.now, e.random, e.resume, e.work, e.finish);
    } else {
      HandleRecords(s, e);
    }
  }

  lemma {:induction false} AcceptedStays(s: State, events: seq<Step>, p: Proof)
    requires p in s.accepted
    ensures p in Run(s, events).accepted
    decreases |events|
  {
    if events != [] {
      AcceptedIsRecorded(s, events[0]);
      AcceptedStays(Handle(s, events[0]).state, events[1..], p);
    }
  }

  /** Over a whole run no challenge of a terminal authorises two accepted exchanges. */
  lemma ChallengeAcceptedOnce(s: State, events: seq<Step>, i: nat, j: nat)
    requires Initial(s) && i < j < |events|
    requires AcceptedExchange(Run(s, events[..i]), events[i]) && AcceptedExchange(Run(s, events[..j]), events[j])
    requires events[i].t == events[j].t
    ensures events[i].proof != events[j].proof
  {
    var first := Run(s, events[..i]);
    var later := Run(s, events[..j]);
    AcceptedIsRecorded(first, events[i]);
    AcceptedIsRecorded(later, events[j]);
    RunSplit(s, events, i, j);
    AcceptedStays(Handle(first, events[i]).state, events[i + 1..j], Proof(events[i].t, events[i].proof.value));
    ReachableInv(s, events[..j]);
    assert TerminalOk(later, events[j].t);
  }

  // ----- A login challenge is good for one login, unless a Logout went wrong -

  /** A Logout that took the terminal offline and then failed to draw a challenge or to delete the checkpoint. */
  predicate ErroredLogout(e: Step) {
    e.OnExchange? && e.action.Logout? && e.work.Commits? && (!e.random || e.finish.Fails?)
  }

  /** No session in memory has lost its authentication. */
  ghost predicate NoRevived(s: State) {
    forall t {:trigger NotRevived(s, t)} :: NotRevived(s, t)
  }

  predicate NotRevived(s: State, t: Serial) {
    t in s.sessions && !s.sessions[t].authenticated ==> s.sessions[t].nextChallenge.None?
  }

  lemma AuthInfoNotRevived(s: State, t: Serial, mode: Option<Mode>, now: nat, persist: Fate, transition: Fate,
                           restore: Fate)
    requires NotRevived(s, t)
    ensures NotRevived(AuthInfo(s, t, mode, now, persist, transition, restore).state, t)
  {
  }

  lemma LoginNotRevived(s: State, t: Serial, proof: Option<Nonce>, now: nat, random: bool,
                        expire: Fate, persist: Fate, transition: Fate, restore: Fate)
    requires NotRevived(s, t)
    ensures NotRevived(Login(s, t, proof, now, random, expire, persist, transition, restore).state, t)
  {
  }

  lemma PerformNotRevived(s: State, t: Serial, action: Action, proof: Nonce, payload: bool, now: nat, random: bool,
                          work: Fate, finish: Fate)
    requires t in s.sessions && t in s.config && s.sessions[t].authenticated
    requires !(action.Logout? && work.Commits? && (!random || finish.Fails?))
    ensures NotRevived(Perform(s, t, action, proof, payload, now, random, work, finish).state, t)
  {
  }

  lemma ExchangeNotRevived(s: State, t: Serial, action: Action, proof: Option<Nonce>, payload: bool, now: nat,
                           random: bool,
                           resume: Fate, work: Fate, finish: Fate)
    requires NotRevived(s, t) && !(action.Logout? && work.Commits? && (!random || finish.Fails?))
    ensures NotRevived(Exchange(s, t, action, proof, payload, now, random, resume, work, finish).state, t)
  {
    if Served(s, t) && t in s.sessions && s.sessions[t].authenticated && proof.Some? {
      PerformNotRevived(Resume(s, t), t, action, proof.value, payload, now, random, work, finish);
    }
  }

  lemma NotRevivedStays(s: State, e: Step, t: Serial)
    requires NotRevived(s, t) && !ErroredLogout(e)
    ensures NotRevived(Handle(s, e).state, t)
  {
    if !Concerns(e, t) {
      HandleElsewhere(s, e, t);
    } else {
      match e {
        case OnAuthInfo(_, mode, now, persist, transition, restore) =>
          AuthInfoNotRevived(s, t, mode, now, persist, transition, restore);
        case OnLogin(_, proof, now, random, expire, persist, transition, restore) =>
          LoginNotRevived(s, t, proof, now, random, expire, persist, transition, restore);
        case OnExchange(_, action, proof, payload, now, random, resume, work, finish) =>
          ExchangeNotRevived(s, t, action, proof, payload, now, random, resume, work, finish);
        case OnSweep(_, now, fate) =>
        case OnCrash =>
        case OnRestart(config, now, startup) =>
      }
    }
  }

  /** What a Login adds to the record of spent login challenges. */
  lemma LoginIsRecorded(s: State, e: Step)
    ensures Handle(s, e).reply.LoggedIn? ==>
              && e.OnLogin? && e.t in s.sessions && !s.sessions[e.t].authenticated
              && e.proof == Some(s.sessions[e.t].loginChallenge)
              && Handle(s, e).state.logins == s.logins + [Proof(e.t, s.sessions[e.t].loginChallenge)]
    ensures !Handle(s, e).reply.LoggedIn? ==> Handle(s, e).state.logins == s.logins
  {
    if e.OnLogin? {
      LoginRecords(s, e.t, e.proof, e.now, e.random, e.expire, e.persist, e.transition, e.restore);
    } else {
      HandleRecords(s, e);
    }
  }

  lemma {:induction false} LoginsDistinct(s: State, events: seq<Step>)
    requires Inv(s) && NoRevived(s) && Distinct(s.logins) && forall e :: e in events ==> !ErroredLogout(e)
    ensures Distinct(Run(s, events).logins)
    decreases |events|
  {
    if events != [] {
      var e := events[0];
      assert e in events && forall f :: f in events[1..] ==> f in events;
      LoginIsRecorded(s, e);
      if Handle(s, e).reply.LoggedIn? {
        assert TerminalOk(s, e.t) && NotRevived(s, e.t);
        AppendDistinct(s.logins, Proof(e.t, s.sessions[e.t].loginChallenge));
      }
      HandleKeepsInv(s, e);
      forall t ensures NotRevived(Handle(s, e).state, t) {
        assert NotRevived(s, t);
        NotRevivedStays(s, e, t);
      }
      LoginsDistinct(Handle(s, e).state, events[1..]);
    }
  }

  /** Over a run without an errored Logout, no login challenge is accepted twice. */
  lemma LoginAcceptedOnce(s: State, events: seq<Step>)
    requires Initial(s) && forall e :: e in events ==> !ErroredLogout(e)
    ensures Distinct(Run(s, events).logins)
  {
    InitialInv(s);
    LoginsDistinct(s, events);
  }

  /** A Login can replay a spent challenge only on a session whose authentication an errored Logout took away. */
  lemma ReplayNeedsErroredLogout(s: State, e: Step)
    requires Inv(s) && Handle(s, e).reply.LoggedIn?
    requires Proof(e.t, e.proof.value) in s.logins
    ensures !s.sessions[e.t].authenticated && s.sessions[e.t].nextChallenge.Some?
  {
    LoginIsRecorded(s, e);
    assert TerminalOk(s, e.t);
  }

  /** Conversely, after an errored Logout within the handshake deadline the same login is accepted once more. */
  lemma ErroredLogoutAllowsReplay(s: State, e: Step, now: nat)
    requires Inv(s) && ErroredLogout(e) && e.payload && e.resume.Commits?
    requires Served(s, e.t) && e.t in s.sessions && s.sessions[e.t].authenticated
    requires e.proof == s.sessions[e.t].nextChallenge
    requires !LoginExpired(s.sessions[e.t].createdAt, s.config[e.t], now)
    ensures var after := Handle(s, e);
            && after.reply.Rejected?
            && Login(after.state, e.t, Some(s.sessions[e.t].loginChallenge), now, true, Commits, Commits, Commits,
                     Commits)
               .reply.LoggedIn?
  {
    assert TerminalOk(s, e.t);
  }

  const NOTHING: State := State(false, map[], map[], 0, map[], map[], 0, [], [], 0)

  /** Terminal, configuration and session of the example: salt 0, login challenge 1, next challenge 2. */
  const EXAMPLE_CONFIG: map<Serial, Terminal> := map["GN0953967" := Terminal("contract", 5)]

  const EXAMPLE_LOGIN: Step := OnLogin("GN0953967", Some(1), 2, true, Commits, Commits, Commits, Commits)

  const EXAMPLE: seq<Step> :=
    [OnRestart(EXAMPLE_CONFIG, 0, Completes),
     OnAuthInfo("GN0953967", Some(Plaintext), 1, Commits, Commits, Commits),
     EXAMPLE_LOGIN,
     OnExchange("GN0953967", Logout, Some(2), true, 3, true, Commits, Commits, Fails),
     EXAMPLE_LOGIN]

  /** After the handshake of the example. */
  const CHALLENGED: State :=
    State(true, EXAMPLE_CONFIG,
          map["GN0953967" := Session(Plaintext, 0, 1, None, ITERATIONS, 1, None, false, false)], 0,
          map["GN0953967" := Checkpoint("contract", Plaintext, 0, 1, None, ITERATIONS, 1, None, false)],
          map["GN0953967" := Authenticating], 2, [], [], 0)

  lemma HandshakeExample()
    ensures Initial(NOTHING) && Handle(Handle(NOTHING, EXAMPLE[0]).state, EXAMPLE[1]).state == CHALLENGED
  {
    var s1 := Handle(NOTHING, EXAMPLE[0]).state;
    assert s1 == State(true, EXAMPLE_CONFIG, map[], 0, map[], map["GN0953967" := Offline], 0, [], [], 0);
  }

  lemma LoginExample()
    ensures var s := Run(NOTHING, EXAMPLE[..3]);
            && Initial(NOTHING) && s.up && s.config == EXAMPLE_CONFIG && s.leaked == 0
            && s.logins == [Proof("GN0953967", 1)]
            && s.sessions == map["GN0953967" := Session(Plaintext, 0, 1, Some(2), ITERATIONS, 1, Some(2), true, true)]
  {
    HandshakeExample();
    var s1 := Handle(NOTHING, EXAMPLE[0]).state;
    RunOne(CHALLENGED, EXAMPLE[2], []);
    RunOne(s1, EXAMPLE[1], [EXAMPLE[2]]);
    RunOne(NOTHING, EXAMPLE[0], [EXAMPLE[1], EXAMPLE[2]]);
    assert EXAMPLE[..3] == [EXAMPLE[0]] + [EXAMPLE[1], EXAMPLE[2]];
  }

  /** The same login challenge, accepted twice: handshake, login, a Logout whose delete fails, login again. */
  lemma LoginReplayExample()
    ensures Initial(NOTHING) && Run(NOTHING, EXAMPLE).logins == [Proof("GN0953967", 1), Proof("GN0953967", 1)]
  {
    LoginExample();
    var s3 := Run(NOTHING, EXAMPLE[..3]);
    var s4 := Handle(s3, EXAMPLE[3]).state;
    RunOne(s4, EXAMPLE_LOGIN, []);
    RunOne(s3, EXAMPLE[3], [EXAMPLE_LOGIN]);
    assert EXAMPLE == EXAMPLE[..3] + ([EXAMPLE[3]] + [EXAMPLE_LOGIN]);
    RunConcat(NOTHING, EXAMPLE[..3], [EXAMPLE[3]] + [EXAMPLE_LOGIN]);
  }

  /** AuthInfo over the online session, whose transition and compensation both fail. */
  const EXAMPLE_DRIFT: Step := OnAuthInfo("GN0953967", Some(Plaintext), 3, Commits, Fails, Fails)

  /** The gauge one too high: handshake, login, then that AuthInfo. */
  lemma GaugeDriftExample()
    ensures Initial(NOTHING)
    ensures var s := Run(NOTHING, EXAMPLE[..3] + [EXAMPLE_DRIFT]);
            s.up && s.gauge == 1 && OnlineSessions(s) == {}
  {
    LoginExample();
    var s3 := Run(NOTHING, EXAMPLE[..3]);
    InitialInv(NOTHING);
    RunKeepsInv(NOTHING, EXAMPLE[..3]);
    assert OnlineSessions(s3) == {"GN0953967"};
    RunOne(s3, EXAMPLE_DRIFT, []);
    assert [EXAMPLE_DRIFT] + [] == [EXAMPLE_DRIFT];
    RunConcat(NOTHING, EXAMPLE[..3], [EXAMPLE_DRIFT]);
    HandleKeepsInv(s3, EXAMPLE_DRIFT);
    GaugeAfterDrift(s3);
  }

  lemma GaugeAfterDrift(s: State)
    requires Inv(s) && s.up && s.config == EXAMPLE_CONFIG && OnlineSessions(s) == {"GN0953967"} && s.leaked == 0
    requires s.sessions.Keys == {"GN0953967"}
    ensures var o := Handle(s, EXAMPLE_DRIFT).state;
            o.up && o.gauge == 1 && OnlineSessions(o) == {}
  {
    var o := Handle(s, EXAMPLE_DRIFT).state;
    assert o.gauge == s.gauge == |{"GN0953967"}|;
    assert OnlineSessions(o) == {};
  }

  lemma RunOne(s: State, e: Step, rest: seq<Step>)
    ensures [e] + rest != [] && Run(s, [e] + rest) == Run(Handle(s, e).state, rest)
  {
    assert ([e] + rest)[1..] == rest;
  }

  // ----- Revocation ----------------------------------------------------------

  predicate SessionAbove(login: Nonce, next: Option<Nonce>, bound: Nonce) {
    login >= bound && (next.Some? ==> next.value >= bound)
  }

  /** Every challenge that memory or the database still holds for the terminal was drawn at or after `bound`. */
  predicate Above(s: State, t: Serial, bound: Nonce) {
    && bound <= s.nextNonce
    && (t in s.sessions ==> SessionAbove(s.sessions[t].loginChallenge, s.sessions[t].nextChallenge, bound))
    && (t in s.checkpoints ==> SessionAbove(s.checkpoints[t].loginChallenge, s.checkpoints[t].nextChallenge, bound))
  }

  lemma AuthInfoAbove(s: State, t: Serial, mode: Option<Mode>, now: nat, persist: Fate, transition: Fate, restore: Fate,
                      bound: Nonce)
    requires Above(s, t, bound)
    ensures Above(AuthInfo(s, t, mode, now, persist, transition, restore).state, t, bound)
  {
  }

  lemma LoginAbove(s: State, t: Serial, proof: Option<Nonce>, now: nat, random: bool,
                   expire: Fate, persist: Fate, transition: Fate, restore: Fate, bound: Nonce)
    requires Above(s, t, bound)
    ensures Above(Login(s, t, proof, now, random, expire, persist, transition, restore).state, t, bound)
  {
  }

  lemma PerformAbove(s: State, t: Serial, action: Action, proof: Nonce, payload: bool, now: nat, random: bool,
                     work: Fate, finish: Fate, bound: Nonce)
    requires t in s.sessions && t in s.config && Above(s, t, bound)
    ensures Above(Perform(s, t, action, proof, payload, now, random, work, finish).state, t, bound)
  {
  }

  lemma ExchangeAbove(s: State, t: Serial, action: Action, proof: Option<Nonce>, payload: bool, now: nat, random: bool,
                      resume: Fate, work: Fate, finish: Fate, bound: Nonce)
    requires Above(s, t, bound)
    ensures Above(Exchange(s, t, action, proof, payload, now, random, resume, work, finish).state, t, bound)
  {
    if Served(s, t) && t in s.sessions && proof.Some? {
      PerformAbove(Resume(s, t), t, action, proof.value, payload, now, random, work, finish, bound);
    }
  }

  lemma RestartAbove(s: State, config: map<Serial, Terminal>, now: nat, startup: Startup, t: Serial, bound: Nonce)
    requires Above(s, t, bound)
    ensures Above(Restart(s, config, now, startup), t, bound)
  {
  }

  lemma AboveStays(s: State, e: Step, t: Serial, bound: Nonce)
    requires Above(s, t, bound)
    ensures Above(Handle(s, e).state, t, bound)
  {
    if !Concerns(e, t) {
      HandleElsewhere(s, e, t);
    } else {
      match e {
        case OnAuthInfo(_, mode, now, persist, transition, restore) =>
          AuthInfoAbove(s, t, mode, now, persist, transition, restore, bound);
        case OnLogin(_, proof, now, random, expire, persist, transition, restore) =>
          LoginAbove(s, t, proof, now, random, expire, persist, transition, restore, bound);
        case OnExchange(_, action, proof, payload, now, random, resume, work, finish) =>
          ExchangeAbove(s, t, action, proof, payload, now, random, resume, work, finish, bound);
        case OnSweep(_, now, fate) =>
        case OnCrash =>
        case OnRestart(config, now, startup) => RestartAbove(s, config, now, startup, t, bound);
      }
    }
  }

  lemma {:induction false} AboveForever(s: State, events: seq<Step>, t: Serial, bound: Nonce)
    requires Above(s, t, bound)
    ensures Above(Run(s, events), t, bound)
    decreases |events|
  {
    if events != [] {
      AboveStays(s, events[0], t, bound);
      AboveForever(Handle(s, events[0]).state, events[1..], t, bound);
    }
  }

  lemma LogoutRevokes(s: State, t: Serial, action: Action, proof: Option<Nonce>, payload: bool, now: nat, random: bool,
                      resume: Fate, work: Fate, finish: Fate)
    ensures var o := Exchange(s, t, action, proof, payload, now, random, resume, work, finish);
            o.reply.LoggedOut? ==> t !in o.state.sessions && t !in o.state.checkpoints && Above(o.state, t, s.nextNonce)
  {
  }

  lemma AuthInfoRevokes(s: State, t: Serial, mode: Option<Mode>, now: nat, persist: Fate, transition: Fate,
                        restore: Fate)
    ensures var o := AuthInfo(s, t, mode, now, persist, transition, restore);
            o.reply.Challenged? ==> o.reply.challenge >= s.nextNonce && Above(o.state, t, s.nextNonce)
  {
  }

  /** An accepted Logout leaves nothing behind; an accepted AuthInfo leaves nothing but its own challenge. */
  lemma RevocationPoint(s: State, e: Step)
    requires Handle(s, e).reply.LoggedOut? || Handle(s, e).reply.Challenged?
    ensures e.OnExchange? || e.OnAuthInfo?
    ensures Above(Handle(s, e).state, e.t, s.nextNonce)
    ensures Handle(s, e).reply.LoggedOut? ==>
              e.OnExchange? && e.t !in Handle(s, e).state.sessions && e.t !in Handle(s, e).state.checkpoints
  {
    if e.OnExchange? {
      LogoutRevokes(s, e.t, e.action, e.proof, e.payload, e.now, e.random, e.resume, e.work, e.finish);
    } else if e.OnAuthInfo? {
      AuthInfoRevokes(s, e.t, e.mode, e.now, e.persist, e.transition, e.restore);
    }
  }

  /** What is accepted proves a challenge that is still held. */
  lemma AcceptedIsHeld(s: State, later: Step, t: Serial, bound: Nonce)
    requires Above(s, t, bound) && (AcceptedExchange(s, later) || Handle(s, later).reply.LoggedIn?)
    ensures (later.OnExchange? || later.OnLogin?)
    ensures later.t == t ==> later.proof.Some? && later.proof.value >= bound
  {
    AcceptedIsRecorded(s, later);
    LoginIsRecorded(s, later);
  }

  /** From there on, whatever happens, an accepted exchange or login of the terminal proves a challenge drawn later. */
  lemma RevokedForever(s: State, e: Step, events: seq<Step>, later: Step)
    requires Handle(s, e).reply.LoggedOut? || Handle(s, e).reply.Challenged?
    requires var reached := Run(Handle(s, e).state, events);
             AcceptedExchange(reached, later) || Handle(reached, later).reply.LoggedIn?
    ensures (e.OnExchange? || e.OnAuthInfo?) && (later.OnExchange? || later.OnLogin?)
    ensures later.t == e.t ==> later.proof.Some? && later.proof.value >= s.nextNonce
  {
    RevocationPoint(s, e);
    var after := Handle(s, e).state;
    AboveForever(after, events, e.t, s.nextNonce);
    AcceptedIsHeld(Run(after, events), later, e.t, s.nextNonce);
  }

  // ----- Continuity ----------------------------------------------------------

  /** The terminal can continue with challenge `c`: the database holds it, and memory too while the process is up. */
  predicate Held(s: State, t: Serial, terminal: Terminal, c: Nonce) {
    && t in s.checkpoints && s.checkpoints[t].authenticated && s.checkpoints[t].nextChallenge == Some(c)
    && ValidStored(s.checkpoints[t]) && s.checkpoints[t].fingerprint == terminal.fingerprint
    && (s.up ==>
          && t in s.config && s.config[t] == terminal
          && t in s.sessions && s.sessions[t].authenticated && s.sessions[t].nextChallenge == Some(c))
  }

  /** Anything but a request of this terminal, or a start with another configuration for it. */
  predicate Quiet(e: Step, t: Serial, terminal: Terminal) {
    match e
    case OnAuthInfo(q, _, _, _, _, _) => q != t
    case OnLogin(q, _, _, _, _, _, _, _) => q != t
    case OnExchange(q, _, _, _, _, _, _, _, _) => q != t
    case OnSweep(_, _, _) => true
    case OnCrash => true
    case OnRestart(config, _, _) => t in config && config[t] == terminal
  }

  lemma RestartHeld(s: State, config: map<Serial, Terminal>, now: nat, startup: Startup, t: Serial, terminal: Terminal,
                    c: Nonce)
    requires Held(s, t, terminal, c) && t in config && config[t] == terminal
    ensures Held(Restart(s, config, now, startup), t, terminal, c)
  {
  }

  lemma HeldStays(s: State, e: Step, t: Serial, terminal: Terminal, c: Nonce)
    requires Held(s, t, terminal, c) && Quiet(e, t, terminal)
    ensures Held(Handle(s, e).state, t, terminal, c)
  {
    if !Concerns(e, t) {
      HandleElsewhere(s, e, t);
    } else if e.OnRestart? {
      RestartHeld(s, e.config, e.now, e.startup, t, terminal, c);
    }
  }

  lemma {:induction false} HeldForever(s: State, events: seq<Step>, t: Serial, terminal: Terminal, c: Nonce)
    requires Held(s, t, terminal, c) && forall e :: e in events ==> Quiet(e, t, terminal)
    ensures Held(Run(s, events), t, terminal, c)
    decreases |events|
  {
    if events != [] {
      assert events[0] in events && forall e :: e in events[1..] ==> e in events;
      HeldStays(s, events[0], t, terminal, c);
      HeldForever(Handle(s, events[0]).state, events[1..], t, terminal, c);
    }
  }

  lemma ExposedIsHeld(s: State, t: Serial, c: Nonce)
    requires Inv(s) && s.up && Exposed(s, t, c)
    ensures t in s.config && Held(s, t, s.config[t], c)
  {
    assert TerminalOk(s, t);
  }

  lemma HeldIsAccepted(s: State, t: Serial, terminal: Terminal, c: Nonce, action: Action, now: nat)
    requires Held(s, t, terminal, c) && s.up
    ensures AcceptedExchange(s, OnExchange(t, action, Some(c), true, now, true, Commits, Commits, Commits))
  {
  }

  /** However long the silence, and through any crashes and restarts, the last challenge handed out is accepted. */
  lemma SilenceNeverRevokes(s: State, e: Step, events: seq<Step>, action: Action, now: nat)
    requires Inv(s) && (Handle(s, e).reply.LoggedIn? || Handle(s, e).reply.Answered?) && (e.OnLogin? || e.OnExchange?)
    requires e.t in s.config && forall f :: f in events ==> Quiet(f, e.t, s.config[e.t])
    requires Run(Handle(s, e).state, events).up
    ensures var challenge := Handle(s, e).reply.challenge;
            var later := Run(Handle(s, e).state, events);
            AcceptedExchange(later, OnExchange(e.t, action, Some(challenge), true, now, true, Commits, Commits,
                                               Commits))
  {
    var after, challenge := Handle(s, e).state, Handle(s, e).reply.challenge;
    ExposedIsDurable(s, e);
    HandleKeepsInv(s, e);
    ExposedIsHeld(after, e.t, challenge);
    HeldForever(after, events, e.t, s.config[e.t], challenge);
    HeldIsAccepted(Run(after, events), e.t, s.config[e.t], challenge, action, now);
  }
}
