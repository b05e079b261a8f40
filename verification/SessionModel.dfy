/**
 The PushSDK session protocol: rotating challenges held in memory, their durable
 checkpoints, the idle sweep, and recovery after a restart
 (internal/pushsdk/service.go, internal/pushsdk/session.go).

 A handler is a function of the state and of the fate of each store call it
 makes: the call commits, fails without effect, or the process dies before it.
 Exchanges of one terminal are serialised by its lock; handlers of different
 terminals share only the gauge.
 */
module SessionModel {
  import opened Wrappers
  import opened Terminals

  /** A drawn challenge or salt. Draws never repeat, which the counter `nextNonce` stands for. */
  type Nonce = nat

  datatype Mode = Plaintext | Encrypted

  /** The configured protocol contract of a terminal; the fingerprint covers all of it. */
  datatype Terminal = Terminal(fingerprint: string, commandInterval: nat)

  datatype Session = Session(mode: Mode, salt: Nonce, loginChallenge: Nonce, nextChallenge: Option<Nonce>,
                             iterations: nat,
                             createdAt: nat, nextChallengeAt: Option<nat>, authenticated: bool, online: bool)

  datatype Checkpoint = Checkpoint(fingerprint: string, mode: Mode, salt: Nonce, loginChallenge: Nonce,
                                   nextChallenge: Option<Nonce>, iterations: nat, createdAt: nat,
                                   nextChallengeAt: Option<nat>, authenticated: bool)

  const ITERATIONS: nat := 4096
  const IDLE_TIMEOUT: nat := 60

  function PersistentState(session: Session, terminal: Terminal): Checkpoint {
    Checkpoint(terminal.fingerprint, session.mode, session.salt, session.loginChallenge, session.nextChallenge,
               session.iterations, session.createdAt, session.nextChallengeAt, session.authenticated)
  }

  predicate ValidStored(c: Checkpoint) {
    && c.iterations == ITERATIONS
    && (if c.authenticated then c.nextChallenge.Some? && c.nextChallengeAt.Some?
        else c.nextChallenge.None? && c.nextChallengeAt.None?)
  }

  /** The check on authenticated rows of pushsdk_sessions (db/schema.sql). */
  predicate Storable(session: Session) {
    if session.authenticated then session.nextChallenge.Some? && session.nextChallengeAt.Some?
    else session.nextChallenge.None? && session.nextChallengeAt.None?
  }

  predicate LoginExpired(createdAt: nat, terminal: Terminal, now: nat) {
    now >= createdAt + 3 * terminal.commandInterval
  }

  predicate IsIdle(session: Session, now: nat) {
    session.nextChallengeAt.None? || now >= session.nextChallengeAt.value + IDLE_TIMEOUT
  }

  // ----- State ---------------------------------------------------------------

  /** A challenge proved to a terminal's password is specific to that terminal. */
  datatype Proof = Proof(terminal: Serial, challenge: Nonce)

  /**
   Memory (`up`, `config`, `sessions`, `gauge`), the database (`checkpoints`, `status`), and what has happened:
   the exchanges and logins accepted so far, and the replacements of online sessions lost since the process started.
   */
  datatype State = State(up: bool, config: map<Serial, Terminal>, sessions: map<Serial, Session>, gauge: int,
                         checkpoints: map<Serial, Checkpoint>, status: map<Serial, Connection>,
                         nextNonce: Nonce, accepted: seq<Proof>, logins: seq<Proof>, leaked: nat)

  datatype Fate = Commits | Fails | Dies

  datatype Reply = Rejected | Died | Challenged(challenge: Nonce) | LoggedIn(challenge: Nonce)
                 | Answered(challenge: Nonce) | LoggedOut(challenge: Nonce)

  datatype Outcome = Outcome(state: State, reply: Reply)

  function Reject(s: State): Outcome { Outcome(s, Rejected) }

  /** The process dies: memory is gone, the database stays. */
  function Crash(s: State): State {
    s.(up := false, sessions := map[], gauge := 0, leaked := 0)
  }

  function Die(s: State): Outcome { Outcome(Crash(s), Died) }

  function SetStatus(s: State, t: Serial, connection: Connection): State {
    s.(status := s.status[t := connection])
  }

  function Persist(s: State, t: Serial): State
    requires t in s.sessions && t in s.config
  {
    s.(checkpoints := s.checkpoints[t := PersistentState(s.sessions[t], s.config[t])])
  }

  function SetSession(s: State, t: Serial, session: Session): State {
    s.(sessions := s.sessions[t := session])
  }

  predicate Served(s: State, t: Serial) { s.up && t in s.config }

  // ----- AuthInfo ------------------------------------------------------------

  function NewSession(s: State, mode: Mode, now: nat): Session {
    Session(mode, s.nextNonce, s.nextNonce + 1, None, ITERATIONS, now, None, false, false)
  }

  /** Puts back what AuthInfo replaced: its checkpoint first, then the session in memory. */
  function RestoreReplaced(s: State, t: Serial, previous: Option<Session>): State
    requires t in s.config
  {
    match previous
    case None => s.(checkpoints := s.checkpoints - {t}, sessions := s.sessions - {t})
    case Some(session) => Persist(SetSession(s, t, session), t)
  }

  function AuthInfo(s: State, t: Serial, mode: Option<Mode>, now: nat, persist: Fate, transition: Fate,
                    restore: Fate): Outcome {
    if !Served(s, t) || mode.None? then Reject(s)
    else
      var previous := if t in s.sessions then Some(s.sessions[t]) else None;
      var drawn := s.(nextNonce := s.nextNonce + 2);
      var started := SetSession(drawn, t, NewSession(s, mode.value, now));
      match persist
      case Dies => Die(drawn)
      case Fails => Reject(drawn)
      case Commits => FinishAuthInfo(Persist(started, t), t, previous, transition, restore)
  }

  function FinishAuthInfo(s: State, t: Serial, previous: Option<Session>, transition: Fate, restore: Fate): Outcome
    requires t in s.config && t in s.sessions
  {
    var replaced := if previous.Some? && previous.value.online then 1 else 0;
    match transition
    case Dies => Die(s)
    case Fails =>
      (match restore
       case Dies => Die(s)
       case Fails => Reject(s.(leaked := s.leaked + replaced))
       case Commits =>
         if previous.Some? && !Storable(previous.value) then Reject(s.(leaked := s.leaked + replaced))
         else Reject(RestoreReplaced(s, t, previous)))
    case Commits =>
      var moved := SetStatus(s, t, Authenticating);
      Outcome(moved.(gauge := moved.gauge - replaced), Challenged(s.sessions[t].loginChallenge))
  }

  // ----- Login ---------------------------------------------------------------

  /** Removes an unfinished handshake, its checkpoint and the terminal's claim to be reachable. */
  function ExpireLogin(s: State, t: Serial, fate: Fate): Outcome {
    match fate
    case Dies => Die(s)
    case Fails => Reject(s)
    case Commits => Reject(SetStatus(s.(checkpoints := s.checkpoints - {t}, sessions := s.sessions - {t}), t, Offline))
  }

  /** `proof` is the login challenge the request proves; None stands for any malformed or wrong request. */
  function Login(s: State, t: Serial, proof: Option<Nonce>, now: nat, random: bool,
                 expire: Fate, persist: Fate, transition: Fate, restore: Fate): Outcome
  {
    if !Served(s, t) || t !in s.sessions || s.sessions[t].authenticated then Reject(s)
    else if LoginExpired(s.sessions[t].createdAt, s.config[t], now) then ExpireLogin(s, t, expire)
    else if proof != Some(s.sessions[t].loginChallenge) || !random then Reject(s)
    else BeginLogin(s, t, now, persist, transition, restore)
  }

  function BeginLogin(s: State, t: Serial, now: nat, persist: Fate, transition: Fate, restore: Fate): Outcome
    requires t in s.config && t in s.sessions
  {
    var next := s.nextNonce;
    var drawn := s.(nextNonce := s.nextNonce + 1);
    var begun := SetSession(drawn, t, s.sessions[t].(nextChallenge := Some(next), nextChallengeAt := Some(now),
                                                     authenticated := true));
    match persist
    case Dies => Die(drawn)
    case Fails => Reject(drawn)
    case Commits => FinishLogin(Persist(begun, t), t, s.sessions[t], next, transition, restore)
  }

  function FinishLogin(s: State, t: Serial, previous: Session, next: Nonce, transition: Fate, restore: Fate): Outcome
    requires t in s.config && t in s.sessions
  {
    match transition
    case Dies => Die(s)
    case Fails =>
      var rolledBack := SetSession(s, t, previous);
      (match restore
       case Dies => Die(s)
       case Fails => Reject(rolledBack)
       case Commits => Reject(if Storable(previous) then Persist(rolledBack, t) else rolledBack))
    case Commits =>
      var moved := SetStatus(SetSession(s, t, s.sessions[t].(online := true)), t, Online);
      Outcome(moved.(gauge := moved.gauge + 1, logins := moved.logins + [Proof(t, previous.loginChallenge)]),
              LoggedIn(next))
  }

  // ----- Authenticated exchanges ---------------------------------------------

  datatype Action = CommandRequest | CommandResult | Event | Logout

  /** A session heard from again is online before anything else happens. */
  function Resume(s: State, t: Serial): State
    requires t in s.sessions
  {
    if s.sessions[t].online then s
    else
      var heard := SetStatus(SetSession(s, t, s.sessions[t].(online := true)), t, Online);
      heard.(gauge := heard.gauge + 1)
  }

  /** `work` is the fate of the store call of the action; for Logout that is the transition to offline. */
  function Exchange(s: State, t: Serial, action: Action, proof: Option<Nonce>, payload: bool, now: nat, random: bool,
                    resume: Fate, work: Fate, finish: Fate): Outcome
  {
    if !Served(s, t) || t !in s.sessions || !s.sessions[t].authenticated then Reject(s)
    else if proof.None? || proof != s.sessions[t].nextChallenge then Reject(s)
    else if !s.sessions[t].online && resume.Dies? then Die(s)
    else if !s.sessions[t].online && resume.Fails? then Reject(s)
    else Perform(Resume(s, t), t, action, proof.value, payload, now, random, work, finish)
  }

  function Perform(s: State, t: Serial, action: Action, proof: Nonce, payload: bool, now: nat, random: bool,
                   work: Fate, finish: Fate): Outcome
    requires t in s.sessions && t in s.config
  {
    if !payload then Reject(s)
    else
      match work
      case Dies => Die(s)
      case Fails => Reject(s)
      case Commits =>
        if action.Logout? then FinishLogout(s, t, proof, now, random, finish)
        else FinishExchange(s, t, proof, now, random, finish)
  }

  function Accept(s: State, t: Serial, challenge: Nonce): State {
    s.(accepted := s.accepted + [Proof(t, challenge)])
  }

  /** Draws the challenge of the next exchange. */
  function Rotate(s: State, t: Serial, now: nat): State
    requires t in s.sessions
  {
    SetSession(s.(nextNonce := s.nextNonce + 1), t,
               s.sessions[t].(nextChallenge := Some(s.nextNonce), nextChallengeAt := Some(now)))
  }

  function FinishExchange(s: State, t: Serial, proof: Nonce, now: nat, random: bool, persist: Fate): Outcome
    requires t in s.sessions && t in s.config
  {
    if !random then Reject(s)
    else
      var drawn := s.(nextNonce := s.nextNonce + 1);
      match persist
      case Dies => Die(drawn)
      case Fails => Reject(drawn)
      case Commits => Outcome(Accept(Persist(Rotate(s, t, now), t), t, proof), Answered(s.nextNonce))
  }

  /** The terminal says that it leaves: its session is neither online nor authenticated any more. */
  function LeaveOnline(s: State, t: Serial): State
    requires t in s.sessions
  {
    var away := SetStatus(SetSession(s, t, s.sessions[t].(authenticated := false, online := false)), t, Offline);
    away.(gauge := away.gauge - 1)
  }

  function FinishLogout(s: State, t: Serial, proof: Nonce, now: nat, random: bool, remove: Fate): Outcome
    requires t in s.sessions && t in s.config
  {
    var left := LeaveOnline(s, t);
    if !random then Reject(left)
    else
      var drawn := Rotate(left, t, now);
      match remove
      case Dies => Die(drawn)
      case Fails => Reject(drawn)
      case Commits =>
        Outcome(Accept(drawn.(checkpoints := drawn.checkpoints - {t}, sessions := drawn.sessions - {t}), t, proof),
                LoggedOut(left.nextNonce))
  }

  // ----- Maintenance and restart ---------------------------------------------

  function Sweep(s: State, t: Serial, now: nat, fate: Fate): Outcome {
    if !Served(s, t) || t !in s.sessions then Reject(s)
    else
      var session := s.sessions[t];
      if session.authenticated && session.online && IsIdle(session, now) then
        match fate
        case Dies => Die(s)
        case Fails => Reject(s)
        case Commits =>
          var idle := SetStatus(SetSession(s, t, session.(online := false)), t, Offline);
          Reject(idle.(gauge := idle.gauge - 1))
      else if !session.authenticated && LoginExpired(session.createdAt, s.config[t], now) then ExpireLogin(s, t, fate)
      else Reject(s)
  }

  /** A checkpoint is taken back unless it is foreign, outdated, malformed, or an expired handshake. */
  predicate Restorable(c: Checkpoint, t: Serial, config: map<Serial, Terminal>, now: nat) {
    && t in config && c.fingerprint == config[t].fingerprint && ValidStored(c)
    && (c.authenticated || !LoginExpired(c.createdAt, config[t], now))
  }

  /** Restored sessions start offline until the terminal is heard from. */
  function FromCheckpoint(c: Checkpoint): Session {
    Session(c.mode, c.salt, c.loginChallenge, c.nextChallenge, c.iterations, c.createdAt, c.nextChallengeAt,
            c.authenticated, false)
  }

  /** Every configured terminal is offline after a restart. */
  function Seeded(s: State, config: map<Serial, Terminal>): map<Serial, Connection> {
    map t | t in s.status.Keys + config.Keys :: if t in config then Offline else s.status[t]
  }

  datatype Startup = Completes | Stops(deleted: set<Serial>)

  function Dropped(s: State, config: map<Serial, Terminal>, now: nat): set<Serial> {
    set t | t in s.checkpoints && !Restorable(s.checkpoints[t], t, config, now)
  }

  /** Starting the process anew; a start that stops may have deleted some of the checkpoints to drop. */
  function Restart(s: State, config: map<Serial, Terminal>, now: nat, startup: Startup): State {
    var seeded := Crash(s).(config := config, status := Seeded(s, config));
    match startup
    case Stops(deleted) => seeded.(checkpoints := s.checkpoints - (Dropped(s, config, now) * deleted))
    case Completes =>
      var kept := s.checkpoints - Dropped(s, config, now);
      seeded.(up := true, checkpoints := kept, sessions := map t | t in kept :: FromCheckpoint(kept[t]))
  }

  // ----- Whole runs ----------------------------------------------------------

  datatype Step =
    | OnAuthInfo(t: Serial, mode: Option<Mode>, now: nat, persist: Fate, transition: Fate, restore: Fate)
    | OnLogin(t: Serial, proof: Option<Nonce>, now: nat, random: bool, expire: Fate, persist: Fate, transition: Fate,
              restore: Fate)
    | OnExchange(t: Serial, action: Action, proof: Option<Nonce>, payload: bool, now: nat, random: bool,
                 resume: Fate, work: Fate, finish: Fate)
    | OnSweep(t: Serial, now: nat, fate: Fate)
    | OnCrash
    | OnRestart(config: map<Serial, Terminal>, now: nat, startup: Startup)

  function Handle(s: State, e: Step): Outcome {
    match e
    case OnAuthInfo(t, mode, now, persist, transition, restore) =>
      AuthInfo(s, t, mode, now, persist, transition, restore)
    case OnLogin(t, proof, now, random, expire, persist, transition, restore) =>
      Login(s, t, proof, now, random, expire, persist, transition, restore)
    case OnExchange(t, action, proof, payload, now, random, resume, work, finish) =>
      Exchange(s, t, action, proof, payload, now, random, resume, work, finish)
    case OnSweep(t, now, fate) => Sweep(s, t, now, fate)
    case OnCrash => Die(s)
    case OnRestart(config, now, startup) => Reject(Restart(s, config, now, startup))
  }

  function Run(s: State, events: seq<Step>): State
    decreases |events|
  {
    if events == [] then s else Run(Handle(s, events[0]).state, events[1..])
  }

  /** Before the first start: any database, nothing accepted yet, and no challenge drawn twice. */
  predicate Initial(s: State) {
    && !s.up && s.sessions == map[] && s.gauge == 0 && s.leaked == 0 && s.accepted == [] && s.logins == []
    && forall t :: t in s.checkpoints ==> CheckpointBelow(s.checkpoints[t], s.nextNonce)
  }

  predicate CheckpointBelow(c: Checkpoint, bound: Nonce) {
    c.salt < bound && c.loginChallenge < bound && (c.nextChallenge.Some? ==> c.nextChallenge.value < bound)
  }
}
