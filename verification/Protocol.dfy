/** The login protocol as interleaved steps (handler_tfa.go, handler.go, over the atomic
    operations of storage_interface.go). Any number of requests are in flight; each step
    touches shared state at most once, and any steps of other requests, on this or another
    replica, may come between two steps of one request.

    Each step that touches the storage, emits a cookie or settles a check leaves an event;
    the run's log of events determines the storage and the cookies. */
module Protocol {
  import opened Wrappers
  import opened Users
  import opened Base64
  import PasswordHash
  import BackupCodes

  type ReqId = nat

  // Nanoseconds on the clock of whichever replica reads it: no two readings are related.
  type Time = int

  datatype LegacyAnswer = LegacyMatch | LegacyMismatch | LegacyFailure

  // The settings, and the library functions as functions of what they look at.
  datatype Config = Config(
    enableTFA: bool,
    enableRegistration: bool,
    enableUsernameLogin: bool,
    enableEmailLogin: bool,
    maxVerifyAttempts: int,
    backupCodeCount: int,
    pendingSessionTTL: Time,
    saltLength: nat,
    lower: Lower,
    verify: (string, string) -> PasswordHash.Verdict,       // VerifyPassword(password, hash)
    hash: (string, seq<Byte>) -> PasswordHash.Hashed,       // HashPassword(password) with this salt
    legacy: Option<(string, string) -> LegacyAnswer>,       // LegacyPasswordVerifier(password, hash)
    totp: (string, string, Time) -> bool,                   // validateTOTPCode(secret, code) at this time
    findMatch: (seq<string>, string) -> Option<string>,     // findBackupCodeMatch(hashes, code)
    issue: (seq<seq<nat>>, seq<seq<Byte>>) -> BackupCodes.Generated)  // generateBackupCodes

  // session.Values of a signed cookie.
  datatype Cookie = Cookie(
    userId: Option<UserId>,
    pendingUser: Option<UserId>,
    pendingExpiry: Option<int>,   // Unix milliseconds
    pendingSecret: Option<string>)

  const NO_VALUES := Cookie(None, None, None, None)

  function WithoutPending(c: Cookie): Cookie {
    c.(pendingUser := None, pendingExpiry := None)
  }

  // Time.UnixMilli
  function Millis(t: Time): int { t / 1_000_000 }

  const FIVE_MINUTES: Time := 300_000_000_000

  function TTL(cfg: Config): Time {
    if cfg.pendingSessionTTL <= 0 then FIVE_MINUTES else cfg.pendingSessionTTL
  }

  function Challenge(cfg: Config, c: Cookie, id: UserId, at: Time): Cookie {
    c.(userId := None, pendingUser := Some(id), pendingExpiry := Some(Millis(at + TTL(cfg))))
  }

  predicate NeedsTFA(cfg: Config, u: User) {
    cfg.enableTFA && u.security.totpEnabled && u.security.totpSecret.Some?
  }

  // The LegacyPasswordVerifier, if any, reports a match.
  predicate LegacyAccepts(cfg: Config, password: string, hash: string) {
    cfg.legacy.Some? && cfg.legacy.value(password, hash) == LegacyMatch
  }

  // Why a cookie was emitted.
  datatype Why =
    | ByRegistration(id: UserId)
    | ByPassword(id: UserId)
    | ByChallenge(id: UserId, at: Time)
    | ByCode(id: UserId)
    | BySetup(id: UserId, secret: string)
    | Resaved

  datatype Event =
    | UserRead(r: ReqId, user: User)                                     // a user was read from the storage
    | PasswordOk(r: ReqId, user: User, password: string)                 // handleLogin accepted the password
    | PasswordProved(r: ReqId, user: User, password: string)             // enable or disable did
    | Reread(r: ReqId, user: User)                                       // upgradePasswordHash read the same hash
    | Rehashed(r: ReqId, user: User)                                     // and wrote this user
    | Registered(r: ReqId, user: User)
    | Started(r: ReqId, id: UserId, cookie: Cookie, at: Time)            // verify found a live challenge
    | Reserved(r: ReqId, id: UserId)
    | Checked(r: ReqId, id: UserId, code: string)                        // a submitted code is being checked
    | TotpPassed(r: ReqId, user: User, code: string, at: Time)
    | CodeConsumed(r: ReqId, id: UserId, hash: string, at: Time)         // this call removed the hash
    | BudgetReset(r: ReqId, id: UserId)
    | Enrolled(r: ReqId, id: UserId, secret: string, hashes: seq<string>, at: Time, code: string, provedAt: Time)
    | Disenrolled(r: ReqId, id: UserId, at: Time)
    | Issued(r: ReqId, cookie: Cookie, why: Why)
    | Provisioned(r: ReqId, user: User)                                  // the application called CreateUser,
    | Updated(r: ReqId, user: User)                                      // UpdateUser
    | Deleted(r: ReqId, id: UserId)                                      // or DeleteUser

  // What an event did to the storage.
  function Effect(cfg: Config, t: Table, e: Event): Table {
    match e
    case Rehashed(_, u) => UpdateUser(cfg.lower, t, u).0
    case Registered(_, u) => CreateUser(cfg.lower, t, u).0
    case Reserved(_, id) => ConsumeTOTPAttempt(t, id, cfg.maxVerifyAttempts).0
    case CodeConsumed(_, id, hash, at) => ConsumeBackupCode(t, id, hash, at).0
    case BudgetReset(_, id) => ResetTOTPAttempts(t, id).0
    case Enrolled(_, id, secret, hashes, at, _, _) => SetTOTP(t, id, secret, hashes, at).0
    case Disenrolled(_, id, at) => ClearTOTP(t, id, at).0
    case Provisioned(_, u) => CreateUser(cfg.lower, t, u).0
    case Updated(_, u) => UpdateUser(cfg.lower, t, u).0
    case Deleted(_, id) => DeleteUser(t, id).0
    case _ => t
  }

  // ---- Requests in flight: the next step of the handler, and its local variables ----

  datatype Request =
    | LoginRead(ses: Cookie, identifier: string, password: string)
    | LoginVerify(ses: Cookie, user: User, password: string)
    | LoginRehash(ses: Cookie, user: User, password: string)
    | LoginReread(ses: Cookie, user: User, password: string, newHash: string)
    | LoginRewrite(ses: Cookie, user: User, password: string, was: User, current: User)
    | LoginResetBudget(ses: Cookie, user: User, password: string)
    | LoginChallenge(ses: Cookie, user: User, password: string)
    | LoginSession(ses: Cookie, user: User, password: string)
    | VerifyRead(ses: Cookie, id: UserId, code: string, isBackup: bool)
    | VerifyReserve(ses: Cookie, user: User, code: string, isBackup: bool)
    | VerifyCheck(ses: Cookie, user: User, code: string, isBackup: bool, remaining: int)
    | VerifyMatch(ses: Cookie, user: User, code: string, isBackup: bool, remaining: int)
    | VerifyConsume(ses: Cookie, user: User, code: string, remaining: int, hash: string)
    | VerifyResetBudget(ses: Cookie, user: User)
    | VerifySave(ses: Cookie, user: User)
    | VerifySession(ses: Cookie, user: User)
    | EndPending(ses: Cookie)
    | RegisterUsername(ses: Cookie, username: Option<string>, email: Option<string>, password: string)
    | RegisterEmail(ses: Cookie, username: Option<string>, email: Option<string>, password: string)
    | RegisterCreate(ses: Cookie, username: Option<string>, email: Option<string>, password: string)
    | RegisterSession(ses: Cookie, user: User)
    | SetupRead(ses: Cookie)
    | SetupSave(ses: Cookie, user: User, secret: string)
    | EnableRead(ses: Cookie, code: string, password: string)
    | EnableVerify(ses: Cookie, user: User, code: string, password: string)
    | EnableCode(ses: Cookie, user: User, code: string, password: string)
    | EnableStore(ses: Cookie, user: User, code: string, password: string, secret: string, hashes: seq<string>,
                  provedAt: Time)
    | EnableSave(ses: Cookie)
    | DisableRead(ses: Cookie, password: string)
    | DisableVerify(ses: Cookie, user: User, password: string)
    | DisableClear(ses: Cookie, user: User, password: string)
    | LogoutSave(ses: Cookie)

  // Clock readings, random numbers and the fate of a best-effort write.
  datatype Choice = Choice(at: Time, id: UserId, secret: string, salt: seq<Byte>, draws: seq<seq<nat>>,
                           salts: seq<seq<Byte>>, fails: bool)

  // What a step does: nothing, when the choice does not fit it; or it leaves an event, if
  // any, and goes on to the next step, if any.
  datatype Outcome = Stay | Go(event: Option<Event>, next: Option<Request>)

  const REJECT := Go(None, None)

  function Then(q: Request): Outcome { Go(None, Some(q)) }

  function AfterPassword(cfg: Config, ses: Cookie, user: User, password: string): Request {
    if NeedsTFA(cfg, user) then LoginResetBudget(ses, user, password) else LoginSession(ses, user, password)
  }

  // A failed code ends the challenge when it spent the last attempt.
  function AfterWrongCode(cfg: Config, ses: Cookie, remaining: int): Outcome {
    if cfg.maxVerifyAttempts > 0 && remaining == 0 then Then(EndPending(ses)) else REJECT
  }

  ghost function LoginStep(cfg: Config, t: Table, r: ReqId, q: Request, c: Choice): Outcome {
    match q
    case LoginRead(ses, identifier, password) =>
      var f := if '@' in identifier then Email else Username;
      if (if f == Email then !cfg.enableEmailLogin else !cfg.enableUsernameLogin) then REJECT
      else
        var found := Find(cfg.lower, f, t, identifier);
        if found.None? then REJECT
        else Go(Some(UserRead(r, found.value)), Some(LoginVerify(ses, found.value, password)))
    case LoginVerify(ses, user, password) =>
      var verdict := cfg.verify(password, user.profile.passwordHash);
      if verdict.valid then Go(Some(PasswordOk(r, user, password)), Some(AfterPassword(cfg, ses, user, password)))
      else if verdict.error.None? || !LegacyAccepts(cfg, password, user.profile.passwordHash) then REJECT
      else Go(Some(PasswordOk(r, user, password)), Some(LoginRehash(ses, user, password)))
    case LoginRehash(ses, user, password) =>
      if |c.salt| != cfg.saltLength then Stay
      else (
        match cfg.hash(password, c.salt)
        case Hash(text) => Then(LoginReread(ses, user, password, text))
        case BadLength => Then(AfterPassword(cfg, ses, user, password))
        case Panicked => REJECT
      )
    case LoginReread(ses, user, password, newHash) =>
      if user.id !in t || t[user.id].profile.passwordHash != user.profile.passwordHash then
        Then(AfterPassword(cfg, ses, user, password))
      else
        var current := t[user.id].(profile := t[user.id].profile.(passwordHash := newHash, updatedAt := c.at));
        Go(Some(Reread(r, t[user.id])), Some(LoginRewrite(ses, user, password, t[user.id], current)))
    case LoginRewrite(ses, user, password, was, current) =>
      var next := AfterPassword(cfg, ses, user, password);
      if c.fails || UpdateUser(cfg.lower, t, current).1 != Done then Then(next)
      else Go(Some(Rehashed(r, current)), Some(next))
    case LoginResetBudget(ses, user, password) =>
      if user.id !in t then REJECT
      else Go(Some(BudgetReset(r, user.id)), Some(LoginChallenge(ses, user, password)))
    case LoginChallenge(ses, user, password) =>
      Go(Some(Issued(r, Challenge(cfg, ses, user.id, c.at), ByChallenge(user.id, c.at))), None)
    case LoginSession(ses, user, password) =>
      Go(Some(Issued(r, ses.(userId := Some(user.id)), ByPassword(user.id))), None)
    case _ => Stay
  }

  function VerifyStep(cfg: Config, t: Table, r: ReqId, q: Request, c: Choice): Outcome {
    match q
    case VerifyRead(ses, id, code, isBackup) =>
      if id !in t || !t[id].security.totpEnabled || t[id].security.totpSecret.None? then REJECT
      else Go(Some(UserRead(r, t[id])), Some(VerifyReserve(ses, t[id], code, isBackup)))
    case VerifyReserve(ses, user, code, isBackup) =>
      if cfg.maxVerifyAttempts <= 0 then Then(VerifyCheck(ses, user, code, isBackup, 0))
      else (
        match ConsumeTOTPAttempt(t, user.id, cfg.maxVerifyAttempts).1
        case Remaining(n) => Go(Some(Reserved(r, user.id)), Some(VerifyCheck(ses, user, code, isBackup, n)))
        case Refused(AttemptsExhausted) => Then(EndPending(ses))
        case _ => REJECT
      )
    case VerifyCheck(ses, user, code, isBackup, remaining) =>
      Go(Some(Checked(r, user.id, code)), Some(VerifyMatch(ses, user, code, isBackup, remaining)))
    case VerifyMatch(ses, user, code, isBackup, remaining) =>
      if user.security.totpSecret.None? then REJECT
      else if !isBackup && cfg.totp(user.security.totpSecret.value, code, c.at) then
        Go(Some(TotpPassed(r, user, code, c.at)), Some(VerifyResetBudget(ses, user)))
      else if cfg.backupCodeCount <= 0 then AfterWrongCode(cfg, ses, remaining)
      else
        var found := cfg.findMatch(user.security.backupCodeHashes, code);
        if found.None? then AfterWrongCode(cfg, ses, remaining)
        else Then(VerifyConsume(ses, user, code, remaining, found.value))
    case VerifyConsume(ses, user, code, remaining, hash) =>
      (match ConsumeBackupCode(t, user.id, hash, c.at).1
       case Removed(true) => Go(Some(CodeConsumed(r, user.id, hash, c.at)), Some(VerifyResetBudget(ses, user)))
       case Removed(false) => AfterWrongCode(cfg, ses, remaining)
       case _ => REJECT)
    case VerifyResetBudget(ses, user) =>
      if user.id !in t then REJECT else Go(Some(BudgetReset(r, user.id)), Some(VerifySave(ses, user)))
    case VerifySave(ses, user) =>
      Go(Some(Issued(r, WithoutPending(ses), Resaved)), Some(VerifySession(WithoutPending(ses), user)))
    case VerifySession(ses, user) =>
      Go(Some(Issued(r, ses.(userId := Some(user.id)), ByCode(user.id))), None)
    case EndPending(ses) => Go(Some(Issued(r, WithoutPending(ses), Resaved)), None)
    case _ => Stay
  }

  ghost function RegisterStep(cfg: Config, t: Table, r: ReqId, q: Request, c: Choice): Outcome {
    match q
    case RegisterUsername(ses, username, email, password) =>
      if username.Some? && Find(cfg.lower, Username, t, username.value).Some? then REJECT
      else Then(RegisterEmail(ses, username, email, password))
    case RegisterEmail(ses, username, email, password) =>
      if email.Some? && Find(cfg.lower, Email, t, email.value).Some? then REJECT
      else Then(RegisterCreate(ses, username, email, password))
    case RegisterCreate(ses, username, email, password) =>
      if |c.salt| != cfg.saltLength then Stay
      else
        var h := cfg.hash(password, c.salt);
        if !h.Hash? then REJECT
        else
          var user := User(c.id, Profile(username, email, h.text, c.at, c.at, false, None), NO_TFA);
          if CreateUser(cfg.lower, t, user).1 != Done then REJECT
          else Go(Some(Registered(r, user)), Some(RegisterSession(ses, user)))
    case RegisterSession(ses, user) =>
      Go(Some(Issued(r, ses.(userId := Some(user.id)), ByRegistration(user.id))), None)
    case _ => Stay
  }

  // RequireAuth has let the request through as this user.
  function SessionUser(t: Table, ses: Cookie): Option<User> {
    if ses.userId.Some? && ses.userId.value in t then Some(t[ses.userId.value]) else None
  }

  function ManageStep(cfg: Config, t: Table, r: ReqId, q: Request, c: Choice): Outcome {
    match q
    case SetupRead(ses) =>
      var user := SessionUser(t, ses);
      if user.None? || user.value.security.totpEnabled then REJECT
      else Go(Some(UserRead(r, user.value)), Some(SetupSave(ses, user.value, c.secret)))
    case SetupSave(ses, user, secret) =>
      Go(Some(Issued(r, ses.(pendingSecret := Some(secret)), BySetup(user.id, secret))), None)
    case EnableRead(ses, code, password) =>
      var user := SessionUser(t, ses);
      if user.None? || user.value.security.totpEnabled then REJECT
      else Go(Some(UserRead(r, user.value)), Some(EnableVerify(ses, user.value, code, password)))
    case EnableVerify(ses, user, code, password) =>
      if !cfg.verify(password, user.profile.passwordHash).valid then REJECT
      else Go(Some(PasswordProved(r, user, password)), Some(EnableCode(ses, user, code, password)))
    case EnableCode(ses, user, code, password) =>
      if ses.pendingSecret.None? || ses.pendingSecret.value == "" then REJECT
      else if !cfg.totp(ses.pendingSecret.value, code, c.at) then REJECT
      else if cfg.backupCodeCount <= 0 then
        Then(EnableStore(ses, user, code, password, ses.pendingSecret.value, [], c.at))
      else
        var issued := cfg.issue(c.draws, c.salts);
        if !issued.Codes? then REJECT
        else Then(EnableStore(ses, user, code, password, ses.pendingSecret.value, issued.hashed, c.at))
    case EnableStore(ses, user, code, password, secret, hashes, provedAt) =>
      if user.id !in t then REJECT
      else Go(Some(Enrolled(r, user.id, secret, hashes, c.at, code, provedAt)), Some(EnableSave(ses)))
    case EnableSave(ses) => Go(Some(Issued(r, ses.(pendingSecret := None), Resaved)), None)
    case DisableRead(ses, password) =>
      var user := SessionUser(t, ses);
      if user.None? || !user.value.security.totpEnabled then REJECT
      else Go(Some(UserRead(r, user.value)), Some(DisableVerify(ses, user.value, password)))
    case DisableVerify(ses, user, password) =>
      if !cfg.verify(password, user.profile.passwordHash).valid then REJECT
      else Go(Some(PasswordProved(r, user, password)), Some(DisableClear(ses, user, password)))
    case DisableClear(ses, user, password) =>
      if user.id !in t then REJECT else Go(Some(Disenrolled(r, user.id, c.at)), None)
    case LogoutSave(ses) => Go(Some(Issued(r, ses, Resaved)), None)
    case _ => Stay
  }

  predicate OfLogin(q: Request) {
    || q.LoginRead? || q.LoginVerify? || q.LoginRehash? || q.LoginReread? || q.LoginRewrite?
    || q.LoginResetBudget? || q.LoginChallenge? || q.LoginSession?
  }

  predicate OfVerify(q: Request) {
    || q.VerifyRead? || q.VerifyReserve? || q.VerifyCheck? || q.VerifyMatch? || q.VerifyConsume?
    || q.VerifyResetBudget? || q.VerifySave? || q.VerifySession? || q.EndPending?
  }

  predicate OfRegister(q: Request) {
    q.RegisterUsername? || q.RegisterEmail? || q.RegisterCreate? || q.RegisterSession?
  }

  ghost function NextStep(cfg: Config, t: Table, r: ReqId, q: Request, c: Choice): Outcome {
    if OfLogin(q) then LoginStep(cfg, t, r, q, c)
    else if OfVerify(q) then VerifyStep(cfg, t, r, q, c)
    else if OfRegister(q) then RegisterStep(cfg, t, r, q, c)
    else ManageStep(cfg, t, r, q, c)
  }

  // ---- The machine ----

  // requests: those in flight; next: the ID of the next request.
  datatype State = State(store: Table, cookies: set<Cookie>, requests: map<ReqId, Request>, next: ReqId,
                         log: seq<Event>)

  function Initial(t: Table): State {
    State(t, {}, map[], 0, [])
  }

  // A client presents a cookie that was once emitted, however long ago, or none: anything
  // else fails the signature check and counts as none.
  datatype Action =
    | Login(presented: Cookie, identifier: string, password: string)
    | Register(presented: Cookie, username: Option<string>, email: Option<string>, password: string)
    | Verify(presented: Cookie, code: string, isBackup: bool, at: Time)
    | Setup(presented: Cookie)
    | Enable(presented: Cookie, code: string, password: string)
    | Disable(presented: Cookie, password: string)
    | Logout(presented: Cookie)
    | Advance(r: ReqId, choice: Choice)  // the next step of a request
    | Drop(r: ReqId)                     // a request ends early: bad input, storage error, crash
    | Provide(user: User)                // the application itself uses the storage
    | Write(user: User)
    | Remove(id: UserId)

  function Session(s: State, presented: Cookie): Cookie {
    if presented in s.cookies then presented else NO_VALUES
  }

  // handleTFAVerify up to its first read of the storage.
  function BeginVerify(cfg: Config, r: ReqId, ses: Cookie, code: string, isBackup: bool, at: Time): Outcome {
    var expiresAt := if ses.pendingExpiry.Some? then ses.pendingExpiry.value else 0;
    if !cfg.enableTFA || ses.pendingUser.None? then REJECT
    else if Millis(at) >= expiresAt then Then(EndPending(ses))
    else Go(Some(Started(r, ses.pendingUser.value, ses, at)),
            Some(VerifyRead(ses, ses.pendingUser.value, code, isBackup)))
  }

  function BeginRegister(cfg: Config, ses: Cookie, username: Option<string>, email: Option<string>,
                         password: string): Outcome {
    if !cfg.enableRegistration || (username.None? && email.None?) then REJECT
    else if username.Some? && !cfg.enableUsernameLogin then REJECT
    else if email.Some? && !cfg.enableEmailLogin then REJECT
    else Then(RegisterUsername(ses, username, email, password))
  }

  // What a new request, or a call of the application, does at once.
  function Begin(cfg: Config, s: State, a: Action): Outcome {
    match a
    case Login(p, identifier, password) => Then(LoginRead(Session(s, p), identifier, password))
    case Register(p, username, email, password) => BeginRegister(cfg, Session(s, p), username, email, password)
    case Verify(p, code, isBackup, at) => BeginVerify(cfg, s.next, Session(s, p), code, isBackup, at)
    case Setup(p) => if cfg.enableTFA then Then(SetupRead(Session(s, p))) else REJECT
    case Enable(p, code, password) => if cfg.enableTFA then Then(EnableRead(Session(s, p), code, password)) else REJECT
    case Disable(p, password) => if cfg.enableTFA then Then(DisableRead(Session(s, p), password)) else REJECT
    case Logout(p) => Then(LogoutSave(Session(s, p)))
    case Provide(u) =>
      if u.security == NO_TFA && CreateUser(cfg.lower, s.store, u).1 == Done then Go(Some(Provisioned(s.next, u)), None)
      else REJECT
    case Write(u) => Go(Some(Updated(s.next, u)), None)
    case Remove(id) => Go(Some(Deleted(s.next, id)), None)
    case _ => Stay
  }

  function CookieOf(e: Event): set<Cookie> {
    if e.Issued? then {e.cookie} else {}
  }

  // The step of request r with this outcome is taken.
  function Take(cfg: Config, s: State, r: ReqId, o: Outcome): State {
    if o.Stay? then s
    else
      var requests := if o.next.Some? then s.requests[r := o.next.value] else s.requests - {r};
      if o.event.None? then s.(requests := requests)
      else
        var e := o.event.value;
        s.(store := Effect(cfg, s.store, e), cookies := s.cookies + CookieOf(e), requests := requests,
           log := s.log + [e])
  }

  ghost function Step(cfg: Config, s: State, a: Action): State {
    match a
    case Advance(r, c) => if r in s.requests then Take(cfg, s, r, NextStep(cfg, s.store, r, s.requests[r], c)) else s
    case Drop(r) => s.(requests := s.requests - {r})
    case _ => Take(cfg, s, s.next, Begin(cfg, s, a)).(next := s.next + 1)
  }

  // Every sequence of actions is an interleaving.
  ghost function Exec(cfg: Config, s: State, actions: seq<Action>): State
    decreases |actions|
  {
    if actions == [] then s else Step(cfg, Exec(cfg, s, actions[..|actions| - 1]), actions[|actions| - 1])
  }

  // The storage after the events of a log.
  function Replay(cfg: Config, t: Table, log: seq<Event>): Table {
    if log == [] then t else Effect(cfg, Replay(cfg, t, log[..|log| - 1]), log[|log| - 1])
  }
}
