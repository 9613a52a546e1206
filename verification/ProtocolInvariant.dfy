/** What every run of the protocol keeps: each event in the log is justified by earlier
    ones, and the log accounts for the storage, the cookies and the requests in flight. */
module ProtocolInvariant {
  import opened Wrappers
  import opened Users
  import opened Protocol

  // ---- Justified logs ----

  // The events of one request come in increasing rank; so it leaves one of each rank at most.
  function Rank(e: Event): nat {
    match e
    case Started(_, _, _, _) => 0
    case UserRead(_, _) => 1
    case PasswordOk(_, _, _) => 2
    case PasswordProved(_, _, _) => 2
    case Reserved(_, _) => 2
    case Reread(_, _) => 3
    case Checked(_, _, _) => 3
    case Rehashed(_, _) => 4
    case TotpPassed(_, _, _, _) => 4
    case CodeConsumed(_, _, _, _) => 4
    case Registered(_, _) => 5
    case BudgetReset(_, _) => 5
    case Enrolled(_, _, _, _, _, _, _) => 5
    case Disenrolled(_, _, _) => 5
    case Issued(_, _, why) => if why == Resaved then 6 else 7
    case Provisioned(_, _) => 0
    case Updated(_, _) => 0
    case Deleted(_, _) => 0
  }

  ghost predicate RanksBelow(log: seq<Event>, r: ReqId, n: nat) {
    forall e | e in log && e.r == r :: Rank(e) < n
  }

  // verifyLoginPassword answers true.
  predicate Accepts(cfg: Config, password: string, hash: string) {
    var verdict := cfg.verify(password, hash);
    verdict.valid || (verdict.error.Some? && LegacyAccepts(cfg, password, hash))
  }

  predicate IsPasswordOf(e: Event, id: UserId) {
    (e.PasswordOk? || e.PasswordProved?) && e.user.id == id
  }

  predicate IsLoginOf(cfg: Config, e: Event, id: UserId, tfa: bool) {
    e.PasswordOk? && e.user.id == id && NeedsTFA(cfg, e.user) == tfa
  }

  predicate IsCodeOf(e: Event, id: UserId) {
    (e.TotpPassed? && e.user.id == id) || (e.CodeConsumed? && e.id == id)
  }

  predicate IsRegistrationOf(e: Event, id: UserId) {
    e.Registered? && e.user.id == id
  }

  predicate IsStartOf(e: Event, id: UserId) {
    e.Started? && e.id == id
  }

  predicate IsChallengeOf(cfg: Config, e: Event, id: UserId, expiry: int) {
    e.Issued? && e.why.ByChallenge? && e.why.id == id && expiry == Millis(e.why.at + TTL(cfg))
  }

  predicate IsSetupOf(e: Event, secret: string) {
    e.Issued? && e.why.BySetup? && e.why.secret == secret
  }

  // createSession emitted this cookie, for id.
  predicate IsGrantOf(e: Event, id: UserId) {
    e.Issued? && (e.why == ByRegistration(id) || e.why == ByPassword(id) || e.why == ByCode(id))
  }

  // A cookie of id comes to hold the secret here: id set it up, or the session on which
  // createSession ran for id still held it.
  predicate Brings(e: Event, id: UserId, secret: string) {
    || (IsSetupOf(e, secret) && e.why.id == id)
    || (IsGrantOf(e, id) && e.cookie.pendingSecret == Some(secret))
  }

  // createSession ran for id, without a second factor, on a session that held a challenge of other.
  predicate Mixes(e: Event, id: UserId, other: UserId) {
    e.Issued? && (e.why == ByRegistration(id) || e.why == ByPassword(id)) && e.cookie.pendingUser == Some(other)
  }

  // What may put a user ID into a cookie.
  predicate Grants(cfg: Config, e: Event, id: UserId) {
    IsRegistrationOf(e, id) || IsLoginOf(cfg, e, id, false) || IsCodeOf(e, id)
  }

  ghost predicate StartBy(log: seq<Event>, r: ReqId, id: UserId) {
    exists e :: e in log && e.r == r && IsStartOf(e, id)
  }

  ghost predicate PasswordBy(log: seq<Event>, r: ReqId, id: UserId) {
    exists e :: e in log && e.r == r && IsPasswordOf(e, id)
  }

  ghost predicate LoginBy(cfg: Config, log: seq<Event>, r: ReqId, id: UserId, tfa: bool) {
    exists e :: e in log && e.r == r && IsLoginOf(cfg, e, id, tfa)
  }

  ghost predicate CodeBy(log: seq<Event>, r: ReqId, id: UserId) {
    exists e :: e in log && e.r == r && IsCodeOf(e, id)
  }

  ghost predicate RegistrationBy(log: seq<Event>, r: ReqId, id: UserId) {
    exists e :: e in log && e.r == r && IsRegistrationOf(e, id)
  }

  ghost predicate Granted(cfg: Config, log: seq<Event>, id: UserId) {
    exists e :: e in log && Grants(cfg, e, id)
  }

  ghost predicate Challenged(cfg: Config, log: seq<Event>, id: UserId, expiry: int) {
    exists e :: e in log && IsChallengeOf(cfg, e, id, expiry)
  }

  ghost predicate SetUp(log: seq<Event>, secret: string) {
    exists e :: e in log && IsSetupOf(e, secret)
  }

  ghost predicate Brought(log: seq<Event>, id: UserId, secret: string) {
    exists e :: e in log && Brings(e, id, secret)
  }

  ghost predicate Mixed(log: seq<Event>, id: UserId, other: UserId) {
    exists e :: e in log && Mixes(e, id, other)
  }

  ghost predicate Known(log: seq<Event>, c: Cookie) {
    exists e :: e in log && e.Issued? && e.cookie == c
  }

  // A cookie's user ID was granted, its challenge, which has an expiry, was made, and its
  // pending secret was set up; and when two of these are together there is an event for it.
  ghost predicate CookieOk(cfg: Config, log: seq<Event>, c: Cookie) {
    && (c.userId.Some? ==> Granted(cfg, log, c.userId.value))
    && c.pendingUser.Some? == c.pendingExpiry.Some?
    && (c.pendingUser.Some? ==> Challenged(cfg, log, c.pendingUser.value, c.pendingExpiry.value))
    && (c.pendingSecret.Some? ==> SetUp(log, c.pendingSecret.value))
    && (c.userId.Some? && c.pendingSecret.Some? ==> Brought(log, c.userId.value, c.pendingSecret.value))
    && (c.userId.Some? && c.pendingUser.Some? ==> Mixed(log, c.userId.value, c.pendingUser.value))
  }

  ghost predicate Stored(cfg: Config, t: Table, log: seq<Event>, u: User) {
    u.id in Replay(cfg, t, log) && Replay(cfg, t, log)[u.id] == u
  }

  // The storage holds hash among the backup codes of id.
  ghost predicate HasCode(cfg: Config, t: Table, log: seq<Event>, id: UserId, hash: string) {
    id in Replay(cfg, t, log) && hash in Replay(cfg, t, log)[id].security.backupCodeHashes
  }

  ghost predicate BelowLimit(cfg: Config, t: Table, log: seq<Event>, id: UserId) {
    id in Replay(cfg, t, log) && Replay(cfg, t, log)[id].security.totpFailedAttempts < cfg.maxVerifyAttempts
  }

  ghost predicate Creatable(cfg: Config, t: Table, log: seq<Event>, u: User) {
    u.security == NO_TFA && CreateUser(cfg.lower, Replay(cfg, t, log), u).1 == Done
  }

  ghost predicate Writable(cfg: Config, t: Table, log: seq<Event>, u: User) {
    UpdateUser(cfg.lower, Replay(cfg, t, log), u).1 == Done
  }

  // Request r read this user, who was not enrolled.
  ghost predicate NewcomerBy(log: seq<Event>, r: ReqId, id: UserId) {
    exists user: User :: UserRead(r, user) in log && user.id == id && !user.security.totpEnabled
  }

  // The code that r submitted matches hash among the hashes that r read.
  ghost predicate MatchedBy(cfg: Config, log: seq<Event>, r: ReqId, id: UserId, hash: string) {
    exists user: User, code: string ::
      && user.id == id && UserRead(r, user) in log && Checked(r, id, code) in log
      && cfg.findMatch(user.security.backupCodeHashes, code) == Some(hash)
  }

  // Login r accepted a password against this very hash, which it then tries to replace.
  ghost predicate VerifiedHash(cfg: Config, log: seq<Event>, r: ReqId, id: UserId, hash: string) {
    exists user: User, password: string ::
      user.id == id && user.profile.passwordHash == hash && PasswordOk(r, user, password) in log
  }

  ghost predicate RereadBy(log: seq<Event>, r: ReqId, u: User) {
    exists was: User ::
      Reread(r, was) in log && was.id == u.id
      && u == was.(profile := was.profile.(passwordHash := u.profile.passwordHash, updatedAt := u.profile.updatedAt))
  }

  // The event may follow this log, which started from the table t.
  ghost predicate EventOk(cfg: Config, t: Table, log: seq<Event>, e: Event) {
    && RanksBelow(log, e.r, Rank(e))
    && match e
       case UserRead(r, u) => Stored(cfg, t, log, u)
       case PasswordOk(r, u, password) => UserRead(r, u) in log && Accepts(cfg, password, u.profile.passwordHash)
       case PasswordProved(r, u, password) =>
         UserRead(r, u) in log && cfg.verify(password, u.profile.passwordHash).valid
       case Reread(r, u) => Stored(cfg, t, log, u) && VerifiedHash(cfg, log, r, u.id, u.profile.passwordHash)
       case Rehashed(r, u) => RereadBy(log, r, u) && Writable(cfg, t, log, u)
       case Registered(r, u) => Creatable(cfg, t, log, u)
       case Started(r, id, c, at) =>
         && Known(log, c) && CookieOk(cfg, log, c)
         && c.pendingUser == Some(id) && c.pendingExpiry.Some? && Millis(at) < c.pendingExpiry.value
       case Reserved(r, id) => StartBy(log, r, id) && cfg.maxVerifyAttempts > 0 && BelowLimit(cfg, t, log, id)
       case Checked(r, id, code) => StartBy(log, r, id) && (cfg.maxVerifyAttempts > 0 ==> Reserved(r, id) in log)
       case TotpPassed(r, u, code, at) =>
         && StartBy(log, r, u.id) && UserRead(r, u) in log && Checked(r, u.id, code) in log
         && u.security.totpSecret.Some? && cfg.totp(u.security.totpSecret.value, code, at)
       case CodeConsumed(r, id, hash, at) =>
         StartBy(log, r, id) && MatchedBy(cfg, log, r, id, hash) && HasCode(cfg, t, log, id, hash)
       case BudgetReset(r, id) => PasswordBy(log, r, id) || CodeBy(log, r, id)
       case Enrolled(r, id, secret, hashes, at, code, provedAt) =>
         && PasswordBy(log, r, id) && cfg.totp(secret, code, provedAt) && id in Replay(cfg, t, log)
         && SetUp(log, secret) && Brought(log, id, secret)
       case Disenrolled(r, id, at) => PasswordBy(log, r, id)
       case Issued(r, c, why) => CookieOk(cfg, log + [e], c) && WhyOk(cfg, log, r, c, why)
       case Provisioned(r, u) => Creatable(cfg, t, log, u)
       case Updated(r, u) => true
       case Deleted(r, id) => true
  }

  ghost predicate WhyOk(cfg: Config, log: seq<Event>, r: ReqId, c: Cookie, why: Why) {
    match why
    case ByRegistration(id) => RegistrationBy(log, r, id) && c.userId == Some(id)
    case ByPassword(id) => LoginBy(cfg, log, r, id, false) && c.userId == Some(id)
    case ByChallenge(id, at) =>
      && LoginBy(cfg, log, r, id, true) && BudgetReset(r, id) in log
      && c.userId.None? && c.pendingUser == Some(id) && c.pendingExpiry == Some(Millis(at + TTL(cfg)))
    case ByCode(id) => CodeBy(log, r, id) && BudgetReset(r, id) in log && c.userId == Some(id) && c.pendingUser.None?
    case BySetup(id, secret) => NewcomerBy(log, r, id) && c.userId == Some(id) && c.pendingSecret == Some(secret)
    case Resaved => true
  }

  ghost predicate Justified(cfg: Config, t: Table, log: seq<Event>) {
    forall i | 0 <= i < |log| :: EventOk(cfg, t, log[..i], log[i])
  }

  lemma RankRises(cfg: Config, t: Table, log: seq<Event>, a: nat, b: nat)
    requires Justified(cfg, t, log) && a < b < |log| && log[a].r == log[b].r
    ensures Rank(log[a]) < Rank(log[b])
  {
    assert EventOk(cfg, t, log[..b], log[b]);
    assert log[..b][a] == log[a];
  }

  // ---- Requests in flight ----

  // All events that request r has left have a lower rank.
  function NextRank(q: Request): nat {
    match q
    case LoginRead(_, _, _) => 1
    case LoginVerify(_, _, _) => 2
    case LoginRehash(_, _, _) => 3
    case LoginReread(_, _, _, _) => 3
    case LoginRewrite(_, _, _, _, _) => 4
    case LoginResetBudget(_, _, _) => 5
    case LoginChallenge(_, _, _) => 6
    case LoginSession(_, _, _) => 6
    case VerifyRead(_, _, _, _) => 1
    case VerifyReserve(_, _, _, _) => 2
    case VerifyCheck(_, _, _, _, _) => 3
    case VerifyMatch(_, _, _, _, _) => 4
    case VerifyConsume(_, _, _, _, _) => 4
    case VerifyResetBudget(_, _) => 5
    case VerifySave(_, _) => 6
    case VerifySession(_, _) => 7
    case EndPending(_) => 6
    case RegisterUsername(_, _, _, _) => 0
    case RegisterEmail(_, _, _, _) => 0
    case RegisterCreate(_, _, _, _) => 0
    case RegisterSession(_, _) => 6
    case SetupRead(_) => 1
    case SetupSave(_, _, _) => 6
    case EnableRead(_, _, _) => 1
    case EnableVerify(_, _, _, _) => 2
    case EnableCode(_, _, _, _) => 3
    case EnableStore(_, _, _, _, _, _, _) => 3
    case EnableSave(_) => 6
    case DisableRead(_, _) => 1
    case DisableVerify(_, _, _) => 2
    case DisableClear(_, _, _) => 3
    case LogoutSave(_) => 0
  }

  // What the log already holds when request r is about to take this step.
  ghost predicate Facts(cfg: Config, log: seq<Event>, r: ReqId, q: Request) {
    match q
    case LoginVerify(_, user, _) => UserRead(r, user) in log
    case LoginRehash(_, user, password) => PasswordOk(r, user, password) in log
    case LoginReread(_, user, password, _) => PasswordOk(r, user, password) in log
    case LoginRewrite(_, user, password, was, current) =>
      && PasswordOk(r, user, password) in log && Reread(r, was) in log
      && was.id == current.id
      && current == was.(profile := was.profile.(passwordHash := current.profile.passwordHash,
                                                 updatedAt := current.profile.updatedAt))
    case LoginResetBudget(_, user, password) => PasswordOk(r, user, password) in log && NeedsTFA(cfg, user)
    case LoginChallenge(_, user, password) =>
      PasswordOk(r, user, password) in log && NeedsTFA(cfg, user) && BudgetReset(r, user.id) in log
    case LoginSession(_, user, password) => PasswordOk(r, user, password) in log && !NeedsTFA(cfg, user)
    case VerifyRead(_, id, _, _) => StartBy(log, r, id)
    case VerifyReserve(_, user, _, _) => StartBy(log, r, user.id) && UserRead(r, user) in log
    case VerifyCheck(_, user, _, _, _) =>
      && StartBy(log, r, user.id) && UserRead(r, user) in log
      && (cfg.maxVerifyAttempts > 0 ==> Reserved(r, user.id) in log)
    case VerifyMatch(_, user, code, _, _) =>
      StartBy(log, r, user.id) && UserRead(r, user) in log && Checked(r, user.id, code) in log
    case VerifyConsume(_, user, code, _, hash) =>
      && StartBy(log, r, user.id) && UserRead(r, user) in log && Checked(r, user.id, code) in log
      && cfg.findMatch(user.security.backupCodeHashes, code) == Some(hash)
    case VerifyResetBudget(_, user) => CodeBy(log, r, user.id)
    case VerifySave(_, user) => CodeBy(log, r, user.id) && BudgetReset(r, user.id) in log
    case VerifySession(ses, user) =>
      CodeBy(log, r, user.id) && BudgetReset(r, user.id) in log && ses.pendingUser.None?
    case RegisterSession(_, user) => RegistrationBy(log, r, user.id)
    case SetupSave(ses, user, _) =>
      UserRead(r, user) in log && !user.security.totpEnabled && ses.userId == Some(user.id)
    case EnableVerify(ses, user, _, _) => UserRead(r, user) in log && ses.userId == Some(user.id)
    case EnableCode(ses, user, _, password) => PasswordProved(r, user, password) in log && ses.userId == Some(user.id)
    case EnableStore(ses, user, code, password, secret, _, provedAt) =>
      && PasswordProved(r, user, password) in log && ses.userId == Some(user.id)
      && ses.pendingSecret == Some(secret) && cfg.totp(secret, code, provedAt)
    case DisableVerify(_, user, _) => UserRead(r, user) in log
    case DisableClear(_, user, password) => PasswordProved(r, user, password) in log
    case _ => true
  }

  ghost predicate RequestOk(cfg: Config, log: seq<Event>, r: ReqId, q: Request) {
    RanksBelow(log, r, NextRank(q)) && CookieOk(cfg, log, q.ses) && Facts(cfg, log, r, q)
  }

  // ---- The invariant ----

  ghost predicate RequestsOk(cfg: Config, s: State) {
    forall r | r in s.requests :: r < s.next && RequestOk(cfg, s.log, r, s.requests[r])
  }

  ghost predicate Inv(cfg: Config, t: Table, s: State) {
    && s.store == Replay(cfg, t, s.log)
    && Justified(cfg, t, s.log)
    && (forall c | c in s.cookies :: Known(s.log, c) && CookieOk(cfg, s.log, c))
    && RequestsOk(cfg, s)
    && (forall e | e in s.log :: e.r < s.next)
  }

  // The log only grows, so what it holds it goes on holding.
  lemma FactsGrow(cfg: Config, log: seq<Event>, e: Event, r: ReqId, q: Request)
    requires Facts(cfg, log, r, q)
    ensures Facts(cfg, log + [e], r, q)
  {
    assert forall x | x in log :: x in log + [e];
  }

  lemma CookieGrows(cfg: Config, log: seq<Event>, e: Event, c: Cookie)
    requires CookieOk(cfg, log, c)
    ensures CookieOk(cfg, log + [e], c)
  {
    assert forall x | x in log :: x in log + [e];
  }

  lemma OtherRequestsKeep(cfg: Config, log: seq<Event>, e: Event, r: ReqId, q: Request)
    requires RequestOk(cfg, log, r, q) && e.r != r
    ensures RequestOk(cfg, log + [e], r, q)
  {
    FactsGrow(cfg, log, e, r, q);
    CookieGrows(cfg, log, e, q.ses);
  }

  lemma JustifiedAppend(cfg: Config, t: Table, log: seq<Event>, e: Event)
    requires Justified(cfg, t, log) && EventOk(cfg, t, log, e)
    ensures Justified(cfg, t, log + [e])
  {
    var log' := log + [e];
    forall i | 0 <= i < |log'|
      ensures EventOk(cfg, t, log'[..i], log'[i])
    {
      if i < |log| {
        assert log'[..i] == log[..i];
      } else {
        assert log'[..i] == log;
      }
    }
  }

  // What an outcome must come with: a justified event, and a next step whose facts hold after it.
  ghost predicate OutcomeOk(cfg: Config, t: Table, log: seq<Event>, r: ReqId, o: Outcome) {
    o.Go? ==>
      && (o.event.Some? ==> o.event.value.r == r && EventOk(cfg, t, log, o.event.value))
      && (o.next.Some? ==>
            RequestOk(cfg, if o.event.Some? then log + [o.event.value] else log, r, o.next.value))
  }

  // Request r leaves e and goes on to q.
  lemma Leaves(cfg: Config, log: seq<Event>, r: ReqId, e: Event, q: Request)
    requires e.r == r && RanksBelow(log, r, Rank(e)) && Rank(e) < NextRank(q)
    requires CookieOk(cfg, log, q.ses)
    requires Facts(cfg, log + [e], r, q)
    ensures RequestOk(cfg, log + [e], r, q)
  {
    CookieGrows(cfg, log, e, q.ses);
  }

  // Request r goes on, if it does, with the same cookie: the event it leaves, if any, is
  // justified, and the facts it had, with that event, are what its next step relies on.
  lemma Proceeds(cfg: Config, t: Table, log: seq<Event>, r: ReqId, q: Request, o: Outcome)
    requires RequestOk(cfg, log, r, q)
    requires o.Go? && o.event.Some? ==> o.event.value.r == r && EventOk(cfg, t, log, o.event.value)
    requires o.Go? && o.next.Some? ==>
               && o.next.value.ses == q.ses
               && var log' := if o.event.Some? then log + [o.event.value] else log;
                  && (if o.event.Some? then Rank(o.event.value) < NextRank(o.next.value)
                      else NextRank(q) <= NextRank(o.next.value))
                  && (Facts(cfg, log', r, q) && (o.event.Some? ==> o.event.value in log')
                      ==> Facts(cfg, log', r, o.next.value))
    ensures OutcomeOk(cfg, t, log, r, o)
  {
    if o.Go? && o.next.Some? && o.event.Some? {
      FactsGrow(cfg, log, o.event.value, r, q);
      Leaves(cfg, log, r, o.event.value, o.next.value);
    }
  }

  // A cookie is saved again with the same user ID, challenge and secret, each of them or none.
  predicate Derived(c: Cookie, ses: Cookie) {
    && (c.userId == ses.userId || c.userId.None?)
    && ((c.pendingUser == ses.pendingUser && c.pendingExpiry == ses.pendingExpiry)
        || (c.pendingUser.None? && c.pendingExpiry.None?))
    && (c.pendingSecret == ses.pendingSecret || c.pendingSecret.None?)
  }

  lemma DerivedOk(cfg: Config, log: seq<Event>, c: Cookie, ses: Cookie)
    requires CookieOk(cfg, log, ses) && Derived(c, ses)
    ensures CookieOk(cfg, log, c)
  {
  }

  lemma ResaveOk(cfg: Config, t: Table, log: seq<Event>, r: ReqId, c: Cookie, ses: Cookie)
    requires CookieOk(cfg, log, ses) && Derived(c, ses) && RanksBelow(log, r, 6)
    ensures EventOk(cfg, t, log, Issued(r, c, Resaved))
  {
    DerivedOk(cfg, log, c, ses);
    CookieGrows(cfg, log, Issued(r, c, Resaved), c);
  }

  // Request r goes on to q without leaving an event.
  lemma Waits(cfg: Config, log: seq<Event>, r: ReqId, n: nat, q: Request)
    requires RanksBelow(log, r, n) && n <= NextRank(q)
    requires CookieOk(cfg, log, q.ses) && Facts(cfg, log, r, q)
    ensures RequestOk(cfg, log, r, q)
  {
  }

  // A grant vouches for the secret and, without a second factor, for the challenge that the
  // session still held.
  lemma GrantOk(cfg: Config, t: Table, log: seq<Event>, r: ReqId, ses: Cookie, id: UserId, why: Why)
    requires CookieOk(cfg, log, ses) && RanksBelow(log, r, 7)
    requires why == ByRegistration(id) || why == ByPassword(id) || why == ByCode(id)
    requires Granted(cfg, log, id) && WhyOk(cfg, log, r, ses.(userId := Some(id)), why)
    ensures EventOk(cfg, t, log, Issued(r, ses.(userId := Some(id)), why))
  {
    var e := Issued(r, ses.(userId := Some(id)), why);
    CookieGrows(cfg, log, e, ses.(userId := None));
    GrantedGrows(cfg, log, e, id);
    assert e in log + [e];
    assert ses.pendingSecret.Some? ==> Brings(e, id, ses.pendingSecret.value);
    assert ses.pendingUser.Some? ==> Mixes(e, id, ses.pendingUser.value);
  }

  lemma GrantedGrows(cfg: Config, log: seq<Event>, e: Event, id: UserId)
    requires Granted(cfg, log, id)
    ensures Granted(cfg, log + [e], id)
  {
    var g :| g in log && Grants(cfg, g, id);
    assert g in log + [e];
  }

  lemma LoginReadOk(cfg: Config, t: Table, log: seq<Event>, r: ReqId, q: Request, c: Choice)
    requires q.LoginRead? && RequestOk(cfg, log, r, q) && Keyed(Replay(cfg, t, log))
    ensures OutcomeOk(cfg, t, log, r, LoginStep(cfg, Replay(cfg, t, log), r, q, c))
  {
    Proceeds(cfg, t, log, r, q, LoginStep(cfg, Replay(cfg, t, log), r, q, c));
  }

  lemma LoginVerifyOk(cfg: Config, t: Table, log: seq<Event>, r: ReqId, q: Request, c: Choice)
    requires q.LoginVerify? && RequestOk(cfg, log, r, q)
    ensures OutcomeOk(cfg, t, log, r, LoginStep(cfg, Replay(cfg, t, log), r, q, c))
  {
    Proceeds(cfg, t, log, r, q, LoginStep(cfg, Replay(cfg, t, log), r, q, c));
  }

  lemma LoginRehashOk(cfg: Config, t: Table, log: seq<Event>, r: ReqId, q: Request, c: Choice)
    requires q.LoginRehash? && RequestOk(cfg, log, r, q)
    ensures OutcomeOk(cfg, t, log, r, LoginStep(cfg, Replay(cfg, t, log), r, q, c))
  {
  }

  lemma LoginRereadOk(cfg: Config, t: Table, log: seq<Event>, r: ReqId, q: Request, c: Choice)
    requires q.LoginReread? && RequestOk(cfg, log, r, q) && Keyed(Replay(cfg, t, log))
    ensures OutcomeOk(cfg, t, log, r, LoginStep(cfg, Replay(cfg, t, log), r, q, c))
  {
    Proceeds(cfg, t, log, r, q, LoginStep(cfg, Replay(cfg, t, log), r, q, c));
  }

  lemma LoginRewriteOk(cfg: Config, t: Table, log: seq<Event>, r: ReqId, q: Request, c: Choice)
    requires q.LoginRewrite? && RequestOk(cfg, log, r, q)
    ensures OutcomeOk(cfg, t, log, r, LoginStep(cfg, Replay(cfg, t, log), r, q, c))
  {
    Proceeds(cfg, t, log, r, q, LoginStep(cfg, Replay(cfg, t, log), r, q, c));
  }

  lemma LoginResetBudgetOk(cfg: Config, t: Table, log: seq<Event>, r: ReqId, q: Request, c: Choice)
    requires q.LoginResetBudget? && RequestOk(cfg, log, r, q)
    ensures OutcomeOk(cfg, t, log, r, LoginStep(cfg, Replay(cfg, t, log), r, q, c))
  {
    Proceeds(cfg, t, log, r, q, LoginStep(cfg, Replay(cfg, t, log), r, q, c));
  }

  lemma LoginChallengeOk(cfg: Config, t: Table, log: seq<Event>, r: ReqId, q: Request, c: Choice)
    requires q.LoginChallenge? && RequestOk(cfg, log, r, q)
    ensures OutcomeOk(cfg, t, log, r, LoginStep(cfg, Replay(cfg, t, log), r, q, c))
  {
    var e := Issued(r, Challenge(cfg, q.ses, q.user.id, c.at), ByChallenge(q.user.id, c.at));
    assert IsLoginOf(cfg, PasswordOk(r, q.user, q.password), q.user.id, true);
    assert e in log + [e] && IsChallengeOf(cfg, e, q.user.id, Millis(c.at + TTL(cfg)));
    assert LoginStep(cfg, Replay(cfg, t, log), r, q, c) == Go(Some(e), None);
  }

  lemma LoginSessionOk(cfg: Config, t: Table, log: seq<Event>, r: ReqId, q: Request, c: Choice)
    requires q.LoginSession? && RequestOk(cfg, log, r, q)
    ensures OutcomeOk(cfg, t, log, r, LoginStep(cfg, Replay(cfg, t, log), r, q, c))
  {
    assert IsLoginOf(cfg, PasswordOk(r, q.user, q.password), q.user.id, false);
    GrantOk(cfg, t, log, r, q.ses, q.user.id, ByPassword(q.user.id));
  }

  lemma VerifyReadOk(cfg: Config, t: Table, log: seq<Event>, r: ReqId, q: Request, c: Choice)
    requires q.VerifyRead? && RequestOk(cfg, log, r, q) && Keyed(Replay(cfg, t, log))
    ensures OutcomeOk(cfg, t, log, r, VerifyStep(cfg, Replay(cfg, t, log), r, q, c))
  {
    Proceeds(cfg, t, log, r, q, VerifyStep(cfg, Replay(cfg, t, log), r, q, c));
  }

  lemma VerifyReserveOk(cfg: Config, t: Table, log: seq<Event>, r: ReqId, q: Request, c: Choice)
    requires q.VerifyReserve? && RequestOk(cfg, log, r, q)
    ensures OutcomeOk(cfg, t, log, r, VerifyStep(cfg, Replay(cfg, t, log), r, q, c))
  {
    Proceeds(cfg, t, log, r, q, VerifyStep(cfg, Replay(cfg, t, log), r, q, c));
  }

  lemma VerifyCheckOk(cfg: Config, t: Table, log: seq<Event>, r: ReqId, q: Request, c: Choice)
    requires q.VerifyCheck? && RequestOk(cfg, log, r, q)
    ensures OutcomeOk(cfg, t, log, r, VerifyStep(cfg, Replay(cfg, t, log), r, q, c))
  {
    Proceeds(cfg, t, log, r, q, VerifyStep(cfg, Replay(cfg, t, log), r, q, c));
  }

  lemma VerifyTotpOk(cfg: Config, t: Table, log: seq<Event>, r: ReqId, q: Request, at: Time)
    requires q.VerifyMatch? && RequestOk(cfg, log, r, q)
    requires q.user.security.totpSecret.Some? && cfg.totp(q.user.security.totpSecret.value, q.code, at)
    ensures OutcomeOk(cfg, t, log, r,
                      Go(Some(TotpPassed(r, q.user, q.code, at)), Some(VerifyResetBudget(q.ses, q.user))))
  {
    var e := TotpPassed(r, q.user, q.code, at);
    assert e in log + [e] && IsCodeOf(e, q.user.id);
    Leaves(cfg, log, r, e, VerifyResetBudget(q.ses, q.user));
  }

  lemma VerifyMatchOk(cfg: Config, t: Table, log: seq<Event>, r: ReqId, q: Request, c: Choice)
    requires q.VerifyMatch? && RequestOk(cfg, log, r, q)
    ensures OutcomeOk(cfg, t, log, r, VerifyStep(cfg, Replay(cfg, t, log), r, q, c))
  {
    var secret := q.user.security.totpSecret;
    if secret.Some? && !q.isBackup && cfg.totp(secret.value, q.code, c.at) {
      VerifyTotpOk(cfg, t, log, r, q, c.at);
    } else {
      Proceeds(cfg, t, log, r, q, VerifyStep(cfg, Replay(cfg, t, log), r, q, c));
    }
  }

  lemma VerifyConsumeOk(cfg: Config, t: Table, log: seq<Event>, r: ReqId, q: Request, c: Choice)
    requires q.VerifyConsume? && RequestOk(cfg, log, r, q)
    ensures OutcomeOk(cfg, t, log, r, VerifyStep(cfg, Replay(cfg, t, log), r, q, c))
  {
    Proceeds(cfg, t, log, r, q, VerifyStep(cfg, Replay(cfg, t, log), r, q, c));
  }

  lemma VerifyResetBudgetOk(cfg: Config, t: Table, log: seq<Event>, r: ReqId, q: Request, c: Choice)
    requires q.VerifyResetBudget? && RequestOk(cfg, log, r, q)
    ensures OutcomeOk(cfg, t, log, r, VerifyStep(cfg, Replay(cfg, t, log), r, q, c))
  {
    Proceeds(cfg, t, log, r, q, VerifyStep(cfg, Replay(cfg, t, log), r, q, c));
  }

  lemma VerifySaveOk(cfg: Config, t: Table, log: seq<Event>, r: ReqId, q: Request, c: Choice)
    requires q.VerifySave? && RequestOk(cfg, log, r, q)
    ensures OutcomeOk(cfg, t, log, r, VerifyStep(cfg, Replay(cfg, t, log), r, q, c))
  {
    var e := Issued(r, WithoutPending(q.ses), Resaved);
    ResaveOk(cfg, t, log, r, e.cookie, q.ses);
    DerivedOk(cfg, log, e.cookie, q.ses);
    assert e in log + [e];
    FactsGrow(cfg, log, e, r, q);
    Leaves(cfg, log, r, e, VerifySession(e.cookie, q.user));
  }

  lemma VerifySessionOk(cfg: Config, t: Table, log: seq<Event>, r: ReqId, q: Request, c: Choice)
    requires q.VerifySession? && RequestOk(cfg, log, r, q)
    ensures OutcomeOk(cfg, t, log, r, VerifyStep(cfg, Replay(cfg, t, log), r, q, c))
  {
    GrantOk(cfg, t, log, r, q.ses, q.user.id, ByCode(q.user.id));
  }

  lemma EndPendingOk(cfg: Config, t: Table, log: seq<Event>, r: ReqId, q: Request, c: Choice)
    requires q.EndPending? && RequestOk(cfg, log, r, q)
    ensures OutcomeOk(cfg, t, log, r, VerifyStep(cfg, Replay(cfg, t, log), r, q, c))
  {
    ResaveOk(cfg, t, log, r, WithoutPending(q.ses), q.ses);
  }

  lemma RegisterCheckOk(cfg: Config, t: Table, log: seq<Event>, r: ReqId, q: Request, c: Choice)
    requires (q.RegisterUsername? || q.RegisterEmail?) && RequestOk(cfg, log, r, q)
    ensures OutcomeOk(cfg, t, log, r, RegisterStep(cfg, Replay(cfg, t, log), r, q, c))
  {
  }

  lemma RegisterCreateOk(cfg: Config, t: Table, log: seq<Event>, r: ReqId, q: Request, c: Choice)
    requires q.RegisterCreate? && RequestOk(cfg, log, r, q)
    ensures OutcomeOk(cfg, t, log, r, RegisterStep(cfg, Replay(cfg, t, log), r, q, c))
  {
    Proceeds(cfg, t, log, r, q, RegisterStep(cfg, Replay(cfg, t, log), r, q, c));
  }

  lemma RegisterSessionOk(cfg: Config, t: Table, log: seq<Event>, r: ReqId, q: Request, c: Choice)
    requires q.RegisterSession? && RequestOk(cfg, log, r, q)
    ensures OutcomeOk(cfg, t, log, r, RegisterStep(cfg, Replay(cfg, t, log), r, q, c))
  {
    GrantOk(cfg, t, log, r, q.ses, q.user.id, ByRegistration(q.user.id));
  }

  lemma SetupReadOk(cfg: Config, t: Table, log: seq<Event>, r: ReqId, q: Request, c: Choice)
    requires q.SetupRead? && RequestOk(cfg, log, r, q) && Keyed(Replay(cfg, t, log))
    ensures OutcomeOk(cfg, t, log, r, ManageStep(cfg, Replay(cfg, t, log), r, q, c))
  {
    Proceeds(cfg, t, log, r, q, ManageStep(cfg, Replay(cfg, t, log), r, q, c));
  }

  lemma SetupSaveOk(cfg: Config, t: Table, log: seq<Event>, r: ReqId, q: Request, c: Choice)
    requires q.SetupSave? && RequestOk(cfg, log, r, q)
    ensures OutcomeOk(cfg, t, log, r, ManageStep(cfg, Replay(cfg, t, log), r, q, c))
  {
    var saved := q.ses.(pendingSecret := Some(q.secret));
    var e := Issued(r, saved, BySetup(q.user.id, q.secret));
    CookieGrows(cfg, log, e, q.ses);
    assert e in log + [e] && IsSetupOf(e, q.secret);
  }

  lemma EnableReadOk(cfg: Config, t: Table, log: seq<Event>, r: ReqId, q: Request, c: Choice)
    requires q.EnableRead? && RequestOk(cfg, log, r, q) && Keyed(Replay(cfg, t, log))
    ensures OutcomeOk(cfg, t, log, r, ManageStep(cfg, Replay(cfg, t, log), r, q, c))
  {
    Proceeds(cfg, t, log, r, q, ManageStep(cfg, Replay(cfg, t, log), r, q, c));
  }

  lemma EnableVerifyOk(cfg: Config, t: Table, log: seq<Event>, r: ReqId, q: Request, c: Choice)
    requires q.EnableVerify? && RequestOk(cfg, log, r, q)
    ensures OutcomeOk(cfg, t, log, r, ManageStep(cfg, Replay(cfg, t, log), r, q, c))
  {
    Proceeds(cfg, t, log, r, q, ManageStep(cfg, Replay(cfg, t, log), r, q, c));
  }

  lemma EnableCodeOk(cfg: Config, t: Table, log: seq<Event>, r: ReqId, q: Request, c: Choice)
    requires q.EnableCode? && RequestOk(cfg, log, r, q)
    ensures OutcomeOk(cfg, t, log, r, ManageStep(cfg, Replay(cfg, t, log), r, q, c))
  {
    Proceeds(cfg, t, log, r, q, ManageStep(cfg, Replay(cfg, t, log), r, q, c));
  }

  lemma EnableStoreOk(cfg: Config, t: Table, log: seq<Event>, r: ReqId, q: Request, c: Choice)
    requires q.EnableStore? && RequestOk(cfg, log, r, q)
    ensures OutcomeOk(cfg, t, log, r, ManageStep(cfg, Replay(cfg, t, log), r, q, c))
  {
    Proceeds(cfg, t, log, r, q, ManageStep(cfg, Replay(cfg, t, log), r, q, c));
  }

  lemma EnableSaveOk(cfg: Config, t: Table, log: seq<Event>, r: ReqId, q: Request, c: Choice)
    requires q.EnableSave? && RequestOk(cfg, log, r, q)
    ensures OutcomeOk(cfg, t, log, r, ManageStep(cfg, Replay(cfg, t, log), r, q, c))
  {
    ResaveOk(cfg, t, log, r, q.ses.(pendingSecret := None), q.ses);
  }

  lemma DisableReadOk(cfg: Config, t: Table, log: seq<Event>, r: ReqId, q: Request, c: Choice)
    requires q.DisableRead? && RequestOk(cfg, log, r, q) && Keyed(Replay(cfg, t, log))
    ensures OutcomeOk(cfg, t, log, r, ManageStep(cfg, Replay(cfg, t, log), r, q, c))
  {
    Proceeds(cfg, t, log, r, q, ManageStep(cfg, Replay(cfg, t, log), r, q, c));
  }

  lemma DisableVerifyOk(cfg: Config, t: Table, log: seq<Event>, r: ReqId, q: Request, c: Choice)
    requires q.DisableVerify? && RequestOk(cfg, log, r, q)
    ensures OutcomeOk(cfg, t, log, r, ManageStep(cfg, Replay(cfg, t, log), r, q, c))
  {
    Proceeds(cfg, t, log, r, q, ManageStep(cfg, Replay(cfg, t, log), r, q, c));
  }

  lemma DisableClearOk(cfg: Config, t: Table, log: seq<Event>, r: ReqId, q: Request, c: Choice)
    requires q.DisableClear? && RequestOk(cfg, log, r, q)
    ensures OutcomeOk(cfg, t, log, r, ManageStep(cfg, Replay(cfg, t, log), r, q, c))
  {
    assert IsPasswordOf(PasswordProved(r, q.user, q.password), q.user.id);
  }

  lemma LogoutSaveOk(cfg: Config, t: Table, log: seq<Event>, r: ReqId, q: Request, c: Choice)
    requires q.LogoutSave? && RequestOk(cfg, log, r, q)
    ensures OutcomeOk(cfg, t, log, r, ManageStep(cfg, Replay(cfg, t, log), r, q, c))
  {
    ResaveOk(cfg, t, log, r, q.ses, q.ses);
  }

  lemma LoginStepOk(cfg: Config, t: Table, log: seq<Event>, r: ReqId, q: Request, c: Choice)
    requires OfLogin(q) && RequestOk(cfg, log, r, q) && Keyed(Replay(cfg, t, log))
    ensures OutcomeOk(cfg, t, log, r, LoginStep(cfg, Replay(cfg, t, log), r, q, c))
  {
    match q {
      case LoginRead(_, _, _) => LoginReadOk(cfg, t, log, r, q, c);
      case LoginVerify(_, _, _) => LoginVerifyOk(cfg, t, log, r, q, c);
      case LoginRehash(_, _, _) => LoginRehashOk(cfg, t, log, r, q, c);
      case LoginReread(_, _, _, _) => LoginRereadOk(cfg, t, log, r, q, c);
      case LoginRewrite(_, _, _, _, _) => LoginRewriteOk(cfg, t, log, r, q, c);
      case LoginResetBudget(_, _, _) => LoginResetBudgetOk(cfg, t, log, r, q, c);
      case LoginChallenge(_, _, _) => LoginChallengeOk(cfg, t, log, r, q, c);
      case LoginSession(_, _, _) => LoginSessionOk(cfg, t, log, r, q, c);
    }
  }

  lemma VerifyStepOk(cfg: Config, t: Table, log: seq<Event>, r: ReqId, q: Request, c: Choice)
    requires OfVerify(q) && RequestOk(cfg, log, r, q) && Keyed(Replay(cfg, t, log))
    ensures OutcomeOk(cfg, t, log, r, VerifyStep(cfg, Replay(cfg, t, log), r, q, c))
  {
    match q {
      case VerifyRead(_, _, _, _) => VerifyReadOk(cfg, t, log, r, q, c);
      case VerifyReserve(_, _, _, _) => VerifyReserveOk(cfg, t, log, r, q, c);
      case VerifyCheck(_, _, _, _, _) => VerifyCheckOk(cfg, t, log, r, q, c);
      case VerifyMatch(_, _, _, _, _) => VerifyMatchOk(cfg, t, log, r, q, c);
      case VerifyConsume(_, _, _, _, _) => VerifyConsumeOk(cfg, t, log, r, q, c);
      case VerifyResetBudget(_, _) => VerifyResetBudgetOk(cfg, t, log, r, q, c);
      case VerifySave(_, _) => VerifySaveOk(cfg, t, log, r, q, c);
      case VerifySession(_, _) => VerifySessionOk(cfg, t, log, r, q, c);
      case EndPending(_) => EndPendingOk(cfg, t, log, r, q, c);
    }
  }

  lemma RegisterStepOk(cfg: Config, t: Table, log: seq<Event>, r: ReqId, q: Request, c: Choice)
    requires OfRegister(q) && RequestOk(cfg, log, r, q)
    ensures OutcomeOk(cfg, t, log, r, RegisterStep(cfg, Replay(cfg, t, log), r, q, c))
  {
    match q {
      case RegisterUsername(_, _, _, _) => RegisterCheckOk(cfg, t, log, r, q, c);
      case RegisterEmail(_, _, _, _) => RegisterCheckOk(cfg, t, log, r, q, c);
      case RegisterCreate(_, _, _, _) => RegisterCreateOk(cfg, t, log, r, q, c);
      case RegisterSession(_, _) => RegisterSessionOk(cfg, t, log, r, q, c);
    }
  }

  lemma ManageStepOk(cfg: Config, t: Table, log: seq<Event>, r: ReqId, q: Request, c: Choice)
    requires !OfLogin(q) && !OfVerify(q) && !OfRegister(q) && RequestOk(cfg, log, r, q) && Keyed(Replay(cfg, t, log))
    ensures OutcomeOk(cfg, t, log, r, ManageStep(cfg, Replay(cfg, t, log), r, q, c))
  {
    match q {
      case SetupRead(_) => SetupReadOk(cfg, t, log, r, q, c);
      case SetupSave(_, _, _) => SetupSaveOk(cfg, t, log, r, q, c);
      case EnableRead(_, _, _) => EnableReadOk(cfg, t, log, r, q, c);
      case EnableVerify(_, _, _, _) => EnableVerifyOk(cfg, t, log, r, q, c);
      case EnableCode(_, _, _, _) => EnableCodeOk(cfg, t, log, r, q, c);
      case EnableStore(_, _, _, _, _, _, _) => EnableStoreOk(cfg, t, log, r, q, c);
      case EnableSave(_) => EnableSaveOk(cfg, t, log, r, q, c);
      case DisableRead(_, _) => DisableReadOk(cfg, t, log, r, q, c);
      case DisableVerify(_, _, _) => DisableVerifyOk(cfg, t, log, r, q, c);
      case DisableClear(_, _, _) => DisableClearOk(cfg, t, log, r, q, c);
      case LogoutSave(_) => LogoutSaveOk(cfg, t, log, r, q, c);
    }
  }

  lemma NextStepOk(cfg: Config, t: Table, log: seq<Event>, r: ReqId, q: Request, c: Choice)
    requires RequestOk(cfg, log, r, q) && Keyed(Replay(cfg, t, log))
    ensures OutcomeOk(cfg, t, log, r, NextStep(cfg, Replay(cfg, t, log), r, q, c))
  {
    if OfLogin(q) {
      LoginStepOk(cfg, t, log, r, q, c);
    } else if OfVerify(q) {
      VerifyStepOk(cfg, t, log, r, q, c);
    } else if OfRegister(q) {
      RegisterStepOk(cfg, t, log, r, q, c);
    } else {
      ManageStepOk(cfg, t, log, r, q, c);
    }
  }

  // The cookie that a new request sees was emitted, or it is empty.
  lemma SessionOk(cfg: Config, t: Table, s: State, presented: Cookie)
    requires Inv(cfg, t, s)
    ensures CookieOk(cfg, s.log, Session(s, presented))
    ensures Session(s, presented).pendingUser.Some? ==> Known(s.log, Session(s, presented))
  {
  }

  lemma BeginVerifyOk(cfg: Config, t: Table, log: seq<Event>, r: ReqId, ses: Cookie, code: string, isBackup: bool,
                      at: Time)
    requires CookieOk(cfg, log, ses) && (ses.pendingUser.Some? ==> Known(log, ses))
    requires forall e | e in log :: e.r < r
    ensures OutcomeOk(cfg, t, log, r, BeginVerify(cfg, r, ses, code, isBackup, at))
  {
    var o := BeginVerify(cfg, r, ses, code, isBackup, at);
    if o.Go? && o.event.Some? {
      assert o.event.value in log + [o.event.value] && IsStartOf(o.event.value, ses.pendingUser.value);
      Leaves(cfg, log, r, o.event.value, o.next.value);
    } else if o.Go? && o.next.Some? {
      Waits(cfg, log, r, 0, o.next.value);
    }
  }

  predicate IsRequest(a: Action) {
    a.Login? || a.Register? || a.Verify? || a.Setup? || a.Enable? || a.Disable? || a.Logout?
  }

  lemma BeginQuietOk(cfg: Config, t: Table, s: State, a: Action)
    requires IsRequest(a) && !a.Verify?
    requires CookieOk(cfg, s.log, Session(s, a.presented)) && RanksBelow(s.log, s.next, 0)
    ensures OutcomeOk(cfg, t, s.log, s.next, Begin(cfg, s, a))
  {
    var o := Begin(cfg, s, a);
    if o.next.Some? {
      Waits(cfg, s.log, s.next, 0, o.next.value);
    }
  }

  lemma BeginRequestOk(cfg: Config, t: Table, s: State, a: Action)
    requires Inv(cfg, t, s) && IsRequest(a)
    ensures OutcomeOk(cfg, t, s.log, s.next, Begin(cfg, s, a))
  {
    SessionOk(cfg, t, s, a.presented);
    if a.Verify? {
      BeginVerifyOk(cfg, t, s.log, s.next, Session(s, a.presented), a.code, a.isBackup, a.at);
    } else {
      BeginQuietOk(cfg, t, s, a);
    }
  }

  lemma BeginOk(cfg: Config, t: Table, s: State, a: Action)
    requires Inv(cfg, t, s) && !a.Advance? && !a.Drop?
    ensures OutcomeOk(cfg, t, s.log, s.next, Begin(cfg, s, a))
  {
    if IsRequest(a) {
      BeginRequestOk(cfg, t, s, a);
    }
  }

  lemma EffectKeyed(cfg: Config, t: Table, e: Event)
    requires Keyed(t)
    ensures Keyed(Effect(cfg, t, e))
  {
  }

  lemma {:induction false} ReplayKeyed(cfg: Config, t: Table, log: seq<Event>)
    requires Keyed(t)
    ensures Keyed(Replay(cfg, t, log))
  {
    if log == [] {
    } else {
      ReplayKeyed(cfg, t, log[..|log| - 1]);
      EffectKeyed(cfg, Replay(cfg, t, log[..|log| - 1]), log[|log| - 1]);
    }
  }

  lemma ReplayAppend(cfg: Config, t: Table, log: seq<Event>, e: Event)
    ensures Replay(cfg, t, log + [e]) == Effect(cfg, Replay(cfg, t, log), e)
  {
    assert (log + [e])[..|log|] == log;
  }

  // The cookies of a state after one more event.
  lemma CookiesKeep(cfg: Config, t: Table, s: State, e: Event, c: Cookie)
    requires Inv(cfg, t, s) && EventOk(cfg, t, s.log, e)
    requires c in s.cookies + CookieOf(e)
    ensures Known(s.log + [e], c) && CookieOk(cfg, s.log + [e], c)
  {
    if c in s.cookies {
      CookieGrows(cfg, s.log, e, c);
      var x :| x in s.log && x.Issued? && x.cookie == c;
      assert x in s.log + [e];
    } else {
      assert e in s.log + [e];
    }
  }

  lemma RequestsKeep(cfg: Config, t: Table, s: State, r: ReqId, o: Outcome)
    requires Inv(cfg, t, s) && OutcomeOk(cfg, t, s.log, r, o) && r <= s.next
    ensures RequestsOk(cfg, Take(cfg, s, r, o).(next := s.next + 1))
    ensures r < s.next ==> RequestsOk(cfg, Take(cfg, s, r, o))
  {
    var s' := Take(cfg, s, r, o);
    forall x | x in s'.requests
      ensures x <= s.next && (x == s.next ==> r == s.next) && RequestOk(cfg, s'.log, x, s'.requests[x])
    {
      if o.Go? && x != r && o.event.Some? {
        OtherRequestsKeep(cfg, s.log, o.event.value, x, s.requests[x]);
      }
    }
  }

  // Taking a step with a justified outcome keeps the invariant.
  lemma TakeKeepsInv(cfg: Config, t: Table, s: State, r: ReqId, o: Outcome)
    requires Inv(cfg, t, s) && OutcomeOk(cfg, t, s.log, r, o) && r <= s.next
    ensures Inv(cfg, t, Take(cfg, s, r, o).(next := s.next + 1))
    ensures r < s.next ==> Inv(cfg, t, Take(cfg, s, r, o))
  {
    RequestsKeep(cfg, t, s, r, o);
    if o.Go? && o.event.Some? {
      var e := o.event.value;
      ReplayAppend(cfg, t, s.log, e);
      JustifiedAppend(cfg, t, s.log, e);
      forall c | c in s.cookies + CookieOf(e)
        ensures Known(s.log + [e], c) && CookieOk(cfg, s.log + [e], c)
      {
        CookiesKeep(cfg, t, s, e, c);
      }
    }
  }

  lemma StepKeepsInv(cfg: Config, t: Table, s: State, a: Action)
    requires Keyed(t) && Inv(cfg, t, s)
    ensures Inv(cfg, t, Step(cfg, s, a))
  {
    ReplayKeyed(cfg, t, s.log);
    if a.Advance? {
      if a.r in s.requests {
        NextStepOk(cfg, t, s.log, a.r, s.requests[a.r], a.choice);
        TakeKeepsInv(cfg, t, s, a.r, NextStep(cfg, s.store, a.r, s.requests[a.r], a.choice));
      }
    } else if !a.Drop? {
      BeginOk(cfg, t, s, a);
      TakeKeepsInv(cfg, t, s, s.next, Begin(cfg, s, a));
    }
  }

  // Every interleaving of any requests, with any replay of cookies.
  lemma {:induction false} RunsKeepInv(cfg: Config, t: Table, actions: seq<Action>)
    requires Keyed(t)
    ensures Inv(cfg, t, Exec(cfg, Initial(t), actions))
    decreases |actions|
  {
    if actions == [] {
    } else {
      var before := actions[..|actions| - 1];
      RunsKeepInv(cfg, t, before);
      StepKeepsInv(cfg, t, Exec(cfg, Initial(t), before), actions[|actions| - 1]);
    }
  }

  // ---- The logs that runs leave ----

  ghost predicate LogOfRun(cfg: Config, t: Table, log: seq<Event>) {
    exists actions: seq<Action> :: log == Exec(cfg, Initial(t), actions).log
  }

  lemma RunsAreJustified(cfg: Config, t: Table, log: seq<Event>)
    requires Keyed(t) && LogOfRun(cfg, t, log)
    ensures Justified(cfg, t, log)
  {
    var actions: seq<Action> :| log == Exec(cfg, Initial(t), actions).log;
    RunsKeepInv(cfg, t, actions);
  }
}
