/** Where the user ID in a cookie comes from, over every run and every replay of cookies,
    and how long after the password a second factor may still complete a login. */
module SessionProvenance {
  import opened Wrappers
  import opened Users
  import opened Protocol
  import opened ProtocolInvariant

  // ---- The chain of events behind a session ----

  // The password fits the hash, or the hash is none of this library's and the legacy verifier
  // reports a match. That the legacy verifier fails is no match.
  predicate Fits(cfg: Config, password: string, hash: string) {
    || cfg.verify(password, hash).valid
    || (&& cfg.verify(password, hash).error.Some? && cfg.legacy.Some?
        && cfg.legacy.value(password, hash) == LegacyMatch)
  }

  // A request read id from the storage at k and its password was accepted at j against
  // the very hash read; the user read needed (tfa) or did not need a second factor.
  ghost predicate PasswordAt(cfg: Config, t: Table, log: seq<Event>, id: UserId, tfa: bool, k: nat, j: nat) {
    && k < j < |log|
    && log[j].PasswordOk? && log[j].user.id == id
    && tfa == (cfg.enableTFA && log[j].user.security.totpEnabled && log[j].user.security.totpSecret.Some?)
    && Fits(cfg, log[j].password, log[j].user.profile.passwordHash)
    && log[k] == UserRead(log[j].r, log[j].user)
    && Stored(cfg, t, log[..k], log[j].user)
  }

  ghost predicate LoginProved(cfg: Config, t: Table, log: seq<Event>, id: UserId, tfa: bool) {
    exists k: nat, j: nat :: PasswordAt(cfg, t, log, id, tfa, k, j)
  }

  // At n a login emitted this challenge; the password was accepted by that very login, from a
  // snapshot of the user that needed a second factor.
  ghost predicate ChallengeAt(cfg: Config, t: Table, log: seq<Event>, id: UserId, at: Time, n: nat) {
    && n < |log|
    && log[n].Issued? && log[n].why == ByChallenge(id, at)
    && exists k: nat, j: nat :: PasswordAt(cfg, t, log[..n], id, true, k, j) && log[j].r == log[n].r
  }

  // How long a challenge lives, in nanoseconds: five minutes unless another time is set.
  function Lifetime(cfg: Config): Time {
    if cfg.pendingSessionTTL > 0 then cfg.pendingSessionTTL else 5 * 60 * 1_000_000_000
  }

  ghost predicate ChallengedBefore(cfg: Config, t: Table, log: seq<Event>, id: UserId, deadline: Time) {
    exists at: Time, n: nat :: ChallengeAt(cfg, t, log, id, at, n) && deadline < at + Lifetime(cfg)
  }

  // The code that settled the check: a TOTP code for the secret that this request read from
  // the storage, or a backup code whose hash this request itself removed.
  ghost predicate CodePassed(cfg: Config, t: Table, log: seq<Event>, e: Event) {
    match e
    case TotpPassed(r, u, code, at) =>
      && u.security.totpSecret.Some? && cfg.totp(u.security.totpSecret.value, code, at)
      && exists k: nat :: k < |log| && log[k] == UserRead(r, u) && Stored(cfg, t, log[..k], u)
    case CodeConsumed(r, id, hash, at) => MatchedBy(cfg, log, r, id, hash) && HasCode(cfg, t, log, id, hash)
    case _ => false
  }

  // At i a request started from a known cookie with a live challenge of id; at j its code passed.
  ghost predicate CodeAt(cfg: Config, t: Table, log: seq<Event>, id: UserId, i: nat, j: nat) {
    && i < j < |log|
    && IsStartOf(log[i], id) && log[i].cookie.pendingUser == Some(id) && Known(log[..i], log[i].cookie)
    && ChallengedBefore(cfg, t, log[..i], id, log[i].at)
    && log[j].r == log[i].r && IsCodeOf(log[j], id) && CodePassed(cfg, t, log[..j], log[j])
  }

  ghost predicate CodeProved(cfg: Config, t: Table, log: seq<Event>, id: UserId) {
    exists i: nat, j: nat :: CodeAt(cfg, t, log, id, i, j)
  }

  ghost predicate WasRegistered(log: seq<Event>, id: UserId) {
    exists e :: e in log && IsRegistrationOf(e, id)
  }

  // ---- Every cookie with a user ID has such a chain behind it ----

  lemma IndexOf(log: seq<Event>, e: Event) returns (i: nat)
    requires e in log
    ensures i < |log| && log[i] == e
  {
    i :| i < |log| && log[i] == e;
  }

  lemma PrefixJustified(cfg: Config, t: Table, log: seq<Event>, n: nat)
    requires Justified(cfg, t, log) && n <= |log|
    ensures Justified(cfg, t, log[..n])
  {
    forall i | 0 <= i < n
      ensures EventOk(cfg, t, log[..n][..i], log[..n][i])
    {
      assert log[..n][..i] == log[..i];
    }
  }

  lemma ReadWasStored(cfg: Config, t: Table, log: seq<Event>, r: ReqId, u: User) returns (k: nat)
    requires Justified(cfg, t, log) && UserRead(r, u) in log
    ensures k < |log| && log[k] == UserRead(r, u) && Stored(cfg, t, log[..k], u)
  {
    k := IndexOf(log, UserRead(r, u));
    assert EventOk(cfg, t, log[..k], log[k]);
  }

  lemma LoginWasRead(cfg: Config, t: Table, log: seq<Event>, j: nat)
    requires Justified(cfg, t, log) && j < |log| && log[j].PasswordOk?
    ensures UserRead(log[j].r, log[j].user) in log[..j]
    ensures Fits(cfg, log[j].password, log[j].user.profile.passwordHash)
  {
    assert EventOk(cfg, t, log[..j], log[j]);
  }

  lemma PasswordChain(cfg: Config, t: Table, log: seq<Event>, j: nat, id: UserId, tfa: bool) returns (k: nat)
    requires Justified(cfg, t, log) && j < |log| && IsLoginOf(cfg, log[j], id, tfa)
    ensures PasswordAt(cfg, t, log, id, tfa, k, j)
  {
    LoginWasRead(cfg, t, log, j);
    PrefixJustified(cfg, t, log, j);
    k := ReadWasStored(cfg, t, log[..j], log[j].r, log[j].user);
    assert log[..j][..k] == log[..k];
  }

  // Both times are cut to milliseconds; the bound survives.
  lemma MillisOrder(a: Time, b: Time)
    ensures Millis(a) < Millis(b) <==> a < Millis(b) * 1_000_000
    ensures Millis(a) < Millis(b) ==> a < b
    ensures a + 1_000_000 <= b ==> Millis(a) < Millis(b)
  {
  }

  lemma LoginOfChallenge(cfg: Config, t: Table, log: seq<Event>, id: UserId, at: Time, n: nat) returns (j: nat)
    requires Justified(cfg, t, log) && n < |log| && log[n].Issued? && log[n].why == ByChallenge(id, at)
    ensures j < n && log[j].r == log[n].r && IsLoginOf(cfg, log[j], id, true)
  {
    assert EventOk(cfg, t, log[..n], log[n]);
    var p :| p in log[..n] && p.r == log[n].r && IsLoginOf(cfg, p, id, true);
    j := IndexOf(log[..n], p);
  }

  // Every challenge was emitted by the login that accepted the password.
  lemma ChallengeIsEarned(cfg: Config, t: Table, log: seq<Event>, id: UserId, at: Time, n: nat)
    requires Justified(cfg, t, log) && n < |log| && log[n].Issued? && log[n].why == ByChallenge(id, at)
    ensures ChallengeAt(cfg, t, log, id, at, n)
  {
    var j := LoginOfChallenge(cfg, t, log, id, at, n);
    PrefixJustified(cfg, t, log, n);
    var k := PasswordChain(cfg, t, log[..n], j, id, true);
    assert PasswordAt(cfg, t, log[..n], id, true, k, j) && log[j].r == log[n].r;
  }

  lemma ChallengeChain(cfg: Config, t: Table, log: seq<Event>, id: UserId, expiry: int, at: Time)
    requires Justified(cfg, t, log) && Challenged(cfg, log, id, expiry) && Millis(at) < expiry
    ensures ChallengedBefore(cfg, t, log, id, at)
  {
    var e :| e in log && IsChallengeOf(cfg, e, id, expiry);
    var n := IndexOf(log, e);
    ChallengeIsEarned(cfg, t, log, id, e.why.at, n);
    MillisOrder(at, e.why.at + TTL(cfg));
    assert ChallengeAt(cfg, t, log, id, e.why.at, n);
  }

  // The request whose code passed at j had started at i.
  lemma CodeStart(cfg: Config, t: Table, log: seq<Event>, j: nat, id: UserId) returns (i: nat)
    requires Justified(cfg, t, log) && j < |log| && IsCodeOf(log[j], id)
    ensures i < j && log[i].r == log[j].r && IsStartOf(log[i], id)
  {
    assert EventOk(cfg, t, log[..j], log[j]);
    var start :| start in log[..j] && start.r == log[j].r && IsStartOf(start, id);
    i := IndexOf(log[..j], start);
  }

  lemma StartChain(cfg: Config, t: Table, log: seq<Event>, i: nat, id: UserId)
    requires Justified(cfg, t, log) && i < |log| && IsStartOf(log[i], id)
    ensures log[i].cookie.pendingUser == Some(id) && Known(log[..i], log[i].cookie)
    ensures ChallengedBefore(cfg, t, log[..i], id, log[i].at)
  {
    assert EventOk(cfg, t, log[..i], log[i]);
    PrefixJustified(cfg, t, log, i);
    ChallengeChain(cfg, t, log[..i], id, log[i].cookie.pendingExpiry.value, log[i].at);
  }

  lemma CodeChain(cfg: Config, t: Table, log: seq<Event>, j: nat, id: UserId)
    requires Justified(cfg, t, log) && j < |log| && IsCodeOf(log[j], id)
    ensures exists i: nat :: CodeAt(cfg, t, log, id, i, j)
  {
    var i := CodeStart(cfg, t, log, j, id);
    StartChain(cfg, t, log, i, id);
    CodePassedChain(cfg, t, log, j);
    assert CodeAt(cfg, t, log, id, i, j);
  }

  lemma CodePassedChain(cfg: Config, t: Table, log: seq<Event>, j: nat)
    requires Justified(cfg, t, log) && j < |log| && (log[j].TotpPassed? || log[j].CodeConsumed?)
    ensures CodePassed(cfg, t, log[..j], log[j])
  {
    assert EventOk(cfg, t, log[..j], log[j]);
    if log[j].TotpPassed? {
      PrefixJustified(cfg, t, log, j);
      var k := ReadWasStored(cfg, t, log[..j], log[j].r, log[j].user);
    }
  }

  ghost predicate SessionEarned(cfg: Config, t: Table, log: seq<Event>, id: UserId) {
    || WasRegistered(log, id)
    || LoginProved(cfg, t, log, id, false)
    || CodeProved(cfg, t, log, id)
  }

  // Whatever the interleaving and whatever cookies are replayed, a cookie that carries the
  // user ID of u was emitted only after a registration of u, a password accepted from a
  // stored snapshot of u that needed no second factor, or a code that passed in a request
  // that presented a live challenge, which in turn a password for u had earned.
  lemma SessionsAreEarned(cfg: Config, t: Table, log: seq<Event>, i: nat)
    requires Keyed(t) && LogOfRun(cfg, t, log)
    requires i < |log| && log[i].Issued? && log[i].cookie.userId.Some?
    ensures SessionEarned(cfg, t, log[..i], log[i].cookie.userId.value)
  {
    RunsAreJustified(cfg, t, log);
    var e, before := log[i], log[..i];
    var id := e.cookie.userId.value;
    assert EventOk(cfg, t, before, e);
    PrefixJustified(cfg, t, log, i);
    var g :| g in before + [e] && Grants(cfg, g, id);
    assert g in before;
    GrantChain(cfg, t, before, g, id);
  }

  lemma GrantChain(cfg: Config, t: Table, log: seq<Event>, g: Event, id: UserId)
    requires Justified(cfg, t, log) && g in log && Grants(cfg, g, id)
    ensures SessionEarned(cfg, t, log, id)
  {
    if IsLoginOf(cfg, g, id, false) {
      var j := IndexOf(log, g);
      var k := PasswordChain(cfg, t, log, j, id, false);
    } else if IsCodeOf(g, id) {
      var j := IndexOf(log, g);
      CodeChain(cfg, t, log, j, id);
    }
  }

  // The request that puts a user ID into a cookie, rather than saving again one that was
  // presented, earned it itself; after a second factor the challenge is gone from the cookie.
  lemma NewSessionsAreOwn(cfg: Config, t: Table, log: seq<Event>, i: nat)
    requires Keyed(t) && LogOfRun(cfg, t, log)
    requires i < |log| && log[i].Issued?
    requires log[i].why.ByRegistration? || log[i].why.ByPassword? || log[i].why.ByCode?
    ensures
      var c := log[i].cookie;
      match log[i].why
      case ByRegistration(id) => c.userId == Some(id) && RegistrationBy(log[..i], log[i].r, id)
      case ByPassword(id) => c.userId == Some(id) && LoginBy(cfg, log[..i], log[i].r, id, false)
      case ByCode(id) => c.userId == Some(id) && c.pendingUser.None? && CodeBy(log[..i], log[i].r, id)
  {
    RunsAreJustified(cfg, t, log);
    assert EventOk(cfg, t, log[..i], log[i]);
  }

  // ---- Where an enrolled secret comes from ----

  // At n a setup emitted the secret in a cookie; it had read a user, not yet enrolled, from
  // the storage at k.
  ghost predicate SetupAt(cfg: Config, t: Table, log: seq<Event>, secret: string, k: nat, n: nat) {
    && k < n < |log|
    && IsSetupOf(log[n], secret) && log[n].cookie.pendingSecret == Some(secret)
    && log[k].UserRead? && log[k].r == log[n].r && log[k].user.id == log[n].why.id
    && !log[k].user.security.totpEnabled && Stored(cfg, t, log[..k], log[k].user)
  }

  lemma SetupWasRead(cfg: Config, t: Table, log: seq<Event>, secret: string, n: nat) returns (k: nat)
    requires Justified(cfg, t, log) && n < |log| && IsSetupOf(log[n], secret)
    ensures SetupAt(cfg, t, log, secret, k, n)
  {
    assert EventOk(cfg, t, log[..n], log[n]);
    PrefixJustified(cfg, t, log, n);
    var user: User :| UserRead(log[n].r, user) in log[..n] && user.id == log[n].why.id && !user.security.totpEnabled;
    k := ReadWasStored(cfg, t, log[..n], log[n].r, user);
    assert log[..n][..k] == log[..k];
  }

  // Every secret that is stored by an enrolment was emitted by an earlier setup, and the
  // enrolling request proved the password of the user it enrols and passed a code for it.
  lemma EnrolledSecretsWereSetUp(cfg: Config, t: Table, log: seq<Event>, j: nat)
    requires Keyed(t) && LogOfRun(cfg, t, log)
    requires j < |log| && log[j].Enrolled?
    ensures exists k: nat, n: nat :: SetupAt(cfg, t, log[..j], log[j].secret, k, n)
    ensures PasswordBy(log[..j], log[j].r, log[j].id) && cfg.totp(log[j].secret, log[j].code, log[j].provedAt)
  {
    RunsAreJustified(cfg, t, log);
    assert EventOk(cfg, t, log[..j], log[j]);
    PrefixJustified(cfg, t, log, j);
    var e :| e in log[..j] && IsSetupOf(e, log[j].secret);
    var n := IndexOf(log[..j], e);
    var k := SetupWasRead(cfg, t, log[..j], log[j].secret, n);
  }

  // ---- How long a challenge lives ----

  // The challenged user and the expiry are always set and removed together.
  lemma PendingComesWithExpiry(cfg: Config, t: Table, actions: seq<Action>, c: Cookie)
    requires Keyed(t) && c in Exec(cfg, Initial(t), actions).cookies
    ensures c.pendingUser.Some? == c.pendingExpiry.Some?
  {
    RunsKeepInv(cfg, t, actions);
  }

  // Every code that passes, in whatever request and however late, belongs to a request that
  // began before t0 + ttl, where t0 is the time at which a login that had accepted the
  // password of the same user emitted its challenge.
  lemma PromotionsAreTimely(cfg: Config, t: Table, log: seq<Event>, j: nat, id: UserId)
    requires Keyed(t) && LogOfRun(cfg, t, log)
    requires j < |log| && IsCodeOf(log[j], id)
    ensures
      exists i: nat, n: nat, t0: Time ::
        && n < i < j && log[i].r == log[j].r && IsStartOf(log[i], id)
        && ChallengeAt(cfg, t, log[..i], id, t0, n)
        && log[i].at < t0 + Lifetime(cfg)
  {
    RunsAreJustified(cfg, t, log);
    var i := CodeStart(cfg, t, log, j, id);
    StartChain(cfg, t, log, i, id);
    var t0: Time, n: nat :| ChallengeAt(cfg, t, log[..i], id, t0, n) && log[i].at < t0 + Lifetime(cfg);
  }

  lemma WhyHolds(cfg: Config, t: Table, log: seq<Event>, n: nat)
    requires Justified(cfg, t, log) && n < |log| && log[n].Issued?
    ensures WhyOk(cfg, log[..n], log[n].r, log[n].cookie, log[n].why)
  {
    assert EventOk(cfg, t, log[..n], log[n]);
  }

  lemma ChallengeHolds(cfg: Config, before: seq<Event>, r: ReqId, c: Cookie, id: UserId, t0: Time)
    requires WhyOk(cfg, before, r, c, ByChallenge(id, t0))
    ensures c.userId == None && c.pendingUser == Some(id)
    ensures c.pendingExpiry == Some((t0 + Lifetime(cfg)) / 1_000_000)
  {
  }

  // The cookie of a challenge made at t0: it holds no user ID, and its expiry is the end of
  // the challenge's life, as Unix milliseconds.
  lemma ChallengeCookies(cfg: Config, t: Table, log: seq<Event>, id: UserId, t0: Time, n: nat)
    requires Keyed(t) && LogOfRun(cfg, t, log)
    requires n < |log| && log[n].Issued? && log[n].why == ByChallenge(id, t0)
    ensures
      var c := log[n].cookie;
      c.userId == None && c.pendingUser == Some(id) && c.pendingExpiry == Some((t0 + Lifetime(cfg)) / 1_000_000)
  {
    RunsAreJustified(cfg, t, log);
    WhyHolds(cfg, t, log, n);
    ChallengeHolds(cfg, log[..n], log[n].r, log[n].cookie, id, t0);
  }

  // Such a cookie starts a check at every time that is a millisecond or more before the end of
  // the challenge's life, and at none after it: in between, the end counts as cut to
  // milliseconds. When it starts none, the request only drops the challenge.
  lemma ChallengeLivesExactly(cfg: Config, s: State, c: Cookie, id: UserId, t0: Time, code: string, isBackup: bool,
                              at: Time)
    requires cfg.enableTFA && c in s.cookies
    requires c.pendingUser == Some(id) && c.pendingExpiry == Some((t0 + Lifetime(cfg)) / 1_000_000)
    ensures
      var o := Begin(cfg, s, Verify(c, code, isBackup, at));
      if at < (t0 + Lifetime(cfg)) / 1_000_000 * 1_000_000 then
        o == Go(Some(Started(s.next, id, c, at)), Some(VerifyRead(c, id, code, isBackup)))
      else o == Go(None, Some(EndPending(c)))
    ensures at + 1_000_000 <= t0 + Lifetime(cfg) ==> at < (t0 + Lifetime(cfg)) / 1_000_000 * 1_000_000
    ensures at < (t0 + Lifetime(cfg)) / 1_000_000 * 1_000_000 ==> at < t0 + Lifetime(cfg)
  {
    MillisOrder(at, t0 + Lifetime(cfg));
  }

  // The password of every login that went through was taken by the hash that was read, or by
  // a match of the legacy verifier.
  lemma LoginsFit(cfg: Config, t: Table, log: seq<Event>, j: nat)
    requires Keyed(t) && LogOfRun(cfg, t, log)
    requires j < |log| && log[j].PasswordOk?
    ensures
      var hash := log[j].user.profile.passwordHash;
      || cfg.verify(log[j].password, hash).valid
      || (&& cfg.verify(log[j].password, hash).error.Some? && cfg.legacy.Some?
          && cfg.legacy.value(log[j].password, hash) == LegacyMatch)
  {
    RunsAreJustified(cfg, t, log);
    LoginWasRead(cfg, t, log, j);
  }

  // Nothing revokes a cookie: what was once emitted can be presented after any further run,
  // so a challenge that was ended, or that already led to a session, opens again until it expires.
  lemma {:induction false} CookiesAreNeverRevoked(cfg: Config, s: State, actions: seq<Action>, c: Cookie)
    requires c in s.cookies
    ensures Session(Exec(cfg, s, actions), c) == c
    decreases |actions|
  {
    if actions == [] {
    } else {
      CookiesAreNeverRevoked(cfg, s, actions[..|actions| - 1], c);
    }
  }
}
