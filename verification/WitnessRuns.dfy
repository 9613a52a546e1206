/** Runs of the protocol, handler call after handler call, that show where its guarantees end. */
module WitnessRuns {
  import opened Wrappers
  import opened Users
  import opened Protocol
  import opened ProtocolInvariant
  import opened SoloRuns
  import opened Replies
  import opened ReplyRuns

  // ---- Runs, call after call ----

  ghost predicate Reached(cfg: Config, t: Table, m: State) {
    exists actions: seq<Action> :: m == Exec(cfg, Initial(t), actions)
  }

  lemma {:induction false} ExecConcat(cfg: Config, s: State, first: seq<Action>, then_: seq<Action>)
    ensures Exec(cfg, s, first + then_) == Exec(cfg, Exec(cfg, s, first), then_)
    decreases |then_|
  {
    if then_ == [] {
      assert first + [] == first;
    } else {
      var n := |then_| - 1;
      ExecConcat(cfg, s, first, then_[..n]);
      assert first + then_ == first + then_[..n] + [then_[n]];
      ExecMore(cfg, s, first + then_[..n], then_[n]);
    }
  }

  lemma {:induction false} LogOnlyGrows(cfg: Config, s: State, actions: seq<Action>)
    ensures s.log <= Exec(cfg, s, actions).log
    decreases |actions|
  {
    if actions == [] {
    } else {
      LogOnlyGrows(cfg, s, actions[..|actions| - 1]);
    }
  }

  lemma ReachedStep(cfg: Config, t: Table, m: State, a: Action)
    requires Reached(cfg, t, m)
    ensures Reached(cfg, t, Step(cfg, m, a)) && m.log <= Step(cfg, m, a).log
  {
    var actions: seq<Action> :| m == Exec(cfg, Initial(t), actions);
    ExecMore(cfg, Initial(t), actions, a);
    assert Exec(cfg, Initial(t), actions + [a]) == Step(cfg, m, a);
  }

  lemma ReachedRun(cfg: Config, t: Table, m: State, actions: seq<Action>)
    requires Reached(cfg, t, m)
    ensures Reached(cfg, t, Exec(cfg, m, actions)) && m.log <= Exec(cfg, m, actions).log
  {
    var before: seq<Action> :| m == Exec(cfg, Initial(t), before);
    ExecConcat(cfg, Initial(t), before, actions);
    LogOnlyGrows(cfg, m, actions);
  }

  // The call of a handler that is not interfered with.
  lemma Call(cfg: Config, t: Table, m: State, a: Action, reply: Reply) returns (m': State)
    requires Reached(cfg, t, m) && Completes(cfg, m, a, reply)
    ensures Reached(cfg, t, m') && Answers(m, m', reply) && m.log <= m'.log
  {
    var actions: seq<Action> :|
      StepsOf(actions, m.next) && Answers(m, Exec(cfg, Step(cfg, m, a), actions), reply);
    ReachedStep(cfg, t, m, a);
    ReachedRun(cfg, t, Step(cfg, m, a), actions);
    m' := Exec(cfg, Step(cfg, m, a), actions);
  }

  // A user is found under the identifier that no other user has.
  lemma FindsOwner(lower: Lower, f: Field, t: Table, identifier: string, id: UserId)
    requires UniqueIdentifiers(lower, t) && id in t && Key(lower, f, t[id]) == Some(lower(identifier))
    ensures Find(lower, f, t, identifier) == Some(t[id])
  {
    var found := Find(lower, f, t, identifier);
    assert found.Some?;
    var other :| other in t && t[other] == found.value && Key(lower, f, t[other]) == Some(lower(identifier));
    assert other == id;
  }

  // This user logs in by this name with this password.
  ghost predicate Knows(cfg: Config, u: User, name: string, password: string) {
    && cfg.enableUsernameLogin && '@' !in name && u.profile.username.Some?
    && cfg.lower(u.profile.username.value) == cfg.lower(name)
    && cfg.verify(password, u.profile.passwordHash).valid
  }

  lemma LoginReplies(cfg: Config, t: Table, ses: Cookie, id: UserId, name: string, password: string, x: Readings)
    requires UniqueIdentifiers(cfg.lower, t) && id in t && t[id].id == id && Knows(cfg, t[id], name, password)
    requires |x.salt| == cfg.saltLength
    ensures LoginReply(cfg, t, ses, name, password, x)
            == if NeedsTFA(cfg, t[id]) then
                 Saved(ResetTOTPAttempts(t, id).0, Challenge(cfg, ses, id, x.challengedAt), TFARequired)
               else Saved(t, ses.(userId := Some(id)), Success)
  {
    FindsOwner(cfg.lower, Username, t, name, id);
  }

  // The call of handleLogin that succeeds.
  lemma LogsIn(cfg: Config, t: Table, m: State, ses: Cookie, id: UserId, name: string, password: string, x: Readings)
    returns (m': State)
    requires Reached(cfg, t, m) && m.requests == map[] && Session(m, ses) == ses && |x.salt| == cfg.saltLength
    requires UniqueIdentifiers(cfg.lower, m.store) && id in m.store && m.store[id].id == id
    requires Knows(cfg, m.store[id], name, password)
    ensures Reached(cfg, t, m') && m'.requests == map[]
    ensures
      if NeedsTFA(cfg, m.store[id]) then
        m'.store == ResetTOTPAttempts(m.store, id).0 && Challenge(cfg, ses, id, x.challengedAt) in m'.cookies
      else m'.store == m.store && ses.(userId := Some(id)) in m'.cookies
  {
    LoginCompletes(cfg, m, ses, name, password, x);
    LoginReplies(cfg, m.store, ses, id, name, password, x);
    m' := Call(cfg, t, m, Login(ses, name, password), LoginReply(cfg, m.store, ses, name, password, x));
  }

  lemma Starts(cfg: Config, t: Table)
    ensures Reached(cfg, t, Initial(t)) && Session(Initial(t), NO_VALUES) == NO_VALUES
  {
    assert Exec(cfg, Initial(t), []) == Initial(t);
  }

  // ---- A cookie with the user ID of one user and a challenge of another ----

  // In any storage with a user that needs a second factor and one that does not: the first
  // logs in and gets a challenge, and the second logs in with that cookie.
  lemma MixedCookieArises(cfg: Config, t: Table, a: UserId, b: UserId, nameA: string, nameB: string,
                          passwordA: string, passwordB: string, x: Readings)
    requires Keyed(t) && UniqueIdentifiers(cfg.lower, t) && a in t && b in t && |x.salt| == cfg.saltLength
    requires Knows(cfg, t[a], nameA, passwordA) && !NeedsTFA(cfg, t[a])
    requires Knows(cfg, t[b], nameB, passwordB) && NeedsTFA(cfg, t[b])
    ensures exists m: State, c: Cookie ::
              Reached(cfg, t, m) && c in m.cookies && c.userId == Some(a) && c.pendingUser == Some(b) && a != b
  {
    Starts(cfg, t);
    var m1 := LogsIn(cfg, t, Initial(t), NO_VALUES, b, nameB, passwordB, x);
    ResetKeepsNames(cfg, t, b);
    var c := Challenge(cfg, NO_VALUES, b, x.challengedAt);
    var m2 := LogsIn(cfg, t, m1, c, a, nameA, passwordA, x);
    assert c.(userId := Some(a)) in m2.cookies;
  }

  lemma ResetKeepsNames(cfg: Config, t: Table, id: UserId)
    requires Keyed(t) && UniqueIdentifiers(cfg.lower, t)
    ensures
      var t' := ResetTOTPAttempts(t, id).0;
      && Keyed(t') && UniqueIdentifiers(cfg.lower, t') && t'.Keys == t.Keys
      && forall other | other in t && other != id :: t'[other] == t[other]
  {
    var t' := ResetTOTPAttempts(t, id).0;
    assert forall f, other | other in t :: Key(cfg.lower, f, t'[other]) == Key(cfg.lower, f, t[other]);
  }

  // ---- A code checked against a secret that was replaced ----

  // The one user of this run, with these stored values.
  ghost predicate Account(t: Table, id: UserId, hash: string, secret: Option<string>, failed: int) {
    && id in t && t[id].id == id && t[id].profile.passwordHash == hash
    && t[id].security.totpSecret == secret && t[id].security.totpEnabled == secret.Some?
    && t[id].security.totpFailedAttempts == failed
  }

  // The user knows the password, and has a code that at this time passes for both secrets, of
  // which the second is the one that the next setup makes; challenges live for a while.
  ghost predicate Plays(cfg: Config, x: Readings, hash: string, password: string, first: string, code: string) {
    && cfg.enableTFA && cfg.verify(password, hash).valid && |x.salt| == cfg.saltLength
    && cfg.totp(first, code, x.checkedAt) && cfg.totp(x.secret, code, x.checkedAt) && x.secret != ""
    && NewHashes(cfg, x).Some? && Millis(x.challengedAt) < Millis(x.challengedAt + TTL(cfg))
  }

  function SessionFor(id: UserId): Cookie {
    NO_VALUES.(userId := Some(id))
  }

  function ChallengeFor(cfg: Config, id: UserId, x: Readings): Cookie {
    Challenge(cfg, NO_VALUES, id, x.challengedAt)
  }

  lemma PassesSecondFactor(cfg: Config, t: Table, m: State, id: UserId, hash: string, password: string, first: string,
                           code: string, x: Readings) returns (m': State)
    requires Plays(cfg, x, hash, password, first, code) && Reached(cfg, t, m) && m.requests == map[]
    requires Account(m.store, id, hash, Some(first), 0) && ChallengeFor(cfg, id, x) in m.cookies
    ensures Reached(cfg, t, m') && m'.requests == map[] && Account(m'.store, id, hash, Some(first), 0)
    ensures m.cookies <= m'.cookies && SessionFor(id) in m'.cookies
  {
    var c := ChallengeFor(cfg, id, x);
    VerifyCompletes(cfg, m, c, code, false, x.challengedAt, x);
    var reply := VerifyReply(cfg, m.store, c, code, false, x.challengedAt, x);
    PassReply(cfg, m.store, id, hash, password, first, code, x);
    m' := Call(cfg, t, m, Verify(c, code, false, x.challengedAt), reply);
  }

  lemma PassReply(cfg: Config, t: Table, id: UserId, hash: string, password: string, first: string, code: string,
                  x: Readings)
    requires Plays(cfg, x, hash, password, first, code) && Account(t, id, hash, Some(first), 0)
    ensures
      var reply := VerifyReply(cfg, t, ChallengeFor(cfg, id, x), code, false, x.challengedAt, x);
      Account(reply.store, id, hash, Some(first), 0) && SessionFor(id) in reply.saved
  {
  }

  // A request that has come as far as the check of the code.
  ghost predicate AboutToCheck(cfg: Config, m: State, r: ReqId, id: UserId, first: string, code: string) {
    && r < m.next && r in m.requests && m.requests[r].VerifyMatch? && m.requests[r].code == code
    && !m.requests[r].isBackup && m.requests[r].user.id == id && m.requests[r].user.security.totpSecret == Some(first)
    && UserRead(r, m.requests[r].user) in m.log
  }

  lemma BeginsCheck(cfg: Config, m: State, id: UserId, hash: string, password: string, first: string, code: string,
                    x: Readings)
    requires Plays(cfg, x, hash, password, first, code) && ChallengeFor(cfg, id, x) in m.cookies
    ensures
      var c := ChallengeFor(cfg, id, x);
      var m' := Step(cfg, m, Verify(c, code, false, x.challengedAt));
      && m'.store == m.store && m'.cookies == m.cookies && m'.next == m.next + 1
      && m'.requests == m.requests[m.next := VerifyRead(c, id, code, false)]
  {
  }

  lemma ReadsUser(cfg: Config, m: State, r: ReqId, ses: Cookie, id: UserId, hash: string, first: string, code: string,
                  c: Choice)
    requires Account(m.store, id, hash, Some(first), 0) && r < m.next
    requires r in m.requests && m.requests[r] == VerifyRead(ses, id, code, false)
    ensures
      var m' := Step(cfg, m, Advance(r, c));
      && m'.store == m.store && m'.cookies == m.cookies && m'.next == m.next
      && m'.requests == m.requests[r := VerifyReserve(ses, m.store[id], code, false)]
      && UserRead(r, m.store[id]) in m'.log
  {
  }

  lemma Reserves(cfg: Config, m: State, r: ReqId, ses: Cookie, user: User, id: UserId, hash: string, first: string,
                 code: string, c: Choice) returns (failed: int, remaining: int)
    requires Account(m.store, id, hash, Some(first), 0) && user.id == id && r < m.next
    requires r in m.requests && m.requests[r] == VerifyReserve(ses, user, code, false)
    ensures
      var m' := Step(cfg, m, Advance(r, c));
      && m'.cookies == m.cookies && m'.next == m.next && m.log <= m'.log
      && Account(m'.store, id, hash, Some(first), failed)
      && m'.requests == m.requests[r := VerifyCheck(ses, user, code, false, remaining)]
  {
    if cfg.maxVerifyAttempts <= 0 {
      failed, remaining := 0, 0;
    } else {
      failed, remaining := 1, cfg.maxVerifyAttempts - 1;
    }
  }

  lemma StartsCheck(cfg: Config, m: State, r: ReqId, ses: Cookie, user: User, code: string, remaining: int, c: Choice)
    requires r < m.next && r in m.requests && m.requests[r] == VerifyCheck(ses, user, code, false, remaining)
    ensures
      var m' := Step(cfg, m, Advance(r, c));
      && m'.store == m.store && m'.cookies == m.cookies && m'.next == m.next && m.log <= m'.log
      && m'.requests == m.requests[r := VerifyMatch(ses, user, code, false, remaining)]
  {
  }

  lemma ComesToCheck(cfg: Config, t: Table, m: State, id: UserId, hash: string, password: string, first: string,
                     code: string, x: Readings, c: Choice) returns (m': State)
    requires Plays(cfg, x, hash, password, first, code) && Reached(cfg, t, m) && m.requests == map[]
    requires Account(m.store, id, hash, Some(first), 0) && ChallengeFor(cfg, id, x) in m.cookies
    ensures Quiet(cfg, t, m') && m'.cookies == m.cookies
    ensures AboutToCheck(cfg, m', m.next, id, first, code)
    ensures exists failed: int :: Account(m'.store, id, hash, Some(first), failed)
  {
    var r, ses := m.next, ChallengeFor(cfg, id, x);
    var a := Verify(ses, code, false, x.challengedAt);
    BeginsCheck(cfg, m, id, hash, password, first, code, x);
    ReachedStep(cfg, t, m, a);
    var m1 := Step(cfg, m, a);
    ReadsUser(cfg, m1, r, ses, id, hash, first, code, c);
    ReachedStep(cfg, t, m1, Advance(r, c));
    var m2 := Step(cfg, m1, Advance(r, c));
    m' := ReachesCheck(cfg, t, m2, r, ses, m.store[id], id, hash, first, code, c);
  }

  lemma ReachesCheck(cfg: Config, t: Table, m: State, r: ReqId, ses: Cookie, user: User, id: UserId, hash: string,
                     first: string, code: string, c: Choice) returns (m': State)
    requires Reached(cfg, t, m) && Account(m.store, id, hash, Some(first), 0) && r + 1 == m.next
    requires user.id == id && user.security.totpSecret == Some(first) && UserRead(r, user) in m.log
    requires m.requests == map[r := VerifyReserve(ses, user, code, false)]
    ensures Quiet(cfg, t, m') && m'.cookies == m.cookies
    ensures AboutToCheck(cfg, m', r, id, first, code)
    ensures exists failed: int :: Account(m'.store, id, hash, Some(first), failed)
  {
    var failed, remaining := Reserves(cfg, m, r, ses, user, id, hash, first, code, c);
    ReachedStep(cfg, t, m, Advance(r, c));
    var m1 := Step(cfg, m, Advance(r, c));
    StartsCheck(cfg, m1, r, ses, user, code, remaining, c);
    ReachedStep(cfg, t, m1, Advance(r, c));
    m' := Step(cfg, m1, Advance(r, c));
  }

  // ---- Meanwhile the user disables two-factor authentication and enrols again ----

  // A call leaves the requests in flight alone.
  ghost predicate GoesOn(cfg: Config, t: Table, m: State, m': State) {
    && Reached(cfg, t, m') && m.log <= m'.log && m.cookies <= m'.cookies
    && m'.requests == m.requests && m.next <= m'.next && m'.next !in m'.requests
  }

  ghost predicate Quiet(cfg: Config, t: Table, m: State) {
    Reached(cfg, t, m) && forall r | r in m.requests :: r < m.next
  }

  lemma Disables(cfg: Config, t: Table, m: State, id: UserId, hash: string, password: string, first: string,
                 failed: int, x: Readings) returns (m': State)
    requires Quiet(cfg, t, m) && cfg.enableTFA && cfg.verify(password, hash).valid
    requires Account(m.store, id, hash, Some(first), failed) && SessionFor(id) in m.cookies
    ensures GoesOn(cfg, t, m, m') && Quiet(cfg, t, m') && Account(m'.store, id, hash, None, 0)
  {
    var ses := SessionFor(id);
    DisableCompletes(cfg, m, ses, password, x);
    m' := Call(cfg, t, m, Disable(ses, password), DisableReply(cfg, m.store, ses, password, x));
  }

  lemma SetsUp(cfg: Config, t: Table, m: State, id: UserId, hash: string, x: Readings) returns (m': State)
    requires Quiet(cfg, t, m) && cfg.enableTFA
    requires Account(m.store, id, hash, None, 0) && SessionFor(id) in m.cookies
    ensures GoesOn(cfg, t, m, m') && Quiet(cfg, t, m') && Account(m'.store, id, hash, None, 0)
    ensures SessionFor(id).(pendingSecret := Some(x.secret)) in m'.cookies
  {
    SetupCompletes(cfg, m, SessionFor(id), x);
    m' := Call(cfg, t, m, Setup(SessionFor(id)), SetupReply(m.store, SessionFor(id), x));
  }

  lemma Enables(cfg: Config, t: Table, m: State, id: UserId, hash: string, password: string, first: string,
                 code: string, x: Readings) returns (m': State)
    requires Quiet(cfg, t, m) && Plays(cfg, x, hash, password, first, code)
    requires Account(m.store, id, hash, None, 0) && SessionFor(id).(pendingSecret := Some(x.secret)) in m.cookies
    ensures GoesOn(cfg, t, m, m') && Account(m'.store, id, hash, Some(x.secret), 0)
  {
    var ses := SessionFor(id).(pendingSecret := Some(x.secret));
    EnableCompletes(cfg, m, ses, code, password, x);
    EnrolsSecret(cfg, m.store, id, hash, password, first, code, x);
    m' := Call(cfg, t, m, Enable(ses, code, password), EnableReply(cfg, m.store, ses, code, password, x));
  }

  lemma EnrolsSecret(cfg: Config, t: Table, id: UserId, hash: string, password: string, first: string, code: string,
                     x: Readings)
    requires Plays(cfg, x, hash, password, first, code) && Account(t, id, hash, None, 0)
    ensures
      var ses := SessionFor(id).(pendingSecret := Some(x.secret));
      Account(EnableReply(cfg, t, ses, code, password, x).store, id, hash, Some(x.secret), 0)
  {
  }

  lemma EnrolsAgain(cfg: Config, t: Table, m: State, id: UserId, hash: string, password: string, first: string,
                    failed: int, code: string, x: Readings) returns (m': State)
    requires Plays(cfg, x, hash, password, first, code) && Quiet(cfg, t, m)
    requires Account(m.store, id, hash, Some(first), failed) && SessionFor(id) in m.cookies
    ensures Reached(cfg, t, m') && m'.requests == m.requests && m.next <= m'.next && m.log <= m'.log
    ensures Account(m'.store, id, hash, Some(x.secret), 0)
  {
    var m1 := Disables(cfg, t, m, id, hash, password, first, failed, x);
    var m2 := SetsUp(cfg, t, m1, id, hash, x);
    m' := Enables(cfg, t, m2, id, hash, password, first, code, x);
  }

  // The request that had read the first secret then checks the code against it.
  lemma ChecksOldSecret(cfg: Config, m: State, r: ReqId, id: UserId, first: string, code: string, c: Choice)
    requires AboutToCheck(cfg, m, r, id, first, code) && cfg.totp(first, code, c.at)
    ensures
      var m' := Step(cfg, m, Advance(r, c));
      m'.log == m.log + [TotpPassed(r, m.requests[r].user, code, c.at)]
  {
  }

  // At j a TOTP code passed against this secret, which its request had read, while another
  // one was stored.
  ghost predicate PassedStale(cfg: Config, t: Table, log: seq<Event>, j: nat, id: UserId, first: string,
                              second: string) {
    && j < |log| && log[j].TotpPassed? && log[j].user.id == id && log[j].user.security.totpSecret == Some(first)
    && UserRead(log[j].r, log[j].user) in log[..j]
    && id in Replay(cfg, t, log[..j]) && Replay(cfg, t, log[..j])[id].security.totpSecret == Some(second)
  }

  // Any enrolled user who can log in, and to whom a setup would give another secret, has
  // such a run: a second factor is checked for a new session, and for one begun meanwhile.
  lemma StaleSecretIsChecked(cfg: Config, t: Table, id: UserId, name: string, password: string, first: string,
                             code: string, x: Readings)
    requires Keyed(t) && UniqueIdentifiers(cfg.lower, t) && id in t && Knows(cfg, t[id], name, password)
    requires Plays(cfg, x, t[id].profile.passwordHash, password, first, code)
    requires t[id].security.totpEnabled && t[id].security.totpSecret == Some(first) && first != x.secret
    ensures exists log: seq<Event>, j: nat :: LogOfRun(cfg, t, log) && PassedStale(cfg, t, log, j, id, first, x.secret)
  {
    var hash := t[id].profile.passwordHash;
    Starts(cfg, t);
    var m1 := LogsIn(cfg, t, Initial(t), NO_VALUES, id, name, password, x);
    var m2 := PassesSecondFactor(cfg, t, m1, id, hash, password, first, code, x);
    var choice := Choice(x.checkedAt, 0, "", [], [], [], false);
    var m3 := ComesToCheck(cfg, t, m2, id, hash, password, first, code, x, choice);
    EndsStale(cfg, t, m3, m2.next, id, hash, password, first, code, x, choice);
  }

  lemma EndsStale(cfg: Config, t: Table, m: State, r: ReqId, id: UserId, hash: string, password: string, first: string,
                  code: string, x: Readings, c: Choice)
    requires Keyed(t) && Quiet(cfg, t, m) && Plays(cfg, x, hash, password, first, code) && c.at == x.checkedAt
    requires AboutToCheck(cfg, m, r, id, first, code) && SessionFor(id) in m.cookies
    requires exists failed: int :: Account(m.store, id, hash, Some(first), failed)
    ensures exists log: seq<Event>, j: nat :: LogOfRun(cfg, t, log) && PassedStale(cfg, t, log, j, id, first, x.secret)
  {
    var failed: int :| Account(m.store, id, hash, Some(first), failed);
    var m1 := EnrolsAgain(cfg, t, m, id, hash, password, first, failed, code, x);
    PassesStale(cfg, t, m1, r, id, hash, first, x.secret, code, c);
  }

  lemma PassesStale(cfg: Config, t: Table, m: State, r: ReqId, id: UserId, hash: string, first: string, second: string,
                    code: string, c: Choice)
    requires Keyed(t) && Reached(cfg, t, m) && AboutToCheck(cfg, m, r, id, first, code) && cfg.totp(first, code, c.at)
    requires Account(m.store, id, hash, Some(second), 0)
    ensures exists log: seq<Event>, j: nat :: LogOfRun(cfg, t, log) && PassedStale(cfg, t, log, j, id, first, second)
  {
    ChecksOldSecret(cfg, m, r, id, first, code, c);
    ReachedStep(cfg, t, m, Advance(r, c));
    var m' := Step(cfg, m, Advance(r, c));
    StoreIsReplay(cfg, t, m);
    assert m'.log[..|m.log|] == m.log;
    assert LogOfRun(cfg, t, m'.log) && PassedStale(cfg, t, m'.log, |m.log|, id, first, second);
  }

  lemma StoreIsReplay(cfg: Config, t: Table, m: State)
    requires Keyed(t) && Reached(cfg, t, m)
    ensures m.store == Replay(cfg, t, m.log)
  {
    var actions: seq<Action> :| m == Exec(cfg, Initial(t), actions);
    RunsKeepInv(cfg, t, actions);
  }
}
