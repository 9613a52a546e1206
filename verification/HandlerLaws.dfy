/** What each handler call comes to, outcome by outcome, in terms of the stored user, the
    session's values and the settings (handler_tfa.go, handler.go). Nothing interferes. */
module HandlerLaws {
  import opened Wrappers
  import opened Users
  import opened StorageLaws
  import opened Protocol
  import opened SoloRuns
  import opened Replies

  // ---- handleTFAVerify ----

  // The session challenges this user, and the challenge has not expired.
  predicate Live(ses: Cookie, id: UserId, now: Time) {
    && ses.pendingUser == Some(id)
    && now / 1_000_000 < if ses.pendingExpiry.Some? then ses.pendingExpiry.value else 0
  }

  predicate Enrolled(t: Table, id: UserId) {
    id in t && t[id].security.totpEnabled && t[id].security.totpSecret.Some?
  }

  predicate BelowLimit(cfg: Config, t: Table, id: UserId)
    requires id in t
  {
    cfg.maxVerifyAttempts <= 0 || t[id].security.totpFailedAttempts < cfg.maxVerifyAttempts
  }

  predicate TotpRight(cfg: Config, t: Table, id: UserId, code: string, isBackup: bool, x: Readings)
    requires Enrolled(t, id)
  {
    !isBackup && cfg.totp(t[id].security.totpSecret.value, code, x.checkedAt)
  }

  // The code opens one of the stored hashes.
  predicate BackupRight(cfg: Config, t: Table, id: UserId, code: string)
    requires id in t
  {
    && cfg.backupCodeCount > 0
    && cfg.findMatch(t[id].security.backupCodeHashes, code).Some?
    && cfg.findMatch(t[id].security.backupCodeHashes, code).value in t[id].security.backupCodeHashes
  }

  // What handleTFAVerify answers, and why.
  lemma VerifyAnswers(cfg: Config, t: Table, ses: Cookie, id: UserId, code: string, isBackup: bool, now: Time,
                      x: Readings)
    requires Keyed(t) && (ses.pendingUser.Some? ==> ses.pendingUser == Some(id))
    ensures
      var reply := VerifyReply(cfg, t, ses, code, isBackup, now, x);
      reply.status
      == if !Live(ses, id, now) then NoPendingChallenge
         else if id !in t then Unauthorized
         else if !Enrolled(t, id) then TFANotEnabled
         else if && BelowLimit(cfg, t, id)
                 && (TotpRight(cfg, t, id, code, isBackup, x) || BackupRight(cfg, t, id, code)) then
           Success
         else InvalidTFACode
  {
  }

  // Success: the session is the user's, the challenge is gone from it, and it was saved
  // without the challenge before it was saved with the user. The counter is zero, and a backup
  // code that was needed is spent.
  lemma VerifySucceeds(cfg: Config, t: Table, ses: Cookie, id: UserId, code: string, isBackup: bool, now: Time,
                       x: Readings)
    requires Keyed(t) && Live(ses, id, now) && Enrolled(t, id) && BelowLimit(cfg, t, id)
    requires TotpRight(cfg, t, id, code, isBackup, x) || BackupRight(cfg, t, id, code)
    ensures
      var reply := VerifyReply(cfg, t, ses, code, isBackup, now, x);
      && reply.values == Cookie(Some(id), None, None, ses.pendingSecret)
      && reply.saved == [Cookie(ses.userId, None, None, ses.pendingSecret), reply.values]
      && OthersStay(t, reply.store, id) && id in reply.store && ProfileStays(t, reply.store, id)
      && EnrolmentStays(t, reply.store, id) && reply.store[id].security.totpFailedAttempts == 0
      && reply.store[id].security.backupCodeHashes
         == if TotpRight(cfg, t, id, code, isBackup, x) then t[id].security.backupCodeHashes
            else RemoveFirst(t[id].security.backupCodeHashes,
                             cfg.findMatch(t[id].security.backupCodeHashes, code).value)
  {
  }

  // A wrong code within the budget costs one attempt. When it leaves the stored counter at the
  // limit, the challenge leaves the session, which is saved once; below the limit the challenge
  // stays and nothing is saved.
  lemma WrongCodeCosts(cfg: Config, t: Table, ses: Cookie, id: UserId, code: string, isBackup: bool, now: Time,
                       x: Readings)
    requires Keyed(t) && Live(ses, id, now) && Enrolled(t, id)
    requires cfg.maxVerifyAttempts > 0 && t[id].security.totpFailedAttempts < cfg.maxVerifyAttempts
    requires !TotpRight(cfg, t, id, code, isBackup, x) && !BackupRight(cfg, t, id, code)
    ensures
      var reply := VerifyReply(cfg, t, ses, code, isBackup, now, x);
      && id in reply.store && OthersStay(t, reply.store, id) && reply.store[id].profile == t[id].profile
      && EnrolmentStays(t, reply.store, id)
      && reply.store[id].security.backupCodeHashes == t[id].security.backupCodeHashes
      && reply.store[id].security.totpFailedAttempts == t[id].security.totpFailedAttempts + 1
      && if reply.store[id].security.totpFailedAttempts == cfg.maxVerifyAttempts then
           reply.values == Cookie(ses.userId, None, None, ses.pendingSecret) && reply.saved == [reply.values]
         else reply.values == ses && reply.saved == []
  {
  }

  // Without a limit a wrong code costs nothing and the challenge stays.
  lemma WrongCodeIsFree(cfg: Config, t: Table, ses: Cookie, id: UserId, code: string, isBackup: bool, now: Time,
                        x: Readings)
    requires Keyed(t) && Live(ses, id, now) && Enrolled(t, id) && cfg.maxVerifyAttempts <= 0
    requires !TotpRight(cfg, t, id, code, isBackup, x) && !BackupRight(cfg, t, id, code)
    ensures
      var reply := VerifyReply(cfg, t, ses, code, isBackup, now, x);
      reply.store == t && reply.values == ses && reply.saved == []
  {
  }

  // At the limit no code is checked, and the challenge ends; so does one that has expired. A
  // session without a challenge, an unknown user or one not enrolled leaves all as it was.
  lemma VerifyRefuses(cfg: Config, t: Table, ses: Cookie, id: UserId, code: string, isBackup: bool, now: Time,
                      x: Readings)
    requires Keyed(t) && (ses.pendingUser.Some? ==> ses.pendingUser == Some(id))
    requires !Live(ses, id, now) || !Enrolled(t, id) || !BelowLimit(cfg, t, id)
    ensures
      var reply := VerifyReply(cfg, t, ses, code, isBackup, now, x);
      && reply.store == t
      && if ses.pendingUser.Some? && (!Live(ses, id, now) || Enrolled(t, id)) then
           reply.values == Cookie(ses.userId, None, None, ses.pendingSecret) && reply.saved == [reply.values]
         else reply.values == ses && reply.saved == []
  {
  }

  // ---- handleLogin ----

  // The password is taken by the hash itself, or the hash is none of this library's and the
  // legacy verifier reports a match; that it fails is no match.
  predicate Takes(cfg: Config, password: string, hash: string) {
    || cfg.verify(password, hash).valid
    || (&& cfg.verify(password, hash).error.Some? && cfg.legacy.Some?
        && cfg.legacy.value(password, hash) == LegacyMatch)
  }

  // This stored user is meant by the identifier.
  ghost predicate Meant(cfg: Config, t: Table, identifier: string, id: UserId) {
    && id in t
    && if '@' in identifier then
         && cfg.enableEmailLogin && t[id].profile.email.Some?
         && cfg.lower(t[id].profile.email.value) == cfg.lower(identifier)
       else
         && cfg.enableUsernameLogin && t[id].profile.username.Some?
         && cfg.lower(t[id].profile.username.value) == cfg.lower(identifier)
  }

  lemma MeantIsFound(cfg: Config, t: Table, identifier: string, id: UserId)
    requires UniqueIdentifiers(cfg.lower, t) && Meant(cfg, t, identifier, id)
    ensures Identified(cfg, t, identifier) == Some(t[id])
  {
    var f := if '@' in identifier then Email else Username;
    assert Key(cfg.lower, f, t[id]) == Some(cfg.lower(identifier));
    var other :| other in t && t[other] == Find(cfg.lower, f, t, identifier).value
                 && Key(cfg.lower, f, t[other]) == Some(cfg.lower(identifier));
    assert other == id;
  }

  lemma NobodyMeant(cfg: Config, t: Table, identifier: string)
    requires forall id :: !Meant(cfg, t, identifier, id)
    ensures Identified(cfg, t, identifier) == None
  {
    var f := if '@' in identifier then Email else Username;
    if Identified(cfg, t, identifier).Some? {
      var id :| id in t && Key(cfg.lower, f, t[id]) == Some(cfg.lower(identifier));
      assert Meant(cfg, t, identifier, id);
    }
  }

  // The password of the user meant is checked, and with it the login stands or falls; a second
  // factor is asked of an enrolled user. An accepted legacy password is re-hashed, and only
  // hashing parameters on which Argon2 panics can then fail the login.
  lemma LoginAnswers(cfg: Config, t: Table, ses: Cookie, identifier: string, id: UserId, password: string, x: Readings)
    requires Keyed(t) && UniqueIdentifiers(cfg.lower, t) && |x.salt| == cfg.saltLength
    requires Meant(cfg, t, identifier, id)
    ensures
      var hash := t[id].profile.passwordHash;
      LoginReply(cfg, t, ses, identifier, password, x).status
      == if !Takes(cfg, password, hash) then InvalidCredentials
         else if !cfg.verify(password, hash).valid && cfg.hash(password, x.salt).Panicked? then InternalError
         else if cfg.enableTFA && t[id].security.totpEnabled && t[id].security.totpSecret.Some? then TFARequired
         else Success
  {
    MeantIsFound(cfg, t, identifier, id);
  }

  lemma LoginRefuses(cfg: Config, t: Table, ses: Cookie, identifier: string, password: string, x: Readings)
    requires Keyed(t) && UniqueIdentifiers(cfg.lower, t) && |x.salt| == cfg.saltLength
    requires forall id | Meant(cfg, t, identifier, id) :: !Takes(cfg, password, t[id].profile.passwordHash)
    ensures LoginReply(cfg, t, ses, identifier, password, x) == Reply(t, ses, [], InvalidCredentials)
  {
    if id :| Meant(cfg, t, identifier, id) {
      MeantIsFound(cfg, t, identifier, id);
    } else {
      NobodyMeant(cfg, t, identifier);
    }
  }

  // A login without a second factor only adds the user to the session. With one the user is
  // taken out, the challenge with its expiry put in, and the counter set to zero. The session
  // is saved once.
  lemma LoginSucceeds(cfg: Config, t: Table, ses: Cookie, identifier: string, id: UserId, password: string, x: Readings)
    requires Keyed(t) && UniqueIdentifiers(cfg.lower, t) && |x.salt| == cfg.saltLength
    requires Meant(cfg, t, identifier, id) && Takes(cfg, password, t[id].profile.passwordHash)
    requires cfg.verify(password, t[id].profile.passwordHash).valid || !cfg.hash(password, x.salt).Panicked?
    ensures
      var reply := LoginReply(cfg, t, ses, identifier, password, x);
      var lifetime := if cfg.pendingSessionTTL > 0 then cfg.pendingSessionTTL else 5 * 60 * 1_000_000_000;
      && reply.saved == [reply.values] && id in reply.store && OthersStay(t, reply.store, id)
      && EnrolmentStays(t, reply.store, id)
      && reply.store[id].security.backupCodeHashes == t[id].security.backupCodeHashes
      && if cfg.enableTFA && t[id].security.totpEnabled && t[id].security.totpSecret.Some? then
           && reply.values
              == Cookie(None, Some(id), Some((x.challengedAt + lifetime) / 1_000_000), ses.pendingSecret)
           && reply.store[id].security.totpFailedAttempts == 0
         else
           && reply.values == Cookie(Some(id), ses.pendingUser, ses.pendingExpiry, ses.pendingSecret)
           && reply.store[id].security.totpFailedAttempts == t[id].security.totpFailedAttempts
  {
    MeantIsFound(cfg, t, identifier, id);
  }

  // What the login writes into the profile: nothing for a password that its hash itself takes
  // or that cannot be hashed; otherwise the new hash and the time, unless the write fails.
  lemma LoginRewritesHash(cfg: Config, t: Table, ses: Cookie, identifier: string, id: UserId, password: string,
                          x: Readings)
    requires Keyed(t) && UniqueIdentifiers(cfg.lower, t) && |x.salt| == cfg.saltLength
    requires Meant(cfg, t, identifier, id) && Takes(cfg, password, t[id].profile.passwordHash)
    ensures
      var was, now := t[id].profile, LoginReply(cfg, t, ses, identifier, password, x).store[id].profile;
      if cfg.verify(password, was.passwordHash).valid || !cfg.hash(password, x.salt).Hash? || x.writeFails then
        now == was
      else
        && now.passwordHash == cfg.hash(password, x.salt).text && now.updatedAt == x.writtenAt
        && now.username == was.username && now.email == was.email && now.createdAt == was.createdAt
        && now.isTechnicalUser == was.isTechnicalUser && now.apiKeyHash == was.apiKeyHash
  {
    MeantIsFound(cfg, t, identifier, id);
    if !cfg.verify(password, t[id].profile.passwordHash).valid && cfg.hash(password, x.salt).Hash? {
      OwnIdentifiersFree(cfg.lower, t, id, t[id].(profile := t[id].profile.(
        passwordHash := cfg.hash(password, x.salt).text, updatedAt := x.writtenAt)));
    }
  }

  lemma OwnIdentifiersFree(lower: Lower, t: Table, id: UserId, u: User)
    requires Keyed(t) && UniqueIdentifiers(lower, t) && id in t && u.id == id
    requires u.profile.username == t[id].profile.username && u.profile.email == t[id].profile.email
    ensures !Clashes(lower, t, u)
  {
    assert forall f :: Key(lower, f, u) == Key(lower, f, t[id]);
  }

  // ---- Enrolment ----

  // The user of the session, as RequireAuth and the handlers see it.
  predicate Signed(t: Table, ses: Cookie, id: UserId) {
    ses.userId == Some(id) && id in t
  }

  lemma SetupLaw(t: Table, ses: Cookie, id: UserId, x: Readings)
    requires ses.userId.Some? ==> ses.userId == Some(id)
    ensures
      SetupReply(t, ses, x)
      == if !Signed(t, ses, id) then Reply(t, ses, [], Unauthorized)
         else if t[id].security.totpEnabled then Reply(t, ses, [], TFAAlreadyEnabled)
         else
           var values := Cookie(Some(id), ses.pendingUser, ses.pendingExpiry, Some(x.secret));
           Reply(t, values, [values], Success)
  {
  }

  // The backup codes that are to be stored can be made.
  predicate CodesMade(cfg: Config, x: Readings) {
    cfg.backupCodeCount > 0 ==> cfg.issue(x.draws, x.salts).Codes?
  }

  lemma EnableAnswers(cfg: Config, t: Table, ses: Cookie, id: UserId, code: string, password: string, x: Readings)
    requires Keyed(t) && (ses.userId.Some? ==> ses.userId == Some(id))
    ensures
      var reply := EnableReply(cfg, t, ses, code, password, x);
      && reply.status
         == (if !Signed(t, ses, id) then Unauthorized
             else if t[id].security.totpEnabled then TFAAlreadyEnabled
             else if !cfg.verify(password, t[id].profile.passwordHash).valid then InvalidCredentials
             else if ses.pendingSecret.None? || ses.pendingSecret.value == "" then NoPendingSetup
             else if !cfg.totp(ses.pendingSecret.value, code, x.checkedAt) then InvalidTFACode
             else if !CodesMade(cfg, x) then InternalError
             else Success)
      && (reply.status != Success ==> reply.store == t && reply.values == ses && reply.saved == [])
  {
  }

  // An enrolment stores the secret of the session with the hashes of the new codes, and takes
  // the secret out of the session, which is saved once.
  lemma EnableSucceeds(cfg: Config, t: Table, ses: Cookie, id: UserId, code: string, password: string, x: Readings)
    requires Keyed(t) && Signed(t, ses, id) && EnableReply(cfg, t, ses, code, password, x).status == Success
    ensures
      var reply := EnableReply(cfg, t, ses, code, password, x);
      && reply.values == Cookie(Some(id), ses.pendingUser, ses.pendingExpiry, None) && reply.saved == [reply.values]
      && id in reply.store && OthersStay(t, reply.store, id) && ProfileStays(t, reply.store, id)
      && ses.pendingSecret.Some? && reply.store[id].security.totpSecret == ses.pendingSecret
      && reply.store[id].security.totpEnabled && reply.store[id].security.totpEnrolledAt == Some(x.writtenAt)
      && reply.store[id].security.totpFailedAttempts == 0
      && reply.store[id].security.backupCodeHashes
         == if cfg.backupCodeCount > 0 then cfg.issue(x.draws, x.salts).hashed else []
  {
  }

  lemma DisableLaw(cfg: Config, t: Table, ses: Cookie, id: UserId, password: string, x: Readings)
    requires Keyed(t) && (ses.userId.Some? ==> ses.userId == Some(id))
    ensures
      var reply := DisableReply(cfg, t, ses, password, x);
      && reply.status
         == (if !Signed(t, ses, id) then Unauthorized
             else if !t[id].security.totpEnabled then TFANotEnabled
             else if !cfg.verify(password, t[id].profile.passwordHash).valid then InvalidCredentials
             else Success)
      && reply.values == ses && reply.saved == []
      && (reply.status != Success ==> reply.store == t)
      && (reply.status == Success ==>
            && id in reply.store && OthersStay(t, reply.store, id) && ProfileStays(t, reply.store, id)
            && reply.store[id].security.totpSecret == None && !reply.store[id].security.totpEnabled
            && reply.store[id].security.totpEnrolledAt == None && reply.store[id].security.backupCodeHashes == []
            && reply.store[id].security.totpFailedAttempts == 0)
  {
  }
}
