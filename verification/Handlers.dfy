/** The handlers (handler.go, handler_tfa.go) as they change the session's values and the
    storage in place. A handler's own copy of a user, which it only reads, is a value. */
module Handlers {
  import opened Wrappers
  import opened Users
  import opened MemoryStore
  import opened Protocol
  import opened SoloRuns
  import opened Replies

  // sessions.Session: the values, and the cookies written to the response.
  class Session {
    var userId: Option<UserId>
    var pendingUser: Option<UserId>
    var pendingExpiry: Option<int>
    var pendingSecret: Option<string>
    var saved: seq<Cookie>

    constructor (c: Cookie)
      ensures Values() == c && saved == []
    {
      userId, pendingUser, pendingExpiry, pendingSecret := c.userId, c.pendingUser, c.pendingExpiry, c.pendingSecret;
      saved := [];
    }

    function Values(): Cookie
      reads this
    {
      Cookie(userId, pendingUser, pendingExpiry, pendingSecret)
    }

    method Save()
      modifies this`saved
      ensures saved == old(saved) + [Values()]
    {
      saved := saved + [Values()];
    }
  }

  class Handler {
    const cfg: Config
    const storage: MemoryStorage

    constructor (cfg: Config, storage: MemoryStorage)
      requires cfg.lower == storage.lower
      ensures this.cfg == cfg && this.storage == storage
    {
      this.cfg, this.storage := cfg, storage;
    }

    ghost predicate Ready(session: Session)
      reads storage, storage.Repr
    {
      storage.lower == cfg.lower && storage.Valid() && session !in storage.Repr
    }

    // The call has ended as the reply says.
    ghost predicate Answers(session: Session, before: seq<Cookie>, status: Status, reply: Reply)
      reads storage, session
    {
      && storage.Contents == reply.store && session.Values() == reply.values
      && session.saved == before + reply.saved && status == reply.status
    }

    // The user with this ID, as the handler's own copy.
    method Read(id: UserId) returns (user: Option<User>)
      requires storage.Valid()
      ensures user == if id in storage.Contents then Some(storage.Contents[id]) else None
    {
      var copy := storage.GetUserByID(id);
      if copy == null {
        user := None;
      } else {
        var value := Snapshot(copy);
        user := Some(value);
      }
    }

    method EndPendingTFA(session: Session)
      modifies session
      ensures session.Values() == WithoutPending(old(session.Values()))
      ensures session.saved == old(session.saved) + [session.Values()]
    {
      session.pendingUser := None;
      session.pendingExpiry := None;
      session.Save();
    }

    method CreateSession(session: Session, user: User)
      modifies session
      ensures session.Values() == old(session.Values()).(userId := Some(user.id))
      ensures session.saved == old(session.saved) + [session.Values()]
    {
      session.userId := Some(user.id);
      session.Save();
    }

    // ---- handleTFAVerify ----

    method CheckCode(user: User, code: string, isBackup: bool, x: Readings) returns (verified: Option<bool>)
      requires storage.Valid() && user.security.totpSecret.Some?
      modifies storage.Repr
      ensures storage.Valid() && fresh(storage.Repr - old(storage.Repr))
      ensures (storage.Contents, verified) == CheckedCode(cfg, old(storage.Contents), user, code, isBackup, x)
    {
      verified := Some(false);
      if !isBackup {
        verified := Some(cfg.totp(user.security.totpSecret.value, code, x.checkedAt));
      }
      if verified == Some(false) && cfg.backupCodeCount > 0 {
        var matched := cfg.findMatch(user.security.backupCodeHashes, code);
        if matched.Some? {
          var consumed := storage.ConsumeBackupCode(user.id, matched.value, x.writtenAt);
          verified := if consumed.Removed? then Some(consumed.yes) else None;
        }
      }
    }

    // What follows a code that passed.
    method Promote(session: Session, user: User) returns (status: Status)
      requires Ready(session)
      modifies session, storage.Repr
      ensures Ready(session) && fresh(storage.Repr - old(storage.Repr))
      ensures Answers(session, old(session.saved), status,
                      PromoteReply(old(storage.Contents), old(session.Values()), user))
    {
      var reset := storage.ResetTOTPAttempts(user.id);
      if reset != Done {
        return InternalError;
      }
      session.pendingUser := None;
      session.pendingExpiry := None;
      session.Save();
      CreateSession(session, user);
      status := Success;
    }

    // The check of a reserved attempt and what follows it.
    method SettleCode(session: Session, user: User, code: string, isBackup: bool, remaining: int, x: Readings)
      returns (status: Status)
      requires Ready(session) && user.security.totpSecret.Some?
      modifies session, storage.Repr
      ensures Ready(session) && fresh(storage.Repr - old(storage.Repr))
      ensures Answers(session, old(session.saved), status,
                      CodeReply(cfg, old(storage.Contents), old(session.Values()), user, code, isBackup, remaining, x))
    {
      var verified := CheckCode(user, code, isBackup, x);
      if verified.None? {
        return InternalError;
      }
      if !verified.value {
        if cfg.maxVerifyAttempts > 0 && remaining == 0 {
          EndPendingTFA(session);
        }
        return InvalidTFACode;
      }
      status := Promote(session, user);
    }

    method HandleTFAVerify(session: Session, code: string, isBackup: bool, now: Time, x: Readings)
      returns (status: Status)
      requires Ready(session)
      modifies session, storage.Repr
      ensures Ready(session) && fresh(storage.Repr - old(storage.Repr))
      ensures Answers(session, old(session.saved), status,
                      VerifyReply(cfg, old(storage.Contents), old(session.Values()), code, isBackup, now, x))
    {
      if session.pendingUser.None? {
        return NoPendingChallenge;
      }
      var expiresAt := if session.pendingExpiry.Some? then session.pendingExpiry.value else 0;
      if Millis(now) >= expiresAt {
        EndPendingTFA(session);
        return NoPendingChallenge;
      }
      var user := Read(session.pendingUser.value);
      if user.None? {
        return Unauthorized;
      }
      if !user.value.security.totpEnabled || user.value.security.totpSecret.None? {
        return TFANotEnabled;
      }
      status := ReserveAttempt(session, user.value, code, isBackup, x);
    }

    // The attempt is reserved before anything is checked.
    method ReserveAttempt(session: Session, user: User, code: string, isBackup: bool, x: Readings)
      returns (status: Status)
      requires Ready(session) && user.security.totpSecret.Some?
      modifies session, storage.Repr
      ensures Ready(session) && fresh(storage.Repr - old(storage.Repr))
      ensures Answers(session, old(session.saved), status,
                      ReservedReply(cfg, old(storage.Contents), old(session.Values()), user, code, isBackup, x))
    {
      var remaining := 0;
      if cfg.maxVerifyAttempts > 0 {
        var reserved := storage.ConsumeTOTPAttempt(user.id, cfg.maxVerifyAttempts);
        if reserved == Refused(AttemptsExhausted) {
          EndPendingTFA(session);
          return InvalidTFACode;
        }
        if !reserved.Remaining? {
          return InternalError;
        }
        remaining := reserved.attempts;
      }
      status := SettleCode(session, user, code, isBackup, remaining, x);
    }

    // ---- handleLogin ----

    method GetUserByIdentifier(identifier: string) returns (user: Option<User>)
      requires storage.Valid() && storage.lower == cfg.lower
      ensures user == Identified(cfg, storage.Contents, identifier)
    {
      var copy: UserObject? := null;
      if '@' in identifier {
        if cfg.enableEmailLogin {
          copy := storage.GetUserByEmail(identifier);
        }
      } else if cfg.enableUsernameLogin {
        copy := storage.GetUserByUsername(identifier);
      }
      if copy == null {
        return None;
      }
      var value := Snapshot(copy);
      user := Some(value);
    }

    // Answers false when the hashing panics.
    method UpgradePasswordHash(user: User, password: string, x: Readings) returns (returned: bool)
      requires storage.Valid() && storage.lower == cfg.lower && |x.salt| == cfg.saltLength && !x.writeFails
      modifies storage.Repr
      ensures storage.Valid() && fresh(storage.Repr - old(storage.Repr))
      ensures
        var upgraded := Upgraded(cfg, old(storage.Contents), user, password, x);
        returned == upgraded.Some? && storage.Contents == if returned then upgraded.value else old(storage.Contents)
    {
      var hashed := cfg.hash(password, x.salt);
      if !hashed.Hash? {
        return hashed.BadLength?;
      }
      returned := true;
      var current := storage.GetUserByID(user.id);
      if current == null || current.passwordHash != user.profile.passwordHash {
        return;
      }
      Rewrite(current, storage.Contents[user.id], hashed.text, x.writtenAt);
    }

    method Rewrite(current: UserObject, ghost value: User, newHash: string, now: Time)
      requires storage.Valid() && storage.lower == cfg.lower
      requires current.Valid() && current.Value() == value && current.Repr !! storage.Repr
      modifies storage.Repr, current
      ensures storage.Valid() && fresh(storage.Repr - old(storage.Repr))
      ensures
        var rewritten := value.(profile := value.profile.(passwordHash := newHash, updatedAt := now));
        storage.Contents == Users.UpdateUser(cfg.lower, old(storage.Contents), rewritten).0
    {
      current.SetPassword(newHash, now);
      var _ := storage.UpdateUser(current);
    }

    method VerifyLoginPassword(user: User, password: string, x: Readings) returns (valid: bool, returned: bool)
      requires storage.Valid() && storage.lower == cfg.lower && |x.salt| == cfg.saltLength && !x.writeFails
      modifies storage.Repr
      ensures storage.Valid() && fresh(storage.Repr - old(storage.Repr))
      ensures
        var checked := PasswordChecked(cfg, old(storage.Contents), user, password, x);
        && valid == checked.1 && returned == checked.0.Some?
        && (valid <==> || cfg.verify(password, user.profile.passwordHash).valid
                       || (&& cfg.verify(password, user.profile.passwordHash).error.Some? && cfg.legacy.Some?
                           && cfg.legacy.value(password, user.profile.passwordHash) == LegacyMatch))
        && storage.Contents == if returned then checked.0.value else old(storage.Contents)
    {
      var verdict := cfg.verify(password, user.profile.passwordHash);
      if verdict.valid {
        return true, true;
      }
      if verdict.error.None? || cfg.legacy.None? {
        return false, true;
      }
      if cfg.legacy.value(password, user.profile.passwordHash) != LegacyMatch {
        return false, true;
      }
      returned := UpgradePasswordHash(user, password, x);
      valid := true;
    }

    method CreatePendingTFASession(session: Session, user: User, now: Time) returns (done: bool)
      requires Ready(session)
      modifies session, storage.Repr
      ensures Ready(session) && fresh(storage.Repr - old(storage.Repr))
      ensures done == (user.id in old(storage.Contents))
      ensures storage.Contents == ResetTOTPAttempts(old(storage.Contents), user.id).0
      ensures !done ==> session.Values() == old(session.Values()) && session.saved == old(session.saved)
      ensures done ==>
        && session.Values() == Challenge(cfg, old(session.Values()), user.id, now)
        && session.pendingExpiry.Some?
        && session.pendingExpiry.value
           == (now + if cfg.pendingSessionTTL > 0 then cfg.pendingSessionTTL else 5 * 60 * 1_000_000_000) / 1_000_000
        && session.saved == old(session.saved) + [session.Values()]
    {
      var reset := storage.ResetTOTPAttempts(user.id);
      if reset != Done {
        return false;
      }
      session.userId := None;
      session.pendingUser := Some(user.id);
      var ttl := cfg.pendingSessionTTL;
      if ttl <= 0 {
        ttl := FIVE_MINUTES;
      }
      session.pendingExpiry := Some(Millis(now + ttl));
      session.Save();
      done := true;
    }

    method Admit(session: Session, user: User, x: Readings) returns (status: Status)
      requires Ready(session)
      modifies session, storage.Repr
      ensures Ready(session) && fresh(storage.Repr - old(storage.Repr))
      ensures Answers(session, old(session.saved), status,
                      AcceptedReply(cfg, old(storage.Contents), old(session.Values()), user, x))
    {
      if cfg.enableTFA && user.security.totpEnabled && user.security.totpSecret.Some? {
        var done := CreatePendingTFASession(session, user, x.challengedAt);
        return if done then TFARequired else InternalError;
      }
      CreateSession(session, user);
      status := Success;
    }

    method HandleLogin(session: Session, identifier: string, password: string, x: Readings) returns (status: Status)
      requires Ready(session) && |x.salt| == cfg.saltLength && !x.writeFails
      modifies session, storage.Repr
      ensures Ready(session) && fresh(storage.Repr - old(storage.Repr))
      ensures
        var reply := LoginReply(cfg, old(storage.Contents), old(session.Values()), identifier, password, x);
        Answers(session, old(session.saved), status, reply)
    {
      var user := GetUserByIdentifier(identifier);
      if user.None? {
        return InvalidCredentials;
      }
      var valid, returned := VerifyLoginPassword(user.value, password, x);
      if !returned {
        return InternalError;
      }
      if !valid {
        return InvalidCredentials;
      }
      status := Admit(session, user.value, x);
    }

    // ---- handleRegister, after the checks of the texts submitted ----

    method HandleRegister(session: Session, username: Option<string>, email: Option<string>, password: string,
                          x: Readings) returns (status: Status)
      requires Ready(session) && |x.salt| == cfg.saltLength
      modifies session, storage
      ensures Ready(session) && fresh(storage.Repr - old(storage.Repr))
      ensures
        var reply := RegisterReply(cfg, old(storage.Contents), old(session.Values()), username, email, password, x);
        Answers(session, old(session.saved), status, reply)
    {
      if username.None? && email.None? {
        return InvalidRequest;
      }
      if (username.Some? && !cfg.enableUsernameLogin) || (email.Some? && !cfg.enableEmailLogin) {
        return InvalidRequest;
      }
      var taken := IdentifierExists(username, email);
      if taken {
        return UserExists;
      }
      var hashed := cfg.hash(password, x.salt);
      if !hashed.Hash? {
        return InternalError;
      }
      status := CreateAndAdmit(session, username, email, hashed.text, x);
    }

    method IdentifierExists(username: Option<string>, email: Option<string>) returns (exist: bool)
      requires storage.Valid()
      ensures exist == (|| (username.Some? && Find(storage.lower, Username, storage.Contents, username.value).Some?)
                        || (email.Some? && Find(storage.lower, Email, storage.Contents, email.value).Some?))
    {
      var byName: UserObject?, byEmail: UserObject? := null, null;
      if username.Some? {
        byName := storage.GetUserByUsername(username.value);
      }
      if email.Some? {
        byEmail := storage.GetUserByEmail(email.value);
      }
      exist := byName != null || byEmail != null;
    }

    method CreateAndAdmit(session: Session, username: Option<string>, email: Option<string>, hash: string, x: Readings)
      returns (status: Status)
      requires Ready(session)
      modifies session, storage
      ensures Ready(session) && fresh(storage.Repr - old(storage.Repr))
      ensures
        var profile := Profile(username, email, hash, x.writtenAt, x.writtenAt, false, None);
        Answers(session, old(session.saved), status,
                CreatedReply(cfg, old(storage.Contents), old(session.Values()), User(x.newId, profile, NO_TFA)))
    {
      var user := NewUser(x.newId, username, email, hash, x.writtenAt);
      var created := storage.CreateUser(user);
      if created != Done {
        return InternalError;
      }
      var value := Snapshot(user);
      CreateSession(session, value);
      status := Success;
    }

    // ---- Enrolment, behind RequireAuth ----

    method GetUserFromSession(session: Session) returns (user: Option<User>)
      requires storage.Valid()
      ensures user == SessionUser(storage.Contents, session.Values())
    {
      if session.userId.None? {
        return None;
      }
      user := Read(session.userId.value);
    }

    method HandleTFASetup(session: Session, x: Readings) returns (status: Status)
      requires Ready(session)
      modifies session
      ensures Answers(session, old(session.saved), status, SetupReply(storage.Contents, old(session.Values()), x))
    {
      var user := GetUserFromSession(session);
      if user.None? {
        return Unauthorized;
      }
      if user.value.security.totpEnabled {
        return TFAAlreadyEnabled;
      }
      session.pendingSecret := Some(x.secret);
      session.Save();
      status := Success;
    }

    method HandleTFAEnable(session: Session, code: string, password: string, x: Readings) returns (status: Status)
      requires Ready(session)
      modifies session, storage.Repr
      ensures Ready(session) && fresh(storage.Repr - old(storage.Repr))
      ensures Answers(session, old(session.saved), status,
                      EnableReply(cfg, old(storage.Contents), old(session.Values()), code, password, x))
    {
      var user := GetUserFromSession(session);
      if user.None? {
        return Unauthorized;
      }
      if user.value.security.totpEnabled {
        return TFAAlreadyEnabled;
      }
      if !cfg.verify(password, user.value.profile.passwordHash).valid {
        return InvalidCredentials;
      }
      if session.pendingSecret.None? || session.pendingSecret.value == "" {
        return NoPendingSetup;
      }
      if !cfg.totp(session.pendingSecret.value, code, x.checkedAt) {
        return InvalidTFACode;
      }
      status := StoreEnrolment(session, user.value, x);
    }

    method StoreEnrolment(session: Session, user: User, x: Readings) returns (status: Status)
      requires Ready(session) && session.pendingSecret.Some?
      modifies session, storage.Repr
      ensures Ready(session) && fresh(storage.Repr - old(storage.Repr))
      ensures Answers(session, old(session.saved), status,
                      EnrolReply(cfg, old(storage.Contents), old(session.Values()), user, x))
    {
      var hashed: array?<string> := null;
      if cfg.backupCodeCount > 0 {
        var issued := cfg.issue(x.draws, x.salts);
        if !issued.Codes? {
          return InternalError;
        }
        hashed := new string[|issued.hashed|](i requires 0 <= i < |issued.hashed| => issued.hashed[i]);
        assert hashed[..] == issued.hashed;
      }
      var enrolled := storage.SetTOTP(user.id, session.pendingSecret.value, hashed, x.writtenAt);
      if enrolled != Done {
        return InternalError;
      }
      session.pendingSecret := None;
      session.Save();
      status := Success;
    }

    method HandleTFADisable(session: Session, password: string, x: Readings) returns (status: Status)
      requires Ready(session)
      modifies session, storage.Repr
      ensures Ready(session) && fresh(storage.Repr - old(storage.Repr))
      ensures Answers(session, old(session.saved), status,
                      DisableReply(cfg, old(storage.Contents), old(session.Values()), password, x))
    {
      var user := GetUserFromSession(session);
      if user.None? {
        return Unauthorized;
      }
      if !user.value.security.totpEnabled {
        return TFANotEnabled;
      }
      if !cfg.verify(password, user.value.profile.passwordHash).valid {
        return InvalidCredentials;
      }
      var cleared := storage.ClearTOTP(user.value.id, x.writtenAt);
      status := if cleared == Done then Success else InternalError;
    }
  }

  // The user that handleRegister builds; the fields not named there are zero.
  method NewUser(id: UserId, username: Option<string>, email: Option<string>, hash: string, now: Time)
    returns (user: UserObject)
    ensures user.Valid() && fresh(user) && fresh(user.Repr)
    ensures user.Value() == User(id, Profile(username, email, hash, now, now, false, None), NO_TFA)
  {
    var name := CellOf(username);
    var mail := CellOf(email);
    user := new UserObject(id, name, mail, hash, now, now, false, null, null, false, null, null, 0);
  }

  method CellOf<T>(o: Option<T>) returns (p: Cell?<T>)
    ensures Deref(p) == o
    ensures p != null ==> fresh(p)
  {
    p := null;
    if o.Some? {
      p := new Cell(o.value);
    }
  }

  // The fields of a user that the storage handed out.
  method Snapshot(u: UserObject) returns (value: User)
    requires u.Valid()
    ensures value == u.Value()
  {
    var hashes := if u.backupCodeHashes == null then [] else u.backupCodeHashes[..];
    value := User(u.id,
                  Profile(OptionOf(u.username), OptionOf(u.email), u.passwordHash, u.createdAt, u.updatedAt,
                          u.isTechnicalUser, OptionOf(u.apiKeyHash)),
                  Security(OptionOf(u.totpSecret), u.totpEnabled, OptionOf(u.totpEnrolledAt), hashes,
                           u.totpFailedAttempts));
  }

  function OptionOf<T>(p: Cell?<T>): (r: Option<T>)
    reads p
    ensures r == Deref(p)
  {
    if p == null then None else Some(p.value)
  }
}
