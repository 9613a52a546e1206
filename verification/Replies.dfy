/** What a handler call comes to when nothing interferes: the storage, the session's values,
    the cookies saved and the status. The handlers are proved against these functions, and
    these are proved to be runs of the protocol. */
module Replies {
  import opened Wrappers
  import opened Users
  import opened Protocol
  import opened SoloRuns

  datatype Status =
    | Success | TFARequired | NoPendingChallenge | Unauthorized | InvalidCredentials | TFANotEnabled | TFAAlreadyEnabled
    | NoPendingSetup | InvalidTFACode | InvalidRequest | UserExists | InternalError

  datatype Reply = Reply(store: Table, values: Cookie, saved: seq<Cookie>, status: Status)

  function Unchanged(t: Table, ses: Cookie, status: Status): Reply {
    Reply(t, ses, [], status)
  }

  function Saved(t: Table, ses: Cookie, status: Status): Reply {
    Reply(t, ses, [ses], status)
  }

  // ---- handleTFAVerify ----

  function PromoteReply(t: Table, ses: Cookie, user: User): Reply {
    var reset := ResetTOTPAttempts(t, user.id);
    var ended := WithoutPending(ses);
    var promoted := ended.(userId := Some(user.id));
    if reset.1 != Done then Unchanged(t, ses, InternalError)
    else Reply(reset.0, promoted, [ended, promoted], Success)
  }

  function WrongCodeReply(cfg: Config, t: Table, ses: Cookie, remaining: int): Reply {
    if cfg.maxVerifyAttempts > 0 && remaining == 0 then Saved(t, WithoutPending(ses), InvalidTFACode)
    else Unchanged(t, ses, InvalidTFACode)
  }

  // The code check: verified or not, or nothing when the storage fails.
  function CheckedCode(cfg: Config, t: Table, user: User, code: string, isBackup: bool, x: Readings)
    : (Table, Option<bool>)
    requires user.security.totpSecret.Some?
  {
    if !isBackup && cfg.totp(user.security.totpSecret.value, code, x.checkedAt) then (t, Some(true))
    else if cfg.backupCodeCount <= 0 then (t, Some(false))
    else
      var found := cfg.findMatch(user.security.backupCodeHashes, code);
      if found.None? then (t, Some(false))
      else
        var consumed := ConsumeBackupCode(t, user.id, found.value, x.writtenAt);
        (consumed.0, if consumed.1.Removed? then Some(consumed.1.yes) else None)
  }

  function CodeReply(cfg: Config, t: Table, ses: Cookie, user: User, code: string, isBackup: bool, remaining: int,
                     x: Readings): Reply
    requires user.security.totpSecret.Some?
  {
    var checked := CheckedCode(cfg, t, user, code, isBackup, x);
    if checked.1.None? then Unchanged(t, ses, InternalError)
    else if checked.1.value then PromoteReply(checked.0, ses, user)
    else WrongCodeReply(cfg, checked.0, ses, remaining)
  }

  function ReservedReply(cfg: Config, t: Table, ses: Cookie, user: User, code: string, isBackup: bool,
                         x: Readings): Reply
    requires user.security.totpSecret.Some?
  {
    if cfg.maxVerifyAttempts <= 0 then CodeReply(cfg, t, ses, user, code, isBackup, 0, x)
    else
      var reserved := ConsumeTOTPAttempt(t, user.id, cfg.maxVerifyAttempts);
      if reserved.1 == Refused(AttemptsExhausted) then Saved(t, WithoutPending(ses), InvalidTFACode)
      else if !reserved.1.Remaining? then Unchanged(t, ses, InternalError)
      else CodeReply(cfg, reserved.0, ses, user, code, isBackup, reserved.1.attempts, x)
  }

  function VerifyReply(cfg: Config, t: Table, ses: Cookie, code: string, isBackup: bool, now: Time,
                       x: Readings): Reply {
    if ses.pendingUser.None? then Unchanged(t, ses, NoPendingChallenge)
    else if Millis(now) >= (if ses.pendingExpiry.Some? then ses.pendingExpiry.value else 0) then
      Saved(t, WithoutPending(ses), NoPendingChallenge)
    else if ses.pendingUser.value !in t then Unchanged(t, ses, Unauthorized)
    else
      var user := t[ses.pendingUser.value];
      if !user.security.totpEnabled || user.security.totpSecret.None? then Unchanged(t, ses, TFANotEnabled)
      else ReservedReply(cfg, t, ses, user, code, isBackup, x)
  }

  // ---- handleLogin ----

  // upgradePasswordHash; nothing is returned when the hashing panics.
  function Upgraded(cfg: Config, t: Table, user: User, password: string, x: Readings): Option<Table>
    requires |x.salt| == cfg.saltLength
  {
    match cfg.hash(password, x.salt)
    case BadLength => Some(t)
    case Panicked => None
    case Hash(text) =>
      if user.id !in t || t[user.id].profile.passwordHash != user.profile.passwordHash then Some(t)
      else
        var current := t[user.id].(profile := t[user.id].profile.(passwordHash := text, updatedAt := x.writtenAt));
        Some(if x.writeFails then t else UpdateUser(cfg.lower, t, current).0)
  }

  // verifyLoginPassword
  function PasswordChecked(cfg: Config, t: Table, user: User, password: string, x: Readings): (Option<Table>, bool)
    requires |x.salt| == cfg.saltLength
  {
    var verdict := cfg.verify(password, user.profile.passwordHash);
    if verdict.valid then (Some(t), true)
    else if verdict.error.None? || !LegacyAccepts(cfg, password, user.profile.passwordHash) then (Some(t), false)
    else (Upgraded(cfg, t, user, password, x), true)
  }

  // createPendingTFASession
  function ChallengeReply(cfg: Config, t: Table, ses: Cookie, user: User, x: Readings): Reply {
    var reset := ResetTOTPAttempts(t, user.id);
    if reset.1 != Done then Unchanged(t, ses, InternalError)
    else Saved(reset.0, Challenge(cfg, ses, user.id, x.challengedAt), TFARequired)
  }

  function AcceptedReply(cfg: Config, t: Table, ses: Cookie, user: User, x: Readings): Reply {
    if NeedsTFA(cfg, user) then ChallengeReply(cfg, t, ses, user, x)
    else Saved(t, ses.(userId := Some(user.id)), Success)
  }

  // getUserByIdentifier
  ghost function Identified(cfg: Config, t: Table, identifier: string): Option<User> {
    if '@' in identifier then
      if cfg.enableEmailLogin then Find(cfg.lower, Email, t, identifier) else None
    else
      if cfg.enableUsernameLogin then Find(cfg.lower, Username, t, identifier) else None
  }

  ghost function LoginReply(cfg: Config, t: Table, ses: Cookie, identifier: string, password: string,
                            x: Readings): Reply
    requires |x.salt| == cfg.saltLength
  {
    var user := Identified(cfg, t, identifier);
    if user.None? then Unchanged(t, ses, InvalidCredentials)
    else
      var checked := PasswordChecked(cfg, t, user.value, password, x);
      if checked.0.None? then Unchanged(t, ses, InternalError)
      else if !checked.1 then Unchanged(t, ses, InvalidCredentials)
      else AcceptedReply(cfg, checked.0.value, ses, user.value, x)
  }

  // ---- handleRegister, after the checks of the texts submitted ----

  function CreatedReply(cfg: Config, t: Table, ses: Cookie, user: User): Reply {
    var created := CreateUser(cfg.lower, t, user);
    if created.1 != Done then Unchanged(t, ses, InternalError)
    else Saved(created.0, ses.(userId := Some(user.id)), Success)
  }

  ghost function RegisterReply(cfg: Config, t: Table, ses: Cookie, username: Option<string>, email: Option<string>,
                               password: string, x: Readings): Reply
    requires |x.salt| == cfg.saltLength
  {
    if username.None? && email.None? then Unchanged(t, ses, InvalidRequest)
    else if username.Some? && !cfg.enableUsernameLogin then Unchanged(t, ses, InvalidRequest)
    else if email.Some? && !cfg.enableEmailLogin then Unchanged(t, ses, InvalidRequest)
    else if username.Some? && Find(cfg.lower, Username, t, username.value).Some? then Unchanged(t, ses, UserExists)
    else if email.Some? && Find(cfg.lower, Email, t, email.value).Some? then Unchanged(t, ses, UserExists)
    else
      var hashed := cfg.hash(password, x.salt);
      if !hashed.Hash? then Unchanged(t, ses, InternalError)
      else
        var profile := Profile(username, email, hashed.text, x.writtenAt, x.writtenAt, false, None);
        CreatedReply(cfg, t, ses, User(x.newId, profile, NO_TFA))
  }

  // ---- Enrolment ----

  // RequireAuth lets the request through as this user, and the handler reads no other.
  function SetupReply(t: Table, ses: Cookie, x: Readings): Reply {
    var user := SessionUser(t, ses);
    if user.None? then Unchanged(t, ses, Unauthorized)
    else if user.value.security.totpEnabled then Unchanged(t, ses, TFAAlreadyEnabled)
    else Saved(t, ses.(pendingSecret := Some(x.secret)), Success)
  }

  // The backup codes to store, if they can be made.
  function NewHashes(cfg: Config, x: Readings): Option<seq<string>> {
    if cfg.backupCodeCount <= 0 then Some([])
    else
      var issued := cfg.issue(x.draws, x.salts);
      if issued.Codes? then Some(issued.hashed) else None
  }

  function EnrolReply(cfg: Config, t: Table, ses: Cookie, user: User, x: Readings): Reply
    requires ses.pendingSecret.Some?
  {
    var hashes := NewHashes(cfg, x);
    if hashes.None? then Unchanged(t, ses, InternalError)
    else
      var enrolled := SetTOTP(t, user.id, ses.pendingSecret.value, hashes.value, x.writtenAt);
      if enrolled.1 != Done then Unchanged(t, ses, InternalError)
      else Saved(enrolled.0, ses.(pendingSecret := None), Success)
  }

  function EnableReply(cfg: Config, t: Table, ses: Cookie, code: string, password: string, x: Readings): Reply {
    var user := SessionUser(t, ses);
    if user.None? then Unchanged(t, ses, Unauthorized)
    else if user.value.security.totpEnabled then Unchanged(t, ses, TFAAlreadyEnabled)
    else if !cfg.verify(password, user.value.profile.passwordHash).valid then Unchanged(t, ses, InvalidCredentials)
    else if ses.pendingSecret.None? || ses.pendingSecret.value == "" then Unchanged(t, ses, NoPendingSetup)
    else if !cfg.totp(ses.pendingSecret.value, code, x.checkedAt) then Unchanged(t, ses, InvalidTFACode)
    else EnrolReply(cfg, t, ses, user.value, x)
  }

  function DisableReply(cfg: Config, t: Table, ses: Cookie, password: string, x: Readings): Reply {
    var user := SessionUser(t, ses);
    if user.None? then Unchanged(t, ses, Unauthorized)
    else if !user.value.security.totpEnabled then Unchanged(t, ses, TFANotEnabled)
    else if !cfg.verify(password, user.value.profile.passwordHash).valid then Unchanged(t, ses, InvalidCredentials)
    else
      var cleared := ClearTOTP(t, user.value.id, x.writtenAt);
      if cleared.1 != Done then Unchanged(t, ses, InternalError) else Unchanged(cleared.0, ses, Success)
  }

  // An enrolment stores the secret of the session, whoever set it up, for the session's user.
  lemma EnableStoresPendingSecret(cfg: Config, t: Table, ses: Cookie, code: string, password: string, x: Readings)
    requires Keyed(t) && EnableReply(cfg, t, ses, code, password, x).status == Success
    ensures
      var reply := EnableReply(cfg, t, ses, code, password, x);
      && ses.userId.Some? && ses.userId.value in reply.store && ses.pendingSecret.Some?
      && reply.store[ses.userId.value].security.totpSecret == ses.pendingSecret
      && reply.values.pendingSecret.None?
      && forall id | id in t && id != ses.userId.value :: id in reply.store && reply.store[id] == t[id]
  {
  }

  // The setup need not have been that of the user enrolled: a cookie keeps its pending secret
  // when another user logs in with it, and that user's enrolment then stores the secret.
  lemma SecretsMayCrossUsers(cfg: Config, t: Table, ses: Cookie, owner: UserId, other: User, identifier: string,
                             code: string, password: string, x: Readings)
    requires ses.userId == Some(owner) && owner in t && !t[owner].security.totpEnabled && owner != other.id
    requires other.id in t && t[other.id] == other && !other.security.totpEnabled
    requires Identified(cfg, t, identifier) == Some(other) && |x.salt| == cfg.saltLength
    requires cfg.verify(password, other.profile.passwordHash).valid
    requires x.secret != "" && cfg.totp(x.secret, code, x.checkedAt) && NewHashes(cfg, x).Some?
    ensures
      var setup := SetupReply(t, ses, x);
      var login := LoginReply(cfg, setup.store, setup.saved[0], identifier, password, x);
      var enrolment := EnableReply(cfg, login.store, login.saved[0], code, password, x);
      && setup.status == Success && login.status == Success && enrolment.status == Success
      && enrolment.store[other.id].security.totpSecret == Some(x.secret)
      && enrolment.store[owner] == t[owner]
  {
  }
}
