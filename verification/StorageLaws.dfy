/** What a caller of each Storage operation can rely on (storage_interface.go:13-43), field by
    field and answer by answer, for every table. */
module StorageLaws {
  import opened Wrappers
  import opened Users

  // No user but this one appears, disappears or changes.
  ghost predicate OthersStay(t: Table, t': Table, id: UserId) {
    forall other | other != id :: (other in t <==> other in t') && (other in t ==> t'[other] == t[other])
  }

  // This stored user keeps its profile but for the update time.
  ghost predicate ProfileStays(t: Table, t': Table, id: UserId)
    requires id in t && id in t'
  {
    && t'[id].id == t[id].id
    && t'[id].profile.username == t[id].profile.username && t'[id].profile.email == t[id].profile.email
    && t'[id].profile.passwordHash == t[id].profile.passwordHash
    && t'[id].profile.createdAt == t[id].profile.createdAt
    && t'[id].profile.isTechnicalUser == t[id].profile.isTechnicalUser
    && t'[id].profile.apiKeyHash == t[id].profile.apiKeyHash
  }

  ghost predicate EnrolmentStays(t: Table, t': Table, id: UserId)
    requires id in t && id in t'
  {
    && t'[id].security.totpSecret == t[id].security.totpSecret
    && t'[id].security.totpEnabled == t[id].security.totpEnabled
    && t'[id].security.totpEnrolledAt == t[id].security.totpEnrolledAt
  }

  // A stored user other than u has the same username or the same e-mail as u, letter case aside.
  ghost predicate Taken(lower: Lower, t: Table, u: User) {
    exists id :: id in t && id != u.id
                 && (|| (u.profile.username.Some? && t[id].profile.username.Some?
                         && lower(t[id].profile.username.value) == lower(u.profile.username.value))
                     || (u.profile.email.Some? && t[id].profile.email.Some?
                         && lower(t[id].profile.email.value) == lower(u.profile.email.value)))
  }

  lemma TakenIsClash(lower: Lower, t: Table, u: User)
    ensures Taken(lower, t, u) <==> Clashes(lower, t, u)
  {
    forall f | Key(lower, f, u).Some?
      ensures ClashesOn(lower, f, t, u) ==> Taken(lower, t, u)
    {
      if id :| id in t && id != u.id && Key(lower, f, t[id]) == Key(lower, f, u) {
      }
    }
    assert Clashes(lower, t, u) ==> ClashesOn(lower, Username, t, u) || ClashesOn(lower, Email, t, u);
    if Taken(lower, t, u) {
      var id :| id in t && id != u.id
                && (|| (u.profile.username.Some? && t[id].profile.username.Some?
                        && lower(t[id].profile.username.value) == lower(u.profile.username.value))
                    || (u.profile.email.Some? && t[id].profile.email.Some?
                        && lower(t[id].profile.email.value) == lower(u.profile.email.value)));
      assert Key(lower, Username, t[id]) == Key(lower, Username, u) || Key(lower, Email, t[id]) == Key(lower, Email, u);
    }
  }

  // A new user is stored exactly as given when its ID and its identifiers are free; otherwise
  // it is refused, and nothing changes.
  lemma CreationLaw(lower: Lower, t: Table, u: User)
    ensures
      var (t', answer) := CreateUser(lower, t, u);
      && (answer == Done <==> u.id !in t && !Taken(lower, t, u))
      && (answer != Done ==> answer == Refused(UserAlreadyExists) && t' == t)
      && (answer == Done ==> u.id in t' && t'[u.id] == u && OthersStay(t, t', u.id))
  {
    TakenIsClash(lower, t, u);
  }

  // An update writes the whole profile of a stored user, and none of its security fields.
  lemma UpdateLaw(lower: Lower, t: Table, u: User)
    ensures
      var (t', answer) := UpdateUser(lower, t, u);
      && (answer == Done <==> u.id in t && !Taken(lower, t, u))
      && (answer == Refused(UserNotFound) <==> u.id !in t)
      && (answer == Refused(UserAlreadyExists) <==> u.id in t && Taken(lower, t, u))
      && (answer != Done ==> t' == t)
      && (answer == Done ==>
            && u.id in t' && OthersStay(t, t', u.id)
            && t'[u.id].id == u.id && t'[u.id].profile == u.profile && t'[u.id].security == t[u.id].security)
  {
    TakenIsClash(lower, t, u);
  }

  lemma DeletionLaw(t: Table, id: UserId)
    ensures
      var (t', answer) := DeleteUser(t, id);
      && answer == (if id in t then Done else Refused(UserNotFound))
      && id !in t' && OthersStay(t, t', id)
  {
  }

  // An attempt is reserved exactly below the limit. What remains is the limit less the
  // counter that is stored afterwards: none exactly when that counter has reached the limit.
  lemma AttemptLaw(t: Table, id: UserId, max: int)
    ensures
      var (t', answer) := ConsumeTOTPAttempt(t, id, max);
      && (answer.Remaining? <==> id in t && t[id].security.totpFailedAttempts < max)
      && (answer == Refused(AttemptsExhausted) <==> id in t && t[id].security.totpFailedAttempts >= max)
      && (answer == Refused(UserNotFound) <==> id !in t)
      && (!answer.Remaining? ==> answer.Refused? && t' == t)
      && (answer.Remaining? ==>
            && id in t' && OthersStay(t, t', id) && t'[id].profile == t[id].profile && t'[id].id == t[id].id
            && EnrolmentStays(t, t', id) && t'[id].security.backupCodeHashes == t[id].security.backupCodeHashes
            && t'[id].security.totpFailedAttempts == t[id].security.totpFailedAttempts + 1
            && answer.attempts == max - t'[id].security.totpFailedAttempts && answer.attempts >= 0
            && (answer.attempts == 0 <==> t'[id].security.totpFailedAttempts == max))
  {
  }

  lemma ResetLaw(t: Table, id: UserId)
    ensures
      var (t', answer) := ResetTOTPAttempts(t, id);
      && answer == (if id in t then Done else Refused(UserNotFound))
      && OthersStay(t, t', id) && (id in t <==> id in t')
      && (id in t ==>
            && t'[id].profile == t[id].profile && t'[id].id == t[id].id && EnrolmentStays(t, t', id)
            && t'[id].security.backupCodeHashes == t[id].security.backupCodeHashes
            && t'[id].security.totpFailedAttempts == 0)
  {
  }

  // One stored copy of the hash is spent, if there is one, and every other code stays, in order.
  lemma BackupCodeLaw(t: Table, id: UserId, hash: string, now: int)
    ensures
      var (t', answer) := ConsumeBackupCode(t, id, hash, now);
      && (answer == Refused(UserNotFound) <==> id !in t)
      && (answer == Removed(true) <==> id in t && hash in t[id].security.backupCodeHashes)
      && (answer == Removed(false) <==> id in t && hash !in t[id].security.backupCodeHashes)
      && (answer != Removed(true) ==> t' == t)
      && (answer == Removed(true) ==>
            && id in t' && OthersStay(t, t', id) && ProfileStays(t, t', id) && t'[id].profile.updatedAt == now
            && EnrolmentStays(t, t', id)
            && t'[id].security.totpFailedAttempts == t[id].security.totpFailedAttempts
            && var before, after := t[id].security.backupCodeHashes, t'[id].security.backupCodeHashes;
               exists i :: 0 <= i < |before| && before[i] == hash && hash !in before[..i]
                           && after == before[..i] + before[i + 1..])
  {
    if id in t && hash in t[id].security.backupCodeHashes {
      FirstRemoved(t[id].security.backupCodeHashes, hash);
    }
  }

  lemma {:induction false} FirstRemoved(codes: seq<string>, hash: string)
    requires hash in codes
    ensures exists i :: 0 <= i < |codes| && codes[i] == hash && hash !in codes[..i]
                        && RemoveFirst(codes, hash) == codes[..i] + codes[i + 1..]
  {
    var i := 0;
    while codes[i] != hash
      invariant 0 <= i < |codes| && hash !in codes[..i] && hash in codes[i..]
      decreases |codes| - i
    {
      i := i + 1;
    }
    RemoveFirstAt(codes, i);
  }

  lemma EnrolmentLaw(t: Table, id: UserId, secret: string, hashes: seq<string>, now: int)
    ensures
      var (t', answer) := SetTOTP(t, id, secret, hashes, now);
      && answer == (if id in t then Done else Refused(UserNotFound))
      && OthersStay(t, t', id) && (id in t <==> id in t')
      && (id in t ==>
            && ProfileStays(t, t', id) && t'[id].profile.updatedAt == now
            && t'[id].security.totpSecret == Some(secret) && t'[id].security.totpEnabled
            && t'[id].security.totpEnrolledAt == Some(now) && t'[id].security.backupCodeHashes == hashes
            && t'[id].security.totpFailedAttempts == 0)
  {
  }

  lemma DisenrolmentLaw(t: Table, id: UserId, now: int)
    ensures
      var (t', answer) := ClearTOTP(t, id, now);
      && answer == (if id in t then Done else Refused(UserNotFound))
      && OthersStay(t, t', id) && (id in t <==> id in t')
      && (id in t ==>
            && ProfileStays(t, t', id) && t'[id].profile.updatedAt == now
            && t'[id].security.totpSecret == None && !t'[id].security.totpEnabled
            && t'[id].security.totpEnrolledAt == None && t'[id].security.backupCodeHashes == []
            && t'[id].security.totpFailedAttempts == 0)
  {
  }

  // A lookup finds exactly a stored user with this identifier, letter case aside.
  lemma LookupLaw(lower: Lower, f: Field, t: Table, identifier: string)
    ensures
      var found := Find(lower, f, t, identifier);
      && (found.Some? <==> exists id :: id in t && HasIdentifier(lower, f, t[id], identifier))
      && (found.Some? ==>
            HasIdentifier(lower, f, found.value, identifier) && exists id :: id in t && t[id] == found.value)
  {
    var found := Find(lower, f, t, identifier);
    if id :| id in t && HasIdentifier(lower, f, t[id], identifier) {
      assert Key(lower, f, t[id]) == Some(lower(identifier));
    }
    if found.Some? {
      var id :| id in t && t[id] == found.value && Key(lower, f, t[id]) == Some(lower(identifier));
      assert HasIdentifier(lower, f, t[id], identifier);
    }
  }

  predicate HasIdentifier(lower: Lower, f: Field, u: User, identifier: string) {
    match f
    case Username => u.profile.username.Some? && lower(u.profile.username.value) == lower(identifier)
    case Email => u.profile.email.Some? && lower(u.profile.email.value) == lower(identifier)
  }
}
