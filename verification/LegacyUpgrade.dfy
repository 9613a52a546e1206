/** The re-hash of an imported password: what it changes, and exactly when the password is
    accepted again afterwards (handler.go:385-443). */
module LegacyUpgrade {
  import opened Wrappers
  import opened Users
  import opened StorageRuns
  import opened Text
  import opened PasswordHash
  import opened Protocol
  import opened SoloRuns
  import opened Replies

  // The passwords are hashed and verified by this library, with hashing parameters p.
  ghost predicate HashesWith(cfg: Config, argon: Argon, p: Params) {
    && cfg.saltLength == p.saltLength && KeepsLength(argon)
    && (forall password, hash :: cfg.verify(password, hash) == VerifyPassword(argon, password, hash))
    && (forall password, salt :: |salt| == p.saltLength ==>
          cfg.hash(password, salt) == HashPassword(argon, password, p, salt))
  }

  // What one check of the password leaves behind: the other users, and all of this one but
  // the hash and the time of the update, are as before, and the hash changed only to the
  // argon2id form of the very password.
  lemma CheckChangesOnlyTheHash(cfg: Config, argon: Argon, p: Params, t: Table, user: User, password: string,
                                x: Readings)
    requires HashesWith(cfg, argon, p) && |x.salt| == p.saltLength && Keyed(t)
    requires user.id in t && t[user.id] == user && PasswordChecked(cfg, t, user, password, x).0.Some?
    ensures
      var t' := PasswordChecked(cfg, t, user, password, x).0.value;
      && t'.Keys == t.Keys
      && (forall id | id in t && id != user.id :: t'[id] == t[id])
      && var now := t'[user.id];
         if now.profile.passwordHash == user.profile.passwordHash then
           now == user || now == user.(profile := user.profile.(updatedAt := x.writtenAt))
         else
           && HashPassword(argon, password, p, x.salt) == Hash(now.profile.passwordHash)
           && now == user.(profile := user.profile.(passwordHash := now.profile.passwordHash, updatedAt := x.writtenAt))
           && PasswordChecked(cfg, t, user, password, x).1
  {
  }

  // The check leaves the user on the old hash: no re-hash is attempted, or it has no text to
  // write, or the write fails.
  predicate StaysOnOldHash(argon: Argon, user: User, password: string, x: Readings) {
    || VerifyPassword(argon, password, user.profile.passwordHash).valid
    || ByteLength(password) == 0 || ByteLength(password) > 72
    || x.writeFails
  }

  // Otherwise it moves to the new one: the write of the stored user's own identifiers is not refused.
  lemma MovesToNewHash(cfg: Config, argon: Argon, p: Params, t: Table, user: User, password: string, x: Readings)
    requires HashesWith(cfg, argon, p) && |x.salt| == p.saltLength && Keyed(t) && UniqueIdentifiers(cfg.lower, t)
    requires user.id in t && t[user.id] == user && !StaysOnOldHash(argon, user, password, x)
    requires PasswordChecked(cfg, t, user, password, x).0.Some? && PasswordChecked(cfg, t, user, password, x).1
    ensures
      var h := HashPassword(argon, password, p, x.salt);
      h.Hash? && PasswordChecked(cfg, t, user, password, x).0.value[user.id].profile.passwordHash == h.text
  {
    var h := HashPassword(argon, password, p, x.salt);
    assert h == cfg.hash(password, x.salt);
    if h.Hash? {
      var current := user.(profile := user.profile.(passwordHash := h.text, updatedAt := x.writtenAt));
      OwnLetterCase(cfg.lower, t, current);
    }
  }

  // A password that was accepted is accepted again afterwards exactly when it stayed on the
  // old hash, or the hashing parameters are within the limits of the verifier, or the legacy
  // verifier takes the new hash too.
  lemma AcceptedAgainExactly(cfg: Config, argon: Argon, p: Params, t: Table, user: User, password: string,
                             x: Readings, x': Readings)
    requires HashesWith(cfg, argon, p) && |x.salt| == p.saltLength && |x'.salt| == p.saltLength
    requires Keyed(t) && UniqueIdentifiers(cfg.lower, t) && user.id in t && t[user.id] == user
    requires PasswordChecked(cfg, t, user, password, x).0.Some? && PasswordChecked(cfg, t, user, password, x).1
    ensures
      var t' := PasswordChecked(cfg, t, user, password, x).0.value;
      var h := HashPassword(argon, password, p, x.salt);
      user.id in t'
      && (PasswordChecked(cfg, t', t'[user.id], password, x').1
          <==> || StaysOnOldHash(argon, user, password, x)
               || (&& 32_768 <= p.memory <= 131_072 && 1 <= p.iterations <= 50 && 1 <= p.parallelism <= 8
                   && p.saltLength >= 16 && p.keyLength >= 16)
               || (h.Hash? && cfg.legacy.Some? && cfg.legacy.value(password, h.text) == LegacyMatch))
  {
    CheckChangesOnlyTheHash(cfg, argon, p, t, user, password, x);
    if StaysOnOldHash(argon, user, password, x) {
      OldHashStays(cfg, argon, p, t, user, password, x);
    } else {
      MovesToNewHash(cfg, argon, p, t, user, password, x);
      HashVerifies(argon, password, p, x.salt, password);
    }
  }

  lemma OldHashStays(cfg: Config, argon: Argon, p: Params, t: Table, user: User, password: string, x: Readings)
    requires HashesWith(cfg, argon, p) && |x.salt| == p.saltLength && user.id in t && t[user.id] == user
    requires StaysOnOldHash(argon, user, password, x) && PasswordChecked(cfg, t, user, password, x).0.Some?
    ensures PasswordChecked(cfg, t, user, password, x).0.value == t
  {
  }

  // With hashing parameters within the limits, a login that succeeded succeeds again, and
  // after a re-hash it no longer needs the legacy verifier and changes nothing more.
  lemma UpgradePreservesLogin(cfg: Config, argon: Argon, p: Params, t: Table, user: User, password: string,
                              x: Readings, x': Readings)
    requires HashesWith(cfg, argon, p) && InLimits(p) && |x.salt| == p.saltLength && |x'.salt| == p.saltLength
    requires Keyed(t) && user.id in t && t[user.id] == user
    requires PasswordChecked(cfg, t, user, password, x).0.Some? && PasswordChecked(cfg, t, user, password, x).1
    ensures
      var t' := PasswordChecked(cfg, t, user, password, x).0.value;
      user.id in t'
      && var now := t'[user.id];
         && PasswordChecked(cfg, t', now, password, x').1
         && (now.profile.passwordHash != user.profile.passwordHash ==>
               PasswordChecked(cfg, t', now, password, x') == (Some(t'), true))
  {
    CheckChangesOnlyTheHash(cfg, argon, p, t, user, password, x);
    var now := PasswordChecked(cfg, t, user, password, x).0.value[user.id];
    if now.profile.passwordHash != user.profile.passwordHash {
      HashVerifies(argon, password, p, x.salt, password);
    }
  }

  // A password of no byte or of more than 72 bytes stays on its old hash, and so does
  // every password when the write fails.
  lemma StaysOnLegacyHash(cfg: Config, argon: Argon, p: Params, t: Table, user: User, password: string, x: Readings)
    requires HashesWith(cfg, argon, p) && |x.salt| == p.saltLength
    requires !HashableLength(password) || x.writeFails
    ensures PasswordChecked(cfg, t, user, password, x).0 in {Some(t), None}
    ensures !HashableLength(password) ==> PasswordChecked(cfg, t, user, password, x).0 == Some(t)
  {
  }
}
