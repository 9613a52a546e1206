/** The protocol with this library's own hashing and backup codes in it. */
module Settings {
  import opened Wrappers
  import opened Users
  import opened Text
  import opened Base64
  import opened PasswordHash
  import opened BackupCodes
  import opened Protocol
  import opened SoloRuns
  import opened Replies
  import opened LegacyUpgrade

  // BasicAuthSettings and TFASettings, as far as the protocol looks at them.
  datatype BasicAuthSettings = BasicAuthSettings(
    enableTFA: bool,
    enableRegistration: bool,
    enableUsernameLogin: bool,
    enableEmailLogin: bool,
    hashingParams: Params,
    maxVerifyAttempts: int,
    backupCodeCount: int,
    backupCodeLength: int,
    backupCodeAlphabet: string,
    pendingSessionTTL: Time,
    legacyPasswordVerifier: Option<(string, string) -> LegacyAnswer>)

  function Hasher(argon: Argon, p: Params): (string, seq<Byte>) -> Hashed {
    (password: string, salt: seq<Byte>) =>
      if |salt| == p.saltLength then HashPassword(argon, password, p, salt) else BadLength
  }

  function Configured(st: BasicAuthSettings, u: Unicode, argon: Argon, totp: (string, string, Time) -> bool): Config {
    Config(st.enableTFA, st.enableRegistration, st.enableUsernameLogin, st.enableEmailLogin, st.maxVerifyAttempts,
           st.backupCodeCount, st.pendingSessionTTL, st.hashingParams.saltLength,
           (s: string) => ToLower(u, s),
           (password: string, hash: string) => VerifyPassword(argon, password, hash),
           Hasher(argon, st.hashingParams),
           st.legacyPasswordVerifier,
           totp,
           (hashes: seq<string>, code: string) => FindMatch(u, OpenerOf(argon), hashes, code),
           (draws: seq<seq<nat>>, salts: seq<seq<Byte>>) =>
             Issue(u, argon, if st.backupCodeCount < 0 then 0 else st.backupCodeCount, st.backupCodeLength,
                   st.backupCodeAlphabet, st.hashingParams, draws, salts))
  }

  lemma ConfiguredHashes(st: BasicAuthSettings, u: Unicode, argon: Argon, totp: (string, string, Time) -> bool)
    requires KeepsLength(argon)
    ensures HashesWith(Configured(st, u, argon, totp), argon, st.hashingParams)
  {
  }

  // ---- A re-hash that locks its user out ----

  // One iteration more than the verifier takes.
  const TOO_COSTLY := Params(64 * 1024, MAX_ITERATIONS + 1, 2, 16, 32)

  const IMPORTED := User(1, Profile(Some("ada"), None, "old", 0, 0, false, None), NO_TFA)

  ghost predicate KnowsOldHashOnly(cfg: Config) {
    cfg.legacy.Some?
    && forall password, hash ::
         cfg.legacy.value(password, hash) == if hash == "old" then LegacyMatch else LegacyMismatch
  }

  lemma ImportedIsAccepted(cfg: Config, argon: Argon, t: Table, x: Readings)
    requires HashesWith(cfg, argon, TOO_COSTLY) && KnowsOldHashOnly(cfg) && |x.salt| == 16 && !x.writeFails
    requires t == map[1 := IMPORTED]
    ensures PasswordChecked(cfg, t, IMPORTED, "pw", x).0.Some? && PasswordChecked(cfg, t, IMPORTED, "pw", x).1
    ensures HashPassword(argon, "pw", TOO_COSTLY, x.salt).Hash? && !StaysOnOldHash(argon, IMPORTED, "pw", x)
  {
    SplitPlain("old", '$');
    assert "pw"[1..] == "w" && "w"[1..] == "";
  }

  // The password is accepted by a legacy verifier that knows the old hash only; the re-hash
  // that follows is made with parameters that HashPassword does not check; and then neither
  // verifier takes the same password again.
  lemma UpgradeLocksOut(st: BasicAuthSettings, u: Unicode, argon: Argon, totp: (string, string, Time) -> bool,
                        x: Readings, x': Readings)
    requires KeepsLength(argon) && |x.salt| == 16 && |x'.salt| == 16 && !x.writeFails
    requires st.hashingParams == TOO_COSTLY && KnowsOldHashOnly(Configured(st, u, argon, totp))
    ensures
      var cfg, t := Configured(st, u, argon, totp), map[1 := IMPORTED];
      var first := PasswordChecked(cfg, t, IMPORTED, "pw", x);
      && first.0.Some? && first.1 && 1 in first.0.value
      && !PasswordChecked(cfg, first.0.value, first.0.value[1], "pw", x').1
    ensures
      var h := HashPassword(argon, "pw", TOO_COSTLY, x.salt);
      h.Hash? && !VerifyPassword(argon, "pw", h.text).valid
  {
    var cfg, t := Configured(st, u, argon, totp), map[1 := IMPORTED];
    ConfiguredHashes(st, u, argon, totp);
    ImportedIsAccepted(cfg, argon, t, x);
    StartsWithDollar(TOO_COSTLY, x.salt, argon("pw", x.salt, MAX_ITERATIONS + 1, 64 * 1024, 2, 32));
    AcceptedAgainExactly(cfg, argon, TOO_COSTLY, t, IMPORTED, "pw", x, x');
    OwnHashVerifiesExactly(argon, "pw", TOO_COSTLY, x.salt);
  }

  // ---- Backup codes through the handlers ----

  // A backup code submitted to handleTFAVerify is redeemed against the stored hashes.
  lemma BackupCheckRedeems(st: BasicAuthSettings, u: Unicode, argon: Argon, totp: (string, string, Time) -> bool,
                           t: Table, id: UserId, code: string, x: Readings)
    requires Keyed(t) && id in t && t[id].security.totpSecret.Some? && st.backupCodeCount > 0
    ensures
      var checked := CheckedCode(Configured(st, u, argon, totp), t, t[id], code, true, x);
      var redeemed := Redeem(u, OpenerOf(argon), t[id].security.backupCodeHashes, code);
      && id in checked.0 && checked.1 == Some(redeemed.1)
      && checked.0[id].security == t[id].security.(backupCodeHashes := redeemed.0)
      && (forall other | other in t && other != id :: other in checked.0 && checked.0[other] == t[other])
  {
    var opens := OpenerOf(argon);
    MatchIsStored(opens, t[id].security.backupCodeHashes, Normalize(u, code));
  }

  lemma {:induction false} MatchIsStored(opens: Opener, hashes: seq<string>, code: string)
    ensures FirstOpened(opens, hashes, code).Some? ==> FirstOpened(opens, hashes, code).value in hashes
  {
    if hashes != [] {
      MatchIsStored(opens, hashes[1..], code);
    }
  }

  // The checks of these submissions, one after the other, as backup codes of this user.
  function CheckAll(cfg: Config, t: Table, id: UserId, subs: seq<string>, x: Readings): (Table, seq<bool>) {
    if subs == [] then (t, [])
    else
      var before := CheckAll(cfg, t, id, subs[..|subs| - 1], x);
      if id !in before.0 || before.0[id].security.totpSecret.None? then (before.0, before.1 + [false])
      else
        var checked := CheckedCode(cfg, before.0, before.0[id], subs[|subs| - 1], true, x);
        (checked.0, before.1 + [checked.1 == Some(true)])
  }

  lemma {:induction false} ChecksRedeem(st: BasicAuthSettings, u: Unicode, argon: Argon,
                                        totp: (string, string, Time) -> bool,
                                        t: Table, id: UserId, subs: seq<string>, x: Readings)
    requires Keyed(t) && id in t && t[id].security.totpSecret.Some? && st.backupCodeCount > 0
    ensures
      var checked := CheckAll(Configured(st, u, argon, totp), t, id, subs, x);
      var redeemed := RedeemAll(u, OpenerOf(argon), t[id].security.backupCodeHashes, subs);
      && Keyed(checked.0) && id in checked.0 && checked.1 == redeemed.1
      && checked.0[id].security == t[id].security.(backupCodeHashes := redeemed.0)
  {
    if subs == [] {
    } else {
      var cfg, before := Configured(st, u, argon, totp), subs[..|subs| - 1];
      ChecksRedeem(st, u, argon, totp, t, id, before, x);
      BackupCheckRedeems(st, u, argon, totp, CheckAll(cfg, t, id, before, x).0, id, subs[|subs| - 1], x);
    }
  }

  // From the enrolment on: each code issued by handleTFAEnable passes the check of
  // handleTFAVerify once, in any order and any letter case, and then none passes again.
  lemma EnrolledCodesRedeem(st: BasicAuthSettings, u: Unicode, argon: Argon, totp: (string, string, Time) -> bool,
                            t: Table, ses: Cookie, user: User, x: Readings, plain: seq<string>, hashed: seq<string>,
                            order: seq<string>, subs: seq<string>, again: string)
    requires st.backupCodeCount > 0 && Keyed(t) && user.id in t && ses.pendingSecret.Some?
    requires Issue(u, argon, st.backupCodeCount, st.backupCodeLength, st.backupCodeAlphabet, st.hashingParams,
                   x.draws, x.salts) == Codes(plain, hashed)
    requires KeepsLength(argon) && InLimits(st.hashingParams)
    requires NoCollision(argon, st.hashingParams, plain, x.salts, plain)
    requires Sensible(u) && SpaceFree(u, ToLower(u, st.backupCodeAlphabet))
    requires multiset(order) == multiset(plain)
    requires |subs| == |order| && forall k | 0 <= k < |subs| :: VariantOf(u, subs[k], order[k])
    ensures
      var cfg := Configured(st, u, argon, totp);
      var enrolled := EnrolReply(cfg, t, ses, user, x);
      var checked := CheckAll(cfg, enrolled.store, user.id, subs, x);
      && enrolled.status == Success
      && |checked.1| == |subs| && (forall k | 0 <= k < |subs| :: checked.1[k])
      && user.id in checked.0 && checked.0[user.id].security.totpSecret.Some?
      && CheckedCode(cfg, checked.0, checked.0[user.id], again, true, x).1 == Some(false)
  {
    var cfg := Configured(st, u, argon, totp);
    var t1 := EnrolReply(cfg, t, ses, user, x).store;
    RedemptionInAnyOrder(u, argon, st.backupCodeCount, st.backupCodeLength, st.backupCodeAlphabet, st.hashingParams,
                         x.draws, x.salts, plain, hashed, order, subs);
    ChecksRedeem(st, u, argon, totp, t1, user.id, subs, x);
    BackupCheckRedeems(st, u, argon, totp, CheckAll(cfg, t1, user.id, subs, x).0, user.id, again, x);
  }
}
