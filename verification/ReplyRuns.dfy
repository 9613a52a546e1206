/** Each reply is where the protocol's own steps end, when one request takes them alone. */
module ReplyRuns {
  import opened Wrappers
  import opened Users
  import opened Protocol
  import opened SoloRuns
  import opened Replies

  // ---- The steps of handleTFAVerify ----

  lemma OnResetBudget(s: Solo, n: nat, t: Table, saved: seq<Cookie>, ses: Cookie, user: User)
    requires s.Valid() && s.At(n, t, saved, Some(VerifyResetBudget(ses, user)))
    ensures user.id !in t ==> s.At(n + 1, t, saved, None)
    ensures user.id in t ==> s.At(n + 1, ResetTOTPAttempts(t, user.id).0, saved, Some(VerifySave(ses, user)))
  {
    On(s, n, t, saved, VerifyResetBudget(ses, user),
       if user.id !in t then REJECT else Go(Some(BudgetReset(s.r, user.id)), Some(VerifySave(ses, user))));
  }

  lemma OnSave(s: Solo, n: nat, t: Table, saved: seq<Cookie>, ses: Cookie, user: User)
    requires s.Valid() && s.At(n, t, saved, Some(VerifySave(ses, user)))
    ensures s.At(n + 1, t, saved + [WithoutPending(ses)], Some(VerifySession(WithoutPending(ses), user)))
  {
    On(s, n, t, saved, VerifySave(ses, user),
       Go(Some(Issued(s.r, WithoutPending(ses), Resaved)), Some(VerifySession(WithoutPending(ses), user))));
  }

  lemma OnSession(s: Solo, n: nat, t: Table, saved: seq<Cookie>, ses: Cookie, user: User)
    requires s.Valid() && s.At(n, t, saved, Some(VerifySession(ses, user)))
    ensures s.At(n + 1, t, saved + [ses.(userId := Some(user.id))], None)
  {
    On(s, n, t, saved, VerifySession(ses, user),
       Go(Some(Issued(s.r, ses.(userId := Some(user.id)), ByCode(user.id))), None));
  }

  lemma PromoteRuns(s: Solo, n: nat, t: Table, ses: Cookie, user: User)
    requires s.Valid() && n + 3 <= STEPS && s.At(n, t, [], Some(VerifyResetBudget(ses, user)))
    ensures s.Ends(PromoteReply(t, ses, user).store, PromoteReply(t, ses, user).saved)
  {
    OnResetBudget(s, n, t, [], ses, user);
    if user.id !in t {
      EndStays(s, n + 1, STEPS, t, []);
    } else {
      var t', ended := ResetTOTPAttempts(t, user.id).0, WithoutPending(ses);
      var promoted := ended.(userId := Some(user.id));
      OnSave(s, n + 1, t', [], ses, user);
      assert [] + [ended] == [ended] && [ended] + [promoted] == [ended, promoted];
      OnSession(s, n + 2, t', [ended], ended, user);
      EndStays(s, n + 3, STEPS, t', [ended, promoted]);
    }
  }

  lemma OnEndPending(s: Solo, n: nat, t: Table, ses: Cookie)
    requires s.Valid() && n < STEPS && s.At(n, t, [], Some(EndPending(ses)))
    ensures s.Ends(t, [WithoutPending(ses)])
  {
    On(s, n, t, [], EndPending(ses), Go(Some(Issued(s.r, WithoutPending(ses), Resaved)), None));
    assert [] + [WithoutPending(ses)] == [WithoutPending(ses)];
    EndStays(s, n + 1, STEPS, t, [WithoutPending(ses)]);
  }

  // A failed code, at the step after which it is known.
  lemma WrongCodeRuns(s: Solo, n: nat, t: Table, ses: Cookie, remaining: int)
    requires s.Valid() && n < STEPS && s.At(n, t, [], AfterWrongCode(s.cfg, ses, remaining).next)
    ensures s.Ends(t, WrongCodeReply(s.cfg, t, ses, remaining).saved)
  {
    if s.cfg.maxVerifyAttempts > 0 && remaining == 0 {
      OnEndPending(s, n, t, ses);
    } else {
      EndStays(s, n, STEPS, t, []);
    }
  }

  // Where the check of a code leads.
  function AfterCode(cfg: Config, ses: Cookie, user: User, remaining: int, verified: Option<bool>): Option<Request> {
    if verified.None? then None
    else if verified.value then Some(VerifyResetBudget(ses, user))
    else AfterWrongCode(cfg, ses, remaining).next
  }

  lemma OnConsume(s: Solo, n: nat, t: Table, ses: Cookie, user: User, code: string, remaining: int, hash: string)
    requires s.Valid() && s.At(n, t, [], Some(VerifyConsume(ses, user, code, remaining, hash)))
    ensures
      var consumed := ConsumeBackupCode(t, user.id, hash, s.x.writtenAt);
      s.At(n + 1, consumed.0, [],
           AfterCode(s.cfg, ses, user, remaining, if consumed.1.Removed? then Some(consumed.1.yes) else None))
  {
    var q := VerifyConsume(ses, user, code, remaining, hash);
    On(s, n, t, [], q, VerifyStep(s.cfg, t, s.r, q, ChoiceFor(q, s.x)));
  }

  lemma OnMatch(s: Solo, n: nat, t: Table, ses: Cookie, user: User, code: string, isBackup: bool, remaining: int)
    requires s.Valid() && user.security.totpSecret.Some?
    requires s.At(n, t, [], Some(VerifyMatch(ses, user, code, isBackup, remaining)))
    ensures
      var found := s.cfg.findMatch(user.security.backupCodeHashes, code);
      s.At(n + 1, t, [],
           if !isBackup && s.cfg.totp(user.security.totpSecret.value, code, s.x.checkedAt) then
             Some(VerifyResetBudget(ses, user))
           else if s.cfg.backupCodeCount <= 0 || found.None? then AfterWrongCode(s.cfg, ses, remaining).next
           else Some(VerifyConsume(ses, user, code, remaining, found.value)))
  {
    var q := VerifyMatch(ses, user, code, isBackup, remaining);
    On(s, n, t, [], q, VerifyStep(s.cfg, t, s.r, q, ChoiceFor(q, s.x)));
  }

  lemma CodeRuns(s: Solo, n: nat, t: Table, ses: Cookie, user: User, code: string, isBackup: bool, remaining: int)
    requires s.Valid() && n + 6 <= STEPS && user.security.totpSecret.Some?
    requires s.At(n, t, [], Some(VerifyMatch(ses, user, code, isBackup, remaining)))
    ensures
      var reply := CodeReply(s.cfg, t, ses, user, code, isBackup, remaining, s.x);
      s.Ends(reply.store, reply.saved)
  {
    OnMatch(s, n, t, ses, user, code, isBackup, remaining);
    var found := s.cfg.findMatch(user.security.backupCodeHashes, code);
    if !isBackup && s.cfg.totp(user.security.totpSecret.value, code, s.x.checkedAt) {
      PromoteRuns(s, n + 1, t, ses, user);
    } else if s.cfg.backupCodeCount <= 0 || found.None? {
      WrongCodeRuns(s, n + 1, t, ses, remaining);
    } else {
      OnConsume(s, n + 1, t, ses, user, code, remaining, found.value);
      var checked := CheckedCode(s.cfg, t, user, code, isBackup, s.x);
      SettleRuns(s, n + 2, checked.0, ses, user, remaining, checked.1);
    }
  }

  lemma SettleRuns(s: Solo, n: nat, t: Table, ses: Cookie, user: User, remaining: int, verified: Option<bool>)
    requires s.Valid() && n + 4 <= STEPS && s.At(n, t, [], AfterCode(s.cfg, ses, user, remaining, verified))
    ensures verified.None? ==> s.Ends(t, [])
    ensures verified == Some(true) ==> s.Ends(PromoteReply(t, ses, user).store, PromoteReply(t, ses, user).saved)
    ensures verified == Some(false) ==> s.Ends(t, WrongCodeReply(s.cfg, t, ses, remaining).saved)
  {
    if verified.None? {
      EndStays(s, n, STEPS, t, []);
    } else if verified.value {
      PromoteRuns(s, n, t, ses, user);
    } else {
      WrongCodeRuns(s, n, t, ses, remaining);
    }
  }

  lemma OnReserve(s: Solo, n: nat, t: Table, ses: Cookie, user: User, code: string, isBackup: bool)
    requires s.Valid() && s.At(n, t, [], Some(VerifyReserve(ses, user, code, isBackup)))
    ensures
      var max := s.cfg.maxVerifyAttempts;
      var reserved := ConsumeTOTPAttempt(t, user.id, max);
      if max <= 0 then s.At(n + 1, t, [], Some(VerifyCheck(ses, user, code, isBackup, 0)))
      else
        s.At(n + 1, reserved.0, [],
             if reserved.1.Remaining? then Some(VerifyCheck(ses, user, code, isBackup, reserved.1.attempts))
             else if reserved.1 == Refused(AttemptsExhausted) then Some(EndPending(ses))
             else None)
  {
    var q := VerifyReserve(ses, user, code, isBackup);
    On(s, n, t, [], q, VerifyStep(s.cfg, t, s.r, q, ChoiceFor(q, s.x)));
  }

  lemma OnCheck(s: Solo, n: nat, t: Table, ses: Cookie, user: User, code: string, isBackup: bool, remaining: int)
    requires s.Valid() && s.At(n, t, [], Some(VerifyCheck(ses, user, code, isBackup, remaining)))
    ensures s.At(n + 1, t, [], Some(VerifyMatch(ses, user, code, isBackup, remaining)))
  {
    On(s, n, t, [], VerifyCheck(ses, user, code, isBackup, remaining),
       Go(Some(Checked(s.r, user.id, code)), Some(VerifyMatch(ses, user, code, isBackup, remaining))));
  }

  lemma ReservedRuns(s: Solo, n: nat, t: Table, ses: Cookie, user: User, code: string, isBackup: bool)
    requires s.Valid() && n + 8 <= STEPS && user.security.totpSecret.Some?
    requires s.At(n, t, [], Some(VerifyReserve(ses, user, code, isBackup)))
    ensures
      var reply := ReservedReply(s.cfg, t, ses, user, code, isBackup, s.x);
      s.Ends(reply.store, reply.saved)
  {
    OnReserve(s, n, t, ses, user, code, isBackup);
    var reserved := ConsumeTOTPAttempt(t, user.id, s.cfg.maxVerifyAttempts);
    if s.cfg.maxVerifyAttempts <= 0 {
      OnCheck(s, n + 1, t, ses, user, code, isBackup, 0);
      CodeRuns(s, n + 2, t, ses, user, code, isBackup, 0);
    } else if reserved.1.Remaining? {
      OnCheck(s, n + 1, reserved.0, ses, user, code, isBackup, reserved.1.attempts);
      CodeRuns(s, n + 2, reserved.0, ses, user, code, isBackup, reserved.1.attempts);
    } else if reserved.1 == Refused(AttemptsExhausted) {
      OnEndPending(s, n + 1, t, ses);
    } else {
      EndStays(s, n + 1, STEPS, t, []);
    }
  }

  lemma OnVerifyRead(s: Solo, n: nat, t: Table, ses: Cookie, id: UserId, code: string, isBackup: bool)
    requires s.Valid() && s.At(n, t, [], Some(VerifyRead(ses, id, code, isBackup)))
    ensures s.At(n + 1, t, [],
                 if id !in t || !t[id].security.totpEnabled || t[id].security.totpSecret.None? then None
                 else Some(VerifyReserve(ses, t[id], code, isBackup)))
  {
    var q := VerifyRead(ses, id, code, isBackup);
    On(s, n, t, [], q, VerifyStep(s.cfg, t, s.r, q, ChoiceFor(q, s.x)));
  }

  // A call of handleTFAVerify that nothing interferes with is a run of the protocol.
  lemma VerifyRuns(s: Solo, t: Table, ses: Cookie, code: string, isBackup: bool, now: Time)
    requires s.Valid() && s.cfg.enableTFA
    requires s.start == Local(t, [], BeginVerify(s.cfg, s.r, ses, code, isBackup, now).next)
    ensures
      var reply := VerifyReply(s.cfg, t, ses, code, isBackup, now, s.x);
      s.Ends(reply.store, reply.saved)
  {
    assert s.At(0, t, [], s.start.next);
    if s.start.next.None? {
      EndStays(s, 0, STEPS, t, []);
    } else if s.start.next.value.EndPending? {
      OnEndPending(s, 0, t, ses);
    } else {
      var id := ses.pendingUser.value;
      OnVerifyRead(s, 0, t, ses, id, code, isBackup);
      if id !in t || !t[id].security.totpEnabled || t[id].security.totpSecret.None? {
        EndStays(s, 1, STEPS, t, []);
      } else {
        ReservedRuns(s, 1, t, ses, t[id], code, isBackup);
      }
    }
  }

  // ---- The steps of handleLogin ----

  lemma OnLoginRead(s: Solo, n: nat, t: Table, ses: Cookie, identifier: string, password: string)
    requires s.Valid() && s.At(n, t, [], Some(LoginRead(ses, identifier, password)))
    ensures
      var user := Identified(s.cfg, t, identifier);
      s.At(n + 1, t, [], if user.None? then None else Some(LoginVerify(ses, user.value, password)))
  {
    var q := LoginRead(ses, identifier, password);
    On(s, n, t, [], q, LoginStep(s.cfg, t, s.r, q, ChoiceFor(q, s.x)));
  }

  lemma OnLoginVerify(s: Solo, n: nat, t: Table, ses: Cookie, user: User, password: string)
    requires s.Valid() && s.At(n, t, [], Some(LoginVerify(ses, user, password)))
    ensures
      var verdict := s.cfg.verify(password, user.profile.passwordHash);
      s.At(n + 1, t, [],
           if verdict.valid then Some(AfterPassword(s.cfg, ses, user, password))
           else if verdict.error.None? || !LegacyAccepts(s.cfg, password, user.profile.passwordHash) then None
           else Some(LoginRehash(ses, user, password)))
  {
    var q := LoginVerify(ses, user, password);
    On(s, n, t, [], q, LoginStep(s.cfg, t, s.r, q, ChoiceFor(q, s.x)));
  }

  lemma OnRehash(s: Solo, n: nat, t: Table, ses: Cookie, user: User, password: string)
    requires s.Valid() && |s.x.salt| == s.cfg.saltLength && s.At(n, t, [], Some(LoginRehash(ses, user, password)))
    ensures
      var h := s.cfg.hash(password, s.x.salt);
      s.At(n + 1, t, [],
           if h.Hash? then Some(LoginReread(ses, user, password, h.text))
           else if h.BadLength? then Some(AfterPassword(s.cfg, ses, user, password))
           else None)
  {
    var q := LoginRehash(ses, user, password);
    On(s, n, t, [], q, LoginStep(s.cfg, t, s.r, q, ChoiceFor(q, s.x)));
  }

  // What the re-hash is to write.
  function Rewritten(t: Table, user: User, newHash: string, x: Readings): User
    requires user.id in t
  {
    t[user.id].(profile := t[user.id].profile.(passwordHash := newHash, updatedAt := x.writtenAt))
  }

  lemma OnReread(s: Solo, n: nat, t: Table, ses: Cookie, user: User, password: string, newHash: string)
    requires s.Valid() && s.At(n, t, [], Some(LoginReread(ses, user, password, newHash)))
    ensures s.At(n + 1, t, [],
                 if user.id !in t || t[user.id].profile.passwordHash != user.profile.passwordHash then
                   Some(AfterPassword(s.cfg, ses, user, password))
                 else Some(LoginRewrite(ses, user, password, t[user.id], Rewritten(t, user, newHash, s.x))))
  {
    var q := LoginReread(ses, user, password, newHash);
    On(s, n, t, [], q, LoginStep(s.cfg, t, s.r, q, ChoiceFor(q, s.x)));
  }

  lemma OnRewrite(s: Solo, n: nat, t: Table, ses: Cookie, user: User, password: string, was: User, current: User)
    requires s.Valid() && s.At(n, t, [], Some(LoginRewrite(ses, user, password, was, current)))
    ensures s.At(n + 1, if s.x.writeFails then t else UpdateUser(s.cfg.lower, t, current).0, [],
                 Some(AfterPassword(s.cfg, ses, user, password)))
  {
    var q := LoginRewrite(ses, user, password, was, current);
    On(s, n, t, [], q, LoginStep(s.cfg, t, s.r, q, ChoiceFor(q, s.x)));
  }

  lemma OnLoginReset(s: Solo, n: nat, t: Table, ses: Cookie, user: User, password: string)
    requires s.Valid() && s.At(n, t, [], Some(LoginResetBudget(ses, user, password)))
    ensures s.At(n + 1, ResetTOTPAttempts(t, user.id).0, [],
                 if user.id in t then Some(LoginChallenge(ses, user, password)) else None)
  {
    var q := LoginResetBudget(ses, user, password);
    On(s, n, t, [], q, LoginStep(s.cfg, t, s.r, q, ChoiceFor(q, s.x)));
  }

  lemma OnChallenge(s: Solo, n: nat, t: Table, ses: Cookie, user: User, password: string)
    requires s.Valid() && n < STEPS && s.At(n, t, [], Some(LoginChallenge(ses, user, password)))
    ensures s.Ends(t, [Challenge(s.cfg, ses, user.id, s.x.challengedAt)])
  {
    var c, at := Challenge(s.cfg, ses, user.id, s.x.challengedAt), s.x.challengedAt;
    On(s, n, t, [], LoginChallenge(ses, user, password), Go(Some(Issued(s.r, c, ByChallenge(user.id, at))), None));
    assert [] + [c] == [c];
    EndStays(s, n + 1, STEPS, t, [c]);
  }

  lemma OnLoginSession(s: Solo, n: nat, t: Table, ses: Cookie, user: User, password: string)
    requires s.Valid() && n < STEPS && s.At(n, t, [], Some(LoginSession(ses, user, password)))
    ensures s.Ends(t, [ses.(userId := Some(user.id))])
  {
    var c := ses.(userId := Some(user.id));
    On(s, n, t, [], LoginSession(ses, user, password), Go(Some(Issued(s.r, c, ByPassword(user.id))), None));
    assert [] + [c] == [c];
    EndStays(s, n + 1, STEPS, t, [c]);
  }

  lemma AcceptedRuns(s: Solo, n: nat, t: Table, ses: Cookie, user: User, password: string)
    requires s.Valid() && n + 2 <= STEPS && s.At(n, t, [], Some(AfterPassword(s.cfg, ses, user, password)))
    ensures s.Ends(AcceptedReply(s.cfg, t, ses, user, s.x).store, AcceptedReply(s.cfg, t, ses, user, s.x).saved)
  {
    if !NeedsTFA(s.cfg, user) {
      OnLoginSession(s, n, t, ses, user, password);
    } else {
      OnLoginReset(s, n, t, ses, user, password);
      if user.id in t {
        OnChallenge(s, n + 1, ResetTOTPAttempts(t, user.id).0, ses, user, password);
      } else {
        EndStays(s, n + 1, STEPS, t, []);
      }
    }
  }

  // From the re-hash to the step after it.
  lemma UpgradeRuns(s: Solo, n: nat, t: Table, ses: Cookie, user: User, password: string) returns (m: nat)
    requires s.Valid() && |s.x.salt| == s.cfg.saltLength && s.At(n, t, [], Some(LoginRehash(ses, user, password)))
    ensures n < m <= n + 3
    ensures
      var upgraded := Upgraded(s.cfg, t, user, password, s.x);
      if upgraded.None? then s.At(m, t, [], None)
      else s.At(m, upgraded.value, [], Some(AfterPassword(s.cfg, ses, user, password)))
  {
    OnRehash(s, n, t, ses, user, password);
    var h := s.cfg.hash(password, s.x.salt);
    m := n + 1;
    if h.Hash? {
      OnReread(s, n + 1, t, ses, user, password, h.text);
      m := n + 2;
      if user.id in t && t[user.id].profile.passwordHash == user.profile.passwordHash {
        OnRewrite(s, n + 2, t, ses, user, password, t[user.id], Rewritten(t, user, h.text, s.x));
        m := n + 3;
      }
    }
  }

  // A call of handleLogin that nothing interferes with is a run of the protocol.
  lemma LoginRuns(s: Solo, t: Table, ses: Cookie, identifier: string, password: string)
    requires s.Valid() && |s.x.salt| == s.cfg.saltLength
    requires s.start == Local(t, [], Some(LoginRead(ses, identifier, password)))
    ensures
      var reply := LoginReply(s.cfg, t, ses, identifier, password, s.x);
      s.Ends(reply.store, reply.saved)
  {
    assert s.At(0, t, [], s.start.next);
    OnLoginRead(s, 0, t, ses, identifier, password);
    var user := Identified(s.cfg, t, identifier);
    if user.None? {
      EndStays(s, 1, STEPS, t, []);
    } else {
      PasswordRuns(s, 1, t, ses, user.value, password);
    }
  }

  lemma PasswordRuns(s: Solo, n: nat, t: Table, ses: Cookie, user: User, password: string)
    requires s.Valid() && |s.x.salt| == s.cfg.saltLength && n + 6 <= STEPS
    requires s.At(n, t, [], Some(LoginVerify(ses, user, password)))
    ensures
      var checked := PasswordChecked(s.cfg, t, user, password, s.x);
      if checked.0.None? || !checked.1 then s.Ends(t, [])
      else
        var reply := AcceptedReply(s.cfg, checked.0.value, ses, user, s.x);
        s.Ends(reply.store, reply.saved)
  {
    OnLoginVerify(s, n, t, ses, user, password);
    var verdict := s.cfg.verify(password, user.profile.passwordHash);
    if verdict.valid {
      AcceptedRuns(s, n + 1, t, ses, user, password);
    } else if verdict.error.None? || !LegacyAccepts(s.cfg, password, user.profile.passwordHash) {
      EndStays(s, n + 1, STEPS, t, []);
    } else {
      var m := UpgradeRuns(s, n + 1, t, ses, user, password);
      var upgraded := Upgraded(s.cfg, t, user, password, s.x);
      if upgraded.None? {
        EndStays(s, m, STEPS, t, []);
      } else {
        AcceptedRuns(s, m, upgraded.value, ses, user, password);
      }
    }
  }

  // ---- The steps of enrolment ----

  lemma OnResave(s: Solo, n: nat, t: Table, q: Request, c: Cookie)
    requires s.Valid() && n < STEPS && s.At(n, t, [], Some(q))
    requires
      || (q.SetupSave? && c == q.ses.(pendingSecret := Some(q.secret)))
      || (q.EnableSave? && c == q.ses.(pendingSecret := None))
    ensures s.Ends(t, [c])
  {
    var why := if q.SetupSave? then BySetup(q.user.id, q.secret) else Resaved;
    On(s, n, t, [], q, Go(Some(Issued(s.r, c, why)), None));
    assert [] + [c] == [c];
    EndStays(s, n + 1, STEPS, t, [c]);
  }

  lemma OnSetupRead(s: Solo, n: nat, t: Table, ses: Cookie)
    requires s.Valid() && s.At(n, t, [], Some(SetupRead(ses)))
    ensures
      var user := SessionUser(t, ses);
      s.At(n + 1, t, [],
           if user.None? || user.value.security.totpEnabled then None
           else Some(SetupSave(ses, user.value, s.x.secret)))
  {
    var q := SetupRead(ses);
    On(s, n, t, [], q, ManageStep(s.cfg, t, s.r, q, ChoiceFor(q, s.x)));
  }

  lemma SetupRuns(s: Solo, t: Table, ses: Cookie)
    requires s.Valid() && s.start == Local(t, [], Some(SetupRead(ses)))
    ensures s.Ends(SetupReply(t, ses, s.x).store, SetupReply(t, ses, s.x).saved)
  {
    assert s.At(0, t, [], s.start.next);
    OnSetupRead(s, 0, t, ses);
    var user := SessionUser(t, ses);
    if user.None? || user.value.security.totpEnabled {
      EndStays(s, 1, STEPS, t, []);
    } else {
      OnResave(s, 1, t, SetupSave(ses, user.value, s.x.secret), ses.(pendingSecret := Some(s.x.secret)));
    }
  }

  lemma OnEnableRead(s: Solo, n: nat, t: Table, ses: Cookie, code: string, password: string)
    requires s.Valid() && s.At(n, t, [], Some(EnableRead(ses, code, password)))
    ensures
      var user := SessionUser(t, ses);
      s.At(n + 1, t, [],
           if user.None? || user.value.security.totpEnabled then None
           else Some(EnableVerify(ses, user.value, code, password)))
  {
    var q := EnableRead(ses, code, password);
    On(s, n, t, [], q, ManageStep(s.cfg, t, s.r, q, ChoiceFor(q, s.x)));
  }

  lemma OnEnableVerify(s: Solo, n: nat, t: Table, ses: Cookie, user: User, code: string, password: string)
    requires s.Valid() && s.At(n, t, [], Some(EnableVerify(ses, user, code, password)))
    ensures s.At(n + 1, t, [],
                 if !s.cfg.verify(password, user.profile.passwordHash).valid then None
                 else Some(EnableCode(ses, user, code, password)))
  {
    var q := EnableVerify(ses, user, code, password);
    On(s, n, t, [], q, ManageStep(s.cfg, t, s.r, q, ChoiceFor(q, s.x)));
  }

  lemma OnEnableCode(s: Solo, n: nat, t: Table, ses: Cookie, user: User, code: string, password: string)
    requires s.Valid() && s.At(n, t, [], Some(EnableCode(ses, user, code, password)))
    ensures
      var hashes := NewHashes(s.cfg, s.x);
      s.At(n + 1, t, [],
           if ses.pendingSecret.None? || ses.pendingSecret.value == "" then None
           else if !s.cfg.totp(ses.pendingSecret.value, code, s.x.checkedAt) || hashes.None? then None
           else Some(EnableStore(ses, user, code, password, ses.pendingSecret.value, hashes.value, s.x.checkedAt)))
  {
    var q := EnableCode(ses, user, code, password);
    On(s, n, t, [], q, ManageStep(s.cfg, t, s.r, q, ChoiceFor(q, s.x)));
  }

  lemma OnEnableStore(s: Solo, n: nat, t: Table, ses: Cookie, user: User, code: string, password: string,
                      secret: string, hashes: seq<string>, provedAt: Time)
    requires s.Valid() && n + 2 <= STEPS
    requires s.At(n, t, [], Some(EnableStore(ses, user, code, password, secret, hashes, provedAt)))
    ensures user.id !in t ==> s.Ends(t, [])
    ensures user.id in t ==> s.Ends(SetTOTP(t, user.id, secret, hashes, s.x.writtenAt).0, [ses.(pendingSecret := None)])
  {
    var q := EnableStore(ses, user, code, password, secret, hashes, provedAt);
    On(s, n, t, [], q, ManageStep(s.cfg, t, s.r, q, ChoiceFor(q, s.x)));
    if user.id !in t {
      EndStays(s, n + 1, STEPS, t, []);
    } else {
      OnResave(s, n + 1, SetTOTP(t, user.id, secret, hashes, s.x.writtenAt).0, EnableSave(ses),
               ses.(pendingSecret := None));
    }
  }

  lemma EnableRuns(s: Solo, t: Table, ses: Cookie, code: string, password: string)
    requires s.Valid() && s.start == Local(t, [], Some(EnableRead(ses, code, password)))
    ensures
      var reply := EnableReply(s.cfg, t, ses, code, password, s.x);
      s.Ends(reply.store, reply.saved)
  {
    assert s.At(0, t, [], s.start.next);
    OnEnableRead(s, 0, t, ses, code, password);
    var user := SessionUser(t, ses);
    if user.None? || user.value.security.totpEnabled {
      EndStays(s, 1, STEPS, t, []);
    } else {
      OnEnableVerify(s, 1, t, ses, user.value, code, password);
      if !s.cfg.verify(password, user.value.profile.passwordHash).valid {
        EndStays(s, 2, STEPS, t, []);
      } else {
        EnrolRuns(s, 2, t, ses, user.value, code, password);
      }
    }
  }

  lemma EnrolRuns(s: Solo, n: nat, t: Table, ses: Cookie, user: User, code: string, password: string)
    requires s.Valid() && n + 3 <= STEPS && s.At(n, t, [], Some(EnableCode(ses, user, code, password)))
    ensures
      if ses.pendingSecret.None? || ses.pendingSecret.value == "" then s.Ends(t, [])
      else if !s.cfg.totp(ses.pendingSecret.value, code, s.x.checkedAt) then s.Ends(t, [])
      else s.Ends(EnrolReply(s.cfg, t, ses, user, s.x).store, EnrolReply(s.cfg, t, ses, user, s.x).saved)
  {
    OnEnableCode(s, n, t, ses, user, code, password);
    var hashes := NewHashes(s.cfg, s.x);
    if ses.pendingSecret.None? || ses.pendingSecret.value == "" {
      EndStays(s, n + 1, STEPS, t, []);
    } else if !s.cfg.totp(ses.pendingSecret.value, code, s.x.checkedAt) || hashes.None? {
      EndStays(s, n + 1, STEPS, t, []);
    } else {
      OnEnableStore(s, n + 1, t, ses, user, code, password, ses.pendingSecret.value, hashes.value, s.x.checkedAt);
    }
  }

  lemma OnDisableRead(s: Solo, n: nat, t: Table, ses: Cookie, password: string)
    requires s.Valid() && s.At(n, t, [], Some(DisableRead(ses, password)))
    ensures
      var user := SessionUser(t, ses);
      s.At(n + 1, t, [],
           if user.None? || !user.value.security.totpEnabled then None
           else Some(DisableVerify(ses, user.value, password)))
  {
    var q := DisableRead(ses, password);
    On(s, n, t, [], q, ManageStep(s.cfg, t, s.r, q, ChoiceFor(q, s.x)));
  }

  lemma OnDisableVerify(s: Solo, n: nat, t: Table, ses: Cookie, user: User, password: string)
    requires s.Valid() && s.At(n, t, [], Some(DisableVerify(ses, user, password)))
    ensures s.At(n + 1, t, [],
                 if !s.cfg.verify(password, user.profile.passwordHash).valid then None
                 else Some(DisableClear(ses, user, password)))
  {
    var q := DisableVerify(ses, user, password);
    On(s, n, t, [], q, ManageStep(s.cfg, t, s.r, q, ChoiceFor(q, s.x)));
  }

  lemma OnDisableClear(s: Solo, n: nat, t: Table, ses: Cookie, user: User, password: string)
    requires s.Valid() && n < STEPS && s.At(n, t, [], Some(DisableClear(ses, user, password)))
    ensures s.Ends(ClearTOTP(t, user.id, s.x.writtenAt).0, [])
  {
    var q := DisableClear(ses, user, password);
    On(s, n, t, [], q, ManageStep(s.cfg, t, s.r, q, ChoiceFor(q, s.x)));
    EndStays(s, n + 1, STEPS, ClearTOTP(t, user.id, s.x.writtenAt).0, []);
  }

  lemma DisableRuns(s: Solo, t: Table, ses: Cookie, password: string)
    requires s.Valid() && s.start == Local(t, [], Some(DisableRead(ses, password)))
    ensures
      var reply := DisableReply(s.cfg, t, ses, password, s.x);
      s.Ends(reply.store, reply.saved)
  {
    assert s.At(0, t, [], s.start.next);
    OnDisableRead(s, 0, t, ses, password);
    var user := SessionUser(t, ses);
    if user.None? || !user.value.security.totpEnabled {
      EndStays(s, 1, STEPS, t, []);
    } else {
      OnDisableVerify(s, 1, t, ses, user.value, password);
      if !s.cfg.verify(password, user.value.profile.passwordHash).valid {
        EndStays(s, 2, STEPS, t, []);
      } else {
        OnDisableClear(s, 2, t, ses, user.value, password);
      }
    }
  }

  // ---- The steps of handleRegister ----

  lemma OnRegisterUsername(s: Solo, n: nat, t: Table, ses: Cookie, username: Option<string>, email: Option<string>,
                           password: string)
    requires s.Valid() && s.At(n, t, [], Some(RegisterUsername(ses, username, email, password)))
    ensures s.At(n + 1, t, [],
                 if username.Some? && Find(s.cfg.lower, Username, t, username.value).Some? then None
                 else Some(RegisterEmail(ses, username, email, password)))
  {
    var q := RegisterUsername(ses, username, email, password);
    On(s, n, t, [], q, RegisterStep(s.cfg, t, s.r, q, ChoiceFor(q, s.x)));
  }

  lemma OnRegisterEmail(s: Solo, n: nat, t: Table, ses: Cookie, username: Option<string>, email: Option<string>,
                        password: string)
    requires s.Valid() && s.At(n, t, [], Some(RegisterEmail(ses, username, email, password)))
    ensures s.At(n + 1, t, [],
                 if email.Some? && Find(s.cfg.lower, Email, t, email.value).Some? then None
                 else Some(RegisterCreate(ses, username, email, password)))
  {
    var q := RegisterEmail(ses, username, email, password);
    On(s, n, t, [], q, RegisterStep(s.cfg, t, s.r, q, ChoiceFor(q, s.x)));
  }

  lemma OnRegisterSession(s: Solo, n: nat, t: Table, ses: Cookie, user: User)
    requires s.Valid() && n < STEPS && s.At(n, t, [], Some(RegisterSession(ses, user)))
    ensures s.Ends(t, [ses.(userId := Some(user.id))])
  {
    var q := RegisterSession(ses, user);
    On(s, n, t, [], q, RegisterStep(s.cfg, t, s.r, q, ChoiceFor(q, s.x)));
    assert [] + [ses.(userId := Some(user.id))] == [ses.(userId := Some(user.id))];
    EndStays(s, n + 1, STEPS, t, [ses.(userId := Some(user.id))]);
  }

  function NewUser(cfg: Config, username: Option<string>, email: Option<string>, hash: string, x: Readings): User {
    User(x.newId, Profile(username, email, hash, x.writtenAt, x.writtenAt, false, None), NO_TFA)
  }

  lemma OnRegisterCreate(s: Solo, n: nat, t: Table, ses: Cookie, username: Option<string>, email: Option<string>,
                         password: string)
    requires s.Valid() && n + 2 <= STEPS && |s.x.salt| == s.cfg.saltLength
    requires s.At(n, t, [], Some(RegisterCreate(ses, username, email, password)))
    ensures
      var hashed := s.cfg.hash(password, s.x.salt);
      if !hashed.Hash? then s.Ends(t, [])
      else
        var reply := CreatedReply(s.cfg, t, ses, NewUser(s.cfg, username, email, hashed.text, s.x));
        s.Ends(reply.store, reply.saved)
  {
    var q := RegisterCreate(ses, username, email, password);
    On(s, n, t, [], q, RegisterStep(s.cfg, t, s.r, q, ChoiceFor(q, s.x)));
    var hashed := s.cfg.hash(password, s.x.salt);
    if !hashed.Hash? {
      EndStays(s, n + 1, STEPS, t, []);
    } else {
      var user := NewUser(s.cfg, username, email, hashed.text, s.x);
      var created := CreateUser(s.cfg.lower, t, user);
      if created.1 != Done {
        EndStays(s, n + 1, STEPS, t, []);
      } else {
        OnRegisterSession(s, n + 1, created.0, ses, user);
      }
    }
  }

  lemma RegisterRuns(s: Solo, t: Table, ses: Cookie, username: Option<string>, email: Option<string>, password: string)
    requires s.Valid() && |s.x.salt| == s.cfg.saltLength && s.cfg.enableRegistration
    requires s.start == Local(t, [], BeginRegister(s.cfg, ses, username, email, password).next)
    ensures
      var reply := RegisterReply(s.cfg, t, ses, username, email, password, s.x);
      s.Ends(reply.store, reply.saved)
  {
    assert s.At(0, t, [], s.start.next);
    if s.start.next.None? {
      EndStays(s, 0, STEPS, t, []);
    } else {
      OnRegisterUsername(s, 0, t, ses, username, email, password);
      if username.Some? && Find(s.cfg.lower, Username, t, username.value).Some? {
        EndStays(s, 1, STEPS, t, []);
      } else {
        OnRegisterEmail(s, 1, t, ses, username, email, password);
        if email.Some? && Find(s.cfg.lower, Email, t, email.value).Some? {
          EndStays(s, 2, STEPS, t, []);
        } else {
          OnRegisterCreate(s, 2, t, ses, username, email, password);
        }
      }
    }
  }

  // ---- Each handler call as a run of the protocol from any state ----

  // From m, taking action a and then nothing but steps of its request leads to the storage
  // and the cookies of the reply, in order, with the other requests as they were. (A status
  // is no part of the protocol's state.)
  ghost predicate Completes(cfg: Config, m: State, a: Action, reply: Reply) {
    exists actions: seq<Action> :: StepsOf(actions, m.next) && Answers(m, Exec(cfg, Step(cfg, m, a), actions), reply)
  }

  ghost predicate Answers(m: State, end: State, reply: Reply) {
    && end.store == reply.store && end.cookies == m.cookies + AsSet(reply.saved)
    && SavedIn(end.log) == SavedIn(m.log) + reply.saved
    && end.requests == m.requests && end.next == m.next + 1
  }

  lemma NewSolo(cfg: Config, r: ReqId, x: Readings, start: Local) returns (s: Solo)
    ensures s.Valid() && s.cfg == cfg && s.r == r && s.x == x && s.start == start
  {
    s := Solo(cfg, r, x, start, (l: Local) => Move(cfg, r, x, l));
  }

  lemma BeginShows(cfg: Config, m: State, a: Action, o: Outcome)
    requires !a.Advance? && !a.Drop? && o == Begin(cfg, m, a) && o.Go?
    requires o.event.None? || o.event.value.Started?
    ensures
      var m' := Step(cfg, m, a);
      Shows(m', m', m.next, Local(m.store, [], o.next)) && m'.store == m.store && m'.cookies == m.cookies
      && m'.requests == Pending(m.requests, m.next, o.next) && m'.next == m.next + 1
  {
  }

  lemma BeginSaves(cfg: Config, m: State, a: Action, o: Outcome)
    requires !a.Advance? && !a.Drop? && o == Begin(cfg, m, a) && o.Go?
    requires o.event.None? || o.event.value.Started?
    ensures SavedIn(Step(cfg, m, a).log) == SavedIn(m.log)
  {
    if o.event.Some? {
      SavedInAppend(m.log, o.event.value);
    }
  }

  lemma SoloCompletes(s: Solo, m: State, a: Action, o: Outcome, reply: Reply)
    requires s.Valid() && s.r == m.next && m.next !in m.requests
    requires !a.Advance? && !a.Drop? && o == Begin(s.cfg, m, a) && o.Go?
    requires o.event.None? || o.event.value.Started?
    requires s.start == Local(m.store, [], o.next) && s.Ends(reply.store, reply.saved)
    ensures Completes(s.cfg, m, a, reply)
  {
    BeginShows(s.cfg, m, a, o);
    BeginSaves(s.cfg, m, a, o);
    SoloAnswers(s, m, Step(s.cfg, m, a), o.next, reply);
  }

  lemma SoloAnswers(s: Solo, m: State, m': State, next: Option<Request>, reply: Reply)
    requires s.Valid() && s.r == m.next && m.next !in m.requests && s.start.saved == []
    requires Shows(m', m', s.r, s.start) && m'.cookies == m.cookies && SavedIn(m'.log) == SavedIn(m.log)
    requires m'.requests == Pending(m.requests, m.next, next) && m'.next == m.next + 1
    requires s.Ends(reply.store, reply.saved)
    ensures StepsOf(Advances(s, STEPS), m.next) && Answers(m, Exec(s.cfg, m', Advances(s, STEPS)), reply)
  {
    SoloShows(s, m', reply);
    assert Pending(Pending(m.requests, m.next, next), m.next, None) == m.requests;
  }

  lemma SoloShows(s: Solo, m: State, reply: Reply)
    requires s.Valid() && Shows(m, m, s.r, s.start) && s.start.saved == [] && s.Ends(reply.store, reply.saved)
    ensures
      var end := Exec(s.cfg, m, Advances(s, STEPS));
      && Shows(end, m, s.r, Local(reply.store, reply.saved, None))
      && SavedIn(end.log) == SavedIn(m.log) + reply.saved && StepsOf(Advances(s, STEPS), s.r)
  {
    SoloIsRun(s, m, STEPS);
    SoloSaves(s, m, STEPS);
    AdvancesAreSteps(s, STEPS);
  }

  lemma VerifyCompletes(cfg: Config, m: State, presented: Cookie, code: string, isBackup: bool, now: Time, x: Readings)
    requires cfg.enableTFA && m.next !in m.requests
    ensures Completes(cfg, m, Verify(presented, code, isBackup, now),
                      VerifyReply(cfg, m.store, Session(m, presented), code, isBackup, now, x))
  {
    var ses := Session(m, presented);
    var o := BeginVerify(cfg, m.next, ses, code, isBackup, now);
    var s := NewSolo(cfg, m.next, x, Local(m.store, [], o.next));
    VerifyRuns(s, m.store, ses, code, isBackup, now);
    SoloCompletes(s, m, Verify(presented, code, isBackup, now), o,
                  VerifyReply(cfg, m.store, ses, code, isBackup, now, x));
  }

  lemma LoginCompletes(cfg: Config, m: State, presented: Cookie, identifier: string, password: string, x: Readings)
    requires |x.salt| == cfg.saltLength && m.next !in m.requests
    ensures Completes(cfg, m, Login(presented, identifier, password),
                      LoginReply(cfg, m.store, Session(m, presented), identifier, password, x))
  {
    var ses := Session(m, presented);
    var o := Then(LoginRead(ses, identifier, password));
    var s := NewSolo(cfg, m.next, x, Local(m.store, [], o.next));
    LoginRuns(s, m.store, ses, identifier, password);
    SoloCompletes(s, m, Login(presented, identifier, password), o,
                  LoginReply(cfg, m.store, ses, identifier, password, x));
  }

  lemma RegisterCompletes(cfg: Config, m: State, presented: Cookie, username: Option<string>, email: Option<string>,
                          password: string, x: Readings)
    requires cfg.enableRegistration && |x.salt| == cfg.saltLength && m.next !in m.requests
    ensures Completes(cfg, m, Register(presented, username, email, password),
                      RegisterReply(cfg, m.store, Session(m, presented), username, email, password, x))
  {
    var ses := Session(m, presented);
    var o := BeginRegister(cfg, ses, username, email, password);
    var s := NewSolo(cfg, m.next, x, Local(m.store, [], o.next));
    RegisterRuns(s, m.store, ses, username, email, password);
    SoloCompletes(s, m, Register(presented, username, email, password), o,
                  RegisterReply(cfg, m.store, ses, username, email, password, x));
  }

  lemma SetupCompletes(cfg: Config, m: State, presented: Cookie, x: Readings)
    requires cfg.enableTFA && m.next !in m.requests
    ensures Completes(cfg, m, Setup(presented), SetupReply(m.store, Session(m, presented), x))
  {
    var ses := Session(m, presented);
    var o := Then(SetupRead(ses));
    var s := NewSolo(cfg, m.next, x, Local(m.store, [], o.next));
    SetupRuns(s, m.store, ses);
    SoloCompletes(s, m, Setup(presented), o, SetupReply(m.store, ses, x));
  }

  lemma EnableCompletes(cfg: Config, m: State, presented: Cookie, code: string, password: string, x: Readings)
    requires cfg.enableTFA && m.next !in m.requests
    ensures Completes(cfg, m, Enable(presented, code, password),
                      EnableReply(cfg, m.store, Session(m, presented), code, password, x))
  {
    var ses := Session(m, presented);
    var o := Then(EnableRead(ses, code, password));
    var s := NewSolo(cfg, m.next, x, Local(m.store, [], o.next));
    EnableRuns(s, m.store, ses, code, password);
    SoloCompletes(s, m, Enable(presented, code, password), o, EnableReply(cfg, m.store, ses, code, password, x));
  }

  lemma DisableCompletes(cfg: Config, m: State, presented: Cookie, password: string, x: Readings)
    requires cfg.enableTFA && m.next !in m.requests
    ensures Completes(cfg, m, Disable(presented, password),
                      DisableReply(cfg, m.store, Session(m, presented), password, x))
  {
    var ses := Session(m, presented);
    var o := Then(DisableRead(ses, password));
    var s := NewSolo(cfg, m.next, x, Local(m.store, [], o.next));
    DisableRuns(s, m.store, ses, password);
    SoloCompletes(s, m, Disable(presented, password), o, DisableReply(cfg, m.store, ses, password, x));
  }
}
