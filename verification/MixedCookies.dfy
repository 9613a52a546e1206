/** What one cookie can hold together: a user ID and a pending secret, or a user ID and a
    challenge (handler.go:129-160, handler_tfa.go:44-134). createSession keeps the other values
    of the session, so these may belong to different users; here is exactly when. */
module MixedCookies {
  import opened Wrappers
  import opened Users
  import opened Protocol
  import opened ProtocolInvariant
  import opened SessionProvenance

  // ---- Whose secret is enrolled ----

  ghost predicate SetUpBy(log: seq<Event>, id: UserId, secret: string) {
    exists e :: e in log && IsSetupOf(e, secret) && e.why.id == id
  }

  // The cookie holds no pending secret, or one that id itself set up.
  ghost predicate OwnSecret(log: seq<Event>, id: UserId, c: Cookie) {
    c.pendingSecret.Some? ==> SetUpBy(log, id, c.pendingSecret.value)
  }

  // Every secret enrolled for a user was brought into the user's cookies: by a setup of the
  // user's own, or by createSession for the user on a session that still held the secret.
  lemma EnrolledSecretsWereBrought(cfg: Config, t: Table, log: seq<Event>, j: nat) returns (n: nat)
    requires Keyed(t) && LogOfRun(cfg, t, log)
    requires j < |log| && log[j].Enrolled?
    ensures n < j && Brings(log[n], log[j].id, log[j].secret)
  {
    RunsAreJustified(cfg, t, log);
    assert EventOk(cfg, t, log[..j], log[j]);
    var e :| e in log[..j] && Brings(e, log[j].id, log[j].secret);
    n := IndexOf(log[..j], e);
  }

  // createSession never ran for this user on a session with a secret of somebody else.
  ghost predicate OwnGrants(log: seq<Event>, id: UserId) {
    forall n | 0 <= n < |log| && IsGrantOf(log[n], id) :: OwnSecret(log[..n], id, log[n].cookie)
  }

  // Then the user is enrolled with secrets of the user's own setups only.
  lemma OwnGrantsEnrolOwnSecrets(cfg: Config, t: Table, log: seq<Event>, j: nat)
    requires Keyed(t) && LogOfRun(cfg, t, log)
    requires j < |log| && log[j].Enrolled? && OwnGrants(log[..j], log[j].id)
    ensures SetUpBy(log[..j], log[j].id, log[j].secret)
  {
    var n := EnrolledSecretsWereBrought(cfg, t, log, j);
    assert log[..j][n] == log[n] && log[..j][..n] == log[..n];
    if !IsSetupOf(log[n], log[j].secret) {
      var e :| e in log[..n] && IsSetupOf(e, log[j].secret) && e.why.id == log[j].id;
    }
  }

  predicate IsGrantStep(q: Request) {
    q.LoginSession? || q.VerifySession? || q.RegisterSession?
  }

  // Each grant, one by one: its cookie holds a secret of another's setup exactly when the
  // session on which createSession runs does, a check that the handler could make.
  lemma GrantsOwnSecretExactly(cfg: Config, t: Table, log: seq<Event>, r: ReqId, q: Request, c: Choice)
    requires IsGrantStep(q)
    ensures
      var o := NextStep(cfg, t, r, q, c);
      && o.Go? && o.event.Some? && IsGrantOf(o.event.value, q.user.id)
      && (OwnSecret(log + [o.event.value], q.user.id, o.event.value.cookie) <==> OwnSecret(log, q.user.id, q.ses))
  {
    var e := NextStep(cfg, t, r, q, c).event.value;
    if q.ses.pendingSecret.Some? {
      var secret := q.ses.pendingSecret.value;
      assert !IsSetupOf(e, secret);
      if SetUpBy(log, q.user.id, secret) {
        var s :| s in log && IsSetupOf(s, secret) && s.why.id == q.user.id;
        assert s in log + [e];
      }
    }
  }

  // ---- Whose challenge is beside a user ID ----

  // A cookie that carries the user ID of one user and a challenge of another, or of the same,
  // exists only after createSession ran for the first, without a second factor, on a session
  // that held that challenge.
  lemma MixedCookiesWereGranted(cfg: Config, t: Table, log: seq<Event>, j: nat) returns (n: nat)
    requires Keyed(t) && LogOfRun(cfg, t, log)
    requires j < |log| && log[j].Issued? && log[j].cookie.userId.Some? && log[j].cookie.pendingUser.Some?
    ensures n <= j && Mixes(log[n], log[j].cookie.userId.value, log[j].cookie.pendingUser.value)
  {
    RunsAreJustified(cfg, t, log);
    assert EventOk(cfg, t, log[..j], log[j]);
    var e :| e in log[..j] + [log[j]] && Mixes(e, log[j].cookie.userId.value, log[j].cookie.pendingUser.value);
    if e == log[j] {
      n := j;
    } else {
      n := IndexOf(log[..j], e);
    }
  }

  // Each grant, one by one, of a request in flight: its cookie holds a challenge exactly when
  // the session does. After a second factor the session holds none.
  lemma GrantsMixExactly(cfg: Config, t: Table, log: seq<Event>, r: ReqId, q: Request, c: Choice, other: UserId)
    requires IsGrantStep(q) && RequestOk(cfg, log, r, q)
    ensures
      var o := NextStep(cfg, t, r, q, c);
      && o.Go? && o.event.Some? && IsGrantOf(o.event.value, q.user.id)
      && (Mixes(o.event.value, q.user.id, other) <==> q.ses.pendingUser == Some(other))
      && (o.event.value.cookie.pendingUser == Some(other) <==> q.ses.pendingUser == Some(other))
  {
  }
}
