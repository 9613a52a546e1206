/** A TOTP code is checked against the secret that the request read (handler_tfa.go:196-229).
    When that is the stored one, and a run in which it is not. */
module StaleSecrets {
  import opened Wrappers
  import opened Users
  import opened Protocol
  import opened ProtocolInvariant
  import opened AttemptBudget
  import opened BackupCodeRaces

  ghost predicate HasSecret(cfg: Config, t: Table, log: seq<Event>, id: UserId, secret: string) {
    id in Replay(cfg, t, log) && Replay(cfg, t, log)[id].security.totpSecret == Some(secret)
  }

  // The user is gone, or has no secret.
  ghost predicate LacksSecret(cfg: Config, t: Table, log: seq<Event>, id: UserId) {
    id in Replay(cfg, t, log) ==> Replay(cfg, t, log)[id].security.totpSecret.None?
  }

  // Only an enrolment, its end or a deletion touches the secret of a stored user.
  lemma OthersKeepSecret(cfg: Config, t: Table, e: Event, id: UserId)
    requires Fits(cfg, t, e) && !TurnOf(id)(e)
    ensures id in t ==>
              id in Effect(cfg, t, e) && Effect(cfg, t, e)[id].security.totpSecret == t[id].security.totpSecret
    ensures id !in t && id in Effect(cfg, t, e) ==> Effect(cfg, t, e)[id].security.totpSecret.None?
  {
  }

  lemma {:induction false} SecretStays(cfg: Config, t: Table, log: seq<Event>, id: UserId, secret: string, i: nat,
                                       j: nat)
    requires AllFit(cfg, t, log) && i <= j <= |log| && NoneIn(log, i, j, TurnOf(id))
    ensures HasSecret(cfg, t, log[..i], id, secret) ==> HasSecret(cfg, t, log[..j], id, secret)
    ensures LacksSecret(cfg, t, log[..i], id) ==> LacksSecret(cfg, t, log[..j], id)
    decreases j
  {
    if i == j {
    } else {
      SecretStays(cfg, t, log, id, secret, i, j - 1);
      PrefixReplay(cfg, t, log, j - 1);
      assert !TurnOf(id)(log[j - 1]);
      OthersKeepSecret(cfg, Replay(cfg, t, log[..j - 1]), log[j - 1], id);
    }
  }

  // After a turn: the secret of an enrolment is stored; after any other turn there is none.
  lemma TurnSets(cfg: Config, t: Table, log: seq<Event>, id: UserId, m: nat)
    requires Justified(cfg, t, log) && m < |log| && TurnOf(id)(log[m])
    ensures log[m].Enrolled? ==> HasSecret(cfg, t, log[..m + 1], id, log[m].secret)
    ensures !log[m].Enrolled? ==> LacksSecret(cfg, t, log[..m + 1], id)
  {
    EventCodesFit(cfg, t, log[..m], log[m]);
    PrefixReplay(cfg, t, log, m);
  }

  // m is the last turn in the enrolment of the user from k on, before j.
  ghost predicate LastTurn(log: seq<Event>, id: UserId, k: nat, m: nat, j: nat)
    requires j <= |log|
  {
    k <= m < j && TurnOf(id)(log[m]) && NoneIn(log, m + 1, j, TurnOf(id))
  }

  lemma {:induction false} SomeLastTurn(log: seq<Event>, id: UserId, k: nat, j: nat) returns (m: nat)
    requires k <= j <= |log| && !NoneIn(log, k, j, TurnOf(id))
    ensures LastTurn(log, id, k, m, j)
    decreases j
  {
    if TurnOf(id)(log[j - 1]) {
      m := j - 1;
    } else {
      m := SomeLastTurn(log, id, k, j - 1);
    }
  }

  // The secret read at k is the one stored before j, after the turns in between.
  ghost predicate Unreplaced(log: seq<Event>, id: UserId, secret: string, k: nat, j: nat)
    requires j <= |log|
  {
    || NoneIn(log, k, j, TurnOf(id))
    || exists m: nat :: LastTurn(log, id, k, m, j) && log[m].Enrolled? && log[m].secret == secret
  }

  lemma OneLastTurn(log: seq<Event>, id: UserId, k: nat, m: nat, n: nat, j: nat)
    requires j <= |log| && LastTurn(log, id, k, m, j) && LastTurn(log, id, k, n, j)
    ensures m == n
  {
  }

  lemma SecretAfterTurn(cfg: Config, t: Table, log: seq<Event>, id: UserId, secret: string, k: nat, m: nat, j: nat)
    requires Justified(cfg, t, log) && j <= |log| && LastTurn(log, id, k, m, j)
    ensures HasSecret(cfg, t, log[..j], id, secret) <==> log[m].Enrolled? && log[m].secret == secret
  {
    JustifiedFits(cfg, t, log);
    TurnSets(cfg, t, log, id, m);
    SecretStays(cfg, t, log, id, if log[m].Enrolled? then log[m].secret else secret, m + 1, j);
  }

  lemma SecretFollowsTurns(cfg: Config, t: Table, log: seq<Event>, id: UserId, secret: string, k: nat, j: nat)
    requires Justified(cfg, t, log) && k <= j <= |log| && HasSecret(cfg, t, log[..k], id, secret)
    ensures HasSecret(cfg, t, log[..j], id, secret) <==> Unreplaced(log, id, secret, k, j)
  {
    if NoneIn(log, k, j, TurnOf(id)) {
      JustifiedFits(cfg, t, log);
      SecretStays(cfg, t, log, id, secret, k, j);
    } else {
      var m := SomeLastTurn(log, id, k, j);
      SecretAfterTurn(cfg, t, log, id, secret, k, m, j);
      forall n: nat | LastTurn(log, id, k, n, j)
        ensures n == m
      {
        OneLastTurn(log, id, k, m, n, j);
      }
    }
  }

  // In every run, a TOTP code that passes at j was checked against the secret that is stored
  // at that moment exactly when no enrolment of the user began or ended since the request
  // read the user at k, or the last such turn enrolled the user with the same secret again.
  lemma CheckedSecretIsStoredExactly(cfg: Config, t: Table, log: seq<Event>, k: nat, j: nat)
    requires Keyed(t) && LogOfRun(cfg, t, log)
    requires k < j < |log| && log[j].TotpPassed? && log[k] == UserRead(log[j].r, log[j].user)
    ensures log[j].user.security.totpSecret.Some?
    ensures
      var id, secret := log[j].user.id, log[j].user.security.totpSecret.value;
      HasSecret(cfg, t, log[..j], id, secret) <==> Unreplaced(log, id, secret, k, j)
  {
    RunsAreJustified(cfg, t, log);
    assert EventOk(cfg, t, log[..j], log[j]) && EventOk(cfg, t, log[..k], log[k]);
    SecretFollowsTurns(cfg, t, log, log[j].user.id, log[j].user.security.totpSecret.value, k, j);
  }
}
