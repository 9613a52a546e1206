/** How many codes can be checked for a user, over all interleavings, replicas and replayed
    cookies (handler_tfa.go:207-256, handler.go:137-143, storage_memory.go:158-176). */
module AttemptBudget {
  import opened Wrappers
  import opened Users
  import opened Protocol
  import opened ProtocolInvariant
  import opened Tallies

  // ---- The events that matter for the budget of a user ----

  function CheckOf(id: UserId): Event -> bool {
    (e: Event) => e.Checked? && e.id == id
  }

  function ReservationOf(id: UserId): Event -> bool {
    (e: Event) => e.Reserved? && e.id == id
  }

  function ResetOf(id: UserId): Event -> bool {
    (e: Event) => (e.BudgetReset? || e.Enrolled? || e.Disenrolled?) && e.id == id
  }

  // The user is created, with a counter of zero.
  function ArrivalOf(id: UserId): Event -> bool {
    (e: Event) => (e.Registered? || e.Provisioned?) && e.user.id == id
  }

  function ProofOf(id: UserId): Event -> bool {
    (e: Event) => IsPasswordOf(e, id) || IsCodeOf(e, id)
  }

  // ---- The stored counter ----

  ghost function Failed(cfg: Config, t: Table, log: seq<Event>, id: UserId): int
    requires id in Replay(cfg, t, log)
  {
    Replay(cfg, t, log)[id].security.totpFailedAttempts
  }

  lemma PrefixReplay(cfg: Config, t: Table, log: seq<Event>, n: nat)
    requires n < |log|
    ensures Replay(cfg, t, log[..n + 1]) == Effect(cfg, Replay(cfg, t, log[..n]), log[n])
  {
    assert log[..n + 1] == log[..n] + [log[n]];
    ReplayAppend(cfg, t, log[..n], log[n]);
  }

  // No event of this kind from i on, before j.
  ghost predicate NoneIn(log: seq<Event>, i: nat, j: nat, p: Event -> bool)
    requires j <= |log|
  {
    forall k | i <= k < j :: !p(log[k])
  }

  // What event j does to the counter of a user: a reset or the creation of the user sets it
  // to zero, a reservation finds it below the limit and adds one, nothing else touches it.
  ghost predicate CounterStep(cfg: Config, t: Table, log: seq<Event>, id: UserId, j: nat)
    requires j < |log|
  {
    id in Replay(cfg, t, log[..j + 1]) ==>
      var after := Failed(cfg, t, log[..j + 1], id);
      if ResetOf(id)(log[j]) || ArrivalOf(id)(log[j]) then after == 0
      else
        && id in Replay(cfg, t, log[..j])
        && var before := Failed(cfg, t, log[..j], id);
           if ReservationOf(id)(log[j]) then before < cfg.maxVerifyAttempts && after == before + 1
           else after == before
  }

  // What EventOk says of the table on which the event acts.
  ghost predicate Fits(cfg: Config, t: Table, e: Event) {
    && (e.Reserved? ==> e.id in t && t[e.id].security.totpFailedAttempts < cfg.maxVerifyAttempts)
    && (e.Registered? || e.Provisioned? ==> e.user.security == NO_TFA && CreateUser(cfg.lower, t, e.user).1 == Done)
  }

  lemma EventFits(cfg: Config, t: Table, log: seq<Event>, e: Event)
    requires EventOk(cfg, t, log, e)
    ensures Fits(cfg, Replay(cfg, t, log), e)
  {
  }

  lemma EffectOnCounter(cfg: Config, t: Table, e: Event, id: UserId)
    requires Fits(cfg, t, e) && id in Effect(cfg, t, e)
    ensures
      var after := Effect(cfg, t, e)[id].security.totpFailedAttempts;
      if ResetOf(id)(e) || ArrivalOf(id)(e) then after == 0
      else
        && id in t
        && var before := t[id].security.totpFailedAttempts;
           if ReservationOf(id)(e) then before < cfg.maxVerifyAttempts && after == before + 1
           else after == before
  {
  }

  lemma CounterStepOk(cfg: Config, t: Table, log: seq<Event>, id: UserId, j: nat)
    requires Justified(cfg, t, log) && j < |log|
    ensures CounterStep(cfg, t, log, id, j)
  {
    if id in Replay(cfg, t, log[..j + 1]) {
      PrefixReplay(cfg, t, log, j);
      EventFits(cfg, t, log[..j], log[j]);
      EffectOnCounter(cfg, Replay(cfg, t, log[..j]), log[j], id);
    }
  }

  ghost predicate CounterSteps(cfg: Config, t: Table, log: seq<Event>, id: UserId) {
    forall j | 0 <= j < |log| :: CounterStep(cfg, t, log, id, j)
  }

  lemma CounterStepsOk(cfg: Config, t: Table, log: seq<Event>, id: UserId)
    requires Justified(cfg, t, log)
    ensures CounterSteps(cfg, t, log, id)
  {
    forall j | 0 <= j < |log|
      ensures CounterStep(cfg, t, log, id, j)
    {
      CounterStepOk(cfg, t, log, id, j);
    }
  }

  ghost predicate Grown(cfg: Config, t: Table, log: seq<Event>, id: UserId, i: nat, j: nat)
    requires i <= j <= |log| && id in Replay(cfg, t, log[..i]) && id in Replay(cfg, t, log[..j])
  {
    var start, now := Failed(cfg, t, log[..i], id), Failed(cfg, t, log[..j], id);
    && now == start + Tally(log[i..j], ReservationOf(id))
    && (start <= cfg.maxVerifyAttempts ==> now <= cfg.maxVerifyAttempts)
  }

  lemma GrownStep(cfg: Config, t: Table, log: seq<Event>, id: UserId, i: nat, j: nat)
    requires i <= j < |log| && CounterStep(cfg, t, log, id, j)
    requires id in Replay(cfg, t, log[..i]) && id in Replay(cfg, t, log[..j]) && id in Replay(cfg, t, log[..j + 1])
    requires !ResetOf(id)(log[j]) && !ArrivalOf(id)(log[j]) && Grown(cfg, t, log, id, i, j)
    ensures Grown(cfg, t, log, id, i, j + 1)
  {
    assert log[i..j + 1] == log[i..j] + [log[j]];
    TallyAppend(log[i..j], log[j], ReservationOf(id));
  }

  lemma {:induction false} CounterGrows(cfg: Config, t: Table, log: seq<Event>, id: UserId, i: nat, j: nat)
    requires CounterSteps(cfg, t, log, id) && i <= j <= |log|
    requires id in Replay(cfg, t, log[..i]) && id in Replay(cfg, t, log[..j])
    requires NoneIn(log, i, j, ResetOf(id)) && NoneIn(log, i, j, ArrivalOf(id))
    ensures Grown(cfg, t, log, id, i, j)
    decreases j
  {
    if i == j {
      assert log[i..j] == [];
    } else {
      assert CounterStep(cfg, t, log, id, j - 1);
      assert !ResetOf(id)(log[j - 1]) && !ArrivalOf(id)(log[j - 1]);
      CounterGrows(cfg, t, log, id, i, j - 1);
      GrownStep(cfg, t, log, id, i, j - 1);
    }
  }

  // As long as nothing resets it, the stored counter has grown by the number of reservations
  // made, and it does not pass the limit unless it started above it.
  lemma CounterCountsReservations(cfg: Config, t: Table, log: seq<Event>, id: UserId, i: nat, j: nat)
    requires Keyed(t) && LogOfRun(cfg, t, log)
    requires
      && i <= j <= |log|
      && id in Replay(cfg, t, log[..i]) && id in Replay(cfg, t, log[..j])
      && NoneIn(log, i, j, ResetOf(id)) && NoneIn(log, i, j, ArrivalOf(id))
    ensures
      var start := Failed(cfg, t, log[..i], id);
      && Failed(cfg, t, log[..j], id) == start + Tally(log[i..j], ReservationOf(id))
      && (start <= cfg.maxVerifyAttempts ==> Failed(cfg, t, log[..j], id) <= cfg.maxVerifyAttempts)
  {
    RunsAreJustified(cfg, t, log);
    CounterStepsOk(cfg, t, log, id);
    CounterGrows(cfg, t, log, id, i, j);
  }

  lemma CheckWasReserved(cfg: Config, t: Table, log: seq<Event>, id: UserId, k: nat)
    requires Justified(cfg, t, log) && cfg.maxVerifyAttempts > 0
    requires k < |log| && CheckOf(id)(log[k])
    ensures Reserved(log[k].r, id) in log[..k]
  {
    assert EventOk(cfg, t, log[..k], log[k]);
  }

  lemma {:induction false} ExhaustedStays(cfg: Config, t: Table, log: seq<Event>, id: UserId, i: nat, j: nat)
    requires CounterSteps(cfg, t, log, id) && i <= j <= |log|
    requires id in Replay(cfg, t, log[..i]) && id in Replay(cfg, t, log[..j])
    requires Failed(cfg, t, log[..i], id) >= cfg.maxVerifyAttempts
    requires NoneIn(log, i, j, ResetOf(id)) && NoneIn(log, i, j, ArrivalOf(id))
    ensures NoneIn(log, i, j, ReservationOf(id))
    ensures Failed(cfg, t, log[..j], id) == Failed(cfg, t, log[..i], id)
    decreases j
  {
    if i == j {
    } else {
      assert CounterStep(cfg, t, log, id, j - 1);
      assert !ResetOf(id)(log[j - 1]) && !ArrivalOf(id)(log[j - 1]);
      ExhaustedStays(cfg, t, log, id, i, j - 1);
    }
  }

  lemma ReservedBefore(cfg: Config, t: Table, log: seq<Event>, id: UserId, i: nat, k: nat)
    requires Justified(cfg, t, log) && cfg.maxVerifyAttempts > 0
    requires i <= k < |log| && CheckOf(id)(log[k]) && NoneIn(log, i, k, ReservationOf(id))
    ensures Reserved(log[k].r, id) in log[..i]
  {
    CheckWasReserved(cfg, t, log, id, k);
    var m :| 0 <= m < k && log[m] == Reserved(log[k].r, id);
    assert ReservationOf(id)(log[m]);
    assert log[..i][m] == log[m];
  }

  // Once the counter is at the limit, nobody gets another reservation until a reset: a code
  // that is still checked belongs to a request that had reserved its attempt before.
  lemma ExhaustedUntilReset(cfg: Config, t: Table, log: seq<Event>, id: UserId, i: nat, j: nat)
    requires Keyed(t) && LogOfRun(cfg, t, log) && cfg.maxVerifyAttempts > 0
    requires
      && i <= j <= |log|
      && id in Replay(cfg, t, log[..i]) && id in Replay(cfg, t, log[..j])
      && Failed(cfg, t, log[..i], id) >= cfg.maxVerifyAttempts
      && NoneIn(log, i, j, ResetOf(id)) && NoneIn(log, i, j, ArrivalOf(id))
    ensures
      && NoneIn(log, i, j, ReservationOf(id))
      && forall k | i <= k < j && CheckOf(id)(log[k]) :: Reserved(log[k].r, id) in log[..i]
  {
    RunsAreJustified(cfg, t, log);
    CounterStepsOk(cfg, t, log, id);
    ExhaustedStays(cfg, t, log, id, i, j);
    forall k | i <= k < j && CheckOf(id)(log[k])
      ensures Reserved(log[k].r, id) in log[..i]
    {
      ReservedBefore(cfg, t, log, id, i, k);
    }
  }

  // ---- The bound ----

  // The reservations that the stored counter still allows.
  function Headroom(cfg: Config, t: Table, id: UserId): nat {
    if id in t && t[id].security.totpFailedAttempts < cfg.maxVerifyAttempts then
      cfg.maxVerifyAttempts - t[id].security.totpFailedAttempts
    else 0
  }

  function Lives(t: Table, id: UserId): nat { if id in t then 1 else 0 }

  function One(b: bool): nat { if b then 1 else 0 }

  lemma HeadroomStep(cfg: Config, t: Table, e: Event, id: UserId)
    requires Fits(cfg, t, e) && cfg.maxVerifyAttempts > 0
    ensures
      Headroom(cfg, Effect(cfg, t, e), id) + One(ReservationOf(id)(e))
      <= Headroom(cfg, t, id) + if ResetOf(id)(e) || ArrivalOf(id)(e) then cfg.maxVerifyAttempts else 0
  {
    if id in Effect(cfg, t, e) {
      EffectOnCounter(cfg, t, e, id);
    }
  }

  ghost predicate AllFit(cfg: Config, t: Table, log: seq<Event>) {
    forall i | 0 <= i < |log| :: Fits(cfg, Replay(cfg, t, log[..i]), log[i])
  }

  lemma JustifiedFits(cfg: Config, t: Table, log: seq<Event>)
    requires Justified(cfg, t, log)
    ensures AllFit(cfg, t, log)
  {
    forall i | 0 <= i < |log|
      ensures Fits(cfg, Replay(cfg, t, log[..i]), log[i])
    {
      EventFits(cfg, t, log[..i], log[i]);
    }
  }

  lemma AllFitPrefix(cfg: Config, t: Table, log: seq<Event>)
    requires AllFit(cfg, t, log) && log != []
    ensures AllFit(cfg, t, log[..|log| - 1])
    ensures Fits(cfg, Replay(cfg, t, log[..|log| - 1]), log[|log| - 1])
  {
    var before := log[..|log| - 1];
    forall i | 0 <= i < |before|
      ensures Fits(cfg, Replay(cfg, t, before[..i]), before[i])
    {
      assert before[..i] == log[..i];
    }
  }

  function Budgets(t: Table, log: seq<Event>, id: UserId): nat {
    Lives(t, id) + Tally(log, ArrivalOf(id)) + Tally(log, ResetOf(id))
  }

  lemma BudgetsStep(t: Table, log: seq<Event>, id: UserId)
    requires log != []
    ensures
      var before, e := log[..|log| - 1], log[|log| - 1];
      && Tally(log, ReservationOf(id)) == Tally(before, ReservationOf(id)) + One(ReservationOf(id)(e))
      && Budgets(t, log, id) == Budgets(t, before, id) + One(ResetOf(id)(e) || ArrivalOf(id)(e))
  {
  }

  lemma OneMore(max: nat, n: nat, more: bool)
    ensures max * (n + One(more)) == max * n + if more then max else 0
  {
  }

  lemma {:induction false} ReservationsFitBudgets(cfg: Config, t: Table, log: seq<Event>, id: UserId)
    requires AllFit(cfg, t, log) && cfg.maxVerifyAttempts > 0
    requires id in t ==> 0 <= t[id].security.totpFailedAttempts
    ensures Tally(log, ReservationOf(id)) + Headroom(cfg, Replay(cfg, t, log), id)
            <= cfg.maxVerifyAttempts * Budgets(t, log, id)
  {
    var max := cfg.maxVerifyAttempts;
    if log == [] {
      OneMore(max, 0, id in t);
    } else {
      var before, e := log[..|log| - 1], log[|log| - 1];
      AllFitPrefix(cfg, t, log);
      ReservationsFitBudgets(cfg, t, before, id);
      HeadroomStep(cfg, Replay(cfg, t, before), e, id);
      BudgetsStep(t, log, id);
      OneMore(max, Budgets(t, before, id), ResetOf(id)(e) || ArrivalOf(id)(e));
    }
  }

  // Each check was paid by an earlier reservation of its own request, which makes no other check.
  lemma ChecksOwnReservations(cfg: Config, t: Table, log: seq<Event>, id: UserId)
    requires Justified(cfg, t, log) && cfg.maxVerifyAttempts > 0
    ensures forall i | 0 <= i < |log| && CheckOf(id)(log[i]) :: Reserved(log[i].r, id) in log[..i]
    ensures Tally(log, CheckOf(id)) <= Tally(log, ReservationOf(id))
  {
    forall i | 0 <= i < |log| && CheckOf(id)(log[i])
      ensures Reserved(log[i].r, id) in log[..i]
    {
      CheckWasReserved(cfg, t, log, id, i);
    }
    forall e | e in log && CheckOf(id)(e)
      ensures e.r in By(log, ReservationOf(id))
    {
      var i :| 0 <= i < |log| && log[i] == e;
      assert Reserved(e.r, id) in log;
      ByMeans(log, ReservationOf(id), e.r);
    }
    Paid(cfg, t, log, CheckOf(id), 3, ReservationOf(id));
  }

  lemma ResetHasProof(cfg: Config, t: Table, log: seq<Event>, e: Event, id: UserId)
    requires EventOk(cfg, t, log, e) && ResetOf(id)(e)
    ensures exists p :: p in log && p.r == e.r && ProofOf(id)(p)
  {
  }

  // The request of event i had proved the password of the user or passed a code of it.
  ghost predicate ProvedBefore(log: seq<Event>, id: UserId, i: nat)
    requires i < |log|
  {
    exists p :: p in log[..i] && p.r == log[i].r && ProofOf(id)(p)
  }

  // Each reset was paid by a request that had proved the password or passed a code, and
  // that makes no other reset.
  lemma ResetsArePaid(cfg: Config, t: Table, log: seq<Event>, id: UserId)
    requires Justified(cfg, t, log)
    ensures forall i | 0 <= i < |log| && ResetOf(id)(log[i]) :: ProvedBefore(log, id, i)
    ensures Tally(log, ResetOf(id)) <= Tally(log, ProofOf(id))
  {
    forall i | 0 <= i < |log| && ResetOf(id)(log[i])
      ensures ProvedBefore(log, id, i)
    {
      ResetHasProof(cfg, t, log[..i], log[i], id);
    }
    forall e | e in log && ResetOf(id)(e)
      ensures e.r in By(log, ProofOf(id))
    {
      var i :| 0 <= i < |log| && log[i] == e;
      var p :| p in log[..i] && p.r == e.r && ProofOf(id)(p);
      ByMeans(log, ProofOf(id), e.r);
    }
    Paid(cfg, t, log, ResetOf(id), 5, ProofOf(id));
  }

  // A user is created again only after it was deleted.
  function DeletionOf(id: UserId): Event -> bool {
    (e: Event) => e.Deleted? && e.id == id
  }

  lemma ArrivalStep(cfg: Config, t: Table, e: Event, id: UserId)
    requires Fits(cfg, t, e)
    ensures Lives(t, id) + One(ArrivalOf(id)(e)) <= Lives(Effect(cfg, t, e), id) + One(DeletionOf(id)(e))
  {
  }

  lemma {:induction false} ArrivalsNeedDeletions(cfg: Config, t: Table, log: seq<Event>, id: UserId)
    requires AllFit(cfg, t, log)
    ensures Lives(t, id) + Tally(log, ArrivalOf(id)) <= Lives(Replay(cfg, t, log), id) + Tally(log, DeletionOf(id))
  {
    if log == [] {
    } else {
      AllFitPrefix(cfg, t, log);
      ArrivalsNeedDeletions(cfg, t, log[..|log| - 1], id);
      ArrivalStep(cfg, Replay(cfg, t, log[..|log| - 1]), log[|log| - 1], id);
    }
  }

  lemma ChecksFitBudgets(cfg: Config, t: Table, log: seq<Event>, id: UserId)
    requires Keyed(t) && LogOfRun(cfg, t, log) && cfg.maxVerifyAttempts > 0
    requires id in t ==> 0 <= t[id].security.totpFailedAttempts
    ensures Tally(log, CheckOf(id)) <= cfg.maxVerifyAttempts * Budgets(t, log, id)
    ensures Budgets(t, log, id) <= 1 + Tally(log, ProofOf(id)) + Tally(log, DeletionOf(id))
  {
    RunsAreJustified(cfg, t, log);
    JustifiedFits(cfg, t, log);
    ReservationsFitBudgets(cfg, t, log, id);
    ChecksOwnReservations(cfg, t, log, id);
    ResetsArePaid(cfg, t, log, id);
    ArrivalsNeedDeletions(cfg, t, log, id);
  }

  lemma MoreBudgets(max: nat, checks: nat, n: nat, m: nat)
    requires checks <= max * n && n <= m
    ensures checks <= max * m
  {
    assert max * m == max * n + max * (m - n);
  }

  // In every interleaving, on any number of replicas and with any replay of cookies, the
  // codes checked for a user number at most max for the first budget and for each password
  // proved, each code passed and each deletion of the user.
  lemma ChecksAreBounded(cfg: Config, t: Table, log: seq<Event>, id: UserId)
    requires Keyed(t) && LogOfRun(cfg, t, log) && cfg.maxVerifyAttempts > 0
    requires id in t ==> 0 <= t[id].security.totpFailedAttempts
    ensures Tally(log, CheckOf(id))
            <= cfg.maxVerifyAttempts * (1 + Tally(log, ProofOf(id)) + Tally(log, DeletionOf(id)))
  {
    ChecksFitBudgets(cfg, t, log, id);
    MoreBudgets(cfg.maxVerifyAttempts, Tally(log, CheckOf(id)), Budgets(t, log, id),
                1 + Tally(log, ProofOf(id)) + Tally(log, DeletionOf(id)));
  }
}
