/** Backup codes under races: within one enrolment no code is lost and none is spent twice,
    whatever snapshots the handlers matched against and whatever whole-user writes intervene
    (storage_memory.go:178-192, storage_memory.go:128-134, handler_tfa.go:231-241). */
module BackupCodeRaces {
  import opened Wrappers
  import opened Users
  import opened Protocol
  import opened ProtocolInvariant
  import opened Tallies
  import opened AttemptBudget

  function SpendingOf(id: UserId, hash: string): Event -> bool {
    (e: Event) => e.CodeConsumed? && e.id == id && e.hash == hash
  }

  function AnySpendingOf(id: UserId): Event -> bool {
    (e: Event) => e.CodeConsumed? && e.id == id
  }

  // The enrolment of the user ends, or another begins.
  function TurnOf(id: UserId): Event -> bool {
    (e: Event) => (e.Enrolled? || e.Disenrolled? || e.Deleted?) && e.id == id
  }

  ghost function Codes(cfg: Config, t: Table, log: seq<Event>, id: UserId): seq<string>
    requires id in Replay(cfg, t, log)
  {
    Replay(cfg, t, log)[id].security.backupCodeHashes
  }

  // ---- One event ----

  // A consumption removes one occurrence of its hash, which is there; no other event within
  // the enrolment touches the codes.
  ghost predicate CodesStep(cfg: Config, t: Table, log: seq<Event>, id: UserId, j: nat)
    requires j < |log|
  {
    id in Replay(cfg, t, log[..j]) && !TurnOf(id)(log[j]) ==>
      && id in Replay(cfg, t, log[..j + 1])
      && var before := Codes(cfg, t, log[..j], id);
         if AnySpendingOf(id)(log[j]) then
           log[j].hash in before && Codes(cfg, t, log[..j + 1], id) == RemoveFirst(before, log[j].hash)
         else Codes(cfg, t, log[..j + 1], id) == before
  }

  // What EventOk says of the table on which a consumption or an enrolment acts.
  ghost predicate CodesFit(t: Table, e: Event) {
    && (e.CodeConsumed? ==> e.id in t && e.hash in t[e.id].security.backupCodeHashes)
    && (e.Enrolled? ==> e.id in t)
  }

  lemma EventCodesFit(cfg: Config, t: Table, log: seq<Event>, e: Event)
    requires EventOk(cfg, t, log, e)
    ensures CodesFit(Replay(cfg, t, log), e)
  {
  }

  lemma EffectOnCodes(cfg: Config, t: Table, e: Event, id: UserId)
    requires CodesFit(t, e) && id in t && !TurnOf(id)(e)
    ensures id in Effect(cfg, t, e)
    ensures Effect(cfg, t, e)[id].security.backupCodeHashes
            == if AnySpendingOf(id)(e) then RemoveFirst(t[id].security.backupCodeHashes, e.hash)
               else t[id].security.backupCodeHashes
  {
  }

  lemma CodesStepOk(cfg: Config, t: Table, log: seq<Event>, id: UserId, j: nat)
    requires Justified(cfg, t, log) && j < |log|
    ensures CodesStep(cfg, t, log, id, j)
  {
    if id in Replay(cfg, t, log[..j]) && !TurnOf(id)(log[j]) {
      PrefixReplay(cfg, t, log, j);
      EventCodesFit(cfg, t, log[..j], log[j]);
      EffectOnCodes(cfg, Replay(cfg, t, log[..j]), log[j], id);
    }
  }

  ghost predicate CodesSteps(cfg: Config, t: Table, log: seq<Event>, id: UserId) {
    forall j | 0 <= j < |log| :: CodesStep(cfg, t, log, id, j)
  }

  lemma CodesStepsOk(cfg: Config, t: Table, log: seq<Event>, id: UserId)
    requires Justified(cfg, t, log)
    ensures CodesSteps(cfg, t, log, id)
  {
    forall j | 0 <= j < |log|
      ensures CodesStep(cfg, t, log, id, j)
    {
      CodesStepOk(cfg, t, log, id, j);
    }
  }

  // The enrolment at i stores its hashes.
  lemma EnrolmentStores(cfg: Config, t: Table, log: seq<Event>, i: nat)
    requires Justified(cfg, t, log) && i < |log| && log[i].Enrolled?
    ensures log[i].id in Replay(cfg, t, log[..i + 1])
    ensures Codes(cfg, t, log[..i + 1], log[i].id) == log[i].hashes
  {
    EventCodesFit(cfg, t, log[..i], log[i]);
    PrefixReplay(cfg, t, log, i);
  }

  // ---- Conservation ----

  lemma {:induction false} RemoveFirstLength<T>(s: seq<T>, x: T)
    requires x in s
    ensures |RemoveFirst(s, x)| == |s| - 1
  {
    if s[0] != x {
      RemoveFirstLength(s[1..], x);
    }
  }

  ghost predicate Conserved(cfg: Config, t: Table, log: seq<Event>, id: UserId, i: nat, j: nat, hash: string)
    requires i <= j <= |log| && id in Replay(cfg, t, log[..i]) && id in Replay(cfg, t, log[..j])
  {
    var issued, left := Codes(cfg, t, log[..i], id), Codes(cfg, t, log[..j], id);
    && Count(left, hash) + Tally(log[i..j], SpendingOf(id, hash)) == Count(issued, hash)
    && |left| + Tally(log[i..j], AnySpendingOf(id)) == |issued|
  }

  lemma ConservedStep(cfg: Config, t: Table, log: seq<Event>, id: UserId, i: nat, j: nat, hash: string)
    requires i <= j < |log| && id in Replay(cfg, t, log[..i]) && id in Replay(cfg, t, log[..j])
    requires Conserved(cfg, t, log, id, i, j, hash)
    requires CodesStep(cfg, t, log, id, j) && !TurnOf(id)(log[j])
    ensures Conserved(cfg, t, log, id, i, j + 1, hash)
  {
    var e, before := log[j], Codes(cfg, t, log[..j], id);
    assert log[i..j + 1] == log[i..j] + [e];
    TallyAppend(log[i..j], e, SpendingOf(id, hash));
    TallyAppend(log[i..j], e, AnySpendingOf(id));
    if AnySpendingOf(id)(e) {
      RemoveFirstCounts(before, e.hash, hash);
      RemoveFirstCounts(before, e.hash, e.hash);
      RemoveFirstLength(before, e.hash);
    }
  }

  lemma {:induction false} CodesConserved(cfg: Config, t: Table, log: seq<Event>, id: UserId, i: nat, j: nat,
                                          hash: string)
    requires CodesSteps(cfg, t, log, id) && i <= j <= |log|
    requires id in Replay(cfg, t, log[..i]) && NoneIn(log, i, j, TurnOf(id))
    ensures id in Replay(cfg, t, log[..j]) && Conserved(cfg, t, log, id, i, j, hash)
    decreases j
  {
    if i == j {
      assert log[i..j] == [];
    } else {
      CodesConserved(cfg, t, log, id, i, j - 1, hash);
      assert CodesStep(cfg, t, log, id, j - 1);
      assert !TurnOf(id)(log[j - 1]);
      ConservedStep(cfg, t, log, id, i, j - 1, hash);
    }
  }

  // From the enrolment at i until it ends: for every hash, the successful consumptions and
  // the copies that remain stored add up to the copies issued.
  lemma EnrolmentConserves(cfg: Config, t: Table, log: seq<Event>, i: nat, j: nat, hash: string)
    requires Keyed(t) && LogOfRun(cfg, t, log)
    requires
      && i < j <= |log| && log[i].Enrolled? && NoneIn(log, i + 1, j, TurnOf(log[i].id))
    ensures
      var id := log[i].id;
      && id in Replay(cfg, t, log[..j])
      && Count(Codes(cfg, t, log[..j], id), hash) + Tally(log[i + 1..j], SpendingOf(id, hash))
         == Count(log[i].hashes, hash)
      && |Codes(cfg, t, log[..j], id)| + Tally(log[i + 1..j], AnySpendingOf(id)) == |log[i].hashes|
  {
    RunsAreJustified(cfg, t, log);
    EnrolmentStores(cfg, t, log, i);
    CodesStepsOk(cfg, t, log, log[i].id);
    CodesConserved(cfg, t, log, log[i].id, i + 1, j, hash);
  }

  // ---- Sessions granted on these consumptions ----

  // A session granted on a second factor by one of these requests.
  function SessionOf(id: UserId, requests: set<ReqId>): Event -> bool {
    (e: Event) => e.Issued? && e.why == ByCode(id) && e.r in requests
  }

  lemma SessionsAtMost(cfg: Config, t: Table, log: seq<Event>, id: UserId, requests: set<ReqId>)
    requires Justified(cfg, t, log)
    ensures Tally(log, SessionOf(id, requests)) <= |requests|
  {
    var p := SessionOf(id, requests);
    OnePerRequest(cfg, t, log, p, 7);
    forall r | r in By(log, p)
      ensures r in requests
    {
      ByMeans(log, p, r);
    }
    SubsetCard(By(log, p), requests);
  }

  // However often cookies are replayed and however the requests race, the sessions granted
  // to requests that spent a code of one enrolment, now or later, are at most the codes
  // issued; and those granted on one hash are at most its copies issued.
  lemma SessionsFitCodes(cfg: Config, t: Table, log: seq<Event>, i: nat, j: nat, hash: string)
    requires Keyed(t) && LogOfRun(cfg, t, log)
    requires
      && i < j <= |log| && log[i].Enrolled? && NoneIn(log, i + 1, j, TurnOf(log[i].id))
    ensures
      var id := log[i].id;
      && Tally(log, SessionOf(id, By(log[i + 1..j], AnySpendingOf(id)))) <= |log[i].hashes|
      && Tally(log, SessionOf(id, By(log[i + 1..j], SpendingOf(id, hash)))) <= Count(log[i].hashes, hash)
  {
    RunsAreJustified(cfg, t, log);
    var id, enrolment := log[i].id, log[i + 1..j];
    EnrolmentConserves(cfg, t, log, i, j, hash);
    SessionsAtMost(cfg, t, log, id, By(enrolment, AnySpendingOf(id)));
    SessionsAtMost(cfg, t, log, id, By(enrolment, SpendingOf(id, hash)));
    ByAtMostTally(enrolment, AnySpendingOf(id));
    ByAtMostTally(enrolment, SpendingOf(id, hash));
  }
}
