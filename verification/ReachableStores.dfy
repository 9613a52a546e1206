/** The storage that a run of the protocol reaches is the one that its storage calls build,
    so what every sequence of calls keeps holds in every reachable state. */
module ReachableStores {
  import opened Wrappers
  import opened Users
  import opened StorageRuns
  import opened Protocol
  import opened ProtocolInvariant

  // The storage call behind an event.
  function Call(cfg: Config, e: Event): Option<Op> {
    match e
    case Rehashed(_, u) => Some(Update(u))
    case Registered(_, u) => Some(Create(u))
    case Reserved(_, id) => Some(Attempt(id, cfg.maxVerifyAttempts))
    case CodeConsumed(_, id, hash, at) => Some(ConsumeCode(id, hash, at))
    case BudgetReset(_, id) => Some(ResetAttempts(id))
    case Enrolled(_, id, secret, hashes, at, _, _) => Some(Enrol(id, secret, hashes, at))
    case Disenrolled(_, id, at) => Some(Disenrol(id, at))
    case Provisioned(_, u) => Some(Create(u))
    case Updated(_, u) => Some(Update(u))
    case Deleted(_, id) => Some(Delete(id))
    case _ => None
  }

  function Calls(cfg: Config, log: seq<Event>): seq<Op> {
    if log == [] then []
    else
      var call := Call(cfg, log[|log| - 1]);
      Calls(cfg, log[..|log| - 1]) + if call.Some? then [call.value] else []
  }

  lemma EffectIsCall(cfg: Config, t: Table, e: Event)
    ensures Effect(cfg, t, e) == if Call(cfg, e).Some? then Apply(cfg.lower, t, Call(cfg, e).value).0 else t
  {
  }

  lemma {:induction false} StoreIsRun(cfg: Config, t: Table, log: seq<Event>)
    ensures Replay(cfg, t, log) == Run(cfg.lower, t, Calls(cfg, log))
  {
    if log == [] {
    } else {
      var before, e := log[..|log| - 1], log[|log| - 1];
      StoreIsRun(cfg, t, before);
      EffectIsCall(cfg, Replay(cfg, t, before), e);
      if Call(cfg, e).Some? {
        RunAppend(cfg.lower, t, Calls(cfg, before), Call(cfg, e).value);
      } else {
        assert Calls(cfg, log) == Calls(cfg, before);
      }
    }
  }

  lemma NewUserHasNoTFA(cfg: Config, t: Table, log: seq<Event>, e: Event)
    requires EventOk(cfg, t, log, e) && Call(cfg, e).Some? && Call(cfg, e).value.Create?
    ensures Call(cfg, e).value.user.security == NO_TFA
  {
  }

  lemma {:induction false} NewUsersHaveNoTFA(cfg: Config, t: Table, log: seq<Event>, op: Op)
    requires Justified(cfg, t, log) && op in Calls(cfg, log) && op.Create?
    ensures op.user.security == NO_TFA
  {
    if log == [] {
    } else {
      var before, e := log[..|log| - 1], log[|log| - 1];
      if Call(cfg, e) == Some(op) {
        assert EventOk(cfg, t, before, e);
        NewUserHasNoTFA(cfg, t, before, e);
      } else {
        assert op in Calls(cfg, before);
        assert forall i | 0 <= i < |before| :: before[..i] == log[..i];
        NewUsersHaveNoTFA(cfg, t, before, op);
      }
    }
  }

  // No two users share an identifier up to letter case, every user's enrolment is
  // consistent, and the login and the middleware agree on who is enrolled.
  ghost predicate Sound(lower: Lower, t: Table) {
    && Keyed(t) && UniqueIdentifiers(lower, t) && AllConsistent(t)
    && forall id | id in t :: LoginSeesEnrolled(t[id].security) == MiddlewareSeesEnrolled(t[id].security)
  }

  lemma ReachableStoresAreSound(cfg: Config, t: Table, actions: seq<Action>)
    requires Keyed(t) && UniqueIdentifiers(cfg.lower, t) && AllConsistent(t)
    ensures Sound(cfg.lower, Exec(cfg, Initial(t), actions).store)
  {
    RunsKeepInv(cfg, t, actions);
    var log := Exec(cfg, Initial(t), actions).log;
    StoreIsRun(cfg, t, log);
    forall op | op in Calls(cfg, log) && op.Create?
      ensures op.user.security == NO_TFA
    {
      NewUsersHaveNoTFA(cfg, t, log, op);
    }
    IdentifiersStayUnique(cfg.lower, t, Calls(cfg, log));
    EnrolmentStaysConsistent(cfg.lower, t, Calls(cfg, log));
  }

  // Every prefix of the log was the log at some point of the run, and replaying it gives
  // the storage at that point.
  lemma {:induction false} PrefixesAreReached(cfg: Config, t: Table, actions: seq<Action>, i: nat) returns (n: nat)
    requires Keyed(t) && i <= |Exec(cfg, Initial(t), actions).log|
    ensures n <= |actions|
    ensures
      var s := Exec(cfg, Initial(t), actions[..n]);
      s.log == Exec(cfg, Initial(t), actions).log[..i] && s.store == Replay(cfg, t, s.log)
    decreases |actions|
  {
    var s := Exec(cfg, Initial(t), actions);
    if i == |s.log| {
      n := |actions|;
      assert actions[..n] == actions && s.log[..i] == s.log;
      RunsKeepInv(cfg, t, actions);
    } else {
      var before := actions[..|actions| - 1];
      LogGrows(cfg, Exec(cfg, Initial(t), before), actions[|actions| - 1]);
      n := PrefixesAreReached(cfg, t, before, i);
      assert before[..n] == actions[..n];
    }
  }

  lemma LogGrows(cfg: Config, s: State, a: Action)
    ensures |Step(cfg, s, a).log| <= |s.log| + 1 && s.log <= Step(cfg, s, a).log
  {
  }
}
