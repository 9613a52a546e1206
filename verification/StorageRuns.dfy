/** What every sequence of Storage operations keeps. */
module StorageRuns {
  import opened Wrappers
  import opened Users

  // ---- Case-folded uniqueness ----

  lemma {:induction false} IdentifiersStayUnique(lower: Lower, t: Table, ops: seq<Op>)
    requires Keyed(t) && UniqueIdentifiers(lower, t)
    ensures Keyed(Run(lower, t, ops)) && UniqueIdentifiers(lower, Run(lower, t, ops))
    decreases |ops|
  {
    if ops == [] {
    } else {
      IdentifiersStayUniqueStep(lower, t, ops[0]);
      IdentifiersStayUnique(lower, Apply(lower, t, ops[0]).0, ops[1..]);
    }
  }

  lemma IdentifiersStayUniqueStep(lower: Lower, t: Table, op: Op)
    requires Keyed(t) && UniqueIdentifiers(lower, t)
    ensures Keyed(Apply(lower, t, op).0) && UniqueIdentifiers(lower, Apply(lower, t, op).0)
  {
    var t' := Apply(lower, t, op).0;
    if op.Create? || op.Update? {
    } else {
      forall f, id | id in t'
        ensures id in t && t'[id].id == t[id].id && Key(lower, f, t'[id]) == Key(lower, f, t[id])
      {
      }
    }
  }

  // An update is refused exactly when its user is unknown or when one of its identifiers
  // folds to one that another stored user has; in particular a user may change the
  // letter case of its own identifiers.
  lemma UpdateRefusedExactly(lower: Lower, t: Table, u: User)
    requires Keyed(t) && UniqueIdentifiers(lower, t)
    ensures UpdateUser(lower, t, u).1 == Done
            <==> && u.id in t
                 && UniqueIdentifiers(lower, t[u.id := u])
  {
    var t' := t[u.id := u];
    forall f | u.id in t && ClashesOn(lower, f, t, u)
      ensures !UniqueIdentifiers(lower, t')
    {
      var id :| id in t && id != u.id && Key(lower, f, t[id]) == Key(lower, f, u);
      assert Key(lower, f, t'[id]) == Key(lower, f, t'[u.id]);
    }
  }

  lemma OwnLetterCase(lower: Lower, t: Table, u: User)
    requires Keyed(t) && UniqueIdentifiers(lower, t) && u.id in t
    requires forall f :: Key(lower, f, u) == Key(lower, f, t[u.id])
    ensures UpdateUser(lower, t, u).1 == Done
    ensures forall id | id in t :: UpdateUser(lower, t, u).0[id].security == t[id].security
  {
  }

  // ---- Erasure of whole-user writes ----

  function WithoutUpdates(ops: seq<Op>): seq<Op> {
    if ops == [] then []
    else if ops[0].Update? then WithoutUpdates(ops[1..])
    else [ops[0]] + WithoutUpdates(ops[1..])
  }

  // Both tables store this user, with the same security fields, or neither stores it.
  ghost predicate SameSecurityOf(t: Table, t': Table, id: UserId) {
    (id in t <==> id in t') && (id in t ==> t[id].security == t'[id].security)
  }

  ghost predicate SameSecurity(t: Table, t': Table) {
    forall id :: SameSecurityOf(t, t', id)
  }

  // The first k calls of a run, with and without its whole-user writes, agree on this user.
  ghost predicate ErasedAlike(lower: Lower, t: Table, ops: seq<Op>, id: UserId, k: nat)
    requires k <= |ops|
  {
    SameSecurityOf(Run(lower, t, ops[..k]), Run(lower, t, WithoutUpdates(ops[..k])), id)
  }

  // The k-th call, if it creates this user when it is not stored, finds its identifiers taken
  // or free alike with and without the whole-user writes before it.
  ghost predicate CreatedAlike(lower: Lower, t: Table, ops: seq<Op>, id: UserId, k: nat)
    requires k < |ops|
  {
    ops[k].Create? && ops[k].user.id == id && id !in Run(lower, t, ops[..k]) ==>
      Clashes(lower, Run(lower, t, ops[..k]), ops[k].user)
      == Clashes(lower, Run(lower, t, WithoutUpdates(ops[..k])), ops[k].user)
  }

  lemma {:induction false} RunAppend(lower: Lower, t: Table, ops: seq<Op>, op: Op)
    ensures Run(lower, t, ops + [op]) == Apply(lower, Run(lower, t, ops), op).0
    decreases |ops|
  {
    if ops == [] {
      assert ([] + [op])[1..] == [];
    } else {
      assert (ops + [op])[1..] == ops[1..] + [op];
      RunAppend(lower, Apply(lower, t, ops[0]).0, ops[1..], op);
    }
  }

  lemma {:induction false} WithoutUpdatesAppend(ops: seq<Op>, op: Op)
    ensures WithoutUpdates(ops + [op]) == WithoutUpdates(ops) + if op.Update? then [] else [op]
  {
    if ops == [] {
      assert ([] + [op])[1..] == [];
    } else {
      assert (ops + [op])[1..] == ops[1..] + [op];
      WithoutUpdatesAppend(ops[1..], op);
    }
  }

  // One call, on tables that agree on this user: a whole-user write keeps the agreement, on
  // one side alone; any other call keeps it exactly when it is no creation of this user whose
  // identifiers are taken on one side only.
  lemma OneCall(lower: Lower, t: Table, t': Table, op: Op, id: UserId)
    requires SameSecurityOf(t, t', id)
    ensures op.Update? ==> SameSecurityOf(Apply(lower, t, op).0, t', id)
    ensures !op.Update? ==>
              (SameSecurityOf(Apply(lower, t, op).0, Apply(lower, t', op).0, id)
               <==> (op.Create? && op.user.id == id && id !in t ==>
                       Clashes(lower, t, op.user) == Clashes(lower, t', op.user)))
  {
  }

  // The user that an operation is for, if it takes no user object.
  function Subject(op: Op): Option<UserId> {
    if op.Create? || op.Update? then None else Some(op.id)
  }

  // The narrow operations act on the security fields of a user alone, and so do the answers
  // of those for this user.
  lemma NarrowOpsIgnoreProfiles(lower: Lower, t: Table, t': Table, op: Op, id: UserId)
    requires !op.Create? && !op.Update? && SameSecurityOf(t, t', id)
    ensures SameSecurityOf(Apply(lower, t, op).0, Apply(lower, t', op).0, id)
    ensures Subject(op) == Some(id) ==> Apply(lower, t, op).1 == Apply(lower, t', op).1
  {
  }

  lemma ErasedStep(lower: Lower, t: Table, ops: seq<Op>, id: UserId, k: nat)
    requires k < |ops| && ErasedAlike(lower, t, ops, id, k)
    ensures ErasedAlike(lower, t, ops, id, k + 1) <==> CreatedAlike(lower, t, ops, id, k)
  {
    var before, op := ops[..k], ops[k];
    assert ops[..k + 1] == before + [op];
    RunAppend(lower, t, before, op);
    WithoutUpdatesAppend(before, op);
    if op.Update? {
      assert WithoutUpdates(before) + [] == WithoutUpdates(before);
    } else {
      RunAppend(lower, t, WithoutUpdates(before), op);
    }
    OneCall(lower, Run(lower, t, before), Run(lower, t, WithoutUpdates(before)), op, id);
  }

  lemma {:induction false} ErasedUpTo(lower: Lower, t: Table, ops: seq<Op>, id: UserId, k: nat)
    requires k <= |ops| && forall j | 0 <= j < k :: CreatedAlike(lower, t, ops, id, j)
    ensures ErasedAlike(lower, t, ops, id, k)
  {
    if k == 0 {
    } else {
      ErasedUpTo(lower, t, ops, id, k - 1);
      ErasedStep(lower, t, ops, id, k - 1);
    }
  }

  // However stale or wrong the users passed to UpdateUser are, deleting all these calls from
  // a run leaves the presence and the security fields of a user as they were, at every point
  // of the run, exactly when each creation of that very user finds its identifiers taken or
  // free as before.
  lemma ErasureExactly(lower: Lower, t: Table, ops: seq<Op>, id: UserId)
    ensures (forall k | 0 <= k <= |ops| :: ErasedAlike(lower, t, ops, id, k))
            <==> (forall k | 0 <= k < |ops| :: CreatedAlike(lower, t, ops, id, k))
  {
    if forall k | 0 <= k < |ops| :: CreatedAlike(lower, t, ops, id, k) {
      forall k | 0 <= k <= |ops|
        ensures ErasedAlike(lower, t, ops, id, k)
      {
        ErasedUpTo(lower, t, ops, id, k);
      }
    }
    if forall k | 0 <= k <= |ops| :: ErasedAlike(lower, t, ops, id, k) {
      forall k | 0 <= k < |ops|
        ensures CreatedAlike(lower, t, ops, id, k)
      {
        assert ErasedAlike(lower, t, ops, id, k) && ErasedAlike(lower, t, ops, id, k + 1);
        ErasedStep(lower, t, ops, id, k);
      }
    }
  }

  ghost predicate NeverCreated(ops: seq<Op>, id: UserId) {
    forall op | op in ops :: op.Create? ==> op.user.id != id
  }

  ghost predicate NeverDeleted(ops: seq<Op>, id: UserId) {
    forall op | op in ops :: op.Delete? ==> op.id != id
  }

  lemma {:induction false} StaysStored(lower: Lower, t: Table, ops: seq<Op>, id: UserId)
    requires id in t && NeverDeleted(ops, id)
    ensures id in Run(lower, t, ops)
    decreases |ops|
  {
    if ops == [] {
    } else {
      assert ops[0] in ops && forall op | op in ops[1..] :: op in ops;
      StaysStored(lower, Apply(lower, t, ops[0]).0, ops[1..], id);
    }
  }

  lemma {:induction false} ErasedOps(ops: seq<Op>, op: Op)
    requires op in WithoutUpdates(ops)
    ensures op in ops
  {
    if op in WithoutUpdates(ops[1..]) {
      ErasedOps(ops[1..], op);
    }
  }

  // So whatever else the run creates and deletes, the law holds for every user that the run
  // does not create, and for every user stored at its start that it does not delete.
  lemma UpdatesErasable(lower: Lower, t: Table, ops: seq<Op>, id: UserId)
    requires NeverCreated(ops, id) || (id in t && NeverDeleted(ops, id))
    ensures SameSecurityOf(Run(lower, t, ops), Run(lower, t, WithoutUpdates(ops)), id)
  {
    forall k | 0 <= k < |ops|
      ensures CreatedAlike(lower, t, ops, id, k)
    {
      assert ops[k] in ops && forall op | op in ops[..k] :: op in ops;
      if !NeverCreated(ops, id) {
        StaysStored(lower, t, ops[..k], id);
        forall op | op in WithoutUpdates(ops[..k])
          ensures op in ops
        {
          ErasedOps(ops[..k], op);
        }
        StaysStored(lower, t, WithoutUpdates(ops[..k]), id);
      }
    }
    ErasedUpTo(lower, t, ops, id, |ops|);
    assert ops[..|ops|] == ops;
  }

  // Over a fixed set of users it holds for all of them.
  lemma UpdatesNeverTouchSecurity(lower: Lower, t: Table, ops: seq<Op>)
    requires forall op | op in ops :: !op.Create?
    ensures SameSecurity(Run(lower, t, ops), Run(lower, t, WithoutUpdates(ops)))
  {
    forall id
      ensures SameSecurityOf(Run(lower, t, ops), Run(lower, t, WithoutUpdates(ops)), id)
    {
      UpdatesErasable(lower, t, ops, id);
    }
  }

  // A user created in the run can lose by it: here a whole-user write gives up the name that
  // the creation needs, and without the write the creation is refused.
  lemma CreationsBreakErasure()
    ensures exists lower: Lower, t: Table, ops: seq<Op>, u: User ::
              && u.id !in t && Create(u) in ops
              && !SameSecurityOf(Run(lower, t, ops), Run(lower, t, WithoutUpdates(ops)), u.id)
  {
    var lower: Lower := (s: string) => s;
    var blank := Profile(None, None, "", 0, 0, false, None);
    var ada := User(1, blank.(username := Some("ada")), NO_TFA);
    var nameless := User(1, blank, NO_TFA);
    var newcomer := User(2, blank.(username := Some("ada")), NO_TFA);
    var t: Table := map[1 := ada];
    var ops := [Update(nameless), Create(newcomer)];
    assert Key(lower, Username, t[1]) == Key(lower, Username, newcomer);
    assert WithoutUpdates(ops) == [Create(newcomer)] by {
      assert ops[1..] == [Create(newcomer)];
      var creation := [Create(newcomer)];
      assert WithoutUpdates(creation[1..]) == [];
      assert WithoutUpdates(creation) == creation;
    }
    var t1 := Apply(lower, t, ops[0]).0;
    assert t1 == map[1 := nameless];
    assert Run(lower, t, ops) == Run(lower, t1, [Create(newcomer)]) by {
      assert ops[1..] == [Create(newcomer)];
    }
    assert Run(lower, t1, [Create(newcomer)]) == t1[2 := newcomer] by {
      assert [Create(newcomer)][1..] == [];
    }
    assert Run(lower, t, [Create(newcomer)]) == t by {
      assert [Create(newcomer)][1..] == [];
    }
    assert 2 in Run(lower, t, ops) && 2 !in Run(lower, t, WithoutUpdates(ops));
    assert newcomer.id !in t && Create(newcomer) in ops
           && !SameSecurityOf(Run(lower, t, ops), Run(lower, t, WithoutUpdates(ops)), newcomer.id);
  }

  // ---- Enrolment consistency ----

  predicate Consistent(s: Security) {
    && s.totpEnabled == s.totpSecret.Some?
    && s.totpEnabled == s.totpEnrolledAt.Some?
    && (!s.totpEnabled ==> s.backupCodeHashes == [])
  }

  ghost predicate AllConsistent(t: Table) {
    forall id | id in t :: Consistent(t[id].security)
  }

  // The test of handleLogin (handler.go:354) and that of RequireAuth (handler.go:536).
  predicate LoginSeesEnrolled(s: Security) { s.totpEnabled && s.totpSecret.Some? }

  predicate MiddlewareSeesEnrolled(s: Security) { s.totpEnabled }

  lemma {:induction false} EnrolmentStaysConsistent(lower: Lower, t: Table, ops: seq<Op>)
    requires AllConsistent(t)
    requires forall op | op in ops :: op.Create? ==> op.user.security == NO_TFA
    ensures AllConsistent(Run(lower, t, ops))
    ensures forall id | id in Run(lower, t, ops) ::
              var s := Run(lower, t, ops)[id].security;
              LoginSeesEnrolled(s) == MiddlewareSeesEnrolled(s)
    decreases |ops|
  {
    if ops == [] {
    } else {
      assert ops[0] in ops && forall o | o in ops[1..] :: o in ops;
      EnrolmentStaysConsistentStep(lower, t, ops[0]);
      EnrolmentStaysConsistent(lower, Apply(lower, t, ops[0]).0, ops[1..]);
    }
  }

  lemma EnrolmentStaysConsistentStep(lower: Lower, t: Table, op: Op)
    requires AllConsistent(t)
    requires op.Create? ==> op.user.security == NO_TFA
    ensures AllConsistent(Apply(lower, t, op).0)
  {
    if op.ConsumeCode? && op.id in t && op.hash in t[op.id].security.backupCodeHashes {
      assert t[op.id].security.totpEnabled;
    }
  }
}
