/** One request that runs to its end with no other step in between: what the handlers do
    when nothing interferes, as a run of the protocol. */
module SoloRuns {
  import opened Wrappers
  import opened Users
  import opened Base64
  import opened Protocol

  // What one request sees of a state: the storage, the cookies it has saved, its next step.
  datatype Local = Local(store: Table, saved: seq<Cookie>, next: Option<Request>)

  // The clock readings and random numbers of one handler call, and the fate of its
  // best-effort write.
  datatype Readings = Readings(checkedAt: Time, writtenAt: Time, challengedAt: Time, newId: UserId, secret: string,
                               salt: seq<Byte>, draws: seq<seq<nat>>, salts: seq<seq<Byte>>, writeFails: bool)

  function ChoiceFor(q: Request, x: Readings): Choice {
    var at := if q.VerifyMatch? || q.EnableCode? then x.checkedAt
              else if q.LoginChallenge? then x.challengedAt
              else x.writtenAt;
    Choice(at, x.newId, x.secret, x.salt, x.draws, x.salts, x.writeFails)
  }

  function SavedBy(e: Event): seq<Cookie> {
    if e.Issued? then [e.cookie] else []
  }

  function After(cfg: Config, l: Local, o: Outcome): Local {
    if o.Stay? then l
    else if o.event.None? then l.(next := o.next)
    else Local(Effect(cfg, l.store, o.event.value), l.saved + SavedBy(o.event.value), o.next)
  }

  ghost function Move(cfg: Config, r: ReqId, x: Readings, l: Local): Local {
    if l.next.None? then l
    else After(cfg, l, NextStep(cfg, l.store, r, l.next.value, ChoiceFor(l.next.value, x)))
  }

  function Iterate<T>(f: T -> T, x: T, n: nat): T {
    if n == 0 then x else f(Iterate(f, x, n - 1))
  }

  // A mark by which the lemmas below look up `machine`, and nothing else does.
  predicate Looked(l: Local) {
    true
  }

  // Request r with these readings, running alone from `start`: `machine` makes its steps.
  datatype Solo = Solo(cfg: Config, r: ReqId, x: Readings, start: Local, machine: Local -> Local) {
    ghost predicate Valid() {
      forall l {:trigger Looked(l)} :: Looked(l) ==> machine(l) == Move(cfg, r, x, l)
    }

    // After n steps these are the storage, the saved cookies and the next step.
    ghost predicate At(n: nat, t: Table, saved: seq<Cookie>, next: Option<Request>) {
      Iterate(machine, start, n) == Local(t, saved, next)
    }

    // The request ends with this storage and these saved cookies.
    ghost predicate Ends(t: Table, saved: seq<Cookie>) {
      At(STEPS, t, saved, None)
    }
  }

  // More than any handler takes.
  const STEPS := 10

  lemma {:induction false} EndStays(s: Solo, n: nat, m: nat, t: Table, saved: seq<Cookie>)
    requires s.Valid() && n <= m && s.At(n, t, saved, None)
    ensures s.At(m, t, saved, None)
    decreases m
  {
    if n < m {
      EndStays(s, n, m - 1, t, saved);
      assert Looked(Local(t, saved, None));
    }
  }

  lemma On(s: Solo, n: nat, t: Table, saved: seq<Cookie>, q: Request, o: Outcome)
    requires s.Valid() && s.At(n, t, saved, Some(q))
    requires o == NextStep(s.cfg, t, s.r, q, ChoiceFor(q, s.x))
    ensures
      var l := After(s.cfg, Local(t, saved, Some(q)), o);
      s.At(n + 1, l.store, l.saved, l.next)
  {
    assert Looked(Local(t, saved, Some(q)));
  }

  // ---- A solo request as actions of the machine ----

  ghost function Advances(s: Solo, n: nat): seq<Action> {
    if n == 0 then []
    else
      var next := Iterate(s.machine, s.start, n - 1).next;
      Advances(s, n - 1) + if next.None? then [] else [Advance(s.r, ChoiceFor(next.value, s.x))]
  }

  // They are all steps of this request.
  ghost predicate StepsOf(actions: seq<Action>, r: ReqId) {
    forall a | a in actions :: a.Advance? && a.r == r
  }

  lemma {:induction false} AdvancesAreSteps(s: Solo, n: nat)
    ensures StepsOf(Advances(s, n), s.r)
  {
    if n == 0 {
    } else {
      AdvancesAreSteps(s, n - 1);
    }
  }

  function AsSet(cs: seq<Cookie>): set<Cookie> {
    set c | c in cs
  }

  function Pending(requests: map<ReqId, Request>, r: ReqId, next: Option<Request>): map<ReqId, Request> {
    if next.Some? then requests[r := next.value] else requests - {r}
  }

  // The cookies emitted, in order.
  function SavedIn(log: seq<Event>): seq<Cookie> {
    if log == [] then [] else SavedIn(log[..|log| - 1]) + SavedBy(log[|log| - 1])
  }

  lemma SavedInAppend(log: seq<Event>, e: Event)
    ensures SavedIn(log + [e]) == SavedIn(log) + SavedBy(e)
  {
    assert (log + [e])[..|log|] == log;
  }

  // The state m, but for what request r has done.
  ghost predicate Shows(m: State, before: State, r: ReqId, l: Local) {
    && m.store == l.store && m.cookies == before.cookies + AsSet(l.saved)
    && m.requests == Pending(before.requests, r, l.next) && m.next == before.next
  }

  lemma ExecMore(cfg: Config, m: State, actions: seq<Action>, a: Action)
    ensures Exec(cfg, m, actions + [a]) == Step(cfg, Exec(cfg, m, actions), a)
  {
    assert (actions + [a])[..|actions|] == actions;
  }

  lemma StepShows(cfg: Config, m: State, before: State, r: ReqId, x: Readings, l: Local)
    requires Shows(m, before, r, l) && l.next.Some?
    ensures Shows(Step(cfg, m, Advance(r, ChoiceFor(l.next.value, x))), before, r, Move(cfg, r, x, l))
  {
    var o := NextStep(cfg, l.store, r, l.next.value, ChoiceFor(l.next.value, x));
    TakeShows(cfg, m, before, r, l, o);
  }

  lemma TakeShows(cfg: Config, m: State, before: State, r: ReqId, l: Local, o: Outcome)
    requires Shows(m, before, r, l) && l.next.Some?
    ensures Shows(Take(cfg, m, r, o), before, r, After(cfg, l, o))
  {
    if o.Go? && o.event.Some? {
      assert AsSet(l.saved + SavedBy(o.event.value)) == AsSet(l.saved) + CookieOf(o.event.value);
    }
  }

  lemma {:induction false} SoloIsRun(s: Solo, m: State, n: nat)
    requires s.Valid() && Shows(m, m, s.r, s.start)
    ensures Shows(Exec(s.cfg, m, Advances(s, n)), m, s.r, Iterate(s.machine, s.start, n))
  {
    if n == 0 {
    } else {
      SoloIsRun(s, m, n - 1);
      var l := Iterate(s.machine, s.start, n - 1);
      assert Looked(l);
      if l.next.Some? {
        var a := Advance(s.r, ChoiceFor(l.next.value, s.x));
        ExecMore(s.cfg, m, Advances(s, n - 1), a);
        StepShows(s.cfg, Exec(s.cfg, m, Advances(s, n - 1)), m, s.r, s.x, l);
      } else {
        assert Advances(s, n) == Advances(s, n - 1);
      }
    }
  }

  // ... and its cookies come in the order in which the request saved them.
  lemma TakeSaves(cfg: Config, m: State, base: seq<Cookie>, r: ReqId, l: Local, o: Outcome)
    requires SavedIn(m.log) == base + l.saved
    ensures SavedIn(Take(cfg, m, r, o).log) == base + After(cfg, l, o).saved
  {
    if o.Go? && o.event.Some? {
      var e := o.event.value;
      SavedInAppend(m.log, e);
      assert base + (l.saved + SavedBy(e)) == base + l.saved + SavedBy(e);
    }
  }

  lemma StepSaves(cfg: Config, m: State, before: State, base: seq<Cookie>, r: ReqId, x: Readings, l: Local)
    requires Shows(m, before, r, l) && l.next.Some? && SavedIn(m.log) == base + l.saved
    ensures SavedIn(Step(cfg, m, Advance(r, ChoiceFor(l.next.value, x))).log) == base + Move(cfg, r, x, l).saved
  {
    TakeSaves(cfg, m, base, r, l, NextStep(cfg, l.store, r, l.next.value, ChoiceFor(l.next.value, x)));
  }

  lemma {:induction false} SoloSaves(s: Solo, m: State, n: nat)
    requires s.Valid() && Shows(m, m, s.r, s.start) && s.start.saved == []
    ensures SavedIn(Exec(s.cfg, m, Advances(s, n)).log) == SavedIn(m.log) + Iterate(s.machine, s.start, n).saved
  {
    if n == 0 {
      assert SavedIn(m.log) + [] == SavedIn(m.log);
    } else {
      SoloSaves(s, m, n - 1);
      SoloIsRun(s, m, n - 1);
      OneMoreSaves(s, m, n, Iterate(s.machine, s.start, n - 1));
    }
  }

  lemma OneMoreSaves(s: Solo, m: State, n: nat, l: Local)
    requires s.Valid() && n > 0 && l == Iterate(s.machine, s.start, n - 1)
    requires Shows(Exec(s.cfg, m, Advances(s, n - 1)), m, s.r, l)
    requires SavedIn(Exec(s.cfg, m, Advances(s, n - 1)).log) == SavedIn(m.log) + l.saved
    ensures SavedIn(Exec(s.cfg, m, Advances(s, n)).log) == SavedIn(m.log) + Iterate(s.machine, s.start, n).saved
  {
    assert Looked(l);
    if l.next.Some? {
      ExecMore(s.cfg, m, Advances(s, n - 1), Advance(s.r, ChoiceFor(l.next.value, s.x)));
      StepSaves(s.cfg, Exec(s.cfg, m, Advances(s, n - 1)), m, SavedIn(m.log), s.r, s.x, l);
    } else {
      assert Advances(s, n) == Advances(s, n - 1);
    }
  }
}
