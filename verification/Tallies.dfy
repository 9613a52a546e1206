/** Counting the events of a log, and paying for one kind of event with another. */
module Tallies {
  import opened Users
  import opened Protocol
  import opened ProtocolInvariant

  function Tally(log: seq<Event>, p: Event -> bool): nat {
    if log == [] then 0 else Tally(log[..|log| - 1], p) + if p(log[|log| - 1]) then 1 else 0
  }

  // The requests that left an event of this kind.
  function By(log: seq<Event>, p: Event -> bool): set<ReqId> {
    if log == [] then {} else By(log[..|log| - 1], p) + if p(log[|log| - 1]) then {log[|log| - 1].r} else {}
  }

  lemma TallyAppend(log: seq<Event>, e: Event, p: Event -> bool)
    ensures Tally(log + [e], p) == Tally(log, p) + if p(e) then 1 else 0
  {
    assert (log + [e])[..|log|] == log;
  }

  lemma {:induction false} ByMeans(log: seq<Event>, p: Event -> bool, r: ReqId)
    ensures r in By(log, p) <==> exists e :: e in log && e.r == r && p(e)
  {
    if log == [] {
    } else {
      var before, last := log[..|log| - 1], log[|log| - 1];
      ByMeans(before, p, r);
      assert log == before + [last];
    }
  }

  // All events of this kind have one rank, so a request leaves one at most.
  ghost predicate OneRank(p: Event -> bool, rank: nat) {
    forall e | p(e) :: Rank(e) == rank
  }

  lemma {:induction false} OnePerRequest(cfg: Config, t: Table, log: seq<Event>, p: Event -> bool, rank: nat)
    requires Justified(cfg, t, log) && OneRank(p, rank)
    ensures Tally(log, p) == |By(log, p)|
  {
    if log == [] {
    } else {
      var before, last := log[..|log| - 1], log[|log| - 1];
      assert forall i | 0 <= i < |before| :: before[..i] == log[..i];
      OnePerRequest(cfg, t, before, p, rank);
      assert EventOk(cfg, t, before, last);
      ByMeans(before, p, last.r);
    }
  }

  lemma {:induction false} ByAtMostTally(log: seq<Event>, p: Event -> bool)
    ensures |By(log, p)| <= Tally(log, p)
  {
    if log == [] {
    } else {
      ByAtMostTally(log[..|log| - 1], p);
    }
  }

  lemma SubsetCard<T>(a: set<T>, b: set<T>)
    requires a <= b
    ensures |a| <= |b|
  {
    assert b == a + (b - a);
  }

  // Each event of kind p was left by a request that also left one of kind q.
  ghost predicate Covers(log: seq<Event>, p: Event -> bool, q: Event -> bool) {
    forall e | e in log && p(e) :: e.r in By(log, q)
  }

  lemma Paid(cfg: Config, t: Table, log: seq<Event>, p: Event -> bool, rank: nat, q: Event -> bool)
    requires Justified(cfg, t, log) && OneRank(p, rank) && Covers(log, p, q)
    ensures Tally(log, p) <= Tally(log, q)
  {
    OnePerRequest(cfg, t, log, p, rank);
    forall r | r in By(log, p)
      ensures r in By(log, q)
    {
      ByMeans(log, p, r);
    }
    SubsetCard(By(log, p), By(log, q));
    ByAtMostTally(log, q);
  }
}
