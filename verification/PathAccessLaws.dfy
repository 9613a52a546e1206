/** Which requests pass the gate, in terms of the paths themselves (handler.go:472-593). */
module PathAccessLaws {
  import opened Wrappers
  import opened Users
  import opened PathAccess

  // The request is this path, or starts with it, as the kind of match says. The empty path
  // covers nothing.
  predicate Covers(kind: MatchType, path: string, request: string) {
    && path != ""
    && (|| (kind == Exact && request == path)
        || (kind == Prefix && |path| <= |request| && request[..|path|] == path))
  }

  // Public path i covers the request, and nothing longer does.
  ghost predicate OpenByPath(s: Settings, request: string, i: int) {
    && 0 <= i < |s.publicPaths| && Covers(s.publicPaths[i].kind, s.publicPaths[i].path, request)
    && (forall p | p in s.publicPaths && Covers(p.kind, p.path, request) :: |p.path| <= |s.publicPaths[i].path|)
    && (forall r | r in s.pathRules && Covers(r.kind, r.path, request) :: |r.path| <= |s.publicPaths[i].path|)
  }

  // Rule i covers the request and is public; nothing longer covers it, nor does a public path
  // or an earlier rule that is as long.
  ghost predicate OpenByRule(s: Settings, request: string, i: int) {
    && 0 <= i < |s.pathRules| && Covers(s.pathRules[i].kind, s.pathRules[i].path, request)
    && s.pathRules[i].access == Public
    && (forall p | p in s.publicPaths && Covers(p.kind, p.path, request) :: |p.path| < |s.pathRules[i].path|)
    && (forall j | 0 <= j < |s.pathRules| && Covers(s.pathRules[j].kind, s.pathRules[j].path, request) ::
          |s.pathRules[j].path| < |s.pathRules[i].path| || (|s.pathRules[j].path| == |s.pathRules[i].path| && i <= j))
  }

  ghost predicate Opened(s: Settings, request: string) {
    (exists i :: OpenByPath(s, request, i)) || (exists i :: OpenByRule(s, request, i))
  }

  // The decision written out: four auth paths are open and four need a user, whatever the
  // rules say; on any other path the longest rule decides. In required mode a user who is not
  // enrolled gets to three paths only.
  ghost function Decided(s: Settings, path: string, user: Option<User>): Decision {
    var base := if s.authenticationBaseUrl == "" then "/auth" else s.authenticationBaseUrl;
    if path == base + "/register" || path == base + "/login" || path == base + "/tfa/verify" || path == base + "/logout"
    then
      Open
    else if && path != base + "/me" && path != base + "/tfa/setup" && path != base + "/tfa/enable"
            && path != base + "/tfa/disable" && Opened(s, path) then
      Open
    else if user == None then Unauthorized
    else if && s.enableTFA && s.tfaRequired && !user.value.security.totpEnabled
            && path != base + "/me" && path != base + "/tfa/setup" && path != base + "/tfa/enable" then
      SetupRequired
    else PassAs(user.value)
  }

  // The middleware decides so.
  lemma GateExactly(s: Settings, path: string, user: Option<User>)
    ensures Gate(s, path, user) == Decided(s, path, user)
  {
    AuthPathsApart(s);
    OpenedExactly(s, path);
  }

  lemma CoversExactly(request: string, rule: PathRule)
    ensures Applies(request, rule) <==> Covers(rule.kind, rule.path, request)
  {
  }

  lemma CoversAll(request: string)
    ensures forall rule :: Applies(request, rule) <==> Covers(rule.kind, rule.path, request)
  {
    forall rule
      ensures Applies(request, rule) <==> Covers(rule.kind, rule.path, request)
    {
      CoversExactly(request, rule);
    }
  }

  lemma OpenedExactly(s: Settings, request: string)
    ensures Opens(request, AllRules(s)) <==> Opened(s, request)
  {
    var rules, n := AllRules(s), |s.publicPaths|;
    CoversAll(request);
    if i :| Longest(request, rules, i) && rules[i].access == Public {
      LongestIsOpened(s, request, i);
    }
    if i :| OpenByPath(s, request, i) {
      PathOpens(s, request, i);
    }
    if i :| OpenByRule(s, request, i) {
      RuleOpens(s, request, i);
    }
  }

  lemma LongestIsOpened(s: Settings, request: string, i: int)
    requires Longest(request, AllRules(s), i) && AllRules(s)[i].access == Public
    ensures Opened(s, request)
  {
    var rules, n := AllRules(s), |s.publicPaths|;
    CoversAll(request);
    forall p | p in s.publicPaths && Covers(p.kind, p.path, request)
      ensures |p.path| < |rules[i].path| || (|p.path| == |rules[i].path| && i < n)
    {
      var j :| 0 <= j < n && s.publicPaths[j] == p;
      assert rules[j] == PathRule(p.kind, p.path, Public);
    }
    forall j | 0 <= j < |s.pathRules| && Covers(s.pathRules[j].kind, s.pathRules[j].path, request)
      ensures |s.pathRules[j].path| < |rules[i].path| || (|s.pathRules[j].path| == |rules[i].path| && i <= n + j)
    {
      assert rules[n + j] == s.pathRules[j];
    }
    assert if i < n then OpenByPath(s, request, i) else OpenByRule(s, request, i - n);
  }

  // The first of the public paths that are as long as the longest one.
  lemma {:induction false} FirstAsLong(s: Settings, request: string, i: int, k: int) returns (j: int)
    requires OpenByPath(s, request, i) && 0 <= k <= i
    requires forall l | 0 <= l < k :: !OpenByPath(s, request, l)
    ensures OpenByPath(s, request, j) && forall l | 0 <= l < j :: !OpenByPath(s, request, l)
    decreases i - k
  {
    if OpenByPath(s, request, k) {
      j := k;
    } else {
      j := FirstAsLong(s, request, i, k + 1);
    }
  }

  lemma PathOpens(s: Settings, request: string, i: int)
    requires OpenByPath(s, request, i)
    ensures Opens(request, AllRules(s))
  {
    var rules, n := AllRules(s), |s.publicPaths|;
    var k := FirstAsLong(s, request, i, 0);
    CoversAll(request);
    forall j | 0 <= j < |rules| && Applies(request, rules[j])
      ensures |rules[j].path| < |rules[k].path| || (|rules[j].path| == |rules[k].path| && k <= j)
    {
      if j < n {
        assert s.publicPaths[j] in s.publicPaths;
        assert |rules[j].path| == |rules[k].path| ==> OpenByPath(s, request, j);
      } else {
        assert rules[j] == s.pathRules[j - n] && s.pathRules[j - n] in s.pathRules;
      }
    }
    assert Longest(request, rules, k);
  }

  lemma RuleOpens(s: Settings, request: string, i: int)
    requires OpenByRule(s, request, i)
    ensures Opens(request, AllRules(s))
  {
    var rules, n := AllRules(s), |s.publicPaths|;
    CoversAll(request);
    forall j | 0 <= j < |rules| && Applies(request, rules[j])
      ensures |rules[j].path| < |rules[n + i].path| || (|rules[j].path| == |rules[n + i].path| && n + i <= j)
    {
      if j < n {
        assert s.publicPaths[j] in s.publicPaths;
      } else {
        assert rules[j] == s.pathRules[j - n];
      }
    }
    assert Longest(request, rules, n + i);
  }

  // ---- What a rule does to the paths below it ----

  ghost predicate IsAuthPath(s: Settings, path: string) {
    var base := if s.authenticationBaseUrl == "" then "/auth" else s.authenticationBaseUrl;
    || path == base + "/register" || path == base + "/login" || path == base + "/tfa/verify" || path == base + "/logout"
    || path == base + "/me" || path == base + "/tfa/setup" || path == base + "/tfa/enable"
    || path == base + "/tfa/disable"
  }

  // No path of the settings is longer than this one, and who shares it gives the same access.
  ghost predicate NoneLonger(s: Settings, path: string, public: bool) {
    && (forall p | p in s.publicPaths :: |p.path| < |path| || (|p.path| == |path| && (p.path == path ==> public)))
    && (forall r | r in s.pathRules ::
          |r.path| < |path| || (|r.path| == |path| && (r.path == path ==> (r.access == Public) == public)))
  }

  lemma SameAccess(s: Settings, path: string, request: string, public: bool)
    requires NoneLonger(s, path, public) && path != "" && Covers(Prefix, path, request)
    requires exists i :: Longest(request, AllRules(s), i) && |AllRules(s)[i].path| >= |path|
    ensures Opens(request, AllRules(s)) == public
  {
    var rules, n := AllRules(s), |s.publicPaths|;
    var i :| Longest(request, rules, i) && |rules[i].path| >= |path|;
    CoversAll(request);
    if i < n {
      assert s.publicPaths[i] in s.publicPaths;
    } else {
      assert rules[i] == s.pathRules[i - n] && s.pathRules[i - n] in s.pathRules;
    }
    assert rules[i].path == request[..|path|] == path;
    OnlyOneLongest(request, rules, i);
  }

  // A rule for a path, with no longer path in the settings, decides every request that it covers.
  lemma RuleDecides(s: Settings, rule: PathRule, request: string, user: Option<User>)
    requires rule in s.pathRules && Covers(rule.kind, rule.path, request)
    requires NoneLonger(s, rule.path, rule.access == Public) && !IsAuthPath(s, request)
    ensures Gate(s, request, user) == Open <==> rule.access == Public
  {
    CoversAll(request);
    var i := LongestExists(request, AllRules(s), rule);
    SameAccess(s, rule.path, request, rule.access == Public);
    GateExactly(s, request, user);
    OpenedExactly(s, request);
  }

  // So a public prefix opens everything below it, a private one closes everything below it,
  // and a public path opens what it covers.
  lemma PrefixDecides(s: Settings, path: string, access: Access, rest: string, user: Option<User>)
    requires PathRule(Prefix, path, access) in s.pathRules && path != ""
    requires NoneLonger(s, path, access == Public) && !IsAuthPath(s, path + rest)
    ensures access == Public ==> Gate(s, path + rest, user) == Open
    ensures access != Public ==> Gate(s, path + rest, user) != Open
  {
    assert (path + rest)[..|path|] == path;
    RuleDecides(s, PathRule(Prefix, path, access), path + rest, user);
  }

  lemma PublicPathOpens(s: Settings, kind: MatchType, path: string, rest: string, user: Option<User>)
    requires PublicPath(kind, path) in s.publicPaths && path != "" && NoneLonger(s, path, true)
    requires (kind == Exact && rest == "") || kind == Prefix
    ensures !IsAuthPath(s, path + rest) ==> Gate(s, path + rest, user) == Open
  {
    var request, rule := path + rest, PathRule(kind, path, Public);
    var k :| 0 <= k < |s.publicPaths| && s.publicPaths[k] == PublicPath(kind, path);
    assert AllRules(s)[k] == rule;
    assert request[..|path|] == path;
    CoversAll(request);
    var i := LongestExists(request, AllRules(s), rule);
    SameAccess(s, path, request, true);
    GateExactly(s, request, user);
    OpenedExactly(s, request);
  }

  // An exact rule decides its own path when the others for this path agree, however long the
  // other paths are; and it says nothing of any other path, those below it included.
  lemma ExactDecidesItsOwn(s: Settings, path: string, access: Access, user: Option<User>)
    requires PathRule(Exact, path, access) in s.pathRules && path != "" && !IsAuthPath(s, path)
    requires forall p | p in s.publicPaths && p.path == path :: access == Public
    requires forall r | r in s.pathRules && r.path == path :: (r.access == Public) == (access == Public)
    ensures Gate(s, path, user) == Open <==> access == Public
  {
    var rules, n := AllRules(s), |s.publicPaths|;
    CoversAll(path);
    var i := LongestExists(path, rules, PathRule(Exact, path, access));
    assert rules[i].path == path;
    if i < n {
      assert s.publicPaths[i] in s.publicPaths;
    } else {
      assert rules[i] == s.pathRules[i - n] && s.pathRules[i - n] in s.pathRules;
    }
    OnlyOneLongest(path, rules, i);
    GateExactly(s, path, user);
    OpenedExactly(s, path);
  }

  lemma ExactSaysNothingElse(s: Settings, before: seq<PathRule>, after: seq<PathRule>, path: string, access: Access,
                             request: string, user: Option<User>)
    requires request != path && s.pathRules == before + after
    ensures Gate(s, request, user)
            == Gate(s.(pathRules := before + [PathRule(Exact, path, access)] + after), request, user)
  {
    var more := s.(pathRules := before + [PathRule(Exact, path, access)] + after);
    SkippedRule(s, before, after, PathRule(Exact, path, access), request);
    GateExactly(s, request, user);
    GateExactly(more, request, user);
  }

  // Rule j of the longer list is this rule of the shorter one, and the other way round.
  lemma Shifted(before: seq<PathRule>, rule: PathRule, after: seq<PathRule>)
    ensures
      var more, less, n := before + [rule] + after, before + after, |before|;
      && (forall j | 0 <= j < |more| && j != n :: more[j] == less[if j < n then j else j - 1])
      && (forall j | 0 <= j < |less| :: less[j] == more[if j < n then j else j + 1])
      && (forall r :: r in more <==> r == rule || r in less)
  {
  }

  // A rule that does not cover the request can be left out.
  lemma SkippedRule(s: Settings, before: seq<PathRule>, after: seq<PathRule>, rule: PathRule, request: string)
    requires !Covers(rule.kind, rule.path, request) && s.pathRules == before + after
    ensures Opened(s, request) <==> Opened(s.(pathRules := before + [rule] + after), request)
  {
    var more := s.(pathRules := before + [rule] + after);
    Shifted(before, rule, after);
    forall i
      ensures OpenByPath(s, request, i) <==> OpenByPath(more, request, i)
    {
    }
    if i :| OpenByRule(s, request, i) {
      AddedRule(s, before, after, rule, request, i);
    }
    if i :| OpenByRule(more, request, i) {
      RemovedRule(s, before, after, rule, request, i);
    }
  }

  lemma AddedRule(s: Settings, before: seq<PathRule>, after: seq<PathRule>, rule: PathRule, request: string, i: int)
    requires !Covers(rule.kind, rule.path, request) && s.pathRules == before + after && OpenByRule(s, request, i)
    ensures OpenByRule(s.(pathRules := before + [rule] + after), request, if i < |before| then i else i + 1)
  {
    Shifted(before, rule, after);
  }

  lemma RemovedRule(s: Settings, before: seq<PathRule>, after: seq<PathRule>, rule: PathRule, request: string, i: int)
    requires !Covers(rule.kind, rule.path, request) && s.pathRules == before + after
    requires OpenByRule(s.(pathRules := before + [rule] + after), request, i)
    ensures OpenByRule(s, request, if i < |before| then i else i - 1)
  {
    Shifted(before, rule, after);
  }
}
