/** Path access by longest match, and the gate of RequireAuth (handler.go). */
module PathAccess {
  import opened Wrappers
  import opened Users

  datatype MatchType = Exact | Prefix | UnknownType

  datatype Access = Public | Private | UnknownAccess

  datatype PublicPath = PublicPath(kind: MatchType, path: string)

  datatype PathRule = PathRule(kind: MatchType, path: string, access: Access)

  // The zero value of PathRule.
  const NO_RULE := PathRule(UnknownType, "", UnknownAccess)

  predicate Matches(request: string, rule: PathRule) {
    match rule.kind
    case Exact => request == rule.path
    case Prefix => rule.path <= request
    case UnknownType => false
  }

  function AsRules(paths: seq<PublicPath>): seq<PathRule> {
    seq(|paths|, i requires 0 <= i < |paths| => PathRule(paths[i].kind, paths[i].path, Public))
  }

  // A rule with the empty path never counts: its length is not above the initial zero.
  predicate Applies(request: string, rule: PathRule) {
    Matches(request, rule) && rule.path != ""
  }

  // rules[i] is the first among the longest rules that apply.
  ghost predicate Longest(request: string, rules: seq<PathRule>, i: int) {
    && 0 <= i < |rules| && Applies(request, rules[i])
    && (forall j | 0 <= j < |rules| && Applies(request, rules[j]) ::
          |rules[j].path| < |rules[i].path| || (|rules[j].path| == |rules[i].path| && i <= j))
  }

  method FindLongestMatchingRule(publicPaths: seq<PublicPath>, pathRules: seq<PathRule>, request: string)
    returns (longest: PathRule, found: bool)
    ensures var rules := AsRules(publicPaths) + pathRules;
            && (found ==> exists i :: Longest(request, rules, i) && longest == rules[i])
            && (!found ==> longest == NO_RULE && forall r | r in rules :: !Applies(request, r))
  {
    longest := NO_RULE;
    var longestLength := 0;
    found := false;
    var rules: seq<PathRule> := [];
    for i := 0 to |publicPaths|
      invariant rules == AsRules(publicPaths)[..i]
    {
      rules := rules + [PathRule(publicPaths[i].kind, publicPaths[i].path, Public)];
    }
    rules := rules + pathRules;
    assert rules == AsRules(publicPaths) + pathRules;
    for i := 0 to |rules|
      invariant longestLength == |longest.path|
      invariant found ==> exists k :: Longest(request, rules[..i], k) && longest == rules[k]
      invariant !found ==> longest == NO_RULE && forall j | 0 <= j < i :: !Applies(request, rules[j])
    {
      ghost var k: int :| found ==> Longest(request, rules[..i], k) && longest == rules[k];
      if Matches(request, rules[i]) && |rules[i].path| > longestLength {
        longest, longestLength, found := rules[i], |rules[i].path|, true;
        assert Longest(request, rules[..i + 1], i);
      } else if found {
        assert Longest(request, rules[..i + 1], k);
      }
    }
    assert rules[..|rules|] == rules;
  }

  // ---- Order independence ----

  lemma EqualLengthsEqualPaths(request: string, r: PathRule, s: PathRule)
    requires Matches(request, r) && Matches(request, s) && |r.path| == |s.path|
    ensures r.path == s.path
  {
    assert r.path == request[..|r.path|] && s.path == request[..|s.path|];
  }

  // Whether the rules open the path: the access of the rule that findLongestMatchingRule picks.
  ghost predicate Opens(request: string, rules: seq<PathRule>) {
    exists i :: Longest(request, rules, i) && rules[i].access == Public
  }

  // Rules that share a path agree on access.
  ghost predicate Agree(rules: seq<PathRule>) {
    forall r, s | r in rules && s in rules && r.path == s.path && r.path != ""
                  && r.kind != UnknownType && s.kind != UnknownType ::
      (r.access == Public) == (s.access == Public)
  }

  // No reordering of the rules changes any decision exactly when rules that share a path agree.
  lemma OrderIndependentExactly(rules: seq<PathRule>)
    ensures Agree(rules)
            <==> forall request, rules' | multiset(rules') == multiset(rules) ::
                   Opens(request, rules') == Opens(request, rules)
  {
    if Agree(rules) {
      forall request, rules' | multiset(rules') == multiset(rules)
        ensures Opens(request, rules') == Opens(request, rules)
      {
        SameMembers(rules, rules');
        OpensByMembership(request, rules);
        OpensByMembership(request, rules');
      }
    } else {
      var r, s :| r in rules && s in rules && r.path == s.path && r.path != ""
                  && r.kind != UnknownType && s.kind != UnknownType && r.access == Public && s.access != Public;
      var first, second := Foremost(rules, r), Foremost(rules, s);
      FirstWins(first);
      FirstWins(second);
      assert Opens(r.path, first) && !Opens(r.path, second);
    }
  }

  lemma SameMembers(rules: seq<PathRule>, rules': seq<PathRule>)
    requires multiset(rules') == multiset(rules)
    ensures forall r :: r in rules <==> r in rules'
  {
    forall r
      ensures r in rules <==> r in rules'
    {
      assert r in rules <==> r in multiset(rules);
      assert r in rules' <==> r in multiset(rules');
    }
  }

  // r is a longest rule that applies.
  ghost predicate Winner(request: string, rules: seq<PathRule>, r: PathRule) {
    r in rules && Applies(request, r) && forall s | s in rules && Applies(request, s) :: |s.path| <= |r.path|
  }

  lemma OpensByMembership(request: string, rules: seq<PathRule>)
    requires Agree(rules)
    ensures Opens(request, rules) <==> exists r :: Winner(request, rules, r) && r.access == Public
  {
    if Opens(request, rules) {
      var i :| Longest(request, rules, i) && rules[i].access == Public;
      assert Winner(request, rules, rules[i]);
    }
    if r :| Winner(request, rules, r) && r.access == Public {
      var i := LongestExists(request, rules, r);
      EqualLengthsEqualPaths(request, r, rules[i]);
    }
  }

  // Whenever some rule applies, one is picked, and it is a winner.
  lemma {:induction false} LongestExists(request: string, rules: seq<PathRule>, r: PathRule) returns (i: int)
    requires r in rules && Applies(request, r)
    ensures Longest(request, rules, i)
    ensures |r.path| <= |rules[i].path|
  {
    var n := |rules| - 1;
    var last := rules[n];
    if r in rules[..n] {
      i := LongestExists(request, rules[..n], r);
      if Applies(request, last) && |last.path| > |rules[i].path| {
        i := n;
      }
    } else if other :| other in rules[..n] && Applies(request, other) {
      i := LongestExists(request, rules[..n], other);
      if |last.path| > |rules[i].path| {
        i := n;
      }
    } else {
      i := n;
    }
  }

  // The same rules with r moved to the front.
  function Foremost(rules: seq<PathRule>, r: PathRule): (moved: seq<PathRule>)
    requires r in rules
    ensures multiset(moved) == multiset(rules) && moved[0] == r
  {
    if rules[0] == r then rules
    else
      assert rules == [rules[0]] + rules[1..];
      var rest := Foremost(rules[1..], r);
      assert rest == [r] + rest[1..];
      [r, rules[0]] + rest[1..]
  }

  // On a request for its own path, the first rule wins.
  lemma FirstWins(rules: seq<PathRule>)
    requires |rules| > 0 && rules[0].path != "" && rules[0].kind != UnknownType
    ensures Opens(rules[0].path, rules) == (rules[0].access == Public)
  {
    assert Longest(rules[0].path, rules, 0);
  }

  // ---- The gate ----

  datatype Settings = Settings(
    authenticationBaseUrl: string,
    publicPaths: seq<PublicPath>,
    pathRules: seq<PathRule>,
    enableTFA: bool,
    tfaRequired: bool)

  // What RequireAuth does with a request.
  datatype Decision = Open | Unauthorized | SetupRequired | PassAs(user: User)

  function BaseUrl(s: Settings): string {
    if s.authenticationBaseUrl == "" then "/auth" else s.authenticationBaseUrl
  }

  function PublicAuthPaths(s: Settings): set<string> {
    {BaseUrl(s) + "/register", BaseUrl(s) + "/login", BaseUrl(s) + "/tfa/verify", BaseUrl(s) + "/logout"}
  }

  function ProtectedAuthPaths(s: Settings): set<string> {
    {BaseUrl(s) + "/me", BaseUrl(s) + "/tfa/setup", BaseUrl(s) + "/tfa/enable", BaseUrl(s) + "/tfa/disable"}
  }

  function SetupPaths(s: Settings): set<string> {
    {BaseUrl(s) + "/me", BaseUrl(s) + "/tfa/setup", BaseUrl(s) + "/tfa/enable"}
  }

  function AllRules(s: Settings): seq<PathRule> {
    AsRules(s.publicPaths) + s.pathRules
  }

  // sessionUser is the answer of getUserFromSession.
  method RequireAuth(s: Settings, path: string, sessionUser: Option<User>) returns (d: Decision)
    ensures d == Gate(s, path, sessionUser)
  {
    AuthPathsApart(s);
    if path in PublicAuthPaths(s) {
      return Open;
    }
    if path in ProtectedAuthPaths(s) {
    } else {
      var rule, found := FindLongestMatchingRule(s.publicPaths, s.pathRules, path);
      if found && rule.access == Public {
        return Open;
      }
      if found {
        ghost var i :| Longest(path, AllRules(s), i) && rule == AllRules(s)[i];
        OnlyOneLongest(path, AllRules(s), i);
      }
    }
    if sessionUser.None? {
      return Unauthorized;
    }
    var user := sessionUser.value;
    if s.enableTFA && s.tfaRequired && !user.security.totpEnabled && path !in SetupPaths(s) {
      return SetupRequired;
    }
    d := PassAs(user);
  }

  lemma OnlyOneLongest(path: string, rules: seq<PathRule>, i: int)
    requires Longest(path, rules, i)
    ensures forall j :: Longest(path, rules, j) ==> j == i
  {
  }

  // The declarative form: who may pass, path by path.
  ghost predicate NeedsUser(s: Settings, path: string) {
    path in ProtectedAuthPaths(s) || (path !in PublicAuthPaths(s) && !Opens(path, AllRules(s)))
  }

  ghost function Gate(s: Settings, path: string, sessionUser: Option<User>): Decision {
    if !NeedsUser(s, path) then Open
    else if sessionUser.None? then Unauthorized
    else if s.enableTFA && s.tfaRequired && !sessionUser.value.security.totpEnabled && path !in SetupPaths(s) then
      SetupRequired
    else PassAs(sessionUser.value)
  }

  lemma AuthPathsApart(s: Settings)
    ensures PublicAuthPaths(s) !! ProtectedAuthPaths(s)
  {
    var n := |BaseUrl(s)|;
    forall path | path in PublicAuthPaths(s)
      ensures path !in ProtectedAuthPaths(s)
    {
      assert path[n..] in {"/register", "/login", "/tfa/verify", "/logout"};
    }
  }

  // No rule opens the protected auth paths or closes the public ones; a path that no rule
  // applies to needs a user; and in required mode whoever passes the session check is
  // enrolled, or is on one of the three setup paths.
  lemma GateHolds(s: Settings, path: string, user: Option<User>)
    ensures path in ProtectedAuthPaths(s) ==> Gate(s, path, user) != Open
    ensures path in PublicAuthPaths(s) ==> Gate(s, path, user) == Open
    ensures (forall r | r in AllRules(s) :: !Applies(path, r)) && path !in PublicAuthPaths(s) ==>
              Gate(s, path, user) != Open
    ensures s.enableTFA && s.tfaRequired && Gate(s, path, user).PassAs? ==>
              user.value.security.totpEnabled || path in SetupPaths(s)
    ensures Gate(s, path, user).PassAs? ==> user == Some(Gate(s, path, user).user)
  {
    AuthPathsApart(s);
  }
}
