/** Issue and match of one-shot backup codes (tfa.go). Random draws and salts are parameters. */
module BackupCodes {
  import opened Wrappers
  import opened Text
  import opened Base64
  import opened PasswordHash
  import Users

  datatype Generated = Codes(plain: seq<string>, hashed: seq<string>) | BadCodeLength | SmallAlphabet | NotHashable

  // ---- generateBackupCodes ----

  predicate TooSmall(alphabet: string) {
    |set c | c in alphabet| < 2
  }

  // Each code is drawn from the alphabet, and each hash has its own salt.
  predicate Drawn(count: nat, length: int, alphabet: string, p: Params, draws: seq<seq<nat>>, salts: seq<seq<Byte>>) {
    && |draws| == count && |salts| == count
    && (forall i | 0 <= i < count :: |draws[i]| == length && InAlphabet(draws[i], alphabet))
    && (forall i | 0 <= i < count :: |salts[i]| == p.saltLength)
  }

  predicate InAlphabet(draw: seq<nat>, alphabet: string) {
    forall j | 0 <= j < |draw| :: draw[j] < |alphabet|
  }

  function CodeOf(alphabet: string, draw: seq<nat>): string
    requires InAlphabet(draw, alphabet)
  {
    seq(|draw|, j requires 0 <= j < |draw| => alphabet[draw[j]])
  }

  // The first n codes and their hashes.
  function IssueFirst(argon: Argon, n: nat, count: nat, length: int, alphabet: string, p: Params,
                      draws: seq<seq<nat>>, salts: seq<seq<Byte>>): (r: Generated)
    requires n <= count && Drawn(count, length, alphabet, p, draws, salts)
    ensures r.Codes? ==> |r.plain| == n && |r.hashed| == n
  {
    if n == 0 then Codes([], [])
    else
      var before := IssueFirst(argon, n - 1, count, length, alphabet, p, draws, salts);
      var code := CodeOf(alphabet, draws[n - 1]);
      var h := HashPassword(argon, code, p, salts[n - 1]);
      if before.Codes? && h.Hash? then Codes(before.plain + [code], before.hashed + [h.text]) else NotHashable
  }

  // What is issued for given draws and salts.
  function Issue(u: Unicode, argon: Argon, count: nat, length: int, alphabet: string, p: Params,
                 draws: seq<seq<nat>>, salts: seq<seq<Byte>>): Generated
  {
    var lowered := ToLower(u, alphabet);
    if length <= 0 then BadCodeLength
    else if TooSmall(lowered) then SmallAlphabet
    else if !Drawn(count, length, lowered, p, draws, salts) then NotHashable
    else IssueFirst(argon, count, count, length, lowered, p, draws, salts)
  }

  method GenerateBackupCodes(u: Unicode, argon: Argon, count: nat, length: int, alphabet: string, p: Params,
                             draws: seq<seq<nat>>, salts: seq<seq<Byte>>) returns (r: Generated)
    requires length > 0 && !TooSmall(ToLower(u, alphabet))
        ==> Drawn(count, length, ToLower(u, alphabet), p, draws, salts)
    ensures r == Issue(u, argon, count, length, alphabet, p, draws, salts)
  {
    if length <= 0 {
      return BadCodeLength;
    }
    var lowered := ToLower(u, alphabet);
    var seen := Distinct(lowered);
    if |seen| < 2 {
      return SmallAlphabet;
    }
    r := IssueLoop(argon, count, length, lowered, p, draws, salts);
  }

  method IssueLoop(argon: Argon, count: nat, length: int, lowered: string, p: Params,
                   draws: seq<seq<nat>>, salts: seq<seq<Byte>>) returns (r: Generated)
    requires Drawn(count, length, lowered, p, draws, salts)
    ensures r == IssueFirst(argon, count, count, length, lowered, p, draws, salts)
  {
    var plain := new string[count];
    var hashed := new string[count];
    for i := 0 to count
      invariant IssueFirst(argon, i, count, length, lowered, p, draws, salts) == Codes(plain[..i], hashed[..i])
    {
      var code, h := HashNext(argon, i, count, length, lowered, p, draws, salts, plain[..i], hashed[..i]);
      if !h.Hash? {
        FailureStays(argon, i + 1, count, length, lowered, p, draws, salts);
        return NotHashable;
      }
      ghost var before, after := plain[..i], hashed[..i];
      plain[i] := code;
      hashed[i] := h.text;
      assert plain[..i + 1] == before + [code] && hashed[..i + 1] == after + [h.text];
    }
    assert plain[..count] == plain[..] && hashed[..count] == hashed[..];
    r := Codes(plain[..], hashed[..]);
  }

  method HashNext(argon: Argon, i: nat, count: nat, length: int, lowered: string, p: Params, draws: seq<seq<nat>>,
                  salts: seq<seq<Byte>>, ghost plain: seq<string>, ghost hashed: seq<string>)
    returns (code: string, h: Hashed)
    requires i < count && Drawn(count, length, lowered, p, draws, salts)
    requires IssueFirst(argon, i, count, length, lowered, p, draws, salts) == Codes(plain, hashed)
    ensures IssueFirst(argon, i + 1, count, length, lowered, p, draws, salts)
            == if h.Hash? then Codes(plain + [code], hashed + [h.text]) else NotHashable
  {
    code := Draw(lowered, draws[i]);
    h := HashPassword(argon, code, p, salts[i]);
  }

  method Distinct(s: string) returns (seen: set<char>)
    ensures seen == set c | c in s
  {
    seen := {};
    for i := 0 to |s|
      invariant seen == set c | c in s[..i]
    {
      seen := seen + {s[i]};
    }
    assert s[..|s|] == s;
  }

  method Draw(alphabet: string, draw: seq<nat>) returns (s: string)
    requires InAlphabet(draw, alphabet)
    ensures s == CodeOf(alphabet, draw)
  {
    var code := new char[|draw|];
    for j := 0 to |draw|
      invariant forall k | 0 <= k < j :: code[k] == alphabet[draw[k]]
    {
      code[j] := alphabet[draw[j]];
    }
    s := code[..];
  }

  lemma FailureGoesOn(argon: Argon, n: nat, count: nat, length: int, alphabet: string, p: Params,
                      draws: seq<seq<nat>>, salts: seq<seq<Byte>>)
    requires n < count && Drawn(count, length, alphabet, p, draws, salts)
    requires IssueFirst(argon, n, count, length, alphabet, p, draws, salts) == NotHashable
    ensures IssueFirst(argon, n + 1, count, length, alphabet, p, draws, salts) == NotHashable
  {
  }

  lemma {:induction false} FailureStays(argon: Argon, n: nat, count: nat, length: int, alphabet: string, p: Params,
                                        draws: seq<seq<nat>>, salts: seq<seq<Byte>>)
    requires n <= count && Drawn(count, length, alphabet, p, draws, salts)
    requires IssueFirst(argon, n, count, length, alphabet, p, draws, salts) == NotHashable
    ensures IssueFirst(argon, count, count, length, alphabet, p, draws, salts) == NotHashable
    decreases count - n
  {
    if n < count {
      FailureGoesOn(argon, n, count, length, alphabet, p, draws, salts);
      FailureStays(argon, n + 1, count, length, alphabet, p, draws, salts);
    }
  }

  // ---- findBackupCodeMatch ----

  type Opener = (string, string) -> bool

  predicate Opens(argon: Argon, code: string, hash: string) {
    VerifyPassword(argon, code, hash).error.None? && VerifyPassword(argon, code, hash).valid
  }

  function OpenerOf(argon: Argon): Opener {
    (code, hash) => Opens(argon, code, hash)
  }

  function Normalize(u: Unicode, submitted: string): string {
    ToLower(u, TrimSpace(u, submitted))
  }

  // The first hash that code opens.
  function FirstOpened(opens: Opener, hashes: seq<string>, code: string): Option<string> {
    if hashes == [] then None
    else if opens(code, hashes[0]) then Some(hashes[0])
    else FirstOpened(opens, hashes[1..], code)
  }

  function FindMatch(u: Unicode, opens: Opener, hashes: seq<string>, submitted: string): Option<string> {
    FirstOpened(opens, hashes, Normalize(u, submitted))
  }

  method FindBackupCodeMatch(u: Unicode, argon: Argon, hashes: seq<string>, submitted: string)
    returns (r: Option<string>)
    ensures r == FindMatch(u, OpenerOf(argon), hashes, submitted)
  {
    var code := ToLower(u, TrimSpace(u, submitted));
    for i := 0 to |hashes|
      invariant FirstOpened(OpenerOf(argon), hashes, code) == FirstOpened(OpenerOf(argon), hashes[i..], code)
    {
      var v := VerifyPassword(argon, code, hashes[i]);
      if v.error.None? && v.valid {
        return Some(hashes[i]);
      }
    }
    r := None;
  }

  lemma {:induction false} FirstOpenedAt(opens: Opener, hashes: seq<string>, code: string, k: nat)
    requires k < |hashes| && opens(code, hashes[k])
    requires forall j | 0 <= j < k :: !opens(code, hashes[j])
    ensures FirstOpened(opens, hashes, code) == Some(hashes[k])
  {
    if k > 0 {
      FirstOpenedAt(opens, hashes[1..], code, k - 1);
    }
  }

  lemma {:induction false} NoneOpened(opens: Opener, hashes: seq<string>, code: string)
    requires forall h | h in hashes :: !opens(code, h)
    ensures FirstOpened(opens, hashes, code) == None
  {
    if hashes != [] {
      NoneOpened(opens, hashes[1..], code);
    }
  }

  // ---- Redemption: a match, and the consumption of the hash it found ----

  // The hashes left, and whether the code was accepted.
  function Redeem(u: Unicode, opens: Opener, hashes: seq<string>, submitted: string): (seq<string>, bool) {
    var found := FindMatch(u, opens, hashes, submitted);
    if found.None? then (hashes, false) else (Users.RemoveFirst(hashes, found.value), true)
  }

  function RedeemAll(u: Unicode, opens: Opener, hashes: seq<string>, subs: seq<string>): (seq<string>, seq<bool>) {
    if subs == [] then (hashes, [])
    else
      var before := RedeemAll(u, opens, hashes, subs[..|subs| - 1]);
      var last := Redeem(u, opens, before.0, subs[|subs| - 1]);
      (last.0, before.1 + [last.1])
  }

  // codes[k] and nothing else opens hashes[k].
  ghost predicate Paired(opens: Opener, codes: seq<string>, hashes: seq<string>) {
    |codes| == |hashes| && forall k, c | 0 <= k < |codes| :: opens(c, hashes[k]) <==> c == codes[k]
  }

  lemma {:induction false} FirstIndex(codes: seq<string>, c: string) returns (k: nat)
    requires c in codes
    ensures k < |codes| && codes[k] == c && c !in codes[..k]
  {
    if codes[0] == c {
      k := 0;
    } else {
      var j := FirstIndex(codes[1..], c);
      k := j + 1;
      assert codes[..k] == [codes[0]] + codes[1..][..j];
    }
  }

  // A submission is accepted exactly when its code is still there, and takes it away.
  lemma RedeemStep(u: Unicode, opens: Opener, codes: seq<string>, hashes: seq<string>, submitted: string)
    requires Paired(opens, codes, hashes)
    ensures var c := Normalize(u, submitted);
            var (left, accepted) := Redeem(u, opens, hashes, submitted);
            accepted == (c in codes) && Paired(opens, Users.RemoveFirst(codes, c), left)
  {
    var c := Normalize(u, submitted);
    if c in codes {
      var k := FirstIndex(codes, c);
      forall j | 0 <= j < k
        ensures codes[j] != c
      {
        assert codes[j] == codes[..k][j];
      }
      FirstOpenedAt(opens, hashes, c, k);
      Users.RemoveFirstAt(codes, k);
      assert hashes[k] !in hashes[..k];
      Users.RemoveFirstAt(hashes, k);
    } else {
      forall h | h in hashes
        ensures !opens(c, h)
      {
        var k :| 0 <= k < |hashes| && hashes[k] == h;
        assert codes[k] in codes;
      }
      NoneOpened(opens, hashes, c);
      RemoveAbsent(codes, c);
    }
  }

  lemma {:induction false} RemoveAbsent(codes: seq<string>, c: string)
    requires c !in codes
    ensures Users.RemoveFirst(codes, c) == codes
  {
    if codes != [] {
      RemoveAbsent(codes[1..], c);
      assert codes == [codes[0]] + codes[1..];
    }
  }

  // The codes left when each of cs has taken away one occurrence of itself.
  function Left<T(==)>(codes: seq<T>, cs: seq<T>): seq<T> {
    if cs == [] then codes else Users.RemoveFirst(Left(codes, cs[..|cs| - 1]), cs[|cs| - 1])
  }

  lemma {:induction false} LeftCounts<T>(codes: seq<T>, cs: seq<T>, x: T)
    ensures var taken := Users.Count(cs, x);
            Users.Count(Left(codes, cs), x)
            == if Users.Count(codes, x) >= taken then Users.Count(codes, x) - taken else 0
    ensures x in Left(codes, cs) <==> Users.Count(codes, x) > Users.Count(cs, x)
  {
    Users.RemoveFirstCounts(Left(codes, cs), x, x);
    if cs != [] {
      var n := |cs| - 1;
      LeftCounts(codes, cs[..n], x);
      Users.RemoveFirstCounts(Left(codes, cs[..n]), cs[n], x);
      CountLast(cs, x);
    }
  }

  lemma CountLast<T>(cs: seq<T>, x: T)
    requires cs != []
    ensures Users.Count(cs, x) == Users.Count(cs[..|cs| - 1], x) + if cs[|cs| - 1] == x then 1 else 0
  {
    var n := |cs| - 1;
    assert cs == cs[..n] + [cs[n]];
    Users.CountAppend(cs[..n], [cs[n]], x);
  }

  function NormalizeAll(u: Unicode, subs: seq<string>): seq<string> {
    seq(|subs|, i requires 0 <= i < |subs| => Normalize(u, subs[i]))
  }

  lemma {:induction false} RedeemAllPaired(u: Unicode, opens: Opener, codes: seq<string>, hashes: seq<string>,
                                           subs: seq<string>)
    requires Paired(opens, codes, hashes)
    ensures Paired(opens, Left(codes, NormalizeAll(u, subs)), RedeemAll(u, opens, hashes, subs).0)
    ensures |RedeemAll(u, opens, hashes, subs).1| == |subs|
  {
    if subs != [] {
      var n := |subs| - 1;
      RedeemAllPaired(u, opens, codes, hashes, subs[..n]);
      assert NormalizeAll(u, subs)[..n] == NormalizeAll(u, subs[..n]);
      RedeemStep(u, opens, Left(codes, NormalizeAll(u, subs[..n])), RedeemAll(u, opens, hashes, subs[..n]).0, subs[n]);
    }
  }

  // Any sequence of submissions, wrong and repeated ones included: each is accepted exactly
  // when its code has not been taken away by those before it.
  lemma {:induction false} AcceptedExactly(u: Unicode, opens: Opener, codes: seq<string>, hashes: seq<string>,
                                           subs: seq<string>, i: nat)
    requires Paired(opens, codes, hashes) && i < |subs|
    ensures |RedeemAll(u, opens, hashes, subs).1| == |subs|
    ensures var cs := NormalizeAll(u, subs);
            RedeemAll(u, opens, hashes, subs).1[i] == (cs[i] in Left(codes, cs[..i]))
  {
    var n := |subs| - 1;
    var cs := NormalizeAll(u, subs);
    RedeemAllPaired(u, opens, codes, hashes, subs);
    RedeemAllPaired(u, opens, codes, hashes, subs[..n]);
    assert NormalizeAll(u, subs[..n]) == cs[..n];
    if i < n {
      AcceptedExactly(u, opens, codes, hashes, subs[..n], i);
      assert cs[..n][..i] == cs[..i];
    } else {
      RedeemStep(u, opens, Left(codes, cs[..n]), RedeemAll(u, opens, hashes, subs[..n]).0, subs[n]);
    }
  }

  // How often x was accepted.
  function Accepted<T(==)>(cs: seq<T>, accepted: seq<bool>, x: T): nat
    requires |cs| == |accepted|
  {
    if cs == [] then 0
    else
      var n := |cs| - 1;
      Accepted(cs[..n], accepted[..n], x) + if cs[n] == x && accepted[n] then 1 else 0
  }

  function Min(a: nat, b: nat): nat { if a < b then a else b }

  // Each code works as often as it was issued and no more, whatever else is submitted.
  lemma {:induction false} AcceptedCounts<T>(codes: seq<T>, cs: seq<T>, accepted: seq<bool>, x: T)
    requires |accepted| == |cs| && forall i | 0 <= i < |cs| :: accepted[i] == (cs[i] in Left(codes, cs[..i]))
    ensures Accepted(cs, accepted, x) == Min(Users.Count(cs, x), Users.Count(codes, x))
  {
    if cs != [] {
      var n := |cs| - 1;
      forall i | 0 <= i < n
        ensures accepted[..n][i] == (cs[..n][i] in Left(codes, cs[..n][..i]))
      {
        assert cs[..n][..i] == cs[..i];
      }
      AcceptedCounts(codes, cs[..n], accepted[..n], x);
      LeftCounts(codes, cs[..n], x);
      CountLast(cs, x);
    }
  }

  lemma OneShotExactly(u: Unicode, opens: Opener, codes: seq<string>, hashes: seq<string>, subs: seq<string>, c: string)
    requires Paired(opens, codes, hashes)
    ensures var (_, accepted) := RedeemAll(u, opens, hashes, subs);
            && |accepted| == |subs|
            && Accepted(NormalizeAll(u, subs), accepted, c)
               == Min(Users.Count(NormalizeAll(u, subs), c), Users.Count(codes, c))
  {
    RedeemAllPaired(u, opens, codes, hashes, subs);
    forall i | 0 <= i < |subs|
      ensures var cs := NormalizeAll(u, subs);
              RedeemAll(u, opens, hashes, subs).1[i] == (cs[i] in Left(codes, cs[..i]))
    {
      AcceptedExactly(u, opens, codes, hashes, subs, i);
    }
    AcceptedCounts(codes, NormalizeAll(u, subs), RedeemAll(u, opens, hashes, subs).1, c);
  }

  // ---- Issued codes ----

  // Among these strings, which the issued codes are taken from, only a code itself has its
  // Argon2 output under its salt.
  ghost predicate NoCollision(argon: Argon, p: Params, plain: seq<string>, salts: seq<seq<Byte>>, tried: seq<string>) {
    && |plain| == |salts|
    && forall k, c | 0 <= k < |plain| && c in tried :: SameOutput(argon, p, c, plain[k], salts[k]) ==> c == plain[k]
  }

  predicate SameOutput(argon: Argon, p: Params, c: string, code: string, salt: seq<Byte>) {
    argon(c, salt, p.iterations, p.memory, p.parallelism, p.keyLength)
    == argon(code, salt, p.iterations, p.memory, p.parallelism, p.keyLength)
  }

  lemma {:induction false} IssuedOneByOne(argon: Argon, n: nat, count: nat, length: int, alphabet: string, p: Params,
                                          draws: seq<seq<nat>>, salts: seq<seq<Byte>>, k: nat)
    requires k < n <= count && Drawn(count, length, alphabet, p, draws, salts)
    requires IssueFirst(argon, n, count, length, alphabet, p, draws, salts).Codes?
    ensures var g := IssueFirst(argon, n, count, length, alphabet, p, draws, salts);
            && |g.plain| == |g.hashed| == n && g.plain[k] == CodeOf(alphabet, draws[k])
            && HashPassword(argon, g.plain[k], p, salts[k]) == Hash(g.hashed[k])
  {
    if n > 1 {
      IssuedOneByOne(argon, n - 1, count, length, alphabet, p, draws, salts, if k < n - 1 then k else 0);
    }
  }

  // What `opens` says of these strings; nothing else opens anything.
  function Among(tried: seq<string>, opens: Opener): Opener {
    (code, hash) => code in tried && opens(code, hash)
  }

  lemma {:induction false} FirstOpenedAmong(tried: seq<string>, opens: Opener, hashes: seq<string>, code: string)
    requires code in tried
    ensures FirstOpened(Among(tried, opens), hashes, code) == FirstOpened(opens, hashes, code)
  {
    if hashes == [] {
    } else {
      FirstOpenedAmong(tried, opens, hashes[1..], code);
    }
  }

  // Submissions of these strings are redeemed alike.
  lemma {:induction false} RedeemAllAmong(u: Unicode, tried: seq<string>, opens: Opener, hashes: seq<string>,
                                          subs: seq<string>)
    requires forall k | 0 <= k < |subs| :: Normalize(u, subs[k]) in tried
    ensures RedeemAll(u, Among(tried, opens), hashes, subs) == RedeemAll(u, opens, hashes, subs)
  {
    if subs == [] {
    } else {
      var n := |subs| - 1;
      RedeemAllAmong(u, tried, opens, hashes, subs[..n]);
      FirstOpenedAmong(tried, opens, RedeemAll(u, opens, hashes, subs[..n]).0, Normalize(u, subs[n]));
    }
  }

  // Among the strings tried, each issued code opens its own hash only, and no other does.
  lemma IssuedArePaired(u: Unicode, argon: Argon, count: nat, length: int, alphabet: string, p: Params,
                        draws: seq<seq<nat>>, salts: seq<seq<Byte>>, plain: seq<string>, hashed: seq<string>,
                        tried: seq<string>)
    requires Issue(u, argon, count, length, alphabet, p, draws, salts) == Codes(plain, hashed)
    requires KeepsLength(argon) && InLimits(p) && NoCollision(argon, p, plain, salts, tried)
    requires forall c | c in plain :: c in tried
    ensures Paired(Among(tried, OpenerOf(argon)), plain, hashed)
  {
    var lowered := ToLower(u, alphabet);
    forall k, c | 0 <= k < |plain|
      ensures Among(tried, OpenerOf(argon))(c, hashed[k]) <==> c == plain[k]
    {
      IssuedOneByOne(argon, count, count, length, lowered, p, draws, salts, k);
      OpensOnSameOutput(argon, plain[k], p, salts[k], hashed[k], c);
      assert plain[k] in plain;
    }
  }

  lemma OpensOnSameOutput(argon: Argon, code: string, p: Params, salt: seq<Byte>, hash: string, tried: string)
    requires KeepsLength(argon) && InLimits(p) && |salt| == p.saltLength
    requires HashPassword(argon, code, p, salt) == Hash(hash)
    ensures Opens(argon, tried, hash) <==> SameOutput(argon, p, tried, code, salt)
  {
    HashVerifies(argon, code, p, salt, tried);
  }

  lemma IssuedAreSpaceFree(u: Unicode, argon: Argon, count: nat, length: int, alphabet: string, p: Params,
                           draws: seq<seq<nat>>, salts: seq<seq<Byte>>, plain: seq<string>, hashed: seq<string>)
    requires Issue(u, argon, count, length, alphabet, p, draws, salts) == Codes(plain, hashed)
    requires SpaceFree(u, ToLower(u, alphabet))
    ensures forall k | 0 <= k < |plain| :: SpaceFree(u, plain[k]) && plain[k] != ""
  {
    var lowered := ToLower(u, alphabet);
    forall k | 0 <= k < |plain|
      ensures SpaceFree(u, plain[k]) && plain[k] != ""
    {
      IssuedOneByOne(argon, count, count, length, lowered, p, draws, salts, k);
      DrawnFromAlphabet(u, lowered, draws[k]);
    }
  }

  lemma DrawnFromAlphabet(u: Unicode, alphabet: string, draw: seq<nat>)
    requires InAlphabet(draw, alphabet) && SpaceFree(u, alphabet)
    ensures SpaceFree(u, CodeOf(alphabet, draw))
  {
    var code := CodeOf(alphabet, draw);
    forall j | 0 <= j < |code|
      ensures !u.isSpace(code[j])
    {
      assert code[j] == alphabet[draw[j]] && code[j] in alphabet;
    }
  }

  // Any submissions, wrong and repeated ones included: as long as no other string submitted
  // has the Argon2 output of an issued code, each code works as often as it was issued.
  lemma IssuedOneShot(u: Unicode, argon: Argon, count: nat, length: int, alphabet: string, p: Params,
                      draws: seq<seq<nat>>, salts: seq<seq<Byte>>, plain: seq<string>, hashed: seq<string>,
                      subs: seq<string>, c: string)
    requires Issue(u, argon, count, length, alphabet, p, draws, salts) == Codes(plain, hashed)
    requires KeepsLength(argon) && InLimits(p)
    requires NoCollision(argon, p, plain, salts, plain + NormalizeAll(u, subs))
    ensures var (_, accepted) := RedeemAll(u, OpenerOf(argon), hashed, subs);
            && |accepted| == |subs|
            && Accepted(NormalizeAll(u, subs), accepted, c)
               == Min(Users.Count(NormalizeAll(u, subs), c), Users.Count(plain, c))
  {
    var tried := plain + NormalizeAll(u, subs);
    IssuedArePaired(u, argon, count, length, alphabet, p, draws, salts, plain, hashed, tried);
    forall k | 0 <= k < |subs|
      ensures Normalize(u, subs[k]) in tried
    {
      assert NormalizeAll(u, subs)[k] in NormalizeAll(u, subs);
    }
    RedeemAllAmong(u, tried, OpenerOf(argon), hashed, subs);
    OneShotExactly(u, Among(tried, OpenerOf(argon)), plain, hashed, subs, c);
  }

  ghost predicate VariantOf(u: Unicode, submitted: string, code: string) {
    exists before, variant, after ::
      submitted == before + variant + after && Spaces(u, before) && Spaces(u, after) && ToLower(u, variant) == code
  }

  // All issued codes can be redeemed, once each, in any order, with any surrounding white
  // space and any letter case that lowercases back; then none is left to redeem. All that is
  // asked of Argon2 is that two issued codes that differ also differ in their output.
  lemma RedemptionInAnyOrder(u: Unicode, argon: Argon, count: nat, length: int, alphabet: string, p: Params,
                             draws: seq<seq<nat>>, salts: seq<seq<Byte>>, plain: seq<string>, hashed: seq<string>,
                             order: seq<string>, subs: seq<string>)
    requires Issue(u, argon, count, length, alphabet, p, draws, salts) == Codes(plain, hashed)
    requires KeepsLength(argon) && InLimits(p) && NoCollision(argon, p, plain, salts, plain)
    requires Sensible(u) && SpaceFree(u, ToLower(u, alphabet))
    requires multiset(order) == multiset(plain)
    requires |subs| == |order| && forall k | 0 <= k < |subs| :: VariantOf(u, subs[k], order[k])
    ensures var (left, accepted) := RedeemAll(u, OpenerOf(argon), hashed, subs);
            && left == []
            && |accepted| == |subs| && (forall k | 0 <= k < |subs| :: accepted[k])
            && forall again :: !Redeem(u, OpenerOf(argon), left, again).1
  {
    IssuedArePaired(u, argon, count, length, alphabet, p, draws, salts, plain, hashed, plain);
    IssuedAreSpaceFree(u, argon, count, length, alphabet, p, draws, salts, plain, hashed);
    forall k | 0 <= k < |order|
      ensures Normalize(u, subs[k]) == order[k] && order[k] in plain
    {
      assert order[k] in multiset(plain);
      VariantNormalizes(u, subs[k], order[k]);
    }
    assert NormalizeAll(u, subs) == order;
    RedeemAllAmong(u, plain, OpenerOf(argon), hashed, subs);
    AllRedeemed(u, Among(plain, OpenerOf(argon)), plain, hashed, subs);
  }

  lemma VariantNormalizes(u: Unicode, submitted: string, code: string)
    requires Sensible(u) && SpaceFree(u, code) && code != "" && VariantOf(u, submitted, code)
    ensures Normalize(u, submitted) == code
  {
    var before, variant, after :|
      submitted == before + variant + after && Spaces(u, before) && Spaces(u, after) && ToLower(u, variant) == code;
    NormalizeVariant(u, before, variant, after, code);
  }

  lemma AllRedeemed(u: Unicode, opens: Opener, codes: seq<string>, hashes: seq<string>, subs: seq<string>)
    requires Paired(opens, codes, hashes) && multiset(NormalizeAll(u, subs)) == multiset(codes)
    ensures var (left, accepted) := RedeemAll(u, opens, hashes, subs);
            left == [] && |accepted| == |subs| && forall k | 0 <= k < |subs| :: accepted[k]
  {
    var cs := NormalizeAll(u, subs);
    RedeemAllPaired(u, opens, codes, hashes, subs);
    SameCounts(cs, codes);
    forall k | 0 <= k < |subs|
      ensures RedeemAll(u, opens, hashes, subs).1[k]
    {
      AcceptedExactly(u, opens, codes, hashes, subs, k);
      PrefixLeaves(codes, cs, k);
    }
  }

  lemma SameCounts<T>(cs: seq<T>, codes: seq<T>)
    requires multiset(cs) == multiset(codes)
    ensures Left(codes, cs) == []
    ensures forall x :: Users.Count(cs, x) == Users.Count(codes, x)
  {
    forall x
      ensures Users.Count(cs, x) == Users.Count(codes, x)
    {
      Users.CountIsMultiplicity(cs, x);
      Users.CountIsMultiplicity(codes, x);
    }
    var left := Left(codes, cs);
    if left != [] {
      var x := left[0];
      assert x in left && Users.Count(cs, x) == Users.Count(codes, x);
      LeftCounts(codes, cs, x);
      assert false;
    }
  }

  lemma PrefixCounts<T>(cs: seq<T>, k: nat)
    requires k < |cs|
    ensures Users.Count(cs[..k], cs[k]) < Users.Count(cs, cs[k])
  {
    var rest := cs[k..];
    assert cs == cs[..k] + rest && rest[0] == cs[k];
    Users.CountAppend(cs[..k], rest, cs[k]);
  }

  lemma PrefixLeaves<T>(codes: seq<T>, cs: seq<T>, k: nat)
    requires k < |cs| && Users.Count(cs, cs[k]) == Users.Count(codes, cs[k])
    ensures cs[k] in Left(codes, cs[..k])
  {
    PrefixCounts(cs, k);
    LeftCounts(codes, cs[..k], cs[k]);
  }
}
