/** What backup codes are made of, when they are made, and which hash a submission matches, in
    terms of letters, bytes and verdicts (tfa.go:53-105). */
module BackupCodeLaws {
  import opened Wrappers
  import opened Text
  import opened Base64
  import opened PasswordHash
  import opened BackupCodes

  // ---- Issue ----

  // For each code a random letter index for each position, and a salt of its own.
  ghost predicate Supplied(count: nat, length: int, alphabet: string, p: Params, draws: seq<seq<nat>>,
                           salts: seq<seq<Byte>>)
  {
    && |draws| == count && |salts| == count
    && (forall k | 0 <= k < count :: |draws[k]| == length && |salts[k]| == p.saltLength)
    && (forall k | 0 <= k < count :: Within(draws[k], alphabet))
  }

  // Two letters of the alphabet that differ in lower case too.
  ghost predicate TwoLetters(u: Unicode, alphabet: string) {
    exists i, j | 0 <= i < |alphabet| && 0 <= j < |alphabet| :: u.toLower(alphabet[i]) != u.toLower(alphabet[j])
  }

  // No letter occurs twice, in whatever case.
  ghost predicate LettersDiffer(u: Unicode, alphabet: string) {
    forall i, j | 0 <= i < j < |alphabet| :: u.toLower(alphabet[i]) != u.toLower(alphabet[j])
  }

  ghost predicate Within(draw: seq<nat>, alphabet: string) {
    forall j | 0 <= j < |draw| :: draw[j] < |alphabet|
  }

  // The letters drawn, in lower case.
  ghost function Spelled(u: Unicode, alphabet: string, draw: seq<nat>): string
    requires Within(draw, alphabet)
  {
    seq(|draw|, j requires 0 <= j < |draw| => u.toLower(alphabet[draw[j]]))
  }

  lemma CodeIsSpelled(u: Unicode, alphabet: string, draw: seq<nat>)
    requires Within(draw, alphabet)
    ensures InAlphabet(draw, ToLower(u, alphabet))
    ensures CodeOf(ToLower(u, alphabet), draw) == Spelled(u, alphabet, draw)
  {
  }

  lemma SuppliedIsDrawn(u: Unicode, count: nat, length: int, alphabet: string, p: Params, draws: seq<seq<nat>>,
                        salts: seq<seq<Byte>>)
    ensures Supplied(count, length, alphabet, p, draws, salts)
            <==> Drawn(count, length, ToLower(u, alphabet), p, draws, salts)
  {
  }

  lemma TwoLettersAreEnough(u: Unicode, alphabet: string)
    ensures TwoLetters(u, alphabet) <==> !TooSmall(ToLower(u, alphabet))
  {
    var lowered := ToLower(u, alphabet);
    var seen := set c | c in lowered;
    if TwoLetters(u, alphabet) {
      var i, j :| 0 <= i < |alphabet| && 0 <= j < |alphabet| && u.toLower(alphabet[i]) != u.toLower(alphabet[j]);
      assert {lowered[i], lowered[j]} <= seen;
      CountSubset({lowered[i], lowered[j]}, seen);
    } else if lowered == "" {
      assert seen == {};
    } else {
      forall c | c in lowered
        ensures c == lowered[0]
      {
        var i :| 0 <= i < |lowered| && lowered[i] == c;
        assert u.toLower(alphabet[i]) == u.toLower(alphabet[0]);
      }
      assert seen == {lowered[0]};
    }
  }

  lemma CountSubset(a: set<char>, b: set<char>)
    requires a <= b
    ensures |a| <= |b|
  {
    assert b == a + (b - a);
  }

  // Each code issued is spelled by the letters drawn for it, and its hash is made from it with
  // its own salt.
  lemma IssuedLetters(u: Unicode, argon: Argon, count: nat, length: int, alphabet: string, p: Params,
                      draws: seq<seq<nat>>, salts: seq<seq<Byte>>, plain: seq<string>, hashed: seq<string>)
    requires Issue(u, argon, count, length, alphabet, p, draws, salts) == Codes(plain, hashed)
    ensures Supplied(count, length, alphabet, p, draws, salts) && |plain| == count && |hashed| == count
    ensures forall k | 0 <= k < count ::
              && |plain[k]| == length && (forall j | 0 <= j < length :: plain[k][j] == u.toLower(alphabet[draws[k][j]]))
              && HashPassword(argon, plain[k], p, salts[k]) == Hash(hashed[k])
  {
    SuppliedIsDrawn(u, count, length, alphabet, p, draws, salts);
    forall k | 0 <= k < count
      ensures plain[k] == Spelled(u, alphabet, draws[k])
      ensures HashPassword(argon, plain[k], p, salts[k]) == Hash(hashed[k])
    {
      CodeIsSpelled(u, alphabet, draws[k]);
      IssuedOneByOne(argon, count, count, length, ToLower(u, alphabet), p, draws, salts, k);
    }
  }

  // This code can be hashed.
  ghost predicate Hashable(p: Params, code: string) {
    1 <= ByteLength(code) <= 72 && p.iterations >= 1 && p.parallelism >= 1
  }

  // Codes are issued exactly when the length is positive, two letters differ, and every code
  // drawn is of 1 to 72 bytes while Argon2 has a round to do and a thread to do it.
  lemma IssuedExactly(u: Unicode, argon: Argon, count: nat, length: int, alphabet: string, p: Params,
                      draws: seq<seq<nat>>, salts: seq<seq<Byte>>)
    requires Supplied(count, length, alphabet, p, draws, salts)
    ensures
      var issued := Issue(u, argon, count, length, alphabet, p, draws, salts);
      && (issued == BadCodeLength <==> length <= 0)
      && (issued == SmallAlphabet <==> length > 0 && !TwoLetters(u, alphabet))
      && (issued.Codes? <==>
            && length > 0 && TwoLetters(u, alphabet)
            && forall k | 0 <= k < count :: Hashable(p, Spelled(u, alphabet, draws[k])))
  {
    SuppliedIsDrawn(u, count, length, alphabet, p, draws, salts);
    TwoLettersAreEnough(u, alphabet);
    var lowered, issued := ToLower(u, alphabet), Issue(u, argon, count, length, alphabet, p, draws, salts);
    forall k | 0 <= k < count
      ensures CodeOf(lowered, draws[k]) == Spelled(u, alphabet, draws[k])
    {
      CodeIsSpelled(u, alphabet, draws[k]);
    }
    if issued.Codes? {
      IssuedLetters(u, argon, count, length, alphabet, p, draws, salts, issued.plain, issued.hashed);
      forall k | 0 <= k < count
        ensures Hashable(p, Spelled(u, alphabet, draws[k]))
      {
        HashedExactly(argon, issued.plain[k], p, salts[k]);
        assert issued.plain[k] == Spelled(u, alphabet, draws[k]);
      }
    } else if length > 0 && TwoLetters(u, alphabet) {
      if forall k | 0 <= k < count :: Hashable(p, Spelled(u, alphabet, draws[k])) {
        HashableAreIssued(argon, count, count, length, lowered, p, draws, salts);
      }
    }
  }

  lemma HashedExactly(argon: Argon, code: string, p: Params, salt: seq<Byte>)
    requires |salt| == p.saltLength
    ensures HashPassword(argon, code, p, salt).Hash? <==> Hashable(p, code)
  {
  }

  lemma OneMore(argon: Argon, n: nat, count: nat, length: int, lowered: string, p: Params, draws: seq<seq<nat>>,
                salts: seq<seq<Byte>>)
    requires 0 < n <= count && Drawn(count, length, lowered, p, draws, salts)
    ensures IssueFirst(argon, n, count, length, lowered, p, draws, salts).Codes?
            <==> && IssueFirst(argon, n - 1, count, length, lowered, p, draws, salts).Codes?
                 && Hashable(p, CodeOf(lowered, draws[n - 1]))
  {
    HashedExactly(argon, CodeOf(lowered, draws[n - 1]), p, salts[n - 1]);
  }

  lemma {:induction false} HashableAreIssued(argon: Argon, n: nat, count: nat, length: int, lowered: string, p: Params,
                                             draws: seq<seq<nat>>, salts: seq<seq<Byte>>)
    requires n <= count && Drawn(count, length, lowered, p, draws, salts)
    requires forall k | 0 <= k < n :: Hashable(p, CodeOf(lowered, draws[k]))
    ensures IssueFirst(argon, n, count, length, lowered, p, draws, salts).Codes?
  {
    if n == 0 {
    } else {
      HashableAreIssued(argon, n - 1, count, length, lowered, p, draws, salts);
      OneMore(argon, n, count, length, lowered, p, draws, salts);
    }
  }

  // Over an alphabet without repeated letters, two codes are equal only when the same letters
  // were drawn for both.
  lemma DrawsTellCodesApart(u: Unicode, argon: Argon, count: nat, length: int, alphabet: string, p: Params,
                            draws: seq<seq<nat>>, salts: seq<seq<Byte>>, plain: seq<string>, hashed: seq<string>,
                            k: nat, l: nat)
    requires Issue(u, argon, count, length, alphabet, p, draws, salts) == Codes(plain, hashed)
    requires LettersDiffer(u, alphabet) && k < count && l < count
    ensures |plain| == count == |draws| && (plain[k] == plain[l] <==> draws[k] == draws[l])
  {
    IssuedLetters(u, argon, count, length, alphabet, p, draws, salts, plain, hashed);
    if plain[k] == plain[l] {
      forall j | 0 <= j < length
        ensures draws[k][j] == draws[l][j]
      {
        assert plain[k][j] == plain[l][j];
      }
    }
    if draws[k] == draws[l] {
      forall j | 0 <= j < length
        ensures plain[k][j] == plain[l][j]
      {
      }
    }
  }

  // Every string over the alphabet that can be hashed is the code of some draw.
  lemma EveryCodeCanBeDrawn(u: Unicode, argon: Argon, count: nat, length: int, alphabet: string, p: Params,
                            draws: seq<seq<nat>>, salts: seq<seq<Byte>>, plain: seq<string>, hashed: seq<string>,
                            k: nat, code: string) returns (draw: seq<nat>)
    requires Issue(u, argon, count, length, alphabet, p, draws, salts) == Codes(plain, hashed) && k < |draws|
    requires |code| == length && Hashable(p, code)
    requires forall c | c in code :: exists i | 0 <= i < |alphabet| :: u.toLower(alphabet[i]) == c
    ensures
      var issued := Issue(u, argon, count, length, alphabet, p, draws[k := draw], salts);
      issued.Codes? && issued.plain == plain[k := code]
  {
    IssuedLetters(u, argon, count, length, alphabet, p, draws, salts, plain, hashed);
    draw := DrawOf(u, alphabet, code);
    var draws' := draws[k := draw];
    IssuedExactly(u, argon, count, length, alphabet, p, draws, salts);
    IssuedExactly(u, argon, count, length, alphabet, p, draws', salts);
    var issued := Issue(u, argon, count, length, alphabet, p, draws', salts);
    IssuedLetters(u, argon, count, length, alphabet, p, draws', salts, issued.plain, issued.hashed);
    forall l | 0 <= l < count
      ensures issued.plain[l] == plain[k := code][l]
    {
    }
  }

  lemma DrawOf(u: Unicode, alphabet: string, code: string) returns (draw: seq<nat>)
    requires forall c | c in code :: exists i | 0 <= i < |alphabet| :: u.toLower(alphabet[i]) == c
    ensures Within(draw, alphabet) && Spelled(u, alphabet, draw) == code
  {
    draw := [];
    for j := 0 to |code|
      invariant Within(draw, alphabet) && Spelled(u, alphabet, draw) == code[..j]
    {
      assert code[j] in code;
      var i :| 0 <= i < |alphabet| && u.toLower(alphabet[i]) == code[j];
      draw := draw + [i];
    }
    assert code[..|code|] == code;
  }

  // ---- Match ----

  // What a submission is read as: without the white space around it, in lower case.
  lemma NormalizeExactly(u: Unicode, submitted: string) returns (i: nat, j: nat)
    ensures i <= j <= |submitted|
    ensures forall k | 0 <= k < |submitted| && (k < i || j <= k) :: u.isSpace(submitted[k])
    ensures i < j ==> !u.isSpace(submitted[i]) && !u.isSpace(submitted[j - 1])
    ensures |Normalize(u, submitted)| == j - i
    ensures forall k | 0 <= k < j - i :: Normalize(u, submitted)[k] == u.toLower(submitted[i + k])
  {
    i := TrimLeftExactly(u, submitted);
    var n := TrimRightExactly(u, submitted[i..]);
    j := i + n;
    forall k | j <= k < |submitted|
      ensures u.isSpace(submitted[k])
    {
      assert submitted[i..][k - i] == submitted[k];
    }
  }

  lemma {:induction false} TrimLeftExactly(u: Unicode, s: string) returns (i: nat)
    ensures i <= |s| && TrimLeft(u, s) == s[i..] && (forall k | 0 <= k < i :: u.isSpace(s[k]))
    ensures i < |s| ==> !u.isSpace(s[i])
  {
    if s != "" && u.isSpace(s[0]) {
      var n := TrimLeftExactly(u, s[1..]);
      i := n + 1;
    } else {
      i := 0;
    }
  }

  lemma {:induction false} TrimRightExactly(u: Unicode, s: string) returns (n: nat)
    ensures n <= |s| && TrimRight(u, s) == s[..n] && (forall k | n <= k < |s| :: u.isSpace(s[k]))
    ensures n > 0 ==> !u.isSpace(s[n - 1])
  {
    if s != "" && u.isSpace(s[|s| - 1]) {
      n := TrimRightExactly(u, s[..|s| - 1]);
    } else {
      n := |s|;
    }
  }

  // The code verifies against the hash, without an error.
  predicate Fits(argon: Argon, code: string, hash: string) {
    VerifyPassword(argon, code, hash).error == None && VerifyPassword(argon, code, hash).valid
  }

  // The match is the first hash that the submission fits; there is none when it fits none.
  lemma MatchExactly(u: Unicode, argon: Argon, hashes: seq<string>, submitted: string)
    ensures
      var code, found := Normalize(u, submitted), FindMatch(u, OpenerOf(argon), hashes, submitted);
      && (found == None <==> forall hash | hash in hashes :: !Fits(argon, code, hash))
      && (found.Some? ==>
            exists k | 0 <= k < |hashes| ::
              && hashes[k] == found.value && Fits(argon, code, hashes[k])
              && forall j | 0 <= j < k :: !Fits(argon, code, hashes[j]))
  {
    var code, opens := Normalize(u, submitted), OpenerOf(argon);
    if k :| && 0 <= k < |hashes| && Fits(argon, code, hashes[k])
            && forall j | 0 <= j < k :: !Fits(argon, code, hashes[j]) {
      FirstOpenedAt(opens, hashes, code, k);
    } else {
      NoneFits(argon, code, hashes, |hashes|);
      NoneOpened(opens, hashes, code);
    }
  }

  lemma {:induction false} NoneFits(argon: Argon, code: string, hashes: seq<string>, n: nat)
    requires n <= |hashes|
    requires !exists k | 0 <= k < |hashes| ::
               Fits(argon, code, hashes[k]) && forall j | 0 <= j < k :: !Fits(argon, code, hashes[j])
    ensures forall k | 0 <= k < n :: !Fits(argon, code, hashes[k])
  {
    if n > 0 {
      NoneFits(argon, code, hashes, n - 1);
    }
  }
}
