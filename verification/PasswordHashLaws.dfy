/** The texts that hashing a password makes, and the texts that are taken for hashes, letter by
    letter and number by number (util.go:52-130). */
module PasswordHashLaws {
  import opened Wrappers
  import opened Text
  import opened Base64
  import opened PasswordHash

  // ---- Numbers ----

  // The value of a decimal, from its last digit back; a printed number has no leading zero.
  lemma DecimalDigits(s: string, c: char)
    requires AllDigits(s) && '0' <= c <= '9'
    ensures DecimalValue("") == 0 && AllDigits(s + [c])
    ensures DecimalValue(s + [c]) == 10 * DecimalValue(s) + (c as int - 48)
  {
    assert (s + [c])[..|s|] == s;
  }

  lemma {:induction false} NoLeadingZero(n: nat)
    ensures ToDecimal(n)[0] == '0' ==> ToDecimal(n) == "0"
    ensures forall c | c in ToDecimal(n) :: '0' <= c <= '9'
  {
    if n < 10 {
    } else {
      NoLeadingZero(n / 10);
      DecimalRoundTrip(n / 10);
      DecimalDigits("", '0');
      assert "" + ['0'] == "0";
    }
  }

  lemma ParsesExactly(s: string, n: nat)
    ensures ParseUint32(s) == Some(n)
            <==> s != "" && (forall c | c in s :: '0' <= c <= '9') && DecimalValue(s) == n && n <= 4_294_967_295
  {
  }

  // How many bytes a string has in UTF-8, character by character.
  lemma {:induction false} BytesAdd(s: string, c: char)
    ensures ByteLength("") == 0
    ensures ByteLength(s + [c])
            == ByteLength(s) + (if c as int <= 0x7f then 1 else if c as int <= 0x7ff then 2
                                else if c as int <= 0xffff then 3 else 4)
  {
    if s == "" {
      assert s + [c] == [c];
    } else {
      assert (s + [c])[1..] == s[1..] + [c];
      BytesAdd(s[1..], c);
    }
  }

  // ---- The version ----

  // White space other than a line feed, by its code.
  predicate Blank(c: char) {
    var n := c as int;
    || n == 9 || 11 <= n <= 13 || n == 32 || n == 0x85 || n == 0xa0 || n == 0x1680 || 0x2000 <= n <= 0x200a
    || n == 0x2028 || n == 0x2029 || n == 0x202f || n == 0x205f || n == 0x3000
  }

  lemma BlanksExactly()
    ensures forall c :: IsBlank(c) <==> Blank(c)
  {
  }

  // "v=", white space but no line end, a sign or none, and a number that ends before the rest.
  ghost predicate IsVersion(s: string, blanks: string, sign: string, digits: string, rest: string, v: int) {
    && s == "v=" + blanks + sign + digits + rest
    && (forall c | c in blanks :: Blank(c)) && (sign == "" || sign == "+" || sign == "-")
    && digits != "" && AllDigits(digits) && (rest == "" || !('0' <= rest[0] <= '9'))
    && v == DecimalValue(digits) * (if sign == "-" then -1 else 1)
    && -0x8000_0000_0000_0000 <= v < 0x8000_0000_0000_0000
  }

  lemma {:induction false} BlanksSkipped(s: string) returns (n: nat)
    ensures n <= |s| && SkipBlanks(s) == s[n..] && (forall c | c in s[..n] :: IsBlank(c))
  {
    if s != "" && IsBlank(s[0]) {
      var m := BlanksSkipped(s[1..]);
      n := m + 1;
      assert s[..n] == [s[0]] + s[1..][..m];
      assert s[n..] == s[1..][m..];
    } else {
      n := 0;
    }
  }

  lemma {:induction false} AllBlanksSkipped(blanks: string, s: string)
    requires (forall c | c in blanks :: IsBlank(c)) && s != "" && !IsBlank(s[0])
    ensures SkipBlanks(blanks + s) == s
  {
    if blanks == "" {
      assert blanks + s == s;
    } else {
      AllBlanksSkipped(blanks[1..], s);
      assert (blanks + s)[1..] == blanks[1..] + s;
    }
  }

  lemma {:induction false} DigitsTaken(s: string) returns (n: nat)
    ensures n <= |s| && LeadingDigits(s) == s[..n] && (n < |s| ==> !('0' <= s[n] <= '9'))
  {
    if s != "" && '0' <= s[0] <= '9' {
      var m := DigitsTaken(s[1..]);
      n := m + 1;
      assert s[..n] == [s[0]] + s[1..][..m];
    } else {
      n := 0;
    }
  }

  lemma {:induction false} AllDigitsTaken(digits: string, rest: string)
    requires AllDigits(digits) && (rest == "" || !('0' <= rest[0] <= '9'))
    ensures LeadingDigits(digits + rest) == digits
  {
    if digits == "" {
      assert digits + rest == rest;
    } else {
      AllDigitsTaken(digits[1..], rest);
      assert (digits + rest)[1..] == digits[1..] + rest;
      assert digits == [digits[0]] + digits[1..];
    }
  }

  // A version is read from exactly the texts of this form.
  lemma VersionExactly(s: string, v: int)
    ensures ScanVersion(s) == Some(v)
            <==> exists blanks, sign, digits, rest :: IsVersion(s, blanks, sign, digits, rest, v)
  {
    BlanksExactly();
    if ScanVersion(s) == Some(v) {
      VersionTakenApart(s, v);
    }
    if blanks, sign, digits, rest :| IsVersion(s, blanks, sign, digits, rest, v) {
      VersionRead(s, blanks, sign, digits, rest, v);
    }
  }

  lemma VersionTakenApart(s: string, v: int)
    requires ScanVersion(s) == Some(v)
    ensures exists blanks, sign, digits, rest :: IsVersion(s, blanks, sign, digits, rest, v)
  {
    BlanksExactly();
    var n := BlanksSkipped(s[2..]);
    var blanks, number := s[2..][..n], s[2..][n..];
    var sign, digits, rest := PiecesOf(number);
    assert s == "v=" + (blanks + number);
    Associate("v=" + blanks, sign, digits, rest);
    assert IsVersion(s, blanks, sign, digits, rest, v);
  }

  lemma Associate(a: string, b: string, c: string, d: string)
    ensures a + (b + (c + d)) == a + b + c + d
  {
  }

  predicate Signed(number: string) {
    number != "" && (number[0] == '+' || number[0] == '-')
  }

  lemma PiecesOf(number: string) returns (sign: string, digits: string, rest: string)
    ensures number == sign + (digits + rest) && (rest == "" || !('0' <= rest[0] <= '9'))
    ensures sign == if Signed(number) then [number[0]] else ""
    ensures LeadingDigits(if Signed(number) then number[1..] else number) == digits
  {
    sign := if Signed(number) then [number[0]] else "";
    var unsigned := if Signed(number) then number[1..] else number;
    assert number == sign + unsigned;
    var m := DigitsTaken(unsigned);
    digits, rest := unsigned[..m], unsigned[m..];
    assert unsigned == digits + rest;
  }

  lemma VersionRead(s: string, blanks: string, sign: string, digits: string, rest: string, v: int)
    requires IsVersion(s, blanks, sign, digits, rest, v)
    ensures ScanVersion(s) == Some(v)
  {
    BlanksExactly();
    var number := sign + (digits + rest);
    Associate("v=" + blanks, sign, digits, rest);
    assert s == "v=" + (blanks + number) && s[2..] == blanks + number;
    UnsignedPart(sign, digits, rest);
    AllBlanksSkipped(blanks, number);
    AllDigitsTaken(digits, rest);
  }

  lemma UnsignedPart(sign: string, digits: string, rest: string)
    requires (sign == "" || sign == "+" || sign == "-") && digits != "" && AllDigits(digits)
    ensures
      var number := sign + (digits + rest);
      && number != "" && !IsBlank(number[0]) && Signed(number) == (sign != "")
      && (sign != "" ==> number[0] == sign[0] && number[1..] == digits + rest)
      && (sign == "" ==> number == digits + rest)
  {
    assert digits[0] in digits;
  }

  // ---- HashPassword ----

  // A password is hashed exactly when it has 1 to 72 bytes and Argon2 a round to do and a
  // thread to do it; and this is the text.
  lemma HashedText(argon: Argon, password: string, p: Params, salt: seq<Byte>)
    requires |salt| == p.saltLength
    ensures
      var hashed := HashPassword(argon, password, p, salt);
      var output := argon(password, salt, p.iterations, p.memory, p.parallelism, p.keyLength);
      && (hashed == BadLength <==> ByteLength(password) == 0 || ByteLength(password) > 72)
      && (hashed == Panicked <==> 1 <= ByteLength(password) <= 72 && (p.iterations == 0 || p.parallelism == 0))
      && (hashed.Hash? ==>
            hashed.text == "$argon2id$v=19$m=" + ToDecimal(p.memory) + ",t=" + ToDecimal(p.iterations) + ",p="
                           + ToDecimal(p.parallelism) + "$" + Encode(salt) + "$" + Encode(output))
  {
    var output := argon(password, salt, p.iterations, p.memory, p.parallelism, p.keyLength);
    PrintedText(p, salt, output);
  }

  lemma Nineteen()
    ensures ToDecimal(0x13) == "19"
  {
    assert ToDecimal(1) == "1";
  }

  lemma PrintedText(p: Params, salt: seq<Byte>, hash: seq<Byte>)
    ensures Print(p, salt, hash)
            == "$argon2id$v=19$m=" + ToDecimal(p.memory) + ",t=" + ToDecimal(p.iterations) + ",p="
               + ToDecimal(p.parallelism) + "$" + Encode(salt) + "$" + Encode(hash)
  {
    Nineteen();
    var m, t, par := ToDecimal(p.memory), ToDecimal(p.iterations), ToDecimal(p.parallelism);
    assert "v=" + "19" == "v=19";
    ParamsText("m=" + m, "t=" + t, "p=" + par);
    Flattened(m, t, par, Encode(salt), Encode(hash));
  }

  lemma ParamsText(m: string, t: string, par: string)
    ensures Join([m, t, par], ',') == m + [','] + (t + [','] + par)
  {
    assert [m, t, par][1..] == [t, par] && [t, par][1..] == [par];
    assert Join([par], ',') == par;
    assert Join([t, par], ',') == t + [','] + par;
  }

  lemma Flattened(m: string, t: string, par: string, salt: string, hash: string)
    ensures
      var params := "m=" + m + [','] + ("t=" + t + [','] + ("p=" + par));
      Before("", Before("argon2id", Before("v=19", Before(params, Before(salt, hash)))))
      == "$argon2id$v=19$m=" + m + ",t=" + t + ",p=" + par + "$" + salt + "$" + hash
  {
  }

  // ---- VerifyPassword ----

  // The cost parameters that the verifier takes.
  predicate Bearable(p: Params) {
    32_768 <= p.memory <= 131_072 && 1 <= p.iterations <= 50 && 1 <= p.parallelism <= 8
  }

  // Six parts between dollar signs: any first one, the name, the version, the parameters, and
  // the salt and the output in base64.
  ghost predicate Parts(text: string, parts: seq<string>) {
    && |parts| == 6 && (forall part | part in parts :: '$' !in part) && parts[1] == "argon2id"
    && text == parts[0] + "$argon2id$" + parts[2] + "$" + parts[3] + "$" + parts[4] + "$" + parts[5]
  }

  lemma PartsExactly(text: string, parts: seq<string>)
    ensures Parts(text, parts) <==> Split(text, '$') == parts && |parts| == 6 && parts[1] == "argon2id"
  {
    SplitExactly(text, '$', parts);
    if |parts| == 6 && parts[1] == "argon2id" {
      JoinNamed(parts[0], parts[2], parts[3], parts[4], parts[5]);
      assert parts == [parts[0], "argon2id", parts[2], parts[3], parts[4], parts[5]];
    }
  }

  lemma JoinNamed(a: string, c: string, d: string, e: string, f: string)
    ensures Join([a, "argon2id", c, d, e, f], '$') == a + "$argon2id$" + c + "$" + d + "$" + e + "$" + f
  {
    JoinSix(a, "argon2id", c, d, e, f);
    assert a + "$" + "argon2id" + "$" == a + "$argon2id$";
  }

  lemma JoinSix(a: string, b: string, c: string, d: string, e: string, f: string)
    ensures Join([a, b, c, d, e, f], '$') == a + "$" + b + "$" + c + "$" + d + "$" + e + "$" + f
  {
    JoinTwo(e, f);
    JoinMore(d, [e, f]);
    JoinMore(c, [d, e, f]);
    JoinMore(b, [c, d, e, f]);
    JoinMore(a, [b, c, d, e, f]);
  }

  lemma JoinTwo(a: string, b: string)
    ensures Join([a, b], '$') == a + "$" + b
  {
    assert [a, b][1..] == [b];
  }

  lemma JoinMore(a: string, rest: seq<string>)
    requires rest != []
    ensures Join([a] + rest, '$') == a + "$" + Join(rest, '$')
    ensures [a] + rest == [a] + rest
  {
    assert ([a] + rest)[1..] == rest;
  }

  // The text is of this form: version 19, parameters in limits, at least 16 bytes each of salt
  // and output.
  ghost predicate Taken(text: string, parts: seq<string>, p: Params, salt: seq<Byte>, output: seq<Byte>) {
    && Parts(text, parts) && ScanVersion(parts[2]) == Some(19)
    && OneOfEach(Split(parts[3], ','), p.(saltLength := 0, keyLength := 0)) && Bearable(p)
    && Decode(parts[4]) == Some(salt) && |salt| >= 16 && Decode(parts[5]) == Some(output) && |output| >= 16
    && p.saltLength == |salt| % 0x1_0000_0000 && p.keyLength == |output| % 0x1_0000_0000
  }

  // A verdict without an error is given on exactly these texts, and it is that Argon2 makes
  // the same output of the password.
  lemma VerdictGiven(argon: Argon, password: string, text: string, parts: seq<string>, p: Params, salt: seq<Byte>,
                     output: seq<Byte>)
    requires Taken(text, parts, p, salt, output)
    ensures VerifyPassword(argon, password, text)
            == Verdict(output == argon(password, salt, p.iterations, p.memory, p.parallelism, p.keyLength), p, None)
  {
    PartsExactly(text, parts);
    DecodeParamsExactly(parts[3], p.(saltLength := 0, keyLength := 0));
  }

  lemma VerdictOnlyFor(argon: Argon, password: string, text: string)
    returns (parts: seq<string>, p: Params, salt: seq<Byte>, output: seq<Byte>)
    requires VerifyPassword(argon, password, text).error == None
    ensures Taken(text, parts, p, salt, output)
  {
    parts := Split(text, '$');
    PartsExactly(text, parts);
    var q := DecodeParams(parts[3]).value;
    DecodeParamsExactly(parts[3], q);
    salt, output := VerdictOnlyWith(argon, password, q, parts[4], parts[5]);
    p := WithLengths(q, salt, output);
    assert p.(saltLength := 0, keyLength := 0) == q;
  }

  lemma VerdictOnlyWith(argon: Argon, password: string, q: Params, saltText: string, hashText: string)
    returns (salt: seq<Byte>, output: seq<Byte>)
    requires VerifyWith(argon, password, q, saltText, hashText).error == None
    ensures Bearable(q) && Decode(saltText) == Some(salt) && |salt| >= 16
    ensures Decode(hashText) == Some(output) && |output| >= 16
  {
    salt, output := Decode(saltText).value, Decode(hashText).value;
  }

  // Which error the other texts give.
  ghost predicate OtherVersion(text: string, parts: seq<string>) {
    Parts(text, parts) && ScanVersion(parts[2]).Some? && ScanVersion(parts[2]).value != 19
  }

  lemma VersionErrors(argon: Argon, password: string, text: string)
    ensures VerifyPassword(argon, password, text).error == Some(IncompatibleVersion)
            <==> exists parts :: OtherVersion(text, parts)
  {
    if VerifyPassword(argon, password, text).error == Some(IncompatibleVersion) {
      PartsExactly(text, Split(text, '$'));
      assert OtherVersion(text, Split(text, '$'));
    }
    if parts :| OtherVersion(text, parts) {
      PartsExactly(text, parts);
    }
  }

  ghost predicate BeyondLimits(text: string, parts: seq<string>, p: Params) {
    Parts(text, parts) && ScanVersion(parts[2]) == Some(19) && OneOfEach(Split(parts[3], ','), p) && !Bearable(p)
  }

  lemma LimitErrors(argon: Argon, password: string, text: string)
    ensures VerifyPassword(argon, password, text).error == Some(ParamLimitExceeded)
            <==> exists parts, p :: BeyondLimits(text, parts, p)
  {
    if VerifyPassword(argon, password, text).error == Some(ParamLimitExceeded) {
      var parts := Split(text, '$');
      PartsExactly(text, parts);
      var p := DecodeParams(parts[3]).value;
      DecodeParamsExactly(parts[3], p);
      assert BeyondLimits(text, parts, p);
    }
    if parts, p :| BeyondLimits(text, parts, p) {
      PartsExactly(text, parts);
      DecodeParamsExactly(parts[3], p);
    }
  }

  // A text with another name, another number of parts or another version verifies no password.
  lemma ForeignTextsFail(argon: Argon, password: string, text: string)
    requires forall parts | Parts(text, parts) :: ScanVersion(parts[2]) != Some(19)
    ensures !VerifyPassword(argon, password, text).valid && VerifyPassword(argon, password, text).error.Some?
  {
    if VerifyPassword(argon, password, text).error == None {
      var parts, p, salt, output := VerdictOnlyFor(argon, password, text);
    }
  }

  // A password verifies against its own hash exactly when the parameters are within these
  // limits; otherwise nothing verifies against it.
  lemma OwnHashInLimits(argon: Argon, password: string, p: Params, salt: seq<Byte>, tried: string)
    requires KeepsLength(argon) && |salt| == p.saltLength
    requires HashPassword(argon, password, p, salt).Hash?
    ensures
      var verdict := VerifyPassword(argon, tried, HashPassword(argon, password, p, salt).text);
      if Bearable(p) && p.saltLength >= 16 && p.keyLength >= 16 then
        && verdict.error == None && verdict.params == p
        && (verdict.valid <==> argon(tried, salt, p.iterations, p.memory, p.parallelism, p.keyLength)
                               == argon(password, salt, p.iterations, p.memory, p.parallelism, p.keyLength))
      else !verdict.valid && verdict.error.Some?
  {
    HashVerifies(argon, password, p, salt, tried);
  }
}
