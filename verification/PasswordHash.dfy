/** The argon2id hash text: its printer, its parser and its limits (util.go). Argon2
    (section 3.1 of RFC 9106) is a parameter of which only the output length is known. */
module PasswordHash {
  import opened Wrappers
  import opened Text
  import opened Base64

  type Uint32 = n: nat | n < 0x1_0000_0000
  type Uint8 = n: nat | n < 0x100

  // argon2.IDKey(password, salt, time, memory, threads, keyLen)
  type Argon = (string, seq<Byte>, Uint32, Uint32, Uint8, Uint32) -> seq<Byte>

  ghost predicate KeepsLength(argon: Argon) {
    forall password, salt, time, memory, threads, keyLen ::
      |argon(password, salt, time, memory, threads, keyLen)| == keyLen
  }

  const VERSION := 0x13
  const MAX_MEMORY := 128 * 1024
  const MAX_ITERATIONS := 50
  const MAX_PARALLELISM := 8
  const MIN_MEMORY := 32 * 1024
  const MIN_ITERATIONS := 1
  const MIN_SALT_LENGTH := 16
  const MIN_KEY_LENGTH := 16

  datatype Params = Params(memory: Uint32, iterations: Uint32, parallelism: Uint8, saltLength: Uint32,
                           keyLength: Uint32)

  const NO_PARAMS := Params(0, 0, 0, 0, 0)

  predicate CostInLimits(p: Params) {
    && MIN_MEMORY <= p.memory <= MAX_MEMORY
    && MIN_ITERATIONS <= p.iterations <= MAX_ITERATIONS
    && 1 <= p.parallelism <= MAX_PARALLELISM
  }

  predicate InLimits(p: Params) {
    && CostInLimits(p)
    && MIN_SALT_LENGTH <= p.saltLength && MIN_KEY_LENGTH <= p.keyLength
  }

  // ---- HashPassword ----

  // Panicked: argon2.IDKey does not return for zero rounds or zero threads.
  datatype Hashed = Hash(text: string) | BadLength | Panicked

  predicate HashableLength(password: string) {
    1 <= ByteLength(password) <= 72
  }

  function HashPassword(argon: Argon, password: string, p: Params, salt: seq<Byte>): Hashed
    requires |salt| == p.saltLength
  {
    if !HashableLength(password) then BadLength
    else if p.iterations < 1 || p.parallelism < 1 then Panicked
    else
      var hash := argon(password, salt, p.iterations, p.memory, p.parallelism, p.keyLength);
      Hash(Print(p, salt, hash))
  }

  function PrintParams(p: Params): string {
    Join(["m=" + ToDecimal(p.memory), "t=" + ToDecimal(p.iterations), "p=" + ToDecimal(p.parallelism)], ',')
  }

  function Before(field: string, rest: string): string {
    field + ['$'] + rest
  }

  // $argon2id$v=<version>$m=<memory>,t=<iterations>,p=<parallelism>$<salt>$<hash>
  function Print(p: Params, salt: seq<Byte>, hash: seq<Byte>): string {
    Before("",
      Before("argon2id",
        Before("v=" + ToDecimal(VERSION),
          Before(PrintParams(p),
            Before(Encode(salt), Encode(hash))))))
  }

  lemma StartsWithDollar(p: Params, salt: seq<Byte>, hash: seq<Byte>)
    ensures Print(p, salt, hash) != "" && Print(p, salt, hash)[0] == '$'
  {
  }

  // ---- decodeParams ----

  // One turn of the loop.
  function SetParam(p: Params, item: string): Option<Params> {
    var parts := Cut(item, '=');
    if parts.None? then None
    else
      var (key, val) := parts.value;
      var n := ParseUint32(val);
      if n.None? then None
      else if key == "m" then Some(p.(memory := n.value))
      else if key == "t" then Some(p.(iterations := n.value))
      else if key == "p" then if n.value > 255 then None else Some(p.(parallelism := n.value))
      else None
  }

  function SetParams(items: seq<string>): Option<Params> {
    if items == [] then Some(NO_PARAMS)
    else
      var p := SetParams(items[..|items| - 1]);
      if p.None? then None else SetParam(p.value, items[|items| - 1])
  }

  predicate HasZero(p: Params) {
    p.memory == 0 || p.iterations == 0 || p.parallelism == 0
  }

  function DecodeParams(s: string): Option<Params> {
    var kv := Split(s, ',');
    if |kv| != 3 then None
    else
      var p := SetParams(kv);
      if p.None? || HasZero(p.value) then None else p
  }

  method DecodeParamsLoop(s: string) returns (r: Option<Params>)
    ensures r == DecodeParams(s)
  {
    var kv := Split(s, ',');
    if |kv| != 3 {
      return None;
    }
    var p := NO_PARAMS;
    for i := 0 to |kv|
      invariant SetParams(kv[..i]) == Some(p)
    {
      assert kv[..i + 1][..i] == kv[..i];
      var parts := Cut(kv[i], '=');
      var n := if parts.None? then None else ParseUint32(parts.value.1);
      if n.None? || (parts.value.0 == "p" && n.value > 255) || parts.value.0 !in {"m", "t", "p"} {
        FailurePersists(kv, i + 1);
        return None;
      }
      match parts.value.0 {
        case "m" => p := p.(memory := n.value);
        case "t" => p := p.(iterations := n.value);
        case _ => p := p.(parallelism := n.value);
      }
    }
    assert kv[..|kv|] == kv;
    if p.memory == 0 || p.iterations == 0 || p.parallelism == 0 {
      return None;
    }
    r := Some(p);
  }

  lemma {:induction false} FailurePersists(items: seq<string>, i: nat)
    requires i <= |items| && SetParams(items[..i]).None?
    ensures SetParams(items).None?
  {
    if i == |items| {
      assert items[..i] == items;
    } else {
      assert items[..|items| - 1][..i] == items[..i];
      FailurePersists(items[..|items| - 1], i);
    }
  }

  // item is `key=v` for a positive decimal v.
  predicate IsField(item: string, key: char, v: nat) {
    |item| >= 2 && item[0] == key && item[1] == '=' && ParseUint32(item[2..]) == Some(v) && v > 0
  }

  // kv is, in some order, one memory, one time and one parallelism field, with p's values.
  ghost predicate OneOfEach(kv: seq<string>, p: Params) {
    |kv| == 3 && p.saltLength == 0 && p.keyLength == 0 && exists i, j, k :: Roles(kv, p, i, j, k)
  }

  predicate Roles(kv: seq<string>, p: Params, i: int, j: int, k: int)
    requires |kv| == 3
  {
    && 0 <= i < 3 && 0 <= j < 3 && 0 <= k < 3 && i != j && j != k && i != k
    && IsField(kv[i], 'm', p.memory) && IsField(kv[j], 't', p.iterations) && IsField(kv[k], 'p', p.parallelism)
  }

  lemma CutField(item: string, key: char)
    requires key != '='
    ensures Cut(item, '=').Some? && Cut(item, '=').value.0 == [key]
            <==> |item| >= 2 && item[0] == key && item[1] == '='
    ensures |item| >= 2 && item[0] == key && item[1] == '=' ==> Cut(item, '=').value.1 == item[2..]
  {
    if item != "" && item[0] != '=' {
      var rest := Cut(item[1..], '=');
      if rest.Some? && item[1] != '=' {
        assert rest.value.0 != "";
      }
    }
  }

  lemma SetParamMeans(p: Params, item: string, v: Uint32)
    ensures IsField(item, 'm', v) <==> v > 0 && SetParam(p, item) == Some(p.(memory := v)) && Starts(item, 'm')
    ensures IsField(item, 't', v) <==> v > 0 && SetParam(p, item) == Some(p.(iterations := v)) && Starts(item, 't')
    ensures v < 0x100 ==>
      (IsField(item, 'p', v) <==> v > 0 && SetParam(p, item) == Some(p.(parallelism := v)) && Starts(item, 'p'))
    ensures SetParam(p, item).Some? ==>
      var q := SetParam(p, item).value;
      || (Starts(item, 'm') && q == p.(memory := q.memory))
      || (Starts(item, 't') && q == p.(iterations := q.iterations))
      || (Starts(item, 'p') && q == p.(parallelism := q.parallelism))
  {
    CutField(item, 'm');
    CutField(item, 't');
    CutField(item, 'p');
  }

  predicate Starts(item: string, key: char) {
    item != "" && item[0] == key
  }

  // decodeParams accepts exactly the orderings of one m, one t and one p field with positive
  // values in range, and returns these values: a repeated key leaves another value at zero.
  lemma DecodeParamsExactly(s: string, p: Params)
    ensures DecodeParams(s) == Some(p) <==> OneOfEach(Split(s, ','), p)
  {
    var kv := Split(s, ',');
    if |kv| == 3 {
      SetParamsOfThree(kv);
      if DecodeParams(s) == Some(p) {
        DecodedIsOneOfEach(kv, p);
      }
      if OneOfEach(kv, p) {
        OneOfEachDecodes(kv, p);
      }
    }
  }

  lemma SetParamsOfThree(kv: seq<string>)
    requires |kv| == 3
    ensures SetParams(kv) ==
            var p1 := SetParam(NO_PARAMS, kv[0]);
            if p1.None? then None
            else
              var p2 := SetParam(p1.value, kv[1]);
              if p2.None? then None else SetParam(p2.value, kv[2])
  {
    assert kv[..2][..1] == kv[..1] && kv[..1][..0] == [];
    assert SetParams(kv[..1]) == SetParam(NO_PARAMS, kv[0]);
  }

  lemma DecodedIsOneOfEach(kv: seq<string>, p: Params)
    requires |kv| == 3 && SetParams(kv) == Some(p) && !HasZero(p)
    ensures OneOfEach(kv, p)
  {
    SetParamsOfThree(kv);
    var p1 := SetParam(NO_PARAMS, kv[0]).value;
    var p2 := SetParam(p1, kv[1]).value;
    SetParamMeans(NO_PARAMS, kv[0], p.memory);
    SetParamMeans(NO_PARAMS, kv[0], p.iterations);
    SetParamMeans(NO_PARAMS, kv[0], p.parallelism);
    SetParamMeans(p1, kv[1], p.memory);
    SetParamMeans(p1, kv[1], p.iterations);
    SetParamMeans(p1, kv[1], p.parallelism);
    SetParamMeans(p2, kv[2], p.memory);
    SetParamMeans(p2, kv[2], p.iterations);
    SetParamMeans(p2, kv[2], p.parallelism);
    var i := if Starts(kv[0], 'm') then 0 else if Starts(kv[1], 'm') then 1 else 2;
    var j := if Starts(kv[0], 't') then 0 else if Starts(kv[1], 't') then 1 else 2;
    assert Roles(kv, p, i, j, 3 - i - j);
  }

  lemma OneOfEachDecodes(kv: seq<string>, p: Params)
    requires OneOfEach(kv, p)
    ensures SetParams(kv) == Some(p) && !HasZero(p)
  {
    SetParamsOfThree(kv);
    var i, j, k :| Roles(kv, p, i, j, k);
    var p1 := Merge(NO_PARAMS, kv[0], p);
    var p2 := Merge(p1, kv[1], p);
    FieldSets(NO_PARAMS, kv[0], p, if i == 0 then 'm' else if j == 0 then 't' else 'p');
    FieldSets(p1, kv[1], p, if i == 1 then 'm' else if j == 1 then 't' else 'p');
    FieldSets(p2, kv[2], p, if i == 2 then 'm' else if j == 2 then 't' else 'p');
  }

  // q with the parameter of p that item names.
  function Merge(q: Params, item: string, p: Params): Params {
    if Starts(item, 'm') then q.(memory := p.memory)
    else if Starts(item, 't') then q.(iterations := p.iterations)
    else q.(parallelism := p.parallelism)
  }

  lemma FieldSets(q: Params, item: string, p: Params, key: char)
    requires key == 'm' || key == 't' || key == 'p'
    requires IsField(item, key, if key == 'm' then p.memory else if key == 't' then p.iterations else p.parallelism)
    ensures SetParam(q, item) == Some(Merge(q, item, p)) && Starts(item, key)
  {
    SetParamMeans(q, item, p.memory);
    SetParamMeans(q, item, p.iterations);
    SetParamMeans(q, item, p.parallelism);
  }

  // The order of the three fields does not matter, to success or to the result.
  lemma OrderOfParamsIrrelevant(kv: seq<string>, kv': seq<string>)
    requires |kv| == 3 && multiset(kv) == multiset(kv')
    requires forall item | item in kv :: ',' !in item
    ensures DecodeParams(Join(kv, ',')) == DecodeParams(Join(kv', ','))
  {
    assert |kv'| == |multiset(kv')| == 3;
    forall item
      ensures item in kv <==> item in kv'
    {
      assert item in kv <==> item in multiset(kv);
    }
    SplitJoin(kv, ',');
    SplitJoin(kv', ',');
    forall p
      ensures DecodeParams(Join(kv, ',')) == Some(p) <==> DecodeParams(Join(kv', ',')) == Some(p)
    {
      DecodeParamsExactly(Join(kv, ','), p);
      DecodeParamsExactly(Join(kv', ','), p);
      OneOfEachInAnyOrder(kv, kv', p);
      OneOfEachInAnyOrder(kv', kv, p);
    }
  }

  lemma OneOfEachInAnyOrder(kv: seq<string>, kv': seq<string>, p: Params)
    requires |kv'| == 3 && forall item | item in kv :: item in kv'
    ensures OneOfEach(kv, p) ==> OneOfEach(kv', p)
  {
    if OneOfEach(kv, p) {
      var i, j, k :| Roles(kv, p, i, j, k);
      assert kv[i] in kv && kv[j] in kv && kv[k] in kv;
      var i' :| 0 <= i' < 3 && kv'[i'] == kv[i];
      var j' :| 0 <= j' < 3 && kv'[j'] == kv[j];
      var k' :| 0 <= k' < 3 && kv'[k'] == kv[k];
      assert Roles(kv', p, i', j', k');
    }
  }

  // ---- VerifyPassword ----

  datatype HashError = InvalidHash | IncompatibleVersion | ParamLimitExceeded

  datatype Verdict = Verdict(valid: bool, params: Params, error: Option<HashError>)

  function Rejected(e: HashError): Verdict {
    Verdict(false, NO_PARAMS, Some(e))
  }

  function VerifyPassword(argon: Argon, password: string, encodedHash: string): (r: Verdict)
    ensures r.error.Some? ==> !r.valid
    ensures r.error.None? ==> CostInLimits(r.params)
  {
    var parts := Split(encodedHash, '$');
    if |parts| != 6 || parts[1] != "argon2id" then Rejected(InvalidHash)
    else
      var version := ScanVersion(parts[2]);
      if version.None? then Rejected(InvalidHash)
      else if version.value != VERSION then Rejected(IncompatibleVersion)
      else
        var decoded := DecodeParams(parts[3]);
        if decoded.None? then Rejected(InvalidHash)
        else VerifyWith(argon, password, decoded.value, parts[4], parts[5])
  }

  function VerifyWith(argon: Argon, password: string, p: Params, saltText: string, hashText: string): (r: Verdict)
    ensures r.error.Some? ==> !r.valid
    ensures r.error.None? ==> CostInLimits(r.params)
  {
    if p.memory > MAX_MEMORY || p.iterations > MAX_ITERATIONS || p.parallelism > MAX_PARALLELISM then
      Rejected(ParamLimitExceeded)
    else if p.memory < MIN_MEMORY || p.iterations < MIN_ITERATIONS || p.parallelism < 1 then
      Rejected(ParamLimitExceeded)
    else
      var salt := Decode(saltText);
      var hash := Decode(hashText);
      if salt.None? || hash.None? then Rejected(InvalidHash)
      else if |salt.value| < MIN_SALT_LENGTH || |hash.value| < MIN_KEY_LENGTH then Rejected(InvalidHash)
      else Compare(argon, password, WithLengths(p, salt.value, hash.value), salt.value, hash.value)
  }

  // The conversions to uint32 keep the low 32 bits of the two lengths.
  function WithLengths(p: Params, salt: seq<Byte>, hash: seq<Byte>): Params {
    p.(saltLength := |salt| % 0x1_0000_0000, keyLength := |hash| % 0x1_0000_0000)
  }

  function Compare(argon: Argon, password: string, p: Params, salt: seq<Byte>, hash: seq<Byte>): Verdict {
    Verdict(hash == argon(password, salt, p.iterations, p.memory, p.parallelism, p.keyLength), p, None)
  }

  // ---- The round trip ----

  lemma PlainDecimal(n: nat, c: char)
    requires !IsDigit(c)
    ensures c !in ToDecimal(n)
  {
    assert AllDigits(ToDecimal(n));
  }

  lemma ParsePrinted(n: Uint32)
    ensures ParseUint32(ToDecimal(n)) == Some(n)
  {
    DecimalRoundTrip(n);
  }

  lemma PrintedParamsDecode(p: Params)
    ensures DecodeParams(PrintParams(p)) == if HasZero(p) then None else Some(p.(saltLength := 0, keyLength := 0))
    ensures '$' !in PrintParams(p)
  {
    var m, t, par := "m=" + ToDecimal(p.memory), "t=" + ToDecimal(p.iterations), "p=" + ToDecimal(p.parallelism);
    var kv := [m, t, par];
    forall c | c == ',' || c == '$'
      ensures c !in m && c !in t && c !in par
    {
      PlainDecimal(p.memory, c);
      PlainDecimal(p.iterations, c);
      PlainDecimal(p.parallelism, c);
    }
    SplitJoin(kv, ',');
    JoinWithout(kv, ',', '$');
    SetParamsOfThree(kv);
    PrintedField('m', p.memory);
    PrintedField('t', p.iterations);
    PrintedField('p', p.parallelism);
    assert SetParams(kv) == Some(p.(saltLength := 0, keyLength := 0));
  }

  lemma PrintedField(key: char, n: Uint32)
    requires key != '='
    ensures var parts := Cut([key, '='] + ToDecimal(n), '=');
            parts.Some? && parts.value.0 == [key] && parts.value.1 == ToDecimal(n)
    ensures ParseUint32(ToDecimal(n)) == Some(n)
  {
    assert ([key, '='] + ToDecimal(n))[2..] == ToDecimal(n);
    CutField([key, '='] + ToDecimal(n), key);
    ParsePrinted(n);
  }

  lemma PrintedParts(p: Params, salt: seq<Byte>, hash: seq<Byte>)
    ensures Split(Print(p, salt, hash), '$')
            == ["", "argon2id", "v=" + ToDecimal(VERSION), PrintParams(p), Encode(salt), Encode(hash)]
  {
    var v, params := "v=" + ToDecimal(VERSION), PrintParams(p);
    PlainDecimal(VERSION, '$');
    PrintedParamsDecode(p);
    DecodeEncode(salt);
    DecodeEncode(hash);
    SixFields("", "argon2id", v, params, Encode(salt), Encode(hash));
  }

  lemma SixFields(a: string, b: string, c: string, d: string, e: string, f: string)
    requires '$' !in a && '$' !in b && '$' !in c && '$' !in d && '$' !in e && '$' !in f
    ensures Split(Before(a, Before(b, Before(c, Before(d, Before(e, f))))), '$') == [a, b, c, d, e, f]
  {
    SplitPlain(f, '$');
    SplitBefore(e, f, [f]);
    SplitBefore(d, Before(e, f), [e, f]);
    SplitBefore(c, Before(d, Before(e, f)), [d, e, f]);
    SplitBefore(b, Before(c, Before(d, Before(e, f))), [c, d, e, f]);
    SplitBefore(a, Before(b, Before(c, Before(d, Before(e, f)))), [b, c, d, e, f]);
  }

  lemma SplitBefore(field: string, rest: string, parts: seq<string>)
    requires '$' !in field && Split(rest, '$') == parts
    ensures Split(Before(field, rest), '$') == [field] + parts
  {
    SplitFirst(field, rest, '$');
  }

  lemma VerifyPrinted(argon: Argon, tried: string, p: Params, salt: seq<Byte>, hash: seq<Byte>)
    ensures VerifyPassword(argon, tried, Print(p, salt, hash))
            == if HasZero(p) then Rejected(InvalidHash)
               else VerifyWith(argon, tried, p.(saltLength := 0, keyLength := 0), Encode(salt), Encode(hash))
  {
    PrintedParts(p, salt, hash);
    ScanPrintedVersion(VERSION);
    PrintedParamsDecode(p);
  }

  // The text that HashPassword makes verifies, with exactly the original parameters, when
  // these are within the limits; another password is then accepted only if Argon2 maps it to
  // the same output. HashPassword does not check its parameters: with any other ones it
  // makes a text that no password verifies against.
  lemma HashVerifies(argon: Argon, password: string, p: Params, salt: seq<Byte>, tried: string)
    requires KeepsLength(argon) && |salt| == p.saltLength
    requires HashPassword(argon, password, p, salt).Hash?
    ensures var hash := argon(password, salt, p.iterations, p.memory, p.parallelism, p.keyLength);
            var other := argon(tried, salt, p.iterations, p.memory, p.parallelism, p.keyLength);
            var verdict := VerifyPassword(argon, tried, HashPassword(argon, password, p, salt).text);
            if InLimits(p) then verdict == Verdict(hash == other, p, None)
            else !verdict.valid && verdict.error.Some?
  {
    var hash := argon(password, salt, p.iterations, p.memory, p.parallelism, p.keyLength);
    assert |hash| == p.keyLength;
    VerifyPrinted(argon, tried, p, salt, hash);
    VerifyEncoded(argon, tried, p, salt, hash);
  }

  lemma VerifyEncoded(argon: Argon, tried: string, p: Params, salt: seq<Byte>, hash: seq<Byte>)
    requires |salt| == p.saltLength && |hash| == p.keyLength
    ensures var other := argon(tried, salt, p.iterations, p.memory, p.parallelism, p.keyLength);
            var verdict := VerifyWith(argon, tried, p.(saltLength := 0, keyLength := 0), Encode(salt), Encode(hash));
            if InLimits(p) then verdict == Verdict(hash == other, p, None)
            else !verdict.valid && verdict.error.Some?
  {
    DecodeEncode(salt);
    DecodeEncode(hash);
    LengthsKept(p, salt, hash);
  }

  lemma LengthsKept(p: Params, salt: seq<Byte>, hash: seq<Byte>)
    requires |salt| == p.saltLength && |hash| == p.keyLength
    ensures WithLengths(p.(saltLength := 0, keyLength := 0), salt, hash) == p
  {
    assert |salt| % 0x1_0000_0000 == |salt| && |hash| % 0x1_0000_0000 == |hash|;
  }

  lemma OwnHashVerifiesExactly(argon: Argon, password: string, p: Params, salt: seq<Byte>)
    requires KeepsLength(argon) && |salt| == p.saltLength
    requires HashPassword(argon, password, p, salt).Hash?
    ensures VerifyPassword(argon, password, HashPassword(argon, password, p, salt).text).valid <==> InLimits(p)
  {
    HashVerifies(argon, password, p, salt, password);
  }
}
