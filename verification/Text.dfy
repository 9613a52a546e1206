/** The parts of Go's strings, strconv and fmt packages that the hash text format uses. */
module Text {
  import opened Wrappers

  // ---- strings.Split with a one-character separator ----

  function Split(s: string, sep: char): (parts: seq<string>)
    ensures |parts| >= 1
  {
    if s == "" then [""]
    else
      var rest := Split(s[1..], sep);
      if s[0] == sep then [""] + rest else [[s[0]] + rest[0]] + rest[1..]
  }

  function Join(parts: seq<string>, sep: char): string {
    if parts == [] then ""
    else if |parts| == 1 then parts[0]
    else parts[0] + [sep] + Join(parts[1..], sep)
  }

  lemma {:induction false} SplitPlain(s: string, sep: char)
    requires sep !in s
    ensures Split(s, sep) == [s]
  {
    if s == "" {
    } else {
      SplitPlain(s[1..], sep);
      assert [s[0]] + s[1..] == s;
    }
  }

  lemma {:induction false} SplitFirst(a: string, rest: string, sep: char)
    requires sep !in a
    ensures Split(a + [sep] + rest, sep) == [a] + Split(rest, sep)
  {
    var s := a + [sep] + rest;
    if a == "" {
      assert s[1..] == rest;
    } else {
      assert s[1..] == a[1..] + [sep] + rest;
      SplitFirst(a[1..], rest, sep);
      assert [a[0]] + a[1..] == a;
    }
  }

  lemma {:induction false} SplitJoin(parts: seq<string>, sep: char)
    requires |parts| >= 1 && forall p | p in parts :: sep !in p
    ensures Split(Join(parts, sep), sep) == parts
  {
    if |parts| == 1 {
      SplitPlain(parts[0], sep);
    } else {
      SplitFirst(parts[0], Join(parts[1..], sep), sep);
      SplitJoin(parts[1..], sep);
    }
  }

  lemma {:induction false} SplitParts(s: string, sep: char)
    ensures Join(Split(s, sep), sep) == s
    ensures forall p | p in Split(s, sep) :: sep !in p
  {
    if s == "" {
    } else {
      SplitParts(s[1..], sep);
      var rest := Split(s[1..], sep);
      assert [s[0]] + s[1..] == s;
      if s[0] == sep {
        assert ([""] + rest)[1..] == rest;
      } else {
        assert rest[0] in rest;
        assert ([[s[0]] + rest[0]] + rest[1..])[1..] == rest[1..];
        assert forall p | p in rest[1..] :: p in rest;
      }
    }
  }

  // The parts are those without the separator that give the text again when joined.
  lemma SplitExactly(s: string, sep: char, parts: seq<string>)
    ensures Split(s, sep) == parts
            <==> parts != [] && (forall p | p in parts :: sep !in p) && Join(parts, sep) == s
  {
    SplitParts(s, sep);
    if parts != [] && (forall p | p in parts :: sep !in p) {
      SplitJoin(parts, sep);
    }
  }

  lemma {:induction false} JoinWithout(parts: seq<string>, sep: char, c: char)
    requires c != sep && forall p | p in parts :: c !in p
    ensures c !in Join(parts, sep)
  {
    if |parts| > 1 {
      JoinWithout(parts[1..], sep, c);
    }
  }

  // strings.SplitN(s, sep, 2): cut at the first separator, if there is one.
  function Cut(s: string, sep: char): Option<(string, string)> {
    if s == "" then None
    else if s[0] == sep then Some(("", s[1..]))
    else
      var rest := Cut(s[1..], sep);
      if rest.None? then None else Some(([s[0]] + rest.value.0, rest.value.1))
  }

  // ---- Decimal numbers ----

  predicate IsDigit(c: char) { '0' <= c <= '9' }

  predicate AllDigits(s: string) { forall c | c in s :: IsDigit(c) }

  function DigitValue(c: char): nat
    requires IsDigit(c)
  {
    c as int - '0' as int
  }

  // %d of a natural number.
  function ToDecimal(n: nat): (s: string)
    ensures s != "" && AllDigits(s)
  {
    var last := ['0' + (n % 10) as char];
    if n < 10 then last else ToDecimal(n / 10) + last
  }

  function DecimalValue(s: string): nat
    requires AllDigits(s)
  {
    if s == "" then 0 else 10 * DecimalValue(s[..|s| - 1]) + DigitValue(s[|s| - 1])
  }

  lemma {:induction false} DecimalRoundTrip(n: nat)
    ensures DecimalValue(ToDecimal(n)) == n
  {
    var s := ToDecimal(n);
    if n < 10 {
      assert s[..0] == "";
    } else {
      DecimalRoundTrip(n / 10);
      assert s[..|s| - 1] == ToDecimal(n / 10);
    }
  }

  // strconv.ParseUint(s, 10, 32): digits only, and in range.
  function ParseUint32(s: string): (r: Option<nat>) {
    if s == "" || !AllDigits(s) || DecimalValue(s) >= 0x1_0000_0000 then None else Some(DecimalValue(s))
  }

  // ---- fmt.Sscanf(s, "v=%d", &version) ----

  // The white space that Sscanf skips before a number, which does not include newlines.
  predicate IsBlank(c: char) {
    || c == ' ' || c == '\t' || c == '\r' || c == '\U{b}' || c == '\U{c}' || c == '\U{85}' || c == '\U{a0}'
    || c == '\U{1680}' || '\U{2000}' <= c <= '\U{200a}' || c == '\U{2028}' || c == '\U{2029}'
    || c == '\U{202f}' || c == '\U{205f}' || c == '\U{3000}'
  }

  function SkipBlanks(s: string): string {
    if s != "" && IsBlank(s[0]) then SkipBlanks(s[1..]) else s
  }

  function LeadingDigits(s: string): (d: string)
    ensures AllDigits(d)
  {
    if s != "" && IsDigit(s[0]) then [s[0]] + LeadingDigits(s[1..]) else ""
  }

  // What follows the number is not looked at.
  function ScanVersion(s: string): Option<int> {
    if !("v=" <= s) then None
    else
      var rest := SkipBlanks(s[2..]);
      var signed := rest != "" && (rest[0] == '+' || rest[0] == '-');
      var digits := LeadingDigits(if signed then rest[1..] else rest);
      var n: int := DecimalValue(digits);
      var v := if signed && rest[0] == '-' then -n else n;
      if digits == "" || v < -0x8000_0000_0000_0000 || v >= 0x8000_0000_0000_0000 then None else Some(v)
  }

  lemma {:induction false} LeadingDigitsOfDigits(s: string)
    requires AllDigits(s)
    ensures LeadingDigits(s) == s
  {
    if s == "" {
    } else {
      LeadingDigitsOfDigits(s[1..]);
      assert [s[0]] + s[1..] == s;
    }
  }

  lemma ScanPrintedVersion(n: nat)
    requires n < 0x8000_0000_0000_0000
    ensures ScanVersion("v=" + ToDecimal(n)) == Some(n)
  {
    var d := ToDecimal(n);
    assert ("v=" + d)[2..] == d;
    assert d[0] in d;
    LeadingDigitsOfDigits(d);
    DecimalRoundTrip(n);
  }

  // ---- Byte length, letter case and surrounding white space ----

  // len(s): the length of the UTF-8 form.
  function ByteLength(s: string): nat {
    if s == "" then 0
    else
      var c := s[0] as int;
      (if c < 0x80 then 1 else if c < 0x800 then 2 else if c < 0x1_0000 then 3 else 4) + ByteLength(s[1..])
  }

  // unicode.ToLower and unicode.IsSpace. Nothing is asked of them but that white space has
  // no other letter case.
  datatype Unicode = Unicode(toLower: char -> char, isSpace: char -> bool)

  ghost predicate Sensible(u: Unicode) {
    forall c :: u.isSpace(c) ==> u.toLower(c) == c
  }

  function ToLower(u: Unicode, s: string): (r: string)
    ensures |r| == |s|
  {
    seq(|s|, i requires 0 <= i < |s| => u.toLower(s[i]))
  }

  function TrimLeft(u: Unicode, s: string): string {
    if s != "" && u.isSpace(s[0]) then TrimLeft(u, s[1..]) else s
  }

  function TrimRight(u: Unicode, s: string): string {
    if s != "" && u.isSpace(s[|s| - 1]) then TrimRight(u, s[..|s| - 1]) else s
  }

  function TrimSpace(u: Unicode, s: string): string {
    TrimRight(u, TrimLeft(u, s))
  }

  predicate Spaces(u: Unicode, s: string) { forall c | c in s :: u.isSpace(c) }

  predicate SpaceFree(u: Unicode, s: string) { forall c | c in s :: !u.isSpace(c) }

  lemma {:induction false} TrimLeftPadding(u: Unicode, pad: string, s: string)
    requires Spaces(u, pad) && s != "" && !u.isSpace(s[0])
    ensures TrimLeft(u, pad + s) == s
  {
    if pad == "" {
      assert pad + s == s;
    } else {
      assert pad[0] in pad;
      assert (pad + s)[1..] == pad[1..] + s;
      TrimLeftPadding(u, pad[1..], s);
    }
  }

  lemma {:induction false} TrimRightPadding(u: Unicode, s: string, pad: string)
    requires Spaces(u, pad) && s != "" && !u.isSpace(s[|s| - 1])
    ensures TrimRight(u, s + pad) == s
  {
    if pad == "" {
      assert s + pad == s;
    } else {
      var n := |pad| - 1;
      assert pad[n] in pad;
      assert (s + pad)[..|s| + n] == s + pad[..n];
      TrimRightPadding(u, s, pad[..n]);
    }
  }

  // A code without white space survives padding and any change of letter case that
  // lowercases back to it.
  lemma NormalizeVariant(u: Unicode, before: string, variant: string, after: string, code: string)
    requires Sensible(u) && Spaces(u, before) && Spaces(u, after)
    requires SpaceFree(u, code) && code != "" && ToLower(u, variant) == code
    ensures ToLower(u, TrimSpace(u, before + variant + after)) == code
  {
    var n := |variant| - 1;
    assert code[0] in code && code[n] in code;
    assert u.toLower(variant[0]) == code[0] && u.toLower(variant[n]) == code[n];
    TrimLeftPadding(u, before, variant + after);
    assert before + variant + after == before + (variant + after);
    TrimRightPadding(u, variant, after);
  }
}
