/** base64.RawStdEncoding: the alphabet of section 4 of RFC 4648, without padding. */
module Base64 {
  import opened Wrappers

  type Byte = b: int | 0 <= b < 256
  type Sextet = v: int | 0 <= v < 64

  function CharOf(v: Sextet): char {
    if v < 26 then 'A' + v as char
    else if v < 52 then 'a' + (v - 26) as char
    else if v < 62 then '0' + (v - 52) as char
    else if v == 62 then '+'
    else '/'
  }

  function ValueOf(c: char): Option<Sextet> {
    if 'A' <= c <= 'Z' then Some(c as int - 'A' as int)
    else if 'a' <= c <= 'z' then Some(c as int - 'a' as int + 26)
    else if '0' <= c <= '9' then Some(c as int - '0' as int + 52)
    else if c == '+' then Some(62)
    else if c == '/' then Some(63)
    else None
  }

  function Encode(b: seq<Byte>): string {
    if |b| == 0 then ""
    else if |b| == 1 then [CharOf(b[0] / 4), CharOf(b[0] % 4 * 16)]
    else if |b| == 2 then [CharOf(b[0] / 4), CharOf(b[0] % 4 * 16 + b[1] / 16), CharOf(b[1] % 16 * 4)]
    else [CharOf(b[0] / 4), CharOf(b[0] % 4 * 16 + b[1] / 16), CharOf(b[1] % 16 * 4 + b[2] / 64), CharOf(b[2] % 64)]
         + Encode(b[3..])
  }

  // The decoder passes over line ends.
  function WithoutLineEnds(s: string): string {
    if s == "" then ""
    else if s[0] == '\r' || s[0] == '\n' then WithoutLineEnds(s[1..])
    else [s[0]] + WithoutLineEnds(s[1..])
  }

  function Values(s: string): Option<seq<Sextet>> {
    if s == "" then Some([])
    else
      var v := ValueOf(s[0]);
      var rest := Values(s[1..]);
      if v.None? || rest.None? then None else Some([v.value] + rest.value)
  }

  // The three bytes that four values hold.
  function High(v: Sextet, w: Sextet): Byte {
    var n: int := v;
    n * 4 + w / 16
  }

  function Middle(v: Sextet, w: Sextet): Byte {
    var n: int := v;
    n % 16 * 16 + w / 4
  }

  function Low(v: Sextet, w: Sextet): Byte {
    var n: int := v;
    n % 4 * 64 + w
  }

  // The low bits of the last value that belong to no byte are not looked at.
  function Pack(v: seq<Sextet>): Option<seq<Byte>> {
    if |v| == 0 then Some([])
    else if |v| == 1 then None
    else if |v| == 2 then Some([High(v[0], v[1])])
    else if |v| == 3 then Some([High(v[0], v[1]), Middle(v[1], v[2])])
    else
      var rest := Pack(v[4..]);
      if rest.None? then None
      else Some([High(v[0], v[1]), Middle(v[1], v[2]), Low(v[2], v[3])] + rest.value)
  }

  function Decode(s: string): Option<seq<Byte>> {
    var v := Values(WithoutLineEnds(s));
    if v.None? then None else Pack(v.value)
  }

  // The values an encoding is spelled with.
  function Sextets(b: seq<Byte>): seq<Sextet> {
    if |b| == 0 then []
    else if |b| == 1 then [b[0] / 4, b[0] % 4 * 16]
    else if |b| == 2 then [b[0] / 4, b[0] % 4 * 16 + b[1] / 16, b[1] % 16 * 4]
    else [b[0] / 4, b[0] % 4 * 16 + b[1] / 16, b[1] % 16 * 4 + b[2] / 64, b[2] % 64] + Sextets(b[3..])
  }

  function Spell(v: seq<Sextet>): string {
    seq(|v|, i requires 0 <= i < |v| => CharOf(v[i]))
  }

  lemma CharRoundTrip(v: Sextet)
    ensures ValueOf(CharOf(v)) == Some(v)
    ensures CharOf(v) != '$' && CharOf(v) != '\r' && CharOf(v) != '\n'
  {
  }

  lemma {:induction false} EncodeSpells(b: seq<Byte>)
    ensures Encode(b) == Spell(Sextets(b))
  {
    if |b| > 2 {
      EncodeSpells(b[3..]);
    }
    assert |Encode(b)| == |Sextets(b)|;
    assert forall i | 0 <= i < |Sextets(b)| :: Encode(b)[i] == CharOf(Sextets(b)[i]);
  }

  lemma BytesAgain(v: Sextet, w: Sextet, s: Sextet, t: Sextet, x: Byte, y: Byte, z: Byte)
    requires v == x / 4 && w == x % 4 * 16 + y / 16 && s == y % 16 * 4 + z / 64 && t == z % 64
    ensures High(v, w) == x && Middle(w, s) == y && Low(s, t) == z
  {
  }

  lemma LastByteAgain(v: Sextet, w: Sextet, x: Byte)
    requires v == x / 4 && w == x % 4 * 16
    ensures High(v, w) == x
  {
  }

  lemma LastTwoAgain(v: Sextet, w: Sextet, s: Sextet, x: Byte, y: Byte)
    requires v == x / 4 && w == x % 4 * 16 + y / 16 && s == y % 16 * 4
    ensures High(v, w) == x && Middle(w, s) == y
  {
  }

  lemma PackLast(b: seq<Byte>)
    requires |b| == 1
    ensures Pack(Sextets(b)) == Some(b)
  {
    LastByteAgain(Sextets(b)[0], Sextets(b)[1], b[0]);
    assert b == [b[0]];
  }

  lemma PackLastTwo(b: seq<Byte>)
    requires |b| == 2
    ensures Pack(Sextets(b)) == Some(b)
  {
    LastTwoAgain(Sextets(b)[0], Sextets(b)[1], Sextets(b)[2], b[0], b[1]);
    assert b == [b[0], b[1]];
  }

  // The three bytes packed from the first four values.
  lemma PackGroup(b: seq<Byte>)
    requires |b| >= 3
    ensures
      var v := Sextets(b);
      |v| >= 4 && v[4..] == Sextets(b[3..])
      && [High(v[0], v[1]), Middle(v[1], v[2]), Low(v[2], v[3])] == b[..3]
  {
    var v := Sextets(b);
    assert v[4..] == Sextets(b[3..]);
    BytesAgain(v[0], v[1], v[2], v[3], b[0], b[1], b[2]);
  }

  lemma {:induction false} PackRoundTrip(b: seq<Byte>)
    ensures Pack(Sextets(b)) == Some(b)
  {
    if |b| == 0 {
    } else if |b| == 1 {
      PackLast(b);
    } else if |b| == 2 {
      PackLastTwo(b);
    } else {
      PackGroup(b);
      PackRoundTrip(b[3..]);
      assert b == b[..3] + b[3..];
    }
  }

  lemma {:induction false} ValuesOfSpelling(v: seq<Sextet>)
    ensures WithoutLineEnds(Spell(v)) == Spell(v) && Values(Spell(v)) == Some(v)
  {
    if v == [] {
    } else {
      CharRoundTrip(v[0]);
      assert Spell(v)[1..] == Spell(v[1..]);
      ValuesOfSpelling(v[1..]);
      assert [Spell(v)[0]] + Spell(v)[1..] == Spell(v);
      assert [v[0]] + v[1..] == v;
    }
  }

  lemma DecodeEncode(b: seq<Byte>)
    ensures Decode(Encode(b)) == Some(b)
    ensures '$' !in Encode(b)
  {
    EncodeSpells(b);
    ValuesOfSpelling(Sextets(b));
    PackRoundTrip(b);
    forall i | 0 <= i < |Encode(b)|
      ensures Encode(b)[i] != '$'
    {
      CharRoundTrip(Sextets(b)[i]);
    }
  }

  // ---- What the encoding is, bit by bit ----

  // The place of a character in the alphabet A-Z, a-z, 0-9, +, / (by its ASCII code).
  function Place(c: char): int {
    var n := c as int;
    if 65 <= n <= 90 then n - 65
    else if 97 <= n <= 122 then n - 71
    else if 48 <= n <= 57 then n + 4
    else if n == 43 then 62
    else if n == 47 then 63
    else -1
  }

  // Four characters hold the 24 bits of three bytes, in order.
  predicate Group(s: char, t: char, u: char, v: char, x: int, y: int, z: int) {
    && Place(s) >= 0 && Place(t) >= 0 && Place(u) >= 0 && Place(v) >= 0
    && 0x4_0000 * Place(s) + 0x1000 * Place(t) + 0x40 * Place(u) + Place(v) == 0x1_0000 * x + 0x100 * y + z
  }

  lemma PlaceOf(v: Sextet)
    ensures Place(CharOf(v)) == v
  {
  }

  lemma SplitBits(x: int, y: int, z: int)
    requires 0 <= x < 256 && 0 <= y < 256 && 0 <= z < 256
    ensures 0x4_0000 * (x / 4) + 0x1000 * (x % 4 * 16 + y / 16) + 0x40 * (y % 16 * 4 + z / 64) + z % 64
            == 0x1_0000 * x + 0x100 * y + z
  {
  }

  lemma GroupOf(x: Byte, y: Byte, z: Byte)
    ensures Group(CharOf(x / 4), CharOf(x % 4 * 16 + y / 16), CharOf(y % 16 * 4 + z / 64), CharOf(z % 64), x, y, z)
  {
    PlaceOf(x / 4);
    PlaceOf(x % 4 * 16 + y / 16);
    PlaceOf(y % 16 * 4 + z / 64);
    PlaceOf(z % 64);
    SplitBits(x, y, z);
  }

  // Group g of the text holds group g of the bytes. Of one or two bytes that are left over at
  // the end, the text ends with the two or three characters that have bits of them; the other
  // bits are zero.
  ghost predicate Holds(group: (char, char, char, char, int, int, int) -> bool, b: seq<Byte>, s: string, g: nat)
    requires 3 * g < |b|
  {
    var i, k := 3 * g, 4 * g;
    if |b| - i >= 3 then
      && |s| >= k + 4 && (|b| - i == 3 ==> |s| == k + 4)
      && group(s[k], s[k + 1], s[k + 2], s[k + 3], b[i], b[i + 1], b[i + 2])
    else if |b| - i == 2 then |s| == k + 3 && group(s[k], s[k + 1], s[k + 2], 'A', b[i], b[i + 1], 0)
    else |s| == k + 2 && group(s[k], s[k + 1], 'A', 'A', b[i], 0, 0)
  }

  lemma {:induction false} EncodesBits(b: seq<Byte>, g: nat)
    requires 3 * g < |b|
    ensures Holds(Group, b, Encode(b), g)
  {
    if g == 0 {
      FirstGroup(b);
    } else {
      EncodesBits(b[3..], g - 1);
      LaterGroup(Group, b, b[3..], Encode(b), Encode(b[3..]), g);
    }
  }

  lemma LaterGroup(group: (char, char, char, char, int, int, int) -> bool, b: seq<Byte>, b': seq<Byte>, s: string,
                   s': string, g: nat)
    requires 0 < g && 3 * g < |b| && b' == b[3..] && |s| >= 4 && s' == s[4..] && Holds(group, b', s', g - 1)
    ensures Holds(group, b, s, g)
  {
  }

  lemma FirstGroup(b: seq<Byte>)
    requires b != []
    ensures Holds(Group, b, Encode(b), 0)
  {
    if |b| >= 3 {
      GroupOf(b[0], b[1], b[2]);
    } else if |b| == 2 {
      GroupOf(b[0], b[1], 0);
    } else {
      GroupOf(b[0], 0, 0);
    }
  }

  // ---- What the decoder makes of a text ----

  lemma {:induction false} NoLineEnds(s: string)
    requires '\r' !in s && '\n' !in s
    ensures WithoutLineEnds(s) == s
  {
    if s == "" {
    } else {
      NoLineEnds(s[1..]);
      assert s == [s[0]] + s[1..];
    }
  }

  lemma {:induction false} LineEndSkipped(a: string, c: char, b: string)
    requires c == '\r' || c == '\n'
    ensures WithoutLineEnds(a + [c] + b) == WithoutLineEnds(a + b)
  {
    if a == "" {
      assert (a + [c] + b)[1..] == a + b;
    } else {
      LineEndSkipped(a[1..], c, b);
      assert (a + [c] + b)[1..] == a[1..] + [c] + b;
      assert (a + b)[1..] == a[1..] + b;
    }
  }

  lemma ValueIsPlace(c: char)
    ensures ValueOf(c).Some? <==> Place(c) >= 0
    ensures ValueOf(c).Some? ==> ValueOf(c).value == Place(c)
  {
  }

  lemma {:induction false} ValuesArePlaces(s: string)
    ensures Values(s).Some? <==> forall c | c in s :: Place(c) >= 0
    ensures Values(s).Some? ==> |Values(s).value| == |s| && forall i | 0 <= i < |s| :: Values(s).value[i] == Place(s[i])
  {
    if s == "" {
    } else {
      ValueIsPlace(s[0]);
      ValuesArePlaces(s[1..]);
      assert forall c :: c in s <==> c == s[0] || c in s[1..];
    }
  }

  // The bits of whole groups, and of the two or three characters at the end, whose last bits
  // belong to no byte.
  type Bits = (int, int, int, int, int, int, int) -> bool

  predicate Whole(v: int, w: int, s: int, t: int, x: int, y: int, z: int) {
    0x4_0000 * v + 0x1000 * w + 0x40 * s + t == 0x1_0000 * x + 0x100 * y + z
  }

  predicate LastTwo(v: int, w: int, s: int, t: int, x: int, y: int, z: int) {
    (0x1000 * v + 0x40 * w + s) / 4 == 0x100 * x + y
  }

  predicate LastOne(v: int, w: int, s: int, t: int, x: int, y: int, z: int) {
    (0x40 * v + w) / 16 == x
  }

  ghost predicate Read(whole: Bits, two: Bits, one: Bits, v: seq<int>, b: seq<Byte>, g: nat)
    requires 3 * g < |b|
  {
    var i, k := 3 * g, 4 * g;
    if |b| - i >= 3 then |v| >= k + 4 && whole(v[k], v[k + 1], v[k + 2], v[k + 3], b[i], b[i + 1], b[i + 2])
    else if |b| - i == 2 then |v| == k + 3 && two(v[k], v[k + 1], v[k + 2], 0, b[i], b[i + 1], 0)
    else |v| == k + 2 && one(v[k], v[k + 1], 0, 0, b[i], 0, 0)
  }

  lemma PackedWhole(v: Sextet, w: Sextet, s: Sextet, t: Sextet)
    ensures Whole(v, w, s, t, High(v, w), Middle(w, s), Low(s, t))
  {
  }

  lemma PackedLast(v: Sextet, w: Sextet, s: Sextet)
    ensures LastTwo(v, w, s, 0, High(v, w), Middle(w, s), 0)
    ensures LastOne(v, w, 0, 0, High(v, w), 0, 0)
  {
  }

  lemma {:induction false} PackLength(v: seq<Sextet>)
    ensures Pack(v).Some? <==> |v| % 4 != 1
    ensures Pack(v).Some? ==> |Pack(v).value| == 3 * |v| / 4
  {
    if |v| >= 4 {
      PackLength(v[4..]);
    }
  }

  lemma {:induction false} PacksBits(v: seq<Sextet>, g: nat)
    requires Pack(v).Some? && 3 * g < |Pack(v).value|
    ensures Read(Whole, LastTwo, LastOne, v, Pack(v).value, g)
  {
    if g == 0 {
      PackFirst(v);
    } else {
      PacksBits(v[4..], g - 1);
      LaterRead(Whole, LastTwo, LastOne, v, v[4..], Pack(v).value, Pack(v[4..]).value, g);
    }
  }

  lemma PackFirst(v: seq<Sextet>)
    requires Pack(v).Some? && 0 < |Pack(v).value|
    ensures Read(Whole, LastTwo, LastOne, v, Pack(v).value, 0)
  {
    if |v| >= 4 {
      PackedWhole(v[0], v[1], v[2], v[3]);
    } else {
      PackedLast(v[0], v[1], if |v| == 3 then v[2] else 0);
    }
  }

  lemma LaterRead(whole: Bits, two: Bits, one: Bits, v: seq<int>, v': seq<int>, b: seq<Byte>, b': seq<Byte>, g: nat)
    requires 0 < g && 3 * g < |b| && |b| >= 3 && b' == b[3..] && |v| >= 4 && v' == v[4..]
    requires Read(whole, two, one, v', b', g - 1)
    ensures Read(whole, two, one, v, b, g)
  {
  }

  // A text decodes exactly when, line ends apart, it has letters of the alphabet only and does
  // not leave one over after groups of four; and then to the bytes whose bits the letters hold.
  lemma DecodesBits(s: string)
    ensures
      var t := WithoutLineEnds(s);
      && (Decode(s).Some? <==> (forall c | c in t :: Place(c) >= 0) && |t| % 4 != 1)
      && (Decode(s).Some? ==>
            && |Decode(s).value| == 3 * |t| / 4
            && forall g: nat | 3 * g < |Decode(s).value| ::
                 Read(Whole, LastTwo, LastOne, seq(|t|, i requires 0 <= i < |t| => Place(t[i])), Decode(s).value, g))
  {
    var t := WithoutLineEnds(s);
    ValuesArePlaces(t);
    if Values(t).Some? {
      var v := Values(t).value;
      PackLength(v);
      assert v == seq(|t|, i requires 0 <= i < |t| => Place(t[i]));
      forall g: nat | Pack(v).Some? && 3 * g < |Pack(v).value|
        ensures Read(Whole, LastTwo, LastOne, v, Pack(v).value, g)
      {
        PacksBits(v, g);
      }
    }
  }
}
