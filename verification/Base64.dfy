/** base64url without padding: the alphabet of section 5 of RFC 4648, no padding as
    in section 3.2, decoded the lenient way Go's RawURLEncoding does. */
module Base64 {
  import opened Wrappers

  type Byte = b: int | 0 <= b < 256
  type Sextet = v: int | 0 <= v < 64

  function Letter(v: Sextet): (c: char)
    ensures Value(c) == Some(v)
  {
    if v < 26 then ('A' as int + v) as char
    else if v < 52 then ('a' as int + v - 26) as char
    else if v < 62 then ('0' as int + v - 52) as char
    else if v == 62 then '-' else '_'
  }

  function Value(c: char): (r: Option<Sextet>) {
    if 'A' <= c <= 'Z' then Some(c as int - 'A' as int)
    else if 'a' <= c <= 'z' then Some(c as int - 'a' as int + 26)
    else if '0' <= c <= '9' then Some(c as int - '0' as int + 52)
    else if c == '-' then Some(62)
    else if c == '_' then Some(63)
    else None
  }

  lemma LetterOfValue(c: char)
    ensures Value(c).Some? ==> Letter(Value(c).value) == c
  {
  }

  function Letters(vs: seq<Sextet>): (s: string)
    ensures |s| == |vs|
  {
    if vs == [] then "" else [Letter(vs[0])] + Letters(vs[1..])
  }

  // The four six-bit values of three bytes.
  function Top(a: int): int { a / 4 }
  function Upper(a: int, b: int): int { a % 4 * 16 + b / 16 }
  function Lower(b: int, c: int): int { b % 16 * 4 + c / 64 }
  function Bottom(c: int): int { c % 64 }

  /** Six-bit groups, most significant first; the last group is zero-filled. */
  function Sextets(b: seq<Byte>): (vs: seq<Sextet>) {
    if |b| == 0 then []
    else if |b| == 1 then [Top(b[0]), Upper(b[0], 0)]
    else if |b| == 2 then [Top(b[0]), Upper(b[0], b[1]), Lower(b[1], 0)]
    else [Top(b[0]), Upper(b[0], b[1]), Lower(b[1], b[2]), Bottom(b[2])] + Sextets(b[3..])
  }

  function Encode(b: seq<Byte>): string { Letters(Sextets(b)) }

  // ---------- decoding ----------

  /** The decoder skips carriage returns and line feeds wherever they are. */
  function StripNewlines(s: string): (t: string)
    ensures '\r' !in t && '\n' !in t
    ensures '\r' !in s && '\n' !in s <==> t == s
    ensures |t| <= |s|
  {
    if s == "" then ""
    else if s[0] == '\r' || s[0] == '\n' then StripNewlines(s[1..])
    else
      assert s == [s[0]] + s[1..];
      [s[0]] + StripNewlines(s[1..])
  }

  function Values(s: string): (r: Option<seq<Sextet>>)
    ensures r.Some? ==> |r.value| == |s| && Letters(r.value) == s
  {
    if s == "" then Some([])
    else
      match (Value(s[0]), Values(s[1..]))
      case (Some(v), Some(vs)) =>
        LetterOfValue(s[0]);
        assert ([v] + vs)[1..] == vs;
        Some([v] + vs)
      case _ => None
  }

  // The three bytes of a group of four.
  function First(u: int, v: int): (b: int) { u * 4 + v / 16 }
  function Second(v: int, w: int): (b: int) { v % 16 * 16 + w / 4 }
  function Third(w: int, x: int): (b: int) { w % 4 * 64 + x }

  /** One leftover character is an error; the unused low bits of a short last group
      are dropped without a look. */
  function Bytes(vs: seq<Sextet>): (r: Option<seq<Byte>>) {
    if |vs| == 0 then Some([])
    else if |vs| == 1 then None
    else if |vs| == 2 then Some([First(vs[0], vs[1])])
    else if |vs| == 3 then Some([First(vs[0], vs[1]), Second(vs[1], vs[2])])
    else
      match Bytes(vs[4..])
      case None => None
      case Some(rest) => Some([First(vs[0], vs[1]), Second(vs[1], vs[2]), Third(vs[2], vs[3])] + rest)
  }

  function Decode(s: string): (r: Option<seq<Byte>>) {
    match Values(StripNewlines(s))
    case None => None
    case Some(vs) => Bytes(vs)
  }

  // ---------- the codec loses nothing ----------

  lemma {:induction false} ValuesOfLetters(vs: seq<Sextet>)
    ensures Values(Letters(vs)) == Some(vs)
    ensures '\r' !in Letters(vs) && '\n' !in Letters(vs)
  {
    if vs != [] {
      ValuesOfLetters(vs[1..]);
      assert Letters(vs)[1..] == Letters(vs[1..]);
      assert [vs[0]] + vs[1..] == vs;
    }
  }

  lemma ByteGroup(a: Byte, b: Byte, c: Byte)
    ensures First(Top(a), Upper(a, b)) == a && Second(Upper(a, b), Lower(b, c)) == b && Third(Lower(b, c), Bottom(c)) == c
  {
  }

  lemma {:induction false} BytesOfSextets(b: seq<Byte>)
    ensures Bytes(Sextets(b)) == Some(b)
  {
    hide Top, Upper, Lower, Bottom, First, Second, Third;
    if |b| >= 3 {
      BytesOfSextets(b[3..]);
      ByteGroup(b[0], b[1], b[2]);
      assert Sextets(b)[4..] == Sextets(b[3..]);
      assert b == [b[0], b[1], b[2]] + b[3..];
    } else if |b| == 2 {
      ByteGroup(b[0], b[1], 0);
      assert b == [b[0], b[1]];
    } else if |b| == 1 {
      ByteGroup(b[0], 0, 0);
      assert b == [b[0]];
    }
  }

  lemma RoundTrip(b: seq<Byte>)
    ensures Decode(Encode(b)) == Some(b)
    ensures b != [] ==> Encode(b) != ""
  {
    ValuesOfLetters(Sextets(b));
    BytesOfSextets(b);
    assert StripNewlines(Encode(b)) == Encode(b);
  }

  /** The bits a short last group leaves unused are zero. */
  predicate ZeroTail(vs: seq<Sextet>) {
    if |vs| % 4 == 2 then vs[|vs| - 1] % 16 == 0
    else if |vs| % 4 == 3 then vs[|vs| - 1] % 4 == 0
    else true
  }

  lemma GroupBack(u: Sextet, v: Sextet, w: Sextet, x: Sextet)
    ensures Top(First(u, v)) == u && Upper(First(u, v), Second(v, w)) == v
    ensures Lower(Second(v, w), Third(w, x)) == w && Bottom(Third(w, x)) == x
  {
  }

  lemma ShortBack(u: Sextet, v: Sextet, w: Sextet)
    ensures Upper(First(u, v), 0) == v <==> v % 16 == 0
    ensures Lower(Second(v, w), 0) == w <==> w % 4 == 0
  {
    assert First(u, v) % 4 == v / 16;
    assert Second(v, w) % 16 == w / 4;
  }

  lemma GroupStep(vs: seq<Sextet>)
    requires |vs| >= 4 && Bytes(vs).Some?
    ensures Bytes(vs[4..]).Some?
    ensures Sextets(Bytes(vs).value) == vs[..4] + Sextets(Bytes(vs[4..]).value)
  {
    hide Top, Upper, Lower, Bottom, First, Second, Third;
    GroupBack(vs[0], vs[1], vs[2], vs[3]);
    assert Bytes(vs).value[3..] == Bytes(vs[4..]).value;
    assert vs[..4] == [vs[0], vs[1], vs[2], vs[3]];
  }

  lemma TwoLeft(vs: seq<Sextet>)
    requires |vs| == 2
    ensures Sextets(Bytes(vs).value) == vs <==> vs[1] % 16 == 0
  {
    hide Top, Upper, Lower, Bottom, First, Second, Third;
    GroupBack(vs[0], vs[1], 0, 0);
    ShortBack(vs[0], vs[1], 0);
    assert Sextets(Bytes(vs).value) == [vs[0], Upper(First(vs[0], vs[1]), 0)];
  }

  lemma ThreeLeft(vs: seq<Sextet>)
    requires |vs| == 3
    ensures Sextets(Bytes(vs).value) == vs <==> vs[2] % 4 == 0
  {
    hide Top, Upper, Lower, Bottom, First, Second, Third;
    GroupBack(vs[0], vs[1], vs[2], 0);
    ShortBack(vs[0], vs[1], vs[2]);
    assert Sextets(Bytes(vs).value) == [vs[0], vs[1], Lower(Second(vs[1], vs[2]), 0)];
  }

  lemma NoneLeft(vs: seq<Sextet>)
    requires |vs| < 2 && Bytes(vs).Some?
    ensures vs == [] && Sextets(Bytes(vs).value) == vs
  {
  }

  lemma {:induction false} SextetsOfBytes(vs: seq<Sextet>)
    requires Bytes(vs).Some?
    ensures Sextets(Bytes(vs).value) == vs <==> ZeroTail(vs)
  {
    hide Sextets, Bytes;
    if |vs| >= 4 {
      GroupStep(vs);
      SextetsOfBytes(vs[4..]);
      var rest := Sextets(Bytes(vs[4..]).value);
      assert vs == vs[..4] + vs[4..];
      assert (vs[..4] + rest)[4..] == rest;
    } else if |vs| == 3 {
      ThreeLeft(vs);
    } else if |vs| == 2 {
      TwoLeft(vs);
    } else {
      NoneLeft(vs);
    }
  }

  /** An accepted string is the canonical encoding of what it decodes to exactly when
      it has no line breaks and no stray low bits. */
  lemma CanonicalIff(s: string)
    requires Decode(s).Some?
    ensures Encode(Decode(s).value) == s <==>
      '\r' !in s && '\n' !in s && ZeroTail(Values(StripNewlines(s)).value)
  {
    var t := StripNewlines(s);
    var vs := Values(t).value;
    SextetsOfBytes(vs);
    ValuesOfLetters(Sextets(Decode(s).value));
  }
}
