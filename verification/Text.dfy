module Wrappers {
  datatype Option<+T> = None | Some(value: T)
}

/** The string functions of Go's `strings` and `strconv` that the cron parser and
    the list cursor use. */
module Text {
  import opened Wrappers

  // ---------- strings.Split, strings.SplitN(_, _, 2), strings.Join ----------

  function Join(parts: seq<string>, sep: char): string
    requires |parts| > 0
  {
    if |parts| == 1 then parts[0] else parts[0] + [sep] + Join(parts[1..], sep)
  }

  /** Cuts at the first separator. */
  function Cut(s: string, sep: char): (r: Option<(string, string)>)
    ensures r.Some? <==> sep in s
    ensures r.Some? ==> s == r.value.0 + [sep] + r.value.1 && sep !in r.value.0
  {
    if s == "" then None
    else if s[0] == sep then Some(("", s[1..]))
    else
      match Cut(s[1..], sep)
      case None => None
      case Some((a, b)) => Some(([s[0]] + a, b))
  }

  /** Cutting a joined pair gives the pair back, whatever the second half holds. */
  lemma {:induction false} CutOfPair(a: string, sep: char, b: string)
    requires sep !in a
    ensures Cut(a + [sep] + b, sep) == Some((a, b))
  {
    var s := a + [sep] + b;
    if a == "" {
      assert s[1..] == b;
    } else {
      CutOfPair(a[1..], sep, b);
      assert s[0] == a[0] && a[0] in a;
      assert s[1..] == a[1..] + [sep] + b;
      assert [a[0]] + a[1..] == a;
    }
  }

  function Split(s: string, sep: char): (parts: seq<string>)
    ensures |parts| >= 1
    ensures forall p :: p in parts ==> sep !in p
    ensures Join(parts, sep) == s
    decreases |s|
  {
    match Cut(s, sep)
    case None => [s]
    case Some((a, b)) => [a] + Split(b, sep)
  }

  // ---------- unicode.IsSpace, strings.TrimSpace, strings.Fields ----------

  predicate IsSpace(c: char) {
    var n := c as int;
    || 9 <= n <= 13 || n == 32 || n == 0x85 || n == 0xA0
    || n == 0x1680 || 0x2000 <= n <= 0x200A
    || n == 0x2028 || n == 0x2029 || n == 0x202F || n == 0x205F || n == 0x3000
  }

  predicate NoSpace(s: string) {
    forall c :: c in s ==> !IsSpace(c)
  }

  function TrimSpace(s: string): (t: string)
    ensures NoSpace(s) ==> t == s
  {
    if s == "" then s
    else if IsSpace(s[0]) then TrimSpace(s[1..])
    else if IsSpace(s[|s| - 1]) then TrimSpace(s[..|s| - 1])
    else s
  }

  function SpanLength(s: string): (n: nat)
    ensures n <= |s| && NoSpace(s[..n])
    ensures n < |s| ==> IsSpace(s[n])
  {
    if s == "" || IsSpace(s[0]) then 0
    else
      var n := SpanLength(s[1..]);
      assert s[..n + 1] == [s[0]] + s[1..][..n];
      n + 1
  }

  /** The maximal runs of non-space characters. */
  function Fields(s: string): (fs: seq<string>)
    ensures forall f :: f in fs ==> f != "" && NoSpace(f)
    decreases |s|
  {
    if s == "" then []
    else if IsSpace(s[0]) then Fields(s[1..])
    else
      var n := SpanLength(s);
      [s[..n]] + Fields(s[n..])
  }

  // ---------- strconv.ParseInt(_, 10, 64), strconv.Atoi, fmt's %d ----------

  const INT64_MIN := -0x8000_0000_0000_0000
  const INT64_MAX := 0x7FFF_FFFF_FFFF_FFFF

  predicate IsDigit(c: char) { '0' <= c <= '9' }

  predicate AllDigits(s: string) {
    forall c :: c in s ==> IsDigit(c)
  }

  function DigitChar(d: nat): (c: char)
    requires d < 10
    ensures IsDigit(c) && c as int == '0' as int + d
  {
    ('0' as int + d) as char
  }

  function DigitsValue(s: string): (n: nat)
    requires AllDigits(s)
  {
    if s == "" then 0
    else
      assert IsDigit(s[|s| - 1]);
      10 * DigitsValue(s[..|s| - 1]) + (s[|s| - 1] as int - '0' as int)
  }

  function FormatNat(n: nat): (s: string)
    ensures s != "" && AllDigits(s)
  {
    if n < 10 then [DigitChar(n)] else FormatNat(n / 10) + [DigitChar(n % 10)]
  }

  lemma {:induction false} FormatNatValue(n: nat)
    ensures DigitsValue(FormatNat(n)) == n
  {
    if n < 10 {
      assert [DigitChar(n)][..0] == "";
    } else {
      FormatNatValue(n / 10);
      var s := FormatNat(n);
      assert s[..|s| - 1] == FormatNat(n / 10);
    }
  }

  /** fmt's %d. */
  function FormatInt(n: int): (s: string)
    ensures s != ""
    ensures forall c :: c in s ==> c == '-' || IsDigit(c)
  {
    if n < 0 then "-" + FormatNat(-n) else FormatNat(n)
  }

  /** An optional sign, then one or more digits, with a value that fits 64 bits. */
  function ParseInt(s: string): (r: Option<int>)
    ensures r.Some? ==> INT64_MIN <= r.value <= INT64_MAX
  {
    if s == "" then None
    else
      var signed := s[0] == '-' || s[0] == '+';
      var digits := if signed then s[1..] else s;
      if digits == "" || !AllDigits(digits) then None
      else
        var n: int := DigitsValue(digits);
        var v: int := if s[0] == '-' then -n else n;
        if INT64_MIN <= v <= INT64_MAX then Some(v) else None
  }

  lemma ParseOfFormat(n: int)
    requires INT64_MIN <= n <= INT64_MAX
    ensures ParseInt(FormatInt(n)) == Some(n)
  {
    if n < 0 {
      FormatNatValue(-n);
      assert FormatInt(n)[1..] == FormatNat(-n);
    } else {
      FormatNatValue(n);
      assert FormatNat(n)[0] in FormatNat(n);
    }
  }

  lemma FormatIntInjective(m: int, n: int)
    requires FormatInt(m) == FormatInt(n)
    ensures m == n
  {
    SignOf(m);
    SignOf(n);
    FormatNatValue(if m < 0 then -m else m);
    FormatNatValue(if n < 0 then -n else n);
    if m < 0 {
      assert FormatInt(m)[1..] == FormatNat(-m);
      assert FormatInt(n)[1..] == FormatNat(-n);
    }
  }

  lemma SignOf(n: int)
    ensures n < 0 <==> FormatInt(n)[0] == '-'
  {
    assert n >= 0 ==> FormatNat(n)[0] in FormatNat(n);
  }
}
