/** Character and string helpers that stand for the Python string operations the
    ranking engine uses: `in` on strings, `str.strip`, `str.lower`/`str.upper`,
    `int(...)`, `re.findall(r'\d+', ...)` and decimal formatting of integers.
    Only the ASCII part of Python's Unicode tables is modelled. */
module Text {

  datatype Option<T> = None | Some(value: T)

  predicate IsDigit(c: char) { '0' <= c <= '9' }

  function DigitValue(c: char): (d: nat)
    requires IsDigit(c)
    ensures d < 10
  {
    c as int - '0' as int
  }

  function DigitChar(d: nat): (c: char)
    requires d < 10
    ensures IsDigit(c) && DigitValue(c) == d
  {
    (d + '0' as int) as char
  }

  predicate AllDigits(s: string) { forall i :: 0 <= i < |s| ==> IsDigit(s[i]) }

  /** What `str.isspace` accepts among the ASCII characters. */
  predicate IsSpace(c: char) {
    c == ' ' || '\t' <= c <= '\r' || '\U{1c}' <= c <= '\U{1f}'
  }

  function ToLower(c: char): char { if 'A' <= c <= 'Z' then (c as int + 32) as char else c }

  function ToUpper(c: char): char { if 'a' <= c <= 'z' then (c as int - 32) as char else c }

  function Lower(s: string): (r: string)
    ensures |r| == |s| && forall i :: 0 <= i < |s| ==> r[i] == ToLower(s[i])
  {
    if s == [] then [] else [ToLower(s[0])] + Lower(s[1..])
  }

  function Upper(s: string): (r: string)
    ensures |r| == |s| && forall i :: 0 <= i < |s| ==> r[i] == ToUpper(s[i])
  {
    if s == [] then [] else [ToUpper(s[0])] + Upper(s[1..])
  }

  function StripLeft(s: string): (r: string)
    ensures |r| <= |s| && r == s[|s| - |r|..]
    ensures r != [] ==> !IsSpace(r[0])
    ensures forall i :: 0 <= i < |s| - |r| ==> IsSpace(s[i])
  {
    if s != [] && IsSpace(s[0]) then StripLeft(s[1..]) else s
  }

  function StripRight(s: string): (r: string)
    ensures |r| <= |s| && r == s[..|r|]
    ensures r != [] ==> !IsSpace(r[|r| - 1])
    ensures forall i :: |r| <= i < |s| ==> IsSpace(s[i])
  {
    if s != [] && IsSpace(s[|s| - 1]) then StripRight(s[..|s| - 1]) else s
  }

  /** Python's `s.strip()`. */
  function Strip(s: string): string { StripRight(StripLeft(s)) }

  /** Python's `sub in s`. */
  predicate Contains(s: string, sub: string)
    decreases |s|
  {
    if |s| < |sub| then false
    else s[..|sub|] == sub || Contains(s[1..], sub)
  }

  lemma {:induction false} ContainsAt(s: string, sub: string, k: nat)
    requires k + |sub| <= |s| && s[k..k + |sub|] == sub
    ensures Contains(s, sub)
    decreases k
  {
    if k > 0 {
      assert s[1..][k - 1..k - 1 + |sub|] == sub;
      ContainsAt(s[1..], sub, k - 1);
    }
  }

  /** Index of the first occurrence of `c`, or `|s|` when there is none. */
  function IndexOf(s: string, c: char): (k: nat)
    ensures k <= |s|
    ensures k < |s| ==> s[k] == c
    ensures forall i :: 0 <= i < k ==> s[i] != c
  {
    if s == [] then 0 else if s[0] == c then 0 else 1 + IndexOf(s[1..], c)
  }

  /** The value of a digit string read in base ten. */
  function DecimalValue(s: string): nat
    requires AllDigits(s)
  {
    if s == [] then 0 else 10 * DecimalValue(s[..|s| - 1]) + DigitValue(s[|s| - 1])
  }

  /** Python's `str(n)` for a natural number. */
  function Decimal(n: nat): (s: string)
    ensures s != [] && AllDigits(s)
  {
    if n < 10 then [DigitChar(n)] else Decimal(n / 10) + [DigitChar(n % 10)]
  }

  /** Reading back what `Decimal` writes gives the number again. */
  lemma {:induction false} DecimalRoundTrip(n: nat)
    ensures DecimalValue(Decimal(n)) == n
  {
    if n >= 10 {
      var s := Decimal(n);
      assert s[..|s| - 1] == Decimal(n / 10);
      DecimalRoundTrip(n / 10);
    }
  }

  /** Leading zeros do not change the value of a digit string. */
  lemma {:induction false} LeadingZero(s: string)
    requires AllDigits(s)
    ensures DecimalValue("0" + s) == DecimalValue(s)
  {
    if s != [] {
      assert ("0" + s)[..|s|] == "0" + s[..|s| - 1];
      LeadingZero(s[..|s| - 1]);
    }
  }

  /** Python's `f"{n:02d}"`: at least two digits, padded with a zero. */
  function Pad2(n: nat): (s: string)
    ensures AllDigits(s) && |s| >= 2
  {
    if n < 10 then "0" + Decimal(n) else Decimal(n)
  }

  lemma Pad2RoundTrip(n: nat)
    ensures DecimalValue(Pad2(n)) == n
  {
    DecimalRoundTrip(n);
    if n < 10 { LeadingZero(Decimal(n)); }
  }

  lemma Pad2Injective(m: nat, n: nat)
    requires Pad2(m) == Pad2(n)
    ensures m == n
  {
    Pad2RoundTrip(m);
    Pad2RoundTrip(n);
  }

  /** `s` stripped is the non-empty run of digits `u`, with or without a leading `+`. */
  predicate IntLiteral(s: string, u: string) {
    u != [] && AllDigits(u) && (Strip(s) == u || Strip(s) == "+" + u)
  }

  /** Python's `int(s)` on a string holding no `-`: surrounding whitespace, an
      optional `+` and a non-empty run of digits; anything else raises, which is
      `None` here. */
  function ParseInt(s: string): (r: Option<nat>)
    ensures r.Some? <==> exists u :: IntLiteral(s, u)
    ensures forall u :: IntLiteral(s, u) ==> r == Some(DecimalValue(u))
  {
    var t := Strip(s);
    var u := if t != [] && t[0] == '+' then t[1..] else t;
    if u != [] && AllDigits(u) then
      assert IntLiteral(s, u) by {
        if t != [] && t[0] == '+' { assert t == "+" + u; }
      }
      Some(DecimalValue(u))
    else None
  }

  lemma StripDigits(s: string)
    requires s != [] && AllDigits(s)
    ensures Strip(s) == s
  {
    assert !IsSpace(s[0]) && !IsSpace(s[|s| - 1]);
  }

  lemma ParseIntDecimal(n: nat)
    ensures ParseInt(Decimal(n)) == Some(n)
  {
    StripDigits(Decimal(n));
    DecimalRoundTrip(n);
  }

  /** Length of the run of digits at the start of `s`. */
  function DigitRunLength(s: string): (k: nat)
    ensures k <= |s| && AllDigits(s[..k])
    ensures k < |s| ==> !IsDigit(s[k])
  {
    if s != [] && IsDigit(s[0]) then
      var k := 1 + DigitRunLength(s[1..]);
      assert s[..k] == [s[0]] + s[1..][..k - 1];
      k
    else 0
  }

  /** Python's `[int(x) for x in re.findall(r'\d+', s)]`. */
  function DigitRuns(s: string): seq<nat>
    decreases |s|
  {
    if s == [] then []
    else if !IsDigit(s[0]) then DigitRuns(s[1..])
    else
      var k := DigitRunLength(s);
      [DecimalValue(s[..k])] + DigitRuns(s[k..])
  }

  /** The digit run of `d + rest`, with `rest` starting with a non-digit. */
  lemma {:induction false} DigitRunLengthPrefix(d: string, rest: string)
    requires AllDigits(d)
    requires rest == [] || !IsDigit(rest[0])
    ensures DigitRunLength(d + rest) == |d|
    decreases |d|
  {
    if d != [] {
      assert (d + rest)[1..] == d[1..] + rest;
      DigitRunLengthPrefix(d[1..], rest);
    }
  }

  /** A string without digits contributes no digit runs. */
  lemma {:induction false} DigitRunsSkip(p: string, s: string)
    requires forall i :: 0 <= i < |p| ==> !IsDigit(p[i])
    ensures DigitRuns(p + s) == DigitRuns(s)
    decreases |p|
  {
    if p != [] {
      var q := p + s;
      assert q != [] && q[0] == p[0] && !IsDigit(q[0]);
      assert q[1..] == p[1..] + s;
      assert DigitRuns(q) == DigitRuns(q[1..]);
      DigitRunsSkip(p[1..], s);
    } else {
      assert p + s == s;
    }
  }

  /** A digit string followed by a non-digit is read as one number. */
  lemma DigitRunsNumber(n: nat, rest: string)
    requires rest == [] || !IsDigit(rest[0])
    ensures DigitRuns(Decimal(n) + rest) == [n] + DigitRuns(rest)
  {
    var d := Decimal(n);
    DigitRunLengthPrefix(d, rest);
    assert (d + rest)[..|d|] == d;
    assert (d + rest)[|d|..] == rest;
    DecimalRoundTrip(n);
  }
}
