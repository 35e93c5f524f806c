/** The C and C++ runtime routines the tool relies on, over strings without NUL
    characters: `strtol` in base 10 with the Windows 32-bit `long`, the decimal
    form `operator<<` writes for an integer, `std::string::find` and the
    `rfind(prefix, 0) == 0` prefix test. */
module CRuntime {
  import opened Win32

  const LONG_MIN: int := -0x8000_0000
  const LONG_MAX: int := 0x7FFF_FFFF

  /** `isspace` in the C locale. */
  predicate IsSpace(c: char) {
    c == ' ' || c == '\t' || c == '\n' || c == '\U{B}' || c == '\U{C}' || c == '\r'
  }

  predicate IsDigit(c: char) {
    '0' <= c <= '9'
  }

  function DigitValue(c: char): (d: nat)
    requires IsDigit(c)
    ensures d < 10
  {
    c as int - '0' as int
  }

  function DigitChar(d: nat): (c: char)
    requires d < 10
    ensures IsDigit(c) && DigitValue(c) == d
  {
    ('0' as int + d) as char
  }

  /** The number of leading white-space characters of `s`. */
  function LeadingSpaces(s: string): (n: nat)
    ensures n <= |s|
    ensures forall k :: 0 <= k < n ==> IsSpace(s[k])
    ensures n < |s| ==> !IsSpace(s[n])
  {
    if |s| > 0 && IsSpace(s[0]) then 1 + LeadingSpaces(s[1..]) else 0
  }

  /** The length of the longest prefix of `s` made of decimal digits. */
  function DigitRun(s: string): (n: nat)
    ensures n <= |s|
    ensures forall k :: 0 <= k < n ==> IsDigit(s[k])
    ensures n < |s| ==> !IsDigit(s[n])
  {
    if |s| > 0 && IsDigit(s[0]) then 1 + DigitRun(s[1..]) else 0
  }

  /** The value of a string of decimal digits, most significant first. */
  function DigitsValue(s: string): nat
    requires forall k :: 0 <= k < |s| ==> IsDigit(s[k])
  {
    if s == [] then 0 else DigitsValue(s[..|s| - 1]) * 10 + DigitValue(s[|s| - 1])
  }

  /** What `strtol` returns for a value outside the range of `long`. */
  function ClampLong(v: int): (r: int32)
    ensures LONG_MIN <= v <= LONG_MAX ==> r as int == v
    ensures v > LONG_MAX ==> r as int == LONG_MAX
    ensures v < LONG_MIN ==> r as int == LONG_MIN
  {
    if v > LONG_MAX then LONG_MAX as int32 else if v < LONG_MIN then LONG_MIN as int32 else v as int32
  }

  /** The value `strtol` returns and the number of characters it consumed
      (`end - s`); `consumed == 0` when no conversion was performed. */
  datatype Conversion = Conversion(value: int32, consumed: nat)

  /** `strtol(s, &end, 10)`: optional leading white space, an optional sign, then
      decimal digits; no digits means no conversion. */
  function Strtol(s: string): (r: Conversion)
    ensures r.consumed <= |s|
    ensures r.consumed == 0 ==> r.value == 0
    ensures r.consumed > 0 ==> IsDigit(s[r.consumed - 1])
  {
    var ws := LeadingSpaces(s);
    var c := SignedDigits(s[ws..]);
    if c.consumed == 0 then c else Conversion(c.value, ws + c.consumed)
  }

  /** The part of `strtol` after the white space: an optional sign, then decimal
      digits; no digits means no conversion. */
  function SignedDigits(rest: string): (r: Conversion)
    ensures r.consumed <= |rest|
    ensures r.consumed == 0 ==> r.value == 0
    ensures r.consumed > 0 ==> IsDigit(rest[r.consumed - 1])
  {
    var sign := if |rest| > 0 && (rest[0] == '+' || rest[0] == '-') then 1 else 0;
    var body := rest[sign..];
    var digits := DigitRun(body);
    if digits == 0 then Conversion(0, 0)
    else
      var magnitude: int := DigitsValue(body[..digits]);
      var value: int := if sign == 1 && rest[0] == '-' then -magnitude else magnitude;
      Conversion(ClampLong(value), sign + digits)
  }

  /** The decimal digits of a natural number, without leading zeros. */
  function NatToDecimal(n: nat): (s: string)
    ensures |s| > 0
    ensures forall k :: 0 <= k < |s| ==> IsDigit(s[k])
    ensures DigitsValue(s) == n
    ensures s[0] == '0' ==> n == 0
  {
    if n < 10 then [DigitChar(n)]
    else
      var prefix := NatToDecimal(n / 10);
      var s := prefix + [DigitChar(n % 10)];
      assert s[..|s| - 1] == prefix;
      assert s[0] == prefix[0];
      s
  }

  /** What `std::ostringstream << v` writes for an integer `v`. */
  function IntToString(v: int): (s: string)
    ensures |s| > 0
    ensures v >= 0 ==> IsDigit(s[0])
    ensures v < 0 ==> s[0] == '-'
    ensures s[0] == '0' ==> v == 0
    ensures v < 0 ==> |s| > 1 && s[1] != '0'
  {
    if v < 0 then
      var digits := NatToDecimal(-v);
      assert ("-" + digits)[1] == digits[0];
      "-" + digits
    else NatToDecimal(v)
  }

  /** `strtol` reads back exactly what `operator<<` writes, clamped to `long`. */
  lemma StrtolOfIntToString(v: int)
    ensures Strtol(IntToString(v)) == Conversion(ClampLong(v), |IntToString(v)|)
  {
    var s := IntToString(v);
    if v < 0 {
      assert s[1..] == NatToDecimal(-v);
      StrtolOfSignedDigits(s);
    } else {
      StrtolOfDigits(s);
    }
  }

  /** `strtol` of a run of digits reads all of it. */
  lemma StrtolOfDigits(d: string)
    requires |d| > 0 && forall k :: 0 <= k < |d| ==> IsDigit(d[k])
    ensures Strtol(d) == Conversion(ClampLong(DigitsValue(d)), |d|)
  {
    StrtolWithoutSpaces(d);
    AllDigitsRun(d);
    assert d[0..] == d;
    assert d[..|d|] == d;
  }

  /** `strtol` of a sign followed by a run of digits reads all of it; a minus
      sign negates the value. */
  lemma StrtolOfSignedDigits(s: string)
    requires |s| > 1 && (s[0] == '+' || s[0] == '-') && forall k :: 1 <= k < |s| ==> IsDigit(s[k])
    ensures Strtol(s) == Conversion(ClampLong(if s[0] == '-' then -(DigitsValue(s[1..]) as int) else DigitsValue(s[1..])), |s|)
  {
    StrtolWithoutSpaces(s);
    var body := s[1..];
    AllDigitsRun(body);
    assert body[..|body|] == body;
  }

  /** When no digit follows the white space and the optional sign, `strtol`
      converts nothing: the value is 0 and `end == s`. */
  lemma StrtolNoDigits(s: string)
    requires var rest := s[LeadingSpaces(s)..];
      var sign := if |rest| > 0 && (rest[0] == '+' || rest[0] == '-') then 1 else 0;
      |rest| == sign || !IsDigit(rest[sign])
    ensures Strtol(s) == Conversion(0, 0)
  {
    var rest := s[LeadingSpaces(s)..];
    var sign := if |rest| > 0 && (rest[0] == '+' || rest[0] == '-') then 1 else 0;
    assert DigitRun(rest[sign..]) == 0;
  }

  /** `strtol` skips leading white space: the rest converts to the same value,
      and the white space is consumed with it when there is a conversion. */
  lemma StrtolSkipsSpaces(ws: string, s: string)
    requires forall k :: 0 <= k < |ws| ==> IsSpace(ws[k])
    requires |s| == 0 || !IsSpace(s[0])
    ensures Strtol(ws + s).value == Strtol(s).value
    ensures Strtol(ws + s).consumed == if Strtol(s).consumed == 0 then 0 else |ws| + Strtol(s).consumed
  {
    var t := ws + s;
    assert t[..|ws|] == ws;
    assert |ws| < |t| ==> t[|ws|] == s[0];
    LeadingSpacesUnique(t, |ws|);
    var n := LeadingSpaces(t);
    assert t[n..] == s;
    assert LeadingSpaces(s) == 0 by {
      if |s| > 0 { assert !IsSpace(s[0]); }
    }
    assert s[0..] == s;
  }

  /** `strtol` stops at the first character that cannot continue the number:
      what follows a complete conversion does not change it. */
  lemma StrtolStopsAtNonDigit(s: string, t: string)
    requires |s| > 0 && Strtol(s).consumed == |s|
    requires |t| == 0 || !IsDigit(t[0])
    ensures Strtol(s + t) == Strtol(s)
  {
    var ws := LeadingSpaces(s);
    var rest := s[ws..];
    assert ws < |s| && SignedDigits(rest).consumed == |rest|;
    var st := s + t;
    assert st[..ws + 1] == s[..ws + 1];
    LeadingSpacesUnique(st, ws);
    assert st[ws..] == rest + t;
    SignedDigitsStopsAtNonDigit(rest, t);
  }

  /** The same fact after the white space. */
  lemma SignedDigitsStopsAtNonDigit(rest: string, t: string)
    requires |rest| > 0 && SignedDigits(rest).consumed == |rest|
    requires |t| == 0 || !IsDigit(t[0])
    ensures SignedDigits(rest + t) == SignedDigits(rest)
  {
    var rt := rest + t;
    assert rt[0] == rest[0];
    var sign := if rest[0] == '+' || rest[0] == '-' then 1 else 0;
    var body := rest[sign..];
    assert sign + DigitRun(body) == |rest|;
    if sign == 1 {
      assert rt[1..] == body + t;
    } else {
      assert rt[0..] == body + t;
    }
    DigitRunStopsAtNonDigit(body, t);
    assert (body + t)[..|body|] == body[..|body|];
  }

  /** A run of digits followed by a non-digit ends where the digits end. */
  lemma DigitRunStopsAtNonDigit(body: string, t: string)
    requires DigitRun(body) == |body|
    requires |t| == 0 || !IsDigit(t[0])
    ensures DigitRun(body + t) == |body|
  {
    var bt := body + t;
    assert bt[..|body|] == body;
    assert |body| < |bt| ==> bt[|body|] == t[0];
    DigitRunUnique(bt, |body|);
  }

  /** The white-space prefix is the one that ends at the first other character. */
  lemma {:induction false} LeadingSpacesUnique(s: string, m: nat)
    requires m <= |s| && forall k :: 0 <= k < m ==> IsSpace(s[k])
    requires m < |s| ==> !IsSpace(s[m])
    ensures LeadingSpaces(s) == m
  {
    if m > 0 {
      LeadingSpacesUnique(s[1..], m - 1);
    }
  }

  /** The digit prefix is the one that ends at the first non-digit. */
  lemma {:induction false} DigitRunUnique(s: string, m: nat)
    requires m <= |s| && forall k :: 0 <= k < m ==> IsDigit(s[k])
    requires m < |s| ==> !IsDigit(s[m])
    ensures DigitRun(s) == m
  {
    if m > 0 {
      DigitRunUnique(s[1..], m - 1);
    }
  }

  /** A leading zero before a run of digits is consumed and changes nothing else. */
  lemma StrtolOfZeroDigits(d: string)
    requires |d| > 0 && forall k :: 0 <= k < |d| ==> IsDigit(d[k])
    ensures Strtol("0" + d) == Conversion(ClampLong(DigitsValue(d)), |d| + 1)
  {
    LeadingZeroValue(d);
    StrtolOfDigits("0" + d);
  }

  /** A leading zero adds nothing to the value of a run of digits. */
  lemma {:induction false} LeadingZeroValue(d: string)
    requires forall k :: 0 <= k < |d| ==> IsDigit(d[k])
    ensures DigitsValue("0" + d) == DigitsValue(d)
  {
    var z := "0" + d;
    if |d| == 0 {
      assert z[..0] == [];
    } else {
      var front := d[..|d| - 1];
      assert z[..|z| - 1] == "0" + front;
      LeadingZeroValue(front);
    }
  }

  /** Without leading white space `strtol` starts at the sign. */
  lemma StrtolWithoutSpaces(s: string)
    requires |s| > 0 && !IsSpace(s[0])
    ensures Strtol(s) == SignedDigits(s)
  {
    assert s[0..] == s;
  }

  lemma {:induction false} AllDigitsRun(s: string)
    requires forall k :: 0 <= k < |s| ==> IsDigit(s[k])
    ensures DigitRun(s) == |s|
  {
    if |s| > 0 {
      AllDigitsRun(s[1..]);
    }
  }

  /** Two integers that print alike are equal. */
  lemma IntToStringInjective(v: int, w: int)
    requires IntToString(v) == IntToString(w)
    requires LONG_MIN <= v <= LONG_MAX && LONG_MIN <= w <= LONG_MAX
    ensures v == w
  {
    StrtolOfIntToString(v);
    StrtolOfIntToString(w);
  }

  /** The comparison `s.rfind(prefix, 0) == 0`: `s` starts with `prefix`. */
  predicate StartsWith(s: string, prefix: string) {
    |prefix| <= |s| && s[..|prefix|] == prefix
  }

  /** `needle` occurs in `hay` at position `i`. */
  predicate OccursAt(hay: string, needle: string, i: nat) {
    i + |needle| <= |hay| && hay[i..i + |needle|] == needle
  }

  /** `hay.find(needle) != std::string::npos`, scanning from the left. */
  function Contains(hay: string, needle: string): bool {
    if StartsWith(hay, needle) then true
    else if hay == [] then false
    else Contains(hay[1..], needle)
  }

  /** The scan finds `needle` exactly when it occurs somewhere in `hay`. */
  lemma {:induction false} ContainsIff(hay: string, needle: string)
    ensures Contains(hay, needle) <==> exists i: nat :: OccursAt(hay, needle, i)
  {
    if StartsWith(hay, needle) {
      assert OccursAt(hay, needle, 0);
    } else if hay != [] {
      ContainsIff(hay[1..], needle);
      if exists i: nat :: OccursAt(hay[1..], needle, i) {
        var i: nat :| OccursAt(hay[1..], needle, i);
        assert hay[i + 1..i + 1 + |needle|] == hay[1..][i..i + |needle|];
        assert OccursAt(hay, needle, i + 1);
      }
      if exists i: nat :: OccursAt(hay, needle, i) {
        var i: nat :| OccursAt(hay, needle, i);
        assert i != 0;
        assert hay[1..][i - 1..i - 1 + |needle|] == hay[i..i + |needle|];
        assert OccursAt(hay[1..], needle, i - 1);
      }
    }
  }
}
