/**
  The decimal text that crosses the sysfs boundary of the mini-project: what
  printf writes, what kstrtouint, kstrtoint and fscanf make of it, and why no
  value is lost on the way.
 */
module SysfsText {
  import opened CInt

  datatype Option<+T> = None | Some(value: T)

  // ---- Printing ----

  function Digit(d: nat): char
    requires d < 10
  {
    (d + '0' as int) as char
  }

  predicate IsDigit(c: char) { '0' <= c <= '9' }

  predicate AllDigits(s: string) { forall i :: 0 <= i < |s| ==> IsDigit(s[i]) }

  /** The digits that "%u" prints for n. */
  function Decimal(n: nat): (s: string)
    ensures |s| > 0 && AllDigits(s)
  {
    if n < 10 then [Digit(n)] else Decimal(n / 10) + [Digit(n % 10)]
  }

  /** "%u\n", the line both sides write for a period or a mode. */
  function Line(n: nat): string { Decimal(n) + "\n" }

  /** "%u.%03u\n" of a temperature in millidegrees. */
  function TemperatureLine(milli: nat): string {
    var f := milli % 1000;
    Dotted(Decimal(milli / 1000), [Digit(f / 100), Digit(f / 10 % 10), Digit(f % 10)])
  }

  function Dotted(whole: string, frac: string): string { whole + ("." + (frac + "\n")) }

  // ---- Parsing ----

  /** The number of digits at the front of s. */
  function DigitPrefix(s: string): (k: nat)
    ensures k <= |s| && AllDigits(s[..k])
    ensures k < |s| ==> !IsDigit(s[k])
  {
    if s == "" || !IsDigit(s[0]) then 0 else
      var k := 1 + DigitPrefix(s[1..]);
      assert s[..k] == [s[0]] + s[1..][..k - 1];
      k
  }

  function Value(s: string): nat
    requires AllDigits(s)
  {
    if s == "" then 0 else Value(s[..|s| - 1]) * 10 + (s[|s| - 1] as int - '0' as int)
  }

  /** A plain unsigned number, optionally ended by one newline, and nothing after it. */
  function ParseWhole(s: string): Option<nat> {
    var k := DigitPrefix(s);
    if k > 0 && (s[k..] == "" || s[k..] == "\n") then Some(Value(s[..k])) else None
  }

  function AfterPlus(s: string): string { if s != "" && s[0] == '+' then s[1..] else s }

  /** kstrtouint(s, 10, ..): None stands for its error returns. */
  function Kstrtouint(s: string): Option<nat> {
    match ParseWhole(AfterPlus(s))
    case Some(v) => if v < U32 then Some(v) else None
    case None => None
  }

  /** kstrtoint(s, 10, ..) */
  function Kstrtoint(s: string): Option<int> {
    var negative := s != "" && s[0] == '-';
    var p := ParseWhole(if negative then s[1..] else AfterPlus(s));
    if p.None? then None
    else if negative then SignedInRange(0 - p.value)
    else SignedInRange(p.value)
  }

  function SignedInRange(v: int): Option<int> {
    if -INT_MAX - 1 <= v <= INT_MAX then Some(v) else None
  }

  /** fscanf("%u") on a line without sign or leading blanks: None when nothing converts. */
  function ScanUnsigned(s: string): Option<nat> {
    var k := DigitPrefix(s);
    if k > 0 then Some(Value(s[..k])) else None
  }

  /** Reads a rendered temperature back, in millidegrees. */
  function DecodeTemperature(s: string): Option<nat> {
    var k := DigitPrefix(s);
    if 0 < k && k + 4 < |s| && s[k] == '.' && DigitPrefix(s[k + 1..]) == 3
    then Some(Value(s[..k]) * 1000 + Value(s[k + 1..][..3]))
    else None
  }

  // ---- Round trips ----

  lemma {:induction false} ValueOfDecimal(n: nat)
    ensures Value(Decimal(n)) == n
  {
    var s := Decimal(n);
    if n >= 10 {
      ValueOfDecimal(n / 10);
      assert s[..|s| - 1] == Decimal(n / 10);
    } else {
      assert s[..|s| - 1] == "";
    }
  }

  lemma {:induction false} PrefixStopsAt(d: string, rest: string)
    requires AllDigits(d) && (rest == "" || !IsDigit(rest[0]))
    ensures DigitPrefix(d + rest) == |d|
  {
    if d == "" {
      assert d + rest == rest;
    } else {
      assert (d + rest)[1..] == d[1..] + rest;
      PrefixStopsAt(d[1..], rest);
    }
  }

  /** What the daemon writes and the kernel parses, and what the kernel prints
      and the daemon scans, is the same number; kstrtoint refuses what does not fit an int. */
  lemma LineRoundTrip(n: nat)
    ensures Kstrtouint(Line(n)) == if n < U32 then Some(n) else None
    ensures Kstrtoint(Line(n)) == if n <= INT_MAX then Some(n) else None
    ensures ScanUnsigned(Line(n)) == Some(n)
  {
    var d, s := Decimal(n), Line(n);
    ValueOfDecimal(n);
    PrefixStopsAt(d, "\n");
    assert s[..|d|] == d && s[|d|..] == "\n";
    assert s[0] == d[0] && IsDigit(s[0]);
  }

  // ---- Any text ----

  function Pow10(n: nat): nat { if n == 0 then 1 else 10 * Pow10(n - 1) }

  lemma ValueOn(s: string, c: char)
    requires AllDigits(s) && IsDigit(c)
    ensures AllDigits(s + [c]) && Value(s + [c]) == Value(s) * 10 + (c as int - 48)
  {
    assert (s + [c])[..|s|] == s;
  }

  /** The value is positional: digits further left count ten times as much each. */
  lemma {:induction false} ValueOfConcat(x: string, y: string)
    requires AllDigits(x) && AllDigits(y)
    ensures Value(x + y) == Value(x) * Pow10(|y|) + Value(y)
    decreases y
  {
    if y == "" {
      assert x + y == x;
    } else {
      var k := |y| - 1;
      var front, c := y[..k], y[k];
      assert y == front + [c] && x + y == (x + front) + [c];
      ValueOfConcat(x, front);
      ValueOn(x + front, c);
      ValueOn(front, c);
      TimesTen(Value(x), Pow10(k));
    }
  }

  lemma TimesTen(a: nat, b: nat)
    ensures a * (10 * b) == a * b * 10
  {}

  lemma ValueOfDigit(c: char)
    requires IsDigit(c)
    ensures Value([c]) == c as int - 48
  {
    assert [c][..0] == "";
  }

  /** s is the digits d and nothing else, but for a newline. */
  predicate Plain(s: string, d: string) { d != "" && AllDigits(d) && (s == d || s == d + "\n") }

  lemma ParseWholeIff(s: string, v: nat)
    ensures ParseWhole(s) == Some(v) <==> exists d :: Plain(s, d) && Value(d) == v
  {
    var k := DigitPrefix(s);
    if ParseWhole(s) == Some(v) {
      assert s == s[..k] + s[k..];
      assert Plain(s, s[..k]);
    }
    if exists d :: Plain(s, d) && Value(d) == v {
      var d :| Plain(s, d) && Value(d) == v;
      var rest := s[|d|..];
      assert s == d + rest;
      PrefixStopsAt(d, rest);
    }
  }

  predicate Signed(s: string, sign: char, d: string) { s != "" && s[0] == sign && Plain(s[1..], d) }

  /** kstrtouint accepts exactly one number below 2^32 in plain digits, after at most one
      plus sign and before at most one newline. */
  lemma KstrtouintIff(s: string, v: nat)
    ensures Kstrtouint(s) == Some(v)
            <==> v < 0x1_0000_0000 && exists d :: (Plain(s, d) || Signed(s, '+', d)) && Value(d) == v
  {
    ParseWholeIff(AfterPlus(s), v);
    forall d ensures Plain(AfterPlus(s), d) <==> Plain(s, d) || Signed(s, '+', d) {}
  }

  /** kstrtoint accepts exactly one number in the range of an int, with a minus sign or as
      above. */
  lemma KstrtointIff(s: string, v: int)
    ensures Kstrtoint(s) == Some(v)
            <==> -0x8000_0000 <= v < 0x8000_0000 &&
                 exists d :: AllDigits(d) && (((Plain(s, d) || Signed(s, '+', d)) && Value(d) == v)
                                              || (Signed(s, '-', d) && 0 - Value(d) == v))
  {
    if s != "" && s[0] == '-' {
      if v <= 0 {
        ParseWholeIff(s[1..], 0 - v);
      }
      forall d ensures !Plain(s, d) && !Signed(s, '+', d) && (Plain(s[1..], d) <==> Signed(s, '-', d)) {}
    } else {
      if v >= 0 {
        ParseWholeIff(AfterPlus(s), v);
      }
      forall d ensures !Signed(s, '-', d) && (Plain(AfterPlus(s), d) <==> Plain(s, d) || Signed(s, '+', d)) {}
    }
  }

  /** fscanf takes the digits at the front, whatever follows them. */
  lemma ScanStops(d: string, rest: string)
    requires AllDigits(d) && (rest == "" || !IsDigit(rest[0]))
    ensures ScanUnsigned(d + rest) == if d == "" then None else Some(Value(d))
  {
    PrefixStopsAt(d, rest);
    assert (d + rest)[..|d|] == d;
  }

  lemma {:induction false} NoLeadingZero(n: nat)
    ensures |Decimal(n)| > 1 ==> Decimal(n)[0] != '0'
    ensures |Decimal(n)| == 1 <==> n < 10
  {
    if n >= 10 {
      NoLeadingZero(n / 10);
      assert Decimal(n)[0] == Decimal(n / 10)[0];
    }
  }

  /** A printed line is the number's digits, without a leading zero, and a newline. */
  lemma LineIsCanonical(n: nat)
    ensures Line(n)[|Line(n)| - 1] == '\n' && AllDigits(Line(n)[..|Line(n)| - 1])
    ensures Value(Line(n)[..|Line(n)| - 1]) == n
    ensures |Line(n)| > 2 ==> Line(n)[0] != '0'
  {
    assert Line(n)[..|Line(n)| - 1] == Decimal(n);
    ValueOfDecimal(n);
    NoLeadingZero(n);
  }

  lemma ValueOfThree(a: nat, b: nat, c: nat)
    requires a < 10 && b < 10 && c < 10
    ensures Value([Digit(a), Digit(b), Digit(c)]) == 100 * a + 10 * b + c
  {
    var s := [Digit(a), Digit(b), Digit(c)];
    assert s[..2] == [Digit(a), Digit(b)];
    assert s[..2][..1] == [Digit(a)];
    assert s[..2][..1][..0] == "";
    assert Value(s[..2][..1]) == a;
    assert Value(s[..2]) == 10 * a + b;
  }

  lemma FirstPart(d: string, line: string)
    requires AllDigits(d)
    ensures var s := d + ("." + line);
            |s| == |d| + 1 + |line| && s[..|d|] == d && s[|d|] == '.' && s[|d| + 1..] == line && DigitPrefix(s) == |d|
  {
    PrefixStopsAt(d, "." + line);
  }

  lemma SecondPart(frac: string)
    requires AllDigits(frac)
    ensures DigitPrefix(frac + "\n") == |frac| && (frac + "\n")[..|frac|] == frac
  {
    PrefixStopsAt(frac, "\n");
  }

  lemma DecodeParts(d: string, frac: string)
    requires AllDigits(d) && AllDigits(frac) && |d| > 0 && |frac| == 3
    ensures DecodeTemperature(Dotted(d, frac)) == Some(Value(d) * 1000 + Value(frac))
  {
    FirstPart(d, frac + "\n");
    SecondPart(frac);
  }

  /** The rendering loses nothing: it decodes to the exact millidegree value. */
  lemma TemperatureRoundTrip(milli: nat)
    ensures DecodeTemperature(TemperatureLine(milli)) == Some(milli)
  {
    var f := milli % 1000;
    ValueOfDecimal(milli / 1000);
    ValueOfThree(f / 100, f / 10 % 10, f % 10);
    DecodeParts(Decimal(milli / 1000), [Digit(f / 100), Digit(f / 10 % 10), Digit(f % 10)]);
    SplitInThree(f);
  }

  lemma SplitInThree(f: nat)
    requires f < 1000
    ensures 100 * (f / 100) + 10 * (f / 10 % 10) + f % 10 == f
  {}

  /** The line is whole degrees, a point, three digits of millidegrees, and a newline. */
  lemma TemperatureLineShape(milli: nat)
    ensures var l := TemperatureLine(milli); var n := |l|;
            && n >= 6 && l[n - 1] == '\n' && l[n - 5] == '.'
            && AllDigits(l[..n - 5]) && Value(l[..n - 5]) == milli / 1000
            && AllDigits(l[n - 4..n - 1]) && Value(l[n - 4..n - 1]) == milli % 1000
            && (n > 6 ==> l[0] != '0')
  {
    var f := milli % 1000;
    var d, l := Decimal(milli / 1000), TemperatureLine(milli);
    var frac := [Digit(f / 100), Digit(f / 10 % 10), Digit(f % 10)];
    ValueOfDecimal(milli / 1000);
    NoLeadingZero(milli / 1000);
    ValueOfThree(f / 100, f / 10 % 10, f % 10);
    SplitInThree(f);
    assert l[..|l| - 5] == d && l[|l| - 4..|l| - 1] == frac;
  }

  /** Two temperatures that print alike are equal. */
  lemma TemperatureLineInjective(a: nat, b: nat)
    requires TemperatureLine(a) == TemperatureLine(b)
    ensures a == b
  {
    TemperatureRoundTrip(a);
    TemperatureRoundTrip(b);
  }
}
