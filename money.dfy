/**
 * Conversion of an amount in minor currency units (cents) to the major-unit
 * string that JavaScript's `(amount / 100).toString()` yields for an integer
 * amount: the integer part, then, only when the remainder is not zero, a dot
 * and the two-digit remainder with its trailing zero removed.
 */
module Money {
  import opened Wrappers
  import opened Decimal

  /** The one or two digits after the dot for a remainder `r` in 1..99. */
  function FractionDigits(r: nat): (s: string)
    requires 0 < r < 100
  {
    if r % 10 == 0 then [DigitChar(r / 10)] else [DigitChar(r / 10), DigitChar(r % 10)]
  }

  /** Major-unit notation of a non-negative amount of cents. */
  function FormatNonNegative(c: nat): (s: string)
  {
    NatToDecimal(c / 100) + (if c % 100 == 0 then "" else "." + FractionDigits(c % 100))
  }

  /** Major-unit notation of `c / 100`, as `(c / 100).toString()` prints it for an integer `c`. */
  function FormatCents(c: int): (s: string)
    ensures |s| >= 1
    ensures s[0] == '-' <==> c < 0
  {
    if c < 0 then "-" + FormatNonNegative(-c) else FormatNonNegative(c)
  }

  /** The cents denoted by one or two digits after the dot ("5" is 50, "05" is 5). */
  function FractionCents(f: string): (r: nat)
    requires 1 <= |f| <= 2 && AllDigits(f)
    ensures r < 100
  {
    if |f| == 1 then DigitValue(f[0]) * 10 else DigitValue(f[0]) * 10 + DigitValue(f[1])
  }

  /** The cents denoted by an integer part and a fraction of one or two digits. */
  function ParseParts(whole: string, fraction: string): (r: Option<nat>)
  {
    match ParseWholeUnits(whole)
    case Some(w) =>
      if 1 <= |fraction| <= 2 && AllDigits(fraction) then Some(w + FractionCents(fraction)) else None
    case None => None
  }

  /** The cents denoted by a non-empty string of digits read as whole major units. */
  function ParseWholeUnits(whole: string): (r: Option<nat>)
  {
    if |whole| >= 1 && AllDigits(whole) then Some(DecimalToNat(whole) * 100) else None
  }

  /** Reads an unsigned major-unit amount with at most two fractional digits, in cents. */
  function ParseUnsigned(s: string): (r: Option<nat>)
  {
    if |s| >= 3 && s[|s| - 2] == '.' then
      ParseParts(s[..|s| - 2], s[|s| - 1..])
    else if |s| >= 4 && s[|s| - 3] == '.' then
      ParseParts(s[..|s| - 3], s[|s| - 2..])
    else
      ParseWholeUnits(s)
  }

  /**
   * Reads a signed major-unit amount with at most two fractional digits, in
   * cents: the reference reading that the formatted amounts are checked against.
   */
  function ParseMajor(s: string): (r: Option<int>)
  {
    if |s| >= 1 && s[0] == '-' then
      match ParseUnsigned(s[1..])
      case Some(c) => Some(-(c as int))
      case None => None
    else
      match ParseUnsigned(s)
      case Some(c) => Some(c as int)
      case None => None
  }

  lemma ParseWhole(d: string)
    requires |d| >= 1 && AllDigits(d)
    ensures ParseUnsigned(d) == Some(DecimalToNat(d) * 100)
  {
    assert !IsDigit('.');
    assert |d| >= 3 ==> d[|d| - 2] != '.';
    assert |d| >= 4 ==> d[|d| - 3] != '.';
  }

  lemma SplitOneFractionDigit(d: string, x: char)
    requires |d| >= 1 && AllDigits(d) && IsDigit(x)
    ensures ParseUnsigned(d + ['.', x]) == ParseParts(d, [x])
  {
    var s := d + ['.', x];
    assert s[|s| - 2] == '.';
    assert s[..|s| - 2] == d;
    assert s[|s| - 1..] == [x];
  }

  lemma SplitTwoFractionDigits(d: string, x: char, y: char)
    requires |d| >= 1 && AllDigits(d) && IsDigit(x) && IsDigit(y)
    ensures ParseUnsigned(d + ['.', x, y]) == ParseParts(d, [x, y])
  {
    var s := d + ['.', x, y];
    assert s[|s| - 2] == x != '.';
    assert s[|s| - 3] == '.';
    assert s[..|s| - 3] == d;
    assert s[|s| - 2..] == [x, y];
  }

  /** Reading the formatted amount back gives the amount: no cent is lost or invented. */
  lemma WholeRoundTrip(c: nat)
    requires c % 100 == 0
    ensures ParseUnsigned(FormatNonNegative(c)) == Some(c)
  {
    var d := NatToDecimal(c / 100);
    DecimalRoundTrip(c / 100);
    assert FormatNonNegative(c) == d;
    ParseWhole(d);
  }

  lemma OneFractionDigitRoundTrip(c: nat)
    requires c % 100 != 0 && (c % 100) % 10 == 0
    ensures ParseUnsigned(FormatNonNegative(c)) == Some(c)
  {
    var q, r := c / 100, c % 100;
    var d, x := NatToDecimal(q), DigitChar(r / 10);
    DecimalRoundTrip(q);
    assert FormatNonNegative(c) == d + ['.', x];
    SplitOneFractionDigit(d, x);
    assert AllDigits([x]);
  }

  lemma TwoFractionDigitsRoundTrip(c: nat)
    requires (c % 100) % 10 != 0
    ensures ParseUnsigned(FormatNonNegative(c)) == Some(c)
  {
    var q, r := c / 100, c % 100;
    var d, x, y := NatToDecimal(q), DigitChar(r / 10), DigitChar(r % 10);
    DecimalRoundTrip(q);
    assert FormatNonNegative(c) == d + ['.', x, y];
    SplitTwoFractionDigits(d, x, y);
    assert AllDigits([x, y]);
  }

  /** Reading the formatted amount back gives the amount: no cent is lost or invented. */
  lemma FormatNonNegativeRoundTrip(c: nat)
    ensures ParseUnsigned(FormatNonNegative(c)) == Some(c)
  {
    if c % 100 == 0 {
      WholeRoundTrip(c);
    } else if (c % 100) % 10 == 0 {
      OneFractionDigitRoundTrip(c);
    } else {
      TwoFractionDigitsRoundTrip(c);
    }
  }

  /** `FormatCents` is exact: its output reads back as the original number of cents. */
  lemma FormatCentsRoundTrip(c: int)
    ensures ParseMajor(FormatCents(c)) == Some(c)
  {
    if c < 0 {
      var s := FormatCents(c);
      assert s[1..] == FormatNonNegative(-c);
      FormatNonNegativeRoundTrip(-c);
    } else {
      FormatNonNegativeRoundTrip(c);
      assert FormatNonNegative(c)[0] == NatToDecimal(c / 100)[0];
    }
  }

  /** Two amounts with the same notation are the same amount. */
  lemma FormatCentsInjective(a: int, b: int)
    requires FormatCents(a) == FormatCents(b)
    ensures a == b
  {
    FormatCentsRoundTrip(a);
    FormatCentsRoundTrip(b);
  }

  /** A fraction of one or two digits that does not end in '0'. */
  predicate CanonicalFraction(f: string) {
    1 <= |f| <= 2 && AllDigits(f) && f[|f| - 1] != '0'
  }

  /**
   * The shortest unsigned notation of a number of major units with at most
   * two decimals: a canonical integer part, then possibly a dot and a
   * fraction without trailing zero.
   */
  predicate CanonicalUnsigned(s: string) {
    || Canonical(s)
    || (|s| >= 3 && s[|s| - 2] == '.' && Canonical(s[..|s| - 2]) && CanonicalFraction(s[|s| - 1..]))
    || (|s| >= 4 && s[|s| - 3] == '.' && Canonical(s[..|s| - 3]) && CanonicalFraction(s[|s| - 2..]))
  }

  /** The shortest signed notation: an optional '-' before a canonical unsigned notation other than "0". */
  predicate CanonicalMajor(s: string) {
    if |s| >= 1 && s[0] == '-' then CanonicalUnsigned(s[1..]) && s[1..] != "0" else CanonicalUnsigned(s)
  }

  lemma OneFractionDigitCanonical(d: string, x: char)
    requires Canonical(d) && IsDigit(x) && x != '0'
    ensures CanonicalUnsigned(d + ['.', x])
  {
    var s := d + ['.', x];
    assert s[|s| - 2] == '.';
    assert s[..|s| - 2] == d;
    assert s[|s| - 1..] == [x];
  }

  lemma TwoFractionDigitsCanonical(d: string, x: char, y: char)
    requires Canonical(d) && IsDigit(x) && IsDigit(y) && y != '0'
    ensures CanonicalUnsigned(d + ['.', x, y])
  {
    var s := d + ['.', x, y];
    assert s[|s| - 3] == '.';
    assert s[..|s| - 3] == d;
    assert s[|s| - 2..] == [x, y];
  }

  lemma FormatNonNegativeCanonical(c: nat)
    ensures CanonicalUnsigned(FormatNonNegative(c))
    ensures FormatNonNegative(c) == "0" ==> c == 0
  {
    var q, r := c / 100, c % 100;
    var d := NatToDecimal(q);
    if r == 0 {
      assert FormatNonNegative(c) == d;
    } else if r % 10 == 0 {
      assert FormatNonNegative(c) == d + ['.', DigitChar(r / 10)];
      OneFractionDigitCanonical(d, DigitChar(r / 10));
    } else {
      assert FormatNonNegative(c) == d + ['.', DigitChar(r / 10), DigitChar(r % 10)];
      TwoFractionDigitsCanonical(d, DigitChar(r / 10), DigitChar(r % 10));
    }
  }

  /**
   * The notation is the shortest one: no leading zero in the integer part, no
   * trailing zero in the fraction, no dot for a whole amount, no "-0".
   */
  lemma FormatCentsCanonical(c: int)
    ensures CanonicalMajor(FormatCents(c))
  {
    FormatNonNegativeCanonical(if c < 0 then -c else c);
    if c < 0 {
      assert FormatCents(c)[1..] == FormatNonNegative(-c);
    } else {
      assert FormatNonNegative(c)[0] == NatToDecimal(c / 100)[0];
    }
  }

  lemma WholeUnique(w: string)
    requires Canonical(w)
    ensures FormatNonNegative(DecimalToNat(w) * 100) == w
  {
    var m := DecimalToNat(w);
    assert (m * 100) / 100 == m && (m * 100) % 100 == 0;
    CanonicalRoundTrip(w);
  }

  lemma OneFractionDigitUnique(w: string, x: char)
    requires Canonical(w) && IsDigit(x) && x != '0'
    ensures FormatNonNegative(DecimalToNat(w) * 100 + DigitValue(x) * 10) == w + ['.', x]
  {
    var m, dx := DecimalToNat(w), DigitValue(x);
    var c := m * 100 + dx * 10;
    assert c / 100 == m && c % 100 == dx * 10;
    assert (dx * 10) / 10 == dx && (dx * 10) % 10 == 0;
    CanonicalRoundTrip(w);
    assert DigitChar(dx) == x;
  }

  lemma TwoFractionDigitsUnique(w: string, x: char, y: char)
    requires Canonical(w) && IsDigit(x) && IsDigit(y) && y != '0'
    ensures FormatNonNegative(DecimalToNat(w) * 100 + DigitValue(x) * 10 + DigitValue(y)) == w + ['.', x, y]
  {
    var m, dx, dy := DecimalToNat(w), DigitValue(x), DigitValue(y);
    var r := dx * 10 + dy;
    assert 0 < r < 100 && r / 10 == dx && r % 10 == dy;
    assert FractionDigits(r) == [x, y] by {
      assert DigitChar(dx) == x && DigitChar(dy) == y;
    }
    var c := m * 100 + r;
    assert c / 100 == m && c % 100 == r;
    CanonicalRoundTrip(w);
  }

  lemma OneFractionDigitParsedUnique(s: string, c: nat)
    requires |s| >= 3 && s[|s| - 2] == '.' && Canonical(s[..|s| - 2]) && CanonicalFraction(s[|s| - 1..])
    requires ParseUnsigned(s) == Some(c)
    ensures s == FormatNonNegative(c)
  {
    var w, x := s[..|s| - 2], s[|s| - 1];
    assert s == w + ['.', x];
    assert [x] == s[|s| - 1..];
    SplitOneFractionDigit(w, x);
    assert AllDigits([x]);
    OneFractionDigitUnique(w, x);
  }

  lemma TwoFractionDigitsParsedUnique(s: string, c: nat)
    requires |s| >= 4 && s[|s| - 3] == '.' && Canonical(s[..|s| - 3]) && CanonicalFraction(s[|s| - 2..])
    requires ParseUnsigned(s) == Some(c)
    ensures s == FormatNonNegative(c)
  {
    var w, x, y := s[..|s| - 3], s[|s| - 2], s[|s| - 1];
    assert s == w + ['.', x, y];
    assert [x, y] == s[|s| - 2..];
    SplitTwoFractionDigits(w, x, y);
    assert AllDigits([x, y]);
    TwoFractionDigitsUnique(w, x, y);
  }

  /** A canonical unsigned notation is the formatting of the cents it denotes. */
  lemma CanonicalUnsignedUnique(s: string, c: nat)
    requires CanonicalUnsigned(s) && ParseUnsigned(s) == Some(c)
    ensures s == FormatNonNegative(c)
  {
    if Canonical(s) {
      ParseWhole(s);
      WholeUnique(s);
    } else if |s| >= 3 && s[|s| - 2] == '.' && Canonical(s[..|s| - 2]) && CanonicalFraction(s[|s| - 1..]) {
      OneFractionDigitParsedUnique(s, c);
    } else {
      TwoFractionDigitsParsedUnique(s, c);
    }
  }

  /**
   * The canonical notation of an amount is unique: any canonical string that
   * reads as `c` cents is exactly `FormatCents(c)`.
   */
  lemma CanonicalMajorUnique(s: string, c: int)
    requires CanonicalMajor(s) && ParseMajor(s) == Some(c)
    ensures s == FormatCents(c)
  {
    if |s| >= 1 && s[0] == '-' {
      var u := ParseUnsigned(s[1..]).value;
      CanonicalUnsignedUnique(s[1..], u);
      if u == 0 {
        assert false;
      }
      assert s == "-" + s[1..];
    } else {
      CanonicalUnsignedUnique(s, c);
      if c < 0 { assert false; }
    }
  }

  /** The amounts asserted in the order-data test: 2500, 1000 and 99 cents. */
  lemma FormatCentsExamples()
    ensures FormatCents(2500) == "25"
    ensures FormatCents(1000) == "10"
    ensures FormatCents(99) == "0.99"
    ensures FormatCents(0) == "0"
    ensures FormatCents(-250) == "-2.5"
  {
    assert NatToDecimal(25) == "25";
    assert NatToDecimal(10) == "10";
    assert NatToDecimal(2) == "2";
  }
}
