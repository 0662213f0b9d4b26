/** Cell values of a data frame, and the text <-> number conversions that
    loading applies to them (`astype(str)` on ids, `to_numeric(errors='coerce')`
    followed by `fillna(0).astype(int)` on the engagement metrics). */
module Values {

  datatype Option<+T> = None | Some(value: T)

  /** One cell. `Null` is a missing value (NaN / NaT / None); `Date` holds a day
      number counted from 1970-01-01 and only appears once a column has been
      converted to dates. */
  datatype Cell = Null | Int(i: int) | Text(s: string) | Date(day: int)

  predicate IsDigit(c: char) { '0' <= c <= '9' }

  function DigitValue(c: char): nat
    requires IsDigit(c)
  {
    (c as int) - ('0' as int)
  }

  function DigitChar(d: nat): (c: char)
    requires d < 10
    ensures IsDigit(c) && DigitValue(c) == d
  {
    ('0' as int + d) as char
  }

  predicate AllDigits(s: string) { forall i :: 0 <= i < |s| ==> IsDigit(s[i]) }

  /** Value of a run of decimal digits; the empty run is 0. */
  function DigitsValue(s: string): nat
    requires AllDigits(s)
  {
    if s == [] then 0 else 10 * DigitsValue(s[..|s| - 1]) + DigitValue(s[|s| - 1])
  }

  /** Length of the longest prefix of `s` made of digits. */
  function DigitRun(s: string): (n: nat)
    ensures n <= |s| && AllDigits(s[..n])
    ensures n < |s| ==> !IsDigit(s[n])
  {
    if s == [] || !IsDigit(s[0]) then 0
    else
      var n := 1 + DigitRun(s[1..]);
      assert s[..n] == [s[0]] + s[1..][..n - 1];
      n
  }

  /** Decimal rendering of a natural number, most significant digit first:
      a digit run worth `n`, with no leading zero unless `n` is 0. */
  function Digits(n: nat): (s: string)
    ensures |s| > 0 && AllDigits(s) && DigitsValue(s) == n
    ensures |s| == 1 || s[0] != '0'
  {
    if n < 10 then
      assert [DigitChar(n)][..0] == [];
      [DigitChar(n)]
    else
      var p := Digits(n / 10);
      var s := p + [DigitChar(n % 10)];
      assert s[..|s| - 1] == p;
      assert |p| == 1 ==> p[..0] == [];
      s
  }

  /** Python's `str(i)` for an integer: a minus sign exactly for negative
      numbers, followed by the canonical digits of the magnitude. */
  function Show(i: int): (r: string)
    ensures |r| > 0 && (r[0] == '-' <==> i < 0)
    ensures i >= 0 ==> AllDigits(r) && DigitsValue(r) == i && (|r| == 1 || r[0] != '0')
    ensures i < 0 ==> |r| > 1 && AllDigits(r[1..]) && DigitsValue(r[1..]) == -i && r[1] != '0'
  {
    if i < 0 then
      var r := "-" + Digits(-i);
      assert r[1..] == Digits(-i);
      r
    else
      Digits(i)
  }

  /** An unsigned numeral: digits, optionally followed by `.` and more digits,
      with at least one digit in all; the value is the integral part (the
      fractional part is what `astype(int)` truncates away). */
  function ParseUnsigned(s: string): Option<nat>
  {
    var n := DigitRun(s);
    if n == |s| then
      if n > 0 then Some(DigitsValue(s[..n])) else None
    else if s[n] == '.' && AllDigits(s[n + 1..]) && (n > 0 || |s| > n + 1) then
      Some(DigitsValue(s[..n]))
    else
      None
  }

  /** The unsigned numerals, as a grammar: a non-empty run of digits, or two
      runs of digits around one `.` with at least one digit in all. */
  predicate IsUnsignedNumeral(u: string)
  {
    (|u| > 0 && AllDigits(u)) ||
    exists k :: 0 <= k < |u| && u[k] == '.' && AllDigits(u[..k]) && AllDigits(u[k + 1..]) && |u| > 1
  }

  /** The numerals the metric coercion accepts: an optional sign followed by
      an unsigned numeral. */
  predicate IsNumeral(s: string)
  {
    if |s| > 0 && (s[0] == '-' || s[0] == '+') then IsUnsignedNumeral(s[1..]) else IsUnsignedNumeral(s)
  }

  /** The integer a text cell coerces to, truncated toward zero, or None when
      the text is not a numeral. */
  function ParseNumeral(s: string): (r: Option<int>)
    ensures r.Some? <==> IsNumeral(s)
  {
    UnsignedGrammar(s);
    UnsignedGrammar(if |s| > 0 then s[1..] else s);
    if |s| > 0 && (s[0] == '-' || s[0] == '+') then
      match ParseUnsigned(s[1..])
      case None => None
      case Some(n) =>
        var v: int := if s[0] == '-' then -(n as int) else n;
        Some(v)
    else
      ParseUnsigned(s)
  }

  /** `astype(str)` of one cell: numbers print in decimal, a missing value
      prints as "nan". A date never reaches this conversion (a freshly read
      CSV holds no dates); it prints as its day number. */
  function CellString(c: Cell): (r: string)
    ensures c.Null? ==> r == "nan"
    ensures c.Text? ==> r == c.s
    ensures c.Int? ==> ParseNumeral(r) == Some(c.i)
  {
    match c
    case Null => "nan"
    case Int(i) => ParseShow(i); Show(i)
    case Text(s) => s
    case Date(d) => Show(d)
  }

  /** `pd.to_numeric(errors='coerce').fillna(0).astype(int)` of one cell:
      numbers keep their value, numerals are parsed and truncated, anything
      else becomes 0. A date never reaches this conversion; it becomes 0. */
  function ToCount(c: Cell): (r: int)
    ensures c.Int? ==> r == c.i
    ensures c.Null? || c.Date? ==> r == 0
    ensures c.Text? && !IsNumeral(c.s) ==> r == 0
    ensures c.Text? && IsNumeral(c.s) ==> Some(r) == ParseNumeral(c.s)
  {
    match c
    case Int(i) => i
    case Text(s) => (match ParseNumeral(s) case Some(v) => v case None => 0)
    case _ => 0
  }

  /** Integer content of a cell that holds one, 0 otherwise (how the views
      read the integer columns the loader produced). */
  function IntOf(c: Cell): int
  {
    if c.Int? then c.i else 0
  }

  /** A digit run with no leading zero is worth more than 0. */
  lemma {:induction false} LeadingPositive(s: string)
    requires |s| > 0 && AllDigits(s) && s[0] != '0'
    ensures DigitsValue(s) > 0
  {
    var p := s[..|s| - 1];
    if |s| == 1 {
      assert p == [];
    } else {
      assert p[0] == s[0];
      LeadingPositive(p);
    }
  }

  /** The canonical spelling is unique: a digit run without a leading zero
      is the rendering of its own value, so `Digits` (and with it `Show`)
      is the one string its contract allows. */
  lemma {:induction false} DigitsUnique(s: string)
    requires |s| > 0 && AllDigits(s) && (|s| == 1 || s[0] != '0')
    ensures s == Digits(DigitsValue(s))
  {
    var n := DigitsValue(s);
    var p := s[..|s| - 1];
    var c := s[|s| - 1];
    assert s == p + [c];
    if |s| == 1 {
      assert p == [];
      assert n == DigitValue(c) && DigitChar(n) == c;
    } else {
      assert p[0] == s[0];
      LeadingPositive(p);
      DigitsUnique(p);
      var v := DigitsValue(p);
      assert n == 10 * v + DigitValue(c);
      assert n / 10 == v && n % 10 == DigitValue(c);
      assert DigitChar(n % 10) == c;
    }
  }

  lemma {:induction false} DigitRunAll(s: string)
    requires AllDigits(s)
    ensures DigitRun(s) == |s|
  {
    if s != [] {
      DigitRunAll(s[1..]);
    }
  }

  /** A number rendered by `Show` coerces back to itself: the numeric
      coercion of loading is a left inverse of `astype(str)` on integers. */
  lemma {:induction false} ParseShow(i: int)
    ensures ParseNumeral(Show(i)) == Some(i)
  {
    var n: nat := if i < 0 then -i else i;
    var d := Digits(n);
    DigitRunAll(d);
    assert d[..|d|] == d;
    if i < 0 {
      assert Show(i)[1..] == d;
    } else {
      assert !(d[0] == '-' || d[0] == '+') by { assert IsDigit(d[0]); }
    }
  }

  /** A decimal numeral coerces to its integral part, truncating toward zero:
      "12.75" gives 12 and "-12.75" gives -12. */
  lemma ParseTruncates(i: int, fraction: string)
    requires AllDigits(fraction)
    ensures ParseNumeral(Show(i) + "." + fraction) == Some(i)
  {
    if i < 0 {
      NegativeDecimal(i, fraction);
    } else {
      PositiveDecimal(i, fraction);
    }
  }

  lemma NegativeDecimal(i: int, fraction: string)
    requires i < 0 && AllDigits(fraction)
    ensures ParseNumeral(Show(i) + "." + fraction) == Some(i)
  {
    var d := Digits(-i);
    var u := d + "." + fraction;
    Regroup("-", d, ".", fraction);
    UnsignedDecimal(d, fraction);
    NegativeNumeral(u, -i);
  }

  lemma Regroup(a: string, b: string, c: string, d: string)
    ensures a + b + c + d == a + (b + c + d)
  {
  }

  lemma PositiveDecimal(i: int, fraction: string)
    requires i >= 0 && AllDigits(fraction)
    ensures ParseNumeral(Show(i) + "." + fraction) == Some(i)
  {
    var d := Digits(i);
    var u := d + "." + fraction;
    UnsignedDecimal(d, fraction);
    assert Show(i) + "." + fraction == u;
    assert IsDigit(u[0]);
  }

  lemma NegativeNumeral(u: string, n: nat)
    requires ParseUnsigned(u) == Some(n)
    ensures ParseNumeral("-" + u) == Some(-(n as int))
  {
    assert ("-" + u)[1..] == u;
  }

  /** Sign applied to a magnitude: a "-" negates it, "" and "+" keep it. */
  function Signed(sign: string, n: nat): int
  {
    if sign == "-" then -(n as int) else n
  }

  /** Any decimal numeral, canonical or not (".5", "-0.5", "+3.", "007.25"),
      coerces to its sign applied to the value of its integral digits. */
  lemma ParseAnyDecimal(sign: string, d: string, fraction: string)
    requires sign == "" || sign == "+" || sign == "-"
    requires AllDigits(d) && AllDigits(fraction) && |d| + |fraction| > 0
    ensures ParseNumeral(sign + (d + "." + fraction)) == Some(Signed(sign, DigitsValue(d)))
  {
    UnsignedDotted(d, fraction);
    SignedParse(sign, d + "." + fraction, DigitsValue(d));
  }

  /** Any integer numeral, canonical or not ("007", "+5", "-00"), coerces to
      its sign applied to the value of its digits. */
  lemma ParseAnyInteger(sign: string, d: string)
    requires sign == "" || sign == "+" || sign == "-"
    requires AllDigits(d) && d != []
    ensures ParseNumeral(sign + d) == Some(Signed(sign, DigitsValue(d)))
  {
    DigitRunAll(d);
    assert d[..|d|] == d;
    SignedParse(sign, d, DigitsValue(d));
  }

  /** A leading sign in front of an unsigned numeral negates it or keeps it. */
  lemma SignedParse(sign: string, u: string, n: nat)
    requires sign == "" || sign == "+" || sign == "-"
    requires ParseUnsigned(u) == Some(n)
    ensures ParseNumeral(sign + u) == Some(Signed(sign, n))
  {
    assert u != [] && (IsDigit(u[0]) || u[0] == '.');
    if sign == "" {
      assert sign + u == u;
    } else {
      assert (sign + u)[1..] == u;
    }
  }

  /** Digits, a `.` and digits: the value of the integral digits, which may
      be absent (".5"), as may the fractional ones ("3."). */
  lemma UnsignedDotted(d: string, fraction: string)
    requires AllDigits(d) && AllDigits(fraction) && |d| + |fraction| > 0
    ensures ParseUnsigned(d + "." + fraction) == Some(DigitsValue(d))
  {
    if d != [] {
      UnsignedDecimal(d, fraction);
    } else {
      var u := d + "." + fraction;
      assert u == "." + fraction;
      assert u[..0] == [] && u[1..] == fraction;
    }
  }

  lemma UnsignedDecimal(d: string, fraction: string)
    requires AllDigits(d) && d != [] && AllDigits(fraction)
    ensures ParseUnsigned(d + "." + fraction) == Some(DigitsValue(d))
  {
    var u := d + "." + fraction;
    assert u == d + ("." + fraction);
    DigitRunPrefix(d, "." + fraction);
    assert u[..|d|] == d;
    assert u[|d| + 1..] == fraction;
  }

  lemma {:induction false} DigitRunPrefix(d: string, t: string)
    requires AllDigits(d) && t != [] && !IsDigit(t[0])
    ensures DigitRun(d + t) == |d|
  {
    if d != [] {
      assert (d + t)[1..] == d[1..] + t;
      DigitRunPrefix(d[1..], t);
    }
  }

  /** What `ParseUnsigned` accepts is exactly the unsigned numerals. */
  lemma UnsignedGrammar(u: string)
    ensures ParseUnsigned(u).Some? <==> IsUnsignedNumeral(u)
  {
    if ParseUnsigned(u).Some? {
      ParsedIsNumeral(u);
    }
    if IsUnsignedNumeral(u) {
      NumeralParses(u);
    }
  }

  lemma ParsedIsNumeral(u: string)
    requires ParseUnsigned(u).Some?
    ensures IsUnsignedNumeral(u)
  {
    var n := DigitRun(u);
    if n < |u| {
      assert u[n] == '.' && AllDigits(u[..n]) && AllDigits(u[n + 1..]) && |u| > 1;
    } else {
      assert u[..n] == u;
    }
  }

  lemma NumeralParses(u: string)
    requires IsUnsignedNumeral(u)
    ensures ParseUnsigned(u).Some?
  {
    if |u| > 0 && AllDigits(u) {
      DigitRunAll(u);
    } else {
      var k :| 0 <= k < |u| && u[k] == '.' && AllDigits(u[..k]) && AllDigits(u[k + 1..]) && |u| > 1;
      DottedParses(u, k);
    }
  }

  lemma DottedParses(u: string, k: nat)
    requires k < |u| && u[k] == '.' && AllDigits(u[..k]) && AllDigits(u[k + 1..]) && |u| > 1
    ensures ParseUnsigned(u).Some?
  {
    var d, t := u[..k], u[k..];
    assert u == d + t && t[0] == '.';
    DigitRunPrefix(d, t);
    assert DigitRun(u) == k;
  }

  /** A character other than a digit, a `.` or a leading sign rules out an
      unsigned numeral. */
  lemma ForeignChar(u: string, j: nat)
    requires j < |u| && !IsDigit(u[j]) && u[j] != '.'
    ensures !IsUnsignedNumeral(u)
  {
    forall k | 0 <= k < |u| && u[k] == '.'
      ensures !(AllDigits(u[..k]) && AllDigits(u[k + 1..]))
    {
      if j < k {
        assert u[..k][j] == u[j];
      } else {
        assert u[k + 1..][j - k - 1] == u[j];
      }
    }
  }

  /** A non-numeric text cell coerces to 0: one character that is not a
      digit, a `.` or a leading sign is enough, and so is the empty text. */
  lemma NonNumericZero(s: string, i: nat)
    requires i < |s| && !IsDigit(s[i]) && s[i] != '.'
    requires i == 0 ==> s[0] != '-' && s[0] != '+'
    ensures ToCount(Text(s)) == 0
    ensures ToCount(Text("")) == 0
  {
    if s[0] == '-' || s[0] == '+' {
      assert s[1..][i - 1] == s[i];
      ForeignChar(s[1..], i - 1);
    } else {
      ForeignChar(s, i);
    }
  }
}
