/** The cell parsers of the seed script: `parseNumber` turns a spreadsheet
    cell into a number (accepting a decimal comma and ignoring units) and
    `parseDate` turns a day-first or year-first date into the text handed to
    the `Date` constructor. */
module SeedValues {
  import opened JsStrings
  import opened Wrappers

  predicate IsDigit(c: char) {
    '0' <= c <= '9'
  }

  predicate AllDigits(s: string) {
    forall i :: 0 <= i < |s| ==> IsDigit(s[i])
  }

  /** The value of a string of decimal digits, most significant first. */
  function DigitsValue(d: string): (r: nat)
    requires AllDigits(d)
    decreases |d|
  {
    if d == [] then 0 else DigitsValue(d[..|d| - 1]) * 10 + (d[|d| - 1] as int - '0' as int)
  }

  function Pow10(n: nat): (p: nat)
    ensures p >= 1
  {
    if n == 0 then 1 else 10 * Pow10(n - 1)
  }

  /** The longest prefix made of digits. */
  function LeadingDigits(s: string): (r: string)
    ensures |r| <= |s| && r == s[..|r|] && AllDigits(r)
    ensures |r| == |s| || !IsDigit(s[|r|])
    decreases |s|
  {
    if s != [] && IsDigit(s[0]) then [s[0]] + LeadingDigits(s[1..]) else []
  }

  /** `parseFloat` on text made only of digits and dots: the longest prefix
      of the form digits, optionally a dot and more digits, read as an exact
      decimal; no number at all (NaN) when that prefix has no digit. */
  function ParseFloatPrefix(s: string): (r: Option<real>)
    ensures r.Some? ==> r.value >= 0.0
  {
    var (whole, frac) := DecimalParts(s);
    if whole == [] && frac == [] then None else Some(Decimal(whole, frac))
  }

  /** The digits before the dot and the digits after it. */
  function DecimalParts(s: string): (parts: (string, string))
    ensures AllDigits(parts.0) && AllDigits(parts.1)
  {
    var whole := LeadingDigits(s);
    var rest := s[|whole|..];
    (whole, if |rest| > 0 && rest[0] == '.' then LeadingDigits(rest[1..]) else [])
  }

  /** The exact value of `whole.frac`. */
  function Decimal(whole: string, frac: string): (v: real)
    requires AllDigits(whole) && AllDigits(frac)
    ensures v >= 0.0
  {
    DigitsValue(whole) as real + DigitsValue(frac) as real / Pow10(|frac|) as real
  }

  /** `s.replace(a, b)` with a one-character pattern: only the first
      occurrence is replaced. */
  function ReplaceFirst(s: string, a: char, b: char): (r: string)
    ensures |r| == |s|
    ensures a !in s ==> r == s
    decreases |s|
  {
    if s == [] then []
    else if s[0] == a then [b] + s[1..]
    else [s[0]] + ReplaceFirst(s[1..], a, b)
  }

  predicate IsNumeric(c: char) {
    IsDigit(c) || c == '.'
  }

  /** `s.replace(/[^\d.]/g, "")` */
  function KeepNumeric(s: string): (r: string)
    ensures forall i :: 0 <= i < |r| ==> IsNumeric(r[i])
    ensures (forall i :: 0 <= i < |s| ==> IsNumeric(s[i])) ==> r == s
    decreases |s|
  {
    if s == [] then []
    else (if IsNumeric(s[0]) then [s[0]] else []) + KeepNumeric(s[1..])
  }

  /** `parseNumber`: no number for a missing cell, an empty cell or a lone
      dash; otherwise the first comma becomes a decimal point, everything but
      digits and dots is dropped, and the rest is read by `parseFloat`. */
  function ParseNumber(cell: Option<string>): (r: Option<real>)
    ensures cell.None? ==> r.None?
    ensures cell.Some? && (cell.value == [] || cell.value == ['-']) ==> r.None?
    ensures r.Some? ==> r.value >= 0.0
  {
    if cell.None? || cell.value == [] || cell.value == ['-'] then None
    else ParseFloatPrefix(NumericText(cell.value))
  }

  /** `val.replace(",", ".").replace(/[^\d.]/g, "")` */
  function NumericText(s: string): (r: string) {
    KeepNumeric(ReplaceFirst(s, ',', '.'))
  }

  lemma {:induction false} KeepNumericAppend(x: string, y: string)
    ensures KeepNumeric(x + y) == KeepNumeric(x) + KeepNumeric(y)
    decreases |x|
  {
    if x != [] {
      KeepNumericAppend(x[1..], y);
      assert (x + y)[1..] == x[1..] + y;
    } else {
      assert x + y == y;
    }
  }

  lemma {:induction false} ReplaceFirstAppend(x: string, y: string, a: char, b: char)
    requires a !in x
    ensures ReplaceFirst(x + y, a, b) == x + ReplaceFirst(y, a, b)
    decreases |x|
  {
    if x != [] {
      ReplaceFirstAppend(x[1..], y, a, b);
      assert (x + y)[1..] == x[1..] + y;
    } else {
      assert x + y == y;
    }
  }

  lemma {:induction false} LeadingDigitsAppend(x: string, y: string)
    requires AllDigits(x)
    requires y == [] || !IsDigit(y[0])
    ensures LeadingDigits(x + y) == x
    decreases |x|
  {
    if x != [] {
      LeadingDigitsAppend(x[1..], y);
      assert (x + y)[1..] == x[1..] + y;
    } else {
      assert x + y == y;
    }
  }

  /** A whole number is read as itself. */
  lemma WholeNumber(d: string)
    requires d != [] && AllDigits(d)
    ensures ParseNumber(Some(d)) == Some(DigitsValue(d) as real)
  {
    assert Decimal(d, []) == DigitsValue(d) as real;
    assert ',' !in d by {
      forall i | 0 <= i < |d| ensures d[i] != ',' {
        assert IsDigit(d[i]);
      }
    }
    assert NumericText(d) == d;
    LeadingDigitsAppend(d, []);
    assert d + [] == d;
  }

  lemma DigitsHaveNoComma(d: string)
    requires AllDigits(d)
    ensures ',' !in d && '.' !in d
  {
    forall i | 0 <= i < |d| ensures d[i] != ',' && d[i] != '.' {
      assert IsDigit(d[i]);
    }
  }

  /** A number written with a decimal point is read exactly. */
  lemma DecimalPoint(whole: string, frac: string)
    requires AllDigits(whole) && AllDigits(frac)
    requires whole != [] || frac != []
    ensures ParseFloatPrefix(whole + ['.'] + frac) == Some(Decimal(whole, frac))
  {
    var dot := whole + ['.'] + frac;
    assert dot == whole + (['.'] + frac);
    LeadingDigitsAppend(whole, ['.'] + frac);
    assert dot[|whole|..] == ['.'] + frac;
    assert (['.'] + frac)[1..] == frac;
    LeadingDigitsAppend(frac, []);
    assert frac + [] == frac;
  }

  /** A decimal comma reads exactly like a decimal point: "3,8" is 3.8. */
  lemma DecimalComma(whole: string, frac: string)
    requires AllDigits(whole) && AllDigits(frac)
    requires whole != [] || frac != []
    ensures ParseNumber(Some(whole + [','] + frac)) == Some(Decimal(whole, frac))
    ensures ParseNumber(Some(whole + ['.'] + frac)) == ParseNumber(Some(whole + [','] + frac))
  {
    var dot := whole + ['.'] + frac;
    var comma := whole + [','] + frac;
    DigitsHaveNoComma(whole);
    DigitsHaveNoComma(frac);
    assert comma == whole + ([','] + frac);
    ReplaceFirstAppend(whole, [','] + frac, ',', '.');
    assert ReplaceFirst(comma, ',', '.') == dot;
    assert ',' !in dot;
    assert forall i :: 0 <= i < |dot| ==> IsNumeric(dot[i]);
    assert NumericText(comma) == dot;
    assert NumericText(dot) == dot;
    assert comma != [] && comma != ['-'];
    assert dot != [] && dot != ['-'];
    DecimalPoint(whole, frac);
  }

  lemma MinusText(s: string)
    ensures NumericText(['-'] + s) == NumericText(s)
  {
    ReplaceFirstAppend(['-'], s, ',', '.');
    KeepNumericAppend(['-'], ReplaceFirst(s, ',', '.'));
  }

  /** A minus sign is dropped with the other non-numeric characters, so a
      negative cell reads as its absolute value. */
  lemma MinusDropped(s: string)
    ensures ParseNumber(Some(['-'] + s)) == ParseNumber(Some(s))
  {
    MinusText(s);
    if s == ['-'] {
      MinusText([]);
      assert NumericText([]) == [];
      assert ParseFloatPrefix([]) == None;
    }
  }

  lemma UnitText(s: string, unit: string)
    requires forall i :: 0 <= i < |unit| ==> !IsNumeric(unit[i]) && unit[i] != ','
    ensures NumericText(s + unit) == NumericText(s)
  {
    NothingNumeric(unit);
    if ',' in s {
      ReplaceFirstPrefix(s, unit, ',', '.');
    } else {
      ReplaceFirstAppend(s, unit, ',', '.');
      assert ReplaceFirst(unit, ',', '.') == unit;
    }
    KeepNumericAppend(ReplaceFirst(s, ',', '.'), unit);
  }

  /** Text after the number that holds no digit, dot or comma (a unit such
      as "kg") does not change the reading. */
  lemma UnitIgnored(s: string, unit: string)
    requires forall i :: 0 <= i < |unit| ==> !IsNumeric(unit[i]) && unit[i] != ','
    ensures ParseNumber(Some(s + unit)) == ParseNumber(Some(s))
  {
    UnitText(s, unit);
    if s == [] || s == ['-'] {
      UnitText([], s);
      assert [] + s == s;
      assert NumericText(s) == [] by {
        NothingNumeric(s);
        assert ReplaceFirst(s, ',', '.') == s;
      }
      assert ParseFloatPrefix([]) == None;
    }
  }

  lemma {:induction false} NothingNumeric(u: string)
    requires forall i :: 0 <= i < |u| ==> !IsNumeric(u[i])
    ensures KeepNumeric(u) == []
    decreases |u|
  {
    if u != [] {
      NothingNumeric(u[1..]);
    }
  }

  lemma {:induction false} ReplaceFirstPrefix(x: string, y: string, a: char, b: char)
    requires a in x
    ensures ReplaceFirst(x + y, a, b) == ReplaceFirst(x, a, b) + y
    decreases |x|
  {
    if x[0] != a {
      ReplaceFirstPrefix(x[1..], y, a, b);
      assert (x + y)[1..] == x[1..] + y;
    } else {
      assert (x + y)[1..] == x[1..] + y;
    }
  }

  const DateSeparators: set<char> := {'-', '/'}

  /** `parseDate`: the text handed to the `Date` constructor, or no date.
      Day-first dates (DD-MM-YYYY or DD/MM/YYYY) are rearranged to
      YYYY-MM-DD; year-first ones are kept as written; anything else,
      including an empty cell or a dash, is no date. */
  function ParseDate(cell: string): (r: Option<string>)
    ensures r.Some? ==> cell != [] && cell != ['-']
    ensures r.Some? ==> |Split(cell, DateSeparators)| == 3
  {
    if cell == [] || cell == ['-'] then None
    else
      var parts := Split(cell, DateSeparators);
      if |parts| == 3 && |parts[2]| == 4 then Some(parts[2] + ['-'] + parts[1] + ['-'] + parts[0])
      else if |parts| == 3 && |parts[0]| == 4 then Some(cell)
      else None
  }

  lemma JoinThree(a: string, b: string, c: string, sep: char)
    ensures Join([a, b, c], sep) == a + [sep] + b + [sep] + c
  {
    assert [a, b, c][1..] == [b, c];
    assert [b, c][1..] == [c];
    assert Join([c], sep) == c;
    assert Join([b, c], sep) == b + [sep] + c;
  }

  /** The text handed to `Date` always has three parts, year first. */
  lemma YearFirst(cell: string)
    requires ParseDate(cell).Some?
    ensures var p := Split(ParseDate(cell).value, DateSeparators); |p| == 3 && |p[0]| == 4
  {
    var parts := Split(cell, DateSeparators);
    if |parts[2]| == 4 {
      JoinThree(parts[2], parts[1], parts[0], '-');
      SplitOfJoin([parts[2], parts[1], parts[0]], '-', DateSeparators);
    }
  }

  /** A day-first date with either separator is rearranged to year first. */
  lemma DayFirst(day: string, month: string, year: string, sep: char)
    requires sep in DateSeparators && |year| == 4
    requires forall c :: c in day || c in month || c in year ==> c !in DateSeparators
    ensures ParseDate(day + [sep] + month + [sep] + year) == Some(year + ['-'] + month + ['-'] + day)
  {
    var cell := day + [sep] + month + [sep] + year;
    JoinThree(day, month, year, sep);
    SplitOfJoin([day, month, year], sep, DateSeparators);
    assert cell != [] && cell != ['-'];
  }

  /** A year-first date is passed on as written unless its last part also
      has four characters, where the day-first reading wins. */
  lemma YearFirstKept(year: string, month: string, day: string)
    requires |year| == 4 && |day| != 4
    requires forall c :: c in day || c in month || c in year ==> c !in DateSeparators
    ensures var cell := year + ['-'] + month + ['-'] + day; ParseDate(cell) == Some(cell)
  {
    var cell := year + ['-'] + month + ['-'] + day;
    JoinThree(year, month, day, '-');
    SplitOfJoin([year, month, day], '-', DateSeparators);
    assert cell != [] && cell != ['-'];
  }
}
