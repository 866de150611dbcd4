/**
  The effective date of a rate record and its rendering as `day/month/year`
  with Go's `fmt.Sprintf("%d/%d/%d", day, month, year)`: each component in
  plain decimal, the month as its number 1..12 (Go's `%d` on a `time.Month`
  prints the integer), no zero padding. The partner of the rendering is a
  parser that splits on '/' and reads each part back.
 */
module Dates {
  import opened Wrappers
  import Decimal

  /** The three components `time.Time.Day()`, `Month()` and `Year()` return. */
  datatype Date = Date(day: int, month: int, year: int)

  const Separator: char := '/'

  /**
    `fmt.Sprintf("%d/%d/%d", day, month, year)`: the separators stand right
    after the day's rendering and right after the month's, and every field is
    non-empty. `FormatDateFields` and `DateRoundTrip` pin the fields down.
   */
  function FormatDate(d: Date): (s: string)
    ensures |s| >= 5
    ensures |s| == |Decimal.FormatInt(d.day)| + |Decimal.FormatInt(d.month)| + |Decimal.FormatInt(d.year)| + 2
    ensures s[|Decimal.FormatInt(d.day)|] == Separator
    ensures s[|Decimal.FormatInt(d.day)| + 1 + |Decimal.FormatInt(d.month)|] == Separator
  {
    Decimal.FormatInt(d.day) + [Separator] + Decimal.FormatInt(d.month) + [Separator] + Decimal.FormatInt(d.year)
  }

  /** Splits `s` at every `sep`, keeping empty fields, as Go's `strings.Split` does. */
  function Split(s: string, sep: char): (parts: seq<string>)
    ensures |parts| >= 1
    ensures forall k :: 0 <= k < |parts| ==> sep !in parts[k]
    decreases |s|
  {
    if s == [] then [[]]
    else
      var rest := Split(s[1..], sep);
      if s[0] == sep then [[]] + rest else [[s[0]] + rest[0]] + rest[1..]
  }

  /** Reads `day/month/year` back; anything but three integer fields is rejected. */
  function ParseDate(s: string): Option<Date> {
    var parts := Split(s, Separator);
    if |parts| != 3 then None
    else
      match (Decimal.ParseInt(parts[0]), Decimal.ParseInt(parts[1]), Decimal.ParseInt(parts[2]))
      case (Some(day), Some(month), Some(year)) => Some(Date(day, month, year))
      case _ => None
  }

  lemma {:induction false} SplitWithoutSeparator(a: string, sep: char)
    requires sep !in a
    ensures Split(a, sep) == [a]
    decreases |a|
  {
    if a != [] {
      SplitWithoutSeparator(a[1..], sep);
      assert [a[0]] + a[1..] == a;
    }
  }

  lemma {:induction false} SplitFirstField(a: string, sep: char, b: string)
    requires sep !in a
    ensures Split(a + [sep] + b, sep) == [a] + Split(b, sep)
    decreases |a|
  {
    if a == [] {
      assert (a + [sep] + b)[1..] == b;
    } else {
      assert (a + [sep] + b)[1..] == a[1..] + [sep] + b;
      SplitFirstField(a[1..], sep, b);
      assert [a[0]] + a[1..] == a;
    }
  }

  lemma NoSeparatorInInt(n: int)
    ensures Separator !in Decimal.FormatInt(n)
  {
  }

  /** A formatted date splits into exactly the three `%d` renderings of its components. */
  lemma FormatDateFields(d: Date)
    ensures Split(FormatDate(d), Separator)
         == [Decimal.FormatInt(d.day), Decimal.FormatInt(d.month), Decimal.FormatInt(d.year)]
  {
    var a, b, c := Decimal.FormatInt(d.day), Decimal.FormatInt(d.month), Decimal.FormatInt(d.year);
    NoSeparatorInInt(d.day);
    NoSeparatorInInt(d.month);
    NoSeparatorInInt(d.year);
    assert FormatDate(d) == a + [Separator] + (b + [Separator] + c);
    SplitFirstField(a, Separator, b + [Separator] + c);
    SplitFirstField(b, Separator, c);
    SplitWithoutSeparator(c, Separator);
  }

  /** Round trip: parsing a formatted date gives the date back. */
  lemma DateRoundTrip(d: Date)
    ensures ParseDate(FormatDate(d)) == Some(d)
  {
    FormatDateFields(d);
    Decimal.FormatIntRoundTrip(d.day);
    Decimal.FormatIntRoundTrip(d.month);
    Decimal.FormatIntRoundTrip(d.year);
  }

  /** Two different dates never format to the same string. */
  lemma FormatDateInjective(d1: Date, d2: Date)
    ensures FormatDate(d1) == FormatDate(d2) ==> d1 == d2
  {
    DateRoundTrip(d1);
    DateRoundTrip(d2);
  }

  /** For non-negative components the three fields are all digits and carry no leading zero. */
  lemma FormatDateShape(d: Date)
    requires d.day >= 0 && d.month >= 0 && d.year >= 0
    ensures var parts := Split(FormatDate(d), Separator);
      |parts| == 3 &&
      forall k :: 0 <= k < 3 ==>
        |parts[k]| >= 1 && Decimal.AllDigits(parts[k]) && (parts[k][0] == '0' ==> parts[k] == "0")
  {
    FormatDateFields(d);
    Decimal.FormatNonNegative(d.day);
    Decimal.FormatNonNegative(d.month);
    Decimal.FormatNonNegative(d.year);
  }

  /** The 5th of March 2024 renders as "5/3/2024". */
  lemma FormatDateExample()
    ensures FormatDate(Date(5, 3, 2024)) == "5/3/2024"
  {
  }
}
