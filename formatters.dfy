/** `formatDateForDisplay` of the frontend: `YYYY-MM-DD` becomes `DD/MM/YYYY` by
    splitting on '-' and gluing the first three parts back in reverse order with '/'.
    A missing value (`null` or `undefined`) is `None`. */
module Formatters {
  import opened Wrappers
  import opened Text
  import opened Calendar

  /** The `i`-th element of an array destructuring as a template literal renders it: the
      element when there is one, the text `undefined` past the end. */
  function PartOrUndefined(parts: seq<string>, i: nat): string {
    if i < |parts| then parts[i] else "undefined"
  }

  /** `formatDateForDisplay(dateString)`. The empty string is falsy and gives back the
      empty string; anything else renders three parts around two slashes. */
  function FormatDateForDisplay(dateString: Option<string>): (r: string)
    ensures r == [] <==> dateString.None? || dateString.value == []
  {
    if dateString.None? || dateString.value == [] then ""
    else
      var parts := Split(dateString.value, '-');
      PartOrUndefined(parts, 2) + "/" + PartOrUndefined(parts, 1) + "/" + PartOrUndefined(parts, 0)
  }

  /** Parts free of '-' and '/' are copied verbatim, in reverse order, and splitting the
      output on '/' recovers them. */
  lemma FormatReversesParts(year: string, month: string, day: string)
    requires Free(year, '-') && Free(month, '-') && Free(day, '-')
    requires Free(year, '/') && Free(month, '/') && Free(day, '/')
    ensures FormatDateForDisplay(Some(Join([year, month, day], '-'))) == Join([day, month, year], '/')
    ensures Split(FormatDateForDisplay(Some(Join([year, month, day], '-'))), '/') == [day, month, year]
  {
    var parts := [year, month, day];
    SplitJoin(parts, '-');
    var input := Join(parts, '-');
    assert input == year + ['-'] + (month + ['-'] + day);
    assert |input| >= 2;
    var out := [day, month, year];
    assert Join(out, '/') == day + ['/'] + (month + ['/'] + year);
    assert Join(out, '/') == day + "/" + month + "/" + year;
    SplitJoin(out, '/');
  }

  /** Whatever follows a third '-' is dropped. */
  lemma FormatDropsExtraParts(year: string, month: string, day: string, rest: seq<string>)
    requires Free(year, '-') && Free(month, '-') && Free(day, '-') && AllFree(rest, '-')
    ensures FormatDateForDisplay(Some(Join([year, month, day] + rest, '-')))
         == FormatDateForDisplay(Some(Join([year, month, day], '-')))
  {
    var long := [year, month, day] + rest;
    var short := [year, month, day];
    assert AllFree(long, '-') by {
      forall i | 0 <= i < |long| ensures Free(long[i], '-') {
        if i >= 3 {
          assert long[i] == rest[i - 3];
        }
      }
    }
    SplitJoin(long, '-');
    SplitJoin(short, '-');
    JoinNonEmpty(long, '-');
    JoinNonEmpty(short, '-');
  }

  /** Missing parts render as `undefined`: a value without '-' is taken as the year
      alone. */
  lemma FormatYearOnly(year: string)
    requires year != [] && Free(year, '-')
    ensures FormatDateForDisplay(Some(year)) == "undefined" + "/" + "undefined" + "/" + year
  {
    SplitJoin([year], '-');
    var parts := Split(year, '-');
    assert parts == [year];
    assert PartOrUndefined(parts, 2) == "undefined" && PartOrUndefined(parts, 1) == "undefined";
    assert PartOrUndefined(parts, 0) == year;
  }

  /** A value with a single '-' is taken as a year and a month, and the day renders as
      `undefined`. */
  lemma FormatYearMonth(year: string, month: string)
    requires Free(year, '-') && Free(month, '-')
    ensures FormatDateForDisplay(Some(Join([year, month], '-'))) == "undefined" + "/" + month + "/" + year
  {
    SplitJoin([year, month], '-');
    JoinNonEmpty([year, month], '-');
    var parts := Split(Join([year, month], '-'), '-');
    assert parts == [year, month];
    assert PartOrUndefined(parts, 2) == "undefined";
    assert PartOrUndefined(parts, 1) == month && PartOrUndefined(parts, 0) == year;
  }

  /** A date as the backend serialises it, `YYYY-MM-DD`, is shown as `DD/MM/YYYY`. */
  lemma FormatIsoDate(d: Date)
    requires d.year >= 0
    ensures FormatDateForDisplay(Some(IsoFormat(d)))
         == PaddedDecimal(d.day, 2) + "/" + PaddedDecimal(d.month, 2) + "/" + YearText(d.year)
  {
    var y := YearText(d.year);
    var m := PaddedDecimal(d.month, 2);
    var dd := PaddedDecimal(d.day, 2);
    DigitsFree(y);
    DigitsFree(m);
    DigitsFree(dd);
    assert IsoFormat(d) == Join([y, m, dd], '-') by {
      assert Join([y, m, dd], '-') == y + ['-'] + (m + ['-'] + dd);
    }
    FormatReversesParts(y, m, dd);
    assert Join([dd, m, y], '/') == dd + ['/'] + (m + ['/'] + y);
  }

  /** Digits are neither '-' nor '/'. */
  lemma DigitsFree(s: string)
    requires AllDigits(s)
    ensures Free(s, '-') && Free(s, '/')
  {
    forall i | 0 <= i < |s| ensures s[i] != '-' && s[i] != '/' {
      assert IsDigit(s[i]);
    }
  }

  /** A join of two or more parts holds a separator, so it is not empty. */
  lemma JoinNonEmpty(parts: seq<string>, sep: char)
    requires |parts| >= 2
    ensures Join(parts, sep) != []
  {
    assert Join(parts, sep) == parts[0] + [sep] + Join(parts[1..], sep);
  }
}
