/**
 * `formatDateString` and `getDaySuffix` of the site's utilities: a date is
 * written as "<month> <day>, '<year>", the day with an English ordinal suffix
 * unless asked for a bare number and the year cut to its last two characters
 * unless asked for in full.
 *
 * Parsing the date string and the local time zone belong to `Date`, which is
 * not part of this model: the caller supplies the calendar fields `new Date`
 * would yield, or `None` for an unparseable string (an Invalid Date).
 */
module DateFormat {
  import opened Wrappers
  import opened JsString
  import opened JsNumber

  datatype MonthFormat = LongMonth | ShortMonth
  datatype DayFormat = NumberDay | SuffixDay
  datatype YearFormat = FullYear | ShortYear

  /** `FormatDateStringOptions`: every field may be left out, and so may the object. */
  datatype Options = Options(monthFormat: Option<MonthFormat>, dayFormat: Option<DayFormat>, yearFormat: Option<YearFormat>)

  /** What `getMonth()`, `getDate()` and `getFullYear()` give for a valid date. */
  datatype CalendarDate = CalendarDate(month: nat, day: nat, year: int)

  predicate DateOk(d: CalendarDate)
  {
    d.month < 12 && 1 <= d.day <= 31
  }

  /** `toLocaleString('en-US', { month })`. */
  const LONG_MONTHS: seq<string> :=
    ["January", "February", "March", "April", "May", "June", "July", "August", "September", "October",
     "November", "December"]
  const SHORT_MONTHS: seq<string> :=
    ["Jan", "Feb", "Mar", "Apr", "May", "Jun", "Jul", "Aug", "Sep", "Oct", "Nov", "Dec"]

  /** `x % 10` with JavaScript's `%`, whose remainder takes the sign of the dividend. */
  function LastDigit(x: int): (r: int)
    ensures -10 < r < 10
    ensures (x - r) % 10 == 0
    ensures x >= 0 ==> r >= 0
    ensures x < 0 ==> r <= 0
  {
    if x >= 0 then x % 10 else -((-x) % 10)
  }

  /** `getDaySuffix`: the teens 11 to 13 take "th", otherwise the last digit decides. */
  function DaySuffix(day: int): (s: string)
    ensures s in {"st", "nd", "rd", "th"}
  {
    if 11 <= day <= 13 then "th"
    else match LastDigit(day)
      case 1 => "st"
      case 2 => "nd"
      case 3 => "rd"
      case _ => "th"
  }

  /** The suffix for each way a day can end, as the three rules of `getDaySuffix` give it. */
  lemma DaySuffixCases(day: int)
    ensures 11 <= day <= 13 ==> DaySuffix(day) == "th"
    ensures !(11 <= day <= 13) && LastDigit(day) == 1 ==> DaySuffix(day) == "st"
    ensures !(11 <= day <= 13) && LastDigit(day) == 2 ==> DaySuffix(day) == "nd"
    ensures !(11 <= day <= 13) && LastDigit(day) == 3 ==> DaySuffix(day) == "rd"
    ensures !(LastDigit(day) in {1, 2, 3}) ==> DaySuffix(day) == "th"
  {
  }

  /**
   * The English ordinal rule read off the decimal digits: numbers whose tens
   * digit is 1 take "th"; otherwise a last digit 1, 2 or 3 takes "st", "nd"
   * or "rd", and any other "th".
   */
  function EnglishSuffix(n: nat): (s: string)
  {
    var digits := NatToDecimal(n);
    var last := digits[|digits| - 1];
    if |digits| >= 2 && digits[|digits| - 2] == '1' then "th"
    else if last == '1' then "st"
    else if last == '2' then "nd"
    else if last == '3' then "rd"
    else "th"
  }

  /** For every day of a month, `getDaySuffix` agrees with the English rule. */
  lemma DaySuffixIsEnglish(day: nat)
    requires 1 <= day <= 31
    ensures DaySuffix(day) == EnglishSuffix(day)
  {
    var digits := NatToDecimal(day);
    if day < 10 {
      assert digits == [DecimalDigit(day)];
    } else {
      assert NatToDecimal(day / 10) == [DecimalDigit(day / 10)];
      assert digits == [DecimalDigit(day / 10), DecimalDigit(day % 10)];
    }
  }

  /** `str.slice(-2)`: the last two characters, or the whole string when it is shorter. */
  function LastTwo(s: string): (r: string)
    ensures |s| >= 2 ==> |r| == 2 && s == s[..|s| - 2] + r
    ensures |s| < 2 ==> r == s
  {
    if |s| >= 2 then s[|s| - 2..] else s
  }

  /**
   * `formatDateString` on the date `new Date(dateString)` yields (`None` for
   * an Invalid Date): missing options default to a short month, a suffixed
   * day and a short year.
   */
  function FormatDateString(date: Option<CalendarDate>, options: Option<Options>): (out: string)
    requires date.Some? ==> DateOk(date.value)
  {
    var opts := if options.Some? then options.value else Options(None, None, None);
    var monthFormat := if opts.monthFormat.Some? then opts.monthFormat.value else ShortMonth;
    var dayFormat := if opts.dayFormat.Some? then opts.dayFormat.value else SuffixDay;
    var yearFormat := if opts.yearFormat.Some? then opts.yearFormat.value else ShortYear;
    FormatWith(date, monthFormat, dayFormat, yearFormat)
  }

  /** The text `formatDateString` assembles once the three formats are settled. */
  function FormatWith(date: Option<CalendarDate>, monthFormat: MonthFormat, dayFormat: DayFormat, yearFormat: YearFormat): string
    requires date.Some? ==> DateOk(date.value)
  {
    var month := if date.None? then "Invalid Date"
      else if monthFormat == LongMonth then LONG_MONTHS[date.value.month]
      else SHORT_MONTHS[date.value.month];
    // An Invalid Date gives NaN for the day and the year; NaN is no teen and
    // `NaN % 10` matches no case, so its suffix is "th".
    var dayNumber := if date.None? then "NaN" else IntToDecimal(date.value.day);
    var day := if dayFormat == NumberDay then dayNumber
      else dayNumber + (if date.None? then "th" else DaySuffix(date.value.day));
    var yearText := if date.None? then "NaN" else IntToDecimal(date.value.year);
    var year := if yearFormat == FullYear then yearText else LastTwo(yearText);
    month + " " + day + ", '" + year
  }

  /** The defaults: leaving out the options, or any one of them, is the same as asking for short, suffix and short. */
  lemma FormatDefaults(date: Option<CalendarDate>, m: Option<MonthFormat>, d: Option<DayFormat>, y: Option<YearFormat>)
    requires date.Some? ==> DateOk(date.value)
    ensures FormatDateString(date, None) == FormatDateString(date, Some(Options(Some(ShortMonth), Some(SuffixDay), Some(ShortYear))))
    ensures FormatDateString(date, Some(Options(None, d, y))) == FormatDateString(date, Some(Options(Some(ShortMonth), d, y)))
    ensures FormatDateString(date, Some(Options(m, None, y))) == FormatDateString(date, Some(Options(m, Some(SuffixDay), y)))
    ensures FormatDateString(date, Some(Options(m, d, None))) == FormatDateString(date, Some(Options(m, d, Some(ShortYear))))
  {
  }

  /**
   * With the default options a valid date reads "<short month> <day><suffix>, '<yy>":
   * for a four-digit year the two characters are the year modulo 100, zero-padded.
   */
  lemma DefaultFormat(date: CalendarDate)
    requires DateOk(date) && 1000 <= date.year <= 9999
    ensures FormatDateString(Some(date), None) ==
      SHORT_MONTHS[date.month] + " " + NatToDecimal(date.day) + DaySuffix(date.day) + ", '" +
      PadStart2(NatToDecimal(date.year % 100))
  {
    ShortYearDigits(date.year);
    var year := LastTwo(IntToDecimal(date.year));
    assert FormatDateString(Some(date), None) ==
      SHORT_MONTHS[date.month] + " " + (IntToDecimal(date.day) + DaySuffix(date.day)) + ", '" + year;
  }

  lemma ShortYearDigits(y: nat)
    requires 1000 <= y <= 9999
    ensures LastTwo(IntToDecimal(y)) == PadStart2(NatToDecimal(y % 100))
  {
    var c, e := y / 10 % 10, y % 10;
    var m := y % 100;
    var s := IntToDecimal(y);
    TextEndsWithDigits(y);
    DigitsOf(y);
    PaddedPair(c, e);
    Tail(s, DecimalDigit(c), DecimalDigit(e));
    assert m == 10 * c + e;
  }

  lemma Tail(s: string, a: char, b: char)
    requires |s| >= 2 && s[|s| - 2..] == [a, b]
    ensures LastTwo(s) == [a, b]
  {
  }

  /** The decimal text of a number of three digits or more ends with its tens and units digits. */
  lemma TextEndsWithDigits(y: nat)
    requires y >= 100
    ensures var s := IntToDecimal(y);
      |s| >= 2 && s[|s| - 2..] == [DecimalDigit(y / 10 % 10), DecimalDigit(y % 10)]
  {
    var p, c, e := y / 100, y / 10 % 10, y % 10;
    DigitsOf(y);
    DecimalSnoc(p, c);
    DecimalSnoc(10 * p + c, e);
  }

  /** Two digits written by `String` and padded to two characters. */
  lemma PaddedPair(c: nat, e: nat)
    requires c < 10 && e < 10
    ensures PadStart2(NatToDecimal(10 * c + e)) == [DecimalDigit(c), DecimalDigit(e)]
  {
    if c == 0 {
      assert NatToDecimal(e) == [DecimalDigit(e)];
    } else {
      DecimalSnoc(c, e);
    }
  }

  lemma DigitsOf(y: nat)
    ensures y == 100 * (y / 100) + 10 * (y / 10 % 10) + y % 10
    ensures y % 100 == 10 * (y / 10 % 10) + y % 10
  {
  }

  /** Appending a digit to a positive number appends its character to the decimal text. */
  lemma DecimalSnoc(q: nat, e: nat)
    requires q >= 1 && e < 10
    ensures NatToDecimal(10 * q + e) == NatToDecimal(q) + [DecimalDigit(e)]
  {
    assert (10 * q + e) / 10 == q && (10 * q + e) % 10 == e;
  }

  /** An unparseable date string gives this text with every default option. */
  lemma InvalidDate()
    ensures FormatDateString(None, None) == "Invalid Date NaNth, 'aN"
  {
    assert LastTwo("NaN") == "aN";
    assert FormatWith(None, ShortMonth, SuffixDay, ShortYear) == "Invalid Date" + " " + "NaNth" + ", '" + "aN";
  }
}
