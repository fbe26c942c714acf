/**
 * The front end's own period handling (src/utils/periodUtils.js). Unlike the
 * server it matches case-sensitively, allows no space or several spaces
 * between number and unit, trims nothing, keeps the unit as written, and
 * moves months and years with JavaScript's overflow and no month-end clamp.
 * Dates are calendar dates; the time of day and the time zone of a JavaScript
 * Date are not part of this model.
 */
module PeriodUtils {
  import opened Common
  import opened Text
  import opened Calendar
  import Reminders

  /** A parsed period: the number and the unit word exactly as written. */
  datatype JsPeriod = JsPeriod(value: nat, unit: string)

  /** The alternatives days?|weeks?|months?|years? of the unit group. */
  predicate IsUnitWord(w: string)
  {
    w == "day" || w == "days" || w == "week" || w == "weeks"
    || w == "month" || w == "months" || w == "year" || w == "years"
  }

  /** /^(\d+)\s*(days?|weeks?|months?|years?)$/ matching the whole of s with these pieces. */
  predicate Pattern(s: string, digits: string, gap: string, word: string)
  {
    && s == digits + gap + word
    && digits != [] && AllDigits(digits)
    && (forall i :: 0 <= i < |gap| ==> IsJsSpace(gap[i]))
    && IsUnitWord(word)
  }

  /** String.prototype.match with that pattern: the digits and the unit word, or no match. */
  function Match(s: string): (r: Option<(string, string)>)
  {
    var n := Span(s, IsDigit);
    var rest := s[n..];
    var k := Span(rest, IsJsSpace);
    if n == 0 || !IsUnitWord(rest[k..]) then None else Some((s[..n], rest[k..]))
  }

  /** parsePeriod: null for a falsy argument (null or ''), or when the pattern does not match. */
  function ParsePeriod(periodString: Option<string>): (r: Option<JsPeriod>)
    ensures periodString.None? || periodString == Some("") ==> r.None?
    ensures r.Some? ==> IsUnitWord(r.value.unit)
  {
    if periodString.None? || periodString.value == "" then None
    else match Match(periodString.value)
      case None => None
      case Some((digits, word)) => Some(JsPeriod(DigitsValue(digits), word))
  }

  /** Every match is an instance of the pattern. */
  lemma MatchSound(s: string)
    requires Match(s).Some?
    ensures exists gap :: Pattern(s, Match(s).value.0, gap, Match(s).value.1)
  {
    var n := Span(s, IsDigit);
    var rest := s[n..];
    var k := Span(rest, IsJsSpace);
    assert Pattern(s, s[..n], rest[..k], rest[k..]);
  }

  /** A unit word starts with a lower-case letter: neither a digit nor a space. */
  lemma UnitWordStart(w: string)
    requires IsUnitWord(w)
    ensures w != [] && !IsDigit(w[0]) && !IsJsSpace(w[0])
  {
  }

  /** Every instance of the pattern is matched, with exactly its digits and its word. */
  lemma MatchComplete(s: string, digits: string, gap: string, word: string)
    requires Pattern(s, digits, gap, word)
    ensures Match(s) == Some((digits, word))
  {
    UnitWordStart(word);
    var rest := gap + word;
    assert s == digits + rest;
    assert rest != [] && !IsDigit(rest[0]);
    SpanOfConcat(digits, rest, IsDigit);
    assert s[..|digits|] == digits && s[|digits|..] == rest;
    SpanOfConcat(gap, word, IsJsSpace);
    assert rest[|gap|..] == word;
  }

  /** "<n><spaces><unit>" parses to n with the unit kept as written, with or without a space. */
  lemma ParseRoundTrip(n: nat, gap: string, word: string)
    requires forall i :: 0 <= i < |gap| ==> IsJsSpace(gap[i])
    requires IsUnitWord(word)
    ensures ParsePeriod(Some(NatToString(n) + gap + word)) == Some(JsPeriod(n, word))
  {
    var s := NatToString(n) + gap + word;
    assert s[0] == NatToString(n)[0];
    MatchComplete(s, NatToString(n), gap, word);
    DigitsOfNatToString(n);
  }

  /** Capitalised units do not match: the front end is case-sensitive where the server is not. */
  lemma CapitalisedUnitRejected(s: string)
    requires s != [] && Match(s).Some?
    ensures var w := Match(s).value.1; forall i :: 0 <= i < |w| ==> !('A' <= w[i] <= 'Z')
  {
  }

  /** The `startsWith` branches of subtractPeriod / addPeriod: unit.startsWith('day') and so on. */
  function UnitKind(unit: string): (k: Option<Reminders.Unit>)
  {
    if StartsWith("day", unit) then Some(Reminders.Day)
    else if StartsWith("week", unit) then Some(Reminders.Week)
    else if StartsWith("month", unit) then Some(Reminders.Month)
    else if StartsWith("year", unit) then Some(Reminders.Year)
    else None
  }

  /** Every unit word falls in one branch: its singular or plural names that unit, as on the server. */
  lemma UnitKindOfWord(u: Reminders.Unit, plural: bool)
    ensures IsUnitWord(Reminders.UnitWord(u, plural))
    ensures UnitKind(Reminders.UnitWord(u, plural)) == Some(u)
  {
    var w := Reminders.UnitWord(u, plural);
    match u
    case Day =>
    case Week =>
      assert w[0] == 'w' && !StartsWith("day", w);
    case Month =>
      assert w[0] == 'm' && !StartsWith("day", w) && !StartsWith("week", w);
    case Year =>
      assert w[0] == 'y' && !StartsWith("day", w) && !StartsWith("week", w) && !StartsWith("month", w);
  }

  /** The unit words are exactly the server's ways of writing a unit, in lower case. */
  lemma UnitWordsAreServerWords(w: string)
    requires IsUnitWord(w)
    ensures exists u, plural :: w == Reminders.UnitWord(u, plural)
  {
    if w == "day" { assert w == Reminders.UnitWord(Reminders.Day, false); }
    else if w == "days" { assert w == Reminders.UnitWord(Reminders.Day, true); }
    else if w == "week" { assert w == Reminders.UnitWord(Reminders.Week, false); }
    else if w == "weeks" { assert w == Reminders.UnitWord(Reminders.Week, true); }
    else if w == "month" { assert w == Reminders.UnitWord(Reminders.Month, false); }
    else if w == "months" { assert w == Reminders.UnitWord(Reminders.Month, true); }
    else if w == "year" { assert w == Reminders.UnitWord(Reminders.Year, false); }
    else { assert w == Reminders.UnitWord(Reminders.Year, true); }
  }

  /**
   * The date a period moves to, forwards (sign 1) or backwards (sign -1):
   * setDate by value or 7 * value days, setMonth / setFullYear with overflow.
   */
  function Shift(d: Date, p: JsPeriod, sign: int): (e: Date)
    requires ValidDate(d) && (sign == 1 || sign == -1)
    ensures ValidDate(e)
  {
    match UnitKind(p.unit)
    case Some(Day) => AddDays(d, sign * p.value)
    case Some(Week) => AddDays(d, sign * (p.value * 7))
    case Some(Month) => AddMonthsOverflow(d, sign * p.value)
    case Some(Year) => AddYearsOverflow(d, sign * p.value)
    case None => d
  }

  /** subtractPeriod: null when the period does not parse, else the date moved back by it. */
  method SubtractPeriod(date: Date, periodString: Option<string>) returns (r: Option<Date>)
    requires ValidDate(date)
    ensures r.None? <==> ParsePeriod(periodString).None?
    ensures r.Some? ==> r.value == Shift(date, ParsePeriod(periodString).value, -1)
  {
    var period := ParsePeriod(periodString);
    if period.None? {
      return None;
    }
    var result := date;
    var value: int, unit := period.value.value, period.value.unit;
    if StartsWith("day", unit) {
      assert UnitKind(unit) == Some(Reminders.Day);
      result := AddDays(result, -value);
      assert result == Shift(date, period.value, -1);
    } else if StartsWith("week", unit) {
      assert UnitKind(unit) == Some(Reminders.Week);
      result := AddDays(result, -(value * 7));
      assert result == Shift(date, period.value, -1);
    } else if StartsWith("month", unit) {
      assert UnitKind(unit) == Some(Reminders.Month);
      result := AddMonthsOverflow(result, -value);
      assert result == Shift(date, period.value, -1);
    } else if StartsWith("year", unit) {
      assert UnitKind(unit) == Some(Reminders.Year);
      result := AddYearsOverflow(result, -value);
      assert result == Shift(date, period.value, -1);
    }
    else { assert result == Shift(date, period.value, -1); }
    return Some(result);
  }

  /** addPeriod: null when the period does not parse, else the date moved forward by it. */
  method AddPeriod(date: Date, periodString: Option<string>) returns (r: Option<Date>)
    requires ValidDate(date)
    ensures r.None? <==> ParsePeriod(periodString).None?
    ensures r.Some? ==> r.value == Shift(date, ParsePeriod(periodString).value, 1)
  {
    var period := ParsePeriod(periodString);
    if period.None? {
      return None;
    }
    var result := date;
    var value: int, unit := period.value.value, period.value.unit;
    if StartsWith("day", unit) {
      assert UnitKind(unit) == Some(Reminders.Day);
      result := AddDays(result, value);
      assert result == Shift(date, period.value, 1);
    } else if StartsWith("week", unit) {
      assert UnitKind(unit) == Some(Reminders.Week);
      result := AddDays(result, value * 7);
      assert result == Shift(date, period.value, 1);
    } else if StartsWith("month", unit) {
      assert UnitKind(unit) == Some(Reminders.Month);
      result := AddMonthsOverflow(result, value);
      assert result == Shift(date, period.value, 1);
    } else if StartsWith("year", unit) {
      assert UnitKind(unit) == Some(Reminders.Year);
      result := AddYearsOverflow(result, value);
      assert result == Shift(date, period.value, 1);
    }
    else { assert result == Shift(date, period.value, 1); }
    return Some(result);
  }

  /** Day and week shifts move the day number by value and 7 * value. */
  lemma ShiftDayNumber(d: Date, p: JsPeriod, sign: int)
    requires ValidDate(d) && (sign == 1 || sign == -1)
    ensures UnitKind(p.unit) == Some(Reminders.Day) ==> Ordinal(Shift(d, p, sign)) == Ordinal(d) + sign * p.value
    ensures UnitKind(p.unit) == Some(Reminders.Week) ==> Ordinal(Shift(d, p, sign)) == Ordinal(d) + sign * (7 * p.value)
  {
    if UnitKind(p.unit) == Some(Reminders.Day) {
      AddDaysOrdinal(d, sign * p.value);
    } else if UnitKind(p.unit) == Some(Reminders.Week) {
      AddDaysOrdinal(d, sign * (p.value * 7));
      assert p.value * 7 == 7 * p.value;
    }
  }

  /** Adding a day or week period undoes subtracting it. */
  lemma AddUndoesSubtractForDays(d: Date, p: JsPeriod)
    requires ValidDate(d)
    requires UnitKind(p.unit) == Some(Reminders.Day) || UnitKind(p.unit) == Some(Reminders.Week)
    ensures Shift(Shift(d, p, -1), p, 1) == d
  {
    var back := Shift(d, p, -1);
    ShiftDayNumber(d, p, -1);
    ShiftDayNumber(back, p, 1);
    if Shift(back, p, 1) != d {
      OrdinalInjective(Shift(back, p, 1), d);
    }
  }

  /**
   * Against the server: the front end's deadline agrees for days, weeks and
   * years, and for months exactly when the target month has the end date's day.
   */
  lemma AgreesWithServer(end: Date, n: nat, u: Reminders.Unit, plural: bool)
    requires ValidDate(end)
    ensures var front := Shift(end, JsPeriod(n, Reminders.UnitWord(u, plural)), -1);
      var server := Reminders.ShiftBack(end, Reminders.Period(n, u));
      && (u != Reminders.Month ==> front == server)
      && (u == Reminders.Month ==> (front == server <==> front.day == end.day))
  {
    UnitKindOfWord(u, plural);
    if u == Reminders.Month {
      OverflowShiftAgreement(end, -(n as int));
    }
  }

  /** 31 March 2026 minus "1 month": the front end shows 3 March where the server says 28 February. */
  lemma MonthEndExample()
    ensures Shift(Date(2026, 3, 31), JsPeriod(1, "month"), -1) == Date(2026, 3, 3)
    ensures Reminders.ShiftBack(Date(2026, 3, 31), Reminders.Period(1, Reminders.Month)) == Date(2026, 2, 28)
  {
    UnitKindOfWord(Reminders.Month, false);
  }

  /** The German label of each unit word; t() translation is not part of this model. */
  function Label(unit: string): string
  {
    if unit == "day" then "Tag" else if unit == "days" then "Tage"
    else if unit == "week" then "Woche" else if unit == "weeks" then "Wochen"
    else if unit == "month" then "Monat" else if unit == "months" then "Monate"
    else if unit == "year" then "Jahr" else if unit == "years" then "Jahre"
    else unit
  }

  /** formatPeriod: the input (or '') when it does not parse, else "<value> <label>". */
  function FormatPeriod(periodString: Option<string>): (r: string)
    ensures ParsePeriod(periodString).None? ==> r == periodString.GetOr("")
    ensures ParsePeriod(periodString).Some? ==>
      var p := ParsePeriod(periodString).value;
      r == NatToString(p.value) + " " + Label(p.unit)
  {
    match ParsePeriod(periodString)
    case None => periodString.GetOr("")
    case Some(p) => NatToString(p.value) + " " + Label(p.unit)
  }

  /** Different unit words get different labels, and every label differs from the English word. */
  lemma LabelsDistinct(a: string, b: string)
    requires IsUnitWord(a) && IsUnitWord(b)
    ensures a != b ==> Label(a) != Label(b)
    ensures Label(a) != a
  {
  }

  /** A period written "<n> <unit>" is displayed with the same number and the German unit. */
  lemma FormatRoundTrip(n: nat, word: string)
    requires IsUnitWord(word)
    ensures FormatPeriod(Some(NatToString(n) + " " + word)) == NatToString(n) + " " + Label(word)
  {
    ParseRoundTrip(n, " ", word);
  }

  /** The end date argument: missing (falsy), a string Date cannot read, or a date. */
  datatype EndDate = Absent | Unreadable | Given(date: Date)

  /** calculateCancellationDeadline: null without an end date, a period or a readable date. */
  method CalculateCancellationDeadline(endDate: EndDate, cancellationPeriod: Option<string>)
    returns (r: Option<Date>)
    requires endDate.Given? ==> ValidDate(endDate.date)
    ensures r.Some? <==> endDate.Given? && ParsePeriod(cancellationPeriod).Some?
    ensures r.Some? ==> r.value == Shift(endDate.date, ParsePeriod(cancellationPeriod).value, -1)
  {
    if endDate.Absent? || cancellationPeriod.None? || cancellationPeriod.value == "" {
      return None;
    }
    if endDate.Unreadable? {
      return None;
    }
    r := SubtractPeriod(endDate.date, cancellationPeriod);
  }
}
