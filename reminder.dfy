/**
 * ReminderService (lib/Service/ReminderService.php): the cancellation
 * deadline of a contract, the two reminder stages and their windows, the
 * ledger of reminders already sent, and the sweep that records new ones.
 *
 * The clock is the parameter `now`; the two global lead times (settings
 * reminder_days_1 and reminder_days_2) are the parameters days1 and days2;
 * the reminder_sent table is a set of (contract id, reminder type) pairs.
 */
module Reminders {
  import opened Common
  import opened Text
  import opened Calendar
  import opened ContractEntity

  // ---------------------------------------------------------------------
  // The cancellation period

  datatype Unit = Day | Week | Month | Year

  datatype Period = Period(value: nat, unit: Unit)

  /** The alternatives of the unit group, as they read after lower-casing. */
  const UnitWords: set<string> := {"day", "days", "week", "weeks", "month", "months", "year", "years"}

  /** The two capture groups of a successful match: the digits and the unit word as written. */
  datatype PeriodMatch = PeriodMatch(digits: string, word: string)

  /**
   * The pattern /^(\d+)\s+(day|days|week|weeks|month|months|year|years)$/i
   * matching the whole of t with the given pieces.
   */
  predicate PeriodPattern(t: string, digits: string, gap: string, word: string)
  {
    && t == digits + gap + word
    && digits != [] && AllDigits(digits)
    && gap != [] && (forall i :: 0 <= i < |gap| ==> IsPcreSpace(gap[i]))
    && ToLower(word) in UnitWords
  }

  /** preg_match of that pattern against t, returning the captured groups. */
  function MatchPeriod(t: string): (r: Option<PeriodMatch>)
  {
    var n := Span(t, IsDigit);
    var rest := t[n..];
    var k := Span(rest, IsPcreSpace);
    if n == 0 || k == 0 || ToLower(rest[k..]) !in UnitWords then None
    else Some(PeriodMatch(t[..n], rest[k..]))
  }

  predicate IsLowerLetter(c: char)
  {
    'a' <= c <= 'z'
  }

  /** Each unit word begins and ends with a lower-case letter. */
  lemma UnitWordLetters(w: string)
    requires w in UnitWords
    ensures w != [] && IsLowerLetter(w[0]) && IsLowerLetter(w[|w| - 1])
  {
  }

  /** A character that lower-cases to a letter is a letter, neither a digit nor a space. */
  lemma LetterOfLower(c: char)
    requires IsLowerLetter(ToLowerAscii(c))
    ensures !IsDigit(c) && !IsPcreSpace(c) && !IsPhpTrimChar(c)
  {
  }

  /** A unit word starts with a letter, so it cannot continue the digits or the gap. */
  lemma UnitWordStart(word: string)
    requires ToLower(word) in UnitWords
    ensures word != [] && !IsDigit(word[0]) && !IsPcreSpace(word[0])
    ensures !IsPhpTrimChar(word[|word| - 1])
  {
    var w := ToLower(word);
    UnitWordLetters(w);
    assert |w| == |word|;
    assert w[0] == ToLowerAscii(word[0]);
    assert w[|w| - 1] == ToLowerAscii(word[|word| - 1]);
    LetterOfLower(word[0]);
    LetterOfLower(word[|word| - 1]);
  }

  /** strtolower() leaves a word without capitals as it is. */
  lemma ToLowerOfLower(w: string)
    requires forall i :: 0 <= i < |w| ==> !('A' <= w[i] <= 'Z')
    ensures ToLower(w) == w
  {
  }

  /** Every match is an instance of the pattern. */
  lemma MatchPeriodSound(t: string)
    requires MatchPeriod(t).Some?
    ensures var m := MatchPeriod(t).value;
            exists gap :: PeriodPattern(t, m.digits, gap, m.word)
  {
    var n := Span(t, IsDigit);
    var rest := t[n..];
    var k := Span(rest, IsPcreSpace);
    assert PeriodPattern(t, t[..n], rest[..k], rest[k..]);
  }

  /** A run of characters satisfying p, followed by one that does not, is cut exactly at the boundary. */
  lemma SpanSplits(a: string, b: string, p: char -> bool)
    requires forall i :: 0 <= i < |a| ==> p(a[i])
    requires b != [] && !p(b[0])
    ensures var t := a + b; Span(t, p) == |a| && t[..|a|] == a && t[|a|..] == b
  {
    SpanOfConcat(a, b, p);
  }

  /** In an instance of the pattern the two spans stop exactly at the captured digits and the gap. */
  lemma PatternCuts(t: string, digits: string, gap: string, word: string)
    requires t == digits + gap + word
    requires digits != [] && AllDigits(digits)
    requires gap != [] && (forall i :: 0 <= i < |gap| ==> IsPcreSpace(gap[i]))
    requires word != [] && !IsDigit(word[0]) && !IsPcreSpace(word[0])
    ensures var n := |digits|; var rest := t[n..];
      && Span(t, IsDigit) == n && t[..n] == digits
      && Span(rest, IsPcreSpace) == |gap| && rest[|gap|..] == word
  {
    var rest := gap + word;
    assert t == digits + rest;
    assert !IsDigit(rest[0]);
    SpanSplits(digits, rest, IsDigit);
    SpanSplits(gap, word, IsPcreSpace);
  }

  /** An instance of the pattern is matched, with exactly its digits and its word. */
  lemma MatchPeriodComplete(t: string, digits: string, gap: string, word: string)
    requires PeriodPattern(t, digits, gap, word)
    ensures MatchPeriod(t) == Some(PeriodMatch(digits, word))
  {
    UnitWordStart(word);
    PatternCuts(t, digits, gap, word);
  }

  /** The period a matched string denotes: rtrim(strtolower(unit), 's') names the unit. */
  function UnitOf(word: string): (u: Unit)
  {
    var singular := RTrimChar(ToLower(word), 's');
    if singular == "month" then Month
    else if singular == "year" then Year
    else if singular == "week" then Week
    else Day
  }

  /** PHP empty() on a string: "" and "0" are empty. */
  predicate PhpEmpty(s: string)
  {
    s == "" || s == "0"
  }

  /** The period a cancellation-period string denotes, or None when the deadline code rejects it. */
  function ParsePeriod(s: string): Option<Period>
  {
    if PhpEmpty(s) then None
    else
      var m := MatchPeriod(Trim(s));
      if m.None? then None else Some(Period(DigitsValue(m.value.digits), UnitOf(m.value.word)))
  }

  /**
   * A period is rejected exactly when it is empty() or its trimmed text is
   * no instance of the pattern; otherwise its value is the captured digits.
   */
  lemma ParsePeriodPattern(s: string)
    ensures ParsePeriod(s).Some? <==> !PhpEmpty(s) && exists digits, gap, word :: PeriodPattern(Trim(s), digits, gap, word)
    ensures forall digits, gap, word :: !PhpEmpty(s) && PeriodPattern(Trim(s), digits, gap, word) ==>
              ParsePeriod(s) == Some(Period(DigitsValue(digits), UnitOf(word)))
  {
    if ParsePeriod(s).Some? {
      MatchPeriodSound(Trim(s));
    }
    forall digits, gap, word | !PhpEmpty(s) && PeriodPattern(Trim(s), digits, gap, word)
      ensures ParsePeriod(s) == Some(Period(DigitsValue(digits), UnitOf(word)))
    {
      MatchPeriodComplete(Trim(s), digits, gap, word);
    }
  }

  function UnitWord(u: Unit, plural: bool): string
  {
    match u
    case Day => if plural then "days" else "day"
    case Week => if plural then "weeks" else "week"
    case Month => if plural then "months" else "month"
    case Year => if plural then "years" else "year"
  }

  /** Each way of writing a unit is one of the alternatives of the pattern, already in lower case. */
  lemma UnitWordListed(u: Unit, plural: bool)
    ensures UnitWord(u, plural) in UnitWords && ToLower(UnitWord(u, plural)) == UnitWord(u, plural)
  {
    ToLowerOfLower(UnitWord(u, plural));
  }

  /** rtrim(.., 's') takes each unit word to the unit it names. */
  lemma UnitOfUnitWord(u: Unit, plural: bool)
    ensures UnitOf(UnitWord(u, plural)) == u
  {
    var singular := UnitWord(u, false);
    UnitWordListed(u, plural);
    PluralAddsS(u);
    RTrimOne(singular, 's');
    assert RTrimChar(ToLower(UnitWord(u, plural)), 's') == singular;
  }

  /** The plural unit word is the singular one followed by "s". */
  lemma PluralAddsS(u: Unit)
    ensures UnitWord(u, true) == UnitWord(u, false) + "s"
    ensures var w := UnitWord(u, false); w != [] && w[|w| - 1] != 's'
  {
    match u
    case Day => assert "days" == "day" + "s";
    case Week => assert "weeks" == "week" + "s";
    case Month => assert "months" == "month" + "s";
    case Year => assert "years" == "year" + "s";
  }

  /** "<n> <unit>" written the usual way parses back to n and the unit. */
  lemma ParsePeriodRoundTrip(n: nat, u: Unit, plural: bool)
    ensures ParsePeriod(NatToString(n) + " " + UnitWord(u, plural)) == Some(Period(n, u))
  {
    var digits, word := NatToString(n), UnitWord(u, plural);
    var s := digits + " " + word;
    UnitWordListed(u, plural);
    RoundTripMatch(digits, word);
    DigitsOfNatToString(n);
    UnitOfUnitWord(u, plural);
  }

  /** "<digits> <word>" is already trimmed, is not empty(), and matches with those two groups. */
  lemma RoundTripMatch(digits: string, word: string)
    requires digits != [] && AllDigits(digits) && ToLower(word) in UnitWords
    ensures var s := digits + " " + word;
      !PhpEmpty(s) && MatchPeriod(Trim(s)) == Some(PeriodMatch(digits, word))
  {
    var s := digits + " " + word;
    UnitWordStart(word);
    assert s[0] == digits[0] && IsDigit(s[0]);
    assert s[|s| - 1] == word[|word| - 1];
    TrimOfUntrimmed(s);
    assert PeriodPattern(s, digits, " ", word);
    MatchPeriodComplete(s, digits, " ", word);
    assert |s| >= 3;
  }

  // ---------------------------------------------------------------------
  // The deadline

  /**
   * The end date moved back by the period: days and weeks on the calendar,
   * months keeping the day or falling back to the end of a shorter month,
   * years keeping month and day (29 February rolls over to 1 March).
   */
  function ShiftBack(d: Date, p: Period): (e: Date)
    requires ValidDate(d)
    ensures ValidDate(e)
  {
    match p.unit
    case Day => DaysEarlier(d, p.value)
    case Week => DaysEarlier(d, 7 * p.value)
    case Month => AddMonthsClamped(d, -(p.value as int))
    case Year => AddYearsOverflow(d, -(p.value as int))
  }

  /**
   * What each unit does: days and weeks move the day number, months keep
   * the day or fall back to the end of a shorter target month, years keep
   * month and day unless 29 February is missing, which rolls over to 1 March.
   */
  lemma ShiftBackMeaning(d: Date, p: Period)
    requires ValidDate(d)
    ensures var e := ShiftBack(d, p);
      && (p.unit == Day ==> Ordinal(e) == Ordinal(d) - p.value)
      && (p.unit == Week ==> Ordinal(e) == Ordinal(d) - 7 * p.value)
      && (p.unit == Month ==> && e.year * 12 + e.month == d.year * 12 + d.month - p.value
                              && e.day == (if d.day <= DaysInMonth(e.year, e.month) then d.day else DaysInMonth(e.year, e.month)))
      && (p.unit == Year ==> e == if d.day <= DaysInMonth(d.year - p.value, d.month) then Date(d.year - p.value, d.month, d.day)
                                  else Date(d.year - p.value, 3, 1))
  {
    match p.unit
    case Day => DaysEarlierOrdinal(d, p.value);
    case Week => DaysEarlierOrdinal(d, 7 * p.value);
    case Month =>
    case Year =>
  }

  /** The cancellation deadline of a contract with this end date and period. */
  function CancellationDeadline(end: Option<Date>, period: string): (r: Option<Date>)
    requires ValidOptionalDate(end)
    ensures r.Some? <==> end.Some? && ParsePeriod(period).Some?
    ensures r.Some? ==> ValidDate(r.value) && r.value == ShiftBack(end.value, ParsePeriod(period).value)
  {
    if end.None? then None
    else match ParsePeriod(period)
      case None => None
      case Some(p) => Some(ShiftBack(end.value, p))
  }

  /** Without an end date, with an empty() period or without a match there is no deadline. */
  lemma DeadlineOfNoMatch(end: Option<Date>, s: string)
    requires ValidOptionalDate(end)
    requires end.None? || PhpEmpty(s) || MatchPeriod(Trim(s)).None?
    ensures CancellationDeadline(end, s) == None
  {
  }

  /** Once the period has matched, the deadline is the end date shifted by the matched period. */
  lemma DeadlineOfMatch(end: Date, s: string, m: PeriodMatch)
    requires ValidDate(end) && !PhpEmpty(s) && MatchPeriod(Trim(s)) == Some(m)
    ensures CancellationDeadline(Some(end), s) == Some(ShiftBack(end, Period(DigitsValue(m.digits), UnitOf(m.word))))
  {
  }

  /** The checks on the unit in the deadline code, read off the normalised unit word. */
  lemma UnitOfSingular(word: string)
    ensures var singular := RTrimChar(ToLower(word), 's');
      && (singular == "month" <==> UnitOf(word) == Month)
      && (singular != "month" && singular == "year" <==> UnitOf(word) == Year)
      && (singular != "month" && singular != "year" && singular == "week" <==> UnitOf(word) == Week)
  {
  }

  /**
   * calculateCancellationDeadline(): the PHP steps on a working copy of the
   * end date, including the month-end repair after an overflowing month shift.
   */
  method CalculateCancellationDeadline(c: ContractRecord) returns (r: Option<Date>)
    requires ValidOptionalDate(c.endDate)
    ensures r == CancellationDeadline(c.endDate, c.cancellationPeriod)
  {
    if c.endDate.None? || PhpEmpty(c.cancellationPeriod) {
      DeadlineOfNoMatch(c.endDate, c.cancellationPeriod);
      return None;
    }
    var m := MatchPeriod(Trim(c.cancellationPeriod));
    if m.None? {
      DeadlineOfNoMatch(c.endDate, c.cancellationPeriod);
      return None;
    }
    var value := DigitsValue(m.value.digits);
    var end := c.endDate.value;
    DeadlineOfMatch(end, c.cancellationPeriod, m.value);
    var deadline := ShiftEndDate(end, Period(value, UnitOf(m.value.word)));
    r := Some(deadline);
  }

  /**
   * The date arithmetic of calculateCancellationDeadline(): a month shift with
   * the overflow repair, a year shift, or a shift by days or weeks.
   */
  method ShiftEndDate(end: Date, period: Period) returns (deadline: Date)
    requires ValidDate(end)
    ensures deadline == ShiftBack(end, period)
  {
    var value := period.value;
    deadline := end;
    if period.unit == Month {
      var originalDay := deadline.day;
      deadline := AddMonthsOverflow(deadline, -(value as int));
      var newDay := deadline.day;
      if newDay > originalDay || (originalDay > 28 && newDay < originalDay) {
        deadline := LastDayOfPreviousMonth(deadline);
      }
      OverflowRepairIsClamp(end, -(value as int));
    } else if period.unit == Year {
      deadline := AddYearsOverflow(deadline, -(value as int));
    } else if period.unit == Week {
      deadline := DaysEarlier(deadline, 7 * value);
    } else {
      deadline := DaysEarlier(deadline, value);
    }
  }

  // ---------------------------------------------------------------------
  // Stages, eligibility and the ledger key

  datatype Stage = First | Final

  function StageName(s: Stage): string
  {
    match s
    case First => "first"
    case Final => "final"
  }

  /** isContractEligibleForReminder(): active, reminders on, not archived; nothing else is consulted. */
  predicate Eligible(c: ContractRecord)
  {
    c.status == StatusActive && c.reminderEnabled != 0 && c.archived == 0
  }

  /** getReminderType(): the ledger key, which carries the end date so a renewed contract is reminded again. */
  function ReminderType(c: ContractRecord, s: Stage): (key: string)
    requires ValidOptionalDate(c.endDate)
  {
    "cancellation_" + (if c.endDate.Some? then Ymd(c.endDate.value) else "unknown") + "_" + StageName(s)
  }

  /** The date part and the stage name can be cut back out of a key. */
  lemma KeyInjective(ya: string, yb: string, sa: string, sb: string)
    requires |sa| == 5 && |sb| == 5
    requires "cancellation_" + ya + "_" + sa == "cancellation_" + yb + "_" + sb
    ensures ya == yb && sa == sb
  {
    KeySlices(ya, sa);
    KeySlices(yb, sb);
  }

  lemma KeySlices(y: string, stage: string)
    requires |stage| == 5
    ensures var k := "cancellation_" + y + "_" + stage;
            |k| == |y| + 19 && k[13..|k| - 6] == y && k[|k| - 5..] == stage
  {
    var k := "cancellation_" + y + "_" + stage;
    assert k == "cancellation_" + (y + ("_" + stage));
    assert k[13..] == y + ("_" + stage);
    assert k[13..][..|y|] == y;
  }

  lemma StageNameInjective(s: Stage, t: Stage)
    requires StageName(s) == StageName(t)
    ensures s == t
  {

  }

  /** Two keys for known end dates are equal only for the same end date and the same stage. */
  lemma ReminderTypeInjective(a: ContractRecord, b: ContractRecord, s: Stage, t: Stage)
    requires ValidOptionalDate(a.endDate) && ValidOptionalDate(b.endDate)
    requires a.endDate.Some? && b.endDate.Some?
    requires ReminderType(a, s) == ReminderType(b, t)
    ensures a.endDate == b.endDate && s == t
  {
    KeyInjective(Ymd(a.endDate.value), Ymd(b.endDate.value), StageName(s), StageName(t));
    YmdInjective(a.endDate.value, b.endDate.value);
    StageNameInjective(s, t);
  }

  // ---------------------------------------------------------------------
  // The reminder windows

  /** The lead time of a stage: the contract's own days or days1 for the first, always days2 for the final. */
  function LeadDays(c: ContractRecord, s: Stage, days1: int, days2: int): int
  {
    match s
    case First => c.reminderDays.GetOr(days1)
    case Final => days2
  }

  /** The two comparisons of shouldSend*Reminder(): not before the reminder date, not after the deadline. */
  predicate InWindow(now: Instant, deadline: Date, lead: int)
    requires ValidInstant(now) && ValidDate(deadline)
  {
    var reminderDate := Midnight(AddDays(deadline, -lead));
    !Before(now, reminderDate) && !Before(Midnight(deadline), now)
  }

  /**
   * The window in day numbers: from the reminder date through the deadline
   * day, but on the deadline day itself only at 00:00:00.
   */
  lemma WindowInDays(now: Instant, deadline: Date, lead: int)
    requires ValidInstant(now) && ValidDate(deadline)
    ensures InWindow(now, deadline, lead) <==>
              && Ordinal(deadline) - lead <= Ordinal(now.date)
              && (Ordinal(now.date) < Ordinal(deadline) || (now.date == deadline && now.second == 0))
  {
    AddDaysOrdinal(deadline, -lead);
    BeforeMidnight(now, AddDays(deadline, -lead));
    BeforeMidnight(now, deadline);
    if now.date != deadline {
      OrdinalInjective(now.date, deadline);
    }
  }

  /** The stage is due apart from the ledger. */
  predicate Due(c: ContractRecord, s: Stage, now: Instant, days1: int, days2: int)
    requires ValidRecord(c) && ValidInstant(now)
  {
    var deadline := CancellationDeadline(c.endDate, c.cancellationPeriod);
    Eligible(c) && deadline.Some? && InWindow(now, deadline.value, LeadDays(c, s, days1, days2))
  }

  /** The window condition of a due stage, in day numbers. */
  predicate DueInDays(c: ContractRecord, s: Stage, now: Instant, days1: int, days2: int)
    requires ValidRecord(c) && ValidInstant(now)
  {
    var deadline := CancellationDeadline(c.endDate, c.cancellationPeriod);
    && Eligible(c) && deadline.Some?
    && Ordinal(deadline.value) - LeadDays(c, s, days1, days2) <= Ordinal(now.date)
    && (Ordinal(now.date) < Ordinal(deadline.value) || (now.date == deadline.value && now.second == 0))
  }

  predicate Sent(c: ContractRecord, s: Stage, ledger: set<(int, string)>)
    requires ValidRecord(c)
  {
    (c.id, ReminderType(c, s)) in ledger
  }

  /** shouldSendFirstReminder(): the contract's own reminder days, or the first-stage default. */
  function ShouldSendFirstReminder(c: ContractRecord, now: Instant, days1: int, ledger: set<(int, string)>): (r: bool)
    requires ValidRecord(c) && ValidInstant(now)
    ensures r ==> Eligible(c) && !Sent(c, First, ledger)
  {
    if !Eligible(c) then false
    else
      var deadline := CancellationDeadline(c.endDate, c.cancellationPeriod);
      if deadline.None? then false
      else if !InWindow(now, deadline.value, c.reminderDays.GetOr(days1)) then false
      else (c.id, ReminderType(c, First)) !in ledger
  }

  /** shouldSendFinalReminder(): the contract's own days play no part. */
  function ShouldSendFinalReminder(c: ContractRecord, now: Instant, days2: int, ledger: set<(int, string)>): (r: bool)
    requires ValidRecord(c) && ValidInstant(now)
    ensures r ==> Eligible(c) && !Sent(c, Final, ledger)
  {
    if !Eligible(c) then false
    else
      var deadline := CancellationDeadline(c.endDate, c.cancellationPeriod);
      if deadline.None? then false
      else if !InWindow(now, deadline.value, days2) then false
      else (c.id, ReminderType(c, Final)) !in ledger
  }

  function ShouldSend(c: ContractRecord, s: Stage, now: Instant, days1: int, days2: int, ledger: set<(int, string)>): bool
    requires ValidRecord(c) && ValidInstant(now)
  {
    match s
    case First => ShouldSendFirstReminder(c, now, days1, ledger)
    case Final => ShouldSendFinalReminder(c, now, days2, ledger)
  }

  /** Whether a stage should be sent is "due and not yet in the ledger", for either stage. */
  lemma ShouldSendIffDueAndUnsent(c: ContractRecord, s: Stage, now: Instant, days1: int, days2: int, ledger: set<(int, string)>)
    requires ValidRecord(c) && ValidInstant(now)
    ensures ShouldSend(c, s, now, days1, days2, ledger) <==> Due(c, s, now, days1, days2) && !Sent(c, s, ledger)
  {
  }

  /** Due, read in day numbers: from the reminder date through the deadline day, that day only at 00:00:00. */
  lemma DueIffDueInDays(c: ContractRecord, s: Stage, now: Instant, days1: int, days2: int)
    requires ValidRecord(c) && ValidInstant(now)
    ensures Due(c, s, now, days1, days2) <==> DueInDays(c, s, now, days1, days2)
  {
    var deadline := CancellationDeadline(c.endDate, c.cancellationPeriod);
    if deadline.Some? {
      WindowInDays(now, deadline.value, LeadDays(c, s, days1, days2));
    }
  }

  /** The deprecated shouldSendReminder(): either stage. */
  function ShouldSendReminder(c: ContractRecord, now: Instant, days1: int, days2: int, ledger: set<(int, string)>): (r: bool)
    requires ValidRecord(c) && ValidInstant(now)
    ensures r <==> exists s :: ShouldSend(c, s, now, days1, days2, ledger)
  {
    assert ShouldSend(c, First, now, days1, days2, ledger) == ShouldSendFirstReminder(c, now, days1, ledger);
    assert ShouldSend(c, Final, now, days1, days2, ledger) == ShouldSendFinalReminder(c, now, days2, ledger);
    ShouldSendFirstReminder(c, now, days1, ledger) || ShouldSendFinalReminder(c, now, days2, ledger)
  }

  /** A recorded stage is never due again for a contract with the same id and end date. */
  lemma SentStageNotDue(c: ContractRecord, d: ContractRecord, s: Stage, now: Instant, days1: int, days2: int,
                        ledger: set<(int, string)>)
    requires ValidRecord(c) && ValidRecord(d) && ValidInstant(now)
    requires Sent(c, s, ledger) && d.id == c.id && d.endDate == c.endDate
    ensures !ShouldSend(d, s, now, days1, days2, ledger)
  {
    assert ReminderType(d, s) == ReminderType(c, s);
  }

  // ---------------------------------------------------------------------
  // The sweep

  predicate AllValid(cs: seq<ContractRecord>)
  {
    forall i :: 0 <= i < |cs| ==> ValidRecord(cs[i])
  }

  /**
   * One stage of one candidate: its ledger row is added when the stage
   * should be sent and neither the dispatch nor the insert throws; `failing`
   * names the (candidate position, stage) pairs that throw. A Talk or mail
   * transport that fails does not make a stage failing: sendReminders catches
   * those itself, so the stage is still recorded and counted.
   */
  function RecordStage(c: ContractRecord, i: int, s: Stage, now: Instant, days1: int, days2: int,
                       failing: set<(int, Stage)>, ledger: set<(int, string)>): (r: set<(int, string)>)
    requires ValidRecord(c) && ValidInstant(now)
    ensures ledger <= r && (r == ledger || |r| == |ledger| + 1)
  {
    if ShouldSend(c, s, now, days1, days2, ledger) && (i, s) !in failing
    then ledger + {(c.id, ReminderType(c, s))}
    else ledger
  }

  /** A due stage whose dispatch does not fail is in the ledger after its turn, whether or not it was before. */
  lemma RecordStageSettles(c: ContractRecord, i: int, s: Stage, now: Instant, days1: int, days2: int,
                           failing: set<(int, Stage)>, ledger: set<(int, string)>)
    requires ValidRecord(c) && ValidInstant(now)
    requires (i, s) !in failing && Due(c, s, now, days1, days2)
    ensures Sent(c, s, RecordStage(c, i, s, now, days1, days2, failing, ledger))
  {
    ShouldSendIffDueAndUnsent(c, s, now, days1, days2, ledger);
  }

  /** The ledger after sweeping the candidates in order, first stage before final stage. */
  function SweepLedger(cs: seq<ContractRecord>, now: Instant, days1: int, days2: int,
                       failing: set<(int, Stage)>, ledger: set<(int, string)>): (r: set<(int, string)>)
    requires AllValid(cs) && ValidInstant(now)
    ensures ledger <= r && |r| <= |ledger| + 2 * |cs|
  {
    if cs == [] then ledger
    else
      var i := |cs| - 1;
      var before := SweepLedger(cs[..i], now, days1, days2, failing, ledger);
      var afterFirst := RecordStage(cs[i], i, First, now, days1, days2, failing, before);
      RecordStage(cs[i], i, Final, now, days1, days2, failing, afterFirst)
  }

  /** Sweeping one more candidate runs its first stage, then its final stage, on the ledger so far. */
  lemma SweepLedgerStep(cs: seq<ContractRecord>, i: int, now: Instant, days1: int, days2: int,
                        failing: set<(int, Stage)>, ledger: set<(int, string)>)
    requires AllValid(cs) && ValidInstant(now) && 0 <= i < |cs|
    ensures SweepLedger(cs[..i + 1], now, days1, days2, failing, ledger)
            == RecordStage(cs[i], i, Final, now, days1, days2, failing,
                 RecordStage(cs[i], i, First, now, days1, days2, failing,
                   SweepLedger(cs[..i], now, days1, days2, failing, ledger)))
  {
    assert cs[..i + 1][..i] == cs[..i];
  }

  /** Every row the sweep adds is a stage of a candidate whose dispatch did not fail and that was due. */
  lemma {:induction false} SweepRecordsOnlyDueStages(cs: seq<ContractRecord>, now: Instant, days1: int, days2: int,
                                                     failing: set<(int, Stage)>, ledger: set<(int, string)>,
                                                     key: (int, string))
    requires AllValid(cs) && ValidInstant(now)
    requires key in SweepLedger(cs, now, days1, days2, failing, ledger) && key !in ledger
    ensures exists i, s :: && 0 <= i < |cs| && (i, s) !in failing && Due(cs[i], s, now, days1, days2)
                           && key == (cs[i].id, ReminderType(cs[i], s))
  {
    var i := |cs| - 1;
    var before := SweepLedger(cs[..i], now, days1, days2, failing, ledger);
    var afterFirst := RecordStage(cs[i], i, First, now, days1, days2, failing, before);
    if key in before {
      SweepRecordsOnlyDueStages(cs[..i], now, days1, days2, failing, ledger, key);
      var j, s :| && 0 <= j < |cs[..i]| && (j, s) !in failing && Due(cs[..i][j], s, now, days1, days2)
                  && key == (cs[..i][j].id, ReminderType(cs[..i][j], s));
      assert cs[..i][j] == cs[j];
    } else if key in afterFirst {
      ShouldSendIffDueAndUnsent(cs[i], First, now, days1, days2, before);
      assert (i, First) !in failing && Due(cs[i], First, now, days1, days2);
    } else {
      ShouldSendIffDueAndUnsent(cs[i], Final, now, days1, days2, afterFirst);
      assert (i, Final) !in failing && Due(cs[i], Final, now, days1, days2);
    }
  }

  /** After the sweep, every stage that was due and whose dispatch did not fail is in the ledger. */
  lemma {:induction false} SweepSettlesDueStages(cs: seq<ContractRecord>, now: Instant, days1: int, days2: int,
                                                 failing: set<(int, Stage)>, ledger: set<(int, string)>,
                                                 j: int, s: Stage)
    requires AllValid(cs) && ValidInstant(now)
    requires 0 <= j < |cs| && (j, s) !in failing && Due(cs[j], s, now, days1, days2)
    ensures Sent(cs[j], s, SweepLedger(cs, now, days1, days2, failing, ledger))
  {
    var i := |cs| - 1;
    var before := SweepLedger(cs[..i], now, days1, days2, failing, ledger);
    var afterFirst := RecordStage(cs[i], i, First, now, days1, days2, failing, before);
    var after := SweepLedger(cs, now, days1, days2, failing, ledger);
    assert after == RecordStage(cs[i], i, Final, now, days1, days2, failing, afterFirst);
    if j < i {
      SweepSettlesDueStages(cs[..i], now, days1, days2, failing, ledger, j, s);
      assert cs[..i][j] == cs[j];
    } else if s == First {
      assert j == i;
      RecordStageSettles(cs[i], i, First, now, days1, days2, failing, before);
    } else {
      assert j == i;
      RecordStageSettles(cs[i], i, Final, now, days1, days2, failing, afterFirst);
    }
  }

  /** A second sweep with the same clock sends nothing that the first one dispatched successfully. */
  lemma SweepIsNotRepeated(cs: seq<ContractRecord>, now: Instant, days1: int, days2: int,
                           failing: set<(int, Stage)>, ledger: set<(int, string)>, j: int, s: Stage)
    requires AllValid(cs) && ValidInstant(now)
    requires 0 <= j < |cs| && (j, s) !in failing
    ensures !ShouldSend(cs[j], s, now, days1, days2, SweepLedger(cs, now, days1, days2, failing, ledger))
  {
    var after := SweepLedger(cs, now, days1, days2, failing, ledger);
    ShouldSendIffDueAndUnsent(cs[j], s, now, days1, days2, after);
    if Due(cs[j], s, now, days1, days2) {
      SweepSettlesDueStages(cs, now, days1, days2, failing, ledger, j, s);
    }
  }

  class ReminderService {
    /** The reminder_sent table. */
    var ledger: set<(int, string)>

    constructor (initial: set<(int, string)>)
      ensures ledger == initial
    {
      ledger := initial;
    }

    /** hasBeenSent() */
    function HasBeenSent(contractId: int, reminderType: string): (r: bool)
      reads this
      ensures r <==> (contractId, reminderType) in ledger
    {
      (contractId, reminderType) in ledger
    }

    /** markReminderSent(): one ledger row for the contract and stage. */
    method MarkReminderSent(c: ContractRecord, s: Stage)
      requires ValidRecord(c)
      modifies this`ledger
      ensures ledger == old(ledger) + {(c.id, ReminderType(c, s))}
      ensures Sent(c, s, ledger)
    {
      ledger := ledger + {(c.id, ReminderType(c, s))};
    }

    /**
     * One guarded try block of checkAndSendReminders(): when the stage should
     * be sent, dispatch it and record it, unless that throws.
     */
    method DispatchStage(c: ContractRecord, i: int, s: Stage, now: Instant, days1: int, days2: int,
                         failing: set<(int, Stage)>) returns (sent: bool)
      requires ValidRecord(c) && ValidInstant(now)
      modifies this`ledger
      ensures ledger == RecordStage(c, i, s, now, days1, days2, failing, old(ledger))
      ensures |ledger| == |old(ledger)| + (if sent then 1 else 0)
    {
      var should := match s
        case First => ShouldSendFirstReminder(c, now, days1, ledger)
        case Final => ShouldSendFinalReminder(c, now, days2, ledger);
      sent := false;
      if should && (i, s) !in failing {
        MarkReminderSent(c, s);
        sent := true;
      }
    }

    /**
     * checkAndSendReminders(): for each candidate the first stage, then the
     * final stage; a stage that should be sent is dispatched, recorded and
     * counted, unless it throws, in which case it is skipped. The two
     * eligibility checks run outside that per-stage `try`; here their ledger
     * lookup is set membership and cannot throw, so the path on which a
     * failing lookup ends the whole sweep is not part of this model.
     */
    method CheckAndSendReminders(candidates: seq<ContractRecord>, now: Instant, days1: int, days2: int,
                                 failing: set<(int, Stage)>) returns (count: nat)
      requires AllValid(candidates) && ValidInstant(now)
      modifies this`ledger
      ensures ledger == SweepLedger(candidates, now, days1, days2, failing, old(ledger))
      ensures count == |ledger| - |old(ledger)| && count <= 2 * |candidates|
    {
      count := 0;
      var i := 0;
      while i < |candidates|
        invariant 0 <= i <= |candidates|
        invariant ledger == SweepLedger(candidates[..i], now, days1, days2, failing, old(ledger))
        invariant count == |ledger| - |old(ledger)|
      {
        var c := candidates[i];
        SweepLedgerStep(candidates, i, now, days1, days2, failing, old(ledger));
        var sentFirst := DispatchStage(c, i, First, now, days1, days2, failing);
        if sentFirst {
          count := count + 1;
        }
        var sentFinal := DispatchStage(c, i, Final, now, days1, days2, failing);
        if sentFinal {
          count := count + 1;
        }
        i := i + 1;
      }
      assert candidates[..i] == candidates;
    }
  }

  // ---------------------------------------------------------------------
  // Worked examples

  /** Days and weeks count back on the calendar: 14 days and 2 weeks before 30 June 2026. */
  lemma ExampleDaysAndWeeks()
    ensures ShiftBack(Date(2026, 6, 30), Period(14, Day)) == Date(2026, 6, 16)
    ensures ShiftBack(Date(2026, 6, 30), Period(2, Week)) == Date(2026, 6, 16)
    ensures ShiftBack(Date(2026, 3, 5), Period(7, Day)) == Date(2026, 2, 26)
  {
    DaysEarlierByOrdinal(Date(2026, 6, 30), 14, Date(2026, 6, 16));
    DaysEarlierByOrdinal(Date(2026, 3, 5), 7, Date(2026, 2, 26));
  }

  /** A day shift lands on the date whose day number is that many lower. */
  lemma DaysEarlierByOrdinal(d: Date, k: nat, e: Date)
    requires ValidDate(d) && ValidDate(e) && Ordinal(e) == Ordinal(d) - k
    ensures DaysEarlier(d, k) == e
  {
    DaysEarlierOrdinal(d, k);
    if DaysEarlier(d, k) != e {
      OrdinalInjective(DaysEarlier(d, k), e);
    }
  }

  /** Month shifts keep the day or fall back to the last day; 29 February rolls over in a year shift. */
  lemma ExampleMonthsAndYears()
    ensures ShiftBack(Date(2026, 6, 30), Period(3, Month)) == Date(2026, 3, 30)
    ensures ShiftBack(Date(2026, 3, 31), Period(1, Month)) == Date(2026, 2, 28)
    ensures ShiftBack(Date(2024, 3, 31), Period(1, Month)) == Date(2024, 2, 29)
    ensures ShiftBack(Date(2026, 1, 31), Period(2, Month)) == Date(2025, 11, 30)
    ensures ShiftBack(Date(2026, 6, 30), Period(1, Year)) == Date(2025, 6, 30)
    ensures ShiftBack(Date(2028, 2, 29), Period(1, Year)) == Date(2027, 3, 1)
  {
  }

  /** With a 14-day period ending 30 June 2026 the first stage is due from 2 June until 16 June, 00:00:00. */
  lemma ExampleWindow(c: ContractRecord)
    requires ValidRecord(c) && Eligible(c) && c.reminderDays == None
    requires c.endDate == Some(Date(2026, 6, 30)) && ParsePeriod(c.cancellationPeriod) == Some(Period(14, Day))
    ensures ShouldSendFirstReminder(c, Instant(Date(2026, 6, 10), 43200), 14, {})
    ensures ShouldSendFirstReminder(c, Instant(Date(2026, 6, 2), 0), 14, {})
    ensures !ShouldSendFirstReminder(c, Instant(Date(2026, 6, 1), 86399), 14, {})
    ensures ShouldSendFirstReminder(c, Instant(Date(2026, 6, 16), 0), 14, {})
    ensures !ShouldSendFirstReminder(c, Instant(Date(2026, 6, 16), 1), 14, {})
  {
    var deadline := Date(2026, 6, 16);
    assert CancellationDeadline(c.endDate, c.cancellationPeriod) == Some(deadline) by {
      ExampleDaysAndWeeks();
    }
    WindowInDays(Instant(Date(2026, 6, 10), 43200), deadline, 14);
    WindowInDays(Instant(Date(2026, 6, 2), 0), deadline, 14);
    WindowInDays(Instant(Date(2026, 6, 1), 86399), deadline, 14);
    WindowInDays(Instant(Date(2026, 6, 16), 0), deadline, 14);
    WindowInDays(Instant(Date(2026, 6, 16), 1), deadline, 14);
  }
}
