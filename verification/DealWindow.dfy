/** The preferred publication window of a deal and its validation against the clock. */
module DealWindow {
  import opened Wrappers
  import opened Calendar
  import opened Text

  // An instant in nanoseconds; instant 0 is the start of day number 0, in UTC.
  type Instant = int
  const NANOS_PER_DAY := 86_400_000_000_000

  datatype PreferableDatetime = PreferableDatetime(
    dateFrom: string,
    dateTo: string,
    timeFrom: string,
    timeTo: string)

  datatype Field = DateFrom | DateTo | TimeFrom | TimeTo

  datatype WindowError =
    | InvalidDate(field: Field)
    | DateFromTooEarly
    | DateToBeforeDateFrom
    | DateFromRequired
    | InvalidTime(field: Field)
    | TimeOutOfRange(field: Field)
    | TimeToBeforeTimeFrom

  // ---------- Dates ----------

  function Midnight(d: Date): Instant
    requires ValidDate(d)
  {
    DayNumber(d) * NANOS_PER_DAY
  }

  // DD.MM.YYYY
  function PrintDate(d: Date): string
    requires 0 <= d.day && 0 <= d.month && 0 <= d.year
  {
    Padded(d.day, 2) + "." + Padded(d.month, 2) + "." + Padded(d.year, 4)
  }

  // time.Parse with layout 02.01.2006.
  function ParseDate(s: string): (r: Option<Date>)
    ensures r.Some? ==> ValidDate(r.value) && 0 <= r.value.year <= 9999
  {
    if |s| != 10 || s[2] != '.' || s[5] != '.' then None
    else if !AllDigits(s[0..2]) || !AllDigits(s[3..5]) || !AllDigits(s[6..10]) then None
    else
      var d := Date(Value(s[6..10]), Value(s[3..5]), Value(s[0..2]));
      ValuePadded(s[6..10]);
      assert Pow10(4) == 10_000;
      if ValidDate(d) then Some(d) else None
  }

  // Ten characters with dots in the third and sixth place are their three numbers and nothing else.
  lemma DottedParts(s: string, d: string, m: string, y: string)
    requires |d| == 2 && |m| == 2 && |y| == 4
    ensures s == d + "." + m + "." + y
      <==> |s| == 10 && s[2] == '.' && s[5] == '.' && s[0..2] == d && s[3..5] == m && s[6..10] == y
  {
    var t := d + "." + m + "." + y;
    assert t[0..2] == d && t[3..5] == m && t[6..10] == y && t[2] == '.' && t[5] == '.';
    if |s| == 10 && s[2] == '.' && s[5] == '.' && s[0..2] == d && s[3..5] == m && s[6..10] == y {
      forall i | 0 <= i < 10 ensures s[i] == t[i] {
        if i < 2 { assert s[i] == s[0..2][i]; }
        else if 3 <= i < 5 { assert s[i] == s[3..5][i - 3]; }
        else if 6 <= i { assert s[i] == s[6..10][i - 6]; }
      }
    }
  }

  lemma PaddedIsValue(s: string, n: nat, w: nat)
    requires n < Pow10(w)
    ensures s == Padded(n, w) <==> |s| == w && AllDigits(s) && Value(s) == n
  {
    PaddedValue(n, w);
    if |s| == w && AllDigits(s) && Value(s) == n { ValuePadded(s); }
  }

  // Parsing accepts exactly the printed forms of real dates of years 0 to 9999, and undoes printing.
  lemma ParseDateInvertsPrint(s: string, d: Date)
    ensures ParseDate(s) == Some(d) <==> ValidDate(d) && 0 <= d.year <= 9999 && s == PrintDate(d)
  {
    if ValidDate(d) && 0 <= d.year <= 9999 {
      assert Pow10(2) == 100 && Pow10(4) == 10_000;
      var day, month, year := Padded(d.day, 2), Padded(d.month, 2), Padded(d.year, 4);
      DottedParts(s, day, month, year);
      if |s| == 10 {
        PaddedIsValue(s[0..2], d.day, 2);
        PaddedIsValue(s[3..5], d.month, 2);
        PaddedIsValue(s[6..10], d.year, 4);
      }
    }
  }

  ghost predicate DigitAt(s: string, i: nat) {
    i < |s| && 48 <= s[i] as int <= 57
  }

  ghost function TwoDigits(s: string, i: nat): int
    requires i + 1 < |s|
  {
    10 * (s[i] as int - 48) + (s[i + 1] as int - 48)
  }

  lemma TwoDigitValue(s: string, i: nat)
    requires DigitAt(s, i) && DigitAt(s, i + 1)
    ensures AllDigits(s[i..i + 2]) && Value(s[i..i + 2]) == TwoDigits(s, i)
  {
    ValueIsDecimal("", s[i]);
    ValueIsDecimal("" + [s[i]], s[i + 1]);
    assert s[i..i + 2] == "" + [s[i]] + [s[i + 1]];
  }

  lemma FourDigitValue(s: string, i: nat)
    requires DigitAt(s, i) && DigitAt(s, i + 1) && DigitAt(s, i + 2) && DigitAt(s, i + 3)
    ensures AllDigits(s[i..i + 4]) && Value(s[i..i + 4]) == 100 * TwoDigits(s, i) + TwoDigits(s, i + 2)
  {
    TwoDigitValue(s, i);
    ValueIsDecimal(s[i..i + 2], s[i + 2]);
    ValueIsDecimal(s[i..i + 2] + [s[i + 2]], s[i + 3]);
    assert s[i..i + 4] == s[i..i + 2] + [s[i + 2]] + [s[i + 3]];
  }

  // A date is written in ten characters: the day in the first two, a dot, the month in the next two, a dot, and the
  // year in the last four.
  lemma DateIsByItsCharacters(s: string, d: Date)
    ensures ParseDate(s) == Some(d) <==>
      && |s| == 10 && s[2] == '.' && s[5] == '.'
      && (forall i | i in [0, 1, 3, 4, 6, 7, 8, 9] :: DigitAt(s, i))
      && d == Date(100 * TwoDigits(s, 6) + TwoDigits(s, 8), TwoDigits(s, 3), TwoDigits(s, 0)) && ValidDate(d)
  {
    if |s| == 10 {
      if forall i | i in [0, 1, 3, 4, 6, 7, 8, 9] :: DigitAt(s, i) {
        assert DigitAt(s, 0) && DigitAt(s, 1) && DigitAt(s, 3) && DigitAt(s, 4);
        assert DigitAt(s, 6) && DigitAt(s, 7) && DigitAt(s, 8) && DigitAt(s, 9);
        TwoDigitValue(s, 0);
        TwoDigitValue(s, 3);
        FourDigitValue(s, 6);
      } else if AllDigits(s[0..2]) && AllDigits(s[3..5]) && AllDigits(s[6..10]) {
        DigitsAreAt(s, 0, 2);
        DigitsAreAt(s, 3, 5);
        DigitsAreAt(s, 6, 10);
      }
    }
  }

  lemma DigitsAreAt(s: string, from: nat, to: nat)
    requires from <= to <= |s| && AllDigits(s[from..to])
    ensures forall i | from <= i < to :: DigitAt(s, i)
  {
    forall i | from <= i < to ensures DigitAt(s, i) { assert IsDigit(s[from..to][i - from]); }
  }

  // ---------- Times ----------

  datatype TimeError = BadFormat | OutOfRange

  function ParseTimeMM(s: string): Result<nat, TimeError> {
    var parts := Split(s, ':');
    if |parts| != 2 then Err(BadFormat)
    else
      var h := Atoi(TrimSpace(parts[0]));
      if h.None? then Err(BadFormat)
      else
        var m := Atoi(TrimSpace(parts[1]));
        if m.None? then Err(BadFormat)
        else if h.value < 0 || h.value > 24 || m.value < 0 || m.value > 59 then Err(OutOfRange)
        else if h.value == 24 && m.value != 0 then Err(OutOfRange)
        else Ok(h.value * 60 + m.value)
  }

  // An hour or minute as it may be written: white space around a number.
  ghost predicate Writes(part: string, n: int) {
    exists before, core, after ::
      AllSpace(before) && AllSpace(after) && Trimmed(core) && part == before + core + after && Atoi(core) == Some(n)
  }

  lemma WritesIsTrimmedNumber(part: string, n: int)
    ensures Writes(part, n) <==> Atoi(TrimSpace(part)) == Some(n)
  {
    if Writes(part, n) {
      var before, core, after :|
        AllSpace(before) && AllSpace(after) && Trimmed(core) && part == before + core + after && Atoi(core) == Some(n);
      TrimRestores(before, core, after);
    }
    if Atoi(TrimSpace(part)) == Some(n) {
      var before, after := TrimSplits(part);
    }
  }

  // The string is HH:MM for this hour and minute.
  ghost predicate WritesTime(s: string, h: int, m: int) {
    exists a, b :: ':' !in a && ':' !in b && s == a + [':'] + b && Writes(a, h) && Writes(b, m)
  }

  lemma WritesTimeIsSplit(s: string, h: int, m: int)
    ensures WritesTime(s, h, m) <==>
      var p := Split(s, ':'); |p| == 2 && Atoi(TrimSpace(p[0])) == Some(h) && Atoi(TrimSpace(p[1])) == Some(m)
  {
    var p := Split(s, ':');
    if WritesTime(s, h, m) {
      var a, b :| ':' !in a && ':' !in b && s == a + [':'] + b && Writes(a, h) && Writes(b, m);
      SplitJoins(a, b, ':');
      WritesIsTrimmedNumber(a, h);
      WritesIsTrimmedNumber(b, m);
    }
    if |p| == 2 && Atoi(TrimSpace(p[0])) == Some(h) && Atoi(TrimSpace(p[1])) == Some(m) {
      SplitTwo(s, ':');
      WritesIsTrimmedNumber(p[0], h);
      WritesIsTrimmedNumber(p[1], m);
    }
  }

  ghost predicate TimeOfDay(h: int, m: int) {
    0 <= h <= 24 && 0 <= m <= 59 && (h == 24 ==> m == 0)
  }

  // Accepted strings are exactly those that write a time of day 00:00 to 24:00, and give its minute.
  lemma ParseTimeAccepts(s: string, minute: int)
    ensures (ParseTimeMM(s).Ok? && ParseTimeMM(s).value == minute)
      <==> exists h, m :: WritesTime(s, h, m) && TimeOfDay(h, m) && minute == h * 60 + m
  {
    var p := Split(s, ':');
    if ParseTimeMM(s).Ok? && ParseTimeMM(s).value == minute {
      var h, m := Atoi(TrimSpace(p[0])).value, Atoi(TrimSpace(p[1])).value;
      WritesTimeIsSplit(s, h, m);
      assert WritesTime(s, h, m) && TimeOfDay(h, m) && minute == h * 60 + m;
    }
    if h, m :| WritesTime(s, h, m) && TimeOfDay(h, m) && minute == h * 60 + m {
      WritesTimeIsSplit(s, h, m);
    }
  }

  lemma ParseTimeInRange(s: string)
    ensures ParseTimeMM(s).Ok? ==> 0 <= ParseTimeMM(s).value <= 1440
  {
  }

  lemma DigitsAreTrimmed(s: string)
    requires s != "" && AllDigits(s)
    ensures Trimmed(s) && ':' !in s
    ensures Value(s) <= MAX_INT ==> Atoi(s) == Some(Value(s))
  {
    assert IsDigit(s[0]) && IsDigit(s[|s| - 1]);
  }

  // The written hour or minute: white space, leading zeros, the digits, white space.
  function Written(before: string, zeros: nat, n: nat, after: string): string {
    before + (Zeros(zeros) + Digits(n)) + after
  }

  lemma WrittenReadsBack(before: string, zeros: nat, n: nat, after: string)
    requires AllSpace(before) && AllSpace(after) && n <= 1440
    ensures ':' !in Written(before, zeros, n, after)
    ensures Atoi(TrimSpace(Written(before, zeros, n, after))) == Some(n)
  {
    var core := Zeros(zeros) + Digits(n);
    LeadingZeros(zeros, Digits(n));
    DigitsAreTrimmed(core);
    TrimRestores(before, core, after);
  }

  lemma ParseTimeOfParts(a: string, b: string, h: nat, m: nat)
    requires ':' !in a && ':' !in b && Atoi(TrimSpace(a)) == Some(h) && Atoi(TrimSpace(b)) == Some(m) && TimeOfDay(h, m)
    ensures ParseTimeMM(a + [':'] + b) == Ok(h * 60 + m)
  {
    SplitJoins(a, b, ':');
  }

  // Parsing undoes printing: any minute of the day, with any number of leading zeros and any white space
  // around hour and minute, is read back.
  lemma ParseTimeInvertsPrint(minute: nat, z1: nat, z2: nat, w1: string, w2: string, w3: string, w4: string)
    requires minute <= 1440 && AllSpace(w1) && AllSpace(w2) && AllSpace(w3) && AllSpace(w4)
    ensures ParseTimeMM(Written(w1, z1, minute / 60, w2) + [':'] + Written(w3, z2, minute % 60, w4)) == Ok(minute)
  {
    var h, m := minute / 60, minute % 60;
    WrittenReadsBack(w1, z1, h, w2);
    WrittenReadsBack(w3, z2, m, w4);
    ParseTimeOfParts(Written(w1, z1, h, w2), Written(w3, z2, m, w4), h, m);
  }

  // ---------- The window ----------

  // The date of the clock, in UTC.
  function Today(now: Instant): (d: Date)
    ensures ValidDate(d)
  {
    DateOf(now / NANOS_PER_DAY)
  }

  // time.Now().AddDate(0, 0, 1) at midnight.
  function TomorrowStart(now: Instant): Instant {
    Midnight(NextDay(Today(now)))
  }

  function TimeFailure(e: TimeError, f: Field): WindowError {
    if e.BadFormat? then InvalidTime(f) else TimeOutOfRange(f)
  }

  function ValidateDates(p: PreferableDatetime, now: Instant): Option<WindowError> {
    if p.dateFrom != "" then
      var dateFrom := ParseDate(p.dateFrom);
      if dateFrom.None? then Some(InvalidDate(DateFrom))
      else if Midnight(dateFrom.value) < TomorrowStart(now) then Some(DateFromTooEarly)
      else if p.dateTo != "" then
        var dateTo := ParseDate(p.dateTo);
        if dateTo.None? then Some(InvalidDate(DateTo))
        else if Midnight(dateTo.value) < Midnight(dateFrom.value) then Some(DateToBeforeDateFrom)
        else None
      else None
    else if p.dateTo != "" then Some(DateFromRequired)
    else None
  }

  function ValidateTimes(p: PreferableDatetime): Option<WindowError> {
    var from, to := ParseTimeMM(p.timeFrom), ParseTimeMM(p.timeTo);
    if p.timeFrom != "" && from.Err? then Some(TimeFailure(from.error, TimeFrom))
    else if p.timeTo != "" && to.Err? then Some(TimeFailure(to.error, TimeTo))
    else if p.timeFrom != "" && p.timeTo != "" && to.value < from.value then Some(TimeToBeforeTimeFrom)
    else None
  }

  // None is acceptance; p is None when the request has no window.
  function ValidatePreferableDatetime(p: Option<PreferableDatetime>, now: Instant): Option<WindowError> {
    if p.None? || p.value == PreferableDatetime("", "", "", "") then None
    else
      var dates := ValidateDates(p.value, now);
      if dates.Some? then dates else ValidateTimes(p.value)
  }

  // ---------- What acceptance means ----------

  ghost predicate WritesDate(s: string, d: Date) {
    ValidDate(d) && 0 <= d.year <= 9999 && s == PrintDate(d)
  }

  ghost predicate WritesMinute(s: string, minute: int) {
    exists h, m :: WritesTime(s, h, m) && TimeOfDay(h, m) && minute == h * 60 + m
  }

  // An end date needs a start date; both are real dates, in order.
  ghost predicate CoherentDates(p: PreferableDatetime) {
    if p.dateFrom == "" then p.dateTo == ""
    else
      exists from :: WritesDate(p.dateFrom, from)
        && (p.dateTo != "" ==> exists to :: WritesDate(p.dateTo, to) && !Earlier(to, from))
  }

  // Each given time is a minute of the day, and two given times are in order.
  ghost predicate CoherentTimes(p: PreferableDatetime) {
    && (p.timeFrom != "" ==> exists a :: WritesMinute(p.timeFrom, a))
    && (p.timeTo != "" ==> exists b :: WritesMinute(p.timeTo, b))
    && (p.timeFrom != "" && p.timeTo != "" ==>
          forall a, b :: WritesMinute(p.timeFrom, a) && WritesMinute(p.timeTo, b) ==> a <= b)
  }

  // A start date lies after the clock's own date.
  ghost predicate StartsAfterToday(p: PreferableDatetime, now: Instant) {
    p.dateFrom != "" ==> exists from :: WritesDate(p.dateFrom, from) && Earlier(Today(now), from)
  }

  lemma DateIsWritten(s: string)
    ensures ParseDate(s).Some? ==> WritesDate(s, ParseDate(s).value)
    ensures forall d :: WritesDate(s, d) ==> ParseDate(s) == Some(d)
  {
    if ParseDate(s).Some? { ParseDateInvertsPrint(s, ParseDate(s).value); }
    forall d | WritesDate(s, d) ensures ParseDate(s) == Some(d) { ParseDateInvertsPrint(s, d); }
  }

  lemma MinuteIsWritten(s: string)
    ensures ParseTimeMM(s).Ok? ==> WritesMinute(s, ParseTimeMM(s).value)
    ensures forall n :: WritesMinute(s, n) ==> ParseTimeMM(s).Ok? && ParseTimeMM(s).value == n
  {
    if ParseTimeMM(s).Ok? { ParseTimeAccepts(s, ParseTimeMM(s).value); }
    forall n | WritesMinute(s, n) ensures ParseTimeMM(s).Ok? && ParseTimeMM(s).value == n { ParseTimeAccepts(s, n); }
  }

  // Tomorrow's start is the first midnight after now, and the start of the next Gregorian day.
  lemma TomorrowIsNextMidnight(now: Instant)
    ensures now < TomorrowStart(now) <= now + 86_400_000_000_000
    ensures TomorrowStart(now) == (now / 86_400_000_000_000 + 1) * 86_400_000_000_000
  {
    NextDayIsOneLater(Today(now));
  }

  // Not before tomorrow, later than today, and not yet begun are the same for a date.
  lemma NotBeforeTomorrow(now: Instant, d: Date)
    requires ValidDate(d)
    ensures Midnight(d) >= TomorrowStart(now) <==> Earlier(Today(now), d)
    ensures Midnight(d) >= TomorrowStart(now) <==> now < Midnight(d)
  {
    TomorrowIsNextMidnight(now);
    DayNumberIsOrder(Today(now), d);
    var k, n := DayNumber(d), now / NANOS_PER_DAY;
    assert k > n <==> k * NANOS_PER_DAY >= (n + 1) * NANOS_PER_DAY;
    assert k > n <==> now < k * NANOS_PER_DAY;
  }

  lemma MidnightIsOrder(a: Date, b: Date)
    requires ValidDate(a) && ValidDate(b)
    ensures Midnight(a) < Midnight(b) <==> Earlier(a, b)
  {
    DayNumberIsOrder(a, b);
  }

  lemma DatesAccepted(p: PreferableDatetime, now: Instant)
    ensures ValidateDates(p, now) == None <==> CoherentDates(p) && StartsAfterToday(p, now)
  {
    DateIsWritten(p.dateFrom);
    DateIsWritten(p.dateTo);
    var from, to := ParseDate(p.dateFrom), ParseDate(p.dateTo);
    if from.Some? { NotBeforeTomorrow(now, from.value); }
    if from.Some? && to.Some? { MidnightIsOrder(to.value, from.value); }
  }

  lemma TimesAccepted(p: PreferableDatetime)
    ensures ValidateTimes(p) == None <==> CoherentTimes(p)
  {
    MinuteIsWritten(p.timeFrom);
    MinuteIsWritten(p.timeTo);
  }

  // The validator accepts exactly the coherent windows that start after today; the empty window is one.
  lemma AcceptedIsCoherent(p: PreferableDatetime, now: Instant)
    ensures ValidatePreferableDatetime(Some(p), now) == None
      <==> CoherentDates(p) && CoherentTimes(p) && StartsAfterToday(p, now)
  {
    DatesAccepted(p, now);
    TimesAccepted(p);
  }

  lemma StartsAfterTodayUntilStart(p: PreferableDatetime, now: Instant)
    requires CoherentDates(p)
    ensures StartsAfterToday(p, now) <==> forall d :: WritesDate(p.dateFrom, d) ==> now < Midnight(d)
  {
    DateIsWritten(p.dateFrom);
    var from := ParseDate(p.dateFrom);
    if from.Some? { NotBeforeTomorrow(now, from.value); }
  }

  // A coherent window stays acceptable exactly until the midnight that begins its start date.
  lemma AcceptedUntilStart(p: PreferableDatetime, now: Instant)
    ensures ValidatePreferableDatetime(Some(p), now) == None
      <==> CoherentDates(p) && CoherentTimes(p) && forall d :: WritesDate(p.dateFrom, d) ==> now < Midnight(d)
  {
    AcceptedIsCoherent(p, now);
    if CoherentDates(p) { StartsAfterTodayUntilStart(p, now); }
  }

  // Whatever is accepted at one time is accepted at every earlier time.
  lemma AcceptanceIsDownwardClosed(p: Option<PreferableDatetime>, earlier: Instant, later: Instant)
    requires earlier <= later && ValidatePreferableDatetime(p, later) == None
    ensures ValidatePreferableDatetime(p, earlier) == None
  {
    if p.Some? {
      AcceptedUntilStart(p.value, earlier);
      AcceptedUntilStart(p.value, later);
    }
  }

  // What each rejection says about the window; later checks are only reached when earlier ones passed.
  ghost predicate Explains(e: WindowError, p: PreferableDatetime, now: Instant) {
    match e
    case InvalidDate(DateFrom) => p.dateFrom != "" && forall d :: !WritesDate(p.dateFrom, d)
    case InvalidDate(DateTo) => p.dateTo != "" && StartsAfterToday(p, now) && forall d :: !WritesDate(p.dateTo, d)
    case DateFromTooEarly => exists d :: WritesDate(p.dateFrom, d) && !Earlier(Today(now), d)
    case DateToBeforeDateFrom =>
      exists from, to :: WritesDate(p.dateFrom, from) && WritesDate(p.dateTo, to) && Earlier(to, from)
    case DateFromRequired => p.dateFrom == "" && p.dateTo != ""
    case InvalidTime(TimeFrom) => CoherentDates(p) && forall n :: !WritesMinute(p.timeFrom, n)
    case TimeOutOfRange(TimeFrom) => CoherentDates(p) && exists h, m :: WritesTime(p.timeFrom, h, m) && !TimeOfDay(h, m)
    case InvalidTime(TimeTo) => CoherentDates(p) && forall n :: !WritesMinute(p.timeTo, n)
    case TimeOutOfRange(TimeTo) => CoherentDates(p) && exists h, m :: WritesTime(p.timeTo, h, m) && !TimeOfDay(h, m)
    case TimeToBeforeTimeFrom =>
      exists a, b :: WritesMinute(p.timeFrom, a) && WritesMinute(p.timeTo, b) && b < a
    case _ => false
  }

  lemma TimeFailureIsTrue(s: string)
    ensures ParseTimeMM(s) == Err(BadFormat) ==> forall h, m :: !WritesTime(s, h, m)
    ensures ParseTimeMM(s) == Err(OutOfRange) ==> exists h, m :: WritesTime(s, h, m) && !TimeOfDay(h, m)
    ensures ParseTimeMM(s).Err? ==> forall n :: !WritesMinute(s, n)
  {
    var p := Split(s, ':');
    if ParseTimeMM(s) == Err(BadFormat) {
      forall h, m ensures !WritesTime(s, h, m) { WritesTimeIsSplit(s, h, m); }
    }
    if ParseTimeMM(s) == Err(OutOfRange) {
      var h, m := Atoi(TrimSpace(p[0])).value, Atoi(TrimSpace(p[1])).value;
      WritesTimeIsSplit(s, h, m);
      assert WritesTime(s, h, m) && !TimeOfDay(h, m);
    }
    MinuteIsWritten(s);
  }

  lemma DateRejectionIsTrue(p: PreferableDatetime, now: Instant)
    ensures ValidateDates(p, now).Some? ==> Explains(ValidateDates(p, now).value, p, now)
  {
    DateIsWritten(p.dateFrom);
    DateIsWritten(p.dateTo);
    var from, to := ParseDate(p.dateFrom), ParseDate(p.dateTo);
    if from.Some? { NotBeforeTomorrow(now, from.value); }
    if from.Some? && to.Some? { MidnightIsOrder(to.value, from.value); }
  }

  lemma TimeRejectionIsTrue(p: PreferableDatetime, now: Instant)
    requires CoherentDates(p)
    ensures ValidateTimes(p).Some? ==> Explains(ValidateTimes(p).value, p, now)
  {
    if p.timeFrom != "" && ParseTimeMM(p.timeFrom).Err? {
      TimeFailureIsTrue(p.timeFrom);
    } else if p.timeTo != "" && ParseTimeMM(p.timeTo).Err? {
      TimeFailureIsTrue(p.timeTo);
    } else {
      MinuteIsWritten(p.timeFrom);
      MinuteIsWritten(p.timeTo);
    }
  }

  // Every rejection is true of the window and the clock it was given for.
  lemma RejectionIsTrue(p: Option<PreferableDatetime>, now: Instant)
    ensures var r := ValidatePreferableDatetime(p, now);
      r.Some? ==> p.Some? && Explains(r.value, p.value, now)
  {
    if p.Some? {
      DateRejectionIsTrue(p.value, now);
      DatesAccepted(p.value, now);
      if ValidateDates(p.value, now).None? { TimeRejectionIsTrue(p.value, now); }
    }
  }
}
