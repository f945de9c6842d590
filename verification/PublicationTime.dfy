/** A publication time: the date-times time.Parse reads under its RFC 3339 layout, and the check against the clock. */
module PublicationTime {
  import opened Wrappers
  import opened Calendar
  import opened Text
  import opened DealWindow

  const NANOS_PER_SECOND := 1_000_000_000
  const NANOS_PER_MINUTE := 60 * NANOS_PER_SECOND
  const HOUR := 3600 * NANOS_PER_SECOND

  // The hour may be written with one digit.
  datatype Clock = Clock(short: bool, hour: nat, minute: nat, second: nat)

  // The digits after the separator; none when there is no fraction.
  datatype Fraction = Fraction(comma: bool, digits: string)

  datatype Zone = Utc | Offset(east: bool, hours: nat, minutes: nat)

  datatype Stamp = Stamp(date: Date, clock: Clock, fraction: Fraction, zone: Zone)

  ghost predicate ValidClock(c: Clock) {
    c.hour < 24 && c.minute < 60 && c.second < 60 && (c.short ==> c.hour < 10)
  }

  ghost predicate ValidFraction(f: Fraction) {
    AllDigits(f.digits) && (f.comma ==> f.digits != "")
  }

  // The layout allows 24 hours and 60 minutes in an offset.
  ghost predicate ValidZone(z: Zone) {
    z.Offset? ==> z.hours <= 24 && z.minutes <= 60
  }

  ghost predicate ValidStamp(t: Stamp) {
    && ValidDate(t.date) && 0 <= t.date.year <= 9999
    && ValidClock(t.clock) && ValidFraction(t.fraction) && ValidZone(t.zone)
  }

  // ---------- Printing ----------

  function PrintDay(d: Date, rest: string): string
    requires 0 <= d.year && 0 <= d.month && 0 <= d.day
  {
    Padded(d.year, 4) + ("-" + (Padded(d.month, 2) + ("-" + (Padded(d.day, 2) + ("T" + rest)))))
  }

  function PrintClock(c: Clock, rest: string): string {
    Padded(c.hour, if c.short then 1 else 2) + (":" + (Padded(c.minute, 2) + (":" + (Padded(c.second, 2) + rest))))
  }

  function PrintFraction(f: Fraction, rest: string): string {
    (if f.digits == "" then "" else (if f.comma then "," else ".") + f.digits) + rest
  }

  function PrintZone(z: Zone): string {
    match z
    case Utc => "Z"
    case Offset(east, hours, minutes) =>
      (if east then "+" else "-") + (Padded(hours, 2) + (":" + (Padded(minutes, 2) + "")))
  }

  function Print(t: Stamp): string
    requires ValidDate(t.date) && 0 <= t.date.year
  {
    PrintDay(t.date, PrintClock(t.clock, PrintFraction(t.fraction, PrintZone(t.zone))))
  }

  // ---------- Parsing ----------

  // A number of exactly w digits, and what follows it.
  function TakeNumber(s: string, w: nat): Option<(nat, string)> {
    if |s| < w || !AllDigits(s[..w]) then None else Some((Value(s[..w]), s[w..]))
  }

  function TakeChar(s: string, c: char): Option<string> {
    if s == "" || s[0] != c then None else Some(s[1..])
  }

  function TakeDay(s: string): Option<(Date, string)> {
    var y := TakeNumber(s, 4);
    if y.None? then None else
    var a := TakeChar(y.value.1, '-');
    if a.None? then None else
    var m := TakeNumber(a.value, 2);
    if m.None? then None else
    var b := TakeChar(m.value.1, '-');
    if b.None? then None else
    var d := TakeNumber(b.value, 2);
    if d.None? then None else
    var c := TakeChar(d.value.1, 'T');
    var date := Date(y.value.0, m.value.0, d.value.0);
    if c.None? || !ValidDate(date) then None else Some((date, c.value))
  }

  function TakeClock(s: string): Option<(Clock, string)> {
    var short := |s| < 2 || !IsDigit(s[1]);
    var h := TakeNumber(s, if short then 1 else 2);
    if h.None? then None else
    var a := TakeChar(h.value.1, ':');
    if a.None? then None else
    var m := TakeNumber(a.value, 2);
    if m.None? then None else
    var b := TakeChar(m.value.1, ':');
    if b.None? then None else
    var sec := TakeNumber(b.value, 2);
    if sec.None? || h.value.0 >= 24 || m.value.0 >= 60 || sec.value.0 >= 60 then None
    else Some((Clock(short, h.value.0, m.value.0, sec.value.0), sec.value.1))
  }

  // The number of digits s starts with.
  function DigitRun(s: string): (n: nat)
    ensures n <= |s| && AllDigits(s[..n]) && (n < |s| ==> !IsDigit(s[n]))
  {
    if s == "" || !IsDigit(s[0]) then 0 else 1 + DigitRun(s[1..])
  }

  function TakeFraction(s: string): (Fraction, string) {
    if |s| >= 2 && (s[0] == '.' || s[0] == ',') && IsDigit(s[1]) then
      var n := DigitRun(s[1..]);
      (Fraction(s[0] == ',', s[1..][..n]), s[1..][n..])
    else (Fraction(false, ""), s)
  }

  function TakeZone(s: string): Option<Zone> {
    if s == "Z" then Some(Utc)
    else if s == "" || s[0] !in "+-" then None
    else
      var h := TakeNumber(s[1..], 2);
      if h.None? then None else
      var a := TakeChar(h.value.1, ':');
      if a.None? then None else
      var m := TakeNumber(a.value, 2);
      if m.None? || m.value.1 != "" || h.value.0 > 24 || m.value.0 > 60 then None
      else Some(Offset(s[0] == '+', h.value.0, m.value.0))
  }

  // time.Parse with layout 2006-01-02T15:04:05Z07:00.
  function Parse(s: string): Option<Stamp> {
    var d := TakeDay(s);
    if d.None? then None else
    var c := TakeClock(d.value.1);
    if c.None? then None else
    var f := TakeFraction(c.value.1);
    var z := TakeZone(f.1);
    if z.None? then None else Some(Stamp(d.value.0, c.value.0, f.0, z.value))
  }

  // ---------- Parsing inverts printing ----------

  lemma NumberTaken(s: string, w: nat, n: nat, rest: string)
    ensures TakeNumber(s, w) == Some((n, rest)) <==> n < Pow10(w) && s == Padded(n, w) + rest
  {
    var p := Padded(n, w);
    assert s == p + rest <==> |s| >= w && s[..w] == p && s[w..] == rest by {
      assert (p + rest)[..w] == p && (p + rest)[w..] == rest;
      if |s| >= w { assert s == s[..w] + s[w..]; }
    }
    if |s| >= w && AllDigits(s[..w]) { ValuePadded(s[..w]); }
    if n < Pow10(w) { PaddedValue(n, w); }
  }

  lemma CharTaken(s: string, c: char, rest: string)
    ensures TakeChar(s, c) == Some(rest) <==> s == [c] + rest
  {
    if s != "" && s[0] == c { assert s == [c] + s[1..]; }
  }

  lemma DayTaken(s: string, d: Date, rest: string)
    ensures TakeDay(s) == Some((d, rest)) <==> ValidDate(d) && 0 <= d.year <= 9999 && s == PrintDay(d, rest)
  {
    assert Pow10(2) == 100 && Pow10(4) == 10_000;
    if ValidDate(d) && 0 <= d.year <= 9999 {
      var r5 := "T" + rest;
      var r4 := Padded(d.day, 2) + r5;
      var r3 := "-" + r4;
      var r2 := Padded(d.month, 2) + r3;
      var r1 := "-" + r2;
      if s == PrintDay(d, rest) {
        NumberTaken(s, 4, d.year, r1);
        CharTaken(r1, '-', r2);
        NumberTaken(r2, 2, d.month, r3);
        CharTaken(r3, '-', r4);
        NumberTaken(r4, 2, d.day, r5);
        CharTaken(r5, 'T', rest);
      }
    }
    if TakeDay(s) == Some((d, rest)) { DayTakenPrints(s); }
  }

  lemma DayTakenPrints(s: string)
    requires TakeDay(s).Some?
    ensures var (d, rest) := TakeDay(s).value; ValidDate(d) && 0 <= d.year <= 9999 && s == PrintDay(d, rest)
  {
    assert Pow10(2) == 100 && Pow10(4) == 10_000;
    var y := TakeNumber(s, 4).value;
    NumberTaken(s, 4, y.0, y.1);
    var a := TakeChar(y.1, '-').value;
    CharTaken(y.1, '-', a);
    var m := TakeNumber(a, 2).value;
    NumberTaken(a, 2, m.0, m.1);
    var b := TakeChar(m.1, '-').value;
    CharTaken(m.1, '-', b);
    var d := TakeNumber(b, 2).value;
    NumberTaken(b, 2, d.0, d.1);
    CharTaken(d.1, 'T', TakeChar(d.1, 'T').value);
  }

  lemma ClockTaken(s: string, c: Clock, rest: string)
    ensures TakeClock(s) == Some((c, rest)) <==> ValidClock(c) && s == PrintClock(c, rest)
  {
    assert Pow10(1) == 10 && Pow10(2) == 100;
    if ValidClock(c) && s == PrintClock(c, rest) {
      var w := if c.short then 1 else 2;
      var r4 := Padded(c.second, 2) + rest;
      var r3 := ":" + r4;
      var r2 := Padded(c.minute, 2) + r3;
      var r1 := ":" + r2;
      assert if c.short then s[1] == ':' else s[1] == Padded(c.hour, 2)[1];
      NumberTaken(s, w, c.hour, r1);
      CharTaken(r1, ':', r2);
      NumberTaken(r2, 2, c.minute, r3);
      CharTaken(r3, ':', r4);
      NumberTaken(r4, 2, c.second, rest);
    }
    if TakeClock(s) == Some((c, rest)) { ClockTakenPrints(s); }
  }

  lemma ClockTakenPrints(s: string)
    requires TakeClock(s).Some?
    ensures var (c, rest) := TakeClock(s).value; ValidClock(c) && s == PrintClock(c, rest)
  {
    assert Pow10(1) == 10 && Pow10(2) == 100;
    var w := if |s| < 2 || !IsDigit(s[1]) then 1 else 2;
    var h := TakeNumber(s, w).value;
    NumberTaken(s, w, h.0, h.1);
    var a := TakeChar(h.1, ':').value;
    CharTaken(h.1, ':', a);
    var m := TakeNumber(a, 2).value;
    NumberTaken(a, 2, m.0, m.1);
    var b := TakeChar(m.1, ':').value;
    CharTaken(m.1, ':', b);
    var sec := TakeNumber(b, 2).value;
    NumberTaken(b, 2, sec.0, sec.1);
  }

  lemma {:induction false} DigitRunOf(d: string, rest: string)
    requires AllDigits(d) && (rest == "" || !IsDigit(rest[0]))
    ensures DigitRun(d + rest) == |d|
  {
    if d == "" {
      assert d + rest == rest;
    } else {
      assert (d + rest)[1..] == d[1..] + rest;
      DigitRunOf(d[1..], rest);
    }
  }

  // What follows a fraction neither continues it nor starts one.
  lemma FractionTaken(f: Fraction, rest: string)
    requires ValidFraction(f) && rest != "" && !IsDigit(rest[0]) && rest[0] !in ".,"
    ensures TakeFraction(PrintFraction(f, rest)) == (f, rest)
  {
    var s := PrintFraction(f, rest);
    if f.digits != "" {
      var d := f.digits;
      assert s[1..] == d + rest;
      DigitRunOf(d, rest);
      assert s[1] == d[0] && IsDigit(d[0]);
      assert (d + rest)[..|d|] == d && (d + rest)[|d|..] == rest;
    } else {
      assert s == rest;
    }
  }

  lemma FractionTakenPrints(s: string)
    ensures var (f, rest) := TakeFraction(s); ValidFraction(f) && s == PrintFraction(f, rest)
  {
    var (f, rest) := TakeFraction(s);
    if f.digits != "" {
      var n := DigitRun(s[1..]);
      assert s == [s[0]] + s[1..] && s[1..] == s[1..][..n] + s[1..][n..];
    }
  }

  lemma ZoneTaken(s: string, z: Zone)
    ensures TakeZone(s) == Some(z) <==> ValidZone(z) && s == PrintZone(z)
  {
    assert Pow10(2) == 100;
    if ValidZone(z) && s == PrintZone(z) && z.Offset? {
      var r3 := Padded(z.minutes, 2) + "";
      var r2 := ":" + r3;
      var r1 := Padded(z.hours, 2) + r2;
      assert s[1..] == r1;
      NumberTaken(r1, 2, z.hours, r2);
      CharTaken(r2, ':', r3);
      NumberTaken(r3, 2, z.minutes, "");
    }
    if TakeZone(s) == Some(z) && z.Offset? { OffsetTakenPrints(s); }
  }

  lemma OffsetTakenPrints(s: string)
    requires TakeZone(s).Some? && s != "Z"
    ensures s == PrintZone(TakeZone(s).value)
  {
    var h := TakeNumber(s[1..], 2).value;
    NumberTaken(s[1..], 2, h.0, h.1);
    var a := TakeChar(h.1, ':').value;
    CharTaken(h.1, ':', a);
    var m := TakeNumber(a, 2).value;
    NumberTaken(a, 2, m.0, m.1);
    assert s == [s[0]] + s[1..];
  }

  lemma PrintParses(t: Stamp)
    requires ValidStamp(t)
    ensures Parse(Print(t)) == Some(t)
  {
    var z := PrintZone(t.zone);
    var f := PrintFraction(t.fraction, z);
    var c := PrintClock(t.clock, f);
    DayTaken(Print(t), t.date, c);
    ClockTaken(c, t.clock, f);
    FractionTaken(t.fraction, z);
    ZoneTaken(z, t.zone);
  }

  // The parser accepts exactly the printed forms of valid stamps and gives the stamp back.
  lemma ParseInvertsPrint(s: string, t: Stamp)
    ensures Parse(s) == Some(t) <==> ValidStamp(t) && s == Print(t)
  {
    if ValidStamp(t) { PrintParses(t); }
    if Parse(s) == Some(t) {
      var d := TakeDay(s).value;
      var c := TakeClock(d.1).value;
      var f := TakeFraction(c.1);
      DayTaken(s, d.0, d.1);
      ClockTaken(d.1, c.0, c.1);
      FractionTakenPrints(c.1);
      ZoneTaken(f.1, t.zone);
    }
  }

  // ---------- Instants ----------

  // The first nine digits count; fewer are padded with zeros.
  function Nanos(digits: string): nat
    requires AllDigits(digits)
  {
    if |digits| > 9 then Value(digits[..9]) else Value(digits + Zeros(9 - |digits|))
  }

  function OffsetNanos(z: Zone): int {
    match z
    case Utc => 0
    case Offset(east, hours, minutes) =>
      var n: int := (hours * 60 + minutes) * NANOS_PER_MINUTE;
      if east then n else 0 - n
  }

  function ClockNanos(c: Clock): nat {
    (c.hour * 3600 + c.minute * 60 + c.second) * NANOS_PER_SECOND
  }

  function InstantOf(t: Stamp): Instant
    requires ValidDate(t.date) && AllDigits(t.fraction.digits)
  {
    Midnight(t.date) + ClockNanos(t.clock) + Nanos(t.fraction.digits) - OffsetNanos(t.zone)
  }

  // Ten times v, n times over.
  function Scaled(v: nat, n: nat): nat {
    if n == 0 then v else 10 * Scaled(v, n - 1)
  }

  lemma {:induction false} TrailingZeros(s: string, n: nat)
    requires AllDigits(s)
    ensures Value(s + Zeros(n)) == Scaled(Value(s), n)
  {
    var t := s + Zeros(n);
    if n == 0 {
      assert t == s;
    } else {
      assert t[..|t| - 1] == s + Zeros(n - 1);
      TrailingZeros(s, n - 1);
    }
  }

  // A fraction is scaled to nanoseconds; digits beyond the ninth are cut off.
  lemma NanosIsScaled(digits: string)
    requires AllDigits(digits)
    ensures |digits| <= 9 ==> Nanos(digits) == Scaled(Value(digits), 9 - |digits|)
    ensures |digits| > 9 ==> Nanos(digits) == Nanos(digits[..9])
  {
    if |digits| <= 9 {
      TrailingZeros(digits, 9 - |digits|);
    } else {
      var d := digits[..9];
      assert d + Zeros(0) == d;
      assert Nanos(d) == Value(d + Zeros(0)) && Nanos(digits) == Value(d);
    }
  }

  // The instant of a stamp in nanoseconds from the first day of year 1, in UTC.
  lemma InstantInNanoseconds(t: Stamp)
    requires ValidStamp(t)
    ensures InstantOf(t) ==
      DayNumber(t.date) * 86_400_000_000_000
      + t.clock.hour * 3_600_000_000_000 + t.clock.minute * 60_000_000_000 + t.clock.second * 1_000_000_000
      + Nanos(t.fraction.digits)
      - match t.zone
        case Utc => 0
        case Offset(east, hours, minutes) =>
          (if east then 1 else -1) * (hours * 3_600_000_000_000 + minutes * 60_000_000_000)
  {
  }

  lemma Flat(a: string, b: string, c: string, d: string, e: string, rest: string)
    ensures a + (b + (c + (d + (e + rest)))) == (a + b + c + d + e) + rest
  {
  }

  ghost function WrittenDay(d: Date): string
    requires 0 <= d.year && 0 <= d.month && 0 <= d.day
  {
    Padded(d.year, 4) + "-" + Padded(d.month, 2) + "-" + Padded(d.day, 2)
  }

  ghost function WrittenClock(c: Clock): string {
    Padded(c.hour, if c.short then 1 else 2) + ":" + Padded(c.minute, 2) + ":" + Padded(c.second, 2)
  }

  ghost function WrittenFraction(f: Fraction): string {
    if f.digits == "" then "" else if f.comma then "," + f.digits else "." + f.digits
  }

  ghost function WrittenZone(z: Zone): string {
    match z
    case Utc => "Z"
    case Offset(east, hours, minutes) =>
      if east then "+" + WrittenOffset(hours, minutes) else "-" + WrittenOffset(hours, minutes)
  }

  ghost function WrittenOffset(hours: nat, minutes: nat): string {
    Padded(hours, 2) + ":" + Padded(minutes, 2)
  }

  lemma ZoneIsWritten(z: Zone)
    ensures PrintZone(z) == WrittenZone(z)
  {
    if z.Offset? {
      assert Padded(z.hours, 2) + (":" + (Padded(z.minutes, 2) + "")) == WrittenOffset(z.hours, z.minutes);
    }
  }

  // A stamp is written as year-month-day, T, hour:minute:second, the fraction after a dot or comma, and Z or the offset
  // of its zone, + to the east and - to the west.
  lemma StampIsWritten(t: Stamp)
    requires ValidStamp(t)
    ensures Print(t)
      == WrittenDay(t.date) + ("T" + (WrittenClock(t.clock) + (WrittenFraction(t.fraction) + WrittenZone(t.zone))))
  {
    var f := PrintFraction(t.fraction, PrintZone(t.zone));
    ZoneIsWritten(t.zone);
    assert f == WrittenFraction(t.fraction) + WrittenZone(t.zone);
    Flat(Padded(t.clock.hour, if t.clock.short then 1 else 2), ":", Padded(t.clock.minute, 2), ":",
         Padded(t.clock.second, 2), f);
    Flat(Padded(t.date.year, 4), "-", Padded(t.date.month, 2), "-", Padded(t.date.day, 2),
         "T" + PrintClock(t.clock, f));
  }

  // A clock that shows h:m less, in UTC, shows the same instant as the clock of a zone h:m east of it; and
  // likewise for a zone h:m west of UTC and UTC.
  lemma EastIsAhead(t: Stamp, h: nat, m: nat)
    requires ValidStamp(t) && h <= t.clock.hour && m <= t.clock.minute
    ensures var back := t.clock.(hour := t.clock.hour - h, minute := t.clock.minute - m);
      && InstantOf(t.(zone := Offset(true, h, m))) == InstantOf(t.(clock := back, zone := Utc))
      && InstantOf(t.(zone := Utc)) == InstantOf(t.(clock := back, zone := Offset(false, h, m)))
  {
    var back := t.clock.(hour := t.clock.hour - h, minute := t.clock.minute - m);
    assert ClockNanos(t.clock) == ClockNanos(back) + (h * 60 + m) * NANOS_PER_MINUTE;
    assert OffsetNanos(Offset(true, h, m)) == (h * 60 + m) * NANOS_PER_MINUTE == 0 - OffsetNanos(Offset(false, h, m));
  }

  datatype TimeError = Required | InvalidFormat | TooSoon

  function ValidatePublicationTime(s: string, now: Instant): Result<Instant, TimeError> {
    if s == "" then Err(Required)
    else
      var t := Parse(s);
      if t.None? then Err(InvalidFormat)
      else
        ParseInvertsPrint(s, t.value);
        if InstantOf(t.value) < now + HOUR then Err(TooSoon) else Ok(InstantOf(t.value))
  }

  // Each outcome, by what the string stands for: absent, no date-time, too near, or accepted at its instant.
  lemma OutcomeIsByInstant(s: string, now: Instant)
    ensures ValidatePublicationTime(s, now) == Err(Required) <==> s == ""
    ensures ValidatePublicationTime(s, now) == Err(InvalidFormat)
      <==> s != "" && forall t :: ValidStamp(t) ==> s != Print(t)
    ensures ValidatePublicationTime(s, now) == Err(TooSoon)
      <==> exists t :: ValidStamp(t) && s == Print(t) && InstantOf(t) < now + 3_600_000_000_000
    ensures forall i :: (ValidatePublicationTime(s, now) == Ok(i)
      <==> exists t :: ValidStamp(t) && s == Print(t) && i == InstantOf(t) && now + 3_600_000_000_000 <= i)
  {
    forall t ensures Parse(s) == Some(t) <==> ValidStamp(t) && s == Print(t) { ParseInvertsPrint(s, t); }
    assert s == "" ==> Parse(s) == None;
  }

  // Stamps of one instant, whatever zone they are written in, get one verdict; and an accepted instant is
  // accepted, in any of its spellings, by every earlier clock.
  lemma VerdictIgnoresZone(a: Stamp, b: Stamp, earlier: Instant, later: Instant)
    requires ValidStamp(a) && ValidStamp(b) && InstantOf(a) == InstantOf(b) && earlier <= later
    ensures ValidatePublicationTime(Print(a), later) == ValidatePublicationTime(Print(b), later)
    ensures ValidatePublicationTime(Print(a), later).Ok? ==>
      ValidatePublicationTime(Print(b), earlier) == Ok(InstantOf(a))
  {
    ParseInvertsPrint(Print(a), a);
    ParseInvertsPrint(Print(b), b);
  }

  // ---------- Writing an instant in a zone ----------

  function ClockAt(k: nat): (c: Clock)
    requires k < 86_400
    ensures ValidClock(c) && c.hour * 3600 + c.minute * 60 + c.second == k
  {
    Clock(false, k / 3600, k % 3600 / 60, k % 60)
  }

  // The wall-clock reading, in zone z, of instant i.
  function StampAt(i: Instant, z: Zone): Stamp {
    var local := i + OffsetNanos(z);
    var day, inDay := local / NANOS_PER_DAY, local % NANOS_PER_DAY;
    Stamp(DateOf(day), ClockAt(inDay / NANOS_PER_SECOND), Fraction(false, Padded(inDay % NANOS_PER_SECOND, 9)), z)
  }

  lemma NanosOfPadded(n: nat)
    requires n < NANOS_PER_SECOND
    ensures Nanos(Padded(n, 9)) == n
  {
    assert Pow10(3) == 1000 && Pow10(6) == 1000 * Pow10(3) && Pow10(9) == 1000 * Pow10(6);
    PaddedValue(n, 9);
    assert Padded(n, 9) + Zeros(0) == Padded(n, 9);
  }

  lemma StampAtIsInstant(i: Instant, z: Zone)
    ensures InstantOf(StampAt(i, z)) == i
  {
    NanosOfPadded((i + OffsetNanos(z)) % NANOS_PER_DAY % NANOS_PER_SECOND);
  }

  // An instant written in any zone is judged by the instant alone, and accepted as that very instant.
  lemma WrittenInstantIsJudged(i: Instant, z: Zone, now: Instant)
    requires ValidZone(z) && 0 <= StampAt(i, z).date.year <= 9999
    ensures ValidatePublicationTime(Print(StampAt(i, z)), now)
      == if i < now + 3_600_000_000_000 then Err(TooSoon) else Ok(i)
  {
    StampAtIsInstant(i, z);
    ParseInvertsPrint(Print(StampAt(i, z)), StampAt(i, z));
  }
}
