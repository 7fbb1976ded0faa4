/**
 Timestamps as text: how one is read and printed (`_parse_iso` and `isoformat` in
 agentcook/src/agentcook_app/runtime_pg.py), and the form in which the server writes them
 (`_now_iso` in agentcook/src/agentcook_app/routers/memory.py).  Text of that form sorts like the
 instants it denotes.
 */
module Timestamps {
  import opened Wrappers
  import opened Seqs
  import opened Decimal

  /** The instant a text denotes, in microseconds, or None when it is refused; and the text a
      stored instant is printed as. */
  datatype Clock = Clock(parse: string -> Option<int>, show: int -> string) {
    predicate Reads(text: string) {
      parse(text).Some?
    }

    /** Only asked about texts that can be read. */
    function At(text: string): int {
      match parse(text)
      case Some(instant) => instant
      case None => 0
    }

    /** How a text comes back from the database. */
    function Shown(text: string): string {
      show(At(text))
    }

    function AtOrAfter(): (string, string) -> bool {
      (timestamp: string, since: string) => At(timestamp) >= At(since)
    }
  }

  /** What is printed for a stored instant denotes that instant. */
  ghost predicate ReadsBack(clock: Clock) {
    forall text :: clock.Reads(text) ==> clock.parse(clock.Shown(text)) == clock.parse(text)
  }

  // ---- the calendar -------------------------------------------------------------------------------

  predicate IsLeap(year: nat) {
    year % 4 == 0 && (year % 100 != 0 || year % 400 == 0)
  }

  function DaysInMonth(year: nat, month: nat): nat {
    if month == 2 then (if IsLeap(year) then 29 else 28)
    else if month in {4, 6, 9, 11} then 30
    else 31
  }

  /** Days from the first of January of year one to the first of January of `year`. */
  function DaysBeforeYear(year: nat): nat {
    if year <= 1 then 0 else DaysBeforeYear(year - 1) + (if IsLeap(year - 1) then 366 else 365)
  }

  function DaysBeforeMonth(year: nat, month: nat): nat {
    if month <= 1 then 0 else DaysBeforeMonth(year, month - 1) + DaysInMonth(year, month - 1)
  }

  /** A second of universal time. */
  datatype Moment = Moment(year: nat, month: nat, day: nat, hour: nat, minute: nat, second: nat) {
    predicate Valid() {
      && 1 <= year <= 9999 && 1 <= month <= 12 && 1 <= day <= DaysInMonth(year, month)
      && hour < 24 && minute < 60 && second < 60
    }

    function Day(): nat {
      DaysBeforeYear(year) + DaysBeforeMonth(year, month) + day
    }

    function Instant(): int {
      (((Day() * 24 + hour) * 60 + minute) * 60 + second) * 1000000
    }

    /** For example 2026-01-01T12:00:00+00:00. */
    function Text(): string {
      Padded(year, 4) + ("-" + (Padded(month, 2) + ("-" + (Padded(day, 2) + ("T" + TimeText())))))
    }

    function TimeText(): string {
      Padded(hour, 2) + (":" + (Padded(minute, 2) + (":" + (Padded(second, 2) + "+00:00"))))
    }
  }

  function Padded(n: nat, width: nat): (s: string)
    ensures |s| == width
  {
    if width == 0 then "" else Padded(n / 10, width - 1) + [Digit(n % 10)]
  }

  predicate FitsIn(n: nat, width: nat) {
    if width == 0 then n == 0 else FitsIn(n / 10, width - 1)
  }

  /** The text the server writes, and the only one that comes back from the database unchanged. */
  ghost predicate Canonical(text: string) {
    exists m: Moment :: m.Valid() && text == m.Text()
  }

  /** A clock that reads and prints the server's own text by the calendar. */
  ghost predicate KeepsCalendar(clock: Clock) {
    forall m: Moment :: m.Valid() ==> clock.parse(m.Text()) == Some(m.Instant()) && clock.show(m.Instant()) == m.Text()
  }

  // ---- text order is time order -------------------------------------------------------------------

  /** Blocks of one length decide first, what follows them only when they are equal. */
  lemma {:induction false} TextLeqBlocks(a: string, b: string, x: string, y: string)
    requires |a| == |b|
    ensures TextLeq(a + x, b + y) <==> if a == b then TextLeq(x, y) else TextLeq(a, b)
  {
    if a == "" {
      assert a + x == x && b + y == y;
    } else {
      assert (a + x)[1..] == a[1..] + x && (b + y)[1..] == b[1..] + y;
      TextLeqBlocks(a[1..], b[1..], x, y);
      assert a == [a[0]] + a[1..] && b == [b[0]] + b[1..];
    }
  }

  lemma {:induction false} PaddedInOrder(m: nat, n: nat, width: nat)
    requires FitsIn(m, width) && FitsIn(n, width)
    ensures TextLeq(Padded(m, width), Padded(n, width)) <==> m <= n
    ensures Padded(m, width) == Padded(n, width) ==> m == n
  {
    if width > 0 {
      PaddedInOrder(m / 10, n / 10, width - 1);
      TextLeqBlocks(Padded(m / 10, width - 1), Padded(n / 10, width - 1), [Digit(m % 10)], [Digit(n % 10)]);
      assert Padded(m, width)[..width - 1] == Padded(m / 10, width - 1);
      assert Padded(n, width)[..width - 1] == Padded(n / 10, width - 1);
      assert Padded(m, width)[width - 1] == Digit(m % 10) && Padded(n, width)[width - 1] == Digit(n % 10);
    }
  }

  /** One field of fixed width, its mark, and the rest. */
  lemma {:induction false} FieldInOrder(m: nat, n: nat, width: nat, mark: string, s: string, t: string)
    requires FitsIn(m, width) && FitsIn(n, width)
    ensures TextLeq(Padded(m, width) + (mark + s), Padded(n, width) + (mark + t))
       <==> m < n || (m == n && TextLeq(s, t))
  {
    PaddedInOrder(m, n, width);
    TextLeqBlocks(Padded(m, width), Padded(n, width), mark + s, mark + t);
    TextLeqBehindPrefix(mark, s, t);
  }

  lemma {:induction false} TwoDigitsFit(n: nat)
    requires n < 100
    ensures FitsIn(n, 2)
  {
    assert FitsIn(n / 10 / 10, 0);
  }

  lemma {:induction false} FourDigitsFit(n: nat)
    requires n < 10000
    ensures FitsIn(n, 4)
  {
    TwoDigitsFit(n / 10 / 10);
    assert FitsIn(n / 10, 3);
  }

  /** A later year, or month of one year, starts after the earlier one is over. */
  lemma {:induction false} YearsAreBlocks(y: nat, z: nat)
    requires 1 <= y < z
    ensures DaysBeforeYear(y) + (if IsLeap(y) then 366 else 365) <= DaysBeforeYear(z)
  {
    if y + 1 < z {
      YearsAreBlocks(y, z - 1);
    }
  }

  lemma {:induction false} MonthsAreBlocks(year: nat, m: nat, n: nat)
    requires 1 <= m < n
    ensures DaysBeforeMonth(year, m) + DaysInMonth(year, m) <= DaysBeforeMonth(year, n)
  {
    if m + 1 < n {
      MonthsAreBlocks(year, m, n - 1);
    }
  }

  lemma {:induction false} YearHoldsItsMonths(year: nat)
    ensures DaysBeforeMonth(year, 13) == if IsLeap(year) then 366 else 365
  {
    var february := DaysInMonth(year, 2);
    assert DaysBeforeMonth(year, 2) == 31;
    assert DaysBeforeMonth(year, 3) == 31 + february;
    assert DaysBeforeMonth(year, 5) == DaysBeforeMonth(year, 3) + 61;
    assert DaysBeforeMonth(year, 7) == DaysBeforeMonth(year, 5) + 61;
    assert DaysBeforeMonth(year, 9) == DaysBeforeMonth(year, 7) + 62;
    assert DaysBeforeMonth(year, 11) == DaysBeforeMonth(year, 9) + 61;
  }

  lemma {:induction false} DayOfYear(m: Moment)
    requires m.Valid()
    ensures 1 <= DaysBeforeMonth(m.year, m.month) + m.day <= if IsLeap(m.year) then 366 else 365
  {
    YearHoldsItsMonths(m.year);
    MonthsAreBlocks(m.year, m.month, 13);
  }

  lemma {:induction false} DaysInOrder(a: Moment, b: Moment)
    requires a.Valid() && b.Valid()
    ensures a.Day() < b.Day()
       <==> a.year < b.year || (a.year == b.year && (a.month < b.month || (a.month == b.month && a.day < b.day)))
    ensures a.Day() == b.Day() <==> a.year == b.year && a.month == b.month && a.day == b.day
  {
    DayOfYear(a);
    DayOfYear(b);
    if a.year < b.year {
      YearsAreBlocks(a.year, b.year);
    } else if b.year < a.year {
      YearsAreBlocks(b.year, a.year);
    } else if a.month < b.month {
      MonthsAreBlocks(a.year, a.month, b.month);
    } else if b.month < a.month {
      MonthsAreBlocks(a.year, b.month, a.month);
    }
  }

  lemma {:induction false} TimesInOrder(a: Moment, b: Moment)
    requires a.Valid() && b.Valid()
    ensures TextLeq(a.TimeText(), b.TimeText())
       <==> (a.hour < b.hour
             || (a.hour == b.hour && (a.minute < b.minute || (a.minute == b.minute && a.second <= b.second))))
  {
    TwoDigitsFit(a.hour);
    TwoDigitsFit(b.hour);
    TwoDigitsFit(a.minute);
    TwoDigitsFit(b.minute);
    TwoDigitsFit(a.second);
    TwoDigitsFit(b.second);
    var s, t := Padded(a.second, 2) + "+00:00", Padded(b.second, 2) + "+00:00";
    PaddedInOrder(a.second, b.second, 2);
    TextLeqBlocks(Padded(a.second, 2), Padded(b.second, 2), "+00:00", "+00:00");
    TextLeqTotal("+00:00", "+00:00");
    FieldInOrder(a.minute, b.minute, 2, ":", s, t);
    FieldInOrder(a.hour, b.hour, 2, ":", Padded(a.minute, 2) + (":" + s), Padded(b.minute, 2) + (":" + t));
  }

  lemma {:induction false} DatesInOrder(a: Moment, b: Moment)
    requires a.Valid() && b.Valid()
    ensures TextLeq(a.Text(), b.Text())
       <==> a.Day() < b.Day() || (a.Day() == b.Day() && TextLeq(a.TimeText(), b.TimeText()))
  {
    FourDigitsFit(a.year);
    FourDigitsFit(b.year);
    TwoDigitsFit(a.month);
    TwoDigitsFit(b.month);
    TwoDigitsFit(a.day);
    TwoDigitsFit(b.day);
    var s, t := Padded(a.day, 2) + ("T" + a.TimeText()), Padded(b.day, 2) + ("T" + b.TimeText());
    FieldInOrder(a.day, b.day, 2, "T", a.TimeText(), b.TimeText());
    FieldInOrder(a.month, b.month, 2, "-", s, t);
    FieldInOrder(a.year, b.year, 4, "-", Padded(a.month, 2) + ("-" + s), Padded(b.month, 2) + ("-" + t));
    DaysInOrder(a, b);
  }

  /** The server's texts compare like the instants they denote. */
  lemma {:induction false} TextOrderIsTimeOrder(a: Moment, b: Moment)
    requires a.Valid() && b.Valid()
    ensures TextLeq(a.Text(), b.Text()) <==> a.Instant() <= b.Instant()
  {
    DatesInOrder(a, b);
    TimesInOrder(a, b);
  }

  lemma {:induction false} TwoDigits(n: nat)
    requires n < 100
    ensures Padded(n, 2) == [Digit(n / 10), Digit(n % 10)]
  {
    assert Padded(n / 10, 1) == Padded(n / 100, 0) + [Digit(n / 10)];
  }

  lemma {:induction false} FourDigits(n: nat)
    requires n < 10000
    ensures Padded(n, 4) == [Digit(n / 1000), Digit(n / 100 % 10), Digit(n / 10 % 10), Digit(n % 10)]
  {
    TwoDigits(n / 100);
    assert Padded(n / 10, 3) == Padded(n / 100, 2) + [Digit(n / 10 % 10)];
  }

  lemma {:induction false} SomeNumbers()
    ensures Padded(2026, 4) == "2026" && Padded(1, 2) == "01" && Padded(12, 2) == "12" && Padded(0, 2) == "00"
  {
    FourDigits(2026);
    TwoDigits(1);
    TwoDigits(12);
    TwoDigits(0);
  }

  const NOON := Moment(2026, 1, 1, 12, 0, 0)

  lemma {:induction false} NoonTime()
    ensures NOON.TimeText() == "12" + (":" + ("00" + (":" + ("00" + "+00:00"))))
  {
    SomeNumbers();
  }

  lemma {:induction false} NoonText()
    ensures NOON.Text() == "2026" + ("-" + ("01" + ("-" + ("01" + ("T" + NOON.TimeText())))))
  {
    SomeNumbers();
  }

  /** Noon on the first of January 2026. */
  lemma {:induction false} NoonIsCanonical()
    ensures Canonical("2026-01-01T12:00:00+00:00")
  {
    NoonTime();
    NoonText();
    assert NOON.Valid() && NOON.Text() == "2026-01-01T12:00:00+00:00";
  }

  // ---- it is the calendar --------------------------------------------------------------------------

  /** The dates there are, from year 1 to 9999. */
  lemma {:induction false} DatesAre(m: Moment)
    ensures m.Valid() <==>
      && 1 <= m.year <= 9999 && 1 <= m.month <= 12 && 1 <= m.day
      && m.day <= (if m.month in {1, 3, 5, 7, 8, 10, 12} then 31 else if m.month != 2 then 30
                   else if m.year % 400 == 0 || (m.year % 4 == 0 && m.year % 100 != 0) then 29 else 28)
      && m.hour <= 23 && m.minute <= 59 && m.second <= 59
  {
  }

  /** Days are counted one by one, within a month and from its last day to the first of the next. */
  lemma {:induction false} DaysAreConsecutive(year: nat, month: nat, day: nat)
    requires 1 <= month <= 12
    ensures
      var last := if month in {1, 3, 5, 7, 8, 10, 12} then 31 else if month != 2 then 30
                  else if year % 400 == 0 || (year % 4 == 0 && year % 100 != 0) then 29 else 28;
      && Moment(year, month, day + 1, 0, 0, 0).Day() == Moment(year, month, day, 0, 0, 0).Day() + 1
      && Moment(year, month + 1, 1, 0, 0, 0).Day() == Moment(year, month, last, 0, 0, 0).Day() + 1
  {
  }

  /** And from the last day of a year, one after its twelfth month, to the first of the next year. */
  lemma {:induction false} YearsAreConsecutive(year: nat)
    requires year >= 1
    ensures Moment(year + 1, 1, 1, 0, 0, 0).Day() == Moment(year, 13, 1, 0, 0, 0).Day()
    ensures Moment(year + 1, 1, 1, 0, 0, 0).Day() == Moment(year, 12, 31, 0, 0, 0).Day() + 1
  {
    YearHoldsItsMonths(year);
    assert DaysBeforeMonth(year, 13) == DaysBeforeMonth(year, 12) + 31;
  }

  /** And between two moments lie as many microseconds as days, hours, minutes and seconds make. */
  lemma {:induction false} InstantsCount(a: Moment, b: Moment)
    ensures b.Instant() - a.Instant()
         == 1_000_000 * (86_400 * (b.Day() - a.Day()) + 3_600 * (b.hour - a.hour) + 60 * (b.minute - a.minute)
                         + (b.second - a.second))
  {
  }

  lemma {:induction false} PaddedReads(n: nat, width: nat)
    requires FitsIn(n, width)
    ensures AllDigits(Padded(n, width)) && Value(Padded(n, width)) == n
  {
    var s := Padded(n, width);
    if width > 0 {
      PaddedReads(n / 10, width - 1);
      assert s[..width - 1] == Padded(n / 10, width - 1);
    }
  }

  lemma {:induction false} TwoDigitsRead(n: nat)
    requires n < 100
    ensures AllDigits(Padded(n, 2)) && Value(Padded(n, 2)) == n
  {
    TwoDigitsFit(n);
    PaddedReads(n, 2);
  }

  /** A field at the front of a text, its mark, and what follows. */
  lemma {:induction false} FieldStands(field: string, mark: string, rest: string)
    ensures
      var t, n := field + (mark + rest), |field|;
      && |t| == n + |mark| + |rest| && t[..n] == field && t[n..n + |mark|] == mark && t[n + |mark|..] == rest
  {
    assert field + (mark + rest) == field + mark + rest;
  }

  lemma {:induction false} WithinRest(t: string, n: nat, i: nat, j: nat)
    requires n + i <= n + j <= |t|
    ensures t[n..][i..j] == t[n + i..n + j] && t[n..][j..] == t[n + j..]
  {
  }

  /** Hour, minute and second in figures, each at its place and between its marks. */
  lemma {:induction false} TimeIs(m: Moment)
    requires m.hour < 24 && m.minute < 60 && m.second < 60
    ensures
      var t := m.TimeText();
      && |t| == 14 && t[2..3] == ":" && t[5..6] == ":" && t[8..] == "+00:00"
      && AllDigits(t[..2]) && Value(t[..2]) == m.hour
      && AllDigits(t[3..5]) && Value(t[3..5]) == m.minute
      && AllDigits(t[6..8]) && Value(t[6..8]) == m.second
  {
    var second, minute, hour := Padded(m.second, 2), Padded(m.minute, 2), Padded(m.hour, 2);
    var seconds := second + "+00:00";
    var minutes := minute + (":" + seconds);
    FieldStands(hour, ":", minutes);
    FieldStands(minute, ":", seconds);
    TwoDigitsRead(m.hour);
    TwoDigitsRead(m.minute);
    TwoDigitsRead(m.second);
    var t := m.TimeText();
    WithinRest(t, 3, 0, 2);
    WithinRest(t, 3, 2, 3);
    WithinRest(t, 6, 0, 2);
    assert seconds[..2] == second && seconds[2..] == "+00:00";
  }

  lemma {:induction false} MonthStands(m: Moment)
    ensures
      var t := Padded(m.month, 2) + ("-" + (Padded(m.day, 2) + ("T" + m.TimeText())));
      && |t| == 6 + |m.TimeText()| && t[..2] == Padded(m.month, 2) && t[2..3] == "-"
      && t[3..5] == Padded(m.day, 2) && t[5..6] == "T" && t[6..] == m.TimeText()
  {
    var month, day := Padded(m.month, 2), Padded(m.day, 2);
    var days := day + ("T" + m.TimeText());
    FieldStands(month, "-", days);
    FieldStands(day, "T", m.TimeText());
    var t := month + ("-" + days);
    WithinRest(t, 3, 0, 2);
    WithinRest(t, 3, 2, 3);
  }

  lemma {:induction false} YearStands(year: string, months: string, time: string)
    requires |year| == 4 && |months| == 6 + |time| && months[6..] == time
    ensures
      var t := year + ("-" + months);
      && |t| == 11 + |time| && t[..4] == year && t[4..5] == "-" && t[11..] == time
      && t[5..7] == months[..2] && t[7..8] == months[2..3] && t[8..10] == months[3..5] && t[10..11] == months[5..6]
  {
    FieldStands(year, "-", months);
    var t := year + ("-" + months);
    WithinRest(t, 5, 0, 2);
    WithinRest(t, 5, 2, 3);
    WithinRest(t, 5, 3, 5);
    WithinRest(t, 5, 5, 6);
  }

  /** Year, month and day in figures, each at its place and between its marks, then the time. */
  lemma {:induction false} TextIs(m: Moment)
    requires m.Valid()
    ensures
      var t := m.Text();
      && |t| == 25 && t[4..5] == "-" && t[7..8] == "-" && t[10..11] == "T" && t[11..] == m.TimeText()
      && AllDigits(t[..4]) && Value(t[..4]) == m.year
      && AllDigits(t[5..7]) && Value(t[5..7]) == m.month
      && AllDigits(t[8..10]) && Value(t[8..10]) == m.day
  {
    TimeIs(m);
    MonthStands(m);
    YearStands(Padded(m.year, 4), Padded(m.month, 2) + ("-" + (Padded(m.day, 2) + ("T" + m.TimeText()))), m.TimeText());
    FourDigitsFit(m.year);
    PaddedReads(m.year, 4);
    TwoDigitsRead(m.month);
    TwoDigitsRead(m.day);
  }

  function AtOrAfterText(): (string, string) -> bool {
    (timestamp: string, since: string) => TextLeq(since, timestamp)
  }

  /** So on such texts it does not matter whether text or instants are compared, and they come back
      as they were. */
  lemma {:induction false} CanonicalText(clock: Clock, timestamp: string, since: string)
    requires KeepsCalendar(clock) && Canonical(timestamp) && Canonical(since)
    ensures clock.Reads(timestamp) && clock.Shown(timestamp) == timestamp
    ensures AtOrAfterText()(timestamp, since) == clock.AtOrAfter()(timestamp, since)
  {
    var t: Moment :| t.Valid() && timestamp == t.Text();
    var s: Moment :| s.Valid() && since == s.Text();
    assert clock.parse(t.Text()) == Some(t.Instant()) && clock.parse(s.Text()) == Some(s.Instant());
    TextOrderIsTimeOrder(s, t);
  }

  // ---- a clock there is ----------------------------------------------------------------------------

  lemma {:induction false} TextEnds(m: Moment)
    requires m.Valid()
    ensures |m.Text()| == 25 && m.Text()[24] == '0'
  {
    var seconds := Padded(m.second, 2) + "+00:00";
    assert |seconds| == 8 && seconds[7] == '0';
    var minutes := Padded(m.minute, 2) + (":" + seconds);
    assert |minutes| == 11 && minutes[10] == '0';
    assert m.TimeText() == Padded(m.hour, 2) + (":" + minutes);
    assert |m.TimeText()| == 14 && m.TimeText()[13] == '0';
    var days := Padded(m.day, 2) + ("T" + m.TimeText());
    assert |days| == 17 && days[16] == '0';
    var months := Padded(m.month, 2) + ("-" + days);
    assert |months| == 20 && months[19] == '0';
  }

  lemma {:induction false} SameTextSameInstant(a: Moment, b: Moment)
    requires a.Valid() && b.Valid()
    ensures a.Text() == b.Text() <==> a.Instant() == b.Instant()
  {
    TextOrderIsTimeOrder(a, b);
    TextOrderIsTimeOrder(b, a);
    TextLeqTotal(a.Text(), a.Text());
    if a.Instant() == b.Instant() {
      TextLeqAntisymmetric(a.Text(), b.Text());
    }
  }

  /** The other spelling of universal time that Python reads. */
  function Unzulu(text: string): string {
    if text != "" && text[|text| - 1] == 'Z' then text[..|text| - 1] + "+00:00" else text
  }

  ghost function ReadMoment(text: string): Option<int> {
    if exists m: Moment :: m.Valid() && m.Text() == Unzulu(text) then
      var m: Moment :| m.Valid() && m.Text() == Unzulu(text);
      Some(m.Instant())
    else None
  }

  ghost function ShowMoment(instant: int): string {
    if exists m: Moment :: m.Valid() && m.Instant() == instant then
      var m: Moment :| m.Valid() && m.Instant() == instant;
      m.Text()
    else ""
  }

  /** Reads the server's form, also with a final Z, and nothing else. */
  ghost function CalendarClock(): Clock {
    Clock((text: string) => ReadMoment(text), (instant: int) => ShowMoment(instant))
  }

  lemma {:induction false} ReadsAndShows(m: Moment, text: string)
    requires m.Valid() && Unzulu(text) == m.Text()
    ensures ReadMoment(text) == Some(m.Instant()) && ShowMoment(m.Instant()) == m.Text()
  {
    var r: Moment :| r.Valid() && r.Text() == Unzulu(text) && ReadMoment(text) == Some(r.Instant());
    SameTextSameInstant(r, m);
    var s: Moment :| s.Valid() && s.Instant() == m.Instant() && ShowMoment(m.Instant()) == s.Text();
    SameTextSameInstant(s, m);
  }

  /** What is assumed of a clock anywhere is true of this one. */
  lemma {:induction false} CalendarClockKeepsTime()
    ensures KeepsCalendar(CalendarClock()) && ReadsBack(CalendarClock())
  {
    var clock := CalendarClock();
    forall m: Moment | m.Valid()
      ensures clock.parse(m.Text()) == Some(m.Instant()) && clock.show(m.Instant()) == m.Text()
    {
      TextEnds(m);
      ReadsAndShows(m, m.Text());
    }
    forall text | clock.Reads(text)
      ensures clock.parse(clock.Shown(text)) == clock.parse(text)
    {
      var m: Moment :| m.Valid() && m.Text() == Unzulu(text);
      ReadsAndShows(m, text);
      TextEnds(m);
      ReadsAndShows(m, m.Text());
    }
  }
}
