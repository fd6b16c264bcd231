/**
 * Points in time as the handlers see them. An instant is its ISO-8601 text
 * (`toISOString()`, `YYYY-MM-DDTHH:mm:ss.sssZ`) and a calendar day is the
 * first ten characters of it. Every field of that text has a fixed width, so
 * comparing two instants' text character by character orders them in time;
 * the store's `gte`/`lte` filters on `loggedAt` are modelled that way.
 *
 * The system clock is a parameter: a `Clock` carries the current instant,
 * the current UTC day as a day number, and the text of every day number
 * (what `setUTCDate` followed by `toISOString().slice(0, 10)` produces).
 */
module Dates {

  import opened Wrappers
  import Text

  const Midnight: string := "T00:00:00.000Z"
  const Noon: string := "T12:00:00.000Z"
  const LastMillisecond: string := "T23:59:59.999Z"

  /** `new Date(day + 'T00:00:00.000Z')`. */
  function StartOfDay(day: string): string {
    day + Midnight
  }

  /** `new Date(day + 'T23:59:59.999Z')`. */
  function EndOfDay(day: string): string {
    day + LastMillisecond
  }

  /** The calendar day of an instant: `toISOString().slice(0, 10)`. */
  function DayOf(t: string): string {
    if |t| >= 10 then t[..10] else t
  }

  /** Canonical instant text: a ten-character day and a time of day from midnight to the last millisecond. */
  predicate IsInstant(t: string) {
    |t| == 24 && Text.LexLe(Midnight, t[10..]) && Text.LexLe(t[10..], LastMillisecond)
  }

  /** The filter `loggedAt: { gte: StartOfDay(from), lte: EndOfDay(to) }`. */
  predicate InRange(t: string, from: string, to: string) {
    Text.LexLe(StartOfDay(from), t) && Text.LexLe(t, EndOfDay(to))
  }

  /**
   * The closed interval from the first millisecond of `from` to the last
   * millisecond of `to` holds exactly the instants whose day lies between
   * the two days.
   */
  lemma InRangeByDay(t: string, from: string, to: string)
    requires IsInstant(t) && |from| == 10 && |to| == 10
    ensures InRange(t, from, to) <==> Text.LexLe(from, DayOf(t)) && Text.LexLe(DayOf(t), to)
  {
    var day, time := t[..10], t[10..];
    assert t == day + time;
    Text.LexLeSameLengthHeads(from, Midnight, day, time);
    Text.LexLeSameLengthHeads(day, time, to, LastMillisecond);
    Text.LexLeReflexive(day);
  }

  /** A one-day range holds exactly the instants of that day. */
  lemma InRangeOneDay(t: string, day: string)
    requires IsInstant(t) && |day| == 10
    ensures InRange(t, day, day) <==> DayOf(t) == day
  {
    InRangeByDay(t, day, day);
    if Text.LexLe(day, DayOf(t)) && Text.LexLe(DayOf(t), day) {
      Text.LexLeAntisymmetric(day, DayOf(t));
    }
    Text.LexLeReflexive(day);
  }

  /**
   * The instant `log_meal` records: a ten-character `loggedAt` is a date and
   * is taken at noon UTC, any other non-empty text is the instant itself,
   * and without one the entry is stamped with the current instant.
   * Text that is not in canonical form is kept as it is: the model does not
   * parse dates.
   */
  function LoggedAtInstant(loggedAt: Option<string>, now: string): (r: string)
    ensures !Truthy(loggedAt) ==> r == now
    ensures Truthy(loggedAt) && |loggedAt.value| == 10 ==> |r| == 24 && DayOf(r) == loggedAt.value && r[10..] == Noon
    ensures Truthy(loggedAt) && |loggedAt.value| != 10 ==> r == loggedAt.value
  {
    if !Truthy(loggedAt) then now
    else if |loggedAt.value| == 10 then loggedAt.value + Noon
    else loggedAt.value
  }

  /** Any ten characters followed by `Noon` make a canonical instant on that day. */
  lemma NoonIsInstant(day: string)
    requires |day| == 10
    ensures IsInstant(day + Noon) && DayOf(day + Noon) == day
  {
    var t := day + Noon;
    assert t[10..] == Noon && t[..10] == day;
    assert Midnight[1..] == "00:00:00.000Z" && Noon[1..] == "12:00:00.000Z";
    assert Text.LexLe(Midnight[1..], Noon[1..]);
    assert LastMillisecond[1..] == "23:59:59.999Z";
    assert Text.LexLe(Noon[1..], LastMillisecond[1..]);
  }

  /** A date-only `loggedAt` gives a canonical instant within that day. */
  lemma DateOnlyIsNoonOfThatDay(day: string, now: string)
    requires |day| == 10
    ensures IsInstant(LoggedAtInstant(Some(day), now))
    ensures InRange(LoggedAtInstant(Some(day), now), day, day)
  {
    NoonIsInstant(day);
    InRangeOneDay(LoggedAtInstant(Some(day), now), day);
  }

  /** The current time and the calendar, which the handlers read from the system clock. */
  datatype Clock = Clock(now: string, today: int, dayText: int -> string)

  /**
   * Day numbers count days from 1970-01-01 (day 0). `toISOString` writes a
   * plain `YYYY-MM-DD` date only for the years 0000 to 9999; other years get
   * a signed six-digit year.
   */
  const FirstDay: int := -719528  // 0000-01-01
  const LastDay: int := 2932896   // 9999-12-31

  predicate InCalendar(d: int) {
    FirstDay <= d <= LastDay
  }

  /**
   * The clock's parts agree: `now` is a canonical instant on day `today`,
   * today lies in the four-digit years, every such day's text is ten
   * characters long, and of two such days the later has the larger text.
   */
  ghost predicate ValidClock(c: Clock) {
    && IsInstant(c.now)
    && InCalendar(c.today)
    && DayOf(c.now) == c.dayText(c.today)
    && (forall d :: InCalendar(d) ==> |c.dayText(d)| == 10)
    && (forall d, e :: InCalendar(d) && InCalendar(e) && d < e ==>
          Text.LexLe(c.dayText(d), c.dayText(e)) && c.dayText(d) != c.dayText(e))
  }

  /** `10^w`. */
  function Pow10(w: nat): nat {
    if w == 0 then 1 else 10 * Pow10(w - 1)
  }

  function Digit(k: nat): char
    requires k < 10
  {
    ('0' as int + k) as char
  }

  /** The last `width` decimal digits of `n`, zero-padded, most significant first. */
  function Numeral(n: nat, width: nat): (r: string)
    ensures |r| == width
    decreases width
  {
    if width == 0 then [] else Numeral(n / 10, width - 1) + [Digit(n % 10)]
  }

  /** Zero-padded numerals of one width compare as the numbers they write. */
  lemma {:induction false} NumeralIncreasing(m: nat, n: nat, width: nat)
    requires m < n < Pow10(width)
    ensures Text.LexLe(Numeral(m, width), Numeral(n, width)) && Numeral(m, width) != Numeral(n, width)
    decreases width
  {
    var hm, hn := Numeral(m / 10, width - 1), Numeral(n / 10, width - 1);
    var lm, ln := [Digit(m % 10)], [Digit(n % 10)];
    assert Numeral(m, width) == hm + lm && Numeral(n, width) == hn + ln;
    Text.LexLeSameLengthHeads(hm, lm, hn, ln);
    if m / 10 < n / 10 {
      assert n / 10 < Pow10(width - 1);
      NumeralIncreasing(m / 10, n / 10, width - 1);
      assert (hm + lm)[..width - 1] == hm && (hn + ln)[..width - 1] == hn;
    } else {
      assert m % 10 < n % 10;
      assert lm[0] < ln[0];
    }
  }

  /** A calendar for `ExampleClock`: day `d` is written as ten digits counting from 0000-01-01. */
  function ExampleDay(d: int): string {
    Numeral(if d >= FirstDay then d - FirstDay else 0, 10)
  }

  /** A clock at noon of day 0 over the calendar `ExampleDay`. */
  function ExampleClock(): Clock {
    Clock(ExampleDay(0) + Noon, 0, ExampleDay)
  }

  lemma TenDigitsSuffice()
    ensures Pow10(10) == 10000000000
  {
    assert Pow10(5) == 100000;
  }

  /** `ValidClock` can be met: `ExampleClock` meets it. */
  lemma ExampleClockIsValid()
    ensures ValidClock(ExampleClock())
  {
    var c := ExampleClock();
    NoonIsInstant(ExampleDay(0));
    TenDigitsSuffice();
    forall d, e | InCalendar(d) && InCalendar(e) && d < e
      ensures Text.LexLe(c.dayText(d), c.dayText(e)) && c.dayText(d) != c.dayText(e)
    {
      NumeralIncreasing(d - FirstDay, e - FirstDay, 10);
    }
  }

  /** `Date` holds instants up to 8.64e15 ms, that is 10^8 days, either side of 1970-01-01. */
  const DateLimitDays: int := 100000000

  /**
   * `new Date(Date.now() - n * 24 * 60 * 60 * 1000)` is a valid date: the
   * instant `n` days before now, at now's time of day, lies in that range.
   * Of the last day only its first millisecond does.
   */
  predicate ShiftRepresentable(c: Clock, n: int) {
    var d := c.today - n;
    -DateLimitDays <= d < DateLimitDays || (d == DateLimitDays && |c.now| >= 10 && c.now[10..] == Midnight)
  }

  /** `new Date().toISOString().slice(0, 10)`. */
  function Today(c: Clock): string {
    c.dayText(c.today)
  }

  /** The day `n` days before today: `new Date(Date.now() - n * 24 * 60 * 60 * 1000).toISOString().slice(0, 10)`. */
  function DaysAgo(c: Clock, n: int): string {
    c.dayText(c.today - n)
  }
}
