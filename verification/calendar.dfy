/**
 * Calendar dates as a JavaScript `Date` reports them at local midnight:
 * `getFullYear()`, the 0-based `getMonth()` and `getDate()`, in the proleptic
 * Gregorian calendar. `setDate(getDate() + n)` moves a date forward by n days.
 */
module Calendar {

  datatype Date = Date(year: int, monthIndex: int, day: int)

  predicate IsLeapYear(y: int) {
    y % 4 == 0 && (y % 100 != 0 || y % 400 == 0)
  }

  /** Days in month `m` (0-based) of year `y`. */
  function DaysInMonth(y: int, m: int): (n: int)
    requires 0 <= m < 12
    ensures 28 <= n <= 31
    ensures m == 1 ==> (n == 29 <==> IsLeapYear(y))
  {
    if m == 1 then (if IsLeapYear(y) then 29 else 28)
    else if m == 3 || m == 5 || m == 8 || m == 10 then 30
    else 31
  }

  predicate Valid(d: Date) {
    0 <= d.monthIndex < 12 && 1 <= d.day <= DaysInMonth(d.year, d.monthIndex)
  }

  /** `a` is a strictly earlier calendar day than `b`. */
  predicate Before(a: Date, b: Date) {
    a.year < b.year
    || (a.year == b.year && a.monthIndex < b.monthIndex)
    || (a.year == b.year && a.monthIndex == b.monthIndex && a.day < b.day)
  }

  predicate OnOrBefore(a: Date, b: Date) {
    a == b || Before(a, b)
  }

  lemma BeforeTransitive(a: Date, b: Date, c: Date)
    requires Before(a, b) && Before(b, c)
    ensures Before(a, c)
  {
  }

  /** The day before `d`. */
  function PrevDay(d: Date): (r: Date)
    requires Valid(d)
    ensures Valid(r) && Before(r, d)
  {
    if d.day > 1 then d.(day := d.day - 1)
    else if d.monthIndex > 0 then Date(d.year, d.monthIndex - 1, DaysInMonth(d.year, d.monthIndex - 1))
    else Date(d.year - 1, 11, 31)
  }

  /** The day after `d`: the day of the month, else the month, else the year rolls over. */
  function NextDay(d: Date): (r: Date)
    requires Valid(d)
    ensures Valid(r) && Before(d, r)
    ensures PrevDay(r) == d
  {
    if d.day < DaysInMonth(d.year, d.monthIndex) then d.(day := d.day + 1)
    else if d.monthIndex < 11 then Date(d.year, d.monthIndex + 1, 1)
    else Date(d.year + 1, 0, 1)
  }

  /** Moving back a day and then forward a day is the identity. */
  lemma NextOfPrev(d: Date)
    requires Valid(d)
    ensures NextDay(PrevDay(d)) == d
  {
  }

  /** No valid date lies strictly between a day and the next one. */
  lemma NextDayIsImmediate(d: Date, e: Date)
    requires Valid(d) && Valid(e) && Before(d, e)
    ensures OnOrBefore(NextDay(d), e)
  {
  }

  /** `n` days after `d`. */
  function AddDays(d: Date, n: nat): (r: Date)
    requires Valid(d)
    ensures Valid(r)
    decreases n
  {
    if n == 0 then d else AddDays(NextDay(d), n - 1)
  }

  /** The date `n + 1` days on is the day after the date `n` days on. */
  lemma {:induction false} AddDaysSucc(d: Date, n: nat)
    requires Valid(d)
    ensures AddDays(d, n + 1) == NextDay(AddDays(d, n))
    decreases n
  {
    if n > 0 {
      AddDaysSucc(NextDay(d), n - 1);
    }
  }

  /** Adding days composes. */
  lemma {:induction false} AddDaysAdd(d: Date, a: nat, b: nat)
    requires Valid(d)
    ensures AddDays(AddDays(d, a), b) == AddDays(d, a + b)
    decreases a
  {
    if a > 0 {
      AddDaysAdd(NextDay(d), a - 1, b);
    }
  }

  /** A positive number of days lands strictly later. */
  lemma {:induction false} AddDaysLater(d: Date, n: nat)
    requires Valid(d) && n > 0
    ensures Before(d, AddDays(d, n))
    decreases n
  {
    if n > 1 {
      AddDaysLater(NextDay(d), n - 1);
      BeforeTransitive(d, NextDay(d), AddDays(d, n));
    }
  }

  /** Day offsets are strictly increasing: distinct offsets give distinct, ordered dates. */
  lemma AddDaysMonotonic(d: Date, i: nat, j: nat)
    requires Valid(d) && i < j
    ensures Before(AddDays(d, i), AddDays(d, j))
  {
    AddDaysAdd(d, i, j - i);
    AddDaysLater(AddDays(d, i), j - i);
  }
}
