/**
 * utils/calculateDateDifference.ts: order two ISO dates, take Luxon's
 * years/months/days difference of the later from the earlier, and split the
 * days into weeks and leftover days. Luxon's parsing and calendar
 * arithmetic are parameters.
 */
module DateDifference {
  import opened Wrappers

  /** A Luxon DateTime as `<` and `>=` see it: its epoch milliseconds, or NaN when invalid. */
  datatype DateTime = DateTime(epochMillis: int) | InvalidDateTime

  /** `diff(...).toObject()`: each requested unit may be absent. Fractional units are not modelled. */
  datatype Duration = Duration(years: Option<int>, months: Option<int>, days: Option<int>)

  datatype Luxon = Luxon(
    /** `DateTime.fromISO(text)`. */
    fromISO: string -> DateTime,
    /** `later.diff(earlier, ['years', 'months', 'days']).toObject()`. */
    diff: (DateTime, DateTime) -> Duration
  )

  datatype DateDifference = DateDifference(years: int, months: int, weeks: int, days: int)

  /** `a < b` on DateTimes: a comparison involving NaN is false. */
  predicate Before(a: DateTime, b: DateTime) {
    a.DateTime? && b.DateTime? && a.epochMillis < b.epochMillis
  }

  /** `a >= b` on DateTimes. */
  predicate NotBefore(a: DateTime, b: DateTime) {
    a.DateTime? && b.DateTime? && a.epochMillis >= b.epochMillis
  }

  /** `date1 < date2 ? date1 : date2`. */
  function Earlier(d1: DateTime, d2: DateTime): (r: DateTime)
    ensures r == d1 || r == d2
    ensures d1.DateTime? && d2.DateTime? ==> r.epochMillis <= d1.epochMillis && r.epochMillis <= d2.epochMillis
    ensures !(d1.DateTime? && d2.DateTime?) ==> r == d2
  {
    if Before(d1, d2) then d1 else d2
  }

  /** `date1 >= date2 ? date1 : date2`. */
  function Later(d1: DateTime, d2: DateTime): (r: DateTime)
    ensures r == d1 || r == d2
    ensures d1.DateTime? && d2.DateTime? ==> r.epochMillis >= d1.epochMillis && r.epochMillis >= d2.epochMillis
    ensures !(d1.DateTime? && d2.DateTime?) ==> r == d2
  {
    if NotBefore(d1, d2) then d1 else d2
  }

  /** `Math.floor(n / 7)`. */
  function FloorDiv7(n: int): (q: int)
    ensures q * 7 <= n < q * 7 + 7
  {
    n / 7
  }

  /** `n % 7` in JavaScript: the remainder takes the sign of `n`. */
  function RemainderJs7(n: int): (r: int)
    ensures n >= 0 ==> 0 <= r < 7
    ensures n < 0 ==> -7 < r <= 0
    ensures (n - r) % 7 == 0
  {
    if n >= 0 then n % 7 else -((-n) % 7)
  }

  /** The difference reported for a Luxon duration. */
  function FromDuration(diff: Duration): (r: DateDifference)
    ensures r.years == diff.years.GetOr(0) && r.months == diff.months.GetOr(0)
    ensures diff.days.GetOr(0) >= 0 ==>
              && r.weeks * 7 + r.days == diff.days.GetOr(0)
              && 0 <= r.days < 7
              && r.weeks == diff.days.GetOr(0) / 7
  {
    var days := diff.days.GetOr(0);
    DateDifference(diff.years.GetOr(0), diff.months.GetOr(0), FloorDiv7(days), RemainderJs7(days))
  }

  /** `calculateDateDifference(startDate, endDate)`. */
  function CalculateDateDifference(luxon: Luxon, startDate: string, endDate: string): (r: DateDifference)
    ensures var date1 := luxon.fromISO(startDate);
            var date2 := luxon.fromISO(endDate);
            var diff := luxon.diff(Later(date1, date2), Earlier(date1, date2));
            && r.years == diff.years.GetOr(0) && r.months == diff.months.GetOr(0)
            && (diff.days.GetOr(0) >= 0 ==> r.weeks * 7 + r.days == diff.days.GetOr(0) && 0 <= r.days < 7)
  {
    var date1 := luxon.fromISO(startDate);
    var date2 := luxon.fromISO(endDate);
    FromDuration(luxon.diff(Later(date1, date2), Earlier(date1, date2)))
  }

  /** For two valid dates the earlier is not after the later, and the pair is the two dates. */
  lemma OrderedPair(d1: DateTime, d2: DateTime)
    requires d1.DateTime? && d2.DateTime?
    ensures Earlier(d1, d2).epochMillis <= Later(d1, d2).epochMillis
    ensures (Earlier(d1, d2), Later(d1, d2)) in {(d1, d2), (d2, d1)}
  {
  }

  /** Swapping two valid dates selects the same (earlier, later) pair. */
  lemma SwapSelectsSamePair(d1: DateTime, d2: DateTime)
    requires d1.DateTime? && d2.DateTime?
    ensures Earlier(d1, d2) == Earlier(d2, d1) && Later(d1, d2) == Later(d2, d1)
  {
  }

  /** Hence the difference does not depend on the argument order when both dates parse. */
  lemma DifferenceCommutes(luxon: Luxon, a: string, b: string)
    requires luxon.fromISO(a).DateTime? && luxon.fromISO(b).DateTime?
    ensures CalculateDateDifference(luxon, a, b) == CalculateDateDifference(luxon, b, a)
  {
    SwapSelectsSamePair(luxon.fromISO(a), luxon.fromISO(b));
  }

  /** With an invalid date the selection depends on the argument order. */
  lemma SwapWithInvalidDate(d: DateTime)
    requires d.DateTime?
    ensures (Earlier(InvalidDateTime, d), Later(InvalidDateTime, d)) == (d, d)
    ensures (Earlier(d, InvalidDateTime), Later(d, InvalidDateTime)) == (InvalidDateTime, InvalidDateTime)
  {
  }

  /** If Luxon reports no difference between a date and itself, the result is all zeros. */
  lemma DifferenceOfDateWithItself(luxon: Luxon, a: string)
    requires var d := luxon.fromISO(a);
             luxon.diff(d, d).years.GetOr(0) == 0 && luxon.diff(d, d).months.GetOr(0) == 0
             && luxon.diff(d, d).days.GetOr(0) == 0
    ensures CalculateDateDifference(luxon, a, a) == DateDifference(0, 0, 0, 0)
  {
  }

  /** A negative day count is split inconsistently: floor and a sign-keeping remainder disagree. */
  lemma NegativeDaysSplit()
    ensures FromDuration(Duration(None, None, Some(-3))) == DateDifference(0, 0, -1, -3)
  {
  }
}
