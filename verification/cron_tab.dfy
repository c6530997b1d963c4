/**
 The next run of a cron job: the search over months, days, hours and minutes, and that it
 finds the earliest time that fits. The calendar is without daylight saving.
 */
module CronTab {
  /** A minute of local time: year since 1900, month from 0, day from 1. */
  datatype Tm = Tm(year: int, mon: int, mday: int, hour: int, min: int)

  /** The bits set for each field; doMday if month or day is restricted, doWday if weekday is. */
  datatype Job = Job(min: set<int>, hour: set<int>, mday: set<int>, mon: set<int>, wday: set<int>, doMday: bool,
      doWday: bool)

  // ---- the calendar ----

  predicate Leap(year: int) { (year + 1900) % 4 == 0 && ((year + 1900) % 100 != 0 || (year + 1900) % 400 == 0) }

  function DaysIn(year: int, mon: int): int {
    if mon == 1 then (if Leap(year) then 29 else 28) else if mon == 3 || mon == 5 || mon == 8 || mon == 10 then 30
        else 31
  }

  /** Days of a year before a month. */
  function MonthStart(year: int, mon: int): int {
    if mon <= 0 then 0 else MonthStart(year, mon - 1) + DaysIn(year, mon - 1)
  }

  /** Days before the year, counted from the year 1. */
  function YearStart(year: int): int {
    var y := year + 1899;
    365 * y + y / 4 - y / 100 + y / 400
  }

  function DayNumber(t: Tm): int { YearStart(t.year) + MonthStart(t.year, t.mon) + t.mday - 1 }

  /** 0 is Sunday. The first of January of the year 1 was a Monday. */
  function Weekday(t: Tm): int { (DayNumber(t) + 1) % 7 }

  /** Minutes on end, which is what mktime counts. */
  function MkTime(t: Tm): int { (DayNumber(t) * 24 + t.hour) * 60 + t.min }

  /** Fields within their bounds; there need not be such a day. */
  predicate Normal(t: Tm) {
    0 <= t.mon < 12 && 1 <= t.mday <= 31 && 0 <= t.hour < 24 && 0 <= t.min < 60
  }

  /** localtime gives back the day that was put into mktime. */
  predicate Exists(t: Tm) { Normal(t) && t.mday <= DaysIn(t.year, t.mon) }

  predicate Less(a: Tm, b: Tm) {
    a.year < b.year || (a.year == b.year &&
    (a.mon < b.mon || (a.mon == b.mon &&
    (a.mday < b.mday || (a.mday == b.mday &&
    (a.hour < b.hour || (a.hour == b.hour && a.min < b.min)))))))
  }

  lemma Fours(y: int)
    ensures (y + 1) / 4 == y / 4 + (if (y + 1) % 4 == 0 then 1 else 0)
  {
  }

  lemma Hundreds(y: int)
    ensures (y + 1) / 100 == y / 100 + (if (y + 1) % 100 == 0 then 1 else 0)
  {
  }

  lemma FourHundreds(y: int)
    ensures (y + 1) / 400 == y / 400 + (if (y + 1) % 400 == 0 then 1 else 0)
  {
  }

  lemma Centuries(y: int)
    ensures (y % 400 == 0 ==> y % 100 == 0) && (y % 100 == 0 ==> y % 4 == 0)
  {
  }

  lemma YearNext(year: int)
    requires year + 1900 >= 1
    ensures YearStart(year + 1) == YearStart(year) + MonthStart(year, 12)
  {
    var y := year + 1899;
    assert y + 1 == year + 1900;
    Fours(y);
    Hundreds(y);
    FourHundreds(y);
    Centuries(y + 1);
    TwelveMonths(year);
  }

  lemma TwelveMonths(year: int)
    ensures MonthStart(year, 12) == if Leap(year) then 366 else 365
  {
    assert MonthStart(year, 1) == 31;
    assert MonthStart(year, 2) == 31 + DaysIn(year, 1);
    assert MonthStart(year, 4) == MonthStart(year, 2) + 61;
    assert MonthStart(year, 6) == MonthStart(year, 4) + 61;
    assert MonthStart(year, 8) == MonthStart(year, 6) + 62;
    assert MonthStart(year, 10) == MonthStart(year, 8) + 61;
    assert MonthStart(year, 12) == MonthStart(year, 10) + 61;
  }

  lemma {:induction false} MonthsRise(year: int, a: int, b: int)
    requires 0 <= a < b
    ensures MonthStart(year, a) + DaysIn(year, a) <= MonthStart(year, b)
    decreases b
  {
    if a < b - 1 { MonthsRise(year, a, b - 1); }
  }

  lemma {:induction false} YearsRise(a: int, b: int)
    requires -1899 <= a < b
    ensures YearStart(a) + MonthStart(a, 12) <= YearStart(b)
    decreases b - a
  {
    if a < b - 1 {
      YearsRise(a, b - 1);
      YearNext(b - 1);
      TwelveMonths(b - 1);
    } else {
      YearNext(a);
    }
  }

  lemma DaysRise(a: Tm, b: Tm)
    requires Exists(a) && Exists(b) && -1899 <= a.year
    requires a.year < b.year || (a.year == b.year && (a.mon < b.mon || (a.mon == b.mon && a.mday < b.mday)))
    ensures DayNumber(a) < DayNumber(b)
  {
    hide YearStart, MonthStart, DaysIn;
    MonthsRise(a.year, a.mon, 12);
    if a.year < b.year {
      YearsRise(a.year, b.year);
      FromZero(b.year, b.mon);
    } else if a.mon < b.mon {
      MonthsRise(a.year, a.mon, b.mon);
    }
  }

  lemma FromZero(year: int, mon: int)
    ensures MonthStart(year, mon) >= 0
  {
  }

  /** Of two minutes that exist the one that comes first in the fields comes first in time. */
  lemma LessIsSooner(a: Tm, b: Tm)
    requires Exists(a) && Exists(b) && -1899 <= a.year && Less(a, b)
    ensures MkTime(a) < MkTime(b)
  {
    hide DayNumber;
    if a.year == b.year && a.mon == b.mon && a.mday == b.mday {
      assert DayNumber(a) == DayNumber(b) by { SameDay(a, b); }
    } else {
      DaysRise(a, b);
    }
  }

  lemma SameDay(a: Tm, b: Tm)
    requires a.year == b.year && a.mon == b.mon && a.mday == b.mday
    ensures DayNumber(a) == DayNumber(b)
  {
  }

  // ---- when a job fits ----

  /** Without a weekday month and day count; with one, either schedule does. */
  predicate DayOk(job: Job, t: Tm) {
    if !job.doWday then t.mon in job.mon && t.mday in job.mday
    else Weekday(t) in job.wday || (job.doMday && t.mon in job.mon && t.mday in job.mday)
  }

  predicate Fits(job: Job, t: Tm) {
    Exists(t) && DayOk(job, t) && t.hour in job.hour && t.min in job.min
  }

  /** No time after prev and before t fits. */
  ghost predicate NoneBefore(job: Job, prev: Tm, t: Tm) {
    forall u: Tm :: Less(prev, u) && Less(u, t) ==> !Fits(job, u)
  }

  /** Each field may be one too large, and then those below it are at their lowest. */
  predicate Ready(t: Tm) {
    && 0 <= t.mon <= 12 && 1 <= t.mday <= 32 && 0 <= t.hour <= 24 && 0 <= t.min <= 60
    && (t.hour == 24 ==> t.min == 0) && (t.mday == 32 ==> t.hour == 0 && t.min == 0)
    && (t.mon == 12 ==> t.mday == 1 && t.hour == 0 && t.min == 0)
  }

  /** No time between two others fits. */
  ghost predicate Gap(job: Job, a: Tm, b: Tm) {
    forall u: Tm :: Normal(u) && !Less(u, a) && Less(u, b) ==> !Fits(job, u)
  }

  lemma Onward(job: Job, prev: Tm, a: Tm, b: Tm)
    requires NoneBefore(job, prev, a) && Gap(job, a, b)
    ensures NoneBefore(job, prev, b)
  {
    forall u: Tm | Less(prev, u) && Less(u, b) ensures !Fits(job, u) {
      if !Less(u, a) && Normal(u) { assert !Fits(job, u); }
    }
  }

  /** The four carries at the head of the loop: the first proper time that is not before t. */
  method Carry(t: Tm, ghost job: Job, ghost prev: Tm) returns (r: Tm)
    requires Ready(t) && NoneBefore(job, prev, t) && Less(prev, t)
    ensures Normal(r) && NoneBefore(job, prev, r) && Less(prev, r) && !Less(r, t)
    ensures forall u: Tm :: Normal(u) && !Less(u, t) ==> !Less(u, r)
  {
    r := t;
    if r.min > 59 { r := r.(min := 0, hour := r.hour + 1); }
    if r.hour > 23 { r := r.(min := 0, hour := 0, mday := r.mday + 1); }
    if r.mday > 31 { r := r.(hour := 0, min := 0, mday := 1, mon := r.mon + 1); }
    if r.mon >= 12 { r := r.(hour := 0, min := 0, mday := 1, mon := 0, year := r.year + 1); }
    Onward(job, prev, t, r);
  }

  datatype When = At(t: Tm) | Never

  /** r is the first time after prev, within eight calendar years, at which the job fits. */
  ghost predicate NextRun(job: Job, prev: Tm, r: When) {
    match r
    case At(t) => Fits(job, t) && Less(prev, t) && t.year - prev.year <= 8 && forall u: Tm ::
        Less(prev, u) && Fits(job, u) ==> !Less(u, t)
    case Never => forall u: Tm :: Less(prev, u) && Fits(job, u) ==> u.year - prev.year > 8
  }

  /** The loop of tab_reschedule: the first time after prev that fits, or Never if none does in
      the eight calendar years after that of prev. */
  method Search(job: Job, prev: Tm) returns (r: When)
    requires Normal(prev)
    ensures NextRun(job, prev, r)
    ensures r.Never? <==> !exists u: Tm :: Less(prev, u) && Fits(job, u) && u.year - prev.year <= 8
  {
    var t := prev.(min := prev.min + 1);
    while true
      invariant Ready(t) && Less(prev, t) && NoneBefore(job, prev, t) && t.year - prev.year <= 9
      decreases prev.year + 10 - t.year, 13 - t.mon, 33 - t.mday, 25 - t.hour, 61 - t.min
    {
      var c := Carry(t, job, prev);
      if c.year - prev.year > 8 {
        return Never;
      }
      var d := Advance(job, c);
      if d == c { return At(c); }
      Onward(job, prev, c, d);
      t := d;
    }
  }

  /** The tests of the loop: the same time if it fits, else where to go on. */
  method Advance(job: Job, t: Tm) returns (r: Tm)
    requires Normal(t)
    ensures r == t ==> Fits(job, t)
    ensures r != t ==> Ready(r) && Less(t, r) && Gap(job, t, r) && r.year == t.year
  {
    if !job.doWday {
      if t.mon !in job.mon { return t.(mday := 1, hour := 0, min := 0, mon := t.mon + 1); }
      if t.mday !in job.mday { return t.(hour := 0, min := 0, mday := t.mday + 1); }
    }
    if t.hour !in job.hour { return t.(min := 0, hour := t.hour + 1); }
    if t.min !in job.min { return t.(min := t.min + 1); }
    if t.mday > DaysIn(t.year, t.mon) { return t.(hour := 0, min := 0, mday := t.mday + 1); }
    if job.doWday && Weekday(t) in job.wday { return t; }
    if job.doMday && t.mon in job.mon && t.mday in job.mday { return t; }
    if !job.doWday && !job.doMday { return t; }
    WrongDay(job, t);
    return t.(hour := 0, min := 0, mday := t.mday + 1);
  }

  lemma WrongDay(job: Job, t: Tm)
    requires !DayOk(job, t)
    ensures Gap(job, t, t.(hour := 0, min := 0, mday := t.mday + 1))
  {
    forall u: Tm | Normal(u) && !Less(u, t) && Less(u, t.(hour := 0, min := 0, mday := t.mday + 1))
      ensures !Fits(job, u)
    {
      SameDay(t, u);
    }
  }

  // ---- tab_reschedule ----

  /** There is only one such time. */
  lemma NextRunUnique(job: Job, prev: Tm, r: When, s: When)
    requires NextRun(job, prev, r) && NextRun(job, prev, s)
    ensures r == s
  {
  }

  /** It is also first in time. */
  lemma NextRunSoonest(job: Job, prev: Tm, r: When, u: Tm)
    requires NextRun(job, prev, r) && r.At? && Exists(prev) && prev.year >= -1899 && Fits(job, u) && Less(prev, u)
    ensures MkTime(prev) < MkTime(r.t) <= MkTime(u)
  {
    hide MkTime;
    LessIsSooner(prev, r.t);
    if u != r.t { LessIsSooner(r.t, u); }
  }

  predicate Sooner(a: When, b: When) { a.At? && (b.Never? || Less(a.t, b.t)) }

  class CronJob {
    const job: Job
    const atjob: bool
    var rtime: When
    var late: bool

    constructor (job: Job, atjob: bool, start: Tm)
      ensures this.job == job && this.atjob == atjob && rtime == At(start) && !late
    {
      this.job, this.atjob := job, atjob;
      rtime, late := At(start), false;
    }

    /** The time now is second sec of minute now; next is the soonest run of any job. */
    method Reschedule(now: Tm, sec: nat, next: When) returns (next': When)
      requires Normal(now) && rtime.At? && Normal(rtime.t)
      modifies this
      ensures atjob ==> rtime == Never && late == old(late) && next' == next
      ensures !atjob ==> NextRun(job, if old(late) then now else old(rtime.t), rtime)
      ensures !atjob && rtime.Never? ==> next' == next
      ensures !atjob && rtime.At? ==>
                && (late <==> Less(rtime.t, now) || (rtime.t == now && sec > 0))
                && next' == if Sooner(rtime, next) then rtime else next
    {
      next' := next;
      if atjob {
        rtime := Never;
        return;
      }
      if late { rtime := At(now); }
      rtime := Search(job, rtime.t);
      if rtime.Never? { return; }
      late := Less(rtime.t, now) || (rtime.t == now && sec > 0);
      if Sooner(rtime, next) { next' := rtime; }
    }
  }
}
