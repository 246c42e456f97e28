/**
 The five-field cron engine of src/scheduler/cron.ts, on UTC minutes. A field is
 taken after its text was split at the commas and each part was recognized.
 */
module Cron {
  import opened Text
  import opened Calendar

  // ------------------------------------------------------------ fields

  /** What stands before the slash of a step; None is a number that did not parse. */
  datatype Base = Star | Pair(lo: Option<int>, hi: Option<int>) | Single(lo: Option<int>)

  datatype Part =
    | Stepped(base: Base, step: nat)
    | Wildcard
    | Range(lo: nat, hi: nat)
    | Exact(value: Option<int>)

  datatype Error = InvalidStep | InvalidBase | InvalidRange | InvalidValue | OutOfRange | WrongFieldCount

  datatype Result<+T> = Ok(value: T) | Err(error: Error)

  /** First and last value of a step's progression. */
  function Bounds(base: Base, min: int, max: int): (Option<int>, Option<int>) {
    match base
    case Star => (Some(min), Some(max))
    case Pair(lo, hi) => (lo, hi)
    case Single(lo) => (lo, Some(max))
  }

  /** The values a part denotes. */
  function PartValues(part: Part, min: int, max: int): Result<set<int>> {
    match part
    case Stepped(base, step) =>
      var (lo, hi) := Bounds(base, min, max);
      if step == 0 then Err(InvalidStep)
      else if lo.None? || hi.None? then Err(InvalidBase)
      else if lo.value > hi.value && base != Star then Err(InvalidRange)
      else Ok(Progression(lo.value, hi.value, step))
    case Wildcard => Ok(Progression(min, max, 1))
    case Range(lo, hi) => if lo > hi then Err(InvalidRange) else Ok(Progression(lo, hi, 1))
    case Exact(value) => if value.None? then Err(InvalidValue) else Ok({value.value})
  }

  /** lo, lo + step, lo + 2 * step, ... up to hi. */
  function Progression(lo: int, hi: int, step: nat): set<int>
    requires step > 0
    decreases hi - lo
  {
    if lo > hi then {} else {lo} + Progression(lo + step, hi, step)
  }

  predicate IsTerm(lo: int, step: nat, n: nat, v: int) {
    v == lo + n * step
  }

  /** The progression holds exactly the terms that do not exceed `hi`. */
  lemma {:induction false} ProgressionMembers(lo: int, hi: int, step: nat, v: int)
    requires step > 0
    ensures v in Progression(lo, hi, step) <==> v <= hi && exists n: nat :: IsTerm(lo, step, n, v)
    decreases hi - lo
  {
    if lo <= hi {
      ProgressionMembers(lo + step, hi, step, v);
      if n: nat {:trigger IsTerm(lo + step, step, n, v)} :| IsTerm(lo + step, step, n, v) {
        assert lo + (n + 1) * step == lo + step + n * step;
        assert IsTerm(lo, step, n + 1, v);
      }
      if n: nat :| IsTerm(lo, step, n, v) {
        if n > 0 {
          assert lo + n * step == lo + step + (n - 1) * step;
          assert IsTerm(lo + step, step, n - 1, v);
        }
      }
      assert IsTerm(lo, step, 0, lo);
    } else if n: nat :| IsTerm(lo, step, n, v) {
      assert n * step >= 0;
    }
  }

  /** What each part denotes, or why it is none. */
  lemma PartDenotes(part: Part, min: int, max: int, v: int)
    ensures var values := PartValues(part, min, max);
            match part
            case Wildcard => values.Ok? && (v in values.value <==> min <= v <= max)
            case Exact(value) =>
              if value.None? then values == Err(InvalidValue) else values.Ok? && (v in values.value <==> v == value.value)
            case Range(lo, hi) =>
              if lo > hi then values == Err(InvalidRange) else values.Ok? && (v in values.value <==> lo <= v <= hi)
            case Stepped(base, step) =>
              var lo := if base.Star? then Some(min) else base.lo;
              var hi := if base.Pair? then base.hi else Some(max);
              if step == 0 then values == Err(InvalidStep)
              else if lo.None? || hi.None? then values == Err(InvalidBase)
              else if !base.Star? && lo.value > hi.value then values == Err(InvalidRange)
              else values.Ok? && (v in values.value <==> v <= hi.value && exists n: nat :: IsTerm(lo.value, step, n, v))
  {
    match part {
      case Wildcard => EveryStep(min, max, v);
      case Range(lo, hi) => EveryStep(lo, hi, v);
      case Exact(_) =>
      case Stepped(base, step) =>
        var (lo, hi) := Bounds(base, min, max);
        if step > 0 && lo.Some? && hi.Some? {
          ProgressionMembers(lo.value, hi.value, step, v);
        }
    }
  }

  lemma EveryStep(lo: int, hi: int, v: int)
    ensures v in Progression(lo, hi, 1) <==> lo <= v <= hi
  {
    ProgressionMembers(lo, hi, 1, v);
    if lo <= v {
      assert IsTerm(lo, 1, v - lo, v);
    }
  }

  /** The union of the parts, or the error of the first part that has one. */
  function AllValues(parts: seq<Part>, min: int, max: int): Result<set<int>> {
    if parts == [] then Ok({})
    else
      var before := AllValues(parts[..|parts| - 1], min, max);
      var last := PartValues(parts[|parts| - 1], min, max);
      if before.Err? then before else if last.Err? then last else Ok(before.value + last.value)
  }

  /** The parts succeed together or not at all, and then they denote their union. */
  lemma {:induction false} AllValuesUnion(parts: seq<Part>, min: int, max: int)
    ensures AllValues(parts, min, max).Ok? <==>
            forall k :: 0 <= k < |parts| ==> PartValues(parts[k], min, max).Ok?
    ensures AllValues(parts, min, max).Ok? ==>
              forall v :: v in AllValues(parts, min, max).value <==>
                exists k :: 0 <= k < |parts| && v in PartValues(parts[k], min, max).value
  {
    if parts != [] {
      var front, last := parts[..|parts| - 1], parts[|parts| - 1];
      AllValuesUnion(front, min, max);
      assert forall k :: 0 <= k < |front| ==> parts[k] == front[k];
      assert parts[|front|] == last;
    }
  }

  /** A field's values: its parts', unless one of them is out of range. */
  function FieldValues(parts: seq<Part>, min: int, max: int): Result<set<int>> {
    var all := AllValues(parts, min, max);
    if all.Ok? && exists v :: v in all.value && !(min <= v <= max) then Err(OutOfRange) else all
  }

  /** The part parses, and denotes values within the bounds only. */
  predicate PartFits(part: Part, min: int, max: int) {
    var values := PartValues(part, min, max);
    values.Ok? && forall v :: v in values.value ==> min <= v <= max
  }

  /** A field parses exactly when each part does and stays within the bounds, and then it
      denotes what its parts do. */
  lemma FieldParsesExactlyWhen(parts: seq<Part>, min: int, max: int)
    ensures var result := FieldValues(parts, min, max);
            && (result.Ok? <==> forall k :: 0 <= k < |parts| ==> PartFits(parts[k], min, max))
            && (result.Ok? ==> forall v :: v in result.value <==>
                  exists k :: 0 <= k < |parts| && v in PartValues(parts[k], min, max).value)
            && (result.Err? && (forall k :: 0 <= k < |parts| ==> PartValues(parts[k], min, max).Ok?) ==>
                  result == Err(OutOfRange))
  {
    AllValuesUnion(parts, min, max);
    var all := AllValues(parts, min, max);
    if all.Ok? {
      if forall k :: 0 <= k < |parts| ==> PartFits(parts[k], min, max) {
        assert forall v :: v in all.value ==> min <= v <= max;
      } else {
        var k :| 0 <= k < |parts| && !PartFits(parts[k], min, max);
        var v :| v in PartValues(parts[k], min, max).value && !(min <= v <= max);
        assert v in all.value;
      }
    }
  }

  /** Otherwise the error is that of the first part that has one. */
  lemma FirstWrongPartDecides(parts: seq<Part>, k: nat, min: int, max: int)
    requires k < |parts| && PartValues(parts[k], min, max).Err?
    requires forall j :: 0 <= j < k ==> PartValues(parts[j], min, max).Ok?
    ensures FieldValues(parts, min, max) == Err(PartValues(parts[k], min, max).error)
  {
    AllValuesUnion(parts[..k], min, max);
    assert parts[..k + 1][..k] == parts[..k];
    ErrorStays(parts, k + 1, min, max);
  }

  /** src/scheduler/cron.ts parseField. */
  method ParseField(parts: seq<Part>, min: int, max: int) returns (result: Result<set<int>>)
    ensures result == FieldValues(parts, min, max)
  {
    var values: set<int> := {};
    for k := 0 to |parts|
      invariant AllValues(parts[..k], min, max) == Ok(values)
    {
      var part := parts[k];
      assert parts[..k + 1][..k] == parts[..k];
      ghost var error := PartValues(part, min, max);
      if error.Err? {
        ErrorStays(parts, k + 1, min, max);
      }
      match part {
        case Stepped(base, step) =>
          if step == 0 {
            return Err(InvalidStep);
          }
          var (rangeMin, rangeMax) := Bounds(base, min, max);
          if rangeMin.None? || rangeMax.None? {
            return Err(InvalidBase);
          }
          if rangeMin.value > rangeMax.value && base != Star {
            return Err(InvalidRange);
          }
          values := AddProgression(values, rangeMin.value, rangeMax.value, step);
        case Wildcard =>
          values := AddProgression(values, min, max, 1);
        case Range(start, end) =>
          if start > end {
            return Err(InvalidRange);
          }
          values := AddProgression(values, start, end, 1);
        case Exact(value) =>
          if value.None? {
            return Err(InvalidValue);
          }
          values := values + {value.value};
      }
    }
    assert parts[..|parts|] == parts;
    if exists v :: v in values && !(min <= v <= max) {
      return Err(OutOfRange);
    }
    result := Ok(values);
  }

  /** The loops `for (v = lo; v <= hi; v += step) values.add(v)`. */
  method AddProgression(values: set<int>, lo: int, hi: int, step: nat) returns (all: set<int>)
    requires step > 0
    ensures all == values + Progression(lo, hi, step)
  {
    all := values;
    var v := lo;
    while v <= hi
      invariant all + Progression(v, hi, step) == values + Progression(lo, hi, step)
      decreases hi - v
    {
      all := all + {v};
      v := v + step;
    }
  }

  lemma {:induction false} ErrorStays(parts: seq<Part>, k: nat, min: int, max: int)
    requires k <= |parts| && AllValues(parts[..k], min, max).Err?
    ensures AllValues(parts, min, max) == AllValues(parts[..k], min, max)
    decreases |parts|
  {
    if k < |parts| {
      var front := parts[..|parts| - 1];
      assert front[..k] == parts[..k];
      ErrorStays(front, k, min, max);
    } else {
      assert parts[..k] == parts;
    }
  }

  /** A field that parses admits at least one value, all of them in range. */
  lemma ParsedFieldIsUsable(parts: seq<Part>, min: int, max: int)
    requires parts != [] && min <= max && FieldValues(parts, min, max).Ok?
    ensures exists v :: v in FieldValues(parts, min, max).value
    ensures forall v :: v in FieldValues(parts, min, max).value ==> min <= v <= max
  {
    var part := parts[|parts| - 1];
    var last := PartValues(part, min, max).value;
    var first := match part
      case Stepped(base, _) => Bounds(base, min, max).0.value
      case Wildcard => min
      case Range(lo, _) => lo
      case Exact(value) => value.value;
    assert first in last;
    assert first in FieldValues(parts, min, max).value;
  }

  // ------------------------------------------------------------ expressions

  datatype Expression = Expression(minute: set<int>, hour: set<int>, dayOfMonth: set<int>, month: set<int>,
                                   dayOfWeek: set<int>)

  /** What parsing guarantees of the two clock fields. */
  predicate ClockFieldsUsable(cron: Expression) {
    && (exists v :: v in cron.minute) && (forall v :: v in cron.minute ==> 0 <= v <= 59)
    && (exists v :: v in cron.hour) && (forall v :: v in cron.hour ==> 0 <= v <= 23)
  }

  /** First and last value of each field. */
  function Limits(k: nat): (int, int) {
    if k == 0 then (0, 59) else if k == 1 then (0, 23) else if k == 2 then (1, 31)
    else if k == 3 then (1, 12) else (0, 7)
  }

  lemma FieldLimits()
    ensures Limits(0) == (0, 59) && Limits(1) == (0, 23) && Limits(2) == (1, 31) && Limits(3) == (1, 12)
    ensures Limits(4) == (0, 7)
  {
  }

  function FieldAt(fields: seq<seq<Part>>, k: nat): Result<set<int>>
    requires k < |fields|
  {
    FieldValues(fields[k], Limits(k).0, Limits(k).1)
  }

  /** The error of the first field that has one. */
  predicate FirstError(fields: seq<seq<Part>>, error: Error) {
    exists k :: 0 <= k < |fields| && FieldAt(fields, k) == Err(error)
                && forall j :: 0 <= j < k ==> FieldAt(fields, j).Ok?
  }

  /** src/scheduler/cron.ts parseCron, after the shortcut was resolved. */
  method ParseCron(fields: seq<seq<Part>>) returns (result: Result<Expression>)
    requires forall k :: 0 <= k < |fields| ==> fields[k] != []
    ensures result.Ok? <==> |fields| == 5 && forall k :: 0 <= k < 5 ==> FieldAt(fields, k).Ok?
    ensures |fields| != 5 ==> result == Err(WrongFieldCount)
    ensures |fields| == 5 && result.Err? ==> FirstError(fields, result.error)
    ensures result.Ok? ==>
              && ClockFieldsUsable(result.value)
              && FieldValues(fields[0], 0, 59) == Ok(result.value.minute)
              && FieldValues(fields[1], 0, 23) == Ok(result.value.hour)
              && FieldValues(fields[2], 1, 31) == Ok(result.value.dayOfMonth)
              && FieldValues(fields[3], 1, 12) == Ok(result.value.month)
              && FieldValues(fields[4], 0, 7) == Ok(result.value.dayOfWeek)
  {
    if |fields| != 5 {
      return Err(WrongFieldCount);
    }
    var minute := ParseField(fields[0], 0, 59);
    assert minute == FieldAt(fields, 0);
    if minute.Err? { return Err(minute.error); }
    var hour := ParseField(fields[1], 0, 23);
    assert hour == FieldAt(fields, 1);
    if hour.Err? { return Err(hour.error); }
    var dayOfMonth := ParseField(fields[2], 1, 31);
    assert dayOfMonth == FieldAt(fields, 2);
    if dayOfMonth.Err? { return Err(dayOfMonth.error); }
    var month := ParseField(fields[3], 1, 12);
    assert month == FieldAt(fields, 3);
    if month.Err? { return Err(month.error); }
    var dayOfWeek := ParseField(fields[4], 0, 7);
    assert dayOfWeek == FieldAt(fields, 4);
    if dayOfWeek.Err? { return Err(dayOfWeek.error); }
    ParsedFieldIsUsable(fields[0], 0, 59);
    ParsedFieldIsUsable(fields[1], 0, 23);
    result := Ok(Expression(minute.value, hour.value, dayOfMonth.value, month.value, dayOfWeek.value));
  }

  predicate WeekDayListed(cron: Expression, weekDay: int) {
    weekDay in cron.dayOfWeek || (weekDay == 0 && 7 in cron.dayOfWeek)
  }

  predicate DayListed(cron: Expression, day: int) {
    DateOf(day) in cron.dayOfMonth && MonthOf(day) in cron.month && WeekDayListed(cron, WeekDay(day))
  }

  /** src/scheduler/cron.ts cronMatches, for the minute `t` since 1970. */
  predicate Matches(cron: Expression, t: int) {
    t % 60 in cron.minute && t / 60 % 24 in cron.hour && DayListed(cron, t / 1440)
  }

  // ------------------------------------------------------------ the next match

  const MAX_ITERATIONS: nat := 366 * 24 * 60

  /** The first minute after the one that contains the millisecond `after`. */
  function FirstCandidate(after: int): int {
    after / 60000 + 1
  }

  lemma FirstIsBehind(after: int)
    ensures forall t :: after < t * 60000 <==> FirstCandidate(after) <= t
  {
  }

  /** src/scheduler/cron.ts nextCronMatch: the least matching minute after the
      argument's own; none only if none of the next 366 days' minutes matches. */
  method NextCronMatch(cron: Expression, after: int) returns (next: Option<int>)
    ensures next.Some? ==>
              && after < next.value * 60000 && next.value <= after / 60000 + 366 * 24 * 60
              && Matches(cron, next.value)
              && forall t :: after < t * 60000 && t < next.value ==> !Matches(cron, t)
    ensures next.None? ==>
              forall t :: after < t * 60000 && t <= after / 60000 + 366 * 24 * 60 ==> !Matches(cron, t)
  {
    var candidate := FirstCandidate(after);
    FirstIsBehind(after);
    for i := 0 to MAX_ITERATIONS
      invariant candidate == FirstCandidate(after) + i
      invariant forall t :: FirstCandidate(after) <= t < candidate ==> !Matches(cron, t)
    {
      if Matches(cron, candidate) {
        return Some(candidate);
      }
      candidate := candidate + 1;
    }
    next := None;
  }

  /** A minute matches exactly when its minute, hour, date and month are listed and its
      week day is, Sunday as 0 or as 7. */
  lemma MatchesExactlyWhen(cron: Expression, year: int, month: int, date: int, hour: int, minute: int)
    requires 1 <= month <= 12 && 1 <= date <= DaysInMonth(month, Leap(year))
    requires 0 <= hour <= 23 && 0 <= minute <= 59
    ensures Matches(cron, DayOf(year, month, date) * 1440 + hour * 60 + minute) <==>
            && minute in cron.minute && hour in cron.hour && date in cron.dayOfMonth && month in cron.month
            && var w := DateWeekDay(year, month, date);
               w in cron.dayOfWeek || (w == 0 && 7 in cron.dayOfWeek)
  {
    DateRoundTrip(year, month, date);
    ClockOf(DayOf(year, month, date), hour, minute);
    WeekDayOfDate(year, month, date);
  }

  /** Every minute is one of some date, at some time of day. */
  lemma EveryMinuteHasDate(t: int)
    ensures var day := t / 1440;
            var year, month, date, hour, minute := YearOf(day), MonthOf(day), DateOf(day), t / 60 % 24, t % 60;
            && 1 <= month <= 12 && 1 <= date <= DaysInMonth(month, Leap(year))
            && 0 <= hour <= 23 && 0 <= minute <= 59
            && t == DayOf(year, month, date) * 1440 + hour * 60 + minute
  {
    DayRoundTrip(t / 1440);
    MinutesOfDay(t);
  }

  lemma MinutesOfDay(t: int)
    ensures t == t / 1440 * 1440 + t / 60 % 24 * 60 + t % 60
  {
    assert t / 60 / 24 == t / 1440;
  }

  /** The schedule of one time on one day of the week. */
  predicate Weekly(cron: Expression, weekDay: int, hour: int, minute: int) {
    && cron.minute == {minute} && cron.hour == {hour} && 0 <= hour <= 23 && 0 <= minute <= 59
    && (forall date :: 1 <= date <= 31 ==> date in cron.dayOfMonth)
    && (forall month :: 1 <= month <= 12 ==> month in cron.month)
    && cron.dayOfWeek == {weekDay} && 0 <= weekDay <= 6
  }

  /** Its matches are that time on every such day of the week, whatever the date. */
  lemma WeeklyMatches(cron: Expression, weekDay: int, hour: int, minute: int, year: int, month: int, date: int)
    requires Weekly(cron, weekDay, hour, minute)
    requires 1 <= month <= 12 && 1 <= date <= DaysInMonth(month, Leap(year))
    ensures Matches(cron, DayOf(year, month, date) * 1440 + hour * 60 + minute) <==>
            DateWeekDay(year, month, date) == weekDay
  {
    MonthLengths(month, Leap(year));
    MatchesExactlyWhen(cron, year, month, date, hour, minute);
  }

  /** And the next one is never more than seven days away. */
  lemma WeeklyIsFoundInAWeek(cron: Expression, weekDay: int, hour: int, minute: int, after: int) returns (t: int)
    requires Weekly(cron, weekDay, hour, minute)
    ensures after < t * 60000 && t <= after / 60000 + 7 * 24 * 60 && Matches(cron, t)
  {
    var start, clock := FirstCandidate(after), hour * 60 + minute;
    var first := (start - clock + 1439) / 1440;
    var wait := (weekDay - WeekDay(first)) % 7;
    var day := first + wait;
    t := day * 1440 + hour * 60 + minute;
    FirstIsBehind(after);
    WaitForWeekDay(first, weekDay);
    WeekDayOfDate(YearOf(day), MonthOf(day), DateOf(day));
    DayRoundTrip(day);
    WeeklyMatches(cron, weekDay, hour, minute, YearOf(day), MonthOf(day), DateOf(day));
  }

  lemma WaitForWeekDay(first: int, weekDay: int)
    requires 0 <= weekDay <= 6
    ensures WeekDay(first + (weekDay - WeekDay(first)) % 7) == weekDay
  {
  }

  ghost predicate Found(cron: Expression, after: int) {
    exists t :: FirstCandidate(after) <= t < FirstCandidate(after) + MAX_ITERATIONS && Matches(cron, t)
  }

  predicate EveryWeekDay(cron: Expression) {
    forall w :: 0 <= w <= 6 ==> WeekDayListed(cron, w)
  }

  /** The expression lists a date that every year has. */
  predicate ListsCommonDate(cron: Expression) {
    exists month, date :: 1 <= month <= 12 && 1 <= date <= DaysInMonth(month, false)
                          && month in cron.month && date in cron.dayOfMonth
  }

  lemma ClockOf(day: int, hour: int, minute: int)
    requires 0 <= hour <= 23 && 0 <= minute <= 59
    ensures var t := day * 1440 + hour * 60 + minute;
            t % 60 == minute && t / 60 % 24 == hour && t / 1440 == day
  {
    var t := day * 1440 + hour * 60 + minute;
    assert t / 60 == day * 24 + hour;
  }

  ghost function Member(s: set<int>): (v: int)
    requires exists v :: v in s
    ensures v in s
  {
    var v :| v in s; v
  }

  /** Every occurrence of a listed date matches at a listed time of day. */
  lemma OccurrenceMatches(cron: Expression, year: int, month: int, date: int, hour: int, minute: int)
    requires EveryWeekDay(cron) && minute in cron.minute && hour in cron.hour
    requires 0 <= hour <= 23 && 0 <= minute <= 59
    requires 1 <= month <= 12 && 1 <= date <= DaysInMonth(month, Leap(year))
    requires month in cron.month && date in cron.dayOfMonth
    ensures Matches(cron, DayOf(year, month, date) * 1440 + hour * 60 + minute)
  {
    var day := DayOf(year, month, date);
    DateRoundTrip(year, month, date);
    ClockOf(day, hour, minute);
    assert WeekDayListed(cron, WeekDay(day));
  }

  /** A listed date of every year is found within the 366 days. */
  lemma CommonDateIsFound(cron: Expression, after: int, month: int, date: int)
    requires ClockFieldsUsable(cron) && EveryWeekDay(cron)
    requires 1 <= month <= 12 && 1 <= date <= DaysInMonth(month, false)
    requires month in cron.month && date in cron.dayOfMonth
    ensures Found(cron, after)
  {
    var minute, hour := Member(cron.minute), Member(cron.hour);
    var start := FirstCandidate(after);
    var year := YearOf(start / 1440);
    LeapShift(month);
    OccurrenceMatches(cron, year, month, date, hour, minute);
    OccurrenceMatches(cron, year + 1, month, date, hour, minute);
    DateRecurs(year, month, date);
    YearLength(year);
    var first, second := DayOf(year, month, date), DayOf(year + 1, month, date);
    OneIsInWindow(start, first, second, DayFromYear(year), DayFromYear(year + 1), hour * 60 + minute);
  }

  /** Of two occurrences at most 366 days apart, the earlier in the year of the
      start and the later in the next, one falls into the 366 days from the start. */
  lemma OneIsInWindow(start: int, first: int, second: int, thisYear: int, nextYear: int, clock: int)
    requires 0 <= clock < 1440 && first < second <= first + 366
    requires thisYear <= start / 1440 < nextYear <= thisYear + 366 && first < nextYear <= second
    ensures start <= first * 1440 + clock < start + MAX_ITERATIONS
         || start <= second * 1440 + clock < start + MAX_ITERATIONS
  {
  }

  /** With every week day admitted, the search succeeds from every moment if and
      only if some listed date exists in a common year. A schedule for the 29th of
      February alone has moments from which it finds nothing. */
  lemma NeverNullIffCommonDate(cron: Expression)
    requires ClockFieldsUsable(cron) && EveryWeekDay(cron)
    ensures (forall after :: Found(cron, after)) <==> ListsCommonDate(cron)
  {
    if ListsCommonDate(cron) {
      var month, date :| 1 <= month <= 12 && 1 <= date <= DaysInMonth(month, false)
                         && month in cron.month && date in cron.dayOfMonth;
      forall after ensures Found(cron, after) {
        CommonDateIsFound(cron, after, month, date);
      }
    } else {
      var newYear2021 := DayFromYear(2021);
      var after := (newYear2021 * 1440 - 1) * 60000;
      assert FirstCandidate(after) == newYear2021 * 1440;
      forall t | newYear2021 * 1440 <= t < newYear2021 * 1440 + MAX_ITERATIONS ensures !Matches(cron, t) {
        var day := t / 1440;
        YearLength(2021);
        YearLength(2022);
        YearIsUnique(day, if day < DayFromYear(2022) then 2021 else 2022);
        assert !Leap(YearOf(day));
      }
      assert !Found(cron, after);
    }
  }
}
