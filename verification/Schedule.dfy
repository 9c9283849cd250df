/** Wall-clock slots: how long a class loop sleeps until its next run. Instants are microseconds, UTC. */
module Schedule {
  import opened Basics

  const SECOND := 1_000_000
  const MINUTE := 60 * SECOND
  const DAY := 1440 * MINUTE

  datatype Skip = InvalidInterval | InvalidOffset | InvalidSecond

  datatype ScheduleConfig = ScheduleConfig(interval: int, offset: int, second: int) {
    function SkipReason(): (reason: Option<Skip>) {
      if interval <= 0 then Some(InvalidInterval)
      else if offset < 0 || offset >= interval then Some(InvalidOffset)
      else if second < 0 || second > 59 then Some(InvalidSecond)
      else None
    }

    predicate Valid() {
      SkipReason().None?
    }

    function Period(): int {
      interval * MINUTE
    }

    /** Where in its interval the slot lies. */
    function Phase(): int {
      offset * MINUTE + second * SECOND
    }
  }

  function Midnight(now: int): int {
    now - now % DAY
  }

  /** The delay, in microseconds, until the next slot; intervals are anchored at the day's midnight. */
  function UntilNextRun(s: ScheduleConfig, now: int): (delay: Result<int, Skip>)
    ensures delay.Err? <==> !s.Valid()
  {
    if s.SkipReason().Some? then Err(s.SkipReason().value)
    else
      var dayStart := Midnight(now);
      var elapsed := (now - dayStart) / MINUTE;
      var base := elapsed - elapsed % s.interval;
      var target := dayStart + (base + s.offset) * MINUTE + s.second * SECOND;
      var next := if target <= now then target + s.interval * MINUTE else target;
      Ok(if next > now then next - now else 0)
  }

  /** When a loop that looks at the clock at `now` wakes, if its sleep is exact. */
  function NextRun(s: ScheduleConfig, now: int): int
    requires s.Valid()
  {
    now + UntilNextRun(s, now).value
  }

  ghost predicate Multiple(x: int, p: int) {
    exists k :: x == k * p
  }

  lemma MultipleOf(k: int, p: int)
    ensures Multiple(k * p, p)
  {}

  lemma SumOfMultiples(x: int, y: int, p: int)
    requires Multiple(x, p) && Multiple(y, p)
    ensures Multiple(x + y, p) && Multiple(x - y, p) && Multiple(-x, p)
  {
    var j, k :| x == j * p && y == k * p;
    assert x + y == (j + k) * p && x - y == (j - k) * p && -x == (-j) * p;
  }

  lemma MultiplesAreApart(k: int, p: int)
    requires p > 0
    ensures k * p >= p || k * p <= -p || k == 0
  {
    if k >= 1 {
      assert (k - 1) * p >= 0;
    } else if k <= -1 {
      assert (-k - 1) * p >= 0;
    }
  }

  /** No multiple but zero lies strictly within a period of zero. */
  lemma SmallMultiple(x: int, p: int)
    requires Multiple(x, p) && -p < x < p
    ensures x == 0
  {
    var k :| x == k * p;
    MultiplesAreApart(k, p);
  }

  lemma PeriodIsPositive(s: ScheduleConfig)
    requires s.Valid()
    ensures 0 <= s.Phase() < s.Period()
  {}

  lemma IntervalsInMinutes(elapsed: nat, interval: nat)
    requires interval > 0
    ensures var base := elapsed - elapsed % interval;
            0 <= base <= elapsed < base + interval && Multiple(base * MINUTE, interval * MINUTE)
  {
    var k := elapsed / interval;
    assert elapsed - elapsed % interval == k * interval;
    assert (k * interval) * MINUTE == k * (interval * MINUTE);
  }

  /** The minute arithmetic finds the last multiple of the period since midnight. */
  lemma BaseOfDay(s: ScheduleConfig, now: int) returns (base: int)
    requires s.Valid()
    ensures Multiple(base, s.Period()) && 0 <= base <= now - Midnight(now) < base + s.Period()
    ensures var target := Midnight(now) + base + s.Phase();
            NextRun(s, now) == if target <= now then target + s.Period() else target
  {
    var elapsed := (now - Midnight(now)) / MINUTE;
    var whole := elapsed - elapsed % s.interval;
    IntervalsInMinutes(elapsed, s.interval);
    base := whole * MINUTE;
    NextRunFrom(s, now, whole);
  }

  lemma NextRunFrom(s: ScheduleConfig, now: int, whole: int)
    requires s.Valid()
    requires var elapsed := (now - Midnight(now)) / MINUTE;
             whole == elapsed - elapsed % s.interval && elapsed < whole + s.interval
    ensures var target := Midnight(now) + whole * MINUTE + s.Phase();
            NextRun(s, now) == if target <= now then target + s.Period() else target
  {}

  /** The instants a loop that sees this day's clock may wake at. */
  ghost predicate SlotOf(s: ScheduleConfig, day: int, t: int) {
    Multiple(t - day - s.Phase(), s.Period())
  }

  /** For every valid schedule and instant: the sleep is positive, at most one interval long, and ends at
      the least slot of the day's progression strictly after now. */
  lemma NextRunIsLeastSlot(s: ScheduleConfig, now: int)
    requires s.Valid()
    ensures now < NextRun(s, now) <= now + s.Period()
    ensures SlotOf(s, Midnight(now), NextRun(s, now))
    ensures forall t | t > now && SlotOf(s, Midnight(now), t) :: t >= NextRun(s, now)
  {
    var base := BaseOfDay(s, now);
    var next, day := NextRun(s, now), Midnight(now);
    PeriodIsPositive(s);
    MultipleOf(1, s.Period());
    SumOfMultiples(base, s.Period(), s.Period());
    assert next - day - s.Phase() == base || next - day - s.Phase() == base + s.Period();
    forall t | t > now && SlotOf(s, day, t) ensures t >= next {
      SumOfMultiples(t - day - s.Phase(), next - day - s.Phase(), s.Period());
      assert (t - day - s.Phase()) - (next - day - s.Phase()) == t - next;
      if t < next {
        SmallMultiple(t - next, s.Period());
      }
    }
  }

  ghost predicate Divides(a: int, b: int) {
    Multiple(b, a)
  }

  lemma MinutesOrMicroseconds(a: int, b: int)
    ensures Multiple(b, a) <==> Multiple(b * MINUTE, a * MINUTE)
  {
    if Multiple(b, a) {
      var k :| b == k * a;
      assert b * MINUTE == k * (a * MINUTE);
    }
    if Multiple(b * MINUTE, a * MINUTE) {
      var k :| b * MINUTE == k * (a * MINUTE);
      assert b * MINUTE == (k * a) * MINUTE;
      assert b == k * a;
    }
  }

  lemma MidnightIsMultiple(now: int)
    ensures Multiple(Midnight(now), DAY) && Midnight(now) <= now < Midnight(now) + DAY
  {
    assert Midnight(now) == (now / DAY) * DAY;
  }

  lemma MultiplesCompose(x: int, p: int, q: int)
    requires Multiple(x, p) && Multiple(p, q)
    ensures Multiple(x, q)
  {
    var j, k :| x == j * p && p == k * q;
    assert x == (j * k) * q;
  }

  /** The slots are the same on all days exactly when the interval divides the day. */
  lemma SlotsAreGlobalIffDividing(s: ScheduleConfig)
    requires s.Valid()
    ensures Divides(s.interval, 1440) <==> forall now :: SlotOf(s, 0, NextRun(s, now))
  {
    MinutesOrMicroseconds(s.interval, 1440);
    if Divides(s.interval, 1440) {
      forall now ensures SlotOf(s, 0, NextRun(s, now)) {
        NextRunIsLeastSlot(s, now);
        MidnightIsMultiple(now);
        MultiplesCompose(Midnight(now), DAY, s.Period());
        SumOfMultiples(NextRun(s, now) - Midnight(now) - s.Phase(), Midnight(now), s.Period());
      }
    }
    if forall now :: SlotOf(s, 0, NextRun(s, now)) {
      NextRunIsLeastSlot(s, DAY);
      assert SlotOf(s, 0, NextRun(s, DAY));
      SumOfMultiples(NextRun(s, DAY) - s.Phase(), NextRun(s, DAY) - DAY - s.Phase(), s.Period());
    }
  }

  /** When the interval divides the day, the next run is the least slot after now, across midnights. */
  lemma NextRunIsLeastGlobalSlot(s: ScheduleConfig, now: int, t: int)
    requires s.Valid() && Divides(s.interval, 1440) && t > now && SlotOf(s, 0, t)
    ensures SlotOf(s, 0, NextRun(s, now)) && now < NextRun(s, now) <= t
  {
    SlotsAreGlobalIffDividing(s);
    assert SlotOf(s, 0, NextRun(s, now));
    NextRunIsLeastSlot(s, now);
    MinutesOrMicroseconds(s.interval, 1440);
    MidnightIsMultiple(now);
    MultiplesCompose(Midnight(now), DAY, s.Period());
    SumOfMultiples(t - s.Phase(), Midnight(now), s.Period());
    assert SlotOf(s, Midnight(now), t);
  }

  // ---- Spacing of exact wake-ups --------------------------------------------------------------

  /** A loop whose sleeps are exact and whose runs take no time keeps its interval, wherever it starts. */
  ghost predicate EvenlySpaced(s: ScheduleConfig)
    requires s.Valid()
  {
    forall now :: NextRun(s, NextRun(s, now)) == NextRun(s, now) + s.Period()
  }

  /** Wake-ups that start in a slot of their own day keep the interval. */
  lemma SlotAdvancesByPeriod(s: ScheduleConfig, t: int)
    requires s.Valid() && SlotOf(s, Midnight(t), t)
    ensures NextRun(s, t) == t + s.Period()
  {
    NextRunIsLeastSlot(s, t);
    PeriodIsPositive(s);
    var next, day := NextRun(s, t), Midnight(t);
    SumOfMultiples(next - day - s.Phase(), t - day - s.Phase(), s.Period());
    MultipleOf(1, s.Period());
    SumOfMultiples(next - t, s.Period(), s.Period());
    assert (next - day - s.Phase()) - (t - day - s.Phase()) == next - t;
    SmallMultiple(next - t - s.Period(), s.Period());
  }

  lemma DividingIsEven(s: ScheduleConfig, now: int)
    requires s.Valid() && Divides(s.interval, 1440)
    ensures NextRun(s, NextRun(s, now)) == NextRun(s, now) + s.Period()
  {
    SlotsAreGlobalIffDividing(s);
    var t := NextRun(s, now);
    assert SlotOf(s, 0, t);
    MinutesOrMicroseconds(s.interval, 1440);
    MidnightIsMultiple(t);
    MultiplesCompose(Midnight(t), DAY, s.Period());
    SumOfMultiples(t - s.Phase(), Midnight(t), s.Period());
    SlotAdvancesByPeriod(s, t);
  }

  lemma MidnightOf(t: int, day: int)
    requires Multiple(day, DAY) && day <= t < day + DAY
    ensures Midnight(t) == day
  {
    MidnightIsMultiple(t);
    SumOfMultiples(Midnight(t), day, DAY);
    SmallMultiple(Midnight(t) - day, DAY);
  }

  lemma WholeDaysAreEven(s: ScheduleConfig, now: int)
    requires s.Valid() && Divides(1440, s.interval) && s.offset < 1440
    ensures NextRun(s, NextRun(s, now)) == NextRun(s, now) + s.Period()
  {
    MinutesOrMicroseconds(1440, s.interval);
    PeriodIsPositive(s);
    var base := BaseOfDay(s, now);
    MidnightIsMultiple(now);
    var k :| s.Period() == k * DAY;
    assert s.Period() >= DAY;
    SmallMultiple(base, s.Period());
    var t := NextRun(s, now);
    var day := t - s.Phase();
    SumOfMultiples(Midnight(now), s.Period(), DAY);
    MidnightOf(t, day);
    MultipleOf(0, s.Period());
    SlotAdvancesByPeriod(s, t);
  }

  /** Across the midnight at instant zero the interval is kept only by intervals that divide the day,
      or by whole days whose slot lies in the first of them. */
  lemma EvenAcrossMidnight(s: ScheduleConfig)
    requires s.Valid() && NextRun(s, NextRun(s, -1)) == NextRun(s, -1) + s.Period()
    ensures Divides(s.interval, 1440) || (Divides(1440, s.interval) && s.offset < 1440)
  {
    var t, day := NextRun(s, -1), Midnight(NextRun(s, -1));
    assert Midnight(-1) == -DAY;
    NextRunIsLeastSlot(s, -1);
    NextRunIsLeastSlot(s, t);
    MidnightIsMultiple(t);
    PeriodIsPositive(s);
    MultipleOf(1, s.Period());
    SumOfMultiples(t + s.Period() - day - s.Phase(), s.Period(), s.Period());
    SumOfMultiples(t + DAY - s.Phase(), t - day - s.Phase(), s.Period());
    assert (t + DAY - s.Phase()) - (t - day - s.Phase()) == day + DAY;
    if s.interval <= 1440 {
      MinutesOrMicroseconds(s.interval, 1440);
      assert 0 <= t < DAY;
      MultipleOf(0, DAY);
      MidnightOf(t, 0);
    } else {
      LongIntervals(s, t, day);
    }
  }

  lemma LongIntervals(s: ScheduleConfig, t: int, day: int)
    requires s.Valid() && s.interval > 1440 && t == NextRun(s, -1) && day == Midnight(t)
    requires NextRun(s, t) == t + s.Period()
    ensures Divides(1440, s.interval) && s.offset < 1440
  {
    LongIntervalsStartAtMidnight(s, -1);
    LongIntervalsStartAtMidnight(s, t);
    assert Midnight(-1) == -DAY;
    MidnightIsMultiple(t);
    MinutesOrMicroseconds(1440, s.interval);
    MultipleOf(1, DAY);
    SumOfMultiples(day, DAY, DAY);
  }

  /** An interval longer than a day has one slot of each day's progression in view. */
  lemma LongIntervalsStartAtMidnight(s: ScheduleConfig, now: int)
    requires s.Valid() && s.interval > 1440
    ensures var target := Midnight(now) + s.Phase();
            NextRun(s, now) == if target <= now then target + s.Period() else target
  {
    var base := BaseOfDay(s, now);
    MidnightIsMultiple(now);
    SmallMultiple(base, s.Period());
  }

  /** Exact wake-ups are one interval apart, from wherever they start, exactly when the interval divides
      the day, or is whole days with a slot in the first of them. */
  lemma EvenlySpacedExactly(s: ScheduleConfig)
    requires s.Valid()
    ensures EvenlySpaced(s) <==> Divides(s.interval, 1440) || (Divides(1440, s.interval) && s.offset < 1440)
  {
    if EvenlySpaced(s) {
      EvenAcrossMidnight(s);
    }
    if Divides(s.interval, 1440) || (Divides(1440, s.interval) && s.offset < 1440) {
      forall now ensures NextRun(s, NextRun(s, now)) == NextRun(s, now) + s.Period() {
        if Divides(s.interval, 1440) {
          DividingIsEven(s, now);
        } else {
          WholeDaysAreEven(s, now);
        }
      }
    }
  }

  /** An interval of seven minutes does not survive midnight. */
  lemma SevenMinutesAreUneven()
    ensures var s := ScheduleConfig(7, 0, 0); NextRun(s, NextRun(s, -1)) != NextRun(s, -1) + s.Period()
  {
    var s := ScheduleConfig(7, 0, 0);
    assert Midnight(-1) == -DAY;
    assert NextRun(s, -1) == 2 * MINUTE;
    assert Midnight(2 * MINUTE) == 0;
    assert NextRun(s, 2 * MINUTE) == 7 * MINUTE;
  }

  // ---- Loops whose runs take time -------------------------------------------------------------

  /** The interval suits the day: wake-ups keep it from every start. */
  ghost predicate SuitsDay(s: ScheduleConfig) {
    Divides(s.interval, 1440) || (Divides(1440, s.interval) && s.offset < 1440)
  }

  /** An instant that is a slot of its own day. */
  ghost predicate OwnSlot(s: ScheduleConfig, t: int) {
    SlotOf(s, Midnight(t), t)
  }

  /** A run ends in time for the next slot: before it, and for intervals of whole days on its own day. */
  ghost predicate InTime(s: ScheduleConfig, slot: int, finished: int) {
    slot <= finished < slot + s.Period() && (Divides(s.interval, 1440) || Midnight(finished) == Midnight(slot))
  }

  lemma OwnSlotsAreGlobal(s: ScheduleConfig, t: int)
    requires s.Valid() && Divides(s.interval, 1440)
    ensures OwnSlot(s, t) <==> SlotOf(s, 0, t)
  {
    MinutesOrMicroseconds(s.interval, 1440);
    MidnightIsMultiple(t);
    MultiplesCompose(Midnight(t), DAY, s.Period());
    if OwnSlot(s, t) {
      SumOfMultiples(t - Midnight(t) - s.Phase(), Midnight(t), s.Period());
    }
    if SlotOf(s, 0, t) {
      SumOfMultiples(t - s.Phase(), Midnight(t), s.Period());
    }
  }

  lemma WholeDays(s: ScheduleConfig) returns (k: int)
    requires s.Valid() && Divides(1440, s.interval) && s.offset < 1440
    ensures s.Period() == k * DAY && k >= 1 && s.Period() >= DAY && s.Phase() < DAY
  {
    MinutesOrMicroseconds(1440, s.interval);
    PeriodIsPositive(s);
    k :| s.Period() == k * DAY;
  }

  lemma WholeDaySlot(s: ScheduleConfig, t: int)
    requires s.Valid() && Divides(1440, s.interval) && s.offset < 1440
    ensures OwnSlot(s, t) <==> t == Midnight(t) + s.Phase()
  {
    var k := WholeDays(s);
    MidnightIsMultiple(t);
    PeriodIsPositive(s);
    if OwnSlot(s, t) {
      SmallMultiple(t - Midnight(t) - s.Phase(), s.Period());
    }
    MultipleOf(0, s.Period());
  }

  lemma DividingLoopKeepsInterval(s: ScheduleConfig, slot: int, finished: int)
    requires s.Valid() && Divides(s.interval, 1440) && OwnSlot(s, slot) && slot <= finished < slot + s.Period()
    ensures NextRun(s, finished) == slot + s.Period()
  {
    OwnSlotsAreGlobal(s, slot);
    MultipleOf(1, s.Period());
    SumOfMultiples(slot - s.Phase(), s.Period(), s.Period());
    assert SlotOf(s, 0, slot + s.Period());
    NextRunIsLeastGlobalSlot(s, finished, slot + s.Period());
    var next := NextRun(s, finished);
    SumOfMultiples(next - s.Phase(), slot - s.Phase(), s.Period());
    SumOfMultiples(next - slot, s.Period(), s.Period());
    SmallMultiple(next - slot - s.Period(), s.Period());
  }

  lemma WholeDayLoopKeepsInterval(s: ScheduleConfig, slot: int, finished: int)
    requires s.Valid() && Divides(1440, s.interval) && s.offset < 1440
    requires OwnSlot(s, slot) && slot <= finished && Midnight(finished) == Midnight(slot)
    ensures NextRun(s, finished) == slot + s.Period()
  {
    var k := WholeDays(s);
    WholeDaySlot(s, slot);
    MidnightIsMultiple(finished);
    var base := BaseOfDay(s, finished);
    SmallMultiple(base, s.Period());
  }

  lemma NextSlotIsOwn(s: ScheduleConfig, slot: int)
    requires s.Valid() && SuitsDay(s) && OwnSlot(s, slot)
    ensures OwnSlot(s, slot + s.Period())
  {
    if Divides(s.interval, 1440) {
      OwnSlotsAreGlobal(s, slot);
      OwnSlotsAreGlobal(s, slot + s.Period());
      MultipleOf(1, s.Period());
      SumOfMultiples(slot - s.Phase(), s.Period(), s.Period());
    } else {
      var k := WholeDays(s);
      WholeDaySlot(s, slot);
      MidnightIsMultiple(slot);
      MultipleOf(k, DAY);
      SumOfMultiples(Midnight(slot), s.Period(), DAY);
      MidnightOf(slot + s.Period(), Midnight(slot) + s.Period());
      WholeDaySlot(s, slot + s.Period());
    }
  }

  /** A run that ends in time misses no slot: the loop's next run is the slot one interval on. */
  lemma LoopKeepsInterval(s: ScheduleConfig, slot: int, finished: int)
    requires s.Valid() && SuitsDay(s) && OwnSlot(s, slot) && InTime(s, slot, finished)
    ensures NextRun(s, finished) == slot + s.Period() && OwnSlot(s, slot + s.Period())
  {
    if Divides(s.interval, 1440) {
      DividingLoopKeepsInterval(s, slot, finished);
    } else {
      WholeDayLoopKeepsInterval(s, slot, finished);
    }
    NextSlotIsOwn(s, slot);
  }

  /** From wherever a loop starts, its first run is a slot of its own day. */
  lemma FirstRunIsOwnSlot(s: ScheduleConfig, now: int)
    requires s.Valid() && SuitsDay(s)
    ensures OwnSlot(s, NextRun(s, now))
  {
    if Divides(s.interval, 1440) {
      SlotsAreGlobalIffDividing(s);
      assert SlotOf(s, 0, NextRun(s, now));
      OwnSlotsAreGlobal(s, NextRun(s, now));
    } else {
      var k := WholeDays(s);
      var base := BaseOfDay(s, now);
      MidnightIsMultiple(now);
      SmallMultiple(base, s.Period());
      PeriodIsPositive(s);
      MultipleOf(k, DAY);
      SumOfMultiples(Midnight(now), s.Period(), DAY);
      MidnightOf(NextRun(s, now), NextRun(s, now) - s.Phase());
      WholeDaySlot(s, NextRun(s, now));
    }
  }

  // ---- Schedules in their own terms ------------------------------------------------------------------

  /** A schedule is refused exactly for an interval below a minute, an offset outside it, or no second of a minute. */
  lemma RefusedExactly(s: ScheduleConfig, now: int)
    ensures UntilNextRun(s, now).Err? <==>
            s.interval <= 0 || s.offset < 0 || s.offset >= s.interval || s.second < 0 || s.second >= 60
    ensures UntilNextRun(s, now).Err? ==>
              match UntilNextRun(s, now).error
              case InvalidInterval => s.interval <= 0
              case InvalidOffset => s.offset < 0 || s.offset >= s.interval
              case InvalidSecond => s.second < 0 || s.second >= 60
  {}

  /** Every run falls on the schedule's second of a minute. */
  lemma RunsOnItsSecond(s: ScheduleConfig, now: int)
    requires s.Valid()
    ensures NextRun(s, now) % 60_000_000 == s.second * 1_000_000
  {
    var base := BaseOfDay(s, now);
    MidnightIsMultiple(now);
    MultipleOf(1440, MINUTE);
    MultiplesCompose(Midnight(now), DAY, MINUTE);
    MultipleOf(s.interval, MINUTE);
    MultiplesCompose(base, s.Period(), MINUTE);
    SumOfMultiples(Midnight(now), base, MINUTE);
    MultipleOf(s.offset, MINUTE);
    SumOfMultiples(Midnight(now) + base, s.offset * MINUTE, MINUTE);
    SumOfMultiples(Midnight(now) + base + s.offset * MINUTE, s.Period(), MINUTE);
    RestOfMinutes(NextRun(s, now) - s.second * SECOND, s.second * SECOND);
  }

  lemma RestOfMinutes(minutes: int, rest: int)
    requires Multiple(minutes, MINUTE) && 0 <= rest < MINUTE
    ensures (minutes + rest) % MINUTE == rest
  {
    var k :| minutes == k * MINUTE;
  }

  lemma InMinutes(n: int, interval: int, offset: int)
    ensures n * (interval * MINUTE) + offset * MINUTE == (n * interval + offset) * MINUTE
  {
    assert n * (interval * MINUTE) == (n * interval) * MINUTE;
  }

  /** A run of an interval that divides the day falls on a minute of the day that is the offset and whole intervals. */
  lemma RunsOnItsOffset(s: ScheduleConfig, now: int) returns (n: int)
    requires s.Valid() && Divides(s.interval, 1440)
    ensures NextRun(s, now) == (n * s.interval + s.offset) * 60_000_000 + s.second * 1_000_000
  {
    SlotsAreGlobalIffDividing(s);
    assert SlotOf(s, 0, NextRun(s, now));
    n :| NextRun(s, now) - 0 - s.Phase() == n * s.Period();
    InMinutes(n, s.interval, s.offset);
  }
}
