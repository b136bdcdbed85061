/**
  The effective hours of a date and the arithmetic of business time: whether an instant is
  open, when the next opening is, and when a response measured in open seconds falls due.
*/
module BusinessTime {
  import opened Basics
  import opened OpenTime
  import opened Schedule

  // --- The effective day ------------------------------------------------------------------

  function AppliesOn(day: int): Override -> bool { (o: Override) => o.startsOn <= day <= o.endsOn }

  function OnWeekday(w: int): Interval -> bool { (i: Interval) => i.weekday == w }

  function OfKind(k: IntervalType): Interval -> bool { (i: Interval) => i.kind == k }

  function Openings(candidates: seq<Interval>): seq<Interval> { Filter(candidates, OfKind(Open)) }

  function Breaks(candidates: seq<Interval>): seq<Interval> { Filter(candidates, OfKind(Break)) }

  function Weekly(s: BusinessSchedule, w: int): seq<Interval> { Filter(s.intervals, OnWeekday(w)) }

  /** The opening hours of a date: an override that applies replaces the weekly hours. */
  function EffectiveDay(s: BusinessSchedule, day: int): (r: Result<seq<Span>, ScheduleError>)
    ensures r.Ok? ==> WellFormedSpans(r.value) && Disjoint(r.value)
  {
    var matches := Filter(s.overrides, AppliesOn(day));
    if |matches| > 1 then Err(InvalidSchedule)
    else if |matches| == 1 && matches[0].closed then Ok([])
    else
      var candidates := if |matches| == 1 then matches[0].intervals else Weekly(s, Weekday(day));
      SubtractMeaning(Openings(candidates), Breaks(candidates));
      Subtract(Openings(candidates), Breaks(candidates))
  }

  method ComputeEffectiveDay(s: BusinessSchedule, day: int) returns (r: Result<seq<Span>, ScheduleError>)
    ensures r == EffectiveDay(s, day)
  {
    var matches := Filter(s.overrides, AppliesOn(day));
    if |matches| > 1 {
      return Err(InvalidSchedule);
    }
    var candidates;
    if |matches| == 1 {
      if matches[0].closed {
        return Ok([]);
      }
      candidates := matches[0].intervals;
    } else {
      candidates := Weekly(s, Weekday(day));
    }
    r := SubtractBreaks(Openings(candidates), Breaks(candidates));
  }

  /** What the constructor of a schedule checks for one weekday. */
  ghost predicate WeekdayAccepted(s: BusinessSchedule, w: int) {
    var openings := SortBy<Interval>(Openings(Weekly(s, w)), StartKey());
    && (forall i :: 0 <= i < |openings| - 1 ==> openings[i].end <= openings[i + 1].start)
    && (forall b :: b in Breaks(Weekly(s, w)) ==>
          exists o :: o in openings && o.start <= b.start && b.end <= o.end)
  }

  /** A schedule that its constructor lets through. */
  ghost predicate Accepted(s: BusinessSchedule) {
    forall w :: 0 <= w <= 6 ==> WeekdayAccepted(s, w)
  }

  function AsSpans(s: seq<Interval>): (r: seq<Span>)
    ensures |r| == |s|
  {
    seq(|s|, i requires 0 <= i < |s| => Span(s[i].start, s[i].end))
  }

  lemma LayersAsDepth(s: seq<Interval>, t: int)
    ensures Layers(s, t) == Depth(AsSpans(s), t)
  {
    if s != [] {
      LayersAsDepth(s[..|s| - 1], t);
      assert AsSpans(s)[..|s| - 1] == AsSpans(s[..|s| - 1]);
    }
  }

  /** An accepted schedule has effective hours on every date that no override touches. */
  lemma AcceptedNeverFails(s: BusinessSchedule, day: int)
    requires Accepted(s) && Filter(s.overrides, AppliesOn(day)) == []
    ensures EffectiveDay(s, day).Ok?
  {
    var w := Weekday(day);
    assert WeekdayAccepted(s, w);
    var openings := Openings(Weekly(s, w));
    var spans := AsSpans(SortBy(openings, StartKey()));
    NoOverlapIsDisjoint(spans);
    forall t ensures Layers(openings, t) <= 1 {
      LayersSort(openings, t);
      LayersAsDepth(SortBy(openings, StartKey()), t);
      DisjointDepth(spans, t);
    }
    SubtractMeaning(openings, Breaks(Weekly(s, w)));
  }

  /** A date has no effective hours exactly when overrides collide or its openings do. */
  lemma EffectiveDayFails(s: BusinessSchedule, day: int)
    ensures EffectiveDay(s, day).Err? <==>
            var matches := Filter(s.overrides, AppliesOn(day));
            || |matches| > 1
            || (|matches| == 1 && !matches[0].closed &&
                DoubleBooked(Openings(matches[0].intervals), Breaks(matches[0].intervals)))
            || (matches == [] &&
                DoubleBooked(Openings(Weekly(s, Weekday(day))), Breaks(Weekly(s, Weekday(day)))))
  {
    var matches := Filter(s.overrides, AppliesOn(day));
    var candidates := if |matches| == 1 then matches[0].intervals else Weekly(s, Weekday(day));
    SubtractMeaning(Openings(candidates), Breaks(candidates));
  }

  // --- Open instants ----------------------------------------------------------------------

  function LocalDay(s: BusinessSchedule, t: int): int { (t + s.offset) / DAY }

  function TimeOfDay(s: BusinessSchedule, t: int): int { (t + s.offset) % DAY }

  function Instant(s: BusinessSchedule, day: int, time: int): int { day * DAY + time - s.offset }

  predicate InAny(spans: seq<Span>, time: int) {
    exists i :: 0 <= i < |spans| && InSpan(spans[i], time)
  }

  function IsOpen(s: BusinessSchedule, at: int): Result<bool, ScheduleError> {
    match EffectiveDay(s, LocalDay(s, at))
    case Ok(spans) => Ok(InAny(spans, TimeOfDay(s, at)))
    case Err(e) => Err(e)
  }

  ghost predicate Usable(s: BusinessSchedule, day: int) { EffectiveDay(s, day).Ok? }

  /** The open instants of a schedule, as a timeline. */
  ghost function Timeline(s: BusinessSchedule): int -> bool { t => IsOpen(s, t) == Ok(true) }

  /** The intervals that count on a date: those of its override, or the weekly ones. */
  function Hours(s: BusinessSchedule, day: int): seq<Interval> {
    var matches := Filter(s.overrides, AppliesOn(day));
    if |matches| == 1 then matches[0].intervals else Weekly(s, Weekday(day))
  }

  /** Day 4 is a Monday, and every seventh day after and before it. */
  predicate FallsOn(day: int, weekday: int) { (day - weekday) % 7 == 4 }

  /**
    The intervals in effect on a date: those of every override that applies, or, when none does, the
    weekly ones whose weekday the date falls on.
  */
  ghost predicate InEffect(s: BusinessSchedule, day: int, i: Interval) {
    || (exists o :: o in s.overrides && o.startsOn <= day <= o.endsOn && i in o.intervals)
    || ((forall o :: o in s.overrides ==> !(o.startsOn <= day <= o.endsOn))
        && i in s.intervals && FallsOn(day, i.weekday))
  }

  /** An override closes the date. */
  ghost predicate ClosedDate(s: BusinessSchedule, day: int) {
    exists o :: o in s.overrides && o.startsOn <= day <= o.endsOn && o.closed
  }

  lemma AppliesMeaning(s: BusinessSchedule, day: int)
    ensures forall o :: o in Filter(s.overrides, AppliesOn(day)) <==>
              o in s.overrides && o.startsOn <= day <= o.endsOn
  {
    forall o: Override ensures AppliesOn(day)(o) <==> o.startsOn <= day <= o.endsOn {}
  }

  lemma WeeklyMeaning(s: BusinessSchedule, day: int, i: Interval)
    ensures i in Weekly(s, Weekday(day)) <==> i in s.intervals && FallsOn(day, i.weekday)
  {
    Calendar(day, i.weekday);
    assert OnWeekday(Weekday(day))(i) <==> i.weekday == Weekday(day);
    hide Weekday;
  }

  lemma SoleOverride(s: BusinessSchedule, day: int, matches: seq<Override>, i: Interval)
    requires |matches| == 1
    requires forall o :: o in matches <==> o in s.overrides && o.startsOn <= day <= o.endsOn
    ensures i in matches[0].intervals <==> InEffect(s, day, i)
  {
    hide FallsOn;
    assert matches[0] in matches;
  }

  lemma NoOverride(s: BusinessSchedule, day: int, matches: seq<Override>, i: Interval)
    requires matches == []
    requires forall o :: o in matches <==> o in s.overrides && o.startsOn <= day <= o.endsOn
    ensures i in s.intervals && FallsOn(day, i.weekday) <==> InEffect(s, day, i)
  {
    hide FallsOn;
  }

  lemma HoursInEffect(s: BusinessSchedule, day: int, i: Interval)
    requires Usable(s, day)
    ensures i in Hours(s, day) <==> InEffect(s, day, i)
  {
    var matches := Filter(s.overrides, AppliesOn(day));
    ClosedIff(s, day);
    AppliesMeaning(s, day);
    WeeklyMeaning(s, day, i);
    hide EffectiveDay, Filter, Weekly, Weekday, InEffect, FallsOn, AppliesOn, Usable;
    if |matches| == 1 {
      SoleOverride(s, day, matches, i);
    } else {
      NoOverride(s, day, matches, i);
    }
  }

  lemma EffectMeaning(s: BusinessSchedule, day: int)
    requires Usable(s, day)
    ensures forall i :: i in Hours(s, day) <==> InEffect(s, day, i)
  {
    hide Hours, InEffect, Usable;
    forall i ensures i in Hours(s, day) <==> InEffect(s, day, i) {
      HoursInEffect(s, day, i);
    }
  }

  /**
    What the timeline is: an instant is open exactly when its date is usable, no override closes the
    date, and the local time lies in some opening and in no break in effect on the date.
  */
  lemma OpenMeaning(s: BusinessSchedule, t: int)
    ensures var day, time := LocalDay(s, t), TimeOfDay(s, t);
            Timeline(s)(t) <==>
            && Usable(s, day) && !ClosedDate(s, day)
            && (exists i :: InEffect(s, day, i) && i.kind == Open && Within(i, time))
            && (forall i :: InEffect(s, day, i) && i.kind == Break ==> !Within(i, time))
  {
    hide Subtract, InEffect, Hours, Filter, LocalDay, TimeOfDay;
    var day, time := LocalDay(s, t), TimeOfDay(s, t);
    var matches := Filter(s.overrides, AppliesOn(day));
    if Usable(s, day) {
      ClosedIff(s, day);
      if !(|matches| == 1 && matches[0].closed) {
        HoursSubtracted(s, day);
        HoursMeaning(Hours(s, day), time);
      }
      EffectMeaning(s, day);
    }
  }

  /** The stretch from `time` on lies in one opening in effect on the date and meets none of its breaks. */
  ghost predicate FitsHours(s: BusinessSchedule, day: int, time: int, length: int) {
    && Usable(s, day) && !ClosedDate(s, day)
    && (exists i :: InEffect(s, day, i) && i.kind == Open && i.start <= time && time + length <= i.end)
    && (forall i :: InEffect(s, day, i) && i.kind == Break ==> time + length <= i.start || i.end <= time)
  }

  /** A stretch lies in one span of the effective day exactly when it fits the hours of the date. */
  lemma FitsMeaning(s: BusinessSchedule, day: int, time: int, length: int)
    requires 0 < length
    ensures EffectiveDay(s, day).Ok? && Holds(EffectiveDay(s, day).value, time, time + length) <==>
            FitsHours(s, day, time, length)
  {
    hide Subtract, InEffect, Hours, Filter;
    var matches := Filter(s.overrides, AppliesOn(day));
    if Usable(s, day) {
      ClosedIff(s, day);
      if !(|matches| == 1 && matches[0].closed) {
        HoursSubtracted(s, day);
        HoursHold(Hours(s, day), time, time + length);
      }
      EffectMeaning(s, day);
    }
  }

  lemma HoursHold(hours: seq<Interval>, a: int, b: int)
    requires a < b && Subtract(Openings(hours), Breaks(hours)).Ok?
    ensures Holds(Subtract(Openings(hours), Breaks(hours)).value, a, b) <==>
            && (exists i :: i in hours && i.kind == Open && i.start <= a && b <= i.end)
            && (forall i :: i in hours && i.kind == Break ==> b <= i.start || i.end <= a)
  {
    SubtractHolds(Openings(hours), Breaks(hours), a, b);
    hide Subtract, Filter, Holds;
    forall i ensures i in Openings(hours) <==> i in hours && i.kind == Open {
      assert OfKind(Open)(i) <==> i.kind == Open;
    }
    forall i ensures i in Breaks(hours) <==> i in hours && i.kind == Break {
      assert OfKind(Break)(i) <==> i.kind == Break;
    }
  }

  lemma HoursSubtracted(s: BusinessSchedule, day: int)
    requires var matches := Filter(s.overrides, AppliesOn(day));
             |matches| <= 1 && !(|matches| == 1 && matches[0].closed)
    ensures EffectiveDay(s, day) == Subtract(Openings(Hours(s, day)), Breaks(Hours(s, day)))
  {
    hide Subtract, Filter;
  }

  lemma ClosedIff(s: BusinessSchedule, day: int)
    requires Usable(s, day)
    ensures var matches := Filter(s.overrides, AppliesOn(day));
            && |matches| <= 1
            && ((|matches| == 1 && matches[0].closed)
                <==> exists o :: o in s.overrides && o.startsOn <= day <= o.endsOn && o.closed)
  {
    var matches := Filter(s.overrides, AppliesOn(day));
    forall o | o in s.overrides && o.startsOn <= day <= o.endsOn && o.closed ensures |matches| == 1 && matches[0] == o {
      assert AppliesOn(day)(o) && o in matches;
    }
    if |matches| == 1 {
      assert matches[0] in matches && AppliesOn(day)(matches[0]);
    }
  }

  lemma HoursMeaning(hours: seq<Interval>, time: int)
    requires Subtract(Openings(hours), Breaks(hours)).Ok?
    ensures InAny(Subtract(Openings(hours), Breaks(hours)).value, time) <==>
            && (exists i :: i in hours && i.kind == Open && Within(i, time))
            && (forall i :: i in hours && i.kind == Break ==> !Within(i, time))
  {
    SubtractMeaning(Openings(hours), Breaks(hours));
    hide Subtract, Filter;
    OfKindWithin(hours, Open, time);
    OfKindWithin(hours, Break, time);
  }

  lemma OfKindWithin(hours: seq<Interval>, kind: IntervalType, time: int)
    ensures AnyWithin(Filter(hours, OfKind(kind)), time) <==>
            exists i :: i in hours && i.kind == kind && Within(i, time)
  {
    var chosen := Filter(hours, OfKind(kind));
    forall i | i in hours ensures i in chosen <==> i.kind == kind {
      assert OfKind(kind)(i) <==> i.kind == kind;
    }
    forall i | i in chosen ensures i in hours && i.kind == kind {
      assert OfKind(kind)(i);
    }
  }

  lemma InDay(s: BusinessSchedule, day: int, t: int)
    requires Instant(s, day, 0) <= t < Instant(s, day + 1, 0)
    ensures LocalDay(s, t) == day && TimeOfDay(s, t) == t - Instant(s, day, 0)
  {
  }

  lemma OfDay(s: BusinessSchedule, t: int)
    ensures Instant(s, LocalDay(s, t), 0) <= t < Instant(s, LocalDay(s, t) + 1, 0)
    ensures t == Instant(s, LocalDay(s, t), TimeOfDay(s, t)) && 0 <= TimeOfDay(s, t) < DAY
  {
  }

  lemma OpenInDay(s: BusinessSchedule, day: int, spans: seq<Span>, t: int)
    requires EffectiveDay(s, day) == Ok(spans)
    requires Instant(s, day, 0) <= t < Instant(s, day + 1, 0)
    ensures Timeline(s)(t) <==> InAny(spans, t - Instant(s, day, 0))
  {
    InDay(s, day, t);
  }

  /** Where scanning the spans of a day stands before span `i`: nothing earlier is still open. */
  function ScanFrom(s: BusinessSchedule, day: int, spans: seq<Span>, i: nat): int
    requires i <= |spans|
  {
    Instant(s, day, if i == 0 then 0 else spans[i - 1].end)
  }

  /** From the scan position on, a day is closed up to the next span and open throughout it. */
  lemma SpanAhead(s: BusinessSchedule, day: int, spans: seq<Span>, i: nat)
    requires EffectiveDay(s, day) == Ok(spans) && WellFormedSpans(spans) && Disjoint(spans) && i < |spans|
    ensures ScanFrom(s, day, spans, i) <= Instant(s, day, spans[i].start)
    ensures forall t :: ScanFrom(s, day, spans, i) <= t < Instant(s, day, spans[i].end) ==>
                          (Timeline(s)(t) <==> Instant(s, day, spans[i].start) <= t)
  {
    forall t | ScanFrom(s, day, spans, i) <= t < Instant(s, day, spans[i].end)
      ensures Timeline(s)(t) <==> Instant(s, day, spans[i].start) <= t
    {
      OpenInDay(s, day, spans, t);
      SpanMembership(spans, i, t - Instant(s, day, 0));
    }
  }

  lemma SpanMembership(spans: seq<Span>, i: nat, time: int)
    requires WellFormedSpans(spans) && Disjoint(spans) && i < |spans|
    requires time < spans[i].end && (i == 0 || spans[i - 1].end <= time)
    ensures InAny(spans, time) <==> spans[i].start <= time
  {
    if time < spans[i].start {
      forall j | 0 <= j < |spans| ensures !InSpan(spans[j], time) {
        if j < i - 1 {
          assert spans[j].end <= spans[i - 1].start;
        }
      }
    } else {
      assert InSpan(spans[i], time);
    }
  }

  /** After its last span a day stays closed. */
  lemma DayTail(s: BusinessSchedule, day: int, spans: seq<Span>)
    requires EffectiveDay(s, day) == Ok(spans) && WellFormedSpans(spans) && Disjoint(spans)
    ensures ClosedThroughout(Timeline(s), ScanFrom(s, day, spans, |spans|), Instant(s, day + 1, 0))
  {
    hide EffectiveDay, IsOpen, Timeline;
    forall t | ScanFrom(s, day, spans, |spans|) <= t < Instant(s, day + 1, 0) ensures !Timeline(s)(t) {
      assert |spans| > 0 ==> 0 <= spans[|spans| - 1].end;
      OpenInDay(s, day, spans, t);
      var time := t - Instant(s, day, 0);
      forall j | 0 <= j < |spans| ensures !InSpan(spans[j], time) {
        if j < |spans| - 1 {
          assert spans[j].end <= spans[|spans| - 1].start;
        }
      }
    }
  }

  // --- The next opening -------------------------------------------------------------------

  datatype NextOpening = NextOpening(openNow: bool, opening: Option<int>, searched: int)

  /** The search meets the unusable `day` before it meets any opening. */
  ghost predicate BlockedAt(s: BusinessSchedule, at: int, horizon: int, day: int) {
    && LocalDay(s, at) <= day <= LocalDay(s, at) + horizon
    && !Usable(s, day)
    && ClosedThroughout(Timeline(s), at, Instant(s, day, 0))
  }

  /**
    The search is exact. An opening it returns is the first open instant after `at`; when it
    returns none, every instant to the end of the last searched day is closed. It fails exactly on a
    bad horizon or when a date without effective hours comes before any opening.
  */
  method FindNextOpening(s: BusinessSchedule, at: int, horizon: int)
    returns (r: Result<NextOpening, ScheduleError>)
    ensures r.Ok? && r.value.openNow ==> Timeline(s)(at) && r.value == NextOpening(true, None, 0)
    ensures r.Ok? && !r.value.openNow && r.value.opening.Some? ==>
              var c := r.value.opening.value;
              at < c && Timeline(s)(c) && ClosedThroughout(Timeline(s), at, c) &&
              r.value.searched == LocalDay(s, c) - LocalDay(s, at) <= horizon
    ensures r.Ok? && !r.value.openNow && r.value.opening.None? ==>
              r.value.searched == horizon &&
              ClosedThroughout(Timeline(s), at, Instant(s, LocalDay(s, at) + horizon + 1, 0))
    ensures r.Err? <==> !(1 <= horizon <= 730) || exists day :: BlockedAt(s, at, horizon, day)
  {
    hide EffectiveDay, IsOpen, LocalDay, Timeline;
    if !(1 <= horizon <= 730) {
      return Err(InvalidRequest);
    }
    var first := LocalDay(s, at);
    OfDay(s, at);
    OpenStatus(s, at);
    var openNow := IsOpen(s, at);
    if openNow.Err? {
      assert BlockedAt(s, at, horizon, first);
      return Err(openNow.error);
    }
    if openNow.value {
      return Ok(NextOpening(true, None, 0));
    }
    var k := 0;
    while k <= horizon
      invariant 0 <= k <= horizon + 1
      invariant ClosedThroughout(Timeline(s), at, Instant(s, first + k, 0))
      invariant forall day :: first <= day < first + k ==> Usable(s, day)
    {
      var day := ComputeEffectiveDay(s, first + k);
      if day.Err? {
        assert BlockedAt(s, at, horizon, first + k);
        return Err(day.error);
      }
      var found := FirstOpeningOn(s, at, first + k, day.value, k == 0);
      if found.Some? {
        NotBlocked(s, at, horizon, found.value);
        return Ok(NextOpening(false, found, k));
      }
      k := k + 1;
    }
    return Ok(NextOpening(false, None, horizon));
  }

  lemma OpenStatus(s: BusinessSchedule, t: int)
    ensures IsOpen(s, t).Err? <==> !Usable(s, LocalDay(s, t))
    ensures IsOpen(s, t) == Ok(true) <==> Timeline(s)(t)
  {
  }

  lemma NotBlocked(s: BusinessSchedule, at: int, horizon: int, c: int)
    requires at <= c && Timeline(s)(c)
    requires forall day :: LocalDay(s, at) <= day <= LocalDay(s, c) ==> Usable(s, day)
    ensures !exists day :: BlockedAt(s, at, horizon, day)
  {
    OfDay(s, c);
  }

  /** The inner loop of the search: the first span of one day that begins after `at`. */
  method FirstOpeningOn(s: BusinessSchedule, at: int, day: int, spans: seq<Span>, today: bool)
    returns (r: Option<int>)
    requires EffectiveDay(s, day) == Ok(spans) && WellFormedSpans(spans) && Disjoint(spans)
    requires !Timeline(s)(at) && ClosedThroughout(Timeline(s), at, Instant(s, day, 0))
    requires if today then LocalDay(s, at) == day else at < Instant(s, day, 0)
    ensures r.Some? ==> at < r.value && LocalDay(s, r.value) == day && Timeline(s)(r.value) &&
                        ClosedThroughout(Timeline(s), at, r.value)
    ensures r.None? ==> ClosedThroughout(Timeline(s), at, Instant(s, day + 1, 0))
  {
    hide EffectiveDay, IsOpen, LocalDay, Timeline;
    OfDay(s, at);
    for i := 0 to |spans|
      invariant ClosedThroughout(Timeline(s), at, ScanFrom(s, day, spans, i))
    {
      var candidate := Instant(s, day, spans[i].start);
      SpanAhead(s, day, spans, i);
      if !(today && spans[i].start <= TimeOfDay(s, at)) && candidate > at {
        InDay(s, day, candidate);
        return Some(candidate);
      }
    }
    DayTail(s, day, spans);
    return None;
  }

  // --- Deadlines in business time ---------------------------------------------------------

  /** A deadline the search may report: it lies within the horizon and past no unusable date. */
  ghost predicate Reachable(s: BusinessSchedule, at: int, service: int, horizon: int, d: int) {
    && 0 < service
    && IsDeadline(Timeline(s), at, service, d)
    && LocalDay(s, d) <= LocalDay(s, at) + horizon
    && forall day :: LocalDay(s, at) <= day <= LocalDay(s, d) ==> Usable(s, day)
  }

  /** The search stops short at `day`, which is unusable or past the horizon. */
  ghost predicate GivesUpAt(s: BusinessSchedule, at: int, service: int, horizon: int, day: int) {
    && LocalDay(s, at) <= day <= LocalDay(s, at) + Max(0, horizon + 1)
    && OpenSeconds(Timeline(s), at, Instant(s, day, 0)) < service
    && (day == LocalDay(s, at) + Max(0, horizon + 1) || !Usable(s, day))
  }

  /**
    `business_due_at`: the least instant with exactly the service time of open seconds behind it,
    or a failure exactly when the horizon, cut at the first unusable date, holds fewer.
  */
  method BusinessDueAt(s: BusinessSchedule, at: int, service: int, horizon: int)
    returns (r: Result<int, ScheduleError>)
    ensures r.Ok? ==> Reachable(s, at, service, horizon, r.value)
    ensures r.Err? <==> service <= 0 || exists day :: GivesUpAt(s, at, service, horizon, day)
  {
    hide EffectiveDay, IsOpen, LocalDay, Timeline;
    if service <= 0 {
      return Err(InvalidRequest);
    }
    var first := LocalDay(s, at);
    OfDay(s, at);
    var cursor, remaining := at, service;
    var k := 0;
    while k <= horizon
      invariant 0 <= k <= Max(0, horizon + 1)
      invariant 0 < remaining
      invariant at <= cursor <= Max(at, Instant(s, first + k, 0))
      invariant remaining + OpenSeconds(Timeline(s), at, Max(at, Instant(s, first + k, 0))) == service
      invariant forall day :: first <= day < first + k ==> Usable(s, day)
    {
      var day := ComputeEffectiveDay(s, first + k);
      if day.Err? {
        assert GivesUpAt(s, at, service, horizon, first + k);
        return Err(day.error);
      }
      assert Usable(s, first + k);
      var due;
      due, cursor, remaining := ConsumeDay(s, at, service, first + k, day.value, cursor, remaining);
      if due.Some? {
        DeadlineNotMissed(s, at, service, horizon, due.value);
        return Ok(due.value);
      }
      k := k + 1;
    }
    assert GivesUpAt(s, at, service, horizon, first + k);
    return Err(InvalidSchedule);
  }

  /** The inner loop of the deadline search: spend the remaining time on the spans of one day. */
  method ConsumeDay(s: BusinessSchedule, at: int, service: int, day: int, spans: seq<Span>,
                    cursor: int, remaining: int)
    returns (due: Option<int>, cursor': int, remaining': int)
    requires EffectiveDay(s, day) == Ok(spans) && WellFormedSpans(spans) && Disjoint(spans)
    requires 0 < remaining && at <= cursor <= Max(at, Instant(s, day, 0))
    requires remaining + OpenSeconds(Timeline(s), at, Max(at, Instant(s, day, 0))) == service
    requires at < Instant(s, day + 1, 0)
    ensures due.Some? ==> IsDeadline(Timeline(s), at, service, due.value) && LocalDay(s, due.value) == day
    ensures due.None? ==> 0 < remaining' && at <= cursor' <= Instant(s, day + 1, 0)
    ensures due.None? ==>
              remaining' + OpenSeconds(Timeline(s), at, Instant(s, day + 1, 0)) == service
  {
    hide EffectiveDay, IsOpen, LocalDay, Timeline;
    cursor', remaining' := cursor, remaining;
    for i := 0 to |spans|
      invariant 0 < remaining'
      invariant at <= cursor' <= Max(at, ScanFrom(s, day, spans, i))
      invariant remaining' + OpenSeconds(Timeline(s), at, Max(at, ScanFrom(s, day, spans, i))) == service
    {
      ghost var here := Max(at, ScanFrom(s, day, spans, i));
      var start, end := Instant(s, day, spans[i].start), Instant(s, day, spans[i].end);
      SpanAhead(s, day, spans, i);
      var from := Max(cursor', start);
      if from < end {
        var available := end - from;
        if remaining' <= available {
          DeadlineInWindow(Timeline(s), at, here, start, end, remaining');
          InDay(s, day, from + remaining');
          due := Some(from + remaining');
          return;
        }
        OpensAt(Timeline(s), here, start, end);
        OpenSecondsSplit(Timeline(s), at, here, end);
        remaining' := remaining' - available;
        cursor' := end;
      }
    }
    DayDone(s, at, day, spans);
    due := None;
  }

  /** The rest of a scanned day adds no open time. */
  lemma DayDone(s: BusinessSchedule, at: int, day: int, spans: seq<Span>)
    requires EffectiveDay(s, day) == Ok(spans) && WellFormedSpans(spans) && Disjoint(spans)
    ensures ScanFrom(s, day, spans, |spans|) <= Instant(s, day + 1, 0)
    ensures OpenSeconds(Timeline(s), at, Max(at, Instant(s, day + 1, 0))) ==
            OpenSeconds(Timeline(s), at, Max(at, ScanFrom(s, day, spans, |spans|)))
  {
    var here, next := Max(at, ScanFrom(s, day, spans, |spans|)), Max(at, Instant(s, day + 1, 0));
    DayTail(s, day, spans);
    ClosedStretch(Timeline(s), here, next);
    OpenSecondsSplit(Timeline(s), at, here, next);
  }

  /** A reachable deadline and a search that gives up exclude each other. */
  lemma DeadlineNotMissed(s: BusinessSchedule, at: int, service: int, horizon: int, d: int)
    requires Reachable(s, at, service, horizon, d)
    ensures !exists day :: GivesUpAt(s, at, service, horizon, day)
  {
    OfDay(s, d);
    forall day ensures !GivesUpAt(s, at, service, horizon, day) {
      if GivesUpAt(s, at, service, horizon, day) {
        assert LocalDay(s, d) < day;
        OpenSecondsSplit(Timeline(s), at, d, Instant(s, day, 0));
      }
    }
  }

  /**
    Deadlines compose: with `middle` due for `a`, the deadline for `a + b` is the deadline for `b`
    counted from `middle`, as long as it stays within the horizon of the first search.
  */
  lemma DueTimesAdd(s: BusinessSchedule, at: int, a: int, b: int, horizon: int, middle: int, d: int)
    requires 0 < b && Reachable(s, at, a, horizon, middle)
    ensures Reachable(s, at, a + b, horizon, d) <==>
            Reachable(s, middle, b, horizon, d) && LocalDay(s, d) <= LocalDay(s, at) + horizon
  {
    DeadlinesAdd(Timeline(s), at, a, b, middle, d);
    DayOrder(s, at, middle);
    if middle <= d {
      DayOrder(s, middle, d);
    }
  }

  lemma DayOrder(s: BusinessSchedule, t: int, u: int)
    requires t <= u
    ensures LocalDay(s, t) <= LocalDay(s, u)
  {
    OfDay(s, t);
    OfDay(s, u);
  }

  /** Deadlines are monotone in the start and in the service time. */
  lemma DueTimesMonotone(s: BusinessSchedule, at: int, service: int, horizon: int, d: int,
                         at': int, service': int, horizon': int, d': int)
    requires at <= at' && service <= service'
    requires Reachable(s, at, service, horizon, d) && Reachable(s, at', service', horizon', d')
    ensures d <= d'
  {
    DeadlinesMonotone(Timeline(s), at, service, d, at', service', d');
  }
}
