/**
  The availability planner. `AvailableSlots` is the reference definition: walk every instant of the
  booking window and offer it on the smallest resource that can take it. `CalculateAvailability`
  is the planner itself, which walks the opening spans of each resource on the slot grid.
*/
module Availability {
  import opened Basics
  import opened Schedule
  import opened BusinessTime
  import opened Grid

  datatype RawPolicy = Policy(
    slotInterval: int,
    horizonDays: int,
    minimumNotice: int,
    holdDuration: int,
    draftDuration: int,
    changeCutoff: int,
    nameLimit: nat,
    phoneLimit: nat,
    noteLimit: nat)
  {
    predicate Valid() {
      && 0 < slotInterval && 0 < horizonDays && 0 < minimumNotice && 0 < holdDuration
      && 0 < draftDuration && 0 <= changeCutoff
      && 1 <= nameLimit <= 200 && 8 <= phoneLimit <= 32 && noteLimit <= 2000
    }
  }

  type Policy = p: RawPolicy | p.Valid() witness Policy(300, 1, 1, 1, 1, 0, 1, 8, 0)

  datatype Busy = Busy(start: int, end: int, used: nat)

  datatype AvailableResource = AvailableResource(
    id: nat,
    schedule: BusinessSchedule,
    capacity: int,
    active: bool,
    busy: seq<Busy>)

  datatype Context = Context(
    duration: int,
    buffer: int,
    active: bool,
    bookable: bool,
    policy: Policy,
    resources: seq<AvailableResource>)
  {
    function Occupied(): int { duration + buffer }
  }

  datatype Slot = Slot(startAt: int, endAt: int, resourceId: nat)

  predicate Overlaps(a: int, b: int, c: int, d: int) { a < d && c < b }

  /** The capacity that busy periods overlapping `[start, end)` take up together. */
  function Used(busy: seq<Busy>, start: int, end: int): nat {
    if busy == [] then 0
    else
      (if Overlaps(busy[0].start, busy[0].end, start, end) then busy[0].used else 0)
      + Used(busy[1..], start, end)
  }

  predicate HasCapacity(r: AvailableResource, start: int, end: int) {
    r.active && Used(r.busy, start, end) < r.capacity
  }

  function LocalTime(s: BusinessSchedule, date: int, t: int): int { t - Instant(s, date, 0) }

  /** The whole occupied time lies in one opening span. */
  predicate FitsSpan(spans: seq<Span>, time: int, occupied: int) {
    exists i :: 0 <= i < |spans| && spans[i].start <= time && time + occupied <= spans[i].end
  }

  predicate Unusable(r: AvailableResource, date: int) {
    r.active && r.schedule.active && EffectiveDay(r.schedule, date).Err?
  }

  /** Resource `r` can take an appointment that starts at `start` on `date`. */
  predicate Eligible(ctx: Context, date: int, now: int, r: AvailableResource, start: int) {
    && r.active && r.schedule.active
    && now + ctx.policy.minimumNotice <= start <= now + ctx.policy.horizonDays * DAY
    && LocalTime(r.schedule, date, start) % ctx.policy.slotInterval == 0
    && EffectiveDay(r.schedule, date).Ok?
    && FitsSpan(EffectiveDay(r.schedule, date).value, LocalTime(r.schedule, date, start), ctx.Occupied())
    && HasCapacity(r, start, start + ctx.Occupied())
  }

  // --- The reference definition -----------------------------------------------------------

  /** The smallest identifier among the resources that can take the start. */
  function FirstResource(ctx: Context, date: int, now: int, resources: seq<AvailableResource>,
                         start: int): Option<nat> {
    if resources == [] then None
    else
      var rest := FirstResource(ctx, date, now, resources[1..], start);
      if Eligible(ctx, date, now, resources[0], start) && (rest.None? || resources[0].id <= rest.value)
      then Some(resources[0].id)
      else rest
  }

  lemma {:induction false} FirstResourceMeaning(ctx: Context, date: int, now: int,
                                                resources: seq<AvailableResource>, start: int)
    ensures var id := FirstResource(ctx, date, now, resources, start);
            && (id.None? ==> forall r :: r in resources ==> !Eligible(ctx, date, now, r, start))
            && (id.Some? ==> exists r :: r in resources && r.id == id.value && Eligible(ctx, date, now, r, start))
            && (id.Some? ==>
                  forall r :: r in resources && Eligible(ctx, date, now, r, start) ==> id.value <= r.id)
  {
    hide Eligible;
    if resources != [] {
      FirstResourceMeaning(ctx, date, now, resources[1..], start);
      assert forall r :: r in resources <==> r == resources[0] || r in resources[1..];
    }
  }

  function SlotsAt(ctx: Context, date: int, now: int, start: int): seq<Slot> {
    match FirstResource(ctx, date, now, ctx.resources, start)
    case None => []
    case Some(id) => [Slot(start, start + ctx.duration, id)]
  }

  function SlotsBetween(ctx: Context, date: int, now: int, lo: int, hi: int): seq<Slot>
    decreases hi - lo
  {
    if hi <= lo then []
    else SlotsBetween(ctx, date, now, lo, hi - 1) + SlotsAt(ctx, date, now, hi - 1)
  }

  function AvailableSlots(ctx: Context, date: int, now: int): Result<seq<Slot>, ScheduleError> {
    if !ctx.active || !ctx.bookable then Ok([])
    else if exists i :: 0 <= i < |ctx.resources| && Unusable(ctx.resources[i], date) then Err(InvalidSchedule)
    else Ok(SlotsBetween(ctx, date, now, now + ctx.policy.minimumNotice,
                         now + ctx.policy.horizonDays * DAY + 1))
  }

  function StartOf(): Slot -> int { (s: Slot) => s.startAt }

  /** What a slot of the plan means. */
  ghost predicate IsSlot(ctx: Context, date: int, now: int, slot: Slot) {
    && slot.endAt == slot.startAt + ctx.duration
    && (exists r :: r in ctx.resources && r.id == slot.resourceId && Eligible(ctx, date, now, r, slot.startAt))
    && (forall r :: r in ctx.resources && Eligible(ctx, date, now, r, slot.startAt) ==> slot.resourceId <= r.id)
  }

  lemma SlotsAtMeaning(ctx: Context, date: int, now: int, start: int, slot: Slot)
    ensures slot in SlotsAt(ctx, date, now, start) <==> slot.startAt == start && IsSlot(ctx, date, now, slot)
  {
    hide Eligible;
    FirstResourceMeaning(ctx, date, now, ctx.resources, start);
  }

  lemma {:induction false} SlotsBetweenMeaning(ctx: Context, date: int, now: int, lo: int, hi: int, slot: Slot)
    ensures slot in SlotsBetween(ctx, date, now, lo, hi) <==>
            lo <= slot.startAt < hi && IsSlot(ctx, date, now, slot)
    decreases hi - lo
  {
    if lo < hi {
      SlotsBetweenMeaning(ctx, date, now, lo, hi - 1, slot);
      SlotsAtMeaning(ctx, date, now, hi - 1, slot);
    }
  }

  lemma {:induction false} SlotsBetweenSorted(ctx: Context, date: int, now: int, lo: int, hi: int)
    ensures StrictlySorted(SlotsBetween(ctx, date, now, lo, hi), StartOf())
    decreases hi - lo
  {
    if lo < hi {
      SlotsBetweenSorted(ctx, date, now, lo, hi - 1);
      var earlier := SlotsBetween(ctx, date, now, lo, hi - 1);
      forall i | 0 <= i < |earlier| ensures earlier[i].startAt < hi - 1 {
        SlotsBetweenMeaning(ctx, date, now, lo, hi - 1, earlier[i]);
      }
    }
  }

  /**
    The planner's specification: the plan lists, in strictly increasing order, exactly the starts
    that some resource can take, each on the smallest such resource; it fails exactly when an active
    resource has no effective hours on the date.
  */
  lemma AvailabilityMeaning(ctx: Context, date: int, now: int)
    ensures AvailableSlots(ctx, date, now).Err? <==>
            ctx.active && ctx.bookable && exists r :: r in ctx.resources && Unusable(r, date)
    ensures AvailableSlots(ctx, date, now).Err? ==> AvailableSlots(ctx, date, now) == Err(InvalidSchedule)
    ensures AvailableSlots(ctx, date, now).Ok? ==>
              var slots := AvailableSlots(ctx, date, now).value;
              && StrictlySorted(slots, StartOf())
              && forall slot :: slot in slots <==> ctx.active && ctx.bookable && IsSlot(ctx, date, now, slot)
  {
    hide EffectiveDay, HasCapacity, Eligible, SlotsBetween;
    var lo, hi := now + ctx.policy.minimumNotice, now + ctx.policy.horizonDays * DAY + 1;
    if exists r :: r in ctx.resources && Unusable(r, date) {
      var r :| r in ctx.resources && Unusable(r, date);
      var i :| 0 <= i < |ctx.resources| && ctx.resources[i] == r;
    }
    SlotsBetweenSorted(ctx, date, now, lo, hi);
    forall slot ensures slot in SlotsBetween(ctx, date, now, lo, hi) <==> IsSlot(ctx, date, now, slot) {
      SlotsBetweenMeaning(ctx, date, now, lo, hi, slot);
      SlotInWindow(ctx, date, now, slot);
    }
  }

  lemma SlotInWindow(ctx: Context, date: int, now: int, slot: Slot)
    ensures IsSlot(ctx, date, now, slot) ==>
              now + ctx.policy.minimumNotice <= slot.startAt <= now + ctx.policy.horizonDays * DAY
  {
    hide EffectiveDay, HasCapacity;
  }

  // --- The planner ------------------------------------------------------------------------

  /** The starts on resource `r` that the grid walk has passed when it stands at local time `upTo`. */
  ghost predicate Passed(ctx: Context, date: int, now: int, r: AvailableResource, upTo: int, start: int) {
    Eligible(ctx, date, now, r, start) && LocalTime(r.schedule, date, start) < upTo
  }

  /** What the walk over one resource adds: its eligible starts not seen before, in order. */
  ghost predicate Adds(ctx: Context, date: int, now: int, r: AvailableResource, upTo: int,
                       before: set<int>, added: seq<Slot>, seen: set<int>) {
    && (forall slot :: slot in added ==>
          && slot == Slot(slot.startAt, slot.startAt + ctx.duration, r.id)
          && slot.startAt !in before
          && Eligible(ctx, date, now, r, slot.startAt))
    && (forall t :: t in seen <==> t in before || exists slot :: slot in added && slot.startAt == t)
    && (forall t :: Passed(ctx, date, now, r, upTo, t) ==> t in seen)
    && DistinctKeys(added, StartOf())
  }

  /** One candidate of the grid walk, with the planner's own tests. */
  method TryCandidate(ctx: Context, date: int, now: int, r: AvailableResource, closing: int, cursor: int)
    returns (slot: Option<Slot>)
    requires r.active && r.schedule.active && 0 < ctx.duration && 0 <= ctx.buffer
    requires 0 <= cursor < closing < DAY && cursor % ctx.policy.slotInterval == 0
    ensures slot.Some? <==>
            var start := Instant(r.schedule, date, cursor);
            && now + ctx.policy.minimumNotice <= start <= now + ctx.policy.horizonDays * DAY
            && cursor + ctx.Occupied() <= closing
            && HasCapacity(r, start, start + ctx.Occupied())
    ensures slot.Some? ==>
              slot.value == Slot(Instant(r.schedule, date, cursor),
                                 Instant(r.schedule, date, cursor) + ctx.duration, r.id)
  {
    var earliest := now + ctx.policy.minimumNotice;
    var latest := now + ctx.policy.horizonDays * DAY;
    var start := Instant(r.schedule, date, cursor);
    var appointmentEnd := start + ctx.duration;
    var occupiedEnd := appointmentEnd + ctx.buffer;
    if start < earliest || start > latest
       || LocalDay(r.schedule, occupiedEnd) != date
       || LocalTime(r.schedule, date, occupiedEnd) > closing {
      return None;
    }
    if !HasCapacity(r, start, occupiedEnd) {
      return None;
    }
    return Some(Slot(start, appointmentEnd, r.id));
  }

  lemma EligibleAt(ctx: Context, date: int, now: int, r: AvailableResource, spans: seq<Span>, i: nat, cursor: int)
    requires r.active && r.schedule.active && 0 < ctx.Occupied()
    requires EffectiveDay(r.schedule, date) == Ok(spans) && WellFormedSpans(spans) && Disjoint(spans)
    requires i < |spans| && spans[i].start <= cursor < spans[i].end
    requires cursor % ctx.policy.slotInterval == 0
    ensures Eligible(ctx, date, now, r, Instant(r.schedule, date, cursor)) <==>
            var start := Instant(r.schedule, date, cursor);
            && now + ctx.policy.minimumNotice <= start <= now + ctx.policy.horizonDays * DAY
            && cursor + ctx.Occupied() <= spans[i].end
            && HasCapacity(r, start, start + ctx.Occupied())
  {
    hide EffectiveDay, HasCapacity;
    var start := Instant(r.schedule, date, cursor);
    assert LocalTime(r.schedule, date, start) == cursor;
    if FitsSpan(spans, cursor, ctx.Occupied()) {
      var j :| 0 <= j < |spans| && spans[j].start <= cursor && cursor + ctx.Occupied() <= spans[j].end;
      SpanUnique(spans, i, j, cursor);
    }
  }

  /** An eligible start lies on the grid, inside some span. */
  lemma EligibleInSpan(ctx: Context, date: int, now: int, r: AvailableResource, spans: seq<Span>, start: int)
    returns (i: nat)
    requires EffectiveDay(r.schedule, date) == Ok(spans) && WellFormedSpans(spans) && Disjoint(spans)
    requires 0 < ctx.Occupied() && Eligible(ctx, date, now, r, start)
    ensures i < |spans| && spans[i].start <= LocalTime(r.schedule, date, start) < spans[i].end
  {
    hide EffectiveDay, HasCapacity;
    var time := LocalTime(r.schedule, date, start);
    assert FitsSpan(spans, time, ctx.Occupied());
    i :| 0 <= i < |spans| && spans[i].start <= time && time + ctx.Occupied() <= spans[i].end;
  }

  lemma SpanUnique(spans: seq<Span>, i: nat, j: nat, time: int)
    requires Disjoint(spans) && i < |spans| && j < |spans| && InSpan(spans[i], time) && InSpan(spans[j], time)
    ensures i == j
  {
  }

  lemma EndsOrdered(spans: seq<Span>)
    requires WellFormedSpans(spans) && Disjoint(spans)
    ensures forall i, j :: 0 <= i <= j < |spans| ==>
                             spans[i].start <= spans[j].start && spans[i].end <= spans[j].end
  {
  }

  /** Between two stations of the walk there is no eligible start. */
  lemma NothingSkipped(ctx: Context, date: int, now: int, r: AvailableResource, spans: seq<Span>, i: nat,
                       from: int, to: int, start: int)
    requires EffectiveDay(r.schedule, date) == Ok(spans) && WellFormedSpans(spans) && Disjoint(spans)
    requires 0 < ctx.Occupied() && i < |spans| && 0 <= from <= to
    requires i > 0 ==> spans[i - 1].end <= from
    requires to <= spans[i].start ||
             (to % ctx.policy.slotInterval == 0 && spans[i].start <= from && to < from + ctx.policy.slotInterval)
    ensures Eligible(ctx, date, now, r, start) && from <= LocalTime(r.schedule, date, start) ==>
              to <= LocalTime(r.schedule, date, start)
  {
    hide EffectiveDay, HasCapacity;
    var time := LocalTime(r.schedule, date, start);
    if Eligible(ctx, date, now, r, start) && from <= time {
      var j := EligibleInSpan(ctx, date, now, r, spans, start);
      EndsOrdered(spans);
      if spans[i].start < to && time <= to {
        GridUnique(time, to, ctx.policy.slotInterval);
      }
    }
  }

  /** The walk over the opening spans of one resource. */
  method WalkResource(ctx: Context, date: int, now: int, r: AvailableResource, spans: seq<Span>, before: set<int>)
    returns (added: seq<Slot>, seen: set<int>)
    requires r.active && r.schedule.active && 0 < ctx.duration && 0 <= ctx.buffer
    requires EffectiveDay(r.schedule, date) == Ok(spans) && WellFormedSpans(spans) && Disjoint(spans)
    ensures Adds(ctx, date, now, r, DAY, before, added, seen)
  {
    hide EffectiveDay, HasCapacity, Eligible;
    added, seen := [], before;
    var upTo := 0;
    forall start ensures !Passed(ctx, date, now, r, 0, start) {
      NothingBeforeOpening(ctx, date, now, r, spans, start);
    }
    for i := 0 to |spans|
      invariant 0 <= upTo < DAY && (i > 0 ==> upTo == spans[i - 1].end) && (i == 0 ==> upTo == 0)
      invariant Adds(ctx, date, now, r, upTo, before, added, seen)
    {
      added, seen := WalkSpan(ctx, date, now, r, spans, i, upTo, before, added, seen);
      upTo := spans[i].end;
    }
    forall start | Passed(ctx, date, now, r, DAY, start) ensures Passed(ctx, date, now, r, upTo, start) {
      var j := EligibleInSpan(ctx, date, now, r, spans, start);
      EndsOrdered(spans);
    }
  }

  lemma NothingBeforeOpening(ctx: Context, date: int, now: int, r: AvailableResource, spans: seq<Span>, start: int)
    requires EffectiveDay(r.schedule, date) == Ok(spans) && WellFormedSpans(spans) && Disjoint(spans)
    requires 0 < ctx.Occupied()
    ensures !Passed(ctx, date, now, r, 0, start)
  {
    hide EffectiveDay, HasCapacity, Eligible;
    if Eligible(ctx, date, now, r, start) {
      var j := EligibleInSpan(ctx, date, now, r, spans, start);
    }
  }

  lemma Advance(ctx: Context, date: int, now: int, r: AvailableResource, spans: seq<Span>, i: nat,
                from: int, to: int, before: set<int>, added: seq<Slot>, seen: set<int>)
    requires EffectiveDay(r.schedule, date) == Ok(spans) && WellFormedSpans(spans) && Disjoint(spans)
    requires 0 < ctx.Occupied() && i < |spans| && 0 <= from <= to
    requires i > 0 ==> spans[i - 1].end <= from
    requires to <= spans[i].start ||
             (to % ctx.policy.slotInterval == 0 && spans[i].start <= from && to < from + ctx.policy.slotInterval)
    requires Adds(ctx, date, now, r, from, before, added, seen)
    ensures Adds(ctx, date, now, r, to, before, added, seen)
  {
    hide EffectiveDay, HasCapacity, Eligible;
    forall start | Passed(ctx, date, now, r, to, start) ensures start in seen {
      NothingSkipped(ctx, date, now, r, spans, i, from, to, start);
      assert Passed(ctx, date, now, r, from, start);
    }
  }

  /** Settling the candidate at the cursor: either it is listed by now or it is not eligible. */
  lemma Settle(ctx: Context, date: int, now: int, r: AvailableResource, cursor: int,
               before: set<int>, added: seq<Slot>, seen: set<int>, take: bool)
    requires Adds(ctx, date, now, r, cursor, before, added, seen)
    requires var start := Instant(r.schedule, date, cursor);
             take <==> Eligible(ctx, date, now, r, start) && start !in seen
    ensures var start := Instant(r.schedule, date, cursor);
            Adds(ctx, date, now, r, cursor + 1, before,
                 if take then added + [Slot(start, start + ctx.duration, r.id)] else added,
                 if take then seen + {start} else seen)
  {
    hide EffectiveDay, HasCapacity, Eligible;
    var start := Instant(r.schedule, date, cursor);
    var slot := Slot(start, start + ctx.duration, r.id);
    var added' := if take then added + [slot] else added;
    var seen' := if take then seen + {start} else seen;
    forall t ensures t in seen' <==> t in before || exists s :: s in added' && s.startAt == t {
      if take && t == start {
        assert slot in added';
      } else if t in seen && t !in before {
        var s :| s in added && s.startAt == t;
        assert s in added';
      }
    }
    forall i, j | 0 <= i < j < |added'| ensures added'[i].startAt != added'[j].startAt {
      if j == |added| {
        assert added[i] in added && added[i].startAt in seen;
      }
    }
    forall t | Passed(ctx, date, now, r, cursor + 1, t) ensures t in seen' {
      if LocalTime(r.schedule, date, t) < cursor {
        assert Passed(ctx, date, now, r, cursor, t);
      }
    }
  }

  /** The grid walk inside one opening span. */
  method WalkSpan(ctx: Context, date: int, now: int, r: AvailableResource, spans: seq<Span>, i: nat, from: int,
                  ghost before: set<int>, added: seq<Slot>, seen: set<int>)
    returns (added': seq<Slot>, seen': set<int>)
    requires r.active && r.schedule.active && 0 < ctx.duration && 0 <= ctx.buffer
    requires EffectiveDay(r.schedule, date) == Ok(spans) && WellFormedSpans(spans) && Disjoint(spans)
    requires i < |spans| && 0 <= from && (i > 0 ==> from == spans[i - 1].end) && (i == 0 ==> from == 0)
    requires Adds(ctx, date, now, r, from, before, added, seen)
    ensures Adds(ctx, date, now, r, spans[i].end, before, added', seen')
  {
    hide EffectiveDay, HasCapacity, Eligible;
    added', seen' := added, seen;
    var opening, closing := spans[i].start, spans[i].end;
    var cursor := opening;
    var remainder := cursor % ctx.policy.slotInterval;
    GridUp(opening, ctx.policy.slotInterval);
    if remainder != 0 {
      cursor := cursor + (ctx.policy.slotInterval - remainder);
    }
    Advance(ctx, date, now, r, spans, i, from, opening, before, added', seen');
    Advance(ctx, date, now, r, spans, i, opening, cursor, before, added', seen');
    while cursor < closing
      invariant opening <= cursor && cursor % ctx.policy.slotInterval == 0
      invariant Adds(ctx, date, now, r, cursor, before, added', seen')
    {
      var slot := TryCandidate(ctx, date, now, r, closing, cursor);
      EligibleAt(ctx, date, now, r, spans, i, cursor);
      var start := Instant(r.schedule, date, cursor);
      Settle(ctx, date, now, r, cursor, before, added', seen', slot.Some? && start !in seen');
      if slot.Some? && start !in seen' {
        added' := added' + [slot.value];
        seen' := seen' + {start};
      }
      assert Adds(ctx, date, now, r, cursor + 1, before, added', seen');
      GridUp(cursor, ctx.policy.slotInterval);
      Advance(ctx, date, now, r, spans, i, cursor + 1, cursor + ctx.policy.slotInterval, before, added', seen');
      cursor := cursor + ctx.policy.slotInterval;
    }
  }

  /** The plan so far: resources `0..n` of the sorted list have been walked. */
  ghost predicate Planned(ctx: Context, date: int, now: int, ordered: seq<AvailableResource>, n: nat,
                          slots: seq<Slot>, seen: set<int>)
    requires n <= |ordered|
  {
    && (forall slot :: slot in slots ==>
          && slot.endAt == slot.startAt + ctx.duration
          && slot.startAt in seen
          && OnFirst(ctx, date, now, ordered, n, slot))
    && (forall t :: t in seen ==> exists slot :: slot in slots && slot.startAt == t)
    && (forall i, t :: 0 <= i < n && Eligible(ctx, date, now, ordered[i], t) ==> t in seen)
    && DistinctKeys(slots, StartOf())
  }

  /** The slot is on the first resource of the list that can take it, among the first `n`. */
  ghost predicate OnFirst(ctx: Context, date: int, now: int, ordered: seq<AvailableResource>, n: nat, slot: Slot)
    requires n <= |ordered|
  {
    exists i :: 0 <= i < n && FirstAt(ctx, date, now, ordered, i, slot.startAt) && slot.resourceId == ordered[i].id
  }

  /** Resource `i` is the first of the list that can take the start. */
  ghost predicate FirstAt(ctx: Context, date: int, now: int, ordered: seq<AvailableResource>, i: nat, t: int)
    requires i < |ordered|
  {
    && Eligible(ctx, date, now, ordered[i], t)
    && forall j :: 0 <= j < i ==> !Eligible(ctx, date, now, ordered[j], t)
  }

  function IdOf(): AvailableResource -> int { (r: AvailableResource) => r.id }

  lemma NewIsFirst(ctx: Context, date: int, now: int, ordered: seq<AvailableResource>, n: nat,
                   slots: seq<Slot>, before: set<int>, slot: Slot)
    requires n < |ordered| && Planned(ctx, date, now, ordered, n, slots, before)
    requires Eligible(ctx, date, now, ordered[n], slot.startAt) && slot.startAt !in before
    requires slot.resourceId == ordered[n].id
    ensures OnFirst(ctx, date, now, ordered, n + 1, slot)
  {
    hide Eligible;
    assert FirstAt(ctx, date, now, ordered, n, slot.startAt);
  }

  lemma FirstStays(ctx: Context, date: int, now: int, ordered: seq<AvailableResource>, n: nat, slot: Slot)
    requires n < |ordered| && OnFirst(ctx, date, now, ordered, n, slot)
    ensures OnFirst(ctx, date, now, ordered, n + 1, slot)
  {
    hide FirstAt;
  }

  lemma Extend(ctx: Context, date: int, now: int, ordered: seq<AvailableResource>, n: nat,
               slots: seq<Slot>, before: set<int>, added: seq<Slot>, seen: set<int>)
    requires n < |ordered| && Planned(ctx, date, now, ordered, n, slots, before)
    requires Adds(ctx, date, now, ordered[n], DAY, before, added, seen)
    requires forall t :: Eligible(ctx, date, now, ordered[n], t) ==>
                           Passed(ctx, date, now, ordered[n], DAY, t)
    ensures Planned(ctx, date, now, ordered, n + 1, slots + added, seen)
  {
    hide EffectiveDay, HasCapacity, Eligible, OnFirst;
    var all := slots + added;
    forall slot | slot in all
      ensures slot.endAt == slot.startAt + ctx.duration && slot.startAt in seen
      ensures OnFirst(ctx, date, now, ordered, n + 1, slot)
    {
      if slot in added {
        NewIsFirst(ctx, date, now, ordered, n, slots, before, slot);
      } else {
        FirstStays(ctx, date, now, ordered, n, slot);
      }
    }
    forall t | t in seen ensures exists slot :: slot in all && slot.startAt == t {
      if t in before {
        var slot :| slot in slots && slot.startAt == t;
        assert slot in all;
      } else {
        var slot :| slot in added && slot.startAt == t;
        assert slot in all;
      }
    }
    forall i, j | 0 <= i < j < |all| ensures all[i].startAt != all[j].startAt {
      if i < |slots| <= j {
        assert all[i] in slots && all[j] in added;
      }
    }
  }

  lemma Skip(ctx: Context, date: int, now: int, ordered: seq<AvailableResource>, n: nat,
             slots: seq<Slot>, seen: set<int>)
    requires n < |ordered| && Planned(ctx, date, now, ordered, n, slots, seen)
    requires !ordered[n].active || !ordered[n].schedule.active
    ensures Planned(ctx, date, now, ordered, n + 1, slots, seen)
  {
    hide EffectiveDay, HasCapacity, Eligible, FirstAt;
    forall t ensures !Eligible(ctx, date, now, ordered[n], t) {
      InactiveNotEligible(ctx, date, now, ordered[n], t);
    }
  }

  lemma InactiveNotEligible(ctx: Context, date: int, now: int, r: AvailableResource, t: int)
    requires !r.active || !r.schedule.active
    ensures !Eligible(ctx, date, now, r, t)
  {
    hide EffectiveDay, HasCapacity;
  }

  /** A finished plan lists exactly the slots of the specification. */
  lemma Finished(ctx: Context, date: int, now: int, ordered: seq<AvailableResource>,
                 slots: seq<Slot>, seen: set<int>)
    requires ordered == SortBy(ctx.resources, IdOf())
    requires Planned(ctx, date, now, ordered, |ordered|, slots, seen)
    ensures forall slot :: slot in slots <==> IsSlot(ctx, date, now, slot)
    ensures DistinctKeys(slots, StartOf())
  {
    hide EffectiveDay, HasCapacity, Eligible;
    forall slot ensures slot in slots <==> IsSlot(ctx, date, now, slot) {
      if slot in slots {
        FirstIsSmallest(ctx, date, now, ordered, slot);
      }
      if IsSlot(ctx, date, now, slot) {
        var listed := Listed(ctx, date, now, ordered, slots, seen, slot);
        FirstIsSmallest(ctx, date, now, ordered, listed);
        SameSlot(ctx, date, now, listed, slot);
      }
    }
  }

  lemma Listed(ctx: Context, date: int, now: int, ordered: seq<AvailableResource>,
               slots: seq<Slot>, seen: set<int>, slot: Slot)
    returns (listed: Slot)
    requires forall r :: r in ctx.resources ==> r in ordered
    requires Planned(ctx, date, now, ordered, |ordered|, slots, seen) && IsSlot(ctx, date, now, slot)
    ensures listed in slots && listed.startAt == slot.startAt
  {
    hide EffectiveDay, HasCapacity, Eligible;
    var r :| r in ctx.resources && r.id == slot.resourceId && Eligible(ctx, date, now, r, slot.startAt);
    var i :| 0 <= i < |ordered| && ordered[i] == r;
    assert slot.startAt in seen;
    listed :| listed in slots && listed.startAt == slot.startAt;
  }

  lemma SameSlot(ctx: Context, date: int, now: int, a: Slot, b: Slot)
    requires IsSlot(ctx, date, now, a) && IsSlot(ctx, date, now, b) && a.startAt == b.startAt
    ensures a == b
  {
    hide Eligible;
  }

  lemma FirstIsSmallest(ctx: Context, date: int, now: int, ordered: seq<AvailableResource>, slot: Slot)
    requires Sorted(ordered, IdOf()) && forall r :: r in ordered <==> r in ctx.resources
    requires slot.endAt == slot.startAt + ctx.duration
    requires OnFirst(ctx, date, now, ordered, |ordered|, slot)
    ensures IsSlot(ctx, date, now, slot)
  {
    hide EffectiveDay, HasCapacity, Eligible;
    var i :| 0 <= i < |ordered| && FirstAt(ctx, date, now, ordered, i, slot.startAt)
             && slot.resourceId == ordered[i].id;
    assert ordered[i] in ordered;
    forall r | r in ctx.resources && Eligible(ctx, date, now, r, slot.startAt) ensures slot.resourceId <= r.id {
      assert r in ordered;
      var j :| 0 <= j < |ordered| && ordered[j] == r;
      assert i <= j;
      assert i < j ==> IdOf()(ordered[i]) <= IdOf()(ordered[j]);
    }
  }

  lemma EligibleWithinDay(ctx: Context, date: int, now: int, r: AvailableResource)
    requires 0 < ctx.Occupied()
    ensures forall t :: Eligible(ctx, date, now, r, t) ==> Passed(ctx, date, now, r, DAY, t)
  {
    forall t | Eligible(ctx, date, now, r, t) ensures Passed(ctx, date, now, r, DAY, t) {
      var i := EligibleInSpan(ctx, date, now, r, EffectiveDay(r.schedule, date).value, t);
    }
  }

  /** `calculate_availability`: the grid walk computes the reference plan. */
  method CalculateAvailability(ctx: Context, date: int, now: int) returns (r: Result<seq<Slot>, ScheduleError>)
    requires 0 < ctx.duration && 0 <= ctx.buffer
    ensures r == AvailableSlots(ctx, date, now)
  {
    hide EffectiveDay, HasCapacity, Eligible, AvailableSlots, Planned, Adds, SortBy, IsSlot;
    AvailabilityMeaning(ctx, date, now);
    if !ctx.active || !ctx.bookable || ctx.resources == [] {
      NoPlan(ctx, date, now);
      return Ok([]);
    }
    var ordered := SortBy(ctx.resources, IdOf());
    var slots: seq<Slot> := [];
    var seen: set<int> := {};
    EmptyPlan(ctx, date, now, ordered);
    for n := 0 to |ordered|
      invariant Planned(ctx, date, now, ordered, n, slots, seen)
      invariant forall i :: 0 <= i < n ==> !Unusable(ordered[i], date)
    {
      var resource := ordered[n];
      assert resource in ordered;
      if !resource.active || !resource.schedule.active {
        Skip(ctx, date, now, ordered, n, slots, seen);
        continue;
      }
      var day := ComputeEffectiveDay(resource.schedule, date);
      if day.Err? {
        assert Unusable(resource, date);
        return Err(InvalidSchedule);
      }
      var added, seen' := WalkResource(ctx, date, now, resource, day.value, seen);
      EligibleWithinDay(ctx, date, now, resource);
      Extend(ctx, date, now, ordered, n, slots, seen, added, seen');
      slots, seen := slots + added, seen';
    }
    forall x | x in ctx.resources ensures !Unusable(x, date) {
      assert x in ordered;
      var i :| 0 <= i < |ordered| && ordered[i] == x;
    }
    Finished(ctx, date, now, ordered, slots, seen);
    SortByStrict(slots, StartOf());
    StrictlySortedUnique(SortBy(slots, StartOf()), AvailableSlots(ctx, date, now).value, StartOf());
    return Ok(SortBy(slots, StartOf()));
  }

  lemma EmptyPlan(ctx: Context, date: int, now: int, ordered: seq<AvailableResource>)
    ensures Planned(ctx, date, now, ordered, 0, [], {})
  {
  }

  lemma NoPlan(ctx: Context, date: int, now: int)
    requires !ctx.active || !ctx.bookable || ctx.resources == []
    ensures AvailableSlots(ctx, date, now) == Ok([])
  {
    hide EffectiveDay, HasCapacity, Eligible;
    AvailabilityMeaning(ctx, date, now);
    assert AvailableSlots(ctx, date, now).Ok?;
    var slots := AvailableSlots(ctx, date, now).value;
    assert forall slot :: !(ctx.active && ctx.bookable && IsSlot(ctx, date, now, slot));
    if slots != [] {
      HasMember(slots);
    }
  }
}
