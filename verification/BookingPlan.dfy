/**
  The plan of a service in terms of the rows: which resources reach the planner, what each busy list
  adds up to, and exactly which starts are offered on which resource.
*/
module BookingPlan {
  import opened Basics
  import opened Schedule
  import opened BusinessTime
  import opened Availability
  import opened BookingDomain
  import opened BookingTables
  import opened BookingWindow

  // --- The resources of a context ---------------------------------------------------------

  /** The resource list is in order, has every linked resource below `n` and no other, and carries its row. */
  lemma {:induction false} LinkedMeaning(shop: Shop, t: Tables, service: nat, now: int, w: Window, n: nat)
    requires n <= |shop.resources|
    ensures var linked := LinkedResources(shop, t, service, now, w, n);
            && (forall i, j :: 0 <= i < j < |linked| ==> linked[i].id < linked[j].id)
            && (forall id: nat :: (exists r :: r in linked && r.id == id) <==>
                  id < n && service in shop.resources[id].services)
            && (forall r :: r in linked ==> r.id < n && r == Seen(shop, t, now, w, r.id))
  {
    hide BusyRows, SortBy;
    if n > 0 {
      LinkedMeaning(shop, t, service, now, w, n - 1);
      LinkedGrows(shop, t, service, now, w, n);
    }
  }

  lemma LinkedGrows(shop: Shop, t: Tables, service: nat, now: int, w: Window, n: nat)
    requires 0 < n <= |shop.resources|
    ensures var before := LinkedResources(shop, t, service, now, w, n - 1);
            var linked := LinkedResources(shop, t, service, now, w, n);
            && (if service in shop.resources[n - 1].services
                then linked == before + [Seen(shop, t, now, w, n - 1)] else linked == before)
            && forall r :: r in linked <==>
                 r in before || (service in shop.resources[n - 1].services && r == Seen(shop, t, now, w, n - 1))
  {
    hide BusyRows, SortBy;
    var before, last := LinkedResources(shop, t, service, now, w, n - 1), Seen(shop, t, now, w, n - 1);
    forall r ensures r in before + [last] <==> r in before || r == last {}
  }

  /**
    What the planner is given: the service's own times and flags, the policy, and every resource linked
    to the service, once each, with the schedule, capacity and activity of its row.
  */
  lemma ContextMeaning(shop: Shop, t: Tables, service: nat, now: int, w: Window)
    ensures ContextIn(shop, t, service, now, w).Some? <==> service < |shop.services|
    ensures service < |shop.services| ==>
              var ctx, s := ContextIn(shop, t, service, now, w).value, shop.services[service];
              && ctx.duration == s.duration && ctx.buffer == s.buffer
              && ctx.active == s.active && ctx.bookable == s.bookable && ctx.policy == shop.policy
              && (forall i, j :: 0 <= i < j < |ctx.resources| ==> ctx.resources[i].id < ctx.resources[j].id)
              && (forall id: nat :: (exists r :: r in ctx.resources && r.id == id) <==>
                    id < |shop.resources| && service in shop.resources[id].services)
              && (forall r :: r in ctx.resources ==>
                    && r.id < |shop.resources|
                    && r.schedule == shop.resources[r.id].schedule && r.capacity == shop.resources[r.id].capacity
                    && r.active == shop.resources[r.id].active)
  {
    hide LinkedResources, BusyRows, SortBy;
    LinkedMeaning(shop, t, service, now, w, |shop.resources|);
  }

  // --- What the busy lists add up to ------------------------------------------------------

  /** A booking in force and in the window takes `r` at some time in `[start, end)`, cleanup included. */
  ghost predicate BookingMeets(shop: Shop, b: BookingRow, r: nat, w: Window, start: int, end: int) {
    && b.resource == r && b.status in {Confirmed, ReschedulePending}
    && b.service < |shop.services| && w.Keeps(b.startAt, b.endAt)
    && b.startAt < end && start < b.endAt + shop.services[b.service].buffer
  }

  /** A hold in the window and live at `now` claims `r` at some time in `[start, end)`. */
  ghost predicate HoldMeets(h: HoldRow, r: nat, now: int, w: Window, start: int, end: int) {
    && h.resource == r && h.status == HoldActive && now < h.expiresAt && w.Keeps(h.startAt, h.endAt)
    && h.startAt < end && start < h.endAt
  }

  ghost function BookingsMeeting(shop: Shop, bookings: seq<BookingRow>, r: nat, w: Window, start: int, end: int)
    : set<nat>
  {
    set b: nat | b < |bookings| && BookingMeets(shop, bookings[b], r, w, start, end)
  }

  ghost function HoldsMeeting(holds: seq<HoldRow>, r: nat, now: int, w: Window, start: int, end: int): set<nat> {
    set h: nat | h < |holds| && HoldMeets(holds[h], r, now, w, start, end)
  }

  /** An active unavailability in the window withdraws `r` at some time in `[start, end)`. */
  ghost predicate Withdrawn(rows: seq<Unavailability>, r: nat, w: Window, start: int, end: int) {
    exists u :: 0 <= u < |rows| && rows[u].resource == r && rows[u].active
                && w.Keeps(rows[u].startAt, rows[u].endAt) && rows[u].startAt < end && start < rows[u].endAt
  }

  lemma BookingCounted(shop: Shop, bookings: seq<BookingRow>, r: nat, w: Window, start: int, end: int)
    requires bookings != []
    ensures var n := |bookings| - 1;
            Used(BookingBusy(shop, bookings, r, w), start, end) ==
            Used(BookingBusy(shop, bookings[..n], r, w), start, end)
            + if BookingMeets(shop, bookings[n], r, w, start, end) then 1 else 0
  {
    var init, b := bookings[..|bookings| - 1], bookings[|bookings| - 1];
    var busy := Busy(b.startAt, b.endAt + BufferOf(shop, b.service), 1);
    UsedOne(busy, start, end);
    UsedConcat(BookingBusy(shop, init, r, w), [busy], start, end);
    UsedConcat(BookingBusy(shop, init, r, w), [], start, end);
  }

  lemma OneMoreBooking(shop: Shop, bookings: seq<BookingRow>, r: nat, w: Window, start: int, end: int)
    requires bookings != []
    ensures var n := |bookings| - 1;
            |BookingsMeeting(shop, bookings, r, w, start, end)| ==
            |BookingsMeeting(shop, bookings[..n], r, w, start, end)|
            + if BookingMeets(shop, bookings[n], r, w, start, end) then 1 else 0
  {
    hide BookingMeets;
    var n := |bookings| - 1;
    var added: set<nat> := if BookingMeets(shop, bookings[n], r, w, start, end) then {n} else {};
    assert BookingsMeeting(shop, bookings, r, w, start, end) ==
           BookingsMeeting(shop, bookings[..n], r, w, start, end) + added;
  }

  lemma {:induction false} BookingsCounted(shop: Shop, bookings: seq<BookingRow>, r: nat, w: Window, start: int,
                                           end: int)
    ensures Used(BookingBusy(shop, bookings, r, w), start, end) ==
            |BookingsMeeting(shop, bookings, r, w, start, end)|
  {
    if bookings == [] {
      assert BookingsMeeting(shop, bookings, r, w, start, end) == {};
    } else {
      hide BookingMeets, BookingBusy, Used;
      var n := |bookings| - 1;
      BookingsCounted(shop, bookings[..n], r, w, start, end);
      BookingCounted(shop, bookings, r, w, start, end);
      hide BookingsMeeting;
      OneMoreBooking(shop, bookings, r, w, start, end);
    }
  }

  lemma HoldCounted(holds: seq<HoldRow>, r: nat, now: int, w: Window, start: int, end: int)
    requires holds != []
    ensures var n := |holds| - 1;
            Used(HoldBusy(holds, r, now, w), start, end) ==
            Used(HoldBusy(holds[..n], r, now, w), start, end)
            + if HoldMeets(holds[n], r, now, w, start, end) then 1 else 0
  {
    var init, h := holds[..|holds| - 1], holds[|holds| - 1];
    var busy := Busy(h.startAt, h.endAt, 1);
    UsedOne(busy, start, end);
    UsedConcat(HoldBusy(init, r, now, w), [busy], start, end);
    UsedConcat(HoldBusy(init, r, now, w), [], start, end);
  }

  lemma OneMoreHold(holds: seq<HoldRow>, r: nat, now: int, w: Window, start: int, end: int)
    requires holds != []
    ensures var n := |holds| - 1;
            |HoldsMeeting(holds, r, now, w, start, end)| ==
            |HoldsMeeting(holds[..n], r, now, w, start, end)|
            + if HoldMeets(holds[n], r, now, w, start, end) then 1 else 0
  {
    hide HoldMeets;
    var n := |holds| - 1;
    var added: set<nat> := if HoldMeets(holds[n], r, now, w, start, end) then {n} else {};
    assert HoldsMeeting(holds, r, now, w, start, end) == HoldsMeeting(holds[..n], r, now, w, start, end) + added;
  }

  lemma {:induction false} HoldsCounted(holds: seq<HoldRow>, r: nat, now: int, w: Window, start: int, end: int)
    ensures Used(HoldBusy(holds, r, now, w), start, end) == |HoldsMeeting(holds, r, now, w, start, end)|
  {
    if holds == [] {
      assert HoldsMeeting(holds, r, now, w, start, end) == {};
    } else {
      hide HoldMeets, HoldBusy, Used;
      var n := |holds| - 1;
      HoldsCounted(holds[..n], r, now, w, start, end);
      HoldCounted(holds, r, now, w, start, end);
      hide HoldsMeeting;
      OneMoreHold(holds, r, now, w, start, end);
    }
  }

  /** One unavailability that meets the stretch fills the resource; without one nothing is taken. */
  lemma {:induction false} WithdrawnCounted(shop: Shop, rows: seq<Unavailability>, r: nat, w: Window, start: int,
                                            end: int)
    requires r < |shop.resources|
    ensures var used := Used(UnavailableBusy(shop, rows, r, w), start, end);
            if Withdrawn(rows, r, w, start, end) then shop.resources[r].capacity <= used else used == 0
  {
    if rows != [] {
      var n := |rows| - 1;
      var init, u := rows[..n], rows[n];
      WithdrawnCounted(shop, init, r, w, start, end);
      var busy := Busy(u.startAt, u.endAt, shop.resources[r].capacity);
      UsedOne(busy, start, end);
      UsedConcat(UnavailableBusy(shop, init, r, w), [busy], start, end);
      UsedConcat(UnavailableBusy(shop, init, r, w), [], start, end);
      WithdrawnLast(rows, r, w, start, end);
    }
  }

  lemma WithdrawnLast(rows: seq<Unavailability>, r: nat, w: Window, start: int, end: int)
    requires rows != []
    ensures var u := rows[|rows| - 1];
            Withdrawn(rows, r, w, start, end) <==>
            Withdrawn(rows[..|rows| - 1], r, w, start, end)
            || (u.resource == r && u.active && w.Keeps(u.startAt, u.endAt) && u.startAt < end && start < u.endAt)
  {
    var init := rows[..|rows| - 1];
    assert forall i :: 0 <= i < |init| ==> rows[i] == init[i];
    if Withdrawn(init, r, w, start, end) {
      var i :| 0 <= i < |init| && init[i].resource == r && init[i].active
               && w.Keeps(init[i].startAt, init[i].endAt) && init[i].startAt < end && start < init[i].endAt;
      assert rows[i] == init[i];
    }
  }

  /** Fewer than the capacity of bookings and live holds meet the stretch, and nothing withdraws the resource. */
  ghost predicate Spare(shop: Shop, t: Tables, r: nat, now: int, w: Window, start: int, end: int)
    requires r < |shop.resources|
  {
    && !Withdrawn(shop.unavailable, r, w, start, end)
    && |BookingsMeeting(shop, t.bookings, r, w, start, end)| + |HoldsMeeting(t.holds, r, now, w, start, end)|
       < shop.resources[r].capacity
  }

  lemma SpareMeaning(shop: Shop, t: Tables, r: nat, now: int, w: Window, start: int, end: int)
    requires r < |shop.resources|
    ensures Used(Seen(shop, t, now, w, r).busy, start, end) < shop.resources[r].capacity <==>
            Spare(shop, t, r, now, w, start, end)
  {
    hide Used, BookingBusy, HoldBusy, UnavailableBusy, Withdrawn, BookingsMeeting, HoldsMeeting, SortBy;
    UsedOfRows(shop, t, r, now, w, start, end);
    BookingsCounted(shop, t.bookings, r, w, start, end);
    HoldsCounted(t.holds, r, now, w, start, end);
    WithdrawnCounted(shop, shop.unavailable, r, w, start, end);
  }

  // --- The plan over rows -----------------------------------------------------------------

  predicate OnGrid(time: int, interval: int)
    requires 0 < interval
  {
    time % interval == 0
  }

  /** Resource `r` takes an appointment for the service at `start` on `date`, by the rows in the window. */
  ghost predicate Offers(shop: Shop, t: Tables, service: nat, r: nat, date: int, now: int, w: Window, start: int)
    requires service < |shop.services| && r < |shop.resources|
  {
    var row, s := shop.resources[r], shop.services[service];
    var time := start + row.schedule.offset - date * DAY;
    && service in row.services && row.active && row.schedule.active
    && now + shop.policy.minimumNotice <= start <= now + shop.policy.horizonDays * DAY
    && OnGrid(time, shop.policy.slotInterval)
    && FitsHours(row.schedule, date, time, s.duration + s.buffer)
    && Spare(shop, t, r, now, w, start, start + s.duration + s.buffer)
  }

  lemma FitsSpanHolds(spans: seq<Span>, time: int, occupied: int)
    ensures FitsSpan(spans, time, occupied) <==> Holds(spans, time, time + occupied)
  {
    if Holds(spans, time, time + occupied) {
      var p :| p in spans && p.start <= time && time + occupied <= p.end;
      var i :| 0 <= i < |spans| && spans[i] == p;
    }
  }

  lemma FitsMeansHours(s: BusinessSchedule, date: int, time: int, occupied: int)
    requires 0 < occupied
    ensures EffectiveDay(s, date).Ok? && FitsSpan(EffectiveDay(s, date).value, time, occupied) <==>
            FitsHours(s, date, time, occupied)
  {
    hide FitsHours, EffectiveDay, FitsSpan, Holds;
    FitsMeaning(s, date, time, occupied);
    if EffectiveDay(s, date).Ok? {
      FitsSpanHolds(EffectiveDay(s, date).value, time, occupied);
    }
  }

  lemma LocalTimeMeaning(s: BusinessSchedule, date: int, t: int)
    ensures LocalTime(s, date, t) == t + s.offset - date * DAY
  {
  }

  lemma EligibleParts(ctx: Context, date: int, now: int, r: AvailableResource, start: int)
    ensures var time := LocalTime(r.schedule, date, start);
            Eligible(ctx, date, now, r, start) <==>
            && r.active && r.schedule.active
            && now + ctx.policy.minimumNotice <= start <= now + ctx.policy.horizonDays * DAY
            && OnGrid(time, ctx.policy.slotInterval)
            && EffectiveDay(r.schedule, date).Ok?
            && FitsSpan(EffectiveDay(r.schedule, date).value, time, ctx.Occupied())
            && Used(r.busy, start, start + ctx.Occupied()) < r.capacity
  {
    hide EffectiveDay, FitsSpan, Used, LocalTime;
  }

  lemma EligibleMeaning(ctx: Context, date: int, now: int, r: AvailableResource, start: int)
    requires 0 < ctx.Occupied()
    ensures var time := start + r.schedule.offset - date * DAY;
            Eligible(ctx, date, now, r, start) <==>
            && r.active && r.schedule.active
            && now + ctx.policy.minimumNotice <= start <= now + ctx.policy.horizonDays * DAY
            && OnGrid(time, ctx.policy.slotInterval)
            && FitsHours(r.schedule, date, time, ctx.Occupied())
            && Used(r.busy, start, start + ctx.Occupied()) < r.capacity
  {
    hide Eligible, FitsHours, EffectiveDay, FitsSpan, Used, LocalTime, OnGrid;
    EligibleParts(ctx, date, now, r, start);
    LocalTimeMeaning(r.schedule, date, start);
    FitsMeansHours(r.schedule, date, LocalTime(r.schedule, date, start), ctx.Occupied());
  }

  lemma SeenRow(shop: Shop, t: Tables, now: int, w: Window, r: nat)
    requires r < |shop.resources|
    ensures var seen, row := Seen(shop, t, now, w, r), shop.resources[r];
            seen.active == row.active && seen.schedule == row.schedule && seen.capacity == row.capacity
  {
    hide BusyRows, SortBy;
  }

  lemma ContextTimes(shop: Shop, t: Tables, service: nat, now: int, w: Window)
    requires service < |shop.services|
    ensures var ctx, s := ContextIn(shop, t, service, now, w), shop.services[service];
            ctx.Some? && ctx.value.policy == shop.policy && ctx.value.Occupied() == s.duration + s.buffer
  {
    hide LinkedResources;
  }

  lemma OffersMeaning(shop: Shop, t: Tables, service: nat, r: nat, date: int, now: int, w: Window, start: int)
    requires service < |shop.services| && r < |shop.resources| && service in shop.resources[r].services
    ensures ContextIn(shop, t, service, now, w).Some?
    ensures Eligible(ContextIn(shop, t, service, now, w).value, date, now, Seen(shop, t, now, w, r), start) <==>
            Offers(shop, t, service, r, date, now, w, start)
  {
    hide Eligible, FitsHours, Spare, Used, Seen, ContextIn, OnGrid;
    ContextTimes(shop, t, service, now, w);
    SeenRow(shop, t, now, w, r);
    var occupied := shop.services[service].duration + shop.services[service].buffer;
    EligibleMeaning(ContextIn(shop, t, service, now, w).value, date, now, Seen(shop, t, now, w, r), start);
    SpareMeaning(shop, t, r, now, w, start, start + occupied);
  }

  /** The reference plan of a context for the rows in a window, resource by resource. */
  ghost function PlanIn(shop: Shop, t: Tables, service: nat, date: int, now: int, w: Window)
    : Result<seq<Slot>, ScheduleError>
    requires service < |shop.services|
  {
    AvailableSlots(ContextIn(shop, t, service, now, w).value, date, now)
  }

  /** An active linked resource with an active schedule has no usable hours on the date. */
  ghost predicate Broken(shop: Shop, service: nat, date: int) {
    exists r :: 0 <= r < |shop.resources| && service in shop.resources[r].services && shop.resources[r].active
                && shop.resources[r].schedule.active && !Usable(shop.resources[r].schedule, date)
  }

  /** Some resource below `bound` offers the start. */
  ghost predicate SmallerOffers(shop: Shop, t: Tables, service: nat, bound: nat, date: int, now: int, w: Window,
                                start: int)
    requires service < |shop.services|
  {
    exists r: nat :: r < bound && r < |shop.resources| && Offers(shop, t, service, r, date, now, w, start)
  }

  /** The slot is on the smallest resource that offers its start, and ends with the appointment. */
  ghost predicate SlotOverRows(shop: Shop, t: Tables, service: nat, date: int, now: int, w: Window, slot: Slot)
    requires service < |shop.services|
  {
    && slot.endAt == slot.startAt + shop.services[service].duration
    && slot.resourceId < |shop.resources|
    && Offers(shop, t, service, slot.resourceId, date, now, w, slot.startAt)
    && !SmallerOffers(shop, t, service, slot.resourceId, date, now, w, slot.startAt)
  }

  /** The resource with this identifier can take the start. */
  ghost predicate EligibleOn(ctx: Context, date: int, now: int, id: nat, start: int) {
    exists q :: q in ctx.resources && q.id == id && Eligible(ctx, date, now, q, start)
  }

  lemma SlotById(ctx: Context, date: int, now: int, slot: Slot)
    ensures IsSlot(ctx, date, now, slot) <==>
            && slot.endAt == slot.startAt + ctx.duration
            && EligibleOn(ctx, date, now, slot.resourceId, slot.startAt)
            && forall id: nat :: id < slot.resourceId ==> !EligibleOn(ctx, date, now, id, slot.startAt)
  {
    hide Eligible;
    if !IsSlot(ctx, date, now, slot) && slot.endAt == slot.startAt + ctx.duration
       && EligibleOn(ctx, date, now, slot.resourceId, slot.startAt) {
      var r :| r in ctx.resources && Eligible(ctx, date, now, r, slot.startAt) && r.id < slot.resourceId;
      assert EligibleOn(ctx, date, now, r.id, slot.startAt);
    }
  }

  lemma LinkedOffers(shop: Shop, t: Tables, service: nat, r: nat, date: int, now: int, w: Window, start: int)
    requires service < |shop.services|
    ensures ContextIn(shop, t, service, now, w).Some?
    ensures EligibleOn(ContextIn(shop, t, service, now, w).value, date, now, r, start) <==>
            r < |shop.resources| && Offers(shop, t, service, r, date, now, w, start)
  {
    var ctx := ContextIn(shop, t, service, now, w).value;
    LinkedMeaning(shop, t, service, now, w, |shop.resources|);
    if r < |shop.resources| {
      if service in shop.resources[r].services {
        OffersMeaning(shop, t, service, r, date, now, w, start);
      }
    }
    hide LinkedResources, Eligible, FitsHours, Spare, OnGrid, BusyRows, SortBy, Seen;
  }

  lemma SlotMeaning(shop: Shop, t: Tables, service: nat, date: int, now: int, w: Window, slot: Slot)
    requires service < |shop.services|
    ensures ContextIn(shop, t, service, now, w).Some?
    ensures IsSlot(ContextIn(shop, t, service, now, w).value, date, now, slot) <==>
            SlotOverRows(shop, t, service, date, now, w, slot)
  {
    ContextMeaning(shop, t, service, now, w);
    var ctx := ContextIn(shop, t, service, now, w).value;
    SlotById(ctx, date, now, slot);
    hide IsSlot, EligibleOn, Offers, ContextIn;
    forall r: nat
      ensures EligibleOn(ctx, date, now, r, slot.startAt) <==>
              r < |shop.resources| && Offers(shop, t, service, r, date, now, w, slot.startAt)
    {
      LinkedOffers(shop, t, service, r, date, now, w, slot.startAt);
    }
  }

  lemma UnusableSeen(shop: Shop, t: Tables, now: int, w: Window, r: nat, date: int)
    requires r < |shop.resources|
    ensures Unusable(Seen(shop, t, now, w, r), date) <==>
            shop.resources[r].active && shop.resources[r].schedule.active && !Usable(shop.resources[r].schedule, date)
  {
    hide EffectiveDay, BusyRows, SortBy;
  }

  lemma BrokenMeaning(shop: Shop, t: Tables, service: nat, date: int, now: int, w: Window)
    requires service < |shop.services|
    ensures Broken(shop, service, date) <==>
            exists r :: r in ContextIn(shop, t, service, now, w).value.resources && Unusable(r, date)
  {
    LinkedMeaning(shop, t, service, now, w, |shop.resources|);
    hide LinkedResources, Seen, Usable, Unusable;
    var resources := ContextIn(shop, t, service, now, w).value.resources;
    if Broken(shop, service, date) {
      var id: nat :| id < |shop.resources| && service in shop.resources[id].services && shop.resources[id].active
                     && shop.resources[id].schedule.active && !Usable(shop.resources[id].schedule, date);
      UnusableSeen(shop, t, now, w, id, date);
      var r :| r in resources && r.id == id;
      assert Unusable(r, date);
    }
    if r :| r in resources && Unusable(r, date) {
      UnusableSeen(shop, t, now, w, r.id, date);
      assert service in shop.resources[r.id].services;
    }
  }

  /**
    The plan over rows, for every window: it fails exactly when a service on sale has an active
    resource without usable hours, and otherwise holds, in strictly increasing order of start, exactly
    the slots of the smallest resources that offer each start.
  */
  lemma PlanOverRows(shop: Shop, t: Tables, service: nat, date: int, now: int, w: Window)
    requires service < |shop.services|
    ensures var s, plan := shop.services[service], PlanIn(shop, t, service, date, now, w);
            && (plan.Err? <==> s.active && s.bookable && Broken(shop, service, date))
            && (plan.Ok? ==>
                  && StrictlySorted(plan.value, StartOf())
                  && forall slot :: slot in plan.value <==>
                       s.active && s.bookable && SlotOverRows(shop, t, service, date, now, w, slot))
  {
    var ctx := ContextIn(shop, t, service, now, w).value;
    AvailabilityMeaning(ctx, date, now);
    BrokenMeaning(shop, t, service, date, now, w);
    hide AvailableSlots, IsSlot, SlotOverRows, Broken, Unusable, LinkedResources;
    forall slot ensures IsSlot(ctx, date, now, slot) <==> SlotOverRows(shop, t, service, date, now, w, slot) {
      SlotMeaning(shop, t, service, date, now, w, slot);
    }
  }

  /** Of the resources that offer a start, one is the smallest. */
  lemma {:induction false} SmallestOffer(shop: Shop, t: Tables, service: nat, r: nat, date: int, now: int, w: Window,
                                         start: int) returns (first: nat)
    requires service < |shop.services| && r < |shop.resources| && Offers(shop, t, service, r, date, now, w, start)
    ensures first <= r && Offers(shop, t, service, first, date, now, w, start)
    ensures !SmallerOffers(shop, t, service, first, date, now, w, start)
    decreases r
  {
    hide Offers;
    if SmallerOffers(shop, t, service, r, date, now, w, start) {
      var q: nat :| q < r && Offers(shop, t, service, q, date, now, w, start);
      first := SmallestOffer(shop, t, service, q, date, now, w, start);
    } else {
      first := r;
    }
  }

  /**
    What a customer is offered, from all rows: with a notice that covers the bookings in force, a start
    is in the plan exactly when some linked, active resource has it on its grid and in its hours, within
    notice and horizon, with capacity left by live bookings, live holds and active unavailability.
  */
  lemma OfferedIff(shop: Shop, t: Tables, service: nat, date: int, now: int, start: int)
    requires service < |shop.services| && NoticeCoversRows(shop, t.bookings)
    requires AvailableSlots(AvailabilityContext(shop, t, service, now).value, date, now).Ok?
    ensures (exists slot :: slot in AvailableSlots(AvailabilityContext(shop, t, service, now).value, date, now).value
                            && slot.startAt == start) <==>
            && shop.services[service].active && shop.services[service].bookable
            && exists r: nat :: r < |shop.resources| && Offers(shop, t, service, r, date, now, Everything, start)
  {
    hide AvailableSlots, Offers, AvailabilityContext, ContextIn, Broken;
    WindowComplete(shop, t, service, date, now);
    PlanOverRows(shop, t, service, date, now, Everything);
    var plan := PlanIn(shop, t, service, date, now, Everything).value;
    if shop.services[service].active && shop.services[service].bookable {
      if r: nat :| r < |shop.resources| && Offers(shop, t, service, r, date, now, Everything, start) {
        var first := SmallestOffer(shop, t, service, r, date, now, Everything, start);
        var slot := Slot(start, start + shop.services[service].duration, first);
        assert SlotOverRows(shop, t, service, date, now, Everything, slot);
        assert slot in plan;
      }
    }
  }
}
