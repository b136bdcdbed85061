/** Placing a hold: what the planner admits leaves room at every instant it claims. */
module BookingCapacity {
  import opened Basics
  import opened BusinessTime
  import opened Availability
  import opened BookingTables
  import opened BookingSteps
  import opened BookingWindow
  import opened BookingInvariant

  // The busy periods that overlap a range are at least the use at each of its instants.

  lemma BookingsBound(shop: Shop, bookings: seq<BookingRow>, r: nat, start: int, end: int, x: int)
    requires start <= x < end && forall b :: 0 <= b < |bookings| ==> BookingSized(shop, bookings[b])
    ensures BookingsAt(shop, bookings, r, x) <= Used(BookingBusy(shop, bookings, r, Everything), start, end)
  {
    if bookings != [] {
      var init, b := bookings[..|bookings| - 1], bookings[|bookings| - 1];
      BookingsBound(shop, init, r, start, end, x);
      var busy := Busy(b.startAt, b.endAt + BufferOf(shop, b.service), 1);
      UsedOne(busy, start, end);
      UsedConcat(BookingBusy(shop, init, r, Everything), [busy], start, end);
      UsedConcat(BookingBusy(shop, init, r, Everything), [], start, end);
    }
  }

  lemma HoldsBound(holds: seq<HoldRow>, r: nat, now: int, start: int, end: int, x: int)
    requires start <= x < end
    ensures HoldsAt(holds, r, x, now) <= Used(HoldBusy(holds, r, now, Everything), start, end)
  {
    if holds != [] {
      var init, h := holds[..|holds| - 1], holds[|holds| - 1];
      HoldsBound(init, r, now, start, end, x);
      var busy := Busy(h.startAt, h.endAt, 1);
      UsedOne(busy, start, end);
      UsedConcat(HoldBusy(init, r, now, Everything), [busy], start, end);
      UsedConcat(HoldBusy(init, r, now, Everything), [], start, end);
    }
  }

  lemma UnavailableBound(shop: Shop, rows: seq<Unavailability>, r: nat, start: int, end: int, u: nat)
    requires r < |shop.resources| && u < |rows|
    requires rows[u].resource == r && rows[u].active && Overlaps(rows[u].startAt, rows[u].endAt, start, end)
    ensures shop.resources[r].capacity <= Used(UnavailableBusy(shop, rows, r, Everything), start, end)
  {
    var init, last := rows[..|rows| - 1], rows[|rows| - 1];
    var busy := Busy(last.startAt, last.endAt, shop.resources[r].capacity);
    UsedOne(busy, start, end);
    UsedConcat(UnavailableBusy(shop, init, r, Everything), [busy], start, end);
    UsedConcat(UnavailableBusy(shop, init, r, Everything), [], start, end);
    if u < |init| {
      UnavailableBound(shop, init, r, start, end, u);
    }
  }

  /** There is room on `r` for one more claim of `[start, end)`, and `r` is not withdrawn then. */
  ghost predicate Room(shop: Shop, t: Tables, r: nat, start: int, end: int, now: int)
    requires r < |shop.resources|
  {
    && (forall x :: start <= x < end ==> Usage(shop, t, r, x, now) < shop.resources[r].capacity)
    && (forall u :: 0 <= u < |shop.unavailable| ==>
          !(shop.unavailable[u].resource == r && shop.unavailable[u].active &&
            Overlaps(shop.unavailable[u].startAt, shop.unavailable[u].endAt, start, end)))
  }

  lemma CapacityIsRoom(shop: Shop, t: Tables, r: nat, start: int, end: int, now: int)
    requires r < |shop.resources| && NoticeCoversRows(shop, t.bookings) && InReach(shop, now, start, end)
             && Sized(shop, t)
    requires HasCapacity(Seen(shop, t, now, QueryWindow(shop, now), r), start, end)
    ensures Room(shop, t, r, start, end, now)
  {
    hide BusyRows, SortBy, Used;
    UsedInWindow(shop, t, r, now, start, end);
    UsedOfRows(shop, t, r, now, Everything, start, end);
    forall x | start <= x < end ensures Usage(shop, t, r, x, now) < shop.resources[r].capacity {
      BookingsBound(shop, t.bookings, r, start, end, x);
      HoldsBound(t.holds, r, now, start, end, x);
    }
    forall u | 0 <= u < |shop.unavailable|
      ensures !(shop.unavailable[u].resource == r && shop.unavailable[u].active &&
                Overlaps(shop.unavailable[u].startAt, shop.unavailable[u].endAt, start, end))
    {
      if shop.unavailable[u].resource == r && shop.unavailable[u].active &&
         Overlaps(shop.unavailable[u].startAt, shop.unavailable[u].endAt, start, end)
      {
        UnavailableBound(shop, shop.unavailable, r, start, end, u);
      }
    }
  }

  lemma EligibleHasCapacity(ctx: Context, date: int, now: int, r: AvailableResource, start: int)
    requires Eligible(ctx, date, now, r, start)
    ensures HasCapacity(r, start, start + ctx.Occupied())
  {
    hide EffectiveDay, FitsSpan, HasCapacity;
  }

  /** A slot of the plan has room for its whole occupied time. */
  lemma SlotHasRoom(shop: Shop, t: Tables, service: nat, date: int, now: int, slot: Slot)
    requires service < |shop.services| && NoticeCoversRows(shop, t.bookings) && Sized(shop, t)
    requires var ctx := AvailabilityContext(shop, t, service, now).value; IsSlot(ctx, date, now, slot)
    ensures slot.resourceId < |shop.resources|
    ensures slot.endAt == slot.startAt + shop.services[service].duration
    ensures Room(shop, t, slot.resourceId, slot.startAt, slot.endAt + shop.services[service].buffer, now)
  {
    hide EffectiveDay, Eligible, HasCapacity, BusyRows, SortBy, LinkedResources, Room, Sized;
    var ctx := AvailabilityContext(shop, t, service, now).value;
    var r :| r in ctx.resources && r.id == slot.resourceId && Eligible(ctx, date, now, r, slot.startAt);
    LinkedAreSeen(shop, t, service, now, QueryWindow(shop, now), |shop.resources|);
    EligibleInReach(shop, ctx, date, now, r, slot.startAt);
    EligibleHasCapacity(ctx, date, now, r, slot.startAt);
    CapacityIsRoom(shop, t, r.id, slot.startAt, slot.startAt + ctx.Occupied(), now);
  }

  lemma PlaceHoldKeeps(shop: Shop, t: Tables, draft: nat, slot: Slot, key: string, now: int)
    requires Inv(shop, t, now) && draft < |t.drafts|
    requires t.drafts[draft].status == DraftActive && t.drafts[draft].hold == None
    requires slot.resourceId < |shop.resources| && t.drafts[draft].service < |shop.services|
    requires slot.endAt == slot.startAt + shop.services[t.drafts[draft].service].duration
    requires Room(shop, t, slot.resourceId, slot.startAt,
                  slot.endAt + shop.services[t.drafts[draft].service].buffer, now)
    ensures Inv(shop, PlaceHold(shop, t, draft, slot, key, now), now)
  {
    var t' := PlaceHold(shop, t, draft, slot, key, now);
    HoldFacts(t);
    forall h | 0 <= h < |t'.holds| ensures HoldPoints(t', h) {
      if h < |t.holds| {
        assert t'.holds[h] == t.holds[h] && HoldPoints(t, h);
      }
    }
    PlaceHoldCapacity(shop, t, draft, slot, key, now);
    forall b | 0 <= b < |t'.bookings| ensures Recorded(t', b) {
      assert Recorded(t, b);
    }
    forall i | 0 <= i < |t'.outbox| ensures Happened(t', t'.outbox[i].key) {
      assert Happened(t, t.outbox[i].key);
    }
  }

  lemma PlaceHoldCapacity(shop: Shop, t: Tables, draft: nat, slot: Slot, key: string, now: int)
    requires WithinCapacity(shop, t, now) && draft < |t.drafts|
    requires slot.resourceId < |shop.resources| && t.drafts[draft].service < |shop.services|
    requires Room(shop, t, slot.resourceId, slot.startAt,
                  slot.endAt + shop.services[t.drafts[draft].service].buffer, now)
    ensures WithinCapacity(shop, PlaceHold(shop, t, draft, slot, key, now), now)
  {
    var t' := PlaceHold(shop, t, draft, slot, key, now);
    forall r, x | 0 <= r < |shop.resources| ensures Usage(shop, t', r, x, now) <= shop.resources[r].capacity {
      assert t'.holds[..|t'.holds| - 1] == t.holds;
      assert Usage(shop, t, r, x, now) <= shop.resources[r].capacity;
    }
  }

  /** What a successful hold request adds, and that it fits. */
  ghost predicate HoldPlaced(shop: Shop, t: Tables, draft: nat, key: string, now: int, t': Tables) {
    && draft < |t.drafts| && t.drafts[draft].service < |shop.services|
    && |t'.holds| == |t.holds| + 1
    && var h := t'.holds[|t.holds|];
    && t'.drafts == t.drafts[draft := t.drafts[draft].(hold := Some(|t.holds|))]
    && h.draft == draft && h.key == key && h.status == HoldActive && h.expiresAt == now + shop.policy.holdDuration
    && h.service == t.drafts[draft].service && h.customer == t.drafts[draft].customer
    && h.resource < |shop.resources|
    && Room(shop, LetGo(t, draft), h.resource, h.startAt, h.endAt, now)
  }

  /**
    A new hold replaces the draft's old one, is admitted only where there is room once that one is
    gone, and never overlaps an active unavailability of its resource.
  */
  lemma NewHoldKeeps(shop: Shop, t: Tables, draft: nat, index: nat, key: string, before: int, now: int)
    requires Inv(shop, t, before) && before <= now && NoticeCoversRows(shop, t.bookings)
    requires draft < |t.drafts| && t.drafts[draft].date.Some? && t.drafts[draft].status == DraftActive
    ensures var o := NewHold(shop, t, draft, index, key, now);
            && Inv(shop, o.tables, now)
            && (o.reply.Ok? ==> o.reply.value == |t.holds| && HoldPlaced(shop, t, draft, key, now, o.tables))
  {
    hide LinkedResources, AvailableSlots, WithinCapacity, Linked, Sized, HistoryKept, EventsKept, Room;
    LetGoKeeps(shop, t, draft, before, now);
    Later(shop, t, before, now);
    var row := t.drafts[draft];
    var freed := LetGo(t, draft);
    var o := NewHold(shop, t, draft, index, key, now);
    if o.reply.Ok? {
      var ctx := AvailabilityContext(shop, freed, row.service, now).value;
      var shown := AvailabilityContext(shop, t, row.service, now).value;
      var selected := AvailableSlots(shown, row.date.value, now).value[index];
      var slot := FindSlot(AvailableSlots(ctx, row.date.value, now).value, selected.startAt, selected.resourceId).value;
      PlannedHasRoom(shop, freed, row.service, row.date.value, now, slot);
      PlaceHoldKeeps(shop, freed, draft, slot, key, now);
    }
  }

  lemma PlannedHasRoom(shop: Shop, t: Tables, service: nat, date: int, now: int, slot: Slot)
    requires Sized(shop, t) && NoticeCoversRows(shop, t.bookings)
    requires AvailabilityContext(shop, t, service, now).Some?
    requires var plan := AvailableSlots(AvailabilityContext(shop, t, service, now).value, date, now);
             plan.Ok? && slot in plan.value
    ensures service < |shop.services| && slot.resourceId < |shop.resources|
    ensures slot.endAt == slot.startAt + shop.services[service].duration
    ensures Room(shop, t, slot.resourceId, slot.startAt, slot.endAt + shop.services[service].buffer, now)
  {
    hide LinkedResources, AvailableSlots, IsSlot, Sized, Room;
    AvailabilityMeaning(AvailabilityContext(shop, t, service, now).value, date, now);
    SlotHasRoom(shop, t, service, date, now, slot);
  }

  lemma Later(shop: Shop, t: Tables, before: int, now: int)
    requires Inv(shop, t, before) && before <= now
    ensures Inv(shop, t, now)
  {
    HoldFacts(t);
    EditKeeps(shop, t, t, before, now);
  }

  lemma CreateHoldKeeps(shop: Shop, t: Tables, customer: int, draft: nat, index: int, key: string, before: int,
                        now: int)
    requires Inv(shop, t, before) && before <= now && NoticeCoversRows(shop, t.bookings)
    ensures Inv(shop, CreateHold(shop, t, customer, draft, index, key, now).tables, now)
  {
    hide Inv, NewHold;
    Later(shop, t, before, now);
    if 0 <= index && draft < |t.drafts| && t.drafts[draft].status == DraftActive && t.drafts[draft].date.Some? {
      NewHoldKeeps(shop, t, draft, index, key, before, now);
    }
  }
}
