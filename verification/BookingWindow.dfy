/**
  The availability query reads only rows in a time window. When the minimum notice covers every
  cleanup buffer, the rows it drops cannot matter: the plan is the one computed from all rows.
*/
module BookingWindow {
  import opened Basics
  import opened Schedule
  import opened BusinessTime
  import opened Availability
  import opened BookingTables

  /** The minimum notice is at least every service's cleanup buffer. */
  ghost predicate NoticeCoversBuffers(shop: Shop) {
    forall s :: 0 <= s < |shop.services| ==> shop.services[s].buffer <= shop.policy.minimumNotice
  }

  /** The minimum notice is at least the buffer of every booking that occupies its resource. */
  ghost predicate NoticeCoversRows(shop: Shop, bookings: seq<BookingRow>) {
    forall b :: 0 <= b < |bookings| && Occupies(bookings[b]) ==>
      BufferOf(shop, bookings[b].service) <= shop.policy.minimumNotice
  }

  lemma AllRowsCovered(shop: Shop, bookings: seq<BookingRow>)
    requires NoticeCoversBuffers(shop)
    ensures NoticeCoversRows(shop, bookings)
  {
  }

  lemma UsedConcat(a: seq<Busy>, b: seq<Busy>, start: int, end: int)
    ensures Used(a + b, start, end) == Used(a, start, end) + Used(b, start, end)
  {
    if a == [] {
      assert a + b == b;
    } else {
      assert (a + b)[1..] == a[1..] + b;
      UsedConcat(a[1..], b, start, end);
    }
  }

  lemma UsedSort(a: seq<Busy>, start: int, end: int)
    ensures Used(SortBy(a, BusyStart()), start, end) == Used(a, start, end)
  {
    if a != [] {
      UsedSort(a[1..], start, end);
      UsedInsert(a[0], SortBy(a[1..], BusyStart()), start, end);
    }
  }

  lemma UsedInsert(b: Busy, s: seq<Busy>, start: int, end: int)
    requires Sorted(s, BusyStart())
    ensures Used(InsertBy(b, s, BusyStart()), start, end) ==
            Used(s, start, end) + if Overlaps(b.start, b.end, start, end) then b.used else 0
  {
    if s != [] && BusyStart()(s[0]) < BusyStart()(b) {
      UsedInsert(b, s[1..], start, end);
    } else {
      assert ([b] + s)[1..] == s;
    }
  }

  lemma UsedOne(b: Busy, start: int, end: int)
    ensures Used([b], start, end) == if Overlaps(b.start, b.end, start, end) then b.used else 0
    ensures Used([], start, end) == 0
  {
  }

  /** The window holds every row that could overlap `[start, end)`. */
  ghost predicate InReach(shop: Shop, now: int, start: int, end: int) {
    now + shop.policy.minimumNotice <= start && end <= now + (shop.policy.horizonDays + 1) * DAY
  }

  lemma BookingsInWindow(shop: Shop, bookings: seq<BookingRow>, r: nat, now: int, start: int, end: int)
    requires NoticeCoversRows(shop, bookings) && InReach(shop, now, start, end)
    ensures Used(BookingBusy(shop, bookings, r, QueryWindow(shop, now)), start, end) ==
            Used(BookingBusy(shop, bookings, r, Everything), start, end)
  {
    if bookings != [] {
      var init, b := bookings[..|bookings| - 1], bookings[|bookings| - 1];
      BookingsInWindow(shop, init, r, now, start, end);
      var busy := Busy(b.startAt, b.endAt + BufferOf(shop, b.service), 1);
      UsedOne(busy, start, end);
      UsedConcat(BookingBusy(shop, init, r, QueryWindow(shop, now)), [busy], start, end);
      UsedConcat(BookingBusy(shop, init, r, Everything), [busy], start, end);
      UsedConcat(BookingBusy(shop, init, r, QueryWindow(shop, now)), [], start, end);
      UsedConcat(BookingBusy(shop, init, r, Everything), [], start, end);
    }
  }

  lemma HoldsInWindow(shop: Shop, holds: seq<HoldRow>, r: nat, now: int, start: int, end: int)
    requires InReach(shop, now, start, end)
    ensures Used(HoldBusy(holds, r, now, QueryWindow(shop, now)), start, end) ==
            Used(HoldBusy(holds, r, now, Everything), start, end)
  {
    if holds != [] {
      var init, h := holds[..|holds| - 1], holds[|holds| - 1];
      HoldsInWindow(shop, init, r, now, start, end);
      var busy := Busy(h.startAt, h.endAt, 1);
      UsedOne(busy, start, end);
      UsedConcat(HoldBusy(init, r, now, QueryWindow(shop, now)), [busy], start, end);
      UsedConcat(HoldBusy(init, r, now, Everything), [busy], start, end);
      UsedConcat(HoldBusy(init, r, now, QueryWindow(shop, now)), [], start, end);
      UsedConcat(HoldBusy(init, r, now, Everything), [], start, end);
    }
  }

  lemma UnavailableInWindow(shop: Shop, rows: seq<Unavailability>, r: nat, now: int, start: int, end: int)
    requires r < |shop.resources| && InReach(shop, now, start, end)
    ensures Used(UnavailableBusy(shop, rows, r, QueryWindow(shop, now)), start, end) ==
            Used(UnavailableBusy(shop, rows, r, Everything), start, end)
  {
    if rows != [] {
      var init, u := rows[..|rows| - 1], rows[|rows| - 1];
      UnavailableInWindow(shop, init, r, now, start, end);
      var busy := Busy(u.startAt, u.endAt, shop.resources[r].capacity);
      UsedOne(busy, start, end);
      UsedConcat(UnavailableBusy(shop, init, r, QueryWindow(shop, now)), [busy], start, end);
      UsedConcat(UnavailableBusy(shop, init, r, Everything), [busy], start, end);
      UsedConcat(UnavailableBusy(shop, init, r, QueryWindow(shop, now)), [], start, end);
      UsedConcat(UnavailableBusy(shop, init, r, Everything), [], start, end);
    }
  }

  lemma UsedOfRows(shop: Shop, t: Tables, r: nat, now: int, w: Window, start: int, end: int)
    requires r < |shop.resources|
    ensures Used(SortBy(BusyRows(shop, t, r, now, w), BusyStart()), start, end) ==
            Used(BookingBusy(shop, t.bookings, r, w), start, end)
            + Used(HoldBusy(t.holds, r, now, w), start, end)
            + Used(UnavailableBusy(shop, shop.unavailable, r, w), start, end)
  {
    UsedSort(BusyRows(shop, t, r, now, w), start, end);
    UsedConcat(BookingBusy(shop, t.bookings, r, w), HoldBusy(t.holds, r, now, w), start, end);
    UsedConcat(BookingBusy(shop, t.bookings, r, w) + HoldBusy(t.holds, r, now, w),
               UnavailableBusy(shop, shop.unavailable, r, w), start, end);
  }

  lemma UsedInWindow(shop: Shop, t: Tables, r: nat, now: int, start: int, end: int)
    requires r < |shop.resources| && NoticeCoversRows(shop, t.bookings) && InReach(shop, now, start, end)
    ensures Used(SortBy(BusyRows(shop, t, r, now, QueryWindow(shop, now)), BusyStart()), start, end) ==
            Used(SortBy(BusyRows(shop, t, r, now, Everything), BusyStart()), start, end)
  {
    UsedOfRows(shop, t, r, now, QueryWindow(shop, now), start, end);
    UsedOfRows(shop, t, r, now, Everything, start, end);
    BookingsInWindow(shop, t.bookings, r, now, start, end);
    HoldsInWindow(shop, t.holds, r, now, start, end);
    UnavailableInWindow(shop, shop.unavailable, r, now, start, end);
  }

  /** An eligible start keeps its whole occupied time inside the reach of the window. */
  lemma EligibleInReach(shop: Shop, ctx: Context, date: int, now: int, r: AvailableResource, start: int)
    requires ctx.policy == shop.policy && 0 < ctx.Occupied() && Eligible(ctx, date, now, r, start)
    ensures InReach(shop, now, start, start + ctx.Occupied())
  {
    hide EffectiveDay, HasCapacity;
    assert WellFormedSpans(EffectiveDay(r.schedule, date).value);
    assert start + ctx.Occupied() <= Instant(r.schedule, date, DAY);
    assert Instant(r.schedule, date, 0) <= start;
  }

  /** A linked resource as the query returns it through a window. */
  ghost function Seen(shop: Shop, t: Tables, now: int, w: Window, id: nat): AvailableResource
    requires id < |shop.resources|
  {
    var r := shop.resources[id];
    AvailableResource(id, r.schedule, r.capacity, r.active, SortBy(BusyRows(shop, t, id, now, w), BusyStart()))
  }

  lemma LinkedAreSeen(shop: Shop, t: Tables, service: nat, now: int, w: Window, n: nat)
    requires n <= |shop.resources|
    ensures forall r :: r in LinkedResources(shop, t, service, now, w, n) ==>
                          0 <= r.id < n && service in shop.resources[r.id].services && r == Seen(shop, t, now, w, r.id)
  {
    hide BusyRows, SortBy;
  }

  /** The two resource lists differ in busy periods only. */
  ghost predicate Paired(shop: Shop, t: Tables, now: int, a: seq<AvailableResource>, b: seq<AvailableResource>) {
    && |a| == |b|
    && forall i :: 0 <= i < |a| ==>
         && 0 <= a[i].id < |shop.resources|
         && a[i] == Seen(shop, t, now, QueryWindow(shop, now), a[i].id)
         && b[i] == Seen(shop, t, now, Everything, a[i].id)
  }

  lemma LinkedPaired(shop: Shop, t: Tables, service: nat, now: int, n: nat)
    requires n <= |shop.resources|
    ensures Paired(shop, t, now, LinkedResources(shop, t, service, now, QueryWindow(shop, now), n),
                   LinkedResources(shop, t, service, now, Everything, n))
  {
    hide BusyRows, SortBy;
  }

  lemma PairedEligible(shop: Shop, t: Tables, a: Context, b: Context, date: int, now: int, id: nat, start: int)
    requires NoticeCoversRows(shop, t.bookings) && id < |shop.resources| && 0 < a.Occupied()
    requires a.policy == shop.policy && b == a.(resources := b.resources)
    ensures Eligible(a, date, now, Seen(shop, t, now, QueryWindow(shop, now), id), start) <==>
            Eligible(b, date, now, Seen(shop, t, now, Everything, id), start)
  {
    hide EffectiveDay, Used, BusyRows, SortBy;
    var x, y := Seen(shop, t, now, QueryWindow(shop, now), id), Seen(shop, t, now, Everything, id);
    if Eligible(a, date, now, x, start) {
      EligibleInReach(shop, a, date, now, x, start);
      UsedInWindow(shop, t, id, now, start, start + a.Occupied());
    }
    if Eligible(b, date, now, y, start) {
      EligibleInReach(shop, b, date, now, y, start);
      UsedInWindow(shop, t, id, now, start, start + a.Occupied());
    }
  }

  lemma {:induction false} SameFirst(shop: Shop, t: Tables, a: Context, b: Context, date: int, now: int,
                  x: seq<AvailableResource>, y: seq<AvailableResource>, start: int)
    requires NoticeCoversRows(shop, t.bookings) && 0 < a.Occupied()
    requires a.policy == shop.policy && b == a.(resources := b.resources)
    requires Paired(shop, t, now, x, y)
    ensures FirstResource(a, date, now, x, start) == FirstResource(b, date, now, y, start)
  {
    hide Eligible, BusyRows, SortBy;
    if x != [] {
      SameFirst(shop, t, a, b, date, now, x[1..], y[1..], start);
      PairedEligible(shop, t, a, b, date, now, x[0].id, start);
    }
  }

  lemma {:induction false} SameSlots(shop: Shop, t: Tables, a: Context, b: Context, date: int, now: int, lo: int,
                                     hi: int)
    requires NoticeCoversRows(shop, t.bookings) && 0 < a.Occupied()
    requires a.policy == shop.policy && b == a.(resources := b.resources)
    requires Paired(shop, t, now, a.resources, b.resources)
    ensures SlotsBetween(a, date, now, lo, hi) == SlotsBetween(b, date, now, lo, hi)
    decreases hi - lo
  {
    hide FirstResource, Eligible, Paired;
    if lo < hi {
      SameSlots(shop, t, a, b, date, now, lo, hi - 1);
      SameFirst(shop, t, a, b, date, now, a.resources, b.resources, hi - 1);
    }
  }

  /**
    The windowed query is complete: with a minimum notice that covers the buffer of every booking in
    force, the plan made from the rows in the window is the plan made from all rows, on every date and
    at every instant.
  */
  lemma WindowComplete(shop: Shop, t: Tables, service: nat, date: int, now: int)
    requires NoticeCoversRows(shop, t.bookings) && service < |shop.services|
    ensures AvailableSlots(AvailabilityContext(shop, t, service, now).value, date, now) ==
            AvailableSlots(ContextIn(shop, t, service, now, Everything).value, date, now)
  {
    hide EffectiveDay, Eligible, BusyRows, SortBy, SlotsBetween;
    var a := AvailabilityContext(shop, t, service, now).value;
    var b := ContextIn(shop, t, service, now, Everything).value;
    LinkedPaired(shop, t, service, now, |shop.resources|);
    SameSlots(shop, t, a, b, date, now, now + a.policy.minimumNotice, now + a.policy.horizonDays * DAY + 1);
    forall i | 0 <= i < |a.resources| ensures Unusable(a.resources[i], date) <==> Unusable(b.resources[i], date) {
    }
  }
}
