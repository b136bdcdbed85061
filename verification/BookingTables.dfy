/**
  The rows the booking store works on, and the busy periods its availability query reads.

  One tenant is modelled. A table is a sequence and a row's identifier is its position, so a
  new row's identifier is fresh; rows are never deleted.
*/
module BookingTables {
  import opened Basics
  import opened Schedule
  import opened Availability
  import opened BookingDomain

  datatype BookingError = NotFound | PolicyViolated | Conflict | TooLate | BadSchedule | BadArgument

  datatype DraftStatus = DraftActive | DraftCancelled | DraftExpired | DraftConfirmed

  datatype HoldStatus = HoldActive | HoldReleased | HoldExpired | HoldConsumed

  datatype DraftRow = DraftRow(
    customer: int,
    conversation: int,
    service: nat,
    date: Option<int>,
    hold: Option<nat>,
    name: Option<string>,
    phone: Option<string>,
    note: Option<string>,
    reschedules: Option<nat>,
    status: DraftStatus,
    expiresAt: int)

  datatype HoldRow = HoldRow(
    customer: int,
    conversation: int,
    draft: nat,
    service: nat,
    resource: nat,
    startAt: int,
    endAt: int,
    expiresAt: int,
    key: string,
    status: HoldStatus)

  datatype BookingRow = BookingRow(
    customer: int,
    conversation: int,
    service: nat,
    resource: nat,
    hold: nat,
    reference: int,
    startAt: int,
    endAt: int,
    status: BookingStatus,
    key: string,
    name: Option<string>,
    phone: Option<string>,
    note: Option<string>)

  datatype HistoryRow = HistoryRow(booking: nat, sequence: nat, change: Change)

  /** The key an outbox event's identifier is derived from. */
  datatype EventKey =
    | ConfirmedKey(booking: nat)
    | RescheduledKey(booking: nat, sequence: nat)
    | CancelledKey(booking: nat)

  datatype Event = Event(key: EventKey, reference: int, startAt: int, occurredAt: int)

  datatype Tables = Tables(
    drafts: seq<DraftRow>,
    holds: seq<HoldRow>,
    bookings: seq<BookingRow>,
    history: seq<HistoryRow>,
    outbox: seq<Event>)

  // --- Configuration ----------------------------------------------------------------------

  datatype RawService = Service(duration: int, buffer: int, active: bool, bookable: bool)
  {
    predicate Valid() { 0 < duration && 0 <= buffer }
  }

  type Service = s: RawService | s.Valid() witness Service(1, 0, true, true)

  /** A resource with the set of services it is actively linked to. */
  datatype ResourceRow = ResourceRow(schedule: BusinessSchedule, capacity: nat, active: bool, services: set<nat>)

  datatype Unavailability = Unavailability(resource: nat, startAt: int, endAt: int, active: bool)

  datatype Shop = Shop(
    services: seq<Service>,
    resources: seq<ResourceRow>,
    unavailable: seq<Unavailability>,
    policy: Policy,
    owners: map<int, int>,
    offset: int,
    enabled: bool)

  // --- Busy periods -----------------------------------------------------------------------

  /** Which rows a query keeps: those that meet a time window, or all of them. */
  datatype Window = Everything | Between(after: int, before: int)
  {
    predicate Keeps(startAt: int, endAt: int) {
      Everything? || (after < endAt && startAt < before)
    }
  }

  function QueryWindow(shop: Shop, now: int): Window {
    Between(now, now + (shop.policy.horizonDays + 1) * DAY)
  }

  predicate Occupies(b: BookingRow) { b.status == Confirmed || b.status == ReschedulePending }

  function BufferOf(shop: Shop, service: nat): int {
    if service < |shop.services| then shop.services[service].buffer else 0
  }

  predicate LiveHold(h: HoldRow, now: int) { h.status == HoldActive && now < h.expiresAt }

  function BookingBusy(shop: Shop, bookings: seq<BookingRow>, r: nat, w: Window): seq<Busy> {
    if bookings == [] then []
    else
      var b := bookings[|bookings| - 1];
      BookingBusy(shop, bookings[..|bookings| - 1], r, w)
      + if b.resource == r && Occupies(b) && b.service < |shop.services| && w.Keeps(b.startAt, b.endAt)
        then [Busy(b.startAt, b.endAt + BufferOf(shop, b.service), 1)] else []
  }

  function HoldBusy(holds: seq<HoldRow>, r: nat, now: int, w: Window): seq<Busy> {
    if holds == [] then []
    else
      var h := holds[|holds| - 1];
      HoldBusy(holds[..|holds| - 1], r, now, w)
      + if h.resource == r && LiveHold(h, now) && w.Keeps(h.startAt, h.endAt)
        then [Busy(h.startAt, h.endAt, 1)] else []
  }

  function UnavailableBusy(shop: Shop, rows: seq<Unavailability>, r: nat, w: Window): seq<Busy>
    requires r < |shop.resources|
  {
    if rows == [] then []
    else
      var u := rows[|rows| - 1];
      UnavailableBusy(shop, rows[..|rows| - 1], r, w)
      + if u.resource == r && u.active && w.Keeps(u.startAt, u.endAt)
        then [Busy(u.startAt, u.endAt, shop.resources[r].capacity)] else []
  }

  function BusyStart(): Busy -> int { (b: Busy) => b.start }

  function BusyRows(shop: Shop, t: Tables, r: nat, now: int, w: Window): seq<Busy>
    requires r < |shop.resources|
  {
    BookingBusy(shop, t.bookings, r, w) + HoldBusy(t.holds, r, now, w)
    + UnavailableBusy(shop, shop.unavailable, r, w)
  }

  /** The linked resources with identifiers below `n`, each with its busy periods. */
  function LinkedResources(shop: Shop, t: Tables, service: nat, now: int, w: Window, n: nat): seq<AvailableResource>
    requires n <= |shop.resources|
  {
    if n == 0 then []
    else
      var r := shop.resources[n - 1];
      LinkedResources(shop, t, service, now, w, n - 1)
      + if service in r.services
        then [AvailableResource(n - 1, r.schedule, r.capacity, r.active,
                                SortBy(BusyRows(shop, t, n - 1, now, w), BusyStart()))]
        else []
  }

  function ContextIn(shop: Shop, t: Tables, service: nat, now: int, w: Window): Option<Context> {
    if service < |shop.services| then
      var s := shop.services[service];
      Some(Context(s.duration, s.buffer, s.active, s.bookable, shop.policy,
                   LinkedResources(shop, t, service, now, w, |shop.resources|)))
    else None
  }

  /** `_availability_context`: busy periods come from the rows in the query window only. */
  function AvailabilityContext(shop: Shop, t: Tables, service: nat, now: int): Option<Context> {
    ContextIn(shop, t, service, now, QueryWindow(shop, now))
  }
}
