/**
  Where the booking guarantees stop, with the exact condition, over runs from empty tables. The busy
  query forgets a booking at its end, before its cleanup: that is harmless exactly when the minimum
  notice covers the buffer of every service that can be planned. The exclusion constraint ignores
  capacity: it can refuse a live hold exactly on resources that take more than one booking.
*/
module BookingLimits {
  import opened Basics
  import opened Availability
  import opened BookingDomain
  import opened BookingTables
  import opened BookingSteps
  import opened BookingWindow
  import opened BookingInvariant
  import opened BookingCapacity
  import opened BookingConfirm
  import opened BookingRuns
  import opened BookingGuarantee
  import opened BookingScenario
  import opened BookingPlanned

  /** The plan from the rows in the window is the plan from all rows. */
  ghost predicate PlansAgree(shop: Shop, t: Tables, service: nat, date: int, now: int)
    requires service < |shop.services|
  {
    AvailableSlots(AvailabilityContext(shop, t, service, now).value, date, now) ==
    AvailableSlots(ContextIn(shop, t, service, now, Everything).value, date, now)
  }

  /** With this policy and catalogue, after no run does dropping rows outside the window change a plan. */
  ghost predicate WindowHarmless(policy: Policy, services: seq<Service>) {
    forall base: Shop, start: int, steps: seq<Step>, shop: Shop, service: nat, date: int, now: int ::
      Carried(policy, services, base, start, steps) && Clock(start, steps) <= now
      && SameCatalog(policy, services, base, shop) && service < |services| ==>
        PlansAgree(shop, Run(EMPTY, steps), service, date, now)
  }

  /** With this policy and catalogue, no run ever overbooks a resource, then or later. */
  ghost predicate RunsSafe(policy: Policy, services: seq<Service>) {
    forall base: Shop, start: int, steps: seq<Step>, now: int ::
      Carried(policy, services, base, start, steps) && Clock(start, steps) <= now ==>
        WithinCapacity(base, Run(EMPTY, steps), now)
  }

  // --- A run in which the window shows ----------------------------------------------------

  /** The scene of the first booking, at instant 0, on a resource that takes one booking at a time. */
  function Before(policy: Policy, services: seq<Service>, s: nat): Scene { Scene(policy, services, s, 1, 0) }

  /** The scene at the end of that booking: the opening slot is the minimum notice later. */
  function After(policy: Policy, services: seq<Service>, s: nat): Scene
    requires s < |services|
  {
    Scene(policy, services, s, 1, services[s].duration + policy.minimumNotice)
  }

  function BookedTables(policy: Policy, services: seq<Service>, s: nat): Tables
    requires Before(policy, services, s).Valid()
  {
    FirstBooked(Before(policy, services, s), Reserved(Before(policy, services, s), EMPTY, 0, KEY))
  }

  lemma NothingYet(c: Scene)
    requires c.Valid() && 1 <= c.capacity
    ensures HasRoom(c, EMPTY) && NewCustomer(EMPTY, 0) && HoldByKey(EMPTY.holds, KEY).None? && ValidKey(KEY)
  {
    var w := QueryWindow(c.Place(), c.Now());
    hide SortBy, BusyRows;
    UsedOfRows(c.Place(), EMPTY, 0, c.Now(), w, c.at, c.Cleaned());
  }

  lemma BookFirst(policy: Policy, services: seq<Service>, s: nat) returns (steps: seq<Step>)
    requires Before(policy, services, s).Valid()
    ensures Run(EMPTY, steps) == BookedTables(policy, services, s)
    ensures var c := Before(policy, services, s);
            forall i :: 0 <= i < |steps| ==> steps[i].shop == c.Place() && steps[i].now == c.Now()
  {
    var c := Before(policy, services, s);
    NothingYet(c);
    var reserved := Reserve(c, EMPTY, 0, KEY);
    FirstConfirmed(c, Reserved(c, EMPTY, 0, KEY));
    var confirm := Step(c.Place(), ConfirmCall(0, 0, KEY, 0), c.Now());
    steps := reserved + [confirm];
    hide Apply, Run, FirstBooked, Reserved;
    assert steps[..|steps| - 1] == reserved;
    RunLast(EMPTY, steps);
  }

  lemma OneBookingBusy(shop: Shop, row: BookingRow, r: nat, w: Window)
    requires row.resource == r && Occupies(row) && row.service < |shop.services|
    ensures BookingBusy(shop, [row], r, w) ==
              if w.Keeps(row.startAt, row.endAt) then [Busy(row.startAt, row.endAt + BufferOf(shop, row.service), 1)]
                else []
  {
    assert [row][..0] == [];
    assert BookingBusy(shop, [], r, w) == [];
  }

  lemma OneHoldBusy(hold: HoldRow, r: nat, now: int, w: Window)
    ensures HoldBusy([hold], r, now, w) ==
              if hold.resource == r && LiveHold(hold, now) && w.Keeps(hold.startAt, hold.endAt)
              then [Busy(hold.startAt, hold.endAt, 1)] else []
  {
    assert [hold][..0] == [];
    assert HoldBusy([], r, now, w) == [];
  }

  lemma OneBookingUsed(shop: Shop, t: Tables, row: BookingRow, hold: HoldRow, now: int, w: Window, start: int, end: int)
    requires t.bookings == [row] && t.holds == [hold] && shop.unavailable == [] && shop.resources != []
    requires row.resource == 0 && Occupies(row) && row.service < |shop.services| && hold.status == HoldConsumed
    ensures Used(Seen(shop, t, now, w, 0).busy, start, end) ==
              if w.Keeps(row.startAt, row.endAt)
                && Overlaps(row.startAt, row.endAt + BufferOf(shop, row.service), start, end)
              then 1 else 0
  {
    hide BusyRows, SortBy, Used, BookingBusy, HoldBusy;
    UsedOfRows(shop, t, 0, now, w, start, end);
    OneBookingBusy(shop, row, 0, w);
    OneHoldBusy(hold, 0, now, w);
    UsedOne(Busy(row.startAt, row.endAt + BufferOf(shop, row.service), 1), start, end);
  }

  lemma BookedRows(policy: Policy, services: seq<Service>, s: nat)
    requires Before(policy, services, s).Valid()
    ensures var t := BookedTables(policy, services, s);
            && |t.bookings| == 1 && |t.holds| == 1
            && t.bookings == [t.bookings[0]] && t.holds == [t.holds[0]] && t.holds[0].status == HoldConsumed
            && var b := t.bookings[0];
               b.resource == 0 && b.service == s && b.status == Confirmed && b.startAt == 0
                 && b.endAt == services[s].duration
  {
  }

  /** At its end the booking is out of the window, while its cleanup still takes the opening slot. */
  lemma CleanupForgotten(policy: Policy, services: seq<Service>, s: nat)
    requires Before(policy, services, s).Valid() && policy.minimumNotice < services[s].buffer
    ensures var c, t := After(policy, services, s), BookedTables(policy, services, s);
            && HasRoom(c, t)
            && Used(Seen(c.Place(), t, c.Now(), Everything, 0).busy, c.at, c.Cleaned()) == 1
  {
    var c, t := After(policy, services, s), BookedTables(policy, services, s);
    BookedRows(policy, services, s);
    var row, hold := t.bookings[0], t.holds[0];
    hide Seen, Used, BookedTables, Midnight;
    OneBookingUsed(c.Place(), t, row, hold, c.Now(), QueryWindow(c.Place(), c.Now()), c.at, c.Cleaned());
    OneBookingUsed(c.Place(), t, row, hold, c.Now(), Everything, c.at, c.Cleaned());
  }

  lemma ScenesShare(policy: Policy, services: seq<Service>, s: nat)
    requires s < |services|
    ensures var a, b := Before(policy, services, s), After(policy, services, s);
            && SameCatalog(policy, services, a.Place(), a.Place())
            && SameCatalog(policy, services, a.Place(), b.Place())
            && a.Now() <= b.Now()
  {
  }

  /** After the first booking the windowed plan offers a start that the plan from all rows refuses. */
  lemma PlansDiffer(policy: Policy, services: seq<Service>, s: nat)
    requires Before(policy, services, s).Valid() && policy.minimumNotice < services[s].buffer
    ensures var c := After(policy, services, s);
            !PlansAgree(c.Place(), BookedTables(policy, services, s), s, c.Date(), c.Now())
  {
    var c, t := After(policy, services, s), BookedTables(policy, services, s);
    var w := QueryWindow(c.Place(), c.Now());
    CleanupForgotten(policy, services, s);
    SlotAtOpening(c, t, w);
    SlotAtOpening(c, t, Everything);
    hide AvailableSlots, ContextIn, IsSlot, Unusable, Used, Seen, BookedTables;
    AvailabilityMeaning(ContextIn(c.Place(), t, s, c.Now(), w).value, c.Date(), c.Now());
    AvailabilityMeaning(ContextIn(c.Place(), t, s, c.Now(), Everything).value, c.Date(), c.Now());
    assert c.Opening() in AvailableSlots(ContextIn(c.Place(), t, s, c.Now(), w).value, c.Date(), c.Now()).value;
  }

  /**
    The windowed query is harmless exactly when the minimum notice covers the buffer of every service
    that can be planned: for every policy and catalogue, over every run from empty tables.
  */
  lemma WindowHarmlessIff(policy: Policy, services: seq<Service>)
    ensures WindowHarmless(policy, services) <==> NoticeCovers(policy, services)
  {
    hide CanPlan, PlansAgree;
    if NoticeCovers(policy, services) {
      forall base: Shop, start: int, steps: seq<Step>, shop: Shop, service: nat, date: int, now: int
        | Carried(policy, services, base, start, steps) && Clock(start, steps) <= now
          && SameCatalog(policy, services, base, shop) && service < |services|
        ensures PlansAgree(shop, Run(EMPTY, steps), service, date, now)
      {
        CarriedRunsKeep(policy, services, base, start, steps);
        RowsCovered(policy, services, shop, Run(EMPTY, steps));
        PlansCoincide(shop, Run(EMPTY, steps), service, date, now);
      }
    } else {
      var s: nat :| s < |services| && CanPlan(policy, services[s]) && policy.minimumNotice < services[s].buffer;
      WindowShows(policy, services, s);
    }
  }

  lemma PlansCoincide(shop: Shop, t: Tables, service: nat, date: int, now: int)
    requires NoticeCoversRows(shop, t.bookings) && service < |shop.services|
    ensures PlansAgree(shop, t, service, date, now)
  {
    hide AvailableSlots, AvailabilityContext, ContextIn;
    WindowComplete(shop, t, service, date, now);
  }

  lemma CarriedInOnePlace(policy: Policy, services: seq<Service>, shop: Shop, now: int, steps: seq<Step>)
    requires SameCatalog(policy, services, shop, shop)
    requires forall i :: 0 <= i < |steps| ==> steps[i].shop == shop && steps[i].now == now
    ensures Carried(policy, services, shop, now, steps) && Clock(now, steps) == now
  {
  }

  lemma WindowShows(policy: Policy, services: seq<Service>, s: nat)
    requires Before(policy, services, s).Valid() && policy.minimumNotice < services[s].buffer
    ensures !WindowHarmless(policy, services)
  {
    var a, b := Before(policy, services, s), After(policy, services, s);
    var steps := BookFirst(policy, services, s);
    ScenesShare(policy, services, s);
    PlansDiffer(policy, services, s);
    CarriedInOnePlace(policy, services, a.Place(), a.Now(), steps);
    assert b.service < |b.Place().services| && s < |services|;
    hide *;
    ShownBy(policy, services, a.Place(), a.Now(), steps, b.Place(), s, b.Date(), b.Now());
  }

  lemma ShownBy(policy: Policy, services: seq<Service>, base: Shop, start: int, steps: seq<Step>,
                shop: Shop, service: nat, date: int, now: int)
    requires Carried(policy, services, base, start, steps) && Clock(start, steps) <= now
    requires SameCatalog(policy, services, base, shop) && service < |services|
    requires !PlansAgree(shop, Run(EMPTY, steps), service, date, now)
    ensures !WindowHarmless(policy, services)
  {
    hide Carried, Run, PlansAgree, Clock;
  }

  // --- A run that overbooks ---------------------------------------------------------------

  const OTHER_KEY := "b"

  lemma KeysDiffer()
    ensures KEY != OTHER_KEY && ValidKey(KEY) && ValidKey(OTHER_KEY)
  {
    assert KEY[0] != OTHER_KEY[0];
  }

  lemma SecondIsNew(policy: Policy, services: seq<Service>, s: nat)
    requires Before(policy, services, s).Valid()
    ensures NewCustomer(BookedTables(policy, services, s), 1)
    ensures ValidKey(OTHER_KEY) && HoldByKey(BookedTables(policy, services, s).holds, OTHER_KEY).None?
  {
    KeysDiffer();
    hide Midnight;
  }

  lemma TwoAtOnce(shop: Shop, t: Tables, b: nat, h: nat, x: int, now: int)
    requires shop.resources != [] && shop.resources[0].capacity == 1
    requires b < |t.bookings| && BookingUse(shop, t.bookings[b], 0, x) == 1
    requires h < |t.holds| && HoldUse(t.holds[h], 0, x, now) == 1
    ensures !WithinCapacity(shop, t, now)
  {
    hide BookingUse, HoldUse;
    BookingsAtLeast(shop, t.bookings, b, 0, x);
    HoldsAtLeast(t.holds, h, 0, x, now);
    assert Usage(shop, t, 0, x, now) >= 2;
  }

  /** The second hold is on the resource while the first booking's cleanup is. */
  lemma TakenTwice(policy: Policy, services: seq<Service>, s: nat)
    requires Before(policy, services, s).Valid() && policy.minimumNotice < services[s].buffer
    ensures var c := After(policy, services, s);
            !WithinCapacity(Before(policy, services, s).Place(),
                            Reserved(c, BookedTables(policy, services, s), 1, OTHER_KEY), c.Now())
  {
    BookedRows(policy, services, s);
    hide Midnight, BookedTables;
    var c := After(policy, services, s);
    var t := Reserved(c, BookedTables(policy, services, s), 1, OTHER_KEY);
    TwoAtOnce(Before(policy, services, s).Place(), t, 0, 1, c.at, c.Now());
  }

  /** Nine calls overbook a resource when the notice is shorter than the buffer of a service that can be planned. */
  lemma OverbookedWithoutNotice(policy: Policy, services: seq<Service>, s: nat)
    returns (base: Shop, start: int, steps: seq<Step>)
    requires s < |services| && CanPlan(policy, services[s]) && policy.minimumNotice < services[s].buffer
    ensures Carried(policy, services, base, start, steps)
    ensures !WithinCapacity(base, Run(EMPTY, steps), Clock(start, steps))
  {
    var a, b := Before(policy, services, s), After(policy, services, s);
    base, start := a.Place(), a.Now();
    var first := BookFirst(policy, services, s);
    CleanupForgotten(policy, services, s);
    SecondIsNew(policy, services, s);
    hide HasRoom, BookedTables, Reserved, NewCustomer, WithinCapacity, SameCatalog, Run;
    var second := Reserve(b, BookedTables(policy, services, s), 1, OTHER_KEY);
    steps := first + second;
    RunConcat(EMPTY, first, second);
    ScenesShare(policy, services, s);
    TakenTwice(policy, services, s);
    assert |second| > 0 by {
      ReservedIsNew(b, BookedTables(policy, services, s), second);
    }
    assert steps[|steps| - 1] == second[|second| - 1];
  }

  lemma ReservedIsNew(c: Scene, t: Tables, steps: seq<Step>)
    requires c.Valid() && Run(t, steps) == Reserved(c, t, 1, OTHER_KEY)
    ensures steps != []
  {
    assert |Reserved(c, t, 1, OTHER_KEY).holds| == |t.holds| + 1;
  }

  /**
    Runs are safe exactly when the minimum notice covers the buffer of every service that can be
    planned: for every policy and catalogue, with opening hours and the rest free to change.
  */
  lemma RunsSafeIff(policy: Policy, services: seq<Service>)
    ensures RunsSafe(policy, services) <==> NoticeCovers(policy, services)
  {
    hide CanPlan, WithinCapacity;
    if NoticeCovers(policy, services) {
      forall base: Shop, start: int, steps: seq<Step>, now: int
        | Carried(policy, services, base, start, steps) && Clock(start, steps) <= now
        ensures WithinCapacity(base, Run(EMPTY, steps), now)
      {
        CarriedRunsKeep(policy, services, base, start, steps);
        Later(base, Run(EMPTY, steps), Clock(start, steps), now);
      }
    } else {
      var s: nat :| s < |services| && CanPlan(policy, services[s]) && policy.minimumNotice < services[s].buffer;
      var base, start, steps := OverbookedWithoutNotice(policy, services, s);
      assert Clock(start, steps) <= Clock(start, steps);
    }
  }

  // --- Capacity above one -----------------------------------------------------------------

  /** An owner asks to confirm a live hold on a resource of this capacity, with everything in order. */
  ghost predicate Asks(shop: Shop, t: Tables, draft: nat, h: nat, key: string, reference: int, now: int,
                       capacity: nat) {
    && Ready(t, draft, h, now) && BookingByKey(t.bookings, key).None?
    && t.holds[h].service < |shop.services| && t.holds[h].resource < |shop.resources|
    && shop.resources[t.holds[h].resource].capacity == capacity
    && Confirmable(shop, t, draft, h, key, reference, now)
  }

  ghost predicate Answered(shop: Shop, t: Tables, draft: nat, key: string, reference: int, now: int) {
    draft < |t.drafts| && Confirm(shop, t, t.drafts[draft].customer, draft, key, reference, now).reply.Ok?
  }

  /** After every legal run, on every resource of this capacity, an owner who asks is answered with a booking. */
  ghost predicate HoldsHonoured(capacity: nat) {
    forall base: Shop, start: int, steps: seq<Step>, shop: Shop, draft: nat, h: nat, key: string, reference: int,
      now: int ::
      Legal(base, start, steps) && Clock(start, steps) <= now && SameSizes(base, shop)
      && Asks(shop, Run(EMPTY, steps), draft, h, key, reference, now, capacity) ==>
        Answered(shop, Run(EMPTY, steps), draft, key, reference, now)
  }

  /** Customer 1 holds the same slot that customer 0 has booked. */
  function SideBySide(c: Scene): Tables
    requires c.Valid()
  {
    FirstBooked(c, Reserved(c, Reserved(c, EMPTY, 0, KEY), 1, OTHER_KEY))
  }

  lemma StillRoom(c: Scene)
    requires c.Valid() && 2 <= c.capacity
    ensures HasRoom(c, Reserved(c, EMPTY, 0, KEY))
  {
    var t := Reserved(c, EMPTY, 0, KEY);
    var w := QueryWindow(c.Place(), c.Now());
    var hold := HoldFor(c, 0, 0, KEY);
    assert t.bookings == [] && t.holds == [hold] && c.Place().unavailable == [];
    hide BusyRows, SortBy, Midnight, Used, Reserved, HoldBusy;
    UsedOfRows(c.Place(), t, 0, c.Now(), w, c.at, c.Cleaned());
    OneHoldBusy(hold, 0, c.Now(), w);
    UsedOne(Busy(hold.startAt, hold.endAt, 1), c.at, c.Cleaned());
  }

  lemma OnlyOthers(t: Tables, draft: DraftRow, hold: HoldRow, customer: int, key: string)
    requires t.drafts == [draft] && t.holds == [hold]
    requires draft.customer != customer && hold.customer != customer && hold.key != key
    ensures NewCustomer(t, customer) && HoldByKey(t.holds, key).None?
  {
  }

  lemma SecondMayAsk(c: Scene)
    requires c.Valid()
    ensures var t := Reserved(c, EMPTY, 0, KEY);
            NewCustomer(t, 1) && HoldByKey(t.holds, OTHER_KEY).None? && ValidKey(OTHER_KEY)
  {
    KeysDiffer();
    var t := Reserved(c, EMPTY, 0, KEY);
    assert t.drafts == [t.drafts[0]] && t.holds == [t.holds[0]];
    hide NewCustomer, HoldByKey;
    OnlyOthers(t, t.drafts[0], t.holds[0], 1, OTHER_KEY);
  }

  lemma BothReserved(c: Scene)
    requires c.Valid()
    ensures ReadyToBook(c, Reserved(c, Reserved(c, EMPTY, 0, KEY), 1, OTHER_KEY))
  {
    hide Midnight;
  }

  /** Nine calls that put a booking and another customer's live hold on the same slot. */
  lemma ReachSideBySide(c: Scene) returns (steps: seq<Step>)
    requires c.Valid() && 2 <= c.capacity
    ensures forall i :: 0 <= i < |steps| ==> steps[i].shop == c.Place() && steps[i].now == c.Now()
    ensures steps != [] && Run(EMPTY, steps) == SideBySide(c)
  {
    NothingYet(c);
    StillRoom(c);
    SecondMayAsk(c);
    BothReserved(c);
    var confirm := Step(c.Place(), ConfirmCall(0, 0, KEY, 0), c.Now());
    FirstConfirmed(c, Reserved(c, Reserved(c, EMPTY, 0, KEY), 1, OTHER_KEY));
    hide Apply, Run, FirstBooked, Reserved, HasRoom, NewCustomer, ReadyToBook;
    var a := Reserve(c, EMPTY, 0, KEY);
    var b := Reserve(c, Reserved(c, EMPTY, 0, KEY), 1, OTHER_KEY);
    steps := a + b + [confirm];
    RunConcat(EMPTY, a, b);
    assert steps[..|steps| - 1] == a + b;
    RunLast(EMPTY, steps);
  }

  /** Customer 1 asks with everything in order, and meets the booking of customer 0. */
  lemma AsksInVain(c: Scene)
    requires c.Valid()
    ensures Asks(c.Place(), SideBySide(c), 1, 1, OTHER_KEY, 1, c.Now(), c.capacity)
    ensures Collides(c.Place(), SideBySide(c), 1, 1)
  {
    KeysDiffer();
    ContactKept();
    hide Midnight;
    var t := SideBySide(c);
    assert t.bookings[0].key == KEY;
    assert Overlaps(t.bookings[0].startAt, t.bookings[0].endAt, c.at, c.End());
  }

  /** On every resource that takes more than one booking, a legal run ends with an owner who asks and is refused. */
  lemma HoldRefused(c: Scene) returns (base: Shop, steps: seq<Step>)
    requires c.Valid() && 2 <= c.capacity && NoticeCoversBuffers(c.Place())
    ensures Legal(base, c.Now(), steps) && Clock(c.Now(), steps) == c.Now() && SameSizes(base, c.Place())
    ensures Asks(c.Place(), Run(EMPTY, steps), 1, 1, OTHER_KEY, 1, c.Now(), c.capacity)
    ensures !Answered(c.Place(), Run(EMPTY, steps), 1, OTHER_KEY, 1, c.Now())
  {
    base := c.Place();
    steps := ReachSideBySide(c);
    AsksInVain(c);
    hide Run, SideBySide, Inv, Confirm, Collides, Confirmable, NoticeCoversBuffers;
    assert Legal(base, c.Now(), steps);
    EveryRunIsSafe(base, c.Now(), steps, c.Now());
    ConfirmSucceedsIff(c.Place(), Run(EMPTY, steps), 1, 1, OTHER_KEY, 1, c.Now());
  }

  /** Over legal runs, live holds are honoured exactly on resources that take one booking at a time. */
  lemma HoldsHonouredIff(capacity: nat)
    ensures HoldsHonoured(capacity) <==> capacity <= 1
  {
    hide Inv, Confirm, Run, Confirmable, Legal, SameSizes;
    if capacity <= 1 {
      forall base: Shop, start: int, steps: seq<Step>, shop: Shop, draft: nat, h: nat, key: string, reference: int,
        now: int
        | Legal(base, start, steps) && Clock(start, steps) <= now && SameSizes(base, shop)
          && Asks(shop, Run(EMPTY, steps), draft, h, key, reference, now, capacity)
        ensures Answered(shop, Run(EMPTY, steps), draft, key, reference, now)
      {
        EveryRunIsSafe(base, start, steps, now);
        InvTransfers(base, shop, Run(EMPTY, steps), now);
        LiveHoldNeedsCapacity(shop, Run(EMPTY, steps), h, now);
        HoldIsHonoured(shop, Run(EMPTY, steps), draft, h, key, reference, now);
      }
    } else {
      var c := OrdinaryScene(capacity);
      var base, steps := HoldRefused(c);
    }
  }

  /** A resource of any capacity, a service of a second without cleanup, and a notice within the horizon. */
  lemma OrdinaryScene(capacity: nat) returns (c: Scene)
    ensures c.Valid() && c.capacity == capacity && NoticeCoversBuffers(c.Place())
  {
    var policy: Policy := Policy(300, 1, 1, 1, 1, 0, 1, 8, 0);
    var service: Service := Service(1, 0, true, true);
    c := Scene(policy, [service], 0, capacity, 0);
  }

  lemma LiveHoldNeedsCapacity(shop: Shop, t: Tables, h: nat, now: int)
    requires Inv(shop, t, now) && h < |t.holds| && LiveHold(t.holds[h], now)
    requires t.holds[h].resource < |shop.resources|
    ensures 1 <= shop.resources[t.holds[h].resource].capacity
  {
    assert HoldSized(shop, t.holds[h]);
    HoldsAtLeast(t.holds, h, t.holds[h].resource, t.holds[h].startAt, now);
    assert Usage(shop, t, t.holds[h].resource, t.holds[h].startAt, now) <= shop.resources[t.holds[h].resource].capacity;
  }
}
