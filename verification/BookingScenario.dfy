/**
  Building blocks for runs of the booking store that end in a given state: a shop whose opening hours
  start at a chosen instant, and a customer who books the slot at that instant.
*/
module BookingScenario {
  import opened Basics
  import opened Schedule
  import opened BusinessTime
  import opened Availability
  import opened BookingDomain
  import opened BookingTables
  import opened BookingSteps
  import opened BookingWindow
  import opened BookingRuns
  import opened Contact
  import opened Text

  /** The service can be planned at all: on sale, shorter than a day, and the notice within the horizon. */
  predicate CanPlan(policy: Policy, s: Service) {
    && s.active && s.bookable && s.duration + s.buffer < DAY
    && policy.minimumNotice <= policy.horizonDays * DAY
  }

  // --- A shop that opens at an instant ----------------------------------------------------

  function WholeDay(day: int): Interval { Interval(Weekday(day), 0, DAY - 1, Open) }

  /** A schedule whose local midnight falls on `at`, open all that day. */
  function Midnight(at: int): BusinessSchedule {
    BusinessSchedule(-(at % DAY), [WholeDay(at / DAY)], [], true)
  }

  /** A slot at the opening instant `at`, asked for at the minimum notice before it. */
  datatype Scene = Scene(policy: Policy, services: seq<Service>, service: nat, capacity: nat, at: int)
  {
    predicate Valid() { service < |services| && CanPlan(policy, services[service]) }

    function Now(): int { at - policy.minimumNotice }

    function Date(): int { at / DAY }

    function End(): int
      requires Valid()
    {
      at + services[service].duration
    }

    function Cleaned(): int
      requires Valid()
    {
      End() + services[service].buffer
    }

    /** One resource that takes only this service; two customers, each with the conversation of its number. */
    function Place(): Shop {
      Shop(services, [ResourceRow(Midnight(at), capacity, true, {service})], [], policy, map[0 := 0, 1 := 1],
        -(at % DAY), true)
    }

    function Opening(): Slot
      requires Valid()
    {
      Slot(at, End(), 0)
    }
  }

  lemma FilterOne<T(!new)>(x: T, keep: T -> bool)
    ensures Filter([x], keep) == if keep(x) then [x] else []
  {
    assert [x][1..] == [];
    assert Filter([x][1..], keep) == [];
  }

  lemma SortOne<T(!new)>(x: T, key: T -> int)
    ensures SortBy([x], key) == [x]
  {
    assert [x][1..] == [];
    assert SortBy([x][1..], key) == [];
  }

  lemma WholeDayLeft(whole: Interval)
    ensures Subtract([whole], []) == Ok([Span(whole.start, whole.end)])
  {
    SortOne(whole, StartKey());
    assert SortBy<Interval>([], StartKey()) == [];
    assert [whole][..0] == [];
    assert Remains([], []) == [];
    assert Remains([whole], []) == [] + CutAll(whole, []);
    SortOne(Span(whole.start, whole.end), SpanKey());
  }

  lemma OpenAllDay(offset: int, day: int)
    ensures EffectiveDay(BusinessSchedule(offset, [WholeDay(day)], [], true), day) == Ok([Span(0, DAY - 1)])
  {
    var whole := WholeDay(day);
    WholeDayLeft(whole);
    hide Subtract, Filter, Weekday;
    FilterOne(whole, OnWeekday(Weekday(day)));
    FilterOne(whole, OfKind(Open));
    FilterOne(whole, OfKind(Break));
    NoneApply(AppliesOn(day));
  }

  lemma MidnightIsOpen(at: int)
    ensures EffectiveDay(Midnight(at), at / DAY) == Ok([Span(0, DAY - 1)])
    ensures Instant(Midnight(at), at / DAY, 0) == at
  {
    OpenAllDay(-(at % DAY), at / DAY);
    hide EffectiveDay;
  }

  lemma NoneApply(keep: Override -> bool)
    ensures Filter<Override>([], keep) == []
  {
  }

  lemma SoleResource(c: Scene, t: Tables, now: int, w: Window)
    requires c.Valid()
    ensures LinkedResources(c.Place(), t, c.service, now, w, 1) == [Seen(c.Place(), t, now, w, 0)]
  {
    hide BusyRows, SortBy;
  }

  /** What a scene's context offers: the opening slot, exactly when the capacity is not used up. */
  ghost predicate OffersOpening(c: Scene, t: Tables, w: Window)
    requires c.Valid()
  {
    ContextIn(c.Place(), t, c.service, c.Now(), w).Some? &&
    var ctx := ContextIn(c.Place(), t, c.service, c.Now(), w).value;
    && ctx.active && ctx.bookable && ctx.resources != []
    && (forall r :: r in ctx.resources ==> !Unusable(r, c.Date()))
    && (IsSlot(ctx, c.Date(), c.Now(), c.Opening()) <==>
        Used(Seen(c.Place(), t, c.Now(), w, 0).busy, c.at, c.Cleaned()) < c.capacity)
  }

  lemma SlotAtOpening(c: Scene, t: Tables, w: Window)
    requires c.Valid()
    ensures OffersOpening(c, t, w)
  {
    hide BusyRows, SortBy, EffectiveDay, Used;
    var ctx := ContextIn(c.Place(), t, c.service, c.Now(), w).value;
    SoleResource(c, t, c.Now(), w);
    MidnightIsOpen(c.at);
    var r := Seen(c.Place(), t, c.Now(), w, 0);
    assert ctx.resources == [r] && r in ctx.resources;
    var spans := [Span(0, DAY - 1)];
    assert spans[0].start <= 0 && 0 + ctx.Occupied() <= spans[0].end;
    assert FitsSpan(spans, 0, ctx.Occupied());
    assert LocalTime(r.schedule, c.Date(), c.at) == 0;
    ZeroOnGrid(c.policy.slotInterval);
    assert Eligible(ctx, c.Date(), c.Now(), r, c.at) <==> HasCapacity(r, c.at, c.at + ctx.Occupied());
    assert forall q :: q in ctx.resources ==> q == r;
  }

  lemma ZeroOnGrid(n: int)
    requires 0 < n
    ensures 0 % n == 0
  {
  }

  // --- One call at a time -----------------------------------------------------------------

  ghost predicate NewCustomer(t: Tables, customer: int) {
    && (forall d :: 0 <= d < |t.drafts| ==> t.drafts[d].customer != customer)
    && (forall h :: 0 <= h < |t.holds| ==> t.holds[h].customer != customer)
  }

  function Request(customer: int, service: nat, date: Option<int>, hold: Option<nat>, expiresAt: int): DraftRow {
    DraftRow(customer, customer, service, date, hold, None, None, None, None, DraftActive, expiresAt)
  }

  lemma NothingToClose(t: Tables, customer: int)
    requires NewCustomer(t, customer)
    ensures CancelDrafts(t.drafts, customer, customer) == t.drafts
    ensures ReleaseIdentity(t.holds, customer, customer) == t.holds
  {
  }

  lemma DraftStarted(shop: Shop, t: Tables, customer: int, service: nat, now: int)
    requires AvailabilityContext(shop, t, service, now).Some? && NewCustomer(t, customer)
    requires var ctx := AvailabilityContext(shop, t, service, now).value;
             ctx.active && ctx.bookable && ctx.resources != []
    requires customer in shop.owners && shop.owners[customer] == customer
    ensures Apply(shop, t, StartCall(customer, customer, service, None), now) ==
              t.(drafts := t.drafts + [Request(customer, service, None, None, now + shop.policy.draftDuration)])
  {
    NothingToClose(t, customer);
    hide AvailabilityContext, CancelDrafts, ReleaseIdentity, NewCustomer;
  }

  lemma DateSelected(shop: Shop, t: Tables, customer: int, service: nat, date: int, expiresAt: int, now: int)
    requires t.drafts != [] && t.drafts[|t.drafts| - 1] == Request(customer, service, None, None, expiresAt)
    requires service < |shop.services| && now < expiresAt
    requires LocalDate(shop, now) <= date <= LocalDate(shop, now + shop.policy.horizonDays * DAY)
    ensures Apply(shop, t, DateCall(customer, |t.drafts| - 1, date), now) ==
              t.(drafts := t.drafts[|t.drafts| - 1 := Request(customer, service, Some(date), None, expiresAt)])
  {
    hide LinkedResources, LocalDate;
  }

  lemma FirstHoldPlaced(shop: Shop, t: Tables, draft: nat, plan: seq<Slot>, index: nat, key: string, now: int)
    requires draft < |t.drafts| && t.drafts[draft].date.Some? && t.drafts[draft].hold.None?
    requires AvailabilityContext(shop, t, t.drafts[draft].service, now).Some?
    requires AvailableSlots(AvailabilityContext(shop, t, t.drafts[draft].service, now).value,
                            t.drafts[draft].date.value, now) == Ok(plan)
    requires index < |plan| && FindSlot(plan, plan[index].startAt, plan[index].resourceId) == Some(plan[index])
    ensures NewHold(shop, t, draft, index, key, now).tables == PlaceHold(shop, t, draft, plan[index], key, now)
  {
    assert LetGo(t, draft) == t;
    hide AvailabilityContext, AvailableSlots, FindSlot, PlaceHold, LetGo;
  }

  lemma HoldAdmitted(shop: Shop, t: Tables, customer: int, draft: nat, index: nat, key: string, now: int)
    requires ValidKey(key) && HoldByKey(t.holds, key).None?
    requires draft < |t.drafts| && t.drafts[draft].customer == customer && t.drafts[draft].status == DraftActive
    requires now < t.drafts[draft].expiresAt && t.drafts[draft].date.Some?
    ensures Apply(shop, t, HoldCall(customer, draft, index, key), now) ==
              NewHold(shop, t, draft, index, key, now).tables
  {
    hide NewHold, HoldByKey, ValidKey;
  }

  lemma SlotHeld(shop: Shop, t: Tables, customer: int, service: nat, date: int, expiresAt: int,
             plan: seq<Slot>, index: nat, key: string, now: int)
    requires t.drafts != [] && t.drafts[|t.drafts| - 1] == Request(customer, service, Some(date), None, expiresAt)
    requires service < |shop.services| && now < expiresAt && ValidKey(key) && HoldByKey(t.holds, key).None?
    requires AvailabilityContext(shop, t, service, now).Some?
    requires AvailableSlots(AvailabilityContext(shop, t, service, now).value, date, now) == Ok(plan)
    requires index < |plan| && FindSlot(plan, plan[index].startAt, plan[index].resourceId) == Some(plan[index])
    ensures Apply(shop, t, HoldCall(customer, |t.drafts| - 1, index, key), now) ==
              PlaceHold(shop, t, |t.drafts| - 1, plan[index], key, now)
  {
    hide AvailabilityContext, AvailableSlots, FindSlot, PlaceHold, HoldByKey, NewHold, ValidKey, Apply;
    HoldAdmitted(shop, t, customer, |t.drafts| - 1, index, key, now);
    FirstHoldPlaced(shop, t, |t.drafts| - 1, plan, index, key, now);
  }

  const NAME := "n"
  const PHONE := "12345"

  function Named(d: DraftRow): DraftRow { d.(name := Some(NAME), phone := Some(PHONE)) }

  lemma ContactKept()
    ensures NormalName(NAME) == NAME && StoredPhone(PHONE) == Some(PHONE)
    ensures Filled(Some(NAME)) && Filled(Some(PHONE)) && |NAME| == 1 && |PHONE| == 5
  {
    NationalKept(PHONE);
    WordOfWord(NAME);
    assert Join([NAME], ' ') == NAME;
  }

  lemma ContactLeft(shop: Shop, t: Tables, customer: int, now: int)
    requires t.drafts != []
    requires var d := t.drafts[|t.drafts| - 1]; d.customer == customer && d.status == DraftActive && now < d.expiresAt
    ensures Apply(shop, t, ContactCall(customer, |t.drafts| - 1, Some(NAME), Some(PHONE), None), now) ==
              t.(drafts := t.drafts[|t.drafts| - 1 := Named(t.drafts[|t.drafts| - 1])])
  {
    ContactKept();
    hide NormalName, StoredPhone;
  }

  // --- A customer who reserves the slot ---------------------------------------------------

  /** A planned slot has a position in the plan, and is what the plan has for its start and resource. */
  lemma SlotPosition(ctx: Context, date: int, now: int, slot: Slot) returns (plan: seq<Slot>, index: nat)
    requires ctx.active && ctx.bookable && IsSlot(ctx, date, now, slot)
    requires forall r :: r in ctx.resources ==> !Unusable(r, date)
    ensures AvailableSlots(ctx, date, now) == Ok(plan)
    ensures index < |plan| && plan[index] == slot && FindSlot(plan, slot.startAt, slot.resourceId) == Some(slot)
  {
    hide AvailableSlots, IsSlot, Unusable;
    AvailabilityMeaning(ctx, date, now);
    plan := AvailableSlots(ctx, date, now).value;
    assert slot in plan;
    index :| index < |plan| && plan[index] == slot;
    OnePerStart(plan, slot);
  }

  lemma OnePerStart(plan: seq<Slot>, slot: Slot)
    requires StrictlySorted(plan, StartOf()) && slot in plan
    ensures FindSlot(plan, slot.startAt, slot.resourceId) == Some(slot)
  {
    var found := FindSlot(plan, slot.startAt, slot.resourceId).value;
    var i :| 0 <= i < |plan| && plan[i] == slot;
    var j :| 0 <= j < |plan| && plan[j] == found;
    assert i < j ==> StartOf()(plan[i]) < StartOf()(plan[j]);
    assert j < i ==> StartOf()(plan[j]) < StartOf()(plan[i]);
  }

  function HoldFor(c: Scene, customer: int, draft: nat, key: string): HoldRow
    requires c.Valid()
  {
    HoldRow(customer, customer, draft, c.service, 0, c.at, c.Cleaned(), c.Now() + c.policy.holdDuration,
            key, HoldActive)
  }

  function RequestFor(c: Scene, customer: int, date: Option<int>, hold: Option<nat>): DraftRow {
    Request(customer, c.service, date, hold, c.Now() + c.policy.draftDuration)
  }

  /** The tables once a new customer has reserved the opening slot and left a contact. */
  function Reserved(c: Scene, t: Tables, customer: int, key: string): Tables
    requires c.Valid()
  {
    t.(drafts := t.drafts + [Named(RequestFor(c, customer, Some(c.Date()), Some(|t.holds|)))],
       holds := t.holds + [HoldFor(c, customer, |t.drafts|, key)])
  }

  ghost predicate HasRoom(c: Scene, t: Tables)
    requires c.Valid()
  {
    Used(Seen(c.Place(), t, c.Now(), QueryWindow(c.Place(), c.Now()), 0).busy, c.at, c.Cleaned()) < c.capacity
  }

  lemma DateInReach(at: int, before: int, after: int)
    requires before <= at <= after
    ensures (before - at % DAY) / DAY <= at / DAY <= (after - at % DAY) / DAY
  {
  }

  lemma OpensForStart(c: Scene, t: Tables)
    requires c.Valid()
    ensures AvailabilityContext(c.Place(), t, c.service, c.Now()).Some?
    ensures var ctx := AvailabilityContext(c.Place(), t, c.service, c.Now()).value;
            ctx.active && ctx.bookable && ctx.resources != []
  {
    SlotAtOpening(c, t, QueryWindow(c.Place(), c.Now()));
    hide ContextIn, Unusable, IsSlot, Used, Seen;
  }

  lemma ReserveStart(c: Scene, t: Tables, customer: int)
    requires c.Valid() && 0 <= customer <= 1 && NewCustomer(t, customer)
    ensures Apply(c.Place(), t, StartCall(customer, customer, c.service, None), c.Now()) ==
              t.(drafts := t.drafts + [RequestFor(c, customer, None, None)])
  {
    hide AvailabilityContext, Apply, NewCustomer;
    OpensForStart(c, t);
    DraftStarted(c.Place(), t, customer, c.service, c.Now());
  }

  lemma ReserveDate(c: Scene, t: Tables, customer: int)
    requires c.Valid()
    ensures Apply(c.Place(), t.(drafts := t.drafts + [RequestFor(c, customer, None, None)]),
                  DateCall(customer, |t.drafts|, c.Date()), c.Now()) ==
              t.(drafts := t.drafts + [RequestFor(c, customer, Some(c.Date()), None)])
  {
    DateInReach(c.at, c.Now(), c.Now() + c.policy.horizonDays * DAY);
    hide Apply;
    DateSelected(c.Place(), t.(drafts := t.drafts + [RequestFor(c, customer, None, None)]), customer, c.service,
      c.Date(), c.Now() + c.policy.draftDuration, c.Now());
  }

  /** The scene's plan has the opening slot while there is room. */
  lemma OpeningPlanned(c: Scene, t: Tables) returns (plan: seq<Slot>, index: nat)
    requires c.Valid() && HasRoom(c, t)
    ensures AvailabilityContext(c.Place(), t, c.service, c.Now()).Some?
    ensures AvailableSlots(AvailabilityContext(c.Place(), t, c.service, c.Now()).value, c.Date(), c.Now()) == Ok(plan)
    ensures index < |plan| && plan[index] == c.Opening() && FindSlot(plan, c.at, 0) == Some(c.Opening())
  {
    SlotAtOpening(c, t, QueryWindow(c.Place(), c.Now()));
    hide ContextIn, Unusable, IsSlot, Used, Seen, AvailableSlots, FindSlot;
    plan, index := SlotPosition(AvailabilityContext(c.Place(), t, c.service, c.Now()).value, c.Date(), c.Now(),
      c.Opening());
  }

  lemma RoomReadsRows(c: Scene, a: Tables, b: Tables)
    requires c.Valid() && a.bookings == b.bookings && a.holds == b.holds
    ensures HasRoom(c, a) <==> HasRoom(c, b)
  {
    SeenSame(c.Place(), a, b, c.Now(), QueryWindow(c.Place(), c.Now()));
  }

  lemma PlacedHere(c: Scene, t: Tables, customer: int, key: string)
    requires c.Valid()
    ensures PlaceHold(c.Place(), t.(drafts := t.drafts + [RequestFor(c, customer, Some(c.Date()), None)]), |t.drafts|,
                      c.Opening(), key, c.Now()) ==
              t.(drafts := t.drafts + [RequestFor(c, customer, Some(c.Date()), Some(|t.holds|))],
                 holds := t.holds + [HoldFor(c, customer, |t.drafts|, key)])
  {
    hide Midnight;
  }

  lemma ReserveHold(c: Scene, t: Tables, customer: int, key: string) returns (index: nat)
    requires c.Valid() && HasRoom(c, t) && ValidKey(key) && HoldByKey(t.holds, key).None?
    ensures Apply(c.Place(), t.(drafts := t.drafts + [RequestFor(c, customer, Some(c.Date()), None)]),
                  HoldCall(customer, |t.drafts|, index, key), c.Now()) ==
              t.(drafts := t.drafts + [RequestFor(c, customer, Some(c.Date()), Some(|t.holds|))],
                 holds := t.holds + [HoldFor(c, customer, |t.drafts|, key)])
  {
    var t' := t.(drafts := t.drafts + [RequestFor(c, customer, Some(c.Date()), None)]);
    RoomReadsRows(c, t, t');
    PlacedHere(c, t, customer, key);
    hide Apply, AvailabilityContext, AvailableSlots, FindSlot, PlaceHold, HasRoom, HoldFor, HoldByKey;
    var plan;
    plan, index := OpeningPlanned(c, t');
    SlotHeld(c.Place(), t', customer, c.service, c.Date(), c.Now() + c.policy.draftDuration, plan, index, key, c.Now());
  }

  lemma ReserveContact(c: Scene, t: Tables, customer: int, key: string)
    requires c.Valid()
    ensures Apply(c.Place(), t.(drafts := t.drafts + [RequestFor(c, customer, Some(c.Date()), Some(|t.holds|))],
                                holds := t.holds + [HoldFor(c, customer, |t.drafts|, key)]),
                  ContactCall(customer, |t.drafts|, Some(NAME), Some(PHONE), None), c.Now()) ==
              Reserved(c, t, customer, key)
  {
    hide Apply;
    ContactLeft(c.Place(), t.(drafts := t.drafts + [RequestFor(c, customer, Some(c.Date()), Some(|t.holds|))],
                             holds := t.holds + [HoldFor(c, customer, |t.drafts|, key)]), customer, c.Now());
  }

  lemma SeenSame(shop: Shop, a: Tables, b: Tables, now: int, w: Window)
    requires a.bookings == b.bookings && a.holds == b.holds && shop.resources != []
    ensures Seen(shop, a, now, w, 0) == Seen(shop, b, now, w, 0)
  {
  }

  /** Four calls reserve the opening slot for a new customer while there is room. */
  lemma Reserve(c: Scene, t: Tables, customer: int, key: string) returns (steps: seq<Step>)
    requires c.Valid() && 0 <= customer <= 1 && NewCustomer(t, customer) && HasRoom(c, t)
    requires ValidKey(key) && HoldByKey(t.holds, key).None?
    ensures forall i :: 0 <= i < |steps| ==> steps[i].shop == c.Place() && steps[i].now == c.Now()
    ensures Run(t, steps) == Reserved(c, t, customer, key)
  {
    ReserveStart(c, t, customer);
    ReserveDate(c, t, customer);
    var index := ReserveHold(c, t, customer, key);
    ReserveContact(c, t, customer, key);
    hide *;
    steps := [Step(c.Place(), StartCall(customer, customer, c.service, None), c.Now()),
              Step(c.Place(), DateCall(customer, |t.drafts|, c.Date()), c.Now()),
              Step(c.Place(), HoldCall(customer, |t.drafts|, index, key), c.Now()),
              Step(c.Place(), ContactCall(customer, |t.drafts|, Some(NAME), Some(PHONE), None), c.Now())];
    FourSteps(t, steps);
  }

  // --- The first booking ------------------------------------------------------------------

  const KEY := "a"

  function FirstRow(c: Scene): BookingRow
    requires c.Valid()
  {
    BookingRow(0, 0, c.service, 0, 0, 0, c.at, c.End(), Confirmed, KEY, Some(NAME), Some(PHONE), None)
  }

  /** The tables once customer 0 has confirmed the hold with identifier 0 as the first booking of all. */
  function FirstBooked(c: Scene, t: Tables): Tables
    requires c.Valid() && t.drafts != [] && t.holds != []
  {
    Tables(t.drafts[0 := t.drafts[0].(status := DraftConfirmed)],
           t.holds[0 := t.holds[0].(status := HoldConsumed)],
           [FirstRow(c)],
           [HistoryRow(0, 1, Change(Draft, Held)), HistoryRow(0, 2, Change(Held, Confirmed))],
           [Event(ConfirmedKey(0), 0, c.at, c.Now())])
  }

  /** Customer 0 holds the opening slot, and nothing was ever booked. */
  ghost predicate ReadyToBook(c: Scene, t: Tables)
    requires c.Valid()
  {
    && t.bookings == [] && t.history == [] && t.outbox == []
    && t.drafts != [] && t.drafts[0] == Named(RequestFor(c, 0, Some(c.Date()), Some(0)))
    && t.holds != [] && t.holds[0] == HoldFor(c, 0, 0, KEY)
  }

  lemma FirstConfirmed(c: Scene, t: Tables)
    requires c.Valid() && ReadyToBook(c, t)
    ensures Apply(c.Place(), t, ConfirmCall(0, 0, KEY, 0), c.Now()) == FirstBooked(c, t)
  {
    ContactKept();
    hide Midnight;
    assert AlreadyConfirmed(t, 0, 0).None? && BookingByKey(t.bookings, KEY).None?;
    assert Confirm(c.Place(), t, 0, 0, KEY, 0, c.Now()) == ConfirmHold(c.Place(), t, 0, 0, KEY, 0, c.Now());
    assert ConfirmHold(c.Place(), t, 0, 0, KEY, 0, c.Now()) == Book(c.Place(), t, 0, 0, KEY, 0, c.Now());
  }

  lemma FourSteps(t: Tables, steps: seq<Step>)
    requires |steps| == 4
    ensures var t1 := Apply(steps[0].shop, t, steps[0].call, steps[0].now);
            var t2 := Apply(steps[1].shop, t1, steps[1].call, steps[1].now);
            var t3 := Apply(steps[2].shop, t2, steps[2].call, steps[2].now);
            Run(t, steps) == Apply(steps[3].shop, t3, steps[3].call, steps[3].now)
  {
    hide Apply;
    RunLast(t, steps);
    RunLast(t, steps[..3]);
    RunLast(t, steps[..2]);
    RunLast(t, steps[..1]);
    assert steps[..3][..2] == steps[..2] && steps[..2][..1] == steps[..1] && steps[..1][..0] == [];
    hide Run;
    assert Run(t, []) == Run(t, steps[..1][..0]);
    assert t == Run(t, []) by {
      RunNone(t);
    }
  }

  lemma RunNone(t: Tables)
    ensures Run(t, []) == t
  {
  }

  lemma RunLast(t: Tables, steps: seq<Step>)
    requires steps != []
    ensures var last := steps[|steps| - 1];
            Run(t, steps) == Apply(last.shop, Run(t, steps[..|steps| - 1]), last.call, last.now)
  {
    hide Apply;
  }

  lemma {:induction false} RunConcat(t: Tables, a: seq<Step>, b: seq<Step>)
    ensures Run(t, a + b) == Run(Run(t, a), b)
  {
    hide Apply;
    if b == [] {
      assert a + b == a;
    } else {
      assert (a + b)[..|a + b| - 1] == a + b[..|b| - 1];
      RunConcat(t, a, b[..|b| - 1]);
    }
  }
}
