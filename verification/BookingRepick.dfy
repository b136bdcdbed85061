/**
  A start on a second resource can be listed only because the customer's own hold takes the first one.
  Asking for it gives that hold up, the first resource comes free, and the request is refused.
*/
module BookingRepick {
  import opened Basics
  import opened Schedule
  import opened BusinessTime
  import opened Availability
  import opened BookingTables
  import opened BookingSteps
  import opened BookingRuns
  import opened BookingPlan
  import opened BookingAdmission
  import opened BookingDrafts
  import opened BookingScenario

  /** Two resources alike, each for one booking at a time, that open at the scene's instant. */
  function TwoPlaces(c: Scene): Shop {
    var place := ResourceRow(Midnight(c.at), 1, true, {c.service});
    c.Place().(resources := [place, place])
  }

  function Reach(c: Scene): Window { QueryWindow(TwoPlaces(c), c.Now()) }

  function OpeningOn(c: Scene, r: nat): Slot
    requires c.Valid()
  {
    Slot(c.at, c.End(), r)
  }

  lemma AllDayFits(c: Scene)
    requires c.Valid()
    ensures Usable(Midnight(c.at), c.Date())
    ensures FitsHours(Midnight(c.at), c.Date(), 0, c.services[c.service].duration + c.services[c.service].buffer)
  {
    var length := c.services[c.service].duration + c.services[c.service].buffer;
    MidnightIsOpen(c.at);
    FitsMeaning(Midnight(c.at), c.Date(), 0, length);
    hide EffectiveDay, FitsHours, Midnight;
    assert Span(0, DAY - 1) in [Span(0, DAY - 1)];
  }

  lemma TwinRow(c: Scene, r: nat)
    requires r < 2
    ensures var shop := TwoPlaces(c);
            && |shop.resources| == 2 && shop.services == c.services && shop.policy == c.policy
            && shop.resources[r].schedule == Midnight(c.at) && shop.resources[r].active
            && shop.resources[r].services == {c.service} && shop.resources[r].capacity == 1
            && shop.unavailable == []
    ensures Midnight(c.at).active && c.at + Midnight(c.at).offset - c.Date() * DAY == 0
  {
  }

  lemma MidnightOnGrid(interval: int)
    requires 0 < interval
    ensures OnGrid(0, interval)
  {
    ZeroOnGrid(interval);
  }

  lemma OffersAtMidnight(shop: Shop, t: Tables, service: nat, r: nat, date: int, now: int, w: Window, start: int)
    requires service < |shop.services| && r < |shop.resources| && service in shop.resources[r].services
    requires shop.resources[r].active && shop.resources[r].schedule.active
    requires now + shop.policy.minimumNotice <= start <= now + shop.policy.horizonDays * DAY
    requires start + shop.resources[r].schedule.offset - date * DAY == 0
    requires FitsHours(shop.resources[r].schedule, date, 0,
                       shop.services[service].duration + shop.services[service].buffer)
    ensures Offers(shop, t, service, r, date, now, w, start) <==>
            Spare(shop, t, r, now, w, start, start + shop.services[service].duration + shop.services[service].buffer)
  {
    hide FitsHours, Spare, OnGrid;
    MidnightOnGrid(shop.policy.slotInterval);
  }

  /** Either resource offers the opening exactly while it is not taken. */
  lemma OpeningOffered(c: Scene, t: Tables, r: nat)
    requires c.Valid() && r < 2
    ensures |TwoPlaces(c).resources| == 2 && TwoPlaces(c).services == c.services
    ensures Offers(TwoPlaces(c), t, c.service, r, c.Date(), c.Now(), Reach(c), c.at) <==>
            Spare(TwoPlaces(c), t, r, c.Now(), Reach(c), c.at, c.Cleaned())
  {
    hide FitsHours, Usable, Spare, Offers, TwoPlaces, Midnight, Reach;
    AllDayFits(c);
    TwinRow(c, r);
    OffersAtMidnight(TwoPlaces(c), t, c.service, r, c.Date(), c.Now(), Reach(c), c.at);
  }

  lemma NotBroken(c: Scene)
    requires c.Valid()
    ensures c.service < |TwoPlaces(c).services| && !Broken(TwoPlaces(c), c.service, c.Date())
  {
    hide Usable, Midnight;
    AllDayFits(c);
  }

  lemma NoneSmaller(c: Scene, t: Tables, r: nat)
    requires c.Valid() && r < 2
    requires r == 1 ==> !Spare(TwoPlaces(c), t, 0, c.Now(), Reach(c), c.at, c.Cleaned())
    ensures c.service < |TwoPlaces(c).services|
    ensures !SmallerOffers(TwoPlaces(c), t, c.service, r, c.Date(), c.Now(), Reach(c), c.at)
  {
    hide Spare, Offers, Midnight, Reach;
    OpeningOffered(c, t, 0);
  }

  lemma OpeningListed(c: Scene, t: Tables, r: nat) returns (index: nat)
    requires c.Valid() && r < 2
    requires Spare(TwoPlaces(c), t, r, c.Now(), Reach(c), c.at, c.Cleaned())
    requires r == 1 ==> !Spare(TwoPlaces(c), t, 0, c.Now(), Reach(c), c.at, c.Cleaned())
    ensures var plan := PlanIn(TwoPlaces(c), t, c.service, c.Date(), c.Now(), Reach(c));
            plan.Ok? && index < |plan.value| && plan.value[index] == OpeningOn(c, r)
  {
    hide Offers, Spare, Usable, PlanIn, TwoPlaces, Midnight, Reach, SmallerOffers, Broken, StrictlySorted;
    TwinRow(c, 0);
    NotBroken(c);
    PlanOverRows(TwoPlaces(c), t, c.service, c.Date(), c.Now(), Reach(c));
    OpeningOffered(c, t, r);
    NoneSmaller(c, t, r);
    var plan := PlanIn(TwoPlaces(c), t, c.service, c.Date(), c.Now(), Reach(c));
    assert SlotOverRows(TwoPlaces(c), t, c.service, c.Date(), c.Now(), Reach(c), OpeningOn(c, r));
    index :| 0 <= index < |plan.value| && plan.value[index] == OpeningOn(c, r);
  }

  // --- The tables of the run --------------------------------------------------------------

  /** The customer has chosen the date. */
  function Dated(c: Scene): Tables {
    Tables([Request(0, c.service, Some(c.Date()), None, c.Now() + c.policy.draftDuration)], [], [], [], [])
  }

  /** And holds the opening on the first resource. */
  function Holding(c: Scene): Tables
    requires c.Valid()
  {
    Tables([Request(0, c.service, Some(c.Date()), Some(0), c.Now() + c.policy.draftDuration)],
           [HoldFor(c, 0, 0, KEY)], [], [], [])
  }

  lemma NothingTaken(c: Scene, t: Tables, r: nat)
    requires c.Valid() && r < 2 && t.bookings == []
    requires forall h :: 0 <= h < |t.holds| ==> t.holds[h].resource != r || t.holds[h].status != HoldActive
    ensures Spare(TwoPlaces(c), t, r, c.Now(), Reach(c), c.at, c.Cleaned())
  {
    var shop := TwoPlaces(c);
    assert BookingsMeeting(shop, t.bookings, r, Reach(c), c.at, c.Cleaned()) == {};
    assert HoldsMeeting(t.holds, r, c.Now(), Reach(c), c.at, c.Cleaned()) == {};
    hide Midnight, Reach;
  }

  lemma FirstTaken(c: Scene)
    requires c.Valid()
    ensures !Spare(TwoPlaces(c), Holding(c), 0, c.Now(), Reach(c), c.at, c.Cleaned())
  {
    var holds := Holding(c).holds;
    assert HoldMeets(holds[0], 0, c.Now(), Reach(c), c.at, c.Cleaned());
    hide Midnight, HoldMeets, Reach;
    assert HoldsMeeting(holds, 0, c.Now(), Reach(c), c.at, c.Cleaned()) == {0};
  }

  /** The customer has started a draft. */
  function Started(c: Scene): Tables {
    Tables([Request(0, c.service, None, None, c.Now() + c.policy.draftDuration)], [], [], [], [])
  }

  lemma StartedAfter(c: Scene)
    requires c.Valid()
    ensures StartDraft(TwoPlaces(c), EMPTY, 0, 0, c.service, None, c.Now()).tables == Started(c)
  {
    var shop := TwoPlaces(c);
    hide StartDraft, Midnight;
    StartMeaning(shop, EMPTY, 0, 0, c.service, None, c.Now());
    assert MayStart(shop, EMPTY, 0, 0, c.service, None) by {
      assert c.service in shop.resources[0].services;
    }
    var o := StartDraft(shop, EMPTY, 0, 0, c.service, None, c.Now());
    assert o.tables.drafts == Started(c).drafts && o.tables.holds == [];
  }

  lemma DateIsInReach(c: Scene)
    requires c.Valid()
    ensures var shop := TwoPlaces(c);
            LocalDate(shop, c.Now()) <= c.Date() <= LocalDate(shop, c.Now() + shop.policy.horizonDays * DAY)
  {
    DateInReach(c.at, c.Now(), c.Now() + c.policy.horizonDays * DAY);
    hide Midnight;
  }

  lemma DateAfter(c: Scene)
    requires c.Valid()
    ensures SelectDate(TwoPlaces(c), Started(c), 0, 0, c.Date(), c.Now()).tables == Dated(c)
  {
    hide SelectDate, Midnight, LocalDate;
    DateIsInReach(c);
    DateMeaning(TwoPlaces(c), Started(c), 0, 0, c.Date(), c.Now());
    assert SelectDate(TwoPlaces(c), Started(c), 0, 0, c.Date(), c.Now()).tables.drafts == Dated(c).drafts;
  }

  lemma DatedAfter(c: Scene)
    requires c.Valid()
    ensures var shop := TwoPlaces(c);
            var started := Apply(shop, EMPTY, StartCall(0, 0, c.service, None), c.Now());
            Apply(shop, started, DateCall(0, 0, c.Date()), c.Now()) == Dated(c)
  {
    hide StartDraft, SelectDate, TwoPlaces, Started, Dated;
    StartedAfter(c);
    DateAfter(c);
  }

  lemma AddedIsHolding(c: Scene, t: Tables)
    requires c.Valid() && HoldAdded(TwoPlaces(c), Dated(c), 0, OpeningOn(c, 0), KEY, c.Now(), t)
    ensures t == Holding(c)
  {
    hide Midnight;
    assert t.holds == Holding(c).holds && t.drafts == Holding(c).drafts;
  }

  lemma HoldingPlaced(c: Scene, index: nat)
    requires c.Valid()
    requires var plan := PlanIn(TwoPlaces(c), Dated(c), c.service, c.Date(), c.Now(), Reach(c));
             plan.Ok? && index < |plan.value| && plan.value[index] == OpeningOn(c, 0)
    ensures NewHold(TwoPlaces(c), Dated(c), 0, index, KEY, c.Now()) == Outcome(Holding(c), Ok(0)) && ValidKey(KEY)
  {
    var shop, t := TwoPlaces(c), Dated(c);
    assert ValidKey(KEY);
    hide NewHold, Midnight, PlanIn, SmallerOffers, HoldAdded, LetGo, ValidKey, Holding;
    FirstHoldAdmitted(shop, t, 0, index, KEY, c.Now());
    AdmittedIff(shop, t, 0, index, KEY, c.Now());
    AddedIsHolding(c, NewHold(shop, t, 0, index, KEY, c.Now()).tables);
  }

  lemma HoldingAfter(c: Scene, index: nat)
    requires c.Valid()
    requires var plan := PlanIn(TwoPlaces(c), Dated(c), c.service, c.Date(), c.Now(), Reach(c));
             plan.Ok? && index < |plan.value| && plan.value[index] == OpeningOn(c, 0)
    ensures Apply(TwoPlaces(c), Dated(c), HoldCall(0, 0, index, KEY), c.Now()) == Holding(c)
  {
    hide NewHold, CreateHold, Midnight, PlanIn, Holding;
    HoldingPlaced(c, index);
    CreateHoldMeaning(TwoPlaces(c), Dated(c), 0, 0, index, KEY, c.Now());
  }

  /** Asking for the opening on the second resource is refused, although the plan lists it. */
  lemma SecondRefused(c: Scene, index: nat, key: string)
    requires c.Valid()
    requires var plan := PlanIn(TwoPlaces(c), Holding(c), c.service, c.Date(), c.Now(), Reach(c));
             plan.Ok? && index < |plan.value| && plan.value[index] == OpeningOn(c, 1)
    ensures NewHold(TwoPlaces(c), Holding(c), 0, index, key, c.Now()).reply.Err?
  {
    var shop, t := TwoPlaces(c), Holding(c);
    var freed := LetGo(t, 0);
    AdmittedIff(shop, t, 0, index, key, c.Now());
    NothingTaken(c, freed, 0);
    OpeningOffered(c, freed, 0);
    hide NewHold, Offers, Spare, PlanIn, HoldAdded, LetGo, Midnight;
    assert SmallerOffers(shop, freed, c.service, 1, c.Date(), c.Now(), Reach(c), c.at);
  }

  lemma RunThree(shop: Shop, x: Call, y: Call, z: Call, now: int, mid: Tables)
    requires mid == Apply(shop, Apply(shop, EMPTY, x, now), y, now)
    ensures Run(EMPTY, [Step(shop, x, now), Step(shop, y, now), Step(shop, z, now)]) == Apply(shop, mid, z, now)
  {
    hide Apply;
    var steps := [Step(shop, x, now), Step(shop, y, now), Step(shop, z, now)];
    RunLast(EMPTY, steps);
    RunLast(EMPTY, steps[..2]);
    RunLast(EMPTY, steps[..1]);
    RunNone(EMPTY);
    assert steps[..2][..1] == steps[..1] && steps[..1][..0] == [];
  }

  lemma DatedIsFree(c: Scene)
    requires c.Valid()
    ensures Spare(TwoPlaces(c), Dated(c), 0, c.Now(), Reach(c), c.at, c.Cleaned())
  {
    hide TwoPlaces, Reach, Spare;
    NothingTaken(c, Dated(c), 0);
  }

  lemma HoldFirst(c: Scene) returns (steps: seq<Step>)
    requires c.Valid()
    ensures forall i :: 0 <= i < |steps| ==> steps[i].shop == TwoPlaces(c) && steps[i].now == c.Now()
    ensures Run(EMPTY, steps) == Holding(c)
  {
    hide TwoPlaces, Reach, Spare, Dated, PlanIn, Apply, Run, Holding;
    DatedIsFree(c);
    var first := OpeningListed(c, Dated(c), 0);
    DatedAfter(c);
    HoldingAfter(c, first);
    var shop := TwoPlaces(c);
    steps := [Step(shop, StartCall(0, 0, c.service, None), c.Now()), Step(shop, DateCall(0, 0, c.Date()), c.Now()),
              Step(shop, HoldCall(0, 0, first, KEY), c.Now())];
    RunThree(shop, StartCall(0, 0, c.service, None), DateCall(0, 0, c.Date()), HoldCall(0, 0, first, KEY), c.Now(),
             Dated(c));
  }

  lemma RefusedToo(c: Scene, index: nat, key: string)
    requires c.Valid() && key != KEY && NewHold(TwoPlaces(c), Holding(c), 0, index, key, c.Now()).reply.Err?
    ensures CreateHold(TwoPlaces(c), Holding(c), 0, 0, index, key, c.Now()).reply.Err?
  {
    hide NewHold, Midnight;
    CreateHoldMeaning(TwoPlaces(c), Holding(c), 0, 0, index, key, c.Now());
  }

  /**
    For every scene, three calls from empty tables after which the plan lists the opening and a request
    for exactly that entry, under a new key, is refused: the customer's own hold stood in the way of the
    resource the start moves to.
  */
  lemma RepickRefused(c: Scene, key: string) returns (steps: seq<Step>, index: nat)
    requires c.Valid() && ValidKey(key) && key != KEY
    ensures forall i :: 0 <= i < |steps| ==> steps[i].shop == TwoPlaces(c) && steps[i].now == c.Now()
    ensures var t := Run(EMPTY, steps);
            var plan := AvailabilityContext(TwoPlaces(c), t, c.service, c.Now());
            && plan.Some?
            && AvailableSlots(plan.value, c.Date(), c.Now()).Ok?
            && index < |AvailableSlots(plan.value, c.Date(), c.Now()).value|
            && AvailableSlots(plan.value, c.Date(), c.Now()).value[index] == OpeningOn(c, 1)
            && CreateHold(TwoPlaces(c), t, 0, 0, index, key, c.Now()).reply.Err?
  {
    var shop := TwoPlaces(c);
    steps := HoldFirst(c);
    FirstTaken(c);
    NothingTaken(c, Holding(c), 1);
    index := OpeningListed(c, Holding(c), 1);
    SecondRefused(c, index, key);
    ContextMeaning(shop, Holding(c), c.service, c.Now(), Reach(c));
    RefusedToo(c, index, key);
    hide *;
  }
}
