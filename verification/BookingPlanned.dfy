/**
  Runs with a fixed policy and catalogue of services, and no assumption on the minimum notice: which
  services rows can name, and what follows when the notice covers exactly those.
*/
module BookingPlanned {
  import opened Basics
  import opened Schedule
  import opened BusinessTime
  import opened Availability
  import opened BookingTables
  import opened BookingSteps
  import opened BookingWindow
  import opened BookingInvariant
  import opened BookingRuns
  import opened BookingScenario

  /** The configuration keeps this policy and catalogue, and the sizes of the base configuration. */
  ghost predicate SameCatalog(policy: Policy, services: seq<Service>, base: Shop, shop: Shop) {
    shop.policy == policy && shop.services == services && SameSizes(base, shop)
  }

  /** Times do not run backwards and the catalogue stays; opening hours and the rest are free to change. */
  ghost predicate Carried(policy: Policy, services: seq<Service>, base: Shop, start: int, steps: seq<Step>) {
    && (forall i :: 0 <= i < |steps| ==> SameCatalog(policy, services, base, steps[i].shop))
    && (forall i :: 0 <= i < |steps| ==> start <= steps[i].now)
    && (forall i, j :: 0 <= i < j < |steps| ==> steps[i].now <= steps[j].now)
  }

  /** If anything can be planned at all, the notice covers the buffer of every service on sale that fits a day. */
  ghost predicate NoticeCovers(policy: Policy, services: seq<Service>) {
    forall s :: 0 <= s < |services| && CanPlan(policy, services[s]) ==> services[s].buffer <= policy.minimumNotice
  }

  /** Holds and bookings name only services that can be planned. */
  ghost predicate Planned(policy: Policy, services: seq<Service>, t: Tables) {
    && (forall h :: 0 <= h < |t.holds| ==>
          t.holds[h].service < |services| && CanPlan(policy, services[t.holds[h].service]))
    && (forall b :: 0 <= b < |t.bookings| ==>
          t.bookings[b].service < |services| && CanPlan(policy, services[t.bookings[b].service]))
  }

  /** A slot is only ever planned for a service that can be planned. */
  lemma PlanNeedsPlannable(shop: Shop, t: Tables, service: nat, date: int, now: int)
    requires AvailabilityContext(shop, t, service, now).Some?
    requires var plan := AvailableSlots(AvailabilityContext(shop, t, service, now).value, date, now);
             plan.Ok? && plan.value != []
    ensures service < |shop.services| && CanPlan(shop.policy, shop.services[service])
  {
    var ctx := AvailabilityContext(shop, t, service, now).value;
    AvailabilityMeaning(ctx, date, now);
    var slot := AvailableSlots(ctx, date, now).value[0];
    hide AvailableSlots, LinkedResources;
    assert IsSlot(ctx, date, now, slot);
    var r :| r in ctx.resources && r.id == slot.resourceId && Eligible(ctx, date, now, r, slot.startAt);
    EligibleIsShort(ctx, date, now, r, slot.startAt);
  }

  lemma EligibleIsShort(ctx: Context, date: int, now: int, r: AvailableResource, start: int)
    requires Eligible(ctx, date, now, r, start)
    ensures ctx.Occupied() < DAY && ctx.policy.minimumNotice <= ctx.policy.horizonDays * DAY
  {
    hide HasCapacity;
    assert WellFormedSpans(EffectiveDay(r.schedule, date).value);
    hide EffectiveDay;
  }

  lemma NewHoldPlans(shop: Shop, t: Tables, draft: nat, index: nat, key: string, now: int)
    requires draft < |t.drafts| && t.drafts[draft].date.Some? && Planned(shop.policy, shop.services, t)
    ensures Planned(shop.policy, shop.services, NewHold(shop, t, draft, index, key, now).tables)
  {
    hide AvailabilityContext, AvailableSlots, CanPlan;
    if NewHold(shop, t, draft, index, key, now).reply.Ok? {
      PlanNeedsPlannable(shop, t, t.drafts[draft].service, t.drafts[draft].date.value, now);
    }
  }

  lemma ApplyPlans(shop: Shop, t: Tables, call: Call, now: int)
    requires Planned(shop.policy, shop.services, t)
    ensures Planned(shop.policy, shop.services, Apply(shop, t, call, now))
  {
    hide AvailabilityContext, CanPlan, NewHold, Excluded, HoldTaken, ReferenceTaken, KeyPublished, SequenceTaken,
         SortBy, LastSequence, Batch, LatestActive;
    match call
    case HoldCall(c, d, i, key) =>
      if 0 <= i && d < |t.drafts| && t.drafts[d].date.Some? {
        NewHoldPlans(shop, t, d, i, key, now);
      }
    case _ =>
  }

  /** With a notice that covers what can be planned, the invariant holds over every such run. */
  lemma {:induction false} CarriedRunsKeep(policy: Policy, services: seq<Service>, base: Shop, start: int,
                                           steps: seq<Step>)
    requires NoticeCovers(policy, services) && Carried(policy, services, base, start, steps)
    ensures Inv(base, Run(EMPTY, steps), Clock(start, steps)) && Planned(policy, services, Run(EMPTY, steps))
  {
    hide Inv, Apply, CanPlan;
    if steps == [] {
      EmptyIsSafe(base, start);
    } else {
      var init, last := steps[..|steps| - 1], steps[|steps| - 1];
      var t := Run(EMPTY, init);
      CarriedRunsKeep(policy, services, base, start, init);
      assert SameCatalog(policy, services, base, last.shop);
      InvTransfers(base, last.shop, t, Clock(start, init));
      RowsCovered(policy, services, last.shop, t);
      ApplyKeeps(last.shop, t, last.call, Clock(start, init), last.now);
      ApplyPlans(last.shop, t, last.call, last.now);
      SameSizesBack(base, last.shop);
      InvTransfers(last.shop, base, Run(EMPTY, steps), last.now);
    }
  }

  lemma RowsCovered(policy: Policy, services: seq<Service>, shop: Shop, t: Tables)
    requires NoticeCovers(policy, services) && Planned(policy, services, t)
    requires shop.policy == policy && shop.services == services
    ensures NoticeCoversRows(shop, t.bookings)
  {
    hide CanPlan;
  }
}
