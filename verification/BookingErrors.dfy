/** Which error a refused call of the booking store raises, each exactly when. */
module BookingErrors {
  import opened Basics
  import opened Schedule
  import opened Availability
  import opened BookingDomain
  import opened BookingTables
  import opened BookingSteps
  import opened BookingInvariant
  import opened BookingConfirm
  import opened BookingPlan
  import opened BookingDrafts
  import opened BookingEffects
  import opened BookingGuarantee

  ghost predicate OwnsActive(t: Tables, customer: int, draft: nat) {
    draft < |t.drafts| && t.drafts[draft].customer == customer && t.drafts[draft].status == DraftActive
  }

  /** Starting fails for a service that cannot be booked, or a booking or conversation that is not the customer's. */
  lemma StartErrors(shop: Shop, t: Tables, customer: int, conversation: int, service: nat, moved: Option<nat>, now: int)
    ensures var reply := StartDraft(shop, t, customer, conversation, service, moved, now).reply;
            var onSale := service < |shop.services| && shop.services[service].active && shop.services[service].bookable
                          && exists r :: 0 <= r < |shop.resources| && service in shop.resources[r].services;
            && (reply == Err(PolicyViolated) <==> !onSale)
            && (reply == Err(NotFound) <==> onSale && !MayStart(shop, t, customer, conversation, service, moved))
            && (reply.Err? ==> reply.error in {PolicyViolated, NotFound})
  {
    if service < |shop.services| {
      SomeLinked(shop, t, service, now);
    }
    hide LinkedResources, CancelDrafts, ReleaseIdentity;
  }

  lemma DateErrors(shop: Shop, t: Tables, customer: int, draft: nat, date: int, now: int)
    ensures var reply := SelectDate(shop, t, customer, draft, date, now).reply;
            && (reply == Err(TooLate) <==> OwnsActive(t, customer, draft) && t.drafts[draft].expiresAt <= now)
            && (reply == Err(NotFound) <==>
                  !OwnsActive(t, customer, draft)
                  || (OwnsLive(t, customer, draft, now) && |shop.services| <= t.drafts[draft].service))
            && (reply == Err(PolicyViolated) <==>
                  && OwnsLive(t, customer, draft, now) && t.drafts[draft].service < |shop.services|
                  && !(LocalDate(shop, now) <= date <= LocalDate(shop, now + shop.policy.horizonDays * DAY)))
            && (reply.Err? ==> reply.error in {TooLate, NotFound, PolicyViolated})
  {
    hide LinkedResources, LocalDate;
  }

  lemma NewHoldErrors(shop: Shop, t: Tables, draft: nat, index: nat, key: string, now: int)
    requires draft < |t.drafts| && t.drafts[draft].date.Some? && t.drafts[draft].service < |shop.services|
    ensures var d, reply := t.drafts[draft], NewHold(shop, t, draft, index, key, now).reply;
            var s := shop.services[d.service];
            && (reply == Err(BadSchedule) <==> s.active && s.bookable && Broken(shop, d.service, d.date.value))
            && (reply.Err? ==> reply.error in {BadSchedule, Conflict})
  {
    var d, w := t.drafts[draft], QueryWindow(shop, now);
    PlanOverRows(shop, t, d.service, d.date.value, now, w);
    PlanOverRows(shop, LetGo(t, draft), d.service, d.date.value, now, w);
    ContextMeaning(shop, t, d.service, now, w);
    hide AvailableSlots, Broken, SlotOverRows, LetGo, PlaceHold, ContextIn;
  }

  /** A new hold request fails for its arguments, its draft, a broken schedule, or because its start is gone. */
  lemma HoldErrors(shop: Shop, t: Tables, customer: int, draft: nat, index: int, key: string, now: int)
    requires forall h :: 0 <= h < |t.holds| ==> t.holds[h].key != key
    requires draft < |t.drafts| ==> t.drafts[draft].service < |shop.services|
    ensures var reply := CreateHold(shop, t, customer, draft, index, key, now).reply;
            var valid := 0 < |key| <= 255 && 0 <= index;
            var dated := OwnsLive(t, customer, draft, now) && t.drafts[draft].date.Some?;
            && (reply == Err(NotFound) <==> valid && !OwnsActive(t, customer, draft))
            && (reply == Err(TooLate) <==>
                  valid && OwnsActive(t, customer, draft) && t.drafts[draft].expiresAt <= now)
            && (reply == Err(PolicyViolated) <==>
                  !valid || (OwnsLive(t, customer, draft, now) && t.drafts[draft].date.None?))
            && (reply == Err(BadSchedule) <==>
                  && valid && dated
                  && var s := shop.services[t.drafts[draft].service];
                     s.active && s.bookable && Broken(shop, t.drafts[draft].service, t.drafts[draft].date.value))
            && (reply.Err? ==> reply.error in {NotFound, TooLate, PolicyViolated, BadSchedule, Conflict})
  {
    hide NewHold, Broken;
    if 0 <= index && OwnsLive(t, customer, draft, now) && t.drafts[draft].date.Some? {
      NewHoldErrors(shop, t, draft, index, key, now);
    }
  }

  /** A hold request under a key on record fails only for another customer. */
  lemma KnownHoldErrors(shop: Shop, t: Tables, customer: int, draft: nat, index: int, key: string, now: int)
    requires ValidKey(key) && 0 <= index
    requires exists h :: 0 <= h < |t.holds| && t.holds[h].key == key
    requires HoldKeysDiffer(t.holds)
    ensures var reply := CreateHold(shop, t, customer, draft, index, key, now).reply;
            forall h :: 0 <= h < |t.holds| && t.holds[h].key == key ==>
              reply == if t.holds[h].customer == customer then Ok(h) else Err(NotFound)
  {
  }

  /** A first confirmation with a live hold fails for its key, its contact, its service, its move, or a collision. */
  lemma ConfirmErrors(shop: Shop, t: Tables, draft: nat, h: nat, key: string, reference: int, now: int)
    requires Inv(shop, t, now) && Ready(t, draft, h, now) && BookingByKey(t.bookings, key).None?
    requires t.holds[h].service < |shop.services|
    ensures var reply := Confirm(shop, t, t.drafts[draft].customer, draft, key, reference, now).reply;
            var d, s := t.drafts[draft], shop.services[t.holds[h].service];
            var asked := now < d.expiresAt && Filled(d.name) && Filled(d.phone) && s.active && s.bookable;
            && (reply == Err(TooLate) <==> ValidKey(key) && d.expiresAt <= now)
            && (reply == Err(NotFound) <==>
                  ValidKey(key) && asked && d.reschedules.Some? && t.bookings[d.reschedules.value].status != Confirmed)
            && (reply == Err(PolicyViolated) <==>
                  || !ValidKey(key)
                  || (now < d.expiresAt && !(Filled(d.name) && Filled(d.phone) && s.active && s.bookable))
                  || (asked && d.reschedules.Some? && t.bookings[d.reschedules.value].status == Confirmed
                      && t.bookings[d.reschedules.value].startAt - now < shop.policy.changeCutoff))
            && (reply.Err? ==> reply.error in {TooLate, NotFound, PolicyViolated, Conflict})
  {
    hide WithinCapacity, HistoryKept, EventsKept, Sized, OneActive, Consume, Excluded, HoldTaken, ReferenceTaken,
         KeyPublished, SequenceTaken, LastSequence;
    HoldFacts(t);
  }

  /** A cancellation fails for a booking that is not the customer's, or past its cutoff. */
  lemma CancelErrors(shop: Shop, t: Tables, customer: int, b: nat, now: int)
    requires Inv(shop, t, now)
    ensures var reply := CancelBooking(shop, t, customer, b, now).reply;
            var own := b < |t.bookings| && t.bookings[b].customer == customer;
            && (reply == Err(NotFound) <==> !own)
            && (reply == Err(PolicyViolated) <==>
                  own && t.bookings[b].status == Confirmed && t.bookings[b].startAt - now < shop.policy.changeCutoff)
            && (reply.Err? ==> reply.error in {NotFound, PolicyViolated})
  {
    CancelSucceedsIff(shop, t, customer, b, now);
    hide WithinCapacity, HistoryKept, EventsKept, Sized, KeyPublished, SequenceTaken, LastSequence;
  }
}
