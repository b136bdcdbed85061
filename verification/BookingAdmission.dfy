/** When a hold request for a listed start is admitted, and exactly what it changes. */
module BookingAdmission {
  import opened Basics
  import opened Availability
  import opened BusinessTime
  import opened BookingTables
  import opened BookingSteps
  import opened BookingPlan

  /** Nothing in a seq has changed but what is at `i`. */
  ghost predicate OnlyAt<T>(before: seq<T>, after: seq<T>, i: nat) {
    |after| == |before| && forall k :: 0 <= k < |before| && k != i ==> after[k] == before[k]
  }

  lemma SubsetSize(a: set<nat>, b: set<nat>)
    requires a <= b
    ensures |a| <= |b|
  {
    assert b == a + (b - a);
  }

  /** Giving up a draft's own hold never takes an offer away. */
  lemma FreedOffers(shop: Shop, t: Tables, draft: nat, service: nat, r: nat, date: int, now: int, w: Window, start: int)
    requires draft < |t.drafts| && service < |shop.services| && r < |shop.resources|
    requires Offers(shop, t, service, r, date, now, w, start)
    ensures Offers(shop, LetGo(t, draft), service, r, date, now, w, start)
  {
    hide OnGrid, FitsHours, Spare, LetGo;
    var end := start + shop.services[service].duration + shop.services[service].buffer;
    FreedSpare(shop, t, draft, r, now, w, start, end);
  }

  lemma FreedSpare(shop: Shop, t: Tables, draft: nat, r: nat, now: int, w: Window, start: int, end: int)
    requires draft < |t.drafts| && r < |shop.resources| && Spare(shop, t, r, now, w, start, end)
    ensures Spare(shop, LetGo(t, draft), r, now, w, start, end)
  {
    hide HoldsMeeting, BookingsMeeting, Withdrawn, LetGo;
    FreedMeeting(t, draft, r, now, w, start, end);
    SubsetSize(HoldsMeeting(LetGo(t, draft).holds, r, now, w, start, end),
               HoldsMeeting(t.holds, r, now, w, start, end));
  }

  lemma FreedMeeting(t: Tables, draft: nat, r: nat, now: int, w: Window, start: int, end: int)
    requires draft < |t.drafts|
    ensures HoldsMeeting(LetGo(t, draft).holds, r, now, w, start, end) <= HoldsMeeting(t.holds, r, now, w, start, end)
    ensures LetGo(t, draft).bookings == t.bookings
  {
  }

  /** The listed slot is still planned once the old hold is gone, unless a smaller resource has come free for it. */
  lemma StillPlanned(shop: Shop, t: Tables, draft: nat, service: nat, date: int, now: int, w: Window, slot: Slot)
    requires draft < |t.drafts| && service < |shop.services|
    requires SlotOverRows(shop, t, service, date, now, w, slot)
    ensures SlotOverRows(shop, LetGo(t, draft), service, date, now, w, slot) <==>
            !SmallerOffers(shop, LetGo(t, draft), service, slot.resourceId, date, now, w, slot.startAt)
  {
    hide Offers, LetGo, SmallerOffers;
    FreedOffers(shop, t, draft, service, slot.resourceId, date, now, w, slot.startAt);
  }

  /** Exactly what an admitted request changes: the old hold is let go and the new one is on the listed slot. */
  ghost predicate HoldAdded(shop: Shop, t: Tables, draft: nat, slot: Slot, key: string, now: int, t': Tables)
    requires draft < |t.drafts|
  {
    var d, h := t.drafts[draft], |t.holds|;
    && d.service < |shop.services|
    && t'.bookings == t.bookings && t'.history == t.history && t'.outbox == t.outbox
    && OnlyAt(t.drafts, t'.drafts, draft) && t'.drafts[draft] == d.(hold := Some(h))
    && |t'.holds| == h + 1
    && (forall i :: 0 <= i < h ==>
          t'.holds[i] == if d.hold == Some(i) && t.holds[i].status == HoldActive
                         then t.holds[i].(status := HoldReleased) else t.holds[i])
    && var hold := t'.holds[h];
    && hold.customer == d.customer && hold.conversation == d.conversation && hold.draft == draft
    && hold.service == d.service && hold.resource == slot.resourceId && hold.startAt == slot.startAt
    && hold.endAt == slot.startAt + shop.services[d.service].duration + shop.services[d.service].buffer
    && hold.expiresAt == now + shop.policy.holdDuration && hold.key == key && hold.status == HoldActive
  }

  lemma PlacedIsAdded(shop: Shop, t: Tables, draft: nat, slot: Slot, key: string, now: int)
    requires draft < |t.drafts| && t.drafts[draft].service < |shop.services|
    requires slot.endAt == slot.startAt + shop.services[t.drafts[draft].service].duration
    ensures HoldAdded(shop, t, draft, slot, key, now, PlaceHold(shop, LetGo(t, draft), draft, slot, key, now))
  {
  }

  /** Two slots of one plan with the same start and resource are the same. */
  lemma FoundIsListed(shop: Shop, t: Tables, service: nat, date: int, now: int, w: Window, again: seq<Slot>, slot: Slot)
    requires service < |shop.services| && slot.endAt == slot.startAt + shop.services[service].duration
    requires forall s :: s in again ==> SlotOverRows(shop, t, service, date, now, w, s)
    ensures FindSlot(again, slot.startAt, slot.resourceId) == if slot in again then Some(slot) else None
  {
    hide Offers;
    var found := FindSlot(again, slot.startAt, slot.resourceId);
    if found.Some? {
      assert SlotOverRows(shop, t, service, date, now, w, found.value);
    }
  }

  /**
    A request for a listed start is admitted exactly when no smaller resource has come free for it by
    letting the draft's old hold go, and then holds the listed slot. Otherwise nothing changes.
  */
  lemma AdmittedIff(shop: Shop, t: Tables, draft: nat, index: nat, key: string, now: int)
    requires draft < |t.drafts| && t.drafts[draft].date.Some? && t.drafts[draft].service < |shop.services|
    ensures var d, w := t.drafts[draft], QueryWindow(shop, now);
            var plan := PlanIn(shop, t, d.service, d.date.value, now, w);
            var o := NewHold(shop, t, draft, index, key, now);
            && (o.reply.Ok? <==>
                  && plan.Ok? && index < |plan.value|
                  && var slot := plan.value[index];
                     !SmallerOffers(shop, LetGo(t, draft), d.service, slot.resourceId, d.date.value, now, w,
                                    slot.startAt))
            && (o.reply.Ok? ==>
                  o.reply == Ok(|t.holds|) && HoldAdded(shop, t, draft, plan.value[index], key, now, o.tables))
            && (o.reply.Err? ==> o.tables == t)
  {
    var d, w, freed := t.drafts[draft], QueryWindow(shop, now), LetGo(t, draft);
    var plan := PlanIn(shop, t, d.service, d.date.value, now, w);
    var again := PlanIn(shop, freed, d.service, d.date.value, now, w);
    PlanOverRows(shop, t, d.service, d.date.value, now, w);
    PlanOverRows(shop, freed, d.service, d.date.value, now, w);
    ContextMeaning(shop, t, d.service, now, w);
    hide AvailableSlots, Broken, SlotOverRows, SmallerOffers, LetGo, PlaceHold, HoldAdded, ContextIn;
    if plan.Ok? && index < |plan.value| {
      var slot := plan.value[index];
      assert SlotOverRows(shop, t, d.service, d.date.value, now, w, slot);
      StillPlanned(shop, t, draft, d.service, d.date.value, now, w, slot);
      SlotEnds(shop, t, d.service, d.date.value, now, w, slot);
      FoundIsListed(shop, freed, d.service, d.date.value, now, w, again.value, slot);
      PlacedIsAdded(shop, t, draft, slot, key, now);
      assert FindSlot(again.value, slot.startAt, slot.resourceId).Some? <==> slot in again.value;
    }
  }

  lemma SlotEnds(shop: Shop, t: Tables, service: nat, date: int, now: int, w: Window, slot: Slot)
    requires service < |shop.services| && SlotOverRows(shop, t, service, date, now, w, slot)
    ensures slot.endAt == slot.startAt + shop.services[service].duration
  {
    hide Offers;
  }

  /** Without an old hold to give up, every listed start is admitted. */
  lemma FirstHoldAdmitted(shop: Shop, t: Tables, draft: nat, index: nat, key: string, now: int)
    requires draft < |t.drafts| && t.drafts[draft].date.Some? && t.drafts[draft].hold.None?
    requires t.drafts[draft].service < |shop.services|
    requires var d := t.drafts[draft];
             var plan := PlanIn(shop, t, d.service, d.date.value, now, QueryWindow(shop, now));
             plan.Ok? && index < |plan.value|
    ensures NewHold(shop, t, draft, index, key, now).reply == Ok(|t.holds|)
  {
    var d, w := t.drafts[draft], QueryWindow(shop, now);
    AdmittedIff(shop, t, draft, index, key, now);
    PlanOverRows(shop, t, d.service, d.date.value, now, w);
    assert LetGo(t, draft) == t;
    hide AvailableSlots, Broken, Offers, SmallerOffers, LetGo, NewHold, HoldAdded, ContextIn;
    var slot := PlanIn(shop, t, d.service, d.date.value, now, w).value[index];
    assert SlotOverRows(shop, t, d.service, d.date.value, now, w, slot);
  }

  /**
    The whole hold request: a key seen before answers with its hold to the same customer, and changes
    nothing; a new key needs a live draft of the customer with a date, and an admitted listed start.
  */
  lemma CreateHoldMeaning(shop: Shop, t: Tables, customer: int, draft: nat, index: int, key: string, now: int)
    requires draft < |t.drafts| ==> t.drafts[draft].service < |shop.services|
    ensures var o := CreateHold(shop, t, customer, draft, index, key, now);
            var known := exists h :: 0 <= h < |t.holds| && t.holds[h].key == key;
            && (o.reply.Err? || known ==> o.tables == t)
            && (ValidKey(key) && 0 <= index && known && o.reply.Ok? ==>
                  o.reply.value < |t.holds| && t.holds[o.reply.value].key == key
                  && t.holds[o.reply.value].customer == customer)
            && (!known ==>
                  (o.reply.Ok? <==>
                     && ValidKey(key) && 0 <= index && draft < |t.drafts|
                     && t.drafts[draft].customer == customer && t.drafts[draft].status == DraftActive
                     && now < t.drafts[draft].expiresAt && t.drafts[draft].date.Some?
                     && NewHold(shop, t, draft, index, key, now).reply.Ok?))
            && (!known && o.reply.Ok? ==> o == NewHold(shop, t, draft, index, key, now))
  {
    hide NewHold;
    if 0 <= index && draft < |t.drafts| && t.drafts[draft].date.Some? {
      AdmittedIff(shop, t, draft, index, key, now);
      hide HoldAdded, PlanIn, SmallerOffers;
    }
  }
}
