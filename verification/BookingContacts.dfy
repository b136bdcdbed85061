/** What every draft and every booking carries, over runs of any calls under any configuration. */
module BookingContacts {
  import opened Basics
  import opened Availability
  import opened Contact
  import opened BookingTables
  import opened BookingSteps
  import opened BookingRuns

  /** A draft's name and phone number are in stored form, and it has a hold only once it has a date. */
  ghost predicate CleanDraft(d: DraftRow) {
    && (d.name.Some? ==> NormalName(d.name.value) == d.name.value)
    && (d.phone.Some? ==> StoredPhone(d.phone.value) == d.phone)
    && (d.hold.Some? ==> d.date.Some?)
  }

  /** A booking can be called back: it has a name and a phone number, both in stored form. */
  ghost predicate CleanBooking(b: BookingRow) {
    && ValidKey(b.key)
    && Filled(b.name) && NormalName(b.name.value) == b.name.value
    && Filled(b.phone) && StoredPhone(b.phone.value) == b.phone
  }

  ghost predicate Clean(t: Tables) {
    && (forall d :: 0 <= d < |t.drafts| ==> CleanDraft(t.drafts[d]))
    && (forall b :: 0 <= b < |t.bookings| ==> CleanBooking(t.bookings[b]))
  }

  lemma ContactClean(shop: Shop, t: Tables, customer: int, draft: nat,
                     name: Option<string>, phone: Option<string>, note: Option<string>, now: int)
    requires Clean(t)
    ensures Clean(UpdateContact(shop, t, customer, draft, name, phone, note, now).tables)
  {
    hide CleanBooking, NormalName, StoredPhone;
    if name.Some? {
      NameIsStable(name.value);
    }
    if phone.Some? && StoredPhone(phone.value).Some? {
      PhoneIsStable(phone.value);
    }
  }

  lemma CreateHoldClean(shop: Shop, t: Tables, customer: int, draft: nat, index: int, key: string, now: int)
    requires Clean(t)
    ensures Clean(CreateHold(shop, t, customer, draft, index, key, now).tables)
  {
    hide AvailabilityContext, AvailableSlots, FindSlot, CleanBooking, NormalName, StoredPhone;
  }

  lemma ConfirmClean(shop: Shop, t: Tables, customer: int, draft: nat, key: string, reference: int, now: int)
    requires Clean(t)
    ensures Clean(Confirm(shop, t, customer, draft, key, reference, now).tables)
  {
    hide Excluded, HoldTaken, SequenceTaken, ReferenceTaken, KeyPublished, AlreadyConfirmed, LastSequence,
         NormalName, StoredPhone;
  }

  lemma ApplyClean(shop: Shop, t: Tables, call: Call, now: int)
    requires Clean(t)
    ensures Clean(Apply(shop, t, call, now))
  {
    hide CreateHold, UpdateContact, Confirm, NormalName, StoredPhone, AvailabilityContext;
    match call
    case HoldCall(c, d, i, key) => CreateHoldClean(shop, t, c, d, i, key, now);
    case ContactCall(c, d, name, phone, note) => ContactClean(shop, t, c, d, name, phone, note, now);
    case ConfirmCall(c, d, key, reference) => ConfirmClean(shop, t, c, d, key, reference, now);
    case _ =>
  }

  /** No run makes a booking without a key, a name and a phone number, or a held draft without a date. */
  lemma {:induction false} RunsAreClean(steps: seq<Step>)
    ensures Clean(Run(EMPTY, steps))
  {
    if steps != [] {
      RunsAreClean(steps[..|steps| - 1]);
      var last := steps[|steps| - 1];
      ApplyClean(last.shop, Run(EMPTY, steps[..|steps| - 1]), last.call, last.now);
      hide Apply, Clean;
    }
  }
}
