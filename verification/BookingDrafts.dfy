/** What the calls around a draft change: starting, dating, abandoning and expiring, and the sweep of due holds. */
module BookingDrafts {
  import opened Basics
  import opened Contact
  import opened Schedule
  import opened Text
  import opened BookingDomain
  import opened BookingTables
  import opened BookingSteps
  import opened BookingInvariant
  import opened BookingAdmission
  import opened BookingPlan

  // --- One active draft and its hold ------------------------------------------------------

  ghost predicate ActiveOf(t: Tables, customer: int, conversation: int, d: nat) {
    && d < |t.drafts| && t.drafts[d].status == DraftActive
    && t.drafts[d].customer == customer && t.drafts[d].conversation == conversation
  }

  ghost predicate HeldOf(t: Tables, customer: int, conversation: int, h: nat) {
    && h < |t.holds| && t.holds[h].status == HoldActive
    && t.holds[h].customer == customer && t.holds[h].conversation == conversation
  }

  /** Bookings, history and events are as they were. */
  ghost predicate RecordsSame(t: Tables, t': Tables) {
    t'.bookings == t.bookings && t'.history == t.history && t'.outbox == t.outbox
  }

  /** The identity's active drafts are cancelled and its active holds released; nothing else changes. */
  ghost predicate LetsAllGo(t: Tables, customer: int, conversation: int, drafts: seq<DraftRow>, holds: seq<HoldRow>) {
    && |drafts| == |t.drafts| && |holds| == |t.holds|
    && (forall d: nat :: d < |t.drafts| ==>
          drafts[d] == if ActiveOf(t, customer, conversation, d)
                       then t.drafts[d].(status := DraftCancelled) else t.drafts[d])
    && (forall h: nat :: h < |t.holds| ==>
          holds[h] == if HeldOf(t, customer, conversation, h)
                      then t.holds[h].(status := HoldReleased) else t.holds[h])
  }

  /** The draft's own hold expires with it, if it is still active; nothing else changes. */
  ghost predicate Expires(t: Tables, d: nat, t': Tables)
    requires d < |t.drafts|
  {
    && RecordsSame(t, t')
    && OnlyAt(t.drafts, t'.drafts, d) && t'.drafts[d] == t.drafts[d].(status := DraftExpired)
    && |t'.holds| == |t.holds|
    && forall h: nat :: h < |t.holds| ==>
         t'.holds[h] == if t.drafts[d].hold == Some(h) && t.holds[h].status == HoldActive
                        then t.holds[h].(status := HoldExpired) else t.holds[h]
  }

  /** What starting a draft asks for. */
  ghost predicate MayStart(shop: Shop, t: Tables, customer: int, conversation: int, service: nat, moved: Option<nat>) {
    && service < |shop.services| && shop.services[service].active && shop.services[service].bookable
    && (exists r :: 0 <= r < |shop.resources| && service in shop.resources[r].services)
    && (moved.Some? ==>
          && moved.value < |t.bookings| && t.bookings[moved.value].status == Confirmed
          && t.bookings[moved.value].customer == customer && t.bookings[moved.value].service == service)
    && conversation in shop.owners && shop.owners[conversation] == customer
  }

  lemma SomeLinked(shop: Shop, t: Tables, service: nat, now: int)
    requires service < |shop.services|
    ensures AvailabilityContext(shop, t, service, now).value.resources != [] <==>
            exists r :: 0 <= r < |shop.resources| && service in shop.resources[r].services
  {
    ContextMeaning(shop, t, service, now, QueryWindow(shop, now));
    hide ContextIn, QueryWindow;
    var linked := AvailabilityContext(shop, t, service, now).value.resources;
    if linked != [] {
      var first := linked[0];
      assert first in linked && first.id == first.id;
      assert service in shop.resources[first.id].services;
    }
    if r: nat :| r < |shop.resources| && service in shop.resources[r].services {
      assert exists q :: q in linked && q.id == r;
    }
  }

  /** A new draft is the identity's only active one; what the identity had is let go. */
  lemma StartMeaning(shop: Shop, t: Tables, customer: int, conversation: int, service: nat, moved: Option<nat>,
                     now: int)
    ensures var o := StartDraft(shop, t, customer, conversation, service, moved, now);
            && (o.reply.Ok? <==> MayStart(shop, t, customer, conversation, service, moved))
            && (o.reply.Err? ==> o.tables == t)
            && (o.reply.Ok? ==>
                  && o.reply == Ok(|t.drafts|) && RecordsSame(t, o.tables) && |o.tables.drafts| == |t.drafts| + 1
                  && LetsAllGo(t, customer, conversation, o.tables.drafts[..|t.drafts|], o.tables.holds)
                  && o.tables.drafts[|t.drafts|] ==
                     DraftRow(customer, conversation, service, None, None, None, None, None, moved, DraftActive,
                              now + shop.policy.draftDuration))
  {
    if service < |shop.services| {
      SomeLinked(shop, t, service, now);
    }
    hide LinkedResources;
    var cancelled := CancelDrafts(t.drafts, customer, conversation);
    assert forall row: DraftRow :: (cancelled + [row])[..|t.drafts|] == cancelled;
  }

  /** Abandoning cancels the identity's active drafts, releases its active holds, and answers whether there were any. */
  lemma AbandonMeaning(t: Tables, customer: int, conversation: int)
    requires Linked(t)
    ensures var o := CancelDraft(t, customer, conversation);
            && RecordsSame(t, o.tables)
            && LetsAllGo(t, customer, conversation, o.tables.drafts, o.tables.holds)
            && o.reply == Ok(exists d: nat :: ActiveOf(t, customer, conversation, d))
  {
    HoldFacts(t);
    var found := LatestActive(t.drafts, customer, conversation);
    if found.Some? {
      assert ActiveOf(t, customer, conversation, found.value);
    }
  }

  /** The active draft is answered while it lasts; past its expiry it expires with its hold, and none is answered. */
  lemma ActiveMeaning(t: Tables, customer: int, conversation: int, now: int)
    requires OneActive(t.drafts)
    ensures var o := GetActiveDraft(t, customer, conversation, now);
            && o.reply.Ok?
            && (forall d: nat :: ActiveOf(t, customer, conversation, d) ==>
                  if now < t.drafts[d].expiresAt then o.reply == Ok(Some(d)) && o.tables == t
                  else o.reply == Ok(None) && Expires(t, d, o.tables))
            && ((forall d: nat :: !ActiveOf(t, customer, conversation, d)) ==> o.reply == Ok(None) && o.tables == t)
  {
    var found := LatestActive(t.drafts, customer, conversation);
    if found.Some? {
      assert ActiveOf(t, customer, conversation, found.value);
      forall d: nat | ActiveOf(t, customer, conversation, d) ensures d == found.value {
      }
    }
  }

  /** The draft's active hold is answered while it lasts; past its expiry it expires, and none is answered. */
  lemma HoldMeaning(t: Tables, customer: int, draft: nat, now: int)
    requires Linked(t)
    ensures var o := GetHold(t, customer, draft, now);
            && o.reply.Ok? && o.tables.drafts == t.drafts && RecordsSame(t, o.tables)
            && (forall h: nat :: h < |t.holds| && t.holds[h].draft == draft && t.holds[h].customer == customer
                                 && t.holds[h].status == HoldActive ==>
                  if now < t.holds[h].expiresAt then o.reply == Ok(Some(h)) && o.tables == t
                  else o.reply == Ok(None) && OnlyAt(t.holds, o.tables.holds, h)
                       && o.tables.holds[h] == t.holds[h].(status := HoldExpired))
            && ((forall h :: 0 <= h < |t.holds| ==>
                   t.holds[h].draft != draft || t.holds[h].customer != customer || t.holds[h].status != HoldActive) ==>
                 o.reply == Ok(None) && o.tables == t)
  {
    HoldFacts(t);
    hide Linked;
    var wanted := (h: HoldRow) => h.customer == customer && h.draft == draft && h.status == HoldActive;
    var found := HoldOfDraft(t.holds, customer, draft);
    assert found == FindLast(t.holds, wanted);
    forall h: nat | h < |t.holds| && t.holds[h].draft == draft && t.holds[h].customer == customer
                    && t.holds[h].status == HoldActive
      ensures found == Some(h)
    {
      assert wanted(t.holds[h]);
    }
  }

  // --- Dates and contacts -----------------------------------------------------------------

  /** The customer's own draft, active and not past its expiry. */
  ghost predicate OwnsLive(t: Tables, customer: int, draft: nat, now: int) {
    && draft < |t.drafts| && t.drafts[draft].customer == customer
    && t.drafts[draft].status == DraftActive && now < t.drafts[draft].expiresAt
  }

  /** A date is stored exactly on an own live draft and within the local dates of the horizon; nothing else changes. */
  lemma DateMeaning(shop: Shop, t: Tables, customer: int, draft: nat, date: int, now: int)
    ensures var o := SelectDate(shop, t, customer, draft, date, now);
            && (o.reply.Ok? <==>
                  && OwnsLive(t, customer, draft, now) && t.drafts[draft].service < |shop.services|
                  && LocalDate(shop, now) <= date <= LocalDate(shop, now + shop.policy.horizonDays * DAY))
            && (o.reply.Err? ==> o.tables == t)
            && (o.reply.Ok? ==>
                  && RecordsSame(t, o.tables) && o.tables.holds == t.holds
                  && OnlyAt(t.drafts, o.tables.drafts, draft)
                  && o.tables.drafts[draft] == t.drafts[draft].(date := Some(date)))
  {
    hide LinkedResources, LocalDate;
  }

  /** Stored contact fields are the given ones in stored form, within the limits; a field not given stays. */
  lemma ContactMeaning(shop: Shop, t: Tables, customer: int, draft: nat,
                       name: Option<string>, phone: Option<string>, note: Option<string>, now: int)
    ensures var o := UpdateContact(shop, t, customer, draft, name, phone, note, now);
            && (o.reply.Err? ==> o.tables == t)
            && (o.reply.Ok? ==>
                  && OwnsLive(t, customer, draft, now)
                  && RecordsSame(t, o.tables) && o.tables.holds == t.holds
                  && OnlyAt(t.drafts, o.tables.drafts, draft)
                  && var d, d' := t.drafts[draft], o.tables.drafts[draft];
                  && d' == d.(name := d'.name, phone := d'.phone, note := d'.note)
                  && (name.None? ==> d'.name == d.name) && (phone.None? ==> d'.phone == d.phone)
                  && (note.None? ==> d'.note == d.note)
                  && (name.Some? ==>
                        && d'.name.Some? && Words(d'.name.value) == Words(name.value) != []
                        && |d'.name.value| <= shop.policy.nameLimit)
                  && (phone.Some? ==>
                        && |phone.value| <= shop.policy.phoneLimit && d'.phone.Some?
                        && Digits(d'.phone.value) == Digits(Strip(phone.value)))
                  && (note.Some? ==>
                        && (d'.note.None? <==> Strip(note.value) == "")
                        && (d'.note.Some? ==>
                              d'.note.value == Strip(note.value) && |d'.note.value| <= shop.policy.noteLimit)))
  {
    hide Strip, Words, Digits;
    if name.Some? {
      NameIsStable(name.value);
    }
    if phone.Some? && StoredPhone(phone.value).Some? {
      PhoneKeepsDigits(phone.value);
    }
    hide NormalName, StoredPhone;
  }

  // --- The sweep --------------------------------------------------------------------------

  ghost function DueSet(holds: seq<HoldRow>, now: int): set<nat> {
    set h: nat | h < |holds| && holds[h].status == HoldActive && holds[h].expiresAt <= now
  }

  lemma {:induction false} DueDistinct(holds: seq<HoldRow>, now: int)
    ensures Distinct(DueHolds(holds, now))
  {
    if holds != [] {
      var rest := DueHolds(holds[..|holds| - 1], now);
      DueDistinct(holds[..|holds| - 1], now);
      assert forall i :: 0 <= i < |rest| ==> rest[i] in rest;
    }
  }

  lemma DueAsSet(holds: seq<HoldRow>, now: int)
    ensures Members(DueHolds(holds, now)) == DueSet(holds, now)
    ensures |DueHolds(holds, now)| == |DueSet(holds, now)|
    ensures forall h: nat :: h in DueHolds(holds, now) <==> h in DueSet(holds, now)
  {
    var due := DueHolds(holds, now);
    DueDistinct(holds, now);
    DistinctSize(due);
    hide DueHolds;
    forall h: nat ensures h in due <==> h in DueSet(holds, now) {
      assert h < |holds| ==> (Due(now)(holds[h]) <==> holds[h].status == HoldActive && holds[h].expiresAt <= now);
    }
    assert Members(due) == DueSet(holds, now);
  }

  lemma ExpiryOrder(holds: seq<HoldRow>, h: nat, g: nat)
    requires h < |holds| && g < |holds| && ExpiryOf(holds)(h) <= ExpiryOf(holds)(g)
    ensures holds[h].expiresAt <= holds[g].expiresAt
  {
  }

  /** A sweep's batch is as large as it may be, and nothing left out was due earlier. */
  lemma BatchMeaning(holds: seq<HoldRow>, now: int, limit: nat)
    ensures var batch := Batch(holds, now, limit);
            && Distinct(batch) && |batch| == Min(limit, |DueSet(holds, now)|)
            && (forall h: nat :: h in batch ==> h in DueSet(holds, now))
            && (forall h, g: nat :: h in batch && g in DueSet(holds, now) && g !in batch ==>
                  h < |holds| && g < |holds| && holds[h].expiresAt <= holds[g].expiresAt)
  {
    var due, batch := DueHolds(holds, now), Batch(holds, now, limit);
    DueDistinct(holds, now);
    DueAsSet(holds, now);
    TakesFirst(due, ExpiryOf(holds), limit);
    assert batch == Limited(SortBy(due, ExpiryOf(holds)), limit);
    hide SortBy, DueHolds, Batch, Limited, ExpiryOf, Distinct, Sorted, Due;
    forall h, g: nat | h in batch && g in DueSet(holds, now) && g !in batch
      ensures h < |holds| && g < |holds| && holds[h].expiresAt <= holds[g].expiresAt
    {
      assert h in due && g in due;
      ExpiryOrder(holds, h, g);
    }
  }

  /** The holds a call has changed. */
  ghost function Changed(before: seq<HoldRow>, after: seq<HoldRow>): set<nat>
    requires |after| == |before|
  {
    set h: nat | h < |before| && after[h] != before[h]
  }

  lemma ExpireMeaning(holds: seq<HoldRow>, batch: seq<nat>, now: int)
    requires forall h: nat :: h in batch ==> h in DueSet(holds, now)
    ensures var after := ExpireAll(holds, batch);
            && (forall h: nat :: h in Changed(holds, after) <==> h in batch)
            && (forall h: nat :: h in batch ==> h < |holds| && after[h] == holds[h].(status := HoldExpired))
  {
    var after := ExpireAll(holds, batch);
    forall h: nat | h < |holds| ensures after[h] != holds[h] <==> h in batch {
    }
  }

  /** What a sweep does to the holds: only due ones change, as many as `most` allows, the earliest first. */
  ghost predicate Swept(before: seq<HoldRow>, after: seq<HoldRow>, now: int, most: nat) {
    && |after| == |before|
    && var swept, due := Changed(before, after), DueSet(before, now);
    && |swept| == Min(most, |due|) && swept <= due
    && (forall h: nat :: h in swept ==> after[h] == before[h].(status := HoldExpired))
    && (forall h, g: nat :: h in swept && g in due && g !in swept ==> before[h].expiresAt <= before[g].expiresAt)
  }

  lemma BatchSwept(holds: seq<HoldRow>, now: int, limit: nat)
    ensures Swept(holds, ExpireAll(holds, Batch(holds, now, limit)), now, limit)
    ensures |Batch(holds, now, limit)| == |Changed(holds, ExpireAll(holds, Batch(holds, now, limit)))|
  {
    var batch := Batch(holds, now, limit);
    BatchMeaning(holds, now, limit);
    ExpireMeaning(holds, batch, now);
    DistinctSize(batch);
    hide Batch, ExpireAll;
    var swept := Changed(holds, ExpireAll(holds, batch));
    hide Changed, DueSet, Distinct;
    assert swept == Members(batch);
  }

  lemma NothingSwept(holds: seq<HoldRow>, now: int)
    ensures ExpireAll(holds, []) == holds && Changed(holds, holds) == {} && Swept(holds, holds, now, 0)
  {
  }

  /**
    A sweep expires and counts due holds only, as many as there are up to the limit, and leaves none that
    ran out before one it expired.
  */
  lemma SweepMeaning(shop: Shop, t: Tables, limit: int, now: int)
    ensures var o := ExpireHolds(shop, t, limit, now);
            && (o.reply.Ok? <==> 1 <= limit <= 1000) && (o.reply.Err? ==> o.tables == t)
            && o.tables.drafts == t.drafts && RecordsSame(t, o.tables)
            && (o.reply.Ok? ==>
                  && Swept(t.holds, o.tables.holds, now, if shop.enabled then limit else 0)
                  && o.reply.value == |Changed(t.holds, o.tables.holds)|)
  {
    hide Batch, ExpireAll, Swept, Changed;
    NothingSwept(t.holds, now);
    if 1 <= limit <= 1000 {
      BatchSwept(t.holds, now, limit);
    }
  }
}
