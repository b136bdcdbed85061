/**
  The booking store itself: rows updated in place, one method per store call, each proved to take
  the tables exactly where the step of the same name in `BookingSteps` says.
*/
module BookingStore {
  import opened Basics
  import opened Schedule
  import opened Availability
  import opened BookingDomain
  import opened BookingTables
  import opened BookingSteps
  import opened Contact
  import opened Text

  class Store {
    var drafts: seq<DraftRow>
    var holds: seq<HoldRow>
    var bookings: seq<BookingRow>
    var history: seq<HistoryRow>
    var outbox: seq<Event>

    function Rows(): Tables
      reads this
    {
      Tables(drafts, holds, bookings, history, outbox)
    }

    constructor ()
      ensures Rows() == Tables([], [], [], [], [])
    {
      drafts, holds, bookings, history, outbox := [], [], [], [], [];
    }

    /** `_availability_context`: file every row of the window under its resource, then read them off. */
    method LoadContext(shop: Shop, service: nat, now: int) returns (ctx: Option<Context>)
      ensures ctx == AvailabilityContext(shop, Rows(), service, now)
    {
      if service >= |shop.services| {
        return None;
      }
      var window := QueryWindow(shop, now);
      var n := |shop.resources|;
      var busy := seq(n, (r: nat) => []);
      for i := 0 to |bookings|
        invariant |busy| == n
        invariant forall r :: 0 <= r < n ==> busy[r] == BookingBusy(shop, bookings[..i], r, window)
      {
        assert bookings[..i + 1][..i] == bookings[..i];
        var b := bookings[i];
        if b.resource < n && Occupies(b) && b.service < |shop.services| && window.Keeps(b.startAt, b.endAt) {
          busy := busy[b.resource := busy[b.resource] + [Busy(b.startAt, b.endAt + BufferOf(shop, b.service), 1)]];
        }
      }
      assert bookings[..|bookings|] == bookings;
      busy := FileHolds(busy, window, now);
      busy := FileUnavailability(shop, busy, window);
      var resources: seq<AvailableResource> := [];
      for id := 0 to n
        invariant resources == LinkedResources(shop, Rows(), service, now, window, id)
      {
        var r := shop.resources[id];
        if service in r.services {
          resources := resources
            + [AvailableResource(id, r.schedule, r.capacity, r.active, SortBy(busy[id], BusyStart()))];
        }
      }
      var s := shop.services[service];
      return Some(Context(s.duration, s.buffer, s.active, s.bookable, shop.policy, resources));
    }

    method FileHolds(busy: seq<seq<Busy>>, window: Window, now: int) returns (filed: seq<seq<Busy>>)
      ensures |filed| == |busy|
      ensures forall r :: 0 <= r < |busy| ==> filed[r] == busy[r] + HoldBusy(holds, r, now, window)
    {
      filed := busy;
      for i := 0 to |holds|
        invariant |filed| == |busy|
        invariant forall r :: 0 <= r < |busy| ==> filed[r] == busy[r] + HoldBusy(holds[..i], r, now, window)
      {
        assert holds[..i + 1][..i] == holds[..i];
        var h := holds[i];
        if h.resource < |busy| && LiveHold(h, now) && window.Keeps(h.startAt, h.endAt) {
          filed := filed[h.resource := filed[h.resource] + [Busy(h.startAt, h.endAt, 1)]];
        }
      }
      assert holds[..|holds|] == holds;
    }

    method FileUnavailability(shop: Shop, busy: seq<seq<Busy>>, window: Window) returns (filed: seq<seq<Busy>>)
      requires |busy| == |shop.resources|
      ensures |filed| == |busy|
      ensures forall r :: 0 <= r < |busy| ==> filed[r] == busy[r] + UnavailableBusy(shop, shop.unavailable, r, window)
    {
      filed := busy;
      var rows := shop.unavailable;
      for i := 0 to |rows|
        invariant |filed| == |busy|
        invariant forall r :: 0 <= r < |busy| ==> filed[r] == busy[r] + UnavailableBusy(shop, rows[..i], r, window)
      {
        assert rows[..i + 1][..i] == rows[..i];
        var u := rows[i];
        if u.resource < |busy| && u.active && window.Keeps(u.startAt, u.endAt) {
          filed := filed[u.resource := filed[u.resource]
                                       + [Busy(u.startAt, u.endAt, shop.resources[u.resource].capacity)]];
        }
      }
      assert rows[..|rows|] == rows;
    }

    method StartDraft(shop: Shop, customer: int, conversation: int, service: nat, reschedules: Option<nat>, now: int)
      returns (reply: Result<nat, BookingError>)
      modifies this
      ensures Outcome(Rows(), reply) ==
              BookingSteps.StartDraft(shop, old(Rows()), customer, conversation, service, reschedules, now)
    {
      hide LinkedResources;
      var ctx := LoadContext(shop, service, now);
      if ctx.None? || !ctx.value.active || !ctx.value.bookable || ctx.value.resources == [] {
        return Err(PolicyViolated);
      }
      if reschedules.Some? && !Reschedulable(Rows(), customer, service, reschedules.value) {
        return Err(NotFound);
      }
      if conversation !in shop.owners || shop.owners[conversation] != customer {
        return Err(NotFound);
      }
      for i := 0 to |drafts|
        modifies this`drafts
        invariant |drafts| == |old(drafts)|
        invariant forall k :: 0 <= k < |drafts| ==>
                    drafts[k] == (if k < i then CancelDrafts(old(drafts), customer, conversation)[k]
                      else old(drafts)[k])
      {
        if OfIdentity(drafts[i], customer, conversation) {
          drafts := drafts[i := drafts[i].(status := DraftCancelled)];
        }
      }
      for i := 0 to |holds|
        modifies this`holds
        invariant |holds| == |old(holds)|
        invariant forall k :: 0 <= k < |holds| ==>
                    holds[k] == (if k < i then ReleaseIdentity(old(holds), customer, conversation)[k]
                      else old(holds)[k])
      {
        if holds[i].customer == customer && holds[i].conversation == conversation && holds[i].status == HoldActive {
          holds := holds[i := holds[i].(status := HoldReleased)];
        }
      }
      assert drafts == CancelDrafts(old(drafts), customer, conversation);
      assert holds == ReleaseIdentity(old(holds), customer, conversation);
      var id := |drafts|;
      drafts := drafts + [DraftRow(customer, conversation, service, None, None, None, None, None, reschedules,
                                   DraftActive, now + ctx.value.policy.draftDuration)];
      return Ok(id);
    }

    method GetActiveDraft(customer: int, conversation: int, now: int) returns (reply: Result<Option<nat>, BookingError>)
      modifies this
      ensures Outcome(Rows(), reply) == BookingSteps.GetActiveDraft(old(Rows()), customer, conversation, now)
    {
      var found := LatestActive(drafts, customer, conversation);
      if found.None? {
        return Ok(None);
      }
      var d := found.value;
      if drafts[d].expiresAt <= now {
        drafts := drafts[d := drafts[d].(status := DraftExpired)];
        if drafts[d].hold.Some? {
          SetHold(drafts[d].hold.value, HoldExpired);
        }
        return Ok(None);
      }
      return Ok(found);
    }

    /** `UPDATE slot_holds SET status WHERE id AND status = 'active'`. */
    method SetHold(h: nat, status: HoldStatus)
      modifies this`holds
      ensures holds == CloseHold(old(holds), h, status)
    {
      if h < |holds| && holds[h].status == HoldActive {
        holds := holds[h := holds[h].(status := status)];
      }
    }

    method SelectDate(shop: Shop, customer: int, draft: nat, date: int, now: int)
      returns (reply: Result<(), BookingError>)
      modifies this
      ensures Outcome(Rows(), reply) == BookingSteps.SelectDate(shop, old(Rows()), customer, draft, date, now)
    {
      hide AvailabilityContext;
      var owned := OwnedDraft(Rows(), customer, draft, now);
      if owned.Err? {
        return Err(owned.error);
      }
      var ctx := LoadContext(shop, drafts[draft].service, now);
      if ctx.None? {
        return Err(NotFound);
      }
      if date < LocalDate(shop, now) || date > LocalDate(shop, now + shop.policy.horizonDays * DAY) {
        return Err(PolicyViolated);
      }
      drafts := drafts[draft := drafts[draft].(date := Some(date))];
      return Ok(());
    }

    method UpdateContact(shop: Shop, customer: int, draft: nat, name: Option<string>, phone: Option<string>,
                         note: Option<string>, now: int)
      returns (reply: Result<(), BookingError>)
      modifies this
      ensures Outcome(Rows(), reply) ==
              BookingSteps.UpdateContact(shop, old(Rows()), customer, draft, name, phone, note, now)
    {
      var owned := OwnedDraft(Rows(), customer, draft, now);
      if owned.Err? {
        return Err(owned.error);
      }
      var row := drafts[draft];
      if name.Some? {
        var normalized := NormalName(name.value);
        if normalized == "" || |normalized| > shop.policy.nameLimit {
          return Err(PolicyViolated);
        }
        row := row.(name := Some(normalized));
      }
      if phone.Some? {
        if |phone.value| > shop.policy.phoneLimit {
          return Err(PolicyViolated);
        }
        var parsed := StoredPhone(phone.value);
        if parsed.None? {
          return Err(PolicyViolated);
        }
        row := row.(phone := parsed);
      }
      if note.Some? {
        var normalized := Strip(note.value);
        if |normalized| > shop.policy.noteLimit {
          return Err(PolicyViolated);
        }
        row := row.(note := if normalized == "" then None else Some(normalized));
      }
      drafts := drafts[draft := row];
      return Ok(());
    }

    method CancelDraft(customer: int, conversation: int) returns (reply: Result<bool, BookingError>)
      modifies this
      ensures Outcome(Rows(), reply) == BookingSteps.CancelDraft(old(Rows()), customer, conversation)
    {
      if LatestActive(drafts, customer, conversation).None? {
        return Ok(false);
      }
      for i := 0 to |holds|
        modifies this`holds
        invariant |holds| == |old(holds)|
        invariant forall k :: 0 <= k < |holds| ==>
                    holds[k] == (if k < i then ReleaseOfDrafts(old(holds), drafts, customer, conversation)[k]
                                 else old(holds)[k])
      {
        if holds[i].status == HoldActive && holds[i].draft < |drafts|
           && OfIdentity(drafts[holds[i].draft], customer, conversation) {
          holds := holds[i := holds[i].(status := HoldReleased)];
        }
      }
      assert holds == ReleaseOfDrafts(old(holds), drafts, customer, conversation);
      for i := 0 to |drafts|
        modifies this`drafts
        invariant |drafts| == |old(drafts)|
        invariant forall k :: 0 <= k < |drafts| ==>
                    drafts[k] == (if k < i then CancelDrafts(old(drafts), customer, conversation)[k]
                      else old(drafts)[k])
      {
        if OfIdentity(drafts[i], customer, conversation) {
          drafts := drafts[i := drafts[i].(status := DraftCancelled)];
        }
      }
      assert drafts == CancelDrafts(old(drafts), customer, conversation);
      return Ok(true);
    }

    /** The plan for a draft's date, from the rows as they stand. */
    method PlanFor(shop: Shop, service: nat, date: int, now: int) returns (plan: Result<seq<Slot>, BookingError>)
      ensures var ctx := AvailabilityContext(shop, Rows(), service, now);
              plan == (if ctx.None? then Err(NotFound)
                       else match AvailableSlots(ctx.value, date, now)
                            case Ok(slots) => Ok(slots)
                            case Err(_) => Err(BadSchedule))
    {
      hide AvailableSlots, LinkedResources;
      var ctx := LoadContext(shop, service, now);
      if ctx.None? {
        return Err(NotFound);
      }
      var slots := CalculateAvailability(ctx.value, date, now);
      if slots.Err? {
        return Err(BadSchedule);
      }
      return Ok(slots.value);
    }

    method CreateHold(shop: Shop, customer: int, draft: nat, index: int, key: string, now: int)
      returns (reply: Result<nat, BookingError>)
      modifies this
      ensures Outcome(Rows(), reply) == BookingSteps.CreateHold(shop, old(Rows()), customer, draft, index, key, now)
    {
      hide NewHold;
      if !ValidKey(key) || index < 0 {
        return Err(PolicyViolated);
      }
      var existing := HoldByKey(holds, key);
      if existing.Some? {
        if holds[existing.value].customer != customer {
          return Err(NotFound);
        }
        return Ok(existing.value);
      }
      var owned := OwnedDraft(Rows(), customer, draft, now);
      if owned.Err? {
        return Err(owned.error);
      }
      if drafts[draft].date.None? {
        return Err(PolicyViolated);
      }
      reply := AdmitHold(shop, draft, index, key, now);
    }

    /** The part of `create_hold` behind its guards: plan, let the old hold go, plan again, insert. */
    method AdmitHold(shop: Shop, draft: nat, index: nat, key: string, now: int)
      returns (reply: Result<nat, BookingError>)
      requires draft < |drafts| && drafts[draft].date.Some?
      modifies this
      ensures Outcome(Rows(), reply) == BookingSteps.NewHold(shop, old(Rows()), draft, index, key, now)
    {
      hide AvailableSlots, LinkedResources;
      var before := Rows();
      var row := drafts[draft];
      var slots := PlanFor(shop, row.service, row.date.value, now);
      if slots.Err? {
        return Err(slots.error);
      }
      if index >= |slots.value| {
        return Err(Conflict);
      }
      var selected := slots.value[index];
      if row.hold.Some? {
        SetHold(row.hold.value, HoldReleased);
        drafts := drafts[draft := row.(hold := None)];
      }
      assert Rows() == LetGo(before, draft);
      var again := PlanFor(shop, row.service, row.date.value, now);
      var matching := if again.Ok? then FindSlot(again.value, selected.startAt, selected.resourceId) else None;
      if matching.None? {
        drafts, holds := before.drafts, before.holds;
        return Err(if again.Err? then again.error else Conflict);
      }
      var id := |holds|;
      holds := holds + [HoldRow(row.customer, row.conversation, draft, row.service, matching.value.resourceId,
                                matching.value.startAt, matching.value.endAt + shop.services[row.service].buffer,
                                now + shop.policy.holdDuration, key, HoldActive)];
      drafts := drafts[draft := drafts[draft].(hold := Some(id))];
      return Ok(id);
    }

    method GetHold(customer: int, draft: nat, now: int) returns (reply: Result<Option<nat>, BookingError>)
      modifies this
      ensures Outcome(Rows(), reply) == BookingSteps.GetHold(old(Rows()), customer, draft, now)
    {
      var found := HoldOfDraft(holds, customer, draft);
      if found.None? {
        return Ok(None);
      }
      if holds[found.value].expiresAt <= now {
        SetHold(found.value, HoldExpired);
        return Ok(None);
      }
      return Ok(found);
    }

    method ExpireHolds(shop: Shop, limit: int, now: int) returns (reply: Result<nat, BookingError>)
      modifies this
      ensures Outcome(Rows(), reply) == BookingSteps.ExpireHolds(shop, old(Rows()), limit, now)
    {
      if !(1 <= limit <= 1000) {
        return Err(BadArgument);
      }
      hide ExpireAll, SortBy, DueHolds;
      var rows := if shop.enabled then Batch(holds, now, limit) else [];
      ExpireRows(rows);
      return Ok(|rows|);
    }

    method ExpireRows(rows: seq<nat>)
      requires forall i :: i in rows ==> i < |holds|
      modifies this`holds
      ensures holds == ExpireAll(old(holds), rows)
    {
      for i := 0 to |rows|
        invariant |holds| == |old(holds)|
        invariant forall k :: 0 <= k < |holds| ==>
                    holds[k] == (if k in rows[..i] then old(holds)[k].(status := HoldExpired) else old(holds)[k])
      {
        assert rows[i] in rows;
        assert forall k :: k in rows[..i + 1] <==> k in rows[..i] || k == rows[i];
        holds := holds[rows[i] := holds[rows[i]].(status := HoldExpired)];
      }
      assert rows[..|rows|] == rows;
    }

    method Confirm(shop: Shop, customer: int, draft: nat, key: string, reference: int, now: int)
      returns (reply: Result<nat, BookingError>)
      modifies this
      ensures Outcome(Rows(), reply) == BookingSteps.Confirm(shop, old(Rows()), customer, draft, key, reference, now)
    {
      hide Book, Reschedule;
      if !ValidKey(key) {
        return Err(PolicyViolated);
      }
      var existing := BookingByKey(bookings, key);
      if existing.Some? {
        if bookings[existing.value].customer != customer {
          return Err(NotFound);
        }
        return Ok(existing.value);
      }
      var confirmed := AlreadyConfirmed(Rows(), customer, draft);
      if confirmed.Some? {
        return Ok(confirmed.value);
      }
      var owned := OwnedDraft(Rows(), customer, draft, now);
      if owned.Err? {
        return Err(owned.error);
      }
      var row := drafts[draft];
      if row.hold.None? || !Filled(row.name) || !Filled(row.phone) {
        return Err(PolicyViolated);
      }
      var h := row.hold.value;
      if h >= |holds| || holds[h].customer != customer || holds[h].status != HoldActive || holds[h].expiresAt <= now {
        return Err(TooLate);
      }
      var service := holds[h].service;
      if service >= |shop.services| || !shop.services[service].active || !shop.services[service].bookable {
        return Err(PolicyViolated);
      }
      if row.reschedules.Some? {
        reply := Move(shop, draft, h, row.reschedules.value, now);
      } else {
        reply := Insert(shop, draft, h, key, reference, now);
      }
    }

    /** The branch of `confirm` that inserts a new booking. */
    method Insert(shop: Shop, draft: nat, h: nat, key: string, reference: int, now: int)
      returns (reply: Result<nat, BookingError>)
      requires draft < |drafts| && h < |holds| && holds[h].service < |shop.services|
      modifies this
      ensures Outcome(Rows(), reply) == BookingSteps.Book(shop, old(Rows()), draft, h, key, reference, now)
    {
      hide Excluded, HoldTaken, ReferenceTaken, KeyPublished, SequenceTaken;
      var id := |bookings|;
      var hold, row := holds[h], drafts[draft];
      var endAt := hold.startAt + shop.services[hold.service].duration;
      if Excluded(bookings, None, hold.resource, hold.startAt, endAt)
         || HoldTaken(bookings, None, h) || ReferenceTaken(bookings, reference)
         || KeyPublished(outbox, ConfirmedKey(id))
         || SequenceTaken(history, id, 1) || SequenceTaken(history, id, 2) {
        return Err(Conflict);
      }
      bookings := bookings + [BookingRow(row.customer, row.conversation, hold.service, hold.resource, h, reference,
                                         hold.startAt, endAt, Confirmed, key, row.name, row.phone, row.note)];
      history := history + [HistoryRow(id, 1, Change(Draft, Held)), HistoryRow(id, 2, Change(Held, Confirmed))];
      outbox := outbox + [Event(ConfirmedKey(id), reference, hold.startAt, now)];
      holds := holds[h := hold.(status := HoldConsumed)];
      drafts := drafts[draft := row.(status := DraftConfirmed)];
      return Ok(id);
    }

    /** The branch of `confirm` that moves a booking to the new hold. */
    method Move(shop: Shop, draft: nat, h: nat, b: nat, now: int) returns (reply: Result<nat, BookingError>)
      requires draft < |drafts| && h < |holds| && holds[h].service < |shop.services|
      modifies this
      ensures Outcome(Rows(), reply) == BookingSteps.Reschedule(shop, old(Rows()), draft, h, b, now)
    {
      hide Excluded, HoldTaken, KeyPublished, SequenceTaken, LastSequence;
      if b >= |bookings| || bookings[b].customer != drafts[draft].customer || bookings[b].status != Confirmed {
        return Err(NotFound);
      }
      if bookings[b].startAt - now < shop.policy.changeCutoff {
        return Err(PolicyViolated);
      }
      var sequence := LastSequence(history, b) + 1;
      var hold := holds[h];
      var endAt := hold.startAt + shop.services[hold.service].duration;
      if Excluded(bookings, Some(b), hold.resource, hold.startAt, endAt) || HoldTaken(bookings, Some(b), h)
         || KeyPublished(outbox, RescheduledKey(b, sequence))
         || SequenceTaken(history, b, sequence) || SequenceTaken(history, b, sequence + 1) {
        return Err(Conflict);
      }
      history := history + [HistoryRow(b, sequence, Change(Confirmed, ReschedulePending)),
                            HistoryRow(b, sequence + 1, Change(ReschedulePending, Confirmed))];
      bookings := bookings[b := bookings[b].(resource := hold.resource, startAt := hold.startAt, endAt := endAt,
        hold := h)];
      outbox := outbox + [Event(RescheduledKey(b, sequence), bookings[b].reference, bookings[b].startAt, now)];
      holds := holds[h := hold.(status := HoldConsumed)];
      drafts := drafts[draft := drafts[draft].(status := DraftConfirmed)];
      return Ok(b);
    }

    method CancelBooking(shop: Shop, customer: int, b: nat, now: int) returns (reply: Result<nat, BookingError>)
      modifies this
      ensures Outcome(Rows(), reply) == BookingSteps.CancelBooking(shop, old(Rows()), customer, b, now)
    {
      hide KeyPublished, SequenceTaken, LastSequence;
      if b >= |bookings| || bookings[b].customer != customer {
        return Err(NotFound);
      }
      if bookings[b].status == Cancelled {
        return Ok(b);
      }
      if bookings[b].status != Confirmed || bookings[b].startAt - now < shop.policy.changeCutoff {
        return Err(PolicyViolated);
      }
      var sequence := LastSequence(history, b) + 1;
      if KeyPublished(outbox, CancelledKey(b)) || SequenceTaken(history, b, sequence) {
        return Err(Conflict);
      }
      bookings := bookings[b := bookings[b].(status := Cancelled)];
      history := history + [HistoryRow(b, sequence, Change(Confirmed, Cancelled))];
      outbox := outbox + [Event(CancelledKey(b), bookings[b].reference, bookings[b].startAt, now)];
      return Ok(b);
    }
  }
}
