/** What callers may rely on: live holds, exact success conditions, retries, one event per change. */
module BookingGuarantee {
  import opened Basics
  import opened Availability
  import opened BookingDomain
  import opened BookingTables
  import opened BookingSteps
  import opened BookingWindow
  import opened BookingInvariant
  import opened BookingCapacity
  import opened BookingConfirm
  import opened BookingRuns

  // --- Uniqueness constraints that never fire ---------------------------------------------

  /** Hold, history and event keys of a new booking are unused. */
  lemma NewBookingIsUnique(shop: Shop, t: Tables, h: nat, now: int)
    requires Inv(shop, t, now) && h < |t.holds| && t.holds[h].status == HoldActive
    ensures !HoldTaken(t.bookings, None, h)
    ensures !KeyPublished(t.outbox, ConfirmedKey(|t.bookings|))
    ensures !SequenceTaken(t.history, |t.bookings|, 1) && !SequenceTaken(t.history, |t.bookings|, 2)
  {
    forall i | 0 <= i < |t.outbox| ensures t.outbox[i].key != ConfirmedKey(|t.bookings|) {
      assert Happened(t, t.outbox[i].key);
    }
  }

  /** Hold, history and event keys of a moved booking are unused. */
  lemma MovedBookingIsUnique(shop: Shop, t: Tables, h: nat, b: nat, now: int)
    requires Inv(shop, t, now) && h < |t.holds| && t.holds[h].status == HoldActive && b < |t.bookings|
    ensures var n := LastSequence(t.history, b) + 1;
            && !HoldTaken(t.bookings, Some(b), h)
            && !KeyPublished(t.outbox, RescheduledKey(b, n))
            && !SequenceTaken(t.history, b, n) && !SequenceTaken(t.history, b, n + 1)
  {
    assert Recorded(t, b);
    SequencesInUse(t.history, b);
    var n := LastSequence(t.history, b) + 1;
    forall i | 0 <= i < |t.outbox| ensures t.outbox[i].key != RescheduledKey(b, n) {
      assert Happened(t, t.outbox[i].key);
    }
  }

  lemma CancelledBookingIsUnique(shop: Shop, t: Tables, b: nat, now: int)
    requires Inv(shop, t, now) && b < |t.bookings| && t.bookings[b].status == Confirmed
    ensures !KeyPublished(t.outbox, CancelledKey(b))
    ensures !SequenceTaken(t.history, b, LastSequence(t.history, b) + 1)
  {
    assert Recorded(t, b);
    SequencesInUse(t.history, b);
    forall i | 0 <= i < |t.outbox| ensures t.outbox[i].key != CancelledKey(b) {
      assert Happened(t, t.outbox[i].key);
    }
  }

  /**
    A cancellation succeeds exactly for the customer's own booking that is cancelled already or is
    confirmed and still before the cutoff. The uniqueness constraints play no part.
  */
  lemma CancelSucceedsIff(shop: Shop, t: Tables, customer: int, b: nat, now: int)
    requires Inv(shop, t, now)
    ensures CancelBooking(shop, t, customer, b, now).reply.Ok? <==>
              b < |t.bookings| && t.bookings[b].customer == customer
              && (t.bookings[b].status == Cancelled
                  || (t.bookings[b].status == Confirmed && shop.policy.changeCutoff <= t.bookings[b].startAt - now))
  {
    if b < |t.bookings| && t.bookings[b].status == Confirmed {
      CancelledBookingIsUnique(shop, t, b, now);
    }
    hide Inv;
  }

  // --- The exclusion constraint -----------------------------------------------------------

  lemma BookingsAtLeast(shop: Shop, bookings: seq<BookingRow>, i: nat, r: nat, x: int)
    requires i < |bookings|
    ensures BookingUse(shop, bookings[i], r, x) <= BookingsAt(shop, bookings, r, x)
  {
    if i < |bookings| - 1 {
      BookingsAtLeast(shop, bookings[..|bookings| - 1], i, r, x);
    }
  }

  lemma HoldsAtLeast(holds: seq<HoldRow>, i: nat, r: nat, x: int, now: int)
    requires i < |holds|
    ensures HoldUse(holds[i], r, x, now) <= HoldsAt(holds, r, x, now)
  {
    if i < |holds| - 1 {
      HoldsAtLeast(holds[..|holds| - 1], i, r, x, now);
    }
  }

  /** On a resource of capacity one, a live hold keeps every booking out of its time. */
  lemma ExclusionNeverFires(shop: Shop, t: Tables, h: nat, except: Option<nat>, now: int)
    requires Inv(shop, t, now) && h < |t.holds| && LiveHold(t.holds[h], now)
    requires t.holds[h].resource < |shop.resources| && shop.resources[t.holds[h].resource].capacity == 1
    requires t.holds[h].service < |shop.services|
    ensures !Excluded(t.bookings, except, t.holds[h].resource, t.holds[h].startAt,
                      t.holds[h].startAt + shop.services[t.holds[h].service].duration)
  {
    var hold := t.holds[h];
    assert HoldSized(shop, hold);
    forall i | 0 <= i < |t.bookings|
      ensures !(t.bookings[i].resource == hold.resource
                && t.bookings[i].status in {Held, Confirmed, ReschedulePending}
                && Overlaps(t.bookings[i].startAt, t.bookings[i].endAt, hold.startAt,
                            hold.startAt + shop.services[hold.service].duration))
    {
      var x := Max(t.bookings[i].startAt, hold.startAt);
      BookingsAtLeast(shop, t.bookings, i, hold.resource, x);
      HoldsAtLeast(t.holds, h, hold.resource, x, now);
      assert Usage(shop, t, hold.resource, x, now) <= 1;
      assert BookingSized(shop, t.bookings[i]);
    }
  }

  // --- When a confirmation succeeds -------------------------------------------------------

  /** Everything a confirmation with a fresh key asks for, apart from the exclusion constraint. */
  predicate Confirmable(shop: Shop, t: Tables, draft: nat, h: nat, key: string, reference: int, now: int)
    requires draft < |t.drafts| && h < |t.holds| && t.holds[h].service < |shop.services|
  {
    var row := t.drafts[draft];
    && ValidKey(key) && now < row.expiresAt
    && Filled(row.name) && Filled(row.phone)
    && shop.services[t.holds[h].service].active && shop.services[t.holds[h].service].bookable
    && match row.reschedules
       case None => !ReferenceTaken(t.bookings, reference)
       case Some(b) =>
         && b < |t.bookings| && t.bookings[b].status == Confirmed
         && shop.policy.changeCutoff <= t.bookings[b].startAt - now
  }

  ghost predicate Collides(shop: Shop, t: Tables, draft: nat, h: nat)
    requires draft < |t.drafts| && h < |t.holds| && t.holds[h].service < |shop.services|
  {
    Excluded(t.bookings, t.drafts[draft].reschedules, t.holds[h].resource, t.holds[h].startAt,
             t.holds[h].startAt + shop.services[t.holds[h].service].duration)
  }

  /**
    With a live hold and a fresh key, a confirmation succeeds exactly when its conditions hold and no
    other booking collides. The uniqueness constraints play no part.
  */
  lemma ConfirmSucceedsIff(shop: Shop, t: Tables, draft: nat, h: nat, key: string, reference: int, now: int)
    requires Inv(shop, t, now) && Ready(t, draft, h, now) && BookingByKey(t.bookings, key).None?
    requires t.holds[h].service < |shop.services|
    ensures Confirm(shop, t, t.drafts[draft].customer, draft, key, reference, now).reply.Ok? <==>
            Confirmable(shop, t, draft, h, key, reference, now) && !Collides(shop, t, draft, h)
  {
    hide WithinCapacity, HistoryKept, EventsKept, Sized, OneActive, Consume;
    HoldFacts(t);
    NewBookingIsUnique(shop, t, h, now);
    if t.drafts[draft].reschedules.Some? {
      MovedBookingIsUnique(shop, t, h, t.drafts[draft].reschedules.value, now);
    }
  }

  /** On a resource of capacity one, nothing but the caller's own conditions decides. */
  lemma HoldIsHonoured(shop: Shop, t: Tables, draft: nat, h: nat, key: string, reference: int, now: int)
    requires Inv(shop, t, now) && Ready(t, draft, h, now) && BookingByKey(t.bookings, key).None?
    requires t.holds[h].service < |shop.services| && t.holds[h].resource < |shop.resources|
    requires shop.resources[t.holds[h].resource].capacity == 1
    ensures Confirm(shop, t, t.drafts[draft].customer, draft, key, reference, now).reply.Ok? <==>
            Confirmable(shop, t, draft, h, key, reference, now)
  {
    hide Inv, Confirm;
    ExclusionNeverFires(shop, t, h, t.drafts[draft].reschedules, now);
    ConfirmSucceedsIff(shop, t, draft, h, key, reference, now);
  }

  // --- The guarantee over runs ------------------------------------------------------------

  /** A call that does not give up, replace or use the hold of `draft` on its owner's behalf. */
  predicate LeavesAlone(call: Call, draft: nat, row: DraftRow) {
    match call
    case StartCall(c, v, _, _) => c != row.customer || v != row.conversation
    case AbandonCall(c, v) => c != row.customer || v != row.conversation
    case HoldCall(c, d, _, _) => c != row.customer || d != draft
    case ConfirmCall(c, d, _, _) => c != row.customer || d != draft
    case _ => true
  }

  /** The hold `h` of `draft` stands as it did, and so do the draft's own terms. */
  ghost predicate Stands(t: Tables, t': Tables, draft: nat, h: nat) {
    && draft < |t.drafts| && h < |t.holds| && draft < |t'.drafts| && h < |t'.holds|
    && t'.holds[h] == t.holds[h]
    && SameCore(t.drafts[draft], t'.drafts[draft])
    && t'.drafts[draft].status == t.drafts[draft].status
    && t'.drafts[draft].hold == t.drafts[draft].hold
    && t'.drafts[draft].expiresAt == t.drafts[draft].expiresAt
  }

  lemma HoldStandsThrough(shop: Shop, t: Tables, call: Call, draft: nat, h: nat, now: int)
    requires Inv(shop, t, now) && Ready(t, draft, h, now) && now < t.drafts[draft].expiresAt
    requires LeavesAlone(call, draft, t.drafts[draft])
    ensures Stands(t, Apply(shop, t, call, now), draft, h)
  {
    hide Linked, Sized, WithinCapacity, HistoryKept, EventsKept, Stands, StartDraft, GetActiveDraft, SelectDate,
         CreateHold, UpdateContact, GetHold, CancelDraft, Confirm, CancelBooking, ExpireHolds;
    match call
    case StartCall(c, v, s, b) => StartCallStands(shop, t, c, v, s, b, draft, h, now);
    case ActiveCall(c, v) => ReadCallsStand(t, c, v, 0, draft, h, now);
    case DateCall(c, d, date) => DateCallStands(shop, t, c, d, date, draft, h, now);
    case HoldCall(c, d, i, key) => HoldCallStands(shop, t, c, d, i, key, draft, h, now);
    case ContactCall(c, d, name, phone, note) => ContactCallStands(shop, t, c, d, name, phone, note, draft, h, now);
    case CurrentHoldCall(c, d) => ReadCallsStand(t, c, 0, d, draft, h, now);
    case AbandonCall(c, v) => AbandonCallStands(shop, t, c, v, draft, h, now);
    case ConfirmCall(c, d, key, reference) => ConfirmCallStands(shop, t, c, d, key, reference, draft, h, now);
    case CancelCall(c, b) => CancelCallStands(shop, t, c, b, draft, h, now);
    case SweepCall(limit) => SweepCallStands(shop, t, limit, draft, h, now);
  }

  lemma StartCallStands(shop: Shop, t: Tables, customer: int, conversation: int, service: nat, reschedules: Option<nat>,
                        draft: nat, h: nat, now: int)
    requires Inv(shop, t, now) && Ready(t, draft, h, now)
    requires customer != t.drafts[draft].customer || conversation != t.drafts[draft].conversation
    ensures Stands(t, StartDraft(shop, t, customer, conversation, service, reschedules, now).tables, draft, h)
  {
    hide WithinCapacity, HistoryKept, EventsKept, Sized, AvailabilityContext;
    HoldFacts(t);
  }

  lemma AbandonCallStands(shop: Shop, t: Tables, customer: int, conversation: int, draft: nat, h: nat, now: int)
    requires Inv(shop, t, now) && Ready(t, draft, h, now)
    requires customer != t.drafts[draft].customer || conversation != t.drafts[draft].conversation
    ensures Stands(t, CancelDraft(t, customer, conversation).tables, draft, h)
  {
    hide WithinCapacity, HistoryKept, EventsKept, Sized;
    HoldFacts(t);
  }

  /** Looking at a draft or hold may expire another one, never one that is still live. */
  lemma ReadCallsStand(t: Tables, customer: int, conversation: int, d: nat, draft: nat, h: nat, now: int)
    requires Linked(t) && Ready(t, draft, h, now) && now < t.drafts[draft].expiresAt
    ensures Stands(t, GetActiveDraft(t, customer, conversation, now).tables, draft, h)
    ensures Stands(t, GetHold(t, customer, d, now).tables, draft, h)
  {
    HoldFacts(t);
  }

  lemma DateCallStands(shop: Shop, t: Tables, customer: int, d: nat, date: int, draft: nat, h: nat, now: int)
    requires Ready(t, draft, h, now)
    ensures Stands(t, SelectDate(shop, t, customer, d, date, now).tables, draft, h)
  {
    hide AvailabilityContext;
  }

  lemma ContactCallStands(shop: Shop, t: Tables, customer: int, d: nat, name: Option<string>, phone: Option<string>,
                          note: Option<string>, draft: nat, h: nat, now: int)
    requires Ready(t, draft, h, now)
    ensures Stands(t, UpdateContact(shop, t, customer, d, name, phone, note, now).tables, draft, h)
  {
  }

  lemma CancelCallStands(shop: Shop, t: Tables, customer: int, b: nat, draft: nat, h: nat, now: int)
    requires Ready(t, draft, h, now)
    ensures Stands(t, CancelBooking(shop, t, customer, b, now).tables, draft, h)
  {
  }

  lemma SweepCallStands(shop: Shop, t: Tables, limit: int, draft: nat, h: nat, now: int)
    requires Ready(t, draft, h, now)
    ensures Stands(t, ExpireHolds(shop, t, limit, now).tables, draft, h)
  {
    hide SortBy, DueHolds;
  }

  lemma HoldCallStands(shop: Shop, t: Tables, customer: int, d: nat, index: int, key: string, draft: nat, h: nat,
                       now: int)
    requires Inv(shop, t, now) && Ready(t, draft, h, now)
    requires customer != t.drafts[draft].customer || d != draft
    ensures Stands(t, CreateHold(shop, t, customer, d, index, key, now).tables, draft, h)
  {
    hide WithinCapacity, HistoryKept, EventsKept, Sized, AvailabilityContext, AvailableSlots, FindSlot;
    HoldFacts(t);
  }

  lemma ConfirmCallStands(shop: Shop, t: Tables, customer: int, d: nat, key: string, reference: int,
                          draft: nat, h: nat, now: int)
    requires Inv(shop, t, now) && Ready(t, draft, h, now)
    requires customer != t.drafts[draft].customer || d != draft
    ensures Stands(t, Confirm(shop, t, customer, d, key, reference, now).tables, draft, h)
  {
    hide WithinCapacity, HistoryKept, EventsKept, Sized, Excluded, HoldTaken, KeyPublished, SequenceTaken, OneActive,
         BookingsOwnHolds, ReschedulesOwn, LastSequence;
    HoldFacts(t);
  }

  lemma {:induction false} HoldStandsThroughRun(base: Shop, t: Tables, start: int, steps: seq<Step>, draft: nat, h: nat)
    requires Inv(base, t, start) && Legal(base, start, steps) && Ready(t, draft, h, start)
    requires forall i :: 0 <= i < |steps| ==>
               && LeavesAlone(steps[i].call, draft, t.drafts[draft])
               && steps[i].now < t.drafts[draft].expiresAt && steps[i].now < t.holds[h].expiresAt
    ensures Stands(t, Run(t, steps), draft, h)
  {
    hide Inv, Apply;
    if steps != [] {
      var init, last := steps[..|steps| - 1], steps[|steps| - 1];
      HoldStandsThroughRun(base, t, start, init, draft, h);
      RunKeeps(base, t, start, init);
      var mid := Run(t, init);
      InvTransfers(base, last.shop, mid, Clock(start, init));
      Later(last.shop, mid, Clock(start, init), last.now);
      HoldStandsThrough(last.shop, mid, last.call, draft, h, last.now);
    }
  }

  /**
    A live hold is a guarantee. On a resource of capacity one, whatever other calls come in between,
    the owner's confirmation before the hold and the draft expire succeeds exactly when the owner's own
    conditions hold, and then books the held time on the held resource.
  */
  lemma LiveHoldGuarantee(base: Shop, t: Tables, start: int, steps: seq<Step>, draft: nat, h: nat,
                          shop: Shop, key: string, reference: int, now: int)
    requires Inv(base, t, start) && Legal(base, start, steps) && Ready(t, draft, h, start)
    requires forall i :: 0 <= i < |steps| ==>
               LeavesAlone(steps[i].call, draft, t.drafts[draft]) && steps[i].now <= now
    requires start <= now < t.holds[h].expiresAt && now < t.drafts[draft].expiresAt
    requires SameSizes(base, shop) && BookingByKey(Run(t, steps).bookings, key).None?
    requires t.holds[h].service < |base.services| && t.holds[h].resource < |base.resources|
    requires base.resources[t.holds[h].resource].capacity == 1
    ensures var t' := Run(t, steps);
            var o := Confirm(shop, t', t.drafts[draft].customer, draft, key, reference, now);
            && Stands(t, t', draft, h)
            && (o.reply.Ok? <==> Confirmable(shop, t', draft, h, key, reference, now))
            && (o.reply.Ok? ==> BooksHeldTime(shop, t.holds[h], h, t'.drafts[draft], o))
  {
    hide Inv, Confirm;
    var t' := Run(t, steps);
    HoldStandsThroughRun(base, t, start, steps, draft, h);
    RunKeeps(base, t, start, steps);
    InvTransfers(base, shop, t', Clock(start, steps));
    Later(shop, t', Clock(start, steps), now);
    HoldIsHonoured(shop, t', draft, h, key, reference, now);
    ConfirmBooksHeldTime(shop, t', draft, h, key, reference, now);
  }

  /**
    The confirmed booking is the held service and resource at the held time for the hold's customer,
    and owns the hold. A new one carries the draft's contact; a move answers with the booking it moves.
  */
  ghost predicate BooksHeldTime(shop: Shop, hold: HoldRow, h: nat, draft: DraftRow, o: Outcome<nat>) {
    && hold.service < |shop.services|
    && o.reply.Ok? && o.reply.value < |o.tables.bookings|
    && (draft.reschedules.Some? ==> o.reply.value == draft.reschedules.value)
    && var b := o.tables.bookings[o.reply.value];
    && b.status == Confirmed && b.hold == h && b.resource == hold.resource && b.startAt == hold.startAt
    && b.endAt == hold.startAt + shop.services[hold.service].duration
    && b.customer == hold.customer && b.service == hold.service
    && (draft.reschedules.None? ==> b.name == draft.name && b.phone == draft.phone && b.note == draft.note)
  }

  lemma ConfirmBooksHeldTime(shop: Shop, t: Tables, draft: nat, h: nat, key: string, reference: int, now: int)
    requires Inv(shop, t, now) && Ready(t, draft, h, now) && BookingByKey(t.bookings, key).None?
    ensures var o := Confirm(shop, t, t.drafts[draft].customer, draft, key, reference, now);
            o.reply.Ok? ==> BooksHeldTime(shop, t.holds[h], h, t.drafts[draft], o)
  {
    hide WithinCapacity, HistoryKept, EventsKept, Excluded, HoldTaken, KeyPublished, SequenceTaken;
    HoldFacts(t);
  }

  // --- Retries ----------------------------------------------------------------------------

  lemma LastKeyFound(bookings: seq<BookingRow>, row: BookingRow)
    ensures BookingByKey(bookings + [row], row.key) == Some(|bookings|)
  {
    assert (bookings + [row])[|bookings|] == row;
  }

  lemma BookRetry(shop: Shop, t: Tables, draft: nat, h: nat, key: string, reference: int, now: int,
                  shop': Shop, reference': int, now': int)
    requires draft < |t.drafts| && h < |t.holds| && t.holds[h].service < |shop.services| && ValidKey(key)
    requires BookingByKey(t.bookings, key).None? && Book(shop, t, draft, h, key, reference, now).reply.Ok?
    ensures var o := Book(shop, t, draft, h, key, reference, now);
            Confirm(shop', o.tables, t.drafts[draft].customer, draft, key, reference', now') == o
  {
    hide Excluded, HoldTaken, KeyPublished, SequenceTaken, ReferenceTaken, AlreadyConfirmed, ConfirmHold, OwnedDraft,
         Consume, BookingByKey;
    LastKeyFound(t.bookings, Booked(shop, t, draft, h, key, reference));
  }

  lemma RescheduleRetry(shop: Shop, t: Tables, draft: nat, h: nat, b: nat, key: string, now: int,
                        shop': Shop, reference': int, now': int)
    requires draft < |t.drafts| && h < |t.holds| && t.holds[h].service < |shop.services| && ValidKey(key)
    requires t.drafts[draft].hold == Some(h)
    requires BookingByKey(t.bookings, key).None? && Reschedule(shop, t, draft, h, b, now).reply.Ok?
    ensures var o := Reschedule(shop, t, draft, h, b, now);
            Confirm(shop', o.tables, t.drafts[draft].customer, draft, key, reference', now') == o
  {
    hide Excluded, KeyPublished, SequenceTaken, ConfirmHold;
    var o := Reschedule(shop, t, draft, h, b, now);
    assert o.tables.bookings[b].hold == h;
    assert forall i :: 0 <= i < |o.tables.bookings| ==> o.tables.bookings[i].key == t.bookings[i].key;
    assert BookingByKey(o.tables.bookings, key).None?;
    assert AlreadyConfirmed(o.tables, t.drafts[draft].customer, draft) == Some(b);
  }

  /** Repeating a confirmation that succeeded returns the same booking and changes nothing. */
  lemma ConfirmRetry(shop: Shop, t: Tables, customer: int, draft: nat, key: string, reference: int, now: int,
                     shop': Shop, reference': int, now': int)
    requires Confirm(shop, t, customer, draft, key, reference, now).reply.Ok?
    ensures var o := Confirm(shop, t, customer, draft, key, reference, now);
            Confirm(shop', o.tables, customer, draft, key, reference', now') == o
  {
    hide Book, Reschedule, BookingByHold;
    if BookingByKey(t.bookings, key).None? && AlreadyConfirmed(t, customer, draft).None? {
      var h := t.drafts[draft].hold.value;
      if t.drafts[draft].reschedules.Some? {
        RescheduleRetry(shop, t, draft, h, t.drafts[draft].reschedules.value, key, now, shop', reference', now');
      } else {
        BookRetry(shop, t, draft, h, key, reference, now, shop', reference', now');
      }
    }
  }

  /** Repeating a hold request that succeeded returns the same hold and changes nothing. */
  lemma HoldRetry(shop: Shop, t: Tables, customer: int, draft: nat, index: int, key: string, now: int,
                  shop': Shop, draft': nat, index': nat, now': int)
    requires Inv(shop, t, now) && NoticeCoversRows(shop, t.bookings)
    requires CreateHold(shop, t, customer, draft, index, key, now).reply.Ok?
    ensures var o := CreateHold(shop, t, customer, draft, index, key, now);
            CreateHold(shop', o.tables, customer, draft', index', key, now') == o
  {
    hide Inv, NewHold;
    if HoldByKey(t.holds, key).None? {
      NewHoldKeeps(shop, t, draft, index, key, now, now);
      var o := NewHold(shop, t, draft, index, key, now);
      assert o.tables.holds[|t.holds|].key == key;
    }
  }

  // --- One event per change ---------------------------------------------------------------

  /**
    Exactly one event is added, under a key never used before; it tells the reference and the start of
    its booking, and nothing but that booking and its history changes.
  */
  ghost predicate OneNewEvent(t: Tables, t': Tables) {
    && |t'.outbox| == |t.outbox| + 1 && t'.outbox[..|t.outbox|] == t.outbox
    && var key := t'.outbox[|t.outbox|].key;
    && !KeyPublished(t.outbox, key)
    && key.booking < |t'.bookings|
    && (forall b :: 0 <= b < |t.bookings| && b != key.booking ==> b < |t'.bookings| && t'.bookings[b] == t.bookings[b])
    && |t'.bookings| == Max(|t.bookings|, key.booking + 1)
    && t'.outbox[|t.outbox|].reference == t'.bookings[key.booking].reference
    && t'.outbox[|t.outbox|].startAt == t'.bookings[key.booking].startAt
    && t.history < t'.history
    && (forall i :: |t.history| <= i < |t'.history| ==> t'.history[i].booking == key.booking)
  }

  /** What a call that may change a booking answered. */
  function BookingReply(shop: Shop, t: Tables, call: Call, now: int): Option<Result<nat, BookingError>> {
    match call
    case ConfirmCall(c, d, key, reference) => Some(Confirm(shop, t, c, d, key, reference, now).reply)
    case CancelCall(c, b) => Some(CancelBooking(shop, t, c, b, now).reply)
    case _ => None
  }

  lemma ConfirmOneEvent(shop: Shop, t: Tables, customer: int, draft: nat, key: string, reference: int, now: int)
    ensures var o := Confirm(shop, t, customer, draft, key, reference, now);
            o.tables == t || (OneNewEvent(t, o.tables) && o.reply == Ok(o.tables.outbox[|t.outbox|].key.booking))
  {
    hide Excluded, HoldTaken, SequenceTaken, ReferenceTaken, AlreadyConfirmed, LastSequence;
  }

  lemma CancelOneEvent(shop: Shop, t: Tables, customer: int, b: nat, now: int)
    ensures var o := CancelBooking(shop, t, customer, b, now);
            o.tables == t || (OneNewEvent(t, o.tables) && o.reply == Ok(o.tables.outbox[|t.outbox|].key.booking))
  {
    hide SequenceTaken, LastSequence;
  }

  /**
    Only confirmations and cancellations touch bookings, history and events. Each either leaves the
    tables alone or succeeds with exactly one new event, which is about the booking it answers with.
  */
  lemma OneEventPerChange(shop: Shop, t: Tables, call: Call, now: int)
    ensures var t' := Apply(shop, t, call, now);
            match BookingReply(shop, t, call, now)
            case None => t'.bookings == t.bookings && t'.history == t.history && t'.outbox == t.outbox
            case Some(reply) =>
              t' == t || (OneNewEvent(t, t') && reply == Ok(t'.outbox[|t.outbox|].key.booking))
  {
    hide Confirm, CancelBooking, AvailabilityContext, AvailableSlots, FindSlot, SortBy, OneNewEvent;
    match call
    case ConfirmCall(c, d, key, reference) => ConfirmOneEvent(shop, t, c, d, key, reference, now);
    case CancelCall(c, b) => CancelOneEvent(shop, t, c, b, now);
    case _ =>
  }
}
