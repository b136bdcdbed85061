/** Exactly what the calls of the booking store change, and what a booking keeps for good. */
module BookingEffects {
  import opened Basics
  import opened Availability
  import opened BookingDomain
  import opened BookingTables
  import opened BookingSteps
  import opened BookingInvariant
  import opened BookingConfirm
  import opened BookingRuns
  import opened BookingGuarantee
  import opened BookingAdmission

  // --- Cancelling a booking ---------------------------------------------------------------

  /** The history of `b` grows by these changes, and that of no other booking. */
  ghost predicate HistoryGrows(before: seq<HistoryRow>, after: seq<HistoryRow>, b: nat, changes: seq<Change>) {
    && HistoryOf(after, b) == HistoryOf(before, b) + changes
    && forall other: nat :: other != b ==> HistoryOf(after, other) == HistoryOf(before, other)
  }

  lemma GrowsByOne(history: seq<HistoryRow>, row: HistoryRow)
    ensures HistoryGrows(history, history + [row], row.booking, [row.change])
  {
    HistoryAppend(history, row, row.booking);
    forall other: nat | other != row.booking
      ensures HistoryOf(history + [row], other) == HistoryOf(history, other)
    {
      HistoryAppend(history, row, other);
    }
  }

  lemma GrowsByTwo(history: seq<HistoryRow>, first: HistoryRow, second: HistoryRow)
    requires first.booking == second.booking
    ensures HistoryGrows(history, history + [first, second], first.booking, [first.change, second.change])
  {
    HistoryAppendTwo(history, first, second, first.booking);
    forall other: nat | other != first.booking
      ensures HistoryOf(history + [first, second], other) == HistoryOf(history, other)
    {
      HistoryAppendTwo(history, first, second, other);
    }
  }

  /** At every instant of every resource the use has dropped by what this booking took. */
  ghost predicate UseDropsBy(shop: Shop, t: Tables, t': Tables, row: BookingRow, now: int) {
    forall r: nat, x: int :: Usage(shop, t', r, x, now) == Usage(shop, t, r, x, now) - BookingUse(shop, row, r, x)
  }

  /** Exactly what the cancellation of a confirmed booking changes. */
  ghost predicate Withdraws(shop: Shop, t: Tables, b: nat, now: int, t': Tables)
    requires b < |t.bookings|
  {
    && t'.drafts == t.drafts && t'.holds == t.holds
    && OnlyAt(t.bookings, t'.bookings, b) && t'.bookings[b] == t.bookings[b].(status := Cancelled)
    && HistoryGrows(t.history, t'.history, b, [Change(Confirmed, Cancelled)])
    && t'.outbox == t.outbox + [Event(CancelledKey(b), t.bookings[b].reference, t.bookings[b].startAt, now)]
    && UseDropsBy(shop, t, t', t.bookings[b], now)
  }

  /**
    A cancellation answers with the booking asked for and leaves it cancelled: one that was confirmed
    gives up its time, with one history row and one event; anything else changes nothing.
  */
  lemma CancelMeaning(shop: Shop, t: Tables, customer: int, b: nat, now: int)
    ensures var o := CancelBooking(shop, t, customer, b, now);
            && (o.reply.Err? ==> o.tables == t)
            && (o.reply.Ok? ==>
                  && o.reply == Ok(b) && b < |t.bookings| && t.bookings[b].customer == customer
                  && b < |o.tables.bookings| && o.tables.bookings[b].status == Cancelled
                  && if t.bookings[b].status == Cancelled then o.tables == t
                     else t.bookings[b].status == Confirmed && Withdraws(shop, t, b, now, o.tables))
  {
    hide KeyPublished, SequenceTaken, LastSequence, UseDropsBy, HistoryGrows;
    var o := CancelBooking(shop, t, customer, b, now);
    if o.reply.Ok? && t.bookings[b].status == Confirmed {
      GrowsByOne(t.history, HistoryRow(b, LastSequence(t.history, b) + 1, Change(Confirmed, Cancelled)));
      CancelDropsUse(shop, t, o.tables, b, now);
    }
  }

  lemma CancelDropsUse(shop: Shop, t: Tables, t': Tables, b: nat, now: int)
    requires b < |t.bookings|
    requires t'.holds == t.holds && t'.bookings == t.bookings[b := t.bookings[b].(status := Cancelled)]
    ensures UseDropsBy(shop, t, t', t.bookings[b], now)
  {
    forall r: nat, x: int
      ensures Usage(shop, t', r, x, now) == Usage(shop, t, r, x, now) - BookingUse(shop, t.bookings[b], r, x)
    {
      BookingsAtUpdate(shop, t.bookings, b, t.bookings[b].(status := Cancelled), r, x);
    }
  }

  // --- Confirming -------------------------------------------------------------------------

  /** The draft is confirmed, its hold is consumed, and no other draft or hold changes. */
  ghost predicate Consumed(t: Tables, draft: nat, h: nat, t': Tables)
    requires draft < |t.drafts| && h < |t.holds|
  {
    && OnlyAt(t.drafts, t'.drafts, draft) && t'.drafts[draft] == t.drafts[draft].(status := DraftConfirmed)
    && OnlyAt(t.holds, t'.holds, h) && t'.holds[h] == t.holds[h].(status := HoldConsumed)
  }

  /** The time held, less the cleanup. */
  ghost function HeldUntil(shop: Shop, hold: HoldRow): int
    requires hold.service < |shop.services|
  {
    hold.endAt - shop.services[hold.service].buffer
  }

  /** Exactly what the confirmation of a new booking changes. */
  ghost predicate Books(shop: Shop, t: Tables, draft: nat, h: nat, key: string, reference: int, now: int, t': Tables)
    requires draft < |t.drafts| && h < |t.holds| && t.holds[h].service < |shop.services|
  {
    var d, hold, b := t.drafts[draft], t.holds[h], |t.bookings|;
    && Consumed(t, draft, h, t')
    && |t'.bookings| == b + 1 && (forall i :: 0 <= i < b ==> t'.bookings[i] == t.bookings[i])
    && var row := t'.bookings[b];
    && row.customer == d.customer && row.conversation == d.conversation && row.service == d.service
    && row.resource == hold.resource && row.startAt == hold.startAt && row.endAt == HeldUntil(shop, hold)
    && row.hold == h && row.status == Confirmed && row.key == key && row.reference == reference
    && row.name == d.name && row.phone == d.phone && row.note == d.note
    && HistoryGrows(t.history, t'.history, b, [Change(Draft, Held), Change(Held, Confirmed)])
    && t'.outbox == t.outbox + [Event(ConfirmedKey(b), reference, hold.startAt, now)]
  }

  /** Exactly what the confirmation of a move changes: the time, the place and the hold of one booking. */
  ghost predicate Moves(shop: Shop, t: Tables, draft: nat, h: nat, b: nat, now: int, t': Tables)
    requires draft < |t.drafts| && h < |t.holds| && b < |t.bookings| && t.holds[h].service < |shop.services|
  {
    var hold, was := t.holds[h], t.bookings[b];
    && Consumed(t, draft, h, t')
    && OnlyAt(t.bookings, t'.bookings, b)
    && var row := t'.bookings[b];
    && row.resource == hold.resource && row.startAt == hold.startAt && row.endAt == HeldUntil(shop, hold)
    && row.hold == h && row.status == Confirmed && SameTerms(was, row)
    && HistoryGrows(t.history, t'.history, b,
                    [Change(Confirmed, ReschedulePending), Change(ReschedulePending, Confirmed)])
    && t'.outbox ==
       t.outbox + [Event(RescheduledKey(b, |HistoryOf(t.history, b)| + 1), was.reference, hold.startAt, now)]
  }

  /** Who a booking is for, what it is for, and what it is known by. */
  ghost predicate SameTerms(a: BookingRow, b: BookingRow) {
    && b.reference == a.reference && b.key == a.key
    && b.customer == a.customer && b.conversation == a.conversation && b.service == a.service
    && b.name == a.name && b.phone == a.phone && b.note == a.note
  }

  lemma BookMeaning(shop: Shop, t: Tables, draft: nat, h: nat, key: string, reference: int, now: int)
    requires Inv(shop, t, now) && Ready(t, draft, h, now) && t.holds[h].service < |shop.services|
    requires Book(shop, t, draft, h, key, reference, now).reply.Ok?
    ensures Books(shop, t, draft, h, key, reference, now, Book(shop, t, draft, h, key, reference, now).tables)
  {
    HoldFacts(t);
    assert HoldSized(shop, t.holds[h]);
    hide Excluded, HoldTaken, KeyPublished, SequenceTaken, ReferenceTaken, Inv, HistoryGrows;
    var b := |t.bookings|;
    GrowsByTwo(t.history, HistoryRow(b, 1, Change(Draft, Held)), HistoryRow(b, 2, Change(Held, Confirmed)));
  }

  lemma LastIsCount(shop: Shop, t: Tables, b: nat, now: int)
    requires Inv(shop, t, now) && b < |t.bookings|
    ensures LastSequence(t.history, b) == |HistoryOf(t.history, b)|
  {
    assert Recorded(t, b);
    SequencesInUse(t.history, b);
  }

  lemma RescheduleMeaning(shop: Shop, t: Tables, draft: nat, h: nat, b: nat, now: int)
    requires Inv(shop, t, now) && Ready(t, draft, h, now) && t.holds[h].service < |shop.services|
    requires b < |t.bookings| && Reschedule(shop, t, draft, h, b, now).reply.Ok?
    ensures Moves(shop, t, draft, h, b, now, Reschedule(shop, t, draft, h, b, now).tables)
  {
    LastIsCount(shop, t, b, now);
    assert HoldSized(shop, t.holds[h]);
    hide Excluded, HoldTaken, KeyPublished, SequenceTaken, LastSequence, HistoryOf, Inv, HistoryGrows;
    var n := LastSequence(t.history, b) + 1;
    GrowsByTwo(t.history, HistoryRow(b, n, Change(Confirmed, ReschedulePending)),
               HistoryRow(b, n + 1, Change(ReschedulePending, Confirmed)));
  }

  /** What a confirmation that is a repeat answers: the booking of the key, or the one of the draft's own hold. */
  ghost predicate Repeated(t: Tables, customer: int, draft: nat, key: string, b: nat) {
    && b < |t.bookings| && t.bookings[b].customer == customer
    && (t.bookings[b].key == key
        || (draft < |t.drafts| && t.drafts[draft].customer == customer && t.drafts[draft].status == DraftConfirmed
            && t.drafts[draft].hold == Some(t.bookings[b].hold)))
  }

  /**
    A confirmation that succeeds repeats an earlier one and changes nothing, or books or moves exactly
    as its draft and hold say; one that fails changes nothing.
  */
  lemma ConfirmMeaning(shop: Shop, t: Tables, customer: int, draft: nat, key: string, reference: int, now: int)
    requires Inv(shop, t, now)
    ensures var o := Confirm(shop, t, customer, draft, key, reference, now);
            && (o.reply.Err? ==> o.tables == t)
            && (o.reply.Ok? && o.tables == t ==> Repeated(t, customer, draft, key, o.reply.value))
            && (o.reply.Ok? && o.tables != t ==>
                  && draft < |t.drafts| && t.drafts[draft].customer == customer && t.drafts[draft].hold.Some?
                  && var d, h := t.drafts[draft], t.drafts[draft].hold.value;
                  && Ready(t, draft, h, now) && t.holds[h].service < |shop.services|
                  && match d.reschedules
                     case None =>
                       o.reply == Ok(|t.bookings|) && Books(shop, t, draft, h, key, reference, now, o.tables)
                     case Some(b) =>
                       o.reply == Ok(b) && b < |t.bookings| && Moves(shop, t, draft, h, b, now, o.tables))
  {
    hide Book, Reschedule, Books, Moves, Sized, WithinCapacity, HistoryKept, EventsKept;
    if BookingByKey(t.bookings, key).None? && AlreadyConfirmed(t, customer, draft).None?
       && OwnedDraft(t, customer, draft, now).Ok? && t.drafts[draft].hold.Some? {
      var h := t.drafts[draft].hold.value;
      if h < |t.holds| && LiveHold(t.holds[h], now) && t.holds[h].service < |shop.services| {
        ConfirmedOnce(shop, t, draft, h, key, reference, now);
      }
    }
  }

  lemma ConfirmedOnce(shop: Shop, t: Tables, draft: nat, h: nat, key: string, reference: int, now: int)
    requires Inv(shop, t, now) && Ready(t, draft, h, now) && t.holds[h].service < |shop.services|
    ensures var o := Book(shop, t, draft, h, key, reference, now);
            if o.reply.Ok? then o.reply == Ok(|t.bookings|) && Books(shop, t, draft, h, key, reference, now, o.tables)
            else o.tables == t
    ensures t.drafts[draft].reschedules.Some? ==>
              var b := t.drafts[draft].reschedules.value;
              var o := Reschedule(shop, t, draft, h, b, now);
              if o.reply.Ok?
              then o.reply == Ok(b) && b < |t.bookings| && Moves(shop, t, draft, h, b, now, o.tables) && o.tables != t
              else o.tables == t
    ensures Book(shop, t, draft, h, key, reference, now).reply.Ok? ==>
              Book(shop, t, draft, h, key, reference, now).tables != t
  {
    hide Books, Moves, Excluded, HoldTaken, KeyPublished, SequenceTaken, ReferenceTaken, LastSequence, Inv;
    if Book(shop, t, draft, h, key, reference, now).reply.Ok? {
      BookMeaning(shop, t, draft, h, key, reference, now);
    }
    if t.drafts[draft].reschedules.Some? {
      var b := t.drafts[draft].reschedules.value;
      if Reschedule(shop, t, draft, h, b, now).reply.Ok? {
        RescheduleMeaning(shop, t, draft, h, b, now);
        assert |Reschedule(shop, t, draft, h, b, now).tables.history| == |t.history| + 2;
      }
    }
  }

  // --- What a booking keeps for good ------------------------------------------------------

  /** Bookings stay in place and keep their terms; a cancelled one keeps everything. */
  ghost predicate TermsKept(t: Tables, t': Tables) {
    && |t.bookings| <= |t'.bookings|
    && (forall b :: 0 <= b < |t.bookings| ==> SameTerms(t.bookings[b], t'.bookings[b]))
    && (forall b :: 0 <= b < |t.bookings| && t.bookings[b].status == Cancelled ==> t'.bookings[b] == t.bookings[b])
  }

  /** No two bookings share a reference or a key. */
  ghost predicate TermsDiffer(bookings: seq<BookingRow>) {
    forall i, j :: 0 <= i < j < |bookings| ==>
      bookings[i].reference != bookings[j].reference && bookings[i].key != bookings[j].key
  }

  lemma ConfirmTerms(shop: Shop, t: Tables, customer: int, draft: nat, key: string, reference: int, now: int)
    ensures var t' := Confirm(shop, t, customer, draft, key, reference, now).tables;
            TermsKept(t, t') && (TermsDiffer(t.bookings) ==> TermsDiffer(t'.bookings))
  {
    hide Excluded, HoldTaken, KeyPublished, SequenceTaken, LastSequence, AlreadyConfirmed;
  }

  lemma ApplyTerms(shop: Shop, t: Tables, call: Call, now: int)
    ensures var t' := Apply(shop, t, call, now);
            TermsKept(t, t') && (TermsDiffer(t.bookings) ==> TermsDiffer(t'.bookings))
  {
    hide Confirm, TermsKept, TermsDiffer;
    OneEventPerChange(shop, t, call, now);
    match call
    case ConfirmCall(c, d, key, reference) => ConfirmTerms(shop, t, c, d, key, reference, now);
    case CancelCall(c, b) => CancelTerms(shop, t, c, b, now);
    case _ =>
      hide Apply;
      SameBookings(t, Apply(shop, t, call, now));
  }

  lemma SameBookings(t: Tables, t': Tables)
    requires t'.bookings == t.bookings
    ensures TermsKept(t, t')
  {
  }

  lemma CancelTerms(shop: Shop, t: Tables, customer: int, b: nat, now: int)
    ensures var t' := CancelBooking(shop, t, customer, b, now).tables;
            TermsKept(t, t') && (TermsDiffer(t.bookings) ==> TermsDiffer(t'.bookings))
  {
    hide KeyPublished, SequenceTaken, LastSequence;
  }

  lemma TermsTransitive(t: Tables, t': Tables, t'': Tables)
    requires TermsKept(t, t') && TermsKept(t', t'')
    ensures TermsKept(t, t'')
  {
  }

  /**
    Over any run under any configuration a booking keeps its reference, key, customer, conversation,
    service and contact from the moment it exists, and a cancelled booking keeps everything.
  */
  lemma {:induction false} BookingsKeepTheirTerms(t: Tables, steps: seq<Step>)
    ensures TermsKept(t, Run(t, steps))
    ensures TermsDiffer(t.bookings) ==> TermsDiffer(Run(t, steps).bookings)
  {
    if steps == [] {
      SameBookings(t, t);
    } else {
      var init, last := steps[..|steps| - 1], steps[|steps| - 1];
      hide TermsKept, TermsDiffer, Apply;
      BookingsKeepTheirTerms(t, init);
      ApplyTerms(last.shop, Run(t, init), last.call, last.now);
      TermsTransitive(t, Run(t, init), Run(t, steps));
    }
  }

  /** After any run from empty tables no two bookings share a public reference or a key. */
  lemma ReferencesAreUnique(steps: seq<Step>)
    ensures TermsDiffer(Run(EMPTY, steps).bookings)
  {
    BookingsKeepTheirTerms(EMPTY, steps);
  }

  // --- What a hold keeps for good ---------------------------------------------------------

  /** Holds stay in place; only the status of one changes, and only while it is active. */
  ghost predicate HoldsStay(t: Tables, t': Tables) {
    && |t.holds| <= |t'.holds|
    && (forall h :: 0 <= h < |t.holds| ==> t'.holds[h] == t.holds[h].(status := t'.holds[h].status))
    && (forall h :: 0 <= h < |t.holds| && t.holds[h].status != HoldActive ==> t'.holds[h] == t.holds[h])
  }

  ghost predicate HoldKeysDiffer(holds: seq<HoldRow>) {
    forall h, g :: 0 <= h < g < |holds| ==> holds[h].key != holds[g].key
  }

  lemma StaySameKeys(t: Tables, t': Tables)
    requires HoldsStay(t, t') && |t'.holds| == |t.holds| && HoldKeysDiffer(t.holds)
    ensures HoldKeysDiffer(t'.holds)
  {
  }

  lemma HoldCallStays(shop: Shop, t: Tables, customer: int, draft: nat, index: int, key: string, now: int)
    ensures var t' := CreateHold(shop, t, customer, draft, index, key, now).tables;
            HoldsStay(t, t') && (HoldKeysDiffer(t.holds) ==> HoldKeysDiffer(t'.holds))
  {
    hide AvailabilityContext, AvailableSlots, FindSlot;
  }

  lemma ConfirmStays(shop: Shop, t: Tables, customer: int, draft: nat, key: string, reference: int, now: int)
    ensures HoldsStay(t, Confirm(shop, t, customer, draft, key, reference, now).tables)
    ensures |Confirm(shop, t, customer, draft, key, reference, now).tables.holds| == |t.holds|
  {
    hide Excluded, HoldTaken, KeyPublished, SequenceTaken, ReferenceTaken, LastSequence, AlreadyConfirmed;
  }

  lemma ApplyStays(shop: Shop, t: Tables, call: Call, now: int)
    ensures var t' := Apply(shop, t, call, now);
            HoldsStay(t, t') && (HoldKeysDiffer(t.holds) ==> HoldKeysDiffer(t'.holds))
  {
    var t' := Apply(shop, t, call, now);
    hide CreateHold, Confirm, HoldKeysDiffer, AvailabilityContext, SortBy, DueHolds, CancelBooking, UpdateContact;
    match call {
      case HoldCall(c, d, i, key) => HoldCallStays(shop, t, c, d, i, key, now);
      case ConfirmCall(c, d, key, reference) => ConfirmStays(shop, t, c, d, key, reference, now);
      case CancelCall(c, b) => CancelCallHolds(shop, t, c, b, now);
      case ContactCall(c, d, name, phone, note) => ContactCallHolds(shop, t, c, d, name, phone, note, now);
      case _ =>
    }
    if !call.HoldCall? && HoldKeysDiffer(t.holds) {
      StaySameKeys(t, t');
    }
  }

  lemma CancelCallHolds(shop: Shop, t: Tables, customer: int, b: nat, now: int)
    ensures CancelBooking(shop, t, customer, b, now).tables.holds == t.holds
  {
    hide KeyPublished, SequenceTaken, LastSequence;
  }

  lemma ContactCallHolds(shop: Shop, t: Tables, customer: int, draft: nat,
                         name: Option<string>, phone: Option<string>, note: Option<string>, now: int)
    ensures UpdateContact(shop, t, customer, draft, name, phone, note, now).tables.holds == t.holds
  {
    hide NameAccepted, PhoneAccepted, NoteAccepted;
  }

  /**
    Over any run under any configuration a hold keeps its owner, place, time, expiry and key, and once it
    is released, expired or consumed it stays so; from empty tables no two holds share a key.
  */
  lemma {:induction false} HoldsKeepTheirTerms(t: Tables, steps: seq<Step>)
    ensures HoldsStay(t, Run(t, steps))
    ensures HoldKeysDiffer(t.holds) ==> HoldKeysDiffer(Run(t, steps).holds)
  {
    if steps != [] {
      var init, last := steps[..|steps| - 1], steps[|steps| - 1];
      hide HoldsStay, HoldKeysDiffer, Apply;
      HoldsKeepTheirTerms(t, init);
      ApplyStays(last.shop, Run(t, init), last.call, last.now);
      StayTransitive(t, Run(t, init), Run(t, steps));
    }
  }

  lemma StayTransitive(t: Tables, t': Tables, t'': Tables)
    requires HoldsStay(t, t') && HoldsStay(t', t'')
    ensures HoldsStay(t, t'')
  {
  }
}
