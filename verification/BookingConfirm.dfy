/** Confirming, moving and cancelling: use is conserved, and history and events stay in step. */
module BookingConfirm {
  import opened Basics
  import opened BookingDomain
  import opened BookingTables
  import opened BookingSteps
  import opened BookingInvariant

  // --- Use under row changes --------------------------------------------------------------

  lemma BookingsAtUpdate(shop: Shop, bookings: seq<BookingRow>, b: nat, row: BookingRow, r: nat, x: int)
    requires b < |bookings|
    ensures BookingsAt(shop, bookings[b := row], r, x) + BookingUse(shop, bookings[b], r, x) ==
            BookingsAt(shop, bookings, r, x) + BookingUse(shop, row, r, x)
  {
    var init := bookings[..|bookings| - 1];
    if b < |init| {
      assert bookings[b := row][..|bookings| - 1] == init[b := row];
      BookingsAtUpdate(shop, init, b, row, r, x);
    } else {
      assert bookings[b := row][..|bookings| - 1] == init;
    }
  }

  lemma HoldsAtUpdate(holds: seq<HoldRow>, h: nat, row: HoldRow, r: nat, x: int, now: int)
    requires h < |holds|
    ensures HoldsAt(holds[h := row], r, x, now) + HoldUse(holds[h], r, x, now) ==
            HoldsAt(holds, r, x, now) + HoldUse(row, r, x, now)
  {
    var init := holds[..|holds| - 1];
    if h < |init| {
      assert holds[h := row][..|holds| - 1] == init[h := row];
      HoldsAtUpdate(init, h, row, r, x, now);
    } else {
      assert holds[h := row][..|holds| - 1] == init;
    }
  }

  // --- History under appends --------------------------------------------------------------

  lemma HistoryAppend(history: seq<HistoryRow>, row: HistoryRow, b: nat)
    ensures HistoryOf(history + [row], b) ==
            if row.booking == b then HistoryOf(history, b) + [row.change] else HistoryOf(history, b)
    ensures Numbered(history + [row], b) <==>
            Numbered(history, b) && (row.booking == b ==> row.sequence == |HistoryOf(history, b)| + 1)
  {
    assert (history + [row])[..|history|] == history;
  }

  lemma HistoryAppendTwo(history: seq<HistoryRow>, first: HistoryRow, second: HistoryRow, b: nat)
    requires first.booking == second.booking
    ensures HistoryOf(history + [first, second], b) ==
            if first.booking == b then HistoryOf(history, b) + [first.change, second.change] else HistoryOf(history, b)
    ensures Numbered(history + [first, second], b) <==>
            Numbered(history, b) && (first.booking == b ==>
              first.sequence == |HistoryOf(history, b)| + 1 && second.sequence == first.sequence + 1)
  {
    assert history + [first, second] == history + [first] + [second];
    HistoryAppend(history, first, b);
    HistoryAppend(history + [first], second, b);
  }

  /** Numbers already used by a booking run from 1 to the number of its rows. */
  lemma SequencesInUse(history: seq<HistoryRow>, b: nat)
    requires Numbered(history, b)
    ensures LastSequence(history, b) == |HistoryOf(history, b)|
    ensures forall i :: 0 <= i < |history| && history[i].booking == b ==>
              1 <= history[i].sequence <= |HistoryOf(history, b)|
  {
    if history != [] {
      SequencesInUse(history[..|history| - 1], b);
      forall i | 0 <= i < |history| && history[i].booking == b
        ensures 1 <= history[i].sequence <= |HistoryOf(history, b)|
      {
        if i < |history| - 1 {
          assert history[..|history| - 1][i] == history[i];
        }
      }
    }
  }

  lemma NoHistoryYet(history: seq<HistoryRow>, b: nat)
    requires forall i :: 0 <= i < |history| ==> history[i].booking != b
    ensures HistoryOf(history, b) == [] && Numbered(history, b)
  {
    if history != [] {
      NoHistoryYet(history[..|history| - 1], b);
    }
  }

  // --- Links ------------------------------------------------------------------------------

  /** Consuming a hold that a new or moved booking takes over keeps the links. */
  lemma ConsumeLinks(t: Tables, t': Tables, draft: nat, h: nat, b: nat)
    requires Linked(t) && draft < |t.drafts| && h < |t.holds|
    requires t.drafts[draft].status == DraftActive && t.drafts[draft].hold == Some(h)
    requires t.holds[h].status == HoldActive
    requires t'.drafts == Consume(t, draft, h).drafts && t'.holds == Consume(t, draft, h).holds
    requires b <= |t.bookings| && b < |t'.bookings|
    requires t'.bookings[..b] == t.bookings[..b] && |t'.bookings| == (if b == |t.bookings| then b + 1 else |t.bookings|)
    requires b < |t.bookings| ==>
               && t'.bookings[b + 1..] == t.bookings[b + 1..]
               && t'.bookings[b].customer == t.bookings[b].customer && t'.bookings[b].service == t.bookings[b].service
    requires t'.bookings[b].status == Confirmed && t'.bookings[b].hold == h
    ensures Linked(t')
  {
    HoldFacts(t);
    assert forall i :: 0 <= i < |t'.bookings| && i != b ==> t'.bookings[i] == t.bookings[i] by {
      assert forall i :: 0 <= i < b ==> t'.bookings[i] == t'.bookings[..b][i];
      assert forall i :: b < i < |t'.bookings| ==> t'.bookings[i] == t'.bookings[b + 1..][i - (b + 1)];
      assert forall i :: b < i < |t'.bookings| ==> t.bookings[i] == t.bookings[b + 1..][i - (b + 1)];
    }
    ConsumeHolds(t, t', draft, h);
    forall i, j | 0 <= i < j < |t'.bookings| ensures t'.bookings[i].hold != t'.bookings[j].hold {
      assert i != b ==> t.holds[t.bookings[i].hold].status == HoldConsumed;
      assert j != b ==> t.holds[t.bookings[j].hold].status == HoldConsumed;
    }
  }

  lemma ConsumeHolds(t: Tables, t': Tables, draft: nat, h: nat)
    requires Linked(t) && draft < |t.drafts| && h < |t.holds|
    requires t.drafts[draft].status == DraftActive && t.drafts[draft].hold == Some(h)
    requires t'.drafts == Consume(t, draft, h).drafts && t'.holds == Consume(t, draft, h).holds
    ensures DraftsPoint(t') && HoldsPoint(t') && OneActive(t'.drafts)
  {
    HoldFacts(t);
    forall i | 0 <= i < |t'.holds| ensures HoldPoints(t', i) {
      assert HoldPoints(t, i);
    }
  }

  // --- Booking ----------------------------------------------------------------------------

  /** The draft and hold of a confirmation in progress. */
  ghost predicate Ready(t: Tables, draft: nat, h: nat, now: int) {
    && draft < |t.drafts| && h < |t.holds|
    && t.drafts[draft].status == DraftActive && t.drafts[draft].hold == Some(h)
    && LiveHold(t.holds[h], now)
  }

  /** A new booking takes over exactly the use of its hold. */
  lemma BookConserves(shop: Shop, t: Tables, draft: nat, h: nat, key: string, reference: int, now: int, r: nat, x: int)
    requires Inv(shop, t, now) && Ready(t, draft, h, now)
    requires var o := Book(shop, t, draft, h, key, reference, now); o.reply.Ok?
    ensures Usage(shop, Book(shop, t, draft, h, key, reference, now).tables, r, x, now) == Usage(shop, t, r, x, now)
  {
    var t' := Book(shop, t, draft, h, key, reference, now).tables;
    assert HoldSized(shop, t.holds[h]);
    HoldsAtUpdate(t.holds, h, t.holds[h].(status := HoldConsumed), r, x, now);
    assert t'.bookings[..|t'.bookings| - 1] == t.bookings;
  }

  /** Rows of one booking leave the record of another as it was. */
  lemma OtherRecorded(t: Tables, t': Tables, first: HistoryRow, second: HistoryRow, b: nat)
    requires b < |t.bookings| && Recorded(t, b)
    requires b < |t'.bookings| && t'.bookings[b].status == t.bookings[b].status
    requires t'.history == t.history + [first, second] && first.booking == second.booking != b
    ensures Recorded(t', b)
  {
    HistoryAppendTwo(t.history, first, second, b);
  }

  lemma KeyStaysHappened(t: Tables, t': Tables, first: HistoryRow, second: HistoryRow, key: EventKey)
    requires Happened(t, key) && |t.bookings| <= |t'.bookings|
    requires t'.history == t.history + [first, second] && first.booking == second.booking
    requires forall b :: 0 <= b < |t.bookings| && t.bookings[b].status == Cancelled ==>
             t'.bookings[b].status == Cancelled
    ensures Happened(t', key)
  {
    HistoryAppendTwo(t.history, first, second, key.booking);
  }

  lemma BookRecords(shop: Shop, t: Tables, draft: nat, h: nat, key: string, reference: int, now: int)
    requires HistoryKept(t) && EventsKept(t)
    requires draft < |t.drafts| && h < |t.holds| && t.holds[h].service < |shop.services|
    requires Book(shop, t, draft, h, key, reference, now).reply.Ok?
    ensures HistoryKept(Book(shop, t, draft, h, key, reference, now).tables)
    ensures EventsKept(Book(shop, t, draft, h, key, reference, now).tables)
  {
    hide Excluded, HoldTaken, SequenceTaken, Recorded, Happened, Consume;
    var t' := Book(shop, t, draft, h, key, reference, now).tables;
    var id := |t.bookings|;
    var first, second := HistoryRow(id, 1, Change(Draft, Held)), HistoryRow(id, 2, Change(Held, Confirmed));
    forall b | 0 <= b < |t'.bookings| ensures Recorded(t', b) {
      if b < id {
        OtherRecorded(t, t', first, second, b);
      } else {
        FirstRecord(t, t', first, second);
      }
    }
    forall i | 0 <= i < |t.outbox| ensures Happened(t', t.outbox[i].key) {
      KeyStaysHappened(t, t', first, second, t.outbox[i].key);
    }
    NewKeyHappened(t', id);
    EventsGrow(t, t');
  }

  lemma NewKeyHappened(t: Tables, b: nat)
    requires b < |t.bookings|
    ensures Happened(t, ConfirmedKey(b))
  {
  }

  lemma FirstRecord(t: Tables, t': Tables, first: HistoryRow, second: HistoryRow)
    requires HistoryKept(t) && |t'.bookings| == |t.bookings| + 1 && t'.bookings[|t.bookings|].status == Confirmed
    requires first == HistoryRow(|t.bookings|, 1, Change(Draft, Held))
    requires second == HistoryRow(|t.bookings|, 2, Change(Held, Confirmed))
    requires t'.history == t.history + [first, second]
    ensures Recorded(t', |t.bookings|)
  {
    hide Recorded;
    NoHistoryYet(t.history, |t.bookings|);
    HistoryAppendTwo(t.history, first, second, |t.bookings|);
    TwoSteps([], first.change, second.change);
    RecordedBy(t', |t.bookings|);
  }

  lemma RecordedBy(t: Tables, b: nat)
    requires b < |t.bookings| && Numbered(t.history, b)
    requires Replay(HistoryOf(t.history, b)) == Some(t.bookings[b].status)
    ensures Recorded(t, b)
  {
  }

  lemma TwoSteps(changes: seq<Change>, first: Change, second: Change)
    requires Replay(changes) == Some(first.from) && first.to in Transitions(first.from)
    requires second.from == first.to && second.to in Transitions(second.from)
    ensures Replay(changes + [first, second]) == Some(second.to)
  {
    ReplayStep(changes, first);
    ReplayStep(changes + [first], second);
    assert changes + [first, second] == changes + [first] + [second];
  }

  /** Appending one event whose key has now happened, and was not published before. */
  lemma EventsGrow(t: Tables, t': Tables)
    requires EventsKept(t) && |t'.outbox| == |t.outbox| + 1 && t'.outbox[..|t.outbox|] == t.outbox
    requires Happened(t', t'.outbox[|t.outbox|].key) && !KeyPublished(t.outbox, t'.outbox[|t.outbox|].key)
    requires forall i :: 0 <= i < |t.outbox| ==> Happened(t', t.outbox[i].key)
    ensures EventsKept(t')
  {
    assert forall i :: 0 <= i < |t.outbox| ==> t'.outbox[i] == t'.outbox[..|t.outbox|][i];
    assert forall i :: 0 <= i < |t.outbox| ==> t'.outbox[i] == t.outbox[i];
  }

  lemma BookKeeps(shop: Shop, t: Tables, draft: nat, h: nat, key: string, reference: int, now: int)
    requires Inv(shop, t, now) && Ready(t, draft, h, now)
    requires t.holds[h].service < |shop.services|
    ensures Inv(shop, Book(shop, t, draft, h, key, reference, now).tables, now)
  {
    var o := Book(shop, t, draft, h, key, reference, now);
    if o.reply.Ok? {
      ConsumeLinks(t, o.tables, draft, h, |t.bookings|);
      BookRecords(shop, t, draft, h, key, reference, now);
      forall r, x | 0 <= r < |shop.resources| ensures Usage(shop, o.tables, r, x, now) <= shop.resources[r].capacity {
        BookConserves(shop, t, draft, h, key, reference, now, r, x);
        assert Usage(shop, t, r, x, now) <= shop.resources[r].capacity;
      }
      BookSized(shop, t, draft, h, key, reference, now);
    }
  }

  lemma BookSized(shop: Shop, t: Tables, draft: nat, h: nat, key: string, reference: int, now: int)
    requires Sized(shop, t) && draft < |t.drafts| && h < |t.holds|
    ensures Sized(shop, Book(shop, t, draft, h, key, reference, now).tables)
  {
    assert HoldSized(shop, t.holds[h]);
  }

  // --- Rescheduling -----------------------------------------------------------------------

  /** A moved booking takes over the use of its new hold and gives up its old place. */
  lemma RescheduleConserves(shop: Shop, t: Tables, draft: nat, h: nat, b: nat, now: int, r: nat, x: int)
    requires Inv(shop, t, now) && Ready(t, draft, h, now)
    requires t.drafts[draft].reschedules == Some(b) && b < |t.bookings|
    requires t.holds[h].service < |shop.services|
    requires Reschedule(shop, t, draft, h, b, now).reply.Ok?
    ensures Usage(shop, Reschedule(shop, t, draft, h, b, now).tables, r, x, now) +
            BookingUse(shop, t.bookings[b], r, x) ==
            Usage(shop, t, r, x, now)
  {
    HoldFacts(t);
    assert HoldSized(shop, t.holds[h]);
    HoldsAtUpdate(t.holds, h, t.holds[h].(status := HoldConsumed), r, x, now);
    BookingsAtUpdate(shop, t.bookings, b, Moved(shop, t, h, b), r, x);
  }

  lemma RescheduleRecords(shop: Shop, t: Tables, draft: nat, h: nat, b: nat, now: int)
    requires HistoryKept(t) && EventsKept(t) && draft < |t.drafts| && h < |t.holds| && b < |t.bookings|
    requires t.holds[h].service < |shop.services|
    requires Reschedule(shop, t, draft, h, b, now).reply.Ok?
    ensures HistoryKept(Reschedule(shop, t, draft, h, b, now).tables)
    ensures EventsKept(Reschedule(shop, t, draft, h, b, now).tables)
  {
    hide Excluded, HoldTaken, SequenceTaken, Recorded, Happened, Consume, LastSequence;
    var t' := Reschedule(shop, t, draft, h, b, now).tables;
    var n := LastSequence(t.history, b) + 1;
    var first := HistoryRow(b, n, Change(Confirmed, ReschedulePending));
    var second := HistoryRow(b, n + 1, Change(ReschedulePending, Confirmed));
    forall i | 0 <= i < |t'.bookings| ensures Recorded(t', i) {
      if i == b {
        NextRecord(t, t', first, second, b);
      } else {
        OtherRecorded(t, t', first, second, i);
      }
    }
    forall i | 0 <= i < |t.outbox| ensures Happened(t', t.outbox[i].key) {
      KeyStaysHappened(t, t', first, second, t.outbox[i].key);
    }
    NextRecord(t, t', first, second, b);
    EventsGrow(t, t');
  }

  lemma NextRecord(t: Tables, t': Tables, first: HistoryRow, second: HistoryRow, b: nat)
    requires HistoryKept(t) && b < |t.bookings| && t.bookings[b].status == Confirmed
    requires b < |t'.bookings| && t'.bookings[b].status == Confirmed
    requires first == HistoryRow(b, LastSequence(t.history, b) + 1, Change(Confirmed, ReschedulePending))
    requires second == HistoryRow(b, LastSequence(t.history, b) + 2, Change(ReschedulePending, Confirmed))
    requires t'.history == t.history + [first, second]
    ensures Recorded(t', b)
    ensures Happened(t', RescheduledKey(b, first.sequence))
  {
    hide LastSequence, HistoryOf, Numbered;
    assert Recorded(t, b);
    SequencesInUse(t.history, b);
    HistoryAppendTwo(t.history, first, second, b);
    TwoSteps(HistoryOf(t.history, b), first.change, second.change);
  }

  lemma RescheduleKeeps(shop: Shop, t: Tables, draft: nat, h: nat, b: nat, now: int)
    requires Inv(shop, t, now) && Ready(t, draft, h, now)
    requires t.drafts[draft].reschedules == Some(b)
    requires t.holds[h].service < |shop.services|
    ensures Inv(shop, Reschedule(shop, t, draft, h, b, now).tables, now)
  {
    var o := Reschedule(shop, t, draft, h, b, now);
    if o.reply.Ok? {
      ConsumeLinks(t, o.tables, draft, h, b);
      RescheduleRecords(shop, t, draft, h, b, now);
      forall r, x | 0 <= r < |shop.resources| ensures Usage(shop, o.tables, r, x, now) <= shop.resources[r].capacity {
        RescheduleConserves(shop, t, draft, h, b, now, r, x);
        assert Usage(shop, t, r, x, now) <= shop.resources[r].capacity;
      }
      RescheduleSized(shop, t, draft, h, b, now);
    }
  }

  lemma RescheduleSized(shop: Shop, t: Tables, draft: nat, h: nat, b: nat, now: int)
    requires Inv(shop, t, now) && Ready(t, draft, h, now)
    requires t.drafts[draft].reschedules == Some(b)
    ensures Sized(shop, Reschedule(shop, t, draft, h, b, now).tables)
  {
    HoldFacts(t);
    assert HoldSized(shop, t.holds[h]);
    assert BookingSized(shop, t.bookings[b]);
  }

  lemma ConfirmKeeps(shop: Shop, t: Tables, customer: int, draft: nat, key: string, reference: int, before: int,
                     now: int)
    requires Inv(shop, t, before) && before <= now
    ensures Inv(shop, Confirm(shop, t, customer, draft, key, reference, now).tables, now)
  {
    hide Book, Reschedule, AlreadyConfirmed;
    HoldFacts(t);
    EditKeeps(shop, t, t, before, now);
    if OwnedDraft(t, customer, draft, now).Ok? && t.drafts[draft].hold.Some? {
      var h := t.drafts[draft].hold.value;
      if LiveHold(t.holds[h], now) && t.holds[h].service < |shop.services| {
        BookKeeps(shop, t, draft, h, key, reference, now);
        if t.drafts[draft].reschedules.Some? {
          RescheduleKeeps(shop, t, draft, h, t.drafts[draft].reschedules.value, now);
        }
      }
    }
  }

  // --- Cancelling -------------------------------------------------------------------------

  lemma CancelBookingKeeps(shop: Shop, t: Tables, customer: int, b: nat, before: int, now: int)
    requires Inv(shop, t, before) && before <= now
    ensures Inv(shop, CancelBooking(shop, t, customer, b, now).tables, now)
  {
    HoldFacts(t);
    EditKeeps(shop, t, t, before, now);
    var o := CancelBooking(shop, t, customer, b, now);
    if o.reply.Ok? && t.bookings[b].status == Confirmed {
      CancelRecords(shop, t, customer, b, now);
      CancelUse(shop, t, o.tables, b, now);
      CancelLinks(shop, t, o.tables, b);
    }
  }

  lemma CancelUse(shop: Shop, t: Tables, t': Tables, b: nat, now: int)
    requires WithinCapacity(shop, t, now) && b < |t.bookings|
    requires t'.holds == t.holds && t'.bookings == t.bookings[b := t.bookings[b].(status := Cancelled)]
    ensures WithinCapacity(shop, t', now)
  {
    forall r, x | 0 <= r < |shop.resources| ensures Usage(shop, t', r, x, now) <= shop.resources[r].capacity {
      BookingsAtUpdate(shop, t.bookings, b, t.bookings[b].(status := Cancelled), r, x);
      assert Usage(shop, t, r, x, now) <= shop.resources[r].capacity;
    }
  }

  lemma CancelLinks(shop: Shop, t: Tables, t': Tables, b: nat)
    requires Linked(t) && Sized(shop, t) && b < |t.bookings|
    requires t'.holds == t.holds && t'.drafts == t.drafts
    requires t'.bookings == t.bookings[b := t.bookings[b].(status := Cancelled)]
    ensures Linked(t') && Sized(shop, t')
  {
    forall h | 0 <= h < |t.holds| ensures HoldPoints(t', h) {
      assert HoldPoints(t, h);
    }
    forall i | 0 <= i < |t'.bookings| ensures BookingSized(shop, t'.bookings[i]) {
      assert BookingSized(shop, t.bookings[i]);
    }
  }

  lemma CancelRecords(shop: Shop, t: Tables, customer: int, b: nat, now: int)
    requires HistoryKept(t) && EventsKept(t) && b < |t.bookings| && t.bookings[b].status == Confirmed
    requires CancelBooking(shop, t, customer, b, now).reply.Ok?
    ensures HistoryKept(CancelBooking(shop, t, customer, b, now).tables)
    ensures EventsKept(CancelBooking(shop, t, customer, b, now).tables)
  {
    hide SequenceTaken, LastSequence, HistoryOf, Numbered;
    var t' := CancelBooking(shop, t, customer, b, now).tables;
    assert Recorded(t, b);
    SequencesInUse(t.history, b);
    var row := HistoryRow(b, LastSequence(t.history, b) + 1, Change(Confirmed, Cancelled));
    forall i | 0 <= i < |t'.bookings| ensures Recorded(t', i) {
      HistoryAppend(t.history, row, i);
      assert Recorded(t, i);
      if i == b {
        ReplayStep(HistoryOf(t.history, b), row.change);
      }
    }
    forall i | 0 <= i < |t.outbox| ensures Happened(t', t.outbox[i].key) {
      HistoryAppend(t.history, row, t.outbox[i].key.booking);
      assert Happened(t, t.outbox[i].key);
    }
    EventsGrow(t, t');
  }
}
