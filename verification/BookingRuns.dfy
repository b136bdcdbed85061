/**
  Whole runs of the booking store: any sequence of calls by any customers at non-decreasing times,
  with the configuration free to change between calls except for sizes.
*/
module BookingRuns {
  import opened Basics
  import opened BookingDomain
  import opened BookingTables
  import opened BookingSteps
  import opened BookingWindow
  import opened BookingInvariant
  import opened BookingCapacity
  import opened BookingConfirm

  datatype Call =
    | StartCall(customer: int, conversation: int, service: nat, reschedules: Option<nat>)
    | ActiveCall(customer: int, conversation: int)
    | DateCall(customer: int, draft: nat, date: int)
    | HoldCall(customer: int, draft: nat, index: int, key: string)
    | ContactCall(customer: int, draft: nat, name: Option<string>, phone: Option<string>, note: Option<string>)
    | CurrentHoldCall(customer: int, draft: nat)
    | AbandonCall(customer: int, conversation: int)
    | ConfirmCall(customer: int, draft: nat, key: string, reference: int)
    | CancelCall(customer: int, booking: nat)
    | SweepCall(limit: int)

  function Apply(shop: Shop, t: Tables, call: Call, now: int): Tables {
    match call
    case StartCall(c, v, s, b) => StartDraft(shop, t, c, v, s, b, now).tables
    case ActiveCall(c, v) => GetActiveDraft(t, c, v, now).tables
    case DateCall(c, d, date) => SelectDate(shop, t, c, d, date, now).tables
    case HoldCall(c, d, i, key) => CreateHold(shop, t, c, d, i, key, now).tables
    case ContactCall(c, d, name, phone, note) => UpdateContact(shop, t, c, d, name, phone, note, now).tables
    case CurrentHoldCall(c, d) => GetHold(t, c, d, now).tables
    case AbandonCall(c, v) => CancelDraft(t, c, v).tables
    case ConfirmCall(c, d, key, reference) => Confirm(shop, t, c, d, key, reference, now).tables
    case CancelCall(c, b) => CancelBooking(shop, t, c, b, now).tables
    case SweepCall(limit) => ExpireHolds(shop, t, limit, now).tables
  }

  lemma ApplyKeeps(shop: Shop, t: Tables, call: Call, before: int, now: int)
    requires Inv(shop, t, before) && before <= now && NoticeCoversRows(shop, t.bookings)
    ensures Inv(shop, Apply(shop, t, call, now), now)
  {
    hide Inv, StartDraft, GetActiveDraft, SelectDate, CreateHold, UpdateContact, GetHold, CancelDraft, Confirm,
         CancelBooking, ExpireHolds;
    match call
    case StartCall(c, v, s, b) => StartDraftKeeps(shop, t, c, v, s, b, before, now);
    case ActiveCall(c, v) => GetActiveDraftKeeps(shop, t, c, v, before, now);
    case DateCall(c, d, date) => SelectDateKeeps(shop, t, c, d, date, before, now);
    case HoldCall(c, d, i, key) => CreateHoldKeeps(shop, t, c, d, i, key, before, now);
    case ContactCall(c, d, name, phone, note) => UpdateContactKeeps(shop, t, c, d, name, phone, note, before, now);
    case CurrentHoldCall(c, d) => GetHoldKeeps(shop, t, c, d, before, now);
    case AbandonCall(c, v) => CancelDraftKeeps(shop, t, c, v, before, now);
    case ConfirmCall(c, d, key, reference) => ConfirmKeeps(shop, t, c, d, key, reference, before, now);
    case CancelCall(c, b) => CancelBookingKeeps(shop, t, c, b, before, now);
    case SweepCall(limit) => ExpireHoldsKeeps(shop, t, limit, before, now);
  }

  // --- Changing configurations ------------------------------------------------------------

  /** Service times and resource capacities stay as they are; the rest may be reconfigured. */
  ghost predicate SameSizes(a: Shop, b: Shop) {
    && |a.services| == |b.services| && |a.resources| == |b.resources|
    && (forall s :: 0 <= s < |a.services| ==>
          a.services[s].duration == b.services[s].duration && a.services[s].buffer == b.services[s].buffer)
    && (forall r :: 0 <= r < |a.resources| ==> a.resources[r].capacity == b.resources[r].capacity)
  }

  lemma BookingsAtSame(a: Shop, b: Shop, bookings: seq<BookingRow>, r: nat, x: int)
    requires SameSizes(a, b)
    ensures BookingsAt(a, bookings, r, x) == BookingsAt(b, bookings, r, x)
  {
    if bookings != [] {
      BookingsAtSame(a, b, bookings[..|bookings| - 1], r, x);
    }
  }

  lemma InvTransfers(a: Shop, b: Shop, t: Tables, now: int)
    requires SameSizes(a, b) && Inv(a, t, now)
    ensures Inv(b, t, now)
  {
    forall r, x | 0 <= r < |b.resources| ensures Usage(b, t, r, x, now) <= b.resources[r].capacity {
      BookingsAtSame(a, b, t.bookings, r, x);
      assert Usage(a, t, r, x, now) <= a.resources[r].capacity;
    }
    forall h | 0 <= h < |t.holds| ensures HoldSized(b, t.holds[h]) {
      assert HoldSized(a, t.holds[h]);
    }
    forall i | 0 <= i < |t.bookings| ensures BookingSized(b, t.bookings[i]) {
      assert BookingSized(a, t.bookings[i]);
    }
  }

  // --- Runs -------------------------------------------------------------------------------

  datatype Step = Step(shop: Shop, call: Call, now: int)

  /** Times do not run backwards, sizes stay put, and the notice always covers the buffers. */
  ghost predicate Legal(base: Shop, start: int, steps: seq<Step>) {
    && (forall i :: 0 <= i < |steps| ==> SameSizes(base, steps[i].shop) && NoticeCoversBuffers(steps[i].shop))
    && (forall i :: 0 <= i < |steps| ==> start <= steps[i].now)
    && (forall i, j :: 0 <= i < j < |steps| ==> steps[i].now <= steps[j].now)
  }

  function Run(t: Tables, steps: seq<Step>): Tables {
    if steps == [] then t
    else
      var last := steps[|steps| - 1];
      Apply(last.shop, Run(t, steps[..|steps| - 1]), last.call, last.now)
  }

  function Clock(start: int, steps: seq<Step>): int {
    if steps == [] then start else steps[|steps| - 1].now
  }

  lemma {:induction false} RunKeeps(base: Shop, t: Tables, start: int, steps: seq<Step>)
    requires Inv(base, t, start) && Legal(base, start, steps)
    ensures Inv(base, Run(t, steps), Clock(start, steps))
  {
    hide Inv, Apply;
    if steps != [] {
      var init, last := steps[..|steps| - 1], steps[|steps| - 1];
      RunKeeps(base, t, start, init);
      InvTransfers(base, last.shop, Run(t, init), Clock(start, init));
      AllRowsCovered(last.shop, Run(t, init).bookings);
      ApplyKeeps(last.shop, Run(t, init), last.call, Clock(start, init), last.now);
      SameSizesBack(base, last.shop);
      InvTransfers(last.shop, base, Run(t, steps), last.now);
    }
  }

  lemma SameSizesBack(a: Shop, b: Shop)
    requires SameSizes(a, b)
    ensures SameSizes(b, a)
  {
  }

  const EMPTY: Tables := Tables([], [], [], [], [])

  lemma EmptyIsSafe(shop: Shop, now: int)
    ensures Inv(shop, EMPTY, now)
  {
  }

  /** Safety over whole runs, from empty tables: the invariant holds at the end and ever after. */
  lemma EveryRunIsSafe(base: Shop, start: int, steps: seq<Step>, now: int)
    requires Legal(base, start, steps) && Clock(start, steps) <= now
    ensures Inv(base, Run(EMPTY, steps), now)
  {
    hide Inv;
    EmptyIsSafe(base, start);
    RunKeeps(base, EMPTY, start, steps);
    Later(base, Run(EMPTY, steps), Clock(start, steps), now);
  }

  /** No run ever overbooks: confirmed bookings with their cleanup, plus live holds, fit the capacity. */
  lemma NeverOverbooked(base: Shop, start: int, steps: seq<Step>, now: int, r: nat, x: int)
    requires Legal(base, start, steps) && Clock(start, steps) <= now && r < |base.resources|
    ensures BookingsAt(base, Run(EMPTY, steps).bookings, r, x) + HoldsAt(Run(EMPTY, steps).holds, r, x, now)
            <= base.resources[r].capacity
  {
    EveryRunIsSafe(base, start, steps, now);
    assert Usage(base, Run(EMPTY, steps), r, x, now) <= base.resources[r].capacity;
  }

  /** After any run an identity has at most one active draft and at most one active hold, linked both ways. */
  lemma OneDraftOneHold(base: Shop, start: int, steps: seq<Step>, g: nat, h: nat)
    requires Legal(base, start, steps)
    requires var t := Run(EMPTY, steps);
             g < |t.holds| && h < |t.holds| && t.holds[g].status == HoldActive && t.holds[h].status == HoldActive
             && t.holds[g].customer == t.holds[h].customer && t.holds[g].conversation == t.holds[h].conversation
    ensures g == h
    ensures var t := Run(EMPTY, steps);
            && t.holds[h].draft < |t.drafts| && t.drafts[t.holds[h].draft].hold == Some(h)
            && t.drafts[t.holds[h].draft].status == DraftActive
  {
    hide Run, Legal, Sized, WithinCapacity, HistoryKept, EventsKept;
    EveryRunIsSafe(base, start, steps, Clock(start, steps));
    var t := Run(EMPTY, steps);
    HoldFacts(t);
  }

  /** After any run an identity has at most one active draft, whether or not it holds a slot. */
  lemma OneActiveDraft(base: Shop, start: int, steps: seq<Step>, d: nat, e: nat)
    requires Legal(base, start, steps)
    requires var t := Run(EMPTY, steps);
             d < |t.drafts| && e < |t.drafts| && t.drafts[d].status == DraftActive && t.drafts[e].status == DraftActive
             && t.drafts[d].customer == t.drafts[e].customer && t.drafts[d].conversation == t.drafts[e].conversation
    ensures d == e
  {
    hide Run, Legal, Sized, WithinCapacity, HistoryKept, EventsKept;
    EveryRunIsSafe(base, start, steps, Clock(start, steps));
  }

  /** After any run every booking's hold is consumed, and no other booking has the same hold. */
  lemma BookingsKeepTheirHolds(base: Shop, start: int, steps: seq<Step>, b: nat)
    requires Legal(base, start, steps) && b < |Run(EMPTY, steps).bookings|
    ensures var t := Run(EMPTY, steps);
            && t.bookings[b].hold < |t.holds| && t.holds[t.bookings[b].hold].status == HoldConsumed
            && forall a :: 0 <= a < |t.bookings| && a != b ==> t.bookings[a].hold != t.bookings[b].hold
  {
    hide Run, Legal, Sized, WithinCapacity, HistoryKept, EventsKept;
    EveryRunIsSafe(base, start, steps, Clock(start, steps));
  }

  /** After any run the stored history of a booking is one the domain booking could have recorded. */
  lemma HistoryRefinesDomain(base: Shop, start: int, steps: seq<Step>, b: nat)
    requires Legal(base, start, steps) && b < |Run(EMPTY, steps).bookings|
    ensures var t := Run(EMPTY, steps);
            && Numbered(t.history, b)
            && Replay(HistoryOf(t.history, b)) == Some(t.bookings[b].status)
            && LastSequence(t.history, b) == |HistoryOf(t.history, b)|
  {
    EveryRunIsSafe(base, start, steps, Clock(start, steps));
    assert Recorded(Run(EMPTY, steps), b);
    SequencesInUse(Run(EMPTY, steps).history, b);
  }
}
