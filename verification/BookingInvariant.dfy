/**
  What every call of the booking store keeps: the links between drafts, holds and bookings, the
  capacity of every resource at every instant, the status history, and the event keys.
*/
module BookingInvariant {
  import opened Basics
  import opened BookingDomain
  import opened BookingTables
  import opened BookingSteps

  // --- Links ------------------------------------------------------------------------------

  /** A draft points only at a hold of its own. */
  ghost predicate DraftsPoint(t: Tables) {
    forall d :: 0 <= d < |t.drafts| && t.drafts[d].hold.Some? ==>
      t.drafts[d].hold.value < |t.holds| && t.holds[t.drafts[d].hold.value].draft == d
  }

  /** A hold belongs to a draft; while it is active, so is the draft, and the draft points back. */
  ghost predicate HoldPoints(t: Tables, h: nat)
    requires h < |t.holds|
  {
    var hold := t.holds[h];
    && hold.draft < |t.drafts|
    && var d := t.drafts[hold.draft];
    && hold.customer == d.customer && hold.conversation == d.conversation && hold.service == d.service
    && (hold.status == HoldActive ==> d.status == DraftActive && d.hold == Some(h))
  }

  ghost predicate HoldsPoint(t: Tables) {
    forall h :: 0 <= h < |t.holds| ==> HoldPoints(t, h)
  }

  /** Each identity has at most one active draft. */
  ghost predicate OneActive(drafts: seq<DraftRow>) {
    forall i, j :: 0 <= i < j < |drafts| && drafts[i].status == DraftActive && drafts[j].status == DraftActive ==>
      drafts[i].customer != drafts[j].customer || drafts[i].conversation != drafts[j].conversation
  }

  /** A draft that moves a booking moves one of its own customer and service. */
  ghost predicate ReschedulesOwn(t: Tables) {
    forall d :: 0 <= d < |t.drafts| && t.drafts[d].reschedules.Some? ==>
      var b := t.drafts[d].reschedules.value;
      b < |t.bookings| && t.bookings[b].customer == t.drafts[d].customer && t.bookings[b].service == t.drafts[d].service
  }

  /** A booking is confirmed or cancelled; its hold is consumed and no other booking's. */
  ghost predicate BookingsOwnHolds(t: Tables) {
    && (forall b :: 0 <= b < |t.bookings| ==>
          && t.bookings[b].status in {Confirmed, Cancelled}
          && t.bookings[b].hold < |t.holds|
          && t.holds[t.bookings[b].hold].status == HoldConsumed)
    && (forall a, b :: 0 <= a < b < |t.bookings| ==> t.bookings[a].hold != t.bookings[b].hold)
  }

  ghost predicate Linked(t: Tables) {
    DraftsPoint(t) && HoldsPoint(t) && OneActive(t.drafts) && ReschedulesOwn(t) && BookingsOwnHolds(t)
  }

  // --- Sizes and capacity -----------------------------------------------------------------

  ghost predicate HoldSized(shop: Shop, h: HoldRow) {
    && h.service < |shop.services| && h.resource < |shop.resources|
    && h.endAt == h.startAt + shop.services[h.service].duration + shop.services[h.service].buffer
  }

  ghost predicate BookingSized(shop: Shop, b: BookingRow) {
    && b.service < |shop.services| && b.resource < |shop.resources|
    && b.endAt == b.startAt + shop.services[b.service].duration
  }

  ghost predicate Sized(shop: Shop, t: Tables) {
    && (forall d :: 0 <= d < |t.drafts| ==> t.drafts[d].service < |shop.services|)
    && (forall h :: 0 <= h < |t.holds| ==> HoldSized(shop, t.holds[h]))
    && (forall b :: 0 <= b < |t.bookings| ==> BookingSized(shop, t.bookings[b]))
  }

  ghost function BookingUse(shop: Shop, b: BookingRow, r: nat, x: int): nat {
    if b.resource == r && Occupies(b) && b.startAt <= x < b.endAt + BufferOf(shop, b.service) then 1 else 0
  }

  ghost function HoldUse(h: HoldRow, r: nat, x: int, now: int): nat {
    if h.resource == r && LiveHold(h, now) && h.startAt <= x < h.endAt then 1 else 0
  }

  /** Bookings that occupy resource `r` at instant `x`, cleanup included. */
  ghost function BookingsAt(shop: Shop, bookings: seq<BookingRow>, r: nat, x: int): nat {
    if bookings == [] then 0
    else BookingsAt(shop, bookings[..|bookings| - 1], r, x) + BookingUse(shop, bookings[|bookings| - 1], r, x)
  }

  /** Holds live at `now` that claim resource `r` at instant `x`. */
  ghost function HoldsAt(holds: seq<HoldRow>, r: nat, x: int, now: int): nat {
    if holds == [] then 0
    else HoldsAt(holds[..|holds| - 1], r, x, now) + HoldUse(holds[|holds| - 1], r, x, now)
  }

  ghost function Usage(shop: Shop, t: Tables, r: nat, x: int, now: int): nat {
    BookingsAt(shop, t.bookings, r, x) + HoldsAt(t.holds, r, x, now)
  }

  /** No resource is ever overbooked: at every instant its use is within its capacity. */
  ghost predicate WithinCapacity(shop: Shop, t: Tables, now: int) {
    forall r, x :: 0 <= r < |shop.resources| ==> Usage(shop, t, r, x, now) <= shop.resources[r].capacity
  }

  // --- History and events -----------------------------------------------------------------

  ghost function HistoryOf(history: seq<HistoryRow>, b: nat): seq<Change> {
    if history == [] then []
    else
      HistoryOf(history[..|history| - 1], b)
      + if history[|history| - 1].booking == b then [history[|history| - 1].change] else []
  }

  /** The rows of booking `b` are numbered 1, 2, 3, ... in the order they were written. */
  ghost predicate Numbered(history: seq<HistoryRow>, b: nat) {
    history == [] ||
    (Numbered(history[..|history| - 1], b) &&
     var last := history[|history| - 1];
     last.booking == b ==> last.sequence == |HistoryOf(history, b)|)
  }

  /** The stored history of `b` is one the domain booking could have recorded, ending in its status. */
  ghost predicate Recorded(t: Tables, b: nat)
    requires b < |t.bookings|
  {
    && Numbered(t.history, b)
    && Replay(HistoryOf(t.history, b)) == Some(t.bookings[b].status)
  }

  ghost predicate HistoryKept(t: Tables) {
    && (forall i :: 0 <= i < |t.history| ==> t.history[i].booking < |t.bookings|)
    && (forall b :: 0 <= b < |t.bookings| ==> Recorded(t, b))
  }

  /** An event key speaks of something that has happened. */
  ghost predicate Happened(t: Tables, key: EventKey) {
    match key
    case ConfirmedKey(b) => b < |t.bookings|
    case RescheduledKey(b, sequence) => b < |t.bookings| && sequence <= |HistoryOf(t.history, b)|
    case CancelledKey(b) => b < |t.bookings| && t.bookings[b].status == Cancelled
  }

  ghost predicate EventsKept(t: Tables) {
    && (forall i :: 0 <= i < |t.outbox| ==> Happened(t, t.outbox[i].key))
    && (forall i, j :: 0 <= i < j < |t.outbox| ==> t.outbox[i].key != t.outbox[j].key)
  }

  ghost predicate Inv(shop: Shop, t: Tables, now: int) {
    Linked(t) && Sized(shop, t) && WithinCapacity(shop, t, now) && HistoryKept(t) && EventsKept(t)
  }

  // --- Calls that only close holds and edit drafts ----------------------------------------

  ghost predicate Closes(h: HoldRow, h': HoldRow) {
    h' == h || (h.status == HoldActive && (h' == h.(status := HoldReleased) || h' == h.(status := HoldExpired)))
  }

  /** Bookings and their records are untouched, and a hold changes at most from active to closed. */
  ghost predicate Quiet(t: Tables, t': Tables) {
    && t'.bookings == t.bookings && t'.history == t.history && t'.outbox == t.outbox
    && |t'.holds| == |t.holds|
    && forall h :: 0 <= h < |t.holds| ==> Closes(t.holds[h], t'.holds[h])
  }

  lemma HoldsAtShrinks(holds: seq<HoldRow>, holds': seq<HoldRow>, r: nat, x: int, now: int, now': int)
    requires |holds| == |holds'| && now <= now'
    requires forall h :: 0 <= h < |holds| ==> Closes(holds[h], holds'[h])
    ensures HoldsAt(holds', r, x, now') <= HoldsAt(holds, r, x, now)
  {
    if holds != [] {
      HoldsAtShrinks(holds[..|holds| - 1], holds'[..|holds| - 1], r, x, now, now');
    }
  }

  lemma QuietKeeps(shop: Shop, t: Tables, t': Tables, now: int, now': int)
    requires Inv(shop, t, now) && Quiet(t, t') && now <= now'
    ensures BookingsOwnHolds(t') && WithinCapacity(shop, t', now') && HistoryKept(t') && EventsKept(t')
    ensures forall h :: 0 <= h < |t'.holds| ==> HoldSized(shop, t'.holds[h])
    ensures forall b :: 0 <= b < |t'.bookings| ==> BookingSized(shop, t'.bookings[b])
  {
    forall r, x | 0 <= r < |shop.resources| ensures Usage(shop, t', r, x, now') <= shop.resources[r].capacity {
      HoldsAtShrinks(t.holds, t'.holds, r, x, now, now');
      assert Usage(shop, t, r, x, now) <= shop.resources[r].capacity;
    }
    forall b | 0 <= b < |t'.bookings| ensures Recorded(t', b) {
      assert Recorded(t, b);
    }
    forall i | 0 <= i < |t'.outbox| ensures Happened(t', t'.outbox[i].key) {
      assert Happened(t, t.outbox[i].key);
    }
  }

  ghost predicate SameCore(d: DraftRow, d': DraftRow) {
    d'.customer == d.customer && d'.conversation == d.conversation && d'.service == d.service
    && d'.reschedules == d.reschedules
  }

  /** Editing drafts in place without waking one up keeps everything but the links of holds. */
  lemma EditKeeps(shop: Shop, t: Tables, t': Tables, now: int, now': int)
    requires Inv(shop, t, now) && Quiet(t, t') && now <= now'
    requires |t'.drafts| == |t.drafts|
    requires forall d :: 0 <= d < |t.drafts| ==>
               && SameCore(t.drafts[d], t'.drafts[d])
               && (t'.drafts[d].hold == t.drafts[d].hold || t'.drafts[d].hold == None)
               && (t'.drafts[d].status == DraftActive ==> t.drafts[d].status == DraftActive)
    requires forall h :: 0 <= h < |t'.holds| && t'.holds[h].status == HoldActive ==>
               t.holds[h].draft < |t'.drafts| &&
               t'.drafts[t.holds[h].draft].status == DraftActive && t'.drafts[t.holds[h].draft].hold == Some(h)
    ensures Inv(shop, t', now')
  {
    QuietKeeps(shop, t, t', now, now');
    assert HoldsPoint(t') by {
      forall h | 0 <= h < |t'.holds| ensures HoldPoints(t', h) {
        assert HoldPoints(t, h) && Closes(t.holds[h], t'.holds[h]);
      }
    }
    assert DraftsPoint(t') by {
      forall h | 0 <= h < |t'.holds| ensures t'.holds[h].draft == t.holds[h].draft {
        assert Closes(t.holds[h], t'.holds[h]);
      }
    }
    assert ReschedulesOwn(t') by {
      forall d | 0 <= d < |t'.drafts| ensures SameCore(t.drafts[d], t'.drafts[d]) {}
    }
    assert OneActive(t'.drafts) by {
      forall d | 0 <= d < |t'.drafts| ensures SameCore(t.drafts[d], t'.drafts[d]) {}
    }
  }

  lemma SelectDateKeeps(shop: Shop, t: Tables, customer: int, draft: nat, date: int, before: int, now: int)
    requires Inv(shop, t, before) && before <= now
    ensures Inv(shop, SelectDate(shop, t, customer, draft, date, now).tables, now)
  {
    hide AvailabilityContext, Linked, Sized, WithinCapacity, HistoryKept, EventsKept;
    HoldFacts(t);
    EditKeeps(shop, t, SelectDate(shop, t, customer, draft, date, now).tables, before, now);
  }

  lemma HoldFacts(t: Tables)
    requires Linked(t)
    ensures forall h :: 0 <= h < |t.holds| ==>
              && t.holds[h].draft < |t.drafts|
              && (t.holds[h].status == HoldActive ==>
                    t.drafts[t.holds[h].draft].status == DraftActive && t.drafts[t.holds[h].draft].hold == Some(h))
              && t.holds[h].customer == t.drafts[t.holds[h].draft].customer
              && t.holds[h].conversation == t.drafts[t.holds[h].draft].conversation
              && t.holds[h].service == t.drafts[t.holds[h].draft].service
  {
    forall h | 0 <= h < |t.holds|
      ensures
        && t.holds[h].draft < |t.drafts|
        && (t.holds[h].status == HoldActive ==>
              t.drafts[t.holds[h].draft].status == DraftActive && t.drafts[t.holds[h].draft].hold == Some(h))
        && t.holds[h].customer == t.drafts[t.holds[h].draft].customer
        && t.holds[h].conversation == t.drafts[t.holds[h].draft].conversation
        && t.holds[h].service == t.drafts[t.holds[h].draft].service
    {
      assert HoldPoints(t, h);
    }
  }

  lemma UpdateContactKeeps(shop: Shop, t: Tables, customer: int, draft: nat,
                           name: Option<string>, phone: Option<string>, note: Option<string>, before: int, now: int)
    requires Inv(shop, t, before) && before <= now
    ensures Inv(shop, UpdateContact(shop, t, customer, draft, name, phone, note, now).tables, now)
  {
    hide Linked, Sized, WithinCapacity, HistoryKept, EventsKept;
    HoldFacts(t);
    EditKeeps(shop, t, UpdateContact(shop, t, customer, draft, name, phone, note, now).tables, before, now);
  }

  lemma GetActiveDraftKeeps(shop: Shop, t: Tables, customer: int, conversation: int, before: int, now: int)
    requires Inv(shop, t, before) && before <= now
    ensures Inv(shop, GetActiveDraft(t, customer, conversation, now).tables, now)
  {
    hide Linked, Sized, WithinCapacity, HistoryKept, EventsKept;
    HoldFacts(t);
    EditKeeps(shop, t, GetActiveDraft(t, customer, conversation, now).tables, before, now);
  }

  lemma GetHoldKeeps(shop: Shop, t: Tables, customer: int, draft: nat, before: int, now: int)
    requires Inv(shop, t, before) && before <= now
    ensures Inv(shop, GetHold(t, customer, draft, now).tables, now)
  {
    hide Linked, Sized, WithinCapacity, HistoryKept, EventsKept;
    HoldFacts(t);
    EditKeeps(shop, t, GetHold(t, customer, draft, now).tables, before, now);
  }

  lemma CancelDraftKeeps(shop: Shop, t: Tables, customer: int, conversation: int, before: int, now: int)
    requires Inv(shop, t, before) && before <= now
    ensures Inv(shop, CancelDraft(t, customer, conversation).tables, now)
  {
    hide Linked, Sized, WithinCapacity, HistoryKept, EventsKept;
    HoldFacts(t);
    EditKeeps(shop, t, CancelDraft(t, customer, conversation).tables, before, now);
  }

  lemma ExpireHoldsKeeps(shop: Shop, t: Tables, limit: int, before: int, now: int)
    requires Inv(shop, t, before) && before <= now
    ensures Inv(shop, ExpireHolds(shop, t, limit, now).tables, now)
  {
    hide SortBy;
    HoldFacts(t);
    var t' := ExpireHolds(shop, t, limit, now).tables;
    forall h | 0 <= h < |t.holds| ensures Closes(t.holds[h], t'.holds[h]) {}
    EditKeeps(shop, t, t', before, now);
  }

  lemma LetGoKeeps(shop: Shop, t: Tables, draft: nat, before: int, now: int)
    requires Inv(shop, t, before) && before <= now && draft < |t.drafts|
    ensures Inv(shop, LetGo(t, draft), now)
  {
    HoldFacts(t);
    EditKeeps(shop, t, LetGo(t, draft), before, now);
  }

  lemma StartDraftKeeps(shop: Shop, t: Tables, customer: int, conversation: int, service: nat,
                        reschedules: Option<nat>, before: int, now: int)
    requires Inv(shop, t, before) && before <= now
    ensures Inv(shop, StartDraft(shop, t, customer, conversation, service, reschedules, now).tables, now)
  {
    hide LinkedResources;
    HoldFacts(t);
    var mid := t.(drafts := CancelDrafts(t.drafts, customer, conversation),
                  holds := ReleaseIdentity(t.holds, customer, conversation));
    EditKeeps(shop, t, mid, before, now);
    if StartDraft(shop, t, customer, conversation, service, reschedules, now).reply.Ok? {
      AppendDraftKeeps(shop, mid, StartDraft(shop, t, customer, conversation, service, reschedules, now).tables, now);
    } else {
      EditKeeps(shop, t, t, before, now);
    }
  }

  lemma AppendDraftKeeps(shop: Shop, t: Tables, t': Tables, now: int)
    requires Inv(shop, t, now) && |t'.drafts| == |t.drafts| + 1
    requires t' == t.(drafts := t'.drafts) && t'.drafts[..|t.drafts|] == t.drafts
    requires var d := t'.drafts[|t.drafts|];
             && d.hold == None && d.service < |shop.services|
             && (d.reschedules.Some? ==> Reschedulable(t, d.customer, d.service, d.reschedules.value))
             && (forall i :: 0 <= i < |t.drafts| ==> !OfIdentity(t.drafts[i], d.customer, d.conversation))
    ensures Inv(shop, t', now)
  {
    HoldFacts(t);
    QuietKeeps(shop, t, t', now, now);
    assert forall i :: 0 <= i < |t.drafts| ==> t'.drafts[i] == t'.drafts[..|t.drafts|][i];
    assert forall i :: 0 <= i < |t.drafts| ==> t'.drafts[i] == t.drafts[i];
    forall h | 0 <= h < |t'.holds| ensures HoldPoints(t', h) {
      assert HoldPoints(t, h);
    }
  }
}
