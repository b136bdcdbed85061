/**
  What each call of the booking store does to the tables. A call is one atomic step; a call that
  raises an error leaves the tables as they were.
*/
module BookingSteps {
  import opened Basics
  import opened Schedule
  import opened Availability
  import opened BookingDomain
  import opened BookingTables
  import opened Contact
  import opened Text

  datatype Outcome<T> = Outcome(tables: Tables, reply: Result<T, BookingError>)

  // --- Row selection and bulk updates -----------------------------------------------------

  predicate OfIdentity(d: DraftRow, customer: int, conversation: int) {
    d.customer == customer && d.conversation == conversation && d.status == DraftActive
  }

  function CancelDrafts(drafts: seq<DraftRow>, customer: int, conversation: int): (r: seq<DraftRow>)
    ensures |r| == |drafts|
  {
    seq(|drafts|, i requires 0 <= i < |drafts| =>
      if OfIdentity(drafts[i], customer, conversation) then drafts[i].(status := DraftCancelled) else drafts[i])
  }

  function ReleaseIdentity(holds: seq<HoldRow>, customer: int, conversation: int): (r: seq<HoldRow>)
    ensures |r| == |holds|
  {
    seq(|holds|, i requires 0 <= i < |holds| =>
      if holds[i].customer == customer && holds[i].conversation == conversation && holds[i].status == HoldActive
      then holds[i].(status := HoldReleased) else holds[i])
  }

  function ReleaseOfDrafts(holds: seq<HoldRow>, drafts: seq<DraftRow>, customer: int,
                           conversation: int): (r: seq<HoldRow>)
    ensures |r| == |holds|
  {
    seq(|holds|, i requires 0 <= i < |holds| =>
      if holds[i].status == HoldActive && holds[i].draft < |drafts|
         && OfIdentity(drafts[holds[i].draft], customer, conversation)
      then holds[i].(status := HoldReleased) else holds[i])
  }

  /** Set the status of hold `h`, if it is still active. */
  function CloseHold(holds: seq<HoldRow>, h: nat, status: HoldStatus): (r: seq<HoldRow>)
    ensures |r| == |holds|
  {
    if h < |holds| && holds[h].status == HoldActive then holds[h := holds[h].(status := status)] else holds
  }

  function LatestActive(drafts: seq<DraftRow>, customer: int, conversation: int): (r: Option<nat>)
    ensures r.Some? ==> r.value < |drafts| && OfIdentity(drafts[r.value], customer, conversation)
    ensures r.None? ==> forall i :: 0 <= i < |drafts| ==> !OfIdentity(drafts[i], customer, conversation)
  {
    FindLast(drafts, (d: DraftRow) => OfIdentity(d, customer, conversation))
  }

  function HoldByKey(holds: seq<HoldRow>, key: string): (r: Option<nat>)
    ensures r.Some? ==> r.value < |holds| && holds[r.value].key == key
    ensures r.None? ==> forall i :: 0 <= i < |holds| ==> holds[i].key != key
  {
    FindLast(holds, (h: HoldRow) => h.key == key)
  }

  function HoldOfDraft(holds: seq<HoldRow>, customer: int, draft: nat): (r: Option<nat>)
    ensures r.Some? ==> r.value < |holds| && holds[r.value].customer == customer
                        && holds[r.value].draft == draft && holds[r.value].status == HoldActive
  {
    FindLast(holds, (h: HoldRow) => h.customer == customer && h.draft == draft && h.status == HoldActive)
  }

  function BookingByKey(bookings: seq<BookingRow>, key: string): (r: Option<nat>)
    ensures r.Some? ==> r.value < |bookings| && bookings[r.value].key == key
    ensures r.None? ==> forall i :: 0 <= i < |bookings| ==> bookings[i].key != key
  {
    FindLast(bookings, (b: BookingRow) => b.key == key)
  }

  function BookingByHold(bookings: seq<BookingRow>, customer: int, hold: nat): (r: Option<nat>)
    ensures r.Some? ==> r.value < |bookings| && bookings[r.value].customer == customer && bookings[r.value].hold == hold
    ensures r.None? ==> forall i :: 0 <= i < |bookings| ==> bookings[i].customer != customer || bookings[i].hold != hold
  {
    FindLast(bookings, (b: BookingRow) => b.customer == customer && b.hold == hold)
  }

  function FindSlot(slots: seq<Slot>, startAt: int, resource: int): (r: Option<Slot>)
    ensures r.Some? ==> r.value in slots && r.value.startAt == startAt && r.value.resourceId == resource
    ensures r.None? ==> forall s :: s in slots ==> s.startAt != startAt || s.resourceId != resource
  {
    if slots == [] then None
    else if slots[0].startAt == startAt && slots[0].resourceId == resource then Some(slots[0])
    else
      assert forall s :: s in slots ==> s == slots[0] || s in slots[1..];
      FindSlot(slots[1..], startAt, resource)
  }

  /** `_owned_draft`: the customer's own draft, still active and not past its expiry. */
  function OwnedDraft(t: Tables, customer: int, draft: nat, now: int): Result<DraftRow, BookingError> {
    if !(draft < |t.drafts|) || t.drafts[draft].customer != customer || t.drafts[draft].status != DraftActive
    then Err(NotFound)
    else if t.drafts[draft].expiresAt <= now then Err(TooLate)
    else Ok(t.drafts[draft])
  }

  predicate Filled(text: Option<string>) { text.Some? && text.value != "" }

  // --- Drafts -----------------------------------------------------------------------------

  predicate Reschedulable(t: Tables, customer: int, service: nat, booking: nat) {
    && booking < |t.bookings|
    && t.bookings[booking].customer == customer
    && t.bookings[booking].status == Confirmed
    && t.bookings[booking].service == service
  }

  function StartDraft(shop: Shop, t: Tables, customer: int, conversation: int, service: nat,
                      reschedules: Option<nat>, now: int): Outcome<nat>
  {
    var ctx := AvailabilityContext(shop, t, service, now);
    if ctx.None? || !ctx.value.active || !ctx.value.bookable || ctx.value.resources == [] then
      Outcome(t, Err(PolicyViolated))
    else if reschedules.Some? && !Reschedulable(t, customer, service, reschedules.value) then
      Outcome(t, Err(NotFound))
    else if conversation !in shop.owners || shop.owners[conversation] != customer then
      Outcome(t, Err(NotFound))
    else
      var row := DraftRow(customer, conversation, service, None, None, None, None, None, reschedules,
                          DraftActive, now + shop.policy.draftDuration);
      Outcome(t.(drafts := CancelDrafts(t.drafts, customer, conversation) + [row],
                 holds := ReleaseIdentity(t.holds, customer, conversation)),
              Ok(|t.drafts|))
  }

  function GetActiveDraft(t: Tables, customer: int, conversation: int, now: int): Outcome<Option<nat>> {
    match LatestActive(t.drafts, customer, conversation)
    case None => Outcome(t, Ok(None))
    case Some(d) =>
      var row := t.drafts[d];
      if row.expiresAt <= now then
        Outcome(t.(drafts := t.drafts[d := row.(status := DraftExpired)],
                   holds := if row.hold.Some? then CloseHold(t.holds, row.hold.value, HoldExpired) else t.holds),
                Ok(None))
      else Outcome(t, Ok(Some(d)))
  }

  function LocalDate(shop: Shop, at: int): int { (at + shop.offset) / DAY }

  function SelectDate(shop: Shop, t: Tables, customer: int, draft: nat, date: int, now: int): Outcome<()> {
    match OwnedDraft(t, customer, draft, now)
    case Err(e) => Outcome(t, Err(e))
    case Ok(row) =>
      if AvailabilityContext(shop, t, row.service, now).None? then Outcome(t, Err(NotFound))
      else if date < LocalDate(shop, now) || date > LocalDate(shop, now + shop.policy.horizonDays * DAY) then
        Outcome(t, Err(PolicyViolated))
      else Outcome(t.(drafts := t.drafts[draft := row.(date := Some(date))]), Ok(()))
  }

  predicate NameAccepted(policy: Policy, name: Option<string>) {
    name.Some? ==> NormalName(name.value) != "" && |NormalName(name.value)| <= policy.nameLimit
  }

  predicate PhoneAccepted(policy: Policy, phone: Option<string>) {
    phone.Some? ==> |phone.value| <= policy.phoneLimit && StoredPhone(phone.value).Some?
  }

  predicate NoteAccepted(policy: Policy, note: Option<string>) {
    note.Some? ==> |Strip(note.value)| <= policy.noteLimit
  }

  /** Fields that are not given keep what is stored; an empty note is no note. */
  function UpdateContact(shop: Shop, t: Tables, customer: int, draft: nat,
                         name: Option<string>, phone: Option<string>, note: Option<string>, now: int): Outcome<()>
  {
    match OwnedDraft(t, customer, draft, now)
    case Err(e) => Outcome(t, Err(e))
    case Ok(row) =>
      if !NameAccepted(shop.policy, name) || !PhoneAccepted(shop.policy, phone) || !NoteAccepted(shop.policy, note)
      then Outcome(t, Err(PolicyViolated))
      else
        var row' := row.(
          name := if name.Some? then Some(NormalName(name.value)) else row.name,
          phone := if phone.Some? then StoredPhone(phone.value) else row.phone,
          note := if note.None? then row.note else if Strip(note.value) == "" then None else Some(Strip(note.value)));
        Outcome(t.(drafts := t.drafts[draft := row']), Ok(()))
  }

  function CancelDraft(t: Tables, customer: int, conversation: int): Outcome<bool> {
    if LatestActive(t.drafts, customer, conversation).None? then Outcome(t, Ok(false))
    else Outcome(t.(drafts := CancelDrafts(t.drafts, customer, conversation),
                    holds := ReleaseOfDrafts(t.holds, t.drafts, customer, conversation)),
                 Ok(true))
  }

  // --- Holds ------------------------------------------------------------------------------

  predicate ValidKey(key: string) { 0 < |key| <= 255 }

  /** The tables once the draft has let go of the hold it had. */
  function LetGo(t: Tables, draft: nat): Tables
    requires draft < |t.drafts|
  {
    var row := t.drafts[draft];
    if row.hold.Some? then
      t.(holds := CloseHold(t.holds, row.hold.value, HoldReleased), drafts := t.drafts[draft := row.(hold := None)])
    else t
  }

  function PlaceHold(shop: Shop, t: Tables, draft: nat, slot: Slot, key: string, now: int): Tables
    requires draft < |t.drafts| && t.drafts[draft].service < |shop.services|
  {
    var row := t.drafts[draft];
    var hold := HoldRow(row.customer, row.conversation, draft, row.service, slot.resourceId,
                        slot.startAt, slot.endAt + shop.services[row.service].buffer,
                        now + shop.policy.holdDuration, key, HoldActive);
    t.(holds := t.holds + [hold], drafts := t.drafts[draft := row.(hold := Some(|t.holds|))])
  }

  function CreateHold(shop: Shop, t: Tables, customer: int, draft: nat, index: int, key: string,
                      now: int): Outcome<nat> {
    if !ValidKey(key) || index < 0 then Outcome(t, Err(PolicyViolated))
    else if HoldByKey(t.holds, key).Some? then
      var h := HoldByKey(t.holds, key).value;
      Outcome(t, if t.holds[h].customer != customer then Err(NotFound) else Ok(h))
    else
      match OwnedDraft(t, customer, draft, now)
      case Err(e) => Outcome(t, Err(e))
      case Ok(row) =>
        if row.date.None? then Outcome(t, Err(PolicyViolated))
        else NewHold(shop, t, draft, index, key, now)
  }

  function NewHold(shop: Shop, t: Tables, draft: nat, index: nat, key: string, now: int): Outcome<nat>
    requires draft < |t.drafts| && t.drafts[draft].date.Some?
  {
    var row := t.drafts[draft];
    var ctx := AvailabilityContext(shop, t, row.service, now);
    if ctx.None? then Outcome(t, Err(NotFound))
    else
      match AvailableSlots(ctx.value, row.date.value, now)
      case Err(_) => Outcome(t, Err(BadSchedule))
      case Ok(slots) =>
        if index >= |slots| then Outcome(t, Err(Conflict))
        else
          var selected := slots[index];
          var freed := LetGo(t, draft);
          var refreshed := AvailabilityContext(shop, freed, row.service, now);
          match AvailableSlots(refreshed.value, row.date.value, now)
          case Err(_) => Outcome(t, Err(BadSchedule))
          case Ok(again) =>
            match FindSlot(again, selected.startAt, selected.resourceId)
            case None => Outcome(t, Err(Conflict))
            case Some(slot) =>
              Outcome(PlaceHold(shop, freed, draft, slot, key, now), Ok(|t.holds|))
  }

  function GetHold(t: Tables, customer: int, draft: nat, now: int): Outcome<Option<nat>> {
    match HoldOfDraft(t.holds, customer, draft)
    case None => Outcome(t, Ok(None))
    case Some(h) =>
      if t.holds[h].expiresAt <= now then
        Outcome(t.(holds := CloseHold(t.holds, h, HoldExpired)), Ok(None))
      else Outcome(t, Ok(Some(h)))
  }

  function Due(now: int): HoldRow -> bool { (h: HoldRow) => h.status == HoldActive && h.expiresAt <= now }

  /** The positions of the due holds, in table order. */
  function DueHolds(holds: seq<HoldRow>, now: int): (r: seq<nat>)
    ensures forall i: nat :: i in r <==> i < |holds| && Due(now)(holds[i])
  {
    if holds == [] then []
    else
      var rest := DueHolds(holds[..|holds| - 1], now);
      rest + if Due(now)(holds[|holds| - 1]) then [|holds| - 1] else []
  }

  /** A due hold with its expiry, for ordering. */
  function ExpiryOf(holds: seq<HoldRow>): nat -> int {
    (i: nat) => if i < |holds| then holds[i].expiresAt else 0
  }

  /** The due holds one sweep takes: the earliest `limit` of them. */
  function Batch(holds: seq<HoldRow>, now: int, limit: nat): (r: seq<nat>)
    ensures |r| <= limit
    ensures forall i: nat :: i in r ==> i < |holds| && Due(now)(holds[i])
  {
    Limited(SortBy(DueHolds(holds, now), ExpiryOf(holds)), limit)
  }

  function ExpireAll(holds: seq<HoldRow>, batch: seq<nat>): (r: seq<HoldRow>)
    ensures |r| == |holds|
  {
    seq(|holds|, i requires 0 <= i < |holds| =>
      if i in batch then holds[i].(status := HoldExpired) else holds[i])
  }

  function ExpireHolds(shop: Shop, t: Tables, limit: int, now: int): Outcome<nat> {
    if !(1 <= limit <= 1000) then Outcome(t, Err(BadArgument))
    else
      var batch := if shop.enabled then Batch(t.holds, now, limit) else [];
      Outcome(t.(holds := ExpireAll(t.holds, batch)), Ok(|batch|))
  }

  // --- Confirmation and cancellation ------------------------------------------------------

  /** The greatest sequence number recorded for a booking, or 0. */
  function LastSequence(history: seq<HistoryRow>, booking: nat): nat {
    if history == [] then 0
    else
      var row := history[|history| - 1];
      var before := LastSequence(history[..|history| - 1], booking);
      if row.booking == booking && before < row.sequence then row.sequence else before
  }

  /** The exclusion constraint: active bookings of one resource never overlap in `[start, end)`. */
  predicate Excluded(bookings: seq<BookingRow>, except: Option<nat>, resource: nat, startAt: int, endAt: int) {
    exists i :: 0 <= i < |bookings| && Some(i) != except
                && bookings[i].resource == resource
                && bookings[i].status in {Held, Confirmed, ReschedulePending}
                && Overlaps(bookings[i].startAt, bookings[i].endAt, startAt, endAt)
  }

  predicate HoldTaken(bookings: seq<BookingRow>, except: Option<nat>, hold: nat) {
    exists i :: 0 <= i < |bookings| && Some(i) != except && bookings[i].hold == hold
  }

  predicate ReferenceTaken(bookings: seq<BookingRow>, reference: int) {
    exists i :: 0 <= i < |bookings| && bookings[i].reference == reference
  }

  predicate KeyPublished(outbox: seq<Event>, key: EventKey) {
    exists i :: 0 <= i < |outbox| && outbox[i].key == key
  }

  predicate SequenceTaken(history: seq<HistoryRow>, booking: nat, sequence: nat) {
    exists i :: 0 <= i < |history| && history[i].booking == booking && history[i].sequence == sequence
  }

  function Confirm(shop: Shop, t: Tables, customer: int, draft: nat, key: string, reference: int,
                   now: int): Outcome<nat> {
    if !ValidKey(key) then Outcome(t, Err(PolicyViolated))
    else if BookingByKey(t.bookings, key).Some? then
      var b := BookingByKey(t.bookings, key).value;
      Outcome(t, if t.bookings[b].customer != customer then Err(NotFound) else Ok(b))
    else if AlreadyConfirmed(t, customer, draft).Some? then
      Outcome(t, Ok(AlreadyConfirmed(t, customer, draft).value))
    else
      match OwnedDraft(t, customer, draft, now)
      case Err(e) => Outcome(t, Err(e))
      case Ok(row) =>
        if row.hold.None? || !Filled(row.name) || !Filled(row.phone) then Outcome(t, Err(PolicyViolated))
        else ConfirmHold(shop, t, draft, row.hold.value, key, reference, now)
  }

  /** The booking an earlier confirmation of the same draft produced. */
  function AlreadyConfirmed(t: Tables, customer: int, draft: nat): (r: Option<nat>)
    ensures r.Some? ==> r.value < |t.bookings|
  {
    if draft < |t.drafts| && t.drafts[draft].customer == customer && t.drafts[draft].status == DraftConfirmed
       && t.drafts[draft].hold.Some?
    then BookingByHold(t.bookings, customer, t.drafts[draft].hold.value)
    else None
  }

  function ConfirmHold(shop: Shop, t: Tables, draft: nat, h: nat, key: string, reference: int, now: int): Outcome<nat>
    requires draft < |t.drafts|
  {
    var row := t.drafts[draft];
    if !(h < |t.holds|) || t.holds[h].customer != row.customer || !LiveHold(t.holds[h], now) then
      Outcome(t, Err(TooLate))
    else
      var service := t.holds[h].service;
      if !(service < |shop.services|) || !shop.services[service].active || !shop.services[service].bookable then
        Outcome(t, Err(PolicyViolated))
      else if row.reschedules.Some? then Reschedule(shop, t, draft, h, row.reschedules.value, now)
      else Book(shop, t, draft, h, key, reference, now)
  }

  function Consume(t: Tables, draft: nat, h: nat): Tables
    requires draft < |t.drafts| && h < |t.holds|
  {
    t.(holds := t.holds[h := t.holds[h].(status := HoldConsumed)],
       drafts := t.drafts[draft := t.drafts[draft].(status := DraftConfirmed)])
  }

  function Booked(shop: Shop, t: Tables, draft: nat, h: nat, key: string, reference: int): BookingRow
    requires draft < |t.drafts| && h < |t.holds| && t.holds[h].service < |shop.services|
  {
    var row, hold := t.drafts[draft], t.holds[h];
    BookingRow(row.customer, row.conversation, hold.service, hold.resource, h, reference,
               hold.startAt, hold.startAt + shop.services[hold.service].duration,
               Confirmed, key, row.name, row.phone, row.note)
  }

  function Book(shop: Shop, t: Tables, draft: nat, h: nat, key: string, reference: int, now: int): Outcome<nat>
    requires draft < |t.drafts| && h < |t.holds| && t.holds[h].service < |shop.services|
  {
    var id := |t.bookings|;
    var booking := Booked(shop, t, draft, h, key, reference);
    if Excluded(t.bookings, None, booking.resource, booking.startAt, booking.endAt)
       || HoldTaken(t.bookings, None, h) || ReferenceTaken(t.bookings, reference)
       || KeyPublished(t.outbox, ConfirmedKey(id))
       || SequenceTaken(t.history, id, 1) || SequenceTaken(t.history, id, 2)
    then Outcome(t, Err(Conflict))
    else
      var t' := Consume(t, draft, h);
      Outcome(t'.(bookings := t.bookings + [booking],
                  history := t.history + [HistoryRow(id, 1, Change(Draft, Held)),
                                          HistoryRow(id, 2, Change(Held, Confirmed))],
                  outbox := t.outbox + [Event(ConfirmedKey(id), reference, booking.startAt, now)]),
              Ok(id))
  }

  function Moved(shop: Shop, t: Tables, h: nat, b: nat): BookingRow
    requires h < |t.holds| && b < |t.bookings| && t.holds[h].service < |shop.services|
  {
    var hold := t.holds[h];
    t.bookings[b].(resource := hold.resource, startAt := hold.startAt,
                   endAt := hold.startAt + shop.services[hold.service].duration, hold := h)
  }

  function Reschedule(shop: Shop, t: Tables, draft: nat, h: nat, b: nat, now: int): Outcome<nat>
    requires draft < |t.drafts| && h < |t.holds| && t.holds[h].service < |shop.services|
  {
    if !(b < |t.bookings|) || t.bookings[b].customer != t.drafts[draft].customer
      || t.bookings[b].status != Confirmed then
      Outcome(t, Err(NotFound))
    else if t.bookings[b].startAt - now < shop.policy.changeCutoff then Outcome(t, Err(PolicyViolated))
    else
      var sequence := LastSequence(t.history, b) + 1;
      var booking := Moved(shop, t, h, b);
      if Excluded(t.bookings, Some(b), booking.resource, booking.startAt, booking.endAt)
         || HoldTaken(t.bookings, Some(b), h)
         || KeyPublished(t.outbox, RescheduledKey(b, sequence))
         || SequenceTaken(t.history, b, sequence) || SequenceTaken(t.history, b, sequence + 1)
      then Outcome(t, Err(Conflict))
      else
        var t' := Consume(t, draft, h);
        Outcome(t'.(bookings := t.bookings[b := booking],
                    history := t.history + [HistoryRow(b, sequence, Change(Confirmed, ReschedulePending)),
                                            HistoryRow(b, sequence + 1, Change(ReschedulePending, Confirmed))],
                    outbox := t.outbox + [Event(RescheduledKey(b, sequence), booking.reference, booking.startAt, now)]),
                Ok(b))
  }

  function CancelBooking(shop: Shop, t: Tables, customer: int, b: nat, now: int): Outcome<nat> {
    if !(b < |t.bookings|) || t.bookings[b].customer != customer then Outcome(t, Err(NotFound))
    else if t.bookings[b].status == Cancelled then Outcome(t, Ok(b))
    else if t.bookings[b].status != Confirmed then Outcome(t, Err(PolicyViolated))
    else if t.bookings[b].startAt - now < shop.policy.changeCutoff then Outcome(t, Err(PolicyViolated))
    else
      var sequence := LastSequence(t.history, b) + 1;
      if KeyPublished(t.outbox, CancelledKey(b)) || SequenceTaken(t.history, b, sequence) then Outcome(t, Err(Conflict))
      else
        Outcome(t.(bookings := t.bookings[b := t.bookings[b].(status := Cancelled)],
                   history := t.history + [HistoryRow(b, sequence, Change(Confirmed, Cancelled))],
                   outbox := t.outbox + [Event(CancelledKey(b), t.bookings[b].reference, t.bookings[b].startAt, now)]),
                Ok(b))
  }
}
