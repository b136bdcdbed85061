/**
  What reaches whom, and when: over any run every delivery carries its subscriber's address and its
  event's kind, dispatches and claims take the earliest due rows, and a failed attempt waits its delay.
*/
module DeliveryAddress {
  import opened Basics
  import opened Retry
  import opened Delivery
  import opened DeliveryStore
  import opened DeliveryWorkers

  // --- Addresses --------------------------------------------------------------------------

  /** A delivery is for its event and its subscription: the kind of the one, the recipient of the other. */
  ghost predicate AddressedRow(rows: Rows, d: DeliveryRow) {
    && d.event < |rows.events| && d.subscription < |rows.subscriptions|
    && d.recipient == rows.subscriptions[d.subscription].recipient && d.kind == rows.events[d.event].kind
  }

  ghost predicate Addressed(rows: Rows) {
    forall d :: 0 <= d < |rows.deliveries| ==> AddressedRow(rows, rows.deliveries[d])
  }

  /** Events keep their kind and subscriptions their recipient; both stay in place. */
  ghost predicate AddressesKept(a: Rows, b: Rows) {
    && |a.events| <= |b.events| && |a.subscriptions| <= |b.subscriptions|
    && (forall e :: 0 <= e < |a.events| ==> b.events[e].kind == a.events[e].kind)
    && (forall s :: 0 <= s < |a.subscriptions| ==> b.subscriptions[s].recipient == a.subscriptions[s].recipient)
  }

  /** Deliveries stay in place with their pair, kind and recipient. */
  ghost predicate SameAddress(a: seq<DeliveryRow>, b: seq<DeliveryRow>) {
    && |a| == |b|
    && forall d :: 0 <= d < |a| ==>
         && b[d].event == a[d].event && b[d].subscription == a[d].subscription
         && b[d].kind == a[d].kind && b[d].recipient == a[d].recipient
  }

  lemma StillAddressed(a: Rows, b: Rows)
    requires Addressed(a) && AddressesKept(a, b) && SameAddress(a.deliveries, b.deliveries)
    ensures Addressed(b)
  {
    forall d | 0 <= d < |b.deliveries| ensures AddressedRow(b, b.deliveries[d]) {
      assert AddressedRow(a, a.deliveries[d]);
    }
  }

  /** The subscription is switched on and lists this kind of event. */
  ghost predicate Wants(s: Subscription, kind: string) { s.enabled && kind in s.types }

  /** New deliveries of a projection are wanted, addressed, pending, and due from now on. */
  ghost predicate Stamped(rows: Rows, after: seq<DeliveryRow>, now: int) {
    && |rows.deliveries| <= |after| && after[..|rows.deliveries|] == rows.deliveries
    && forall d :: |rows.deliveries| <= d < |after| ==>
         AddressedRow(rows, after[d]) && Wants(rows.subscriptions[after[d].subscription], after[d].kind)
         && after[d].status == Pending && after[d].availableAt == now
         && after[d].attempts == 0 && after[d].sentAt == None && after[d].error == None
  }

  lemma {:induction false} ProjectStamps(rows: Rows, event: nat, n: nat, now: int)
    requires event < |rows.events| && n <= |rows.subscriptions|
    ensures Stamped(rows, Project(rows, event, n, now), now)
  {
    hide HasDelivery;
    if n > 0 {
      ProjectStamps(rows, event, n - 1, now);
    }
  }

  /** What a dispatch does to the events: those of the batch are marked, the others stay. */
  ghost predicate Marked(rows: Rows, events: seq<EventRow>, batch: seq<nat>, now: int) {
    && |events| == |rows.events|
    && forall e: nat :: e < |rows.events| ==>
         events[e] == if e in batch
                      then rows.events[e].(status := EventPublished, lockedAt := None, publishedAt := Some(now),
                                           attempts := rows.events[e].attempts + 1, error := None)
                      else rows.events[e]
  }

  lemma StampedOn(rows: Rows, mid: Rows, after: seq<DeliveryRow>, now: int)
    requires Stamped(rows, mid.deliveries, now) && Stamped(mid, after, now)
    requires mid.subscriptions == rows.subscriptions && |mid.events| == |rows.events|
    requires forall e :: 0 <= e < |rows.events| ==> mid.events[e].kind == rows.events[e].kind
    ensures Stamped(rows, after, now)
  {
    forall d | 0 <= d < |mid.deliveries| ensures after[d] == mid.deliveries[d] {
      assert after[d] == after[..|mid.deliveries|][d];
    }
    assert after[..|rows.deliveries|] == mid.deliveries[..|rows.deliveries|];
  }

  lemma MarkedOn(rows: Rows, mid: Rows, batch: seq<nat>, now: int, maxAttempts: int)
    requires batch != [] && Distinct(batch) && InRange(batch, |rows.events|)
    requires mid.subscriptions == rows.subscriptions && Marked(rows, mid.events, batch[..|batch| - 1], now)
    requires rows.events[batch[|batch| - 1]].attempts < maxAttempts
    ensures Marked(rows, DispatchOne(mid, batch[|batch| - 1], now, maxAttempts).events, batch, now)
  {
    hide Project;
    var init, last := batch[..|batch| - 1], batch[|batch| - 1];
    assert batch == init + [last];
    assert last !in init;
    forall e: nat ensures e in batch <==> e in init || e == last {}
  }

  lemma {:induction false} DispatchStamps(rows: Rows, batch: seq<nat>, now: int, maxAttempts: int)
    requires Distinct(batch) && InRange(batch, |rows.events|)
    requires forall i :: 0 <= i < |batch| ==> rows.events[batch[i]].attempts < maxAttempts
    ensures var r := DispatchAll(rows, batch, now, maxAttempts);
            && r.subscriptions == rows.subscriptions
            && Marked(rows, r.events, batch, now) && Stamped(rows, r.deliveries, now)
  {
    hide Project;
    if batch != [] {
      var init, last := batch[..|batch| - 1], batch[|batch| - 1];
      DispatchStamps(rows, init, now, maxAttempts);
      var mid := DispatchAll(rows, init, now, maxAttempts);
      assert last !in init;
      assert mid.events[last] == rows.events[last];
      MarkedOn(rows, mid, batch, now, maxAttempts);
      hide Stamped;
      ProjectStamps(mid, last, |mid.subscriptions|, now);
      StampedOn(rows, mid, Project(mid, last, |mid.subscriptions|, now), now);
    }
  }

  /**
    A dispatch marks exactly the events it takes as published now, on their first attempt. Its new
    deliveries are addressed, pending and due from now on, and afterwards each event taken has one for
    every subscription that wants it.
  */
  lemma DispatchMeaning(rows: Rows, now: int, limit: nat, lease: int, maxAttempts: int)
    requires EventsFresh(rows) && OnePerPair(rows.deliveries) && 1 <= maxAttempts
    ensures var batch, r := EventBatch(rows, now, limit, lease), Dispatch(rows, now, limit, lease, maxAttempts);
            && r.subscriptions == rows.subscriptions && OnePerPair(r.deliveries)
            && Marked(rows, r.events, batch, now) && Stamped(rows, r.deliveries, now)
            && forall e: nat, s: nat :: e in batch && s < |rows.subscriptions|
                                        && Wants(rows.subscriptions[s], rows.events[e].kind) ==>
                 HasDelivery(r.deliveries, e, s)
  {
    var batch, r := EventBatch(rows, now, limit, lease), Dispatch(rows, now, limit, lease, maxAttempts);
    EventBatchDistinct(rows, now, limit, lease);
    assert forall i :: 0 <= i < |batch| ==> batch[i] in batch;
    DispatchCovers(rows, now, limit, lease, maxAttempts);
    hide EventBatch, Distinct, OnePerPair, HasDelivery, DispatchAll;
    DispatchStamps(rows, batch, now, maxAttempts);
    forall e: nat, s: nat | e in batch && s < |rows.subscriptions| && Wants(rows.subscriptions[s], rows.events[e].kind)
      ensures HasDelivery(r.deliveries, e, s)
    {
      var i :| 0 <= i < |batch| && batch[i] == e;
      assert Covered(r, batch[i]);
    }
  }

  /** An event that has used up its attempts is buried with its error and reaches nobody; any other is published. */
  lemma OneEventMeaning(rows: Rows, event: nat, now: int, maxAttempts: int)
    requires event < |rows.events|
    ensures var e, r := rows.events[event], DispatchOne(rows, event, now, maxAttempts);
            && r.subscriptions == rows.subscriptions && |r.events| == |rows.events|
            && (forall k :: 0 <= k < |rows.events| && k != event ==> r.events[k] == rows.events[k])
            && r.events[event].attempts == e.attempts + 1
            && (e.attempts < maxAttempts ==>
                  r.events[event].status == EventPublished && Stamped(rows, r.deliveries, now))
            && (maxAttempts <= e.attempts ==>
                  && r.events[event].status == EventDead && r.events[event].error == Some("outbox.attempts_exhausted")
                  && r.deliveries == rows.deliveries)
  {
    ProjectStamps(rows, event, |rows.subscriptions|, now);
  }

  lemma DispatchAddresses(rows: Rows, now: int, limit: nat, lease: int, maxAttempts: int)
    requires Addressed(rows) && EventsFresh(rows) && OnePerPair(rows.deliveries) && 1 <= maxAttempts
    ensures Addressed(Dispatch(rows, now, limit, lease, maxAttempts))
    ensures AddressesKept(rows, Dispatch(rows, now, limit, lease, maxAttempts))
  {
    DispatchMeaning(rows, now, limit, lease, maxAttempts);
    hide Dispatch, EventBatch;
    var r := Dispatch(rows, now, limit, lease, maxAttempts);
    forall d | 0 <= d < |r.deliveries| ensures AddressedRow(r, r.deliveries[d]) {
      if d < |rows.deliveries| {
        assert r.deliveries[d] == r.deliveries[..|rows.deliveries|][d];
        assert AddressedRow(rows, rows.deliveries[d]);
      } else {
        assert AddressedRow(rows, r.deliveries[d]);
      }
    }
  }

  lemma StepAddresses(s: System, step: Step, p: RetryPolicy, lease: int)
    requires Addressed(s.rows) && Sound(s.rows)
    ensures Addressed(Next(s, step, p, lease).rows) && AddressesKept(s.rows, Next(s, step, p, lease).rows)
  {
    hide Dispatch, ClaimBatch, Decide, OnePerPair, EventsFresh, Addressed;
    var t := Next(s, step, p, lease);
    match step
    case RunDispatch(now, limit) => DispatchAddresses(s.rows, now, limit, lease, p.maxAttempts);
    case _ =>
      assert AddressesKept(s.rows, t.rows) && SameAddress(s.rows.deliveries, t.rows.deliveries);
      StillAddressed(s.rows, t.rows);
  }

  /**
    Over any run, whatever workers do: every delivery is addressed to its subscription's recipient, under
    its event's kind.
  */
  lemma {:induction false} EveryDeliveryIsAddressed(steps: seq<Step>, p: RetryPolicy, lease: int)
    ensures Addressed(Run(FRESH, steps, p, lease).rows)
  {
    if steps != [] {
      var init := steps[..|steps| - 1];
      EveryDeliveryIsAddressed(init, p, lease);
      EveryRunIsSound(init, p, lease);
      hide Sound, Addressed, Next;
      StepAddresses(Run(FRESH, init, p, lease), steps[|steps| - 1], p, lease);
    }
  }

  // --- Claims -----------------------------------------------------------------------------

  /** After any run every claim carries its subscription's recipient, its event's kind and the next attempt number. */
  lemma ClaimsAreAddressed(steps: seq<Step>, now: int, limit: nat, p: RetryPolicy, lease: int, d: nat)
    requires d in ClaimBatch(Run(FRESH, steps, p, lease).rows, now, limit, lease)
    ensures var rows := Run(FRESH, steps, p, lease).rows;
            var claim := ClaimOf(ClaimRows(rows.deliveries, ClaimBatch(rows, now, limit, lease), now), d);
            var row := rows.deliveries[d];
            && row.event < |rows.events| && row.subscription < |rows.subscriptions|
            && claim == DeliveryClaim(d, rows.events[row.event].kind, rows.subscriptions[row.subscription].recipient,
                                      row.attempts + 1)
  {
    EveryDeliveryIsAddressed(steps, p, lease);
    hide Run, ClaimBatch;
    assert AddressedRow(Run(FRESH, steps, p, lease).rows, Run(FRESH, steps, p, lease).rows.deliveries[d]);
  }

  /** The deliveries that wait and are due, or are in progress since before the lease began. */
  ghost function DueNow(rows: Rows, now: int, lease: int): set<nat> {
    set d: nat | d < |rows.deliveries| && var row := rows.deliveries[d];
      || (row.status == Pending && row.availableAt <= now)
      || (row.status == Processing && row.lockedAt.Some? && row.lockedAt.value + lease <= now)
  }

  /** The same for events. */
  ghost function EventsDueNow(rows: Rows, now: int, lease: int): set<nat> {
    set e: nat | e < |rows.events| && var row := rows.events[e];
      || (row.status == EventPending && row.availableAt <= now)
      || (row.status == EventProcessing && row.lockedAt.Some? && row.lockedAt.value + lease <= now)
  }

  lemma DueMeaning(rows: Rows, now: int, lease: int)
    ensures Members(DueDeliveries(rows.deliveries, now, lease)) == DueNow(rows, now, lease)
    ensures Members(DueEvents(rows.events, now, lease)) == EventsDueNow(rows, now, lease)
  {
    hide Rowids;
  }

  /** A claim takes due deliveries only, as many as there are up to the limit, those due earliest first. */
  lemma ClaimBatchMeaning(rows: Rows, now: int, limit: nat, lease: int)
    ensures var batch, due := ClaimBatch(rows, now, limit, lease), DueNow(rows, now, lease);
            && Distinct(batch) && |batch| == Min(limit, |due|)
            && (forall d: nat :: d in batch ==> d in due)
            && (forall d, e: nat :: d in batch && e in due && e !in batch ==>
                  d < |rows.deliveries| && e < |rows.deliveries|
                  && rows.deliveries[d].availableAt <= rows.deliveries[e].availableAt)
  {
    var listed, key := DueDeliveries(rows.deliveries, now, lease), DeliveryKey(rows.deliveries);
    var batch, due := ClaimBatch(rows, now, limit, lease), DueNow(rows, now, lease);
    TakesFirst(listed, key, limit);
    DistinctSize(listed);
    assert batch == Limited(SortBy(listed, key), limit);
    DueMeaning(rows, now, lease);
    hide SortBy, Limited, ClaimBatch, DueDeliveries, Distinct, Sorted, DeliveryDue;
    forall d, e: nat | d in batch && e in due && e !in batch
      ensures d < |rows.deliveries| && e < |rows.deliveries|
              && rows.deliveries[d].availableAt <= rows.deliveries[e].availableAt
    {
      assert key(d) <= key(e);
    }
  }

  /** A dispatch takes due events only, as many as there are up to the limit, those due earliest first. */
  lemma EventBatchMeaning(rows: Rows, now: int, limit: nat, lease: int)
    ensures var batch, due := EventBatch(rows, now, limit, lease), EventsDueNow(rows, now, lease);
            && Distinct(batch) && |batch| == Min(limit, |due|)
            && (forall d: nat :: d in batch ==> d in due)
            && (forall d, e: nat :: d in batch && e in due && e !in batch ==>
                  d < |rows.events| && e < |rows.events| && rows.events[d].availableAt <= rows.events[e].availableAt)
  {
    var listed, key := DueEvents(rows.events, now, lease), EventKey(rows.events);
    var batch, due := EventBatch(rows, now, limit, lease), EventsDueNow(rows, now, lease);
    TakesFirst(listed, key, limit);
    DistinctSize(listed);
    assert batch == Limited(SortBy(listed, key), limit);
    DueMeaning(rows, now, lease);
    hide SortBy, Limited, EventBatch, DueEvents, Distinct, Sorted, EventDue;
    forall d, e: nat | d in batch && e in due && e !in batch
      ensures d < |rows.events| && e < |rows.events| && rows.events[d].availableAt <= rows.events[e].availableAt
    {
      assert key(d) <= key(e);
    }
  }

  // --- Settlements ------------------------------------------------------------------------

  /** A failed attempt may be tried again: the error allows it and the policy has an attempt left. */
  predicate MayRetry(p: RetryPolicy, attempts: int, outcome: Attempt) {
    attempts < p.maxAttempts && (outcome.Crashed? || (outcome.Refused? && outcome.retryable))
  }

  /** What an attempt that ends at `now` makes of a delivery. */
  ghost predicate SettledBy(p: RetryPolicy, before: DeliveryRow, id: nat, attempts: int, outcome: Attempt, now: int,
                            after: DeliveryRow) {
    && after.event == before.event && after.subscription == before.subscription
    && after.kind == before.kind && after.recipient == before.recipient
    && after.attempts == before.attempts && after.lockedAt == None
    && (outcome.Succeeded? ==> after.status == Sent && after.sentAt == Some(now) && after.error == None)
    && (!outcome.Succeeded? ==> after.sentAt == before.sentAt)
    && (outcome.Refused? ==> after.error == Some(outcome.code))
    && (outcome.Crashed? ==> after.error == Some("delivery.unexpected"))
    && (MayRetry(p, attempts, outcome) ==>
          && after.status == Pending && now < after.availableAt <= now + p.maximumDelay
          && forall x: int, lease: int ::
               DeliveryDue(after, x, lease) <==> now + Delay(p, id, attempts) <= x)
    && (!outcome.Succeeded? && !MayRetry(p, attempts, outcome) ==>
          after.status == DeadLetter && after.availableAt == before.availableAt)
  }

  /**
    A success marks the delivery sent; a failure that may be tried again puts it back for exactly the
    policy's delay; any other failure buries it. The address never changes.
  */
  lemma SettleMeaning(p: RetryPolicy, before: DeliveryRow, id: nat, attempts: int, outcome: Attempt, now: int)
    ensures SettledBy(p, before, id, attempts, outcome, now, Settled(before, Decide(p, id, attempts, outcome, now)))
  {
    DelayBounded(p, id, attempts, now);
    hide Delay;
  }

  /** In a timely run, settling a flight does to its delivery what the attempt's outcome says, and to no other. */
  lemma SettlesItsOwn(steps: seq<Step>, f: nat, now: int, p: RetryPolicy, lease: int)
    requires Timely(FRESH, steps, p, lease)
    requires var s := Run(FRESH, steps, p, lease); f < |s.flights| && s.flights[f].stage.Tried?
    ensures var s := Run(FRESH, steps, p, lease);
            var t, flight := Next(s, Settle(now, f), p, lease), s.flights[f];
            && flight.row < |s.rows.deliveries| && |t.rows.deliveries| == |s.rows.deliveries|
            && SettledBy(p, s.rows.deliveries[flight.row], flight.row, flight.attempts, flight.stage.outcome,
                         flight.claimedAt, t.rows.deliveries[flight.row])
            && forall d :: 0 <= d < |s.rows.deliveries| && d != flight.row ==>
                 t.rows.deliveries[d] == s.rows.deliveries[d]
  {
    TimelyRunsAreLeased(steps, p, lease);
    var s := Run(FRESH, steps, p, lease);
    var flight := s.flights[f];
    assert FlightOk(s, f);
    SettleMeaning(p, s.rows.deliveries[flight.row], flight.row, flight.attempts, flight.stage.outcome,
                  flight.claimedAt);
    hide Run, Decide, Settled, SettledBy, Leased;
  }
}
