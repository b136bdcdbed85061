/**
  The outbox and its notification deliveries: projection of events to subscribers, leased claims,
  retries and terminal states. A row's identifier is its position.
*/
module Delivery {
  import opened Basics
  import opened Retry

  datatype Subscription = Subscription(recipient: int, types: set<string>, enabled: bool)

  datatype EventStatus = EventPending | EventProcessing | EventPublished | EventDead

  datatype EventRow = EventRow(
    kind: string,
    status: EventStatus,
    attempts: nat,
    availableAt: int,
    lockedAt: Option<int>,
    publishedAt: Option<int>,
    error: Option<string>)

  datatype DeliveryStatus = Pending | Processing | Sent | DeadLetter

  datatype DeliveryRow = DeliveryRow(
    event: nat,
    subscription: nat,
    kind: string,
    recipient: int,
    status: DeliveryStatus,
    attempts: nat,
    availableAt: int,
    lockedAt: Option<int>,
    sentAt: Option<int>,
    error: Option<string>)

  datatype Rows = Rows(subscriptions: seq<Subscription>, events: seq<EventRow>, deliveries: seq<DeliveryRow>)

  // --- Projection of one event ------------------------------------------------------------

  predicate Matches(s: Subscription, kind: string) { s.enabled && kind in s.types }

  predicate HasDelivery(deliveries: seq<DeliveryRow>, event: nat, subscription: nat) {
    exists i :: 0 <= i < |deliveries| && deliveries[i].event == event && deliveries[i].subscription == subscription
  }

  /** Insert a delivery for every matching subscription below `n`, unless the pair has one already. */
  function Project(rows: Rows, event: nat, n: nat, now: int): (r: seq<DeliveryRow>)
    requires event < |rows.events| && n <= |rows.subscriptions|
    ensures |rows.deliveries| <= |r| && r[..|rows.deliveries|] == rows.deliveries
  {
    if n == 0 then rows.deliveries
    else
      var before := Project(rows, event, n - 1, now);
      var s := rows.subscriptions[n - 1];
      if Matches(s, rows.events[event].kind) && !HasDelivery(before, event, n - 1) then
        before + [DeliveryRow(event, n - 1, rows.events[event].kind, s.recipient, Pending, 0, now, None, None, None)]
      else before
  }

  function DispatchOne(rows: Rows, event: nat, now: int, maxAttempts: int): Rows
    requires event < |rows.events|
  {
    var e := rows.events[event];
    if e.attempts + 1 > maxAttempts then
      rows.(events := rows.events[event := e.(status := EventDead, lockedAt := Some(now), attempts := e.attempts + 1,
                                              error := Some("outbox.attempts_exhausted"))])
    else
      rows.(events := rows.events[event := e.(status := EventPublished, lockedAt := None, attempts := e.attempts + 1,
                                              publishedAt := Some(now), error := None)],
            deliveries := Project(rows, event, |rows.subscriptions|, now))
  }

  predicate InRange(batch: seq<nat>, n: nat) { forall i :: 0 <= i < |batch| ==> batch[i] < n }

  function DispatchAll(rows: Rows, batch: seq<nat>, now: int, maxAttempts: int): (r: Rows)
    requires InRange(batch, |rows.events|)
    ensures |r.events| == |rows.events|
  {
    if batch == [] then rows
    else DispatchOne(DispatchAll(rows, batch[..|batch| - 1], now, maxAttempts), batch[|batch| - 1], now, maxAttempts)
  }

  // --- Selection of due rows --------------------------------------------------------------

  predicate EventDue(e: EventRow, now: int, lease: int) {
    (e.status == EventPending && e.availableAt <= now)
    || (e.status == EventProcessing && e.lockedAt.Some? && e.lockedAt.value <= now - lease)
  }

  predicate DeliveryDue(d: DeliveryRow, now: int, lease: int) {
    (d.status == Pending && d.availableAt <= now)
    || (d.status == Processing && d.lockedAt.Some? && d.lockedAt.value <= now - lease)
  }

  /** The row identifiers below `n` that satisfy `keep`, in order. */
  function Rowids(n: nat, keep: nat -> bool): (r: seq<nat>)
    ensures forall i: nat :: i in r <==> i < n && keep(i)
    ensures Distinct(r)
  {
    if n == 0 then []
    else
      var below := Rowids(n - 1, keep);
      assert forall i :: 0 <= i < |below| ==> below[i] in below;
      below + if keep(n - 1) then [n - 1] else []
  }

  function DueEvents(events: seq<EventRow>, now: int, lease: int): (r: seq<nat>)
    ensures forall i: nat :: i in r <==> i < |events| && EventDue(events[i], now, lease)
    ensures Distinct(r)
  {
    Rowids(|events|, (i: nat) => i < |events| && EventDue(events[i], now, lease))
  }

  function DueDeliveries(rows: seq<DeliveryRow>, now: int, lease: int): (r: seq<nat>)
    ensures forall i: nat :: i in r <==> i < |rows| && DeliveryDue(rows[i], now, lease)
    ensures Distinct(r)
  {
    Rowids(|rows|, (i: nat) => i < |rows| && DeliveryDue(rows[i], now, lease))
  }

  function EventKey(events: seq<EventRow>): nat -> int {
    (i: nat) => if i < |events| then events[i].availableAt else 0
  }

  function DeliveryKey(rows: seq<DeliveryRow>): nat -> int {
    (i: nat) => if i < |rows| then rows[i].availableAt else 0
  }

  function EventBatch(rows: Rows, now: int, limit: nat, lease: int): (r: seq<nat>)
    ensures forall e: nat :: e in r ==> e < |rows.events| && EventDue(rows.events[e], now, lease)
    ensures InRange(r, |rows.events|)
  {
    var r := Limited(SortBy(DueEvents(rows.events, now, lease), EventKey(rows.events)), limit);
    assert forall i :: 0 <= i < |r| ==> r[i] in r;
    r
  }

  function ClaimBatch(rows: Rows, now: int, limit: nat, lease: int): (r: seq<nat>)
    ensures forall d: nat :: d in r ==> d < |rows.deliveries| && DeliveryDue(rows.deliveries[d], now, lease)
    ensures InRange(r, |rows.deliveries|)
  {
    var r := Limited(SortBy(DueDeliveries(rows.deliveries, now, lease), DeliveryKey(rows.deliveries)), limit);
    assert forall i :: 0 <= i < |r| ==> r[i] in r;
    r
  }

  lemma ClaimBatchDistinct(rows: Rows, now: int, limit: nat, lease: int)
    ensures Distinct(ClaimBatch(rows, now, limit, lease))
  {
    SortDistinct(DueDeliveries(rows.deliveries, now, lease), DeliveryKey(rows.deliveries));
  }

  lemma EventBatchDistinct(rows: Rows, now: int, limit: nat, lease: int)
    ensures Distinct(EventBatch(rows, now, limit, lease))
  {
    SortDistinct(DueEvents(rows.events, now, lease), EventKey(rows.events));
  }

  // --- Store calls ------------------------------------------------------------------------

  function Dispatch(rows: Rows, now: int, limit: nat, lease: int, maxAttempts: int): Rows {
    DispatchAll(rows, EventBatch(rows, now, limit, lease), now, maxAttempts)
  }

  function Locked(d: DeliveryRow, now: int): DeliveryRow {
    d.(status := Processing, lockedAt := Some(now), attempts := d.attempts + 1)
  }

  function ClaimRows(deliveries: seq<DeliveryRow>, batch: seq<nat>, now: int): (r: seq<DeliveryRow>)
    ensures |r| == |deliveries|
  {
    seq(|deliveries|, i requires 0 <= i < |deliveries| =>
      if i in batch then Locked(deliveries[i], now) else deliveries[i])
  }

  datatype Settlement = Deliver(at: int) | RetryAt(at: int, code: string) | Bury(at: int, code: string)

  function Settled(d: DeliveryRow, s: Settlement): DeliveryRow {
    match s
    case Deliver(at) => d.(status := Sent, lockedAt := None, error := None, sentAt := Some(at))
    case RetryAt(at, code) => d.(status := Pending, lockedAt := None, error := Some(code), availableAt := at)
    case Bury(_, code) => d.(status := DeadLetter, lockedAt := None, error := Some(code))
  }

  /** `_finish`: only a row that is being processed is updated. */
  function Finish(deliveries: seq<DeliveryRow>, d: nat, s: Settlement): (r: seq<DeliveryRow>)
    ensures |r| == |deliveries|
  {
    if d < |deliveries| && deliveries[d].status == Processing
    then deliveries[d := Settled(deliveries[d], s)] else deliveries
  }

  /** How one sending attempt ended. */
  datatype Attempt = Succeeded | Refused(code: string, retryable: bool) | Crashed

  /** What the worker asks of the store after an attempt. */
  function Decide(p: RetryPolicy, claim: nat, attempts: int, outcome: Attempt, now: int): Settlement {
    match outcome
    case Succeeded => Deliver(now)
    case Refused(code, retryable) =>
      if retryable && attempts < p.maxAttempts then RetryAt(NextAttemptAt(p, claim, attempts, now), code)
      else Bury(now, code)
    case Crashed =>
      if attempts < p.maxAttempts then RetryAt(NextAttemptAt(p, claim, attempts, now), "delivery.unexpected")
      else Bury(now, "delivery.unexpected")
  }

  // --- Projection: one delivery per event and subscriber -----------------------------------

  /** At most one delivery row per event and subscription. */
  ghost predicate OnePerPair(deliveries: seq<DeliveryRow>) {
    forall i, j :: 0 <= i < j < |deliveries| ==>
      deliveries[i].event != deliveries[j].event || deliveries[i].subscription != deliveries[j].subscription
  }

  /** The pairs of the old rows, in place. */
  ghost predicate SamePairs(a: seq<DeliveryRow>, b: seq<DeliveryRow>) {
    |a| <= |b| && forall i :: 0 <= i < |a| ==> b[i].event == a[i].event && b[i].subscription == a[i].subscription
  }

  lemma {:induction false} ProjectFresh(rows: Rows, event: nat, n: nat, now: int)
    requires event < |rows.events| && n <= |rows.subscriptions| && OnePerPair(rows.deliveries)
    ensures var r := Project(rows, event, n, now);
            && OnePerPair(r)
            && forall i :: |rows.deliveries| <= i < |r| ==>
                 && r[i].event == event && r[i].subscription < n && r[i].status == Pending && r[i].attempts == 0
                 && r[i].lockedAt == None
                 && Matches(rows.subscriptions[r[i].subscription], rows.events[event].kind)
  {
    if n > 0 {
      ProjectFresh(rows, event, n - 1, now);
    }
  }

  lemma {:induction false} ProjectCovers(rows: Rows, event: nat, n: nat, s: nat, now: int)
    requires event < |rows.events| && n <= |rows.subscriptions|
    requires s < n && Matches(rows.subscriptions[s], rows.events[event].kind)
    ensures HasDelivery(Project(rows, event, n, now), event, s)
  {
    var before, r := Project(rows, event, n - 1, now), Project(rows, event, n, now);
    if s == n - 1 {
      if !HasDelivery(before, event, s) {
        assert r[|before|].event == event && r[|before|].subscription == s;
      }
    } else {
      ProjectCovers(rows, event, n - 1, s, now);
      StillHas(before, r, event, s);
    }
  }

  lemma ProjectMeaning(rows: Rows, event: nat, n: nat, now: int)
    requires event < |rows.events| && n <= |rows.subscriptions| && OnePerPair(rows.deliveries)
    ensures var r := Project(rows, event, n, now);
            && OnePerPair(r)
            && (forall s :: 0 <= s < n && Matches(rows.subscriptions[s], rows.events[event].kind) ==>
               HasDelivery(r, event, s))
            && (forall i :: |rows.deliveries| <= i < |r| ==>
                  r[i].event == event && r[i].subscription < n && r[i].status == Pending && r[i].attempts == 0
                  && r[i].lockedAt == None
                  && Matches(rows.subscriptions[r[i].subscription], rows.events[event].kind))
  {
    ProjectFresh(rows, event, n, now);
    hide Project, HasDelivery, OnePerPair;
    forall s | 0 <= s < n && Matches(rows.subscriptions[s], rows.events[event].kind)
      ensures HasDelivery(Project(rows, event, n, now), event, s)
    {
      ProjectCovers(rows, event, n, s, now);
    }
  }

  lemma StillHas(a: seq<DeliveryRow>, b: seq<DeliveryRow>, event: nat, s: nat)
    requires SamePairs(a, b) && HasDelivery(a, event, s)
    ensures HasDelivery(b, event, s)
  {
    var i :| 0 <= i < |a| && a[i].event == event && a[i].subscription == s;
    assert b[i].event == event && b[i].subscription == s;
  }

  /** What a dispatch leaves: pairs stay unique, old rows stay as they were, new rows are fresh. */
  ghost predicate Projected(a: seq<DeliveryRow>, b: seq<DeliveryRow>) {
    && OnePerPair(b) && |a| <= |b| && b[..|a|] == a
    && forall i :: |a| <= i < |b| ==> b[i].status == Pending && b[i].attempts == 0 && b[i].lockedAt == None
  }

  ghost predicate Covered(rows: Rows, event: nat)
    requires event < |rows.events|
  {
    forall s :: 0 <= s < |rows.subscriptions| && Matches(rows.subscriptions[s], rows.events[event].kind) ==>
      HasDelivery(rows.deliveries, event, s)
  }

  lemma DispatchOneMeaning(rows: Rows, event: nat, now: int, maxAttempts: int)
    requires event < |rows.events| && OnePerPair(rows.deliveries)
    ensures var r := DispatchOne(rows, event, now, maxAttempts);
            && Projected(rows.deliveries, r.deliveries)
            && r.subscriptions == rows.subscriptions
            && (rows.events[event].attempts < maxAttempts ==>
                  r.events[event].status == EventPublished && Covered(r, event))
  {
    ProjectMeaning(rows, event, |rows.subscriptions|, now);
  }

  /** The events of a batch that have been dispatched so far. */
  ghost predicate PublishedAndCovered(rows: Rows, batch: seq<nat>)
    requires InRange(batch, |rows.events|)
  {
    forall i :: 0 <= i < |batch| ==> rows.events[batch[i]].status == EventPublished && Covered(rows, batch[i])
  }

  lemma CoveredStays(a: Rows, b: Rows, e: nat)
    requires e < |a.events| && e < |b.events| && Covered(a, e) && SamePairs(a.deliveries, b.deliveries)
    requires a.subscriptions == b.subscriptions && a.events[e].kind == b.events[e].kind
    ensures Covered(b, e)
  {
    forall s | 0 <= s < |b.subscriptions| && Matches(b.subscriptions[s], b.events[e].kind)
      ensures HasDelivery(b.deliveries, e, s)
    {
      StillHas(a.deliveries, b.deliveries, e, s);
    }
  }

  /** Events outside the batch keep their rows; those inside keep their kind. */
  ghost predicate OthersKept(a: Rows, b: Rows, batch: seq<nat>) {
    && |a.events| == |b.events| && a.subscriptions == b.subscriptions
    && forall e :: 0 <= e < |a.events| ==>
       b.events[e].kind == a.events[e].kind && (e !in batch ==> b.events[e] == a.events[e])
  }

  /** Where a batch stands after some of its events. */
  ghost predicate Dispatched(a: Rows, b: Rows, batch: seq<nat>) {
    && InRange(batch, |a.events|)
    && OthersKept(a, b, batch)
    && Projected(a.deliveries, b.deliveries)
    && PublishedAndCovered(b, batch)
  }

  lemma DispatchNext(rows: Rows, mid: Rows, batch: seq<nat>, now: int, maxAttempts: int)
    requires batch != [] && Distinct(batch) && InRange(batch, |rows.events|)
    requires Dispatched(rows, mid, batch[..|batch| - 1])
    requires rows.events[batch[|batch| - 1]].attempts < maxAttempts
    ensures Dispatched(rows, DispatchOne(mid, batch[|batch| - 1], now, maxAttempts), batch)
  {
    var init, e := batch[..|batch| - 1], batch[|batch| - 1];
    var r := DispatchOne(mid, e, now, maxAttempts);
    assert mid.events[e] == rows.events[e];
    DispatchOneMeaning(mid, e, now, maxAttempts);
    hide Project, Covered, OnePerPair;
    assert OthersKept(rows, r, batch) by {
      forall x | 0 <= x < |rows.events| && x !in batch ensures r.events[x] == rows.events[x] {
        assert x !in init && x != e;
      }
    }
    assert Projected(rows.deliveries, r.deliveries) by {
      assert r.deliveries[..|rows.deliveries|] == mid.deliveries[..|rows.deliveries|];
    }
    forall i | 0 <= i < |batch| ensures r.events[batch[i]].status == EventPublished && Covered(r, batch[i]) {
      if i < |init| {
        assert init[i] == batch[i];
        CoveredStays(mid, r, batch[i]);
      }
    }
  }

  lemma {:induction false} DispatchAllMeaning(rows: Rows, batch: seq<nat>, now: int, maxAttempts: int)
    requires OnePerPair(rows.deliveries) && Distinct(batch) && InRange(batch, |rows.events|)
    requires forall i :: 0 <= i < |batch| ==> rows.events[batch[i]].attempts < maxAttempts
    ensures Dispatched(rows, DispatchAll(rows, batch, now, maxAttempts), batch)
  {
    if batch != [] {
      var init := batch[..|batch| - 1];
      DispatchAllMeaning(rows, init, now, maxAttempts);
      hide OnePerPair, Dispatched, DispatchOne;
      DispatchNext(rows, DispatchAll(rows, init, now, maxAttempts), batch, now, maxAttempts);
    }
  }

  /**
    A dispatch publishes every event it takes on the first attempt, with a delivery for every
    subscription enabled and matching at that moment, and never a second one for the same pair.
    With the policy's positive attempt limit it dead-letters nothing.
  */
  lemma DispatchCovers(rows: Rows, now: int, limit: nat, lease: int, maxAttempts: int)
    requires OnePerPair(rows.deliveries) && 1 <= maxAttempts
    requires forall e :: 0 <= e < |rows.events| && rows.events[e].status != EventPublished ==>
               rows.events[e].status == EventPending && rows.events[e].attempts == 0
    ensures var batch, r := EventBatch(rows, now, limit, lease), Dispatch(rows, now, limit, lease, maxAttempts);
            && Projected(rows.deliveries, r.deliveries)
            && PublishedAndCovered(r, batch)
            && (forall e :: 0 <= e < |r.events| && r.events[e].status != EventPublished ==>
                  r.events[e].status == EventPending && r.events[e].attempts == 0)
  {
    EventBatchDistinct(rows, now, limit, lease);
    DispatchAllMeaning(rows, EventBatch(rows, now, limit, lease), now, maxAttempts);
  }
}
