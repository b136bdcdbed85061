/** The background store as a mutable object, and the worker call that sends what it claims. */
module DeliveryStore {
  import opened Basics
  import opened Retry
  import opened Delivery

  datatype DeliveryClaim = DeliveryClaim(id: nat, kind: string, recipient: int, attempts: nat)

  function ClaimOf(deliveries: seq<DeliveryRow>, id: nat): DeliveryClaim
    requires id < |deliveries|
  {
    var d := deliveries[id];
    DeliveryClaim(id, d.kind, d.recipient, d.attempts)
  }

  /** An event whose next attempt would be one too many. */
  predicate Exhausted(rows: Rows, event: nat, maxAttempts: int) {
    event < |rows.events| && rows.events[event].attempts >= maxAttempts
  }

  lemma {:induction false} FilterAppend<T(!new)>(s: seq<T>, x: T, keep: T -> bool)
    ensures Filter(s + [x], keep) == Filter(s, keep) + if keep(x) then [x] else []
  {
    if s == [] {
      assert s + [x] == [x];
    } else {
      assert (s + [x])[1..] == s[1..] + [x];
      FilterAppend(s[1..], x, keep);
    }
  }

  lemma {:induction false} DispatchLeavesOthers(rows: Rows, batch: seq<nat>, e: nat, now: int, maxAttempts: int)
    requires InRange(batch, |rows.events|) && e < |rows.events| && e !in batch
    ensures DispatchAll(rows, batch, now, maxAttempts).events[e] == rows.events[e]
    ensures DispatchAll(rows, batch, now, maxAttempts).subscriptions == rows.subscriptions
  {
    if batch != [] {
      DispatchLeavesOthers(rows, batch[..|batch| - 1], e, now, maxAttempts);
    }
  }

  /** How many events of a batch the dispatch gives up on. */
  function BurntOut(rows: Rows, batch: seq<nat>, maxAttempts: int): nat {
    |Filter(batch, e => Exhausted(rows, e, maxAttempts))|
  }

  lemma DispatchPass(start: Rows, batch: seq<nat>, k: nat, now: int, maxAttempts: int)
    requires InRange(batch, |start.events|) && Distinct(batch) && k < |batch|
    ensures var mid := DispatchAll(start, batch[..k], now, maxAttempts);
            && DispatchAll(start, batch[..k + 1], now, maxAttempts) == DispatchOne(mid, batch[k], now, maxAttempts)
            && BurntOut(start, batch[..k + 1], maxAttempts)
               == BurntOut(start, batch[..k], maxAttempts) + if Exhausted(mid, batch[k], maxAttempts) then 1 else 0
  {
    assert batch[..k + 1] == batch[..k] + [batch[k]];
    assert batch[..k + 1][..k] == batch[..k];
    DispatchLeavesOthers(start, batch[..k], batch[k], now, maxAttempts);
    FilterAppend(batch[..k], batch[k], e => Exhausted(start, e, maxAttempts));
  }

  /** The projection of an event reads only its kind, the subscriptions and the deliveries. */
  lemma ProjectReads(a: Rows, b: Rows, event: nat, n: nat, now: int)
    requires event < |a.events| && event < |b.events| && a.events[event].kind == b.events[event].kind
    requires n <= |a.subscriptions| && a.subscriptions == b.subscriptions && a.deliveries == b.deliveries
    ensures Project(a, event, n, now) == Project(b, event, n, now)
  {
  }

  /** Locking one more row of a batch. */
  lemma ClaimPass(start: seq<DeliveryRow>, batch: seq<nat>, k: nat, now: int)
    requires k < |batch| && InRange(batch, |start|) && Distinct(batch)
    ensures ClaimRows(start, batch[..k], now)[batch[k]] == start[batch[k]]
    ensures ClaimRows(start, batch[..k + 1], now) ==
            ClaimRows(start, batch[..k], now)[batch[k] := Locked(start[batch[k]], now)]
  {
    hide Locked;
    assert batch[..k + 1] == batch[..k] + [batch[k]];
    assert batch[k] !in batch[..k];
  }

  class BackgroundStore {
    var subscriptions: seq<Subscription>
    var events: seq<EventRow>
    var deliveries: seq<DeliveryRow>

    constructor ()
      ensures Contents() == Rows([], [], [])
    {
      subscriptions, events, deliveries := [], [], [];
    }

    function Contents(): Rows
      reads this
    {
      Rows(subscriptions, events, deliveries)
    }

    method DispatchOutbox(now: int, limit: nat, lease: int, maxAttempts: int)
      returns (taken: nat, projected: nat, dead: nat)
      modifies this`events, this`deliveries
      ensures Contents() == Dispatch(old(Contents()), now, limit, lease, maxAttempts)
      ensures taken == |EventBatch(old(Contents()), now, limit, lease)|
      ensures projected == |deliveries| - |old(deliveries)|
      ensures dead == BurntOut(old(Contents()), EventBatch(old(Contents()), now, limit, lease), maxAttempts)
    {
      ghost var start := Contents();
      projected, dead := 0, 0;
      var batch := EventBatch(Contents(), now, limit, lease);
      EventBatchDistinct(start, now, limit, lease);
      assert DispatchAll(start, [], now, maxAttempts) == start && BurntOut(start, [], maxAttempts) == 0;
      assert batch[..0] == [];
      hide EventBatch, DispatchOne, DispatchAll, BurntOut, Exhausted;
      for k := 0 to |batch|
        invariant Contents() == DispatchAll(start, batch[..k], now, maxAttempts)
        invariant projected == |deliveries| - |start.deliveries|
        invariant dead == BurntOut(start, batch[..k], maxAttempts)
      {
        DispatchPass(start, batch, k, now, maxAttempts);
        var added, exhausted := DispatchEvent(batch[k], now, maxAttempts);
        projected := projected + added;
        if exhausted {
          dead := dead + 1;
        }
      }
      assert batch[..|batch|] == batch;
      taken := |batch|;
    }

    /** One pass of the dispatch loop. */
    method DispatchEvent(id: nat, now: int, maxAttempts: int) returns (projected: nat, exhausted: bool)
      requires id < |events|
      modifies this`events, this`deliveries
      ensures Contents() == DispatchOne(old(Contents()), id, now, maxAttempts)
      ensures projected == |deliveries| - |old(deliveries)|
      ensures exhausted <==> Exhausted(old(Contents()), id, maxAttempts)
    {
      events := events[id := events[id].(status := EventProcessing, lockedAt := Some(now),
                                         attempts := events[id].attempts + 1)];
      exhausted := events[id].attempts > maxAttempts;
      projected := 0;
      if exhausted {
        events := events[id := events[id].(status := EventDead, error := Some("outbox.attempts_exhausted"))];
      } else {
        projected := ProjectEvent(id, now);
        ProjectReads(old(Contents()), Contents().(deliveries := old(deliveries)), id, |subscriptions|, now);
        events := events[id := events[id].(status := EventPublished, publishedAt := Some(now),
                                           lockedAt := None, error := None)];
      }
    }

    /** The inner loop of the dispatch: one insert per matching subscription, none on conflict. */
    method ProjectEvent(id: nat, now: int) returns (projected: nat)
      requires id < |events|
      modifies this`deliveries
      ensures deliveries == Project(old(Contents()), id, |subscriptions|, now)
      ensures projected == |deliveries| - |old(deliveries)|
    {
      var event := events[id];
      ghost var start := Contents();
      projected := 0;
      for n := 0 to |subscriptions|
        invariant deliveries == Project(start, id, n, now)
        invariant projected == |deliveries| - |start.deliveries|
      {
        var s := subscriptions[n];
        if s.enabled && event.kind in s.types {
          if !HasDelivery(deliveries, id, n) {
            deliveries := deliveries + [DeliveryRow(id, n, event.kind, s.recipient, Pending, 0, now, None, None, None)];
            projected := projected + 1;
          }
        }
      }
    }

    method ClaimNotifications(now: int, limit: nat, lease: int) returns (claims: seq<DeliveryClaim>)
      modifies this`deliveries
      ensures var batch := ClaimBatch(old(Contents()), now, limit, lease);
              && deliveries == ClaimRows(old(deliveries), batch, now)
              && |claims| == |batch|
              && forall k :: 0 <= k < |batch| ==> claims[k] == ClaimOf(deliveries, batch[k])
    {
      ghost var start := deliveries;
      var batch := ClaimBatch(Contents(), now, limit, lease);
      ClaimBatchDistinct(Contents(), now, limit, lease);
      assert batch[..0] == [] && ClaimRows(start, [], now) == start;
      hide ClaimBatch, ClaimRows, Locked;
      claims := [];
      for k := 0 to |batch|
        invariant deliveries == ClaimRows(start, batch[..k], now)
        invariant |claims| == k
        invariant forall i :: 0 <= i < k ==> claims[i] == ClaimOf(deliveries, batch[i])
      {
        var id := batch[k];
        ClaimPass(start, batch, k, now);
        LockRow(id, now);
        claims := claims + [DeliveryClaim(id, deliveries[id].kind, deliveries[id].recipient, deliveries[id].attempts)];
      }
      assert batch[..|batch|] == batch;
    }

    method LockRow(id: nat, now: int)
      requires id < |deliveries|
      modifies this`deliveries
      ensures deliveries == old(deliveries)[id := Locked(old(deliveries)[id], now)]
    {
      deliveries := deliveries[id := deliveries[id].(status := Processing)];
      deliveries := deliveries[id := deliveries[id].(lockedAt := Some(now))];
      deliveries := deliveries[id := deliveries[id].(attempts := deliveries[id].attempts + 1)];
    }

    method MarkDelivered(claim: DeliveryClaim, at: int)
      modifies this`deliveries
      ensures deliveries == Finish(old(deliveries), claim.id, Deliver(at))
    {
      if claim.id < |deliveries| && deliveries[claim.id].status == Processing {
        deliveries := deliveries[claim.id :=
          deliveries[claim.id].(status := Sent, lockedAt := None, error := None, sentAt := Some(at))];
      }
    }

    method RetryDelivery(claim: DeliveryClaim, at: int, code: string)
      modifies this`deliveries
      ensures deliveries == Finish(old(deliveries), claim.id, RetryAt(at, code))
    {
      if claim.id < |deliveries| && deliveries[claim.id].status == Processing {
        deliveries := deliveries[claim.id :=
          deliveries[claim.id].(status := Pending, lockedAt := None, error := Some(code), availableAt := at)];
      }
    }

    method MoveToDeadLetter(claim: DeliveryClaim, at: int, code: string)
      modifies this`deliveries
      ensures deliveries == Finish(old(deliveries), claim.id, Bury(at, code))
    {
      if claim.id < |deliveries| && deliveries[claim.id].status == Processing {
        deliveries := deliveries[claim.id :=
          deliveries[claim.id].(status := DeadLetter, lockedAt := None, error := Some(code))];
      }
    }
  }

  datatype DeliveryOutcome = DeliveryOutcome(claimed: nat, succeeded: nat, retried: nat, dead: nat)

  /** The row a claimed delivery becomes when its attempt ends as `outcome` without interference. */
  function Attempted(p: RetryPolicy, d: DeliveryRow, id: nat, outcome: Attempt, now: int): DeliveryRow {
    Settled(Locked(d, now), Decide(p, id, d.attempts + 1, outcome, now))
  }

  /** The rows after the first part of a batch has been settled; the others wait locked. */
  ghost predicate SettledSoFar(p: RetryPolicy, start: seq<DeliveryRow>, now: seq<DeliveryRow>, batch: seq<nat>, k: nat,
                               outcomes: nat -> Attempt, at: int)
    requires k <= |batch| && InRange(batch, |start|)
  {
    && |now| == |start|
    && (forall i :: 0 <= i < k ==> now[batch[i]] == Attempted(p, start[batch[i]], batch[i], outcomes(batch[i]), at))
    && (forall i :: k <= i < |batch| ==> now[batch[i]] == Locked(start[batch[i]], at))
    && (forall d :: 0 <= d < |start| && d !in batch ==> now[d] == start[d])
  }

  /** How many attempts of a batch succeed. */
  function Successes(batch: seq<nat>, outcomes: nat -> Attempt): nat {
    |Filter(batch, d => outcomes(d).Succeeded?)|
  }

  lemma SettlePass(p: RetryPolicy, start: seq<DeliveryRow>, rows: seq<DeliveryRow>, batch: seq<nat>, k: nat,
                   outcomes: nat -> Attempt, at: int)
    requires k < |batch| && InRange(batch, |start|) && Distinct(batch)
    requires SettledSoFar(p, start, rows, batch, k, outcomes, at)
    ensures SettledSoFar(p, start,
                         Finish(rows, batch[k],
                                Decide(p, batch[k], start[batch[k]].attempts + 1, outcomes(batch[k]), at)),
                         batch, k + 1, outcomes, at)
    ensures Successes(batch[..k + 1], outcomes) ==
            Successes(batch[..k], outcomes) + if outcomes(batch[k]).Succeeded? then 1 else 0
  {
    hide Settled, Decide;
    assert batch[..k + 1] == batch[..k] + [batch[k]];
    FilterAppend(batch[..k], batch[k], d => outcomes(d).Succeeded?);
    assert rows[batch[k]] == Locked(start[batch[k]], at);
    assert batch[k] in batch;
  }

  /** A worker call leaves none of its own claims open: a row still in progress was not in the batch. */
  lemma AllSettled(p: RetryPolicy, start: seq<DeliveryRow>, rows: seq<DeliveryRow>, batch: seq<nat>,
                   outcomes: nat -> Attempt, at: int, d: nat)
    requires InRange(batch, |start|) && SettledSoFar(p, start, rows, batch, |batch|, outcomes, at)
    requires d < |rows| && rows[d].status == Processing
    ensures rows[d] == start[d]
  {
    assert d !in batch;
  }

  /** The claims of a batch carry its rows and their attempt numbers. */
  ghost predicate ClaimsMatch(start: seq<DeliveryRow>, batch: seq<nat>, claims: seq<DeliveryClaim>) {
    && InRange(batch, |start|) && |claims| == |batch|
    && forall k :: 0 <= k < |batch| ==> claims[k].id == batch[k] && claims[k].attempts == start[batch[k]].attempts + 1
  }

  lemma ClaimStarts(p: RetryPolicy, rows: Rows, claims: seq<DeliveryClaim>, after: seq<DeliveryRow>,
                    outcomes: nat -> Attempt, now: int, limit: nat, lease: int)
    requires var batch := ClaimBatch(rows, now, limit, lease);
             && after == ClaimRows(rows.deliveries, batch, now)
             && |claims| == |batch|
             && forall k :: 0 <= k < |batch| ==> claims[k] == ClaimOf(after, batch[k])
    ensures var batch := ClaimBatch(rows, now, limit, lease);
            && Distinct(batch)
            && SettledSoFar(p, rows.deliveries, after, batch, 0, outcomes, now)
            && ClaimsMatch(rows.deliveries, batch, claims)
  {
    hide ClaimBatch;
    ClaimBatchDistinct(rows, now, limit, lease);
    var batch := ClaimBatch(rows, now, limit, lease);
    assert forall k :: 0 <= k < |batch| ==> batch[k] in batch;
  }

  /** The arms of the worker's exception handler around one sending attempt. */
  method AttemptOne(store: BackgroundStore, p: RetryPolicy, claim: DeliveryClaim, outcome: Attempt, now: int)
    returns (verdict: Settlement)
    modifies store`deliveries
    ensures verdict == Decide(p, claim.id, claim.attempts, outcome, now)
    ensures store.deliveries == Finish(old(store.deliveries), claim.id, verdict)
    ensures verdict.Deliver? <==> outcome.Succeeded?
  {
    match outcome
    case Refused(code, retryable) =>
      if retryable && claim.attempts < p.maxAttempts {
        var at := NextAttemptAt(p, claim.id, claim.attempts, now);
        store.RetryDelivery(claim, at, code);
        verdict := RetryAt(at, code);
      } else {
        store.MoveToDeadLetter(claim, now, code);
        verdict := Bury(now, code);
      }
    case Crashed =>
      if claim.attempts < p.maxAttempts {
        var at := NextAttemptAt(p, claim.id, claim.attempts, now);
        store.RetryDelivery(claim, at, "delivery.unexpected");
        verdict := RetryAt(at, "delivery.unexpected");
      } else {
        store.MoveToDeadLetter(claim, now, "delivery.unexpected");
        verdict := Bury(now, "delivery.unexpected");
      }
    case Succeeded =>
      store.MarkDelivered(claim, now);
      verdict := Deliver(now);
  }

  /** The loop over the claims. */
  method SettleClaims(store: BackgroundStore, p: RetryPolicy, claims: seq<DeliveryClaim>, outcomes: nat -> Attempt,
                      now: int, ghost start: seq<DeliveryRow>, ghost batch: seq<nat>)
    returns (outcome: DeliveryOutcome)
    requires ClaimsMatch(start, batch, claims) && Distinct(batch)
    requires SettledSoFar(p, start, store.deliveries, batch, 0, outcomes, now)
    modifies store`deliveries
    ensures SettledSoFar(p, start, store.deliveries, batch, |batch|, outcomes, now)
    ensures outcome.claimed == |batch| && outcome.succeeded == Successes(batch, outcomes)
    ensures outcome.claimed == outcome.succeeded + outcome.retried + outcome.dead
  {
    assert batch[..0] == [] && Successes([], outcomes) == 0;
    hide SettledSoFar, Finish, Decide, Successes, Distinct;
    var succeeded, retried, dead := 0, 0, 0;
    for k := 0 to |claims|
      invariant SettledSoFar(p, start, store.deliveries, batch, k, outcomes, now)
      invariant succeeded == Successes(batch[..k], outcomes)
      invariant k == succeeded + retried + dead
    {
      SettlePass(p, start, store.deliveries, batch, k, outcomes, now);
      var verdict := AttemptOne(store, p, claims[k], outcomes(claims[k].id), now);
      match verdict
      case Deliver(_) => succeeded := succeeded + 1;
      case RetryAt(_, _) => retried := retried + 1;
      case Bury(_, _) => dead := dead + 1;
    }
    assert batch[..|batch|] == batch;
    outcome := DeliveryOutcome(|claims|, succeeded, retried, dead);
  }

  /**
    One worker call: every due delivery, up to the limit, is attempted once and ends sent, back in
    the queue at a later instant, or buried; every other row keeps its contents.
  */
  method DeliverNotifications(store: BackgroundStore, p: RetryPolicy, outcomes: nat -> Attempt, now: int, limit: nat,
                              lease: int)
    returns (outcome: DeliveryOutcome)
    modifies store`deliveries
    ensures var batch := ClaimBatch(old(store.Contents()), now, limit, lease);
            && SettledSoFar(p, old(store.deliveries), store.deliveries, batch, |batch|, outcomes, now)
            && outcome.claimed == |batch|
            && outcome.succeeded == Successes(batch, outcomes)
            && outcome.claimed == outcome.succeeded + outcome.retried + outcome.dead
  {
    ghost var rows := store.Contents();
    ghost var batch := ClaimBatch(rows, now, limit, lease);
    hide ClaimBatch, SettledSoFar, Successes, ClaimRows, Distinct, ClaimOf;
    var claims := store.ClaimNotifications(now, limit, lease);
    ClaimStarts(p, rows, claims, store.deliveries, outcomes, now, limit, lease);
    outcome := SettleClaims(store, p, claims, outcomes, now, rows.deliveries, batch);
  }
}
