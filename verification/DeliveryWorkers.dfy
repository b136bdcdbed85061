/**
  Many delivery workers over one store. A claim opens a flight; the worker calls the gateway once
  per flight and then settles it, in any interleaving with other workers, dispatches and publishers.
*/
module DeliveryWorkers {
  import opened Basics
  import opened Retry
  import opened Delivery

  datatype Stage = Held | Tried(outcome: Attempt) | Closed

  /** A claimed delivery in the hands of a worker. */
  datatype Flight = Flight(row: nat, attempts: nat, claimedAt: int, stage: Stage)

  /**
    The rows, the flights, and the deliveries for which the gateway was called, for which it was called
    with success, and whose worker was lost.
  */
  datatype System = System(rows: Rows, flights: seq<Flight>, calls: seq<nat>, successes: seq<nat>, deaths: seq<nat>)

  datatype Step =
    | Publish(now: int, kind: string)
    | Subscribe(now: int, subscription: Subscription)
    | Resubscribe(now: int, id: nat, types: set<string>, enabled: bool)
    | RunDispatch(now: int, limit: nat)
    | Claim(now: int, limit: nat)
    | Try(now: int, flight: nat, outcome: Attempt)
    | Settle(now: int, flight: nat)
    | Die(now: int, flight: nat)

  function NewEvent(kind: string, now: int): EventRow {
    EventRow(kind, EventPending, 0, now, None, None, None)
  }

  function OpenedBy(rows: Rows, batch: seq<nat>, now: int): (r: seq<Flight>)
    requires InRange(batch, |rows.deliveries|)
    ensures |r| == |batch|
  {
    seq(|batch|, i requires 0 <= i < |batch| => Flight(batch[i], rows.deliveries[batch[i]].attempts + 1, now, Held))
  }

  function Next(s: System, step: Step, p: RetryPolicy, lease: int): System {
    match step
    case Publish(now, kind) => s.(rows := s.rows.(events := s.rows.events + [NewEvent(kind, now)]))
    case Subscribe(_, x) => s.(rows := s.rows.(subscriptions := s.rows.subscriptions + [x]))
    case Resubscribe(_, id, types, enabled) =>
      if id < |s.rows.subscriptions| then
        s.(rows := s.rows.(subscriptions :=
          s.rows.subscriptions[id := s.rows.subscriptions[id].(types := types, enabled := enabled)]))
      else s
    case RunDispatch(now, limit) => s.(rows := Dispatch(s.rows, now, limit, lease, p.maxAttempts))
    case Claim(now, limit) =>
      var batch := ClaimBatch(s.rows, now, limit, lease);
      s.(rows := s.rows.(deliveries := ClaimRows(s.rows.deliveries, batch, now)),
         flights := s.flights + OpenedBy(s.rows, batch, now))
    case Try(_, f, outcome) =>
      if f < |s.flights| && s.flights[f].stage.Held? then
        s.(flights := s.flights[f := s.flights[f].(stage := Tried(outcome))],
           calls := s.calls + [s.flights[f].row],
           successes := s.successes + if outcome.Succeeded? then [s.flights[f].row] else [])
      else s
    case Settle(_, f) =>
      if f < |s.flights| && s.flights[f].stage.Tried? then
        var flight := s.flights[f];
        var verdict := Decide(p, flight.row, flight.attempts, flight.stage.outcome, flight.claimedAt);
        s.(rows := s.rows.(deliveries := Finish(s.rows.deliveries, flight.row, verdict)),
           flights := s.flights[f := flight.(stage := Closed)])
      else s
    case Die(_, f) =>
      if f < |s.flights| && !s.flights[f].stage.Closed? then
        s.(flights := s.flights[f := s.flights[f].(stage := Closed)], deaths := s.deaths + [s.flights[f].row])
      else s
  }

  function Run(s: System, steps: seq<Step>, p: RetryPolicy, lease: int): System {
    if steps == [] then s
    else Next(Run(s, steps[..|steps| - 1], p, lease), steps[|steps| - 1], p, lease)
  }

  const FRESH: System := System(Rows([], [], []), [], [], [], [])

  // --- What holds of every run ------------------------------------------------------------

  predicate Terminal(d: DeliveryRow) { d.status == Sent || d.status == DeadLetter }

  /** Events wait untouched until they are published. */
  ghost predicate EventsFresh(rows: Rows) {
    forall e :: 0 <= e < |rows.events| && rows.events[e].status != EventPublished ==>
      rows.events[e].status == EventPending && rows.events[e].attempts == 0
  }

  ghost predicate Sound(rows: Rows) { OnePerPair(rows.deliveries) && EventsFresh(rows) }

  /** Rows stay in place with their pair, and a sent or buried row is never touched again. */
  ghost predicate Progress(a: seq<DeliveryRow>, b: seq<DeliveryRow>) {
    && SamePairs(a, b)
    && forall d :: 0 <= d < |a| && Terminal(a[d]) ==> b[d] == a[d]
  }

  lemma DispatchSound(rows: Rows, now: int, limit: nat, lease: int, maxAttempts: int)
    requires Sound(rows) && 1 <= maxAttempts
    ensures Sound(Dispatch(rows, now, limit, lease, maxAttempts))
    ensures Progress(rows.deliveries, Dispatch(rows, now, limit, lease, maxAttempts).deliveries)
  {
    DispatchCovers(rows, now, limit, lease, maxAttempts);
    hide Dispatch, OnePerPair;
    var a, b := rows.deliveries, Dispatch(rows, now, limit, lease, maxAttempts).deliveries;
    assert forall d :: 0 <= d < |a| ==> b[d] == b[..|a|][d];
  }

  /** A change of rows that keeps every pair and touches no terminal row. */
  lemma ProgressSound(rows: Rows, b: seq<DeliveryRow>)
    requires Sound(rows) && |b| == |rows.deliveries| && Progress(rows.deliveries, b)
    ensures Sound(rows.(deliveries := b))
  {
  }

  lemma ClaimProgress(rows: Rows, now: int, limit: nat, lease: int)
    ensures Progress(rows.deliveries, ClaimRows(rows.deliveries, ClaimBatch(rows, now, limit, lease), now))
  {
    hide ClaimBatch;
  }

  lemma StepSound(s: System, step: Step, p: RetryPolicy, lease: int)
    requires Sound(s.rows)
    ensures Sound(Next(s, step, p, lease).rows)
    ensures Progress(s.rows.deliveries, Next(s, step, p, lease).rows.deliveries)
  {
    hide Dispatch, ClaimBatch, ClaimRows, Decide, OnePerPair;
    match step
    case RunDispatch(now, limit) => DispatchSound(s.rows, now, limit, lease, p.maxAttempts);
    case Claim(now, limit) =>
      ClaimProgress(s.rows, now, limit, lease);
      ProgressSound(s.rows, Next(s, step, p, lease).rows.deliveries);
    case Settle(_, _) => ProgressSound(s.rows, Next(s, step, p, lease).rows.deliveries);
    case _ =>
  }

  lemma {:induction false} EveryRunIsSound(steps: seq<Step>, p: RetryPolicy, lease: int)
    ensures Sound(Run(FRESH, steps, p, lease).rows)
  {
    if steps != [] {
      EveryRunIsSound(steps[..|steps| - 1], p, lease);
      StepSound(Run(FRESH, steps[..|steps| - 1], p, lease), steps[|steps| - 1], p, lease);
    }
  }

  /**
    Sent and dead-lettered deliveries are absorbing: whatever any worker does later, timely or not,
    the row is exactly the same, and no pair of event and subscription ever gets a second row.
  */
  lemma {:induction false} TerminalIsAbsorbing(s: System, steps: seq<Step>, p: RetryPolicy, lease: int)
    requires Sound(s.rows)
    ensures Sound(Run(s, steps, p, lease).rows)
    ensures Progress(s.rows.deliveries, Run(s, steps, p, lease).rows.deliveries)
  {
    hide Sound, Next;
    if steps != [] {
      TerminalIsAbsorbing(s, steps[..|steps| - 1], p, lease);
      StepSound(Run(s, steps[..|steps| - 1], p, lease), steps[|steps| - 1], p, lease);
    }
  }

  lemma DispatchedCovers(s: System, now: int, limit: nat, p: RetryPolicy, lease: int, event: nat, subscription: nat)
    requires Sound(s.rows) && event in EventBatch(s.rows, now, limit, lease)
    requires subscription < |s.rows.subscriptions|
    requires Matches(s.rows.subscriptions[subscription], s.rows.events[event].kind)
    ensures var t := Next(s, RunDispatch(now, limit), p, lease);
            && event < |t.rows.events| && t.rows.events[event].status == EventPublished
            && HasDelivery(t.rows.deliveries, event, subscription)
  {
    var batch := EventBatch(s.rows, now, limit, lease);
    EventBatchDistinct(s.rows, now, limit, lease);
    hide EventBatch, DispatchAll, OnePerPair, HasDelivery, Distinct, Matches;
    assert forall i :: 0 <= i < |batch| ==> batch[i] in batch;
    DispatchAllMeaning(s.rows, batch, now, p.maxAttempts);
    var i :| 0 <= i < |batch| && batch[i] == event;
    assert Covered(Dispatch(s.rows, now, limit, lease, p.maxAttempts), batch[i]);
  }

  /**
    Whatever happens before and after a dispatch, each event it takes has, for good, a delivery for
    every subscription that was enabled and matching when it was dispatched.
  */
  lemma CoverageLasts(steps: seq<Step>, now: int, limit: nat, later: seq<Step>, p: RetryPolicy, lease: int,
                      event: nat, subscription: nat)
    requires var s := Run(FRESH, steps, p, lease);
             && event in EventBatch(s.rows, now, limit, lease)
             && subscription < |s.rows.subscriptions|
             && Matches(s.rows.subscriptions[subscription], s.rows.events[event].kind)
    ensures var s := Run(FRESH, steps, p, lease);
            var t := Next(s, RunDispatch(now, limit), p, lease);
            && event < |t.rows.events| && t.rows.events[event].status == EventPublished
            && HasDelivery(Run(t, later, p, lease).rows.deliveries, event, subscription)
  {
    var s := Run(FRESH, steps, p, lease);
    var t := Next(s, RunDispatch(now, limit), p, lease);
    EveryRunIsSound(steps, p, lease);
    hide EventBatch, Dispatch, OnePerPair, HasDelivery, Run, Sound, Matches, Progress;
    DispatchedCovers(s, now, limit, p, lease, event, subscription);
    StepSound(s, RunDispatch(now, limit), p, lease);
    TerminalIsAbsorbing(t, later, p, lease);
    ProgressHas(t.rows.deliveries, Run(t, later, p, lease).rows.deliveries, event, subscription);
  }

  lemma ProgressHas(a: seq<DeliveryRow>, b: seq<DeliveryRow>, event: nat, subscription: nat)
    requires Progress(a, b) && HasDelivery(a, event, subscription)
    ensures HasDelivery(b, event, subscription)
  {
    StillHas(a, b, event, subscription);
  }

  // --- Runs whose workers keep their leases -----------------------------------------------

  /** Every flight that is open at `now`, in the hands of a live worker, is still within its lease. */
  ghost predicate InTime(s: System, now: int, lease: int) {
    forall f :: 0 <= f < |s.flights| && !s.flights[f].stage.Closed? ==> now < s.flights[f].claimedAt + lease
  }

  /** Each worker settles its flights, or is lost, strictly within the lease. */
  ghost predicate Timely(s: System, steps: seq<Step>, p: RetryPolicy, lease: int) {
    steps == [] ||
    (Timely(s, steps[..|steps| - 1], p, lease) &&
     InTime(Run(s, steps[..|steps| - 1], p, lease), steps[|steps| - 1].now, lease))
  }

  function Times(log: seq<nat>, d: nat): nat { multiset(log)[d] }

  ghost predicate HeldBy(s: System, f: nat, d: nat) {
    f < |s.flights| && !s.flights[f].stage.Closed? && s.flights[f].row == d
  }

  /** What the logs say of a delivery between a claim and its settlement. */
  ghost predicate InFlight(s: System, d: nat, attempts: nat, stage: Stage) {
    var calls, successes, deaths := Times(s.calls, d), Times(s.successes, d), Times(s.deaths, d);
    var started := calls + if stage.Held? then 1 else 0;
    && started <= attempts && (deaths == 0 ==> started == attempts)
    && (if stage == Tried(Succeeded) then 1 <= successes <= deaths + 1 else successes <= deaths)
  }

  /** An open flight is the one holder of a row being processed, and knows its attempt number. */
  ghost predicate FlightOk(s: System, f: nat)
    requires f < |s.flights|
  {
    var flight := s.flights[f];
    !flight.stage.Closed? ==>
      && flight.row < |s.rows.deliveries|
      && var d := s.rows.deliveries[flight.row];
         && d.status == Processing && d.lockedAt == Some(flight.claimedAt) && d.attempts == flight.attempts
         && InFlight(s, flight.row, d.attempts, flight.stage)
  }

  /** A delivery nobody holds: what the logs say of it, given its status. */
  ghost predicate AtRest(s: System, d: nat, row: DeliveryRow, p: RetryPolicy) {
    var calls, successes, deaths := Times(s.calls, d), Times(s.successes, d), Times(s.deaths, d);
    && calls <= row.attempts && (deaths == 0 ==> calls == row.attempts)
    && (row.status == Processing ==> 1 <= deaths && row.attempts < p.maxAttempts + deaths)
    && (if row.status == Sent then 1 <= successes <= deaths + 1 else successes <= deaths)
  }

  ghost predicate RowOk(s: System, d: nat, p: RetryPolicy)
    requires d < |s.rows.deliveries|
  {
    var row := s.rows.deliveries[d];
    && row.attempts <= p.maxAttempts + Times(s.deaths, d)
    && (row.status == Pending ==> row.attempts < p.maxAttempts)
    && ((row.status == Processing && exists f: nat :: HeldBy(s, f, d)) || AtRest(s, d, row, p))
  }

  ghost predicate LogsOk(s: System) {
    && (forall x :: x in s.calls ==> x < |s.rows.deliveries|)
    && (forall x :: x in s.successes ==> x < |s.rows.deliveries|)
    && (forall x :: x in s.deaths ==> x < |s.rows.deliveries|)
  }

  ghost predicate Leased(s: System, p: RetryPolicy) {
    && LogsOk(s)
    && (forall f: nat :: f < |s.flights| ==> FlightOk(s, f))
    && (forall f, g, d: nat :: HeldBy(s, f, d) && HeldBy(s, g, d) ==> f == g)
    && (forall d: nat :: d < |s.rows.deliveries| ==> RowOk(s, d, p))
  }

  lemma Appended(log: seq<nat>, x: nat, d: nat)
    ensures Times(log + [x], d) == Times(log, d) + if x == d then 1 else 0
  {
    assert multiset(log + [x]) == multiset(log) + multiset{x};
  }

  lemma TryKeeps(s: System, f: nat, outcome: Attempt, now: int, p: RetryPolicy, lease: int)
    requires Leased(s, p)
    ensures Leased(Next(s, Try(now, f, outcome), p, lease), p)
  {
    hide Times;
    var t := Next(s, Try(now, f, outcome), p, lease);
    if f < |s.flights| && s.flights[f].stage.Held? {
      var row := s.flights[f].row;
      assert FlightOk(s, f) && HeldBy(s, f, row);
      forall d: nat ensures Times(t.calls, d) == Times(s.calls, d) + if d == row then 1 else 0
                    ensures Times(t.successes, d) ==
                            Times(s.successes, d) + if d == row && outcome.Succeeded? then 1 else 0
      {
        Appended(s.calls, row, d);
        if outcome.Succeeded? {
          Appended(s.successes, row, d);
        } else {
          assert s.successes + [] == s.successes;
        }
      }
      assert forall g, d: nat :: HeldBy(t, g, d) <==> HeldBy(s, g, d);
      forall g: nat | g < |t.flights| ensures FlightOk(t, g) {
        assert FlightOk(s, g);
        assert HeldBy(s, g, row) ==> g == f;
      }
      forall d: nat | d < |t.rows.deliveries| ensures RowOk(t, d, p) {
        assert RowOk(s, d, p);
        if exists g: nat :: HeldBy(s, g, d) {
          var g: nat :| HeldBy(s, g, d);
          assert HeldBy(t, g, d);
        }
      }
    }
  }

  lemma SettleKeeps(s: System, f: nat, now: int, p: RetryPolicy, lease: int)
    requires Leased(s, p)
    ensures Leased(Next(s, Settle(now, f), p, lease), p)
  {
    hide Times;
    var t := Next(s, Settle(now, f), p, lease);
    if f < |s.flights| && s.flights[f].stage.Tried? {
      var row := s.flights[f].row;
      assert FlightOk(s, f) && HeldBy(s, f, row) && RowOk(s, row, p);
      assert forall g, d: nat :: HeldBy(t, g, d) <==> HeldBy(s, g, d) && g != f;
      forall g: nat | g < |t.flights| ensures FlightOk(t, g) {
        assert FlightOk(s, g);
        assert HeldBy(s, g, row) ==> g == f;
      }
      forall d: nat | d < |t.rows.deliveries| ensures RowOk(t, d, p) {
        assert RowOk(s, d, p);
        if d != row && exists g: nat :: HeldBy(s, g, d) {
          var g: nat :| HeldBy(s, g, d);
          assert HeldBy(t, g, d);
        }
      }
    }
  }

  lemma DieKeeps(s: System, f: nat, now: int, p: RetryPolicy, lease: int)
    requires Leased(s, p)
    ensures Leased(Next(s, Die(now, f), p, lease), p)
  {
    hide Times;
    var t := Next(s, Die(now, f), p, lease);
    if f < |s.flights| && !s.flights[f].stage.Closed? {
      var row := s.flights[f].row;
      assert FlightOk(s, f) && HeldBy(s, f, row) && RowOk(s, row, p);
      forall d: nat ensures Times(t.deaths, d) == Times(s.deaths, d) + if d == row then 1 else 0 {
        Appended(s.deaths, row, d);
      }
      assert forall g, d: nat :: HeldBy(t, g, d) <==> HeldBy(s, g, d) && g != f;
      forall g: nat | g < |t.flights| ensures FlightOk(t, g) {
        assert FlightOk(s, g);
        assert HeldBy(s, g, row) ==> g == f;
      }
      forall d: nat | d < |t.rows.deliveries| ensures RowOk(t, d, p) {
        assert RowOk(s, d, p);
        if d != row && exists g: nat :: HeldBy(s, g, d) {
          var g: nat :| HeldBy(s, g, d);
          assert HeldBy(t, g, d);
        }
      }
    }
  }

  lemma NeverCalled(s: System, d: nat)
    requires LogsOk(s) && |s.rows.deliveries| <= d
    ensures Times(s.calls, d) == 0 && Times(s.successes, d) == 0 && Times(s.deaths, d) == 0
  {
    assert d !in s.calls && d !in s.successes && d !in s.deaths;
  }

  lemma DispatchAppends(rows: Rows, now: int, limit: nat, lease: int, maxAttempts: int)
    requires Sound(rows) && 1 <= maxAttempts
    ensures var a, b := rows.deliveries, Dispatch(rows, now, limit, lease, maxAttempts).deliveries;
            && |a| <= |b| && (forall d :: 0 <= d < |a| ==> b[d] == a[d])
            && (forall d :: |a| <= d < |b| ==> b[d].status == Pending && b[d].attempts == 0)
  {
    DispatchCovers(rows, now, limit, lease, maxAttempts);
    hide Dispatch, OnePerPair, PublishedAndCovered, EventBatch;
    var a, b := rows.deliveries, Dispatch(rows, now, limit, lease, maxAttempts).deliveries;
    assert forall d :: 0 <= d < |a| ==> b[d] == b[..|a|][d];
  }

  lemma DispatchKeeps(s: System, now: int, limit: nat, p: RetryPolicy, lease: int)
    requires Leased(s, p) && Sound(s.rows)
    ensures Leased(Next(s, RunDispatch(now, limit), p, lease), p)
  {
    var t := Next(s, RunDispatch(now, limit), p, lease);
    DispatchAppends(s.rows, now, limit, lease, p.maxAttempts);
    hide Dispatch, Sound, Times;
    assert forall g, d: nat :: HeldBy(t, g, d) <==> HeldBy(s, g, d);
    forall g: nat | g < |t.flights| ensures FlightOk(t, g) {
      assert FlightOk(s, g);
    }
    forall d: nat | d < |t.rows.deliveries| ensures RowOk(t, d, p) {
      if d < |s.rows.deliveries| {
        assert RowOk(s, d, p);
      } else {
        NeverCalled(s, d);
      }
    }
  }

  /** While workers keep their leases, a delivery that can be claimed is held by nobody. */
  lemma DueIsAtRest(s: System, d: nat, now: int, p: RetryPolicy, lease: int)
    requires Leased(s, p) && InTime(s, now, lease)
    requires d < |s.rows.deliveries| && DeliveryDue(s.rows.deliveries[d], now, lease)
    ensures (forall g: nat :: !HeldBy(s, g, d)) && AtRest(s, d, s.rows.deliveries[d], p)
  {
    hide Times;
    assert RowOk(s, d, p);
    assert forall g: nat :: HeldBy(s, g, d) ==> FlightOk(s, g);
  }

  /** Nobody holds a delivery of the batch before it is claimed. */
  ghost predicate FreeBatch(s: System, batch: seq<nat>, p: RetryPolicy) {
    && InRange(batch, |s.rows.deliveries|) && Distinct(batch)
    && forall d: nat :: d in batch ==>
         d < |s.rows.deliveries| && (forall g: nat :: !HeldBy(s, g, d)) && AtRest(s, d, s.rows.deliveries[d], p)
  }

  function Claimed(s: System, batch: seq<nat>, now: int): System
    requires InRange(batch, |s.rows.deliveries|)
  {
    s.(rows := s.rows.(deliveries := ClaimRows(s.rows.deliveries, batch, now)),
       flights := s.flights + OpenedBy(s.rows, batch, now))
  }

  lemma ClaimedHolders(s: System, batch: seq<nat>, now: int, p: RetryPolicy)
    requires FreeBatch(s, batch, p)
    ensures var t, n := Claimed(s, batch, now), |s.flights|;
            forall g: nat, d: nat :: HeldBy(t, g, d) <==>
              if g < n then HeldBy(s, g, d) else g < |t.flights| && batch[g - n] == d
  {
    hide AtRest, ClaimRows;
  }

  lemma ClaimedFlight(s: System, batch: seq<nat>, now: int, p: RetryPolicy, g: nat)
    requires Leased(s, p) && FreeBatch(s, batch, p) && g < |Claimed(s, batch, now).flights|
    requires forall d: nat :: d in batch ==> s.rows.deliveries[d].status in {Pending, Processing}
    ensures FlightOk(Claimed(s, batch, now), g)
  {
    hide Times;
    var n := |s.flights|;
    if g < n {
      assert FlightOk(s, g);
      assert !s.flights[g].stage.Closed? ==> HeldBy(s, g, s.flights[g].row);
    } else {
      assert batch[g - n] in batch;
    }
  }

  lemma ClaimedRow(s: System, batch: seq<nat>, now: int, p: RetryPolicy, d: nat)
    requires Leased(s, p) && FreeBatch(s, batch, p) && d < |s.rows.deliveries|
    requires d in batch ==> s.rows.deliveries[d].status in {Pending, Processing}
    ensures RowOk(Claimed(s, batch, now), d, p)
  {
    hide Times;
    ClaimedHolders(s, batch, now, p);
    var t, n := Claimed(s, batch, now), |s.flights|;
    assert RowOk(s, d, p);
    if d in batch {
      var i :| 0 <= i < |batch| && batch[i] == d;
      assert HeldBy(t, n + i, d);
    } else if exists g: nat :: HeldBy(s, g, d) {
      var g: nat :| HeldBy(s, g, d);
      assert HeldBy(t, g, d);
    }
  }

  lemma ClaimedIsLeased(s: System, batch: seq<nat>, now: int, p: RetryPolicy)
    requires Leased(s, p) && FreeBatch(s, batch, p)
    requires forall d: nat :: d in batch ==> s.rows.deliveries[d].status in {Pending, Processing}
    ensures Leased(Claimed(s, batch, now), p)
  {
    var t := Claimed(s, batch, now);
    ClaimedHolders(s, batch, now, p);
    assert forall i :: 0 <= i < |batch| ==> batch[i] in batch;
    hide FlightOk, RowOk, HeldBy, AtRest, ClaimRows, OpenedBy;
    forall g: nat | g < |t.flights| ensures FlightOk(t, g) {
      ClaimedFlight(s, batch, now, p, g);
    }
    forall d: nat | d < |t.rows.deliveries| ensures RowOk(t, d, p) {
      ClaimedRow(s, batch, now, p, d);
    }
  }

  lemma ClaimKeeps(s: System, now: int, limit: nat, p: RetryPolicy, lease: int)
    requires Leased(s, p) && InTime(s, now, lease)
    ensures Leased(Next(s, Claim(now, limit), p, lease), p)
  {
    var batch := ClaimBatch(s.rows, now, limit, lease);
    ClaimBatchDistinct(s.rows, now, limit, lease);
    hide ClaimBatch, Distinct, Leased, AtRest;
    forall d: nat | d in batch ensures (forall g: nat :: !HeldBy(s, g, d)) && AtRest(s, d, s.rows.deliveries[d], p) {
      DueIsAtRest(s, d, now, p, lease);
    }
    hide HeldBy, InTime;
    ClaimedIsLeased(s, batch, now, p);
  }

  lemma QuietKeeps(s: System, step: Step, p: RetryPolicy, lease: int)
    requires Leased(s, p) && (step.Publish? || step.Subscribe? || step.Resubscribe?)
    ensures Leased(Next(s, step, p, lease), p)
  {
    var t := Next(s, step, p, lease);
    assert forall g, d: nat :: HeldBy(t, g, d) <==> HeldBy(s, g, d);
    forall g: nat | g < |t.flights| ensures FlightOk(t, g) {
      assert FlightOk(s, g);
    }
    forall d: nat | d < |t.rows.deliveries| ensures RowOk(t, d, p) {
      assert RowOk(s, d, p);
    }
  }

  lemma {:induction false} TimelyRunsAreLeased(steps: seq<Step>, p: RetryPolicy, lease: int)
    requires Timely(FRESH, steps, p, lease)
    ensures Leased(Run(FRESH, steps, p, lease), p)
  {
    if steps != [] {
      var init, last := steps[..|steps| - 1], steps[|steps| - 1];
      var s := Run(FRESH, init, p, lease);
      TimelyRunsAreLeased(init, p, lease);
      EveryRunIsSound(init, p, lease);
      hide Leased, Next, Sound, InTime;
      match last
      case RunDispatch(now, limit) => DispatchKeeps(s, now, limit, p, lease);
      case Claim(now, limit) => ClaimKeeps(s, now, limit, p, lease);
      case Try(now, f, outcome) => TryKeeps(s, f, outcome, now, p, lease);
      case Settle(now, f) => SettleKeeps(s, f, now, p, lease);
      case Die(now, f) => DieKeeps(s, f, now, p, lease);
      case _ => QuietKeeps(s, last, p, lease);
    }
  }

  /**
    When live workers finish within their lease, the gateway is called for a delivery at most the
    policy's number of times and once more for every worker lost with it; it succeeds at most once and
    once more for every loss, and at least once for a delivery marked sent; a waiting delivery has an
    attempt left. Without losses a delivery has one success exactly when it is sent, once at rest.
  */
  lemma SendsAreBounded(steps: seq<Step>, p: RetryPolicy, lease: int, d: nat)
    requires Timely(FRESH, steps, p, lease) && d < |Run(FRESH, steps, p, lease).rows.deliveries|
    ensures var s := Run(FRESH, steps, p, lease);
            var row := s.rows.deliveries[d];
            var lost := Times(s.deaths, d);
            && Times(s.calls, d) <= row.attempts <= p.maxAttempts + lost
            && Times(s.successes, d) <= 1 + lost
            && (row.status == Sent ==> 1 <= Times(s.successes, d))
            && (row.status == DeadLetter || row.status == Pending ==> Times(s.successes, d) <= lost)
            && (row.status == Pending ==> row.attempts < p.maxAttempts)
            && forall f, g: nat :: HeldBy(s, f, d) && HeldBy(s, g, d) ==> f == g
  {
    TimelyRunsAreLeased(steps, p, lease);
    var s := Run(FRESH, steps, p, lease);
    hide Run, Times;
    assert RowOk(s, d, p);
    if exists f: nat :: HeldBy(s, f, d) {
      var f: nat :| HeldBy(s, f, d);
      assert FlightOk(s, f);
    }
  }

  /** What is left of the attempt budget of a delivery; every lost worker adds one attempt. */
  function Budget(s: System, d: nat, p: RetryPolicy): int
    requires d < |s.rows.deliveries|
  {
    p.maxAttempts + Times(s.deaths, d) - s.rows.deliveries[d].attempts
  }

  predicate Granted(s: System, d: nat, step: Step, lease: int) {
    step.Claim? && d in ClaimBatch(s.rows, step.now, step.limit, lease)
  }

  /** The step loses the worker that holds the delivery. */
  predicate Loses(s: System, d: nat, step: Step) {
    step.Die? && step.flight < |s.flights| && !s.flights[step.flight].stage.Closed? && s.flights[step.flight].row == d
  }

  /**
    The budget is a termination measure: after a timely run, one more timely step takes exactly one
    from it when the step claims the delivery, gives one back only when it loses the worker that holds
    it, and leaves it alone otherwise; it never drops below zero.
  */
  lemma BudgetDecreases(steps: seq<Step>, step: Step, p: RetryPolicy, lease: int, d: nat)
    requires Timely(FRESH, steps + [step], p, lease) && d < |Run(FRESH, steps, p, lease).rows.deliveries|
    ensures var s, t := Run(FRESH, steps, p, lease), Run(FRESH, steps + [step], p, lease);
            && d < |t.rows.deliveries|
            && Budget(t, d, p) == Budget(s, d, p) - (if Granted(s, d, step, lease) then 1 else 0)
                                  + (if Loses(s, d, step) then 1 else 0)
            && 0 <= Budget(t, d, p)
  {
    assert (steps + [step])[..|steps|] == steps;
    var s, t := Run(FRESH, steps, p, lease), Run(FRESH, steps + [step], p, lease);
    assert t == Next(s, step, p, lease);
    EveryRunIsSound(steps, p, lease);
    StepSound(s, step, p, lease);
    AttemptsAfter(s, step, p, lease, d);
    DeathsAfter(s, step, p, lease, d);
    SendsAreBounded(steps + [step], p, lease, d);
    hide Run, Next, Times;
  }

  lemma DeathsAfter(s: System, step: Step, p: RetryPolicy, lease: int, d: nat)
    ensures Times(Next(s, step, p, lease).deaths, d) == Times(s.deaths, d) + if Loses(s, d, step) then 1 else 0
  {
    hide Times, Dispatch, ClaimBatch, ClaimRows, Decide;
    if step.Die? && step.flight < |s.flights| {
      Appended(s.deaths, s.flights[step.flight].row, d);
    }
  }

  lemma AttemptsAfter(s: System, step: Step, p: RetryPolicy, lease: int, d: nat)
    requires Sound(s.rows) && d < |s.rows.deliveries|
    ensures var t := Next(s, step, p, lease);
            && d < |t.rows.deliveries|
            && t.rows.deliveries[d].attempts ==
               s.rows.deliveries[d].attempts + if Granted(s, d, step, lease) then 1 else 0
  {
    if step.RunDispatch? {
      DispatchCovers(s.rows, step.now, step.limit, lease, p.maxAttempts);
      hide Dispatch;
      var b := Next(s, step, p, lease).rows.deliveries;
      assert b[d] == b[..|s.rows.deliveries|][d];
    } else {
      hide ClaimBatch, Dispatch, Decide, OnePerPair;
    }
  }

  // --- Why the lease matters ----------------------------------------------------------------

  /** A delivery in flight can be claimed again exactly from the end of its lease on. */
  lemma ReclaimIff(s: System, f: nat, now: int, p: RetryPolicy, lease: int)
    requires Leased(s, p) && f < |s.flights| && !s.flights[f].stage.Closed?
    ensures s.flights[f].row in DueDeliveries(s.rows.deliveries, now, lease) <==> s.flights[f].claimedAt + lease <= now
  {
    assert FlightOk(s, f);
  }

  lemma DueIsClaimed(rows: Rows, d: nat, now: int, lease: int)
    requires d < |rows.deliveries| && DeliveryDue(rows.deliveries[d], now, lease)
    ensures d in ClaimBatch(rows, now, |rows.deliveries|, lease)
  {
    var due := DueDeliveries(rows.deliveries, now, lease);
    assert d in due;
    RowidsShort(|rows.deliveries|, (i: nat) => i < |rows.deliveries| && DeliveryDue(rows.deliveries[i], now, lease));
    assert d in SortBy(due, DeliveryKey(rows.deliveries));
  }

  lemma RowidsShort(n: nat, keep: nat -> bool)
    ensures |Rowids(n, keep)| <= n
  {
  }

  /** In `t` the delivery has been claimed and sent `n` times more than in `s`, and is due again at `next`. */
  ghost predicate Overrun(s: System, t: System, lease: int, d: nat, n: nat, next: int)
    requires d < |s.rows.deliveries|
  {
    && |t.rows.deliveries| == |s.rows.deliveries|
    && DeliveryDue(t.rows.deliveries[d], next, lease)
    && t.rows.deliveries[d].attempts == s.rows.deliveries[d].attempts + n
    && Times(t.calls, d) == Times(s.calls, d) + n
  }

  lemma OpenedFlight(rows: Rows, batch: seq<nat>, now: int, i: nat)
    requires InRange(batch, |rows.deliveries|) && i < |batch|
    ensures OpenedBy(rows, batch, now)[i].stage.Held? && OpenedBy(rows, batch, now)[i].row == batch[i]
  {
  }

  lemma LockedByClaim(deliveries: seq<DeliveryRow>, batch: seq<nat>, now: int, d: nat)
    requires d < |deliveries| && d in batch
    ensures ClaimRows(deliveries, batch, now)[d] == Locked(deliveries[d], now)
  {
  }

  lemma ClaimedAgain(t: System, d: nat, now: int, p: RetryPolicy, lease: int) returns (f: nat, u: System)
    requires d < |t.rows.deliveries| && DeliveryDue(t.rows.deliveries[d], now, lease)
    ensures u == Next(t, Claim(now, |t.rows.deliveries|), p, lease)
    ensures u.rows.deliveries == ClaimRows(t.rows.deliveries, ClaimBatch(t.rows, now, |t.rows.deliveries|, lease), now)
    ensures u.rows.deliveries[d] == Locked(t.rows.deliveries[d], now) && u.calls == t.calls
    ensures f < |u.flights| && u.flights[f].stage.Held? && u.flights[f].row == d
  {
    hide ClaimBatch, ClaimRows, Locked, DeliveryDue, OpenedBy, Dispatch, Decide, Finish;
    var batch := ClaimBatch(t.rows, now, |t.rows.deliveries|, lease);
    DueIsClaimed(t.rows, d, now, lease);
    var i: nat :| i < |batch| && batch[i] == d;
    f := |t.flights| + i;
    u := Next(t, Claim(now, |t.rows.deliveries|), p, lease);
    OpenedFlight(t.rows, batch, now, i);
    LockedByClaim(t.rows.deliveries, batch, now, d);
  }

  lemma RunAppend(s: System, steps: seq<Step>, step: Step, p: RetryPolicy, lease: int)
    ensures Run(s, steps + [step], p, lease) == Next(Run(s, steps, p, lease), step, p, lease)
  {
    hide Next;
    assert (steps + [step])[..|steps|] == steps;
  }

  lemma SentAgain(s: System, u: System, d: nat, f: nat, at: int, n: nat, p: RetryPolicy, lease: int)
    requires d < |s.rows.deliveries| && |u.rows.deliveries| == |s.rows.deliveries|
    requires u.rows.deliveries[d].status == Processing && u.rows.deliveries[d].lockedAt == Some(at)
    requires u.rows.deliveries[d].attempts == s.rows.deliveries[d].attempts + n + 1
    requires Times(u.calls, d) == Times(s.calls, d) + n
    requires f < |u.flights| && u.flights[f].stage.Held? && u.flights[f].row == d
    ensures Overrun(s, Next(u, Try(at, f, Crashed), p, lease), lease, d, n + 1, at + lease)
  {
    Appended(u.calls, d, d);
    hide Times;
  }

  /** One more round: a worker claims the delivery, calls the gateway and is late to settle. */
  lemma OneMoreRound(s: System, t: System, d: nat, at: int, n: nat, p: RetryPolicy, lease: int) returns (f: nat)
    requires d < |s.rows.deliveries| && Overrun(s, t, lease, d, n, at)
    ensures var u := Next(t, Claim(at, |t.rows.deliveries|), p, lease);
            Overrun(s, Next(u, Try(at, f, Crashed), p, lease), lease, d, n + 1, at + lease)
  {
    var u;
    f, u := ClaimedAgain(t, d, at, p, lease);
    hide Next, ClaimRows, ClaimBatch, DeliveryDue, Times;
    SentAgain(s, u, d, f, at, n, p, lease);
  }

  lemma OneRoundLonger(s: System, steps: seq<Step>, d: nat, at: int, n: nat, p: RetryPolicy, lease: int)
    requires d < |s.rows.deliveries| && 0 < n && Overrun(s, Run(s, steps, p, lease), lease, d, n - 1, at)
    ensures exists longer: seq<Step>, next :: Overrun(s, Run(s, longer, p, lease), lease, d, n, next)
  {
    hide Overrun, Next, Run;
    var t := Run(s, steps, p, lease);
    var f := OneMoreRound(s, t, d, at, n - 1, p, lease);
    var claim, attempt := Claim(at, |t.rows.deliveries|), Try(at, f, Crashed);
    RunAppend(s, steps, claim, p, lease);
    RunAppend(s, steps + [claim], attempt, p, lease);
    assert Overrun(s, Run(s, steps + [claim] + [attempt], p, lease), lease, d, n, at + lease);
  }

  /**
    The time bound cannot be dropped: a claim never looks at the attempt limit, so a delivery whose
    workers outlive their leases is claimed and sent any number of times, whatever the policy says.
  */
  lemma {:induction false} LateWorkersOverrun(s: System, d: nat, now: int, n: nat, p: RetryPolicy, lease: int)
    requires d < |s.rows.deliveries| && DeliveryDue(s.rows.deliveries[d], now, lease)
    ensures exists steps: seq<Step>, next :: Overrun(s, Run(s, steps, p, lease), lease, d, n, next)
  {
    if n == 0 {
      assert Overrun(s, Run(s, [], p, lease), lease, d, 0, now);
    } else {
      hide Overrun, Next, Run, DeliveryDue;
      LateWorkersOverrun(s, d, now, n - 1, p, lease);
      var steps: seq<Step>, at :| Overrun(s, Run(s, steps, p, lease), lease, d, n - 1, at);
      OneRoundLonger(s, steps, d, at, n, p, lease);
    }
  }

  // --- How a run gets there -----------------------------------------------------------------

  /** One subscriber and one event it wants, at instant 0. */
  function OneOfEach(recipient: int, kind: string): Rows {
    Rows([Subscription(recipient, {kind}, true)], [NewEvent(kind, 0)], [])
  }

  lemma SortSole(key: nat -> int)
    ensures SortBy([0 as nat], key) == [0]
  {
    var one: seq<nat> := [0];
    assert one[1..] == [];
    assert SortBy(one[1..], key) == [];
  }

  lemma OneEventTaken(recipient: int, kind: string, lease: int)
    ensures EventBatch(OneOfEach(recipient, kind), 0, 1, lease) == [0]
  {
    hide SortBy, Rowids, Sorted;
    var events := OneOfEach(recipient, kind).events;
    OnlyDue(events, lease);
    SortSole(EventKey(events));
  }

  lemma OnlyDue(events: seq<EventRow>, lease: int)
    requires |events| == 1 && EventDue(events[0], 0, lease)
    ensures DueEvents(events, 0, lease) == [0]
  {
    hide Rowids, EventDue;
    var due := DueEvents(events, 0, lease);
    assert 0 in due && forall i: nat :: i in due ==> i == 0;
    hide DueEvents;
    SoleMember(due);
  }

  lemma SoleMember(s: seq<nat>)
    requires Distinct(s) && 0 in s && forall i: nat :: i in s ==> i == 0
    ensures s == [0]
  {
    assert s[0] in s && s[|s| - 1] in s;
  }

  /** What the dispatch of that event leaves. */
  function OneDue(recipient: int, kind: string): DeliveryRow {
    DeliveryRow(0, 0, kind, recipient, Pending, 0, 0, None, None, None)
  }

  lemma OneDispatched(recipient: int, kind: string, p: RetryPolicy, lease: int)
    ensures Dispatch(OneOfEach(recipient, kind), 0, 1, lease, p.maxAttempts).deliveries == [OneDue(recipient, kind)]
  {
    var rows := OneOfEach(recipient, kind);
    OneEventTaken(recipient, kind, lease);
    hide EventBatch;
    assert DispatchAll(rows, [], 0, p.maxAttempts) == rows;
    assert [0 as nat][..0] == [];
    assert Project(rows, 0, 0, 0) == [];
  }

  /** Subscribe, publish and dispatch. */
  function FirstSteps(recipient: int, kind: string): (r: seq<Step>)
    ensures |r| == 3
  {
    [Subscribe(0, Subscription(recipient, {kind}, true)), Publish(0, kind), RunDispatch(0, 1)]
  }

  lemma ThreeSteps(s: System, steps: seq<Step>, p: RetryPolicy, lease: int)
    requires |steps| == 3
    ensures Run(s, steps, p, lease) ==
            Next(Next(Next(s, steps[0], p, lease), steps[1], p, lease), steps[2], p, lease)
  {
    hide Next;
    RunAppend(s, [], steps[0], p, lease);
    RunAppend(s, [steps[0]], steps[1], p, lease);
    RunAppend(s, [steps[0], steps[1]], steps[2], p, lease);
    assert [] + [steps[0]] == [steps[0]] && [steps[0]] + [steps[1]] == [steps[0], steps[1]];
    assert [steps[0], steps[1]] + [steps[2]] == steps;
  }

  lemma Prepared(recipient: int, kind: string, p: RetryPolicy, lease: int)
    ensures var steps := FirstSteps(recipient, kind);
            Next(Next(FRESH, steps[0], p, lease), steps[1], p, lease) ==
            System(OneOfEach(recipient, kind), [], [], [], [])
  {
    hide Dispatch, ClaimBatch, Decide, Finish;
  }

  lemma DispatchStep(s: System, p: RetryPolicy, lease: int)
    ensures Next(s, RunDispatch(0, 1), p, lease) == s.(rows := Dispatch(s.rows, 0, 1, lease, p.maxAttempts))
  {
    hide Dispatch;
  }

  /** Three steps make a delivery due. */
  lemma ReachDue(recipient: int, kind: string, p: RetryPolicy, lease: int)
    ensures var t := Run(FRESH, FirstSteps(recipient, kind), p, lease);
            t.rows.deliveries == [OneDue(recipient, kind)] && t.calls == []
  {
    OneDispatched(recipient, kind, p, lease);
    Prepared(recipient, kind, p, lease);
    ThreeSteps(FRESH, FirstSteps(recipient, kind), p, lease);
    DispatchStep(System(OneOfEach(recipient, kind), [], [], [], []), p, lease);
    hide Next, Dispatch, OneOfEach, Run, OneDue;
  }

  lemma {:induction false} RunConcat(s: System, a: seq<Step>, b: seq<Step>, p: RetryPolicy, lease: int)
    ensures Run(s, a + b, p, lease) == Run(Run(s, a, p, lease), b, p, lease)
  {
    hide Next;
    if b == [] {
      assert a + b == a;
    } else {
      assert (a + b)[..|a + b| - 1] == a + b[..|b| - 1];
      RunConcat(s, a, b[..|b| - 1], p, lease);
    }
  }

  /** From the empty system, some run calls the gateway for one delivery any number of times, whatever the limit. */
  lemma OverrunReached(recipient: int, kind: string, n: nat, p: RetryPolicy, lease: int) returns (steps: seq<Step>)
    ensures var t := Run(FRESH, steps, p, lease);
            |t.rows.deliveries| == 1 && t.rows.deliveries[0].attempts == n && Times(t.calls, 0) == n
  {
    ReachDue(recipient, kind, p, lease);
    var first := FirstSteps(recipient, kind);
    var t := Run(FRESH, first, p, lease);
    assert DeliveryDue(OneDue(recipient, kind), 0, lease);
    hide Next, Run, DeliveryDue, OneDue, FirstSteps;
    LateWorkersOverrun(t, 0, 0, n, p, lease);
    var rounds: seq<Step>, next :| Overrun(t, Run(t, rounds, p, lease), lease, 0, n, next);
    steps := first + rounds;
    RunConcat(FRESH, first, rounds, p, lease);
  }
}
