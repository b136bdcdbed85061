/**
  The Telegram update ledger: who may run the handler of an update, and when. Rows are kept per
  update; a row being processed may be claimed again once its claim is stale.
*/
module UpdateLedger {
  import opened Basics

  datatype Status = Processing | Completed | Failed

  datatype Row = Row(status: Status, attempts: nat, claimedAt: int, completedAt: Option<int>, error: Option<string>)

  datatype Verdict = First | Duplicate | InProgress | Again

  datatype UpdateClaim = UpdateClaim(verdict: Verdict, attempts: nat, claimedAt: int)

  type Ledger = map<int, Row>

  // --- One call of the store --------------------------------------------------------------

  predicate Stale(row: Row, now: int, staleAfter: int) { row.claimedAt <= now - staleAfter }

  function ClaimVerdict(ledger: Ledger, update: int, now: int, staleAfter: int): Verdict {
    if update !in ledger then First
    else if ledger[update].status == Completed then Duplicate
    else if ledger[update].status == Processing && !Stale(ledger[update], now, staleAfter) then InProgress
    else Again
  }

  predicate Grants(v: Verdict) { v == First || v == Again }

  function Claimed(ledger: Ledger, update: int, now: int, staleAfter: int): Ledger {
    match ClaimVerdict(ledger, update, now, staleAfter)
    case First => ledger[update := Row(Processing, 1, now, None, None)]
    case Again => ledger[update := Row(Processing, ledger[update].attempts + 1, now, None, None)]
    case _ => ledger
  }

  function Close(ledger: Ledger, update: int, status: Status, now: int, error: Option<string>): Ledger {
    if update in ledger && ledger[update].status == Processing then
      ledger[update := ledger[update].(status := status, completedAt := Some(now), error := error)]
    else ledger
  }

  predicate IsAscii(s: string) { forall c :: c in s ==> c as int < 128 }

  function SafeCode(code: string): string {
    if IsAscii(code) && |code| <= 64 then code else "internal.error"
  }

  class UpdateStore {
    var rows: Ledger

    constructor ()
      ensures rows == map[]
    {
      rows := map[];
    }

    method Claim(update: int, now: int, staleAfter: int) returns (claim: UpdateClaim)
      modifies this
      ensures rows == Claimed(old(rows), update, now, staleAfter)
      ensures claim.verdict == ClaimVerdict(old(rows), update, now, staleAfter)
      ensures update in rows && claim.attempts == rows[update].attempts && claim.claimedAt == rows[update].claimedAt
    {
      if update !in rows {
        rows := rows[update := Row(Processing, 1, now, None, None)];
        return UpdateClaim(First, 1, now);
      }
      var row := rows[update];
      if row.status == Completed {
        return UpdateClaim(Duplicate, row.attempts, row.claimedAt);
      }
      var staleBefore := now - staleAfter;
      if row.status == Processing && row.claimedAt > staleBefore {
        return UpdateClaim(InProgress, row.attempts, row.claimedAt);
      }
      row := row.(status := Processing);
      row := row.(attempts := row.attempts + 1);
      row := row.(claimedAt := now);
      row := row.(completedAt := None);
      row := row.(error := None);
      rows := rows[update := row];
      return UpdateClaim(Again, row.attempts, now);
    }

    method Complete(update: int, now: int)
      modifies this
      ensures rows == Close(old(rows), update, Completed, now, None)
    {
      if update in rows && rows[update].status == Processing {
        rows := rows[update := rows[update].(status := Completed, completedAt := Some(now), error := None)];
      }
    }

    method Fail(update: int, now: int, code: string)
      modifies this
      ensures rows == Close(old(rows), update, Failed, now, Some(SafeCode(code)))
    {
      var safe := if IsAscii(code) && |code| <= 64 then code else "internal.error";
      if update in rows && rows[update].status == Processing {
        rows := rows[update := rows[update].(status := Failed, completedAt := Some(now), error := Some(safe))];
      }
    }
  }

  // --- One call of the middleware ---------------------------------------------------------

  /** What the wrapped handler does with an update; an unknown update never reaches it. */
  datatype Handling = Unknown | Succeeds | Raises(code: string)

  datatype Reply = Skipped(verdict: Verdict) | Processed | Raised(code: string)

  /** The handler runs exactly when the claim is granted, and the ledger records how it ended. */
  method HandleUpdate(store: UpdateStore, update: int, handling: Handling, now: int, later: int, staleAfter: int)
    returns (reply: Reply, ran: bool)
    modifies store
    ensures var v := ClaimVerdict(old(store.rows), update, now, staleAfter);
            var claimed := Claimed(old(store.rows), update, now, staleAfter);
            && (ran <==> Grants(v) && !handling.Unknown?)
            && (!Grants(v) ==> reply == Skipped(v) && store.rows == old(store.rows))
            && (Grants(v) && !handling.Raises? ==>
                  reply == Processed && store.rows == Close(claimed, update, Completed, later, None))
            && (Grants(v) && handling.Raises? ==>
                  reply == Raised(handling.code) &&
                  store.rows == Close(claimed, update, Failed, later, Some(SafeCode(handling.code))))
  {
    ran := false;
    var claim := store.Claim(update, now, staleAfter);
    if claim.verdict == Duplicate || claim.verdict == InProgress {
      return Skipped(claim.verdict), ran;
    }
    if handling.Unknown? {
      store.Complete(update, later);
      return Processed, ran;
    }
    ran := true;
    if handling.Raises? {
      store.Fail(update, later, handling.code);
      return Raised(handling.code), ran;
    }
    store.Complete(update, later);
    return Processed, ran;
  }

  // --- Many workers -----------------------------------------------------------------------

  /** A worker that was granted a claim and has not yet ended. */
  datatype Running = Running(update: int, claimedAt: int)

  datatype Mark = Started(update: int) | Finished(update: int) | Broke(update: int) | Died(update: int)

  datatype System = System(ledger: Ledger, workers: map<nat, Running>, log: seq<Mark>)

  datatype Step =
    | Begin(worker: nat, update: int, now: int)
    | EndWell(worker: nat, now: int)
    | EndBadly(worker: nat, now: int, code: string)
    | Die(worker: nat, now: int)

  function Without<V>(m: map<nat, V>, k: nat): map<nat, V> { m - {k} }

  function Next(s: System, step: Step, staleAfter: int): System {
    match step
    case Begin(w, u, now) =>
      if w in s.workers then s
      else
        var ledger := Claimed(s.ledger, u, now, staleAfter);
        if Grants(ClaimVerdict(s.ledger, u, now, staleAfter))
        then System(ledger, s.workers[w := Running(u, now)], s.log + [Started(u)])
        else s.(ledger := ledger)
    case EndWell(w, now) =>
      if w !in s.workers then s
      else System(Close(s.ledger, s.workers[w].update, Completed, now, None), Without(s.workers, w),
                  s.log + [Finished(s.workers[w].update)])
    case EndBadly(w, now, code) =>
      if w !in s.workers then s
      else System(Close(s.ledger, s.workers[w].update, Failed, now, Some(SafeCode(code))), Without(s.workers, w),
                  s.log + [Broke(s.workers[w].update)])
    case Die(w, _) =>
      if w !in s.workers then s
      else s.(workers := Without(s.workers, w), log := s.log + [Died(s.workers[w].update)])
  }

  function Run(s: System, steps: seq<Step>, staleAfter: int): System {
    if steps == [] then s
    else Next(Run(s, steps[..|steps| - 1], staleAfter), steps[|steps| - 1], staleAfter)
  }

  const IDLE: System := System(map[], map[], [])

  /** Every run in progress at `now` is still within the stale period of its claim. */
  ghost predicate InTime(s: System, now: int, staleAfter: int) {
    forall w :: w in s.workers ==> s.workers[w].claimedAt <= now < s.workers[w].claimedAt + staleAfter
  }

  /** Each handler run ends or dies strictly within the stale period. */
  ghost predicate Timely(s: System, steps: seq<Step>, staleAfter: int) {
    steps == [] ||
    (Timely(s, steps[..|steps| - 1], staleAfter) &&
     InTime(Run(s, steps[..|steps| - 1], staleAfter), steps[|steps| - 1].now, staleAfter))
  }

  // --- What the log of one update may look like -------------------------------------------

  datatype Phase = Free | Busy | Done

  /**
    The state of one update after a log, or nothing if the log breaks the rules: a run starts only
    when none is in progress and none has completed, and only a run in progress ends.
  */
  function Track(log: seq<Mark>, u: int): Option<Phase> {
    if log == [] then Some(Free)
    else
      var last := log[|log| - 1];
      var before := Track(log[..|log| - 1], u);
      if last.update != u then before
      else
        match before
        case Some(Free) => if last.Started? then Some(Busy) else None
        case Some(Busy) =>
          if last.Started? then None else if last.Finished? then Some(Done) else Some(Free)
        case _ => None
  }

  /** The ledger and the workers agree with the log. */
  ghost predicate Exclusive(s: System) {
    && (forall w :: w in s.workers ==>
          var u := s.workers[w].update;
          u in s.ledger && s.ledger[u].status == Processing && s.ledger[u].claimedAt == s.workers[w].claimedAt)
    && (forall w, x :: w in s.workers && x in s.workers && s.workers[w].update == s.workers[x].update ==> w == x)
    && (forall u :: PhaseOf(s, u))
  }

  ghost predicate PhaseOf(s: System, u: int) {
    match Track(s.log, u)
    case None => false
    case Some(Free) =>
      && (u in s.ledger ==> s.ledger[u].status != Completed)
      && forall w :: w in s.workers ==> s.workers[w].update != u
    case Some(Busy) => exists w :: w in s.workers && s.workers[w].update == u
    case Some(Done) => u in s.ledger && s.ledger[u].status == Completed
  }

  lemma TrackAppend(log: seq<Mark>, m: Mark, u: int)
    ensures (log + [m])[..|log|] == log
    ensures m.update != u ==> Track(log + [m], u) == Track(log, u)
  {
    assert (log + [m])[..|log|] == log;
  }

  lemma BeginKeeps(s: System, w: nat, u: int, now: int, staleAfter: int)
    requires Exclusive(s) && InTime(s, now, staleAfter)
    ensures Exclusive(Next(s, Begin(w, u, now), staleAfter))
  {
    var s' := Next(s, Begin(w, u, now), staleAfter);
    if w !in s.workers && Grants(ClaimVerdict(s.ledger, u, now, staleAfter)) {
      assert PhaseOf(s, u);
      assert forall x :: x in s.workers ==> s.workers[x].update != u;
      assert Track(s.log, u) == Some(Free);
      forall v ensures PhaseOf(s', v) {
        TrackAppend(s.log, Started(u), v);
        assert PhaseOf(s, v);
        if v == u {
          assert w in s'.workers && s'.workers[w].update == u;
        } else if Track(s.log, v) == Some(Busy) {
          var x :| x in s.workers && s.workers[x].update == v;
          assert x in s'.workers && s'.workers[x].update == v;
        }
      }
    } else {
      forall v ensures PhaseOf(s', v) {
        assert PhaseOf(s, v);
      }
    }
  }

  /** Any way a run can end. */
  lemma EndKeeps(s: System, step: Step, staleAfter: int)
    requires Exclusive(s) && !step.Begin?
    ensures Exclusive(Next(s, step, staleAfter))
  {
    var s' := Next(s, step, staleAfter);
    var w := step.worker;
    if w in s.workers {
      var u := s.workers[w].update;
      assert PhaseOf(s, u);
      assert Track(s.log, u) == Some(Busy);
      forall v ensures PhaseOf(s', v) {
        TrackAppend(s.log, s'.log[|s.log|], v);
        assert PhaseOf(s, v);
        if v != u && Track(s.log, v) == Some(Busy) {
          var x :| x in s.workers && s.workers[x].update == v;
          assert x in s'.workers && s'.workers[x].update == v;
        }
      }
    }
  }

  lemma {:induction false} TimelyRunsAreExclusive(s: System, steps: seq<Step>, staleAfter: int)
    requires Exclusive(s) && Timely(s, steps, staleAfter)
    ensures Exclusive(Run(s, steps, staleAfter))
  {
    if steps != [] {
      var last := steps[|steps| - 1];
      TimelyRunsAreExclusive(s, steps[..|steps| - 1], staleAfter);
      if last.Begin? {
        BeginKeeps(Run(s, steps[..|steps| - 1], staleAfter), last.worker, last.update, last.now, staleAfter);
      } else {
        EndKeeps(Run(s, steps[..|steps| - 1], staleAfter), last, staleAfter);
      }
    }
  }

  /**
    Over any interleaving of workers, if every handler run ends or dies strictly within the stale
    period: no two runs of one update overlap, at most one ends well, and after that the update is
    never handed out again.
  */
  lemma LedgerExclusion(steps: seq<Step>, staleAfter: int, u: int)
    requires Timely(IDLE, steps, staleAfter)
    ensures Track(Run(IDLE, steps, staleAfter).log, u).Some?
    ensures Track(Run(IDLE, steps, staleAfter).log, u) == Some(Done) ==>
              forall now :: ClaimVerdict(Run(IDLE, steps, staleAfter).ledger, u, now, staleAfter) == Duplicate
  {
    assert Exclusive(IDLE);
    TimelyRunsAreExclusive(IDLE, steps, staleAfter);
    assert PhaseOf(Run(IDLE, steps, staleAfter), u);
  }

  // --- What the ledger records ------------------------------------------------------------

  /** How often a run of the update was started. */
  function Starts(log: seq<Mark>, u: int): nat {
    if log == [] then 0
    else Starts(log[..|log| - 1], u) + if log[|log| - 1] == Started(u) then 1 else 0
  }

  /** A row's number of attempts is the number of runs started, and its times and error fit its status. */
  ghost predicate RowFits(ledger: Ledger, u: int, starts: nat) {
    if u in ledger then
      var row := ledger[u];
      && row.attempts == starts >= 1
      && (row.status == Processing ==> row.completedAt == None && row.error == None)
      && (row.status == Completed ==> row.completedAt.Some? && row.error == None)
      && (row.status == Failed ==>
            row.completedAt.Some? && row.error.Some? && |row.error.value| <= 64 && IsAscii(row.error.value))
    else starts == 0
  }

  lemma StartsAppend(log: seq<Mark>, m: Mark, u: int)
    ensures Starts(log + [m], u) == Starts(log, u) + if m == Started(u) then 1 else 0
  {
    assert (log + [m])[..|log|] == log;
  }

  lemma ClaimFits(ledger: Ledger, v: int, now: int, staleAfter: int, u: int, starts: nat)
    requires RowFits(ledger, u, starts)
    ensures var started := Grants(ClaimVerdict(ledger, v, now, staleAfter)) && v == u;
            RowFits(Claimed(ledger, v, now, staleAfter), u, starts + if started then 1 else 0)
  {
    hide IsAscii, Stale;
  }

  lemma CloseFits(ledger: Ledger, v: int, now: int, code: string, u: int, starts: nat)
    requires RowFits(ledger, u, starts)
    ensures RowFits(Close(ledger, v, Completed, now, None), u, starts)
    ensures RowFits(Close(ledger, v, Failed, now, Some(SafeCode(code))), u, starts)
  {
    assert |SafeCode(code)| <= 64 && IsAscii(SafeCode(code));
    hide SafeCode, IsAscii;
  }

  lemma StepRecords(s: System, step: Step, staleAfter: int, u: int)
    requires RowFits(s.ledger, u, Starts(s.log, u))
    ensures var t := Next(s, step, staleAfter); RowFits(t.ledger, u, Starts(t.log, u))
  {
    hide RowFits, Starts, Close, Claimed, ClaimVerdict;
    var t := Next(s, step, staleAfter);
    if t.log != s.log {
      StartsAppend(s.log, t.log[|s.log|], u);
    }
    match step
    case Begin(_, v, now) => ClaimFits(s.ledger, v, now, staleAfter, u, Starts(s.log, u));
    case EndWell(w, now) =>
      if w in s.workers {
        CloseFits(s.ledger, s.workers[w].update, now, "", u, Starts(s.log, u));
      }
    case EndBadly(w, now, code) =>
      if w in s.workers {
        CloseFits(s.ledger, s.workers[w].update, now, code, u, Starts(s.log, u));
      }
    case Die(_, _) =>
  }

  /**
    Over any interleaving, timely or not: an update has a row exactly once a run of it was started, the
    row counts every run ever started, and a row at rest tells when and how its last run ended.
  */
  lemma {:induction false} LedgerCounts(steps: seq<Step>, staleAfter: int, u: int)
    ensures var s := Run(IDLE, steps, staleAfter); RowFits(s.ledger, u, Starts(s.log, u))
  {
    if steps != [] {
      hide Next, RowFits;
      LedgerCounts(steps[..|steps| - 1], staleAfter, u);
      StepRecords(Run(IDLE, steps[..|steps| - 1], staleAfter), steps[|steps| - 1], staleAfter, u);
    } else {
      assert Starts(IDLE.log, u) == 0;
    }
  }

  /** Ending a run well or badly marks a row in progress with the time and the bounded error, and no other row. */
  lemma EndMeaning(s: System, w: nat, now: int, code: string, staleAfter: int)
    requires w in s.workers
    ensures var u := s.workers[w].update;
            var well, badly := Next(s, EndWell(w, now), staleAfter), Next(s, EndBadly(w, now, code), staleAfter);
            && (forall v :: v in s.ledger && v != u ==>
                  && v in well.ledger && well.ledger[v] == s.ledger[v]
                  && v in badly.ledger && badly.ledger[v] == s.ledger[v])
            && (u in s.ledger && s.ledger[u].status == Processing ==>
                  && u in well.ledger && u in badly.ledger
                  && var row, a, b := s.ledger[u], well.ledger[u], badly.ledger[u];
                  && a.status == Completed && a.completedAt == Some(now) && a.error == None
                  && b.status == Failed && b.completedAt == Some(now)
                  && b.error == Some(if |code| <= 64 && IsAscii(code) then code else "internal.error")
                  && a.attempts == b.attempts == row.attempts && a.claimedAt == b.claimedAt == row.claimedAt)
            && w !in well.workers && w !in badly.workers
  {
  }

  /** A completed update stays completed whatever happens, timely or not. */
  lemma CompletedIsFinal(s: System, step: Step, staleAfter: int, u: int)
    requires u in s.ledger && s.ledger[u].status == Completed
    ensures u in Next(s, step, staleAfter).ledger && Next(s, step, staleAfter).ledger[u] == s.ledger[u]
  {
  }

  /** A second run of an update in progress is granted exactly from the end of the stale period on. */
  lemma OverlapIff(s: System, w: nat, now: int, staleAfter: int)
    requires Exclusive(s) && w in s.workers
    ensures Grants(ClaimVerdict(s.ledger, s.workers[w].update, now, staleAfter)) <==>
            s.workers[w].claimedAt + staleAfter <= now
  {
    assert PhaseOf(s, s.workers[w].update);
  }

  /** The time bound is needed: a run that lasts exactly the stale period is overlapped by a second one. */
  lemma LateRunsOverlap(staleAfter: int, u: int)
    requires 0 < staleAfter
    ensures var steps := [Begin(0, u, 0), Begin(1, u, staleAfter)];
            Track(Run(IDLE, steps, staleAfter).log, u).None?
  {
    var steps := [Begin(0, u, 0), Begin(1, u, staleAfter)];
    var one := steps[..1];
    assert one[..0] == [] && one[0] == steps[0];
    assert Run(IDLE, [], staleAfter) == IDLE;
    var s1 := Run(IDLE, one, staleAfter);
    assert s1 == Next(IDLE, steps[0], staleAfter);
    assert s1.log == [Started(u)];
    var s2 := Run(IDLE, steps, staleAfter);
    assert s2 == Next(s1, steps[1], staleAfter);
    assert s2.log == [Started(u)] + [Started(u)];
    TrackAppend([], Started(u), u);
    TrackAppend([Started(u)], Started(u), u);
    assert [] + [Started(u)] == [Started(u)];
  }
}
