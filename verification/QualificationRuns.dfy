/** What every run of the qualification store keeps, and how many answers a session needs. */
module QualificationRuns {
  import opened Basics
  import opened Qualification

  /**
    One transaction of the store, with the guard its caller puts in front. Every application operation
    is a sequence of these, so any interleaving of operations is a run; only an edit is one step.
  */
  datatype Call =
    | StartCall(identity: int, schema: Schema, now: int, conversationOpen: bool)
    | ActiveCall(identity: int, now: int)
    | ConsentCall(identity: int, id: nat, decision: Decision, now: int, key: string)
    | AnswerCall(identity: int, id: nat, field: string, answer: string, key: string)
    | EditCall(identity: int, id: nat, field: string, now: int)
    | CompleteCall(identity: int, id: nat, lead: int, settles: bool, key: string)
    | CancelCall(identity: int)

  /** Submission goes on to the store only for a session whose consent time was read. */
  predicate MayComplete(s: State, id: nat) { id < |s.sessions| ==> s.sessions[id].consentAt.Some? }

  function Apply(s: State, call: Call): State {
    match call
    case StartCall(identity, schema, now, conversationOpen) => Start(s, identity, schema, now, conversationOpen).state
    case ActiveCall(identity, now) => Active(s, identity, now).0
    case ConsentCall(identity, id, decision, now, key) => DecideConsent(s, identity, id, decision, now, key).state
    case AnswerCall(identity, id, field, answer, key) => RecordAnswer(s, identity, id, field, answer, key).state
    case EditCall(identity, id, field, now) => Edit(s, identity, id, field, now).state
    case CompleteCall(identity, id, lead, settles, key) =>
      if MayComplete(s, id) then Complete(s, identity, id, lead, settles, key).state else s
    case CancelCall(identity) => Cancel(s, identity).0
  }

  function Run(s: State, calls: seq<Call>): State {
    if calls == [] then s else Apply(Run(s, calls[..|calls| - 1]), calls[|calls| - 1])
  }

  const EMPTY: State := State([], map[], map[], [])

  // --- The invariant ----------------------------------------------------------------------

  ghost predicate SessionOk(row: Session) {
    && (row.decision.Some? <==> row.consentAt.Some?)
    && (row.status == Declined <==> row.decision == Some(Refused))
    && (row.status == AwaitingConsent ==> row.decision == None && row.answers == map[])
    && (row.status == InProgress <==> row.current.Some?)
    && (row.current.Some? ==> row.schema.HasKey(row.current.value))
    && (row.status == Reviewing || row.status == Completed ==> row.NextMissing() == None)
    && (row.status == Completed ==> row.decision == Some(Accepted) && row.lead.Some?)
    && (forall key :: key in row.answers ==> row.schema.HasKey(key))
  }

  ghost predicate OneActive(sessions: seq<Session>) {
    forall i, j :: 0 <= i < j < |sessions| && sessions[i].IsActive() && sessions[j].IsActive() ==>
      sessions[i].identity != sessions[j].identity
  }

  /** One consent on file per decided session, one lead event per completed session, and keys of known sessions. */
  ghost predicate RecordsOk(s: State) {
    && (forall id: nat :: id in s.consents <==> id < |s.sessions| && s.sessions[id].decision.Some?)
    && (forall id: nat :: id in s.consents ==> s.sessions[id].decision == Some(s.consents[id]))
    && (forall id: nat :: id in s.events <==> id < |s.sessions| && s.sessions[id].status == Completed)
    && (forall i, j :: 0 <= i < j < |s.events| ==> s.events[i] != s.events[j])
    && (forall key :: key in s.updates ==> s.updates[key] < |s.sessions|)
  }

  ghost predicate Inv(s: State) {
    && (forall id :: 0 <= id < |s.sessions| ==> SessionOk(s.sessions[id]))
    && OneActive(s.sessions)
    && RecordsOk(s)
  }

  /** Sessions stay in place, a terminal session is never touched again, and keys are never forgotten. */
  ghost predicate Later(s: State, t: State) {
    && |s.sessions| <= |t.sessions|
    && (forall id :: 0 <= id < |s.sessions| && s.sessions[id].IsTerminal() ==> t.sessions[id] == s.sessions[id])
    && (forall id :: 0 <= id < |s.sessions| ==> t.sessions[id].schema == s.sessions[id].schema
                                                && t.sessions[id].identity == s.sessions[id].identity)
    && (forall key :: key in s.updates ==> key in t.updates && t.updates[key] == s.updates[key])
  }

  /** Replacing one active session by a sound one that does not become active anew. */
  lemma ReplaceKeeps(s: State, id: nat, row: Session)
    requires Inv(s) && id < |s.sessions| && s.sessions[id].IsActive()
    requires SessionOk(row) && row.identity == s.sessions[id].identity && row.schema == s.sessions[id].schema
    requires row.decision == s.sessions[id].decision && row.status != Completed
    ensures Inv(With(s, id, row)) && Later(s, With(s, id, row))
  {
    hide SessionOk;
  }

  lemma ActiveKeeps(s: State, identity: int, now: int)
    requires Inv(s)
    ensures Inv(Active(s, identity, now).0) && Later(s, Active(s, identity, now).0)
  {
    var found := FindActive(s.sessions, identity);
    if found.Some? {
      ReplaceKeeps(s, found.value, s.sessions[found.value].Ended(Expired));
    }
  }

  lemma CancelKeeps(s: State, identity: int)
    requires Inv(s)
    ensures Inv(Cancel(s, identity).0) && Later(s, Cancel(s, identity).0)
  {
    var found := FindActive(s.sessions, identity);
    if found.Some? {
      ReplaceKeeps(s, found.value, s.sessions[found.value].Ended(Cancelled));
    }
  }

  lemma AppendKeeps(s: State, identity: int, schema: Schema, now: int)
    requires Inv(s)
    requires forall i :: 0 <= i < |s.sessions| ==> !(s.sessions[i].IsActive() && s.sessions[i].identity == identity)
    ensures var t := s.(sessions := s.sessions + [NewSession(identity, schema, now)]); Inv(t) && Later(s, t)
  {
    hide SessionOk;
    assert SessionOk(NewSession(identity, schema, now)) by {
      FreshSessionOk(identity, schema, now);
    }
  }

  lemma FreshSessionOk(identity: int, schema: Schema, now: int)
    ensures SessionOk(NewSession(identity, schema, now))
  {
  }

  lemma StartKeeps(s: State, identity: int, schema: Schema, now: int, conversationOpen: bool)
    requires Inv(s)
    ensures var t := Start(s, identity, schema, now, conversationOpen).state; Inv(t) && Later(s, t)
  {
    var found := FindActive(s.sessions, identity);
    if found.Some? {
      if s.sessions[found.value].expiresAt <= now && conversationOpen {
        ReplaceKeeps(s, found.value, s.sessions[found.value].Ended(Expired));
        AppendKeeps(With(s, found.value, s.sessions[found.value].Ended(Expired)), identity, schema, now);
      }
    } else if conversationOpen {
      AppendKeeps(s, identity, schema, now);
    }
  }

  lemma FirstMissingIsField(schema: Schema, answers: map<string, string>)
    ensures var missing := FirstMissing(schema.fields, answers); missing.Some? ==> schema.HasKey(missing.value)
  {
  }

  lemma DecidedRowOk(row: Session, decision: Decision, now: int)
    requires SessionOk(row) && row.status == AwaitingConsent
    ensures SessionOk(Decided(row, decision, now))
  {
    FirstMissingIsField(row.schema, map[]);
    match decision
    case Accepted =>
    case Refused =>
  }

  /** Putting a new key on record for a known session. */
  lemma KeyKeeps(s: State, t: State, id: nat, key: string)
    requires Inv(t) && Later(s, t) && id < |t.sessions| && key !in s.updates && s.updates == t.updates
    ensures var u := t.(updates := t.updates[key := id]); Inv(u) && Later(s, u)
  {
    hide SessionOk, OneActive;
  }

  lemma ConsentOnFile(s: State, id: nat, row: Session, decision: Decision)
    requires Inv(s) && id < |s.sessions| && s.sessions[id].IsActive() && s.sessions[id].decision == None
    requires SessionOk(row) && row.identity == s.sessions[id].identity && row.schema == s.sessions[id].schema
    requires row.decision == Some(decision) && row.status != Completed
    ensures var t := With(s, id, row).(consents := s.consents[id := decision]); Inv(t) && Later(s, t)
  {
    hide SessionOk;
    var t := With(s, id, row).(consents := s.consents[id := decision]);
    assert OneActive(t.sessions);
    hide OneActive;
    assert RecordsOk(t);
  }

  lemma ConsentKeeps(s: State, identity: int, id: nat, decision: Decision, now: int, key: string)
    requires Inv(s)
    ensures var t := DecideConsent(s, identity, id, decision, now, key).state; Inv(t) && Later(s, t)
  {
    if Owned(s, identity, id) && Repeat(s, id, key).None? && s.sessions[id].status == AwaitingConsent {
      assert SessionOk(s.sessions[id]);
      DecidedRowOk(s.sessions[id], decision, now);
      var row := Decided(s.sessions[id], decision, now);
      ConsentOnFile(s, id, row, decision);
      hide SessionOk, OneActive, RecordsOk, Later, Inv;
      KeyKeeps(s, With(s, id, row).(consents := s.consents[id := decision]), id, key);
    }
  }

  lemma AnsweredRowOk(row: Session, field: string, answer: string)
    requires SessionOk(row) && row.status == InProgress && row.current == Some(field)
    ensures SessionOk(Answered(row, field, answer))
  {
    FirstMissingIsField(row.schema, row.answers[field := answer]);
  }

  lemma AnswerKeeps(s: State, identity: int, id: nat, field: string, answer: string, key: string)
    requires Inv(s)
    ensures var t := RecordAnswer(s, identity, id, field, answer, key).state; Inv(t) && Later(s, t)
  {
    if Owned(s, identity, id) && Repeat(s, id, key).None? {
      if s.sessions[id].status == InProgress && s.sessions[id].current == Some(field) {
        var row := Answered(s.sessions[id], field, answer);
        assert SessionOk(s.sessions[id]);
        AnsweredRowOk(s.sessions[id], field, answer);
        hide SessionOk, OneActive, RecordsOk, FirstMissing;
        ReplaceKeeps(s, id, row);
        hide Later, Inv;
        KeyKeeps(s, With(s, id, row), id, key);
      }
    }
  }

  lemma EditKeeps(s: State, identity: int, id: nat, field: string, now: int)
    requires Inv(s)
    ensures var t := Edit(s, identity, id, field, now).state; Inv(t) && Later(s, t)
  {
    var (t, active) := Active(s, identity, now);
    ActiveKeeps(s, identity, now);
    if active.Some? && t.sessions[active.value].schema.HasKey(field) && active.value == id {
      ReplaceKeeps(t, id, t.sessions[id].(status := InProgress, current := Some(field)));
    }
  }

  lemma ConsentGiven(row: Session)
    requires SessionOk(row) && row.status != Declined && row.consentAt.Some?
    ensures row.decision == Some(Accepted)
  {
    match row.decision.value
    case Accepted =>
    case Refused =>
  }

  lemma LeadOnFile(s: State, id: nat, row: Session)
    requires Inv(s) && id < |s.sessions| && s.sessions[id].IsActive()
    requires SessionOk(row) && row.identity == s.sessions[id].identity && row.schema == s.sessions[id].schema
    requires row.decision == s.sessions[id].decision && row.status == Completed
    ensures var t := With(s, id, row).(events := s.events + [id]); Inv(t) && Later(s, t)
  {
    hide SessionOk;
    assert id !in s.events;
    var t := With(s, id, row).(events := s.events + [id]);
    assert OneActive(t.sessions);
    hide OneActive;
    assert RecordsOk(t);
  }

  lemma CompleteKeeps(s: State, identity: int, id: nat, lead: int, settles: bool, key: string)
    requires Inv(s) && MayComplete(s, id)
    ensures var t := Complete(s, identity, id, lead, settles, key).state; Inv(t) && Later(s, t)
  {
    if Owned(s, identity, id) && Repeat(s, id, key).None? && s.sessions[id].status == Reviewing && settles {
      var row := s.sessions[id].(status := Completed, lead := Some(lead));
      assert SessionOk(s.sessions[id]);
      ConsentGiven(s.sessions[id]);
      LeadOnFile(s, id, row);
      hide SessionOk, OneActive, RecordsOk, Later, Inv;
      KeyKeeps(s, With(s, id, row).(events := s.events + [id]), id, key);
    }
  }

  lemma StepKeeps(s: State, call: Call)
    requires Inv(s)
    ensures Inv(Apply(s, call)) && Later(s, Apply(s, call))
  {
    hide Inv, Later, Start, Active, DecideConsent, RecordAnswer, Edit, Complete, Cancel;
    match call
    case StartCall(identity, schema, now, conversationOpen) => StartKeeps(s, identity, schema, now, conversationOpen);
    case ActiveCall(identity, now) => ActiveKeeps(s, identity, now);
    case ConsentCall(identity, id, decision, now, key) => ConsentKeeps(s, identity, id, decision, now, key);
    case AnswerCall(identity, id, field, answer, key) => AnswerKeeps(s, identity, id, field, answer, key);
    case EditCall(identity, id, field, now) => EditKeeps(s, identity, id, field, now);
    case CompleteCall(identity, id, lead, settles, key) =>
      if MayComplete(s, id) {
        CompleteKeeps(s, identity, id, lead, settles, key);
      } else {
        LaterSame(s);
      }
    case CancelCall(identity) => CancelKeeps(s, identity);
  }

  lemma LaterSame(s: State)
    ensures Later(s, s)
  {
  }

  lemma LaterTransitive(s: State, t: State, u: State)
    requires Later(s, t) && Later(t, u)
    ensures Later(s, u)
  {
  }

  lemma {:induction false} RunKeeps(s: State, calls: seq<Call>)
    requires Inv(s)
    ensures Inv(Run(s, calls)) && Later(s, Run(s, calls))
  {
    hide Inv, Later, Apply;
    if calls == [] {
      LaterSame(s);
    } else {
      var t := Run(s, calls[..|calls| - 1]);
      RunKeeps(s, calls[..|calls| - 1]);
      StepKeeps(t, calls[|calls| - 1]);
      LaterTransitive(s, t, Run(s, calls));
    }
  }

  // --- Safety over whole runs -------------------------------------------------------------

  lemma EmptyOk()
    ensures Inv(EMPTY)
  {
  }

  /**
    In every reachable state: a session in review misses no required answer; a completed one was
    consented to, with that consent on file, and has exactly one lead event; an identity has at most
    one active session.
  */
  lemma EveryRunIsSound(calls: seq<Call>, id: nat)
    requires id < |Run(EMPTY, calls).sessions|
    ensures var s := Run(EMPTY, calls);
            var row := s.sessions[id];
            && (row.status == Reviewing ==>
                  forall i :: 0 <= i < |row.schema.fields| && row.schema.fields[i].required ==>
                    row.schema.fields[i].key in row.answers)
            && (row.status == Completed ==> id in s.consents && s.consents[id] == Accepted && row.consentAt.Some?)
            && multiset(s.events)[id] == (if row.status == Completed then 1 else 0)
            && forall other ::
                 0 <= other < |s.sessions| && other != id && row.IsActive() && s.sessions[other].IsActive() ==>
                 s.sessions[other].identity != row.identity
  {
    EmptyOk();
    RunKeeps(EMPTY, calls);
    var s := Run(EMPTY, calls);
    hide Run;
    assert SessionOk(s.sessions[id]);
    CountOnce(s.events, id);
  }

  lemma {:induction false} CountOnce(s: seq<nat>, x: nat)
    requires forall i, j :: 0 <= i < j < |s| ==> s[i] != s[j]
    ensures multiset(s)[x] == if x in s then 1 else 0
  {
    if s != [] {
      var init, last := s[..|s| - 1], s[|s| - 1];
      assert s == init + [last];
      CountOnce(init, x);
    }
  }

  /** Completed, declined, cancelled and expired are never left: the row stays exactly as it is. */
  lemma TerminalForever(before: seq<Call>, later: seq<Call>, id: nat)
    requires id < |Run(EMPTY, before).sessions| && Run(EMPTY, before).sessions[id].IsTerminal()
    ensures var t := Run(Run(EMPTY, before), later);
            id < |t.sessions| && t.sessions[id] == Run(EMPTY, before).sessions[id]
  {
    EmptyOk();
    RunKeeps(EMPTY, before);
    RunKeeps(Run(EMPTY, before), later);
  }

  /** The key of a call that is recorded by key, with the session it is for. */
  function KeyOf(call: Call): Option<(nat, string)> {
    match call
    case ConsentCall(_, id, _, _, key) => Some((id, key))
    case AnswerCall(_, id, _, _, key) => Some((id, key))
    case CompleteCall(_, id, _, _, key) => Some((id, key))
    case _ => None
  }

  /** Once a key is on record, every later consent, answer or submission under it changes nothing. */
  lemma RepeatedKeyChangesNothing(before: seq<Call>, later: seq<Call>, call: Call)
    requires KeyOf(call).Some? && KeyOf(call).value.1 in Run(EMPTY, before).updates
    ensures var t := Run(Run(EMPTY, before), later); Apply(t, call) == t
  {
    EmptyOk();
    RunKeeps(EMPTY, before);
    RunKeeps(Run(EMPTY, before), later);
  }

  // --- How many answers a session needs ---------------------------------------------------

  function MissingCount(fields: seq<Field>, answers: map<string, string>): nat {
    if fields == [] then 0
    else (if fields[0].required && fields[0].key !in answers then 1 else 0) + MissingCount(fields[1..], answers)
  }

  ghost predicate DistinctFields(fields: seq<Field>) {
    forall i, j :: 0 <= i < j < |fields| ==> fields[i].key != fields[j].key
  }

  lemma {:induction false} NoneMissing(fields: seq<Field>, answers: map<string, string>)
    ensures FirstMissing(fields, answers).None? <==> MissingCount(fields, answers) == 0
  {
    if fields != [] {
      NoneMissing(fields[1..], answers);
    }
  }

  /** Answering another question leaves the count of fields without that key alone. */
  lemma {:induction false} SameCount(fields: seq<Field>, answers: map<string, string>, key: string, answer: string)
    requires forall i :: 0 <= i < |fields| ==> fields[i].key != key
    ensures MissingCount(fields, answers[key := answer]) == MissingCount(fields, answers)
  {
    if fields != [] {
      SameCount(fields[1..], answers, key, answer);
    }
  }

  lemma {:induction false} AnswerLowers(fields: seq<Field>, answers: map<string, string>, answer: string)
    requires DistinctFields(fields) && FirstMissing(fields, answers).Some?
    ensures MissingCount(fields, answers[FirstMissing(fields, answers).value := answer]) ==
            MissingCount(fields, answers) - 1
  {
    var key := FirstMissing(fields, answers).value;
    if fields[0].required && fields[0].key !in answers {
      SameCount(fields[1..], answers, key, answer);
    } else {
      AnswerLowers(fields[1..], answers, answer);
    }
  }

  predicate IsEdit(call: Call, id: nat) { call.EditCall? && call.id == id }

  /** Answers come in the order of the required fields, after consent, one for each. */
  ghost predicate OnTrack(row: Session) {
    && (row.status == InProgress ==> row.decision == Some(Accepted) && row.current == row.NextMissing())
    && |row.answers| + MissingCount(row.schema.fields, row.answers) == MissingCount(row.schema.fields, map[])
  }

  lemma AnswerOnTrack(s: State, identity: int, id: nat, field: string, answer: string, key: string)
    requires id < |s.sessions| && OnTrack(s.sessions[id])
    ensures OnTrack(RecordAnswer(s, identity, id, field, answer, key).state.sessions[id])
  {
    var row := s.sessions[id];
    if Owned(s, identity, id) && Repeat(s, id, key).None? && row.status == InProgress && row.current == Some(field) {
      AnswerLowers(row.schema.fields, row.answers, answer);
      assert row.answers[field := answer].Keys == row.answers.Keys + {field};
    }
  }

  /** A change that records no answer and puts no session in progress. */
  ghost predicate Quiet(row: Session, next: Session) {
    next.answers == row.answers && next.schema == row.schema && (next.status == InProgress ==> next == row)
  }

  lemma ActiveIsQuiet(s: State, identity: int, now: int, id: nat)
    requires id < |s.sessions|
    ensures var t := Active(s, identity, now).0; id < |t.sessions| && Quiet(s.sessions[id], t.sessions[id])
  {
  }

  lemma QuietStep(s: State, call: Call, id: nat)
    requires id < |s.sessions| && !call.AnswerCall? && !call.ConsentCall? && !IsEdit(call, id)
    ensures id < |Apply(s, call).sessions| && Quiet(s.sessions[id], Apply(s, call).sessions[id])
  {
    hide FirstMissing, MissingCount;
    match call
    case ActiveCall(identity, now) => ActiveIsQuiet(s, identity, now, id);
    case EditCall(identity, other, field, now) =>
      ActiveIsQuiet(s, identity, now, id);
      hide Active;
    case _ =>
  }

  lemma ConsentOnTrack(s: State, identity: int, id: nat, decision: Decision, now: int, key: string, watched: nat)
    requires watched < |s.sessions| && OnTrack(s.sessions[watched]) && SessionOk(s.sessions[watched])
    ensures var t := DecideConsent(s, identity, id, decision, now, key).state;
            watched < |t.sessions| && OnTrack(t.sessions[watched])
  {
    hide FirstMissing, MissingCount;
  }

  lemma StepOnTrack(s: State, call: Call, id: nat)
    requires id < |s.sessions| && OnTrack(s.sessions[id]) && SessionOk(s.sessions[id]) && !IsEdit(call, id)
    ensures id < |Apply(s, call).sessions| && OnTrack(Apply(s, call).sessions[id])
  {
    match call
    case AnswerCall(identity, other, field, answer, key) =>
      if other == id {
        AnswerOnTrack(s, identity, id, field, answer, key);
      }
    case ConsentCall(identity, other, decision, now, key) =>
      ConsentOnTrack(s, identity, other, decision, now, key, id);
    case _ =>
      QuietStep(s, call, id);
      hide Apply, FirstMissing, MissingCount, SessionOk;
  }

  lemma NewOnTrack(s: State, call: Call)
    requires |s.sessions| < |Apply(s, call).sessions|
    ensures |Apply(s, call).sessions| == |s.sessions| + 1 && OnTrack(Apply(s, call).sessions[|s.sessions|])
  {
  }

  lemma RunOk(calls: seq<Call>, id: nat)
    requires id < |Run(EMPTY, calls).sessions|
    ensures SessionOk(Run(EMPTY, calls).sessions[id])
  {
    EmptyOk();
    RunKeeps(EMPTY, calls);
  }

  ghost predicate EditFree(calls: seq<Call>, id: nat) {
    forall i :: 0 <= i < |calls| ==> !IsEdit(calls[i], id)
  }

  lemma EditFreeSplit(calls: seq<Call>, id: nat)
    requires calls != [] && EditFree(calls, id)
    ensures EditFree(calls[..|calls| - 1], id) && !IsEdit(calls[|calls| - 1], id)
  {
  }

  lemma RunLast(s: State, calls: seq<Call>)
    requires calls != []
    ensures Run(s, calls) == Apply(Run(s, calls[..|calls| - 1]), calls[|calls| - 1])
  {
    hide Apply;
  }

  lemma TrackGoesOn(s: State, call: Call, id: nat)
    requires Inv(s) && !IsEdit(call, id) && id < |Apply(s, call).sessions|
    requires id < |s.sessions| ==> OnTrack(s.sessions[id])
    ensures OnTrack(Apply(s, call).sessions[id])
  {
    hide OnTrack, Apply, SessionOk, IsEdit;
    if id < |s.sessions| {
      StepOnTrack(s, call, id);
    } else {
      NewOnTrack(s, call);
    }
  }

  lemma {:induction false} EditFreeOnTrack(calls: seq<Call>, id: nat)
    requires id < |Run(EMPTY, calls).sessions| && EditFree(calls, id)
    ensures OnTrack(Run(EMPTY, calls).sessions[id])
  {
    if calls != [] {
      var init, last := calls[..|calls| - 1], calls[|calls| - 1];
      EditFreeSplit(calls, id);
      EmptyOk();
      hide OnTrack, Apply, IsEdit, EditFree, Run, Inv;
      RunLast(EMPTY, calls);
      RunKeeps(EMPTY, init);
      if id < |Run(EMPTY, init).sessions| {
        EditFreeOnTrack(init, id);
      }
      TrackGoesOn(Run(EMPTY, init), last, id);
    }
  }

  /**
    Without edits of a session, its answers and its missing required fields always add up to the
    schema's required fields: while in progress it has fewer answers than those and expects the next
    missing field, and it is in review after exactly one answer for each, never earlier or later.
  */
  lemma AnswersNeeded(calls: seq<Call>, id: nat)
    requires id < |Run(EMPTY, calls).sessions| && EditFree(calls, id)
    ensures var row := Run(EMPTY, calls).sessions[id];
            var needed := MissingCount(row.schema.fields, map[]);
            && (row.status == InProgress ==>
               row.decision == Some(Accepted) && |row.answers| < needed && row.current == row.NextMissing())
            && (row.status == Reviewing || row.status == Completed ==> |row.answers| == needed)
            && |row.answers| <= needed
  {
    RunOk(calls, id);
    EditFreeOnTrack(calls, id);
    hide Run;
    var row := Run(EMPTY, calls).sessions[id];
    NoneMissing(row.schema.fields, row.answers);
  }

  /** In such a run an answer to the current question, under a new key, is taken and is one step towards review. */
  lemma AnswerAdvances(calls: seq<Call>, id: nat, answer: string, key: string)
    requires id < |Run(EMPTY, calls).sessions| && EditFree(calls, id)
    requires Run(EMPTY, calls).sessions[id].status == InProgress && key !in Run(EMPTY, calls).updates
    ensures Run(EMPTY, calls).sessions[id].NextMissing().Some?
    ensures var s := Run(EMPTY, calls);
            var row := s.sessions[id];
            var next := RecordAnswer(s, row.identity, id, row.NextMissing().value, answer, key);
            && next.reply == Ok(id)
            && |next.state.sessions[id].answers| == |row.answers| + 1
            && (next.state.sessions[id].status == Reviewing <==>
               |row.answers| + 1 == MissingCount(row.schema.fields, map[]))
  {
    var s := Run(EMPTY, calls);
    RunOk(calls, id);
    EditFreeOnTrack(calls, id);
    hide Run;
    var row := s.sessions[id];
    var field := row.NextMissing().value;
    AnswerLowers(row.schema.fields, row.answers, answer);
    NoneMissing(row.schema.fields, row.answers[field := answer]);
    assert row.answers[field := answer].Keys == row.answers.Keys + {field};
  }

  // --- Editing before consent ---------------------------------------------------------------

  /** A session that was moved on without a decision about consent. */
  predicate Unconsented(row: Session) { row.decision == None && row.status != AwaitingConsent }

  lemma UnconsentedActive(s: State, identity: int, now: int, id: nat)
    requires id < |s.sessions| && Unconsented(s.sessions[id])
    ensures var t := Active(s, identity, now).0; id < |t.sessions| && Unconsented(t.sessions[id])
  {
  }

  lemma UnconsentedReview(s: State, identity: int, other: nat, edit: Option<string>, id: nat)
    requires id < |s.sessions| && Unconsented(s.sessions[id])
    ensures var t := Review(s, identity, other, edit).state; id < |t.sessions| && Unconsented(t.sessions[id])
  {
  }

  lemma UnconsentedStart(s: State, identity: int, schema: Schema, now: int, conversationOpen: bool, id: nat)
    requires id < |s.sessions| && Unconsented(s.sessions[id])
    ensures var t := Start(s, identity, schema, now, conversationOpen).state;
            id < |t.sessions| && Unconsented(t.sessions[id])
  {
  }

  lemma UnconsentedStep(s: State, call: Call, id: nat)
    requires id < |s.sessions| && Unconsented(s.sessions[id])
    ensures id < |Apply(s, call).sessions| && Unconsented(Apply(s, call).sessions[id])
  {
    hide FirstMissing, Start, Active, Review;
    match call
    case StartCall(identity, schema, now, conversationOpen) =>
      UnconsentedStart(s, identity, schema, now, conversationOpen, id);
    case ActiveCall(identity, now) => UnconsentedActive(s, identity, now, id);
    case EditCall(identity, other, field, now) =>
      UnconsentedActive(s, identity, now, id);
      UnconsentedReview(Active(s, identity, now).0, identity, other, Some(field), id);
    case _ =>
  }

  /**
    An edit is not guarded against a session that still awaits consent. Once that happens, consent can
    never be given and the session can never be completed, whatever is called later.
  */
  lemma {:induction false} EditBeforeConsentIsADeadEnd(s: State, calls: seq<Call>, id: nat)
    requires Inv(s) && id < |s.sessions| && Unconsented(s.sessions[id])
    ensures var t := Run(s, calls);
            id < |t.sessions| && Unconsented(t.sessions[id]) && t.sessions[id].status != Completed
  {
    RunKeeps(s, calls);
    assert SessionOk(Run(s, calls).sessions[id]) by {
      assert id < |Run(s, calls).sessions|;
    }
    if calls != [] {
      var init := calls[..|calls| - 1];
      EditBeforeConsentIsADeadEnd(s, init, id);
      RunKeeps(s, init);
      hide Inv, Apply, Unconsented;
      UnconsentedStep(Run(s, init), calls[|calls| - 1], id);
    }
  }

  /** An edit leaves its session without consent exactly when none had been decided before. */
  lemma EditSkipsConsentIff(s: State, identity: int, id: nat, field: string, now: int)
    requires Inv(s) && Edit(s, identity, id, field, now).reply.Ok?
    ensures id < |s.sessions|
    ensures Unconsented(Edit(s, identity, id, field, now).state.sessions[id]) <==> s.sessions[id].decision == None
  {
  }

  /** The store's review alone reopens a terminal session; only the active check before it prevents that. */
  lemma ReviewReopensIff(s: State, identity: int, id: nat, edit: Option<string>)
    requires Inv(s) && id < |s.sessions| && s.sessions[id].IsTerminal()
    ensures Review(s, identity, id, edit).state.sessions[id].IsActive() <==>
              s.sessions[id].identity == identity
              && match edit
                 case Some(field) => s.sessions[id].schema.HasKey(field)
                 case None => s.sessions[id].NextMissing() == None
  {
  }

  // --- How a run gets there -----------------------------------------------------------------

  lemma RunTwo(first: Call, second: Call)
    ensures Run(EMPTY, [first, second]) == Apply(Apply(EMPTY, first), second)
  {
    hide Apply;
    var calls := [first, second];
    RunLast(EMPTY, calls);
    RunLast(EMPTY, calls[..1]);
    assert calls[..1][..0] == [] && Run(EMPTY, []) == EMPTY;
  }

  lemma StartedFirst(identity: int, schema: Schema, now: int)
    ensures Apply(EMPTY, StartCall(identity, schema, now, true)) ==
            EMPTY.(sessions := [NewSession(identity, schema, now)])
  {
  }

  lemma SoleSessionFound(s: State, identity: int)
    requires |s.sessions| == 1 && s.sessions[0].identity == identity && s.sessions[0].IsActive()
    ensures FindActive(s.sessions, identity) == Some(0)
  {
  }

  /** Two calls reach the dead end: for every schema and field, start and then edit before consent. */
  lemma ReachUnconsented(identity: int, schema: Schema, field: string, now: int) returns (calls: seq<Call>)
    requires schema.HasKey(field)
    ensures var t := Run(EMPTY, calls);
            && |t.sessions| == 1 && Unconsented(t.sessions[0]) && t.sessions[0].status == InProgress
            && t.sessions[0].identity == identity && t.sessions[0].schema == schema
    ensures forall later: seq<Call> :: var u := Run(Run(EMPTY, calls), later);
              0 < |u.sessions| && u.sessions[0].decision == None && u.sessions[0].status != Completed
  {
    var start, edit := StartCall(identity, schema, now, true), EditCall(identity, 0, field, now);
    calls := [start, edit];
    RunTwo(start, edit);
    StartedFirst(identity, schema, now);
    SoleSessionFound(Apply(EMPTY, start), identity);
    EmptyOk();
    RunKeeps(EMPTY, calls);
    hide Run, Inv, FindActive;
    assert Unconsented(Run(EMPTY, calls).sessions[0]);
    forall later: seq<Call>
      ensures var u := Run(Run(EMPTY, calls), later);
              0 < |u.sessions| && u.sessions[0].decision == None && u.sessions[0].status != Completed
    {
      EditBeforeConsentIsADeadEnd(Run(EMPTY, calls), later, 0);
    }
  }

  /** Two calls reach a cancelled session, and the store's review of a field puts it in progress again. */
  lemma ReachReopened(identity: int, schema: Schema, field: string, now: int) returns (calls: seq<Call>)
    requires schema.HasKey(field)
    ensures var t := Run(EMPTY, calls);
            && |t.sessions| == 1 && t.sessions[0].status == Cancelled
            && var u := Review(t, identity, 0, Some(field)).state;
               |u.sessions| == 1 && u.sessions[0].status == InProgress
  {
    var start, cancel := StartCall(identity, schema, now, true), CancelCall(identity);
    calls := [start, cancel];
    RunTwo(start, cancel);
    StartedFirst(identity, schema, now);
    SoleSessionFound(Apply(EMPTY, start), identity);
    hide Run, FindActive;
  }

  // --- Driving the store --------------------------------------------------------------------

  /** One transaction on the store object, behind its caller's guard. */
  method Perform(store: QualificationStore, call: Call)
    modifies store
    ensures store.Contents() == Apply(old(store.Contents()), call)
  {
    match call
    case StartCall(identity, schema, now, conversationOpen) =>
      var _ := store.StartSession(identity, schema, now, conversationOpen);
    case ActiveCall(identity, now) =>
      var _ := store.FindActiveSession(identity, now);
    case ConsentCall(identity, id, decision, now, key) =>
      var _ := store.SaveConsent(identity, id, decision, now, key);
    case AnswerCall(identity, id, field, answer, key) =>
      var _ := store.SaveAnswer(identity, id, field, answer, key);
    case EditCall(identity, id, field, now) =>
      var application := new QualificationApplication(store);
      var _ := application.EditField(identity, id, field, now);
    case CompleteCall(identity, id, lead, settles, key) =>
      if id >= |store.sessions| || store.sessions[id].consentAt.Some? {
        var _ := store.CompleteSession(identity, id, lead, settles, key);
      }
    case CancelCall(identity) =>
      var _ := store.CancelSession(identity);
  }

  /** A new store that has served any calls is sound. */
  method Serve(calls: seq<Call>) returns (store: QualificationStore)
    ensures fresh(store) && store.Contents() == Run(EMPTY, calls) && Inv(store.Contents())
  {
    store := new QualificationStore();
    EmptyOk();
    for i := 0 to |calls|
      invariant fresh(store) && store.Contents() == Run(EMPTY, calls[..i])
    {
      hide Apply;
      Perform(store, calls[i]);
      assert calls[..i + 1][..i] == calls[..i];
      RunLast(EMPTY, calls[..i + 1]);
    }
    assert calls[..|calls|] == calls;
    RunKeeps(EMPTY, calls);
  }
}
