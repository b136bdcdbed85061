/**
  Qualification sessions: consent, one answer per required field, review and submission. A session's
  identifier is its position; its schema is an immutable published version.
*/
module Qualification {
  import opened Basics

  datatype Field = Field(key: string, required: bool)

  datatype RawSchema = Schema(fields: seq<Field>, ttl: int)
  {
    ghost predicate Valid() {
      && fields != [] && 0 < ttl
      && forall i, j :: 0 <= i < j < |fields| ==> fields[i].key != fields[j].key
    }

    predicate HasKey(key: string) { exists i :: 0 <= i < |fields| && fields[i].key == key }
  }

  type Schema = s: RawSchema | s.Valid() witness Schema([Field("name", true)], 60)

  datatype Status = AwaitingConsent | InProgress | Reviewing | Completed | Declined | Cancelled | Expired

  datatype Decision = Accepted | Refused

  datatype Session = Session(
    identity: int,
    schema: Schema,
    status: Status,
    answers: map<string, string>,
    current: Option<string>,
    expiresAt: int,
    decision: Option<Decision>,
    consentAt: Option<int>,
    lead: Option<int>)
  {
    predicate IsActive() { status == AwaitingConsent || status == InProgress || status == Reviewing }

    predicate IsTerminal() { !IsActive() }

    function NextMissing(): Option<string> { FirstMissing(schema.fields, answers) }

    function Ended(how: Status): Session { this.(status := how, current := None) }
  }

  /** The sessions, the update keys seen, the consents on file, and the sessions with a lead event. */
  datatype State = State(sessions: seq<Session>, updates: map<string, nat>, consents: map<nat, Decision>,
    events: seq<nat>)

  datatype Failure =
    | Unavailable | OtherSession | AlreadyDecided | NotExpected | FieldUnavailable | NotReady | NoActive | Incomplete
    | NoConsent | ConversationUnavailable | InvalidAnswer | NotRecorded

  datatype Outcome = Outcome(state: State, reply: Result<nat, Failure>)

  /** `next_missing_field`: the first required field without an answer. */
  function FirstMissing(fields: seq<Field>, answers: map<string, string>): (r: Option<string>)
    ensures r.None? <==> forall i :: 0 <= i < |fields| && fields[i].required ==> fields[i].key in answers
    ensures r.Some? ==> r.value !in answers
                        && exists i :: 0 <= i < |fields| && fields[i].required && fields[i].key == r.value
  {
    if fields == [] then None
    else if fields[0].required && fields[0].key !in answers then Some(fields[0].key)
    else
      var rest := FirstMissing(fields[1..], answers);
      assert forall i :: 0 < i < |fields| ==> fields[i] == fields[1..][i - 1];
      rest
  }

  function FindActive(sessions: seq<Session>, identity: int): (r: Option<nat>)
    ensures r.Some? ==> r.value < |sessions| && sessions[r.value].IsActive() && sessions[r.value].identity == identity
    ensures r.None? ==> forall i :: 0 <= i < |sessions| ==>
            !(sessions[i].IsActive() && sessions[i].identity == identity)
  {
    if sessions == [] then None
    else
      var last := sessions[|sessions| - 1];
      if last.IsActive() && last.identity == identity then Some(|sessions| - 1)
      else FindActive(sessions[..|sessions| - 1], identity)
  }

  // --- Store transactions -----------------------------------------------------------------

  function With(s: State, id: nat, row: Session): State
    requires id < |s.sessions|
  {
    s.(sessions := s.sessions[id := row])
  }

  /** The active session of an identity; one found past its time is expired instead. */
  function Active(s: State, identity: int, now: int): (State, Option<nat>) {
    match FindActive(s.sessions, identity)
    case None => (s, None)
    case Some(id) =>
      if s.sessions[id].expiresAt <= now then (With(s, id, s.sessions[id].Ended(Expired)), None) else (s, Some(id))
  }

  function NewSession(identity: int, schema: Schema, now: int): Session {
    Session(identity, schema, AwaitingConsent, map[], None, now + schema.ttl, None, None, None)
  }

  function Start(s: State, identity: int, schema: Schema, now: int, conversationOpen: bool): Outcome {
    match FindActive(s.sessions, identity)
    case Some(id) =>
      if s.sessions[id].expiresAt > now then Outcome(s, Ok(id))
      else if !conversationOpen then Outcome(s, Err(ConversationUnavailable))
      else
        var t := With(s, id, s.sessions[id].Ended(Expired));
        Outcome(t.(sessions := t.sessions + [NewSession(identity, schema, now)]), Ok(|s.sessions|))
    case None =>
      if !conversationOpen then Outcome(s, Err(ConversationUnavailable))
      else Outcome(s.(sessions := s.sessions + [NewSession(identity, schema, now)]), Ok(|s.sessions|))
  }

  predicate Owned(s: State, identity: int, id: nat) {
    id < |s.sessions| && s.sessions[id].identity == identity
  }

  /** What a key that was seen before answers; nothing for a new key. */
  function Repeat(s: State, id: nat, key: string): Option<Result<nat, Failure>> {
    if key !in s.updates then None
    else if s.updates[key] != id then Some(Err(OtherSession))
    else Some(Ok(id))
  }

  function Decided(row: Session, decision: Decision, now: int): Session {
    var first := FirstMissing(row.schema.fields, map[]);
    row.(decision := Some(decision), consentAt := Some(now),
         status := if decision == Refused then Declined else if first.None? then Reviewing else InProgress,
         current := if decision == Accepted then first else None)
  }

  function DecideConsent(s: State, identity: int, id: nat, decision: Decision, now: int, key: string): Outcome {
    if !Owned(s, identity, id) then Outcome(s, Err(Unavailable))
    else if Repeat(s, id, key).Some? then Outcome(s, Repeat(s, id, key).value)
    else if s.sessions[id].status != AwaitingConsent then Outcome(s, Err(AlreadyDecided))
    else
      var next := Decided(s.sessions[id], decision, now);
      Outcome(With(s, id, next).(consents := s.consents[id := decision], updates := s.updates[key := id]), Ok(id))
  }

  function Answered(row: Session, field: string, answer: string): Session {
    var answers := row.answers[field := answer];
    var missing := FirstMissing(row.schema.fields, answers);
    row.(answers := answers, current := missing, status := if missing.Some? then InProgress else Reviewing)
  }

  function RecordAnswer(s: State, identity: int, id: nat, field: string, answer: string, key: string): Outcome {
    if !Owned(s, identity, id) then Outcome(s, Err(Unavailable))
    else if Repeat(s, id, key).Some? then Outcome(s, Repeat(s, id, key).value)
    else if s.sessions[id].status != InProgress || s.sessions[id].current != Some(field) then
      Outcome(s, Err(NotExpected))
    else
      Outcome(With(s, id, Answered(s.sessions[id], field, answer)).(updates := s.updates[key := id]), Ok(id))
  }

  function Review(s: State, identity: int, id: nat, edit: Option<string>): Outcome {
    if !Owned(s, identity, id) then Outcome(s, Err(Unavailable))
    else
      var row := s.sessions[id];
      match edit
      case Some(field) =>
        if !row.schema.HasKey(field) then Outcome(s, Err(FieldUnavailable))
        else Outcome(With(s, id, row.(status := InProgress, current := Some(field))), Ok(id))
      case None =>
        if row.NextMissing().None? then Outcome(With(s, id, row.(status := Reviewing, current := None)), Ok(id))
        else Outcome(s, Ok(id))
  }

  /** `settles` says whether the lead, the handoff and its deadline can be written. */
  function Complete(s: State, identity: int, id: nat, lead: int, settles: bool, key: string): Outcome {
    if !Owned(s, identity, id) then Outcome(s, Err(Unavailable))
    else if Repeat(s, id, key).Some? then Outcome(s, Repeat(s, id, key).value)
    else if s.sessions[id].status == Completed then Outcome(s, Ok(id))
    else if s.sessions[id].status != Reviewing then Outcome(s, Err(NotReady))
    else if !settles then Outcome(s, Err(NotRecorded))
    else
      var row := s.sessions[id].(status := Completed, lead := Some(lead));
      Outcome(With(s, id, row).(events := s.events + [id], updates := s.updates[key := id]), Ok(id))
  }

  function Cancel(s: State, identity: int): (State, bool) {
    match FindActive(s.sessions, identity)
    case None => (s, false)
    case Some(id) => (With(s, id, s.sessions[id].Ended(Cancelled)), true)
  }

  // --- Application operations -------------------------------------------------------------

  function Answer(s: State, identity: int, raw: string, validate: (Field, string) -> Option<string>, now: int,
                  key: string): Outcome
  {
    var (t, active) := Active(s, identity, now);
    match active
    case None => Outcome(t, Err(NoActive))
    case Some(id) =>
      match CurrentField(t.sessions[id])
      case None => Outcome(t, Err(NotExpected))
      case Some(field) =>
        match validate(field, raw)
        case None => Outcome(t, Err(InvalidAnswer))
        case Some(answer) => RecordAnswer(t, identity, id, field.key, answer, key)
  }

  function FieldOf(fields: seq<Field>, key: string): (r: Option<Field>)
    ensures r.Some? <==> exists i :: 0 <= i < |fields| && fields[i].key == key
    ensures r.Some? ==> r.value.key == key
  {
    if fields == [] then None
    else if fields[0].key == key then Some(fields[0])
    else
      var rest := FieldOf(fields[1..], key);
      assert forall i :: 0 < i < |fields| ==> fields[i] == fields[1..][i - 1];
      rest
  }

  function CurrentField(row: Session): Option<Field> {
    match row.current case None => None case Some(key) => FieldOf(row.schema.fields, key)
  }

  /** The active check and the store's review, as one step. */
  function Edit(s: State, identity: int, id: nat, field: string, now: int): Outcome {
    var (t, active) := Active(s, identity, now);
    match active
    case None => Outcome(t, Err(NoActive))
    case Some(a) =>
      if !t.sessions[a].schema.HasKey(field) || a != id then Outcome(t, Err(FieldUnavailable))
      else Review(t, identity, a, Some(field))
  }

  function Submit(s: State, identity: int, id: nat, lead: int, settles: bool, now: int, key: string): Outcome {
    var (t, active) := Active(s, identity, now);
    match active
    case None => Outcome(t, Err(NoActive))
    case Some(a) =>
      if a != id || t.sessions[a].NextMissing().Some? then Outcome(t, Err(Incomplete))
      else if t.sessions[a].consentAt.None? then Outcome(t, Err(NoConsent))
      else Complete(t, identity, a, lead, settles, key)
  }

  // --- The store as an object -------------------------------------------------------------

  class QualificationStore {
    var sessions: seq<Session>
    var updates: map<string, nat>
    var consents: map<nat, Decision>
    var events: seq<nat>

    constructor ()
      ensures Contents() == State([], map[], map[], [])
    {
      sessions, updates, consents, events := [], map[], map[], [];
    }

    function Contents(): State
      reads this
    {
      State(sessions, updates, consents, events)
    }

    method FindActiveSession(identity: int, now: int) returns (active: Option<nat>)
      modifies this`sessions
      ensures (Contents(), active) == Active(old(Contents()), identity, now)
    {
      var found := FindActive(sessions, identity);
      if found.None? {
        return None;
      }
      var id := found.value;
      if sessions[id].expiresAt <= now {
        sessions := sessions[id := sessions[id].(status := Expired)];
        sessions := sessions[id := sessions[id].(current := None)];
        assert sessions == old(sessions)[id := old(sessions)[id].Ended(Expired)];
        return None;
      }
      return Some(id);
    }

    method StartSession(identity: int, schema: Schema, now: int, conversationOpen: bool)
      returns (reply: Result<nat, Failure>)
      modifies this`sessions
      ensures Outcome(Contents(), reply) == Start(old(Contents()), identity, schema, now, conversationOpen)
    {
      var existing := FindActive(sessions, identity);
      if existing.Some? && sessions[existing.value].expiresAt > now {
        return Ok(existing.value);
      }
      if !conversationOpen {
        return Err(ConversationUnavailable);
      }
      if existing.Some? {
        sessions := sessions[existing.value := sessions[existing.value].(status := Expired, current := None)];
      }
      sessions := sessions +
        [Session(identity, schema, AwaitingConsent, map[], None, now + schema.ttl, None, None, None)];
      return Ok(|sessions| - 1);
    }

    method SaveConsent(identity: int, id: nat, decision: Decision, now: int, key: string)
      returns (reply: Result<nat, Failure>)
      modifies this
      ensures Outcome(Contents(), reply) == DecideConsent(old(Contents()), identity, id, decision, now, key)
    {
      if !Owned(Contents(), identity, id) {
        return Err(Unavailable);
      }
      if key in updates {
        return if updates[key] != id then Err(OtherSession) else Ok(id);
      }
      var row := sessions[id];
      if row.status != AwaitingConsent {
        return Err(AlreadyDecided);
      }
      row := row.(decision := Some(decision));
      row := row.(consentAt := Some(now));
      row := row.(status := if decision == Accepted then InProgress else Declined);
      var first := FirstMissing(row.schema.fields, map[]);
      row := row.(current := if decision == Accepted && first.Some? then first else None);
      if decision == Accepted && first.None? {
        row := row.(status := Reviewing);
      }
      sessions := sessions[id := row];
      consents := consents[id := decision];
      updates := updates[key := id];
      return Ok(id);
    }

    method SaveAnswer(identity: int, id: nat, field: string, answer: string, key: string)
      returns (reply: Result<nat, Failure>)
      modifies this`sessions, this`updates
      ensures Outcome(Contents(), reply) == RecordAnswer(old(Contents()), identity, id, field, answer, key)
    {
      if !Owned(Contents(), identity, id) {
        return Err(Unavailable);
      }
      if key in updates {
        return if updates[key] != id then Err(OtherSession) else Ok(id);
      }
      var row := sessions[id];
      if row.status != InProgress || row.current != Some(field) {
        return Err(NotExpected);
      }
      row := row.(answers := row.answers[field := answer]);
      var missing := FirstMissing(row.schema.fields, row.answers);
      row := row.(current := missing);
      row := row.(status := if missing.Some? then InProgress else Reviewing);
      sessions := sessions[id := row];
      updates := updates[key := id];
      return Ok(id);
    }

    method ReviewSession(identity: int, id: nat, edit: Option<string>) returns (reply: Result<nat, Failure>)
      modifies this`sessions
      ensures Outcome(Contents(), reply) == Review(old(Contents()), identity, id, edit)
    {
      if !Owned(Contents(), identity, id) {
        return Err(Unavailable);
      }
      var row := sessions[id];
      if edit.Some? {
        if !row.schema.HasKey(edit.value) {
          return Err(FieldUnavailable);
        }
        row := row.(status := InProgress);
        row := row.(current := Some(edit.value));
      } else if row.NextMissing().None? {
        row := row.(status := Reviewing);
        row := row.(current := None);
      }
      sessions := sessions[id := row];
      return Ok(id);
    }

    method CompleteSession(identity: int, id: nat, lead: int, settles: bool, key: string)
      returns (reply: Result<nat, Failure>)
      modifies this`sessions, this`updates, this`events
      ensures Outcome(Contents(), reply) == Complete(old(Contents()), identity, id, lead, settles, key)
    {
      if !Owned(Contents(), identity, id) {
        return Err(Unavailable);
      }
      if key in updates {
        return if updates[key] != id then Err(OtherSession) else Ok(id);
      }
      if sessions[id].status == Completed {
        return Ok(id);
      }
      if sessions[id].status != Reviewing {
        return Err(NotReady);
      }
      if !settles {
        return Err(NotRecorded);
      }
      sessions := sessions[id := sessions[id].(status := Completed)];
      sessions := sessions[id := sessions[id].(lead := Some(lead))];
      events := events + [id];
      updates := updates[key := id];
      return Ok(id);
    }

    method CancelSession(identity: int) returns (cancelled: bool)
      modifies this`sessions
      ensures (Contents(), cancelled) == Cancel(old(Contents()), identity)
    {
      var found := FindActive(sessions, identity);
      if found.None? {
        return false;
      }
      var id := found.value;
      sessions := sessions[id := sessions[id].(status := Cancelled)];
      sessions := sessions[id := sessions[id].(current := None)];
      assert sessions == old(sessions)[id := old(sessions)[id].Ended(Cancelled)];
      return true;
    }
  }

  /** The use cases of the application, each a few store transactions. */
  class QualificationApplication {
    const store: QualificationStore

    constructor (store: QualificationStore)
      ensures this.store == store
    {
      this.store := store;
    }

    method GiveAnswer(identity: int, raw: string, validate: (Field, string) -> Option<string>, now: int, key: string)
      returns (reply: Result<nat, Failure>)
      modifies store
      ensures Outcome(store.Contents(), reply) == Answer(old(store.Contents()), identity, raw, validate, now, key)
    {
      var active := store.FindActiveSession(identity, now);
      if active.None? {
        return Err(NoActive);
      }
      var field := CurrentField(store.sessions[active.value]);
      if field.None? {
        return Err(NotExpected);
      }
      var answer := validate(field.value, raw);
      if answer.None? {
        return Err(InvalidAnswer);
      }
      reply := store.SaveAnswer(identity, active.value, field.value.key, answer.value, key);
    }

    method EditField(identity: int, id: nat, field: string, now: int) returns (reply: Result<nat, Failure>)
      modifies store
      ensures Outcome(store.Contents(), reply) == Edit(old(store.Contents()), identity, id, field, now)
    {
      var active := store.FindActiveSession(identity, now);
      if active.None? {
        return Err(NoActive);
      }
      if !store.sessions[active.value].schema.HasKey(field) || active.value != id {
        return Err(FieldUnavailable);
      }
      reply := store.ReviewSession(identity, active.value, Some(field));
    }

    method SubmitLead(identity: int, id: nat, lead: int, settles: bool, now: int, key: string)
      returns (reply: Result<nat, Failure>)
      modifies store
      ensures Outcome(store.Contents(), reply) == Submit(old(store.Contents()), identity, id, lead, settles, now, key)
    {
      var active := store.FindActiveSession(identity, now);
      if active.None? {
        return Err(NoActive);
      }
      var session := store.sessions[active.value];
      if active.value != id || session.NextMissing().Some? {
        return Err(Incomplete);
      }
      if session.consentAt.None? {
        return Err(NoConsent);
      }
      reply := store.CompleteSession(identity, active.value, lead, settles, key);
    }
  }
}
