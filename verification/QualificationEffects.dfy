/** Exactly what the calls of the qualification store change, and where stored answers come from. */
module QualificationEffects {
  import opened Basics
  import opened Qualification
  import opened QualificationRuns

  // --- Which field comes next -------------------------------------------------------------

  /** The next question is about the first required field, in the schema's order, that has no answer. */
  lemma {:induction false} FirstMissingIsFirst(fields: seq<Field>, answers: map<string, string>)
    ensures FirstMissing(fields, answers).Some? ==>
              exists i :: 0 <= i < |fields| && fields[i].required
                          && FirstMissing(fields, answers) == Some(fields[i].key) && fields[i].key !in answers
                          && forall j :: 0 <= j < i && fields[j].required ==> fields[j].key in answers
  {
    if fields != [] && FirstMissing(fields, answers).Some? {
      if fields[0].required && fields[0].key !in answers {
        assert FirstMissing(fields, answers) == Some(fields[0].key);
      } else {
        FirstMissingIsFirst(fields[1..], answers);
        var i :| 0 <= i < |fields[1..]| && fields[1..][i].required
                 && FirstMissing(fields[1..], answers) == Some(fields[1..][i].key) && fields[1..][i].key !in answers
                 && forall j :: 0 <= j < i && fields[1..][j].required ==> fields[1..][j].key in answers;
        assert fields[i + 1] == fields[1..][i];
        forall j | 0 <= j < i + 1 && fields[j].required ensures fields[j].key in answers {
          assert j > 0 ==> fields[j] == fields[1..][j - 1];
        }
      }
    }
  }

  // --- Calls ------------------------------------------------------------------------------

  /** No session but `id` has changed. */
  ghost predicate OnlySession(s: State, t: State, id: nat) {
    |t.sessions| == |s.sessions|
    && forall k :: 0 <= k < |s.sessions| && k != id ==> t.sessions[k] == s.sessions[k]
  }

  ghost predicate RecordsSame(s: State, t: State) {
    t.updates == s.updates && t.consents == s.consents && t.events == s.events
  }

  ghost predicate ActiveFor(s: State, identity: int, id: nat) {
    id < |s.sessions| && s.sessions[id].identity == identity
    && s.sessions[id].status in {AwaitingConsent, InProgress, Reviewing}
  }

  /** The session has run out: it is expired and expects nothing, and nothing else changes. */
  ghost predicate RunsOut(s: State, id: nat, t: State)
    requires id < |s.sessions|
  {
    RecordsSame(s, t) && OnlySession(s, t, id) && t.sessions[id] == s.sessions[id].(status := Expired, current := None)
  }

  lemma FoundIsActive(s: State, identity: int, id: nat)
    requires OneActive(s.sessions) && ActiveFor(s, identity, id)
    ensures FindActive(s.sessions, identity) == Some(id)
  {
    var found := FindActive(s.sessions, identity);
    assert s.sessions[id].IsActive();
    assert ActiveFor(s, identity, found.value);
  }

  /** The active session is answered while it lasts; past its time it is expired, and none is answered. */
  lemma ActiveMeaning(s: State, identity: int, now: int)
    requires OneActive(s.sessions)
    ensures var (t, active) := Active(s, identity, now);
            && (forall id: nat :: ActiveFor(s, identity, id) ==>
                  if now < s.sessions[id].expiresAt then active == Some(id) && t == s
                  else active == None && RunsOut(s, id, t))
            && ((forall id: nat :: !ActiveFor(s, identity, id)) ==> active == None && t == s)
  {
    forall id: nat | ActiveFor(s, identity, id) ensures FindActive(s.sessions, identity) == Some(id) {
      FoundIsActive(s, identity, id);
    }
    var found := FindActive(s.sessions, identity);
    if found.Some? {
      assert ActiveFor(s, identity, found.value);
    }
  }

  /** A fresh session awaits consent, has no answer, and lasts as long as its schema says. */
  ghost predicate IsNew(row: Session, identity: int, schema: Schema, now: int) {
    && row.identity == identity && row.schema == schema && row.status == AwaitingConsent
    && row.answers == map[] && row.current == None && row.expiresAt == now + schema.ttl
    && row.decision == None && row.consentAt == None && row.lead == None
  }

  /** Starting answers the session that is still active; else it expires one that has run out and adds a new one. */
  lemma StartMeaning(s: State, identity: int, schema: Schema, now: int, conversationOpen: bool)
    requires OneActive(s.sessions)
    ensures var o, n := Start(s, identity, schema, now, conversationOpen), |s.sessions|;
            && (o.reply.Err? ==> o == Outcome(s, Err(ConversationUnavailable)) && !conversationOpen)
            && (forall id: nat :: ActiveFor(s, identity, id) && now < s.sessions[id].expiresAt ==>
                  o == Outcome(s, Ok(id)))
            && ((forall id: nat :: ActiveFor(s, identity, id) ==> s.sessions[id].expiresAt <= now) ==>
                  && (o.reply.Ok? <==> conversationOpen)
                  && (conversationOpen ==>
                        && o.reply == Ok(n) && |o.state.sessions| == n + 1 && RecordsSame(s, o.state)
                        && IsNew(o.state.sessions[n], identity, schema, now)
                        && forall id: nat :: id < n ==>
                             o.state.sessions[id] == if ActiveFor(s, identity, id)
                                                     then s.sessions[id].(status := Expired, current := None)
                                                     else s.sessions[id]))
  {
    forall id: nat | ActiveFor(s, identity, id) ensures FindActive(s.sessions, identity) == Some(id) {
      FoundIsActive(s, identity, id);
    }
    var found := FindActive(s.sessions, identity);
    if found.Some? {
      assert ActiveFor(s, identity, found.value);
    }
  }

  /** The session is the caller's own, and the key is not on record. */
  ghost predicate Fresh(s: State, identity: int, id: nat, key: string) {
    id < |s.sessions| && s.sessions[id].identity == identity && key !in s.updates
  }

  /**
    Consent is decided once: the decision and its time are stored and filed under the session, a refusal
    ends it, and an acceptance goes on to the first required field, or to review when there is none.
  */
  lemma ConsentMeaning(s: State, identity: int, id: nat, decision: Decision, now: int, key: string)
    ensures var o := DecideConsent(s, identity, id, decision, now, key);
            && (!Fresh(s, identity, id, key) ==> o.state == s)
            && (o.reply.Err? ==> o.state == s)
            && (Fresh(s, identity, id, key) ==>
                  && (o.reply.Ok? <==> s.sessions[id].status == AwaitingConsent)
                  && (o.reply.Ok? ==>
                        var row, row' := s.sessions[id], o.state.sessions[id];
                        var first := FirstMissing(row.schema.fields, map[]);
                        && o.reply == Ok(id) && OnlySession(s, o.state, id) && o.state.events == s.events
                        && o.state.consents == s.consents[id := decision] && o.state.updates == s.updates[key := id]
                        && row' == row.(status := row'.status, current := row'.current, decision := Some(decision),
                                        consentAt := Some(now))
                        && (decision == Refused ==> row'.status == Declined && row'.current == None)
                        && (decision == Accepted ==>
                              row'.current == first && row'.status == if first.Some? then InProgress else Reviewing)))
  {
    hide FirstMissing;
    match decision
    case Accepted =>
    case Refused =>
  }

  /** An answer is taken exactly for the expected field; its text is stored, and the session moves on. */
  lemma AnswerMeaning(s: State, identity: int, id: nat, field: string, answer: string, key: string)
    ensures var o := RecordAnswer(s, identity, id, field, answer, key);
            && (!Fresh(s, identity, id, key) ==> o.state == s)
            && (o.reply.Err? ==> o.state == s)
            && (Fresh(s, identity, id, key) ==>
                  && (o.reply.Ok? <==> s.sessions[id].status == InProgress && s.sessions[id].current == Some(field))
                  && (o.reply.Ok? ==>
                        var row, row' := s.sessions[id], o.state.sessions[id];
                        && o.reply == Ok(id) && OnlySession(s, o.state, id)
                        && o.state.events == s.events && o.state.consents == s.consents
                        && o.state.updates == s.updates[key := id]
                        && row'.answers == row.answers[field := answer]
                        && row' == row.(answers := row'.answers, current := row'.current, status := row'.status)
                        && row'.current == row'.NextMissing()
                        && row'.status == if row'.current.Some? then InProgress else Reviewing))
  {
    hide FirstMissing;
  }

  /** The answer operation stores what validation makes of the text given, for the field asked about. */
  lemma AnswerStored(s: State, identity: int, raw: string, validate: (Field, string) -> Option<string>, now: int,
                     key: string)
    requires OneActive(s.sessions) && Answer(s, identity, raw, validate, now, key).reply.Ok?
    requires key !in s.updates
    ensures var t := Answer(s, identity, raw, validate, now, key).state;
            exists id: nat, field: Field ::
              && ActiveFor(s, identity, id) && now < s.sessions[id].expiresAt
              && s.sessions[id].current == Some(field.key) && field in s.sessions[id].schema.fields
              && validate(field, raw).Some?
              && OnlySession(s, t, id)
              && t.sessions[id].answers == s.sessions[id].answers[field.key := validate(field, raw).value]
  {
    ActiveMeaning(s, identity, now);
    var (t, active) := Active(s, identity, now);
    var id := active.value;
    assert FindActive(s.sessions, identity) == Some(id);
    assert ActiveFor(s, identity, id);
    hide FindActive, FirstMissing;
    var field := CurrentField(s.sessions[id]).value;
    FieldListed(s.sessions[id].schema.fields, field.key);
    AnswerMeaning(s, identity, id, field.key, validate(field, raw).value, key);
    hide RecordAnswer;
    assert t == s;
  }

  lemma {:induction false} FieldListed(fields: seq<Field>, key: string)
    ensures FieldOf(fields, key).Some? ==> FieldOf(fields, key).value in fields
  {
    if fields != [] && fields[0].key != key {
      FieldListed(fields[1..], key);
    }
  }

  /** An edit asks again about one field of the active session, and keeps its answers until it is answered. */
  lemma EditMeaning(s: State, identity: int, id: nat, field: string, now: int)
    requires OneActive(s.sessions)
    ensures var o := Edit(s, identity, id, field, now);
            && (o.reply.Ok? <==>
                  ActiveFor(s, identity, id) && now < s.sessions[id].expiresAt && s.sessions[id].schema.HasKey(field))
            && (o.reply.Ok? ==>
                  && o.reply == Ok(id) && RecordsSame(s, o.state) && OnlySession(s, o.state, id)
                  && o.state.sessions[id] == s.sessions[id].(status := InProgress, current := Some(field)))
  {
    ActiveMeaning(s, identity, now);
    var (t, active) := Active(s, identity, now);
    if active.Some? {
      assert ActiveFor(s, identity, active.value);
    }
  }

  /** A submission completes a session in review once: lead, event and key are recorded together. */
  lemma CompleteMeaning(s: State, identity: int, id: nat, lead: int, settles: bool, key: string)
    ensures var o := Complete(s, identity, id, lead, settles, key);
            && (!Fresh(s, identity, id, key) ==> o.state == s)
            && (o.reply.Err? ==> o.state == s)
            && (Fresh(s, identity, id, key) ==>
                  && (o.reply.Ok? <==>
                        s.sessions[id].status == Completed || (s.sessions[id].status == Reviewing && settles))
                  && (s.sessions[id].status == Completed ==> o == Outcome(s, Ok(id)))
                  && (o.reply.Ok? && s.sessions[id].status == Reviewing ==>
                        && o.reply == Ok(id) && OnlySession(s, o.state, id) && o.state.consents == s.consents
                        && o.state.sessions[id] == s.sessions[id].(status := Completed, lead := Some(lead))
                        && o.state.events == s.events + [id] && o.state.updates == s.updates[key := id]))
  {
  }

  /**
    The submission operation succeeds exactly for the active session with every required answer and a
    consent time, if the key repeats or the session is in review and can be recorded.
  */
  lemma SubmitMeaning(s: State, identity: int, id: nat, lead: int, settles: bool, now: int, key: string)
    requires Inv(s)
    ensures var o := Submit(s, identity, id, lead, settles, now, key);
            && (o.reply.Ok? <==>
                  && ActiveFor(s, identity, id) && now < s.sessions[id].expiresAt
                  && var row := s.sessions[id];
                  && (forall i :: 0 <= i < |row.schema.fields| && row.schema.fields[i].required ==>
                        row.schema.fields[i].key in row.answers)
                  && row.consentAt.Some?
                  && if key in s.updates then s.updates[key] == id else row.status == Reviewing && settles)
            && (o.reply.Ok? ==> o == Complete(s, identity, id, lead, settles, key))
            && (o.reply.Err? ==> o.state == Active(s, identity, now).0)
  {
    ActiveMeaning(s, identity, now);
    var (t, active) := Active(s, identity, now);
    if active.Some? {
      assert ActiveFor(s, identity, active.value);
      assert t == s;
      hide Active, Inv, FirstMissing;
    }
  }

  /** An answer that is refused leaves everything but a session that has run out, whose expiry it records. */
  lemma AnswerRefused(s: State, identity: int, raw: string, validate: (Field, string) -> Option<string>, now: int,
                      key: string)
    requires OneActive(s.sessions) && Answer(s, identity, raw, validate, now, key).reply.Err?
    ensures Answer(s, identity, raw, validate, now, key).state == Active(s, identity, now).0
    ensures forall id: nat :: ActiveFor(s, identity, id) && now < s.sessions[id].expiresAt ==>
              Answer(s, identity, raw, validate, now, key).state == s
  {
    ActiveMeaning(s, identity, now);
    hide FirstMissing;
  }

  /** Cancelling ends the identity's active session, if it has one, and changes nothing else. */
  lemma CancelMeaning(s: State, identity: int)
    requires OneActive(s.sessions)
    ensures var (t, found) := Cancel(s, identity);
            && RecordsSame(s, t) && (found <==> exists id: nat :: ActiveFor(s, identity, id))
            && (!found ==> t == s)
            && forall id: nat :: ActiveFor(s, identity, id) ==>
                 OnlySession(s, t, id) && t.sessions[id] == s.sessions[id].(status := Cancelled, current := None)
  {
    forall id: nat | ActiveFor(s, identity, id) ensures FindActive(s.sessions, identity) == Some(id) {
      FoundIsActive(s, identity, id);
    }
    var found := FindActive(s.sessions, identity);
    if found.Some? {
      assert ActiveFor(s, identity, found.value);
    }
  }

  // --- Where answers come from ------------------------------------------------------------

  /** An answer call of the run gave session `id` this text for this field. */
  ghost predicate GivenBy(calls: seq<Call>, id: nat, field: string, answer: string) {
    exists i :: 0 <= i < |calls| && calls[i].AnswerCall? && calls[i].id == id
                && calls[i].field == field && calls[i].answer == answer
  }

  /** No call but an answer touches the answers of a session. */
  lemma OthersKeepAnswers(s: State, call: Call, id: nat)
    requires !call.AnswerCall? || call.id != id
    ensures id < |s.sessions| ==>
              id < |Apply(s, call).sessions| && Apply(s, call).sessions[id].answers == s.sessions[id].answers
    ensures |s.sessions| <= id < |Apply(s, call).sessions| ==> Apply(s, call).sessions[id].answers == map[]
  {
    hide FirstMissing, Start, Active, DecideConsent, RecordAnswer, Complete, Cancel;
    match call
    case StartCall(identity, schema, now, conversationOpen) =>
      StartKeepsAnswers(s, identity, schema, now, conversationOpen, id);
    case ActiveCall(identity, now) => ActiveKeepsAnswers(s, identity, now, id);
    case ConsentCall(identity, other, decision, now, key) =>
      ConsentKeepsAnswers(s, identity, other, decision, now, key, id);
    case AnswerCall(identity, other, field, answer, key) => AnswerMeaning(s, identity, other, field, answer, key);
    case EditCall(identity, _, _, now) => ActiveKeepsAnswers(s, identity, now, id);
    case CompleteCall(identity, other, lead, settles, key) => CompleteMeaning(s, identity, other, lead, settles, key);
    case CancelCall(identity) => CancelKeepsAnswers(s, identity, id);
  }

  lemma StartKeepsAnswers(s: State, identity: int, schema: Schema, now: int, conversationOpen: bool, id: nat)
    ensures var t := Start(s, identity, schema, now, conversationOpen).state;
            && |s.sessions| <= |t.sessions|
            && (id < |s.sessions| ==> t.sessions[id].answers == s.sessions[id].answers)
            && (|s.sessions| <= id < |t.sessions| ==> t.sessions[id].answers == map[])
  {
    hide FindActive;
  }

  lemma ConsentKeepsAnswers(s: State, identity: int, other: nat, decision: Decision, now: int, key: string, id: nat)
    ensures var t := DecideConsent(s, identity, other, decision, now, key).state;
            && |t.sessions| == |s.sessions|
            && (id < |s.sessions| ==> t.sessions[id].answers == s.sessions[id].answers)
  {
    hide FirstMissing;
  }

  lemma CancelKeepsAnswers(s: State, identity: int, id: nat)
    ensures var t := Cancel(s, identity).0;
            && |t.sessions| == |s.sessions|
            && (id < |s.sessions| ==> t.sessions[id].answers == s.sessions[id].answers)
  {
    hide FindActive;
  }

  lemma ActiveKeepsAnswers(s: State, identity: int, now: int, id: nat)
    ensures var t := Active(s, identity, now).0;
            && |t.sessions| == |s.sessions|
            && (id < |s.sessions| ==> t.sessions[id].answers == s.sessions[id].answers)
  {
  }

  lemma GivenStill(calls: seq<Call>, last: Call, id: nat, field: string, answer: string)
    requires GivenBy(calls, id, field, answer)
    ensures GivenBy(calls + [last], id, field, answer)
  {
    var i :| 0 <= i < |calls| && calls[i].AnswerCall? && calls[i].id == id
             && calls[i].field == field && calls[i].answer == answer;
    assert (calls + [last])[i] == calls[i];
  }

  /** Every stored answer was given, word for word, by an answer call about that session and field. */
  lemma {:induction false} AnswersWereGiven(calls: seq<Call>, id: nat, field: string)
    requires id < |Run(EMPTY, calls).sessions| && field in Run(EMPTY, calls).sessions[id].answers
    ensures GivenBy(calls, id, field, Run(EMPTY, calls).sessions[id].answers[field])
  {
    var init, last := calls[..|calls| - 1], calls[|calls| - 1];
    var s := Run(EMPTY, init);
    RunLast(EMPTY, calls);
    assert calls == init + [last];
    var t := Run(EMPTY, calls);
    if last.AnswerCall? && last.id == id {
      AnswerMeaning(s, last.identity, id, last.field, last.answer, last.key);
      hide RecordAnswer, Run;
      if t.sessions != s.sessions && field == last.field {
        assert calls[|calls| - 1] == last;
      } else {
        AnswersWereGiven(init, id, field);
        GivenStill(init, last, id, field, t.sessions[id].answers[field]);
      }
    } else {
      OthersKeepAnswers(s, last, id);
      hide Apply, Run;
      if id < |s.sessions| {
        AnswersWereGiven(init, id, field);
        GivenStill(init, last, id, field, t.sessions[id].answers[field]);
      }
    }
  }

  /** An answer stays as it was given until another answer call about the same session and field. */
  lemma {:induction false} AnswersLast(s: State, calls: seq<Call>, id: nat, field: string)
    requires id < |s.sessions| && field in s.sessions[id].answers
    requires forall i :: 0 <= i < |calls| && calls[i].AnswerCall? && calls[i].id == id ==> calls[i].field != field
    ensures var t := Run(s, calls);
            id < |t.sessions| && field in t.sessions[id].answers
            && t.sessions[id].answers[field] == s.sessions[id].answers[field]
  {
    if calls != [] {
      var init, last := calls[..|calls| - 1], calls[|calls| - 1];
      AnswersLast(s, init, id, field);
      var mid := Run(s, init);
      RunLast(s, calls);
      if last.AnswerCall? && last.id == id {
        AnswerMeaning(mid, last.identity, id, last.field, last.answer, last.key);
        hide RecordAnswer, Run;
      } else {
        OthersKeepAnswers(mid, last, id);
        hide Apply, Run;
      }
    }
  }
}
