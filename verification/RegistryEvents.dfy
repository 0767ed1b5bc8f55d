/** What reaches a run's event log: one event for each accepted append or pause, and none for a repeat. */
module RegistryEvents {
  import opened Prelude
  import opened Registry
  import opened RegistryHistory
  import opened RegistryInteractions
  import opened RegistryProgress

  // ---------------------------------------------------------------- appends

  /** The run has gained exactly this event. */
  ghost predicate Gains(a: Run, b: Run, id: int, payload: Payload, fence: Option<nat>) {
    && id == a.lastEventId + 1 == b.lastEventId
    && b.log == a.log + [Event(b.lastEventId, payload, fence)]
  }

  predicate Recorded(s: Store, id: Id, key: string) {
    key != "" && id in s.runs && key in s.runs[id].dedupe
  }

  /**
   An append is accepted exactly from the run's own execution, before the run ends, under no key or a
   new one, and never with a marker while the run waits. It then adds one event, with its payload and
   fence, and replies with that event's id.
   */
  lemma AppendAcceptedIff(s: Store, op: Op)
    requires op.OpAppend?
    ensures Step(s, op).code == 1 <==>
            && HeldBy(s, op.id, op.owner, op.fence) && !Over(s, op.id)
            && !(Waiting(s, op.id) && op.payload.DoneMarker?) && !Recorded(s, op.id, op.key)
    ensures Step(s, op).code == 1 ==>
              && Gains(s.runs[op.id], Next(s, op).runs[op.id], Step(s, op).value, op.payload, Some(op.fence))
              && Next(s, op).runs[op.id].status == s.runs[op.id].status
    ensures Step(s, op).code == -4 <==>
            && HeldBy(s, op.id, op.owner, op.fence) && Waiting(s, op.id) && op.payload.DoneMarker?
  {
  }

  /** The steps in between do not ask a question of this run under this key. */
  ghost predicate NoPauseUnder(ops: seq<Op>, id: Id, key: string) {
    forall i :: 0 <= i < |ops| ==> !PausesUnder(ops[i], id, key)
  }

  predicate PausesUnder(op: Op, id: Id, key: string) {
    op.OpPause? && op.id == id && op.key == key
  }

  /** The dedupe hash knows this event. */
  predicate KnowsEvent(s: Store, id: Id, key: string, event: int) {
    && id in s.runs && key in s.runs[id].dedupe
    && s.runs[id].dedupe[key].EventMark? && s.runs[id].dedupe[key].event == event
  }

  lemma EventMarkSurvives(s: Store, op: Op, id: Id, key: string, event: int)
    requires KnowsEvent(s, id, key, event) && !PausesUnder(op, id, key)
    ensures KnowsEvent(Next(s, op), id, key, event)
  {
    if op.OpTick? || op.id != id {
      OthersUntouched(s, op, id);
    }
  }

  lemma {:induction false} EventStaysKnown(s: Store, ops: seq<Op>, id: Id, key: string, event: int)
    requires KnowsEvent(s, id, key, event) && NoPauseUnder(ops, id, key)
    ensures KnowsEvent(Exec(s, ops), id, key, event)
    decreases |ops|
  {
    if ops != [] {
      assert !PausesUnder(ops[0], id, key);
      EventMarkSurvives(s, ops[0], id, key, event);
      assert forall i :: 0 <= i < |ops| - 1 ==> ops[1..][i] == ops[i + 1];
      EventStaysKnown(Next(s, ops[0]), ops[1..], id, key, event);
    }
  }

  /**
   A keyed append happens at most once: after an accepted one and any later steps, repeating it, with
   whatever payload, owner and fence, changes nothing; and the run's execution, as long as it may
   still append, gets the id of the first event.
   */
  lemma RepeatedAppendAddsNothing(s: Store, first: Op, ops: seq<Op>, again: Op)
    requires first.OpAppend? && first.key != "" && Step(s, first).code == 1
    requires again.OpAppend? && again.id == first.id && again.key == first.key
    requires NoPauseUnder(ops, first.id, first.key)
    ensures var t := Exec(Next(s, first), ops);
            && Step(t, again).store == t && Step(t, again).code <= 0
            && (Step(t, again).code == 0 ==> Step(t, again).value == Step(s, first).value)
            && (Step(t, again).code == 0 <==>
                  && HeldBy(t, again.id, again.owner, again.fence) && !Over(t, again.id)
                  && !(Waiting(t, again.id) && again.payload.DoneMarker?))
  {
    EventStaysKnown(Next(s, first), ops, first.id, first.key, Step(s, first).value);
  }

  // ---------------------------------------------------------------- pauses and answers

  /**
   A pause is accepted exactly from the running execution. The run then waits on the question without
   a lease, and its log has gained the question, whose id is the reply.
   */
  lemma PauseAcceptedIff(s: Store, op: Op)
    requires op.OpPause?
    ensures Step(s, op).code == 1 <==> HeldBy(s, op.id, op.owner, op.fence) && s.runs[op.id].status.Running?
    ensures Step(s, op).code == 1 ==>
              && WaitingOn(Next(s, op), op.id, op.asked) && Next(s, op).runs[op.id].lease == 0
              && Gains(s.runs[op.id], Next(s, op).runs[op.id], Step(s, op).value, op.payload, None)
              && HeldBy(Next(s, op), op.id, op.owner, op.fence)
    ensures Step(s, op).code == -4 <==>
            HeldBy(s, op.id, op.owner, op.fence) && Waiting(s, op.id) && !WaitingOn(s, op.id, op.asked)
  {
  }

  /** A pause repeated while its question is pending adds nothing and gets the id of the question. */
  lemma RepeatedPauseAddsNothing(s: Store, first: Op, ops: seq<Op>, again: Op)
    requires first.OpPause? && Step(s, first).code == 1
    requires again.OpPause? && again.id == first.id && again.key == first.key && again.asked == first.asked
    requires NoPauseUnder(ops, first.id, first.key)
    ensures var t := Exec(Next(s, first), ops);
            WaitingOn(t, again.id, again.asked) && HeldBy(t, again.id, again.owner, again.fence) ==>
              Step(t, again) == Outcome(t, 0, Step(s, first).value)
  {
    EventStaysKnown(Next(s, first), ops, first.id, first.key, Step(s, first).value);
  }

  /** What the dedupe hash says of a response: never given, given to this question, or to another one. */
  predicate GivenToAnother(s: Store, op: Op)
    requires op.OpResume?
  {
    && op.id in s.runs && ResponseKey(op.response) in s.runs[op.id].dedupe
    && s.runs[op.id].dedupe[ResponseKey(op.response)] != ResponseMark(op.answered)
  }

  /** The run as an accepted answer leaves it: queued for the answering instance, with its past untouched. */
  ghost predicate AnsweredBy(a: Run, b: Run, owner: string) {
    && b.status.Queued? && b.owner == owner && b.fence == a.fence + 1 && b.pending.None?
    && b.report == a.report.(failure := NoFailure) && !b.terminalEmitted
    && b.log == a.log && b.events == a.events && b.lastEventId == a.lastEventId && b.request == a.request
  }

  /**
   An answer is accepted exactly from a user who may see the run, for the question it waits on, and if
   the response was not given to another question before.
   */
  lemma ResumeAcceptedIff(s: Store, op: Op)
    requires op.OpResume?
    ensures Step(s, op).code == 1 <==>
            OpenTo(s, op.id, op.user) && WaitingOn(s, op.id, op.answered) && !GivenToAnother(s, op)
    ensures Step(s, op).code == 1 ==>
              && AnsweredBy(s.runs[op.id], Next(s, op).runs[op.id], op.owner)
              && Step(s, op).value == s.runs[op.id].fence + 1
    ensures Step(s, op).code == -5 <==> OpenTo(s, op.id, op.user) && GivenToAnother(s, op)
    ensures Step(s, op).code == 0 ==> Step(s, op) == Outcome(s, 0, s.runs[op.id].fence)
    ensures Step(s, op).code == -4 ==> Waiting(s, op.id) && !WaitingOn(s, op.id, op.answered)
    ensures Step(s, op).code == -3 ==> !Waiting(s, op.id)
  {
  }

  // ---------------------------------------------------------------- what the outbox says of it

  /** The entry that an accepted step adds besides those of the lifecycle: its kind, if it adds one. */
  function NoteOf(op: Op): Option<AuditKind> {
    match op
    case OpSetRunId(_, _, _, _) => Some(RunIdAssigned)
    case OpMarkFailed(_, _, _, _, _) => Some(RunStreamFailed)
    case OpAppend(_, _, _, _, _, audited) => if audited then Some(StreamPayload) else None
    case _ => None
  }

  /**
   Steps that leave the status alone note in the outbox what they recorded, exactly once and with the
   run's status, owner and fence; heartbeats, releases and the clock leave no note.
   */
  lemma NotesAreExact(s: Store, op: Op)
    requires op.OpTick? || op.OpHeartbeat? || op.OpRelease? || op.OpSetRunId? || op.OpMarkFailed? || op.OpAppend?
    ensures Next(s, op).audit == s.audit +
            if Step(s, op).code == 1 && NoteOf(op).Some?
            then [Audit(op.id, NoteOf(op).value, s.runs[op.id].status, op.owner, op.fence)] else []
  {
  }

  /** A pause that was asked to also notes the question itself, after the lifecycle entry. */
  lemma PauseNotes(s: Store, op: Op)
    requires op.OpPause? && Step(s, op).code == 1
    ensures Next(s, op).audit == s.audit
              + [Audit(op.id, RunWaitingForInput, WaitingForInput, op.owner, op.fence)]
              + if op.audited then [Audit(op.id, StreamPayload, WaitingForInput, op.owner, op.fence)] else []
  {
  }
}
