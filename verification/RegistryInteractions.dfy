/** Pausing for human input and resuming: the compare-and-swap over whole runs. */
module RegistryInteractions {
  import opened Prelude
  import opened Registry
  import opened RegistryHistory

  predicate Paused(s: Store, op: Op, id: Id) {
    op.OpPause? && op.id == id && Step(s, op).code == 1
  }

  predicate Resumes(s: Store, op: Op, id: Id) {
    op.OpResume? && op.id == id && Step(s, op).code == 1
  }

  predicate WaitingOn(s: Store, id: Id, asked: Interaction) {
    id in s.runs && s.runs[id].status.WaitingForInput? && s.runs[id].pending == Some(asked)
  }

  predicate Waiting(s: Store, id: Id) {
    id in s.runs && s.runs[id].status.WaitingForInput?
  }

  predicate Over(s: Store, id: Id) {
    id in s.runs && Terminal(s.runs[id].status)
  }

  /** How often the run was paused, counting only `which` when one is given. */
  function Pauses(s: Store, ops: seq<Op>, id: Id, which: Option<Interaction>): nat
    decreases |ops|
  {
    if ops == [] then 0
    else (if Paused(s, ops[0], id) && (which.Some? ==> ops[0].asked == which.value) then 1 else 0)
         + Pauses(Next(s, ops[0]), ops[1..], id, which)
  }

  function Answers(s: Store, ops: seq<Op>, id: Id, which: Option<Interaction>): nat
    decreases |ops|
  {
    if ops == [] then 0
    else (if Resumes(s, ops[0], id) && (which.Some? ==> ops[0].answered == which.value) then 1 else 0)
         + Answers(Next(s, ops[0]), ops[1..], id, which)
  }

  /** The only ways into and out of waiting: an accepted pause, an accepted resume, or an end. */
  lemma WaitingStep(s: Store, op: Op, id: Id)
    ensures Paused(s, op, id) ==> !Waiting(s, id) && !Over(s, id) && WaitingOn(Next(s, op), id, op.asked)
    ensures Resumes(s, op, id) ==> WaitingOn(s, id, op.answered) && !Waiting(Next(s, op), id) && !Over(Next(s, op), id)
    ensures !Paused(s, op, id) && !Resumes(s, op, id) && !Over(Next(s, op), id) ==>
              (Waiting(s, id) <==> Waiting(Next(s, op), id))
    ensures !Paused(s, op, id) && Waiting(Next(s, op), id) ==>
              id in s.runs && Next(s, op).runs[id].pending == s.runs[id].pending && Waiting(s, id)
    ensures Over(s, id) ==> Over(Next(s, op), id)
  {
    if op.OpTick? || op.id != id {
      OthersUntouched(s, op, id);
    } else if !op.OpPause? && !op.OpResume? {
      StaysWaitingOrEnds(s, op, id);
    }
  }

  /** Every script but pause and resume leaves a waiting run waiting on the same question, or ends it. */
  lemma StaysWaitingOrEnds(s: Store, op: Op, id: Id)
    requires !op.OpTick? && op.id == id && !op.OpPause? && !op.OpResume?
    ensures Waiting(Next(s, op), id) ==> Waiting(s, id) && Next(s, op).runs[id].pending == s.runs[id].pending
    ensures Waiting(s, id) ==> Waiting(Next(s, op), id) || Over(Next(s, op), id)
    ensures Over(s, id) ==> Over(Next(s, op), id)
  {
  }

  function Debt(b: bool): nat { if b then 1 else 0 }

  lemma {:induction false} NothingAfterTheEnd(s: Store, ops: seq<Op>, id: Id)
    requires Over(s, id)
    ensures Pauses(s, ops, id, None) == 0 && Answers(s, ops, id, None) == 0 && Over(Exec(s, ops), id)
    decreases |ops|
  {
    if ops != [] {
      WaitingStep(s, ops[0], id);
      NothingAfterTheEnd(Next(s, ops[0]), ops[1..], id);
    }
  }

  /**
   Accepted resumes and pauses alternate: resumes <= pauses <= resumes + 1 (counting a
   pause already pending at the start), and a run that is still going is waiting exactly
   when it owes one answer.
   */
  lemma {:induction false} PausesAndResumesAlternate(s: Store, ops: seq<Op>, id: Id)
    ensures var asked := Pauses(s, ops, id, None) + Debt(Waiting(s, id));
            var answered := Answers(s, ops, id, None);
            && answered <= asked <= answered + 1
            && (!Over(Exec(s, ops), id) ==> asked == answered + Debt(Waiting(Exec(s, ops), id)))
    decreases |ops|
  {
    if ops != [] {
      var s' := Next(s, ops[0]);
      WaitingStep(s, ops[0], id);
      PausesAndResumesAlternate(s', ops[1..], id);
      if Over(s', id) {
        NothingAfterTheEnd(s', ops[1..], id);
      }
    }
  }

  /** Each accepted answer to a question uses up one accepted asking of that same question. */
  lemma {:induction false} EachAnswerUsesOneAsking(s: Store, ops: seq<Op>, id: Id, asked: Interaction)
    ensures Answers(s, ops, id, Some(asked)) <=
            Pauses(s, ops, id, Some(asked)) + Debt(WaitingOn(s, id, asked))
    decreases |ops|
  {
    if ops != [] {
      WaitingStep(s, ops[0], id);
      EachAnswerUsesOneAsking(Next(s, ops[0]), ops[1..], id, asked);
    }
  }

  /** The pause script's dedupe keys never collide with a response key. */
  ghost predicate KeysApart(ops: seq<Op>, key: string) {
    forall i :: 0 <= i < |ops| ==> !(ops[i].OpPause? && ops[i].key == key)
  }

  lemma {:induction false} ResponseStaysRecorded(s: Store, ops: seq<Op>, id: Id, response: string, answered: Interaction)
    requires id in s.runs && ResponseKey(response) in s.runs[id].dedupe
    requires s.runs[id].dedupe[ResponseKey(response)] == ResponseMark(answered)
    requires KeysApart(ops, ResponseKey(response))
    ensures id in Exec(s, ops).runs && ResponseKey(response) in Exec(s, ops).runs[id].dedupe
    ensures Exec(s, ops).runs[id].dedupe[ResponseKey(response)] == ResponseMark(answered)
    ensures Exec(s, ops).runs[id].request == s.runs[id].request
    decreases |ops|
  {
    if ops != [] {
      StepEvolves(s, ops[0], id);
      MarkSurvivesStep(s, ops[0], id, ResponseKey(response), answered);
      ResponseStaysRecorded(Next(s, ops[0]), ops[1..], id, response, answered);
    }
  }

  lemma MarkSurvivesStep(s: Store, op: Op, id: Id, key: string, answered: Interaction)
    requires id in s.runs && key in s.runs[id].dedupe && s.runs[id].dedupe[key] == ResponseMark(answered)
    requires !(op.OpPause? && op.key == key)
    ensures id in Next(s, op).runs && key in Next(s, op).runs[id].dedupe
    ensures Next(s, op).runs[id].dedupe[key] == ResponseMark(answered)
  {
    if op.OpTick? || op.id != id {
      OthersUntouched(s, op, id);
    }
  }

  /**
   A response that was accepted once and is sent again starts a second execution
   exactly when the same question is pending again; otherwise it changes nothing.
   */
  lemma RetriedResponse(s: Store, resume: Op, ops: seq<Op>, owner: string, leaseMs: nat)
    requires resume.OpResume? && Step(s, resume).code == 1
    requires KeysApart(ops, ResponseKey(resume.response))
    ensures var t := Exec(Next(s, resume), ops);
            var retry := resume.(owner := owner, leaseMs := leaseMs);
            && (Step(t, retry).code == 1 <==> WaitingOn(t, resume.id, resume.answered))
            && (Step(t, retry).code != 1 ==> Step(t, retry).store == t && Step(t, retry).code == 0)
  {
    ResponseStaysRecorded(Next(s, resume), ops, resume.id, resume.response, resume.answered);
  }

  /** `start` on a waiting run only reports its fence. */
  lemma StartNeverTakesOverAWaitingRun(s: Store, op: Op)
    requires op.OpCreate? && Waiting(s, op.id)
    ensures Step(s, op).store == s && Step(s, op).code <= 0
  {
  }
}
