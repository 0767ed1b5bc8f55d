/**
 What a single run can become: its log only grows, its fence never falls, and a
 terminal run stays as it is.
 */
module RegistryHistory {
  import opened Registry

  /** `b` is a later state of the run that was `a`. */
  ghost predicate Evolves(a: Run, b: Run) {
    && a.request == b.request
    && a.log <= b.log
    && a.fence <= b.fence
    && a.version <= b.version
    && (a.report.streamFailed ==> b.report.streamFailed)
    && (a.owner != b.owner ==> a.fence < b.fence)
    && (a.version == b.version ==> a.status == b.status && a.fence == b.fence)
    && (Terminal(a.status) ==> b == a.(runId := b.runId))
  }

  lemma EvolvesTransitive(a: Run, b: Run, c: Run)
    requires Evolves(a, b) && Evolves(b, c)
    ensures Evolves(a, c)
  {
  }

  /** One step: either the run evolves within its version, or the version rises by exactly one. */
  ghost predicate Stepped(a: Run, b: Run) {
    Evolves(a, b) && b.version <= a.version + 1
  }

  lemma CreateSteps(s: Store, op: Op)
    requires op.OpCreate? && op.id in s.runs
    ensures op.id in Next(s, op).runs && Stepped(s.runs[op.id], Next(s, op).runs[op.id])
  {
  }

  lemma AppendSteps(s: Store, op: Op)
    requires op.OpAppend? && op.id in s.runs
    ensures op.id in Next(s, op).runs && Stepped(s.runs[op.id], Next(s, op).runs[op.id])
  {
  }

  lemma CancelSteps(s: Store, op: Op)
    requires op.OpCancel? && op.id in s.runs
    ensures op.id in Next(s, op).runs && Stepped(s.runs[op.id], Next(s, op).runs[op.id])
  {
  }

  lemma PauseSteps(s: Store, op: Op)
    requires op.OpPause? && op.id in s.runs
    ensures op.id in Next(s, op).runs && Stepped(s.runs[op.id], Next(s, op).runs[op.id])
  {
  }

  lemma ResumeSteps(s: Store, op: Op)
    requires op.OpResume? && op.id in s.runs
    ensures op.id in Next(s, op).runs && Stepped(s.runs[op.id], Next(s, op).runs[op.id])
  {
  }

  lemma LeaseSteps(s: Store, op: Op)
    requires op.OpAcquire? || op.OpHeartbeat? || op.OpRelease?
    requires op.id in s.runs
    ensures op.id in Next(s, op).runs && Stepped(s.runs[op.id], Next(s, op).runs[op.id])
  {
  }

  lemma RecordSteps(s: Store, op: Op)
    requires op.OpTransition? || op.OpSetRunId? || op.OpMarkFailed?
    requires op.id in s.runs
    ensures op.id in Next(s, op).runs && Stepped(s.runs[op.id], Next(s, op).runs[op.id])
  {
  }

  /** A script touches no run but its own. */
  lemma OthersUntouched(s: Store, op: Op, id: Id)
    requires op.OpTick? || op.id != id
    ensures id in Next(s, op).runs <==> id in s.runs
    ensures id in s.runs ==> Next(s, op).runs[id] == s.runs[id]
  {
  }

  lemma StepEvolves(s: Store, op: Op, id: Id)
    requires id in s.runs
    ensures id in Next(s, op).runs && Stepped(s.runs[id], Next(s, op).runs[id])
  {
    if op.OpTick? || op.id != id {
      OthersUntouched(s, op, id);
    } else {
      match op
      case OpCreate(_, _, _, _, _) => CreateSteps(s, op);
      case OpAppend(_, _, _, _, _, _) => AppendSteps(s, op);
      case OpCancel(_, _, _) => CancelSteps(s, op);
      case OpPause(_, _, _, _, _, _, _) => PauseSteps(s, op);
      case OpResume(_, _, _, _, _, _) => ResumeSteps(s, op);
      case OpAcquire(_, _, _, _, _) => LeaseSteps(s, op);
      case OpHeartbeat(_, _, _, _) => LeaseSteps(s, op);
      case OpRelease(_, _, _) => LeaseSteps(s, op);
      case OpTransition(_, _, _, _, _, _, _) => RecordSteps(s, op);
      case OpSetRunId(_, _, _, _) => RecordSteps(s, op);
      case OpMarkFailed(_, _, _, _, _) => RecordSteps(s, op);
    }
  }

  lemma {:induction false} ExecEvolves(s: Store, ops: seq<Op>, id: Id)
    requires id in s.runs
    ensures id in Exec(s, ops).runs
    ensures Evolves(s.runs[id], Exec(s, ops).runs[id])
    decreases |ops|
  {
    if ops != [] {
      var s' := Next(s, ops[0]);
      StepEvolves(s, ops[0], id);
      ExecEvolves(s', ops[1..], id);
      EvolvesTransitive(s.runs[id], s'.runs[id], Exec(s', ops[1..]).runs[id]);
    }
  }

  /** No later script changes a terminal run, except that its owner may still name its run id. */
  lemma TerminalIsAbsorbing(s: Store, ops: seq<Op>, id: Id)
    requires id in s.runs && Terminal(s.runs[id].status)
    ensures id in Exec(s, ops).runs
    ensures Exec(s, ops).runs[id] == s.runs[id].(runId := Exec(s, ops).runs[id].runId)
  {
    ExecEvolves(s, ops, id);
  }

  /** No script takes a stream failure back, neither a takeover nor a resume. */
  lemma StreamFailureStays(s: Store, ops: seq<Op>, id: Id)
    requires id in s.runs && s.runs[id].report.streamFailed
    ensures id in Exec(s, ops).runs && Exec(s, ops).runs[id].report.streamFailed
  {
    ExecEvolves(s, ops, id);
  }

  /** The owner of a run that has ended may still name its run id, as often as it likes. */
  lemma EndedRunTakesARunId(s: Store, id: Id, runId: string)
    requires id in s.runs && Terminal(s.runs[id].status)
    ensures var o := SetRunId(s, id, s.runs[id].owner, s.runs[id].fence, runId);
            o.code == 1 && o.store.runs == s.runs[id := s.runs[id].(runId := runId)]
  {
  }
}
