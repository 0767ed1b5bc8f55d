/** The buffered event log, replay gaps and the audit trail. */
module RegistryLog {
  import opened Prelude
  import opened Registry
  import opened RegistryInvariant

  predicate Buffered(r: Run, id: int) {
    exists i :: 0 <= i < |r.events| && r.events[i].id == id
  }

  /** `_replay_gap`: the oldest id a reader at `cursor` can still get, when it is too new. */
  function ReplayGap(r: Run, cursor: int): Option<int> {
    if r.events == [] then
      if r.lastEventId > cursor then Some(r.lastEventId + 1) else None
    else if cursor < r.events[0].id - 1 then Some(r.events[0].id) else None
  }

  /** The buffer holds exactly the last min(last_event_id, bufferSize) ids, in order. */
  lemma BufferIsContiguous(r: Run)
    requires RunInv(r)
    ensures |r.events| == if r.lastEventId <= r.request.bufferSize then r.lastEventId else r.request.bufferSize
    ensures forall i :: 0 <= i < |r.events| ==>
              r.events[i] == r.log[r.lastEventId - |r.events| + i] && r.events[i].id == r.lastEventId - |r.events| + i + 1
  {
    forall i | 0 <= i < |r.events| ensures r.events[i].id == r.lastEventId - |r.events| + i + 1 {
      assert EventAt(r, r.lastEventId - |r.events| + i);
    }
  }

  /** No gap is reported exactly when every id after the cursor is still buffered. */
  lemma NoGapMeansAllBuffered(r: Run, cursor: nat)
    requires RunInv(r)
    ensures ReplayGap(r, cursor).None? <==> forall id :: cursor < id <= r.lastEventId ==> Buffered(r, id)
  {
    BufferIsContiguous(r);
    if ReplayGap(r, cursor).None? {
      forall id | cursor < id <= r.lastEventId ensures Buffered(r, id) {
        assert r.events[id - 1 - (r.lastEventId - |r.events|)].id == id;
      }
    } else {
      assert !Buffered(r, cursor + 1);
    }
  }

  // ---------------------------------------------------------------- audit

  /** The steps that must leave an audit record of a run's lifecycle. */
  predicate LifecycleAccepted(s: Store, op: Op) {
    || (op.OpCreate? && Step(s, op).code >= 1)
    || ((op.OpAcquire? || op.OpPause? || op.OpResume? || op.OpTransition? || op.OpCancel?) && Step(s, op).code == 1)
  }

  function LifecycleEntries(audit: seq<Audit>): nat {
    if audit == [] then 0
    else LifecycleEntries(audit[..|audit| - 1]) + if Lifecycle(audit[|audit| - 1].kind) then 1 else 0
  }

  /**
   An accepted lifecycle step appends exactly one lifecycle entry, about its own run and
   the state it reached, in the same atomic step; every other step appends none.
   */
  lemma AcceptedStepsAreAudited(s: Store, op: Op)
    ensures s.audit <= Next(s, op).audit
    ensures LifecycleEntries(Next(s, op).audit) == LifecycleEntries(s.audit) + if LifecycleAccepted(s, op) then 1 else 0
    ensures LifecycleAccepted(s, op) ==>
              && |Next(s, op).audit| > |s.audit| && op.id in Next(s, op).runs
              && Lifecycle(Next(s, op).audit[|s.audit|].kind)
              && Describes(Next(s, op).audit[|s.audit|], op.id, Next(s, op).runs[op.id])
  {
    EntriesOfStep(s, op);
    var more := Next(s, op).audit[|s.audit|..];
    assert Next(s, op).audit == s.audit + more;
    EntriesAdded(s.audit, more);
  }

  lemma EntriesAdded(audit: seq<Audit>, more: seq<Audit>)
    requires |more| <= 2 && (|more| == 2 ==> !Lifecycle(more[1].kind))
    ensures LifecycleEntries(audit + more) ==
            LifecycleEntries(audit) + if |more| > 0 && Lifecycle(more[0].kind) then 1 else 0
  {
    if |more| == 0 {
      assert audit + more == audit;
    } else if |more| == 1 {
      assert (audit + more)[..|audit|] == audit;
    } else {
      assert (audit + more)[..|audit| + 1] == audit + [more[0]];
      assert (audit + [more[0]])[..|audit|] == audit;
    }
  }

  /** At most one lifecycle entry, written first and about the state just reached. */
  predicate WellAudited(s: Store, op: Op) {
    && s.audit <= Next(s, op).audit
    && var more := Next(s, op).audit[|s.audit|..];
    && |more| <= 2
    && (|more| == 2 ==> !Lifecycle(more[1].kind))
    && (LifecycleAccepted(s, op) <==> (|more| > 0 && Lifecycle(more[0].kind)))
    && (LifecycleAccepted(s, op) ==> op.id in Next(s, op).runs && Describes(more[0], op.id, Next(s, op).runs[op.id]))
  }

  predicate Describes(e: Audit, id: Id, r: Run) {
    e.run == id && e.status == r.status && e.owner == r.owner && e.fence == r.fence
  }

  lemma EntriesOfGrant(s: Store, op: Op)
    requires op.OpCreate? || op.OpResume?
    ensures WellAudited(s, op)
  {
  }

  lemma EntriesOfStart(s: Store, op: Op)
    requires op.OpAcquire?
    ensures WellAudited(s, op)
  {
  }

  lemma EntriesOfEnd(s: Store, op: Op)
    requires op.OpTransition? || op.OpCancel?
    ensures WellAudited(s, op)
  {
  }

  lemma EntriesOfPause(s: Store, op: Op)
    requires op.OpPause?
    ensures WellAudited(s, op)
  {
  }

  lemma EntriesOfNote(s: Store, op: Op)
    requires op.OpTick? || op.OpAppend? || op.OpHeartbeat? || op.OpRelease? || op.OpSetRunId? || op.OpMarkFailed?
    ensures WellAudited(s, op)
  {
  }

  lemma EntriesOfStep(s: Store, op: Op)
    ensures WellAudited(s, op)
  {
    if op.OpCreate? || op.OpResume? {
      EntriesOfGrant(s, op);
    } else if op.OpAcquire? {
      EntriesOfStart(s, op);
    } else if op.OpTransition? || op.OpCancel? {
      EntriesOfEnd(s, op);
    } else if op.OpPause? {
      EntriesOfPause(s, op);
    } else {
      EntriesOfNote(s, op);
    }
  }

  /**
   In every reachable state, replaying the outbox alone yields each run's status, owner,
   fence and state version: no lifecycle change is missing, reordered or duplicated.
   */
  lemma AuditTrailRebuildsEveryRun(start: nat, ops: seq<Op>, id: Id)
    ensures var s := Exec(EmptyStore(start), ops);
            Replay(s.audit, id) == Facts(s, id)
  {
    ReachableInv(start, ops);
    assert InvAt(Exec(EmptyStore(start), ops), id);
  }
}
