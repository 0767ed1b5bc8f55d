/**
 What the scripts accept, and what their callers can count on: leases last as long as they were
 asked for, a dead owner's run can be taken over, no run is ever stuck, and an ended run reports
 what ended it.
 */
module RegistryProgress {
  import opened Prelude
  import opened Registry
  import opened RegistryInvariant
  import opened RegistryHistory
  import opened RegistryIndexes
  import opened RegistryInteractions

  // ---------------------------------------------------------------- who may do what

  /** The run exists and belongs to this owner at this fence. */
  predicate HeldBy(s: Store, id: Id, owner: string, fence: nat) {
    id in s.runs && s.runs[id].owner == owner && s.runs[id].fence == fence
  }

  /** The run exists and nobody, or this user, owns it. */
  predicate OpenTo(s: Store, id: Id, user: string) {
    id in s.runs && (s.runs[id].request.user == "" || s.runs[id].request.user == user)
  }

  /** A start that asks for the run which is already there. */
  predicate AsksFor(s: Store, op: Op) {
    && op.OpCreate? && OpenTo(s, op.id, op.request.user)
    && s.runs[op.id].request.fingerprint == op.request.fingerprint && s.runs[op.id].request.kind == op.request.kind
  }

  /** Whatever a script does not accept, it leaves alone. */
  lemma RefusalChangesNothing(s: Store, op: Op)
    requires Step(s, op).code <= 0
    ensures Step(s, op).store == s
  {
  }

  /** What the refusals of the scripts that check their owner mean. */
  lemma OwnerRefusals(s: Store, op: Op)
    requires op.OpAppend? || op.OpAcquire? || op.OpTransition? || op.OpSetRunId? || op.OpMarkFailed? || op.OpPause?
    ensures Step(s, op).code == -1 <==> op.id !in s.runs
    ensures Step(s, op).code == -2 <==> op.id in s.runs && !HeldBy(s, op.id, op.owner, op.fence)
    ensures op.OpAppend? || op.OpMarkFailed? ==>
              (Step(s, op).code == -3 <==> HeldBy(s, op.id, op.owner, op.fence) && Over(s, op.id))
    ensures op.OpTransition? ==>
              (Step(s, op).code == -3 <==>
               HeldBy(s, op.id, op.owner, op.fence) && Over(s, op.id) && s.runs[op.id].status != op.target)
    ensures op.OpAcquire? ==>
              (Step(s, op).code == -3 <==>
               HeldBy(s, op.id, op.owner, op.fence) && !s.runs[op.id].status.Queued?)
    ensures op.OpPause? ==>
              (Step(s, op).code == -3 <==>
               HeldBy(s, op.id, op.owner, op.fence) && !Waiting(s, op.id) && !s.runs[op.id].status.Running?)
  {
  }

  /** What the refusals of the scripts that check their user mean. */
  lemma UserRefusals(s: Store, op: Op)
    requires op.OpCreate? || op.OpCancel? || op.OpResume?
    ensures Step(s, op).code == -2 <==>
            op.id in s.runs && !OpenTo(s, op.id, if op.OpCreate? then op.request.user else op.user)
    ensures op.OpCreate? ==>
              (Step(s, op).code == -1 <==> OpenTo(s, op.id, op.request.user) && !AsksFor(s, op))
    ensures op.OpCancel? || op.OpResume? ==> (Step(s, op).code == -1 <==> op.id !in s.runs)
    ensures op.OpCancel? ==> (Step(s, op).code == 0 <==> OpenTo(s, op.id, op.user) && Over(s, op.id))
  {
  }

  // ---------------------------------------------------------------- leases

  /** The steps that give a run a lease of `leaseMs`. */
  predicate GivesLease(s: Store, op: Op) {
    || (op.OpCreate? && Step(s, op).code >= 1)
    || ((op.OpAcquire? || op.OpHeartbeat? || op.OpResume?) && Step(s, op).code == 1)
  }

  /** A lease lasts exactly as long as it was asked for. */
  lemma LeaseLastsExactly(s: Store, op: Op, ms: nat)
    requires GivesLease(s, op)
    ensures Live(Next(Next(s, op), OpTick(ms)), op.id) <==> ms < op.leaseMs
  {
  }

  /** A heartbeat is accepted from the run's own execution while the run holds or awaits a slot. */
  lemma HeartbeatAcceptedIff(s: Store, op: Op)
    requires op.OpHeartbeat?
    ensures Step(s, op).code == 1 <==>
            HeldBy(s, op.id, op.owner, op.fence) && (s.runs[op.id].status.Queued? || s.runs[op.id].status.Running?)
    ensures Step(s, op).code == 1 ==>
              Next(s, op).runs[op.id] == s.runs[op.id].(lease := Next(s, op).runs[op.id].lease)
  {
  }

  /**
   A release is accepted from the run's own execution unless the run has ended. A queued or running
   run is then up for takeover at once, without waiting for its lease; a waiting run stays as it is.
   */
  lemma ReleasedIsUpForTakeover(s: Store, release: Op, start: Op)
    requires release.OpRelease? && start.OpCreate? && start.id == release.id
    ensures Step(s, release).code == 1 <==> HeldBy(s, release.id, release.owner, release.fence) && !Over(s, release.id)
    ensures Step(s, release).code == 1 && Waiting(s, release.id) ==> Next(s, release) == s
    ensures Step(s, release).code == 1 && !Waiting(s, release.id) && AsksFor(s, start) ==>
              Step(Next(s, release), start).code == 2
  {
  }

  // ---------------------------------------------------------------- takeover

  /** `b` is `a` queued again for a new execution: nothing of its past is lost. */
  ghost predicate Requeued(a: Run, b: Run, owner: string) {
    && b.status.Queued? && b.owner == owner && b.fence == a.fence + 1
    && b.report.failure.NoFailure? && b.report.httpStatus == 500 && !b.terminalEmitted
    && b.report.result == a.report.result && b.report.streamFailed == a.report.streamFailed
    && b.request == a.request && b.runId == a.runId && b.pending == a.pending
    && b.log == a.log && b.events == a.events && b.lastEventId == a.lastEventId && b.dedupe == a.dedupe
  }

  /** A start takes a run over exactly when it asks for it and the run's lease has ended before it did. */
  lemma TakeoverIff(s: Store, op: Op)
    requires op.OpCreate?
    ensures Step(s, op).code == 2 <==>
            && AsksFor(s, op) && s.runs[op.id].lease <= s.now
            && (s.runs[op.id].status.Queued? || s.runs[op.id].status.Running?)
    ensures Step(s, op).code == 2 ==>
              Requeued(s.runs[op.id], Next(s, op).runs[op.id], op.owner) && Step(s, op).value == s.runs[op.id].fence + 1
    ensures Step(s, op).code == 0 <==>
            AsksFor(s, op) && (s.runs[op.id].lease > s.now || Waiting(s, op.id) || Over(s, op.id))
    ensures Step(s, op).code == 0 ==> Step(s, op) == Outcome(s, 0, s.runs[op.id].fence)
  {
  }

  /** A new run is admitted exactly when fewer than `limit` runs hold an unexpired lease. */
  lemma AdmittedIff(s: Store, op: Op)
    requires Inv(s) && op.OpCreate? && op.id !in s.runs
    ensures Step(s, op).code == (if |LivePending(s)| < op.limit then 1 else -3)
    ensures Step(s, op).code == 1 ==>
              && op.id in Next(s, op).runs && Step(s, op).value == 1
              && var r := Next(s, op).runs[op.id];
              && r.request == op.request && r.status.Queued? && r.owner == op.owner && r.fence == 1
              && r.lastEventId == 0 && r.log == [] && r.report.failure.NoFailure? && !r.terminalEmitted
  {
    CountsEqualScan(s);
  }

  /** The slot script succeeds for a queued run exactly while fewer than `maxRunning` runs are live. */
  lemma AcquireAcceptedIff(s: Store, op: Op)
    requires Inv(s) && op.OpAcquire?
    ensures Step(s, op).code == 1 <==>
            && HeldBy(s, op.id, op.owner, op.fence) && s.runs[op.id].status.Queued?
            && |LiveRunning(s)| < op.maxRunning
    ensures Step(s, op).code == 0 <==>
            && HeldBy(s, op.id, op.owner, op.fence) && s.runs[op.id].status.Queued?
            && |LiveRunning(s)| >= op.maxRunning
    ensures Step(s, op).code == 1 ==>
              && Next(s, op).runs[op.id].status.Running?
              && HeldBy(Next(s, op), op.id, op.owner, op.fence)
              && Next(s, op).runs[op.id].log == s.runs[op.id].log
  {
    CountsEqualScan(s);
  }

  /**
   In every reachable state a queued or running run can be recovered from its owner: once its lease
   has ended, any matching start requeues it under the new owner at the next fence, and with a free
   slot that owner's execution runs.
   */
  lemma DeadOwnersRunIsRecovered(start: nat, ops: seq<Op>, op: Op, ms: nat, acquire: Op)
    requires var s := Exec(EmptyStore(start), ops);
             && AsksFor(s, op) && (s.runs[op.id].status.Queued? || s.runs[op.id].status.Running?)
             && s.now + ms >= s.runs[op.id].lease
             && acquire.OpAcquire? && acquire.id == op.id && acquire.owner == op.owner
             && acquire.fence == s.runs[op.id].fence + 1
    ensures var s := Exec(EmptyStore(start), ops);
            var t := Next(s, OpTick(ms));
            var u := Next(t, op);
            && Step(t, op).code == 2 && Step(t, op).value == s.runs[op.id].fence + 1
            && op.id in u.runs && Requeued(s.runs[op.id], u.runs[op.id], op.owner)
            && (|LiveRunning(u)| < acquire.maxRunning ==>
                  && Step(u, acquire).code == 1 && op.id in Next(u, acquire).runs
                  && Next(u, acquire).runs[op.id].status.Running?
                  && HeldBy(Next(u, acquire), op.id, op.owner, acquire.fence))
  {
    var s := Exec(EmptyStore(start), ops);
    var t := Next(s, OpTick(ms));
    ReachableInv(start, ops);
    StepKeepsInv(s, OpTick(ms));
    StepKeepsInv(t, op);
    TakeoverIff(t, op);
    AcquireAcceptedIff(Next(t, op), acquire);
  }

  // ---------------------------------------------------------------- ends

  /** A transition is accepted from the run's own execution exactly when it ends a run that has not ended. */
  lemma TransitionAcceptedIff(s: Store, op: Op)
    requires op.OpTransition?
    ensures Step(s, op).code == 1 <==>
            HeldBy(s, op.id, op.owner, op.fence) && !Over(s, op.id) && Terminal(op.target)
  {
  }

  lemma CancelAcceptedIff(s: Store, op: Op)
    requires op.OpCancel?
    ensures Step(s, op).code == 1 <==> OpenTo(s, op.id, op.user) && !Over(s, op.id)
  {
  }

  lemma EndKeepsReport(s: Store, ops: seq<Op>, id: Id)
    requires Over(s, id)
    ensures id in Exec(s, ops).runs
    ensures Exec(s, ops).runs[id].status == s.runs[id].status && Exec(s, ops).runs[id].report == s.runs[id].report
    ensures Exec(s, ops).runs[id].log == s.runs[id].log
  {
    ExecEvolves(s, ops, id);
  }

  /** Whatever happens later, an ended run reports the status, result and failure that ended it. */
  lemma ResultIsFinal(s: Store, op: Op, later: seq<Op>)
    requires op.OpTransition? && Step(s, op).code == 1
    ensures var t := Exec(Next(s, op), later);
            && op.id in t.runs && t.runs[op.id].status == op.target && t.runs[op.id].log == s.runs[op.id].log
            && var report := t.runs[op.id].report;
            && report.result == op.result && report.failure == op.failure && report.httpStatus == op.httpStatus
            && report.streamFailed == s.runs[op.id].report.streamFailed
  {
    EndKeepsReport(Next(s, op), later, op.id);
  }

  /**
   A cancelled run stays cancelled and says so; a stream ends with the error event and a marker, both
   at the new fence, which the reply names.
   */
  lemma CancelIsFinal(s: Store, op: Op, later: seq<Op>)
    requires op.OpCancel? && Step(s, op).code == 1
    ensures var t := Exec(Next(s, op), later);
            && op.id in t.runs && t.runs[op.id].status.Cancelled?
            && t.runs[op.id].report.failure.RunWasCancelled? && t.runs[op.id].report.httpStatus == 409
            && t.runs[op.id].report.result == s.runs[op.id].report.result
    ensures var r, fence := s.runs[op.id], s.runs[op.id].fence + 1;
            && Step(s, op).value == fence
            && Exec(Next(s, op), later).runs[op.id].log ==
               r.log + if r.request.kind.Stream?
                       then [Event(r.lastEventId + 1, op.errorPayload, Some(fence)), Event(r.lastEventId + 2, DoneMarker, Some(fence))]
                       else []
  {
    EndKeepsReport(Next(s, op), later, op.id);
    var e := Event(s.runs[op.id].lastEventId + 1, op.errorPayload, Some(s.runs[op.id].fence + 1));
    var d := Event(s.runs[op.id].lastEventId + 2, DoneMarker, Some(s.runs[op.id].fence + 1));
    assert s.runs[op.id].log + [e] + [d] == s.runs[op.id].log + [e, d];
  }

  // ---------------------------------------------------------------- what is recorded about a run

  lemma RunIdAcceptedIff(s: Store, op: Op)
    requires op.OpSetRunId?
    ensures Step(s, op).code == 1 <==> HeldBy(s, op.id, op.owner, op.fence)
    ensures Step(s, op).code == 1 ==> Next(s, op).runs == s.runs[op.id := s.runs[op.id].(runId := op.runId)]
  {
  }

  /** A stream failure is recorded exactly for the run's own execution while the run goes on, and does not end it. */
  lemma StreamFailureAcceptedIff(s: Store, op: Op)
    requires op.OpMarkFailed?
    ensures Step(s, op).code == 1 <==> HeldBy(s, op.id, op.owner, op.fence) && !Over(s, op.id)
    ensures Step(s, op).code == 1 ==>
              var r := Next(s, op).runs[op.id];
              && r == s.runs[op.id].(report := r.report) && r.report.streamFailed
              && r.report.failure == op.failure && r.report.httpStatus == op.httpStatus
              && r.report.result == s.runs[op.id].report.result
  {
  }

  // ---------------------------------------------------------------- no run is stuck

  /** A moment at which every lease of `ids` has ended. */
  lemma {:induction false} LeasesEnd(s: Store, ids: set<Id>) returns (ms: nat)
    ensures forall id :: id in ids && id in s.runs ==> s.runs[id].lease <= s.now + ms
    decreases ids
  {
    if ids == {} {
      ms := 0;
    } else {
      var id :| id in ids;
      ms := LeasesEnd(s, ids - {id});
      if id in s.runs && s.runs[id].lease > ms {
        ms := s.runs[id].lease;
      }
      assert ids == (ids - {id}) + {id};
    }
  }

  /** The steps that finish a run: wait, take it over or answer it, take a slot, end it. */
  function Rescue(grant: Op, ms: nat, fence: nat, maxRunning: int, leaseMs: nat, end: Op): seq<Op>
    requires (grant.OpCreate? || grant.OpResume?) && end.OpTransition?
  {
    [OpTick(ms), grant, OpAcquire(grant.id, grant.owner, fence, maxRunning, leaseMs), end]
  }

  /** A start that asks for the run, or a fresh answer to the question it waits on. */
  ghost predicate Revives(s: Store, grant: Op) {
    || (AsksFor(s, grant) && (s.runs[grant.id].status.Queued? || s.runs[grant.id].status.Running?))
    || (grant.OpResume? && OpenTo(s, grant.id, grant.user) && WaitingOn(s, grant.id, grant.answered)
        && ResponseKey(grant.response) !in s.runs[grant.id].dedupe)
  }

  lemma NobodyRuns(s: Store, ms: nat, grant: Op)
    requires Inv(s) && (grant.OpCreate? || grant.OpResume?)
    requires forall id :: id in s.runs ==> s.runs[id].lease <= s.now + ms
    ensures LiveRunning(Next(Next(s, OpTick(ms)), grant)) == {}
  {
    var t := Next(s, OpTick(ms));
    forall id ensures !LiveAndRunning(Next(t, grant), id) {
      if id == grant.id {
        GrantsAdmitNobody(t, grant);
      } else {
        OthersUntouched(t, grant, id);
        ClockStands(t, grant);
      }
    }
  }

  lemma Revived(s: Store, ms: nat, grant: Op)
    requires Revives(s, grant) && s.runs[grant.id].lease <= s.now + ms
    ensures var t := Next(Next(s, OpTick(ms)), grant);
            && HeldBy(t, grant.id, grant.owner, s.runs[grant.id].fence + 1) && t.runs[grant.id].status.Queued?
            && t.runs[grant.id].log == s.runs[grant.id].log
  {
  }

  /** An answer that has not been given. */
  lemma {:induction false} LongerThanAll(keys: set<string>) returns (n: nat)
    ensures forall key :: key in keys ==> |key| < n
    decreases keys
  {
    if keys == {} {
      n := 0;
    } else {
      var key :| key in keys;
      n := LongerThanAll(keys - {key});
      if |key| >= n {
        n := |key| + 1;
      }
      assert keys == (keys - {key}) + {key};
    }
  }

  /** Every run that has not ended can be revived by any instance. */
  lemma SomethingRevives(s: Store, id: Id, owner: string, leaseMs: nat) returns (grant: Op)
    requires Inv(s) && id in s.runs && !Over(s, id)
    ensures Revives(s, grant) && grant.id == id && grant.owner == owner
  {
    assert InvAt(s, id);
    var r := s.runs[id];
    if r.status.WaitingForInput? {
      var n := LongerThanAll(r.dedupe.Keys);
      var response := seq(n, _ => 'x');
      grant := OpResume(id, r.request.user, r.pending.value, response, owner, leaseMs);
      assert |ResponseKey(response)| > n;
    } else {
      grant := OpCreate(id, r.request, owner, leaseMs, 0);
    }
  }

  /**
   No run is ever stuck. In every reachable state, any instance can bring a run that has not ended to
   any end in four steps, all of them accepted: wait for the leases to end, ask for the run or answer
   its question, take a slot, and end it.
   */
  lemma NoRunIsStuck(start: nat, ops: seq<Op>, owner: string, maxRunning: int, leaseMs: nat, end: Op)
    returns (ms: nat, grant: Op)
    requires maxRunning >= 1 && end.OpTransition? && end.owner == owner && Terminal(end.target)
    requires var s := Exec(EmptyStore(start), ops);
             end.id in s.runs && !Over(s, end.id) && end.fence == s.runs[end.id].fence + 1
    ensures (grant.OpCreate? || grant.OpResume?) && grant.id == end.id && grant.owner == owner
    ensures var s := Exec(EmptyStore(start), ops);
            var t := Exec(s, Rescue(grant, ms, end.fence, maxRunning, leaseMs, end));
            && end.id in t.runs && t.runs[end.id].status == end.target && t.runs[end.id].report.result == end.result
            && t.runs[end.id].log == s.runs[end.id].log
  {
    var s := Exec(EmptyStore(start), ops);
    ReachableInv(start, ops);
    grant := SomethingRevives(s, end.id, owner, leaseMs);
    ms := LeasesEnd(s, s.runs.Keys);
    Rescued(s, grant, ms, maxRunning, leaseMs, end);
  }

  lemma Rescued(s: Store, grant: Op, ms: nat, maxRunning: int, leaseMs: nat, end: Op)
    requires Inv(s) && Revives(s, grant) && maxRunning >= 1
    requires end.OpTransition? && end.id == grant.id && end.owner == grant.owner && Terminal(end.target)
    requires end.fence == s.runs[grant.id].fence + 1
    requires forall id :: id in s.runs ==> s.runs[id].lease <= s.now + ms
    ensures var t := Exec(s, Rescue(grant, ms, end.fence, maxRunning, leaseMs, end));
            && end.id in t.runs && t.runs[end.id].status == end.target && t.runs[end.id].report.result == end.result
            && t.runs[end.id].log == s.runs[end.id].log
  {
    var a := Next(s, OpTick(ms));
    var b := Next(a, grant);
    StepKeepsInv(s, OpTick(ms));
    StepKeepsInv(a, grant);
    Revived(s, ms, grant);
    NobodyRuns(s, ms, grant);
    var acquire := OpAcquire(grant.id, grant.owner, end.fence, maxRunning, leaseMs);
    AcquireAcceptedIff(b, acquire);
    var c := Next(b, acquire);
    TransitionAcceptedIff(c, end);
    ResultIsFinal(c, end, []);
    FourSteps(s, OpTick(ms), grant, acquire, end);
  }

  lemma FourSteps(s: Store, a: Op, b: Op, c: Op, d: Op)
    ensures Exec(s, [a, b, c, d]) == Exec(Next(Next(Next(Next(s, a), b), c), d), [])
  {
    var ops := [a, b, c, d];
    assert ops[1..] == [b, c, d] && ops[1..][1..] == [c, d] && [c, d][1..] == [d] && [d][1..] == [];
    assert Exec(s, ops) == Exec(Next(s, a), [b, c, d]);
    assert [b, c, d][1..] == [c, d];
    assert Exec(Next(s, a), [b, c, d]) == Exec(Next(Next(s, a), b), [c, d]);
    assert Exec(Next(Next(s, a), b), [c, d]) == Exec(Next(Next(Next(s, a), b), c), [d]);
  }
}
