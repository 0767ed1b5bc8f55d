/**
 The scripts as Redis executes them: command by command, on the shared hashes,
 ZSETs, counters and streams. Each method is one atomic script and is proved to
 have exactly the effect and the reply of its step in Registry.dfy.
 */
module RedisRunRegistry {
  import opened Prelude
  import opened Registry
  import opened RegistryInvariant

  class RunRegistry {
    var runs: map<Id, Run>
    var active: map<Id, nat>
    var running: map<Id, nat>
    var metrics: map<Status, int>
    var retained: int
    var audit: seq<Audit>
    var now: nat

    ghost function View(): Store
      reads this
    {
      Store(runs, active, running, metrics, retained, audit, now)
    }

    constructor (start: nat)
      ensures View() == EmptyStore(start) && Inv(View())
    {
      runs, active, running, metrics := map[], map[], map[], map[];
      retained, audit, now := 0, [], start;
      EmptyStoreInv(start);
    }

    method Tick(ms: nat)
      modifies this
      ensures View() == Next(old(View()), OpTick(ms))
    {
      now := now + ms;
    }

    /** The writes of a script that only changes the run and reports it. */
    method Record(id: Id, run: Run, entries: seq<Audit>)
      requires id in runs && run.status == runs[id].status
      modifies this
      ensures View() == Commit(old(View()), id, run, ZKeep, ZKeep, entries)
    {
      runs := runs[id := run];
      audit := audit + entries;
    }

    /** The writes of a script after which the run waits for a slot again. */
    method EnterQueue(id: Id, run: Run, entries: seq<Audit>)
      requires id in runs && run.status.Queued?
      modifies this
      ensures View() == Commit(old(View()), id, run, ZAdd(run.lease), ZRem, entries)
    {
      var oldStatus := runs[id].status;
      runs := runs[id := run];
      active := active[id := run.lease];
      running := running - {id};
      if oldStatus != Queued {
        metrics := HIncrBy(metrics, oldStatus, -1);
        metrics := HIncrBy(metrics, Queued, 1);
      }
      audit := audit + entries;
    }

    /** The writes of a script after which a queued run holds a slot. */
    method TakeSlot(id: Id, run: Run, entries: seq<Audit>)
      requires id in runs && runs[id].status.Queued? && run.status.Running?
      modifies this
      ensures View() == Commit(old(View()), id, run, ZAdd(run.lease), ZAdd(run.lease), entries)
    {
      runs := runs[id := run];
      active := active[id := run.lease];
      running := running[id := run.lease];
      metrics := HIncrBy(metrics, Queued, -1);
      metrics := HIncrBy(metrics, Running, 1);
      audit := audit + entries;
    }

    /** The writes of a script after which the run neither holds nor wants a slot. */
    method LeaveSlot(id: Id, run: Run, entries: seq<Audit>)
      requires id in runs && runs[id].status != run.status
      modifies this
      ensures View() == Commit(old(View()), id, run, ZRem, ZRem, entries)
    {
      var oldStatus := runs[id].status;
      runs := runs[id := run];
      active := active - {id};
      running := running - {id};
      metrics := HIncrBy(metrics, oldStatus, -1);
      metrics := HIncrBy(metrics, run.status, 1);
      audit := audit + entries;
    }

    method CreateOrGet(id: Id, request: Request, owner: string, leaseMs: nat, limit: int)
      returns (code: int, value: int)
      modifies this
      ensures Outcome(View(), code, value) == Create(old(View()), id, request, owner, leaseMs, limit)
    {
      if id in runs {
        var run := runs[id];
        if run.request.user != "" && run.request.user != request.user {
          return -2, 0;
        }
        if run.request.fingerprint != request.fingerprint || run.request.kind != request.kind {
          return -1, 0;
        }
        if run.status.WaitingForInput? || Terminal(run.status) {
          return 0, run.fence;
        }
        if run.lease <= now {
          run := run.(fence := run.fence + 1, owner := owner, lease := now + leaseMs, status := Queued);
          run := run.(report := run.report.(failure := NoFailure, httpStatus := 500), terminalEmitted := false);
          run := run.(version := run.version + 1);
          assert run == TakenOver(runs[id], owner, now + leaseMs);
          EnterQueue(id, run, [Audit(id, RunLeaseTakenOver, Queued, owner, run.fence)]);
          return 2, run.fence;
        }
        return 0, run.fence;
      }
      if ZCount(active, now) >= limit {
        return -3, 0;
      }
      var lease := now + leaseMs;
      runs := runs[id := NewRun(request, owner, lease)];
      active := active[id := lease];
      metrics := HIncrBy(metrics, Queued, 1);
      retained := retained + 1;
      audit := audit + [Audit(id, RunAccepted, Queued, owner, 1)];
      return 1, 1;
    }

    method AppendEvent(id: Id, owner: string, fence: nat, text: string, key: string, audited: bool)
      returns (code: int, value: int)
      modifies this
      ensures Outcome(View(), code, value) == Append(old(View()), id, owner, fence, Classify(text), key, audited)
    {
      var payload := Classify(text);
      var done := IsDone(payload);
      if id !in runs {
        return -1, 0;
      }
      var run := runs[id];
      if run.owner != owner || run.fence != fence {
        return -2, 0;
      }
      if Terminal(run.status) {
        return -3, 0;
      }
      if run.status.WaitingForInput? && done {
        return -4, 0;
      }
      if key != "" {
        if key in run.dedupe {
          return 0, if run.dedupe[key].EventMark? then run.dedupe[key].event else 0;
        }
      }
      run := Push(run, payload, Some(fence));
      run := Trimmed(run);
      if key != "" {
        run := run.(dedupe := run.dedupe[key := EventMark(run.lastEventId)]);
      }
      if done {
        run := run.(terminalEmitted := true);
      }
      assert run == Appended(runs[id], payload, fence, key);
      Record(id, run, if audited then [Audit(id, StreamPayload, run.status, owner, fence)] else []);
      return 1, run.lastEventId;
    }

    method AcquireRunning(id: Id, owner: string, fence: nat, maxRunning: int, leaseMs: nat)
      returns (code: int, value: int)
      modifies this
      ensures Outcome(View(), code, value) == Acquire(old(View()), id, owner, fence, maxRunning, leaseMs)
    {
      if id !in runs {
        return -1, 0;
      }
      var run := runs[id];
      if run.owner != owner || run.fence != fence {
        return -2, 0;
      }
      if run.status != Queued {
        return -3, 0;
      }
      if ZCount(running, now) >= maxRunning {
        return 0, 0;
      }
      var lease := now + leaseMs;
      run := run.(status := Running, lease := lease, version := run.version + 1);
      assert run == Started(runs[id], lease);
      TakeSlot(id, run, [Audit(id, RunStarted, Running, owner, fence)]);
      return 1, 0;
    }

    method RenewLease(id: Id, owner: string, fence: nat, leaseMs: nat)
      returns (code: int, value: int)
      modifies this
      ensures Outcome(View(), code, value) == Heartbeat(old(View()), id, owner, fence, leaseMs)
    {
      if id !in runs || runs[id].owner != owner || runs[id].fence != fence {
        return 0, 0;
      }
      var run := runs[id];
      if run.status.WaitingForInput? || Terminal(run.status) {
        return 0, 0;
      }
      var lease := now + leaseMs;
      runs := runs[id := run.(lease := lease)];
      active := active[id := lease];
      if run.status.Running? {
        running := running[id := lease];
      }
      assert audit == old(audit) + [];
      return 1, 0;
    }

    method ReleaseLease(id: Id, owner: string, fence: nat)
      returns (code: int, value: int)
      modifies this
      ensures Outcome(View(), code, value) == Release(old(View()), id, owner, fence)
    {
      if id !in runs || runs[id].owner != owner || runs[id].fence != fence {
        return 0, 0;
      }
      var run := runs[id];
      if run.status.WaitingForInput? {
        return 1, 0;
      }
      if Terminal(run.status) {
        return 0, 0;
      }
      runs := runs[id := run.(lease := 0)];
      active := active[id := 0];
      running := running[id := 0];
      assert audit == old(audit) + [];
      return 1, 0;
    }

    method FinishRun(id: Id, owner: string, fence: nat, target: Status, result: string, failure: Failure, httpStatus: int)
      returns (code: int, value: int)
      modifies this
      ensures Outcome(View(), code, value) ==
              Transition(old(View()), id, owner, fence, target, result, failure, httpStatus)
    {
      if id !in runs {
        return -1, 0;
      }
      var run := runs[id];
      if run.owner != owner || run.fence != fence {
        return -2, 0;
      }
      var oldStatus := run.status;
      if oldStatus == target {
        return 0, 0;
      }
      if Terminal(oldStatus) {
        return -3, 0;
      }
      if !Terminal(target) {
        return -4, 0;
      }
      run := run.(status := target, lease := 0, version := run.version + 1);
      run := run.(report := run.report.(result := result, failure := failure, httpStatus := httpStatus));
      assert run == Finished(runs[id], target, result, failure, httpStatus);
      LeaveSlot(id, run, [Audit(id, RunFinished, target, owner, fence)]);
      return 1, 0;
    }

    method CancelRun(id: Id, user: string, errorPayload: Payload)
      returns (code: int, value: int)
      modifies this
      ensures Outcome(View(), code, value) == Cancel(old(View()), id, user, errorPayload)
    {
      if id !in runs {
        return -1, 0;
      }
      var run := runs[id];
      if run.request.user != "" && run.request.user != user {
        return -2, 0;
      }
      var oldStatus := run.status;
      if Terminal(oldStatus) {
        return 0, run.fence;
      }
      run := run.(fence := run.fence + 1);
      run := run.(status := Cancelled, lease := 0, version := run.version + 1);
      run := run.(report := run.report.(failure := RunWasCancelled, httpStatus := 409));
      if run.request.kind == Stream {
        run := run.(terminalEmitted := true);
      }
      assert run == CancelMarked(runs[id]);
      if run.request.kind == Stream {
        run := Push(run, errorPayload, Some(run.fence));
        run := Push(run, DoneMarker, Some(run.fence));
        run := Trimmed(run);
      }
      assert run == CancelledRun(runs[id], errorPayload);
      LeaveSlot(id, run, [Audit(id, RunFinished, Cancelled, run.owner, run.fence)]);
      return 1, run.fence;
    }

    method AssignRunId(id: Id, owner: string, fence: nat, runId: string)
      returns (code: int, value: int)
      modifies this
      ensures Outcome(View(), code, value) == SetRunId(old(View()), id, owner, fence, runId)
    {
      if id !in runs {
        return -1, 0;
      }
      var run := runs[id];
      if run.owner != owner || run.fence != fence {
        return -2, 0;
      }
      runs := runs[id := run.(runId := runId)];
      audit := audit + [Audit(id, RunIdAssigned, run.status, owner, fence)];
      return 1, 0;
    }

    method MarkFailed(id: Id, owner: string, fence: nat, failure: Failure, httpStatus: int)
      returns (code: int, value: int)
      modifies this
      ensures Outcome(View(), code, value) == MarkStreamFailed(old(View()), id, owner, fence, failure, httpStatus)
    {
      if id !in runs {
        return -1, 0;
      }
      var run := runs[id];
      if run.owner != owner || run.fence != fence {
        return -2, 0;
      }
      if Terminal(run.status) {
        return -3, 0;
      }
      run := run.(report := run.report.(streamFailed := true, failure := failure));
      run := run.(report := run.report.(httpStatus := httpStatus));
      runs := runs[id := run];
      audit := audit + [Audit(id, RunStreamFailed, run.status, owner, fence)];
      return 1, 0;
    }

    method PauseForInput(id: Id, owner: string, fence: nat, asked: Interaction, text: string, key: string, audited: bool)
      returns (code: int, value: int)
      modifies this
      ensures Outcome(View(), code, value) == Pause(old(View()), id, owner, fence, asked, Classify(text), key, audited)
    {
      var payload := Classify(text);
      if id !in runs {
        return -1, 0;
      }
      var run := runs[id];
      if run.owner != owner || run.fence != fence {
        return -2, 0;
      }
      if run.status.WaitingForInput? {
        if run.pending == Some(asked) {
          return 0, if key in run.dedupe && run.dedupe[key].EventMark? then run.dedupe[key].event else 0;
        }
        return -4, 0;
      }
      if run.status != Running {
        return -3, 0;
      }
      run := Push(run, payload, None);
      run := Trimmed(run);
      run := run.(dedupe := run.dedupe[key := EventMark(run.lastEventId)]);
      run := run.(status := WaitingForInput, pending := Some(asked), lease := 0, version := run.version + 1);
      assert run == PausedRun(runs[id], asked, payload, key);
      LeaveSlot(id, run, PauseAudit(id, owner, fence, audited));
      return 1, run.lastEventId;
    }

    method ResumeRun(id: Id, user: string, answered: Interaction, response: string, owner: string, leaseMs: nat)
      returns (code: int, value: int)
      modifies this
      ensures Outcome(View(), code, value) == Resume(old(View()), id, user, answered, response, owner, leaseMs)
    {
      if id !in runs {
        return -1, 0;
      }
      var run := runs[id];
      if run.request.user != "" && run.request.user != user {
        return -2, 0;
      }
      var key := ResponseKey(response);
      if key in run.dedupe {
        if run.dedupe[key] == ResponseMark(answered) {
          if run.status != WaitingForInput || run.pending != Some(answered) {
            return 0, run.fence;
          }
        } else {
          return -5, 0;
        }
      }
      if run.status != WaitingForInput {
        return -3, 0;
      }
      if run.pending != Some(answered) {
        return -4, 0;
      }
      run := run.(fence := run.fence + 1);
      var lease := now + leaseMs;
      run := run.(status := Queued, owner := owner, lease := lease, pending := None);
      run := run.(report := run.report.(failure := NoFailure), terminalEmitted := false, version := run.version + 1);
      run := run.(dedupe := run.dedupe[key := ResponseMark(answered)]);
      assert run == Resumed(runs[id], answered, key, owner, lease);
      EnterQueue(id, run, [Audit(id, RunInputAccepted, Queued, owner, run.fence)]);
      return 1, run.fence;
    }
  }
}
