/**
 The inductive invariant of the registry: what holds after every interleaving of
 scripts, whoever runs them.
 */
module RegistryInvariant {
  import opened Prelude
  import opened Registry

  // ---------------------------------------------------------------- one run

  /** `events` is the tail of a gapless log, and the status fixes lease and interaction. */
  ghost predicate RunInv(r: Run) {
    && r.fence >= 1 && r.version >= 1
    && LogInv(r)
    && (Pending(r.status) ==> r.pending.None?)
    && (r.status.WaitingForInput? ==> r.pending.Some?)
    && (!Pending(r.status) ==> r.lease == 0)
  }

  ghost predicate LogInv(r: Run) {
    && |r.log| == r.lastEventId
    && r.events == LastN(r.log, r.request.bufferSize)
    && forall i :: 0 <= i < |r.log| ==> EventAt(r, i)
  }

  ghost predicate EventAt(r: Run, i: int)
    requires 0 <= i < |r.log|
  {
    && r.log[i].id == i + 1
    && (r.log[i].fence.Some? ==> r.log[i].fence.value <= r.fence)
  }

  // ---------------------------------------------------------------- secondary indexes

  /**
   What the two ZSETs say about one id. A lease released while queued leaves a
   score of zero in `running`, which no count ever sees.
   */
  ghost predicate IndexAt(s: Store, id: Id) {
    && (id in s.active <==> id in s.runs && Pending(s.runs[id].status))
    && (id in s.active ==> s.active[id] == s.runs[id].lease)
    && (id in s.runs && s.runs[id].status.Running? ==> id in s.running && s.running[id] == s.runs[id].lease)
    && (id in s.running ==> id in s.runs && Pending(s.runs[id].status))
    && (id in s.running && s.runs[id].status.Queued? ==> s.running[id] == 0)
  }

  // ---------------------------------------------------------------- audit trail

  /** What a reader of the outbox knows about a run. */
  datatype Known = Known(status: Status, owner: string, fence: nat, version: nat)

  /** The outbox entries that record a lifecycle change. */
  predicate Lifecycle(k: AuditKind) {
    !(k.RunIdAssigned? || k.RunStreamFailed? || k.StreamPayload?)
  }

  /** Rebuilds a run's lifecycle from the outbox alone, counting the changes it saw. */
  ghost function Replay(audit: seq<Audit>, id: Id): Option<Known> {
    if audit == [] then None else
    var before := Replay(audit[..|audit| - 1], id);
    var e := audit[|audit| - 1];
    if e.run != id || !Lifecycle(e.kind) then before
    else Some(Known(e.status, e.owner, e.fence, if before.Some? then before.value.version + 1 else 1))
  }

  ghost function Facts(s: Store, id: Id): Option<Known> {
    if id in s.runs
    then Some(Known(s.runs[id].status, s.runs[id].owner, s.runs[id].fence, s.runs[id].version))
    else None
  }

  // ---------------------------------------------------------------- counters

  ghost function With(runs: map<Id, Run>, status: Status): set<Id> {
    set id | id in runs && runs[id].status == status
  }

  ghost predicate CountersInv(s: Store) {
    && s.retained == |s.runs|
    && forall st :: Metric(s.metrics, st) == |With(s.runs, st)|
  }

  // ---------------------------------------------------------------- the invariant

  ghost predicate InvAt(s: Store, id: Id) {
    && (id in s.runs ==> RunInv(s.runs[id]))
    && IndexAt(s, id)
    && Replay(s.audit, id) == Facts(s, id)
  }

  ghost predicate Inv(s: Store) {
    CountersInv(s) && forall id :: InvAt(s, id)
  }

  lemma EmptyStoreInv(now: nat)
    ensures Inv(EmptyStore(now))
  {
    forall st ensures With(EmptyStore(now).runs, st) == {} {}
  }

  // ---------------------------------------------------------------- framing

  lemma ReplayExtended(audit: seq<Audit>, e: Audit, id: Id)
    ensures Replay(audit + [e], id) ==
            if e.run != id || !Lifecycle(e.kind) then Replay(audit, id)
            else Some(Known(e.status, e.owner, e.fence,
                            if Replay(audit, id).Some? then Replay(audit, id).value.version + 1 else 1))
  {
    assert (audit + [e])[..|audit|] == audit;
  }

  /** Entries about another run, or about no lifecycle change, do not alter the replay. */
  lemma {:induction false} ReplayUnmoved(audit: seq<Audit>, more: seq<Audit>, id: Id)
    requires forall e :: e in more ==> e.run != id || !Lifecycle(e.kind)
    ensures Replay(audit + more, id) == Replay(audit, id)
  {
    if more == [] {
      assert audit + more == audit;
    } else {
      var init, e := more[..|more| - 1], more[|more| - 1];
      assert audit + more == audit + init + [e];
      ReplayExtended(audit + init, e, id);
      ReplayUnmoved(audit, init, id);
    }
  }

  lemma SameElsewhere(a: set<Id>, b: set<Id>, id: Id)
    requires forall x :: x != id ==> (x in a <==> x in b)
    ensures |b| == |a| + (if id in b then 1 else 0) - (if id in a then 1 else 0)
  {
    assert a - {id} == b - {id};
    assert id in a ==> a == a - {id} + {id};
    assert id in b ==> b == b - {id} + {id};
  }

  /** Moving one run between two statuses moves one unit between the two counts. */
  lemma WithMoved(runs: map<Id, Run>, id: Id, r: Run, st: Status)
    requires id in runs
    ensures |With(runs[id := r], st)| ==
            |With(runs, st)| + (if r.status == st then 1 else 0) - (if runs[id].status == st then 1 else 0)
  {
    SameElsewhere(With(runs, st), With(runs[id := r], st), id);
  }

  /** The ZSET writes that go with replacing run `r` by `r'`. */
  predicate IndexesFollow(r: Run, r': Run, active: ZChange, running: ZChange) {
    && (match active
        case ZKeep => (Pending(r.status) <==> Pending(r'.status)) && r'.lease == r.lease
        case ZAdd(score) => Pending(r'.status) && score == r'.lease
        case ZRem => !Pending(r'.status))
    && (match running
        case ZKeep => r'.status == r.status && (r.status.Running? ==> r'.lease == r.lease)
        case ZAdd(score) => Pending(r'.status) && score == (if r'.status.Running? then r'.lease else 0)
        case ZRem => !r'.status.Running?)
  }

  lemma CommitKeepsIndexes(s: Store, id: Id, r: Run, active: ZChange, running: ZChange, audit: seq<Audit>, x: Id)
    requires id in s.runs && IndexAt(s, id) && IndexAt(s, x)
    requires IndexesFollow(s.runs[id], r, active, running)
    ensures IndexAt(Commit(s, id, r, active, running, audit), x)
  {
  }

  lemma CommitKeepsCounters(s: Store, id: Id, r: Run, active: ZChange, running: ZChange, audit: seq<Audit>)
    requires id in s.runs && CountersInv(s)
    ensures CountersInv(Commit(s, id, r, active, running, audit))
  {
    var s' := Commit(s, id, r, active, running, audit);
    assert s'.runs.Keys == s.runs.Keys;
    forall st ensures Metric(s'.metrics, st) == |With(s'.runs, st)| {
      WithMoved(s.runs, id, r, st);
      assert Metric(s.metrics, st) == |With(s.runs, st)|;
    }
  }

  /** A script that replaces one run needs to be checked at that run only. */
  lemma CommitKeepsInv(s: Store, id: Id, r: Run, active: ZChange, running: ZChange, audit: seq<Audit>)
    requires Inv(s) && id in s.runs
    requires RunInv(r)
    requires IndexesFollow(s.runs[id], r, active, running)
    requires forall e :: e in audit ==> e.run == id
    requires Replay(s.audit + audit, id) == Some(Known(r.status, r.owner, r.fence, r.version))
    ensures Inv(Commit(s, id, r, active, running, audit))
  {
    var s' := Commit(s, id, r, active, running, audit);
    CommitKeepsCounters(s, id, r, active, running, audit);
    forall x ensures InvAt(s', x) {
      assert InvAt(s, x) && InvAt(s, id);
      CommitKeepsIndexes(s, id, r, active, running, audit, x);
      if x != id {
        ReplayUnmoved(s.audit, audit, x);
      }
    }
  }

  lemma CreateKeepsCounters(s: Store, id: Id, request: Request, owner: string, leaseMs: nat, limit: int)
    requires CountersInv(s) && id !in s.runs && ZCount(s.active, s.now) < limit
    ensures CountersInv(Create(s, id, request, owner, leaseMs, limit).store)
  {
    var s' := Create(s, id, request, owner, leaseMs, limit).store;
    forall st ensures Metric(s'.metrics, st) == |With(s'.runs, st)| {
      assert Metric(s.metrics, st) == |With(s.runs, st)|;
      SameElsewhere(With(s.runs, st), With(s'.runs, st), id);
    }
  }

  lemma CreateKeepsInv(s: Store, id: Id, request: Request, owner: string, leaseMs: nat, limit: int)
    requires Inv(s) && id !in s.runs && ZCount(s.active, s.now) < limit
    ensures Inv(Create(s, id, request, owner, leaseMs, limit).store)
  {
    var s' := Create(s, id, request, owner, leaseMs, limit).store;
    assert InvAt(s, id);
    CreateKeepsCounters(s, id, request, owner, leaseMs, limit);
    forall other ensures InvAt(s', other) {
      assert InvAt(s, other);
      ReplayExtended(s.audit, s'.audit[|s.audit|], other);
    }
  }

  // ---------------------------------------------------------------- run updates

  lemma PushKeepsLog(r: Run, payload: Payload, fence: Option<nat>)
    requires LogInv(r)
    requires fence.Some? ==> fence.value <= r.fence
    ensures LogInv(Trimmed(Push(r, payload, fence)))
  {
    var r' := Trimmed(Push(r, payload, fence));
    LastNAbsorbs(r.log, [r'.log[|r.log|]], r.request.bufferSize);
    forall i | 0 <= i < |r'.log| ensures EventAt(r', i) {
      assert i < |r.log| ==> EventAt(r, i);
    }
  }

  /** Two events trimmed once, as in the cancel script. */
  lemma PushTwiceKeepsLog(r: Run, p1: Payload, p2: Payload, fence: nat)
    requires LogInv(r) && fence <= r.fence
    ensures LogInv(Trimmed(Push(Push(r, p1, Some(fence)), p2, Some(fence))))
  {
    PushKeepsLog(r, p1, Some(fence));
    var once := Push(r, p1, Some(fence));
    PushKeepsLog(Trimmed(once), p2, Some(fence));
    var last := Event(r.lastEventId + 2, p2, Some(fence));
    LastNAbsorbs(once.events, [last], r.request.bufferSize);
  }

  lemma LogUntouched(r: Run, r': Run)
    requires LogInv(r)
    requires r'.log == r.log && r'.events == r.events && r'.request == r.request
    requires r'.lastEventId == r.lastEventId && r.fence <= r'.fence
    ensures LogInv(r')
  {
    forall i | 0 <= i < |r'.log| ensures EventAt(r', i) {
      assert EventAt(r, i);
    }
  }

  // ---------------------------------------------------------------- every script

  lemma TakeoverKeepsInv(s: Store, id: Id, request: Request, owner: string, leaseMs: nat, limit: int)
    requires Inv(s) && Create(s, id, request, owner, leaseMs, limit).code == 2
    ensures Inv(Create(s, id, request, owner, leaseMs, limit).store)
  {
    assert InvAt(s, id);
    var r, lease := s.runs[id], s.now + leaseMs;
    var e := Audit(id, RunLeaseTakenOver, Queued, owner, r.fence + 1);
    LogUntouched(r, TakenOver(r, owner, lease));
    ReplayExtended(s.audit, e, id);
    CommitKeepsInv(s, id, TakenOver(r, owner, lease), ZAdd(lease), ZRem, [e]);
  }

  lemma AppendedInv(r: Run, payload: Payload, fence: nat, key: string)
    requires RunInv(r) && fence <= r.fence
    ensures RunInv(Appended(r, payload, fence, key))
  {
    PushKeepsLog(r, payload, Some(fence));
    LogUntouched(Trimmed(Push(r, payload, Some(fence))), Appended(r, payload, fence, key));
  }

  lemma AppendKeepsInv(s: Store, id: Id, owner: string, fence: nat, payload: Payload, key: string, audited: bool)
    requires Inv(s)
    ensures Inv(Append(s, id, owner, fence, payload, key, audited).store)
  {
    if Append(s, id, owner, fence, payload, key, audited).code == 1 {
      var more := if audited then [Audit(id, StreamPayload, s.runs[id].status, owner, fence)] else [];
      AcceptedAppendKeepsInv(s, id, fence, payload, key, more);
    }
  }

  lemma AcceptedAppendKeepsInv(s: Store, id: Id, fence: nat, payload: Payload, key: string, more: seq<Audit>)
    requires Inv(s) && id in s.runs && fence <= s.runs[id].fence
    requires forall e :: e in more ==> e.run == id && !Lifecycle(e.kind)
    ensures Inv(Commit(s, id, Appended(s.runs[id], payload, fence, key), ZKeep, ZKeep, more))
  {
    assert InvAt(s, id);
    AppendedInv(s.runs[id], payload, fence, key);
    ReplayUnmoved(s.audit, more, id);
    CommitKeepsInv(s, id, Appended(s.runs[id], payload, fence, key), ZKeep, ZKeep, more);
  }

  lemma AcquireKeepsInv(s: Store, id: Id, owner: string, fence: nat, max: int, leaseMs: nat)
    requires Inv(s)
    ensures Inv(Acquire(s, id, owner, fence, max, leaseMs).store)
  {
    assert InvAt(s, id);
    if Acquire(s, id, owner, fence, max, leaseMs).code == 1 {
      var r, lease := s.runs[id], s.now + leaseMs;
      var e := Audit(id, RunStarted, Running, owner, fence);
      LogUntouched(r, Started(r, lease));
      ReplayExtended(s.audit, e, id);
      CommitKeepsInv(s, id, Started(r, lease), ZAdd(lease), ZAdd(lease), [e]);
    }
  }

  lemma LeaseKeepsInv(s: Store, id: Id, lease: nat, running: ZChange)
    requires Inv(s) && id in s.runs && Pending(s.runs[id].status)
    requires IndexesFollow(s.runs[id], s.runs[id].(lease := lease), ZAdd(lease), running)
    ensures Inv(Commit(s, id, s.runs[id].(lease := lease), ZAdd(lease), running, []))
  {
    assert InvAt(s, id);
    LogUntouched(s.runs[id], s.runs[id].(lease := lease));
    ReplayUnmoved(s.audit, [], id);
    CommitKeepsInv(s, id, s.runs[id].(lease := lease), ZAdd(lease), running, []);
  }

  /** Pausing or finishing drops the run from both indexes. */
  lemma LeaveSlotKeepsInv(s: Store, id: Id, r': Run, audit: seq<Audit>)
    requires Inv(s) && id in s.runs
    requires RunInv(r') && !Pending(r'.status)
    requires forall e :: e in audit ==> e.run == id
    requires Replay(s.audit + audit, id) == Some(Known(r'.status, r'.owner, r'.fence, r'.version))
    ensures Inv(Commit(s, id, r', ZRem, ZRem, audit))
  {
    CommitKeepsInv(s, id, r', ZRem, ZRem, audit);
  }

  lemma TransitionCommits(s: Store, id: Id, target: Status, result: string, failure: Failure, http: int, e: Audit)
    requires Inv(s) && id in s.runs && Terminal(target)
    requires e == Audit(id, RunFinished, target, s.runs[id].owner, s.runs[id].fence)
    ensures Inv(Commit(s, id, Finished(s.runs[id], target, result, failure, http), ZRem, ZRem, [e]))
  {
    assert InvAt(s, id);
    var r' := Finished(s.runs[id], target, result, failure, http);
    LogUntouched(s.runs[id], r');
    ReplayExtended(s.audit, e, id);
    LeaveSlotKeepsInv(s, id, r', [e]);
  }

  lemma TransitionKeepsInv(s: Store, id: Id, owner: string, fence: nat, target: Status, result: string, failure: Failure, http: int)
    requires Inv(s)
    ensures Inv(Transition(s, id, owner, fence, target, result, failure, http).store)
  {
    if Transition(s, id, owner, fence, target, result, failure, http).code == 1 {
      TransitionCommits(s, id, target, result, failure, http, Audit(id, RunFinished, target, owner, fence));
    }
  }

  lemma CancelledRunInv(r: Run, p1: Payload)
    requires RunInv(r)
    ensures RunInv(CancelledRun(r, p1))
    ensures CancelledRun(r, p1).owner == r.owner && CancelledRun(r, p1).fence == r.fence + 1
  {
    var c := CancelMarked(r);
    LogUntouched(r, c);
    PushTwiceKeepsLog(c, p1, DoneMarker, c.fence);
  }

  lemma CancelCommits(s: Store, id: Id, p1: Payload, e: Audit)
    requires Inv(s) && id in s.runs && !Terminal(s.runs[id].status)
    requires e == Audit(id, RunFinished, Cancelled, s.runs[id].owner, s.runs[id].fence + 1)
    ensures Inv(Commit(s, id, CancelledRun(s.runs[id], p1), ZRem, ZRem, [e]))
  {
    assert InvAt(s, id);
    CancelledRunInv(s.runs[id], p1);
    ReplayExtended(s.audit, e, id);
    LeaveSlotKeepsInv(s, id, CancelledRun(s.runs[id], p1), [e]);
  }

  lemma CancelKeepsInv(s: Store, id: Id, user: string, p1: Payload)
    requires Inv(s)
    ensures Inv(Cancel(s, id, user, p1).store)
  {
    if Cancel(s, id, user, p1).code == 1 {
      var r := s.runs[id];
      CancelCommits(s, id, p1, Audit(id, RunFinished, Cancelled, r.owner, r.fence + 1));
    }
  }

  lemma NotesKeepInv(s: Store, id: Id, r': Run, e: Audit)
    requires Inv(s) && id in s.runs && e.run == id && !Lifecycle(e.kind)
    requires r' == s.runs[id].(runId := r'.runId, report := r'.report)
    ensures Inv(Commit(s, id, r', ZKeep, ZKeep, [e]))
  {
    assert InvAt(s, id);
    LogUntouched(s.runs[id], r');
    ReplayUnmoved(s.audit, [e], id);
    CommitKeepsInv(s, id, r', ZKeep, ZKeep, [e]);
  }

  lemma PausedRunInv(r: Run, asked: Interaction, payload: Payload, key: string)
    requires RunInv(r)
    ensures RunInv(PausedRun(r, asked, payload, key))
  {
    PushKeepsLog(r, payload, None);
    LogUntouched(Trimmed(Push(r, payload, None)), PausedRun(r, asked, payload, key));
  }

  lemma ReplayPause(audit: seq<Audit>, id: Id, owner: string, fence: nat, audited: bool)
    requires Replay(audit, id).Some?
    ensures Replay(audit + PauseAudit(id, owner, fence, audited), id) ==
            Some(Known(WaitingForInput, owner, fence, Replay(audit, id).value.version + 1))
  {
    var all := PauseAudit(id, owner, fence, audited);
    ReplayExtended(audit, all[0], id);
    ReplayUnmoved(audit + [all[0]], all[1..], id);
    assert audit + [all[0]] + all[1..] == audit + all;
  }

  lemma PauseCommits(s: Store, id: Id, asked: Interaction, payload: Payload, key: string, audited: bool)
    requires Inv(s) && id in s.runs && s.runs[id].status.Running?
    ensures Inv(Commit(s, id, PausedRun(s.runs[id], asked, payload, key), ZRem, ZRem,
                       PauseAudit(id, s.runs[id].owner, s.runs[id].fence, audited)))
  {
    assert InvAt(s, id);
    var r := s.runs[id];
    PausedRunInv(r, asked, payload, key);
    ReplayPause(s.audit, id, r.owner, r.fence, audited);
    LeaveSlotKeepsInv(s, id, PausedRun(r, asked, payload, key), PauseAudit(id, r.owner, r.fence, audited));
  }

  lemma PauseKeepsInv(s: Store, id: Id, owner: string, fence: nat, asked: Interaction, payload: Payload, key: string, audited: bool)
    requires Inv(s)
    ensures Inv(Pause(s, id, owner, fence, asked, payload, key, audited).store)
  {
    if Pause(s, id, owner, fence, asked, payload, key, audited).code == 1 {
      PauseCommits(s, id, asked, payload, key, audited);
    }
  }

  lemma ResumeCommits(s: Store, id: Id, answered: Interaction, key: string, owner: string, lease: nat, e: Audit)
    requires Inv(s) && id in s.runs && s.runs[id].status.WaitingForInput?
    requires e == Audit(id, RunInputAccepted, Queued, owner, s.runs[id].fence + 1)
    ensures Inv(Commit(s, id, Resumed(s.runs[id], answered, key, owner, lease), ZAdd(lease), ZRem, [e]))
  {
    assert InvAt(s, id);
    var r' := Resumed(s.runs[id], answered, key, owner, lease);
    LogUntouched(s.runs[id], r');
    ReplayExtended(s.audit, e, id);
    CommitKeepsInv(s, id, r', ZAdd(lease), ZRem, [e]);
  }

  lemma ResumeKeepsInv(s: Store, id: Id, user: string, answered: Interaction, response: string, owner: string, leaseMs: nat)
    requires Inv(s)
    ensures Inv(Resume(s, id, user, answered, response, owner, leaseMs).store)
  {
    if Resume(s, id, user, answered, response, owner, leaseMs).code == 1 {
      ResumeForm(s, id, user, answered, response, owner, leaseMs);
      ResumeCommits(s, id, answered, ResponseKey(response), owner, s.now + leaseMs,
                    Audit(id, RunInputAccepted, Queued, owner, s.runs[id].fence + 1));
    }
  }

  lemma ResumeForm(s: Store, id: Id, user: string, answered: Interaction, response: string, owner: string, leaseMs: nat)
    requires Resume(s, id, user, answered, response, owner, leaseMs).code == 1
    ensures id in s.runs && s.runs[id].status.WaitingForInput?
    ensures Resume(s, id, user, answered, response, owner, leaseMs).store ==
            Commit(s, id, Resumed(s.runs[id], answered, ResponseKey(response), owner, s.now + leaseMs),
                   ZAdd(s.now + leaseMs), ZRem, [Audit(id, RunInputAccepted, Queued, owner, s.runs[id].fence + 1)])
  {
  }

  lemma CreateOrGetKeepsInv(s: Store, id: Id, request: Request, owner: string, leaseMs: nat, limit: int)
    requires Inv(s)
    ensures Inv(Create(s, id, request, owner, leaseMs, limit).store)
  {
    var o := Create(s, id, request, owner, leaseMs, limit);
    if o.code == 1 {
      CreateKeepsInv(s, id, request, owner, leaseMs, limit);
    } else if o.code == 2 {
      TakeoverKeepsInv(s, id, request, owner, leaseMs, limit);
    }
  }

  lemma HeartbeatKeepsInv(s: Store, id: Id, owner: string, fence: nat, leaseMs: nat)
    requires Inv(s)
    ensures Inv(Heartbeat(s, id, owner, fence, leaseMs).store)
  {
    if Heartbeat(s, id, owner, fence, leaseMs).code == 1 {
      LeaseKeepsInv(s, id, s.now + leaseMs, if s.runs[id].status.Running? then ZAdd(s.now + leaseMs) else ZKeep);
    }
  }

  lemma ReleaseKeepsInv(s: Store, id: Id, owner: string, fence: nat)
    requires Inv(s)
    ensures Inv(Release(s, id, owner, fence).store)
  {
    if Release(s, id, owner, fence).code == 1 && Pending(s.runs[id].status) {
      LeaseKeepsInv(s, id, 0, ZAdd(0));
    }
  }

  lemma SetRunIdKeepsInv(s: Store, id: Id, owner: string, fence: nat, runId: string)
    requires Inv(s)
    ensures Inv(SetRunId(s, id, owner, fence, runId).store)
  {
    if SetRunId(s, id, owner, fence, runId).code == 1 {
      var r := s.runs[id];
      NotesKeepInv(s, id, r.(runId := runId), Audit(id, RunIdAssigned, r.status, owner, fence));
    }
  }

  lemma MarkFailedKeepsInv(s: Store, id: Id, owner: string, fence: nat, failure: Failure, http: int)
    requires Inv(s)
    ensures Inv(MarkStreamFailed(s, id, owner, fence, failure, http).store)
  {
    if MarkStreamFailed(s, id, owner, fence, failure, http).code == 1 {
      var r := s.runs[id];
      NotesKeepInv(s, id, MarkedFailed(r, failure, http), Audit(id, RunStreamFailed, r.status, owner, fence));
    }
  }

  // ---------------------------------------------------------------- every interleaving

  lemma StepKeepsInv(s: Store, op: Op)
    requires Inv(s)
    ensures Inv(Next(s, op))
  {
    match op
    case OpTick(ms) =>
      forall id ensures InvAt(Next(s, op), id) { assert InvAt(s, id); }
    case OpCreate(id, request, owner, leaseMs, limit) => CreateOrGetKeepsInv(s, id, request, owner, leaseMs, limit);
    case OpAppend(id, owner, fence, payload, key, audited) => AppendKeepsInv(s, id, owner, fence, payload, key, audited);
    case OpAcquire(id, owner, fence, max, leaseMs) => AcquireKeepsInv(s, id, owner, fence, max, leaseMs);
    case OpHeartbeat(id, owner, fence, leaseMs) => HeartbeatKeepsInv(s, id, owner, fence, leaseMs);
    case OpRelease(id, owner, fence) => ReleaseKeepsInv(s, id, owner, fence);
    case OpTransition(id, owner, fence, target, result, failure, http) =>
      TransitionKeepsInv(s, id, owner, fence, target, result, failure, http);
    case OpCancel(id, user, p1) => CancelKeepsInv(s, id, user, p1);
    case OpSetRunId(id, owner, fence, runId) => SetRunIdKeepsInv(s, id, owner, fence, runId);
    case OpMarkFailed(id, owner, fence, failure, http) => MarkFailedKeepsInv(s, id, owner, fence, failure, http);
    case OpPause(id, owner, fence, asked, payload, key, audited) => PauseKeepsInv(s, id, owner, fence, asked, payload, key, audited);
    case OpResume(id, user, answered, response, owner, leaseMs) => ResumeKeepsInv(s, id, user, answered, response, owner, leaseMs);
  }

  lemma {:induction false} ExecKeepsInv(s: Store, ops: seq<Op>)
    requires Inv(s)
    ensures Inv(Exec(s, ops))
    decreases |ops|
  {
    if ops != [] {
      StepKeepsInv(s, ops[0]);
      ExecKeepsInv(Next(s, ops[0]), ops[1..]);
    }
  }

  /** The invariant holds in every reachable state of the registry. */
  lemma ReachableInv(start: nat, ops: seq<Op>)
    ensures Inv(Exec(EmptyStore(start), ops))
  {
    EmptyStoreInv(start);
    ExecKeepsInv(EmptyStore(start), ops);
  }
}
