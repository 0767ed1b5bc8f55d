/**
 The state that every service instance shares through Redis, and the eleven Lua
 scripts of the run registry as atomic steps over it.

 A script is a function from the store to the store and the script's reply; the
 class in RedisRunRegistry.dfy performs the same scripts command by command.
 */
module Registry {
  import opened Prelude

  type Id = string

  datatype Status = Queued | Running | WaitingForInput | Completed | Failed | Cancelled | TimedOut

  datatype Kind = Invoke | Stream

  predicate Terminal(s: Status) {
    s.Completed? || s.Failed? || s.Cancelled? || s.TimedOut?
  }

  /** The states in which an execution holds, or is waiting for, a slot. */
  predicate Pending(s: Status) {
    s.Queued? || s.Running?
  }

  /** An event's payload: the DONE marker, or anything else. */
  datatype Payload = DoneMarker | Data(text: string)

  /** `_is_done_payload`: a DONE marker is recognised up to surrounding white space. */
  function Classify(text: string): Payload {
    if Strip(text) == "data: [DONE]" then DoneMarker else Data(text)
  }

  /** An entry of a run's event stream; the pause script writes no fencing token. */
  datatype Event = Event(id: nat, payload: Payload, fence: Option<nat>)

  datatype Interaction = Interaction(id: string, version: int)

  /** A value of the dedupe hash: an event id, or the interaction a response answered. */
  datatype Mark = EventMark(event: nat) | ResponseMark(interaction: Interaction)

  /** The `error_code` and `error` fields, which every script writes together. */
  datatype Failure = NoFailure | RunWasCancelled | Reported(code: string, message: string)

  /** What the request fixed when the run was accepted. */
  datatype Request = Request(fingerprint: string, kind: Kind, user: string, bufferSize: nat)

  /** What the run reports to its callers, besides its status. */
  datatype Report = Report(result: string, failure: Failure, httpStatus: int, streamFailed: bool)

  /**
   One run: the fields of its hash, its event stream and its dedupe hash. `log` is
   every event ever added to the stream; no script reads it, so it only serves to
   say what trimming removed.
   */
  datatype Run = Run(
    request: Request,
    status: Status,
    runId: string,
    report: Report,
    terminalEmitted: bool,
    pending: Option<Interaction>,
    lastEventId: nat,
    owner: string,
    fence: nat,
    lease: nat,
    version: nat,
    events: seq<Event>,
    dedupe: map<string, Mark>,
    log: seq<Event>)

  datatype AuditKind =
    | RunAccepted | RunLeaseTakenOver | RunStarted | RunFinished
    | RunWaitingForInput | RunInputAccepted
    | RunIdAssigned | RunStreamFailed | StreamPayload

  /** An outbox entry: what happened to which run, with the status, owner and fence it reports. */
  datatype Audit = Audit(run: Id, kind: AuditKind, status: Status, owner: string, fence: nat)

  /** Everything the scripts touch; `active` and `running` are ZSETs scored by lease. */
  datatype Store = Store(
    runs: map<Id, Run>,
    active: map<Id, nat>,
    running: map<Id, nat>,
    metrics: map<Status, int>,
    retained: int,
    audit: seq<Audit>,
    now: nat)

  datatype Outcome = Outcome(store: Store, code: int, value: int)

  function EmptyStore(now: nat): Store {
    Store(map[], map[], map[], map[], 0, [], now)
  }

  // ---------------------------------------------------------------- Redis commands

  datatype ZChange = ZKeep | ZAdd(score: nat) | ZRem

  function ZApply(z: map<Id, nat>, id: Id, change: ZChange): map<Id, nat> {
    match change
    case ZKeep => z
    case ZAdd(score) => z[id := score]
    case ZRem => z - {id}
  }

  /** ZCOUNT z (now +inf. */
  function ZCount(z: map<Id, nat>, now: nat): nat {
    |set id | id in z && z[id] > now|
  }

  lemma NothingCounted(z: map<Id, nat>, now: nat)
    requires forall id :: id in z ==> z[id] <= now
    ensures ZCount(z, now) == 0
  {
    assert (set id | id in z && z[id] > now) == {};
  }

  /** A missing counter reads as zero. */
  function Metric(m: map<Status, int>, s: Status): int {
    if s in m then m[s] else 0
  }

  function HIncrBy(m: map<Status, int>, s: Status, delta: int): map<Status, int> {
    m[s := Metric(m, s) + delta]
  }

  /** The counter change of a status change. */
  function Move(m: map<Status, int>, from: Status, to: Status): map<Status, int> {
    if from == to then m else HIncrBy(HIncrBy(m, from, -1), to, 1)
  }

  // ---------------------------------------------------------------- run records

  predicate IsDone(payload: Payload) {
    payload.DoneMarker?
  }

  /** The fencing check of every script that only the current execution may run. */
  predicate Owns(r: Run, owner: string, fence: nat) {
    r.owner == owner && r.fence == fence
  }

  predicate MayAccess(r: Run, user: string) {
    r.request.user == "" || r.request.user == user
  }

  /** HINCRBY last_event_id followed by XADD at that id. */
  function Push(r: Run, payload: Payload, fence: Option<nat>): Run {
    var e := Event(r.lastEventId + 1, payload, fence);
    r.(lastEventId := e.id, events := r.events + [e], log := r.log + [e])
  }

  /** XTRIM MAXLEN, with the buffer size stored in the run. */
  function Trimmed(r: Run): Run {
    r.(events := LastN(r.events, r.request.bufferSize))
  }

  function NewRun(request: Request, owner: string, lease: nat): Run {
    Run(request, Queued, "", Report("", NoFailure, 500, false), false, None, 0, owner, 1, lease, 1, [], map[], [])
  }

  /** Replaces one run, with the index, counter and outbox writes of the same script. */
  function Commit(s: Store, id: Id, r: Run, active: ZChange, running: ZChange, audit: seq<Audit>): Store
    requires id in s.runs
  {
    s.(runs := s.runs[id := r],
       active := ZApply(s.active, id, active),
       running := ZApply(s.running, id, running),
       metrics := Move(s.metrics, s.runs[id].status, r.status),
       audit := s.audit + audit)
  }

  // ---------------------------------------------------------------- scripts

  function TakenOver(r: Run, owner: string, lease: nat): Run {
    r.(owner := owner, fence := r.fence + 1, lease := lease, status := Queued,
       report := r.report.(failure := NoFailure, httpStatus := 500),
       terminalEmitted := false, version := r.version + 1)
  }

  function Create(s: Store, id: Id, request: Request, owner: string, leaseMs: nat, limit: int): Outcome {
    if id in s.runs then
      var r := s.runs[id];
      if !MayAccess(r, request.user) then Outcome(s, -2, 0)
      else if r.request.fingerprint != request.fingerprint || r.request.kind != request.kind then Outcome(s, -1, 0)
      else if !Pending(r.status) || r.lease > s.now then Outcome(s, 0, r.fence)
      else
        var r' := TakenOver(r, owner, s.now + leaseMs);
        Outcome(Commit(s, id, r', ZAdd(r'.lease), ZRem,
                       [Audit(id, RunLeaseTakenOver, Queued, owner, r'.fence)]), 2, r'.fence)
    else if ZCount(s.active, s.now) >= limit then Outcome(s, -3, 0)
    else
      var r := NewRun(request, owner, s.now + leaseMs);
      Outcome(s.(runs := s.runs[id := r],
                 active := s.active[id := r.lease],
                 metrics := HIncrBy(s.metrics, Queued, 1),
                 retained := s.retained + 1,
                 audit := s.audit + [Audit(id, RunAccepted, Queued, owner, 1)]), 1, 1)
  }

  function Appended(r: Run, payload: Payload, fence: nat, key: string): Run {
    var p := Trimmed(Push(r, payload, Some(fence)));
    p.(dedupe := if key != "" then p.dedupe[key := EventMark(p.lastEventId)] else p.dedupe,
       terminalEmitted := p.terminalEmitted || IsDone(payload))
  }

  function Append(s: Store, id: Id, owner: string, fence: nat, payload: Payload, key: string, audited: bool): Outcome {
    if id !in s.runs then Outcome(s, -1, 0) else
    var r := s.runs[id];
    if !Owns(r, owner, fence) then Outcome(s, -2, 0)
    else if Terminal(r.status) then Outcome(s, -3, 0)
    else if r.status.WaitingForInput? && IsDone(payload) then Outcome(s, -4, 0)
    else if key != "" && key in r.dedupe then
      Outcome(s, 0, if r.dedupe[key].EventMark? then r.dedupe[key].event else 0)
    else
      Outcome(Commit(s, id, Appended(r, payload, fence, key), ZKeep, ZKeep,
                     if audited then [Audit(id, StreamPayload, r.status, owner, fence)] else []),
              1, r.lastEventId + 1)
  }

  function Started(r: Run, lease: nat): Run {
    r.(status := Running, lease := lease, version := r.version + 1)
  }

  function Acquire(s: Store, id: Id, owner: string, fence: nat, maxRunning: int, leaseMs: nat): Outcome {
    if id !in s.runs then Outcome(s, -1, 0) else
    var r := s.runs[id];
    if !Owns(r, owner, fence) then Outcome(s, -2, 0)
    else if !r.status.Queued? then Outcome(s, -3, 0)
    else if ZCount(s.running, s.now) >= maxRunning then Outcome(s, 0, 0)
    else
      var lease := s.now + leaseMs;
      Outcome(Commit(s, id, Started(r, lease), ZAdd(lease), ZAdd(lease),
                     [Audit(id, RunStarted, Running, owner, fence)]), 1, 0)
  }

  function Heartbeat(s: Store, id: Id, owner: string, fence: nat, leaseMs: nat): Outcome {
    if id !in s.runs || !Owns(s.runs[id], owner, fence) || !Pending(s.runs[id].status) then Outcome(s, 0, 0) else
    var lease := s.now + leaseMs;
    Outcome(Commit(s, id, s.runs[id].(lease := lease), ZAdd(lease),
                   if s.runs[id].status.Running? then ZAdd(lease) else ZKeep, []), 1, 0)
  }

  function Release(s: Store, id: Id, owner: string, fence: nat): Outcome {
    if id !in s.runs || !Owns(s.runs[id], owner, fence) then Outcome(s, 0, 0)
    else if s.runs[id].status.WaitingForInput? then Outcome(s, 1, 0)
    else if Terminal(s.runs[id].status) then Outcome(s, 0, 0)
    else Outcome(Commit(s, id, s.runs[id].(lease := 0), ZAdd(0), ZAdd(0), []), 1, 0)
  }

  function Finished(r: Run, target: Status, result: string, failure: Failure, httpStatus: int): Run {
    r.(status := target, report := Report(result, failure, httpStatus, r.report.streamFailed),
       lease := 0, version := r.version + 1)
  }

  function Transition(s: Store, id: Id, owner: string, fence: nat, target: Status, result: string,
                      failure: Failure, httpStatus: int): Outcome
  {
    if id !in s.runs then Outcome(s, -1, 0) else
    var r := s.runs[id];
    if !Owns(r, owner, fence) then Outcome(s, -2, 0)
    else if r.status == target then Outcome(s, 0, 0)
    else if Terminal(r.status) then Outcome(s, -3, 0)
    else if !Terminal(target) then Outcome(s, -4, 0)
    else Outcome(Commit(s, id, Finished(r, target, result, failure, httpStatus), ZRem, ZRem,
                        [Audit(id, RunFinished, target, owner, fence)]), 1, 0)
  }

  function CancelMarked(r: Run): Run {
    r.(fence := r.fence + 1, status := Cancelled,
       report := r.report.(failure := RunWasCancelled, httpStatus := 409),
       lease := 0, version := r.version + 1, terminalEmitted := r.terminalEmitted || r.request.kind.Stream?)
  }

  function CancelledRun(r: Run, errorPayload: Payload): Run {
    var c := CancelMarked(r);
    if c.request.kind.Stream?
    then Trimmed(Push(Push(c, errorPayload, Some(c.fence)), DoneMarker, Some(c.fence)))
    else c
  }

  function Cancel(s: Store, id: Id, user: string, errorPayload: Payload): Outcome {
    if id !in s.runs then Outcome(s, -1, 0) else
    var r := s.runs[id];
    if !MayAccess(r, user) then Outcome(s, -2, 0)
    else if Terminal(r.status) then Outcome(s, 0, r.fence)
    else Outcome(Commit(s, id, CancelledRun(r, errorPayload), ZRem, ZRem,
                        [Audit(id, RunFinished, Cancelled, r.owner, r.fence + 1)]), 1, r.fence + 1)
  }

  function SetRunId(s: Store, id: Id, owner: string, fence: nat, runId: string): Outcome {
    if id !in s.runs then Outcome(s, -1, 0) else
    var r := s.runs[id];
    if !Owns(r, owner, fence) then Outcome(s, -2, 0)
    else Outcome(Commit(s, id, r.(runId := runId), ZKeep, ZKeep,
                        [Audit(id, RunIdAssigned, r.status, owner, fence)]), 1, 0)
  }

  function MarkedFailed(r: Run, failure: Failure, httpStatus: int): Run {
    r.(report := r.report.(failure := failure, httpStatus := httpStatus, streamFailed := true))
  }

  function MarkStreamFailed(s: Store, id: Id, owner: string, fence: nat, failure: Failure, httpStatus: int): Outcome {
    if id !in s.runs then Outcome(s, -1, 0) else
    var r := s.runs[id];
    if !Owns(r, owner, fence) then Outcome(s, -2, 0)
    else if Terminal(r.status) then Outcome(s, -3, 0)
    else Outcome(Commit(s, id, MarkedFailed(r, failure, httpStatus), ZKeep, ZKeep,
                        [Audit(id, RunStreamFailed, r.status, owner, fence)]), 1, 0)
  }

  function PausedRun(r: Run, asked: Interaction, payload: Payload, key: string): Run {
    var p := Trimmed(Push(r, payload, None));
    p.(dedupe := p.dedupe[key := EventMark(p.lastEventId)], status := WaitingForInput,
       pending := Some(asked), lease := 0, version := r.version + 1)
  }

  function PauseAudit(id: Id, owner: string, fence: nat, audited: bool): seq<Audit> {
    var e := Audit(id, RunWaitingForInput, WaitingForInput, owner, fence);
    if audited then [e, Audit(id, StreamPayload, WaitingForInput, owner, fence)] else [e]
  }

  function Pause(s: Store, id: Id, owner: string, fence: nat, asked: Interaction, payload: Payload,
                 key: string, audited: bool): Outcome
  {
    if id !in s.runs then Outcome(s, -1, 0) else
    var r := s.runs[id];
    if !Owns(r, owner, fence) then Outcome(s, -2, 0)
    else if r.status.WaitingForInput? then
      if r.pending == Some(asked)
      then Outcome(s, 0, if key in r.dedupe && r.dedupe[key].EventMark? then r.dedupe[key].event else 0)
      else Outcome(s, -4, 0)
    else if !r.status.Running? then Outcome(s, -3, 0)
    else Outcome(Commit(s, id, PausedRun(r, asked, payload, key), ZRem, ZRem,
                        PauseAudit(id, owner, fence, audited)), 1, r.lastEventId + 1)
  }

  function ResponseKey(response: string): string {
    "response:" + response
  }

  function Resumed(r: Run, answered: Interaction, key: string, owner: string, lease: nat): Run {
    r.(status := Queued, owner := owner, fence := r.fence + 1, lease := lease, pending := None,
       report := r.report.(failure := NoFailure), terminalEmitted := false, version := r.version + 1,
       dedupe := r.dedupe[key := ResponseMark(answered)])
  }

  function Resume(s: Store, id: Id, user: string, answered: Interaction, response: string,
                  owner: string, leaseMs: nat): Outcome
  {
    if id !in s.runs then Outcome(s, -1, 0) else
    var r := s.runs[id];
    var key := ResponseKey(response);
    var waiting := r.status.WaitingForInput? && r.pending == Some(answered);
    if !MayAccess(r, user) then Outcome(s, -2, 0)
    else if key in r.dedupe && r.dedupe[key] != ResponseMark(answered) then Outcome(s, -5, 0)
    else if key in r.dedupe && !waiting then Outcome(s, 0, r.fence)
    else if !r.status.WaitingForInput? then Outcome(s, -3, 0)
    else if !waiting then Outcome(s, -4, 0)
    else
      var lease := s.now + leaseMs;
      Outcome(Commit(s, id, Resumed(r, answered, key, owner, lease), ZAdd(lease), ZRem,
                     [Audit(id, RunInputAccepted, Queued, owner, r.fence + 1)]), 1, r.fence + 1)
  }

  // ---------------------------------------------------------------- whole runs

  /** One atomic step: the clock moves, or some instance's script executes. */
  datatype Op =
    | OpTick(ms: nat)
    | OpCreate(id: Id, request: Request, owner: string, leaseMs: nat, limit: int)
    | OpAppend(id: Id, owner: string, fence: nat, payload: Payload, key: string, audited: bool)
    | OpAcquire(id: Id, owner: string, fence: nat, maxRunning: int, leaseMs: nat)
    | OpHeartbeat(id: Id, owner: string, fence: nat, leaseMs: nat)
    | OpRelease(id: Id, owner: string, fence: nat)
    | OpTransition(id: Id, owner: string, fence: nat, target: Status, result: string, failure: Failure, httpStatus: int)
    | OpCancel(id: Id, user: string, errorPayload: Payload)
    | OpSetRunId(id: Id, owner: string, fence: nat, runId: string)
    | OpMarkFailed(id: Id, owner: string, fence: nat, failure: Failure, httpStatus: int)
    | OpPause(id: Id, owner: string, fence: nat, asked: Interaction, payload: Payload, key: string, audited: bool)
    | OpResume(id: Id, user: string, answered: Interaction, response: string, owner: string, leaseMs: nat)

  function Step(s: Store, op: Op): Outcome {
    match op
    case OpTick(ms) => Outcome(s.(now := s.now + ms), 1, 0)
    case OpCreate(id, request, owner, leaseMs, limit) => Create(s, id, request, owner, leaseMs, limit)
    case OpAppend(id, owner, fence, payload, key, audited) => Append(s, id, owner, fence, payload, key, audited)
    case OpAcquire(id, owner, fence, max, leaseMs) => Acquire(s, id, owner, fence, max, leaseMs)
    case OpHeartbeat(id, owner, fence, leaseMs) => Heartbeat(s, id, owner, fence, leaseMs)
    case OpRelease(id, owner, fence) => Release(s, id, owner, fence)
    case OpTransition(id, owner, fence, target, result, failure, http) => Transition(s, id, owner, fence, target, result, failure, http)
    case OpCancel(id, user, errorPayload) => Cancel(s, id, user, errorPayload)
    case OpSetRunId(id, owner, fence, runId) => SetRunId(s, id, owner, fence, runId)
    case OpMarkFailed(id, owner, fence, failure, http) => MarkStreamFailed(s, id, owner, fence, failure, http)
    case OpPause(id, owner, fence, asked, payload, key, audited) => Pause(s, id, owner, fence, asked, payload, key, audited)
    case OpResume(id, user, answered, response, owner, leaseMs) => Resume(s, id, user, answered, response, owner, leaseMs)
  }

  function Next(s: Store, op: Op): Store {
    Step(s, op).store
  }

  /** The store after any interleaving of scripts. */
  function Exec(s: Store, ops: seq<Op>): Store
    decreases |ops|
  {
    if ops == [] then s else Exec(Next(s, ops[0]), ops[1..])
  }
}
