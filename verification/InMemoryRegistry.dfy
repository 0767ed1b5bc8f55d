/**
 The single-process registry: admission by scanning every record, and the pause and resume
 compare-and-swap. It is what the Redis scripts have to agree with.
 */
module InMemoryRegistry {
  import opened Prelude
  import opened Registry
  import opened RegistryInvariant
  import opened RegistryIndexes

  datatype Numbered = Numbered(id: nat, payload: Payload)

  /** The value of a `RunRecord`. */
  datatype Record = Record(
    request: Request,
    status: Status,
    pending: Option<Interaction>,
    answered: map<string, Interaction>,
    generation: nat,
    failure: Failure,
    lastEventId: nat,
    events: seq<Numbered>)

  datatype Reply = Reply(records: map<Id, Record>, code: int)

  function NewRecord(request: Request): Record {
    Record(request, Queued, None, map[], 1, NoFailure, 0, [])
  }

  function Scan(records: map<Id, Record>): set<Id> {
    ScanOf(records, records.Keys)
  }

  function ScanOf(records: map<Id, Record>, ids: set<Id>): set<Id> {
    set id | id in ids && id in records && Pending(records[id].status)
  }

  lemma ScanGrows(records: map<Id, Record>, ids: set<Id>, id: Id)
    requires id in records && id !in ids
    ensures |ScanOf(records, ids + {id})| == |ScanOf(records, ids)| + if Pending(records[id].status) then 1 else 0
  {
    var before := ScanOf(records, ids);
    assert ScanOf(records, ids + {id}) == if Pending(records[id].status) then before + {id} else before;
  }

  // The reply codes are those the Redis scripts give for the same outcomes.

  function Start(records: map<Id, Record>, id: Id, request: Request, limit: int): Reply {
    if id in records then
      var r := records[id];
      if r.request.user != "" && r.request.user != request.user then Reply(records, -2)
      else if r.request.fingerprint != request.fingerprint || r.request.kind != request.kind then Reply(records, -1)
      else Reply(records, 0)
    else if |Scan(records)| >= limit then Reply(records, -3)
    else Reply(records[id := NewRecord(request)], 1)
  }

  function PausedRecord(r: Record, asked: Interaction, payload: Payload): Record {
    r.(status := WaitingForInput, pending := Some(asked), lastEventId := r.lastEventId + 1,
       events := LastN(r.events + [Numbered(r.lastEventId + 1, payload)], r.request.bufferSize))
  }

  function PauseForInput(records: map<Id, Record>, id: Id, asked: Interaction, payload: Payload): Reply {
    if id !in records then Reply(records, -1) else
    var r := records[id];
    if r.status.WaitingForInput? then Reply(records, if r.pending == Some(asked) then 0 else -4)
    else if !r.status.Running? then Reply(records, -3)
    else Reply(records[id := PausedRecord(r, asked, payload)], 1)
  }

  function ResumedRecord(r: Record, answered: Interaction, response: string): Record {
    r.(answered := r.answered[response := answered], status := Queued, pending := None,
       failure := NoFailure, generation := r.generation + 1)
  }

  function ResumeRun(records: map<Id, Record>, id: Id, user: string, answered: Interaction, response: string): Reply {
    if id !in records then Reply(records, -1) else
    var r := records[id];
    if r.request.user != "" && r.request.user != user then Reply(records, -2)
    else if response in r.answered then Reply(records, if r.answered[response] == answered then 0 else -5)
    else if !r.status.WaitingForInput? then Reply(records, -3)
    else if r.pending != Some(answered) then Reply(records, -4)
    else Reply(records[id := ResumedRecord(r, answered, response)], 1)
  }

  // ---------------------------------------------------------------- agreement with Redis

  ghost predicate SameEvents(local: seq<Numbered>, events: seq<Event>) {
    && |local| == |events|
    && forall i :: 0 <= i < |local| ==> local[i] == Numbered(events[i].id, events[i].payload)
  }

  ghost predicate SameAnswer(local: Record, r: Run, response: string) {
    if response in local.answered
    then ResponseKey(response) in r.dedupe && r.dedupe[ResponseKey(response)] == ResponseMark(local.answered[response])
    else ResponseKey(response) !in r.dedupe
  }

  ghost predicate SameRun(local: Record, r: Run) {
    && local.request == r.request && local.status == r.status && local.pending == r.pending
    && local.failure == r.report.failure && local.lastEventId == r.lastEventId
    && SameEvents(local.events, r.events)
    && forall response: string :: SameAnswer(local, r, response)
  }

  /** The two registries hold the same runs, as far as their callers can tell. */
  ghost predicate Mirrors(records: map<Id, Record>, s: Store) {
    && records.Keys == s.runs.Keys
    && forall id :: id in records ==> SameRun(records[id], s.runs[id])
  }

  lemma SameScan(records: map<Id, Record>, s: Store)
    requires Mirrors(records, s)
    ensures Scan(records) == PendingRuns(s)
  {}

  lemma FreshRunsMatch(request: Request, owner: string, lease: nat)
    ensures SameRun(NewRecord(request), NewRun(request, owner, lease))
  {}

  /** `start` decides alike, and keeps the registries alike, as long as no pending run has lost its lease. */
  lemma StartAgrees(records: map<Id, Record>, s: Store, id: Id, request: Request, owner: string, leaseMs: nat, limit: int)
    requires Inv(s) && Mirrors(records, s)
    requires forall x :: x in s.runs && Pending(s.runs[x].status) ==> s.runs[x].lease > s.now
    ensures Start(records, id, request, limit).code == Create(s, id, request, owner, leaseMs, limit).code
    ensures Mirrors(Start(records, id, request, limit).records, Create(s, id, request, owner, leaseMs, limit).store)
  {
    if id in s.runs {
      KnownRunAgrees(records, s, id, request, owner, leaseMs, limit);
    } else {
      SameScan(records, s);
      AdmissionEqualsScan(s);
      FreshRunsMatch(request, owner, s.now + leaseMs);
    }
  }

  lemma KnownRunAgrees(records: map<Id, Record>, s: Store, id: Id, request: Request, owner: string, leaseMs: nat, limit: int)
    requires Mirrors(records, s) && id in s.runs && (Pending(s.runs[id].status) ==> s.runs[id].lease > s.now)
    ensures Start(records, id, request, limit).code == Create(s, id, request, owner, leaseMs, limit).code
    ensures Start(records, id, request, limit).records == records
    ensures Create(s, id, request, owner, leaseMs, limit).store == s
  {
    assert SameRun(records[id], s.runs[id]);
  }

  lemma PausedRunsMatch(local: Record, r: Run, asked: Interaction, payload: Payload, key: string)
    requires SameRun(local, r) && forall response: string :: key != ResponseKey(response)
    ensures SameRun(PausedRecord(local, asked, payload), PausedRun(r, asked, payload, key))
  {
    var l', r' := PausedRecord(local, asked, payload), PausedRun(r, asked, payload, key);
    forall response: string ensures SameAnswer(l', r', response) {
      assert SameAnswer(local, r, response);
    }
  }

  /** An execution that still owns its run is told the same by both. */
  lemma PauseAgrees(records: map<Id, Record>, s: Store, id: Id, owner: string, fence: nat, asked: Interaction,
                    payload: Payload, key: string, audited: bool)
    requires Mirrors(records, s) && (id in s.runs ==> Owns(s.runs[id], owner, fence))
    requires forall response: string :: key != ResponseKey(response)
    ensures PauseForInput(records, id, asked, payload).code == Pause(s, id, owner, fence, asked, payload, key, audited).code
    ensures Mirrors(PauseForInput(records, id, asked, payload).records,
                    Pause(s, id, owner, fence, asked, payload, key, audited).store)
  {
    if id in s.runs {
      PausedRunsMatch(records[id], s.runs[id], asked, payload, key);
    }
  }

  lemma ResponseKeysApart(a: string, b: string)
    requires ResponseKey(a) == ResponseKey(b)
    ensures a == b
  {
    assert a == ResponseKey(a)[|"response:"|..] && b == ResponseKey(b)[|"response:"|..];
  }

  lemma ResumedRunsMatch(local: Record, r: Run, answered: Interaction, response: string, owner: string, lease: nat)
    requires SameRun(local, r)
    ensures SameRun(ResumedRecord(local, answered, response), Resumed(r, answered, ResponseKey(response), owner, lease))
  {
    var l', r' := ResumedRecord(local, answered, response), Resumed(r, answered, ResponseKey(response), owner, lease);
    forall other: string ensures SameAnswer(l', r', other) {
      assert SameAnswer(local, r, other);
      if ResponseKey(other) == ResponseKey(response) {
        ResponseKeysApart(other, response);
      }
    }
  }

  /** The retry that Redis admits a second time: a recorded response whose question is pending again. */
  ghost predicate AskedAgain(s: Store, id: Id, user: string, answered: Interaction, response: string) {
    && id in s.runs && MayAccess(s.runs[id], user)
    && s.runs[id].status.WaitingForInput? && s.runs[id].pending == Some(answered)
    && ResponseKey(response) in s.runs[id].dedupe && s.runs[id].dedupe[ResponseKey(response)] == ResponseMark(answered)
  }

  /**
   The two resumes differ exactly when a recorded response is repeated while its own question
   is pending again: Redis then resumes, the in-memory registry only returns the run.
   */
  lemma ResumeAgreesIff(records: map<Id, Record>, s: Store, id: Id, user: string, answered: Interaction,
                        response: string, owner: string, leaseMs: nat)
    requires Mirrors(records, s)
    ensures var local, redis := ResumeRun(records, id, user, answered, response),
                                Resume(s, id, user, answered, response, owner, leaseMs);
            && (local.code == redis.code <==> !AskedAgain(s, id, user, answered, response))
            && (local.code != redis.code ==> local.code == 0 && redis.code == 1)
            && (local.code == redis.code ==> Mirrors(local.records, redis.store))
  {
    if id in s.runs {
      assert SameAnswer(records[id], s.runs[id], response);
      ResumedRunsMatch(records[id], s.runs[id], answered, response, owner, s.now + leaseMs);
    }
  }

  // ---------------------------------------------------------------- the code

  class RunRecord {
    const request: Request
    var status: Status
    var pending: Option<Interaction>
    var answered: map<string, Interaction>
    var generation: nat
    var failure: Failure
    var lastEventId: nat
    var events: seq<Numbered>

    function View(): Record
      reads this
    {
      Record(request, status, pending, answered, generation, failure, lastEventId, events)
    }

    constructor (request: Request)
      ensures View() == NewRecord(request)
    {
      this.request := request;
      status, pending, answered, generation := Queued, None, map[], 1;
      failure, lastEventId, events := NoFailure, 0, [];
    }

    /** The assignments of an accepted pause; the event deque drops from the left when it is full. */
    method AwaitInput(asked: Interaction, payload: Payload)
      modifies this
      ensures View() == PausedRecord(old(View()), asked, payload)
    {
      status, pending := WaitingForInput, Some(asked);
      lastEventId := lastEventId + 1;
      events := LastN(events + [Numbered(lastEventId, payload)], request.bufferSize);
    }
  }

  class RunRegistry {
    const limit: int
    var records: map<Id, RunRecord>

    /** Different runs have different records. */
    ghost predicate Valid()
      reads this
    {
      forall a, b :: a in records && b in records && a != b ==> records[a] != records[b]
    }

    ghost function View(): map<Id, Record>
      reads this, records.Values
    {
      map id | id in records :: records[id].View()
    }

    constructor (limit: int)
      ensures Valid() && View() == map[] && this.limit == limit
    {
      this.limit := limit;
      records := map[];
    }

    /** The sum over all records that `start` compares with its limit. */
    method CountPending() returns (pending: nat)
      ensures pending == |Scan(View())|
    {
      pending := 0;
      var ids := records.Keys;
      ghost var seen: set<Id> := {};
      while ids != {}
        invariant ids <= records.Keys && seen == records.Keys - ids
        invariant pending == |ScanOf(View(), seen)|
      {
        var id :| id in ids;
        ScanGrows(View(), seen, id);
        ids, seen := ids - {id}, seen + {id};
        if !Terminal(records[id].status) && !records[id].status.WaitingForInput? {
          pending := pending + 1;
        }
      }
      assert seen == View().Keys;
    }

    method StartRun(id: Id, request: Request) returns (code: int)
      requires Valid()
      modifies this
      ensures Valid() && Reply(View(), code) == Start(old(View()), id, request, limit)
    {
      if id in records {
        var existing := records[id];
        if existing.request.user != "" && existing.request.user != request.user {
          return -2;
        }
        if existing.request.fingerprint != request.fingerprint || existing.request.kind != request.kind {
          return -1;
        }
        return 0;
      }
      var pending := CountPending();
      if pending >= limit {
        return -3;
      }
      var record := new RunRecord(request);
      records := records[id := record];
      assert View() == Start(old(View()), id, request, limit).records;
      return 1;
    }

    method Pause(id: Id, asked: Interaction, payload: Payload) returns (code: int)
      requires Valid()
      modifies records.Values
      ensures Valid() && Reply(View(), code) == PauseForInput(old(View()), id, asked, payload)
    {
      if id !in records {
        return -1;
      }
      var current := records[id];
      if current.status.WaitingForInput? {
        return if current.pending == Some(asked) then 0 else -4;
      }
      if !current.status.Running? {
        return -3;
      }
      current.AwaitInput(asked, payload);
      assert View() == PauseForInput(old(View()), id, asked, payload).records;
      return 1;
    }

    method Resume(id: Id, user: string, answered: Interaction, response: string) returns (code: int)
      requires Valid()
      modifies records.Values
      ensures Valid() && Reply(View(), code) == ResumeRun(old(View()), id, user, answered, response)
    {
      if id !in records {
        return -1;
      }
      var record := records[id];
      if record.request.user != "" && record.request.user != user {
        return -2;
      }
      if response in record.answered {
        return if record.answered[response] == answered then 0 else -5;
      }
      if !record.status.WaitingForInput? {
        return -3;
      }
      if record.pending != Some(answered) {
        return -4;
      }
      record.answered := record.answered[response := answered];
      record.status, record.pending, record.failure := Queued, None, NoFailure;
      record.generation := record.generation + 1;
      assert View() == ResumeRun(old(View()), id, user, answered, response).records;
      return 1;
    }
  }
}
