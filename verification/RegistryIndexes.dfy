/**
 Admission, metrics and the concurrency cap: what the ZSET counts and the global
 counters say about the runs themselves.
 */
module RegistryIndexes {
  import opened Registry
  import opened RegistryInvariant
  import opened RegistryHistory

  /** A queued or running run that holds an unexpired lease. */
  ghost predicate Live(s: Store, id: Id) {
    id in s.runs && Pending(s.runs[id].status) && s.runs[id].lease > s.now
  }

  ghost predicate LiveAndRunning(s: Store, id: Id) {
    id in s.runs && s.runs[id].status.Running? && s.runs[id].lease > s.now
  }

  ghost function LivePending(s: Store): set<Id> {
    set id | id in s.runs && Live(s, id)
  }

  ghost function LiveRunning(s: Store): set<Id> {
    set id | id in s.runs && LiveAndRunning(s, id)
  }

  ghost function LiveQueued(s: Store): set<Id> {
    set id | id in s.runs && Live(s, id) && s.runs[id].status.Queued?
  }

  /** The in-memory registry's admission scan: every run that is neither terminal nor waiting. */
  ghost function PendingRuns(s: Store): set<Id> {
    set id | id in s.runs && Pending(s.runs[id].status)
  }

  /** `active` holds the queued and running runs, and nothing else, scored by their leases. */
  lemma ActiveIsExact(s: Store)
    requires Inv(s)
    ensures s.active == map id | id in s.runs && Pending(s.runs[id].status) :: s.runs[id].lease
  {
    var exact := map id | id in s.runs && Pending(s.runs[id].status) :: s.runs[id].lease;
    forall id ensures id in s.active <==> id in exact { assert InvAt(s, id); }
    forall id | id in exact ensures s.active[id] == exact[id] { assert InvAt(s, id); }
  }

  /** The unexpired members of `running` are the running runs with an unexpired lease. */
  lemma LiveRunningIsExact(s: Store)
    requires Inv(s)
    ensures (set id | id in s.running && s.running[id] > s.now) == LiveRunning(s)
  {
    forall id ensures id in s.running && s.running[id] > s.now <==> LiveAndRunning(s, id) { assert InvAt(s, id); }
  }

  lemma LiveActiveIsExact(s: Store)
    requires Inv(s)
    ensures (set id | id in s.active && s.active[id] > s.now) == LivePending(s)
  {
    forall id ensures id in s.active && s.active[id] > s.now <==> Live(s, id) { assert InvAt(s, id); }
  }

  /** In one state, both ZCOUNTs equal a scan of all runs, and their difference is the live queue. */
  lemma CountsEqualScan(s: Store)
    requires Inv(s)
    ensures ZCount(s.active, s.now) == |LivePending(s)|
    ensures ZCount(s.running, s.now) == |LiveRunning(s)|
    ensures ZCount(s.active, s.now) - ZCount(s.running, s.now) == |LiveQueued(s)|
  {
    LiveActiveIsExact(s);
    LiveRunningIsExact(s);
    LivePendingSplits(s);
  }

  lemma LivePendingSplits(s: Store)
    ensures |LivePending(s)| == |LiveQueued(s)| + |LiveRunning(s)|
  {
    assert LivePending(s) == LiveQueued(s) + LiveRunning(s);
    Plus(LiveQueued(s), LiveRunning(s));
  }

  /** The queued and running runs whose lease goes beyond `now`, which may be an earlier moment. */
  ghost function PendingAt(s: Store, now: nat): set<Id> {
    set id | id in s.runs && Pending(s.runs[id].status) && s.runs[id].lease > now
  }

  ghost function RunningAt(s: Store, now: nat): set<Id> {
    set id | id in s.runs && s.runs[id].status.Running? && s.runs[id].lease > now
  }

  ghost function QueuedAt(s: Store, now: nat): set<Id> {
    set id | id in s.runs && s.runs[id].status.Queued? && s.runs[id].lease > now
  }

  datatype Load = Load(queued: nat, running: nat)

  /** `metrics`: TIME, ZCOUNT active and ZCOUNT running are three calls, each on the store of its own moment. */
  function ReportedLoad(atTime: Store, atActive: Store, atRunning: Store): Load {
    var active, running := ZCount(atActive.active, atTime.now), ZCount(atRunning.running, atTime.now);
    Load(if active > running then active - running else 0, running)
  }

  /**
   The reported load is two scans, of the runs at the moments of the two calls, against the clock of
   the first; if no script executes between the two, the queue length is the number of live queued runs.
   */
  lemma ReportedLoadIsScans(atTime: Store, atActive: Store, atRunning: Store)
    requires Inv(atActive) && Inv(atRunning)
    ensures var load, now := ReportedLoad(atTime, atActive, atRunning), atTime.now;
            && load.running == |RunningAt(atRunning, now)|
            && load.queued == (if |PendingAt(atActive, now)| > |RunningAt(atRunning, now)|
                               then |PendingAt(atActive, now)| - |RunningAt(atRunning, now)| else 0)
            && (atActive.runs == atRunning.runs ==> load.queued == |QueuedAt(atActive, now)|)
  {
    var now := atTime.now;
    ActiveAt(atActive, now);
    RunningIsAt(atRunning, now);
    PendingSplitsAt(atActive, now);
  }

  lemma ActiveAt(s: Store, now: nat)
    requires Inv(s)
    ensures ZCount(s.active, now) == |PendingAt(s, now)|
  {
    forall id ensures id in s.active && s.active[id] > now <==> id in PendingAt(s, now) { assert InvAt(s, id); }
    assert (set id | id in s.active && s.active[id] > now) == PendingAt(s, now);
  }

  lemma RunningIsAt(s: Store, now: nat)
    requires Inv(s)
    ensures ZCount(s.running, now) == |RunningAt(s, now)|
  {
    forall id ensures id in s.running && s.running[id] > now <==> id in RunningAt(s, now) { assert InvAt(s, id); }
    assert (set id | id in s.running && s.running[id] > now) == RunningAt(s, now);
  }

  lemma PendingSplitsAt(s: Store, now: nat)
    ensures |PendingAt(s, now)| == |QueuedAt(s, now)| + |RunningAt(s, now)|
  {
    assert PendingAt(s, now) == QueuedAt(s, now) + RunningAt(s, now);
    Plus(QueuedAt(s, now), RunningAt(s, now));
  }

  /** Redis and the in-memory registry admit alike exactly when no pending lease has expired. */
  lemma AdmissionEqualsScan(s: Store)
    requires Inv(s)
    ensures ZCount(s.active, s.now) <= |PendingRuns(s)|
    ensures ZCount(s.active, s.now) == |PendingRuns(s)| <==>
            forall id :: id in s.runs && Pending(s.runs[id].status) ==> s.runs[id].lease > s.now
  {
    LiveActiveIsExact(s);
    var expired := PendingRuns(s) - LivePending(s);
    assert PendingRuns(s) == LivePending(s) + expired;
    if expired == {} {
      forall id | id in PendingRuns(s) ensures s.runs[id].lease > s.now { assert id !in expired; }
    } else {
      var id :| id in expired;
      assert id in PendingRuns(s) && !Live(s, id);
    }
  }

  /** The sum of one number per status. */
  function Total(f: Status -> int): int {
    f(Queued) + f(Running) + f(WaitingForInput) + f(Completed) + f(Failed) + f(Cancelled) + f(TimedOut)
  }

  /** Every counter is the number of runs in that state, and the seven add up to `retained`. */
  lemma CountersAreConserved(start: nat, ops: seq<Op>)
    ensures var s := Exec(EmptyStore(start), ops);
            && (forall st :: Metric(s.metrics, st) == |With(s.runs, st)|)
            && s.retained == |s.runs| == Total(st => Metric(s.metrics, st))
  {
    ReachableInv(start, ops);
    var s := Exec(EmptyStore(start), ops);
    StatusesPartition(s.runs, st => Metric(s.metrics, st));
  }

  lemma {:induction false} StatusesPartition(runs: map<Id, Run>, count: Status -> int)
    requires forall st :: count(st) == |With(runs, st)|
    ensures Total(count) == |runs|
    decreases |runs|
  {
    if runs == map[] {
      NoRuns(count);
    } else {
      var id :| id in runs;
      var before := WithoutOne(runs, id, count);
      StatusesPartition(runs - {id}, before);
    }
  }

  lemma NoRuns(count: Status -> int)
    requires forall st :: count(st) == |With(map[], st)|
    ensures Total(count) == 0
  {
    forall st ensures count(st) == 0 {
      assert With(map[], st) == {};
    }
  }

  /** Taking one run away takes one from its status and from the total. */
  lemma WithoutOne(runs: map<Id, Run>, id: Id, count: Status -> int) returns (before: Status -> int)
    requires id in runs
    requires forall st :: count(st) == |With(runs, st)|
    ensures forall st :: before(st) == |With(runs - {id}, st)|
    ensures Total(count) == Total(before) + 1
    ensures |runs| == |runs - {id}| + 1
  {
    var status := runs[id].status;
    before := st => if st == status then count(st) - 1 else count(st);
    forall st ensures before(st) == |With(runs - {id}, st)| {
      WithOneFewer(runs, id, st);
    }
    OneFewer(runs, id);
  }

  lemma WithOneFewer(runs: map<Id, Run>, id: Id, st: Status)
    requires id in runs
    ensures |With(runs, st)| == |With(runs - {id}, st)| + (if runs[id].status == st then 1 else 0)
  {
    SameElsewhere(With(runs - {id}, st), With(runs, st), id);
  }

  lemma OneFewer(runs: map<Id, Run>, id: Id)
    requires id in runs
    ensures |runs| == |runs - {id}| + 1
  {
    assert runs.Keys == (runs - {id}).Keys + {id};
    assert |runs| == |runs.Keys| && |runs - {id}| == |(runs - {id}).Keys|;
  }

  lemma Plus(a: set<Id>, b: set<Id>)
    requires a !! b
    ensures |a + b| == |a| + |b|
  {
  }

  // ---------------------------------------------------------------- concurrency cap

  /** An accepted heartbeat for a running run whose lease has already expired. */
  ghost predicate LateHeartbeat(s: Store, op: Op) {
    && op.OpHeartbeat?
    && Heartbeat(s, op.id, op.owner, op.fence, op.leaseMs).code == 1
    && s.runs[op.id].status.Running?
    && s.runs[op.id].lease <= s.now
  }

  /** Instances agree on the cap. */
  ghost predicate RespectsCap(op: Op, n: nat) {
    op.OpAcquire? ==> op.maxRunning <= n
  }

  /** The steps that can turn a run into a live running one. */
  ghost predicate Admits(s: Store, op: Op) {
    && (LateHeartbeat(s, op) || (op.OpAcquire? && Step(s, op).code == 1))
    && op.leaseMs > 0
  }

  lemma OnlyAdmissionAddsLive(s: Store, op: Op)
    requires Inv(s) && !op.OpTick?
    ensures LiveAndRunning(Next(s, op), op.id) && !LiveAndRunning(s, op.id) <==> Admits(s, op)
  {
    assert InvAt(s, op.id);
    if op.OpHeartbeat? || op.OpRelease? || op.OpAcquire? {
      LeaseStepsAdmit(s, op);
    } else if op.OpCreate? || op.OpResume? {
      GrantsAdmitNobody(s, op);
    } else {
      OthersAdmitNobody(s, op);
    }
  }

  lemma LeaseStepsAdmit(s: Store, op: Op)
    requires op.OpHeartbeat? || op.OpRelease? || op.OpAcquire?
    ensures LiveAndRunning(Next(s, op), op.id) && !LiveAndRunning(s, op.id) <==> Admits(s, op)
  {
  }

  lemma GrantsAdmitNobody(s: Store, op: Op)
    requires op.OpCreate? || op.OpResume?
    ensures LiveAndRunning(Next(s, op), op.id) ==> LiveAndRunning(s, op.id)
  {
  }

  lemma OthersAdmitNobody(s: Store, op: Op)
    requires op.OpAppend? || op.OpTransition? || op.OpCancel? || op.OpSetRunId? || op.OpMarkFailed? || op.OpPause?
    ensures LiveAndRunning(Next(s, op), op.id) ==> LiveAndRunning(s, op.id)
  {
  }

  lemma LiveRunningStep(s: Store, op: Op)
    requires Inv(s) && !op.OpTick?
    ensures forall x :: x != op.id ==> (x in LiveRunning(Next(s, op)) <==> x in LiveRunning(s))
    ensures op.id in LiveRunning(Next(s, op)) && op.id !in LiveRunning(s) <==> Admits(s, op)
  {
    OnlyAdmissionAddsLive(s, op);
    forall x | x != op.id ensures x in LiveRunning(Next(s, op)) <==> x in LiveRunning(s) {
      OthersUntouched(s, op, x);
      ClockStands(s, op);
    }
  }

  lemma ClockStands(s: Store, op: Op)
    requires !op.OpTick?
    ensures Next(s, op).now == s.now
  {
  }

  lemma TimeOnlyExpires(s: Store, ms: nat)
    ensures |LiveRunning(Next(s, OpTick(ms)))| <= |LiveRunning(s)|
  {
    var later := LiveRunning(Next(s, OpTick(ms)));
    forall id | id in later ensures id in LiveRunning(s) {
      assert LiveAndRunning(Next(s, OpTick(ms)), id);
      assert LiveAndRunning(s, id);
    }
    assert LiveRunning(s) == later + (LiveRunning(s) - later);
  }

  /** One step takes the live running runs past the cap exactly when it is a late heartbeat at the cap. */
  lemma CapBrokenOnlyByLateHeartbeat(s: Store, op: Op, n: nat)
    requires Inv(s) && RespectsCap(op, n)
    requires |LiveRunning(s)| <= n
    ensures |LiveRunning(Next(s, op))| > n <==>
            LateHeartbeat(s, op) && op.leaseMs > 0 && |LiveRunning(s)| == n
  {
    if op.OpTick? {
      TimeOnlyExpires(s, op.ms);
    } else {
      LiveRunningStep(s, op);
      SameElsewhere(LiveRunning(s), LiveRunning(Next(s, op)), op.id);
      if op.OpAcquire? {
        LiveRunningIsExact(s);
      }
    }
  }

  /** A run in which every heartbeat reaches Redis before the lease it renews has expired. */
  ghost predicate Prompt(s: Store, ops: seq<Op>, n: nat)
    decreases |ops|
  {
    ops == [] ||
    (RespectsCap(ops[0], n) && !LateHeartbeat(s, ops[0]) && Prompt(Next(s, ops[0]), ops[1..], n))
  }

  /** With prompt heartbeats, at no moment do more than `n` runs hold a live running lease. */
  lemma {:induction false} CapHolds(s: Store, ops: seq<Op>, n: nat, k: nat)
    requires Inv(s) && |LiveRunning(s)| <= n
    requires Prompt(s, ops, n) && k <= |ops|
    ensures |LiveRunning(Exec(s, ops[..k]))| <= n
    decreases k
  {
    if k > 0 {
      var s' := Next(s, ops[0]);
      StepKeepsInv(s, ops[0]);
      CapBrokenOnlyByLateHeartbeat(s, ops[0], n);
      CapHolds(s', ops[1..], n, k - 1);
      assert ops[..k][0] == ops[0] && ops[..k][1..] == ops[1..][..k - 1];
    }
  }

  /** The hypothesis is needed: a stalled owner's late heartbeat yields two live runs under a cap of one. */
  lemma LateHeartbeatBreaksCap(request: Request, a: Id, b: Id, first: string, second: string)
    requires a != b
    ensures var s0 := EmptyStore(0);
            var s1 := Next(s0, OpCreate(a, request, first, 10, 9));
            var s2 := Next(s1, OpAcquire(a, first, 1, 1, 10));
            var s3 := Next(s2, OpTick(10));
            var s4 := Next(s3, OpCreate(b, request, second, 10, 9));
            var s5 := Next(s4, OpAcquire(b, second, 1, 1, 10));
            var s6 := Next(s5, OpHeartbeat(a, first, 1, 10));
            LiveRunning(s6) == {a, b}
  {
    var s3 := FirstStalls(request, a, first);
    var s5 := SecondStarts(s3, request, a, b, first, second);
    var s6 := Next(s5, OpHeartbeat(a, first, 1, 10));
    assert s6.runs.Keys == {a, b};
    assert LiveAndRunning(s6, a) && LiveAndRunning(s6, b);
  }

  /** The next two: the expired lease leaves the only slot free for b. */
  lemma SecondStarts(s3: Store, request: Request, a: Id, b: Id, first: string, second: string) returns (s5: Store)
    requires a != b
    requires s3.runs == map[a := Started(NewRun(request, first, 10), 10)]
    requires s3.active == map[a := 10] && s3.running == map[a := 10] && s3.now == 10
    ensures s5 == Next(Next(s3, OpCreate(b, request, second, 10, 9)), OpAcquire(b, second, 1, 1, 10))
    ensures s5.runs == s3.runs[b := Started(NewRun(request, second, 20), 20)] && s5.now == 10
  {
    var s4 := Next(s3, OpCreate(b, request, second, 10, 9));
    NothingCounted(s3.active, 10);
    NothingCounted(s4.running, 10);
    s5 := Next(s4, OpAcquire(b, second, 1, 1, 10));
  }

  /** The first three steps of the counterexample: a starts, then outlives its lease. */
  lemma FirstStalls(request: Request, a: Id, first: string) returns (s3: Store)
    ensures s3 == Next(Next(Next(EmptyStore(0), OpCreate(a, request, first, 10, 9)),
                            OpAcquire(a, first, 1, 1, 10)), OpTick(10))
    ensures s3.runs == map[a := Started(NewRun(request, first, 10), 10)]
    ensures s3.active == map[a := 10] && s3.running == map[a := 10] && s3.now == 10
  {
    var s0 := EmptyStore(0);
    NothingCounted(s0.active, 0);
    var s1 := Next(s0, OpCreate(a, request, first, 10, 9));
    NothingCounted(s1.running, 0);
    var s2 := Next(s1, OpAcquire(a, first, 1, 1, 10));
    s3 := Next(s2, OpTick(10));
  }
}
