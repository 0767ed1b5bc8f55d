/**
 Fencing: which execution a fence belongs to, and what happens to a writer that
 presents an older one.
 */
module RegistryFencing {
  import opened Prelude
  import opened Registry
  import opened RegistryHistory

  function FenceOf(s: Store, id: Id): nat {
    if id in s.runs then s.runs[id].fence else 0
  }

  // ---------------------------------------------------------------- grants

  /** The reply that tells a caller to start executing, and at which fence. */
  function Granted(s: Store, op: Op, id: Id): Option<int> {
    if (op.OpCreate? && op.id == id && Step(s, op).code >= 1) || (op.OpResume? && op.id == id && Step(s, op).code == 1)
    then Some(Step(s, op).value)
    else None
  }

  function Grants(s: Store, ops: seq<Op>, id: Id): seq<int>
    decreases |ops|
  {
    if ops == [] then []
    else (if Granted(s, ops[0], id).Some? then [Granted(s, ops[0], id).value] else [])
         + Grants(Next(s, ops[0]), ops[1..], id)
  }

  lemma GrantIsNextFence(s: Store, op: Op, id: Id)
    ensures FenceOf(s, id) <= FenceOf(Next(s, op), id)
    ensures Granted(s, op, id).Some? ==> Granted(s, op, id).value == FenceOf(s, id) + 1 == FenceOf(Next(s, op), id)
  {
    if id in s.runs {
      StepEvolves(s, op, id);
    } else if op.OpTick? || op.id != id {
      OthersUntouched(s, op, id);
    }
  }

  /** Every fence the scripts hand out for a run is higher than all that were handed out before. */
  lemma {:induction false} GrantsIncrease(s: Store, ops: seq<Op>, id: Id)
    ensures FenceOf(s, id) <= FenceOf(Exec(s, ops), id)
    ensures forall i :: 0 <= i < |Grants(s, ops, id)| ==>
              FenceOf(s, id) < Grants(s, ops, id)[i] <= FenceOf(Exec(s, ops), id)
    ensures forall i, j :: 0 <= i < j < |Grants(s, ops, id)| ==> Grants(s, ops, id)[i] < Grants(s, ops, id)[j]
    decreases |ops|
  {
    if ops != [] {
      GrantIsNextFence(s, ops[0], id);
      GrantsIncrease(Next(s, ops[0]), ops[1..], id);
    }
  }

  // ---------------------------------------------------------------- writers

  /** The scripts that check (owner, fence) before they do anything. */
  predicate OwnerChecked(op: Op) {
    || op.OpAppend? || op.OpAcquire? || op.OpHeartbeat? || op.OpRelease?
    || op.OpTransition? || op.OpSetRunId? || op.OpMarkFailed? || op.OpPause?
  }

  /** The check passed, whatever the script then decided. */
  predicate PassesFence(s: Store, op: Op)
    requires OwnerChecked(op)
  {
    op.id in s.runs && Owns(s.runs[op.id], op.owner, op.fence)
  }

  /** What a fenced writer is told. */
  function FencedCode(op: Op): int {
    if op.OpHeartbeat? || op.OpRelease? then 0 else -2
  }

  /**
   Once a write has passed at some fence, a write presented at a smaller fence
   changes nothing and is refused, however the scripts interleave in between.
   */
  lemma StaleWriterIsFenced(s: Store, write: Op, ops: seq<Op>, stale: Op)
    requires OwnerChecked(write) && PassesFence(s, write)
    requires OwnerChecked(stale) && stale.id == write.id && stale.fence < write.fence
    ensures var t := Exec(Next(s, write), ops);
            !PassesFence(t, stale) && Step(t, stale) == Outcome(t, FencedCode(stale), 0)
  {
    StepEvolves(s, write, write.id);
    ExecEvolves(Next(s, write), ops, write.id);
  }

  /** The same instance loses its right to write whenever another instance became owner meanwhile. */
  lemma OwnerChangeFences(s: Store, ops: seq<Op>, id: Id)
    requires id in s.runs
    ensures id in Exec(s, ops).runs
    ensures Exec(s, ops).runs[id].owner != s.runs[id].owner ==> Exec(s, ops).runs[id].fence > s.runs[id].fence
  {
    ExecEvolves(s, ops, id);
  }

  // ---------------------------------------------------------------- the handle of a started task

  /** The accepted steps that raise a run's fence: a takeover, a resume or a cancel. */
  predicate Bumps(s: Store, op: Op, id: Id) {
    && !op.OpTick? && op.id == id
    && ((op.OpCreate? && Step(s, op).code == 2) || ((op.OpResume? || op.OpCancel?) && Step(s, op).code == 1))
  }

  function BumpCount(s: Store, ops: seq<Op>, id: Id): nat
    decreases |ops|
  {
    if ops == [] then 0
    else (if Bumps(s, ops[0], id) then 1 else 0) + BumpCount(Next(s, ops[0]), ops[1..], id)
  }

  lemma BumpStep(s: Store, op: Op, id: Id)
    requires id in s.runs
    ensures id in Next(s, op).runs
    ensures Next(s, op).runs[id].fence == s.runs[id].fence + if Bumps(s, op, id) then 1 else 0
  {
    if op.OpTick? || op.id != id {
      OthersUntouched(s, op, id);
    }
  }

  /** A fence is the number of accepted fencing steps: nothing else moves it. */
  lemma {:induction false} FenceCountsBumps(s: Store, ops: seq<Op>, id: Id)
    requires id in s.runs
    ensures id in Exec(s, ops).runs
    ensures Exec(s, ops).runs[id].fence == s.runs[id].fence + BumpCount(s, ops, id)
    decreases |ops|
  {
    if ops != [] {
      BumpStep(s, ops[0], id);
      FenceCountsBumps(Next(s, ops[0]), ops[1..], id);
    }
  }

  /**
   `start` takes the fence of the new task from a handle that it loads after the
   script has replied. It executes at the fence it was granted exactly when
   no takeover, resume or cancel of the run came in between.
   */
  lemma StartedTaskHoldsItsGrant(s: Store, create: Op, between: seq<Op>)
    requires create.OpCreate? && Granted(s, create, create.id).Some?
    ensures var granted := Next(s, create);
            var loaded := Exec(granted, between);
            && create.id in loaded.runs
            && (loaded.runs[create.id].fence == Step(s, create).value <==> BumpCount(granted, between, create.id) == 0)
  {
    GrantIsNextFence(s, create, create.id);
    FenceCountsBumps(Next(s, create), between, create.id);
  }

  // ---------------------------------------------------------------- executions

  /**
   An execution that an instance started: `granted` is the position of the step that granted it, and
   `read` the position at which its handle took the fence it presents from then on. `start` loads the
   handle some time after the reply; `resume` overwrites the loaded fence with the granted one.
   */
  datatype Execution = Execution(owner: string, granted: nat, read: nat)

  /** The store after the first `n` steps. */
  function At(s: Store, ops: seq<Op>, n: nat): Store
    requires n <= |ops|
  {
    Exec(s, ops[..n])
  }

  ghost predicate Started(s: Store, ops: seq<Op>, id: Id, x: Execution) {
    && x.granted < x.read <= |ops|
    && Granted(At(s, ops, x.granted), ops[x.granted], id).Some?
    && ops[x.granted].owner == x.owner
    && (ops[x.granted].OpResume? ==> x.read == x.granted + 1)
  }

  /** The fence it presents. */
  function FenceHeld(s: Store, ops: seq<Op>, id: Id, x: Execution): nat
    requires x.read <= |ops|
  {
    FenceOf(At(s, ops, x.read), id)
  }

  /** A takeover, resume or cancel of the run between two positions. */
  ghost predicate BumpBetween(s: Store, ops: seq<Op>, id: Id, from: nat, till: nat)
    requires from <= till <= |ops|
  {
    exists k :: from <= k < till && BumpAt(s, ops, id, k)
  }

  predicate BumpAt(s: Store, ops: seq<Op>, id: Id, k: nat)
    requires k < |ops|
  {
    Bumps(At(s, ops, k), ops[k], id)
  }

  lemma {:induction false} ExecAppend(s: Store, ops: seq<Op>, op: Op)
    ensures Exec(s, ops + [op]) == Next(Exec(s, ops), op)
    decreases |ops|
  {
    if ops == [] {
      assert ops + [op] == [op] && [op][1..] == [];
    } else {
      assert (ops + [op])[0] == ops[0] && (ops + [op])[1..] == ops[1..] + [op];
      ExecAppend(Next(s, ops[0]), ops[1..], op);
    }
  }

  lemma AtNext(s: Store, ops: seq<Op>, k: nat)
    requires k < |ops|
    ensures At(s, ops, k + 1) == Next(At(s, ops, k), ops[k])
  {
    assert ops[..k + 1] == ops[..k] + [ops[k]];
    ExecAppend(s, ops[..k], ops[k]);
  }

  /** Between two positions the fence rises exactly when something bumps it, and stays otherwise. */
  lemma {:induction false} FenceRisesIff(s: Store, ops: seq<Op>, id: Id, from: nat, till: nat)
    requires from <= till <= |ops| && id in At(s, ops, from).runs
    ensures id in At(s, ops, till).runs
    ensures FenceOf(At(s, ops, from), id) <= FenceOf(At(s, ops, till), id)
    ensures FenceOf(At(s, ops, from), id) < FenceOf(At(s, ops, till), id) <==> BumpBetween(s, ops, id, from, till)
    decreases till
  {
    if from < till {
      FenceRisesIff(s, ops, id, from, till - 1);
      AtNext(s, ops, till - 1);
      BumpStep(At(s, ops, till - 1), ops[till - 1], id);
      LastBump(s, ops, id, from, till);
    }
  }

  lemma LastBump(s: Store, ops: seq<Op>, id: Id, from: nat, till: nat)
    requires from < till <= |ops|
    ensures BumpBetween(s, ops, id, from, till) <==>
            BumpBetween(s, ops, id, from, till - 1) || BumpAt(s, ops, id, till - 1)
  {
    if BumpBetween(s, ops, id, from, till - 1) {
      var k :| from <= k < till - 1 && BumpAt(s, ops, id, k);
    }
  }

  lemma StartedRunExists(s: Store, ops: seq<Op>, id: Id, x: Execution)
    requires Started(s, ops, id, x)
    ensures id in At(s, ops, x.granted + 1).runs && id in At(s, ops, x.read).runs
    ensures FenceOf(At(s, ops, x.granted), id) + 1 == FenceOf(At(s, ops, x.granted + 1), id)
  {
    AtNext(s, ops, x.granted);
    GrantIsNextFence(At(s, ops, x.granted), ops[x.granted], id);
    GrantMakesRun(At(s, ops, x.granted), ops[x.granted], id);
    FenceRisesIff(s, ops, id, x.granted + 1, x.read);
  }

  lemma GrantMakesRun(s: Store, op: Op, id: Id)
    requires Granted(s, op, id).Some?
    ensures id in Next(s, op).runs && Next(s, op).runs[id].owner == op.owner
  {
  }

  /**
   Two executions of a run present the same fence exactly when no takeover, resume or cancel lies
   between the moments at which their handles took it.
   */
  lemma ShareAFenceIff(s: Store, ops: seq<Op>, id: Id, a: Execution, b: Execution)
    requires Started(s, ops, id, a) && Started(s, ops, id, b) && a.read <= b.read
    ensures FenceHeld(s, ops, id, a) == FenceHeld(s, ops, id, b) <==> !BumpBetween(s, ops, id, a.read, b.read)
  {
    StartedRunExists(s, ops, id, a);
    FenceRisesIff(s, ops, id, a.read, b.read);
  }

  /** An execution whose handle is loaded before the next such step holds the fence it was granted. */
  ghost predicate ReadsInTime(s: Store, ops: seq<Op>, id: Id, x: Execution)
    requires x.granted < x.read <= |ops|
  {
    !BumpBetween(s, ops, id, x.granted + 1, x.read)
  }

  /** So if every handle is loaded in time, each fence belongs to one execution. */
  lemma FencesAreDistinct(s: Store, ops: seq<Op>, id: Id, a: Execution, b: Execution)
    requires Started(s, ops, id, a) && Started(s, ops, id, b) && a.granted < b.granted
    requires ReadsInTime(s, ops, id, a) && ReadsInTime(s, ops, id, b)
    ensures FenceHeld(s, ops, id, a) < FenceHeld(s, ops, id, b)
  {
    StartedRunExists(s, ops, id, a);
    StartedRunExists(s, ops, id, b);
    FenceRisesIff(s, ops, id, a.granted + 1, a.read);
    FenceRisesIff(s, ops, id, b.granted + 1, b.read);
    FenceRisesIff(s, ops, id, a.granted + 1, b.granted);
  }

  /** What an execution presents passes the owner check at position `n`. */
  ghost predicate MayWrite(s: Store, ops: seq<Op>, id: Id, x: Execution, n: nat)
    requires x.read <= n <= |ops|
  {
    id in At(s, ops, n).runs && Owns(At(s, ops, n).runs[id], x.owner, FenceHeld(s, ops, id, x))
  }

  /** Without such a step the run keeps its owner too. */
  lemma {:induction false} OwnerStays(s: Store, ops: seq<Op>, id: Id, from: nat, till: nat)
    requires from <= till <= |ops| && id in At(s, ops, from).runs && !BumpBetween(s, ops, id, from, till)
    ensures id in At(s, ops, till).runs && At(s, ops, till).runs[id].owner == At(s, ops, from).runs[id].owner
    decreases till
  {
    if from < till {
      forall k | from <= k < till - 1 ensures !BumpAt(s, ops, id, k) {}
      OwnerStays(s, ops, id, from, till - 1);
      AtNext(s, ops, till - 1);
      assert !BumpAt(s, ops, id, till - 1);
      BumpStep(At(s, ops, till - 1), ops[till - 1], id);
      StepEvolves(At(s, ops, till - 1), ops[till - 1], id);
    }
  }

  /** An execution may write exactly while nothing has bumped the fence it read, and its instance owns the run. */
  lemma MayWriteIff(s: Store, ops: seq<Op>, id: Id, x: Execution, n: nat)
    requires Started(s, ops, id, x) && x.read <= n <= |ops|
    ensures id in At(s, ops, x.read).runs
    ensures MayWrite(s, ops, id, x, n) <==>
            !BumpBetween(s, ops, id, x.read, n) && At(s, ops, x.read).runs[id].owner == x.owner
  {
    StartedRunExists(s, ops, id, x);
    FenceRisesIff(s, ops, id, x.read, n);
    if !BumpBetween(s, ops, id, x.read, n) {
      OwnerStays(s, ops, id, x.read, n);
    }
  }

  /**
   Two executions may write at the same moment exactly when both belong to the instance that owns
   the run and nothing has bumped the fence since the earlier of the two handles took it. So it takes
   two starts of one instance, the first of which loads its handle only after the second grant.
   */
  lemma BothMayWriteIff(s: Store, ops: seq<Op>, id: Id, a: Execution, b: Execution, n: nat)
    requires Started(s, ops, id, a) && Started(s, ops, id, b) && a.granted < b.granted
    requires a.read <= n <= |ops| && b.read <= n
    ensures id in At(s, ops, n).runs
    ensures MayWrite(s, ops, id, a, n) && MayWrite(s, ops, id, b, n) <==>
            && a.owner == b.owner == At(s, ops, n).runs[id].owner
            && !BumpBetween(s, ops, id, if a.read <= b.read then a.read else b.read, n)
    ensures MayWrite(s, ops, id, a, n) && MayWrite(s, ops, id, b, n) ==>
            b.granted < a.read && ops[a.granted].OpCreate?
  {
    StartedRunExists(s, ops, id, a);
    StartedRunExists(s, ops, id, b);
    FenceRisesIff(s, ops, id, a.read, n);
    FenceRisesIff(s, ops, id, b.read, n);
    LateGrantBumps(s, ops, id, a, b, n);
    BumpFromEarlier(s, ops, id, a.read, b.read, n);
  }

  lemma BumpFromEarlier(s: Store, ops: seq<Op>, id: Id, x: nat, y: nat, n: nat)
    requires x <= n <= |ops| && y <= n
    ensures BumpBetween(s, ops, id, if x <= y then x else y, n) <==>
            BumpBetween(s, ops, id, x, n) || BumpBetween(s, ops, id, y, n)
  {
  }

  /** A later grant is itself a bump, so an execution that had read its fence before it is fenced. */
  lemma LateGrantBumps(s: Store, ops: seq<Op>, id: Id, a: Execution, b: Execution, n: nat)
    requires Started(s, ops, id, a) && Started(s, ops, id, b) && a.granted < b.granted
    requires a.read <= n <= |ops| && b.read <= n
    ensures a.read <= b.granted ==> BumpBetween(s, ops, id, a.read, n)
  {
    StartedRunExists(s, ops, id, a);
    FenceRisesIff(s, ops, id, a.granted + 1, b.granted);
    GrantIsBump(At(s, ops, b.granted), ops[b.granted], id);
    assert BumpAt(s, ops, id, b.granted);
  }

  lemma GrantIsBump(s: Store, op: Op, id: Id)
    requires id in s.runs && Granted(s, op, id).Some?
    ensures Bumps(s, op, id)
  {
  }

  /**
   It does happen: one instance starts a run, its lease expires, it starts the run again, and only
   then loads the first handle. Both executions present fence 2 and may write.
   */
  lemma TwoTasksCanShareAFence(request: Request, id: Id, owner: string, leaseMs: nat)
    ensures var start := OpCreate(id, request, owner, leaseMs, 9);
            var s, ops := EmptyStore(0), [start, OpTick(leaseMs), start];
            var a, b := Execution(owner, 0, 3), Execution(owner, 2, 3);
            && Started(s, ops, id, a) && Started(s, ops, id, b)
            && FenceHeld(s, ops, id, a) == FenceHeld(s, ops, id, b) == 2
            && MayWrite(s, ops, id, a, 3) && MayWrite(s, ops, id, b, 3)
  {
    var start := OpCreate(id, request, owner, leaseMs, 9);
    var s, ops := EmptyStore(0), [start, OpTick(leaseMs), start];
    NothingCounted(s.active, 0);
    AtNext(s, ops, 0);
    AtNext(s, ops, 1);
    AtNext(s, ops, 2);
    assert At(s, ops, 0) == s;
    TakenOverTwice(request, id, owner, leaseMs);
  }

  lemma TakenOverTwice(request: Request, id: Id, owner: string, leaseMs: nat)
    ensures var start := OpCreate(id, request, owner, leaseMs, 9);
            var first := Step(EmptyStore(0), start);
            var expired := Next(first.store, OpTick(leaseMs));
            var second := Step(expired, start);
            && Granted(EmptyStore(0), start, id) == Some(1) && Granted(expired, start, id) == Some(2)
            && id in second.store.runs && Owns(second.store.runs[id], owner, 2)
  {
    NothingCounted(EmptyStore(0).active, 0);
  }
}
