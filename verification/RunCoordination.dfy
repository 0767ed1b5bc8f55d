/** The per-thread lock slots: reference-counted, created on demand, removed when the last user leaves. */
module RunCoordination {
  import opened Prelude

  /** Agent, user scope, client thread. A missing user and an empty one share a scope. */
  datatype Key = Key(agentId: string, userScope: string, threadId: string)

  function KeyOf(agentId: string, threadId: string, userId: Option<string>): Key {
    Key(agentId, if userId.Some? then userId.value else "", threadId)
  }

  /** Where a task is inside `serialize_thread_run`, and the slot object it took on entry. */
  datatype Phase =
    | Waiting(key: Key, slot: nat)
    | Critical(key: Key, slot: nat)
    | Leaving(key: Key, slot: nat)

  /**
   Slots are numbered as they are created. `users` is each slot's own counter, `holder` who holds
   its lock, `lost` how many users of a key were never counted out.
   */
  datatype Table = Table(
    slots: map<Key, nat>,
    users: map<nat, int>,
    holder: map<nat, nat>,
    tasks: map<nat, Phase>,
    lost: map<Key, nat>,
    created: nat)

  /** `LoseDrop` is a task cancelled again while it waits for the guard on its way out. */
  datatype Step =
    | Enter(task: nat, key: Key)
    | Acquire(task: nat)
    | AbortWait(task: nat)
    | Release(task: nat)
    | Drop(task: nat)
    | LoseDrop(task: nat)

  const EMPTY := Table(map[], map[], map[], map[], map[], 0)

  predicate IsWaiting(t: Table, task: nat) {
    task in t.tasks && t.tasks[task].Waiting?
  }

  predicate IsCritical(t: Table, task: nat) {
    task in t.tasks && t.tasks[task].Critical?
  }

  predicate IsLeaving(t: Table, task: nat) {
    task in t.tasks && t.tasks[task].Leaving?
  }

  function Users(t: Table, slot: nat): int {
    if slot in t.users then t.users[slot] else 0
  }

  function Lost(t: Table, key: Key): nat {
    if key in t.lost then t.lost[key] else 0
  }

  function Entered(t: Table, task: nat, key: Key): Table {
    var slot := if key in t.slots then t.slots[key] else t.created;
    t.(slots := t.slots[key := slot],
       users := t.users[slot := if key in t.slots then Users(t, slot) + 1 else 1],
       tasks := t.tasks[task := Waiting(key, slot)],
       created := if key in t.slots then t.created else t.created + 1)
  }

  function Dropped(t: Table, task: nat): Table
    requires task in t.tasks
  {
    var key, slot := t.tasks[task].key, t.tasks[task].slot;
    var left := Users(t, slot) - 1;
    t.(users := t.users[slot := left],
       slots := if left == 0 && key in t.slots && t.slots[key] == slot then t.slots - {key} else t.slots,
       tasks := t.tasks - {task})
  }

  /** One atomic step; the guard lock makes entering and dropping atomic. A step whose guard fails does nothing. */
  function Next(t: Table, step: Step): Table {
    match step
    case Enter(task, key) => if task in t.tasks then t else Entered(t, task, key)
    case Acquire(task) =>
      if !IsWaiting(t, task) || t.tasks[task].slot in t.holder then t else
      t.(holder := t.holder[t.tasks[task].slot := task],
         tasks := t.tasks[task := Critical(t.tasks[task].key, t.tasks[task].slot)])
    case AbortWait(task) =>
      if !IsWaiting(t, task) then t else
      t.(tasks := t.tasks[task := Leaving(t.tasks[task].key, t.tasks[task].slot)])
    case Release(task) =>
      if !IsCritical(t, task) then t else
      t.(holder := t.holder - {t.tasks[task].slot},
         tasks := t.tasks[task := Leaving(t.tasks[task].key, t.tasks[task].slot)])
    case Drop(task) => if !IsLeaving(t, task) then t else Dropped(t, task)
    case LoseDrop(task) =>
      if !IsLeaving(t, task) then t else
      t.(tasks := t.tasks - {task}, lost := t.lost[t.tasks[task].key := Lost(t, t.tasks[task].key) + 1])
  }

  function Exec(t: Table, steps: seq<Step>): Table
    decreases |steps|
  {
    if steps == [] then t else Exec(Next(t, steps[0]), steps[1..])
  }

  // ---------------------------------------------------------------- invariant

  /** Every user in flight for a key. */
  ghost function UsersOf(t: Table, key: Key): set<nat> {
    set task | task in t.tasks && t.tasks[task].key == key
  }

  /** A task's key leads to the very slot it took; it holds that lock exactly in the critical section. */
  ghost predicate TaskAt(t: Table, task: nat) {
    task in t.tasks ==>
      var p := t.tasks[task];
      && p.key in t.slots && t.slots[p.key] == p.slot
      && (p.Critical? <==> p.slot in t.holder && t.holder[p.slot] == task)
  }

  /** A listed slot counts its users, present and lost, and has at least one; an unlisted key has none. */
  ghost predicate KeyAt(t: Table, key: Key) {
    if key in t.slots then
      && t.slots[key] < t.created
      && Users(t, t.slots[key]) == |UsersOf(t, key)| + Lost(t, key)
      && Users(t, t.slots[key]) > 0
    else
      Lost(t, key) == 0
  }

  ghost predicate HolderAt(t: Table, slot: nat) {
    slot in t.holder ==> t.holder[slot] in t.tasks && t.tasks[t.holder[slot]].slot == slot
  }

  ghost predicate Apart(t: Table, a: Key, b: Key) {
    a in t.slots && b in t.slots && a != b ==> t.slots[a] != t.slots[b]
  }

  ghost predicate Inv(t: Table) {
    && (forall task: nat :: TaskAt(t, task))
    && (forall key: Key :: KeyAt(t, key))
    && (forall slot: nat :: HolderAt(t, slot))
    && (forall a: Key, b: Key :: Apart(t, a, b))
  }

  lemma CountChange(a: set<nat>, b: set<nat>, x: nat)
    requires forall y :: y != x ==> (y in a <==> y in b)
    ensures |b| == |a| + (if x in b then 1 else 0) - (if x in a then 1 else 0)
  {
    assert a - {x} == b - {x};
    assert x in a ==> a == a - {x} + {x};
    assert x in b ==> b == b - {x} + {x};
  }

  /** While another task uses the key, its counter cannot reach zero. */
  lemma OtherUserRemains(t: Table, leaving: nat, other: nat)
    requires Inv(t) && leaving in t.tasks && other in t.tasks && leaving != other
    requires t.tasks[leaving].key == t.tasks[other].key
    ensures Users(t, t.tasks[leaving].slot) >= 2
  {
    var key := t.tasks[leaving].key;
    assert TaskAt(t, leaving) && KeyAt(t, key);
    assert {leaving, other} <= UsersOf(t, key);
    assert UsersOf(t, key) == {leaving, other} + (UsersOf(t, key) - {leaving, other});
  }

  lemma UnlistedHasNoUsers(t: Table, key: Key)
    requires Inv(t) && key !in t.slots
    ensures UsersOf(t, key) == {}
  {
    forall task ensures task !in UsersOf(t, key) { assert TaskAt(t, task); }
  }

  lemma EnterKeepsKey(t: Table, task: nat, key: Key, k: Key)
    requires Inv(t) && task !in t.tasks
    ensures KeyAt(Entered(t, task, key), k)
  {
    var n := Entered(t, task, key);
    assert KeyAt(t, key) && KeyAt(t, k) && Apart(t, key, k);
    CountChange(UsersOf(t, k), UsersOf(n, k), task);
    if key !in t.slots && k == key {
      UnlistedHasNoUsers(t, key);
    }
  }

  lemma DropKeepsKey(t: Table, task: nat, k: Key)
    requires Inv(t) && task in t.tasks
    ensures KeyAt(Dropped(t, task), k)
  {
    var n := Dropped(t, task);
    var key := t.tasks[task].key;
    assert TaskAt(t, task) && KeyAt(t, key) && KeyAt(t, k) && Apart(t, key, k);
    CountChange(UsersOf(t, k), UsersOf(n, k), task);
  }

  lemma LoseKeepsKey(t: Table, task: nat, k: Key)
    requires Inv(t)
    ensures KeyAt(Next(t, LoseDrop(task)), k)
  {
    var n := Next(t, LoseDrop(task));
    assert KeyAt(t, k) && TaskAt(t, task);
    CountChange(UsersOf(t, k), UsersOf(n, k), task);
  }

  lemma StepKeepsKey(t: Table, step: Step, k: Key)
    requires Inv(t)
    ensures KeyAt(Next(t, step), k)
  {
    assert KeyAt(t, k);
    match step
    case Enter(task, key) => if task !in t.tasks { EnterKeepsKey(t, task, key, k); }
    case Drop(task) => if task in t.tasks { DropKeepsKey(t, task, k); }
    case LoseDrop(task) => LoseKeepsKey(t, task, k);
    case _ => assert UsersOf(Next(t, step), k) == UsersOf(t, k);
  }

  /** A task that just entered holds no lock: every holder is a task already in the table. */
  lemma EnterKeepsTask(t: Table, task: nat, key: Key, other: nat)
    requires Inv(t) && task !in t.tasks
    ensures TaskAt(Entered(t, task, key), other)
  {
    var n := Entered(t, task, key);
    assert TaskAt(t, other) && KeyAt(t, key);
    assert HolderAt(t, n.tasks[task].slot);
  }

  lemma DropKeepsTask(t: Table, task: nat, other: nat)
    requires Inv(t) && task in t.tasks
    ensures TaskAt(Dropped(t, task), other)
  {
    assert TaskAt(t, task) && TaskAt(t, other);
    if other in t.tasks && other != task {
      if t.tasks[other].key == t.tasks[task].key {
        OtherUserRemains(t, task, other);
      }
    }
  }

  /** Two tasks on one slot are on one key, so giving or freeing a lock disturbs no other task. */
  lemma LockKeepsTask(t: Table, step: Step, other: nat)
    requires Inv(t) && (step.Acquire? || step.Release?)
    ensures TaskAt(Next(t, step), other)
  {
    assert TaskAt(t, step.task) && TaskAt(t, other);
    assert step.task in t.tasks ==> HolderAt(t, t.tasks[step.task].slot);
  }

  lemma StepKeepsTask(t: Table, step: Step, other: nat)
    requires Inv(t)
    ensures TaskAt(Next(t, step), other)
  {
    assert TaskAt(t, other);
    match step
    case Enter(task, key) => if task !in t.tasks { EnterKeepsTask(t, task, key, other); }
    case Drop(task) => if task in t.tasks { DropKeepsTask(t, task, other); }
    case Acquire(_) => LockKeepsTask(t, step, other);
    case Release(_) => LockKeepsTask(t, step, other);
    case _ =>
  }

  lemma StepKeepsHolder(t: Table, step: Step, slot: nat)
    requires Inv(t)
    ensures HolderAt(Next(t, step), slot)
  {
    assert HolderAt(t, slot);
    assert TaskAt(t, step.task);
  }

  lemma StepKeepsApart(t: Table, step: Step, a: Key, b: Key)
    requires Inv(t)
    ensures Apart(Next(t, step), a, b)
  {
    assert Apart(t, a, b) && KeyAt(t, a) && KeyAt(t, b);
  }

  lemma StepKeepsInv(t: Table, step: Step)
    requires Inv(t)
    ensures Inv(Next(t, step))
  {
    var n := Next(t, step);
    forall task: nat ensures TaskAt(n, task) { StepKeepsTask(t, step, task); }
    forall key: Key ensures KeyAt(n, key) { StepKeepsKey(t, step, key); }
    forall slot: nat ensures HolderAt(n, slot) { StepKeepsHolder(t, step, slot); }
    forall a: Key, b: Key ensures Apart(n, a, b) { StepKeepsApart(t, step, a, b); }
  }

  lemma {:induction false} ExecKeepsInv(t: Table, steps: seq<Step>)
    requires Inv(t)
    ensures Inv(Exec(t, steps))
    decreases |steps|
  {
    if steps != [] {
      StepKeepsInv(t, steps[0]);
      ExecKeepsInv(Next(t, steps[0]), steps[1..]);
    }
  }

  // ---------------------------------------------------------------- what callers rely on

  /** At most one task per key is in the critical section, and all tasks of a key share its slot. */
  lemma MutualExclusion(steps: seq<Step>, a: nat, b: nat)
    ensures var t := Exec(EMPTY, steps);
            a in t.tasks && b in t.tasks && t.tasks[a].key == t.tasks[b].key ==>
              && t.tasks[a].slot == t.tasks[b].slot
              && (t.tasks[a].Critical? && t.tasks[b].Critical? ==> a == b)
  {
    ExecKeepsInv(EMPTY, steps);
    var t := Exec(EMPTY, steps);
    assert TaskAt(t, a) && TaskAt(t, b);
  }

  /** Tasks of different keys never share a slot, so they never wait for one another. */
  lemma KeysDoNotShare(steps: seq<Step>, a: nat, b: nat)
    ensures var t := Exec(EMPTY, steps);
            a in t.tasks && b in t.tasks && t.tasks[a].slot == t.tasks[b].slot ==> t.tasks[a].key == t.tasks[b].key
  {
    ExecKeepsInv(EMPTY, steps);
    var t := Exec(EMPTY, steps);
    assert TaskAt(t, a) && TaskAt(t, b);
    if a in t.tasks && b in t.tasks {
      assert Apart(t, t.tasks[a].key, t.tasks[b].key);
    }
  }

  /** A key has a slot exactly while some task uses it or some user of it was never counted out. */
  lemma SlotExistsIff(steps: seq<Step>, key: Key)
    ensures var t := Exec(EMPTY, steps);
            key in t.slots <==> UsersOf(t, key) != {} || Lost(t, key) > 0
  {
    ExecKeepsInv(EMPTY, steps);
    var t := Exec(EMPTY, steps);
    assert KeyAt(t, key);
    if key !in t.slots {
      UnlistedHasNoUsers(t, key);
    }
  }

  /** The identity test on the way out always succeeds: a user's slot is still the listed one. */
  lemma ListedSlotIsOurs(steps: seq<Step>, task: nat)
    ensures var t := Exec(EMPTY, steps);
            task in t.tasks ==> t.tasks[task].key in t.slots && t.slots[t.tasks[task].key] == t.tasks[task].slot
  {
    ExecKeepsInv(EMPTY, steps);
    assert TaskAt(Exec(EMPTY, steps), task);
  }

  /** A step unlists a slot only when nobody is left on it, in the lock or lost. */
  lemma RemovedOnlyWhenUnused(steps: seq<Step>, step: Step, key: Key)
    requires key in Exec(EMPTY, steps).slots && key !in Next(Exec(EMPTY, steps), step).slots
    ensures var n := Next(Exec(EMPTY, steps), step);
            UsersOf(n, key) == {} && Lost(n, key) == 0 && Exec(EMPTY, steps).slots[key] !in n.holder
  {
    var t := Exec(EMPTY, steps);
    var n := Next(t, step);
    ExecKeepsInv(EMPTY, steps);
    StepKeepsInv(t, step);
    UnlistedHasNoUsers(n, key);
    assert KeyAt(n, key);
    UnlistedIsFree(t, step, key);
  }

  lemma UnlistedIsFree(t: Table, step: Step, key: Key)
    requires Inv(t) && Inv(Next(t, step)) && key in t.slots && key !in Next(t, step).slots
    ensures t.slots[key] !in Next(t, step).holder
  {
    var n := Next(t, step);
    var slot := t.slots[key];
    assert TaskAt(t, step.task) && HolderAt(n, slot);
    assert n.holder == t.holder;
    var other := if slot in n.holder then n.holder[slot] else step.task;
    assert TaskAt(n, other) && TaskAt(t, other);
    assert other in t.tasks ==> Apart(t, key, t.tasks[other].key);
  }

  /** Runs share a scope exactly when agent, thread and user agree, where no user and an empty one are the same. */
  lemma SameScopeIff(agentId: string, threadId: string, userId: Option<string>, agent: string, thread: string, user: Option<string>)
    ensures KeyOf(agentId, threadId, userId) == KeyOf(agent, thread, user) <==>
            && agentId == agent && threadId == thread
            && (userId == user || (userId in {None, Some("")} && user in {None, Some("")}))
  {
  }

  /** A waiting task gets its lock exactly when no task of its key is in the critical section. */
  lemma LockIsGrantedIff(steps: seq<Step>, task: nat)
    requires IsWaiting(Exec(EMPTY, steps), task)
    ensures var t := Exec(EMPTY, steps);
            IsCritical(Next(t, Acquire(task)), task) <==>
            forall other :: IsCritical(t, other) ==> t.tasks[other].key != t.tasks[task].key
  {
    ExecKeepsInv(EMPTY, steps);
    GrantedIff(Exec(EMPTY, steps), task);
  }

  lemma GrantedIff(t: Table, task: nat)
    requires Inv(t) && IsWaiting(t, task)
    ensures IsCritical(Next(t, Acquire(task)), task) <==>
            forall other :: IsCritical(t, other) ==> t.tasks[other].key != t.tasks[task].key
  {
    var slot := t.tasks[task].slot;
    assert TaskAt(t, task) && HolderAt(t, slot);
    forall other | IsCritical(t, other) ensures t.tasks[other].key == t.tasks[task].key ==> slot in t.holder {
      assert TaskAt(t, other);
    }
    if slot in t.holder {
      var other := t.holder[slot];
      assert TaskAt(t, other) && Apart(t, t.tasks[other].key, t.tasks[task].key);
    }
  }

  /** Nobody waits for good: once the task in the critical section, if there is one, releases, any waiting task can get in. */
  lemma EveryWaiterGetsIn(steps: seq<Step>, task: nat) returns (more: seq<Step>)
    requires IsWaiting(Exec(EMPTY, steps), task)
    ensures IsCritical(Exec(Exec(EMPTY, steps), more), task)
    ensures more == [Acquire(task)] || (|more| == 2 && more[0].Release? && more[1] == Acquire(task))
  {
    ExecKeepsInv(EMPTY, steps);
    more := GetsIn(Exec(EMPTY, steps), task);
  }

  lemma GetsIn(t: Table, task: nat) returns (more: seq<Step>)
    requires Inv(t) && IsWaiting(t, task)
    ensures IsCritical(Exec(t, more), task)
    ensures more == [Acquire(task)] || (|more| == 2 && more[0].Release? && more[1] == Acquire(task))
  {
    var slot := t.tasks[task].slot;
    if slot in t.holder {
      var other := t.holder[slot];
      assert HolderAt(t, slot) && TaskAt(t, other) && TaskAt(t, task);
      assert Apart(t, t.tasks[other].key, t.tasks[task].key);
      var free := Next(t, Release(other));
      assert slot !in free.holder && IsWaiting(free, task) && free.tasks[task].slot == slot;
      more := [Release(other), Acquire(task)];
      TwoSteps(t, Release(other), Acquire(task));
    } else {
      more := [Acquire(task)];
      assert more[1..] == [];
      assert Exec(t, more) == Exec(Next(t, Acquire(task)), []);
    }
  }

  lemma TwoSteps(t: Table, a: Step, b: Step)
    ensures Exec(t, [a, b]) == Next(Next(t, a), b)
  {
    assert [a, b][1..] == [b] && [b][1..] == [];
    assert Exec(Next(t, a), [b]) == Exec(Next(Next(t, a), b), []);
  }

  lemma NewSlotIsFree(t: Table)
    requires Inv(t)
    ensures t.created !in t.holder
  {
    forall slot | slot in t.holder ensures slot < t.created {
      assert HolderAt(t, slot) && TaskAt(t, t.holder[slot]);
      assert KeyAt(t, t.tasks[t.holder[slot]].key);
    }
  }

  /** A run on a thread that nobody uses leaves the table as it found it. */
  lemma RunLeavesNoTrace(t: Table, task: nat, key: Key)
    requires Inv(t) && task !in t.tasks && key !in t.slots
    ensures var n := Next(Next(Next(Next(t, Enter(task, key)), Acquire(task)), Release(task)), Drop(task));
            n.slots == t.slots && n.tasks == t.tasks && n.holder == t.holder && n.lost == t.lost
    ensures IsCritical(Next(Next(t, Enter(task, key)), Acquire(task)), task)
  {
    NewSlotIsFree(t);
    var inside := Next(Next(t, Enter(task, key)), Acquire(task));
    assert inside.slots == t.slots[key := t.created] && inside.holder == t.holder[t.created := task];
  }

  /** One lost drop keeps the key listed for good, whatever happens next. */
  lemma {:induction false} LeakIsForever(t: Table, steps: seq<Step>, key: Key)
    requires Inv(t) && Lost(t, key) > 0
    ensures Lost(Exec(t, steps), key) >= Lost(t, key)
    ensures key in Exec(t, steps).slots
    decreases |steps|
  {
    assert KeyAt(t, key);
    if steps != [] {
      StepKeepsInv(t, steps[0]);
      LeakIsForever(Next(t, steps[0]), steps[1..], key);
    }
  }

  /** Without lost drops an idle table is an empty one. */
  lemma IdleIsEmpty(steps: seq<Step>)
    requires forall step :: step in steps ==> !step.LoseDrop?
    ensures Exec(EMPTY, steps).tasks == map[] ==> Exec(EMPTY, steps).slots == map[]
  {
    NothingLost(EMPTY, steps);
    var t := Exec(EMPTY, steps);
    forall key | t.tasks == map[] ensures key !in t.slots {
      SlotExistsIff(steps, key);
      assert UsersOf(t, key) == {};
    }
  }

  lemma {:induction false} NothingLost(t: Table, steps: seq<Step>)
    requires t.lost == map[] && forall step :: step in steps ==> !step.LoseDrop?
    ensures Exec(t, steps).lost == map[]
    decreases |steps|
  {
    if steps != [] {
      NothingLost(Next(t, steps[0]), steps[1..]);
    }
  }

  // ---------------------------------------------------------------- the code

  class SlotTable {
    var slots: map<Key, nat>
    var users: map<nat, int>
    var holder: map<nat, nat>
    var tasks: map<nat, Phase>
    var lost: map<Key, nat>
    var created: nat

    function View(): Table
      reads this
    {
      Table(slots, users, holder, tasks, lost, created)
    }

    constructor ()
      ensures View() == EMPTY
    {
      slots, users, holder, tasks, lost, created := map[], map[], map[], map[], map[], 0;
    }

    /** The guarded block on entry. */
    method EnterSlot(task: nat, agentId: string, threadId: string, userId: Option<string>) returns (slot: nat)
      requires task !in tasks
      modifies this
      ensures View() == Next(old(View()), Enter(task, KeyOf(agentId, threadId, userId)))
      ensures tasks[task] == Waiting(KeyOf(agentId, threadId, userId), slot)
    {
      var key := Key(agentId, if userId.Some? then userId.value else "", threadId);
      if key in slots {
        slot := slots[key];
      } else {
        slot := created;
        slots, users, created := slots[key := slot], users[slot := 0], created + 1;
      }
      users := users[slot := (if slot in users then users[slot] else 0) + 1];
      tasks := tasks[task := Waiting(key, slot)];
      assert slots == Next(old(View()), Enter(task, key)).slots;
      assert users == Next(old(View()), Enter(task, key)).users;
    }

    /** `slot.lock.acquire()` when the lock is free. */
    method AcquireLock(task: nat)
      requires IsWaiting(View(), task) && tasks[task].slot !in holder
      modifies this
      ensures View() == Next(old(View()), Acquire(task))
    {
      holder := holder[tasks[task].slot := task];
      tasks := tasks[task := Critical(tasks[task].key, tasks[task].slot)];
    }

    /** `slot.lock.release()`. */
    method ReleaseLock(task: nat)
      requires IsCritical(View(), task)
      modifies this
      ensures View() == Next(old(View()), Release(task))
    {
      holder := holder - {tasks[task].slot};
      tasks := tasks[task := Leaving(tasks[task].key, tasks[task].slot)];
    }

    /** `_drop_slot_user`. */
    method DropSlotUser(task: nat)
      requires IsLeaving(View(), task)
      modifies this
      ensures View() == Next(old(View()), Drop(task))
    {
      var key, slot := tasks[task].key, tasks[task].slot;
      users := users[slot := (if slot in users then users[slot] else 0) - 1];
      if users[slot] == 0 && key in slots && slots[key] == slot {
        slots := slots - {key};
      }
      tasks := tasks - {task};
    }
  }
}
