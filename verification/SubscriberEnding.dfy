/**
 When a subscription ends by itself: exactly when a run that has come to rest holds nothing that
 every read would stop at.
 */
module SubscriberEnding {
  import opened Prelude
  import opened Registry
  import opened RegistryInvariant
  import opened RegistryHistory
  import opened RegistryLog
  import opened Subscriber
  import opened SubscriberLoop

  /** From call `t` on the run has ended or waits for input, nothing is added to it, and no reply is lost. */
  ghost predicate Settled(world: seq<Snapshot>, t: nat) {
    t < |world| && forall m :: t <= m < |world| ==> SettledAt(world, t, m)
  }

  ghost predicate SettledAt(world: seq<Snapshot>, t: nat, m: int)
    requires t <= m < |world|
  {
    && !world[m].lost && Stopped(world[m].run)
    && world[m].run.version == world[t].run.version && world[m].run.lastEventId == world[t].run.lastEventId
  }

  /** A buffered event after `cursor` is a marker at the current fence of a run that has not ended. */
  ghost predicate Blocked(r: Run, cursor: nat) {
    exists i :: 0 <= i < |r.events| && HeldAt(r, cursor, i)
  }

  predicate HeldAt(r: Run, cursor: nat, i: int)
    requires 0 <= i < |r.events|
  {
    r.events[i].id > cursor && HeldBack(r.events[i], r)
  }

  /** The same run, as far as a reader can tell. */
  predicate Alike(a: Run, b: Run) {
    && a.status == b.status && a.fence == b.fence && a.lastEventId == b.lastEventId
    && a.events == b.events && a.log == b.log && a.request == b.request
  }

  lemma SettledIsAlike(world: seq<Snapshot>, t: nat, m: nat)
    requires Observed(world) && Settled(world, t) && t <= m < |world|
    ensures Alike(world[m].run, world[t].run) && !world[m].lost && Stopped(world[m].run)
    ensures RunInv(world[m].run)
  {
    assert InOrder(world, t, m) && SettledAt(world, t, m);
  }

  /** An ended run is settled from the first call that sees it so, if no reply is lost. */
  lemma EndedIsSettled(world: seq<Snapshot>, t: nat)
    requires Observed(world) && t < |world| && Terminal(world[t].run.status)
    requires forall m :: t <= m < |world| ==> !world[m].lost
    ensures Settled(world, t) && forall cursor: nat :: !Blocked(world[t].run, cursor)
  {
    forall m | t <= m < |world| ensures SettledAt(world, t, m) {
      assert InOrder(world, t, m);
    }
  }

  // ---------------------------------------------------------------- one pass over a settled run

  /** What a read of a settled run finds, and what the first entry decides. */
  lemma SettledReply(q: Run, state: Run, cursor: nat)
    requires RunInv(q) && Alike(state, q) && cursor < q.lastEventId && q.events != []
    ensures var reply := XRead(q.events, cursor);
            && reply != []
            && (Handled(reply, state) > 0 <==> !HeldBack(reply[0], q))
            && (Handled(reply, state) > 0 ==> reply[Handled(reply, state) - 1].id > cursor)
  {
    var reply := XRead(q.events, cursor);
    XReadIsSlice(q, cursor);
    ActionOf(reply[0], state);
  }

  /** The first entry of a reply is buffered, so it blocks the reader if it is held. */
  lemma FirstHeldBlocks(q: Run, cursor: nat)
    requires RunInv(q) && cursor < q.lastEventId && q.events != []
    requires XRead(q.events, cursor) != [] && HeldBack(XRead(q.events, cursor)[0], q)
    ensures Blocked(q, cursor)
  {
    XReadIsSlice(q, cursor);
    BufferIsContiguous(q);
    var i := ReadFrom(q, cursor) - (q.lastEventId - |q.events|);
    assert q.events[i] == XRead(q.events, cursor)[0];
    assert HeldAt(q, cursor, i);
  }

  /** What was processed did not block, so what blocks is still ahead. */
  lemma StillBlocked(q: Run, state: Run, cursor: nat, cursor': nat)
    requires RunInv(q) && Alike(state, q) && cursor < q.lastEventId
    requires var reply := XRead(q.events, cursor);
             var n := Handled(reply, state);
             cursor' == if n == 0 then cursor else reply[n - 1].id
    ensures cursor <= cursor' && (Blocked(q, cursor') <==> Blocked(q, cursor))
  {
    XReadIsSlice(q, cursor);
    if Blocked(q, cursor) {
      var i :| 0 <= i < |q.events| && HeldAt(q, cursor, i);
      NotPassed(q, state, cursor, i);
      assert HeldAt(q, cursor', i);
    }
    if Blocked(q, cursor') {
      var i :| 0 <= i < |q.events| && HeldAt(q, cursor', i);
      assert HeldAt(q, cursor, i);
    }
  }

  /** Where a buffered event behind the cursor stands in a reply, or would if the reply went on. */
  lemma PlaceInReply(q: Run, cursor: nat, i: nat)
    requires RunInv(q) && cursor < q.lastEventId && i < |q.events| && q.events[i].id > cursor
    ensures var reply, first := XRead(q.events, cursor), ReadFrom(q, cursor);
            && first < q.events[i].id
            && (q.events[i].id <= first + |reply| ==> reply[q.events[i].id - first - 1] == q.events[i])
            && (forall k :: 0 <= k < |reply| ==> reply[k].id == first + k + 1)
  {
    XReadIsSlice(q, cursor);
    BufferedAt(q, i);
    BufferStart(q, i);
  }

  lemma BufferStart(q: Run, i: nat)
    requires RunInv(q) && i < |q.events|
    ensures q.events[i].id > q.lastEventId - |q.events|
  {
    BufferIsContiguous(q);
  }

  lemma NotPassed(q: Run, state: Run, cursor: nat, i: nat)
    requires RunInv(q) && Alike(state, q) && cursor < q.lastEventId
    requires i < |q.events| && HeldAt(q, cursor, i)
    ensures var reply := XRead(q.events, cursor);
            var n := Handled(reply, state);
            n > 0 ==> reply[n - 1].id < q.events[i].id
  {
    var reply := XRead(q.events, cursor);
    PlaceInReply(q, cursor, i);
    AlikeIsFree(reply, state, q);
  }

  lemma AlikeIsFree(reply: seq<Event>, state: Run, q: Run)
    requires Alike(state, q)
    ensures forall k :: 0 <= k < Handled(reply, state) ==> !HeldBack(reply[k], q)
  {
    HandledIsFree(reply, state);
  }

  /** A read that finds something, on a settled run: the next state check, or the client leaves. */
  lemma RoundSettled(world: seq<Snapshot>, t: nat, sub: Sub)
    requires Observed(world) && Settled(world, t) && t <= sub.calls && sub.calls + 1 < |world|
    requires sub.cursor < world[t].run.lastEventId && world[t].run.events != []
    ensures var q, p := world[t].run, ReadOnce(world, sub);
            && p.ending.None? && p.sub.calls == sub.calls + 2 && sub.cursor <= p.sub.cursor
            && (Blocked(q, p.sub.cursor) <==> Blocked(q, sub.cursor))
            && (!Blocked(q, sub.cursor) ==> sub.cursor < p.sub.cursor)
  {
    var q, read, state := world[t].run, world[sub.calls].run, world[sub.calls + 1].run;
    SettledIsAlike(world, t, t);
    SettledIsAlike(world, t, sub.calls);
    SettledIsAlike(world, t, sub.calls + 1);
    var reply := XRead(q.events, sub.cursor);
    var n := Handled(reply, state);
    SettledReply(q, state, sub.cursor);
    var next := sub.(calls := sub.calls + 1);
    assert ReadOnce(world, sub) == Pass(Processed(world, next, sub.calls, reply), None);
    StillBlocked(q, state, sub.cursor, if n == 0 then sub.cursor else reply[n - 1].id);
    if n == 0 {
      FirstHeldBlocks(q, sub.cursor);
    }
  }

  /** An empty buffer with something behind the cursor is a gap. */
  lemma EmptyBufferIsGap(world: seq<Snapshot>, t: nat, sub: Sub)
    requires Observed(world) && Settled(world, t) && t <= sub.calls && sub.calls + 3 <= |world|
    requires sub.cursor < world[t].run.lastEventId && world[t].run.events == []
    ensures ReadOnce(world, sub).ending == Some(Gap)
  {
    SettledIsAlike(world, t, sub.calls);
    SettledIsAlike(world, t, sub.calls + 1);
    SettledIsAlike(world, t, sub.calls + 2);
    assert Reply(world[sub.calls], sub.cursor) == [];
  }

  lemma CheckSettled(world: seq<Snapshot>, t: nat, sub: Sub)
    requires Observed(world) && Settled(world, t) && t <= sub.calls < |world|
    ensures CheckedEnd(world, sub) ==
            Pass(sub.(calls := sub.calls + 1), if sub.cursor >= world[t].run.lastEventId then Some(Drained) else None)
  {
    SettledIsAlike(world, t, sub.calls);
  }

  /** With nothing blocking, a pass ends the subscription or moves it on by four calls and at least one event. */
  lemma FreePass(world: seq<Snapshot>, t: nat, sub: Sub)
    requires Observed(world) && Settled(world, t) && t <= sub.calls && sub.calls + 4 <= |world|
    requires !Blocked(world[t].run, sub.cursor)
    ensures var p := Polled(world, sub);
            && p.ending != Some(Disconnected)
            && (p.ending == Some(Gap) ==> world[t].run.events == [] && 0 < world[t].run.lastEventId)
            && p.ending != Some(Ahead)
            && (p.ending.None? ==>
                  && p.sub.calls == sub.calls + 4 && sub.cursor < p.sub.cursor < world[t].run.lastEventId
                  && !Blocked(world[t].run, p.sub.cursor))
  {
    CheckSettled(world, t, sub);
    if sub.cursor < world[t].run.lastEventId {
      var next := sub.(calls := sub.calls + 1);
      if world[t].run.events == [] {
        EmptyBufferIsGap(world, t, next);
      } else {
        RoundSettled(world, t, next);
        CheckSettled(world, t, ReadOnce(world, next).sub);
      }
    }
  }

  lemma BlockedIsBehind(r: Run, cursor: nat)
    requires RunInv(r) && Blocked(r, cursor)
    ensures r.events != [] && cursor < r.lastEventId
  {
    BufferIsContiguous(r);
  }

  /** With something blocking, a pass goes on, still blocked, or the client leaves. */
  lemma BlockedPass(world: seq<Snapshot>, t: nat, sub: Sub)
    requires Observed(world) && Settled(world, t) && t <= sub.calls <= |world|
    requires Blocked(world[t].run, sub.cursor)
    ensures var p := Polled(world, sub);
            p.ending == Some(Disconnected) || (p.ending.None? && Blocked(world[t].run, p.sub.cursor))
  {
    SettledIsAlike(world, t, t);
    BlockedIsBehind(world[t].run, sub.cursor);
    if sub.calls < |world| {
      CheckSettled(world, t, sub);
      var next := sub.(calls := sub.calls + 1);
      BlockedRound(world, t, next);
    }
  }

  lemma BlockedRound(world: seq<Snapshot>, t: nat, sub: Sub)
    requires Observed(world) && Settled(world, t) && t < sub.calls <= |world|
    requires Blocked(world[t].run, sub.cursor)
    ensures var round := ReadOnce(world, sub);
            var p := if round.ending.Some? then round else CheckedEnd(world, round.sub);
            p.ending == Some(Disconnected) || (p.ending.None? && Blocked(world[t].run, p.sub.cursor))
  {
    SettledIsAlike(world, t, t);
    BlockedIsBehind(world[t].run, sub.cursor);
    if sub.calls + 1 < |world| {
      RoundSettled(world, t, sub);
      var round := ReadOnce(world, sub);
      BlockedIsBehind(world[t].run, round.sub.cursor);
      if round.sub.calls < |world| {
        CheckSettled(world, t, round.sub);
      }
    } else if sub.calls < |world| {
      SettledIsAlike(world, t, sub.calls);
      SettledReply(world[t].run, world[t].run, sub.cursor);
    }
  }

  // ---------------------------------------------------------------- the whole loop

  lemma {:induction false} BlockedNeverEnds(world: seq<Snapshot>, t: nat, sub: Sub)
    requires Observed(world) && Settled(world, t) && t <= sub.calls <= |world|
    requires Blocked(world[t].run, sub.cursor)
    ensures Looped(world, sub).1.Disconnected?
    decreases |world| - sub.calls
  {
    BlockedPass(world, t, sub);
    var p := Polled(world, sub);
    if p.ending.None? {
      BlockedNeverEnds(world, t, p.sub);
    }
  }

  predicate Buffers(r: Run) {
    r.request.bufferSize > 0
  }

  /** Four calls for each event still to come, and four to notice that there is none. */
  ghost predicate Enough(world: seq<Snapshot>, t: nat, sub: Sub)
    requires t < |world|
  {
    var last := world[t].run.lastEventId;
    sub.calls + 4 + 4 * (if sub.cursor < last then last - sub.cursor else 0) <= |world|
  }

  lemma BuffersSomething(world: seq<Snapshot>, t: nat)
    requires Observed(world) && Settled(world, t)
    ensures Buffers(world[t].run) && world[t].run.events == [] ==> world[t].run.lastEventId == 0
  {
    SettledIsAlike(world, t, t);
    BufferIsContiguous(world[t].run);
  }

  lemma {:induction false} FreeEnds(world: seq<Snapshot>, t: nat, sub: Sub)
    requires Observed(world) && Settled(world, t) && t <= sub.calls
    requires !Blocked(world[t].run, sub.cursor) && Enough(world, t, sub)
    ensures !Looped(world, sub).1.Disconnected?
    ensures Buffers(world[t].run) ==> Looped(world, sub).1.Drained?
    decreases |world| - sub.calls
  {
    BuffersSomething(world, t);
    FreePass(world, t, sub);
    var p := Polled(world, sub);
    if p.ending.None? {
      FreeEnds(world, t, p.sub);
    }
  }

  /** A loop that is still going six calls after `t` has begun a pass after `t`. */
  lemma {:induction false} PassAfter(world: seq<Snapshot>, start: nat, sub: Sub, t: nat) returns (head: Sub)
    requires Observed(world) && Tracking(world, start, sub) && !sub.done
    requires Looped(world, sub).0.calls >= t + 6
    ensures Tracking(world, start, head) && !head.done && t < head.calls
    ensures head.calls <= t + 5 || head == sub
    ensures Looped(world, head) == Looped(world, sub)
    decreases |world| - sub.calls
  {
    if sub.calls > t {
      head := sub;
    } else {
      PolledLeads(world, start, sub);
      head := PassAfter(world, start, Polled(world, sub).sub, t);
    }
  }

  /** A held marker that is still buffered was never passed over. */
  lemma HeldIsUnread(r: Run, q: Run, start: nat, sub: Sub)
    requires RunInv(r) && RunInv(q) && Alike(r, q) && Track(r, start, sub) && !sub.done
    ensures Blocked(q, sub.cursor) <==> Blocked(q, start)
  {
    if Blocked(q, start) {
      var i :| 0 <= i < |q.events| && HeldAt(q, start, i);
      NotSeen(r, start, sub, i);
      assert HeldAt(q, sub.cursor, i);
    }
    if Blocked(q, sub.cursor) {
      var i :| 0 <= i < |q.events| && HeldAt(q, sub.cursor, i);
      assert HeldAt(q, start, i);
    }
  }

  lemma BufferedAt(r: Run, i: nat)
    requires RunInv(r) && i < |r.events|
    ensures 0 < r.events[i].id <= |r.log| && r.log[r.events[i].id - 1] == r.events[i]
    ensures !TrimmedAway(r, r.events[i].id - 1)
  {
    BufferIsContiguous(r);
  }

  lemma PassedIsSeen(r: Run, start: nat, sub: Sub, i: nat)
    requires RunInv(r) && Track(r, start, sub)
    requires i < |r.events| && start < r.events[i].id <= sub.cursor
    ensures r.events[i] in sub.seen
  {
    BufferedAt(r, i);
    assert SeenOrTrimmedAt(r, sub.seen, r.events[i].id - 1);
  }

  lemma SeenIsSettled(r: Run, start: nat, sub: Sub, e: Event)
    requires RunInv(r) && Track(r, start, sub) && !sub.done && e in sub.seen
    ensures !HeldBack(e, r)
  {
    var k :| 0 <= k < |sub.seen| && sub.seen[k] == e;
    assert IsDone(e.payload) ==> Superseded(sub.seen[k], r);
  }

  lemma NotSeen(r: Run, start: nat, sub: Sub, i: nat)
    requires RunInv(r) && Track(r, start, sub) && !sub.done
    requires i < |r.events| && HeldAt(r, start, i)
    ensures r.events[i].id > sub.cursor
  {
    if r.events[i].id <= sub.cursor {
      PassedIsSeen(r, start, sub, i);
      SeenIsSettled(r, start, sub, r.events[i]);
    }
  }

  /** Long enough for whatever is left to be read. */
  ghost predicate LongEnough(world: seq<Snapshot>, t: nat) {
    t < |world| && |world| >= t + 9 + 4 * world[t].run.lastEventId
  }

  /**
   A run that settles at call `t`: a subscription that is still going six calls later, and is given
   time, ends by itself exactly when no buffered event after the requested position is a marker at
   the current fence of the waiting run; and then, unless the run buffers nothing, it has drained it.
   */
  lemma SettledEndsIff(world: seq<Snapshot>, lastEventId: int, t: nat)
    requires Observed(world) && Settled(world, t) && LongEnough(world, t)
    ensures var (sub, ending) := Subscribed(world, lastEventId);
            && (sub.calls < t + 6 ==> !ending.Disconnected?)
            && (sub.calls >= t + 6 ==> (ending.Disconnected? <==> Blocked(world[t].run, StartAt(lastEventId))))
            && (sub.calls >= t + 6 && Buffers(world[t].run) ==>
                  (ending.Drained? <==> !Blocked(world[t].run, StartAt(lastEventId))))
  {
    var start := StartAt(lastEventId);
    var (sub, ending) := Subscribed(world, lastEventId);
    SubscribedLeads(world, lastEventId);
    if sub.calls >= t + 6 {
      OpenedTracks(world, start);
      CheckedGapLeads(world, start, Opened(start));
      CheckedGapKeeps(world, Opened(start));
      LoopSettles(world, start, CheckedGap(world, Opened(start)).sub, t);
    }
  }

  lemma LoopSettles(world: seq<Snapshot>, start: nat, sub: Sub, t: nat)
    requires Observed(world) && Settled(world, t) && LongEnough(world, t)
    requires Tracking(world, start, sub) && !sub.done && sub.calls <= 3
    requires Looped(world, sub).0.calls >= t + 6
    ensures Looped(world, sub).1.Disconnected? <==> Blocked(world[t].run, start)
    ensures Buffers(world[t].run) ==> (Looped(world, sub).1.Drained? <==> !Blocked(world[t].run, start))
  {
    var head := PassAfter(world, start, sub, t);
    SettledIsAlike(world, t, t);
    SettledIsAlike(world, t, head.calls - 1);
    HeldIsUnread(world[head.calls - 1].run, world[t].run, start, head);
    if Blocked(world[t].run, start) {
      BlockedNeverEnds(world, t, head);
    } else {
      FreeEnds(world, t, head);
    }
  }

  /** So a subscription to a run that has ended always ends by itself. */
  lemma EndedRunEnds(world: seq<Snapshot>, lastEventId: int, t: nat)
    requires Observed(world) && LongEnough(world, t) && Terminal(world[t].run.status)
    requires forall m :: t <= m < |world| ==> !world[m].lost
    ensures !Subscribed(world, lastEventId).1.Disconnected?
  {
    EndedIsSettled(world, t);
    SettledEndsIff(world, lastEventId, t);
  }
}
