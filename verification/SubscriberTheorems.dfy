/** What a client may rely on: final DONE markers and exact replay; and where the loop falls short. */
module SubscriberTheorems {
  import opened Prelude
  import opened Registry
  import opened RegistryInvariant
  import opened RegistryHistory
  import opened RegistryLog
  import opened Subscriber
  import opened SubscriberLoop
  import opened SubscriberEnding

  /** The run as the latest call of a subscription saw it. */
  ghost function LastSeen(world: seq<Snapshot>, sub: Sub): Run
    requires 0 < sub.calls <= |world|
  {
    world[sub.calls - 1].run
  }

  // ---------------------------------------------------------------- DONE

  /**
   A DONE frame is emitted only for a run that has ended, for the very last event of its log;
   it is the last frame of the subscription, so there is at most one.
   */
  lemma DoneIsFinal(world: seq<Snapshot>, lastEventId: int, i: nat)
    requires Observed(world) && world != []
    requires i < |Subscribed(world, lastEventId).0.frames| && IsDoneFrame(Subscribed(world, lastEventId).0.frames[i])
    ensures var sub := Subscribed(world, lastEventId).0;
            0 < sub.calls <= |world| && EndsRun(LastSeen(world, sub), sub.frames, i)
  {
    var sub := Subscribed(world, lastEventId).0;
    SubscribedLeads(world, lastEventId);
    LastDoneIsFinal(world, StartAt(lastEventId), sub, i);
  }

  /** Frame `i` is the last one, and it is the last event of a run that has ended. */
  ghost predicate EndsRun(r: Run, frames: seq<Frame>, i: nat) {
    && i == |frames| - 1 && Terminal(r.status)
    && r.log != [] && frames[i] == FrameOf(r.log[|r.log| - 1]) && frames[i].id == r.lastEventId == |r.log|
  }

  lemma LastDoneIsFinal(world: seq<Snapshot>, start: nat, sub: Sub, i: nat)
    requires Observed(world) && Tracking(world, start, sub)
    requires i < |sub.frames| && IsDoneFrame(sub.frames[i])
    ensures EndsRun(LastSeen(world, sub), sub.frames, i)
  {
    assert InOrder(world, sub.calls - 1, sub.calls - 1);
    TrackedDoneIsFinal(LastSeen(world, sub), start, sub, i);
  }

  lemma TrackedDoneIsFinal(r: Run, start: nat, sub: Sub, i: nat)
    requires LogInv(r) && Track(r, start, sub)
    requires i < |sub.frames| && IsDoneFrame(sub.frames[i])
    ensures EndsRun(r, sub.frames, i)
  {
    assert DoneOnlyLast(sub.frames, sub.done);
    assert Contents(sub.frames)[|Contents(sub.frames)| - 1] == sub.frames[i];
    assert SeenInOrder(r.log, start, sub.cursor, sub.seen);
  }

  /** And it stays so: no later state of the run has another event. */
  lemma NothingFollowsDone(s: Store, id: Id, start: nat, sub: Sub, i: nat, ops: seq<Op>)
    requires Inv(s) && id in s.runs && Track(s.runs[id], start, sub)
    requires i < |sub.frames| && IsDoneFrame(sub.frames[i])
    ensures id in Exec(s, ops).runs && Exec(s, ops).runs[id].log == s.runs[id].log
    ensures Exec(s, ops).runs[id].lastEventId == sub.frames[i].id
  {
    assert InvAt(s, id);
    TrackedDoneIsFinal(s.runs[id], start, sub, i);
    ExecEvolves(s, ops, id);
  }

  // ---------------------------------------------------------------- exact replay

  /** `got` is the log after `start` up to `end` without DONE markers, and possibly the final marker. */
  ghost predicate ExactFrom(r: Run, start: nat, got: seq<Frame>, end: nat) {
    && start <= end <= |r.log|
    && (got == NonDone(r.log[start..end]) || EndsWithFinal(r, start, got, end))
  }

  ghost predicate EndsWithFinal(r: Run, start: nat, got: seq<Frame>, end: nat)
    requires start <= end <= |r.log|
  {
    start < end && Final(r.log[end - 1], r) && got == NonDone(r.log[start..end]) + [FrameOf(r.log[end - 1])]
  }

  /** Every read found at most as many events behind its cursor as the run buffers. */
  ghost predicate KeptUp(replies: seq<Read>) {
    forall i :: 0 <= i < |replies| ==> KeptUpAt(replies[i])
  }

  predicate KeptUpAt(read: Read) {
    read.run.lastEventId - read.cursor <= read.run.request.bufferSize
  }

  /** A read that keeps up starts at its cursor, and a gap check at the same moment reports nothing; and conversely. */
  lemma KeepsUpIff(r: Run, cursor: nat)
    requires RunInv(r) && cursor <= r.lastEventId
    ensures ReadFrom(r, cursor) == cursor <==> r.lastEventId - cursor <= r.request.bufferSize
    ensures ReadFrom(r, cursor) == cursor <==> ReplayGap(r, cursor).None?
  {
    ReadSkipsIffGap(r, cursor);
    BufferIsContiguous(r);
  }

  lemma ReadIsSound(world: seq<Snapshot>, calls: nat, read: Read)
    requires Observed(world) && HappenedAt(world, calls, read)
    ensures RunInv(read.run)
  {
    assert InOrder(world, read.call, calls - 1);
  }

  /**
   Replay is exact, whatever the buffer holds of the past, as long as it never trims past the
   moving cursor: no event up to the cursor is missing exactly when every read kept up, and then
   the client has the log after its start, in order, without superseded markers.
   */
  lemma ReplayIsExact(world: seq<Snapshot>, lastEventId: int)
    requires Observed(world) && world != [] && StartAt(lastEventId) <= world[0].run.lastEventId
    ensures var (sub, start) := (Subscribed(world, lastEventId).0, StartAt(lastEventId));
            && 0 < sub.calls <= |world| && start <= sub.cursor <= |LastSeen(world, sub).log|
            && (sub.seen == LastSeen(world, sub).log[start..sub.cursor] <==> NeverOverrun(sub.replies))
            && (NeverOverrun(sub.replies) ==>
                  ExactFrom(LastSeen(world, sub), start, Contents(sub.frames), sub.cursor))
  {
    var (sub, start) := (Subscribed(world, lastEventId).0, StartAt(lastEventId));
    SubscribedLeads(world, lastEventId);
    ExactIff(LastSeen(world, sub), start, sub);
  }

  lemma ExactIff(r: Run, start: nat, sub: Sub)
    requires Track(r, start, sub)
    ensures sub.seen == r.log[start..sub.cursor] <==> NeverOverrun(sub.replies)
    ensures NeverOverrun(sub.replies) ==> ExactFrom(r, start, Contents(sub.frames), sub.cursor)
  {
    assert Contents(sub.frames) == NonDone(sub.seen) + DoneTail(sub.seen, sub.done);
    assert |r.log[start..sub.cursor]| == sub.cursor - start;
  }

  lemma {:induction false} NonDoneHolds(events: seq<Event>, i: nat)
    requires i < |events| && events[i].payload.Data?
    ensures Delivered(events[i].id, events[i].payload) in NonDone(events)
  {
    if i < |events| - 1 {
      NonDoneHolds(events[..|events| - 1], i);
    }
  }

  /**
   Event by event: what a subscription that was not overrun has passed it has sent to the client,
   except for markers, of which it sent at most the one it stopped at.
   */
  lemma EveryEventIsDelivered(world: seq<Snapshot>, lastEventId: int, id: nat)
    requires Observed(world) && world != [] && StartAt(lastEventId) <= world[0].run.lastEventId
    requires var sub := Subscribed(world, lastEventId).0;
             NeverOverrun(sub.replies) && StartAt(lastEventId) < id <= sub.cursor
    ensures var sub := Subscribed(world, lastEventId).0;
            0 < sub.calls <= |world| && SentAsLogged(LastSeen(world, sub), sub, id)
  {
    SubscribedLeads(world, lastEventId);
    TrackedIsSent(world, StartAt(lastEventId), Subscribed(world, lastEventId).0, id);
  }

  /** The event with this id is among the frames, unless it is a marker that the subscription passed over. */
  predicate SentAsLogged(r: Run, sub: Sub, id: nat) {
    && 0 < id <= |r.log|
    && var payload := r.log[id - 1].payload;
    (Delivered(id, payload) in sub.frames <==> payload.Data? || (sub.done && id == sub.cursor))
  }

  lemma TrackedIsSent(world: seq<Snapshot>, start: nat, sub: Sub, id: nat)
    requires Observed(world) && Tracking(world, start, sub) && NeverOverrun(sub.replies) && start < id <= sub.cursor
    ensures SentAsLogged(LastSeen(world, sub), sub, id)
  {
    var k, e := EventSeen(world, start, sub, id);
    EventIsDelivered(sub.frames, sub.seen, sub.done, k, e);
  }

  lemma {:induction false} ContentsAreFrames(frames: seq<Frame>, f: Frame)
    requires f.Delivered?
    ensures f in Contents(frames) <==> f in frames
  {
    if frames != [] {
      ContentsAreFrames(frames[..|frames| - 1], f);
      assert frames == frames[..|frames| - 1] + [frames[|frames| - 1]];
    }
  }

  lemma SeenIsLog(r: Run, start: nat, sub: Sub, k: nat)
    requires LogInv(r) && Track(r, start, sub) && sub.lost == 0 && start + k < sub.cursor
    ensures |sub.seen| == sub.cursor - start && sub.seen[k] == r.log[start + k] && sub.seen[k].id == start + k + 1
    ensures Contents(sub.frames) == NonDone(sub.seen) + DoneTail(sub.seen, sub.done)
  {
    assert EventAt(r, start + k);
  }

  lemma SeenRises(r: Run, start: nat, sub: Sub)
    requires Track(r, start, sub)
    ensures forall i, j :: 0 <= i < j < |sub.seen| ==> sub.seen[i].id < sub.seen[j].id
    ensures sub.done ==> sub.seen != [] && IsDone(sub.seen[|sub.seen| - 1].payload)
  {
  }

  lemma EventIsDelivered(frames: seq<Frame>, seen: seq<Event>, done: bool, k: nat, e: Event)
    requires k < |seen| && e == seen[k] && Contents(frames) == NonDone(seen) + DoneTail(seen, done)
    requires forall i, j :: 0 <= i < j < |seen| ==> seen[i].id < seen[j].id
    requires done ==> IsDone(seen[|seen| - 1].payload)
    ensures FrameOf(e) in frames <==> e.payload.Data? || (done && k == |seen| - 1)
  {
    FramesOfSeen(seen, done, k);
    ContentsAreFrames(frames, FrameOf(e));
  }

  /** The event with this id, as the subscription processed it. */
  lemma EventSeen(world: seq<Snapshot>, start: nat, sub: Sub, id: nat) returns (k: nat, e: Event)
    requires Observed(world) && Tracking(world, start, sub) && NeverOverrun(sub.replies) && start < id <= sub.cursor
    ensures id <= |LastSeen(world, sub).log| && e == LastSeen(world, sub).log[id - 1] && e.id == id
    ensures k < |sub.seen| && e == sub.seen[k] && (k == |sub.seen| - 1 <==> id == sub.cursor)
    ensures Contents(sub.frames) == NonDone(sub.seen) + DoneTail(sub.seen, sub.done)
    ensures forall i, j :: 0 <= i < j < |sub.seen| ==> sub.seen[i].id < sub.seen[j].id
    ensures sub.done ==> IsDone(sub.seen[|sub.seen| - 1].payload)
  {
    k := id - 1 - start;
    LaterIsLonger(world, sub);
    SeenIsLog(LastSeen(world, sub), start, sub, k);
    SeenRises(LastSeen(world, sub), start, sub);
    e := sub.seen[k];
  }

  lemma FramesOfSeen(seen: seq<Event>, done: bool, k: nat)
    requires k < |seen| && forall i, j :: 0 <= i < j < |seen| ==> seen[i].id < seen[j].id
    requires done ==> IsDone(seen[|seen| - 1].payload)
    ensures Delivered(seen[k].id, seen[k].payload) in NonDone(seen) + DoneTail(seen, done) <==>
            seen[k].payload.Data? || (done && k == |seen| - 1)
  {
    NonDoneHasNoDone(seen);
    if seen[k].payload.Data? {
      NonDoneHolds(seen, k);
    }
  }

  /** Never overrun means that every read found no more behind its cursor than the run buffers. */
  lemma NeverOverrunIff(world: seq<Snapshot>, lastEventId: int)
    requires Observed(world) && world != [] && StartAt(lastEventId) <= world[0].run.lastEventId
    ensures var sub := Subscribed(world, lastEventId).0;
            NeverOverrun(sub.replies) <==> KeptUp(sub.replies)
  {
    var sub := Subscribed(world, lastEventId).0;
    SubscribedLeads(world, lastEventId);
    forall i | 0 <= i < |sub.replies|
      ensures ReadFrom(sub.replies[i].run, sub.replies[i].cursor) == sub.replies[i].cursor <==> KeptUpAt(sub.replies[i])
    {
      ReadKeptUp(world, StartAt(lastEventId), sub, i);
    }
  }

  lemma ReadKeptUp(world: seq<Snapshot>, start: nat, sub: Sub, i: nat)
    requires Observed(world) && Tracking(world, start, sub) && i < |sub.replies|
    ensures var read := sub.replies[i]; ReadFrom(read.run, read.cursor) == read.cursor <==> KeptUpAt(read)
  {
    var read := sub.replies[i];
    assert HappenedAt(world, sub.calls, read);
    ReadIsSound(world, sub.calls, read);
    if read.cursor <= read.run.lastEventId {
      KeepsUpIff(read.run, read.cursor);
    }
  }

  /** In particular when the buffer can hold everything after the requested position. */
  lemma LargeBufferReplaysExactly(r: Run, start: nat, sub: Sub)
    requires Track(r, start, sub) && Fits(r, start)
    ensures ExactFrom(r, start, Contents(sub.frames), sub.cursor)
  {
    ExactIff(r, start, sub);
  }

  /**
   A subscription that drained an ended run without being overrun has delivered every event after
   its start; and if there was one and the last is a marker at the final fence, DONE was delivered too.
   */
  lemma DrainedMeansComplete(world: seq<Snapshot>, lastEventId: int)
    requires Observed(world) && world != [] && StartAt(lastEventId) <= world[0].run.lastEventId
    requires var (sub, ending) := Subscribed(world, lastEventId);
             && ending.Drained? && NeverOverrun(sub.replies)
             && 0 < sub.calls <= |world| && Terminal(LastSeen(world, sub).status)
    ensures var sub := Subscribed(world, lastEventId).0;
            Complete(LastSeen(world, sub), StartAt(lastEventId), sub)
  {
    var (sub, ending) := Subscribed(world, lastEventId);
    SubscribedLeads(world, lastEventId);
    DrainedIsComplete(world, StartAt(lastEventId), sub);
  }

  /** All of the log after `start` was delivered, and DONE whenever its last event is a marker at the final fence. */
  ghost predicate Complete(r: Run, start: nat, sub: Sub) {
    && start <= |r.log|
    && if start == |r.log| then Contents(sub.frames) == [] && !sub.done
       else
         var last := r.log[|r.log| - 1];
         && Contents(sub.frames) == NonDone(r.log[start..]) + (if sub.done then [FrameOf(last)] else [])
         && (IsDone(last.payload) && last.fence == Some(r.fence) ==> sub.done)
         && (sub.done ==> Final(last, r))
  }

  lemma DrainedIsComplete(world: seq<Snapshot>, start: nat, sub: Sub)
    requires Observed(world) && Tracking(world, start, sub) && start <= world[0].run.lastEventId
    requires Ended(world, sub, Drained) && NeverOverrun(sub.replies) && Terminal(LastSeen(world, sub).status)
    ensures Complete(LastSeen(world, sub), start, sub)
  {
    LaterIsLonger(world, sub);
    if start < LastSeen(world, sub).lastEventId {
      CompleteRun(LastSeen(world, sub), start, sub);
    }
  }

  lemma LaterIsLonger(world: seq<Snapshot>, sub: Sub)
    requires Observed(world) && 0 < sub.calls <= |world|
    ensures LogInv(LastSeen(world, sub)) && world[0].run.lastEventId <= LastSeen(world, sub).lastEventId
  {
    assert InOrder(world, 0, sub.calls - 1);
  }

  lemma CompleteRun(r: Run, start: nat, sub: Sub)
    requires LogInv(r) && Track(r, start, sub) && sub.lost == 0
    requires Terminal(r.status) && sub.cursor == r.lastEventId && start < r.lastEventId
    ensures Complete(r, start, sub)
  {
    var last := r.log[|r.log| - 1];
    assert r.log[start..sub.cursor] == r.log[start..];
    assert sub.seen[|sub.seen| - 1] == last;
    assert EventAt(r, |r.log| - 1);
    assert MarkersSettled(r, sub.seen, sub.done);
  }

  /** Cancelling a stream run ends its log with a marker that every complete subscription delivers. */
  lemma CancelEndsStream(s: Store, id: Id, user: string, errorPayload: Payload)
    requires id in s.runs && s.runs[id].request.kind.Stream?
    requires Step(s, OpCancel(id, user, errorPayload)).code == 1
    ensures var r := Next(s, OpCancel(id, user, errorPayload)).runs[id];
            && Terminal(r.status) && |r.log| == |s.runs[id].log| + 2
            && IsDone(r.log[|r.log| - 1].payload) && r.log[|r.log| - 1].fence == Some(r.fence)
  {
  }

  // ---------------------------------------------------------------- heartbeats

  /** The run goes on, and the reader has everything. */
  predicate UpToDate(r: Run, cursor: nat) {
    !Stopped(r) && r.lastEventId == cursor
  }

  lemma NothingToRead(s: Snapshot, cursor: nat)
    requires RunInv(s.run) && UpToDate(s.run, cursor)
    ensures Reply(s, cursor) == [] && ReplayGap(s.run, cursor).None?
  {
    XReadIsSlice(s.run, cursor);
    BufferIsContiguous(s.run);
  }

  /** What a probe of such a run takes. */
  lemma NothingMissing(world: seq<Snapshot>, sub: Sub)
    requires Observed(world) && sub.calls <= |world|
    requires forall m :: sub.calls <= m < |world| ==> UpToDate(world[m].run, sub.cursor)
    ensures var p := Idled(world, sub);
            if p.ending.None?
            then sub.calls < p.sub.calls && p.sub == sub.(calls := p.sub.calls, frames := sub.frames + [Beat])
            else p == Pass(sub.(calls := |world|), Some(Disconnected)) && |world| <= sub.calls + 1
  {
    if sub.calls < |world| {
      assert InOrder(world, sub.calls, |world| - 1);
      NothingToRead(world[sub.calls], sub.cursor);
    }
  }

  lemma IdleCheck(world: seq<Snapshot>, sub: Sub)
    requires sub.calls <= |world|
    requires forall m :: sub.calls <= m < |world| ==> UpToDate(world[m].run, sub.cursor)
    ensures CheckedEnd(world, sub) ==
            if sub.calls == |world| then Pass(sub, Some(Disconnected)) else Pass(sub.(calls := sub.calls + 1), None)
  {
  }

  lemma IdleRead(world: seq<Snapshot>, sub: Sub)
    requires Observed(world) && sub.calls <= |world|
    requires forall m :: sub.calls <= m < |world| ==> UpToDate(world[m].run, sub.cursor)
    ensures var p := ReadOnce(world, sub);
            if p.ending.None?
            then 2 <= p.sub.calls - sub.calls <= 3 && p.sub == sub.(calls := p.sub.calls, frames := sub.frames + [Beat])
            else p == Pass(sub.(calls := |world|), Some(Disconnected)) && |world| <= sub.calls + 2
  {
    if sub.calls < |world| {
      assert InOrder(world, sub.calls, |world| - 1);
      NothingToRead(world[sub.calls], sub.cursor);
      var next := sub.(calls := sub.calls + 1);
      assert ReadOnce(world, sub) == Idled(world, next);
      NothingMissing(world, next);
    }
  }

  /** One pass over such a run: a heartbeat, if the client stays for the two or three calls before it. */
  lemma IdlePass(world: seq<Snapshot>, sub: Sub)
    requires Observed(world) && sub.calls <= |world|
    requires forall m :: sub.calls <= m < |world| ==> UpToDate(world[m].run, sub.cursor)
    ensures var p, beat := Polled(world, sub), sub.(frames := sub.frames + [Beat]);
            && (p.ending.None? ==> 4 <= p.sub.calls - sub.calls <= 5 && p.sub == beat.(calls := p.sub.calls))
            && (p.ending.Some? ==>
                  || (p == Pass(sub.(calls := |world|), Some(Disconnected)) && |world| - sub.calls <= 3)
                  || (p == Pass(beat.(calls := |world|), Some(Disconnected)) && 3 <= |world| - sub.calls <= 4))
  {
    IdleCheck(world, sub);
    if sub.calls < |world| {
      var next := sub.(calls := sub.calls + 1);
      IdleRead(world, next);
      var round := ReadOnce(world, next);
      if round.ending.None? {
        IdleCheck(world, round.sub);
      }
    }
  }

  function Beats(k: nat): seq<Frame> {
    seq(k, _ => Beat)
  }

  lemma OneMoreBeat(frames: seq<Frame>, k: nat)
    ensures frames + [Beat] + Beats(k) == frames + Beats(k + 1)
    ensures frames + Beats(0) == frames && frames + [Beat] == frames + Beats(1)
  {
  }

  /** A client that has everything of a run that goes on gets a heartbeat every four or five calls, and nothing else. */
  lemma {:induction false} IdleStreamBeats(world: seq<Snapshot>, sub: Sub) returns (k: nat)
    requires Observed(world) && sub.calls <= |world|
    requires forall m :: sub.calls <= m < |world| ==> UpToDate(world[m].run, sub.cursor)
    ensures Looped(world, sub) == (sub.(calls := |world|, frames := sub.frames + Beats(k)), Disconnected)
    ensures 4 * k <= |world| - sub.calls + 1 <= 5 * k + 4
    decreases |world| - sub.calls
  {
    IdlePass(world, sub);
    var p := Polled(world, sub);
    if p.ending.None? {
      var rest := IdleStreamBeats(world, p.sub);
      k := rest + 1;
      OneMoreBeat(sub.frames, rest);
    } else {
      k := if p.sub.frames == sub.frames then 0 else 1;
      OneMoreBeat(sub.frames, 0);
    }
  }

  // ---------------------------------------------------------------- where the loop falls short

  /** A read passes over trimmed events exactly when a gap check at the same moment would report one. */
  lemma ReadSkipsIffGap(r: Run, cursor: nat)
    requires RunInv(r) && cursor <= r.lastEventId
    ensures ReadFrom(r, cursor) > cursor <==> ReplayGap(r, cursor).Some?
  {
    BufferIsContiguous(r);
  }

  /** A fresh run after two appends of its owner and its completion. */
  function Overrun(request: Request, owner: string, lease: nat, first: string, second: string): Run {
    var appended := Appended(Appended(NewRun(request, owner, lease), Data(first), 1, ""), Data(second), 1, "");
    Finished(appended, Completed, "", NoFailure, 200)
  }

  lemma AppendedForm(r: Run, text: string)
    requires r.request.bufferSize == 1
    ensures var e := Event(r.lastEventId + 1, Data(text), Some(1));
            var next := Appended(r, Data(text), 1, "");
            && next.lastEventId == r.lastEventId + 1 && next.log == r.log + [e] && next.events == [e]
            && next.request == r.request
  {
    var e := Event(r.lastEventId + 1, Data(text), Some(1));
    assert LastN(r.events + [e], 1) == [e];
  }

  lemma OverrunForm(request: Request, owner: string, lease: nat, first: string, second: string)
    requires request.bufferSize == 1
    ensures var over := Overrun(request, owner, lease, first, second);
            && over.lastEventId == 2 && over.events == [Event(2, Data(second), Some(1))]
            && over.log == [Event(1, Data(first), Some(1)), Event(2, Data(second), Some(1))]
  {
    var young := NewRun(request, owner, lease);
    AppendedForm(young, first);
    AppendedForm(Appended(young, Data(first), 1, ""), second);
  }

  /**
   But a reply that is not empty is never checked. Let a run with a buffer of one event get two
   events and end between the gap check and XREAD: the subscription ends as if it were complete,
   without the first event and without a notice.
   */
  lemma OverrunIsSilent(request: Request, owner: string, lease: nat, first: string, second: string)
    requires request.bufferSize == 1
    ensures var before := Snapshot(NewRun(request, owner, lease), false);
            var after := Snapshot(Overrun(request, owner, lease, first, second), false);
            var (sub, ending) := Subscribed([before, before, before, before, after, after, after], 0);
            && ending.Drained? && sub.frames == [Delivered(2, Data(second))]
            && sub.lost == 1 && !NeverOverrun(sub.replies)
  {
    var before := Snapshot(NewRun(request, owner, lease), false);
    var over := Overrun(request, owner, lease, first, second);
    var after := Snapshot(over, false);
    var world := [before, before, before, before, after, after, after];
    OverrunForm(request, owner, lease, first, second);
    var begun := Opened(0);
    assert CheckedGap(world, begun) == Pass(begun.(calls := 3), None);
    OverrunPass(world, before.run, over, begun.(calls := 3));
  }

  lemma OverrunPass(world: seq<Snapshot>, young: Run, over: Run, sub: Sub)
    requires |world| == 7 && world[3] == Snapshot(young, false)
    requires world[4] == world[5] == world[6] == Snapshot(over, false)
    requires !Stopped(young) && Terminal(over.status) && over.lastEventId == 2
    requires |over.events| == 1 && over.events[0].id == 2 && over.events[0].payload.Data?
    requires sub == Opened(0).(calls := 3)
    ensures var (end, ending) := Looped(world, sub);
            && ending.Drained? && end.frames == [FrameOf(over.events[0])]
            && end.lost == 1 && !NeverOverrun(end.replies)
  {
    var e := over.events[0];
    assert XRead(over.events, 0) == over.events;
    assert over.events[1..] == [] && over.events[..1] == over.events == [e];
    assert Handled(over.events, over) == 1;
    assert over.events[..0] == [];
    assert Yielded(over.events, over) == [FrameOf(e)];
    var read := Read(4, over, 0, 1);
    var next := AfterBatch(sub.(calls := 6), read, [e], [FrameOf(e)]);
    assert ReadOnce(world, sub.(calls := 4)) == Pass(next, None);
    assert Polled(world, sub) == Pass(next.(calls := 7), Some(Drained));
    assert next.replies == [read] && ReadFrom(over, 0) == 1;
    assert next.replies[0] == read;
  }

  /**
   A run can wait for input with a marker of its current fence still unread. A reader that has seen
   everything before the marker then gets nothing, however long it stays: the question behind the
   marker is not delivered while the run waits.
   */
  lemma QuestionBehindMarkerIsHeld(s: Store, id: Id, owner: string, asked: Interaction, question: Payload, key: string, n: nat)
    requires Inv(s) && id in s.runs && s.runs[id].status.Running? && s.runs[id].owner == owner
    requires s.runs[id].request.bufferSize >= 2 && n > 0
    ensures var q := MarkerThenQuestion(s, id, asked, question, key);
            var (sub, ending) := Subscribed(seq(n, _ => Snapshot(q, false)), s.runs[id].lastEventId);
            && ending.Disconnected? && Contents(sub.frames) == []
            && q.lastEventId == s.runs[id].lastEventId + 2 == |q.log| && q.log[q.lastEventId - 1].payload == question
  {
    var q := MarkerThenQuestion(s, id, asked, question, key);
    MarkerIsHeld(s, id, asked, question, key);
    NothingBehindMarker(q, s.runs[id].lastEventId, n);
  }

  /** The run after its owner appended a marker and then paused it with a question. */
  function MarkerThenQuestion(s: Store, id: Id, asked: Interaction, question: Payload, key: string): Run
    requires id in s.runs && s.runs[id].status.Running?
  {
    var r := s.runs[id];
    var marked := Next(s, OpAppend(id, r.owner, r.fence, DoneMarker, "", false));
    var paused := Next(marked, OpPause(id, r.owner, r.fence, asked, question, key, false));
    paused.runs[id]
  }

  lemma MarkerIsHeld(s: Store, id: Id, asked: Interaction, question: Payload, key: string)
    requires Inv(s) && id in s.runs && s.runs[id].status.Running? && s.runs[id].request.bufferSize >= 2
    ensures var q, last := MarkerThenQuestion(s, id, asked, question, key), s.runs[id].lastEventId;
            && RunInv(q) && q.status.WaitingForInput? && q.request.bufferSize >= 2
            && q.lastEventId == last + 2 == |q.log|
            && q.log[last] == Event(last + 1, DoneMarker, Some(q.fence)) && q.log[last + 1].payload == question
  {
    assert InvAt(s, id);
    MarkerIsWritten(s, id);
    var marked := Next(s, OpAppend(id, s.runs[id].owner, s.runs[id].fence, DoneMarker, "", false));
    QuestionIsWritten(marked, id, asked, question, key);
  }

  lemma MarkerIsWritten(s: Store, id: Id)
    requires Inv(s) && id in s.runs && s.runs[id].status.Running?
    ensures var r := s.runs[id];
            var t := Next(s, OpAppend(id, r.owner, r.fence, DoneMarker, "", false));
            && Inv(t) && id in t.runs && t.runs[id].status.Running?
            && t.runs[id].owner == r.owner && t.runs[id].fence == r.fence && t.runs[id].request == r.request
            && t.runs[id].lastEventId == r.lastEventId + 1
            && t.runs[id].log == r.log + [Event(r.lastEventId + 1, DoneMarker, Some(r.fence))]
  {
    StepKeepsInv(s, OpAppend(id, s.runs[id].owner, s.runs[id].fence, DoneMarker, "", false));
  }

  lemma QuestionIsWritten(s: Store, id: Id, asked: Interaction, question: Payload, key: string)
    requires Inv(s) && id in s.runs && s.runs[id].status.Running?
    ensures var r := s.runs[id];
            var t := Next(s, OpPause(id, r.owner, r.fence, asked, question, key, false));
            && id in t.runs && RunInv(t.runs[id]) && t.runs[id].status.WaitingForInput?
            && t.runs[id].fence == r.fence && t.runs[id].request == r.request
            && t.runs[id].lastEventId == r.lastEventId + 1
            && t.runs[id].log == r.log + [Event(r.lastEventId + 1, question, None)]
  {
    var op := OpPause(id, s.runs[id].owner, s.runs[id].fence, asked, question, key, false);
    StepKeepsInv(s, op);
    assert InvAt(Next(s, op), id);
  }

  lemma NothingBehindMarker(q: Run, start: nat, n: nat)
    requires RunInv(q) && q.status.WaitingForInput? && q.request.bufferSize >= 2 && n > 0
    requires q.lastEventId == start + 2 && q.log[start] == Event(start + 1, DoneMarker, Some(q.fence))
    ensures var (sub, ending) := Subscribed(seq(n, _ => Snapshot(q, false)), start);
            ending.Disconnected? && Contents(sub.frames) == []
  {
    var world := seq(n, _ => Snapshot(q, false));
    StandingWorld(q, n);
    MarkerBuffered(q, start);
    HeldFromTheStart(world, q, start);
    SubscribedLeads(world, start);
    NothingDelivered(q, start, Subscribed(world, start).0);
  }

  lemma MarkerBuffered(q: Run, start: nat)
    requires RunInv(q) && q.status.WaitingForInput? && q.request.bufferSize >= 2
    requires q.lastEventId == start + 2 && q.log[start] == Event(start + 1, DoneMarker, Some(q.fence))
    ensures |q.events| >= 2 && HeldAt(q, start, |q.events| - 2) && q.events[|q.events| - 2].id == start + 1
    ensures q.events[0].id <= start + 1
  {
    BufferIsContiguous(q);
  }

  lemma HeldFromTheStart(world: seq<Snapshot>, q: Run, start: nat)
    requires Observed(world) && Settled(world, 0) && world[0].run == q
    requires |q.events| >= 2 && HeldAt(q, start, |q.events| - 2)
    requires q.events[0].id <= start + 1 && start <= q.lastEventId
    ensures Subscribed(world, start).1.Disconnected?
  {
    var p := CheckedGap(world, Opened(start));
    if |world| > 1 {
      SettledIsAlike(world, 0, 1);
      assert p == Pass(Opened(start).(calls := 2), None);
      BlockedNeverEnds(world, 0, p.sub);
    }
  }

  lemma StandingWorld(q: Run, n: nat)
    requires RunInv(q) && Stopped(q) && n > 0
    ensures Observed(seq(n, _ => Snapshot(q, false))) && Settled(seq(n, _ => Snapshot(q, false)), 0)
  {
    var world := seq(n, _ => Snapshot(q, false));
    forall i, j | 0 <= i <= j < |world| ensures InOrder(world, i, j) {
      assert Evolves(q, q);
    }
    forall m | 0 <= m < |world| ensures SettledAt(world, 0, m) {}
  }

  lemma NothingDelivered(q: Run, start: nat, sub: Sub)
    requires RunInv(q) && Track(q, start, sub) && !Terminal(q.status)
    requires q.events != [] && |q.events| >= 2 && HeldAt(q, start, |q.events| - 2)
    requires q.events[|q.events| - 2].id == start + 1
    ensures Contents(sub.frames) == []
  {
    NotSeen(q, start, sub, |q.events| - 2);
    assert sub.seen == [];
  }
}
