/** When `subscribe` tells a client that its position is gone, and when that is true. */
module SubscriberNotices {
  import opened Prelude
  import opened Registry
  import opened RegistryInvariant
  import opened RegistryHistory
  import opened RegistryLog
  import opened Subscriber
  import opened SubscriberLoop
  import opened SubscriberTheorems

  /** Some event after `cursor` can no longer be read. */
  ghost predicate Missing(r: Run, cursor: nat) {
    exists id :: cursor < id <= r.lastEventId && !Buffered(r, id)
  }

  lemma MissingIff(r: Run, cursor: nat)
    requires RunInv(r)
    ensures Missing(r, cursor) <==> ReplayGap(r, cursor).Some?
    ensures Missing(r, cursor) <==> cursor < r.lastEventId && cursor + r.request.bufferSize < r.lastEventId
  {
    NoGapMeansAllBuffered(r, cursor);
    if cursor <= r.lastEventId {
      KeepsUpIff(r, cursor);
    }
  }

  // ---------------------------------------------------------------- one probe

  /**
   The probe makes two calls when the stream is empty. It reports a gap exactly when an event is
   missing in the state of its last call, or the first call found nothing and the second a new event.
   */
  lemma ProbeReportsIff(world: seq<Snapshot>, calls: nat, cursor: nat)
    requires Observed(world) && calls <= |world| && Probed(world, calls, cursor).alive
    ensures var probe := Probed(world, calls, cursor);
            probe.gap.Some? <==>
              || Missing(world[probe.calls - 1].run, cursor)
              || (world[calls].run.events == [] && cursor < world[probe.calls - 1].run.lastEventId)
  {
    var probe := Probed(world, calls, cursor);
    ProbedInOrder(world, calls, cursor);
    MissingIff(world[probe.calls - 1].run, cursor);
    MissingIff(world[calls].run, cursor);
  }

  lemma ProbedInOrder(world: seq<Snapshot>, calls: nat, cursor: nat)
    requires Observed(world) && calls <= |world| && Probed(world, calls, cursor).alive
    ensures InOrder(world, calls, Probed(world, calls, cursor).calls - 1)
    ensures world[calls].run.events != [] ==> Probed(world, calls, cursor).calls == calls + 1
  {
  }

  /**
   So a notice is true, that is, an event is missing in the state of the last call, exactly when
   the first call found the stream in use, or more has been appended since than the run buffers.
   */
  lemma NoticeIsTrueIff(world: seq<Snapshot>, calls: nat, cursor: nat)
    requires Observed(world) && calls <= |world|
    requires Probed(world, calls, cursor).alive && Probed(world, calls, cursor).gap.Some?
    ensures var r := world[Probed(world, calls, cursor).calls - 1].run;
            Missing(r, cursor) <==> world[calls].run.events != [] || r.lastEventId > cursor + r.request.bufferSize
  {
    var probe := Probed(world, calls, cursor);
    ProbeReportsIff(world, calls, cursor);
    ProbedInOrder(world, calls, cursor);
    MissingIff(world[probe.calls - 1].run, cursor);
  }

  // ---------------------------------------------------------------- notices of a subscription

  ghost predicate NoticeFree(frames: seq<Frame>) {
    forall i :: 0 <= i < |frames| ==> !frames[i].GapNotice?
  }

  /** A gap that call `c` began to find ended the subscription, with a notice behind the cursor as its last frame. */
  ghost predicate NoticedAt(world: seq<Snapshot>, sub: Sub, c: nat) {
    && c < |world| && sub.cursor <= world[c].run.lastEventId
    && var probe := Probed(world, c, sub.cursor);
    && probe.alive && probe.gap.Some? && probe.calls == sub.calls
    && OnlyNotice(sub.frames, sub.cursor) && NoticeAt(sub.frames) == probe.gap.value - 1
  }

  /** The one notice is the last frame and carries an id after `cursor`. */
  ghost predicate OnlyNotice(frames: seq<Frame>, cursor: nat) {
    && frames != [] && NoticeFree(frames[..|frames| - 1])
    && frames[|frames| - 1].GapNotice? && frames[|frames| - 1].at > cursor
  }

  ghost predicate NoticedBy(world: seq<Snapshot>, p: Pass, c: nat) {
    if p.ending == Some(Gap) then NoticedAt(world, p.sub, c) else NoticeFree(p.sub.frames)
  }

  /** The id that the last frame carries. */
  function NoticeAt(frames: seq<Frame>): int
    requires frames != [] && frames[|frames| - 1].GapNotice?
  {
    frames[|frames| - 1].at
  }

  lemma CheckedGapNotice(world: seq<Snapshot>, sub: Sub)
    requires Observed(world) && sub.calls <= |world| && NoticeFree(sub.frames)
    requires sub.calls < |world| ==> sub.cursor <= world[sub.calls].run.lastEventId
    ensures NoticedBy(world, CheckedGap(world, sub), sub.calls)
  {
    var probe := Probed(world, sub.calls, sub.cursor);
    if probe.alive && probe.gap.Some? {
      assert (sub.frames + [GapNotice(probe.gap.value - 1)])[..|sub.frames|] == sub.frames;
    }
  }

  lemma IdledNotice(world: seq<Snapshot>, sub: Sub)
    requires Observed(world) && sub.calls <= |world| && NoticeFree(sub.frames)
    requires sub.calls < |world| ==> sub.cursor <= world[sub.calls].run.lastEventId
    ensures NoticedBy(world, Idled(world, sub), sub.calls)
  {
    CheckedGapNotice(world, sub);
  }

  lemma ProcessedNotice(world: seq<Snapshot>, sub: Sub, call: nat, reply: seq<Event>)
    requires call < |world| && sub.calls < |world| && NoticeFree(sub.frames)
    ensures NoticeFree(Processed(world, sub, call, reply).frames)
  {
    var state := world[sub.calls].run;
    var taken := Handled(reply, state);
    YieldedIsDelivered(reply[..taken], state);
  }

  /** The cursor stays within the log of every later call. */
  lemma CursorInLater(world: seq<Snapshot>, start: nat, sub: Sub, c: nat)
    requires Observed(world) && Tracking(world, start, sub) && sub.calls <= c + 1 <= |world|
    ensures sub.cursor <= world[c].run.lastEventId
  {
    assert InOrder(world, sub.calls - 1, c);
  }

  lemma ReadOnceNotice(world: seq<Snapshot>, start: nat, sub: Sub)
    requires Observed(world) && Tracking(world, start, sub) && NoticeFree(sub.frames)
    ensures NoticedBy(world, ReadOnce(world, sub), sub.calls + 1)
  {
    if sub.calls < |world| {
      var next, reply := sub.(calls := sub.calls + 1), Reply(world[sub.calls], sub.cursor);
      assert ReadOnce(world, sub) == Answered(world, next, reply);
      if reply == [] {
        if next.calls < |world| {
          CursorInLater(world, start, sub, next.calls);
        }
        IdledNotice(world, next);
      } else if next.calls < |world| {
        ProcessedNotice(world, next, sub.calls, reply);
      }
    }
  }

  lemma CheckedEndNotice(world: seq<Snapshot>, sub: Sub)
    requires sub.calls <= |world|
    ensures var p := CheckedEnd(world, sub); p.ending != Some(Gap) && p.sub.frames == sub.frames
  {
  }

  lemma PolledNotice(world: seq<Snapshot>, start: nat, sub: Sub)
    requires Observed(world) && Tracking(world, start, sub)
    requires NoticeFree(sub.frames)
    ensures NoticedBy(world, Polled(world, sub), sub.calls + 2)
  {
    var checked := CheckedEnd(world, sub);
    CheckedEndNotice(world, sub);
    if checked.ending.None? {
      CheckedEndLeads(world, start, sub);
      ReadOnceNotice(world, start, checked.sub);
      var round := ReadOnce(world, checked.sub);
      if round.ending.None? {
        CheckedEndNotice(world, round.sub);
      }
    }
  }

  /** The loop sends no notice, or one as its last frame. */
  lemma {:induction false} LoopedNotice(world: seq<Snapshot>, start: nat, sub: Sub) returns (c: nat)
    requires Observed(world) && Tracking(world, start, sub) && !sub.done && NoticeFree(sub.frames)
    ensures var (end, ending) := Looped(world, sub);
            if ending.Gap? then NoticedAt(world, end, c) else NoticeFree(end.frames)
    decreases |world| - sub.calls
  {
    PolledLeads(world, start, sub);
    PolledNotice(world, start, sub);
    c := sub.calls + 2;
    var p := Polled(world, sub);
    if p.ending.None? {
      c := LoopedNotice(world, start, p.sub);
    }
  }

  /** A whole subscription: which call began to find the gap that ended it, if one did. */
  lemma GapIsFound(world: seq<Snapshot>, lastEventId: int) returns (c: nat)
    requires Observed(world) && world != [] && StartAt(lastEventId) <= world[0].run.lastEventId
    ensures var (sub, ending) := Subscribed(world, lastEventId);
            if ending.Gap? then NoticedAt(world, sub, c) else NoticeFree(sub.frames)
  {
    var start := StartAt(lastEventId);
    var begun := Opened(start);
    OpenedTracks(world, start);
    if 1 < |world| {
      CursorInLater(world, start, begun, 1);
    }
    CheckedGapNotice(world, begun);
    CheckedGapLeads(world, start, begun);
    CheckedGapKeeps(world, begun);
    c := 1;
    var p := CheckedGap(world, begun);
    if p.ending.None? {
      c := LoopedNotice(world, start, p.sub);
    }
  }

  /** A subscription sends a notice exactly when it ends for it: as its last frame, with an id after its cursor. */
  lemma NoticesAreLast(world: seq<Snapshot>, lastEventId: int)
    requires Observed(world) && world != []
    ensures var (sub, ending) := Subscribed(world, lastEventId);
            if ending.Gap? || ending.Ahead? then OnlyNotice(sub.frames, sub.cursor) else NoticeFree(sub.frames)
  {
    if StartAt(lastEventId) <= world[0].run.lastEventId {
      var c := GapIsFound(world, lastEventId);
      SubscribedLeads(world, lastEventId);
    }
  }

  /** The ids after `cursor` that a notice at `at` writes off are exactly those that can no longer be read. */
  ghost predicate WritesOffTrimmed(r: Run, cursor: nat, at: int) {
    && Buffered(r, at + 1)
    && forall id :: cursor < id <= r.lastEventId ==> (id <= at <==> !Buffered(r, id))
  }

  /**
   Which id a notice names. Found by one call on a stream in use, it is the id before the oldest event
   buffered then; found by two calls, the first on an empty stream, it is the newest id the second saw.
   The result is the first of these calls.
   */
  lemma NoticeNamesOldest(world: seq<Snapshot>, lastEventId: int) returns (c: nat)
    requires Observed(world) && world != [] && Subscribed(world, lastEventId).1.Gap?
    ensures var sub := Subscribed(world, lastEventId).0;
            && c < sub.calls <= |world| && sub.frames != [] && sub.frames[|sub.frames| - 1].GapNotice?
            && var at := NoticeAt(sub.frames);
            && sub.calls == c + (if world[c].run.events != [] then 1 else 2)
            && (world[c].run.events != [] ==> WritesOffTrimmed(world[c].run, sub.cursor, at))
            && (world[c].run.events == [] ==> at == world[c + 1].run.lastEventId > sub.cursor)
  {
    c := GapIsFound(world, lastEventId);
    SubscribedLeads(world, lastEventId);
    var sub := Subscribed(world, lastEventId).0;
    if world[c].run.events != [] {
      assert InOrder(world, c, c);
      OldestBuffered(world[c].run, sub.cursor);
    }
  }

  lemma OldestBuffered(r: Run, cursor: nat)
    requires RunInv(r) && r.events != [] && cursor < r.events[0].id - 1
    ensures WritesOffTrimmed(r, cursor, r.events[0].id - 1)
  {
    BufferIsContiguous(r);
    var first := r.events[0].id;
    assert Buffered(r, first);
    forall id | first <= id <= r.lastEventId ensures Buffered(r, id) {
      assert r.events[id - first].id == id;
    }
  }

  // ---------------------------------------------------------------- when the notice is true

  /** The stream was still empty two calls before the end, and all that it has got since is buffered. */
  ghost predicate FirstEventsJustCame(world: seq<Snapshot>, sub: Sub)
    requires 0 < sub.calls <= |world|
  {
    && sub.calls >= 2 && sub.cursor == 0 && world[sub.calls - 2].run.lastEventId == 0
    && LastSeen(world, sub).lastEventId <= LastSeen(world, sub).request.bufferSize
  }

  /**
   A subscription that ends with a gap has missed something exactly when the run's first events were
   not appended between the two calls of the probe; so always when the run had an event at the start.
   */
  lemma GapIsTrueIff(world: seq<Snapshot>, lastEventId: int)
    requires Observed(world) && world != [] && Subscribed(world, lastEventId).1.Gap?
    ensures var sub := Subscribed(world, lastEventId).0;
            && 0 < sub.calls <= |world|
            && (Missing(LastSeen(world, sub), sub.cursor) <==> !FirstEventsJustCame(world, sub))
            && (world[0].run.lastEventId > 0 ==> Missing(LastSeen(world, sub), sub.cursor))
  {
    SubscribedLeads(world, lastEventId);
    var sub := Subscribed(world, lastEventId).0;
    var c := GapIsFound(world, lastEventId);
    GapAtIsTrueIff(world, sub, c);
    assert sub.calls >= 2 ==> InOrder(world, 0, sub.calls - 2);
  }

  lemma GapAtIsTrueIff(world: seq<Snapshot>, sub: Sub, c: nat)
    requires Observed(world) && 0 < sub.calls <= |world| && NoticedAt(world, sub, c)
    ensures Missing(LastSeen(world, sub), sub.cursor) <==> !FirstEventsJustCame(world, sub)
  {
    MissingInOrder(world, sub.calls - 1, sub.cursor);
    if !Missing(LastSeen(world, sub), sub.cursor) {
      UntrueGap(world, sub, c);
    }
  }

  lemma MissingInOrder(world: seq<Snapshot>, i: nat, cursor: nat)
    requires Observed(world) && i < |world|
    ensures var r := world[i].run; Missing(r, cursor) ==> cursor + r.request.bufferSize < r.lastEventId
  {
    assert InOrder(world, i, i);
    MissingIff(world[i].run, cursor);
  }

  lemma UntrueGap(world: seq<Snapshot>, sub: Sub, c: nat)
    requires Observed(world) && 0 < sub.calls <= |world| && NoticedAt(world, sub, c)
    requires !Missing(LastSeen(world, sub), sub.cursor)
    ensures FirstEventsJustCame(world, sub)
  {
    NoticeIsTrueIff(world, c, sub.cursor);
    NoticeIsBehind(world, c, sub.cursor);
    assert InOrder(world, c, sub.calls - 1);
    EmptyIsFresh(world[c].run);
  }

  lemma EmptyIsFresh(r: Run)
    requires RunInv(r) && r.events == []
    ensures r.lastEventId == 0 || r.request.bufferSize == 0
  {
    BufferIsContiguous(r);
  }

  // ---------------------------------------------------------------- a notice that is not

  lemma FirstForm(young: Run, text: string)
    requires young.log == young.events == [] && young.lastEventId == 0 && young.request.bufferSize >= 1
    ensures var e := Event(1, Data(text), Some(1));
            Appended(young, Data(text), 1, "") == young.(lastEventId := 1, events := [e], log := [e])
  {
    var e := Event(1, Data(text), Some(1));
    assert [] + [e] == [e] && LastN([e], young.request.bufferSize) == [e];
  }

  lemma OneIsSound(young: Run, e: Event)
    requires RunInv(young) && young.log == [] && young.request.bufferSize >= 1 && e.id == 1 && e.fence == Some(1)
    requires !Terminal(young.status)
    ensures var one := young.(lastEventId := 1, events := [e], log := [e]); RunInv(one) && Evolves(young, one)
  {
    var one := young.(lastEventId := 1, events := [e], log := [e]);
    assert LastN([e], young.request.bufferSize) == [e];
    assert EventAt(one, 0);
  }

  lemma FirstAppended(request: Request, owner: string, lease: nat, text: string)
    requires request.bufferSize >= 1
    ensures var young := NewRun(request, owner, lease);
            var one := Appended(young, Data(text), 1, "");
            && RunInv(young) && RunInv(one) && Evolves(young, one) && one.lastEventId == 1
            && one.log == one.events == [Event(1, Data(text), Some(1))]
  {
    var young := NewRun(request, owner, lease);
    assert RunInv(young);
    FirstForm(young, text);
    OneIsSound(young, Event(1, Data(text), Some(1)));
  }

  /** What the loop does with such a run, and with any that gets its first events there. */
  lemma FirstEventsRefused(world: seq<Snapshot>)
    requires |world| == 3 && world[0].run.lastEventId == 0 && world[1].run.events == [] && world[2].run.lastEventId > 0
    ensures Subscribed(world, 0) == (Opened(0).(calls := 3, frames := [GapNotice(world[2].run.lastEventId)]), Gap)
  {
    var last := world[2].run.lastEventId;
    assert Probed(world, 1, 0) == Probe(3, Some(last + 1), true);
    assert [] + [GapNotice(last)] == [GapNotice(last)];
  }

  lemma ThreeObserved(young: Run, one: Run)
    requires RunInv(young) && RunInv(one) && Evolves(young, one)
    ensures Observed([Snapshot(young, false), Snapshot(young, false), Snapshot(one, false)])
  {
    var world := [Snapshot(young, false), Snapshot(young, false), Snapshot(one, false)];
    forall i, j | 0 <= i <= j < |world| ensures InOrder(world, i, j) {
      assert world[i].run == young || i == j == 2;
    }
  }

  /**
   A client subscribes to a run without events, and the first event is appended between the two
   calls of the probe: it is told that its position is gone, although nothing is missing in any of
   the states that its calls saw.
   */
  lemma FreshRunIsRefused(request: Request, owner: string, lease: nat, text: string)
    requires request.bufferSize >= 1
    ensures var young := NewRun(request, owner, lease);
            var one := Appended(young, Data(text), 1, "");
            var world := [Snapshot(young, false), Snapshot(young, false), Snapshot(one, false)];
            && Observed(world)
            && Subscribed(world, 0) == (Opened(0).(calls := 3, frames := [GapNotice(1)]), Gap)
            && one.log == [Event(1, Data(text), Some(1))]
            && !Missing(young, 0) && !Missing(one, 0)
  {
    var young := NewRun(request, owner, lease);
    var one := Appended(young, Data(text), 1, "");
    var world := [Snapshot(young, false), Snapshot(young, false), Snapshot(one, false)];
    FirstAppended(request, owner, lease, text);
    MissingIff(young, 0);
    MissingIff(one, 0);
    ThreeObserved(young, one);
    FirstEventsRefused(world);
  }
}
