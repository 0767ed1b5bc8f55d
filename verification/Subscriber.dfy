/**
 The subscriber loop that replays and follows a run's events while any number of
 scripts execute between two of its Redis calls.

 A subscription is given the sequence of states that its successive Redis calls
 observe; it ends, at the latest, when that sequence ends, which is when the
 client disconnects.
 */
module Subscriber {
  import opened Prelude
  import opened Registry
  import opened RegistryInvariant
  import opened RegistryHistory
  import opened RegistryLog

  // ---------------------------------------------------------------- what is delivered

  datatype Action = Deliver | Skip | Wait

  /** `_done_delivery_action`. */
  function DoneDeliveryAction(e: Event, status: Status, currentFence: nat, newest: nat): Action {
    if !IsDone(e.payload) then Deliver
    else if e.fence.None? then if Terminal(status) && e.id == newest then Deliver else Skip
    else if e.fence.value != currentFence then Skip
    else if !Terminal(status) then Wait
    else if e.id == newest then Deliver else Skip
  }

  datatype Frame = Delivered(id: nat, payload: Payload) | GapNotice(at: int) | Beat

  /** The event frames, without heartbeats and gap notices. */
  function Contents(frames: seq<Frame>): seq<Frame> {
    if frames == [] then []
    else Contents(frames[..|frames| - 1])
         + if frames[|frames| - 1].Delivered? then [frames[|frames| - 1]] else []
  }

  /** The frames of the events that are not DONE markers, in order. */
  function NonDone(events: seq<Event>): seq<Frame> {
    if events == [] then []
    else NonDone(events[..|events| - 1])
         + if IsDone(events[|events| - 1].payload) then [] else [FrameOf(events[|events| - 1])]
  }

  function FrameOf(e: Event): Frame {
    Delivered(e.id, e.payload)
  }

  predicate IsDoneFrame(f: Frame) {
    f.Delivered? && IsDone(f.payload)
  }

  lemma ContentsPush(frames: seq<Frame>, f: Frame)
    ensures Contents(frames + [f]) == Contents(frames) + if f.Delivered? then [f] else []
  {
    assert (frames + [f])[..|frames|] == frames;
  }

  lemma NonDonePush(events: seq<Event>, e: Event)
    ensures NonDone(events + [e]) == NonDone(events) + if IsDone(e.payload) then [] else [FrameOf(e)]
  {
    assert (events + [e])[..|events|] == events;
  }

  // ---------------------------------------------------------------- what is observed

  /** The run as one Redis call sees it; an XREAD whose reply the client library times out on is lost. */
  datatype Snapshot = Snapshot(run: Run, lost: bool)

  ghost predicate Observed(world: seq<Snapshot>) {
    forall i, j :: 0 <= i <= j < |world| ==> InOrder(world, i, j)
  }

  ghost predicate InOrder(world: seq<Snapshot>, i: int, j: int)
    requires 0 <= i <= j < |world|
  {
    RunInv(world[i].run) && RunInv(world[j].run) && Evolves(world[i].run, world[j].run)
  }

  /** Each call sees the store after the next batch of scripts, whoever executed them. */
  function Observe(s: Store, id: Id, schedule: seq<(seq<Op>, bool)>): seq<Snapshot>
    requires id in s.runs
    decreases |schedule|
  {
    if schedule == [] then [] else
    var s' := Exec(s, schedule[0].0);
    if id in s'.runs then [Snapshot(s'.runs[id], schedule[0].1)] + Observe(s', id, schedule[1..]) else []
  }

  /** Whatever executes between its calls, what a subscriber observes is one evolving run. */
  lemma {:induction false} RegistryIsObserved(s: Store, id: Id, schedule: seq<(seq<Op>, bool)>)
    requires Inv(s) && id in s.runs
    ensures |Observe(s, id, schedule)| == |schedule|
    ensures Observed(Observe(s, id, schedule))
    ensures forall i :: 0 <= i < |schedule| ==> Evolves(s.runs[id], Observe(s, id, schedule)[i].run)
    decreases |schedule|
  {
    if schedule != [] {
      var s' := Exec(s, schedule[0].0);
      ExecEvolves(s, schedule[0].0, id);
      ExecKeepsInv(s, schedule[0].0);
      assert InvAt(s', id);
      var rest := Observe(s', id, schedule[1..]);
      RegistryIsObserved(s', id, schedule[1..]);
      forall i | 0 <= i < |rest| ensures Evolves(s.runs[id], rest[i].run) {
        EvolvesTransitive(s.runs[id], s'.runs[id], rest[i].run);
      }
      ObservedFrom(Snapshot(s'.runs[id], schedule[0].1), rest);
    }
  }

  lemma ObservedFrom(first: Snapshot, rest: seq<Snapshot>)
    requires RunInv(first.run) && Observed(rest)
    requires forall i :: 0 <= i < |rest| ==> Evolves(first.run, rest[i].run)
    ensures Observed([first] + rest)
  {
    var world := [first] + rest;
    forall i, j | 0 <= i <= j < |world| ensures InOrder(world, i, j) {
      if j > 0 {
        assert InOrder(rest, if i == 0 then j - 1 else i - 1, j - 1);
      }
    }
  }

  // ---------------------------------------------------------------- reading

  /** XREAD from `cursor`: the entries after it, 256 at most. */
  function XRead(events: seq<Event>, cursor: nat): seq<Event> {
    if events == [] then []
    else if events[0].id > cursor then (if |events| <= 256 then events else events[..256])
    else XRead(events[1..], cursor)
  }

  /** Where in the log a read at `cursor` starts: at the cursor, or at the oldest event still buffered. */
  function ReadFrom(r: Run, cursor: nat): (from: nat)
    ensures from >= cursor
  {
    if cursor >= r.lastEventId - |r.events| then cursor else r.lastEventId - |r.events|
  }

  lemma {:induction false} XReadSkips(r: Run, k: nat, cursor: nat)
    requires RunInv(r) && k <= |r.events|
    requires cursor <= r.lastEventId
    ensures var from := r.lastEventId - |r.events| + k;
            var read := XRead(r.events[k..], cursor);
            var first := if cursor >= from then cursor else from;
            && |read| == (if r.lastEventId - first <= 256 then r.lastEventId - first else 256)
            && read == r.log[first..first + |read|]
    decreases |r.events| - k
  {
    var from := r.lastEventId - |r.events| + k;
    BufferTail(r, k);
    if k < |r.events| && from + 1 <= cursor {
      XReadSkips(r, k + 1, cursor);
      assert r.events[k..][1..] == r.events[k + 1..];
    }
  }

  lemma BufferTail(r: Run, k: nat)
    requires RunInv(r) && k <= |r.events|
    ensures var from := r.lastEventId - |r.events| + k;
            0 <= from <= |r.log| && r.events[k..] == r.log[from..] && (k < |r.events| ==> r.events[k].id == from + 1)
  {
    BufferIsContiguous(r);
  }

  /** A read returns a contiguous piece of the log. */
  lemma XReadIsSlice(r: Run, cursor: nat)
    requires RunInv(r) && cursor <= r.lastEventId
    ensures var read := XRead(r.events, cursor);
            var first := ReadFrom(r, cursor);
            && cursor <= first <= first + |read| <= |r.log|
            && read == r.log[first..first + |read|]
            && (read == [] <==> first == r.lastEventId)
            && (forall i :: 0 <= i < |read| ==> read[i].id == first + i + 1)
  {
    assert r.events[0..] == r.events;
    XReadSkips(r, 0, cursor);
    SliceIds(r, ReadFrom(r, cursor), XRead(r.events, cursor));
  }

  lemma SliceIds(r: Run, first: nat, read: seq<Event>)
    requires LogInv(r) && first + |read| <= |r.log| && read == r.log[first..first + |read|]
    ensures forall i :: 0 <= i < |read| ==> read[i].id == first + i + 1
  {
    forall i | 0 <= i < |read| ensures read[i].id == first + i + 1 {
      assert EventAt(r, first + i);
    }
  }

  // ---------------------------------------------------------------- one batch

  /** Why a DONE marker that was passed over can never be the run's final marker. */
  ghost predicate Superseded(e: Event, r: Run) {
    e.fence.None? || e.fence.value < r.fence || (Terminal(r.status) && e.id < r.lastEventId)
  }

  /** A marker at the current fence of a run that is still going: the next read starts with it again. */
  predicate HeldBack(e: Event, r: Run) {
    IsDone(e.payload) && e.fence == Some(r.fence) && !Terminal(r.status)
  }

  ghost predicate Final(e: Event, r: Run) {
    IsDone(e.payload) && Terminal(r.status) && e.id == r.lastEventId && (e.fence.Some? ==> e.fence.value == r.fence)
  }

  function ActionFor(e: Event, r: Run): Action {
    DoneDeliveryAction(e, r.status, r.fence, r.lastEventId)
  }

  /** How many entries are processed before one has to wait. */
  function Handled(entries: seq<Event>, r: Run): (n: nat)
    ensures n <= |entries|
  {
    if entries == [] || ActionFor(entries[0], r).Wait? then 0 else 1 + Handled(entries[1..], r)
  }

  /** What processing the entries yields. */
  function Yielded(entries: seq<Event>, r: Run): seq<Frame> {
    if entries == [] then []
    else Yielded(entries[..|entries| - 1], r)
         + if ActionFor(entries[|entries| - 1], r).Deliver? then [FrameOf(entries[|entries| - 1])] else []
  }

  lemma {:induction false} HandledStops(entries: seq<Event>, r: Run)
    ensures var n := Handled(entries, r);
            && (n < |entries| ==> ActionFor(entries[n], r).Wait?)
            && (forall i :: 0 <= i < n ==> !ActionFor(entries[i], r).Wait?)
  {
    if entries != [] && !ActionFor(entries[0], r).Wait? {
      HandledStops(entries[1..], r);
      var n := Handled(entries, r);
      forall i | 0 < i < n ensures !ActionFor(entries[i], r).Wait? {
        assert entries[i] == entries[1..][i - 1];
      }
    }
  }

  /** The inner loop of `subscribe` over the entries of one reply, all of which lie behind the cursor. */
  method DeliverBatch(entries: seq<Event>, state: Run, cursor: nat)
    returns (frames: seq<Frame>, cursor': nat, taken: nat)
    ensures taken == Handled(entries, state) && frames == Yielded(entries[..taken], state)
    ensures cursor' == if taken == 0 then cursor else entries[taken - 1].id
  {
    frames, cursor', taken := [], cursor, 0;
    var wait := false;
    while taken < |entries| && !wait
      invariant taken <= |entries|
      invariant taken + Handled(entries[taken..], state) == Handled(entries, state)
      invariant wait ==> taken == Handled(entries, state)
      invariant frames == Yielded(entries[..taken], state)
      invariant cursor' == if taken == 0 then cursor else entries[taken - 1].id
      decreases |entries| - taken, !wait
    {
      var e := entries[taken];
      var action := DoneDeliveryAction(e, state.status, state.fence, state.lastEventId);
      assert entries[taken..][0] == e && entries[taken..][1..] == entries[taken + 1..];
      if action.Wait? {
        wait := true;
      } else {
        assert entries[..taken + 1][..taken] == entries[..taken];
        cursor' := e.id;
        if action.Deliver? {
          frames := frames + [FrameOf(e)];
        }
        taken := taken + 1;
      }
    }
  }

  /**
   A marker is held back exactly while it could still become final or superseded: at the current fence
   of a run that goes on. It is delivered exactly when it is the last event of an ended run, at its
   fence or without one. Other events are always delivered.
   */
  lemma ActionOf(e: Event, r: Run)
    ensures ActionFor(e, r).Wait? <==> e.payload.DoneMarker? && e.fence == Some(r.fence) && !Terminal(r.status)
    ensures ActionFor(e, r).Deliver? <==>
            || e.payload.Data?
            || (Terminal(r.status) && e.id == r.lastEventId && (e.fence.None? || e.fence == Some(r.fence)))
    ensures ActionFor(e, r).Wait? <==> HeldBack(e, r)
    ensures ActionFor(e, r).Deliver? <==> !IsDone(e.payload) || Final(e, r)
    ensures ActionFor(e, r).Skip? && (e.fence.Some? ==> e.fence.value <= r.fence) && e.id <= r.lastEventId ==>
              Superseded(e, r)
  {
  }

  lemma EntryFacts(entries: seq<Event>, r: Run, first: nat, i: nat)
    requires LogInv(r) && first + |entries| <= |r.log| && entries == r.log[first..first + |entries|]
    requires i < |entries|
    ensures entries[i].id == first + i + 1 <= r.lastEventId
    ensures entries[i].fence.Some? ==> entries[i].fence.value <= r.fence
  {
    assert EventAt(r, first + i);
  }

  /** Whether the last entry of a batch is the final marker. */
  predicate EndsInDone(frames: seq<Frame>) {
    frames != [] && IsDoneFrame(frames[|frames| - 1])
  }

  /** The frames of a piece of the log that holds nothing to wait for: its events, and a final marker at the end. */
  lemma {:induction false} YieldedForm(r: Run, first: nat, taken: seq<Event>)
    requires LogInv(r) && first + |taken| <= |r.log| && taken == r.log[first..first + |taken|]
    requires forall i :: 0 <= i < |taken| ==> !HeldBack(taken[i], r)
    ensures var frames := Yielded(taken, r);
            && frames == NonDone(taken) + DoneTail(taken, EndsInDone(frames))
            && (EndsInDone(frames) ==> taken != [] && Final(taken[|taken| - 1], r))
            && (forall i :: 0 <= i < |taken| && IsDone(taken[i].payload) ==>
                  Superseded(taken[i], r) || (EndsInDone(frames) && i == |taken| - 1))
  {
    if taken != [] {
      var init, e := taken[..|taken| - 1], taken[|taken| - 1];
      YieldedForm(r, first, init);
      EntryFacts(taken, r, first, |taken| - 1);
      ActionOf(e, r);
      NoEarlyDone(r, first, taken);
      YieldedMore(r, taken);
    }
  }

  /** An entry with another one behind it is not the final marker. */
  lemma NoEarlyDone(r: Run, first: nat, taken: seq<Event>)
    requires LogInv(r) && taken != [] && first + |taken| <= |r.log| && taken == r.log[first..first + |taken|]
    ensures |taken| > 1 ==> !Final(taken[|taken| - 2], r)
  {
    if |taken| > 1 {
      EntryFacts(taken, r, first, |taken| - 2);
      EntryFacts(taken, r, first, |taken| - 1);
    }
  }

  lemma YieldedMore(r: Run, taken: seq<Event>)
    requires taken != []
    requires var init := taken[..|taken| - 1]; Yielded(init, r) == NonDone(init)
    requires var e := taken[|taken| - 1];
             ActionFor(e, r).Deliver? <==> !IsDone(e.payload) || Final(e, r)
    ensures var e, frames := taken[|taken| - 1], Yielded(taken, r);
            && frames == NonDone(taken) + DoneTail(taken, EndsInDone(frames))
            && (EndsInDone(frames) <==> IsDone(e.payload) && Final(e, r))
  {
    NonDoneHasNoDone(taken);
  }

  lemma {:induction false} NonDoneHasNoDone(events: seq<Event>)
    ensures forall i :: 0 <= i < |NonDone(events)| ==> !IsDoneFrame(NonDone(events)[i])
  {
    if events != [] {
      NonDoneHasNoDone(events[..|events| - 1]);
    }
  }

  lemma {:induction false} YieldedIsDelivered(entries: seq<Event>, r: Run)
    ensures forall i :: 0 <= i < |Yielded(entries, r)| ==> Yielded(entries, r)[i].Delivered?
  {
    if entries != [] {
      YieldedIsDelivered(entries[..|entries| - 1], r);
    }
  }

  // ---------------------------------------------------------------- a subscription

  /** A read whose entries were processed: which call, what it found, where it started, how many it yielded. */
  datatype Read = Read(call: nat, run: Run, cursor: nat, taken: nat)

  /**
   A subscription after `calls` Redis calls. `seen` is every entry it processed, `lost` how many
   it passed over, `replies` the reads behind both, `done` whether it emitted DONE; the loop itself
   keeps only the cursor and what it yielded.
   */
  datatype Sub = Sub(calls: nat, cursor: nat, frames: seq<Frame>, seen: seq<Event>, lost: nat,
                     replies: seq<Read>, done: bool)

  datatype Ending = Disconnected | Drained | Gap | Ahead

  /** Everything a subscription has delivered so far, judged by the run's current state. */
  ghost predicate Track(r: Run, start: nat, sub: Sub) {
    && start <= sub.cursor <= |r.log|
    && FramesFollow(sub.frames, sub.seen, sub.done)
    && MarkersSettled(r, sub.seen, sub.done)
    && TrackSeen(r, start, sub)
    && TrackReads(r, start, sub)
  }

  /** Up to the cursor every event was processed, in order, or has been trimmed. */
  ghost predicate TrackSeen(r: Run, start: nat, sub: Sub)
    requires sub.cursor <= |r.log|
  {
    && sub.cursor == start + |sub.seen| + sub.lost
    && SeenInOrder(r.log, start, sub.cursor, sub.seen)
    && SeenOrTrimmed(r, start, sub.cursor, sub.seen)
    && (sub.lost == 0 ==> sub.seen == r.log[start..sub.cursor])
  }

  /** Nothing is lost exactly when no read found that its cursor had been trimmed past. */
  ghost predicate TrackReads(r: Run, start: nat, sub: Sub) {
    && Chained(start, sub.replies, sub.cursor)
    && (sub.lost == 0 <==> NeverOverrun(sub.replies))
    && (Fits(r, start) ==> sub.lost == 0)
  }

  ghost predicate NeverOverrun(replies: seq<Read>) {
    forall i :: 0 <= i < |replies| ==> ReadFrom(replies[i].run, replies[i].cursor) == replies[i].cursor
  }

  /** Each read started where the one before it had ended. */
  ghost predicate Chained(start: nat, replies: seq<Read>, cursor: nat) {
    && cursor == EndOfRead(start, replies, |replies|)
    && forall i :: 0 <= i < |replies| ==> LinkedAt(start, replies, i)
  }

  /** Where the read before position `i` ended. */
  function EndOfRead(start: nat, replies: seq<Read>, i: nat): nat
    requires i <= |replies|
  {
    if i == 0 then start else ReadFrom(replies[i - 1].run, replies[i - 1].cursor) + replies[i - 1].taken
  }

  ghost predicate LinkedAt(start: nat, replies: seq<Read>, i: nat)
    requires i < |replies|
  {
    replies[i].cursor == EndOfRead(start, replies, i)
  }

  /** The buffer is large enough to hold everything after `start`. */
  ghost predicate Fits(r: Run, start: nat) {
    r.lastEventId - start <= r.request.bufferSize
  }

  predicate TrimmedAway(r: Run, i: int) {
    i < r.lastEventId - |r.events|
  }

  ghost predicate SeenOrTrimmed(r: Run, start: nat, cursor: nat, seen: seq<Event>)
    requires cursor <= |r.log|
  {
    forall i :: start <= i < cursor ==> SeenOrTrimmedAt(r, seen, i)
  }

  ghost predicate SeenOrTrimmedAt(r: Run, seen: seq<Event>, i: int)
    requires 0 <= i < |r.log|
  {
    TrimmedAway(r, i) || r.log[i] in seen
  }

  /** The frames are those of the processed events, less all DONE markers but a final one, which is last. */
  ghost predicate FramesFollow(frames: seq<Frame>, seen: seq<Event>, done: bool) {
    && Contents(frames) == NonDone(seen) + DoneTail(seen, done)
    && DoneOnlyLast(frames, done)
  }

  ghost predicate DoneOnlyLast(frames: seq<Frame>, done: bool) {
    forall i :: 0 <= i < |frames| && IsDoneFrame(frames[i]) ==> done && i == |frames| - 1
  }

  ghost function DoneTail(seen: seq<Event>, done: bool): seq<Frame> {
    if done && seen != [] then [FrameOf(seen[|seen| - 1])] else []
  }

  ghost predicate MarkersSettled(r: Run, seen: seq<Event>, done: bool) {
    && (done ==> seen != [] && Final(seen[|seen| - 1], r))
    && (forall i :: 0 <= i < |seen| && IsDone(seen[i].payload) ==> Superseded(seen[i], r) || (done && i == |seen| - 1))
  }

  ghost predicate SeenInOrder(log: seq<Event>, start: nat, cursor: nat, seen: seq<Event>)
    requires cursor <= |log|
  {
    && (forall i :: 0 <= i < |seen| ==> start < seen[i].id <= cursor && log[seen[i].id - 1] == seen[i])
    && (forall i, j :: 0 <= i < j < |seen| ==> seen[i].id < seen[j].id)
  }

  lemma TrimmedLater(r: Run, r': Run)
    requires RunInv(r) && RunInv(r') && Evolves(r, r')
    ensures r.lastEventId - |r.events| <= r'.lastEventId - |r'.events|
  {
  }

  lemma TrackLater(r: Run, r': Run, start: nat, sub: Sub)
    requires RunInv(r) && RunInv(r') && Evolves(r, r')
    requires Track(r, start, sub)
    ensures Track(r', start, sub)
  {
    MarkersLater(r, r', sub.seen, sub.done);
    SeenLater(r, r', start, sub);
  }

  lemma SeenLater(r: Run, r': Run, start: nat, sub: Sub)
    requires RunInv(r) && RunInv(r') && Evolves(r, r')
    requires start <= sub.cursor <= |r.log| && TrackSeen(r, start, sub)
    ensures TrackSeen(r', start, sub)
  {
    TrimmedLater(r, r');
    assert r.log[start..sub.cursor] == r'.log[start..sub.cursor];
    forall i | start <= i < sub.cursor ensures SeenOrTrimmedAt(r', sub.seen, i) {
      assert SeenOrTrimmedAt(r, sub.seen, i) && r.log[i] == r'.log[i];
    }
  }

  lemma MarkersLater(r: Run, r': Run, seen: seq<Event>, done: bool)
    requires LogInv(r) && LogInv(r') && Evolves(r, r')
    requires MarkersSettled(r, seen, done)
    ensures MarkersSettled(r', seen, done)
  {
    forall i | 0 <= i < |seen| && IsDone(seen[i].payload) ensures Superseded(seen[i], r') || (done && i == |seen| - 1) {
      assert Superseded(seen[i], r) || (done && i == |seen| - 1);
    }
  }

  lemma {:induction false} NonDoneConcat(a: seq<Event>, b: seq<Event>)
    ensures NonDone(a + b) == NonDone(a) + NonDone(b)
  {
    if b == [] {
      assert a + b == a;
    } else {
      var init, e := b[..|b| - 1], b[|b| - 1];
      assert a + b == a + init + [e];
      NonDonePush(a + init, e);
      NonDoneConcat(a, init);
    }
  }

  lemma {:induction false} ContentsConcat(frames: seq<Frame>, more: seq<Frame>)
    ensures Contents(frames + more) == Contents(frames) + Contents(more)
  {
    if more == [] {
      assert frames + more == frames;
    } else {
      var init, f := more[..|more| - 1], more[|more| - 1];
      assert frames + more == frames + init + [f];
      ContentsPush(frames + init, f);
      ContentsConcat(frames, init);
    }
  }

  lemma {:induction false} AllContents(frames: seq<Frame>)
    requires forall i :: 0 <= i < |frames| ==> frames[i].Delivered?
    ensures Contents(frames) == frames
  {
    if frames != [] {
      AllContents(frames[..|frames| - 1]);
    }
  }

  // ---------------------------------------------------------------- a batch in a subscription

  /** The subscription after a read of which the entries `taken` were processed. */
  function AfterBatch(sub: Sub, read: Read, taken: seq<Event>, frames: seq<Frame>): Sub {
    if taken == [] then sub
    else sub.(cursor := taken[|taken| - 1].id,
              frames := sub.frames + frames,
              seen := sub.seen + taken,
              lost := sub.lost + (ReadFrom(read.run, sub.cursor) - sub.cursor),
              replies := sub.replies + [read],
              done := EndsInDone(frames))
  }

  /** What a read and the state it is judged by have in common: the entries are a piece of one log. */
  ghost predicate Extends(r: Run, start: nat, sub: Sub, read: Read, taken: seq<Event>) {
    var first := ReadFrom(read.run, sub.cursor);
    && read.cursor == sub.cursor && read.taken == |taken| && taken != []
    && first + |taken| <= |r.log| && taken == r.log[first..first + |taken|]
    && (forall i :: 0 <= i < |taken| ==> !HeldBack(taken[i], r))
    && (forall i :: sub.cursor <= i < first ==> TrimmedAway(r, i))
    && (Fits(r, start) ==> first == sub.cursor)
  }

  lemma TrackBatch(r: Run, start: nat, sub: Sub, read: Read, taken: seq<Event>)
    requires LogInv(r) && Track(r, start, sub) && !sub.done
    requires Extends(r, start, sub, read, taken)
    ensures Track(r, start, AfterBatch(sub, read, taken, Yielded(taken, r)))
  {
    var first, frames := ReadFrom(read.run, sub.cursor), Yielded(taken, r);
    YieldedForm(r, first, taken);
    YieldedIsDelivered(taken, r);
    EntryFacts(taken, r, first, |taken| - 1);
    FramesExtend(sub.frames, sub.seen, taken, frames, EndsInDone(frames));
    MarkersExtend(r, sub.seen, taken, EndsInDone(frames));
    SeenExtends(r, start, sub, read, taken, frames);
    ReadsExtend(r, start, sub, read, taken, frames);
  }

  lemma FramesExtend(before: seq<Frame>, seen: seq<Event>, taken: seq<Event>, frames: seq<Frame>, done: bool)
    requires FramesFollow(before, seen, false) && taken != []
    requires frames == NonDone(taken) + DoneTail(taken, done)
    requires forall i :: 0 <= i < |frames| ==> frames[i].Delivered?
    ensures FramesFollow(before + frames, seen + taken, done)
  {
    NonDoneConcat(seen, taken);
    ContentsConcat(before, frames);
    AllContents(frames);
    LastStaysLast(before, taken, frames, done);
    Regroup(NonDone(seen), NonDone(taken), DoneTail(taken, done));
    assert DoneTail(seen + taken, done) == DoneTail(taken, done);
  }

  lemma Regroup(a: seq<Frame>, b: seq<Frame>, c: seq<Frame>)
    ensures a + [] == a && a + (b + c) == a + b + c
  {
  }

  lemma LastStaysLast(before: seq<Frame>, taken: seq<Event>, frames: seq<Frame>, done: bool)
    requires DoneOnlyLast(before, false) && taken != []
    requires frames == NonDone(taken) + DoneTail(taken, done)
    ensures DoneOnlyLast(before + frames, done)
  {
    NonDoneHasNoDone(taken);
    var all := before + frames;
    assert forall i :: 0 <= i < |before| ==> all[i] == before[i];
    assert forall i :: |before| <= i < |all| ==> all[i] == frames[i - |before|];
  }

  lemma MarkersExtend(r: Run, seen: seq<Event>, taken: seq<Event>, done: bool)
    requires MarkersSettled(r, seen, false) && taken != []
    requires MarkersSettled(r, taken, done)
    ensures MarkersSettled(r, seen + taken, done)
  {
    var all := seen + taken;
    forall i | 0 <= i < |all| && IsDone(all[i].payload) ensures Superseded(all[i], r) || (done && i == |all| - 1) {
      if i < |seen| {
        assert all[i] == seen[i];
      } else {
        assert all[i] == taken[i - |seen|];
      }
    }
  }

  lemma SeenExtends(r: Run, start: nat, sub: Sub, read: Read, taken: seq<Event>, frames: seq<Frame>)
    requires LogInv(r) && start <= sub.cursor <= |r.log| && TrackSeen(r, start, sub)
    requires Extends(r, start, sub, read, taken)
    ensures AfterBatch(sub, read, taken, frames).cursor <= |r.log|
    ensures TrackSeen(r, start, AfterBatch(sub, read, taken, frames))
  {
    var first := ReadFrom(read.run, sub.cursor);
    SliceIds(r, first, taken);
    OrderExtends(r.log, start, sub.cursor, sub.seen, first, taken);
    TrimExtends(r, start, sub.cursor, sub.seen, first, taken);
    SliceExtends(r.log, start, first, taken);
  }

  lemma ReadsExtend(r: Run, start: nat, sub: Sub, read: Read, taken: seq<Event>, frames: seq<Frame>)
    requires LogInv(r) && TrackReads(r, start, sub) && Extends(r, start, sub, read, taken)
    ensures TrackReads(r, start, AfterBatch(sub, read, taken, frames))
  {
    EntryFacts(taken, r, ReadFrom(read.run, sub.cursor), |taken| - 1);
    OneMoreRead(sub.replies, read);
    LinkExtends(start, sub.replies, sub.cursor, read);
  }

  lemma LinkExtends(start: nat, replies: seq<Read>, cursor: nat, read: Read)
    requires Chained(start, replies, cursor) && read.cursor == cursor
    ensures Chained(start, replies + [read], ReadFrom(read.run, read.cursor) + read.taken)
  {
    var all := replies + [read];
    forall i: nat | i < |all| ensures LinkedAt(start, all, i) {
      if i < |replies| {
        assert LinkedAt(start, replies, i);
      }
    }
  }

  lemma OneMoreRead(replies: seq<Read>, read: Read)
    ensures NeverOverrun(replies + [read]) <==> NeverOverrun(replies) && ReadFrom(read.run, read.cursor) == read.cursor
  {
    var all := replies + [read];
    assert forall i :: 0 <= i < |replies| ==> all[i] == replies[i];
    assert all[|replies|] == read;
  }

  lemma SliceExtends(log: seq<Event>, start: nat, first: nat, taken: seq<Event>)
    requires start <= first && first + |taken| <= |log| && taken == log[first..first + |taken|]
    ensures log[start..first + |taken|] == log[start..first] + taken
  {
  }

  lemma TrimExtends(r: Run, start: nat, cursor: nat, seen: seq<Event>, first: nat, taken: seq<Event>)
    requires start <= cursor <= first && first + |taken| <= |r.log| && taken == r.log[first..first + |taken|]
    requires SeenOrTrimmed(r, start, cursor, seen)
    requires forall i :: cursor <= i < first ==> TrimmedAway(r, i)
    ensures SeenOrTrimmed(r, start, first + |taken|, seen + taken)
  {
    forall i | start <= i < first + |taken| ensures SeenOrTrimmedAt(r, seen + taken, i) {
      if i < cursor {
        assert SeenOrTrimmedAt(r, seen, i);
      } else if i >= first {
        assert r.log[i] == taken[i - first];
      }
    }
  }

  lemma OrderExtends(log: seq<Event>, start: nat, cursor: nat, seen: seq<Event>, first: nat, taken: seq<Event>)
    requires start <= cursor <= first && first + |taken| <= |log| && taken == log[first..first + |taken|]
    requires SeenInOrder(log, start, cursor, seen)
    requires forall i :: 0 <= i < |taken| ==> taken[i].id == first + i + 1
    ensures SeenInOrder(log, start, first + |taken|, seen + taken)
  {
    var all := seen + taken;
    forall i | 0 <= i < |all| ensures start < all[i].id <= first + |taken| && log[all[i].id - 1] == all[i] {
      if i < |seen| {
        assert all[i] == seen[i];
      } else {
        assert all[i] == taken[i - |seen|];
      }
    }
  }
}
