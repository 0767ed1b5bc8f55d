/**
 `subscribe` over the states its Redis calls observe: as a function, as the loop itself, and what
 the function keeps at every step.
 */
module SubscriberLoop {
  import opened Prelude
  import opened Registry
  import opened RegistryInvariant
  import opened RegistryHistory
  import opened RegistryLog
  import opened Subscriber

  // ---------------------------------------------------------------- the loop as a function

  /** A stretch of the loop: the subscription after it, and how it ended if it did. */
  datatype Pass = Pass(sub: Sub, ending: Option<Ending>)

  predicate Stopped(r: Run) {
    Terminal(r.status) || r.status.WaitingForInput?
  }

  /** HGETALL, and return when there is nothing left to wait for. */
  function CheckedEnd(world: seq<Snapshot>, sub: Sub): (p: Pass)
    requires sub.calls <= |world|
    ensures sub.calls <= p.sub.calls <= |world| && p.sub.calls <= sub.calls + 1
    ensures p.ending.None? ==> p.sub.calls == sub.calls + 1
  {
    if sub.calls == |world| then Pass(sub, Some(Disconnected))
    else
      var run := world[sub.calls].run;
      Pass(sub.(calls := sub.calls + 1),
           if Stopped(run) && sub.cursor >= run.lastEventId then Some(Drained) else None)
  }

  datatype Probe = Probe(calls: nat, gap: Option<int>, alive: bool)

  /** `_replay_gap`: the stream's first entry, and in a second call last_event_id when the stream is empty. */
  function Probed(world: seq<Snapshot>, calls: nat, cursor: nat): (p: Probe)
    requires calls <= |world|
    ensures calls <= p.calls <= |world| && p.calls <= calls + 2
    ensures p.alive ==> calls < p.calls
    ensures !p.alive ==> p.calls == |world|
  {
    if calls == |world| then Probe(calls, None, false)
    else
      var rows := world[calls].run.events;
      if rows != [] then Probe(calls + 1, if cursor < rows[0].id - 1 then Some(rows[0].id) else None, true)
      else if calls + 1 == |world| then Probe(calls + 1, None, false)
      else
        var last := world[calls + 1].run.lastEventId;
        Probe(calls + 2, if last > cursor then Some(last + 1) else None, true)
  }

  /** Reports a gap and ends, or goes on. */
  function CheckedGap(world: seq<Snapshot>, sub: Sub): (p: Pass)
    requires sub.calls <= |world|
    ensures sub.calls <= p.sub.calls <= |world| && p.sub.calls <= sub.calls + 2
    ensures p.ending.None? ==> sub.calls < p.sub.calls
  {
    var probe := Probed(world, sub.calls, sub.cursor);
    Verdict(sub.(calls := probe.calls), probe)
  }

  function Verdict(sub: Sub, probe: Probe): Pass {
    if !probe.alive then Pass(sub, Some(Disconnected))
    else if probe.gap.Some? then Pass(sub.(frames := sub.frames + [GapNotice(probe.gap.value - 1)]), Some(Gap))
    else Pass(sub, None)
  }

  /** After an empty reply: a gap check and a heartbeat. */
  function Idled(world: seq<Snapshot>, sub: Sub): (p: Pass)
    requires sub.calls <= |world|
    ensures sub.calls <= p.sub.calls <= |world| && p.sub.calls <= sub.calls + 2
    ensures p.ending.None? ==> sub.calls < p.sub.calls
  {
    var p := CheckedGap(world, sub);
    if p.ending.Some? then p else p.(sub := p.sub.(frames := p.sub.frames + [Beat]))
  }

  /** The state is loaded again, and the entries of the reply are processed against it. */
  function Processed(world: seq<Snapshot>, sub: Sub, call: nat, reply: seq<Event>): (sub': Sub)
    requires call < |world| && sub.calls < |world|
    ensures sub'.calls == sub.calls + 1
  {
    var state := world[sub.calls].run;
    var taken := Handled(reply, state);
    AfterBatch(sub.(calls := sub.calls + 1), Read(call, world[call].run, sub.cursor, taken),
               reply[..taken], Yielded(reply[..taken], state))
  }

  /** What XREAD gives the loop: nothing when its reply is lost. */
  function Reply(s: Snapshot, cursor: nat): seq<Event> {
    if s.lost then [] else XRead(s.run.events, cursor)
  }

  /** What follows the reply of the latest call. */
  function Answered(world: seq<Snapshot>, sub: Sub, reply: seq<Event>): (p: Pass)
    requires 0 < sub.calls <= |world|
    ensures sub.calls <= p.sub.calls <= |world| && p.sub.calls <= sub.calls + 2
    ensures p.ending.None? ==> sub.calls < p.sub.calls
  {
    if reply == [] then Idled(world, sub)
    else if sub.calls == |world| then Pass(sub, Some(Disconnected))
    else Pass(Processed(world, sub, sub.calls - 1, reply), None)
  }

  /** XREAD, and then the batch or the idle round. */
  function ReadOnce(world: seq<Snapshot>, sub: Sub): (p: Pass)
    requires sub.calls <= |world|
    ensures sub.calls <= p.sub.calls <= |world| && p.sub.calls <= sub.calls + 3
    ensures p.ending.None? ==> sub.calls < p.sub.calls
  {
    if sub.calls == |world| then Pass(sub, Some(Disconnected))
    else Answered(world, sub.(calls := sub.calls + 1), Reply(world[sub.calls], sub.cursor))
  }

  /** One pass through the loop body. */
  function Polled(world: seq<Snapshot>, sub: Sub): (p: Pass)
    requires sub.calls <= |world|
    ensures sub.calls <= p.sub.calls <= |world| && p.sub.calls <= sub.calls + 5
    ensures p.ending.None? ==> sub.calls < p.sub.calls
  {
    var checked := CheckedEnd(world, sub);
    if checked.ending.Some? then checked
    else
      var round := ReadOnce(world, checked.sub);
      if round.ending.Some? then round else CheckedEnd(world, round.sub)
  }

  function Looped(world: seq<Snapshot>, sub: Sub): (Sub, Ending)
    requires sub.calls <= |world|
    decreases |world| - sub.calls
  {
    var p := Polled(world, sub);
    if p.ending.Some? then (p.sub, p.ending.value) else Looped(world, p.sub)
  }

  function StartAt(lastEventId: int): nat {
    if lastEventId > 0 then lastEventId else 0
  }

  function Opened(start: nat): Sub {
    Sub(1, start, [], [], 0, [], false)
  }

  /** The whole of `subscribe`, given what its calls observe; it ends at the latest when they do. */
  function Subscribed(world: seq<Snapshot>, lastEventId: int): (Sub, Ending)
    requires world != []
  {
    var sub := Opened(StartAt(lastEventId));
    if sub.cursor > world[0].run.lastEventId then (sub.(frames := [GapNotice(sub.cursor + 1)]), Ahead)
    else
      var p := CheckedGap(world, sub);
      if p.ending.Some? then (p.sub, p.ending.value) else Looped(world, p.sub)
  }

  // ---------------------------------------------------------------- the loop itself

  method CheckEnd(world: seq<Snapshot>, sub: Sub) returns (p: Pass)
    requires sub.calls <= |world|
    ensures p == CheckedEnd(world, sub)
  {
    if sub.calls == |world| {
      return Pass(sub, Some(Disconnected));
    }
    var run := world[sub.calls].run;
    var ending: Option<Ending> := None;
    if (Terminal(run.status) || run.status.WaitingForInput?) && sub.cursor >= run.lastEventId {
      ending := Some(Drained);
    }
    return Pass(sub.(calls := sub.calls + 1), ending);
  }

  method CheckGap(world: seq<Snapshot>, sub: Sub) returns (p: Pass)
    requires sub.calls <= |world|
    ensures p == CheckedGap(world, sub)
  {
    var calls := sub.calls;
    if calls == |world| {
      return Pass(sub, Some(Disconnected));
    }
    var rows := world[calls].run.events;
    calls := calls + 1;
    var gap: Option<int> := None;
    if rows == [] {
      if calls == |world| {
        return Pass(sub.(calls := calls), Some(Disconnected));
      }
      var last := world[calls].run.lastEventId;
      calls := calls + 1;
      if last > sub.cursor {
        gap := Some(last + 1);
      }
    } else if sub.cursor < rows[0].id - 1 {
      gap := Some(rows[0].id);
    }
    p := Pass(sub.(calls := calls), None);
    if gap.Some? {
      p := Pass(p.sub.(frames := sub.frames + [GapNotice(gap.value - 1)]), Some(Gap));
    }
  }

  /** XREAD and, when it returned entries, the batch; otherwise a gap check and a heartbeat. */
  method ReadBatch(world: seq<Snapshot>, sub: Sub) returns (p: Pass)
    requires sub.calls <= |world|
    ensures p == ReadOnce(world, sub)
  {
    if sub.calls == |world| {
      return Pass(sub, Some(Disconnected));
    }
    var reply := if world[sub.calls].lost then [] else XRead(world[sub.calls].run.events, sub.cursor);
    var next := sub.(calls := sub.calls + 1);
    if reply == [] {
      p := CheckGap(world, next);
      if p.ending.None? {
        p := p.(sub := p.sub.(frames := p.sub.frames + [Beat]));
      }
      return;
    }
    if next.calls == |world| {
      return Pass(next, Some(Disconnected));
    }
    var state := world[next.calls].run;
    var frames, cursor', taken := DeliverBatch(reply, state, sub.cursor);
    next := next.(calls := next.calls + 1);
    next := AfterBatch(next, Read(sub.calls, world[sub.calls].run, sub.cursor, taken), reply[..taken], frames);
    assert next.cursor == cursor';
    return Pass(next, None);
  }

  /** `subscribe`. */
  method Subscribe(world: seq<Snapshot>, lastEventId: int) returns (sub: Sub, ending: Ending)
    requires world != []
    ensures (sub, ending) == Subscribed(world, lastEventId)
  {
    sub := Sub(1, if lastEventId > 0 then lastEventId else 0, [], [], 0, [], false);
    if sub.cursor > world[0].run.lastEventId {
      return sub.(frames := [GapNotice(sub.cursor + 1)]), Ahead;
    }
    var p := CheckGap(world, sub);
    while p.ending.None?
      invariant p.sub.calls <= |world|
      invariant Subscribed(world, lastEventId) ==
                if p.ending.Some? then (p.sub, p.ending.value) else Looped(world, p.sub)
      decreases p.ending.None?, |world| - p.sub.calls
    {
      sub := p.sub;
      p := CheckEnd(world, sub);
      if p.ending.None? {
        p := ReadBatch(world, p.sub);
        if p.ending.None? {
          p := CheckEnd(world, p.sub);
        }
      }
      assert p == Polled(world, sub);
    }
    return p.sub, p.ending.value;
  }

  // ---------------------------------------------------------------- what it keeps

  /** Every recorded read is one that happened. */
  ghost predicate Happened(world: seq<Snapshot>, sub: Sub) {
    forall i :: 0 <= i < |sub.replies| ==> HappenedAt(world, sub.calls, sub.replies[i])
  }

  ghost predicate HappenedAt(world: seq<Snapshot>, calls: nat, read: Read) {
    read.call < calls <= |world| && world[read.call] == Snapshot(read.run, false)
  }

  /** The subscription agrees with the state that its latest call saw. */
  ghost predicate Tracking(world: seq<Snapshot>, start: nat, sub: Sub) {
    && 0 < sub.calls <= |world|
    && Track(world[sub.calls - 1].run, start, sub)
    && Happened(world, sub)
  }

  /** How a subscription may end. */
  ghost predicate Ended(world: seq<Snapshot>, sub: Sub, ending: Ending)
    requires 0 < sub.calls <= |world|
  {
    var r := world[sub.calls - 1].run;
    match ending
    case Drained => Stopped(r) && sub.cursor == r.lastEventId
    case Gap => !sub.done && sub.frames != [] && sub.frames[|sub.frames| - 1].GapNotice? && sub.cursor < r.lastEventId
    case Disconnected => sub.calls == |world|
    case Ahead => false
  }

  ghost predicate Leads(world: seq<Snapshot>, start: nat, p: Pass) {
    Tracking(world, start, p.sub) && (p.ending.Some? ==> Ended(world, p.sub, p.ending.value))
  }

  lemma TrackIgnoresCalls(r: Run, start: nat, sub: Sub, calls: nat)
    requires Track(r, start, sub)
    ensures Track(r, start, sub.(calls := calls))
  {
  }

  lemma HappenedLater(world: seq<Snapshot>, sub: Sub, calls: nat)
    requires Happened(world, sub) && sub.calls <= calls <= |world|
    ensures Happened(world, sub.(calls := calls))
  {
    forall i | 0 <= i < |sub.replies| ensures HappenedAt(world, calls, sub.replies[i]) {
      assert HappenedAt(world, sub.calls, sub.replies[i]);
    }
  }

  lemma TrackingLater(world: seq<Snapshot>, start: nat, sub: Sub, calls: nat)
    requires Observed(world) && Tracking(world, start, sub)
    requires sub.calls <= calls <= |world|
    ensures Tracking(world, start, sub.(calls := calls))
  {
    assert InOrder(world, sub.calls - 1, calls - 1);
    TrackLater(world[sub.calls - 1].run, world[calls - 1].run, start, sub);
    TrackIgnoresCalls(world[calls - 1].run, start, sub, calls);
    HappenedLater(world, sub, calls);
  }

  lemma CheckedEndLeads(world: seq<Snapshot>, start: nat, sub: Sub)
    requires Observed(world) && Tracking(world, start, sub)
    ensures Leads(world, start, CheckedEnd(world, sub))
  {
    var calls := CheckedEnd(world, sub).sub.calls;
    TrackingLater(world, start, sub, calls);
    CursorInLog(world, start, sub.(calls := calls));
  }

  /** Notices and heartbeats are not events. */
  lemma TrackNotice(world: seq<Snapshot>, start: nat, sub: Sub, f: Frame)
    requires Tracking(world, start, sub) && !sub.done && !f.Delivered?
    ensures Tracking(world, start, sub.(frames := sub.frames + [f]))
  {
    ContentsPush(sub.frames, f);
    assert DoneOnlyLast(sub.frames, false);
    assert FramesFollow(sub.frames + [f], sub.seen, false);
    assert Happened(world, sub.(frames := sub.frames + [f]));
  }

  /** A notice is sent only when the last call of the probe sees something behind the cursor. */
  lemma NoticeIsBehind(world: seq<Snapshot>, calls: nat, cursor: nat)
    requires Observed(world) && calls <= |world|
    ensures var probe := Probed(world, calls, cursor);
            probe.alive && probe.gap.Some? ==> cursor < world[probe.calls - 1].run.lastEventId
  {
    if calls < |world| {
      assert InOrder(world, calls, calls);
      BufferIsContiguous(world[calls].run);
    }
  }

  lemma CheckedGapLeads(world: seq<Snapshot>, start: nat, sub: Sub)
    requires Observed(world) && Tracking(world, start, sub) && !sub.done
    ensures Leads(world, start, CheckedGap(world, sub))
  {
    var probe := Probed(world, sub.calls, sub.cursor);
    TrackingLater(world, start, sub, probe.calls);
    NoticeIsBehind(world, sub.calls, sub.cursor);
    VerdictLeads(world, start, sub.(calls := probe.calls), probe);
  }

  lemma VerdictLeads(world: seq<Snapshot>, start: nat, sub: Sub, probe: Probe)
    requires Tracking(world, start, sub) && !sub.done
    requires !probe.alive ==> sub.calls == |world|
    requires probe.alive && probe.gap.Some? ==> sub.cursor < world[sub.calls - 1].run.lastEventId
    ensures Leads(world, start, Verdict(sub, probe))
  {
    if probe.alive && probe.gap.Some? {
      NoticeLeads(world, start, sub, probe.gap.value - 1);
    }
  }

  lemma NoticeLeads(world: seq<Snapshot>, start: nat, sub: Sub, at: int)
    requires Tracking(world, start, sub) && !sub.done && sub.cursor < world[sub.calls - 1].run.lastEventId
    ensures Leads(world, start, Pass(sub.(frames := sub.frames + [GapNotice(at)]), Some(Gap)))
  {
    TrackNotice(world, start, sub, GapNotice(at));
  }

  lemma CheckedGapKeeps(world: seq<Snapshot>, sub: Sub)
    requires sub.calls <= |world|
    ensures var p := CheckedGap(world, sub);
            && p.sub.cursor == sub.cursor && p.sub.done == sub.done
            && (p.ending.None? ==> p.sub == sub.(calls := p.sub.calls))
  {
  }

  lemma IdledLeads(world: seq<Snapshot>, start: nat, sub: Sub)
    requires Observed(world) && Tracking(world, start, sub) && !sub.done
    ensures Leads(world, start, Idled(world, sub))
  {
    CheckedGapLeads(world, start, sub);
    CheckedGapKeeps(world, sub);
    var p := CheckedGap(world, sub);
    if p.ending.None? {
      TrackNotice(world, start, p.sub, Beat);
    }
  }

  /** What XREAD returned is a piece of the log, then and when the state is loaded again. */
  lemma ReplyIsSlice(read: Run, later: Run, cursor: nat)
    requires RunInv(read) && RunInv(later) && Evolves(read, later) && cursor <= read.lastEventId
    ensures var reply := XRead(read.events, cursor);
            var first := ReadFrom(read, cursor);
            && first + |reply| <= |later.log| && reply == later.log[first..first + |reply|]
            && (forall i :: cursor <= i < first ==> TrimmedAway(later, i))
  {
    XReadIsSlice(read, cursor);
    TrimmedLater(read, later);
    var first, n := ReadFrom(read, cursor), |XRead(read.events, cursor)|;
    assert read.log[first..first + n] == later.log[first..first + n];
  }

  lemma FittingReadsStartAtCursor(read: Run, later: Run, start: nat, cursor: nat)
    requires RunInv(read) && RunInv(later) && Evolves(read, later) && start <= cursor
    ensures Fits(later, start) ==> ReadFrom(read, cursor) == cursor
  {
  }

  lemma HandledExtends(read: Run, state: Run, start: nat, sub: Sub, call: nat)
    requires RunInv(read) && RunInv(state) && Evolves(read, state)
    requires start <= sub.cursor <= read.lastEventId
    requires Handled(XRead(read.events, sub.cursor), state) > 0
    ensures var reply := XRead(read.events, sub.cursor);
            var taken := Handled(reply, state);
            Extends(state, start, sub, Read(call, read, sub.cursor, taken), reply[..taken])
  {
    var reply := XRead(read.events, sub.cursor);
    var taken := Handled(reply, state);
    ReplyIsSlice(read, state, sub.cursor);
    FittingReadsStartAtCursor(read, state, start, sub.cursor);
    HandledIsFree(reply, state);
    SlicePrefix(state.log, ReadFrom(read, sub.cursor), reply, taken);
  }

  lemma HandledIsFree(reply: seq<Event>, state: Run)
    ensures forall i :: 0 <= i < Handled(reply, state) ==> !HeldBack(reply[i], state)
  {
    HandledStops(reply, state);
    forall i | 0 <= i < Handled(reply, state) ensures !HeldBack(reply[i], state) {
      ActionOf(reply[i], state);
    }
  }

  lemma SlicePrefix(log: seq<Event>, first: nat, reply: seq<Event>, n: nat)
    requires n <= |reply| && first + |reply| <= |log| && reply == log[first..first + |reply|]
    ensures first + n <= |log| && reply[..n] == log[first..first + n] && |reply[..n]| == n
    ensures forall i :: 0 <= i < n ==> reply[..n][i] == reply[i]
  {
  }

  lemma ProcessedTracks(world: seq<Snapshot>, start: nat, sub: Sub)
    requires Observed(world) && Tracking(world, start, sub) && !sub.done && sub.calls < |world|
    requires !world[sub.calls - 1].lost
    ensures var reply := XRead(world[sub.calls - 1].run.events, sub.cursor);
            Tracking(world, start, Processed(world, sub, sub.calls - 1, reply))
  {
    var read, state := world[sub.calls - 1].run, world[sub.calls].run;
    var reply := XRead(read.events, sub.cursor);
    var taken := Handled(reply, state);
    var next := sub.(calls := sub.calls + 1);
    TrackingLater(world, start, sub, sub.calls + 1);
    if taken > 0 {
      assert InOrder(world, sub.calls - 1, sub.calls);
      CursorInLog(world, start, sub);
      HandledExtends(read, state, start, next, sub.calls - 1);
      BatchTracks(world, start, next, Read(sub.calls - 1, read, sub.cursor, taken), reply[..taken]);
    }
  }

  lemma CursorInLog(world: seq<Snapshot>, start: nat, sub: Sub)
    requires Observed(world) && Tracking(world, start, sub)
    ensures start <= sub.cursor <= world[sub.calls - 1].run.lastEventId
  {
    assert InOrder(world, sub.calls - 1, sub.calls - 1);
  }

  lemma BatchTracks(world: seq<Snapshot>, start: nat, sub: Sub, read: Read, taken: seq<Event>)
    requires Observed(world) && Tracking(world, start, sub) && !sub.done
    requires Extends(world[sub.calls - 1].run, start, sub, read, taken) && HappenedAt(world, sub.calls, read)
    ensures Tracking(world, start, AfterBatch(sub, read, taken, Yielded(taken, world[sub.calls - 1].run)))
  {
    assert InOrder(world, sub.calls - 1, sub.calls - 1);
    TrackBatch(world[sub.calls - 1].run, start, sub, read, taken);
    OneMoreHappened(world, sub, read);
  }

  lemma OneMoreHappened(world: seq<Snapshot>, sub: Sub, read: Read)
    requires Happened(world, sub) && HappenedAt(world, sub.calls, read)
    ensures forall s: Sub :: s.calls == sub.calls && s.replies == sub.replies + [read] ==> Happened(world, s)
  {
    var all := sub.replies + [read];
    forall i | 0 <= i < |all| ensures HappenedAt(world, sub.calls, all[i]) {
      if i < |sub.replies| {
        assert HappenedAt(world, sub.calls, sub.replies[i]);
      }
    }
  }

  /** DONE is emitted only when nothing is left. */
  lemma DoneMeansOver(world: seq<Snapshot>, start: nat, sub: Sub)
    requires Observed(world) && Tracking(world, start, sub) && sub.done
    ensures Terminal(world[sub.calls - 1].run.status) && sub.cursor == world[sub.calls - 1].run.lastEventId
  {
    var r := world[sub.calls - 1].run;
    assert InOrder(world, sub.calls - 1, sub.calls - 1);
    assert sub.seen[|sub.seen| - 1].id <= sub.cursor;
  }

  lemma ReadOnceLeads(world: seq<Snapshot>, start: nat, sub: Sub)
    requires Observed(world) && Tracking(world, start, sub) && !sub.done
    ensures Leads(world, start, ReadOnce(world, sub))
  {
    if sub.calls < |world| {
      var next := sub.(calls := sub.calls + 1);
      TrackingLater(world, start, sub, sub.calls + 1);
      AnsweredLeads(world, start, next);
      assert ReadOnce(world, sub) == Answered(world, next, Reply(world[next.calls - 1], next.cursor));
    }
  }

  lemma AnsweredLeads(world: seq<Snapshot>, start: nat, sub: Sub)
    requires Observed(world) && Tracking(world, start, sub) && !sub.done
    ensures Leads(world, start, Answered(world, sub, Reply(world[sub.calls - 1], sub.cursor)))
  {
    var reply := Reply(world[sub.calls - 1], sub.cursor);
    if reply == [] {
      EmptyReplyLeads(world, start, sub, Answered(world, sub, reply));
    } else {
      BatchLeads(world, start, sub, Answered(world, sub, reply));
    }
  }

  lemma EmptyReplyLeads(world: seq<Snapshot>, start: nat, sub: Sub, p: Pass)
    requires Observed(world) && Tracking(world, start, sub) && !sub.done && p == Idled(world, sub)
    ensures Leads(world, start, p)
  {
    IdledLeads(world, start, sub);
  }

  lemma BatchLeads(world: seq<Snapshot>, start: nat, sub: Sub, p: Pass)
    requires Observed(world) && Tracking(world, start, sub) && !sub.done && !world[sub.calls - 1].lost
    requires p == if sub.calls == |world| then Pass(sub, Some(Disconnected))
                  else Pass(Processed(world, sub, sub.calls - 1, XRead(world[sub.calls - 1].run.events, sub.cursor)), None)
    ensures Leads(world, start, p)
  {
    if sub.calls < |world| {
      ProcessedTracks(world, start, sub);
    }
  }

  /** A pass through the loop keeps the tracking, and goes on only before DONE. */
  lemma PolledLeads(world: seq<Snapshot>, start: nat, sub: Sub)
    requires Observed(world) && Tracking(world, start, sub) && !sub.done
    ensures Leads(world, start, Polled(world, sub))
    ensures Polled(world, sub).ending.None? ==> !Polled(world, sub).sub.done
  {
    var checked := CheckedEnd(world, sub);
    CheckedEndLeads(world, start, sub);
    if checked.ending.None? {
      RoundLeads(world, start, checked.sub);
    }
  }

  lemma RoundLeads(world: seq<Snapshot>, start: nat, sub: Sub)
    requires Observed(world) && Tracking(world, start, sub) && !sub.done
    ensures var round := ReadOnce(world, sub);
            var p := if round.ending.Some? then round else CheckedEnd(world, round.sub);
            Leads(world, start, p) && (p.ending.None? ==> !p.sub.done)
  {
    ReadOnceLeads(world, start, sub);
    var round := ReadOnce(world, sub);
    if round.ending.None? {
      CheckedEndLeads(world, start, round.sub);
      if round.sub.done {
        AfterDone(world, start, round.sub);
      }
    }
  }

  lemma AfterDone(world: seq<Snapshot>, start: nat, sub: Sub)
    requires Observed(world) && Tracking(world, start, sub) && sub.done
    ensures CheckedEnd(world, sub).ending.Some?
  {
    DoneMeansOver(world, start, sub);
    if sub.calls < |world| {
      EndIsFinal(world, sub.calls - 1, sub.calls);
    }
  }

  /** After a call has seen the run ended, every later call sees the same log and buffer. */
  lemma EndIsFinal(world: seq<Snapshot>, i: nat, j: nat)
    requires Observed(world) && i <= j < |world|
    ensures Terminal(world[i].run.status) ==>
              && Terminal(world[j].run.status)
              && world[j].run.lastEventId == world[i].run.lastEventId
              && world[j].run.events == world[i].run.events
  {
    assert InOrder(world, i, j);
  }

  lemma {:induction false} LoopedLeads(world: seq<Snapshot>, start: nat, sub: Sub)
    requires Observed(world) && Tracking(world, start, sub) && !sub.done
    ensures var (sub', ending) := Looped(world, sub); Leads(world, start, Pass(sub', Some(ending)))
    decreases |world| - sub.calls
  {
    PolledLeads(world, start, sub);
    var p := Polled(world, sub);
    if p.ending.None? {
      LoopedLeads(world, start, p.sub);
    }
  }

  lemma OpenedTracks(world: seq<Snapshot>, start: nat)
    requires Observed(world) && world != [] && start <= world[0].run.lastEventId
    ensures Tracking(world, start, Opened(start))
  {
    assert InOrder(world, 0, 0);
    assert world[0].run.log[start..start] == [];
  }

  /**
   Whatever the calls observe: a subscription that asks for a position beyond the run is told so,
   and any other has delivered exactly what `Track` says, and ends as `Ended` says.
   */
  lemma SubscribedLeads(world: seq<Snapshot>, lastEventId: int)
    requires Observed(world) && world != []
    ensures var (sub, ending) := Subscribed(world, lastEventId);
            var start := StartAt(lastEventId);
            if start > world[0].run.lastEventId
            then ending.Ahead? && sub.frames == [GapNotice(start + 1)] && Contents(sub.frames) == []
            else Tracking(world, start, sub) && Ended(world, sub, ending)
  {
    var start := StartAt(lastEventId);
    if start > world[0].run.lastEventId {
      ContentsPush([], GapNotice(start + 1));
      assert [] + [GapNotice(start + 1)] == [GapNotice(start + 1)];
    } else {
      OpenedTracks(world, start);
      CheckedGapLeads(world, start, Opened(start));
      CheckedGapKeeps(world, Opened(start));
      var p := CheckedGap(world, Opened(start));
      if p.ending.None? {
        LoopedLeads(world, start, p.sub);
      }
    }
  }
}
