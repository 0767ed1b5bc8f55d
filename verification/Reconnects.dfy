/** Clients that connect again and again: where they resume, and what they receive in all. */
module Reconnects {
  import opened Prelude
  import opened Registry
  import opened RegistryInvariant
  import opened RegistryHistory
  import opened RegistryLog
  import opened Subscriber
  import opened SubscriberLoop
  import opened SubscriberTheorems
  import opened SubscriberNotices

  /** The last id a client was sent: notices carry one as events do, heartbeats do not. */
  function ResumeFrom(from: int, got: seq<Frame>): int {
    if got == [] then from
    else match got[|got| - 1]
      case Delivered(id, _) => id
      case GapNotice(at) => at
      case Beat => ResumeFrom(from, got[..|got| - 1])
  }

  /** The last event delivered. */
  function LastDelivered(start: nat, got: seq<Frame>): nat {
    if got != [] && got[|got| - 1].Delivered? then got[|got| - 1].id else start
  }

  // ---------------------------------------------------------------- a part of an exact replay

  lemma NonDoneSnoc(r: Run, start: nat, end: nat)
    requires LogInv(r) && start < end <= |r.log|
    ensures NonDone(r.log[start..end]) == NonDone(r.log[start..end - 1])
              + if IsDone(r.log[end - 1].payload) then [] else [FrameOf(r.log[end - 1])]
    ensures r.log[end - 1].id == end
  {
    assert r.log[start..end] == r.log[start..end - 1] + [r.log[end - 1]];
    NonDonePush(r.log[start..end - 1], r.log[end - 1]);
    assert EventAt(r, end - 1);
  }

  /** Whatever part of the events reached the client, it is exact up to the last id it saw. */
  lemma {:induction false} PrefixIsExact(r: Run, start: nat, end: nat, k: nat)
    requires LogInv(r) && start <= end <= |r.log| && k <= |NonDone(r.log[start..end])|
    ensures var part := NonDone(r.log[start..end])[..k];
            && start <= LastDelivered(start, part) <= end
            && part == NonDone(r.log[start..LastDelivered(start, part)])
    decreases end - start
  {
    if start == end {
      assert r.log[start..start] == [];
    } else {
      NonDoneSnoc(r, start, end);
      var fewer := NonDone(r.log[start..end - 1]);
      if k <= |fewer| {
        PrefixIsExact(r, start, end - 1, k);
        assert NonDone(r.log[start..end])[..k] == fewer[..k];
      } else {
        assert NonDone(r.log[start..end])[..k] == NonDone(r.log[start..end]);
      }
    }
  }

  lemma ReceivedIsExact(r: Run, start: nat, got: seq<Frame>, end: nat, k: nat)
    requires LogInv(r) && ExactFrom(r, start, got, end) && k <= |got|
    ensures ExactFrom(r, start, got[..k], LastDelivered(start, got[..k]))
  {
    var all := NonDone(r.log[start..end]);
    if k <= |all| {
      PrefixIsExact(r, start, end, k);
      assert got[..k] == all[..k];
    } else {
      WholeIsExact(r, start, got, end);
      assert got[..k] == got;
    }
  }

  lemma WholeIsExact(r: Run, start: nat, got: seq<Frame>, end: nat)
    requires LogInv(r) && ExactFrom(r, start, got, end) && |got| > |NonDone(r.log[start..end])|
    ensures LastDelivered(start, got) == end
  {
    assert EventAt(r, end - 1);
  }

  lemma ExactConcat(r: Run, start: nat, a: seq<Frame>, mid: nat, b: seq<Frame>, end: nat)
    requires LogInv(r) && ExactFrom(r, start, a, mid) && ExactFrom(r, mid, b, end)
    ensures ExactFrom(r, start, a + b, end)
  {
    assert r.log[start..end] == r.log[start..mid] + r.log[mid..end];
    NonDoneConcat(r.log[start..mid], r.log[mid..end]);
    if a != NonDone(r.log[start..mid]) {
      assert EventAt(r, mid - 1) && mid == end;
      assert r.log[mid..end] == [] && b == [];
      assert a + b == a;
    } else if b == NonDone(r.log[mid..end]) {
    } else {
      Regroup(a, NonDone(r.log[mid..end]), [FrameOf(r.log[end - 1])]);
    }
  }

  /** What was exact stays exact as the run goes on. */
  lemma ExactLater(r: Run, later: Run, start: nat, got: seq<Frame>, end: nat)
    requires LogInv(r) && LogInv(later) && Evolves(r, later) && ExactFrom(r, start, got, end)
    ensures ExactFrom(later, start, got, end)
  {
    assert r.log[start..end] == later.log[start..end];
  }

  // ---------------------------------------------------------------- one connection

  /** What the calls of a connection observed, and how much of what it was sent the client received. */
  datatype Session = Session(world: seq<Snapshot>, got: seq<Frame>)

  /** A subscription to a run that is `r` in the end; a tail of what it sends may be lost in transit. */
  ghost predicate SessionOf(r: Run, from: int, session: Session) {
    && session.world != [] && Observed(session.world)
    && Evolves(session.world[|session.world| - 1].run, r)
    && session.got <= Subscribed(session.world, from).0.frames
  }

  lemma {:induction false} ResumeWithoutNotice(from: int, got: seq<Frame>)
    requires NoticeFree(got)
    ensures StartAt(ResumeFrom(from, got)) == LastDelivered(StartAt(from), Contents(got))
  {
    if got != [] && got[|got| - 1].Beat? {
      ResumeWithoutNotice(from, got[..|got| - 1]);
    }
  }

  lemma ContentsPrefix(frames: seq<Frame>, got: seq<Frame>)
    requires got <= frames
    ensures Contents(got) <= Contents(frames)
  {
    assert frames == got + frames[|got|..];
    ContentsConcat(got, frames[|got|..]);
  }

  /** Events with ids from after `start` to `end`, each larger than those before it. */
  ghost predicate Rising(start: int, frames: seq<Frame>, end: int) {
    && (forall i :: 0 <= i < |frames| ==> frames[i].Delivered? && start < frames[i].id <= end)
    && (forall i, j :: 0 <= i < j < |frames| ==> frames[i].Delivered? && frames[j].Delivered? && frames[i].id < frames[j].id)
  }

  lemma {:induction false} NonDoneRises(start: int, seen: seq<Event>, end: int)
    requires forall i :: 0 <= i < |seen| ==> start < seen[i].id <= end
    requires forall i, j :: 0 <= i < j < |seen| ==> seen[i].id < seen[j].id
    ensures Rising(start, NonDone(seen), end)
  {
    if seen != [] {
      var init, last := seen[..|seen| - 1], seen[|seen| - 1];
      NonDoneRises(start, init, last.id - 1);
    }
  }

  /** What is delivered lies between the start and the cursor. */
  lemma DeliveredRises(r: Run, start: nat, sub: Sub)
    requires Track(r, start, sub)
    ensures Rising(start, Contents(sub.frames), sub.cursor)
  {
    NonDoneRises(start, sub.seen, sub.cursor);
    if sub.done {
      NonDoneRises(start, sub.seen[..|sub.seen| - 1], sub.seen[|sub.seen| - 1].id - 1);
    }
  }

  lemma SubscribedRises(world: seq<Snapshot>, from: int)
    requires Observed(world) && world != []
    ensures var sub := Subscribed(world, from).0;
            StartAt(from) <= sub.cursor && Rising(StartAt(from), Contents(sub.frames), sub.cursor)
  {
    SubscribedLeads(world, from);
    if StartAt(from) <= world[0].run.lastEventId {
      var sub := Subscribed(world, from).0;
      DeliveredRises(LastSeen(world, sub), StartAt(from), sub);
    }
  }

  /**
   A client resumes from the last event it got exactly when no notice is among what it got: the id
   of a notice lies behind everything the subscription delivered.
   */
  lemma ResumesFromLastEventIff(r: Run, from: int, session: Session)
    requires SessionOf(r, from, session)
    ensures var (last, next) := (LastDelivered(StartAt(from), Contents(session.got)), StartAt(ResumeFrom(from, session.got)));
            && StartAt(from) <= last <= next
            && (last == next <==> NoticeFree(session.got))
  {
    var sub := Subscribed(session.world, from).0;
    SubscribedRises(session.world, from);
    ContentsPrefix(sub.frames, session.got);
    if NoticeFree(session.got) {
      ResumeWithoutNotice(from, session.got);
    } else {
      NoticesAreLast(session.world, from);
      NoticeEndsAll(sub.frames, session.got);
    }
  }

  /** Whoever got the notice got everything. */
  lemma NoticeEndsAll(frames: seq<Frame>, got: seq<Frame>)
    requires got <= frames && !NoticeFree(got)
    ensures frames != [] && (NoticeFree(frames[..|frames| - 1]) ==> got == frames)
  {
    var i :| 0 <= i < |got| && got[i].GapNotice?;
    assert frames[i] == got[i];
    assert i < |frames| - 1 ==> frames[..|frames| - 1][i] == frames[i];
  }

  lemma SessionIsExact(r: Run, from: int, session: Session)
    requires LogInv(r) && SessionOf(r, from, session)
    requires NeverOverrun(Subscribed(session.world, from).0.replies)
    ensures var (start, got) := (StartAt(from), Contents(session.got));
            if start <= |r.log| then ExactFrom(r, start, got, LastDelivered(start, got)) else got == []
  {
    var world, start, sub := session.world, StartAt(from), Subscribed(session.world, from).0;
    SubscribedLeads(world, from);
    ContentsPrefix(sub.frames, session.got);
    if start > world[0].run.lastEventId {
      assert start <= |r.log| ==> r.log[start..start] == [];
    } else {
      WholeSessionIsExact(r, world, start, sub);
      PartIsExact(r, start, Contents(sub.frames), sub.cursor, Contents(session.got));
    }
  }

  lemma PartIsExact(r: Run, start: nat, all: seq<Frame>, end: nat, got: seq<Frame>)
    requires LogInv(r) && ExactFrom(r, start, all, end) && got <= all
    ensures start <= |r.log| && ExactFrom(r, start, got, LastDelivered(start, got))
  {
    ReceivedIsExact(r, start, all, end, |got|);
    assert all[..|got|] == got;
  }

  lemma WholeSessionIsExact(r: Run, world: seq<Snapshot>, start: nat, sub: Sub)
    requires LogInv(r) && Observed(world) && Tracking(world, start, sub)
    requires Evolves(world[|world| - 1].run, r) && NeverOverrun(sub.replies)
    ensures ExactFrom(r, start, Contents(sub.frames), sub.cursor)
  {
    SeenBefore(r, world, sub);
    ExactIff(LastSeen(world, sub), start, sub);
    ExactLater(LastSeen(world, sub), r, start, Contents(sub.frames), sub.cursor);
  }

  lemma SeenBefore(r: Run, world: seq<Snapshot>, sub: Sub)
    requires Observed(world) && 0 < sub.calls <= |world| && Evolves(world[|world| - 1].run, r)
    ensures LogInv(LastSeen(world, sub)) && Evolves(LastSeen(world, sub), r)
  {
    assert InOrder(world, sub.calls - 1, |world| - 1);
    EvolvesTransitive(LastSeen(world, sub), world[|world| - 1].run, r);
  }

  // ---------------------------------------------------------------- any number of connections

  /** Each connection asks for what follows the last id the client was sent. */
  ghost predicate Sessions(r: Run, from: int, sessions: seq<Session>)
    decreases |sessions|
  {
    sessions != [] ==> SessionOf(r, from, sessions[0]) && Sessions(r, ResumeFrom(from, sessions[0].got), sessions[1..])
  }

  /** No connection reads past trimmed events. */
  ghost predicate NoneOverrun(from: int, sessions: seq<Session>)
    decreases |sessions|
  {
    sessions != [] ==>
      && (sessions[0].world != [] ==> NeverOverrun(Subscribed(sessions[0].world, from).0.replies))
      && NoneOverrun(ResumeFrom(from, sessions[0].got), sessions[1..])
  }

  /** The client does not come back after a notice. */
  ghost predicate StopsAtNotice(sessions: seq<Session>) {
    forall i :: 0 <= i < |sessions| - 1 ==> NoticeFree(sessions[i].got)
  }

  /** The events received, heartbeats and notices left out. */
  function Received(sessions: seq<Session>): seq<Frame> {
    if sessions == [] then [] else Contents(sessions[0].got) + Received(sessions[1..])
  }

  /**
   Across any number of disconnects and reconnects, a client that stops at a notice receives the
   log after its start exactly once, in order; and nothing if its start lies beyond the log.
   */
  lemma {:induction false} ReconnectsReplayExactly(r: Run, from: int, sessions: seq<Session>) returns (end: nat)
    requires LogInv(r) && Sessions(r, from, sessions)
    requires NoneOverrun(from, sessions) && StopsAtNotice(sessions)
    ensures if StartAt(from) <= |r.log| then ExactFrom(r, StartAt(from), Received(sessions), end) else Received(sessions) == []
    decreases |sessions|
  {
    var start := StartAt(from);
    end := start;
    if sessions == [] {
      assert start <= |r.log| ==> r.log[start..start] == [];
    } else {
      var first, rest := sessions[0], sessions[1..];
      SessionIsExact(r, from, first);
      end := LastDelivered(start, Contents(first.got));
      if rest == [] {
        assert Received(sessions) == Contents(first.got);
      } else {
        assert NoticeFree(first.got);
        assert forall i :: 0 <= i < |rest| ==> rest[i] == sessions[i + 1];
        ResumeWithoutNotice(from, first.got);
        var mid := end;
        end := ReconnectsReplayExactly(r, ResumeFrom(from, first.got), rest);
        if start <= |r.log| {
          ExactConcat(r, start, Contents(first.got), mid, Received(rest), end);
        }
      }
    }
  }

  lemma RisingConcat(start: int, a: seq<Frame>, mid: int, b: seq<Frame>, end: int)
    requires start <= mid <= end && Rising(start, a, mid) && Rising(mid, b, end)
    ensures Rising(start, a + b, end)
  {
    var all := a + b;
    assert forall i :: 0 <= i < |a| ==> all[i] == a[i];
    assert forall i :: |a| <= i < |all| ==> all[i] == b[i - |a|];
  }

  /** What the client got of a connection ends where its last event does. */
  lemma SessionRises(r: Run, from: int, session: Session)
    requires SessionOf(r, from, session)
    ensures var got := Contents(session.got); Rising(StartAt(from), got, LastDelivered(StartAt(from), got))
  {
    var sub := Subscribed(session.world, from).0;
    SubscribedRises(session.world, from);
    ContentsPrefix(sub.frames, session.got);
    PartRises(StartAt(from), Contents(sub.frames), sub.cursor, Contents(session.got));
  }

  lemma PartRises(start: nat, all: seq<Frame>, end: nat, got: seq<Frame>)
    requires Rising(start, all, end) && got <= all
    ensures Rising(start, got, LastDelivered(start, got))
  {
    assert forall i :: 0 <= i < |got| ==> got[i] == all[i];
  }

  /**
   A client that does come back after a notice is sent nothing twice, and never what lies up to the
   id it resumes from, however often it connects.
   */
  lemma {:induction false} NothingComesBack(r: Run, from: int, sessions: seq<Session>) returns (end: nat)
    requires Sessions(r, from, sessions)
    ensures StartAt(from) <= end && Rising(StartAt(from), Received(sessions), end)
    decreases |sessions|
  {
    end := StartAt(from);
    if sessions != [] {
      var first := sessions[0];
      ResumesFromLastEventIff(r, from, first);
      SessionRises(r, from, first);
      end := NothingComesBack(r, ResumeFrom(from, first.got), sessions[1..]);
      var mid := StartAt(ResumeFrom(from, first.got));
      RisingConcat(StartAt(from), Contents(first.got), mid, Received(sessions[1..]), end);
    }
  }

  /**
   A client that got the notice of a gap found on a stream in use, and comes back with its id, skips
   exactly the events that could no longer be read. The result is the call that found the gap.
   */
  lemma NoticeSkipsExactlyTrimmed(r: Run, from: int, session: Session) returns (c: nat)
    requires SessionOf(r, from, session) && Subscribed(session.world, from).1.Gap? && !NoticeFree(session.got)
    ensures var sub := Subscribed(session.world, from).0;
            && session.got == sub.frames && c < sub.calls <= |session.world|
            && sub.calls == c + (if session.world[c].run.events != [] then 1 else 2)
            && (session.world[c].run.events != [] ==>
                  forall id :: sub.cursor < id <= session.world[c].run.lastEventId ==>
                    (id <= ResumeFrom(from, session.got) <==> !Buffered(session.world[c].run, id)))
  {
    c := NoticeNamesOldest(session.world, from);
    NoticesAreLast(session.world, from);
    NoticeEndsAll(Subscribed(session.world, from).0.frames, session.got);
  }

  /** A client that subscribes to a fresh run while its first event is appended (`FreshRunIsRefused`). */
  function Refused(request: Request, owner: string, lease: nat, text: string): Session {
    var young := Snapshot(NewRun(request, owner, lease), false);
    var one := Snapshot(Appended(young.run, Data(text), 1, ""), false);
    Session([young, young, one], [GapNotice(1)])
  }

  /**
   It has missed nothing when it is refused. But if it comes back with the id of the notice, whatever
   happens to the run and however often it connects, it never gets that event.
   */
  lemma RefusedClientMissesFirstEvent(request: Request, owner: string, lease: nat, text: string, r: Run,
                                      later: seq<Session>)
    requires request.bufferSize >= 1
    requires Evolves(Refused(request, owner, lease, text).world[2].run, r) && Sessions(r, 1, later)
    ensures var sessions := [Refused(request, owner, lease, text)] + later;
            && Sessions(r, 0, sessions)
            && |r.log| >= 1 && r.log[0] == Event(1, Data(text), Some(1))
            && FrameOf(r.log[0]) !in Received(sessions)
  {
    var refused := Refused(request, owner, lease, text);
    var sessions := [refused] + later;
    FirstAppended(request, owner, lease, text);
    FreshRunIsRefused(request, owner, lease, text);
    assert sessions[1..] == later;
    assert Contents(refused.got) == [];
    var end := NothingComesBack(r, 1, later);
  }
}
