/**
 The relay from the audit outbox to Kafka: any number of relay processes share one
 consumer group and may crash at any moment.
 */
module KafkaRelay {

  /** An outbox entry as the decoder sees it: an event, or malformed data. */
  datatype Entry = Event(body: string) | Malformed

  /** What one relay process is doing with the entries it has fetched. */
  datatype Local =
    | Idle
    | Holding(queue: seq<nat>)
    | Sent(queue: seq<nat>)

  /**
   Entries are numbered in the order they were written. `outbox` are those still in the
   stream, `delivered` how many the group has handed out, `pending` which consumer each
   unacknowledged one belongs to, `kafka` what the brokers have acknowledged, in order.
   */
  datatype System = System(
    written: seq<Entry>,
    outbox: set<nat>,
    delivered: nat,
    pending: map<nat, nat>,
    kafka: seq<nat>,
    relays: map<nat, Local>)

  datatype Step =
    | Write(entry: Entry)
    | Read(relay: nat, count: nat)
    | Reclaim(relay: nat, ids: seq<nat>)
    | SkipMalformed(relay: nat)
    | SendOk(relay: nat)
    | Acknowledge(relay: nat)
    | Crash(relay: nat)

  function Start(): System {
    System([], {}, 0, map[], [], map[])
  }

  function LocalOf(s: System, relay: nat): Local {
    if relay in s.relays then s.relays[relay] else Idle
  }

  /** It has started over, or has gone through its batch. */
  predicate Free(s: System, relay: nat) {
    LocalOf(s, relay).Idle? || LocalOf(s, relay) == Holding([])
  }

  predicate HoldsEntry(s: System, relay: nat) {
    LocalOf(s, relay).Holding? && LocalOf(s, relay).queue != [] && LocalOf(s, relay).queue[0] < |s.written|
  }

  function Range(from: nat, to: nat): seq<nat>
    requires from <= to
  {
    seq(to - from, i requires 0 <= i => from + i)
  }

  lemma RangeMembers(from: nat, to: nat)
    requires from <= to
    ensures forall id :: id in Range(from, to) <==> from <= id < to
  {
    forall id | from <= id < to ensures id in Range(from, to) {
      assert Range(from, to)[id - from] == id;
    }
  }

  function Min(a: nat, b: nat): nat { if a < b then a else b }

  /** One atomic step; a step that its relay cannot take now leaves the system unchanged. */
  function Next(s: System, step: Step): System {
    match step
    case Write(entry) =>
      s.(written := s.written + [entry], outbox := s.outbox + {|s.written|})
    case Read(relay, count) =>
      if !Free(s, relay) || s.delivered > |s.written| then s else
      var end := Min(s.delivered + count, |s.written|);
      s.(delivered := end,
         pending := s.pending + map id | id in Range(s.delivered, end) :: relay,
         relays := s.relays[relay := Holding(Range(s.delivered, end))])
    case Reclaim(relay, ids) =>
      if !Free(s, relay) || !(forall i :: 0 <= i < |ids| ==> ids[i] in s.pending) then s else
      s.(pending := map id | id in s.pending :: if id in ids then relay else s.pending[id],
         relays := s.relays[relay := Holding(ids)])
    case SkipMalformed(relay) =>
      if !HoldsEntry(s, relay) || !s.written[s.relays[relay].queue[0]].Malformed? then s else
      s.(relays := s.relays[relay := Holding(s.relays[relay].queue[1..])])
    case SendOk(relay) =>
      if !HoldsEntry(s, relay) || s.written[s.relays[relay].queue[0]].Malformed? then s else
      s.(kafka := s.kafka + [s.relays[relay].queue[0]], relays := s.relays[relay := Sent(s.relays[relay].queue)])
    case Acknowledge(relay) =>
      if !LocalOf(s, relay).Sent? || LocalOf(s, relay).queue == [] then s else
      AckAndDelete(s, relay).0
    case Crash(relay) =>
      s.(relays := s.relays[relay := Idle])
  }

  /** XACK and, when it removed a pending entry, XDEL; the relay raises when it did not. */
  function AckAndDelete(s: System, relay: nat): (System, bool)
    requires LocalOf(s, relay).Sent? && LocalOf(s, relay).queue != []
  {
    var id, rest := s.relays[relay].queue[0], s.relays[relay].queue[1..];
    if id in s.pending
    then (s.(pending := s.pending - {id}, outbox := s.outbox - {id}, relays := s.relays[relay := Holding(rest)]), true)
    else (s.(relays := s.relays[relay := Idle]), false)
  }

  function Exec(s: System, steps: seq<Step>): System
    decreases |steps|
  {
    if steps == [] then s else Exec(Next(s, steps[0]), steps[1..])
  }

  // ---------------------------------------------------------------- invariant

  /** What is true of one written entry. */
  ghost predicate EntryAt(s: System, id: nat)
    requires id < |s.written|
  {
    && (id in s.outbox || id in s.kafka)
    && (id in s.outbox <==> s.delivered <= id || id in s.pending)
    && (s.written[id].Malformed? ==> id in s.outbox && id !in s.kafka)
  }

  ghost predicate RelayAt(s: System, relay: nat)
    requires relay in s.relays
  {
    var l := s.relays[relay];
    && (!l.Idle? ==> forall i :: 0 <= i < |l.queue| ==> l.queue[i] < s.delivered)
    && (l.Sent? ==> l.queue != [] && l.queue[0] in s.kafka)
  }

  ghost predicate Inv(s: System) {
    && s.delivered <= |s.written|
    && (forall id :: 0 <= id < |s.written| ==> EntryAt(s, id))
    && (forall id :: id in s.outbox ==> id < |s.written|)
    && (forall id :: id in s.pending ==> id < s.delivered)
    && (forall i :: 0 <= i < |s.kafka| ==> s.kafka[i] < |s.written|)
    && (forall relay :: relay in s.relays ==> RelayAt(s, relay))
  }

  lemma FetchKeepsInv(s: System, step: Step)
    requires Inv(s) && (step.Read? || step.Reclaim?)
    ensures Inv(Next(s, step))
  {
    var t := Next(s, step);
    RangeMembers(s.delivered, t.delivered);
    forall id | 0 <= id < |t.written| ensures EntryAt(t, id) { assert EntryAt(s, id); }
    forall relay | relay in t.relays ensures RelayAt(t, relay) {
      assert relay in s.relays ==> RelayAt(s, relay);
    }
  }

  lemma PublishKeepsInv(s: System, step: Step)
    requires Inv(s) && (step.SkipMalformed? || step.SendOk? || step.Crash?)
    ensures Inv(Next(s, step))
  {
    var t := Next(s, step);
    forall id | 0 <= id < |t.written| ensures EntryAt(t, id) { assert EntryAt(s, id); }
    forall relay | relay in t.relays ensures RelayAt(t, relay) {
      assert relay in s.relays ==> RelayAt(s, relay);
    }
  }

  lemma AcknowledgeKeepsInv(s: System, step: Step)
    requires Inv(s) && step.Acknowledge?
    ensures Inv(Next(s, step))
  {
    var t := Next(s, step);
    forall id | 0 <= id < |t.written| ensures EntryAt(t, id) {
      assert EntryAt(s, id);
      assert step.relay in s.relays ==> RelayAt(s, step.relay);
    }
    forall relay | relay in t.relays ensures RelayAt(t, relay) {
      assert relay in s.relays ==> RelayAt(s, relay);
    }
  }

  lemma WriteKeepsInv(s: System, step: Step)
    requires Inv(s) && step.Write?
    ensures Inv(Next(s, step))
  {
    var t := Next(s, step);
    forall id | 0 <= id < |t.written| ensures EntryAt(t, id) {
      assert id < |s.written| ==> EntryAt(s, id);
    }
    forall relay | relay in t.relays ensures RelayAt(t, relay) {
      assert RelayAt(s, relay);
    }
  }

  lemma StepKeepsInv(s: System, step: Step)
    requires Inv(s)
    ensures Inv(Next(s, step))
  {
    match step
    case Write(_) => WriteKeepsInv(s, step);
    case Read(_, _) => FetchKeepsInv(s, step);
    case Reclaim(_, _) => FetchKeepsInv(s, step);
    case SkipMalformed(_) => PublishKeepsInv(s, step);
    case SendOk(_) => PublishKeepsInv(s, step);
    case Crash(_) => PublishKeepsInv(s, step);
    case Acknowledge(_) => AcknowledgeKeepsInv(s, step);
  }

  lemma {:induction false} ExecKeepsInv(s: System, steps: seq<Step>)
    requires Inv(s)
    ensures Inv(Exec(s, steps))
    decreases |steps|
  {
    if steps != [] {
      StepKeepsInv(s, steps[0]);
      ExecKeepsInv(Next(s, steps[0]), steps[1..]);
    }
  }

  // ---------------------------------------------------------------- at least once

  /**
   However many relays crash, and whenever: every entry ever written is acknowledged by
   Kafka or still in the outbox, where it is either not handed out yet or can be claimed
   again; malformed entries always are.
   */
  lemma AtLeastOnce(steps: seq<Step>, id: nat)
    requires id < |Exec(Start(), steps).written|
    ensures var s := Exec(Start(), steps);
            && (id in s.kafka || (id in s.outbox && (s.delivered <= id || id in s.pending)))
            && (s.written[id].Malformed? ==> id in s.outbox)
  {
    ExecKeepsInv(Start(), steps);
    assert EntryAt(Exec(Start(), steps), id);
  }

  /** And Kafka receives nothing that was not written. */
  lemma NothingInvented(steps: seq<Step>, i: nat)
    requires i < |Exec(Start(), steps).kafka|
    ensures var s := Exec(Start(), steps);
            s.kafka[i] < |s.written| && s.written[s.kafka[i]].Event?
  {
    ExecKeepsInv(Start(), steps);
    assert EntryAt(Exec(Start(), steps), Exec(Start(), steps).kafka[i]);
  }

  /** A relay that fetched an entry and died blocks nobody: an idle relay can finish the work. */
  lemma PendingEntryIsRecoverable(s: System, id: nat, relay: nat)
    requires Inv(s) && id in s.pending && s.written[id].Event? && Free(s, relay)
    ensures var t := Exec(s, [Reclaim(relay, [id]), SendOk(relay), Acknowledge(relay)]);
            id in t.kafka && id !in t.outbox && id !in t.pending
  {
    var steps := [Reclaim(relay, [id]), SendOk(relay), Acknowledge(relay)];
    var a := Next(s, steps[0]);
    assert a.relays[relay] == Holding([id]) && id in a.pending;
    var b := Next(a, steps[1]);
    assert b.relays[relay] == Sent([id]) && id in b.kafka;
    var c := Next(b, steps[2]);
    assert Exec(s, steps) == Exec(a, steps[1..]) && steps[1..][0] == steps[1];
    assert Exec(a, steps[1..]) == Exec(b, steps[1..][1..]) && steps[1..][1..] == steps[2..];
    assert Exec(b, steps[2..]) == Exec(c, steps[2..][1..]) && steps[2..][1..] == [];
  }

  lemma FetchedIsPending(s: System, relay: nat, id: nat)
    requires Inv(s) && s.delivered <= id < |s.written| && Free(s, relay)
    ensures var t := Next(Next(s, Read(relay, id + 1)), Crash(relay));
            && Inv(t) && t.written == s.written && id in t.pending && LocalOf(t, relay).Idle?
  {
    var t := Next(s, Read(relay, id + 1));
    StepKeepsInv(s, Read(relay, id + 1));
    StepKeepsInv(t, Crash(relay));
    RangeMembers(s.delivered, Min(s.delivered + id + 1, |s.written|));
  }

  /** In every reachable state any relay that is not busy can bring a well-formed entry to Kafka, whoever had it. */
  lemma EveryEntryCanBePublished(steps: seq<Step>, id: nat, relay: nat) returns (more: seq<Step>)
    requires var s := Exec(Start(), steps); id < |s.written| && s.written[id].Event? && Free(s, relay)
    ensures id in Exec(Exec(Start(), steps), more).kafka
    ensures forall i :: 0 <= i < |more| ==> !more[i].Write? && more[i].relay == relay
  {
    var s := Exec(Start(), steps);
    ExecKeepsInv(Start(), steps);
    assert EntryAt(s, id);
    var publish := [Reclaim(relay, [id]), SendOk(relay), Acknowledge(relay)];
    if id in s.kafka {
      more := [];
    } else if id in s.pending {
      more := publish;
      PendingEntryIsRecoverable(s, id, relay);
    } else {
      var t := Next(Next(s, Read(relay, id + 1)), Crash(relay));
      more := [Read(relay, id + 1), Crash(relay)] + publish;
      FetchedIsPending(s, relay, id);
      PendingEntryIsRecoverable(t, id, relay);
      ExecConcat(s, [Read(relay, id + 1)] + [Crash(relay)], publish);
      ExecConcat(s, [Read(relay, id + 1)], [Crash(relay)]);
      ExecOne(s, Read(relay, id + 1));
      ExecOne(Next(s, Read(relay, id + 1)), Crash(relay));
      assert more == [Read(relay, id + 1)] + [Crash(relay)] + publish;
    }
  }

  /** Not exactly once: an entry reclaimed from a slow relay is published by both. */
  lemma SlowRelayDuplicates(body: string)
    ensures var s1 := Next(Next(Start(), Write(Event(body))), Read(1, 1));
            var s2 := Next(Next(Next(s1, Reclaim(2, [0])), SendOk(2)), Acknowledge(2));
            var s3 := Next(s2, SendOk(1));
            && s3.kafka == [0, 0] && s3.outbox == {}
            && !AckAndDelete(s3, 1).1
  {
    var s1 := Next(Next(Start(), Write(Event(body))), Read(1, 1));
    RangeMembers(0, 1);
    assert s1.relays[1].queue == [0] && 0 in s1.pending && s1.outbox == {0} && s1.kafka == [];
    ReclaimedIsPublished(s1, 2, 0);
  }

  lemma ReclaimedIsPublished(s: System, relay: nat, id: nat)
    requires LocalOf(s, relay).Idle? && id in s.pending && id < |s.written| && s.written[id].Event?
    ensures var t := Next(Next(Next(s, Reclaim(relay, [id])), SendOk(relay)), Acknowledge(relay));
            && t.kafka == s.kafka + [id] && t.outbox == s.outbox - {id} && t.pending == s.pending - {id}
            && t.written == s.written && t.relays == s.relays[relay := Holding([])]
  {
    var a := Next(s, Reclaim(relay, [id]));
    assert a.relays[relay] == Holding([id]) && a.pending.Keys == s.pending.Keys;
    var b := Next(a, SendOk(relay));
    assert b.relays[relay] == Sent([id]) && [id][1..] == [];
    var t := Next(b, Acknowledge(relay));
    forall x | x in s.pending && x != id ensures t.pending[x] == s.pending[x] {
      assert a.pending[x] == s.pending[x];
    }
  }

  // ---------------------------------------------------------------- the publish loop

  /** Steps that leave this relay alone. */
  ghost predicate Others(steps: seq<Step>, relay: nat) {
    forall i :: 0 <= i < |steps| ==> steps[i].Write? || steps[i].relay != relay
  }

  /** Other processes never touch a relay's own queue, and forget nothing that was written or acknowledged. */
  lemma {:induction false} OthersStandAside(s: System, steps: seq<Step>, relay: nat)
    requires Inv(s) && Others(steps, relay) && relay in s.relays
    ensures Inv(Exec(s, steps))
    ensures relay in Exec(s, steps).relays && Exec(s, steps).relays[relay] == s.relays[relay]
    ensures s.written <= Exec(s, steps).written && s.kafka <= Exec(s, steps).kafka
    ensures forall id :: id in Exec(s, steps).outbox ==> id in s.outbox || id >= |s.written|
    decreases |steps|
  {
    if steps != [] {
      StepKeepsInv(s, steps[0]);
      OtherStandsAside(s, steps[0], relay);
      OthersStandAside(Next(s, steps[0]), steps[1..], relay);
    }
  }

  lemma OtherStandsAside(s: System, step: Step, relay: nat)
    requires Inv(s) && (step.Write? || step.relay != relay) && relay in s.relays
    ensures relay in Next(s, step).relays && Next(s, step).relays[relay] == s.relays[relay]
    ensures s.written <= Next(s, step).written && s.kafka <= Next(s, step).kafka
    ensures forall id :: id in Next(s, step).outbox ==> id in s.outbox || id >= |s.written|
  {
  }

  lemma {:induction false} ExecConcat(s: System, a: seq<Step>, b: seq<Step>)
    ensures Exec(s, a + b) == Exec(Exec(s, a), b)
    decreases |a|
  {
    if a == [] {
      assert a + b == b;
    } else {
      assert (a + b)[0] == a[0] && (a + b)[1..] == a[1..] + b;
      ExecConcat(Next(s, a[0]), a[1..], b);
    }
  }

  lemma ExecOne(s: System, step: Step)
    ensures Exec(s, [step]) == Next(s, step)
  {
    assert [step][1..] == [];
  }

  /** Nothing but one relay's own doings, and what Kafka holds, tells these apart. */
  ghost predicate AlikeToOthers(s: System, t: System, relay: nat) {
    && s.written == t.written && s.outbox == t.outbox && s.delivered == t.delivered && s.pending == t.pending
    && forall other :: other != relay ==> LocalOf(s, other) == LocalOf(t, other)
  }

  lemma OtherActsAlike(s: System, t: System, step: Step, relay: nat)
    requires AlikeToOthers(s, t, relay) && (step.Write? || step.relay != relay)
    ensures AlikeToOthers(Next(s, step), Next(t, step), relay)
  {
    if !step.Write? {
      assert LocalOf(s, step.relay) == LocalOf(t, step.relay);
      ActsOnItself(s, step);
      ActsOnItself(t, step);
      OwnEffectAlike(s, t, step);
    } else {
      assert Next(s, step).relays == s.relays && Next(t, step).relays == t.relays;
      forall other | other != relay ensures LocalOf(Next(s, step), other) == LocalOf(Next(t, step), other) {
        assert LocalOf(s, other) == LocalOf(t, other);
      }
    }
  }

  lemma ActsOnItself(s: System, step: Step)
    requires !step.Write?
    ensures forall other :: other != step.relay ==> LocalOf(Next(s, step), other) == LocalOf(s, other)
  {
  }

  lemma OwnEffectAlike(s: System, t: System, step: Step)
    requires !step.Write? && LocalOf(s, step.relay) == LocalOf(t, step.relay)
    requires s.written == t.written && s.outbox == t.outbox && s.delivered == t.delivered && s.pending == t.pending
    ensures var s', t' := Next(s, step), Next(t, step);
            && s'.written == t'.written && s'.outbox == t'.outbox && s'.delivered == t'.delivered
            && s'.pending == t'.pending && LocalOf(s', step.relay) == LocalOf(t', step.relay)
  {
  }

  /** What other processes do to the outbox does not depend on what this relay has sent. */
  lemma {:induction false} OthersActAlike(s: System, t: System, steps: seq<Step>, relay: nat)
    requires AlikeToOthers(s, t, relay) && Others(steps, relay)
    ensures AlikeToOthers(Exec(s, steps), Exec(t, steps), relay)
    decreases |steps|
  {
    if steps != [] {
      OtherActsAlike(s, t, steps[0], relay);
      OthersActAlike(Next(s, steps[0]), Next(t, steps[0]), steps[1..], relay);
    }
  }

  /** Whether an entry is pending when it is acknowledged is decided by what others did meanwhile. */
  lemma PendingWhenAcknowledged(s: System, relay: nat, before: seq<Step>, after: seq<Step>)
    requires Others(after, relay)
    ensures Exec(Next(Exec(s, before), SendOk(relay)), after).pending == Exec(s, before + after).pending
  {
    var held := Exec(s, before);
    ExecConcat(s, before, after);
    OthersActAlike(Next(held, SendOk(relay)), held, after, relay);
  }

  /** What happens while a relay publishes one entry: others act, and it sends, waits and acknowledges, or gives up. */
  function Publishing(relay: nat, send: bool, before: seq<Step>, after: seq<Step>): seq<Step> {
    before + if send then [SendOk(relay)] + after + [Acknowledge(relay)] else [Crash(relay)]
  }

  lemma PublishingSteps(s: System, relay: nat, before: seq<Step>, after: seq<Step>)
    ensures Exec(s, Publishing(relay, true, before, after)) ==
            Next(Exec(Next(Exec(s, before), SendOk(relay)), after), Acknowledge(relay))
    ensures Exec(s, Publishing(relay, false, before, after)) == Next(Exec(s, before), Crash(relay))
  {
    var held := Exec(s, before);
    ExecConcat(s, before, [SendOk(relay)] + after + [Acknowledge(relay)]);
    ExecConcat(held, [SendOk(relay)] + after, [Acknowledge(relay)]);
    ExecConcat(held, [SendOk(relay)], after);
    ExecConcat(s, before, [Crash(relay)]);
    ExecOne(held, SendOk(relay));
    ExecOne(held, Crash(relay));
    ExecOne(Exec(Next(held, SendOk(relay)), after), Acknowledge(relay));
  }

  /** A relay that nobody disturbs takes nothing but its own entry off the pending list. */
  lemma PublishedAlone(s: System, relay: nat, id: nat, rest: seq<nat>)
    requires relay in s.relays && s.relays[relay] == Holding([id] + rest)
    requires id < |s.written| && s.written[id].Event? && id in s.pending
    ensures Exec(s, Publishing(relay, true, [], [])).pending == s.pending - {id}
  {
    PublishingSteps(s, relay, [], []);
    var sent := Next(s, SendOk(relay));
    assert sent.relays[relay] == Sent([id] + rest) && sent.pending == s.pending;
  }

  /** What happens while it goes through the first `n` entries of its batch. */
  function Batch(written: seq<Entry>, relay: nat, queue: seq<nat>, sends: seq<bool>,
                 others: seq<(seq<Step>, seq<Step>)>, n: nat): seq<Step>
    requires n <= |queue| == |sends| == |others| && forall i :: 0 <= i < |queue| ==> queue[i] < |written|
  {
    if n == 0 then []
    else Batch(written, relay, queue, sends, others, n - 1)
         + if written[queue[n - 1]].Malformed? then [SkipMalformed(relay)]
           else Publishing(relay, sends[n - 1], others[n - 1].0, others[n - 1].1)
  }

  function WellFormed(written: seq<Entry>, queue: seq<nat>, n: nat): nat
    requires n <= |queue| && forall i :: 0 <= i < |queue| ==> queue[i] < |written|
  {
    if n == 0 then 0 else WellFormed(written, queue, n - 1) + if written[queue[n - 1]].Event? then 1 else 0
  }

  ghost predicate AllPending(s: System, queue: seq<nat>, from: nat) {
    && (forall i :: from <= i < |queue| ==> queue[i] in s.pending)
    && (forall i, j :: 0 <= i < j < |queue| ==> queue[i] != queue[j])
  }

  lemma BatchGoesOn(begun: System, s: System, t: System, relay: nat, queue: seq<nat>, sends: seq<bool>,
                    others: seq<(seq<Step>, seq<Step>)>, n: nat, published: nat)
    requires Reached(begun, s, relay, queue, sends, others, n, published)
    requires n < |queue| && begun.written[queue[n]].Event?
    requires t == Exec(s, Publishing(relay, sends[n], others[n].0, others[n].1)) && KeepsFacts(s, t)
    ensures t == Exec(begun, Batch(begun.written, relay, queue, sends, others, n + 1)) && KeepsFacts(begun, t)
    ensures forall j :: 0 <= j < n ==> Settled(t, queue[j])
  {
    ExecConcat(begun, Batch(begun.written, relay, queue, sends, others, n),
               Publishing(relay, sends[n], others[n].0, others[n].1));
  }

  /** A relay has gone through `n` entries of the batch it began with. */
  ghost predicate Reached(begun: System, s: System, relay: nat, queue: seq<nat>, sends: seq<bool>,
                          others: seq<(seq<Step>, seq<Step>)>, n: nat, published: nat)
  {
    && n <= |queue| == |sends| == |others| && (forall j :: 0 <= j < |queue| ==> queue[j] < |begun.written|)
    && Inv(s) && KeepsFacts(begun, s) && relay in s.relays && s.relays[relay] == Holding(queue[n..])
    && s == Exec(begun, Batch(begun.written, relay, queue, sends, others, n))
    && published == WellFormed(begun.written, queue, n)
    && forall j :: 0 <= j < n ==> Settled(s, queue[j]) && (sends[j] || begun.written[queue[j]].Malformed?)
  }

  /** The relay and its batch were left alone, and every send succeeded. */
  ghost predicate Alone(s: System, queue: seq<nat>, sends: seq<bool>, others: seq<(seq<Step>, seq<Step>)>) {
    AllPending(s, queue, 0) && |sends| == |others| && forall i :: 0 <= i < |sends| ==> sends[i] && others[i] == ([], [])
  }

  lemma MalformedIsSkipped(begun: System, s: System, relay: nat, queue: seq<nat>, sends: seq<bool>,
                           others: seq<(seq<Step>, seq<Step>)>, n: nat, published: nat)
    requires Reached(begun, s, relay, queue, sends, others, n, published)
    requires n < |queue| && queue[n] < |s.written| && s.written[queue[n]].Malformed?
    ensures Reached(begun, Next(s, SkipMalformed(relay)), relay, queue, sends, others, n + 1, published)
    ensures Next(s, SkipMalformed(relay)).pending == s.pending
  {
    var t := Next(s, SkipMalformed(relay));
    assert queue[n..] == [queue[n]] + queue[n + 1..];
    SettledMalformed(s, queue[n]);
    StepKeepsInv(s, SkipMalformed(relay));
    ExecConcat(begun, Batch(begun.written, relay, queue, sends, others, n), [SkipMalformed(relay)]);
    ExecOne(s, SkipMalformed(relay));
    assert forall id :: Settled(s, id) ==> Settled(t, id);
  }

  lemma EntryIsPublished(begun: System, s: System, t: System, relay: nat, queue: seq<nat>, sends: seq<bool>,
                         others: seq<(seq<Step>, seq<Step>)>, n: nat, published: nat)
    requires Reached(begun, s, relay, queue, sends, others, n, published)
    requires n < |queue| && begun.written[queue[n]].Event? && sends[n] && Inv(t) && KeepsFacts(s, t)
    requires t == Exec(s, Publishing(relay, sends[n], others[n].0, others[n].1)) && Settled(t, queue[n])
    requires relay in t.relays && t.relays[relay] == Holding(queue[n + 1..])
    ensures Reached(begun, t, relay, queue, sends, others, n + 1, published + 1)
  {
    BatchGoesOn(begun, s, t, relay, queue, sends, others, n, published);
    EarlierSends(begun, s, relay, queue, sends, others, n, published);
  }

  lemma EarlierSends(begun: System, s: System, relay: nat, queue: seq<nat>, sends: seq<bool>,
                     others: seq<(seq<Step>, seq<Step>)>, n: nat, published: nat)
    requires Reached(begun, s, relay, queue, sends, others, n, published)
    ensures forall j :: 0 <= j < n ==> sends[j] || begun.written[queue[j]].Malformed?
  {
  }

  /** The shared outbox and broker, as the relays use them. */
  class Broker {
    var state: System

    constructor ()
      ensures state == Start() && Inv(state)
    {
      state := Start();
    }

    /** Everything other processes do while this one awaits a reply. */
    method Await(others: seq<Step>)
      modifies this
      ensures state == Exec(old(state), others)
    {
      state := Exec(state, others);
    }

    /**
     One entry of `_publish_entries`: send, and only then acknowledge and delete. It succeeds exactly
     when the send does and nobody else has acknowledged the entry by then; a send that succeeds adds
     the entry to Kafka in any case.
     */
    method PublishOne(relay: nat, ghost id: nat, ghost rest: seq<nat>, send: bool, before: seq<Step>, after: seq<Step>)
      returns (ok: bool)
      requires Inv(state) && relay in state.relays && state.relays[relay] == Holding([id] + rest)
      requires id < |state.written| && state.written[id].Event?
      requires Others(before, relay) && Others(after, relay)
      modifies this
      ensures Inv(state) && KeepsFacts(old(state), state)
      ensures state == Exec(old(state), Publishing(relay, send, before, after))
      ensures ok <==> send && id in Exec(old(state), before + after).pending
      ensures send ==> var n := |Exec(old(state), before).kafka|; n < |state.kafka| && state.kafka[n] == id
      ensures ok ==> Settled(state, id) && relay in state.relays && state.relays[relay] == Holding(rest)
      ensures !ok ==> LocalOf(state, relay).Idle? && (send ==> id in state.kafka && id !in state.pending)
    {
      ghost var start := state;
      PublishingSteps(start, relay, before, after);
      PendingWhenAcknowledged(start, relay, before, after);
      OthersKeepFacts(state, before, relay);
      Await(before);
      ghost var held := state;
      if !send {
        StepKeepsInv(state, Crash(relay));
        state := Next(state, Crash(relay));
        return false;
      }
      SendAdds(state, relay, id, rest);
      state := Next(state, SendOk(relay));
      ghost var sent := state;
      OthersKeepFacts(state, after, relay);
      Await(after);
      StepKeepsInv(state, Acknowledge(relay));
      AcknowledgeSettles(state, relay, id, rest);
      var reply := AckAndDelete(state, relay);
      state := reply.0;
      ok := reply.1;
    }

    /** The next entry of a batch, when it is well-formed. */
    method PublishNext(ghost begun: System, relay: nat, queue: seq<nat>, sends: seq<bool>,
                       others: seq<(seq<Step>, seq<Step>)>, n: nat, ghost published: nat)
      returns (ok: bool)
      requires Reached(begun, state, relay, queue, sends, others, n, published)
      requires n < |queue| && begun.written[queue[n]].Event?
      requires Others(others[n].0, relay) && Others(others[n].1, relay)
      modifies this
      ensures ok ==> Reached(begun, state, relay, queue, sends, others, n + 1, published + 1)
      ensures !ok ==>
                && Inv(state) && KeepsFacts(begun, state) && LocalOf(state, relay).Idle?
                && BatchEnded(begun, state, relay, queue, sends, others, published, false, n)
      ensures sends[n] && others[n] == ([], []) && AllPending(old(state), queue, n) ==> ok && AllPending(state, queue, n + 1)
    {
      assert queue[n..] == [queue[n]] + queue[n + 1..];
      ghost var before := state;
      ok := PublishOne(relay, queue[n], queue[n + 1..], sends[n], others[n].0, others[n].1);
      if ok {
        EntryIsPublished(begun, before, state, relay, queue, sends, others, n, published);
      } else {
        BatchGoesOn(begun, before, state, relay, queue, sends, others, n, published);
        EarlierSends(begun, before, relay, queue, sends, others, n, published);
      }
      if sends[n] && others[n] == ([], []) && AllPending(before, queue, n) {
        PublishedAlone(before, relay, queue[n], queue[n + 1..]);
      }
    }

    /**
     `_publish_entries`: the fetched entries in order; `sends[i]` is the outcome of the i-th
     send. It ends early exactly at a send that fails or an entry that somebody else has
     acknowledged, and the relay then starts over; `stop` entries were gone through before that.
     Malformed entries are passed over and stay where they are.
     */
    method PublishEntries(relay: nat, sends: seq<bool>, others: seq<(seq<Step>, seq<Step>)>)
      returns (published: nat, ok: bool, ghost stop: nat)
      requires Inv(state) && LocalOf(state, relay).Holding?
      requires |sends| == |others| == |LocalOf(state, relay).queue|
      requires forall i :: 0 <= i < |others| ==> Others(others[i].0, relay) && Others(others[i].1, relay)
      modifies this
      ensures Inv(state) && KeepsFacts(old(state), state)
      ensures LocalOf(state, relay) == if ok then Holding([]) else Idle
      ensures BatchEnded(old(state), state, relay, LocalOf(old(state), relay).queue, sends, others, published, ok, stop)
      ensures Alone(old(state), LocalOf(old(state), relay).queue, sends, others) ==> ok
    {
      var queue := state.relays[relay].queue;
      ghost var begun := state;
      published := 0;
      assert RelayAt(state, relay) && queue[0..] == queue;
      for i := 0 to |queue|
        invariant Reached(begun, state, relay, queue, sends, others, i, published)
        invariant Alone(begun, queue, sends, others) ==> AllPending(state, queue, i)
      {
        assert queue[i..] == [queue[i]] + queue[i + 1..];
        if state.written[queue[i]].Malformed? {
          MalformedIsSkipped(begun, state, relay, queue, sends, others, i, published);
          state := Next(state, SkipMalformed(relay));
        } else {
          var sent := PublishNext(begun, relay, queue, sends, others, i, published);
          if !sent {
            return published, false, i;
          }
          published := published + 1;
        }
      }
      return published, true, |queue|;
    }
  }

  /**
   How a batch ends: the first `stop` entries are settled, of which `published` were well-formed, and
   either that is all of them or the next one failed. What happened is a run of the relays' own steps.
   */
  ghost predicate BatchEnded(begun: System, s: System, relay: nat, queue: seq<nat>, sends: seq<bool>,
                             others: seq<(seq<Step>, seq<Step>)>, published: nat, ok: bool, stop: nat)
  {
    && stop <= |queue| == |sends| == |others| && (ok <==> stop == |queue|)
    && (forall i :: 0 <= i < |queue| ==> queue[i] < |begun.written|)
    && s == Exec(begun, Batch(begun.written, relay, queue, sends, others, if ok then stop else stop + 1))
    && published == WellFormed(begun.written, queue, stop)
    && (forall i :: 0 <= i < stop ==> Settled(s, queue[i]) && (sends[i] || begun.written[queue[i]].Malformed?))
    && (!ok ==> begun.written[queue[stop]].Event? && FailedAt(s, queue[stop], sends[stop]))
  }

  /** Why publishing an entry failed: the send did, or somebody else had acknowledged it, and then Kafka has it. */
  ghost predicate FailedAt(s: System, id: nat, send: bool) {
    send ==> id in s.kafka && id !in s.pending
  }

  /** An entry that has been dealt with: gone and acknowledged, or malformed and kept. */
  ghost predicate Settled(s: System, id: nat) {
    && id < |s.written|
    && (if s.written[id].Malformed? then id in s.outbox else id in s.kafka && id !in s.outbox)
  }

  /** Nothing written or acknowledged is forgotten, and settled entries stay settled. */
  ghost predicate KeepsFacts(s: System, t: System) {
    && s.written <= t.written && s.kafka <= t.kafka
    && forall id :: Settled(s, id) ==> Settled(t, id)
  }

  lemma OthersKeepFacts(s: System, steps: seq<Step>, relay: nat)
    requires Inv(s) && Others(steps, relay) && relay in s.relays
    ensures Inv(Exec(s, steps)) && KeepsFacts(s, Exec(s, steps))
    ensures relay in Exec(s, steps).relays && Exec(s, steps).relays[relay] == s.relays[relay]
  {
    OthersStandAside(s, steps, relay);
    var t := Exec(s, steps);
    forall id | Settled(s, id) ensures Settled(t, id) {
      assert EntryAt(t, id);
    }
  }

  lemma SendAdds(s: System, relay: nat, id: nat, rest: seq<nat>)
    requires Inv(s) && relay in s.relays && s.relays[relay] == Holding([id] + rest)
    requires id < |s.written| && s.written[id].Event?
    ensures var t := Next(s, SendOk(relay));
            && Inv(t) && relay in t.relays && t.relays[relay] == Sent([id] + rest)
            && t.kafka == s.kafka + [id] && KeepsFacts(s, t)
  {
    StepKeepsInv(s, SendOk(relay));
  }

  lemma AcknowledgeSettles(s: System, relay: nat, id: nat, rest: seq<nat>)
    requires Inv(s) && relay in s.relays && s.relays[relay] == Sent([id] + rest)
    requires id < |s.written| && s.written[id].Event?
    ensures var reply := AckAndDelete(s, relay);
            && reply.0 == Next(s, Acknowledge(relay)) && KeepsFacts(s, reply.0)
            && (if reply.1 then Settled(reply.0, id) && reply.0.relays[relay] == Holding(rest)
                else LocalOf(reply.0, relay).Idle?)
  {
    assert RelayAt(s, relay) && EntryAt(s, id);
  }

  lemma SettledMalformed(s: System, id: nat)
    requires Inv(s) && id < |s.written| && s.written[id].Malformed?
    ensures Settled(s, id)
  {
    assert EntryAt(s, id);
  }
}
