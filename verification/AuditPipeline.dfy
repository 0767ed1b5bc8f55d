/**
 The two halves of the audit trail together: the scripts write the outbox, the relays empty it into
 Kafka, and instances and relays interleave and crash as they please.
 */
module AuditPipeline {
  import opened Registry
  import opened RegistryInvariant
  import opened RegistryLog
  import Relay = KafkaRelay

  /** Whether an outbox entry decodes, and as what, is a fixed function of the entry. */
  type Decoder = Audit -> Relay.Entry

  datatype Pipeline = Pipeline(store: Store, relay: Relay.System)

  datatype Step = Script(op: Op) | RelayStep(step: Relay.Step)

  function Begin(now: nat): Pipeline {
    Pipeline(EmptyStore(now), Relay.Start())
  }

  /** The XADDs of one script. */
  function WriteAll(system: Relay.System, entries: seq<Audit>, decode: Decoder): Relay.System
    decreases |entries|
  {
    if entries == [] then system
    else WriteAll(Relay.Next(system, Relay.Write(decode(entries[0]))), entries[1..], decode)
  }

  /** One atomic step; only scripts write to the outbox. */
  function Advance(p: Pipeline, step: Step, decode: Decoder): Pipeline {
    match step
    case Script(op) =>
      var store := Next(p.store, op);
      var written := if |p.store.audit| <= |store.audit| then store.audit[|p.store.audit|..] else [];
      Pipeline(store, WriteAll(p.relay, written, decode))
    case RelayStep(r) =>
      if r.Write? then p else p.(relay := Relay.Next(p.relay, r))
  }

  function Exec(p: Pipeline, steps: seq<Step>, decode: Decoder): Pipeline
    decreases |steps|
  {
    if steps == [] then p else Exec(Advance(p, steps[0], decode), steps[1..], decode)
  }

  /** The outbox holds what the scripts wrote, entry for entry, and the relays keep their invariant. */
  ghost predicate Coupled(p: Pipeline, decode: Decoder) {
    && Relay.Inv(p.relay) && |p.relay.written| == |p.store.audit|
    && forall i :: 0 <= i < |p.store.audit| ==> p.relay.written[i] == decode(p.store.audit[i])
  }

  lemma {:induction false} WriteAllWrites(system: Relay.System, entries: seq<Audit>, decode: Decoder)
    requires Relay.Inv(system)
    ensures var after := WriteAll(system, entries, decode);
            && Relay.Inv(after) && |after.written| == |system.written| + |entries|
            && system.written <= after.written
            && forall i :: 0 <= i < |entries| ==> after.written[|system.written| + i] == decode(entries[i])
    decreases |entries|
  {
    if entries != [] {
      var next := Relay.Next(system, Relay.Write(decode(entries[0])));
      Relay.StepKeepsInv(system, Relay.Write(decode(entries[0])));
      WriteAllWrites(next, entries[1..], decode);
      var after := WriteAll(system, entries, decode);
      forall i | 0 <= i < |entries| ensures after.written[|system.written| + i] == decode(entries[i]) {
        if i > 0 {
          assert after.written[|next.written| + (i - 1)] == decode(entries[1..][i - 1]);
        } else {
          assert after.written[|system.written|] == next.written[|system.written|];
        }
      }
    }
  }

  lemma AdvanceCouples(p: Pipeline, step: Step, decode: Decoder)
    requires Coupled(p, decode)
    ensures Coupled(Advance(p, step, decode), decode)
    ensures p.store.audit <= Advance(p, step, decode).store.audit
  {
    match step
    case Script(op) =>
      AcceptedStepsAreAudited(p.store, op);
      ScriptCouples(p, op, decode);
    case RelayStep(r) =>
      if !r.Write? {
        Relay.StepKeepsInv(p.relay, r);
      }
  }

  lemma ScriptCouples(p: Pipeline, op: Op, decode: Decoder)
    requires Coupled(p, decode) && p.store.audit <= Next(p.store, op).audit
    ensures Coupled(Advance(p, Script(op), decode), decode)
  {
    WritesCouple(p.relay, p.store.audit, Next(p.store, op).audit, decode);
  }

  /** Writing what was appended keeps the outbox equal to the trail. */
  lemma WritesCouple(relay: Relay.System, before: seq<Audit>, after: seq<Audit>, decode: Decoder)
    requires Relay.Inv(relay) && |relay.written| == |before| && before <= after
    requires forall i :: 0 <= i < |before| ==> relay.written[i] == decode(before[i])
    ensures var system := WriteAll(relay, after[|before|..], decode);
            && Relay.Inv(system) && |system.written| == |after|
            && forall i :: 0 <= i < |after| ==> system.written[i] == decode(after[i])
  {
    var system := WriteAll(relay, after[|before|..], decode);
    WriteAllWrites(relay, after[|before|..], decode);
    forall i | 0 <= i < |after| ensures system.written[i] == decode(after[i]) {
      if i < |before| {
        assert system.written[i] == relay.written[i] && after[i] == before[i];
      } else {
        assert system.written[|before| + (i - |before|)] == decode(after[|before|..][i - |before|]);
      }
    }
  }

  lemma {:induction false} ExecCouples(p: Pipeline, steps: seq<Step>, decode: Decoder)
    requires Coupled(p, decode)
    ensures Coupled(Exec(p, steps, decode), decode)
    ensures p.store.audit <= Exec(p, steps, decode).store.audit
    decreases |steps|
  {
    if steps != [] {
      AdvanceCouples(p, steps[0], decode);
      ExecCouples(Advance(p, steps[0], decode), steps[1..], decode);
    }
  }

  /** Where an entry is, in the end: acknowledged by Kafka, or in the outbox, and there for good if it is malformed. */
  ghost predicate Accounted(p: Pipeline, n: nat) {
    && n < |p.relay.written|
    && (n in p.relay.kafka || (n in p.relay.outbox && (p.relay.delivered <= n || n in p.relay.pending)))
    && (p.relay.written[n].Malformed? ==> n in p.relay.outbox)
  }

  /**
   Audit at least once, end to end. Take any accepted create, takeover, start, pause, resume,
   transition or cancel at any point of any run of the whole system: it wrote exactly one lifecycle
   entry in its own atomic step, that entry describes the run as the step left it, and whatever
   scripts, relays and crashes follow, the entry has been acknowledged by Kafka or is still in the
   outbox.
   */
  lemma AuditedAtLeastOnce(now: nat, before: seq<Step>, op: Op, after: seq<Step>, decode: Decoder)
    requires LifecycleAccepted(Exec(Begin(now), before, decode).store, op)
    ensures var p := Exec(Begin(now), before, decode);
            var next := Advance(p, Script(op), decode);
            var end := Exec(next, after, decode);
            var n := |p.store.audit|;
            && LifecycleEntries(next.store.audit) == LifecycleEntries(p.store.audit) + 1
            && n < |end.store.audit| && op.id in next.store.runs
            && Lifecycle(end.store.audit[n].kind) && Describes(end.store.audit[n], op.id, next.store.runs[op.id])
            && Accounted(end, n)
  {
    var p := Exec(Begin(now), before, decode);
    var next := Advance(p, Script(op), decode);
    ExecCouples(Begin(now), before, decode);
    AcceptedStepsAreAudited(p.store, op);
    AdvanceCouples(p, Script(op), decode);
    ExecCouples(next, after, decode);
    EntryAccounted(Exec(next, after, decode), |p.store.audit|, decode);
  }

  lemma EntryAccounted(p: Pipeline, n: nat, decode: Decoder)
    requires Coupled(p, decode) && n < |p.store.audit|
    ensures Accounted(p, n)
  {
    assert Relay.EntryAt(p.relay, n);
  }
}
