/** The repair agent's token budgets: reserve an estimate, call the model, then correct the charge. */
module TokenLedger {
  import opened Prelude

  datatype Status = InFlight | Completed(actual: int) | Failed

  /** An admitted call and how far it got. A process that dies leaves its call in flight. */
  datatype Call = Call(key: string, estimate: nat, status: Status)

  /** `budgets` is the table the agent keeps; `calls` is the history of admitted calls. */
  datatype Ledger = Ledger(budgets: map<string, int>, calls: seq<Call>)

  /** The token totals a response carries, in its usage metadata and in its response metadata. */
  datatype Usage = Usage(total: Option<int>, metadataTotal: Option<int>)

  datatype Step =
    | Reserve(key: string, estimate: nat, limit: int)
    | Finish(call: nat, usage: Usage)
    | Fail(call: nat)

  const EMPTY := Ledger(map[], [])

  const IMAGE_TOKENS := 8192
  const OUTPUT_CAP := 8192

  function Estimate(systemChars: nat, userChars: nat, images: nat): nat {
    var text := (systemChars + userChars) / 3;
    (if text < 1 then 1 else text) + images * IMAGE_TOKENS + OUTPUT_CAP
  }

  /** A missing or zero total falls back to the other report, and then to the estimate itself. */
  function Actual(usage: Usage, estimate: nat): int {
    if usage.total.Some? && usage.total.value != 0 then usage.total.value
    else if usage.metadataTotal.Some? && usage.metadataTotal.value != 0 then usage.metadataTotal.value
    else estimate
  }

  function Charged(l: Ledger, key: string): int {
    if key in l.budgets then l.budgets[key] else 0
  }

  predicate Admitted(l: Ledger, key: string, estimate: nat, limit: int) {
    Charged(l, key) + estimate <= limit
  }

  predicate Pending(l: Ledger, call: nat) {
    call < |l.calls| && l.calls[call].status.InFlight?
  }

  /** One transaction on the budgets table, or a provider failure, which touches no table. */
  function Next(l: Ledger, step: Step): Ledger {
    match step
    case Reserve(key, estimate, limit) =>
      if Admitted(l, key, estimate, limit)
      then Ledger(l.budgets[key := Charged(l, key) + estimate], l.calls + [Call(key, estimate, InFlight)])
      else l
    case Finish(call, usage) =>
      if !Pending(l, call) then l else
      var c := l.calls[call];
      var actual := Actual(usage, c.estimate);
      Ledger(l.budgets[c.key := Charged(l, c.key) + (actual - c.estimate)],
             l.calls[call := c.(status := Completed(actual))])
    case Fail(call) =>
      if !Pending(l, call) then l else
      l.(calls := l.calls[call := l.calls[call].(status := Failed)])
  }

  function Exec(l: Ledger, steps: seq<Step>): Ledger
    decreases |steps|
  {
    if steps == [] then l else Exec(Next(l, steps[0]), steps[1..])
  }

  // ---------------------------------------------------------------- totals over calls

  function Sum(calls: seq<Call>, weight: Call -> int): int {
    if calls == [] then 0 else Sum(calls[..|calls| - 1], weight) + weight(calls[|calls| - 1])
  }

  /** What a call owes: its actual usage once completed, its reservation before that or after a failure. */
  function Owed(c: Call): int {
    if c.status.Completed? then c.status.actual else c.estimate
  }

  /** How far a completed call went beyond its reservation. */
  function Overrun(c: Call): nat {
    if c.status.Completed? && c.status.actual > c.estimate then c.status.actual - c.estimate else 0
  }

  function OwedOn(key: string): Call -> int {
    (c: Call) => if c.key == key then Owed(c) else 0
  }

  function OverrunOn(key: string): Call -> int {
    (c: Call) => if c.key == key then Overrun(c) else 0
  }

  lemma {:induction false} SumAppend(calls: seq<Call>, c: Call, weight: Call -> int)
    ensures Sum(calls + [c], weight) == Sum(calls, weight) + weight(c)
  {
    assert (calls + [c])[..|calls|] == calls;
  }

  lemma {:induction false} SumUpdate(calls: seq<Call>, i: nat, c: Call, weight: Call -> int)
    requires i < |calls|
    ensures Sum(calls[i := c], weight) == Sum(calls, weight) - weight(calls[i]) + weight(c)
  {
    var last := |calls| - 1;
    if i == last {
      assert calls[i := c][..last] == calls[..last];
    } else {
      SumUpdate(calls[..last], i, c, weight);
      assert calls[i := c][..last] == calls[..last][i := c];
    }
  }

  // ---------------------------------------------------------------- conservation

  ghost predicate Conserved(l: Ledger, key: string) {
    Charged(l, key) == Sum(l.calls, OwedOn(key))
  }

  lemma StepConserves(l: Ledger, step: Step, key: string)
    requires Conserved(l, key)
    ensures Conserved(Next(l, step), key)
  {
    match step
    case Reserve(k, estimate, _) => SumAppend(l.calls, Call(k, estimate, InFlight), OwedOn(key));
    case _ =>
      if Pending(l, step.call) {
        SumUpdate(l.calls, step.call, Next(l, step).calls[step.call], OwedOn(key));
      }
  }

  lemma {:induction false} ExecConserves(l: Ledger, steps: seq<Step>, key: string)
    requires Conserved(l, key)
    ensures Conserved(Exec(l, steps), key)
    decreases |steps|
  {
    if steps != [] {
      StepConserves(l, steps[0], key);
      ExecConserves(Next(l, steps[0]), steps[1..], key);
    }
  }

  /**
   The charge on a key is the usage of its completed calls plus the reservations of the calls
   still in flight or failed, however callers interleave.
   */
  lemma ChargeIsConserved(steps: seq<Step>, key: string)
    ensures var l := Exec(EMPTY, steps); Charged(l, key) == Sum(l.calls, OwedOn(key))
  {
    ExecConserves(EMPTY, steps, key);
  }

  // ---------------------------------------------------------------- the limit

  /** No caller of this key asks for more than `limit`. */
  predicate LimitedTo(steps: seq<Step>, key: string, limit: int) {
    forall step :: step in steps && step.Reserve? && step.key == key ==> step.limit <= limit
  }

  lemma StepStaysWithin(l: Ledger, step: Step, key: string, limit: int)
    requires Charged(l, key) <= limit + Sum(l.calls, OverrunOn(key))
    requires 0 <= Sum(l.calls, OverrunOn(key))
    requires step.Reserve? && step.key == key ==> step.limit <= limit
    ensures var n := Next(l, step);
            0 <= Sum(n.calls, OverrunOn(key)) && Charged(n, key) <= limit + Sum(n.calls, OverrunOn(key))
  {
    match step
    case Reserve(k, estimate, _) => SumAppend(l.calls, Call(k, estimate, InFlight), OverrunOn(key));
    case _ =>
      if Pending(l, step.call) {
        SumUpdate(l.calls, step.call, Next(l, step).calls[step.call], OverrunOn(key));
      }
  }

  lemma {:induction false} ExecStaysWithin(l: Ledger, steps: seq<Step>, key: string, limit: int)
    requires Charged(l, key) <= limit + Sum(l.calls, OverrunOn(key))
    requires 0 <= Sum(l.calls, OverrunOn(key)) && LimitedTo(steps, key, limit)
    ensures var n := Exec(l, steps);
            0 <= Sum(n.calls, OverrunOn(key)) && Charged(n, key) <= limit + Sum(n.calls, OverrunOn(key))
    decreases |steps|
  {
    if steps != [] {
      StepStaysWithin(l, steps[0], key, limit);
      ExecStaysWithin(Next(l, steps[0]), steps[1..], key, limit);
    }
  }

  /** A key is never charged more than its limit plus what completed calls used beyond their estimates. */
  lemma ChargeIsBounded(steps: seq<Step>, key: string, limit: nat)
    requires LimitedTo(steps, key, limit)
    ensures var l := Exec(EMPTY, steps); Charged(l, key) <= limit + Sum(l.calls, OverrunOn(key))
  {
    ExecStaysWithin(EMPTY, steps, key, limit);
  }

  /** The overrun term is needed: one call that used more than its estimate puts the key over its limit. */
  lemma OverrunBreaksLimit(key: string, limit: nat, usage: Usage)
    requires limit >= OUTPUT_CAP + 1 && Actual(usage, limit) > limit
    ensures var l := Exec(EMPTY, [Reserve(key, limit, limit), Finish(0, usage)]);
            Charged(l, key) > limit && LimitedTo([Reserve(key, limit, limit), Finish(0, usage)], key, limit)
  {
    var steps := [Reserve(key, limit, limit), Finish(0, usage)];
    assert steps[1..] == [Finish(0, usage)] && steps[1..][1..] == [];
    var first := Next(EMPTY, steps[0]);
    assert Exec(EMPTY, steps) == Exec(Next(first, Finish(0, usage)), []);
  }

  // ---------------------------------------------------------------- refusals

  /** A completion that gives tokens back to the key. */
  predicate Refunds(l: Ledger, step: Step, key: string) {
    && step.Finish? && Pending(l, step.call) && l.calls[step.call].key == key
    && Actual(step.usage, l.calls[step.call].estimate) < l.calls[step.call].estimate
  }

  /**
   Once a request is refused, the same request is refused until some call on that key completes
   below its estimate; the result is the position of that completion.
   */
  lemma {:induction false} RefusalLiftsByRefund(l: Ledger, steps: seq<Step>, key: string, estimate: nat, limit: int)
    returns (i: nat)
    requires !Admitted(l, key, estimate, limit) && Admitted(Exec(l, steps), key, estimate, limit)
    ensures i < |steps| && Refunds(Exec(l, steps[..i]), steps[i], key)
    decreases |steps|
  {
    var n := Next(l, steps[0]);
    if Refunds(l, steps[0], key) {
      i := 0;
      assert steps[..0] == [];
    } else {
      var j := RefusalLiftsByRefund(n, steps[1..], key, estimate, limit);
      i := j + 1;
      assert steps[..i][0] == steps[0] && steps[..i][1..] == steps[1..][..j];
    }
  }

  // ---------------------------------------------------------------- what one call costs

  /**
   An estimate is one token for every three characters, rounded down but at least one, and 8192 for
   each image and for the reply.
   */
  lemma EstimateIsThirdOfText(systemChars: nat, userChars: nat, images: nat)
    ensures var text, chars := Estimate(systemChars, userChars, images) - 8192 * images - 8192, systemChars + userChars;
            && text >= 1 && chars < 3 * text + 3
            && (chars >= 3 ==> 3 * text <= chars) && (chars < 3 ==> text == 1)
  {
  }

  predicate Reported(total: Option<int>) {
    total.Some? && total.value != 0
  }

  /**
   A call that was admitted and completed has cost what the provider reported, in the usage or else in
   the metadata; without a report, or after a failure, it has cost its estimate.
   */
  lemma CallCosts(l: Ledger, key: string, estimate: nat, limit: int, usage: Usage)
    requires Admitted(l, key, estimate, limit)
    ensures var reserved := Next(l, Reserve(key, estimate, limit));
            var cost := Charged(Next(reserved, Finish(|l.calls|, usage)), key) - Charged(l, key);
            && (Reported(usage.total) ==> cost == usage.total.value)
            && (!Reported(usage.total) && Reported(usage.metadataTotal) ==> cost == usage.metadataTotal.value)
            && (!Reported(usage.total) && !Reported(usage.metadataTotal) ==> cost == estimate)
            && Charged(Next(reserved, Fail(|l.calls|)), key) - Charged(l, key) == estimate
  {
  }

  /** Reservations of one caller, one after the other. */
  function Reserving(key: string, estimates: seq<nat>, limit: int): seq<Step> {
    if estimates == [] then [] else [Reserve(key, estimates[0], limit)] + Reserving(key, estimates[1..], limit)
  }

  function Total(estimates: seq<nat>): nat {
    if estimates == [] then 0 else estimates[0] + Total(estimates[1..])
  }

  /** Reservations in a row are all admitted exactly when together with the charge they fit the limit. */
  lemma {:induction false} AllAdmittedIff(l: Ledger, key: string, estimates: seq<nat>, limit: int)
    requires estimates != []
    ensures var n := Exec(l, Reserving(key, estimates, limit));
            && |n.calls| <= |l.calls| + |estimates|
            && (|n.calls| == |l.calls| + |estimates| <==> Charged(l, key) + Total(estimates) <= limit)
            && (Charged(l, key) + Total(estimates) <= limit ==> Charged(n, key) == Charged(l, key) + Total(estimates))
    decreases |estimates|
  {
    var steps, first := Reserving(key, estimates, limit), Next(l, Reserve(key, estimates[0], limit));
    assert steps[0] == Reserve(key, estimates[0], limit) && steps[1..] == Reserving(key, estimates[1..], limit);
    if |estimates| > 1 {
      AllAdmittedIff(first, key, estimates[1..], limit);
    } else {
      assert estimates[1..] == [] && steps[1..] == [];
    }
  }

  /** A reservation on the key, or the completion of one of its pending calls. */
  predicate Concerns(l: Ledger, step: Step, key: string) {
    match step
    case Reserve(k, _, _) => k == key
    case Finish(call, _) => Pending(l, call) && l.calls[call].key == key
    case Fail(_) => false
  }

  ghost predicate NoneConcerns(l: Ledger, steps: seq<Step>, key: string)
    decreases |steps|
  {
    steps != [] ==> !Concerns(l, steps[0], key) && NoneConcerns(Next(l, steps[0]), steps[1..], key)
  }

  /** Whatever has been charged to a key, steps that concern other keys leave it alone. */
  lemma {:induction false} KeysAreIndependent(l: Ledger, steps: seq<Step>, key: string)
    requires NoneConcerns(l, steps, key)
    ensures Charged(Exec(l, steps), key) == Charged(l, key)
    decreases |steps|
  {
    if steps != [] {
      KeysAreIndependent(Next(l, steps[0]), steps[1..], key);
    }
  }

  // ---------------------------------------------------------------- the code

  /** What the provider did with the request. */
  datatype Reply = Raised | Replied(usage: Usage, isText: bool)

  datatype Completion = Canceled | Exhausted | ProviderFailed | NotText | Answered

  class Budgets {
    var budgets: map<string, int>
    ghost var calls: seq<Call>

    ghost function View(): Ledger
      reads this
    {
      Ledger(budgets, calls)
    }

    constructor ()
      ensures View() == EMPTY
    {
      budgets, calls := map[], [];
    }

    /** The first transaction: insert the row if it is missing, then reserve, or refuse and roll back. */
    method Preflight(key: string, estimate: nat, limit: int) returns (admitted: bool)
      modifies this
      ensures admitted == Admitted(old(View()), key, estimate, limit)
      ensures View() == Next(old(View()), Reserve(key, estimate, limit))
    {
      var before := budgets;
      if key !in budgets {
        budgets := budgets[key := 0];
      }
      var used := budgets[key];
      if used + estimate > limit {
        budgets := before;
        return false;
      }
      budgets := budgets[key := budgets[key] + estimate];
      calls := calls + [Call(key, estimate, InFlight)];
      return true;
    }

    /** The second transaction. */
    method Reconcile(key: string, estimate: nat, usage: Usage, ghost call: nat)
      requires Pending(View(), call) && calls[call].key == key && calls[call].estimate == estimate
      modifies this
      ensures View() == Next(old(View()), Finish(call, usage))
    {
      var actual := estimate as int;
      if usage.total.Some? && usage.total.value != 0 {
        actual := usage.total.value;
      } else if usage.metadataTotal.Some? && usage.metadataTotal.value != 0 {
        actual := usage.metadataTotal.value;
      }
      var used := if key in budgets then budgets[key] else 0;
      budgets := budgets[key := used + (actual - estimate)];
      calls := calls[call := calls[call].(status := Completed(actual))];
    }

    /** One uninterrupted call of the returned `complete`. */
    method Complete(canceled: bool, key: string, system: string, user: string, images: nat, limit: int, reply: Reply)
      returns (outcome: Completion)
      modifies this
      ensures outcome == Canceled <==> canceled
      ensures outcome == Exhausted <==>
              !canceled && !Admitted(old(View()), key, Estimate(|system|, |user|, images), limit)
      ensures outcome == ProviderFailed ==>
              reply.Raised? && Charged(View(), key) == Charged(old(View()), key) + Estimate(|system|, |user|, images)
      ensures outcome == NotText || outcome == Answered ==>
              && reply.Replied? && reply.isText == (outcome == Answered)
              && Charged(View(), key) ==
                 Charged(old(View()), key) + Actual(reply.usage, Estimate(|system|, |user|, images))
      ensures outcome == Canceled || outcome == Exhausted ==> Charged(View(), key) == Charged(old(View()), key)
      ensures forall k :: k != key ==> Charged(View(), k) == Charged(old(View()), k)
    {
      if canceled {
        return Canceled;
      }
      var estimate := Estimate(|system|, |user|, images);
      var admitted := Preflight(key, estimate, limit);
      if !admitted {
        return Exhausted;
      }
      ghost var call := |calls| - 1;
      if reply.Raised? {
        calls := calls[call := calls[call].(status := Failed)];
        return ProviderFailed;
      }
      Reconcile(key, estimate, reply.usage, call);
      return if reply.isText then Answered else NotText;
    }
  }
}
