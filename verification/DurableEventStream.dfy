/** The idempotent publish script: a bounded stream, a record hash and an eviction order that must stay in step. */
module DurableEventStream {
  import opened Prelude

  datatype Item = Item(streamId: nat, record: string)

  /** A member of the eviction ZSET: Redis orders by score, then by member. */
  datatype Scored = Scored(score: nat, record: string)

  /** `order` lists the ZSET in rank order. */
  datatype Channel = Channel(stream: seq<Item>, records: map<string, nat>, order: seq<Scored>)

  predicate Less(a: Scored, b: Scored) {
    a.score < b.score || (a.score == b.score && TextBefore(a.record, b.record))
  }

  /** ZADD of a new member. */
  function Insert(order: seq<Scored>, x: Scored): seq<Scored> {
    if order == [] then [x]
    else if Less(x, order[0]) then [x] + order
    else [order[0]] + Insert(order[1..], x)
  }

  function Members(order: seq<Scored>): set<string> {
    set i | 0 <= i < |order| :: order[i].record
  }

  function Published(stream: seq<Item>): set<string> {
    set i | 0 <= i < |stream| :: stream[i].record
  }

  /** One request: the record, the microsecond clock, the stream id XADD would assign, the bound. */
  datatype Request = Request(record: string, clock: nat, streamId: nat, maxlen: nat)

  function Publish(c: Channel, r: Request): (Channel, nat) {
    if r.record in c.records then (c, c.records[r.record])
    else
      var order := Insert(c.order, Scored(r.clock, r.record));
      var records := c.records[r.record := r.streamId];
      var stream := LastN(c.stream + [Item(r.streamId, r.record)], r.maxlen);
      if |order| > r.maxlen
      then (Channel(stream, records - Members(order[..|order| - r.maxlen]), order[|order| - r.maxlen..]), r.streamId)
      else (Channel(stream, records, order), r.streamId)
  }

  function PublishAll(c: Channel, rs: seq<Request>): Channel {
    if rs == [] then c else Publish(PublishAll(c, rs[..|rs| - 1]), rs[|rs| - 1]).0
  }

  const EMPTY := Channel([], map[], [])

  // ---------------------------------------------------------------- the three structures in step

  /** Position by position, stream and order name the same records, each once, and the hash knows its stream id. */
  ghost predicate Aligned(c: Channel) {
    && |c.stream| == |c.order|
    && (forall i :: 0 <= i < |c.order| ==> AlignedAt(c, i))
    && (forall i, j :: 0 <= i < j < |c.order| ==> c.order[i].record != c.order[j].record)
    && c.records.Keys == Members(c.order)
  }

  ghost predicate AlignedAt(c: Channel, i: int)
    requires |c.stream| == |c.order| && 0 <= i < |c.order|
  {
    && c.stream[i].record == c.order[i].record
    && c.order[i].record in c.records && c.records[c.order[i].record] == c.stream[i].streamId
  }

  ghost predicate Agree(c: Channel) {
    c.records.Keys == Published(c.stream)
  }

  /** Every score is below the clock. */
  ghost predicate Earlier(order: seq<Scored>, clock: nat) {
    forall i :: 0 <= i < |order| ==> order[i].score < clock
  }

  lemma {:induction false} InsertLast(order: seq<Scored>, x: Scored)
    requires forall i :: 0 <= i < |order| ==> !Less(x, order[i])
    ensures Insert(order, x) == order + [x]
  {
    if order != [] {
      InsertLast(order[1..], x);
      assert order == [order[0]] + order[1..];
    }
  }

  lemma GrownAligned(c: Channel, r: Request, grown: Channel)
    requires Aligned(c) && r.record !in c.records
    requires grown == Channel(c.stream + [Item(r.streamId, r.record)], c.records[r.record := r.streamId],
                              c.order + [Scored(r.clock, r.record)])
    ensures Aligned(grown)
  {
    forall i | 0 <= i < |c.order| ensures c.order[i].record in c.records && AlignedAt(grown, i) {
      assert AlignedAt(c, i);
    }
    assert grown.order[|c.order|].record == r.record;
    forall m | m in Members(c.order) ensures m in Members(grown.order) {
      var i :| 0 <= i < |c.order| && c.order[i].record == m;
      assert grown.order[i].record == m;
    }
  }

  /** The stream, hash and order of a channel after a new record, before anything is evicted. */
  function Grown(c: Channel, r: Request): Channel {
    Channel(c.stream + [Item(r.streamId, r.record)], c.records[r.record := r.streamId],
            Insert(c.order, Scored(r.clock, r.record)))
  }

  function Evicted(g: Channel, k: nat): Channel
    requires k <= |g.stream| && k <= |g.order|
  {
    Channel(g.stream[k..], g.records - Members(g.order[..k]), g.order[k..])
  }

  /** A publish of a new record adds it to all three, and evicts from each what exceeds the bound. */
  lemma PublishForm(c: Channel, r: Request)
    requires r.record !in c.records && |c.stream| == |c.order|
    ensures var g := Grown(c, r);
            && |g.stream| == |g.order| == |c.order| + 1
            && Publish(c, r) == (TrimmedTo(g, r.maxlen), r.streamId)
  {
    InsertAtRank(c.order, Scored(r.clock, r.record));
  }

  /** What a publish of a new record does when it ranks last. */
  lemma AppendKeepsAligned(c: Channel, r: Request)
    requires Aligned(c) && r.record !in c.records
    requires Insert(c.order, Scored(r.clock, r.record)) == c.order + [Scored(r.clock, r.record)]
    ensures Aligned(Publish(c, r).0)
  {
    var g := Grown(c, r);
    GrownAligned(c, r, g);
    PublishForm(c, r);
    TrimKeepsAligned(g, r.maxlen);
    assert Publish(c, r).0 == TrimmedTo(g, r.maxlen);
  }

  function TrimmedTo(g: Channel, maxlen: nat): Channel
    requires |g.stream| == |g.order|
  {
    if |g.order| > maxlen then Evicted(g, |g.order| - maxlen) else g
  }

  lemma TrimKeepsAligned(g: Channel, maxlen: nat)
    requires Aligned(g)
    ensures Aligned(TrimmedTo(g, maxlen))
  {
    if |g.order| > maxlen {
      DropKeepsAligned(g, |g.order| - maxlen);
    }
  }

  lemma DroppedMembers(order: seq<Scored>, k: nat)
    requires k <= |order|
    requires forall i, j :: 0 <= i < j < |order| ==> order[i].record != order[j].record
    ensures Members(order[k..]) == Members(order) - Members(order[..k])
  {
    forall i | 0 <= i < k ensures order[i].record in Members(order[..k]) {
      assert order[..k][i] == order[i];
    }
    forall m | m in Members(order[k..]) ensures m in Members(order) && m !in Members(order[..k]) {
      var i :| 0 <= i < |order[k..]| && order[k..][i].record == m;
      assert order[i + k].record == m;
    }
    forall m | m in Members(order) - Members(order[..k]) ensures m in Members(order[k..]) {
      var i :| 0 <= i < |order| && order[i].record == m;
      assert order[k..][i - k].record == m;
    }
  }

  lemma DropKeepsAligned(c: Channel, k: nat)
    requires Aligned(c) && k <= |c.order|
    ensures Aligned(Channel(c.stream[k..], c.records - Members(c.order[..k]), c.order[k..]))
  {
    var d := Channel(c.stream[k..], c.records - Members(c.order[..k]), c.order[k..]);
    DroppedMembers(c.order, k);
    assert d.records.Keys == Members(d.order);
    forall i | 0 <= i < |d.order| ensures AlignedAt(d, i) {
      assert AlignedAt(c, i + k);
      assert d.order[i].record in Members(d.order);
    }
  }

  /** A run of publishes under a clock that strictly increases. */
  ghost predicate ClockIncreases(rs: seq<Request>) {
    forall i, j :: 0 <= i < j < |rs| ==> rs[i].clock < rs[j].clock
  }

  lemma {:induction false} ScoresAreClocks(rs: seq<Request>, clock: nat)
    requires forall i :: 0 <= i < |rs| ==> rs[i].clock < clock
    ensures Earlier(PublishAll(EMPTY, rs).order, clock)
  {
    if rs != [] {
      var c, r := PublishAll(EMPTY, rs[..|rs| - 1]), rs[|rs| - 1];
      ScoresAreClocks(rs[..|rs| - 1], clock);
      InsertKeepsEarlier(c.order, Scored(r.clock, r.record), clock);
    }
  }

  lemma {:induction false} InsertKeepsEarlier(order: seq<Scored>, x: Scored, clock: nat)
    requires Earlier(order, clock) && x.score < clock
    ensures Earlier(Insert(order, x), clock)
  {
    if order != [] && !Less(x, order[0]) {
      InsertKeepsEarlier(order[1..], x, clock);
    }
  }

  /**
   After any publishes, with any repeats, the stream, the hash and the order hold the same
   records in the same positions, no record twice.
   */
  lemma {:induction false} PublishesStayAligned(rs: seq<Request>)
    requires ClockIncreases(rs)
    ensures Aligned(PublishAll(EMPTY, rs))
  {
    if rs != [] {
      var init, r := rs[..|rs| - 1], rs[|rs| - 1];
      var c := PublishAll(EMPTY, init);
      PublishesStayAligned(init);
      if r.record !in c.records {
        ScoresAreClocks(init, r.clock);
        InsertLast(c.order, Scored(r.clock, r.record));
        AppendKeepsAligned(c, r);
      }
    }
  }

  lemma AlignedAgree(c: Channel)
    requires Aligned(c)
    ensures Agree(c)
    ensures forall i, j :: 0 <= i < j < |c.stream| ==> c.stream[i].record != c.stream[j].record
  {
    forall i | 0 <= i < |c.stream| ensures c.stream[i].record == c.order[i].record && c.stream[i].record in c.records {
      assert AlignedAt(c, i);
    }
    forall m | m in c.records.Keys ensures m in Published(c.stream) {
      assert m in Members(c.order);
      var i :| 0 <= i < |c.order| && c.order[i].record == m;
      assert c.stream[i].record == m;
    }
  }

  /** With one bound throughout, none of the three ever holds more than the bound. */
  lemma {:induction false} SizeIsBounded(rs: seq<Request>, maxlen: nat)
    requires forall i :: 0 <= i < |rs| ==> rs[i].maxlen == maxlen
    ensures |PublishAll(EMPTY, rs).stream| <= maxlen && |PublishAll(EMPTY, rs).order| <= maxlen
  {
    if rs != [] {
      SizeIsBounded(rs[..|rs| - 1], maxlen);
    }
  }

  // ---------------------------------------------------------------- a clock that stands still

  /** Where an insertion ends up. */
  function Rank(order: seq<Scored>, x: Scored): (p: nat)
    ensures p <= |order|
    ensures forall i :: 0 <= i < p ==> !Less(x, order[i])
    ensures p < |order| ==> Less(x, order[p])
  {
    if order == [] || Less(x, order[0]) then 0 else 1 + Rank(order[1..], x)
  }

  lemma {:induction false} InsertAtRank(order: seq<Scored>, x: Scored)
    ensures Insert(order, x) == order[..Rank(order, x)] + [x] + order[Rank(order, x)..]
  {
    if order != [] && !Less(x, order[0]) {
      InsertAtRank(order[1..], x);
      var p := Rank(order[1..], x);
      assert order[..p + 1] == [order[0]] + order[1..][..p] && order[p + 1..] == order[1..][p..];
    }
  }

  /** No retained record has a later clock, or the same clock and a later name. */
  ghost predicate RanksLast(c: Channel, r: Request) {
    forall i :: 0 <= i < |c.order| ==> !Less(Scored(r.clock, r.record), c.order[i])
  }

  lemma RanksLastIff(c: Channel, r: Request)
    ensures RanksLast(c, r) <==> Rank(c.order, Scored(r.clock, r.record)) == |c.order|
  {
  }

  /** One publish of a new record keeps the three in step, position by position, exactly when it ranks last. */
  lemma StaysAlignedIff(c: Channel, r: Request)
    requires Aligned(c) && r.record !in c.records && r.maxlen >= 1
    ensures Aligned(Publish(c, r).0) <==> RanksLast(c, r)
  {
    var x := Scored(r.clock, r.record);
    RanksLastIff(c, r);
    InsertAtRank(c.order, x);
    if RanksLast(c, r) {
      InsertLast(c.order, x);
      AppendKeepsAligned(c, r);
    } else {
      NewRecordLast(c, r);
    }
  }

  /** A new record ends the stream, but ends the order only when it ranks last. */
  lemma NewRecordLast(c: Channel, r: Request)
    requires Aligned(c) && r.record !in c.records && r.maxlen >= 1 && !RanksLast(c, r)
    ensures !Aligned(Publish(c, r).0)
  {
    var x, after := Scored(r.clock, r.record), Publish(c, r).0;
    RanksLastIff(c, r);
    InsertAtRank(c.order, x);
    assert Insert(c.order, x)[|c.order|] == c.order[|c.order| - 1];
    var n := |after.order|;
    assert after.order[n - 1] == c.order[|c.order| - 1];
    assert c.order[|c.order| - 1].record in Members(c.order);
    assert after.stream[|after.stream| - 1].record == r.record;
    assert Aligned(after) ==> AlignedAt(after, n - 1);
  }

  predicate Retained(c: Channel, r: Request) {
    r.record in c.records
  }

  function Prefix(rs: seq<Request>, n: nat): Channel
    requires n <= |rs|
  {
    PublishAll(EMPTY, rs[..n])
  }

  lemma PrefixStep(rs: seq<Request>, n: nat)
    requires n < |rs|
    ensures Prefix(rs, n + 1) == Publish(Prefix(rs, n), rs[n]).0
  {
    assert rs[..n + 1][..n] == rs[..n];
  }

  ghost predicate AlignedThroughout(rs: seq<Request>) {
    forall n :: 0 <= n <= |rs| ==> Aligned(Prefix(rs, n))
  }

  ghost predicate NewRankLast(rs: seq<Request>) {
    forall n :: 0 <= n < |rs| ==> Retained(Prefix(rs, n), rs[n]) || RanksLast(Prefix(rs, n), rs[n])
  }

  /** Over a whole run of publishes, they stay in step throughout exactly when every new record ranks last. */
  lemma StayAlignedIff(rs: seq<Request>)
    requires forall i :: 0 <= i < |rs| ==> rs[i].maxlen >= 1
    ensures AlignedThroughout(rs) <==> NewRankLast(rs)
  {
    if AlignedThroughout(rs) {
      forall n | 0 <= n < |rs| ensures Retained(Prefix(rs, n), rs[n]) || RanksLast(Prefix(rs, n), rs[n]) {
        PrefixStep(rs, n);
        assert Aligned(Prefix(rs, n)) && Aligned(Prefix(rs, n + 1));
        if !Retained(Prefix(rs, n), rs[n]) {
          StaysAlignedIff(Prefix(rs, n), rs[n]);
        }
      }
    }
    if NewRankLast(rs) {
      forall n | 0 <= n <= |rs| ensures Aligned(Prefix(rs, n)) {
        RankedPrefixAligned(rs, n);
      }
    }
  }

  lemma {:induction false} RankedPrefixAligned(rs: seq<Request>, n: nat)
    requires n <= |rs| && NewRankLast(rs) && forall i :: 0 <= i < |rs| ==> rs[i].maxlen >= 1
    ensures Aligned(Prefix(rs, n))
  {
    if n > 0 {
      RankedPrefixAligned(rs, n - 1);
      PrefixStep(rs, n - 1);
      if !Retained(Prefix(rs, n - 1), rs[n - 1]) {
        StaysAlignedIff(Prefix(rs, n - 1), rs[n - 1]);
      }
    }
  }

  // ---------------------------------------------------------------- the same records, in any order

  ghost predicate DistinctStream(stream: seq<Item>) {
    forall i, j :: 0 <= i < j < |stream| ==> stream[i].record != stream[j].record
  }

  ghost predicate DistinctOrder(order: seq<Scored>) {
    forall i, j :: 0 <= i < j < |order| ==> order[i].record != order[j].record
  }

  /** The three hold the same records, each once, whatever their order. */
  ghost predicate InStep(c: Channel) {
    && |c.stream| == |c.order| && DistinctStream(c.stream) && DistinctOrder(c.order)
    && c.records.Keys == Members(c.order) && Agree(c)
  }

  lemma AlignedIsInStep(c: Channel)
    requires Aligned(c)
    ensures InStep(c)
  {
    AlignedAgree(c);
  }

  /** The lowest-ranked record, the new one included, is the oldest in the stream. */
  predicate EvictsOldest(c: Channel, r: Request) {
    c.stream != [] && Insert(c.order, Scored(r.clock, r.record)) != []
    && Insert(c.order, Scored(r.clock, r.record))[0].record == c.stream[0].record
  }

  lemma MembersPush(first: Scored, rest: seq<Scored>)
    ensures Members([first] + rest) == {first.record} + Members(rest)
  {
    var all := [first] + rest;
    assert all[0] == first && forall i :: 0 <= i < |rest| ==> all[i + 1] == rest[i];
    forall m | m in Members(rest) ensures m in Members(all) {
      var i :| 0 <= i < |rest| && rest[i].record == m;
      assert all[i + 1].record == m;
    }
  }

  lemma DistinctPush(first: Scored, rest: seq<Scored>)
    ensures DistinctOrder([first] + rest) <==> DistinctOrder(rest) && first.record !in Members(rest)
  {
    var all := [first] + rest;
    assert all[0] == first && forall i :: 0 <= i < |rest| ==> all[i + 1] == rest[i];
    if DistinctOrder(all) {
      forall i, j | 0 <= i < j < |rest| ensures rest[i].record != rest[j].record {
        assert all[i + 1].record != all[j + 1].record;
      }
      forall i | 0 <= i < |rest| ensures rest[i].record != first.record {
        assert all[0].record != all[i + 1].record;
      }
    }
  }

  lemma {:induction false} InsertMembers(order: seq<Scored>, x: Scored)
    requires DistinctOrder(order) && x.record !in Members(order)
    ensures |Insert(order, x)| == |order| + 1
    ensures DistinctOrder(Insert(order, x)) && Members(Insert(order, x)) == Members(order) + {x.record}
  {
    if order == [] || Less(x, order[0]) {
      MembersPush(x, order);
      DistinctPush(x, order);
      assert order == [] ==> [x] + order == [x];
    } else {
      var first, rest := order[0], order[1..];
      assert order == [first] + rest;
      MembersPush(first, rest);
      DistinctPush(first, rest);
      InsertMembers(rest, x);
      MembersPush(first, Insert(rest, x));
      DistinctPush(first, Insert(rest, x));
    }
  }

  lemma PublishedPush(stream: seq<Item>, item: Item)
    ensures Published(stream + [item]) == Published(stream) + {item.record}
  {
    var all := stream + [item];
    assert all[|stream|] == item;
    forall m | m in Published(stream) ensures m in Published(all) {
      var i :| 0 <= i < |stream| && stream[i].record == m;
      assert all[i].record == m;
    }
  }

  lemma PublishedTail(stream: seq<Item>)
    requires stream != [] && DistinctStream(stream)
    ensures Published(stream[1..]) == Published(stream) - {stream[0].record} && DistinctStream(stream[1..])
  {
    forall m | m in Published(stream) - {stream[0].record} ensures m in Published(stream[1..]) {
      var i :| 0 <= i < |stream| && stream[i].record == m;
      assert stream[1..][i - 1].record == m;
    }
    forall m | m in Published(stream[1..]) ensures m in Published(stream) - {stream[0].record} {
      var i :| 0 <= i < |stream| - 1 && stream[1..][i].record == m;
      assert stream[i + 1].record == m;
    }
  }

  lemma FirstMember(order: seq<Scored>)
    requires order != []
    ensures Members(order[..1]) == {order[0].record}
  {
    assert order[..1][0] == order[0];
  }

  lemma GrownInStep(c: Channel, r: Request)
    requires InStep(c) && r.record !in c.records
    ensures InStep(Grown(c, r)) && |Grown(c, r).order| == |c.order| + 1
  {
    InsertMembers(c.order, Scored(r.clock, r.record));
    PublishedPush(c.stream, Item(r.streamId, r.record));
    var grown := Grown(c, r);
    forall i, j | 0 <= i < j < |grown.stream| ensures grown.stream[i].record != grown.stream[j].record {
      assert grown.stream[i] == c.stream[i] && c.stream[i].record in Published(c.stream);
    }
  }

  /** Evicting the first of each keeps them in step exactly when the first of each is the same record. */
  lemma EvictOneIff(g: Channel)
    requires InStep(g) && g.order != []
    ensures InStep(Evicted(g, 1)) <==> g.order[0].record == g.stream[0].record
  {
    FirstMember(g.order);
    PublishedTail(g.stream);
    DroppedMembers(g.order, 1);
    assert g.order[0].record in Members(g.order) && g.stream[0].record in Published(g.stream);
    assert Evicted(g, 1).records.Keys == g.records.Keys - {g.order[0].record};
  }

  /**
   The exact condition for the same records to stay in all three: a new record goes into a channel
   that is not full, or the record that ranks lowest is the oldest in the stream.
   */
  lemma StaysInStepIff(c: Channel, r: Request)
    requires InStep(c) && r.record !in c.records && 1 <= r.maxlen && |c.order| <= r.maxlen
    ensures InStep(Publish(c, r).0) <==> |c.order| < r.maxlen || EvictsOldest(c, r)
  {
    GrownInStep(c, r);
    PublishForm(c, r);
    if |c.order| == r.maxlen {
      EvictOneIff(Grown(c, r));
    }
  }

  ghost predicate InStepThroughout(rs: seq<Request>) {
    forall n :: 0 <= n <= |rs| ==> InStep(Prefix(rs, n))
  }

  ghost predicate OldestEvicted(rs: seq<Request>, n: nat)
    requires n < |rs|
  {
    var c := Prefix(rs, n);
    Retained(c, rs[n]) || |c.order| < rs[n].maxlen || EvictsOldest(c, rs[n])
  }

  ghost predicate OldestAlwaysEvicted(rs: seq<Request>) {
    forall n :: 0 <= n < |rs| ==> OldestEvicted(rs, n)
  }

  /** Over a whole run with one bound, the three hold the same records throughout exactly when every eviction takes the oldest. */
  lemma StayInStepIff(rs: seq<Request>, maxlen: nat)
    requires maxlen >= 1 && forall i :: 0 <= i < |rs| ==> rs[i].maxlen == maxlen
    ensures InStepThroughout(rs) <==> OldestAlwaysEvicted(rs)
  {
    if InStepThroughout(rs) {
      forall n | 0 <= n < |rs| ensures OldestEvicted(rs, n) {
        assert InStep(Prefix(rs, n)) && InStep(Prefix(rs, n + 1));
        StepInStepIff(rs, maxlen, n);
      }
    }
    if OldestAlwaysEvicted(rs) {
      forall n | 0 <= n <= |rs| ensures InStep(Prefix(rs, n)) {
        EvictedPrefixInStep(rs, maxlen, n);
      }
    }
  }

  lemma StepInStepIff(rs: seq<Request>, maxlen: nat, n: nat)
    requires maxlen >= 1 && forall i :: 0 <= i < |rs| ==> rs[i].maxlen == maxlen
    requires n < |rs| && InStep(Prefix(rs, n))
    ensures InStep(Prefix(rs, n + 1)) <==> OldestEvicted(rs, n)
  {
    PrefixStep(rs, n);
    SizeIsBounded(rs[..n], maxlen);
    if !Retained(Prefix(rs, n), rs[n]) {
      StaysInStepIff(Prefix(rs, n), rs[n]);
    }
  }

  lemma {:induction false} EvictedPrefixInStep(rs: seq<Request>, maxlen: nat, n: nat)
    requires maxlen >= 1 && forall i :: 0 <= i < |rs| ==> rs[i].maxlen == maxlen
    requires n <= |rs| && OldestAlwaysEvicted(rs)
    ensures InStep(Prefix(rs, n))
  {
    if n > 0 {
      EvictedPrefixInStep(rs, maxlen, n - 1);
      assert OldestEvicted(rs, n - 1);
      StepInStepIff(rs, maxlen, n - 1);
    }
  }

  // ---------------------------------------------------------------- repeats

  /** No later item of the stream has the same record. */
  predicate NewestAt(stream: seq<Item>, i: int)
    requires 0 <= i < |stream|
  {
    forall j :: i < j < |stream| ==> stream[j].record != stream[i].record
  }

  /** What the hash knows of a record that is in the stream is the id of its newest item. */
  ghost predicate Remembers(c: Channel) {
    forall i :: 0 <= i < |c.stream| ==> RemembersAt(c, i)
  }

  ghost predicate RemembersAt(c: Channel, i: int)
    requires 0 <= i < |c.stream|
  {
    NewestAt(c.stream, i) && c.stream[i].record in c.records ==> c.records[c.stream[i].record] == c.stream[i].streamId
  }

  lemma PublishRemembers(c: Channel, r: Request)
    requires Remembers(c)
    ensures Remembers(Publish(c, r).0)
  {
    if r.record !in c.records {
      var next := Publish(c, r).0;
      forall i | 0 <= i < |next.stream| ensures RemembersAt(next, i) {
        ItemRemembered(c, r, next, i);
      }
    }
  }

  /** After a publish of a new record, the hash knows what it knew, as far as it still knows it, and the new id. */
  lemma HashAfter(c: Channel, r: Request, record: string)
    requires r.record !in c.records && record in Publish(c, r).0.records
    ensures record != r.record ==> record in c.records
    ensures Publish(c, r).0.records[record] == if record == r.record then r.streamId else c.records[record]
  {
  }

  lemma ItemRemembered(c: Channel, r: Request, next: Channel, i: nat)
    requires Remembers(c) && r.record !in c.records && next == Publish(c, r).0 && i < |next.stream|
    ensures RemembersAt(next, i)
  {
    var all := c.stream + [Item(r.streamId, r.record)];
    var k := |all| - |next.stream|;
    assert next.stream == LastN(all, r.maxlen) == all[k..];
    if NewestAt(next.stream, i) && next.stream[i].record in next.records {
      HashAfter(c, r, next.stream[i].record);
      assert next.stream[|next.stream| - 1] == Item(r.streamId, r.record);
      if i < |next.stream| - 1 {
        NewestBefore(c.stream, next.stream, all, k, i);
        assert RemembersAt(c, i + k) && next.stream[i] == c.stream[i + k];
      }
    }
  }

  lemma NewestBefore(stream: seq<Item>, kept: seq<Item>, all: seq<Item>, k: nat, i: nat)
    requires |all| == |stream| + 1 && all[..|stream|] == stream && k <= |all| && kept == all[k..]
    requires i < |kept| - 1 && NewestAt(kept, i)
    ensures NewestAt(stream, i + k)
  {
    forall j | i + k < j < |stream| ensures stream[j].record != stream[i + k].record {
      assert kept[j - k].record != kept[i].record;
      assert all[..|stream|][j] == kept[j - k] && all[..|stream|][i + k] == kept[i];
    }
  }

  lemma {:induction false} AlwaysRemembers(rs: seq<Request>)
    ensures Remembers(PublishAll(EMPTY, rs))
  {
    if rs != [] {
      AlwaysRemembers(rs[..|rs| - 1]);
      PublishRemembers(PublishAll(EMPTY, rs[..|rs| - 1]), rs[|rs| - 1]);
    }
  }

  /**
   After any publishes under any clock, repeating a record of the stream returns the id of its
   newest item exactly when the record is still in the hash; and then the repeat changes nothing.
   */
  lemma RepeatReturnsOriginalIff(rs: seq<Request>, i: nat, again: Request)
    requires i < |PublishAll(EMPTY, rs).stream| && NewestAt(PublishAll(EMPTY, rs).stream, i)
    requires again.record == PublishAll(EMPTY, rs).stream[i].record
    requires again.streamId != PublishAll(EMPTY, rs).stream[i].streamId
    ensures var c := PublishAll(EMPTY, rs);
            && (Publish(c, again).1 == c.stream[i].streamId <==> again.record in c.records)
            && (again.record in c.records ==> Publish(c, again).0 == c)
  {
    AlwaysRemembers(rs);
    assert RemembersAt(PublishAll(EMPTY, rs), i);
  }

  /** So while the three structures hold the same records, every repeat of a record in the stream is recognised. */
  lemma RepeatReturnsOriginal(rs: seq<Request>, i: nat, again: Request)
    requires InStep(PublishAll(EMPTY, rs)) && i < |PublishAll(EMPTY, rs).stream|
    requires again.record == PublishAll(EMPTY, rs).stream[i].record
    ensures Publish(PublishAll(EMPTY, rs), again) == (PublishAll(EMPTY, rs), PublishAll(EMPTY, rs).stream[i].streamId)
  {
    AlwaysRemembers(rs);
    RepeatAt(PublishAll(EMPTY, rs), i, again);
  }

  lemma RepeatAt(c: Channel, i: nat, again: Request)
    requires InStep(c) && Remembers(c) && i < |c.stream| && again.record == c.stream[i].record
    ensures Publish(c, again) == (c, c.stream[i].streamId)
  {
    assert c.stream[i].record in Published(c.stream);
    assert NewestAt(c.stream, i) && RemembersAt(c, i);
  }

  /** As they do under a clock that strictly increases. */
  lemma IncreasingClockInStep(rs: seq<Request>)
    requires ClockIncreases(rs)
    ensures InStepThroughout(rs)
  {
    forall n | 0 <= n <= |rs| ensures InStep(Prefix(rs, n)) {
      PublishesStayAligned(rs[..n]);
      AlignedIsInStep(Prefix(rs, n));
    }
  }

  // ---------------------------------------------------------------- how long a record is remembered

  /** Item `back` from the end of the stream is this record's. */
  predicate IsBack(stream: seq<Item>, item: Item, back: nat) {
    back < |stream| && stream[|stream| - 1 - back] == item
  }

  lemma PushMovesBack(stream: seq<Item>, x: Item, maxlen: nat, item: Item, back: nat)
    requires |stream| <= maxlen && IsBack(stream, item, back) && back + 1 < maxlen
    ensures IsBack(LastN(stream + [x], maxlen), item, back + 1)
  {
    var all := stream + [x];
    assert all[|all| - 2 - back] == item;
  }

  /** One publish adds the record it names at the end, or nothing, and so moves others back by at most one. */
  lemma PublishMovesBack(c: Channel, r: Request, item: Item, back: nat)
    requires |c.stream| <= r.maxlen && IsBack(c.stream, item, back) && back + 1 < r.maxlen
    ensures Publish(c, r).0.stream == c.stream || IsBack(Publish(c, r).0.stream, item, back + 1)
  {
    PushMovesBack(c.stream, Item(r.streamId, r.record), r.maxlen, item, back);
  }

  lemma PublishAddsLast(c: Channel, r: Request)
    requires r.record !in c.records && r.maxlen >= 1
    ensures IsBack(Publish(c, r).0.stream, Item(r.streamId, r.record), 0)
  {
  }

  function ItemOf(r: Request): Item {
    Item(r.streamId, r.record)
  }

  ghost predicate OneBound(rs: seq<Request>, maxlen: nat) {
    forall k :: 0 <= k < |rs| ==> rs[k].maxlen == maxlen
  }

  lemma MovesBackOnce(rs: seq<Request>, maxlen: nat, r: Request, item: Item, before: nat) returns (back: nat)
    requires ClockIncreases(rs) && OneBound(rs, maxlen) && r.maxlen == maxlen
    requires before + 1 < maxlen && IsBack(PublishAll(EMPTY, rs).stream, item, before)
    ensures back <= before + 1 && IsBack(Publish(PublishAll(EMPTY, rs), r).0.stream, item, back)
  {
    var c := PublishAll(EMPTY, rs);
    SizeIsBounded(rs, maxlen);
    PublishMovesBack(c, r, item, before);
    back := if Publish(c, r).0.stream == c.stream then before else before + 1;
  }

  /** A record that was new at request `i` is at most as far back as there are requests after it. */
  lemma {:induction false} RecentIsBack(rs: seq<Request>, maxlen: nat, i: nat) returns (back: nat)
    requires ClockIncreases(rs) && OneBound(rs, maxlen)
    requires i < |rs| <= i + maxlen && !Retained(PublishAll(EMPTY, rs[..i]), rs[i])
    ensures back < |rs| - i && IsBack(PublishAll(EMPTY, rs).stream, ItemOf(rs[i]), back)
    decreases |rs|
  {
    var init, last := rs[..|rs| - 1], rs[|rs| - 1];
    if i == |rs| - 1 {
      back := 0;
      PublishAddsLast(PublishAll(EMPTY, init), last);
    } else {
      assert init[..i] == rs[..i] && init[i] == rs[i];
      var before := RecentIsBack(init, maxlen, i);
      back := MovesBackOnce(init, maxlen, last, ItemOf(rs[i]), before);
    }
  }

  /**
   Under a strictly increasing clock a record is remembered while fewer than `maxlen` requests follow:
   repeating it until then returns the id it was first published under, and publishes nothing.
   */
  lemma {:induction false} RecentRecordIsRemembered(rs: seq<Request>, maxlen: nat, i: nat, again: Request)
    requires ClockIncreases(rs) && OneBound(rs, maxlen)
    requires i < |rs| <= i + maxlen && !Retained(PublishAll(EMPTY, rs[..i]), rs[i]) && again.record == rs[i].record
    ensures Publish(PublishAll(EMPTY, rs), again) == (PublishAll(EMPTY, rs), rs[i].streamId)
  {
    var back := RecentIsBack(rs, maxlen, i);
    PublishesStayAligned(rs);
    AlignedIsInStep(PublishAll(EMPTY, rs));
    AlwaysRemembers(rs);
    RepeatBack(PublishAll(EMPTY, rs), ItemOf(rs[i]), back, again);
  }

  lemma RepeatBack(c: Channel, item: Item, back: nat, again: Request)
    requires InStep(c) && Remembers(c) && IsBack(c.stream, item, back) && again.record == item.record
    ensures Publish(c, again) == (c, item.streamId)
  {
    RepeatAt(c, |c.stream| - 1 - back, again);
  }

  // ---------------------------------------------------------------- two publishes in one microsecond

  /**
   So it can fail: two records in one microsecond, the second with the earlier name, and a bound
   of one. The second is in the stream but forgotten, and repeating it publishes it again.
   */
  lemma TieForgetsARecord(clock: nat, id: nat)
    ensures var c := Publish(Publish(EMPTY, Request("b", clock, id, 1)).0, Request("a", clock, id + 1, 1)).0;
            && c.stream == [Item(id + 1, "a")] && "a" !in c.records
            && Publish(c, Request("a", clock + 1, id + 2, 1)).1 == id + 2
  {
    var r2 := Request("a", clock, id + 1, 1);
    var c1 := OnePublished(Request("b", clock, id, 1));
    TiedOrder(clock);
    PublishForm(c1, r2);
    FirstMember([Scored(clock, "a"), Scored(clock, "b")]);
    var c2 := Publish(c1, r2).0;
    assert c2.stream == [Item(id + 1, "a")] && c2.records == map["b" := id];
    PublishForm(c2, Request("a", clock + 1, id + 2, 1));
  }

  lemma OnePublished(r: Request) returns (c: Channel)
    requires r.maxlen >= 1
    ensures c == Publish(EMPTY, r).0
    ensures c == Channel([Item(r.streamId, r.record)], map[r.record := r.streamId], [Scored(r.clock, r.record)])
  {
    c := Publish(EMPTY, r).0;
    PublishForm(EMPTY, r);
  }

  /** Of two records in one microsecond, the one with the earlier name ranks lower. */
  lemma TiedOrder(clock: nat)
    ensures Insert([Scored(clock, "b")], Scored(clock, "a")) == [Scored(clock, "a"), Scored(clock, "b")]
  {
    assert Less(Scored(clock, "a"), Scored(clock, "b"));
  }

  /**
   It can also fail when no new record is evicted: two records tie, the wrong one of them goes next.
   The second is then in the stream but forgotten; the first is remembered but gone from the stream,
   so that publishing it again is swallowed.
   */
  lemma TieEvictsTheWrongRecord(clock: nat, id: nat)
    ensures var rs := [Request("b", clock, id, 2), Request("a", clock, id + 1, 2), Request("c", clock + 1, id + 2, 2)];
            var c := PublishAll(EMPTY, rs);
            && c.stream == [Item(id + 1, "a"), Item(id + 2, "c")]
            && "a" !in c.records && "b" in c.records
            && Publish(c, Request("b", clock + 2, id + 3, 2)) == (c, id)
  {
    var r1, r2, r3 := Request("b", clock, id, 2), Request("a", clock, id + 1, 2), Request("c", clock + 1, id + 2, 2);
    var a, b, third := Scored(clock, "a"), Scored(clock, "b"), Scored(clock + 1, "c");
    var c1 := OnePublished(r1);
    TiedOrder(clock);
    PublishForm(c1, r2);
    var c2 := Publish(c1, r2).0;
    assert c2 == Channel([Item(id, "b"), Item(id + 1, "a")], map["b" := id, "a" := id + 1], [a, b]);
    InsertLast([a, b], third);
    PublishForm(c2, r3);
    FirstMember([a, b, third]);
    var c3 := Publish(c2, r3).0;
    assert c3.stream == [Item(id + 1, "a"), Item(id + 2, "c")];
    assert c3.records == map["b" := id, "c" := id + 2];
    ThreePublished(r1, r2, r3);
  }

  lemma ThreePublished(r1: Request, r2: Request, r3: Request)
    ensures PublishAll(EMPTY, [r1, r2, r3]) == Publish(Publish(Publish(EMPTY, r1).0, r2).0, r3).0
  {
    assert [r1, r2, r3][..2] == [r1, r2] && [r1, r2][..1] == [r1] && [r1][..0] == [];
    assert PublishAll(EMPTY, [r1]) == Publish(EMPTY, r1).0;
    assert PublishAll(EMPTY, [r1, r2]) == Publish(Publish(EMPTY, r1).0, r2).0;
  }

  // ---------------------------------------------------------------- the script

  class EventChannel {
    var stream: seq<Item>
    var records: map<string, nat>
    var order: seq<Scored>

    ghost function View(): Channel
      reads this
    {
      Channel(stream, records, order)
    }

    constructor ()
      ensures View() == EMPTY
    {
      stream, records, order := [], map[], [];
    }

    method PublishOnce(r: Request) returns (streamId: nat)
      modifies this
      ensures (View(), streamId) == Publish(old(View()), r)
    {
      if r.record in records {
        return records[r.record];
      }
      stream := LastN(stream + [Item(r.streamId, r.record)], r.maxlen);
      records := records[r.record := r.streamId];
      order := Insert(order, Scored(r.clock, r.record));
      if |order| > r.maxlen {
        var expired := order[..|order| - r.maxlen];
        order := order[|order| - r.maxlen..];
        records := records - Members(expired);
      }
      return r.streamId;
    }
  }
}
