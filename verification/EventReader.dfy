/** The cursor-based reader of a published channel: decoding one reply, and polling while others publish and trim. */
module EventReader {
  import opened Prelude

  /** A stream entry; `kind` is what its payload names, or nothing when the payload is no JSON object. */
  datatype Entry = Entry(id: nat, kind: Option<string>, body: string)

  /** The entries of the expected kind, in order. */
  function Wanted(entries: seq<Entry>, kind: string): seq<Entry> {
    if entries == [] then []
    else Wanted(entries[..|entries| - 1], kind)
         + if entries[|entries| - 1].kind == Some(kind) then [entries[|entries| - 1]] else []
  }

  function Flatten(response: seq<seq<Entry>>): seq<Entry> {
    if response == [] then [] else Flatten(response[..|response| - 1]) + response[|response| - 1]
  }

  /** The id of the last entry, of whatever kind. */
  function LastId(entries: seq<Entry>): Option<nat> {
    if entries == [] then None else Some(entries[|entries| - 1].id)
  }

  /** Entries with a larger id than the cursor, `count` at most. */
  function XRead(stream: seq<Entry>, cursor: nat, count: nat): seq<Entry> {
    if stream == [] then []
    else if stream[0].id > cursor then (if |stream| <= count then stream else stream[..count])
    else XRead(stream[1..], cursor, count)
  }

  // ---------------------------------------------------------------- one reply

  lemma WantedPush(entries: seq<Entry>, e: Entry, kind: string)
    ensures Wanted(entries + [e], kind) == Wanted(entries, kind) + if e.kind == Some(kind) then [e] else []
  {
    assert (entries + [e])[..|entries|] == entries;
  }

  lemma {:induction false} WantedConcat(a: seq<Entry>, b: seq<Entry>, kind: string)
    ensures Wanted(a + b, kind) == Wanted(a, kind) + Wanted(b, kind)
  {
    if b == [] {
      assert a + b == a;
    } else {
      var init, e := b[..|b| - 1], b[|b| - 1];
      assert a + b == a + init + [e];
      WantedPush(a + init, e, kind);
      WantedConcat(a, init, kind);
    }
  }

  lemma FlattenPush(response: seq<seq<Entry>>, i: nat)
    requires i < |response|
    ensures Flatten(response[..i + 1]) == Flatten(response[..i]) + response[i]
  {
    assert response[..i + 1][..i] == response[..i];
  }

  lemma OneMore(before: seq<Entry>, entries: seq<Entry>, j: nat, kind: string)
    requires j < |entries|
    ensures var so, next := before + entries[..j], before + entries[..j + 1];
            && Wanted(next, kind) == Wanted(so, kind) + (if entries[j].kind == Some(kind) then [entries[j]] else [])
            && LastId(next) == Some(entries[j].id)
  {
    assert before + entries[..j + 1] == before + entries[..j] + [entries[j]];
    WantedPush(before + entries[..j], entries[j], kind);
  }

  /** `decode_event_stream_response`. Malformed and foreign entries yield nothing but still move the last id. */
  method DecodeResponse(response: seq<seq<Entry>>, kind: string)
    returns (last: Option<nat>, decoded: seq<Entry>)
    ensures decoded == Wanted(Flatten(response), kind) && last == LastId(Flatten(response))
  {
    last, decoded := None, [];
    for i := 0 to |response|
      invariant decoded == Wanted(Flatten(response[..i]), kind) && last == LastId(Flatten(response[..i]))
    {
      var entries := response[i];
      ghost var before := Flatten(response[..i]);
      assert before + entries[..0] == before;
      FlattenPush(response, i);
      for j := 0 to |entries|
        invariant decoded == Wanted(before + entries[..j], kind) && last == LastId(before + entries[..j])
      {
        OneMore(before, entries, j, kind);
        last := Some(entries[j].id);
        if entries[j].kind == Some(kind) {
          decoded := decoded + [entries[j]];
        }
      }
      assert entries[..|entries|] == entries;
    }
    assert response[..|response|] == response;
  }

  /** `read_after`: one stream is asked for, so the response lists it only when it has something. */
  method ReadAfter(stream: seq<Entry>, cursor: nat, kind: string, count: nat)
    returns (cursor': nat, records: seq<Entry>)
    ensures (cursor', records) == Poll(stream, cursor, kind, count)
  {
    var read := XRead(stream, cursor, count);
    var response := if read == [] then [] else [read];
    assert Flatten(response) == read by {
      assert response != [] ==> response[..|response| - 1] == [];
    }
    var last, decoded := DecodeResponse(response, kind);
    return if last.Some? then last.value else cursor, decoded;
  }

  // ---------------------------------------------------------------- polling

  function Poll(stream: seq<Entry>, cursor: nat, kind: string, count: nat): (nat, seq<Entry>) {
    var read := XRead(stream, cursor, count);
    (if read == [] then cursor else read[|read| - 1].id, Wanted(read, kind))
  }

  /** What a poll finds: the log from `trimmed` up to `written`. */
  datatype Moment = Moment(trimmed: nat, written: nat)

  predicate Ascending(log: seq<Entry>) {
    forall i, j :: 0 <= i < j < |log| ==> log[i].id < log[j].id
  }

  predicate Possible(log: seq<Entry>, m: Moment) {
    m.trimmed <= m.written <= |log|
  }

  /** How many entries of the log a cursor has passed. */
  function Passed(log: seq<Entry>, cursor: nat): (p: nat)
    ensures p <= |log|
    ensures p < |log| ==> log[p].id > cursor
    ensures forall i :: 0 <= i < p ==> log[i].id <= cursor
  {
    if log == [] || log[0].id > cursor then 0 else 1 + Passed(log[1..], cursor)
  }

  /** Nothing the cursor has not passed is trimmed. */
  predicate Keeps(log: seq<Entry>, m: Moment, cursor: nat) {
    m.trimmed <= Passed(log, cursor) <= m.written
  }

  /** The stream as it stands at that moment. */
  function Seen(log: seq<Entry>, m: Moment): seq<Entry>
    requires Possible(log, m)
  {
    log[m.trimmed..m.written]
  }

  ghost predicate AllPossible(log: seq<Entry>, moments: seq<Moment>) {
    forall i :: 0 <= i < |moments| ==> Possible(log, moments[i])
  }

  ghost function Polls(log: seq<Entry>, cursor: nat, kind: string, count: nat, moments: seq<Moment>): (nat, seq<Entry>)
    requires AllPossible(log, moments)
    decreases |moments|
  {
    if moments == [] then (cursor, [])
    else
      var first := Poll(Seen(log, moments[0]), cursor, kind, count);
      var rest := Polls(log, first.0, kind, count, moments[1..]);
      (rest.0, first.1 + rest.1)
  }

  ghost predicate AllKept(log: seq<Entry>, cursor: nat, kind: string, count: nat, moments: seq<Moment>)
    requires AllPossible(log, moments)
    decreases |moments|
  {
    moments != [] ==>
      && Keeps(log, moments[0], cursor)
      && AllKept(log, Poll(Seen(log, moments[0]), cursor, kind, count).0, kind, count, moments[1..])
  }

  /** Where a read starts: behind the cursor, or at the oldest entry kept. */
  function ReadFrom(log: seq<Entry>, m: Moment, cursor: nat): nat {
    if Passed(log, cursor) > m.trimmed then Passed(log, cursor) else m.trimmed
  }

  function ReadTo(log: seq<Entry>, m: Moment, cursor: nat, count: nat): nat {
    if m.written - ReadFrom(log, m, cursor) <= count then m.written else ReadFrom(log, m, cursor) + count
  }

  lemma PassedFrom(log: seq<Entry>, i: nat, cursor: nat)
    requires Ascending(log) && i < |log|
    ensures log[i].id <= cursor <==> i < Passed(log, cursor)
  {
    var p := Passed(log, cursor);
    assert p < |log| && p <= i ==> log[p].id <= log[i].id;
  }

  /** A read returns the next entries of the log. */
  lemma {:induction false} XReadIsSlice(log: seq<Entry>, m: Moment, cursor: nat, count: nat)
    requires Ascending(log) && Possible(log, m)
    ensures var from, to := ReadFrom(log, m, cursor), ReadTo(log, m, cursor, count);
            if from < m.written
            then to <= |log| && XRead(Seen(log, m), cursor, count) == log[from..to]
            else XRead(Seen(log, m), cursor, count) == []
    decreases m.written - m.trimmed
  {
    var stream := Seen(log, m);
    if m.trimmed < m.written {
      assert stream[0] == log[m.trimmed];
      PassedFrom(log, m.trimmed, cursor);
      if stream[0].id <= cursor {
        assert stream[1..] == Seen(log, Moment(m.trimmed + 1, m.written));
        XReadIsSlice(log, Moment(m.trimmed + 1, m.written), cursor, count);
      }
    }
  }

  lemma PassedAt(log: seq<Entry>, p: nat)
    requires Ascending(log) && 0 < p <= |log|
    ensures Passed(log, log[p - 1].id) == p
  {
  }

  lemma LastOfSlice(log: seq<Entry>, from: nat, to: nat)
    requires Ascending(log) && from < to <= |log|
    ensures log[from..to] != [] && Passed(log, log[from..to][|log[from..to]| - 1].id) == to
  {
    assert log[from..to][to - from - 1] == log[to - 1];
    PassedAt(log, to);
  }

  /** One poll with nothing trimmed delivers the wanted entries between its old and its new cursor. */
  lemma PollIsExact(log: seq<Entry>, m: Moment, cursor: nat, kind: string, count: nat)
    requires Ascending(log) && Possible(log, m) && Keeps(log, m, cursor)
    ensures var after := Poll(Seen(log, m), cursor, kind, count);
            var p, q := Passed(log, cursor), Passed(log, after.0);
            && p <= q <= m.written && after.1 == Wanted(log[p..q], kind)
            && (q == p <==> p == m.written || count == 0)
  {
    var p, to := Passed(log, cursor), ReadTo(log, m, cursor, count);
    XReadIsSlice(log, m, cursor, count);
    if p < to {
      LastOfSlice(log, p, to);
    } else {
      assert log[p..p] == [];
    }
  }

  /**
   A reader that is never overtaken by trimming gets every entry of its kind exactly once, in
   order, up to its cursor, however polls and publishes interleave.
   */
  lemma {:induction false} PollsDeliverExactly(log: seq<Entry>, cursor: nat, kind: string, count: nat, moments: seq<Moment>)
    requires Ascending(log) && AllPossible(log, moments)
    requires AllKept(log, cursor, kind, count, moments)
    ensures var after := Polls(log, cursor, kind, count, moments);
            var p, q := Passed(log, cursor), Passed(log, after.0);
            p <= q && after.1 == Wanted(log[p..q], kind)
    decreases |moments|
  {
    var p := Passed(log, cursor);
    if moments == [] {
      assert log[p..p] == [];
    } else {
      var first := Poll(Seen(log, moments[0]), cursor, kind, count);
      PollIsExact(log, moments[0], cursor, kind, count);
      PollsDeliverExactly(log, first.0, kind, count, moments[1..]);
      WantedSplits(log, p, Passed(log, first.0), Passed(log, Polls(log, cursor, kind, count, moments).0), kind);
    }
  }

  lemma WantedSplits(log: seq<Entry>, p: nat, mid: nat, q: nat, kind: string)
    requires p <= mid <= q <= |log|
    ensures Wanted(log[p..q], kind) == Wanted(log[p..mid], kind) + Wanted(log[mid..q], kind)
  {
    assert log[p..q] == log[p..mid] + log[mid..q];
    WantedConcat(log[p..mid], log[mid..q], kind);
  }

  /** A poll moves on exactly when an entry of any kind lies beyond the cursor: foreign entries cannot hold a reader up. */
  lemma PollAdvancesIff(log: seq<Entry>, m: Moment, cursor: nat, kind: string, count: nat)
    requires Ascending(log) && Possible(log, m) && count > 0
    ensures Poll(Seen(log, m), cursor, kind, count).0 > cursor <==>
            m.trimmed < m.written && log[m.written - 1].id > cursor
  {
    XReadIsSlice(log, m, cursor, count);
    var from, to := ReadFrom(log, m, cursor), ReadTo(log, m, cursor, count);
    if m.trimmed < m.written {
      PassedFrom(log, m.written - 1, cursor);
      if from < m.written {
        PassedFrom(log, to - 1, cursor);
        assert log[from..to][to - from - 1] == log[to - 1];
      }
    }
  }

  /** A poll passes over entries without reading them exactly when trimming has overtaken its cursor. */
  lemma PollSkipsIff(log: seq<Entry>, m: Moment, cursor: nat, count: nat)
    requires Ascending(log) && Possible(log, m) && count > 0 && m.trimmed < m.written
    ensures var read, p := XRead(Seen(log, m), cursor, count), Passed(log, cursor);
            m.trimmed > p <==> read != [] && p < |log| && read[0] != log[p]
  {
    XReadIsSlice(log, m, cursor, count);
    var from, to := ReadFrom(log, m, cursor), ReadTo(log, m, cursor, count);
    assert from < m.written ==> log[from..to][0] == log[from];
  }
}
