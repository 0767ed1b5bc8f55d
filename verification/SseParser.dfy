/**
 The browser's incremental parser of server-sent events, against a parser of the
 whole text at once. Background: sections 9.2.5 and 9.2.6 of the WHATWG HTML
 Standard; unlike the standard, this parser also reports an unterminated last block.
 */
module SseParser {
  import opened Prelude

  datatype SseEvent = SseEvent(data: string, event: Option<string>, id: Option<string>, retry: Option<nat>)

  // ---------------------------------------------------------------- text

  /** Line endings of any kind become newlines. */
  function Normalize(s: string): string {
    if s == "" then ""
    else if s[0] != '\r' then [s[0]] + Normalize(s[1..])
    else if |s| > 1 && s[1] == '\n' then ['\n'] + Normalize(s[2..])
    else ['\n'] + Normalize(s[1..])
  }

  /** `replace(/\r\n/g, "\n")`. */
  function ReplaceCrLf(s: string): string {
    if s == "" then ""
    else if |s| > 1 && s[0] == '\r' && s[1] == '\n' then ['\n'] + ReplaceCrLf(s[2..])
    else [s[0]] + ReplaceCrLf(s[1..])
  }

  /** `replace(/\r/g, "\n")`. */
  function ReplaceCr(s: string): string {
    if s == "" then "" else [if s[0] == '\r' then '\n' else s[0]] + ReplaceCr(s[1..])
  }

  /** The index of the first blank line, where a block ends. */
  function Boundary(s: string): (b: Option<nat>)
    ensures b.Some? ==> b.value + 1 < |s| && s[b.value] == '\n' && s[b.value + 1] == '\n'
  {
    if |s| < 2 then None
    else if s[0] == '\n' && s[1] == '\n' then Some(0)
    else match Boundary(s[1..])
      case None => None
      case Some(i) => Some(i + 1)
  }

  /** The complete blocks of `s`. */
  function Blocks(s: string): seq<string>
    decreases |s|
  {
    match Boundary(s)
    case None => []
    case Some(b) => [s[..b]] + Blocks(s[b + 2..])
  }

  /** What is left after the last complete block. */
  function Rest(s: string): string
    decreases |s|
  {
    match Boundary(s)
    case None => s
    case Some(b) => Rest(s[b + 2..])
  }

  /** `split("\n")`. */
  function Lines(s: string): (lines: seq<string>)
    ensures lines != []
  {
    if s == "" then [""]
    else if s[0] == '\n' then [""] + Lines(s[1..])
    else var rest := Lines(s[1..]); [[s[0]] + rest[0]] + rest[1..]
  }

  /** `join("\n")`. */
  function JoinLines(lines: seq<string>): string {
    if lines == [] then ""
    else if |lines| == 1 then lines[0]
    else lines[0] + ['\n'] + JoinLines(lines[1..])
  }

  function IndexOf(s: string, c: char): (i: Option<nat>)
    ensures i.Some? ==> i.value < |s| && s[i.value] == c && c !in s[..i.value]
    ensures i.None? ==> c !in s
  {
    if s == "" then None
    else if s[0] == c then Some(0)
    else match IndexOf(s[1..], c)
      case None => None
      case Some(i) => Some(i + 1)
  }

  predicate AllDigits(s: string) {
    s != "" && forall i :: 0 <= i < |s| ==> '0' <= s[i] <= '9'
  }

  function Number(s: string): nat
    requires forall i :: 0 <= i < |s| ==> '0' <= s[i] <= '9'
  {
    if s == "" then 0 else 10 * Number(s[..|s| - 1]) + (s[|s| - 1] as int - '0' as int)
  }

  // ---------------------------------------------------------------- one block

  /** What a block has set so far; `id` survives from block to block. */
  datatype Fields = Fields(data: seq<string>, event: Option<string>, retry: Option<nat>, id: Option<string>)

  function FieldName(line: string): string {
    match IndexOf(line, ':')
    case None => line
    case Some(i) => line[..i]
  }

  function FieldValue(line: string): string {
    match IndexOf(line, ':')
    case None => ""
    case Some(i) => if i + 1 < |line| && line[i + 1] == ' ' then line[i + 2..] else line[i + 1..]
  }

  /** The effect of one line. */
  function Interpret(f: Fields, line: string): Fields {
    if line == "" || line[0] == ':' then f
    else
      var name, value := FieldName(line), FieldValue(line);
      if name == "data" then f.(data := f.data + [value])
      else if name == "event" then f.(event := Some(value))
      else if name == "id" && '\0' !in value then f.(id := Some(value))
      else if name == "retry" && AllDigits(value) then f.(retry := Some(Number(value)))
      else f
  }

  function InterpretAll(f: Fields, lines: seq<string>): Fields {
    if lines == [] then f else Interpret(InterpretAll(f, lines[..|lines| - 1]), lines[|lines| - 1])
  }

  function FieldsOf(block: string, id: Option<string>): Fields {
    InterpretAll(Fields([], None, None, id), Lines(block))
  }

  /** A block yields an event unless it has neither data nor a retry time. */
  function EventsOf(block: string, id: Option<string>): seq<SseEvent> {
    var f := FieldsOf(block, id);
    if f.data == [] && f.retry.None? then [] else [SseEvent(JoinLines(f.data), f.event, f.id, f.retry)]
  }

  // ---------------------------------------------------------------- a whole stream

  function IdAfter(blocks: seq<string>, id: Option<string>): Option<string> {
    if blocks == [] then id else FieldsOf(blocks[|blocks| - 1], IdAfter(blocks[..|blocks| - 1], id)).id
  }

  function EventsOfAll(blocks: seq<string>, id: Option<string>): seq<SseEvent> {
    if blocks == [] then []
    else EventsOfAll(blocks[..|blocks| - 1], id)
         + EventsOf(blocks[|blocks| - 1], IdAfter(blocks[..|blocks| - 1], id))
  }

  /** Every block of a normalized text, the last one even when it is not terminated. */
  function AllBlocks(s: string): seq<string> {
    Blocks(s) + if Rest(s) == "" then [] else [Rest(s)]
  }

  /** The meaning of a text, independent of how it arrives. */
  function Parse(text: string): seq<SseEvent> {
    EventsOfAll(AllBlocks(Normalize(text)), None)
  }

  function Concat(chunks: seq<string>): string {
    if chunks == [] then "" else Concat(chunks[..|chunks| - 1]) + chunks[|chunks| - 1]
  }

  // ---------------------------------------------------------------- lemmas

  lemma {:induction false} ReplacesNormalize(s: string)
    ensures ReplaceCr(ReplaceCrLf(s)) == Normalize(s)
  {
    if s != "" {
      if |s| > 1 && s[0] == '\r' && s[1] == '\n' {
        ReplacesNormalize(s[2..]);
        assert ReplaceCrLf(s)[1..] == ReplaceCrLf(s[2..]);
      } else {
        ReplacesNormalize(s[1..]);
        assert ReplaceCrLf(s)[1..] == ReplaceCrLf(s[1..]);
      }
    }
  }

  /** Text may be cut anywhere but between `\r` and `\n`. */
  lemma {:induction false} NormalizeConcat(a: string, b: string)
    requires a == "" || a[|a| - 1] != '\r' || b == "" || b[0] != '\n'
    ensures Normalize(a + b) == Normalize(a) + Normalize(b)
  {
    if a == "" {
      assert a + b == b;
    } else if a[0] == '\r' && |a| > 1 && a[1] == '\n' {
      NormalizeConcat(a[2..], b);
      assert (a + b)[2..] == a[2..] + b;
      FirstThen('\n', Normalize(a[2..]), Normalize(b));
    } else {
      NormalizeConcat(a[1..], b);
      assert (a + b)[1..] == a[1..] + b;
      assert |a| > 1 ==> (a + b)[1] == a[1];
      FirstThen(if a[0] == '\r' then '\n' else a[0], Normalize(a[1..]), Normalize(b));
    }
  }

  lemma FirstThen(c: char, a: string, b: string)
    ensures [c] + (a + b) == [c] + a + b
  {
  }

  /** A boundary that has been seen stays where it is when more text arrives. */
  lemma {:induction false} BoundaryStays(a: string, b: string)
    requires Boundary(a).Some?
    ensures Boundary(a + b) == Boundary(a)
  {
    if !(a[0] == '\n' && a[1] == '\n') {
      BoundaryStays(a[1..], b);
      assert (a + b)[1..] == a[1..] + b;
    }
  }

  /** Draining early and draining late find the same blocks. */
  lemma {:induction false} BlocksConcat(a: string, b: string)
    ensures Blocks(a + b) == Blocks(a) + Blocks(Rest(a) + b)
    ensures Rest(a + b) == Rest(Rest(a) + b)
    decreases |a|
  {
    if Boundary(a).Some? {
      var i := Boundary(a).value;
      var block, rest := a[..i], a[i + 2..];
      BoundaryStays(a, b);
      FirstBlock(a, block, rest);
      FirstBlock(a + b, block, rest + b);
      BlocksConcat(rest, b);
      Regroup(block, Blocks(rest), Blocks(Rest(rest) + b));
    }
  }

  lemma Regroup(first: string, a: seq<string>, b: seq<string>)
    ensures [first] + (a + b) == [first] + a + b
  {
  }

  lemma FirstBlock(s: string, block: string, rest: string)
    requires Boundary(s) == Some(|block|) && |s| == |block| + 2 + |rest|
    requires s[..|block|] == block && s[|block| + 2..] == rest
    ensures Blocks(s) == [block] + Blocks(rest) && Rest(s) == Rest(rest)
  {
  }

  lemma {:induction false} EventsConcat(a: seq<string>, b: seq<string>, id: Option<string>)
    ensures EventsOfAll(a + b, id) == EventsOfAll(a, id) + EventsOfAll(b, IdAfter(a, id))
    ensures IdAfter(a + b, id) == IdAfter(b, IdAfter(a, id))
  {
    if b == [] {
      assert a + b == a;
    } else {
      assert (a + b)[..|a + b| - 1] == a + b[..|b| - 1];
      EventsConcat(a, b[..|b| - 1], id);
    }
  }

  /** Text that settles later adds its blocks, and their events, to those already found. */
  lemma MoreText(settled: string, input: string)
    requires settled == "" || settled[|settled| - 1] != '\r' || input == "" || input[0] != '\n'
    ensures var known := Blocks(Normalize(settled));
            var buffer := Rest(Normalize(settled)) + Normalize(input);
            && Blocks(Normalize(settled + input)) == known + Blocks(buffer)
            && Rest(Normalize(settled + input)) == Rest(buffer)
  {
    NormalizeConcat(settled, input);
    BlocksConcat(Normalize(settled), Normalize(input));
  }

  predicate EndsWithCr(s: string) {
    s != "" && s[|s| - 1] == '\r'
  }

  /** The text without a final `\r`, which may be half of `\r\n`. */
  function Settle(s: string): string {
    if EndsWithCr(s) then s[..|s| - 1] else s
  }

  /** Holding back a final `\r` and putting it in front of the next chunk loses nothing and splits nothing. */
  lemma HoldBack(fed: string, chunk: string)
    ensures var input := if EndsWithCr(fed) then ['\r'] + chunk else chunk;
            && Settle(fed + chunk) == Settle(fed) + Settle(input)
            && (EndsWithCr(fed + chunk) <==> EndsWithCr(input))
            && (!EndsWithCr(Settle(fed)) || Settle(input) == "" || Settle(input)[0] != '\n')
  {
    var input := if EndsWithCr(fed) then ['\r'] + chunk else chunk;
    assert fed + chunk == Settle(fed) + input;
    if input != "" {
      SettleConcat(Settle(fed), input);
    }
  }

  lemma SettleConcat(a: string, b: string)
    requires b != ""
    ensures Settle(a + b) == a + Settle(b) && (EndsWithCr(a + b) <==> EndsWithCr(b))
  {
    assert (a + b)[|a + b| - 1] == b[|b| - 1];
    assert (a + b)[..|a + b| - 1] == a + b[..|b| - 1];
  }

  /** What is known once `settled` has been read: the unfinished block, the events so far, the last id. */
  datatype Progress = Progress(buffer: string, events: seq<SseEvent>, id: Option<string>)

  function Known(settled: string): Progress {
    var s := Normalize(settled);
    Progress(Rest(s), EventsOfAll(Blocks(s), None), IdAfter(Blocks(s), None))
  }

  /** The progress made by draining a buffer. */
  function Drained(k: Progress, more: string): Progress {
    var b := k.buffer + more;
    Progress(Rest(b), k.events + EventsOfAll(Blocks(b), k.id), IdAfter(Blocks(b), k.id))
  }

  lemma FeedExtends(settled: string, input: string)
    requires !EndsWithCr(settled) || input == "" || input[0] != '\n'
    ensures Known(settled + input) == Drained(Known(settled), ReplaceCr(ReplaceCrLf(input)))
  {
    MoreText(settled, input);
    ReplacesNormalize(input);
    EventsConcat(Blocks(Normalize(settled)), Blocks(Rest(Normalize(settled)) + Normalize(input)), None);
  }

  /** What draining a buffer yields: the remaining buffer, the events, the last id. */
  function DrainOf(buffer: string, id: Option<string>, flush: bool): Progress {
    var blocks := DrainedBlocks(buffer, flush);
    Progress(if flush then "" else Rest(buffer), EventsOfAll(blocks, id), IdAfter(blocks, id))
  }

  lemma DrainExtends(k: Progress, more: string)
    ensures var d := DrainOf(k.buffer + more, k.id, false);
            Drained(k, more) == Progress(d.buffer, k.events + d.events, d.id)
  {
  }

  /** `events` come first, then what draining the rest yields. */
  function After(events: seq<SseEvent>, rest: Progress): Progress {
    Progress(rest.buffer, events + rest.events, rest.id)
  }

  lemma AfterTwice(a: seq<SseEvent>, b: seq<SseEvent>, rest: Progress)
    ensures After(a, After(b, rest)) == After(a + b, rest) && After([], rest) == rest
  {
    assert a + (b + rest.events) == a + b + rest.events;
  }

  /** The blocks that draining goes through. */
  function DrainedBlocks(buffer: string, flush: bool): seq<string> {
    if flush then AllBlocks(buffer) else Blocks(buffer)
  }

  lemma FirstDrained(buffer: string, flush: bool, block: string, rest: string)
    requires Boundary(buffer) == Some(|block|) && |buffer| == |block| + 2 + |rest|
    requires buffer[..|block|] == block && buffer[|block| + 2..] == rest
    ensures DrainedBlocks(buffer, flush) == [block] + DrainedBlocks(rest, flush) && Rest(buffer) == Rest(rest)
  {
    FirstBlock(buffer, block, rest);
  }

  lemma EventsOfFirst(block: string, blocks: seq<string>, id: Option<string>, next: Option<string>)
    requires next == FieldsOf(block, id).id
    ensures EventsOfAll([block] + blocks, id) == EventsOf(block, id) + EventsOfAll(blocks, next)
    ensures IdAfter([block] + blocks, id) == IdAfter(blocks, next)
  {
    OneBlock(block, id);
    EventsConcat([block], blocks, id);
  }

  lemma DrainStep(buffer: string, block: string, rest: string, id: Option<string>, next: Option<string>, flush: bool)
    requires Boundary(buffer) == Some(|block|) && |buffer| == |block| + 2 + |rest|
    requires buffer[..|block|] == block && buffer[|block| + 2..] == rest
    requires next == FieldsOf(block, id).id
    ensures DrainOf(buffer, id, flush) == After(EventsOf(block, id), DrainOf(rest, next, flush))
  {
    FirstDrained(buffer, flush, block, rest);
    EventsOfFirst(block, DrainedBlocks(rest, flush), id, next);
  }

  lemma DrainEnd(buffer: string, id: Option<string>, flush: bool)
    requires Boundary(buffer).None?
    ensures DrainOf(buffer, id, flush) ==
            if flush && buffer != "" then Progress("", EventsOf(buffer, id), FieldsOf(buffer, id).id)
            else Progress(buffer, [], id)
  {
    OneBlock(buffer, id);
  }

  lemma FinishCompletes(fed: string)
    ensures var k := Known(Settle(fed));
            Parse(fed) == k.events + DrainOf(if EndsWithCr(fed) then k.buffer + ['\n'] else k.buffer, k.id, true).events
  {
    var settled := Settle(fed);
    var tail := if EndsWithCr(fed) then "\r" else "";
    assert fed == settled + tail;
    assert Normalize(tail) == if tail == "" then "" else ['\n'];
    CompleteBlocks(settled, tail);
    EventsConcat(Blocks(Normalize(settled)), AllBlocks(Rest(Normalize(settled)) + Normalize(tail)), None);
    assert Rest(Normalize(settled)) + "" == Rest(Normalize(settled));
  }

  lemma CompleteBlocks(settled: string, tail: string)
    requires settled == "" || settled[|settled| - 1] != '\r' || tail == "" || tail[0] != '\n'
    ensures AllBlocks(Normalize(settled + tail)) ==
            Blocks(Normalize(settled)) + AllBlocks(Rest(Normalize(settled)) + Normalize(tail))
  {
    MoreText(settled, tail);
  }

  // ---------------------------------------------------------------- the parser

  class Parser {
    var buffer: string
    var pendingCarriageReturn: bool
    var lastEventId: Option<string>
    ghost var fed: string
    ghost var emitted: seq<SseEvent>

    /** The parser has emitted the events of all complete blocks and kept the rest. */
    ghost predicate Valid()
      reads this
    {
      && (pendingCarriageReturn <==> EndsWithCr(fed))
      && Progress(buffer, emitted, lastEventId) == Known(Settle(fed))
    }

    constructor ()
      ensures Valid() && fed == "" && emitted == []
    {
      buffer, pendingCarriageReturn, lastEventId := "", false, None;
      fed, emitted := "", [];
    }

    method Feed(chunk: string) returns (events: seq<SseEvent>)
      requires Valid()
      modifies this
      ensures Valid() && fed == old(fed) + chunk && emitted == old(emitted) + events
    {
      var input := if pendingCarriageReturn then ['\r'] + chunk else chunk;
      HoldBack(fed, chunk);
      FeedExtends(Settle(fed), Settle(input));
      DrainExtends(Known(Settle(fed)), ReplaceCr(ReplaceCrLf(Settle(input))));
      pendingCarriageReturn := EndsWithCr(input);
      if pendingCarriageReturn {
        input := input[..|input| - 1];
      }
      buffer := buffer + ReplaceCr(ReplaceCrLf(input));
      fed := fed + chunk;
      events := Drain(false);
      emitted := emitted + events;
    }

    method Finish() returns (events: seq<SseEvent>)
      requires Valid()
      modifies this
      ensures fed == old(fed) && emitted == old(emitted) + events == Parse(fed)
    {
      FinishCompletes(fed);
      if pendingCarriageReturn {
        buffer := buffer + ['\n'];
        pendingCarriageReturn := false;
      }
      events := Drain(true);
      emitted := emitted + events;
    }

    method Drain(flush: bool) returns (events: seq<SseEvent>)
      modifies this`buffer, this`lastEventId
      ensures Progress(buffer, events, lastEventId) == DrainOf(old(buffer), old(lastEventId), flush)
    {
      events := [];
      ghost var goal := DrainOf(buffer, lastEventId, flush);
      var boundary := Boundary(buffer);
      AfterTwice([], [], goal);
      while boundary.Some?
        invariant boundary == Boundary(buffer)
        invariant goal == After(events, DrainOf(buffer, lastEventId, flush))
        decreases |buffer|
      {
        var found := TakeBlock(boundary.value, flush);
        AfterTwice(events, found, DrainOf(buffer, lastEventId, flush));
        events := events + found;
        boundary := Boundary(buffer);
      }
      DrainEnd(buffer, lastEventId, flush);
      if flush && buffer != "" {
        var found := ParseBlock(buffer);
        events := events + found;
        buffer := "";
      }
    }

    /** Cuts off and parses the first complete block. */
    method TakeBlock(boundary: nat, ghost flush: bool) returns (found: seq<SseEvent>)
      requires Boundary(buffer) == Some(boundary)
      modifies this`buffer, this`lastEventId
      ensures DrainOf(old(buffer), old(lastEventId), flush) == After(found, DrainOf(buffer, lastEventId, flush))
      ensures |buffer| < |old(buffer)|
    {
      ghost var before, id := buffer, lastEventId;
      var block := buffer[..boundary];
      buffer := buffer[boundary + 2..];
      found := ParseBlock(block);
      DrainStep(before, block, buffer, id, lastEventId, flush);
    }

    method ParseBlock(block: string) returns (found: seq<SseEvent>)
      modifies this`lastEventId
      ensures found == EventsOf(block, old(lastEventId))
      ensures lastEventId == FieldsOf(block, old(lastEventId)).id
    {
      var data: seq<string>, event: Option<string>, retry: Option<nat> := [], None, None;
      var sawData := false;
      var lines := Lines(block);
      ghost var start := Fields([], None, None, lastEventId);
      for i := 0 to |lines|
        invariant Fields(data, event, retry, lastEventId) == InterpretAll(start, lines[..i])
        invariant sawData <==> data != []
      {
        var line := lines[i];
        assert lines[..i + 1][..i] == lines[..i];
        if line == "" || line[0] == ':' {
          continue;
        }
        var separator := IndexOf(line, ':');
        var field := if separator.None? then line else line[..separator.value];
        var value := if separator.None? then "" else line[separator.value + 1..];
        if value != "" && value[0] == ' ' {
          value := value[1..];
        }
        assert field == FieldName(line) && value == FieldValue(line);
        if field == "data" {
          sawData := true;
          data := data + [value];
        } else if field == "event" {
          event := Some(value);
        } else if field == "id" && '\0' !in value {
          lastEventId := Some(value);
        } else if field == "retry" && AllDigits(value) {
          retry := Some(Number(value));
        }
      }
      assert lines[..|lines|] == lines;
      if !sawData && retry.None? {
        found := [];
      } else {
        found := [SseEvent(JoinLines(data), event, lastEventId, retry)];
      }
    }
  }

  lemma OneBlock(block: string, id: Option<string>)
    ensures EventsOfAll([block], id) == EventsOf(block, id)
    ensures IdAfter([block], id) == FieldsOf(block, id).id
  {
    assert [block][..0] == [];
  }

  /**
   Reading a stream chunk by chunk yields the events of the whole text, wherever it is cut:
   inside a line, inside a blank line, or between `\r` and `\n`.
   */
  method ReadStream(chunks: seq<string>) returns (events: seq<SseEvent>)
    ensures events == Parse(Concat(chunks))
  {
    var parser := new Parser();
    events := [];
    for i := 0 to |chunks|
      invariant parser.Valid() && fresh(parser)
      invariant parser.fed == Concat(chunks[..i]) && parser.emitted == events
    {
      assert chunks[..i + 1][..i] == chunks[..i];
      var found := parser.Feed(chunks[i]);
      events := events + found;
    }
    assert chunks[..|chunks|] == chunks;
    var found := parser.Finish();
    events := events + found;
  }

  /** Two ways of cutting one text are indistinguishable to the reader. */
  method ChunkingIsInvisible(chunks: seq<string>, others: seq<string>) returns (a: seq<SseEvent>, b: seq<SseEvent>)
    requires Concat(chunks) == Concat(others)
    ensures a == b == Parse(Concat(chunks))
  {
    a := ReadStream(chunks);
    b := ReadStream(others);
  }
}
