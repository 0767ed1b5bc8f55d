/**
 Streams with every kind of field line: what the browser's parser makes of a printed stream, line by
 line, with the id that survives from block to block.
 */
module SseFields {
  import opened Prelude
  import opened SseParser
  import opened SsePrinter
  import opened SseRoundTrip
  import opened SseBreaks

  /** What a line says; the last four say nothing. */
  datatype Field =
    | Text(value: string)
    | Name(value: string)
    | Key(value: string)
    | Retry(ms: nat)
    | Remark(value: string)
    | Unknown(name: string, value: string)
    | NulKey(value: string)
    | BadRetry(value: string)

  /** A field as it is written, with or without a space after the colon. */
  datatype Line = Line(field: Field, tight: bool)

  function NameOf(f: Field): string {
    match f
    case Text(_) => "data"
    case Name(_) => "event"
    case Key(_) => "id"
    case NulKey(_) => "id"
    case Retry(_) => "retry"
    case BadRetry(_) => "retry"
    case Remark(_) => ""
    case Unknown(name, _) => name
  }

  function ValueOf(f: Field): string {
    if f.Retry? then Decimal(f.ms) else f.value
  }

  function Written(l: Line): string {
    NameOf(l.field) + (if l.tight then ":" else ": ") + ValueOf(l.field)
  }

  predicate OfOneLine(s: string) {
    '\n' !in s && '\r' !in s
  }

  /** Lines that can be written so: in one line, under their own names, with no space that would be taken for the optional one. */
  ghost predicate WellWritten(l: Line) {
    && OfOneLine(Written(l))
    && (l.tight ==> ValueOf(l.field) == "" || ValueOf(l.field)[0] != ' ')
    && (match l.field
        case Key(value) => '\0' !in value
        case NulKey(value) => '\0' in value
        case BadRetry(value) => value == "" || exists i :: 0 <= i < |value| && !('0' <= value[i] <= '9')
        case Unknown(name, _) => ':' !in name && name !in {"", "data", "event", "id", "retry"}
        case _ => true)
  }

  // ---------------------------------------------------------------- what the lines say

  function Texts(ls: seq<Line>): seq<string> {
    if ls == [] then []
    else Texts(ls[..|ls| - 1]) + if ls[|ls| - 1].field.Text? then [ls[|ls| - 1].field.value] else []
  }

  function LastName(ls: seq<Line>): Option<string> {
    if ls == [] then None
    else if ls[|ls| - 1].field.Name? then Some(ls[|ls| - 1].field.value)
    else LastName(ls[..|ls| - 1])
  }

  function LastKey(ls: seq<Line>): Option<string> {
    if ls == [] then None
    else if ls[|ls| - 1].field.Key? then Some(ls[|ls| - 1].field.value)
    else LastKey(ls[..|ls| - 1])
  }

  function LastRetry(ls: seq<Line>): Option<nat> {
    if ls == [] then None
    else if ls[|ls| - 1].field.Retry? then Some(ls[|ls| - 1].field.ms)
    else LastRetry(ls[..|ls| - 1])
  }

  /** The event of a block, given all lines before it: its texts, its last name and retry time, and the last id so far. */
  function EventOfLines(before: seq<Line>, block: seq<Line>): seq<SseEvent> {
    if Texts(block) == [] && LastRetry(block).None? then []
    else [SseEvent(JoinLines(Texts(block)), LastName(block), LastKey(before + block), LastRetry(block))]
  }

  function EventsOfBlocks(before: seq<Line>, blocks: seq<seq<Line>>): seq<SseEvent>
    decreases |blocks|
  {
    if blocks == [] then []
    else EventOfLines(before, blocks[0]) + EventsOfBlocks(before + blocks[0], blocks[1..])
  }

  // ---------------------------------------------------------------- one line

  lemma {:induction false} DecimalIsNumber(n: nat)
    ensures AllDigits(Decimal(n)) && Number(Decimal(n)) == n
  {
    DecimalDigits(n);
    var s := Decimal(n);
    if n < 10 {
      assert s[..0] == "" && Number(s[..0]) == 0;
    } else {
      DecimalIsNumber(n / 10);
      assert s[..|s| - 1] == Decimal(n / 10);
    }
  }

  lemma TightField(name: string, value: string)
    requires ':' !in name && (value == "" || value[0] != ' ')
    ensures FieldName(name + ":" + value) == name && FieldValue(name + ":" + value) == value
  {
    var line := name + ":" + value;
    assert line[..|name|] == name;
    IndexOfFirst(line, ':', |name|);
    assert line[|name| + 1..] == value;
  }

  lemma WrittenParts(l: Line)
    requires WellWritten(l) && !l.field.Remark?
    ensures FieldName(Written(l)) == NameOf(l.field) && FieldValue(Written(l)) == ValueOf(l.field)
    ensures Written(l) != "" && Written(l)[0] != ':'
  {
    if l.tight {
      TightField(NameOf(l.field), ValueOf(l.field));
    } else {
      NamedField(NameOf(l.field), ValueOf(l.field));
    }
    assert Written(l)[0] == NameOf(l.field)[0];
  }

  /** What one line adds to what a block has set. */
  function Adds(f: Fields, field: Field): Fields {
    match field
    case Text(value) => f.(data := f.data + [value])
    case Name(value) => f.(event := Some(value))
    case Key(value) => f.(id := Some(value))
    case Retry(ms) => f.(retry := Some(ms))
    case _ => f
  }

  lemma LineInterpreted(f: Fields, l: Line)
    requires WellWritten(l)
    ensures Interpret(f, Written(l)) == Adds(f, l.field)
  {
    if l.field.Remark? {
      assert Written(l)[0] == ':';
    } else {
      WrittenParts(l);
      NamesApart();
      if l.field.Retry? {
        DecimalIsNumber(l.field.ms);
      }
    }
  }

  lemma NamesApart()
    ensures "data" != "event" && "data" != "id" && "data" != "retry"
    ensures "event" != "id" && "event" != "retry" && "id" != "retry"
  {
    assert "data"[0] == 'd' && "event"[0] == 'e' && "id"[0] == 'i' && "retry"[0] == 'r';
  }

  // ---------------------------------------------------------------- one block

  function WrittenLines(ls: seq<Line>): seq<string> {
    if ls == [] then [] else WrittenLines(ls[..|ls| - 1]) + [Written(ls[|ls| - 1])]
  }

  ghost predicate AllWellWritten(ls: seq<Line>) {
    forall i :: 0 <= i < |ls| ==> WellWritten(ls[i])
  }

  /** What a block sets, on top of what was known before. */
  function SetBy(id: Option<string>, ls: seq<Line>): Fields {
    Fields(Texts(ls), LastName(ls), LastRetry(ls), if LastKey(ls).Some? then LastKey(ls) else id)
  }

  lemma {:induction false} LinesInterpreted(id: Option<string>, ls: seq<Line>)
    requires AllWellWritten(ls)
    ensures InterpretAll(Fields([], None, None, id), WrittenLines(ls)) == SetBy(id, ls)
  {
    if ls != [] {
      var init, last := ls[..|ls| - 1], ls[|ls| - 1];
      LinesInterpreted(id, init);
      LineInterpreted(SetBy(id, init), last);
      assert WrittenLines(ls)[..|WrittenLines(ls)| - 1] == WrittenLines(init);
      assert Adds(SetBy(id, init), last.field) == SetBy(id, ls);
    }
  }

  lemma {:induction false} KeyCarriesOver(before: seq<Line>, ls: seq<Line>)
    ensures LastKey(before + ls) == if LastKey(ls).Some? then LastKey(ls) else LastKey(before)
  {
    if ls == [] {
      assert before + ls == before;
    } else {
      assert (before + ls)[..|before + ls| - 1] == before + ls[..|ls| - 1];
      KeyCarriesOver(before, ls[..|ls| - 1]);
    }
  }

  ghost predicate SolidLines(lines: seq<string>) {
    forall i :: 0 <= i < |lines| ==> lines[i] != "" && OfOneLine(lines[i])
  }

  lemma {:induction false} WrittenSolid(ls: seq<Line>)
    requires AllWellWritten(ls)
    ensures |WrittenLines(ls)| == |ls| && SolidLines(WrittenLines(ls))
  {
    if ls != [] {
      WrittenSolid(ls[..|ls| - 1]);
    }
  }

  /** Lines joined by newlines split into those lines again, and hold no blank line. */
  lemma {:induction false} JoinedLines(lines: seq<string>)
    requires lines != [] && SolidLines(lines)
    ensures var s := JoinLines(lines);
            && Lines(s) == lines && Boundary(s).None? && '\r' !in s
            && s != "" && s[0] == lines[0][0] && s[|s| - 1] != '\n'
  {
    var s := JoinLines(lines);
    if |lines| == 1 {
      OneLineIsOneLine(lines[0]);
    } else {
      var rest := JoinLines(lines[1..]);
      JoinedLines(lines[1..]);
      assert s == lines[0] + "\n" + rest;
      LinesFirst(lines[0], rest);
      NoBlankLine(lines[0], rest);
      assert [lines[0]] + lines[1..] == lines && s[|s| - 1] == rest[|rest| - 1];
    }
  }

  lemma {:induction false} NoBlankLine(a: string, rest: string)
    requires '\n' !in a && rest != "" && rest[0] != '\n' && Boundary(rest).None?
    ensures Boundary(a + "\n" + rest).None? || a == ""
    ensures Boundary("\n" + rest).None?
  {
    var s := a + "\n" + rest;
    assert ("\n" + rest)[1..] == rest;
    if a != "" {
      assert s[1..] == a[1..] + "\n" + rest;
      NoBlankLine(a[1..], rest);
      if a[1..] == "" {
        assert s[1..] == "\n" + rest;
      }
    }
  }

  function BlockText(ls: seq<Line>): string {
    JoinLines(WrittenLines(ls))
  }

  lemma BlockMeaning(before: seq<Line>, ls: seq<Line>)
    requires ls != [] && AllWellWritten(ls)
    ensures var block, id := BlockText(ls), LastKey(before);
            && EventsOf(block, id) == EventOfLines(before, ls) && FieldsOf(block, id).id == LastKey(before + ls)
            && Boundary(block).None? && '\r' !in block && block != "" && block[|block| - 1] != '\n'
  {
    WrittenSolid(ls);
    JoinedLines(WrittenLines(ls));
    LinesInterpreted(LastKey(before), ls);
    KeyCarriesOver(before, ls);
  }

  // ---------------------------------------------------------------- a stream

  function StreamOf(blocks: seq<seq<Line>>): string {
    if blocks == [] then "" else BlockText(blocks[0]) + "\n\n" + StreamOf(blocks[1..])
  }

  ghost predicate PrintableBlocks(blocks: seq<seq<Line>>) {
    forall i :: 0 <= i < |blocks| ==> blocks[i] != [] && AllWellWritten(blocks[i])
  }

  lemma {:induction false} BlocksMeaning(before: seq<Line>, blocks: seq<seq<Line>>)
    requires PrintableBlocks(blocks)
    ensures Rest(StreamOf(blocks)) == "" && '\r' !in StreamOf(blocks)
    ensures EventsOfAll(Blocks(StreamOf(blocks)), LastKey(before)) == EventsOfBlocks(before, blocks)
    decreases |blocks|
  {
    if blocks != [] {
      var block, rest := BlockText(blocks[0]), StreamOf(blocks[1..]);
      BlockMeaning(before, blocks[0]);
      BlocksMeaning(before + blocks[0], blocks[1..]);
      StreamStep(block, rest, LastKey(before));
      OneBlock(block, LastKey(before));
    }
  }

  /**
   A printed stream of blocks of any lines means what the lines say: one event for each block that has
   a text or a retry time, with the last event name and retry time of its own block, and the last id of
   the whole stream up to its end; remarks, unknown fields and malformed ids and retry times say nothing.
   */
  lemma FieldsRoundTrip(blocks: seq<seq<Line>>)
    requires PrintableBlocks(blocks)
    ensures Parse(StreamOf(blocks)) == EventsOfBlocks([], blocks)
  {
    BlocksMeaning([], blocks);
    CompleteText(StreamOf(blocks));
  }

  /** In whatever chunks it arrives. */
  method BrowserReadsFields(blocks: seq<seq<Line>>, chunks: seq<string>) returns (events: seq<SseEvent>)
    requires PrintableBlocks(blocks) && Concat(chunks) == StreamOf(blocks)
    ensures events == EventsOfBlocks([], blocks)
  {
    FieldsRoundTrip(blocks);
    events := ReadStream(chunks);
  }
}
