/** Printing and reading back: the browser and the gRPC bridge recover what was printed, and when they do not. */
module SseRoundTrip {
  import opened Prelude
  import opened SseParser
  import opened SsePrinter

  // ---------------------------------------------------------------- the browser

  lemma {:induction false} NormalizeUnchanged(s: string)
    requires '\r' !in s
    ensures Normalize(s) == s
  {
    if s != "" {
      NormalizeUnchanged(s[1..]);
    }
  }

  lemma {:induction false} BoundaryAfter(block: string, rest: string)
    requires '\n' !in block || Boundary(block).None?
    requires block == "" || block[|block| - 1] != '\n'
    ensures Boundary(block + "\n\n" + rest) == Some(|block|)
  {
    var s := block + "\n\n" + rest;
    if block != "" {
      assert s[1..] == block[1..] + "\n\n" + rest;
      BoundaryAfter(block[1..], rest);
    }
  }

  lemma {:induction false} OneLineIsOneLine(s: string)
    requires '\n' !in s
    ensures Lines(s) == [s] && Boundary(s).None?
  {
    if s != "" {
      OneLineIsOneLine(s[1..]);
      assert [s[0]] + s[1..] == s;
    }
  }

  lemma {:induction false} TwoLines(a: string, b: string)
    requires '\n' !in a && '\n' !in b && b != ""
    ensures Lines(a + "\n" + b) == [a, b]
    ensures Boundary(a + "\n" + b).None?
  {
    var s := a + "\n" + b;
    OneLineIsOneLine(b);
    if a == "" {
      assert s[1..] == b;
    } else {
      assert s[1..] == a[1..] + "\n" + b;
      TwoLines(a[1..], b);
      assert [a[0]] + a[1..] == a;
    }
  }

  lemma {:induction false} IndexOfFirst(s: string, c: char, k: nat)
    requires k < |s| && s[k] == c && c !in s[..k]
    ensures IndexOf(s, c) == Some(k)
    decreases k
  {
    if k > 0 {
      assert s[0] in s[..k];
      assert s[1..][..k - 1] == s[..k][1..];
      IndexOfFirst(s[1..], c, k - 1);
    }
  }

  lemma NamedField(name: string, value: string)
    requires ':' !in name
    ensures FieldName(name + ": " + value) == name
    ensures FieldValue(name + ": " + value) == value
  {
    var line := name + ": " + value;
    assert line[..|name|] == name;
    IndexOfFirst(line, ':', |name|);
    assert line[|name| + 2..] == value;
  }

  predicate Digits(s: string) {
    forall i :: 0 <= i < |s| ==> '0' <= s[i] <= '9'
  }

  lemma {:induction false} DecimalDigits(n: nat)
    ensures Digits(Decimal(n))
  {
    if n >= 10 {
      DecimalDigits(n / 10);
    }
  }

  /** Neither line of a printed event contains a break of any kind, unless its text does. */
  lemma LinesOfEvent(id: nat, text: string)
    ensures OneLine(IdLine(id)) && '\0' !in Decimal(id)
    ensures '\n' !in IdLine(id) && '\r' !in IdLine(id)
    ensures '\n' !in text ==> '\n' !in DataLine(text)
    ensures '\r' !in text ==> '\r' !in DataLine(text)
    ensures OneLine(text) ==> OneLine(DataLine(text))
    ensures DataLine(text) != "" && DataLine(text)[|DataLine(text)| - 1] == (if text == "" then ' ' else text[|text| - 1])
  {
    DecimalDigits(id);
  }

  lemma IdField(f: Fields, id: nat)
    ensures Interpret(f, IdLine(id)) == f.(id := Some(Decimal(id)))
  {
    LinesOfEvent(id, "");
    NamedField("id", Decimal(id));
    assert IdLine(id) == "id" + ": " + Decimal(id);
    assert IdLine(id)[0] == 'i';
    assert "id"[0] != "data"[0] && "id"[0] != "event"[0];
  }

  lemma DataField(f: Fields, text: string)
    ensures Interpret(f, DataLine(text)) == f.(data := f.data + [text])
  {
    NamedField("data", text);
    assert DataLine(text) == "data" + ": " + text;
    assert DataLine(text)[0] == 'd';
  }

  function EventBlock(id: nat, text: string): string {
    IdLine(id) + "\n" + DataLine(text)
  }

  /** The two fields of a printed event, interpreted. */
  lemma EventFields(id: nat, text: string, before: Option<string>)
    requires '\n' !in text
    ensures EventsOf(EventBlock(id, text), before) == [SseEvent(text, None, Some(Decimal(id)), None)]
    ensures Boundary(EventBlock(id, text)).None?
  {
    var start := Fields([], None, None, before);
    LinesOfEvent(id, text);
    TwoLines(IdLine(id), DataLine(text));
    IdField(start, id);
    DataField(Interpret(start, IdLine(id)), text);
    TwoInterpreted(start, IdLine(id), DataLine(text));
  }

  lemma TwoInterpreted(f: Fields, a: string, b: string)
    ensures InterpretAll(f, [a, b]) == Interpret(Interpret(f, a), b)
  {
    var one, two := [a], [a, b];
    assert one[..|one| - 1] == [] && two[..|two| - 1] == one;
    assert InterpretAll(f, one) == Interpret(f, a);
  }

  // ---------------------------------------------------------------- a printed stream

  datatype Item = Event(id: nat, x: string) | Heartbeat

  const HEARTBEAT := ": heartbeat"

  /** The block an item is printed as, without the blank line that ends it. */
  function BlockOf(item: Item, stamp: Stamp): string {
    match item
    case Heartbeat => HEARTBEAT
    case Event(id, x) => EventBlock(id, Carried(id, x, stamp))
  }

  /** What `subscribe` yields for an item. */
  function TextOf(item: Item, stamp: Stamp): string {
    match item
    case Heartbeat => HEARTBEAT + "\n\n"
    case Event(id, x) => Printed(id, Payload(x), stamp)
  }

  function StreamText(items: seq<Item>, stamp: Stamp): string {
    if items == [] then "" else TextOf(items[0], stamp) + StreamText(items[1..], stamp)
  }

  function EventOf(item: Item, stamp: Stamp): seq<SseEvent> {
    match item
    case Heartbeat => []
    case Event(id, x) => [SseEvent(Carried(id, x, stamp), None, Some(Decimal(id)), None)]
  }

  function Expected(items: seq<Item>, stamp: Stamp): seq<SseEvent> {
    if items == [] then [] else EventOf(items[0], stamp) + Expected(items[1..], stamp)
  }

  /** One-line texts, whose printed form has no carriage return or newline either. */
  ghost predicate Printable(item: Item, stamp: Stamp) {
    item.Event? ==>
      OneLine(item.x) && '\n' !in Carried(item.id, item.x, stamp) && '\r' !in Carried(item.id, item.x, stamp)
  }

  lemma EventForm(id: nat, x: string, stamp: Stamp)
    requires Printable(Event(id, x), stamp)
    ensures var block := EventBlock(id, Carried(id, x, stamp));
            && Printed(id, Payload(x), stamp) == block + "\n\n"
            && '\r' !in block && block != "" && block[|block| - 1] != '\n'
  {
    PrintedForm(id, x, stamp);
    LinesOfEvent(id, Carried(id, x, stamp));
  }

  lemma ItemForm(item: Item, stamp: Stamp)
    requires Printable(item, stamp)
    ensures TextOf(item, stamp) == BlockOf(item, stamp) + "\n\n"
    ensures '\r' !in BlockOf(item, stamp)
    ensures BlockOf(item, stamp) != "" && BlockOf(item, stamp)[|BlockOf(item, stamp)| - 1] != '\n'
  {
    if item.Event? {
      EventForm(item.id, item.x, stamp);
    }
  }

  lemma ItemMeaning(item: Item, stamp: Stamp, before: Option<string>)
    requires Printable(item, stamp)
    ensures EventsOf(BlockOf(item, stamp), before) == EventOf(item, stamp)
    ensures Boundary(BlockOf(item, stamp)).None?
  {
    if item.Event? {
      EventFields(item.id, Carried(item.id, item.x, stamp), before);
    } else {
      CommentMeaning(HEARTBEAT, before);
    }
  }

  lemma CommentMeaning(line: string, before: Option<string>)
    requires line != "" && line[0] == ':' && '\n' !in line
    ensures EventsOf(line, before) == [] && Boundary(line).None?
  {
    OneLineIsOneLine(line);
    var one := [line];
    assert one[..|one| - 1] == [];
    assert InterpretAll(Fields([], None, None, before), one) == Fields([], None, None, before);
  }

  lemma StreamStep(block: string, rest: string, id: Option<string>)
    requires Boundary(block).None? && block != "" && block[|block| - 1] != '\n'
    ensures var s := block + "\n\n" + rest;
            && Rest(s) == Rest(rest)
            && EventsOfAll(Blocks(s), id) == EventsOf(block, id) + EventsOfAll(Blocks(rest), IdAfter([block], id))
  {
    var s := block + "\n\n" + rest;
    BoundaryAfter(block, rest);
    FirstBlock(s, block, rest);
    EventsConcat([block], Blocks(rest), id);
    OneBlock(block, id);
  }

  lemma {:induction false} StreamHasNoCr(items: seq<Item>, stamp: Stamp)
    requires forall i :: 0 <= i < |items| ==> Printable(items[i], stamp)
    ensures '\r' !in StreamText(items, stamp)
    decreases |items|
  {
    if items != [] {
      ItemForm(items[0], stamp);
      StreamHasNoCr(items[1..], stamp);
    }
  }

  lemma {:induction false} StreamBlocks(items: seq<Item>, stamp: Stamp, id: Option<string>)
    requires forall i :: 0 <= i < |items| ==> Printable(items[i], stamp)
    ensures Rest(StreamText(items, stamp)) == ""
    ensures EventsOfAll(Blocks(StreamText(items, stamp)), id) == Expected(items, stamp)
    decreases |items|
  {
    if items != [] {
      var block, rest := BlockOf(items[0], stamp), StreamText(items[1..], stamp);
      ItemForm(items[0], stamp);
      ItemMeaning(items[0], stamp, id);
      assert StreamText(items, stamp) == block + "\n\n" + rest;
      StreamStep(block, rest, id);
      StreamBlocks(items[1..], stamp, IdAfter([block], id));
    }
  }

  /** A printed stream, heartbeats included, means exactly its events, in order. */
  lemma StreamRoundTrip(items: seq<Item>, stamp: Stamp)
    requires forall i :: 0 <= i < |items| ==> Printable(items[i], stamp)
    ensures Parse(StreamText(items, stamp)) == Expected(items, stamp)
  {
    StreamBlocks(items, stamp, None);
    StreamHasNoCr(items, stamp);
    CompleteText(StreamText(items, stamp));
  }

  /** A text without carriage returns whose last block is terminated. */
  lemma CompleteText(text: string)
    requires '\r' !in text && Rest(text) == ""
    ensures Parse(text) == EventsOfAll(Blocks(text), None)
  {
    NormalizeUnchanged(text);
    assert AllBlocks(text) == Blocks(text);
  }

  /** And the browser recovers them from the printed stream cut into any chunks. */
  method BrowserRoundTrip(items: seq<Item>, stamp: Stamp, chunks: seq<string>) returns (events: seq<SseEvent>)
    requires forall i :: 0 <= i < |items| ==> Printable(items[i], stamp)
    requires Concat(chunks) == StreamText(items, stamp)
    ensures events == Expected(items, stamp)
  {
    StreamRoundTrip(items, stamp);
    events := ReadStream(chunks);
  }

  // ---------------------------------------------------------------- gRPC

  /** Python's `int(text)`, of which only its inverse on decimal numbers matters. */
  type ToInt = string -> Option<int>

  datatype Scan = Malformed | Scan(sequence: Option<int>, data: seq<string>)

  function ScanLines(lines: seq<string>, toInt: ToInt): Scan {
    if lines == [] then Scan(None, [])
    else
      var line := lines[|lines| - 1];
      match ScanLines(lines[..|lines| - 1], toInt)
      case Malformed => Malformed
      case Scan(sequence, data) =>
        if StartsWith(line, ID) then
          if toInt(line[4..]).None? then Malformed else Scan(toInt(line[4..]), data)
        else if StartsWith(line, DATA) then Scan(sequence, data + [line[|DATA|..]])
        else Scan(sequence, data)
  }

  /** The outcome of `_event_message`; a DONE marker needs a verified terminal run. */
  datatype Message = NoMessage | Rejected | Marker(sequence: int) | Message(sequence: int, raw: string)

  function MessageOf(scan: Scan, terminal: bool): Message {
    if scan.Malformed? || scan.sequence.None? || scan.data == [] then NoMessage
    else
      var raw := JoinLines(scan.data);
      if raw != DONE_TEXT then Message(scan.sequence.value, raw)
      else if terminal then Marker(scan.sequence.value)
      else Rejected
  }

  /** `_event_message`. */
  method EventMessage(chunk: string, terminal: bool, toInt: ToInt) returns (m: Message)
    ensures m == MessageOf(ScanLines(SplitLines(chunk), toInt), terminal)
  {
    var sequence: Option<int>, data: seq<string> := None, [];
    var lines := SplitLines(chunk);
    for i := 0 to |lines|
      invariant ScanLines(lines[..i], toInt) == Scan(sequence, data)
    {
      var line := lines[i];
      assert lines[..i + 1][..i] == lines[..i];
      if StartsWith(line, ID) {
        if toInt(line[4..]).None? {
          MalformedStays(lines, i + 1, toInt);
          return NoMessage;
        }
        sequence := toInt(line[4..]);
      } else if StartsWith(line, DATA) {
        data := data + [line[|DATA|..]];
      }
    }
    assert lines[..|lines|] == lines;
    if sequence.None? || data == [] {
      return NoMessage;
    }
    var raw := JoinLines(data);
    if raw == DONE_TEXT {
      if !terminal {
        return Rejected;
      }
      return Marker(sequence.value);
    }
    return Message(sequence.value, raw);
  }

  /** An id line whose number cannot be read. */
  predicate BadIdAt(lines: seq<string>, toInt: ToInt, i: int)
    requires 0 <= i < |lines|
  {
    "id: " <= lines[i] && toInt(lines[i][4..]).None?
  }

  /** The texts of the data lines, in order. */
  function DataTexts(lines: seq<string>): seq<string> {
    if lines == [] then []
    else DataTexts(lines[..|lines| - 1])
         + if "data: " <= lines[|lines| - 1] then [lines[|lines| - 1][6..]] else []
  }

  /** `k` is the last id line. */
  ghost predicate LastId(lines: seq<string>, k: int) {
    0 <= k < |lines| && "id: " <= lines[k] && forall j :: k < j < |lines| ==> !("id: " <= lines[j])
  }

  /** The bridge gives up on a chunk exactly when the number of some id line cannot be read. */
  lemma {:induction false} ScanMalformedIff(lines: seq<string>, toInt: ToInt)
    ensures ScanLines(lines, toInt).Malformed? <==> exists i :: 0 <= i < |lines| && BadIdAt(lines, toInt, i)
  {
    if lines != [] {
      var init, last := lines[..|lines| - 1], lines[|lines| - 1];
      ScanMalformedIff(init, toInt);
      LinesApart(last);
      if i :| 0 <= i < |init| && BadIdAt(init, toInt, i) {
        assert BadIdAt(lines, toInt, i);
      }
      if i :| 0 <= i < |lines| && BadIdAt(lines, toInt, i) {
        assert i < |init| ==> BadIdAt(init, toInt, i);
      }
      if StartsWith(last, ID) && toInt(last[4..]).None? {
        assert BadIdAt(lines, toInt, |lines| - 1);
      }
    }
  }

  /** Otherwise it reads the texts of all data lines, and no number unless there is an id line. */
  lemma {:induction false} ScanReadsData(lines: seq<string>, toInt: ToInt)
    requires ScanLines(lines, toInt).Scan?
    ensures ScanLines(lines, toInt).data == DataTexts(lines)
    ensures (forall j :: 0 <= j < |lines| ==> !("id: " <= lines[j])) ==> ScanLines(lines, toInt).sequence.None?
  {
    if lines != [] {
      LinesApart(lines[|lines| - 1]);
      ScanReadsData(lines[..|lines| - 1], toInt);
    }
  }

  /** And of several id lines the number of the last. */
  lemma {:induction false} ScanReadsLastId(lines: seq<string>, toInt: ToInt, k: nat)
    requires ScanLines(lines, toInt).Scan? && LastId(lines, k)
    ensures ScanLines(lines, toInt).sequence == toInt(lines[k][4..]) && toInt(lines[k][4..]).Some?
  {
    LinesApart(lines[|lines| - 1]);
    if k < |lines| - 1 {
      ScanReadsLastId(lines[..|lines| - 1], toInt, k);
    }
  }

  lemma LinesApart(line: string)
    ensures StartsWith(line, ID) <==> "id: " <= line
    ensures StartsWith(line, DATA) <==> "data: " <= line
    ensures !("id: " <= line && "data: " <= line)
  {
    assert "id: "[0] == 'i' && "data: "[0] == 'd';
  }

  lemma {:induction false} MalformedStays(lines: seq<string>, i: nat, toInt: ToInt)
    requires i <= |lines| && ScanLines(lines[..i], toInt).Malformed?
    ensures ScanLines(lines, toInt).Malformed?
    decreases |lines| - i
  {
    if i < |lines| {
      assert lines[..i + 1][..i] == lines[..i];
      MalformedStays(lines, i + 1, toInt);
    } else {
      assert lines[..i] == lines;
    }
  }

  ghost predicate ReadsDecimals(toInt: ToInt) {
    forall n: nat :: toInt(Decimal(n)) == Some(n as int)
  }

  lemma SplitFramed(id: nat, text: string)
    requires OneLine(text)
    ensures SplitLines(Framed(id, DataLine(text))) == [IdLine(id), DataLine(text), ""]
  {
    LinesOfEvent(id, text);
    assert Framed(id, DataLine(text)) == IdLine(id) + "\n" + (DataLine(text) + "\n\n");
    FirstLine(IdLine(id), DataLine(text) + "\n\n");
    SplitOneLine(DataLine(text));
  }

  lemma FirstLine(line: string, rest: string)
    requires OneLine(line)
    ensures SplitLines(line + "\n" + rest) == [line] + SplitLines(rest)
  {
    var s := line + "\n" + rest;
    assert forall j :: 0 <= j < |line| ==> s[j] == line[j];
    assert s[|line|] == '\n';
    assert FirstBreak(s) == |line|;
    assert s[..|line|] == line && s[|line| + 1..] == rest;
  }

  /** The bridge recovers id and text of a printed event, and forwards DONE only for an ended run. */
  lemma GrpcRoundTrip(id: nat, x: string, stamp: Stamp, terminal: bool, toInt: ToInt)
    requires OneLine(x) && OneLine(Carried(id, x, stamp)) && ReadsDecimals(toInt)
    ensures var m := MessageOf(ScanLines(SplitLines(Printed(id, Payload(x), stamp)), toInt), terminal);
            var carried := Carried(id, x, stamp);
            m == if carried != DONE_TEXT then Message(id, carried) else if terminal then Marker(id) else Rejected
  {
    var carried := Carried(id, x, stamp);
    PrintedForm(id, x, stamp);
    SplitFramed(id, carried);
    ScanFramed(id, carried, toInt);
  }

  lemma ScanFramed(id: nat, text: string, toInt: ToInt)
    requires ReadsDecimals(toInt)
    ensures ScanLines([IdLine(id), DataLine(text), ""], toInt) == Scan(Some(id), [text])
  {
    var first, second := IdLine(id), DataLine(text);
    assert first[4..] == Decimal(id) && second[|DATA|..] == text;
    assert second[0] != ID[0];
    assert [first][..0] == [] && [first, second][..1] == [first] && [first, second, ""][..2] == [first, second];
    assert ScanLines([first], toInt) == Scan(Some(id), []);
    assert ScanLines([first, second], toInt) == Scan(Some(id), [text]);
  }
}
