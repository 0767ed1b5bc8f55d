/**
 The exact limit of the round trips: Python splits lines at eight characters besides
 carriage return and newline, and a text that contains one of them does not survive.
 */
module SseBreaks {
  import opened Prelude
  import opened SseParser
  import opened SsePrinter
  import opened SseRoundTrip

  lemma SplitStep(s: string, i: nat)
    requires i == FirstBreak(s) < |s|
    ensures |RestAfter(s, i)| < |s| && SplitLines(s) == [s[..i]] + SplitLines(RestAfter(s, i))
  {
  }

  lemma SplitWhole(s: string)
    requires s != "" && FirstBreak(s) == |s|
    ensures SplitLines(s) == [s]
  {
  }

  /** What stands before the first break. */
  function FirstFragment(x: string): string {
    x[..FirstBreak(x)]
  }

  // ---------------------------------------------------------------- gRPC

  /** The room that lines take, each with its break. */
  function Weight(lines: seq<string>): nat {
    if lines == [] then 0 else |lines[0]| + 1 + Weight(lines[1..])
  }

  lemma {:induction false} WeightSnoc(lines: seq<string>, line: string)
    ensures Weight(lines + [line]) == Weight(lines) + |line| + 1
  {
    if lines == [] {
      assert [line][1..] == [];
    } else {
      assert (lines + [line])[1..] == lines[1..] + [line];
      WeightSnoc(lines[1..], line);
    }
  }

  lemma {:induction false} SplitWeighs(s: string)
    ensures Weight(SplitLines(s)) <= |s| + 1
    decreases |s|
  {
    if s != "" {
      var i := FirstBreak(s);
      if i < |s| {
        SplitStep(s, i);
        SplitWeighs(RestAfter(s, i));
        assert SplitLines(s)[1..] == SplitLines(RestAfter(s, i));
      } else {
        SplitWhole(s);
        assert [s][1..] == [];
      }
    }
  }

  lemma {:induction false} JoinWeighs(data: seq<string>)
    requires data != []
    ensures |JoinLines(data)| + 1 == Weight(data)
  {
    if |data| > 1 {
      JoinWeighs(data[1..]);
    }
  }

  /** A data line takes more room than its text. */
  lemma {:induction false} ScanWeighs(lines: seq<string>, toInt: ToInt)
    requires ScanLines(lines, toInt).Scan?
    ensures var data := ScanLines(lines, toInt).data; Weight(data) + |DATA| * |data| <= Weight(lines)
  {
    if lines != [] {
      var init, line := lines[..|lines| - 1], lines[|lines| - 1];
      ScanWeighs(init, toInt);
      assert lines == init + [line];
      WeightSnoc(init, line);
      if !StartsWith(line, ID) && StartsWith(line, DATA) {
        WeightSnoc(ScanLines(init, toInt).data, line[|DATA|..]);
      }
    }
  }

  lemma {:induction false} ScanConcat(a: seq<string>, b: seq<string>, toInt: ToInt)
    requires ScanLines(a + b, toInt).Scan?
    ensures ScanLines(a, toInt).Scan? && ScanLines(b, toInt).Scan?
    ensures ScanLines(a + b, toInt).data == ScanLines(a, toInt).data + ScanLines(b, toInt).data
  {
    if b == [] {
      assert a + b == a;
    } else {
      assert (a + b)[..|a + b| - 1] == a + b[..|b| - 1];
      ScanConcat(a, b[..|b| - 1], toInt);
    }
  }

  /** A text with a break takes up more room than all that is read back of it. */
  lemma BrokenIsShorter(id: nat, text: string, toInt: ToInt)
    requires !OneLine(text) && ReadsDecimals(toInt)
    ensures var scan := ScanLines(SplitLines(Framed(id, DataLine(text))), toInt);
            scan.Scan? ==> scan.data != [] && |JoinLines(scan.data)| < |text|
  {
    var first, rest := BrokenSplits(id, text);
    var head, tail := [IdLine(id), DataLine(first)], SplitLines(rest);
    if ScanLines(head + tail, toInt).Scan? {
      ScanConcat(head, tail, toInt);
      HeadScans(id, first, toInt);
      FirstJoined(first, ScanLines(tail, toInt).data);
      ScanWeighs(tail, toInt);
      SplitWeighs(rest);
    }
  }

  lemma FirstJoined(first: string, more: seq<string>)
    ensures |JoinLines([first] + more)| == |first| + Weight(more)
  {
    JoinWeighs([first] + more);
    assert ([first] + more)[1..] == more;
  }

  lemma HeadScans(id: nat, text: string, toInt: ToInt)
    requires ReadsDecimals(toInt)
    ensures ScanLines([IdLine(id), DataLine(text)], toInt) == Scan(Some(id), [text])
  {
    ScanFramed(id, text, toInt);
    assert [IdLine(id), DataLine(text), ""][..2] == [IdLine(id), DataLine(text)];
  }

  /** The first two lines of a printed text with a break, and how much is left. */
  lemma BrokenSplits(id: nat, text: string) returns (first: string, rest: string)
    requires !OneLine(text)
    ensures |first| < |text| && |first| + |rest| <= |text| + 1
    ensures SplitLines(Framed(id, DataLine(text))) == [IdLine(id), DataLine(first)] + SplitLines(rest)
  {
    first, rest := PayloadSplits(text);
    FramedSplits(id, DataLine(text));
    TwoAhead(IdLine(id), DataLine(first), SplitLines(rest));
  }

  lemma TwoAhead(a: string, b: string, rest: seq<string>)
    ensures [a] + ([b] + rest) == [a, b] + rest
  {
  }

  lemma PayloadSplits(text: string) returns (first: string, rest: string)
    requires !OneLine(text)
    ensures |first| < |text| && |first| + |rest| <= |text| + 1
    ensures SplitLines(DataLine(text) + "\n\n") == [DataLine(first)] + SplitLines(rest)
  {
    var s, k := Payload(text), FirstBreak(text);
    first := FirstFragment(text);
    FirstBreakOfPayload(text);
    SplitStep(s, |DATA| + k);
    rest := RestAfter(s, |DATA| + k);
  }

  /** The first line of a payload is the first fragment of its text. */
  lemma FirstBreakOfPayload(x: string)
    ensures FirstBreak(Payload(x)) == |DATA| + FirstBreak(x) < |Payload(x)|
    ensures Payload(x)[..|DATA| + FirstBreak(x)] == DataLine(FirstFragment(x))
  {
    var s := Payload(x);
    assert forall j :: 0 <= j < |DATA| ==> !IsBreak(DATA[j]);
    assert forall j :: 0 <= j < |DATA| ==> s[j] == DATA[j];
    assert forall j :: 0 <= j < |x| ==> s[|DATA| + j] == x[j];
    assert s[|DATA| + |x|] == '\n';
    FirstBreakIs(s, |DATA| + FirstBreak(x));
  }

  /**
   `_event_message` recovers a printed text exactly when it holds no line break of any kind: JSON
   printed with its non-ASCII characters kept may hold U+2028, say.
   */
  lemma GrpcRecoversIff(id: nat, text: string, terminal: bool, toInt: ToInt)
    requires text != DONE_TEXT && ReadsDecimals(toInt)
    ensures MessageOf(ScanLines(SplitLines(Framed(id, DataLine(text))), toInt), terminal) == Message(id, text)
            <==> OneLine(text)
  {
    if OneLine(text) {
      SplitFramed(id, text);
      ScanFramed(id, text, toInt);
    } else {
      BrokenIsShorter(id, text, toInt);
    }
  }

  // ---------------------------------------------------------------- which events count as DONE

  lemma BlankLines()
    ensures SplitLines("\n") == [""] && SplitLines("\n\n") == ["", ""] && SplitLines("") == []
  {
    assert FirstBreak("\n") == 0 && FirstBreak("\n\n") == 0;
    SplitStep("\n", 0);
    SplitStep("\n\n", 0);
    assert "\n"[..0] == "" && "\n"[1..] == "" && "\n\n"[..0] == "" && "\n\n"[1..] == "\n";
  }

  lemma BreakStays(b: string)
    ensures FirstBreak(b + "\n\n") == FirstBreak(b)
  {
    var s := b + "\n\n";
    assert forall j :: 0 <= j < |b| ==> s[j] == b[j];
    assert s[|b|] == '\n';
    FirstBreakIs(s, FirstBreak(b));
  }

  /** Where the first break of `b` leads when a blank line is added. */
  lemma RestGrows(b: string, i: nat)
    requires i < |b|
    ensures (b + "\n\n")[..i] == b[..i]
    ensures RestAfter(b + "\n\n", i) == if b[i] == '\r' && i + 1 == |b| then "\n" else RestAfter(b, i) + "\n\n"
  {
    var s := b + "\n\n";
    assert s[i] == b[i];
    if i + 1 < |b| {
      assert s[i + 1] == b[i + 1];
      assert s[i + 1..] == b[i + 1..] + "\n\n";
      assert i + 2 <= |b| && s[i + 2..] == b[i + 2..] + "\n\n";
    } else {
      assert s[i + 1] == '\n' && s[i + 1..] == "\n\n" && s[i + 2..] == "\n";
    }
  }

  lemma RestAtEnd(b: string)
    ensures (b + "\n\n")[..|b|] == b && RestAfter(b + "\n\n", |b|) == "\n"
  {
    var s := b + "\n\n";
    assert s[|b|] == '\n' && s[|b| + 1..] == "\n";
  }

  /** A blank line at the end adds nothing but blank lines. */
  lemma {:induction false} BlankEndAdds(b: string, line: string)
    requires line != ""
    ensures line in SplitLines(b + "\n\n") <==> line in SplitLines(b)
    decreases |b|
  {
    var s, i := b + "\n\n", FirstBreak(b);
    BlankLines();
    BreakStays(b);
    SplitStep(s, i);
    if i == |b| {
      RestAtEnd(b);
      if b != "" {
        SplitWhole(b);
      }
    } else {
      RestGrows(b, i);
      SplitStep(b, i);
      if b[i] == '\r' && i + 1 == |b| {
        assert RestAfter(b, i) == "";
      } else {
        BlankEndAdds(RestAfter(b, i), line);
      }
    }
  }

  /** `_is_done_event` holds of a printed event exactly when some line of its body is the marker. */
  lemma DoneEventIff(id: nat, body: string)
    ensures DataLine(DONE_TEXT) in SplitLines(Framed(id, body)) <==> DataLine(DONE_TEXT) in SplitLines(body)
  {
    FramedSplits(id, body);
    BlankEndAdds(body, DataLine(DONE_TEXT));
    assert IdLine(id)[0] != DataLine(DONE_TEXT)[0];
  }

  /** For a body of one data line that is the marker itself. */
  lemma DoneLineIff(text: string)
    requires OneLine(text)
    ensures DataLine(DONE_TEXT) in SplitLines(DataLine(text)) <==> text == DONE_TEXT
  {
    LinesOfEvent(0, text);
    assert FirstBreak(DataLine(text)) == |DataLine(text)|;
    assert DataLine(text)[|DATA|..] == text && DataLine(DONE_TEXT)[|DATA|..] == DONE_TEXT;
    assert SplitLines(DataLine(text)) == [DataLine(text)];
  }

  /** The id line is one line of its own. */
  lemma FramedSplits(id: nat, body: string)
    ensures SplitLines(Framed(id, body)) == [IdLine(id)] + SplitLines(body + "\n\n")
  {
    LinesOfEvent(id, "");
    assert Framed(id, body) == IdLine(id) + "\n" + (body + "\n\n");
    FirstLine(IdLine(id), body + "\n\n");
  }

  /** The first of several lines, whichever break ends it. */
  lemma FirstOfTwo(first: string, c: char, rest: string)
    requires OneLine(first) && IsBreak(c) && (rest == "" || rest[0] != '\n')
    ensures SplitLines(first + [c] + rest) == [first] + SplitLines(rest)
  {
    var s := first + [c] + rest;
    assert forall j :: 0 <= j < |first| ==> s[j] == first[j];
    assert s[|first|] == c && s[..|first|] == first && s[|first| + 1..] == rest;
    FirstBreakIs(s, |first|);
    SplitStep(s, |first|);
  }

  lemma TwoSplit(b: string, d: char, y: string)
    requires OneLine(b) && OneLine(y) && y != "" && IsBreak(d)
    ensures SplitLines(b + [d] + (y + "\n\n")) == [b, y, ""]
  {
    assert (y + "\n\n")[0] == y[0];
    FirstOfTwo(b, d, y + "\n\n");
    SplitOneLine(y);
  }

  lemma ThreeSplit(a: string, c: char, b: string, d: char, y: string)
    requires OneLine(a) && OneLine(b) && OneLine(y) && b != "" && y != "" && IsBreak(c) && IsBreak(d)
    ensures SplitLines(a + [c] + b + [d] + y + "\n\n") == [a, b, y, ""]
  {
    var more := b + [d] + (y + "\n\n");
    assert more[0] == b[0];
    Regrouped(a, [c], b, [d], y, "\n\n");
    FirstOfTwo(a, c, more);
    TwoSplit(b, d, y);
  }

  lemma Regrouped(a: string, c: string, b: string, d: string, y: string, end: string)
    ensures a + c + b + d + y + end == a + c + (b + d + (y + end))
  {
  }

  lemma ScanMore(lines: seq<string>, line: string, toInt: ToInt)
    requires ScanLines(lines, toInt).Scan? && !StartsWith(line, ID)
    ensures var scan := ScanLines(lines, toInt);
            ScanLines(lines + [line], toInt) ==
            scan.(data := scan.data + if StartsWith(line, DATA) then [line[|DATA|..]] else [])
  {
    assert (lines + [line])[..|lines|] == lines;
  }

  /** A text with a break before and after the marker line, as a JSON string that holds U+2028 twice prints it. */
  function MarkerBetween(x: string, c: char, d: char, y: string): string {
    x + [c] + DataLine(DONE_TEXT) + [d] + y
  }

  /** The tail is no line that the bridge reads. */
  predicate PlainTail(y: string) {
    OneLine(y) && y != "" && !StartsWith(y, ID) && !StartsWith(y, DATA)
  }

  /** Printing turns both breaks into newlines, whatever the rewriting does to the first line. */
  lemma MarkerPrinted(id: nat, x: string, c: char, d: char, y: string, stamp: Stamp)
    requires OneLine(x) && IsBreak(c) && IsBreak(d) && PlainTail(y)
    ensures Printed(id, Payload(MarkerBetween(x, c, d, y)), stamp) == Framed(id, MarkerBody(Carried(id, x, stamp), y))
  {
    var g := Carried(id, x, stamp);
    MarkerLines(x, c, d, y);
    MarkerStamped(id, x, y, stamp);
    FourJoined(DataLine(g), DataLine(DONE_TEXT), y);
    BodyStripped(MarkerBody(g, y), y);
  }

  function MarkerBody(g: string, y: string): string {
    DataLine(g) + ['\n'] + DataLine(DONE_TEXT) + ['\n'] + y
  }

  lemma BodyStripped(body: string, y: string)
    requires PlainTail(y) && |body| >= |y| && body[|body| - |y|..] == y
    ensures RStripNewlines(body + "\n") == body
  {
    assert body[|body| - 1] == y[|y| - 1];
    StripOne(body);
  }

  lemma MarkerLines(x: string, c: char, d: char, y: string)
    requires OneLine(x) && IsBreak(c) && IsBreak(d) && PlainTail(y)
    ensures SplitLines(Payload(MarkerBetween(x, c, d, y))) == [DataLine(x), DataLine(DONE_TEXT), y, ""]
  {
    LinesOfEvent(0, x);
    LinesOfEvent(0, DONE_TEXT);
    Prefixed(DATA, x, [c], DataLine(DONE_TEXT), [d], y, "\n\n");
    ThreeSplit(DataLine(x), c, DataLine(DONE_TEXT), d, y);
  }

  lemma Prefixed(p: string, x: string, c: string, m: string, d: string, y: string, end: string)
    ensures p + (x + c + m + d + y) + end == p + x + c + m + d + y + end
  {
  }

  lemma MarkerStamped(id: nat, x: string, y: string, stamp: Stamp)
    requires PlainTail(y)
    ensures StampFirst(id, [DataLine(x), DataLine(DONE_TEXT), y, ""], stamp) ==
            [DataLine(Carried(id, x, stamp)), DataLine(DONE_TEXT), y, ""]
  {
    var lines := [DataLine(x), DataLine(DONE_TEXT), y, ""];
    OnlyDoneIsDone(x);
    OnlyDoneIsDone(DONE_TEXT);
    if x == DONE_TEXT {
      assert forall i :: 0 <= i < 4 ==> !Stampable(lines[i]);
    }
  }

  lemma FourJoined(a: string, b: string, c: string)
    ensures JoinLines([a, b, c, ""]) == a + ['\n'] + b + ['\n'] + c + "\n"
  {
    assert [a, b, c, ""][1..] == [b, c, ""] && [b, c, ""][1..] == [c, ""] && [c, ""][1..] == [""];
    assert JoinLines([c, ""]) == c + "\n";
    assert JoinLines([b, c, ""]) == b + ['\n'] + (c + "\n");
  }

  lemma MarkerScans(id: nat, g: string, y: string, toInt: ToInt)
    requires ReadsDecimals(toInt) && PlainTail(y)
    ensures ScanLines([IdLine(id), DataLine(g), DataLine(DONE_TEXT), y, ""], toInt) == Scan(Some(id), [g, DONE_TEXT])
  {
    var two := [IdLine(id), DataLine(g)];
    HeadScans(id, g, toInt);
    assert DataLine(DONE_TEXT)[0] != ID[0] && DataLine(DONE_TEXT)[|DATA|..] == DONE_TEXT;
    ScanMore(two, DataLine(DONE_TEXT), toInt);
    ScanMore(two + [DataLine(DONE_TEXT)], y, toInt);
    ScanMore(two + [DataLine(DONE_TEXT)] + [y], "", toInt);
    assert two + [DataLine(DONE_TEXT)] + [y] + [""] == [IdLine(id), DataLine(g), DataLine(DONE_TEXT), y, ""];
  }

  lemma TwoJoined(x: string)
    ensures JoinLines([x, DONE_TEXT]) == x + ['\n'] + DONE_TEXT && JoinLines([x, DONE_TEXT]) != DONE_TEXT
  {
    assert [x, DONE_TEXT][1..] == [DONE_TEXT];
    assert JoinLines([x, DONE_TEXT])[|x|] == '\n';
  }

  lemma MarkerBodySplits(g: string, y: string)
    requires OneLine(g) && PlainTail(y)
    ensures SplitLines(MarkerBody(g, y) + "\n\n") == [DataLine(g), DataLine(DONE_TEXT), y, ""]
  {
    LinesOfEvent(0, g);
    LinesOfEvent(0, DONE_TEXT);
    ThreeSplit(DataLine(g), '\n', DataLine(DONE_TEXT), '\n', y);
  }

  lemma MarkerBodyLines(id: nat, g: string, y: string)
    requires OneLine(g) && PlainTail(y)
    ensures SplitLines(Framed(id, MarkerBody(g, y))) == [IdLine(id), DataLine(g), DataLine(DONE_TEXT), y, ""]
  {
    MarkerBodySplits(g, y);
    FramedSplits(id, MarkerBody(g, y));
    FiveLines(IdLine(id), DataLine(g), DataLine(DONE_TEXT), y);
  }

  lemma FiveLines(a: string, b: string, c: string, d: string)
    ensures [a] + [b, c, d, ""] == [a, b, c, d, ""]
  {
  }

  /**
   So an ordinary event can count as DONE: one whose text holds the marker line between two breaks
   such as U+2028, and goes on after it. The bridge then waits for the end of a run that may still
   be going, although `_event_message` reads a message like any other.
   */
  lemma OrdinaryEventCountsAsDone(id: nat, x: string, c: char, d: char, y: string, stamp: Stamp, toInt: ToInt, terminal: bool)
    requires OneLine(x) && IsBreak(c) && IsBreak(d) && PlainTail(y)
    requires OneLine(Carried(id, x, stamp)) && ReadsDecimals(toInt)
    ensures var lines := SplitLines(Printed(id, Payload(MarkerBetween(x, c, d, y)), stamp));
            && DataLine(DONE_TEXT) in lines
            && MessageOf(ScanLines(lines, toInt), terminal) == Message(id, Carried(id, x, stamp) + ['\n'] + DONE_TEXT)
  {
    MarkerPrinted(id, x, c, d, y, stamp);
    MarkerRead(id, Carried(id, x, stamp), y, toInt, terminal);
  }

  lemma MarkerRead(id: nat, g: string, y: string, toInt: ToInt, terminal: bool)
    requires OneLine(g) && PlainTail(y) && ReadsDecimals(toInt)
    ensures var lines := SplitLines(Framed(id, MarkerBody(g, y)));
            && DataLine(DONE_TEXT) in lines
            && MessageOf(ScanLines(lines, toInt), terminal) == Message(id, g + ['\n'] + DONE_TEXT)
  {
    MarkerBodyLines(id, g, y);
    MarkerScans(id, g, y, toInt);
    TwoJoined(g);
  }

  // ---------------------------------------------------------------- the browser

  lemma {:induction false} LinesFirst(a: string, rest: string)
    requires '\n' !in a
    ensures Lines(a + "\n" + rest) == [a] + Lines(rest)
  {
    var s := a + "\n" + rest;
    if a == "" {
      assert s[1..] == rest;
    } else {
      assert s[1..] == a[1..] + "\n" + rest;
      LinesFirst(a[1..], rest);
      assert [a[0]] + a[1..] == a;
    }
  }

  lemma {:induction false} InterpretConcat(f: Fields, a: seq<string>, b: seq<string>)
    ensures InterpretAll(f, a + b) == InterpretAll(InterpretAll(f, a), b)
  {
    if b == [] {
      assert a + b == a;
    } else {
      assert (a + b)[..|a + b| - 1] == a + b[..|b| - 1];
      InterpretConcat(f, a, b[..|b| - 1]);
    }
  }

  lemma {:induction false} DataKept(f: Fields, lines: seq<string>)
    ensures f.data <= InterpretAll(f, lines).data
  {
    if lines != [] {
      DataKept(f, lines[..|lines| - 1]);
    }
  }

  /** The two lines every printed event begins with. */
  function EventHead(id: nat, g: string): string {
    IdLine(id) + "\n" + DataLine(g)
  }

  /** A block that begins like a printed event carries the first text first. */
  lemma HeadCarriesFirst(id: nat, g: string, more: string)
    requires '\n' !in g && (more == "" || more[0] == '\n')
    ensures var f := FieldsOf(EventHead(id, g) + more, None);
            f.data != [] && f.data[0] == g
  {
    var start := Fields([], None, None, None);
    var two := [IdLine(id), DataLine(g)];
    LinesOfEvent(id, g);
    HeadLines(id, g, more);
    var lines := Lines(EventHead(id, g) + more);
    IdField(start, id);
    DataField(Interpret(start, IdLine(id)), g);
    TwoInterpreted(start, IdLine(id), DataLine(g));
    assert lines == two + lines[2..];
    InterpretConcat(start, two, lines[2..]);
    DataKept(InterpretAll(start, two), lines[2..]);
  }

  lemma HeadLines(id: nat, g: string, more: string)
    requires '\n' !in g && (more == "" || more[0] == '\n')
    ensures var lines := Lines(EventHead(id, g) + more);
            |lines| >= 2 && lines[..2] == [IdLine(id), DataLine(g)]
  {
    LinesOfEvent(id, g);
    assert EventHead(id, g) + more == IdLine(id) + "\n" + (DataLine(g) + more);
    LinesFirst(IdLine(id), DataLine(g) + more);
    if more == "" {
      assert DataLine(g) + more == DataLine(g);
      OneLineIsOneLine(DataLine(g));
    } else {
      assert DataLine(g) + more == DataLine(g) + "\n" + more[1..];
      LinesFirst(DataLine(g), more[1..]);
    }
  }

  lemma {:induction false} NoBoundaryInside(a: string, rest: string)
    requires a != "" && Boundary(a).None? && a[|a| - 1] != '\n'
    ensures Boundary(a + rest).Some? ==> Boundary(a + rest).value >= |a|
  {
    var s := a + rest;
    if |a| > 1 {
      assert s[0] == a[0] && s[1] == a[1] && s[1..] == a[1..] + rest;
      NoBoundaryInside(a[1..], rest);
    } else {
      assert s[0] == a[0];
    }
  }

  /** The first block of a text that begins like a printed event begins so, too. */
  lemma FirstBlockHasHead(id: nat, g: string, rest: string) returns (more: string, blocks: seq<string>)
    requires '\n' !in g && rest != "" && rest[0] == '\n'
    ensures AllBlocks(EventHead(id, g) + rest) == [EventHead(id, g) + more] + blocks
    ensures more == "" || more[0] == '\n'
  {
    var head := EventHead(id, g);
    var s := head + rest;
    LinesOfEvent(id, g);
    TwoLines(IdLine(id), DataLine(g));
    assert head[|head| - 1] == DataLine(g)[|DataLine(g)| - 1];
    NoBoundaryInside(head, rest);
    match Boundary(s)
    case None =>
      more, blocks := rest, [];
      assert Rest(s) == s && AllBlocks(s) == [s];
    case Some(b) =>
      more, blocks := rest[..b - |head|], AllBlocks(s[b + 2..]);
      assert s[..b] == head + more;
      FirstBlock(s, s[..b], s[b + 2..]);
      assert AllBlocks(s) == [s[..b]] + AllBlocks(s[b + 2..]);
  }

  /** So its first event carries the first text, alone or as the first of several lines. */
  lemma FirstEventCarries(id: nat, g: string, rest: string)
    requires '\n' !in g && '\r' !in g && rest != "" && rest[0] == '\n'
    ensures var events := Parse(EventHead(id, g) + rest);
            events != [] && (events[0].data == g || '\n' in events[0].data)
  {
    var head := EventHead(id, g);
    HeadNormalizes(id, g, rest);
    var more, blocks := FirstBlockHasHead(id, g, Normalize(rest));
    HeadCarriesFirst(id, g, more);
    EventsOfFirst(head + more, blocks, None, FieldsOf(head + more, None).id);
    JoinStartsWithFirst(FieldsOf(head + more, None).data);
  }

  lemma HeadNormalizes(id: nat, g: string, rest: string)
    requires '\r' !in g && rest != "" && rest[0] == '\n'
    ensures Normalize(EventHead(id, g) + rest) == EventHead(id, g) + Normalize(rest)
    ensures Normalize(rest) != "" && Normalize(rest)[0] == '\n'
  {
    var head := EventHead(id, g);
    LinesOfEvent(id, g);
    NormalizeUnchanged(head);
    NormalizeConcat(head, rest);
  }

  lemma JoinStartsWithFirst(data: seq<string>)
    requires data != []
    ensures JoinLines(data) == data[0] || '\n' in JoinLines(data)
  {
    if |data| > 1 {
      assert JoinLines(data)[|data[0]|] == '\n';
    }
  }

  lemma {:induction false} RStripKeeps(a: string, b: string) returns (kept: string)
    requires a != "" && a[|a| - 1] != '\n' && (b == "" || b[0] == '\n')
    ensures RStripNewlines(a + b) == a + kept && (kept == "" || kept[0] == '\n')
    decreases |b|
  {
    if b == "" {
      kept := "";
      assert a + b == a;
    } else if b[|b| - 1] == '\n' {
      assert (a + b)[..|a + b| - 1] == a + b[..|b| - 1];
      kept := RStripKeeps(a, b[..|b| - 1]);
    } else {
      kept := b;
      assert (a + b)[|a + b| - 1] == b[|b| - 1];
    }
  }

  /** The first line of a payload, and what is printed for it. */
  lemma FirstPayloadLine(id: nat, x: string, stamp: Stamp)
    ensures var lines := StampFirst(id, SplitLines(Payload(x)), stamp);
            lines != [] && lines[0] == DataLine(Carried(id, FirstFragment(x), stamp))
  {
    var s, f := Payload(x), FirstFragment(x);
    FirstBreakOfPayload(x);
    SplitStep(s, |DATA| + |f|);
    OnlyDoneIsDone(f);
    assert SplitLines(s)[0] == DataLine(f);
  }

  /** Every printed event begins with its id and what is carried for the first fragment of its text. */
  lemma PrintedHead(id: nat, x: string, stamp: Stamp) returns (rest: string)
    requires '\n' !in Carried(id, FirstFragment(x), stamp)
    ensures Printed(id, Payload(x), stamp) == EventHead(id, Carried(id, FirstFragment(x), stamp)) + rest
    ensures rest != "" && rest[0] == '\n'
  {
    var g := Carried(id, FirstFragment(x), stamp);
    FirstPayloadLine(id, x, stamp);
    var kept := BodyHead(StampFirst(id, SplitLines(Payload(x)), stamp), g);
    rest := kept + "\n\n";
    assert Framed(id, DataLine(g) + kept) == EventHead(id, g) + rest;
  }

  lemma BodyHead(lines: seq<string>, g: string) returns (kept: string)
    requires lines != [] && lines[0] == DataLine(g) && '\n' !in g
    ensures RStripNewlines(JoinLines(lines)) == DataLine(g) + kept && (kept == "" || kept[0] == '\n')
  {
    LinesOfEvent(0, g);
    var tail := if |lines| == 1 then "" else ['\n'] + JoinLines(lines[1..]);
    assert JoinLines(lines) == DataLine(g) + tail;
    kept := RStripKeeps(DataLine(g), tail);
  }

  /**
   The browser gets back what is carried for a text, rewritten or not, exactly when the text is one
   line. Nothing is asked of the rewriting but that it prints no newline, and that cutting the text
   at its first break changes what is carried: a piece of a JSON object is no JSON object.
   */
  lemma BrowserRecoversIff(id: nat, x: string, stamp: Stamp)
    requires '\n' !in Carried(id, x, stamp) && '\r' !in Carried(id, x, stamp)
    requires !OneLine(x) ==>
               var cut := Carried(id, FirstFragment(x), stamp);
               '\n' !in cut && '\r' !in cut && cut != Carried(id, x, stamp)
    ensures Parse(Printed(id, Payload(x), stamp)) == [SseEvent(Carried(id, x, stamp), None, Some(Decimal(id)), None)]
            <==> OneLine(x)
  {
    if OneLine(x) {
      OneEventRecovered(id, x, stamp);
    } else {
      var rest := PrintedHead(id, x, stamp);
      FirstEventCarries(id, Carried(id, FirstFragment(x), stamp), rest);
    }
  }

  lemma OneEventRecovered(id: nat, x: string, stamp: Stamp)
    requires Printable(Event(id, x), stamp)
    ensures Parse(Printed(id, Payload(x), stamp)) == [SseEvent(Carried(id, x, stamp), None, Some(Decimal(id)), None)]
  {
    var item := Event(id, x);
    StreamRoundTrip([item], stamp);
    OnlyItem(item, stamp);
  }

  lemma OnlyItem(item: Item, stamp: Stamp)
    ensures StreamText([item], stamp) == TextOf(item, stamp)
    ensures Expected([item], stamp) == EventOf(item, stamp)
  {
    assert [item][1..] == [];
    assert TextOf(item, stamp) + "" == TextOf(item, stamp) && EventOf(item, stamp) + [] == EventOf(item, stamp);
  }
}
