/**
 The producer side: `format_buffered_sse` prints an event, `_event_message` reads one
 chunk back for gRPC, and the browser's parser reads the whole stream back.
 */
module SsePrinter {
  import opened Prelude
  import opened SseParser

  // ---------------------------------------------------------------- Python text

  /** The characters at which Python's `str.splitlines` ends a line. */
  predicate IsBreak(c: char) {
    c in "\n\r\U{0B}\U{0C}\U{1C}\U{1D}\U{1E}\U{85}\U{2028}\U{2029}"
  }

  predicate OneLine(s: string) {
    forall i :: 0 <= i < |s| ==> !IsBreak(s[i])
  }

  function FirstBreak(s: string): (i: nat)
    ensures i <= |s|
    ensures forall j :: 0 <= j < i ==> !IsBreak(s[j])
    ensures i < |s| ==> IsBreak(s[i])
  {
    if s == "" || IsBreak(s[0]) then 0 else 1 + FirstBreak(s[1..])
  }

  /** What follows the break at `i`. */
  function RestAfter(s: string, i: nat): (rest: string)
    requires i < |s|
    ensures |rest| < |s|
  {
    if s[i] == '\r' && i + 1 < |s| && s[i + 1] == '\n' then s[i + 2..] else s[i + 1..]
  }

  lemma {:induction false} FirstBreakIs(s: string, i: nat)
    requires i <= |s| && (i < |s| ==> IsBreak(s[i])) && forall j :: 0 <= j < i ==> !IsBreak(s[j])
    ensures FirstBreak(s) == i
  {
    if i > 0 {
      FirstBreakIs(s[1..], i - 1);
    }
  }

  /** `str.splitlines`: no empty line after a final break, and `\r\n` is one break. */
  function SplitLines(s: string): seq<string>
    decreases |s|
  {
    if s == "" then []
    else
      var i := FirstBreak(s);
      if i == |s| then [s] else [s[..i]] + SplitLines(RestAfter(s, i))
  }

  /** `str.rstrip("\n")`. */
  function RStripNewlines(s: string): string {
    if s != "" && s[|s| - 1] == '\n' then RStripNewlines(s[..|s| - 1]) else s
  }

  function Digit(d: nat): char
    requires d < 10
  {
    '0' + d as char
  }

  function Decimal(n: nat): string {
    if n < 10 then [Digit(n)] else Decimal(n / 10) + [Digit(n % 10)]
  }

  // ---------------------------------------------------------------- printing

  const ID := "id: "
  const DATA := "data: "
  const DONE_TEXT := "[DONE]"

  /**
   The JSON rewrite of a data line: the object with `event_id` set, printed again, or
   nothing when the text is not JSON or not an object.
   */
  type Stamp = (nat, string) -> Option<string>

  predicate Stampable(line: string) {
    StartsWith(line, DATA) && line != DATA + DONE_TEXT
  }

  function StampedLine(id: nat, line: string, stamp: Stamp): string
    requires Stampable(line)
  {
    match stamp(id, line[|DATA|..])
    case None => line
    case Some(text) => DATA + text
  }

  function FirstStampable(lines: seq<string>): (i: nat)
    ensures i <= |lines|
    ensures forall j :: 0 <= j < i ==> !Stampable(lines[j])
    ensures i < |lines| ==> Stampable(lines[i])
  {
    if lines == [] || Stampable(lines[0]) then 0 else 1 + FirstStampable(lines[1..])
  }

  /** Only the first data line that is not DONE is considered. */
  function StampFirst(id: nat, lines: seq<string>, stamp: Stamp): seq<string> {
    var i := FirstStampable(lines);
    if i < |lines| then lines[i := StampedLine(id, lines[i], stamp)] else lines
  }

  /** Line by line: the first data line that is not the marker may be rewritten, and no other line is. */
  lemma StampedAt(id: nat, lines: seq<string>, stamp: Stamp, i: nat)
    requires i < |lines|
    ensures |StampFirst(id, lines, stamp)| == |lines|
    ensures var first := "data: " <= lines[i] && lines[i] != "data: [DONE]"
                         && forall j :: 0 <= j < i && "data: " <= lines[j] ==> lines[j] == "data: [DONE]";
            StampFirst(id, lines, stamp)[i] ==
            if first && stamp(id, lines[i][6..]).Some? then "data: " + stamp(id, lines[i][6..]).value else lines[i]
  {
    var first := FirstStampable(lines);
    assert DATA + DONE_TEXT == "data: [DONE]";
    assert first < i ==> Stampable(lines[first]);
    assert forall j :: 0 <= j < first ==> !Stampable(lines[j]);
  }

  function IdLine(id: nat): string {
    ID + Decimal(id)
  }

  function DataLine(text: string): string {
    DATA + text
  }

  function Framed(id: nat, body: string): string {
    IdLine(id) + "\n" + body + "\n\n"
  }

  function Printed(id: nat, payload: string, stamp: Stamp): string {
    Framed(id, RStripNewlines(JoinLines(StampFirst(id, SplitLines(payload), stamp))))
  }

  /** `format_buffered_sse`. */
  method FormatBufferedSse(id: nat, payload: string, stamp: Stamp) returns (text: string)
    ensures text == Printed(id, payload, stamp)
  {
    var lines := SplitLines(payload);
    var index := 0;
    while index < |lines|
      invariant index <= |lines| && lines == SplitLines(payload)
      invariant forall j :: 0 <= j < index ==> !Stampable(lines[j])
    {
      var line := lines[index];
      if !Stampable(line) {
        index := index + 1;
        continue;
      }
      var data := stamp(id, line[|DATA|..]);
      assert lines[index := line] == lines;
      if data.Some? {
        lines := lines[index := DATA + data.value];
      }
      break;
    }
    assert lines == StampFirst(id, SplitLines(payload), stamp);
    var body := RStripNewlines(JoinLines(lines));
    text := Framed(id, body);
  }

  /** The payload of one event with text `x`, as every producer writes it. */
  function Payload(x: string): string {
    DATA + x + "\n\n"
  }

  /** What a reader should get back for `x`. */
  function Carried(id: nat, x: string, stamp: Stamp): string {
    if x == DONE_TEXT then x
    else match stamp(id, x)
      case None => x
      case Some(text) => text
  }

  lemma SplitOneLine(line: string)
    requires OneLine(line) && line != ""
    ensures SplitLines(line + "\n\n") == [line, ""]
  {
    var s := line + "\n\n";
    assert FirstBreak(s) == |line| by {
      assert s[|line|] == '\n';
      assert forall j :: 0 <= j < |line| ==> s[j] == line[j];
    }
    assert s[..|line|] == line && s[|line| + 1..] == "\n";
    assert FirstBreak("\n") == 0;
    assert "\n"[..0] == "" && "\n"[1..] == "";
    assert SplitLines("\n") == [""];
  }

  lemma StripOne(s: string)
    requires s == "" || s[|s| - 1] != '\n'
    ensures RStripNewlines(s + "\n") == s
  {
    assert (s + "\n")[..|s|] == s;
  }

  lemma OnlyDoneIsDone(x: string)
    ensures Stampable(DATA + x) <==> x != DONE_TEXT
    ensures (DATA + x)[|DATA|..] == x
    ensures !Stampable("")
  {
    assert (DATA + x)[|DATA|..] == x;
    assert (DATA + DONE_TEXT)[|DATA|..] == DONE_TEXT;
  }

  /** A one-line event is printed as its id line, one data line and a blank line. */
  lemma PrintedForm(id: nat, x: string, stamp: Stamp)
    requires OneLine(x)
    requires Carried(id, x, stamp) == "" || Carried(id, x, stamp)[|Carried(id, x, stamp)| - 1] != '\n'
    ensures Printed(id, Payload(x), stamp) == Framed(id, DataLine(Carried(id, x, stamp)))
  {
    var line, first := DATA + x, DATA + Carried(id, x, stamp);
    assert Payload(x) == line + "\n\n";
    SplitOneLine(line);
    OnlyDoneIsDone(x);
    StampOnly(id, x, stamp);
    assert JoinLines([first, ""]) == first + "\n";
    StripOne(first);
  }

  lemma StampOnly(id: nat, x: string, stamp: Stamp)
    ensures StampFirst(id, [DATA + x, ""], stamp) == [DATA + Carried(id, x, stamp), ""]
  {
    OnlyDoneIsDone(x);
    assert [DATA + x, ""][1..] == [""] && [""][1..] == [];
  }
}
