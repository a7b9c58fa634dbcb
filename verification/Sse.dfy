/**
 * Server-sent events: the text the server's writer prints and the client's buffered frame parser
 * (sections 9.2.5 and 9.2.6 of the WHATWG HTML standard, in the subset both sides use).
 */
module Sse {
  import opened Seqs

  datatype Message = Message(event: string, data: string)
  datatype Parsed = Parsed(event: string, data: string, id: Option<string>)

  // ── The writer ───────────────────────────────────────────────────────────

  /** data is JSON text. */
  function SendText(m: Message): string {
    "event: " + m.event + "\n" + "data: " + m.data + "\n\n"
  }

  /** What the response carries: a message, or the keepalive comment. */
  const COMMENT := ":keepalive"

  datatype Item = Send(m: Message) | Keepalive

  function ItemText(item: Item): string {
    match item
    case Send(m) => SendText(m)
    case Keepalive => COMMENT + "\n\n"
  }

  function StreamText(items: seq<Item>): string {
    if items == [] then "" else ItemText(items[0]) + StreamText(items[1..])
  }

  // ── The parser's pieces ──────────────────────────────────────────────────

  predicate BlankAt(s: string, i: nat) {
    i + 1 < |s| && s[i] == '\n' && s[i + 1] == '\n'
  }

  /** indexOf of the blank line; -1 when there is none. */
  function FindBlank(s: string): (i: int)
    ensures -1 <= i
    ensures i >= 0 ==> BlankAt(s, i) && forall j: nat :: j < i ==> !BlankAt(s, j)
    ensures i < 0 ==> forall j: nat :: !BlankAt(s, j)
  {
    if |s| < 2 then -1
    else if BlankAt(s, 0) then 0
    else
      var r := FindBlank(s[1..]);
      assert forall j: nat :: j > 0 && BlankAt(s, j) ==> BlankAt(s[1..], j - 1);
      if r < 0 then -1 else
        assert BlankAt(s, r + 1);
        r + 1
  }

  /** split("\n") */
  function Lines(s: string): (lines: seq<string>)
    ensures |lines| >= 1
    ensures forall l :: l in lines ==> '\n' !in l
    decreases |s|
  {
    var i := IndexOf(s, '\n');
    if i < 0 then [s] else [s[..i]] + Lines(s[i + 1..])
  }

  datatype Fields = Fields(event: string, data: string, id: Option<string>)

  const BLANK := Fields("", "", None)

  function StripSpace(s: string): string {
    if s != "" && s[0] == ' ' then s[1..] else s
  }

  function ReadLine(f: Fields, line: string): Fields {
    if line != "" && line[0] == ':' then f
    else
      var colon := IndexOf(line, ':');
      if colon < 0 then f
      else
        var field, value := line[..colon], StripSpace(line[colon + 1..]);
        if field == "event" then f.(event := value)
        else if field == "data" then f.(data := f.data + (if f.data != "" then "\n" else "") + value)
        else if field == "id" then f.(id := Some(value))
        else f
  }

  function ReadLines(f: Fields, lines: seq<string>): Fields
    decreases |lines|
  {
    if lines == [] then f else ReadLines(ReadLine(f, lines[0]), lines[1..])
  }

  function TrimNewline(s: string): string {
    if s != "" && s[|s| - 1] == '\n' then s[..|s| - 1] else s
  }

  /** dispatchFrame: nothing for a frame without event name or data. */
  function DispatchFrame(f: Fields): seq<Parsed> {
    var data := TrimNewline(f.data);
    if f.event != "" || data != "" then [Parsed(if f.event != "" then f.event else "message", data, f.id)] else []
  }

  function ParseFrame(frame: string): seq<Parsed> {
    DispatchFrame(ReadLines(BLANK, Lines(frame)))
  }

  datatype Parse = Parse(events: seq<Parsed>, rest: string)

  /** Every complete frame of the text, and the unfinished remainder. */
  function ParseText(text: string): Parse
    decreases |text|
  {
    var i := FindBlank(text);
    if i < 0 then Parse([], text)
    else
      var later := ParseText(text[i + 2..]);
      Parse(ParseFrame(text[..i]) + later.events, later.rest)
  }

  // ── Chunks ───────────────────────────────────────────────────────────────

  lemma BlankFits(s: string, i: nat)
    requires BlankAt(s, i)
    ensures i + 2 <= |s|
  {
  }

  lemma FindBlankAppend(text: string, more: string)
    requires FindBlank(text) >= 0
    ensures FindBlank(text + more) == FindBlank(text)
  {
    var i, j := FindBlank(text), FindBlank(text + more);
    assert forall k: nat :: k <= i ==> (BlankAt(text + more, k) <==> BlankAt(text, k));
  }

  lemma ParseNone(text: string)
    requires FindBlank(text) < 0
    ensures ParseText(text) == Parse([], text)
  {
  }

  lemma ParseStep(text: string)
    requires FindBlank(text) >= 0
    ensures var i := FindBlank(text); var later := ParseText(text[i + 2..]);
            ParseText(text) == Parse(ParseFrame(text[..i]) + later.events, later.rest)
  {
  }

  lemma {:induction false} RestIsUnfinished(text: string)
    ensures FindBlank(ParseText(text).rest) < 0
    decreases |text|
  {
    var i := FindBlank(text);
    if i < 0 {
      ParseNone(text);
    } else {
      RestIsUnfinished(text[i + 2..]);
      ParseStep(text);
    }
  }

  /** The parses of a text's prefix and of the remainder with what follows, put together. */
  function Resume(first: Parse, second: Parse): Parse {
    Parse(first.events + second.events, second.rest)
  }

  lemma SliceAppend(text: string, more: string, i: nat)
    requires i <= |text|
    ensures (text + more)[..i] == text[..i]
    ensures (text + more)[i..] == text[i..] + more
  {
  }

  lemma ParseAppendStep(text: string, more: string)
    requires FindBlank(text) >= 0
    ensures FindBlank(text + more) == FindBlank(text)
    ensures var i := FindBlank(text); var later := ParseText(text[i + 2..] + more);
            ParseText(text + more) == Parse(ParseFrame(text[..i]) + later.events, later.rest)
  {
    hide ParseFrame;
    hide ParseText;
    var i := FindBlank(text);
    FindBlankAppend(text, more);
    hide FindBlank;
    SliceAppend(text, more, i);
    SliceAppend(text, more, i + 2);
    ParseStep(text + more);
  }

  lemma ResumeFrame(frame: seq<Parsed>, first: Parse, second: Parse)
    ensures Resume(Parse(frame + first.events, first.rest), second)
         == Parse(frame + Resume(first, second).events, Resume(first, second).rest)
  {
    assert (frame + first.events) + second.events == frame + (first.events + second.events);
  }

  /** Parsing a prefix first, then the remainder with what follows, is parsing the whole. */
  lemma {:induction false} ParseAppend(text: string, more: string)
    ensures ParseText(text + more) == Resume(ParseText(text), ParseText(ParseText(text).rest + more))
    decreases |text|
  {
    hide ParseFrame;
    hide ParseText;
    hide BlankAt;
    var i := FindBlank(text);
    if i < 0 {
      ParseNone(text);
      assert [] + ParseText(text + more).events == ParseText(text + more).events;
    } else {
      assert i + 2 <= |text| by {
        assert BlankAt(text, i);
        BlankFits(text, i);
      }
      ParseAppend(text[i + 2..], more);
      ParseStep(text);
      ParseAppendStep(text, more);
      hide FindBlank;
      var first := ParseText(text[i + 2..]);
      ResumeFrame(ParseFrame(text[..i]), first, ParseText(first.rest + more));
    }
  }

  function Concat(chunks: seq<string>): string {
    if chunks == [] then "" else chunks[0] + Concat(chunks[1..])
  }

  /** The read loop over a whole response, from a given buffer. */
  function ParseChunks(buffer: string, chunks: seq<string>): Parse
    decreases |chunks|
  {
    if chunks == [] then Parse([], buffer)
    else
      var now := ParseText(buffer + chunks[0]);
      Resume(now, ParseChunks(now.rest, chunks[1..]))
  }

  /** However the text is cut, the same events are dispatched and the same remainder is kept. */
  lemma {:induction false} ChunkingIrrelevant(buffer: string, chunks: seq<string>)
    requires FindBlank(buffer) < 0
    ensures ParseChunks(buffer, chunks) == ParseText(buffer + Concat(chunks))
    decreases |chunks|
  {
    hide ParseText;
    if chunks == [] {
      assert buffer + "" == buffer;
      ParseNone(buffer);
    } else {
      var text := buffer + chunks[0];
      RestIsUnfinished(text);
      ChunkingIrrelevant(ParseText(text).rest, chunks[1..]);
      ParseAppend(text, Concat(chunks[1..]));
      assert text + Concat(chunks[1..]) == buffer + Concat(chunks);
    }
  }

  // ── One message ──────────────────────────────────────────────────────────

  predicate Clean(m: Message) {
    m.event != "" && '\n' !in m.event && '\n' !in m.data
  }

  /** A line is cut off at its newline. */
  lemma LinesCut(a: string, b: string)
    requires '\n' !in a
    ensures Lines(a + "\n" + b) == [a] + Lines(b)
  {
    var s := a + "\n" + b;
    assert s[..|a|] == a && s[|a| + 1..] == b;
    IndexOfIs(s, '\n', |a|);
  }

  lemma EventLine(f: Fields, value: string)
    ensures ReadLine(f, "event: " + value) == f.(event := value)
  {
    var line := "event: " + value;
    assert line[..5] == "event" && line[6..] == " " + value;
    assert ':' !in line[..5];
    IndexOfIs(line, ':', 5);
    assert (" " + value)[1..] == value;
  }

  lemma DataLine(f: Fields, value: string)
    requires f.data == ""
    ensures ReadLine(f, "data: " + value) == f.(data := value)
  {
    var line := "data: " + value;
    assert line[..4] == "data" && line[5..] == " " + value;
    assert ':' !in line[..4];
    IndexOfIs(line, ':', 4);
    assert (" " + value)[1..] == value;
    assert "" + "" + value == value;
  }

  /** The blank line that ends a frame is found at its end. */
  lemma FindBlankEnd(f: string, tail: string)
    requires FindBlank(f) < 0 && (f == "" || f[|f| - 1] != '\n')
    ensures FindBlank(f + "\n\n" + tail) == |f|
  {
    var text := f + "\n\n" + tail;
    assert BlankAt(text, |f|);
    forall j: nat | j < |f| ensures !BlankAt(text, j) {
      assert !BlankAt(f, j);
    }
    assert text[..|f|] == f;
  }

  lemma ParseCompleteFrame(f: string, tail: string)
    requires FindBlank(f) < 0 && (f == "" || f[|f| - 1] != '\n')
    ensures ParseText(f + "\n\n" + tail) == Resume(Parse(ParseFrame(f), ""), ParseText(tail))
  {
    var text := f + "\n\n" + tail;
    FindBlankEnd(f, tail);
    ParseStep(text);
    hide ParseText;
    assert text[..|f|] == f && text[|f| + 2..] == tail;
  }

  function Prefix(event: string): string {
    "event: " + event + "\n" + "data: "
  }

  /** A newline-free name and whatever follows "data: ". */
  lemma PrefixLines(event: string, z: string)
    requires '\n' !in event
    ensures ReadLines(BLANK, Lines(Prefix(event) + z))
         == ReadLines(Fields(event, "", None), Lines("data: " + z))
  {
    var first := "event: " + event;
    assert Prefix(event) + z == first + "\n" + ("data: " + z);
    LinesCut(first, "data: " + z);
    EventLine(BLANK, event);
    var lines := [first] + Lines("data: " + z);
    assert lines[0] == first && lines[1..] == Lines("data: " + z);
  }

  lemma SingleLine(s: string)
    requires '\n' !in s
    ensures Lines(s) == [s]
  {
  }

  lemma ReadSingle(f: Fields, line: string)
    ensures ReadLines(f, [line]) == ReadLine(f, line)
  {
    assert [line][1..] == [];
  }

  lemma CleanFrame(m: Message)
    requires Clean(m)
    ensures ParseFrame(Prefix(m.event) + m.data) == [Parsed(m.event, m.data, None)]
  {
    PrefixLines(m.event, m.data);
    SingleLine("data: " + m.data);
    ReadSingle(Fields(m.event, "", None), "data: " + m.data);
    DataLine(Fields(m.event, "", None), m.data);
    hide ReadLines;
    hide Lines;
    hide ReadLine;
    assert m.data != "" ==> m.data[|m.data| - 1] in m.data;
  }

  lemma CleanHasNoBlank(m: Message)
    requires Clean(m)
    ensures var f := Prefix(m.event) + m.data; FindBlank(f) < 0 && f[|f| - 1] != '\n'
  {
    var f := Prefix(m.event) + m.data;
    var name := "event: " + m.event;
    var at := |name|;
    assert forall j :: 0 <= j < at ==> f[j] == name[j] && name[j] != '\n';
    assert f[at..at + 7] == "\ndata: ";
    assert forall j :: at < j < at + 7 ==> f[j] == "\ndata: "[j - at] && f[j] != '\n';
    assert forall j :: at + 7 <= j < |f| ==> f[j] == m.data[j - at - 7] && f[j] != '\n';
  }

  lemma SendParses(m: Message, tail: string)
    requires Clean(m)
    ensures ParseText(SendText(m) + tail) == Resume(Parse([Parsed(m.event, m.data, None)], ""), ParseText(tail))
  {
    var f := Prefix(m.event) + m.data;
    assert SendText(m) + tail == f + "\n\n" + tail;
    CleanHasNoBlank(m);
    CleanFrame(m);
    ParseCompleteFrame(f, tail);
  }

  lemma KeepaliveFrame()
    ensures FindBlank(COMMENT) < 0 && ParseFrame(COMMENT) == []
    ensures COMMENT[|COMMENT| - 1] != '\n'
  {
    var f := COMMENT;
    assert forall j: nat :: !BlankAt(f, j);
    SingleLine(f);
    ReadSingle(BLANK, f);
  }

  lemma KeepaliveParses(tail: string)
    ensures ParseText(COMMENT + "\n\n" + tail) == ParseText(tail)
  {
    KeepaliveFrame();
    hide ParseText;
    hide ParseFrame;
    hide FindBlank;
    hide COMMENT;
    ParseCompleteFrame(COMMENT, tail);
    assert [] + ParseText(tail).events == ParseText(tail).events;
  }

  // ── A whole stream ───────────────────────────────────────────────────────

  function Delivered(items: seq<Item>): seq<Parsed> {
    if items == [] then []
    else (match items[0]
          case Send(m) => [Parsed(m.event, m.data, None)]
          case Keepalive => []) + Delivered(items[1..])
  }

  ghost predicate AllClean(items: seq<Item>) {
    forall x :: x in items && x.Send? ==> Clean(x.m)
  }

  /** Messages and keepalives in any mixture: the messages come out, in order, nothing left over. */
  lemma {:induction false} StreamRoundTrip(items: seq<Item>)
    requires AllClean(items)
    ensures ParseText(StreamText(items)) == Parse(Delivered(items), "")
    decreases |items|
  {
    if items == [] {
      ParseNone("");
    } else {
      var tail := StreamText(items[1..]);
      StreamRoundTrip(items[1..]);
      assert items[0] in items;
      match items[0] {
        case Send(m) => SendParses(m, tail);
        case Keepalive => KeepaliveParses(tail);
      }
      hide ParseText;
      assert Delivered(items) == (match items[0]
                                  case Send(m) => [Parsed(m.event, m.data, None)]
                                  case Keepalive => []) + Delivered(items[1..]);
      assert [] + Delivered(items[1..]) == Delivered(items[1..]);
    }
  }

  /** The same, received in arbitrary chunks. */
  lemma ChunkedStreamRoundTrip(items: seq<Item>, chunks: seq<string>)
    requires AllClean(items)
    requires Concat(chunks) == StreamText(items)
    ensures ParseChunks("", chunks) == Parse(Delivered(items), "")
  {
    ChunkingIrrelevant("", chunks);
    assert "" + Concat(chunks) == Concat(chunks);
    StreamRoundTrip(items);
  }

  // ── Which messages survive ───────────────────────────────────────────────

  lemma {:induction false} EventHasNoNewline(f: Fields, lines: seq<string>)
    requires '\n' !in f.event && forall l :: l in lines ==> '\n' !in l
    ensures '\n' !in ReadLines(f, lines).event
    decreases |lines|
  {
    if lines != [] {
      var line := lines[0];
      assert line in lines;
      assert forall i :: 0 <= i < |line| ==> line[i] in line;
      EventHasNoNewline(ReadLine(f, line), lines[1..]);
    }
  }

  lemma {:induction false} DispatchedNames(text: string)
    ensures forall e :: e in ParseText(text).events ==> e.event != "" && '\n' !in e.event
    decreases |text|
  {
    var i := FindBlank(text);
    if i >= 0 {
      DispatchedNames(text[i + 2..]);
      EventHasNoNewline(BLANK, Lines(text[..i]));
      ParseStep(text);
    }
  }

  function Total(lines: seq<string>): nat
    decreases |lines|
  {
    if lines == [] then 0 else |lines[0]| + Total(lines[1..])
  }

  lemma {:induction false} LinesTotal(s: string)
    ensures Total(Lines(s)) <= |s|
    decreases |s|
  {
    var i := IndexOf(s, '\n');
    if i < 0 {
      assert [s][1..] == [];
    } else {
      LinesTotal(s[i + 1..]);
      var lines := [s[..i]] + Lines(s[i + 1..]);
      assert lines[0] == s[..i] && lines[1..] == Lines(s[i + 1..]);
    }
  }

  /** Later lines add less data than they are long. */
  lemma {:induction false} DataGrowth(f: Fields, lines: seq<string>)
    ensures |ReadLines(f, lines).data| <= |f.data| + Total(lines)
    decreases |lines|
  {
    if lines != [] {
      assert |ReadLine(f, lines[0]).data| <= |f.data| + |lines[0]|;
      DataGrowth(ReadLine(f, lines[0]), lines[1..]);
    }
  }

  lemma DataOfFirstLine(start: Fields, x: string, y: string)
    requires start.data == "" && '\n' !in x
    ensures |ReadLines(start, Lines("data: " + (x + "\n" + y))).data| <= |x| + |y|
  {
    hide ReadLines;
    hide ReadLine;
    hide Lines;
    assert "data: " + (x + "\n" + y) == ("data: " + x) + "\n" + y;
    LinesCut("data: " + x, y);
    DataLine(start, x);
    ReadCons(start, "data: " + x, Lines(y));
    LinesTotal(y);
    DataGrowth(start.(data := x), Lines(y));
  }

  lemma ReadCons(f: Fields, line: string, lines: seq<string>)
    ensures ReadLines(f, [line] + lines) == ReadLines(ReadLine(f, line), lines)
  {
    var all := [line] + lines;
    assert all[0] == line && all[1..] == lines;
  }

  lemma CutAtNewline(z: string) returns (x: string, y: string)
    requires '\n' in z
    ensures z == x + "\n" + y && '\n' !in x
  {
    var c := IndexOf(z, '\n');
    x, y := z[..c], z[c + 1..];
    assert forall k :: 0 <= k < |x| ==> x[k] == z[k];
  }

  /** z is the data up to the blank line: if it or the rest has a newline, something is lost. */
  lemma DataShrinks(event: string, z: string)
    requires '\n' !in event
    ensures |ReadLines(BLANK, Lines(Prefix(event) + z)).data| <= |z|
    ensures '\n' in z ==> |ReadLines(BLANK, Lines(Prefix(event) + z)).data| < |z|
  {
    hide ReadLines;
    hide ReadLine;
    hide Lines;
    hide Prefix;
    var start := Fields(event, "", None);
    PrefixLines(event, z);
    if '\n' in z {
      var x, y := CutAtNewline(z);
      DataOfFirstLine(start, x, y);
    } else {
      SingleLine("data: " + z);
      ReadSingle(start, "data: " + z);
      DataLine(start, z);
    }
  }

  lemma FirstFrameIsShort(event: string, data: string, i: nat)
    requires '\n' !in event && '\n' in data
    requires |Prefix(event)| <= i <= |Prefix(event) + data|
    ensures |ReadLines(BLANK, Lines((Prefix(event) + data)[..i])).data| < |data|
  {
    hide ReadLines;
    hide Lines;
    var z := data[..i - |Prefix(event)|];
    assert (Prefix(event) + data)[..i] == Prefix(event) + z;
    DataShrinks(event, z);
    ShortData(data, z);
  }

  lemma BlankBounds(body: string)
    ensures 0 <= FindBlank(body + "\n\n") <= |body|
  {
    assert BlankAt(body + "\n\n", |body|);
  }

  lemma SendShape(m: Message)
    ensures SendText(m) == (Prefix(m.event) + m.data) + "\n\n"
    ensures SendText(m) == Prefix(m.event) + (m.data + "\n\n")
  {
    assert Prefix(m.event) + m.data + "\n\n" == SendText(m);
  }

  lemma FirstFrameBreaks(m: Message)
    requires '\n' !in m.event && '\n' in m.data
    ensures var i := FindBlank(SendText(m));
            i >= 0 && |Prefix(m.event)| <= i && forall e :: e in ParseFrame(SendText(m)[..i]) ==> |e.data| < |m.data|
  {
    var body := Prefix(m.event) + m.data;
    SendShape(m);
    BlankBounds(body);
    hide ReadLines;
    hide Lines;
    hide SendText;
    var i := FindBlank(SendText(m));
    PrefixBeforeBlank(m.event, m.data + "\n\n");
    hide Prefix;
    hide FindBlank;
    FirstFrameIsShort(m.event, m.data, i);
    SliceAppend(body, "\n\n", i);
    FrameEventData(SendText(m)[..i], |m.data|);
  }

  /** What follows the first frame is shorter than the data too. */
  lemma {:induction false} EventsFit(text: string)
    ensures forall e :: e in ParseText(text).events ==> |e.data| < |text|
    decreases |text|
  {
    var i := FindBlank(text);
    if i >= 0 {
      EventsFit(text[i + 2..]);
      ParseStep(text);
      LinesTotal(text[..i]);
      DataGrowth(BLANK, Lines(text[..i]));
      hide ParseText;
      hide FindBlank;
      FrameEventData(text[..i], i + 1);
      hide ParseFrame;
    }
  }

  /** A newline in the data: no event dispatched for the message carries that data. */
  lemma BrokenDataIsLost(m: Message)
    requires '\n' !in m.event && '\n' in m.data
    ensures forall e :: e in ParseText(SendText(m)).events ==> |e.data| < |m.data|
  {
    FirstFrameBreaks(m);
    SendShape(m);
    ParseStep(SendText(m));
    hide ParseText;
    hide FindBlank;
    hide ParseFrame;
    EventsFit(SendText(m)[FindBlank(SendText(m)) + 2..]);
  }

  lemma ShortData(data: string, z: string)
    requires z <= data && '\n' in data
    ensures |z| < |data| || '\n' in z
  {
  }

  lemma FrameEventData(frame: string, bound: nat)
    requires |ReadLines(BLANK, Lines(frame)).data| < bound
    ensures forall e :: e in ParseFrame(frame) ==> |e.data| < bound
  {
  }

  lemma PrefixBeforeBlank(event: string, rest: string)
    requires '\n' !in event && FindBlank(Prefix(event) + rest) >= 0
    ensures FindBlank(Prefix(event) + rest) >= |Prefix(event)|
  {
    var text, at := Prefix(event) + rest, |"event: " + event|;
    forall j: nat | j < |Prefix(event)| ensures !BlankAt(text, j) {
      if j < at {
        assert text[j] == ("event: " + event)[j];
        assert j < 7 || text[j] == event[j - 7];
      }
      assert text[at + 1] == 'd';
    }
  }

  /** A printed message comes back, alone and complete, if and only if it is clean. */
  lemma SendRoundTripIffClean(m: Message)
    ensures ParseText(SendText(m)) == Parse([Parsed(m.event, m.data, None)], "") <==> Clean(m)
  {
    if Clean(m) {
      SendParses(m, "");
      assert SendText(m) + "" == SendText(m);
      ParseNone("");
    } else if m.event != "" && '\n' !in m.event {
      BrokenDataIsLost(m);
      var e := Parsed(m.event, m.data, None);
      assert e in [e];
    } else {
      DispatchedNames(SendText(m));
      var e := Parsed(m.event, m.data, None);
      assert e in [e];
    }
  }

  // ── Which streams survive ────────────────────────────────────────────────

  function SumData(events: seq<Parsed>): nat {
    if events == [] then 0 else |events[0].data| + SumData(events[1..])
  }

  lemma {:induction false} SumConcat(a: seq<Parsed>, b: seq<Parsed>)
    ensures SumData(a + b) == SumData(a) + SumData(b)
  {
    if a == [] {
      assert a + b == b;
    } else {
      SumConcat(a[1..], b);
      assert (a + b)[1..] == a[1..] + b;
    }
  }

  lemma FrameSum(frame: string)
    ensures SumData(ParseFrame(frame)) <= |ReadLines(BLANK, Lines(frame)).data| <= |frame|
  {
    LinesTotal(frame);
    DataGrowth(BLANK, Lines(frame));
    hide ReadLines;
    hide Lines;
  }

  /** A text gives less data than it is long. */
  lemma {:induction false} SumFits(text: string)
    ensures SumData(ParseText(text).events) <= |text| && (text != "" ==> SumData(ParseText(text).events) < |text|)
    decreases |text|
  {
    hide ParseText;
    hide ParseFrame;
    hide BlankAt;
    var i := FindBlank(text);
    if i < 0 {
      ParseNone(text);
    } else {
      assert BlankAt(text, i);
      BlankFits(text, i);
      hide FindBlank;
      SumFits(text[i + 2..]);
      ParseStep(text);
      FrameSum(text[..i]);
      SumConcat(ParseFrame(text[..i]), ParseText(text[i + 2..]).events);
    }
  }

  /** The first frame gives no more than the data up to its blank line, and less when that has a newline. */
  lemma FirstFrameSum(m: Message) returns (i: nat)
    requires '\n' !in m.event && '\n' in m.data
    ensures i == FindBlank(SendText(m)) && i + 2 <= |SendText(m)|
    ensures |Prefix(m.event)| <= i <= |Prefix(m.event)| + |m.data|
    ensures var z := m.data[..i - |Prefix(m.event)|];
            && SumData(ParseFrame(SendText(m)[..i])) <= |z|
            && (SumData(ParseFrame(SendText(m)[..i])) < |z| || |z| < |m.data|)
  {
    var body := Prefix(m.event) + m.data;
    SendShape(m);
    BlankBounds(body);
    PrefixBeforeBlank(m.event, m.data + "\n\n");
    i := FindBlank(SendText(m));
    hide FindBlank;
    hide ReadLines;
    hide Lines;
    var z := m.data[..i - |Prefix(m.event)|];
    assert SendText(m)[..i] == Prefix(m.event) + z by {
      hide SendText;
      SliceAppend(body, "\n\n", i);
      assert body[..i] == Prefix(m.event) + z;
    }
    hide SendText;
    hide ParseFrame;
    DataShrinks(m.event, z);
    ShortData(m.data, z);
    FrameSum(Prefix(m.event) + z);
  }

  lemma SendLength(m: Message)
    ensures |SendText(m)| == |Prefix(m.event)| + |m.data| + 2
  {
    SendShape(m);
    hide SendText;
    hide Prefix;
  }

  /** A newline in the data: all events dispatched for the message together carry less than it. */
  lemma BrokenSum(m: Message)
    requires '\n' !in m.event && '\n' in m.data
    ensures SumData(ParseText(SendText(m)).events) < |m.data|
  {
    hide *;
    var text := SendText(m);
    SendLength(m);
    var i := FirstFrameSum(m);
    ParseStep(text);
    SumFits(text[i + 2..]);
    SumConcat(ParseFrame(text[..i]), ParseText(text[i + 2..]).events);
    assert |text[i + 2..]| == |m.data| - (i - |Prefix(m.event)|);
  }

  lemma {:induction false} RestIsSuffix(text: string)
    ensures |ParseText(text).rest| <= |text|
    ensures text[|text| - |ParseText(text).rest|..] == ParseText(text).rest
    decreases |text|
  {
    hide ParseFrame;
    hide ParseText;
    hide BlankAt;
    var i := FindBlank(text);
    if i < 0 {
      ParseNone(text);
    } else {
      assert BlankAt(text, i);
      BlankFits(text, i);
      hide FindBlank;
      RestIsSuffix(text[i + 2..]);
      ParseStep(text);
    }
  }

  /** After a blank line at most a line break is left unread. */
  lemma RestAfterBlank(body: string)
    ensures ParseText(body + "\n\n").rest == "" || ParseText(body + "\n\n").rest == "\n"
  {
    var text := body + "\n\n";
    RestIsSuffix(text);
    RestIsUnfinished(text);
    hide ParseText;
    var rest := ParseText(text).rest;
    if |rest| >= 2 {
      EndsBlank(body, rest);
    } else if |rest| == 1 {
      assert rest[0] == text[|text| - 1];
    }
  }

  lemma EndsBlank(body: string, rest: string)
    requires 2 <= |rest| <= |body| + 2 && (body + "\n\n")[|body| + 2 - |rest|..] == rest
    ensures FindBlank(rest) >= 0
  {
    assert BlankAt(rest, |rest| - 2);
  }

  lemma LeadingBreakInFrame(frame: string)
    ensures ParseFrame("\n" + frame) == ParseFrame(frame)
  {
    assert "" + "\n" + frame == "\n" + frame;
    LinesCut("", frame);
    ReadCons(BLANK, "", Lines(frame));
    assert IndexOf("", ':') < 0;
  }

  /** A line break left over is read as an empty line of the next frame. */
  lemma LeadingBreak(tail: string)
    requires tail != "" ==> tail[0] != '\n'
    ensures ParseText("\n" + tail).events == ParseText(tail).events
  {
    var text, j := "\n" + tail, FindBlank(tail);
    forall k: nat ensures BlankAt(text, k) <==> k > 0 && BlankAt(tail, k - 1) {
    }
    if j < 0 {
      ParseNone(text);
      ParseNone(tail);
    } else {
      assert BlankAt(text, j + 1) && FindBlank(text) == j + 1;
      ParseStep(text);
      ParseStep(tail);
      hide ParseText;
      LeadingBreakInFrame(tail[..j]);
      assert text[..j + 1] == "\n" + tail[..j] && text[j + 3..] == tail[j + 2..];
    }
  }

  /** What one message's text gives does not depend on what follows. */
  lemma SendSplits(m: Message, tail: string)
    requires tail != "" ==> tail[0] != '\n'
    ensures ParseText(SendText(m) + tail).events == ParseText(SendText(m)).events + ParseText(tail).events
  {
    SendShape(m);
    RestAfterBlank(Prefix(m.event) + m.data);
    ParseAppend(SendText(m), tail);
    LeadingBreak(tail);
    assert "" + tail == tail;
    hide ParseText;
    hide SendText;
  }

  lemma StreamStart(items: seq<Item>)
    ensures StreamText(items) != "" ==> StreamText(items)[0] != '\n'
  {
  }

  ghost predicate CleanNames(items: seq<Item>) {
    forall x :: x in items && x.Send? ==> x.m.event != "" && '\n' !in x.m.event
  }

  lemma StreamOfSend(m: Message, later: seq<Item>)
    ensures StreamText([Send(m)] + later) == SendText(m) + StreamText(later)
    ensures Delivered([Send(m)] + later) == [Parsed(m.event, m.data, None)] + Delivered(later)
  {
    assert ([Send(m)] + later)[1..] == later;
    hide SendText;
  }

  lemma StreamOfKeepalive(later: seq<Item>)
    ensures StreamText([Keepalive] + later) == COMMENT + "\n\n" + StreamText(later)
    ensures Delivered([Keepalive] + later) == Delivered(later)
  {
    assert ([Keepalive] + later)[1..] == later;
    hide COMMENT;
    assert [] + Delivered(later) == Delivered(later);
  }

  /** One message more: its events carry its data if that is clean, and less otherwise. */
  lemma SumOfSend(m: Message, later: seq<Item>)
    requires m.event != "" && '\n' !in m.event
    ensures var gained := SumData(ParseText(StreamText([Send(m)] + later)).events)
                          - SumData(ParseText(StreamText(later)).events);
            && (Clean(m) ==> gained == |m.data|) && (!Clean(m) ==> gained < |m.data|)
    ensures SumData(Delivered([Send(m)] + later)) == |m.data| + SumData(Delivered(later))
  {
    var e := Parsed(m.event, m.data, None);
    assert [e][1..] == [] && SumData([e]) == |m.data|;
    if !Clean(m) {
      BrokenSum(m);
    } else {
      SendRoundTripIffClean(m);
    }
    hide *;
    StreamOfSend(m, later);
    StreamStart(later);
    SendSplits(m, StreamText(later));
    SumConcat(ParseText(SendText(m)).events, ParseText(StreamText(later)).events);
    SumConcat([e], Delivered(later));
  }

  /** Line breaks in the data of a stream lose data, and nothing makes up for them. */
  lemma {:induction false} StreamSum(items: seq<Item>)
    requires CleanNames(items)
    ensures SumData(ParseText(StreamText(items)).events) <= SumData(Delivered(items))
    ensures !AllClean(items) ==> SumData(ParseText(StreamText(items)).events) < SumData(Delivered(items))
    decreases |items|
  {
    hide ParseText;
    hide SendText;
    if items == [] {
      ParseNone("");
    } else {
      var first, later := items[0], items[1..];
      assert items == [first] + later && first in items;
      StreamSum(later);
      hide StreamText;
      hide Delivered;
      hide SumData;
      match first {
        case Keepalive =>
          StreamOfKeepalive(later);
          KeepaliveParses(StreamText(later));
        case Send(m) => SumOfSend(m, later);
      }
    }
  }

  lemma {:induction false} DeliveredMembers(items: seq<Item>, m: Message)
    requires Send(m) in items
    ensures Parsed(m.event, m.data, None) in Delivered(items)
  {
    if items[0] != Send(m) {
      assert items == [items[0]] + items[1..];
      DeliveredMembers(items[1..], m);
    }
  }

  /** A stream's messages come back, in order and no others, if and only if every one of them is clean. */
  lemma StreamRoundTripIffClean(items: seq<Item>)
    ensures ParseText(StreamText(items)).events == Delivered(items) <==> AllClean(items)
  {
    if AllClean(items) {
      StreamRoundTrip(items);
    } else if ParseText(StreamText(items)).events == Delivered(items) {
      DispatchedNames(StreamText(items));
      forall x | x in items && x.Send? ensures x.m.event != "" && '\n' !in x.m.event {
        assert x == Send(x.m);
        DeliveredMembers(items, x.m);
      }
      StreamSum(items);
      assert false;
    }
  }

  // ── The parser object ────────────────────────────────────────────────────

  class SseParser {
    var buffer: string
    var current: Fields
    var dispatched: seq<Parsed>

    /** Between reads the field accumulators are blank and the buffer holds no complete frame. */
    predicate Valid()
      reads this
    {
      current == BLANK && FindBlank(buffer) < 0
    }

    constructor ()
      ensures Valid() && buffer == "" && dispatched == []
    {
      buffer, current, dispatched := "", BLANK, [];
    }

    method ReadFrame(frame: string)
      requires current == BLANK
      modifies this`current, this`dispatched
      ensures current == BLANK && dispatched == old(dispatched) + ParseFrame(frame)
    {
      var lines := Lines(frame);
      var i := 0;
      while i < |lines|
        invariant 0 <= i <= |lines|
        invariant ReadLines(current, lines[i..]) == ReadLines(BLANK, lines)
        invariant dispatched == old(dispatched)
      {
        assert lines[i..][0] == lines[i] && lines[i..][1..] == lines[i + 1..];
        current := ReadLine(current, lines[i]);
        i := i + 1;
      }
      assert lines[i..] == [];
      dispatched := dispatched + DispatchFrame(current);
      current := BLANK;
    }

    /** One turn of the frame loop. */
    method TakeFrame() returns (ghost now: seq<Parsed>)
      requires current == BLANK && FindBlank(buffer) >= 0
      modifies this
      ensures current == BLANK && dispatched == old(dispatched) + now && |buffer| < |old(buffer)|
      ensures ParseText(old(buffer)) == Resume(Parse(now, ""), ParseText(buffer))
    {
      var i := FindBlank(buffer);
      var frame := buffer[..i];
      ParseStep(buffer);
      hide ParseText;
      hide ParseFrame;
      hide FindBlank;
      now := ParseFrame(frame);
      buffer := buffer[i + 2..];
      ReadFrame(frame);
    }

    /** One read: append the chunk, dispatch every complete frame. */
    method Feed(chunk: string)
      requires Valid()
      modifies this
      ensures Valid()
      ensures var p := ParseText(old(buffer) + chunk); dispatched == old(dispatched) + p.events && buffer == p.rest
    {
      hide ParseText;
      hide FindBlank;
      buffer := buffer + chunk;
      ghost var whole, done := buffer, [];
      while FindBlank(buffer) >= 0
        invariant current == BLANK && dispatched == old(dispatched) + done
        invariant ParseText(whole) == Resume(Parse(done, ""), ParseText(buffer))
        decreases |buffer|
      {
        ghost var now := TakeFrame();
        ResumeFrame(done, Parse(now, ""), ParseText(buffer));
        done := done + now;
      }
      ParseNone(buffer);
    }

    /** The read loop: every chunk of the response, until the server closes the stream. */
    method ReadStream(chunks: seq<string>)
      requires Valid()
      modifies this
      ensures Valid()
      ensures var p := ParseText(old(buffer) + Concat(chunks));
              dispatched == old(dispatched) + p.events && buffer == p.rest
    {
      hide ParseText;
      hide FindBlank;
      ghost var start, done := buffer, [];
      var i := 0;
      while i < |chunks|
        invariant 0 <= i <= |chunks| && Valid()
        invariant dispatched == old(dispatched) + done
        invariant ParseChunks(start, chunks) == Resume(Parse(done, ""), ParseChunks(buffer, chunks[i..]))
      {
        ghost var now := ParseText(buffer + chunks[i]);
        assert chunks[i..][0] == chunks[i] && chunks[i..][1..] == chunks[i + 1..];
        Feed(chunks[i]);
        ResumeFrame(done, Parse(now.events, ""), ParseChunks(buffer, chunks[i + 1..]));
        done := done + now.events;
        i := i + 1;
      }
      assert chunks[i..] == [];
      ChunkingIrrelevant(start, chunks);
    }
  }
}
