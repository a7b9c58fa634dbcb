/** What a frame of any lines says: its fields, line by line, and text sent as several data lines. */
module SseFrames {
  import opened Seqs
  import opened Sse

  // ── One line ─────────────────────────────────────────────────────────────

  /** The line gives the field this value; one space behind the colon is not part of it. */
  predicate Gives(line: string, field: string, value: string) {
    && field != "" && ':' !in field
    && (line == field + ": " + value || (line == field + ":" + value && (value == "" || value[0] != ' ')))
  }

  lemma GivesParts(line: string, field: string, value: string)
    requires Gives(line, field, value)
    ensures IndexOf(line, ':') == |field| && line[..|field|] == field && StripSpace(line[|field| + 1..]) == value
    ensures line[0] != ':'
  {
    var n := |field|;
    if line == field + ": " + value {
      assert line[n + 1..] == " " + value && (" " + value)[1..] == value;
    } else {
      assert line[n + 1..] == value;
    }
    assert line[..n] == field && line[n] == ':';
    assert line[0] == field[0] && field[0] in field;
    IndexOfIs(line, ':', n);
  }

  lemma CutAt(line: string, i: nat)
    requires i < |line| && line[i] == ':'
    ensures line == line[..i] + ":" + line[i + 1..]
  {
  }

  lemma RestGiven(rest: string)
    ensures rest == StripSpace(rest) || rest == " " + StripSpace(rest)
    ensures rest == StripSpace(rest) ==> rest == "" || rest[0] != ' '
  {
  }

  lemma PartsGive(line: string, i: nat)
    requires 0 < i < |line| && line[i] == ':' && ':' !in line[..i]
    ensures Gives(line, line[..i], StripSpace(line[i + 1..]))
  {
    var field, rest := line[..i], line[i + 1..];
    CutAt(line, i);
    RestGiven(rest);
    hide StripSpace;
    if rest != StripSpace(rest) {
      SpaceJoins(field, StripSpace(rest));
    }
  }

  lemma SpaceJoins(field: string, value: string)
    ensures field + ":" + (" " + value) == field + ": " + value
  {
  }

  /** The data so far with another line of it. */
  function MoreData(data: string, value: string): string {
    if data == "" then value else data + "\n" + value
  }

  /** The last event or id line counts, data lines are collected, and every other line is passed over. */
  lemma ReadLineIs(f: Fields, line: string, field: string, value: string)
    requires Gives(line, field, value)
    ensures field == "event" ==> ReadLine(f, line) == f.(event := value)
    ensures field == "data" ==> ReadLine(f, line) == f.(data := MoreData(f.data, value))
    ensures field == "id" ==> ReadLine(f, line) == f.(id := Some(value))
    ensures field !in ["event", "data", "id"] ==> ReadLine(f, line) == f
  {
    GivesParts(line, field, value);
    hide IndexOf;
    hide StripSpace;
    assert ["event", "data", "id"][0] == "event" && ["event", "data", "id"][1] == "data"
        && ["event", "data", "id"][2] == "id";
    assert "" + "" + value == value;
  }

  lemma OtherLineIsPassedOver(f: Fields, line: string)
    requires forall field, value :: !Gives(line, field, value)
    ensures ReadLine(f, line) == f
  {
    if IndexOf(line, ':') > 0 {
      PartsGive(line, IndexOf(line, ':'));
    } else {
      IndexOfZero(line);
    }
  }

  lemma IndexOfZero(line: string)
    requires IndexOf(line, ':') <= 0
    ensures IndexOf(line, ':') == 0 ==> line != "" && line[0] == ':'
  {
  }

  // ── Several data lines ───────────────────────────────────────────────────

  function Joined(lines: seq<string>): string
    requires lines != []
  {
    if |lines| == 1 then lines[0] else lines[0] + "\n" + Joined(lines[1..])
  }

  function DataLines(values: seq<string>): (lines: seq<string>)
    ensures |lines| == |values|
  {
    if values == [] then [] else ["data: " + values[0]] + DataLines(values[1..])
  }

  lemma {:induction false} LinesJoined(lines: seq<string>)
    requires lines != [] && forall i :: 0 <= i < |lines| ==> '\n' !in lines[i]
    ensures Lines(Joined(lines)) == lines
    decreases |lines|
  {
    hide Lines;
    if |lines| == 1 {
      SingleLine(lines[0]);
    } else {
      LinesJoined(lines[1..]);
      LinesCut(lines[0], Joined(lines[1..]));
    }
  }

  lemma JoinedFirst(first: string, rest: seq<string>)
    requires rest != []
    ensures Joined([first] + rest) == first + "\n" + Joined(rest)
  {
    assert ([first] + rest)[1..] == rest;
  }

  lemma CutText(text: string, i: nat)
    requires i < |text| && text[i] == '\n'
    ensures text == text[..i] + "\n" + text[i + 1..]
  {
  }

  lemma LinesUnfold(text: string)
    requires IndexOf(text, '\n') >= 0
    ensures var i := IndexOf(text, '\n'); Lines(text) == [text[..i]] + Lines(text[i + 1..])
  {
    hide IndexOf;
  }

  lemma {:induction false} JoinedLines(text: string)
    ensures Joined(Lines(text)) == text
    decreases |text|
  {
    var i := IndexOf(text, '\n');
    if i >= 0 {
      LinesUnfold(text);
      hide Lines;
      hide Joined;
      JoinedLines(text[i + 1..]);
      CutText(text, i);
      JoinedFirst(text[..i], Lines(text[i + 1..]));
    }
  }

  /** What is left of the values when no line of data came before: empty ones at the front are lost. */
  function Collected(data: string, values: seq<string>): string
    decreases |values|
  {
    if values == [] then data else Collected(MoreData(data, values[0]), values[1..])
  }

  lemma DataLineIs(f: Fields, value: string)
    ensures ReadLine(f, "data: " + value) == f.(data := MoreData(f.data, value))
  {
    assert Gives("data: " + value, "data", value) by {
      assert "data" + ": " == "data: ";
    }
    ReadLineIs(f, "data: " + value, "data", value);
  }

  lemma {:induction false} DataIsCollected(f: Fields, values: seq<string>)
    ensures ReadLines(f, DataLines(values)) == f.(data := Collected(f.data, values))
    decreases |values|
  {
    if values != [] {
      var lines := DataLines(values);
      assert lines[0] == "data: " + values[0] && lines[1..] == DataLines(values[1..]);
      DataLineIs(f, values[0]);
      hide ReadLine;
      hide MoreData;
      DataIsCollected(ReadLine(f, lines[0]), values[1..]);
    }
  }

  lemma {:induction false} CollectedIsJoined(data: string, values: seq<string>)
    requires data != "" && values != []
    ensures Collected(data, values) == data + "\n" + Joined(values)
    decreases |values|
  {
    if |values| == 1 {
      assert values[1..] == [];
    } else {
      var now := data + "\n" + values[0];
      CollectedIsJoined(now, values[1..]);
      assert now + "\n" + Joined(values[1..]) == data + "\n" + (values[0] + "\n" + Joined(values[1..]));
    }
  }

  lemma {:induction false} CollectedIsShort(values: seq<string>)
    requires values != []
    ensures |Collected("", values)| <= |Joined(values)|
    ensures values[0] != "" || |values| == 1 ==> Collected("", values) == Joined(values)
    ensures values[0] == "" && |values| > 1 ==> |Collected("", values)| < |Joined(values)|
    decreases |values|
  {
    if |values| == 1 {
      assert values[1..] == [];
    } else if values[0] == "" {
      CollectedIsShort(values[1..]);
    } else {
      CollectedIsJoined(values[0], values[1..]);
    }
  }

  predicate NoOuterNewline(text: string) {
    text == "" || (text[0] != '\n' && text[|text| - 1] != '\n')
  }

  lemma FirstLine(text: string)
    ensures Lines(text)[0] == "" && |Lines(text)| > 1 <==> text != "" && text[0] == '\n'
  {
    var i := IndexOf(text, '\n');
    if text != "" && text[0] == '\n' {
      IndexOfIs(text, '\n', 0);
    }
  }

  lemma TextIsCollectedIff(text: string)
    ensures TrimNewline(Collected("", Lines(text))) == text <==> NoOuterNewline(text)
  {
    FirstLine(text);
    JoinedLines(text);
    CollectedIsShort(Lines(text));
    hide Lines;
    hide Collected;
    hide Joined;
  }

  // ── A whole frame ────────────────────────────────────────────────────────

  function FrameText(event: string, id: string, text: string): string {
    Joined(["event: " + event, "id: " + id] + DataLines(Lines(text)))
  }

  lemma {:induction false} DataLinesClean(values: seq<string>)
    requires forall v :: v in values ==> '\n' !in v
    ensures forall l :: l in DataLines(values) ==> '\n' !in l
  {
    if values != [] {
      DataLinesClean(values[1..]);
    }
  }

  lemma FrameLines(event: string, id: string, text: string)
    requires '\n' !in event && '\n' !in id
    ensures Lines(FrameText(event, id, text)) == ["event: " + event, "id: " + id] + DataLines(Lines(text))
  {
    var values := Lines(text);
    DataLinesClean(values);
    hide Lines;
    hide DataLines;
    hide Joined;
    LinesJoined(["event: " + event, "id: " + id] + DataLines(values));
  }

  lemma IdLine(f: Fields, id: string)
    ensures ReadLine(f, "id: " + id) == f.(id := Some(id))
  {
    assert Gives("id: " + id, "id", id) by {
      assert "id" + ": " == "id: ";
    }
    ReadLineIs(f, "id: " + id, "id", id);
  }

  lemma ReadTwo(f: Fields, a: string, b: string, more: seq<string>)
    ensures ReadLines(f, [a, b] + more) == ReadLines(ReadLine(ReadLine(f, a), b), more)
  {
    var lines := [a, b] + more;
    assert lines[1..] == [b] + more && ([b] + more)[1..] == more;
    hide ReadLine;
  }

  /**
   * A text sent as one data line for each of its lines comes back whole, with its event name and id, if and
   * only if it neither begins nor ends with a newline.
   */
  lemma TextRoundTripIff(event: string, id: string, text: string)
    requires event != "" && '\n' !in event && '\n' !in id
    ensures ParseFrame(FrameText(event, id, text)) == [Parsed(event, text, Some(id))] <==> NoOuterNewline(text)
  {
    var data := Collected("", Lines(text));
    FrameLines(event, id, text);
    ReadTwo(BLANK, "event: " + event, "id: " + id, DataLines(Lines(text)));
    EventLine(BLANK, event);
    IdLine(Fields(event, "", None), id);
    DataIsCollected(Fields(event, "", Some(id)), Lines(text));
    TextIsCollectedIff(text);
    hide *;
    FrameDispatches(event, data, id);
    var f := Fields(event, data, Some(id));
    assert ReadLines(BLANK, Lines(FrameText(event, id, text))) == f;
    OneParsed(event, TrimNewline(data), text, Some(id));
    ParseFrameIs(FrameText(event, id, text));
  }

  lemma ParseFrameIs(frame: string)
    ensures ParseFrame(frame) == DispatchFrame(ReadLines(BLANK, Lines(frame)))
  {
  }

  lemma FrameDispatches(event: string, data: string, id: string)
    requires event != ""
    ensures DispatchFrame(Fields(event, data, Some(id))) == [Parsed(event, TrimNewline(data), Some(id))]
  {
  }

  lemma OneParsed(event: string, a: string, b: string, id: Option<string>)
    ensures [Parsed(event, a, id)] == [Parsed(event, b, id)] <==> a == b
  {
    assert [Parsed(event, a, id)][0].data == a && [Parsed(event, b, id)][0].data == b;
  }
}
