// What the client reads from the texts upstreams send: line ends, lines, data
// lines and single events, said of the characters themselves.
module EventTexts {
  import opened Wrappers
  import opened Sequences
  import opened EventFraming

  predicate IsLineEnd(e: string) {
    e == "\n" || e == "\r\n"
  }

  // ---- Boundaries ----

  // A boundary is one of four strings.
  lemma BoundaryMeaning(s: string, i: nat)
    requires i <= |s|
    ensures BoundaryAt(s, i) > 0 <==>
              "\n\n" <= s[i..] || "\n\r\n" <= s[i..] || "\r\n\n" <= s[i..] || "\r\n\r\n" <= s[i..]
    ensures BoundaryAt(s, i) == if "\n\n" <= s[i..] then 2
                                else if "\n\r\n" <= s[i..] || "\r\n\n" <= s[i..] then 3
                                else if "\r\n\r\n" <= s[i..] then 4 else 0
  {
    var t := s[i..];
    assert forall k :: 0 <= k < |t| ==> t[k] == s[i + k];
  }

  // ---- Lines ----

  // A line without its end: no line feed in it, and what stands before the
  // line end is not taken for a part of it.
  predicate IsLine(line: string) {
    '\n' !in line && (line != "" ==> line[|line| - 1] != '\r')
  }

  lemma NoLineEndInside(line: string, rest: string, i: nat)
    requires IsLine(line) && i < |line|
    ensures LineEndAt(line + rest, i) == 0
  {
    assert (line + rest)[i] == line[i];
  }

  // Splitting takes lines and line ends apart again.
  lemma {:induction false} SplitLineOff(line: string, e: string, rest: string)
    requires IsLine(line) && IsLineEnd(e)
    ensures SplitLines(line + e + rest) == [line] + SplitLines(rest)
    decreases |line|
  {
    var s := line + e + rest;
    if line == "" {
      assert s == e + rest && LineEndAt(s, 0) == |e|;
      SplitAtLineEnd(s);
      assert s[|e|..] == rest;
    } else {
      assert s[1..] == line[1..] + e + rest;
      assert s == line + (e + rest);
      NoLineEndInside(line, e + rest, 0);
      SplitLineOff(line[1..], e, rest);
      assert [s[0]] + line[1..] == line;
    }
  }

  lemma {:induction false} SplitLastLine(line: string)
    requires '\n' !in line
    ensures SplitLines(line) == [line]
    decreases |line|
  {
    if line != "" {
      SplitLastLine(line[1..]);
      assert [line[0]] + line[1..] == line;
    }
  }

  // Lines ended one by one come back as they were, with what follows the last.
  function Written(lines: seq<string>, ends: seq<string>, last: string): string
    requires |ends| == |lines|
  {
    if lines == [] then last else lines[0] + ends[0] + Written(lines[1..], ends[1..], last)
  }

  lemma {:induction false} SplitLinesMeaning(lines: seq<string>, ends: seq<string>, last: string)
    requires |ends| == |lines| && '\n' !in last
    requires forall i :: 0 <= i < |lines| ==> IsLine(lines[i]) && IsLineEnd(ends[i])
    ensures SplitLines(Written(lines, ends, last)) == lines + [last]
    decreases |lines|
  {
    if lines == [] {
      SplitLastLine(last);
    } else {
      SplitLinesMeaning(lines[1..], ends[1..], last);
      SplitLineOff(lines[0], ends[0], Written(lines[1..], ends[1..], last));
    }
  }

  // ---- Data lines ----

  // Only lines that begin with "data:" carry data, what follows it without
  // white space in front.
  lemma DataMeaning(p: Parser, line: string)
    ensures DataOf(p, line) == if |line| >= 5 && line[..5] == "data:" then [p.trimStart(line[5..])] else []
  {
  }

  // A data line adds its data to that of the lines after it; any other line
  // adds nothing.
  lemma LineAddsData(p: Parser, line: string, e: string, rest: string)
    requires IsLine(line) && IsLineEnd(e)
    ensures DataLines(p, SplitLines(line + e + rest)) ==
            (if "data:" <= line then [p.trimStart(line[5..])] else []) + DataLines(p, SplitLines(rest))
  {
    SplitLineOff(line, e, rest);
    assert ([line] + SplitLines(rest))[1..] == SplitLines(rest);
  }

  lemma LastLineData(p: Parser, line: string)
    requires '\n' !in line
    ensures DataLines(p, SplitLines(line)) == if "data:" <= line then [p.trimStart(line[5..])] else []
  {
    SplitLastLine(line);
    assert DataLines(p, [line][1..]) == [];
  }

  // Two data lines are joined by a line feed.
  lemma TwoDataLines(p: Parser, a: string, e: string, b: string)
    requires IsLineEnd(e) && IsLine("data:" + a) && '\n' !in b
    ensures EventData(p, "data:" + a + e + ("data:" + b)) == p.trimStart(a) + "\n" + p.trimStart(b)
  {
    LineAddsData(p, "data:" + a, e, "data:" + b);
    LastLineData(p, "data:" + b);
    assert ("data:" + a)[5..] == a && ("data:" + b)[5..] == b;
    JoinTwo(p.trimStart(a), p.trimStart(b));
  }

  lemma JoinTwo(a: string, b: string)
    ensures Join([a] + [b]) == a + "\n" + b
  {
    assert ([a] + [b])[1..] == [b];
  }

  // ---- Events ----

  // The event that begins a text: one data line and an empty line.
  lemma {:induction false} BoundaryAfterLine(line: string, e: string, rest: string)
    requires IsLine(line) && IsLineEnd(e)
    ensures FirstBoundary(line + e + e + rest) == Some(Boundary(|line|, 2 * |e|))
    decreases |line|
  {
    var s := line + e + e + rest;
    if line == "" {
      assert s == e + e + rest;
      assert BoundaryAt(s, 0) == 2 * |e|;
    } else {
      assert s[1..] == line[1..] + e + e + rest;
      assert s == line + (e + e + rest);
      NoLineEndInside(line, e + e + rest, 0);
      BoundaryAfterLine(line[1..], e, rest);
      ShiftedBoundary(s, |line| - 1);
    }
  }

  lemma FirstFrameIsLine(line: string, e: string, rest: string)
    requires IsLine(line) && IsLineEnd(e)
    ensures Frames(line + e + e + rest) == Before(line, Frames(rest))
  {
    var s := line + e + e + rest;
    BoundaryAfterLine(line, e, rest);
    assert s[..|line|] == line && s[|line| + 2 * |e|..] == rest;
    FramesFrom(s, Boundary(|line|, 2 * |e|), line, rest);
  }

  lemma DataOfEvent(p: Parser, payload: string)
    requires IsLine("data:" + payload)
    ensures EventData(p, "data:" + payload) == p.trimStart(payload)
  {
    var line := "data:" + payload;
    LastLineData(p, line);
    assert line[5..] == payload;
  }

  lemma ReadFirst(p: Parser, line: string, rest: string, whole: string)
    requires Frames(whole) == Before(line, Frames(rest))
    ensures ReadText(p, whole) == Then(ReadEvents(p, [line]), ReadText(p, rest))
  {
    ReadEventsAppend(p, [line], Frames(rest).events);
  }

  // What one event does to the reply, and where reading goes on.
  lemma EventMeaning(p: Parser, payload: string, e: string, rest: string)
    requires IsLine("data:" + payload) && IsLineEnd(e)
    ensures var data, later := p.trimStart(payload), ReadText(p, rest);
            ReadText(p, "data:" + payload + e + e + rest) ==
              if data == "" then later
              else if data == "[DONE]" then Reading([], Completed)
              else
                match p.decode(data)
                case Malformed(why) => Reading([], Failed(why))
                case Error(message) => Reading([], Failed(if message != "" then message else "Generation failed."))
                case Content(text) => Reading([text] + later.deltas, later.ending)
                case Other => later
  {
    FirstFrameIsLine("data:" + payload, e, rest);
    ReadFirst(p, "data:" + payload, rest, "data:" + payload + e + e + rest);
    DataOfEvent(p, payload);
    ReadOneEvent(p, "data:" + payload);
    assert [] + ReadText(p, rest).deltas == ReadText(p, rest).deltas;
  }

  lemma NothingToRead(p: Parser)
    ensures ReadText(p, "") == Reading([], Open)
  {
    assert Frames("") == Framing([], "");
    assert Effects(p, []) == [];
  }

  // An ordinary reply: some content and the end mark, with either line end.
  lemma OrdinaryReply(p: Parser, payload: string, mark: string, e: string, text: string, rest: string)
    requires IsLine("data:" + payload) && IsLine("data:" + mark) && IsLineEnd(e)
    requires p.trimStart(mark) == "[DONE]"
    requires p.trimStart(payload) != "" && p.trimStart(payload) != "[DONE]"
    requires p.decode(p.trimStart(payload)) == Content(text)
    ensures ReadText(p, "data:" + payload + e + e + ("data:" + mark + e + e + rest)) == Reading([text], Completed)
    ensures ReadText(p, "data:" + payload + e + e) == Reading([text], Open)
  {
    EventMeaning(p, mark, e, rest);
    EventMeaning(p, payload, e, "data:" + mark + e + e + rest);
    EventMeaning(p, payload, e, "");
    NothingToRead(p);
    assert "data:" + payload + e + e + "" == "data:" + payload + e + e;
  }
}
