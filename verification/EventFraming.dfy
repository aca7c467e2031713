// The chat client's reading of an event stream (section 9.2.5 of the HTML
// Living Standard, with LF and CRLF line ends): events are cut at blank lines
// from a buffer that grows chunk by chunk.
module EventFraming {
  import opened Wrappers
  import opened Sequences

  // ---- Boundaries and frames ----

  // The length of the line end at an index, 0 where there is none.
  function LineEndAt(s: string, i: nat): (len: nat)
    ensures len <= 2 && (len > 0 ==> i + len <= |s|)
  {
    if i < |s| && s[i] == '\n' then 1
    else if i + 1 < |s| && s[i] == '\r' && s[i + 1] == '\n' then 2
    else 0
  }

  // Two line ends in a row.
  function BoundaryAt(s: string, i: nat): (len: nat)
    ensures len > 0 ==> i + len <= |s|
  {
    var e := LineEndAt(s, i);
    var f := LineEndAt(s, i + e);
    if e == 0 || f == 0 then 0 else e + f
  }

  datatype Boundary = Boundary(index: nat, len: nat)

  function FirstBoundary(s: string): (b: Option<Boundary>)
    ensures b.Some? ==> b.value.len == BoundaryAt(s, b.value.index) > 0
  {
    if s == "" then None
    else if BoundaryAt(s, 0) > 0 then Some(Boundary(0, BoundaryAt(s, 0)))
    else
      match FirstBoundary(s[1..])
      case None => None
      case Some(b) => ShiftedBoundary(s, b.index); Some(Boundary(b.index + 1, b.len))
  }

  lemma ShiftedBoundary(s: string, i: nat)
    requires s != ""
    ensures BoundaryAt(s[1..], i) == BoundaryAt(s, i + 1)
  {
  }

  // The first boundary is where a leftmost match of two line ends is found.
  lemma {:induction false} FirstBoundaryIsLeftmost(s: string, i: nat)
    requires i < |s| && BoundaryAt(s, i) > 0
    ensures FirstBoundary(s).Some? && FirstBoundary(s).value.index <= i
  {
    if BoundaryAt(s, 0) == 0 {
      ShiftedBoundary(s, i - 1);
      FirstBoundaryIsLeftmost(s[1..], i - 1);
    }
  }

  datatype Framing = Framing(events: seq<string>, rest: string)

  function Before(event: string, framing: Framing): Framing {
    Framing([event] + framing.events, framing.rest)
  }

  function Frames(s: string): Framing
    decreases |s|
  {
    match FirstBoundary(s)
    case None => Framing([], s)
    case Some(b) => Before(s[..b.index], Frames(s[b.index + b.len..]))
  }

  // Text that arrives later never moves a boundary that was found, not even
  // when a boundary is split between two chunks.
  lemma {:induction false} BoundaryStays(a: string, b: string)
    requires FirstBoundary(a).Some?
    ensures FirstBoundary(a + b) == FirstBoundary(a)
  {
    assert (a + b)[1..] == a[1..] + b;
    if BoundaryAt(a, 0) == 0 {
      BoundaryStays(a[1..], b);
      var first := FirstBoundary(a[1..]).value;
      ShiftedBoundary(a, first.index);
    }
  }

  function After(events: seq<string>, framing: Framing): Framing {
    Framing(events + framing.events, framing.rest)
  }

  lemma FramesUnfold(s: string, first: Boundary)
    requires FirstBoundary(s) == Some(first)
    ensures Frames(s) == Before(s[..first.index], Frames(s[first.index + first.len..]))
  {
  }

  // The first frame of a text is the first frame of anything it begins.
  lemma FirstFrame(a: string, b: string, first: Boundary)
    requires FirstBoundary(a) == Some(first)
    ensures Frames(a + b) == Before(a[..first.index], Frames(a[first.index + first.len..] + b))
  {
    var head, tail := a[..first.index], a[first.index + first.len..] + b;
    BoundaryStays(a, b);
    assert (a + b)[..first.index] == head;
    assert (a + b)[first.index + first.len..] == tail;
    FramesFrom(a + b, first, head, tail);
  }

  lemma FramesFrom(s: string, first: Boundary, head: string, tail: string)
    requires FirstBoundary(s) == Some(first)
    requires head == s[..first.index] && tail == s[first.index + first.len..]
    ensures Frames(s) == Before(head, Frames(tail))
  {
    FramesUnfold(s, first);
  }

  lemma BeforeAfter(event: string, framing: Framing, more: Framing)
    ensures After(Before(event, framing).events, more) == Before(event, After(framing.events, more))
  {
  }

  lemma {:induction false} FramesExtend(a: string, b: string)
    ensures Frames(a + b) == After(Frames(a).events, Frames(Frames(a).rest + b))
    decreases |a|
  {
    if FirstBoundary(a).Some? {
      var first := FirstBoundary(a).value;
      var tail := a[first.index + first.len..];
      FramesExtend(tail, b);
      FirstFrame(a, b, first);
      FramesUnfold(a, first);
      BeforeAfter(a[..first.index], Frames(tail), Frames(Frames(tail).rest + b));
    }
  }

  // ---- What an event means ----

  // A decoded payload, as far as the client looks at it.
  datatype Payload = Malformed(why: string) | Error(message: string) | Content(text: string) | Other

  datatype Parser = Parser(trimStart: string -> string, decode: string -> Payload)

  datatype Effect = Skip | Delta(text: string) | Done | Fail(message: string)

  // The lines of a text, cut at its line ends: a CR right before a LF belongs
  // to the line end.
  function SplitLines(s: string): (lines: seq<string>)
    ensures lines != []
  {
    if s == "" then [""]
    else WithChar(s[0], LineEndAt(s, 0), SplitLines(s[1..]))
  }

  // The lines with one more character in front, which may be a line end or
  // begin one of two characters.
  function WithChar(c: char, lineEnd: nat, lines: seq<string>): (r: seq<string>)
    requires lines != []
    ensures r != []
  {
    if lineEnd == 1 then [""] + lines
    else if lineEnd == 2 then lines
    else [[c] + lines[0]] + lines[1..]
  }

  lemma WithCharAppend(c: char, lineEnd: nat, lines: seq<string>, more: seq<string>)
    requires lines != []
    ensures WithChar(c, lineEnd, lines + more) == WithChar(c, lineEnd, lines) + more
  {
  }

  function DataOf(p: Parser, line: string): seq<string> {
    if "data:" <= line then [p.trimStart(line[5..])] else []
  }

  function DataLines(p: Parser, lines: seq<string>): seq<string> {
    if lines == [] then [] else DataOf(p, lines[0]) + DataLines(p, lines[1..])
  }

  function EventData(p: Parser, event: string): string {
    Join(DataLines(p, SplitLines(event)))
  }

  function EffectOf(p: Parser, data: string): Effect {
    if data == "" then Skip
    else if data == "[DONE]" then Done
    else
      match p.decode(data)
      case Malformed(why) => Fail(why)
      case Error(message) => Fail(if message == "" then "Generation failed." else message)
      case Content(text) => Delta(text)
      case Other => Skip
  }

  datatype Ending = Open | Completed | Failed(message: string)

  datatype Reading = Reading(deltas: seq<string>, ending: Ending)

  // Effects in order, up to the first end marker or failure.
  function Interpret(effects: seq<Effect>): Reading {
    if effects == [] then Reading([], Open)
    else
      match effects[0]
      case Skip => Interpret(effects[1..])
      case Delta(text) => var later := Interpret(effects[1..]); later.(deltas := [text] + later.deltas)
      case Done => Reading([], Completed)
      case Fail(message) => Reading([], Failed(message))
  }

  predicate Ends(effect: Effect) {
    effect.Done? || effect.Fail?
  }

  // The contents that some effects deliver, in order.
  function Contents(effects: seq<Effect>): seq<string> {
    if effects == [] then []
    else
      var last := effects[|effects| - 1];
      Contents(effects[..|effects| - 1]) + if last.Delta? then [last.text] else []
  }

  // The first effect that ends a reply decides how it ends, and the contents
  // before it, all of them and in order, are what was read.
  lemma {:induction false} FirstEndDecides(effects: seq<Effect>, n: nat)
    requires n <= |effects| && forall i :: 0 <= i < n ==> !Ends(effects[i])
    requires n < |effects| ==> Ends(effects[n])
    ensures Interpret(effects) == Reading(Contents(effects[..n]),
              if n == |effects| then Open
              else if effects[n].Done? then Completed
              else Failed(effects[n].message))
  {
    OpenSoFar(effects[..n]);
    InterpretAppend(effects[..n], effects[n..]);
    assert effects == effects[..n] + effects[n..];
  }

  lemma {:induction false} OpenSoFar(effects: seq<Effect>)
    requires forall i :: 0 <= i < |effects| ==> !Ends(effects[i])
    ensures Interpret(effects) == Reading(Contents(effects), Open)
  {
    if effects != [] {
      var front, last := effects[..|effects| - 1], effects[|effects| - 1];
      OpenSoFar(front);
      InterpretAppend(front, [last]);
      assert effects == front + [last];
      assert Interpret([last][1..]) == Reading([], Open);
    }
  }

  function Then(first: Reading, second: Reading): Reading {
    if first.ending.Open? then Reading(first.deltas + second.deltas, second.ending) else first
  }

  lemma {:induction false} InterpretAppend(a: seq<Effect>, b: seq<Effect>)
    ensures Interpret(a + b) == Then(Interpret(a), Interpret(b))
  {
    if a == [] {
      assert a + b == b;
    } else {
      assert (a + b)[1..] == a[1..] + b;
      InterpretAppend(a[1..], b);
    }
  }

  function Effects(p: Parser, events: seq<string>): (effects: seq<Effect>)
    ensures |effects| == |events|
  {
    seq(|events|, i requires 0 <= i < |events| => EffectOf(p, EventData(p, events[i])))
  }

  function ReadEvents(p: Parser, events: seq<string>): Reading {
    Interpret(Effects(p, events))
  }

  lemma ReadEventsAppend(p: Parser, a: seq<string>, b: seq<string>)
    ensures ReadEvents(p, a + b) == Then(ReadEvents(p, a), ReadEvents(p, b))
  {
    assert Effects(p, a + b) == Effects(p, a) + Effects(p, b);
    InterpretAppend(Effects(p, a), Effects(p, b));
  }

  lemma ReadOneEvent(p: Parser, event: string)
    ensures ReadEvents(p, [event]) ==
            match EffectOf(p, EventData(p, event))
            case Skip => Reading([], Open)
            case Delta(text) => Reading([text], Open)
            case Done => Reading([], Completed)
            case Fail(message) => Reading([], Failed(message))
  {
    var effects := Effects(p, [event]);
    assert effects == [EffectOf(p, EventData(p, event))];
    assert Interpret(effects[1..]) == Reading([], Open);
  }

  // ---- Chunk by chunk and in one piece ----

  // What the whole text says.
  function ReadText(p: Parser, text: string): Reading {
    ReadEvents(p, Frames(text).events)
  }

  datatype Reader = Reader(buffer: string, reading: Reading)

  // A reader that has ended looks at no further chunk.
  function Feed(p: Parser, r: Reader, chunk: string): Reader {
    if !r.reading.ending.Open? then r
    else
      var framing := Frames(r.buffer + chunk);
      Reader(framing.rest, Then(r.reading, ReadEvents(p, framing.events)))
  }

  function FeedAll(p: Parser, chunks: seq<string>): Reader {
    if chunks == [] then Reader("", Reading([], Open))
    else Feed(p, FeedAll(p, chunks[..|chunks| - 1]), chunks[|chunks| - 1])
  }

  lemma FeedReads(p: Parser, text: string, buffer: string, chunk: string)
    requires ReadText(p, text).ending.Open? ==> buffer == Frames(text).rest
    ensures ReadText(p, text + chunk) == Feed(p, Reader(buffer, ReadText(p, text)), chunk).reading
    ensures ReadText(p, text).ending.Open? ==> Frames(text + chunk).rest == Frames(buffer + chunk).rest
  {
    FramesExtend(text, chunk);
    ReadEventsAppend(p, Frames(text).events, Frames(Frames(text).rest + chunk).events);
  }

  // However a text is cut into chunks, the client reads from it what it would
  // read from the text in one piece.
  lemma {:induction false} ChunkingDoesNotMatter(p: Parser, chunks: seq<string>)
    ensures FeedAll(p, chunks).reading == ReadText(p, Concat(chunks))
    ensures FeedAll(p, chunks).reading.ending.Open? ==> FeedAll(p, chunks).buffer == Frames(Concat(chunks)).rest
  {
    if chunks != [] {
      var front := chunks[..|chunks| - 1];
      ChunkingDoesNotMatter(p, front);
      FeedReads(p, Concat(front), FeedAll(p, front).buffer, chunks[|chunks| - 1]);
    }
  }

  // ---- The standard's line-by-line reading ----

  // A blank line dispatches an event if there were data lines, even if their
  // data is empty.
  function Dispatched(pending: seq<string>): seq<string> {
    if pending == [] then [] else [Join(pending)]
  }

  // Data lines are collected until a blank line dispatches what was collected.
  function ByLine(p: Parser, lines: seq<string>, pending: seq<string>): seq<string>
    decreases |lines|
  {
    if lines == [] then []
    else if lines[0] == "" then Dispatched(pending) + ByLine(p, lines[1..], [])
    else ByLine(p, lines[1..], pending + DataOf(p, lines[0]))
  }

  function AllButLast(lines: seq<string>): seq<string>
    requires lines != []
  {
    lines[..|lines| - 1]
  }

  // The lines that are over; what follows the last line end is not one.
  function WholeLines(s: string): seq<string> {
    AllButLast(SplitLines(s))
  }

  function SpokenBy(p: Parser, event: string): seq<string> {
    Dispatched(DataLines(p, SplitLines(event)))
  }

  function Spoken(p: Parser, events: seq<string>): seq<string> {
    if events == [] then []
    else SpokenBy(p, events[0]) + Spoken(p, events[1..])
  }

  predicate BlankOnlyFirst(lines: seq<string>) {
    forall k :: 1 <= k < |lines| ==> lines[k] != ""
  }

  lemma LineEndInPrefix(s: string, n: nat)
    requires n <= |s|
    ensures LineEndAt(s[..n], 0) == if LineEndAt(s, 0) <= n then LineEndAt(s, 0) else 0
  {
  }

  lemma FirstLineNotBlank(s: string)
    requires s != "" && LineEndAt(s, 0) == 0
    ensures SplitLines(s)[0] != ""
  {
  }

  lemma SplitAtBoundary(s: string)
    requires BoundaryAt(s, 0) > 0
    ensures SplitLines(s) == ["", ""] + SplitLines(s[BoundaryAt(s, 0)..])
  {
    var e := LineEndAt(s, 0);
    var f := LineEndAt(s, e);
    SplitAtLineEnd(s);
    assert LineEndAt(s[e..], 0) == f;
    SplitAtLineEnd(s[e..]);
    assert s[e..][f..] == s[e + f..];
  }

  lemma SplitAtLineEnd(s: string)
    requires LineEndAt(s, 0) > 0
    ensures SplitLines(s) == [""] + SplitLines(s[LineEndAt(s, 0)..])
  {
    if LineEndAt(s, 0) == 2 {
      assert s[1..][1..] == s[2..];
    }
  }

  // The lines around a blank line between two places of a text.
  predicate CutsLines(s: string, index: nat, end: nat)
    requires index <= end <= |s|
  {
    SplitLines(s) == SplitLines(s[..index]) + ([""] + SplitLines(s[end..]))
  }

  lemma CutsOneLater(s: string, index: nat, end: nat)
    requires 0 < index < end <= |s| && CutsLines(s[1..], index - 1, end - 1)
    requires LineEndAt(s, 0) <= index
    ensures CutsLines(s, index, end)
  {
    var tail, head := s[1..], s[..index];
    assert tail[..index - 1] == head[1..] && tail[end - 1..] == s[end..];
    LineEndInPrefix(s, index);
    WithCharAppend(s[0], LineEndAt(s, 0), SplitLines(head[1..]), [""] + SplitLines(s[end..]));
  }

  // Cutting at the first boundary cuts the lines at a blank line.
  lemma {:induction false} LinesAroundBoundary(s: string, index: nat, end: nat)
    requires index < end && FirstBoundary(s) == Some(Boundary(index, end - index))
    ensures end <= |s| && CutsLines(s, index, end)
    decreases |s|
  {
    if index == 0 {
      SplitAtBoundary(s);
    } else {
      LinesAroundBoundary(s[1..], index - 1, end - 1);
      NoLineEndNext(s, index, end);
      CutsOneLater(s, index, end);
    }
  }

  // After a line end the next line end is no boundary's first, or the boundary
  // would have begun earlier.
  lemma NoLineEndNext(s: string, index: nat, end: nat)
    requires 0 < index < end && FirstBoundary(s) == Some(Boundary(index, end - index))
    ensures LineEndAt(s, 0) > 0 ==> LineEndAt(s, 0) < index && LineEndAt(s, LineEndAt(s, 0)) == 0
  {
    if LineEndAt(s, 0) > 0 {
      assert LineEndAt(s, LineEndAt(s, 0)) == 0;
      assert LineEndAt(s, index) > 0;
      if LineEndAt(s, 0) == 2 {
        assert LineEndAt(s, 1) == 1;
      }
    }
  }

  // Before the first boundary only the first line may be blank.
  lemma {:induction false} NoBlankBeforeBoundary(s: string, index: nat, end: nat)
    requires index < end && FirstBoundary(s) == Some(Boundary(index, end - index))
    ensures BlankOnlyFirst(SplitLines(s[..index]))
    decreases |s|
  {
    if index > 0 {
      var tail := s[1..];
      NoBlankBeforeBoundary(tail, index - 1, end - 1);
      assert tail[..index - 1] == s[..index][1..];
      NoLineEndNext(s, index, end);
      LineEndInPrefix(s, index);
      if s[0] == '\n' {
        LineEndInPrefix(tail, index - 1);
        FirstLineNotBlank(tail[..index - 1]);
      }
    }
  }

  lemma BlankFirstOrNot(c: char, lineEnd: nat, lines: seq<string>)
    requires lines != [] && BlankOnlyFirst(AllButLast(lines))
    requires lineEnd == 1 && |lines| > 1 ==> lines[0] != ""
    ensures BlankOnlyFirst(AllButLast(WithChar(c, lineEnd, lines)))
  {
    var r := WithChar(c, lineEnd, lines);
    forall k | 1 <= k < |r| - 1
      ensures r[k] != ""
    {
      if lineEnd == 1 {
        assert r[k] == lines[k - 1] == (if k == 1 then lines[0] else AllButLast(lines)[k - 1]);
      } else {
        assert r[k] == AllButLast(lines)[k];
      }
    }
  }

  lemma {:induction false} NoBlankWithoutBoundary(s: string)
    requires FirstBoundary(s).None?
    ensures BlankOnlyFirst(WholeLines(s))
    decreases |s|
  {
    if s != "" {
      var tail := s[1..];
      NoBlankWithoutBoundary(tail);
      var e, later := LineEndAt(s, 0), SplitLines(tail);
      assert SplitLines(s) == WithChar(s[0], e, later);
      if e == 1 && tail != "" {
        ShiftedBoundary(s, 0);
        assert LineEndAt(tail, 0) == LineEndAt(s, 1) == 0;
        FirstLineNotBlank(tail);
      }
      BlankFirstOrNot(s[0], e, later);
    }
  }

  lemma {:induction false} CollectLines(p: Parser, lines: seq<string>, rest: seq<string>, pending: seq<string>)
    requires forall k :: 0 <= k < |lines| ==> lines[k] != ""
    ensures ByLine(p, lines + rest, pending) == ByLine(p, rest, pending + DataLines(p, lines))
  {
    if lines == [] {
      assert lines + rest == rest && pending + DataLines(p, lines) == pending;
    } else {
      assert (lines + rest)[1..] == lines[1..] + rest;
      CollectLines(p, lines[1..], rest, pending + DataOf(p, lines[0]));
      assert pending + DataOf(p, lines[0]) + DataLines(p, lines[1..]) == pending + DataLines(p, lines);
    }
  }

  lemma CollectEvent(p: Parser, lines: seq<string>, rest: seq<string>)
    requires lines != [] && BlankOnlyFirst(lines)
    ensures ByLine(p, lines + rest, []) == ByLine(p, rest, DataLines(p, lines))
  {
    if lines[0] == "" {
      assert (lines + rest)[1..] == lines[1..] + rest;
      CollectLines(p, lines[1..], rest, []);
      assert [] + DataLines(p, lines[1..]) == DataLines(p, lines);
    } else {
      CollectLines(p, lines, rest, []);
      assert [] + DataLines(p, lines) == DataLines(p, lines);
    }
  }

  lemma OneEventByLine(p: Parser, lines: seq<string>, more: seq<string>)
    requires lines != [] && more != [] && BlankOnlyFirst(lines)
    ensures ByLine(p, AllButLast(lines + ([""] + more)), []) ==
            Dispatched(DataLines(p, lines)) + ByLine(p, AllButLast(more), [])
  {
    var rest := [""] + AllButLast(more);
    assert AllButLast(lines + ([""] + more)) == lines + rest;
    CollectEvent(p, lines, rest);
    assert rest[1..] == AllButLast(more);
  }

  lemma NoEventByLine(p: Parser, lines: seq<string>)
    requires BlankOnlyFirst(lines)
    ensures ByLine(p, lines, []) == []
  {
    if lines != [] {
      CollectEvent(p, lines, []);
      assert lines + [] == lines;
    }
  }

  lemma SpokenFirst(p: Parser, event: string, framing: Framing)
    ensures Spoken(p, Before(event, framing).events) == SpokenBy(p, event) + Spoken(p, framing.events)
  {
    assert ([event] + framing.events)[1..] == framing.events;
  }

  lemma FirstFrameByLine(p: Parser, s: string, b: Boundary)
    requires FirstBoundary(s) == Some(b)
    ensures ByLine(p, WholeLines(s), []) ==
            SpokenBy(p, s[..b.index]) + ByLine(p, WholeLines(s[b.index + b.len..]), [])
  {
    var end := b.index + b.len;
    LinesAroundBoundary(s, b.index, end);
    NoBlankBeforeBoundary(s, b.index, end);
    OneEventByLine(p, SplitLines(s[..b.index]), SplitLines(s[end..]));
  }

  // Cutting frames out of the text hands over the data of the same events as
  // reading it line by line does, events with empty data included.
  lemma {:induction false} FramesFollowStandard(p: Parser, s: string)
    ensures Spoken(p, Frames(s).events) == ByLine(p, WholeLines(s), [])
    decreases |s|
  {
    if FirstBoundary(s).None? {
      NoBlankWithoutBoundary(s);
      NoEventByLine(p, WholeLines(s));
    } else {
      var b := FirstBoundary(s).value;
      var head, tail := s[..b.index], s[b.index + b.len..];
      FramesFollowStandard(p, tail);
      FramesUnfold(s, b);
      FirstFrameByLine(p, s, b);
      SpokenFirst(p, head, Frames(tail));
    }
  }

  function DataEffects(p: Parser, data: seq<string>): seq<Effect> {
    if data == [] then [] else [EffectOf(p, data[0])] + DataEffects(p, data[1..])
  }

  lemma {:induction false} DataEffectsAppend(p: Parser, a: seq<string>, b: seq<string>)
    ensures DataEffects(p, a + b) == DataEffects(p, a) + DataEffects(p, b)
  {
    if a == [] {
      assert a + b == b;
    } else {
      assert (a + b)[1..] == a[1..] + b;
      DataEffectsAppend(p, a[1..], b);
    }
  }

  // An event without data lines is skipped, like one whose data is empty.
  lemma OneEventSpoken(p: Parser, event: string)
    ensures Interpret(DataEffects(p, SpokenBy(p, event))) == ReadEvents(p, [event])
  {
    ReadOneEvent(p, event);
    var data := SpokenBy(p, event);
    if data != [] {
      assert data == [EventData(p, event)] && data[1..] == [];
      assert DataEffects(p, data) == [EffectOf(p, EventData(p, event))];
      assert Effects(p, [event]) == DataEffects(p, data);
    }
  }

  lemma {:induction false} EventsSpoken(p: Parser, events: seq<string>)
    ensures ReadEvents(p, events) == Interpret(DataEffects(p, Spoken(p, events)))
  {
    if events == [] {
      assert Effects(p, events) == [];
    } else {
      var rest := events[1..];
      assert events == [events[0]] + rest;
      EventsSpoken(p, rest);
      OneEventSpoken(p, events[0]);
      ReadEventsAppend(p, [events[0]], rest);
      DataEffectsAppend(p, SpokenBy(p, events[0]), Spoken(p, rest));
      InterpretAppend(DataEffects(p, SpokenBy(p, events[0])), DataEffects(p, Spoken(p, rest)));
    }
  }

  // The client reads from a text what the events dispatched line by line say.
  lemma ReadingFollowsStandard(p: Parser, s: string)
    ensures ReadText(p, s) == Interpret(DataEffects(p, ByLine(p, WholeLines(s), [])))
  {
    FramesFollowStandard(p, s);
    EventsSpoken(p, Frames(s).events);
  }
}
