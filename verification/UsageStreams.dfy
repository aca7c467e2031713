// Which streams are complete, said of the bytes on the wire: what every line
// does to the scan, the streams an upstream ordinarily sends, and what lines
// that carry no data do to them.
module UsageStreams {
  import opened Wrappers
  import opened UsageScan
  import opened BoundedScan
  import opened Metering

  // ---- One line ----

  predicate EndsWith(s: seq<Byte>, b: Byte) {
    s != [] && s[|s| - 1] == b
  }

  // A line as it comes out of the split: its text, with or without one
  // carriage return of the line end.
  predicate LineWithText(line: seq<Byte>, text: seq<Byte>) {
    line == text + [13] || (line == text && !EndsWith(text, 13))
  }

  predicate IsData(text: seq<Byte>) {
    |text| >= 5 && text[..5] == [100, 97, 116, 97, 58]
  }

  predicate BothCounts(u: TokenUsage) {
    u.prompt.Some? && u.completion.Some? && u.prompt.value >= 0 && u.completion.value >= 0
  }

  predicate ReportsUsage(d: Decoded, u: TokenUsage) {
    d == Object(Some(u)) && BothCounts(u)
  }

  // Every line has one text.
  lemma TextOfLine(line: seq<Byte>) returns (text: seq<Byte>)
    ensures LineWithText(line, text)
    ensures forall other :: LineWithText(line, other) ==> other == text
  {
    text := if EndsWith(line, 13) then line[..|line| - 1] else line;
    assert EndsWith(line, 13) ==> line == text + [13];
    forall other | LineWithText(line, other)
      ensures other == text
    {
      if line == other + [13] {
        assert line[..|line| - 1] == other;
      }
    }
  }

  // What a line does to the scan: nothing without "data:"; the end mark asks
  // whether counts have been found; any other payload takes that back, and
  // replaces the counts when it carries both and neither is negative.
  lemma LineMeaning(lib: Library, scan: Scan, line: seq<Byte>, text: seq<Byte>)
    requires LineWithText(line, text)
    ensures !IsData(text) ==> StepLine(lib, scan, line) == scan
    ensures IsData(text) && lib.trimSpace(text[5..]) == [91, 68, 79, 78, 69, 93] ==>
              StepLine(lib, scan, line) == Scan(scan.usage, scan.usage.Some? && BothCounts(scan.usage.value))
    ensures IsData(text) && lib.trimSpace(text[5..]) != [91, 68, 79, 78, 69, 93] ==>
              && (forall u :: ReportsUsage(lib.unmarshal(lib.trimSpace(text[5..])), u) ==>
                    StepLine(lib, scan, line) == Scan(Some(u), false))
              && ((forall u :: !ReportsUsage(lib.unmarshal(lib.trimSpace(text[5..])), u)) ==>
                    StepLine(lib, scan, line) == Scan(scan.usage, false))
  {
    TrimmedText(line, text);
    if IsData(text) && lib.trimSpace(text[5..]) != [91, 68, 79, 78, 69, 93] {
      match lib.unmarshal(lib.trimSpace(text[5..]))
      case Malformed =>
      case Object(usage) =>
        if ValidUsage(usage) {
          assert ReportsUsage(lib.unmarshal(lib.trimSpace(text[5..])), usage.value);
        }
    }
  }

  lemma TrimmedText(line: seq<Byte>, text: seq<Byte>)
    requires LineWithText(line, text)
    ensures TrimCR(line) == text
  {
    if line == text + [13] {
      assert line[|line| - 1..] == [13];
    } else {
      assert line != [] ==> line[|line| - 1..] == [line[|line| - 1]];
    }
  }

  // ---- Lines of a text ----

  predicate StartsLine(before: seq<Byte>) {
    before == [] || EndsWith(before, 10)
  }

  lemma ClosedAfter(before: seq<Byte>, rest: seq<Byte>)
    requires StartsLine(before)
    ensures ClosedLines(before + rest) == ClosedLines(before) + ClosedLines(rest)
  {
    if before == [] {
      assert before + rest == rest;
    } else {
      var front := before[..|before| - 1];
      assert before == front + [LF] + [] && before + rest == front + [LF] + rest;
      SplitAtNewline(front, []);
      SplitAtNewline(front, rest);
    }
  }

  lemma ClosedFirst(line: seq<Byte>, rest: seq<Byte>)
    requires 10 !in line
    ensures ClosedLines(line + [10] + rest) == [line] + ClosedLines(rest)
  {
    SplitFirst(line, rest);
  }

  predicate IsLineEnd(e: seq<Byte>) {
    e == [10] || e == [13, 10]
  }

  // One event of a stream: a data line and an empty line.
  function DataEvent(payload: seq<Byte>, e: seq<Byte>): seq<Byte> {
    [100, 97, 116, 97, 58] + payload + e + e
  }

  predicate PlainPayload(payload: seq<Byte>) {
    10 !in payload && !EndsWith(payload, 13)
  }

  lemma EventLines(payload: seq<Byte>, cr: seq<Byte>)
    requires (cr == [] || cr == [13]) && PlainPayload(payload)
    ensures ClosedLines(DataEvent(payload, cr + [10])) == [[100, 97, 116, 97, 58] + payload + cr, cr]
  {
    var text := [100, 97, 116, 97, 58] + payload;
    EventBytes(payload, cr);
    ClosedFirst(text + cr, cr + [10]);
    assert cr + [10] == cr + [10] + [];
    ClosedFirst(cr, []);
  }

  lemma EventBytes(payload: seq<Byte>, cr: seq<Byte>)
    ensures DataEvent(payload, cr + [10]) == [100, 97, 116, 97, 58] + payload + cr + [10] + (cr + [10])
  {
    var text := [100, 97, 116, 97, 58] + payload;
    Regroup(text, cr, [10]);
  }

  lemma PlainLine(text: seq<Byte>, cr: seq<Byte>)
    requires (cr == [] || cr == [13]) && !EndsWith(text, 13)
    ensures LineWithText(text + cr, text)
  {
    assert text + [] == text;
  }

  lemma TwoLines(lib: Library, lines: seq<seq<Byte>>, a: seq<Byte>, b: seq<Byte>, scan: Scan)
    ensures ScanLines(lib, lines + [a, b], scan) == StepLine(lib, StepLine(lib, ScanLines(lib, lines, scan), a), b)
  {
    var all := lines + [a, b];
    assert all[..|all| - 1] == lines + [a];
    assert (lines + [a])[..|lines|] == lines;
  }

  // What one event does to the scan of a text.
  lemma EventScanned(lib: Library, lines: seq<seq<Byte>>, payload: seq<Byte>, e: seq<Byte>)
    requires IsLineEnd(e) && PlainPayload(payload)
    ensures var found := ScanLines(lib, lines, START);
            var all := ScanLines(lib, lines + ClosedLines(DataEvent(payload, e)), START);
            if lib.trimSpace(payload) == [91, 68, 79, 78, 69, 93]
            then all == Scan(found.usage, found.usage.Some? && BothCounts(found.usage.value))
            else forall u :: ReportsUsage(lib.unmarshal(lib.trimSpace(payload)), u) ==> all == Scan(Some(u), false)
  {
    var cr, text := e[..|e| - 1], [100, 97, 116, 97, 58] + payload;
    var found := ScanLines(lib, lines, START);
    assert e == cr + [10];
    EventLines(payload, cr);
    TwoLines(lib, lines, text + cr, cr, START);
    assert text[5..] == payload && [] + cr == cr;
    PlainLine(text, cr);
    PlainLine([], cr);
    LineMeaning(lib, found, text + cr, text);
    LineMeaning(lib, StepLine(lib, found, text + cr), cr, []);
  }

  // ---- Whole streams ----

  // A stream whose last two events are a payload with both counts and the end
  // mark reports those counts, with either line end and after any lines.
  lemma OrdinaryStream(lib: Library, before: seq<Byte>, payload: seq<Byte>, mark: seq<Byte>, e: seq<Byte>,
                       u: TokenUsage)
    requires StartsLine(before) && PlainPayload(payload) && PlainPayload(mark) && IsLineEnd(e)
    requires lib.trimSpace(mark) == [91, 68, 79, 78, 69, 93] && lib.trimSpace(payload) != [91, 68, 79, 78, 69, 93]
    requires lib.unmarshal(lib.trimSpace(payload)) == Object(Some(u)) && BothCounts(u)
    ensures StreamUsage(lib, before + DataEvent(payload, e) + DataEvent(mark, e), false) == Some(u)
    ensures UsageLineAt(lib, before + DataEvent(payload, e) + DataEvent(mark, e), |before|)
  {
    var s := before + DataEvent(payload, e) + DataEvent(mark, e);
    var lines := ClosedLines(before);
    assert ReportsUsage(lib.unmarshal(lib.trimSpace(payload)), u);
    assert s == before + (DataEvent(payload, e) + DataEvent(mark, e));
    ClosedAfter(before, DataEvent(payload, e) + DataEvent(mark, e));
    ClosedAfter(DataEvent(payload, e), DataEvent(mark, e));
    Regroup(lines, ClosedLines(DataEvent(payload, e)), ClosedLines(DataEvent(mark, e)));
    EventScanned(lib, lines, payload, e);
    EventScanned(lib, lines + ClosedLines(DataEvent(payload, e)), mark, e);
    EventEnds(before + DataEvent(payload, e), mark, e);
    ScanOfWhole(lib, s);
    UsageStarts(lib, before, payload, e, DataEvent(mark, e), u);
    Regroup(before, DataEvent(payload, e), DataEvent(mark, e));
  }

  lemma EventEnds(before: seq<Byte>, payload: seq<Byte>, e: seq<Byte>)
    requires IsLineEnd(e)
    ensures EndsEvent(before + DataEvent(payload, e))
  {
    var s := before + DataEvent(payload, e);
    if e == [10] {
      assert s[|s| - 2..] == [10, 10];
    } else {
      assert s[|s| - 4..] == [13, 10, 13, 10];
    }
  }

  lemma UsageStarts(lib: Library, before: seq<Byte>, payload: seq<Byte>, e: seq<Byte>, rest: seq<Byte>, u: TokenUsage)
    requires StartsLine(before) && PlainPayload(payload) && IsLineEnd(e)
    requires lib.trimSpace(payload) != [91, 68, 79, 78, 69, 93]
    requires ReportsUsage(lib.unmarshal(lib.trimSpace(payload)), u)
    ensures UsageLineAt(lib, before + (DataEvent(payload, e) + rest), |before|)
  {
    var s := before + (DataEvent(payload, e) + rest);
    var cr, text := e[..|e| - 1], [100, 97, 116, 97, 58] + payload;
    assert e == cr + [10] && text[5..] == payload;
    EventBytes(payload, cr);
    Regroup(text + cr + [10], cr + [10], rest);
    PlainLine(text, cr);
    TrimmedText(text + cr, text);
    FirstLineReports(lib, text + cr, cr + [10] + rest);
    assert s[|before|..] == DataEvent(payload, e) + rest;
  }

  lemma FirstLineReports(lib: Library, line: seq<Byte>, rest: seq<Byte>)
    requires 10 !in line && IsUsageLine(lib, line)
    ensures StartsWithUsage(lib, line + [10] + rest)
  {
    var s := line + [10] + rest;
    IndexLFUnique(s, |line|);
    assert s[..|line|] == line;
  }

  // Such a stream of any length is reported complete with those counts when
  // its last two events lie inside the retained bytes.
  lemma OrdinaryStreamIsComplete(lib: Library, r: Response, before: seq<Byte>, payload: seq<Byte>, mark: seq<Byte>,
                                 e: seq<Byte>, u: TokenUsage)
    requires StartsLine(before) && PlainPayload(payload) && PlainPayload(mark) && IsLineEnd(e)
    requires lib.trimSpace(mark) == [91, 68, 79, 78, 69, 93] && lib.trimSpace(payload) != [91, 68, 79, 78, 69, 93]
    requires lib.unmarshal(lib.trimSpace(payload)) == Object(Some(u)) && BothCounts(u)
    requires r.stream && r.eof && 200 <= r.status < 300
    requires r.body == before + DataEvent(payload, e) + DataEvent(mark, e)
    requires |r.body| <= 65536 || |DataEvent(payload, e) + DataEvent(mark, e)| < 65536
    ensures Report(lib, r, false) == Metered(r.status, Complete, u.prompt, u.completion)
  {
    OrdinaryStream(lib, before, payload, mark, e, u);
    var recent := DataEvent(payload, e) + DataEvent(mark, e);
    Regroup(before, DataEvent(payload, e), DataEvent(mark, e));
    RecentUsage(lib, r, |before|, |recent|, u);
  }

  lemma RecentUsage(lib: Library, r: Response, i: nat, recent: nat, u: TokenUsage)
    requires StreamUsage(lib, r.body, false) == Some(u) && UsageLineAt(lib, r.body, i)
    requires |r.body| == i + recent && (|r.body| <= 65536 || recent < 65536)
    requires r.stream && r.eof && 200 <= r.status < 300
    ensures Report(lib, r, false) == Metered(r.status, Complete, u.prompt, u.completion)
  {
    RetainedIsFound(lib, r.body, i, recent);
    FoundIsReported(lib, r, u);
  }

  lemma FoundIsReported(lib: Library, r: Response, u: TokenUsage)
    requires Found(lib, r) == Some(u) && r.eof && 200 <= r.status < 300
    ensures Report(lib, r, false) == Metered(r.status, Complete, u.prompt, u.completion)
  {
  }

  lemma RetainedIsFound(lib: Library, s: seq<Byte>, i: nat, recent: nat)
    requires UsageLineAt(lib, s, i) && |s| == i + recent && (|s| <= 65536 || recent < 65536)
    ensures StreamUsage(lib, Tail(s), |s| > 65536) == StreamUsage(lib, s, false)
  {
    BoundedScanAgrees(lib, s);
  }

  // A line without data changes nothing, wherever it stands before the last
  // event.
  lemma IgnoredLine(lib: Library, before: seq<Byte>, line: seq<Byte>, text: seq<Byte>, after: seq<Byte>)
    requires StartsLine(before) && 10 !in line && LineWithText(line, text) && !IsData(text)
    requires EndsEvent(after)
    ensures StreamUsage(lib, before + line + [10] + after, false) == StreamUsage(lib, before + after, false)
  {
    var rest := line + [10] + after;
    assert before + line + [10] + after == before + rest;
    EndsLater(before, after);
    EndsLater(before + line + [10], after);
    ScanOfWhole(lib, before + after);
    ScanOfWhole(lib, before + rest);
    ClosedAfter(before, after);
    ClosedAfter(before, rest);
    ClosedFirst(line, after);
    Regroup(ClosedLines(before), [line], ClosedLines(after));
    ScanAppend(lib, ClosedLines(before), ClosedLines(after), START);
    ScanAppend(lib, ClosedLines(before) + [line], ClosedLines(after), START);
    LineMeaning(lib, ScanLines(lib, ClosedLines(before), START), line, text);
    assert (ClosedLines(before) + [line])[..|ClosedLines(before)|] == ClosedLines(before);
  }

  lemma EndsLater(before: seq<Byte>, after: seq<Byte>)
    requires EndsEvent(after)
    ensures EndsEvent(before + after)
  {
    var s := before + after;
    if HasSuffix(after, [LF, LF]) {
      assert s[|s| - 2..] == after[|after| - 2..];
    } else {
      assert s[|s| - 4..] == after[|after| - 4..];
    }
  }

  // A stream that does not end with two equal line ends is never complete.
  lemma UnfinishedStream(lib: Library, body: seq<Byte>, status: int, interrupted: bool)
    requires !(|body| >= 2 && body[|body| - 2..] == [10, 10])
    requires !(|body| >= 4 && body[|body| - 4..] == [13, 10, 13, 10])
    ensures Report(lib, Response(status, true, true, body), interrupted).outcome != Complete
  {
    BoundedScanAgrees(lib, body);
    EndsEventTail(body);
  }

  // An ordinary response of up to 1 MiB is complete exactly when it decodes
  // to an object with both counts, neither negative.
  lemma OrdinaryBody(lib: Library, r: Response, interrupted: bool, u: TokenUsage)
    requires !r.stream
    ensures Report(lib, r, interrupted) == Metered(r.status, Complete, u.prompt, u.completion) && BothCounts(u)
       <==> && !interrupted && 200 <= r.status < 300 && r.eof && |r.body| <= 1_048_576
            && lib.unmarshal(r.body) == Object(Some(u)) && BothCounts(u)
  {
  }
}
