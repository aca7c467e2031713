// What a metered response stream reports: the scan of its event lines, first
// over any sequence of lines and then over the whole byte stream. The bounded
// meter of UsageCapture.dfy is proved against this module.
module UsageScan {
  import opened Wrappers

  type Byte = b: int | 0 <= b < 256

  const LF: Byte := 10
  const CR: Byte := 13
  const DATA: seq<Byte> := [100, 97, 116, 97, 58]           // data:
  const DONE_MARK: seq<Byte> := [91, 68, 79, 78, 69, 93]    // [DONE]

  // Absent counts are JSON null or a missing member.
  datatype TokenUsage = TokenUsage(prompt: Option<int>, completion: Option<int>)

  datatype Decoded = Malformed | Object(usage: Option<TokenUsage>)

  // The two library calls the scan makes, left uninterpreted: trimming white
  // space around the payload of a line, and decoding a JSON object for its
  // "usage" member.
  datatype Library = Library(trimSpace: seq<Byte> -> seq<Byte>, unmarshal: seq<Byte> -> Decoded)

  predicate ValidUsage(usage: Option<TokenUsage>) {
    && usage.Some? && usage.value.prompt.Some? && usage.value.completion.Some?
    && usage.value.prompt.value >= 0 && usage.value.completion.value >= 0
  }

  predicate HasPrefix(s: seq<Byte>, prefix: seq<Byte>) {
    |prefix| <= |s| && s[..|prefix|] == prefix
  }

  predicate HasSuffix(s: seq<Byte>, suffix: seq<Byte>) {
    |suffix| <= |s| && s[|s| - |suffix|..] == suffix
  }

  function TrimCR(line: seq<Byte>): seq<Byte> {
    if HasSuffix(line, [CR]) then line[..|line| - 1] else line
  }

  predicate EndsEvent(text: seq<Byte>) {
    HasSuffix(text, [LF, LF]) || HasSuffix(text, [CR, LF, CR, LF])
  }

  // ---- Lines ----

  function IndexLF(s: seq<Byte>): (j: nat)
    ensures j <= |s|
    ensures forall i :: 0 <= i < j ==> s[i] != LF
    ensures j < |s| ==> s[j] == LF
  {
    if s == [] || s[0] == LF then 0 else IndexLF(s[1..]) + 1
  }

  function Split(s: seq<Byte>): (lines: seq<seq<Byte>>)
    ensures |lines| >= 1
    decreases |s|
  {
    var j := IndexLF(s);
    if j == |s| then [s] else [s[..j]] + Split(s[j + 1..])
  }

  // The lines that a newline has closed.
  function ClosedLines(s: seq<Byte>): seq<seq<Byte>> {
    var lines := Split(s);
    lines[..|lines| - 1]
  }

  lemma IndexLFUnique(s: seq<Byte>, j: nat)
    requires j <= |s| && (forall i :: 0 <= i < j ==> s[i] != LF) && (j < |s| ==> s[j] == LF)
    ensures IndexLF(s) == j
  {
  }

  lemma SplitFirst(a: seq<Byte>, b: seq<Byte>)
    requires forall i :: 0 <= i < |a| ==> a[i] != LF
    ensures Split(a + [LF] + b) == [a] + Split(b)
  {
    var s := a + [LF] + b;
    IndexLFUnique(s, |a|);
    assert s[..|a|] == a && s[|a| + 1..] == b;
  }

  lemma Regroup<T>(a: seq<T>, b: seq<T>, c: seq<T>)
    ensures a + b + c == a + (b + c)
  {
  }

  // Splitting distributes over a newline, whatever stands on its two sides.
  lemma {:induction false} SplitAtNewline(a: seq<Byte>, b: seq<Byte>)
    ensures Split(a + [LF] + b) == Split(a) + Split(b)
    decreases |a|
  {
    var j := IndexLF(a);
    if j == |a| {
      SplitFirst(a, b);
    } else {
      var line, rest := a[..j] + [LF], a[j + 1..];
      calc {
        Split(a + [LF] + b);
        { assert a == line + rest; Regroup(line, rest, [LF]); Regroup(line, rest + [LF], b); }
        Split(line + (rest + [LF] + b));
        { SplitFirst(a[..j], rest + [LF] + b); }
        [a[..j]] + Split(rest + [LF] + b);
        { SplitAtNewline(rest, b); }
        [a[..j]] + (Split(rest) + Split(b));
        { Regroup([a[..j]], Split(rest), Split(b)); }
        Split(a) + Split(b);
      }
    }
  }

  // A text that ends in a newline leaves an empty last piece.
  lemma LastPieceEmpty(s: seq<Byte>)
    requires HasSuffix(s, [LF])
    ensures Split(s)[|Split(s)| - 1] == []
  {
    var front := s[..|s| - 1];
    assert s == front + [LF] + [];
    SplitAtNewline(front, []);
  }

  // ---- The scan ----

  datatype Kind = Other | Done | Payload(usage: Option<TokenUsage>)

  // What one line means to the scan. A payload carries the usage it reports
  // when that usage is valid.
  function Classify(lib: Library, rawLine: seq<Byte>): Kind {
    var line := TrimCR(rawLine);
    if !HasPrefix(line, DATA) then Other
    else
      var data := lib.trimSpace(line[|DATA|..]);
      if data == DONE_MARK then Done
      else
        match lib.unmarshal(data)
        case Malformed => Payload(None)
        case Object(usage) => Payload(if ValidUsage(usage) then usage else None)
  }

  datatype Scan = Scan(usage: Option<TokenUsage>, done: bool)

  function StepLine(lib: Library, scan: Scan, line: seq<Byte>): Scan {
    match Classify(lib, line)
    case Other => scan
    case Done => scan.(done := ValidUsage(scan.usage))
    case Payload(usage) => Scan(if usage.Some? then usage else scan.usage, false)
  }

  function ScanLines(lib: Library, lines: seq<seq<Byte>>, scan: Scan): Scan {
    if lines == [] then scan
    else StepLine(lib, ScanLines(lib, lines[..|lines| - 1], scan), lines[|lines| - 1])
  }

  const START := Scan(None, false)

  // The scan of a retained text. A truncated text may start inside a line, so
  // its first line is dropped.
  function StreamUsage(lib: Library, text: seq<Byte>, truncated: bool): Option<TokenUsage> {
    if !EndsEvent(text) then None
    else
      var lines := if truncated then Split(text)[1..] else Split(text);
      if |lines| == 0 || lines[|lines| - 1] != [] then None
      else
        var scan := ScanLines(lib, lines[..|lines| - 1], START);
        if scan.done then scan.usage else None
  }

  predicate IsUsageLine(lib: Library, line: seq<Byte>) {
    match Classify(lib, line)
    case Payload(usage) => usage.Some?
    case _ => false
  }

  predicate AnyUsageLine(lib: Library, lines: seq<seq<Byte>>) {
    exists line <- lines :: IsUsageLine(lib, line)
  }

  lemma {:induction false} ScanAppend(lib: Library, a: seq<seq<Byte>>, b: seq<seq<Byte>>, scan: Scan)
    ensures ScanLines(lib, a + b, scan) == ScanLines(lib, b, ScanLines(lib, a, scan))
    decreases |b|
  {
    if b == [] {
      assert a + b == a;
    } else {
      var front := b[..|b| - 1];
      assert (a + b)[..|a + b| - 1] == a + front;
      ScanAppend(lib, a, front, scan);
    }
  }

  // After a usage line the scan has forgotten how it started; before one it
  // has found nothing.
  lemma {:induction false} ScanForgets(lib: Library, lines: seq<seq<Byte>>, scan: Scan)
    ensures AnyUsageLine(lib, lines) ==> ScanLines(lib, lines, scan) == ScanLines(lib, lines, START)
    ensures !AnyUsageLine(lib, lines) ==> ScanLines(lib, lines, START) == START
    decreases |lines|
  {
    if lines != [] {
      var front, last := lines[..|lines| - 1], lines[|lines| - 1];
      ScanForgets(lib, front, scan);
      assert lines == front + [last];
      assert AnyUsageLine(lib, lines) <==> AnyUsageLine(lib, front) || IsUsageLine(lib, last);
    }
  }

  // ---- The meaning of the scan, without its running state ----

  predicate LastUsageAt(lib: Library, lines: seq<seq<Byte>>, p: int, usage: TokenUsage) {
    && 0 <= p < |lines|
    && Classify(lib, lines[p]) == Payload(Some(usage))
    && forall m :: p < m < |lines| ==> !IsUsageLine(lib, lines[m])
  }

  predicate LastDataAt(lib: Library, lines: seq<seq<Byte>>, d: int) {
    && -1 <= d < |lines|
    && (d >= 0 ==> Classify(lib, lines[d]) != Other)
    && forall m :: d < m < |lines| ==> Classify(lib, lines[m]) == Other
  }

  // The last data line is the end mark, and before it the last line with
  // valid counts reported this usage.
  ghost predicate Reports(lib: Library, lines: seq<seq<Byte>>, usage: TokenUsage) {
    exists p, d ::
      && 0 <= p < d
      && LastUsageAt(lib, lines, p, usage)
      && LastDataAt(lib, lines, d)
      && Classify(lib, lines[d]) == Done
  }

  // Where the running state of the scan comes from: the last usage line and
  // the last data line.
  ghost predicate Traced(lib: Library, lines: seq<seq<Byte>>, scan: Scan, p: int, d: int) {
    && (scan.usage.None? ==> p == -1)
    && (scan.usage.Some? ==> LastUsageAt(lib, lines, p, scan.usage.value))
    && (p == -1 ==> forall m :: 0 <= m < |lines| ==> !IsUsageLine(lib, lines[m]))
    && LastDataAt(lib, lines, d)
    && (scan.done <==> 0 <= p < d && Classify(lib, lines[d]) == Done)
  }

  // How each kind of line moves the two positions.
  lemma TraceOther(lib: Library, lines: seq<seq<Byte>>, line: seq<Byte>, scan: Scan, p: int, d: int)
    requires Traced(lib, lines, scan, p, d) && Classify(lib, line).Other?
    ensures Traced(lib, lines + [line], scan, p, d)
  {
    assert forall m :: 0 <= m < |lines| ==> (lines + [line])[m] == lines[m];
  }

  lemma TraceDone(lib: Library, lines: seq<seq<Byte>>, line: seq<Byte>, scan: Scan, p: int, d: int)
    requires Traced(lib, lines, scan, p, d) && Classify(lib, line).Done?
    ensures Traced(lib, lines + [line], Scan(scan.usage, scan.usage.Some?), p, |lines|)
  {
    assert forall m :: 0 <= m < |lines| ==> (lines + [line])[m] == lines[m];
  }

  lemma TracePayload(lib: Library, lines: seq<seq<Byte>>, line: seq<Byte>, scan: Scan, p: int, d: int)
    requires Traced(lib, lines, scan, p, d) && Classify(lib, line).Payload?
    ensures var usage := Classify(lib, line).usage;
            Traced(lib, lines + [line], Scan(if usage.Some? then usage else scan.usage, false),
                   if usage.Some? then |lines| else p, |lines|)
  {
    assert forall m :: 0 <= m < |lines| ==> (lines + [line])[m] == lines[m];
  }

  lemma TraceStep(lib: Library, lines: seq<seq<Byte>>, line: seq<Byte>, scan: Scan, p: int, d: int)
    returns (p': int, d': int)
    requires Traced(lib, lines, scan, p, d) && (scan.usage.Some? ==> ValidUsage(scan.usage))
    ensures var after := StepLine(lib, scan, line);
            Traced(lib, lines + [line], after, p', d') && (after.usage.Some? ==> ValidUsage(after.usage))
  {
    p', d' := p, d;
    match Classify(lib, line)
    case Other =>
      TraceOther(lib, lines, line, scan, p, d);
    case Done =>
      d' := |lines|;
      TraceDone(lib, lines, line, scan, p, d);
    case Payload(usage) =>
      d' := |lines|;
      if usage.Some? { p' := |lines|; }
      TracePayload(lib, lines, line, scan, p, d);
  }

  lemma {:induction false} ScanTrace(lib: Library, lines: seq<seq<Byte>>) returns (p: int, d: int)
    ensures var scan := ScanLines(lib, lines, START);
            Traced(lib, lines, scan, p, d) && (scan.usage.Some? ==> ValidUsage(scan.usage))
    decreases |lines|
  {
    p, d := -1, -1;
    if lines != [] {
      var front, last := lines[..|lines| - 1], lines[|lines| - 1];
      p, d := ScanTrace(lib, front);
      p, d := TraceStep(lib, front, last, ScanLines(lib, front, START), p, d);
      assert lines == front + [last];
    }
  }

  lemma ScanMeaning(lib: Library, lines: seq<seq<Byte>>, usage: TokenUsage)
    ensures ScanLines(lib, lines, START) == Scan(Some(usage), true) <==> Reports(lib, lines, usage)
  {
    var p, d := ScanTrace(lib, lines);
    if Reports(lib, lines, usage) {
      var p', d' :| 0 <= p' < d' && LastUsageAt(lib, lines, p', usage)
        && LastDataAt(lib, lines, d') && Classify(lib, lines[d']) == Done;
      assert d' == d;
      assert IsUsageLine(lib, lines[p']);
    }
  }

  // The scan of a whole stream, said without its running state: the stream
  // ends with a complete event, and its closed lines report the usage.
  lemma WholeStreamMeaning(lib: Library, text: seq<Byte>, usage: TokenUsage)
    ensures StreamUsage(lib, text, false) == Some(usage)
       <==> EndsEvent(text) && Reports(lib, ClosedLines(text), usage)
  {
    if EndsEvent(text) {
      assert HasSuffix(text, [LF]);
      LastPieceEmpty(text);
      ScanMeaning(lib, ClosedLines(text), usage);
      var p, d := ScanTrace(lib, ClosedLines(text));
    }
  }
}
