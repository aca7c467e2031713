// The scan of the last 64 KiB of a stream against the scan of all of it.
module BoundedScan {
  import opened Wrappers
  import opened UsageScan

  const MAX_TAIL: nat := 65536

  // The bytes a stream meter retains.
  function Tail(s: seq<Byte>): seq<Byte> {
    if |s| <= MAX_TAIL then s else s[|s| - MAX_TAIL..]
  }

  predicate StartsWithUsage(lib: Library, s: seq<Byte>) {
    var j := IndexLF(s);
    j < |s| && IsUsageLine(lib, s[..j])
  }

  // A closed line with valid counts starts at byte i.
  predicate UsageLineAt(lib: Library, s: seq<Byte>, i: int) {
    && 0 <= i < |s|
    && (i == 0 || s[i - 1] == LF)
    && StartsWithUsage(lib, s[i..])
  }

  ghost predicate AnyUsageAt(lib: Library, s: seq<Byte>) {
    exists i :: UsageLineAt(lib, s, i)
  }

  // Some line with valid counts, and the newline before it, lie inside the
  // retained bytes. A stream that was not truncated always qualifies.
  ghost predicate UsageRetained(lib: Library, s: seq<Byte>) {
    |s| <= MAX_TAIL || exists i :: |s| - MAX_TAIL < i && UsageLineAt(lib, s, i)
  }

  lemma UsageLineShift(lib: Library, s: seq<Byte>, c: nat, i: int)
    requires 0 < c <= |s| && s[c - 1] == LF && c <= i
    ensures UsageLineAt(lib, s, i) <==> UsageLineAt(lib, s[c..], i - c)
  {
    if i < |s| {
      assert s[c..][i - c..] == s[i..];
    }
  }

  lemma FirstLine(lib: Library, s: seq<Byte>, i: int)
    requires i <= IndexLF(s) || IndexLF(s) == |s|
    ensures UsageLineAt(lib, s, i) <==> i == 0 && StartsWithUsage(lib, s)
  {
    assert s[0..] == s;
  }

  lemma UsageLineEnters(lib: Library, s: seq<Byte>, c: nat)
    requires 0 < c <= |s| && s[c - 1] == LF && AnyUsageAt(lib, s[c..])
    ensures AnyUsageAt(lib, s)
  {
    var i :| UsageLineAt(lib, s[c..], i);
    UsageLineShift(lib, s, c, i + c);
  }

  lemma UsageLineCases(lib: Library, s: seq<Byte>, c: nat)
    requires c == IndexLF(s) + 1 <= |s|
    ensures AnyUsageAt(lib, s) <==> StartsWithUsage(lib, s) || AnyUsageAt(lib, s[c..])
  {
    if StartsWithUsage(lib, s) {
      FirstLine(lib, s, 0);
    } else if AnyUsageAt(lib, s[c..]) {
      UsageLineEnters(lib, s, c);
    } else if AnyUsageAt(lib, s) {
      var i :| UsageLineAt(lib, s, i);
      if i < c { FirstLine(lib, s, i); } else { UsageLineShift(lib, s, c, i); }
    }
  }

  lemma AnyUsageLineCons(lib: Library, line: seq<Byte>, lines: seq<seq<Byte>>)
    ensures AnyUsageLine(lib, [line] + lines) <==> IsUsageLine(lib, line) || AnyUsageLine(lib, lines)
  {
    if AnyUsageLine(lib, lines) {
      var l :| l in lines && IsUsageLine(lib, l);
      assert l in [line] + lines;
    }
    assert line in [line] + lines;
  }

  // Usage lines, as positions in the text, are the usage lines of its split.
  lemma {:induction false} UsageLinePositions(lib: Library, s: seq<Byte>)
    ensures AnyUsageLine(lib, ClosedLines(s)) <==> AnyUsageAt(lib, s)
    decreases |s|
  {
    var j := IndexLF(s);
    if j == |s| {
      assert ClosedLines(s) == [];
      forall i ensures !UsageLineAt(lib, s, i) {
        FirstLine(lib, s, i);
      }
    } else {
      var rest := s[j + 1..];
      UsageLinePositions(lib, rest);
      UsageLineCases(lib, s, j + 1);
      assert ClosedLines(s) == [s[..j]] + ClosedLines(rest);
      AnyUsageLineCons(lib, s[..j], ClosedLines(rest));
    }
  }

  // Cutting a text at a newline cuts its closed lines.
  lemma ClosedLinesCut(s: seq<Byte>, c: nat)
    requires 0 < c <= |s| && s[c - 1] == LF
    ensures ClosedLines(s) == Split(s[..c - 1]) + ClosedLines(s[c..])
  {
    assert s == s[..c - 1] + [LF] + s[c..];
    SplitAtNewline(s[..c - 1], s[c..]);
  }

  // Where the retained lines start: just after the first newline of the tail.
  function Cut(s: seq<Byte>): (c: nat)
    requires |s| > MAX_TAIL && EndsEvent(s)
    ensures |s| - MAX_TAIL < c < |s| && s[c - 1] == LF
    ensures forall i :: |s| - MAX_TAIL <= i < c - 1 ==> s[i] != LF
  {
    assert s[|s| - 1] == LF && (s[|s| - 2] == LF || s[|s| - 3] == LF) by {
      if HasSuffix(s, [LF, LF]) {
        assert s[|s| - 2..][0] == LF && s[|s| - 2..][1] == LF;
      } else {
        assert s[|s| - 4..][1] == LF && s[|s| - 4..][3] == LF;
      }
    }
    var k := IndexLF(Tail(s));
    assert forall i :: 0 <= i < k ==> Tail(s)[i] == s[|s| - MAX_TAIL + i];
    |s| - MAX_TAIL + k + 1
  }

  lemma RetainedLines(s: seq<Byte>)
    requires |s| > MAX_TAIL && EndsEvent(s)
    ensures EndsEvent(Tail(s))
    ensures Split(Tail(s))[1..] == Split(s[Cut(s)..])
  {
    var c, t := Cut(s), Tail(s);
    var k := c - 1 - (|s| - MAX_TAIL);
    assert t == t[..k] + [LF] + s[c..];
    SplitFirst(t[..k], s[c..]);
    assert t[|t| - 2..] == s[|s| - 2..] && t[|t| - 4..] == s[|s| - 4..];
  }

  lemma EndsEventTail(s: seq<Byte>)
    ensures EndsEvent(Tail(s)) <==> EndsEvent(s)
  {
    var t := Tail(s);
    if |s| > MAX_TAIL {
      assert t[|t| - 2..] == s[|s| - 2..] && t[|t| - 4..] == s[|s| - 4..];
    }
  }

  lemma RetainedPositions(lib: Library, s: seq<Byte>)
    requires |s| > MAX_TAIL && EndsEvent(s)
    ensures UsageRetained(lib, s) <==> AnyUsageLine(lib, ClosedLines(s[Cut(s)..]))
  {
    var c := Cut(s);
    UsageLinePositions(lib, s[c..]);
    if UsageRetained(lib, s) {
      var i :| |s| - MAX_TAIL < i && UsageLineAt(lib, s, i);
      UsageLineShift(lib, s, c, i);
    }
    if AnyUsageAt(lib, s[c..]) {
      var i :| UsageLineAt(lib, s[c..], i);
      UsageLineShift(lib, s, c, i + c);
    }
  }

  // What the scan of some lines finds.
  function FoundIn(lib: Library, lines: seq<seq<Byte>>): Option<TokenUsage> {
    var scan := ScanLines(lib, lines, START);
    if scan.done then scan.usage else None
  }

  lemma ScanOfWhole(lib: Library, s: seq<Byte>)
    requires EndsEvent(s)
    ensures StreamUsage(lib, s, false) == FoundIn(lib, ClosedLines(s))
  {
    assert HasSuffix(s, [LF]) by {
      if HasSuffix(s, [LF, LF]) {
        assert s[|s| - 1] == s[|s| - 2..][1];
      } else {
        assert s[|s| - 1] == s[|s| - 4..][3];
      }
    }
    LastPieceEmpty(s);
  }

  lemma ScanOfTail(lib: Library, s: seq<Byte>)
    requires |s| > MAX_TAIL && EndsEvent(s)
    ensures StreamUsage(lib, Tail(s), true) == FoundIn(lib, ClosedLines(s[Cut(s)..]))
  {
    var b := s[Cut(s)..];
    RetainedLines(s);
    assert b[|b| - 1..] == [LF] by {
      if HasSuffix(s, [LF, LF]) {
        assert s[|s| - 1] == s[|s| - 2..][1];
      } else {
        assert s[|s| - 1] == s[|s| - 4..][3];
      }
    }
    LastPieceEmpty(b);
  }

  lemma ScanFromCut(lib: Library, before: seq<seq<Byte>>, lines: seq<seq<Byte>>)
    ensures FoundIn(lib, lines) == if AnyUsageLine(lib, lines) then FoundIn(lib, before + lines) else None
  {
    ScanAppend(lib, before, lines, START);
    ScanForgets(lib, lines, ScanLines(lib, before, START));
  }

  // The scan of the tail is the scan of the whole stream when a line with
  // valid counts was retained together with the newline before it, and finds
  // nothing otherwise. It never finds different counts.
  lemma BoundedScanAgrees(lib: Library, s: seq<Byte>)
    ensures StreamUsage(lib, Tail(s), |s| > MAX_TAIL)
         == if UsageRetained(lib, s) then StreamUsage(lib, s, false) else None
  {
    if |s| > MAX_TAIL {
      EndsEventTail(s);
      if EndsEvent(s) {
        RetainedPositions(lib, s);
        ClosedLinesCut(s, Cut(s));
        ScanOfTail(lib, s);
        ScanOfWhole(lib, s);
        ScanFromCut(lib, Split(s[..Cut(s) - 1]), ClosedLines(s[Cut(s)..]));
      }
    }
  }

  // What a truncated tail loses, exactly: the bounded scan differs from the
  // scan of the whole stream just when the stream reports usage and every
  // line with valid counts starts too early.
  lemma BoundedScanLoses(lib: Library, s: seq<Byte>)
    ensures StreamUsage(lib, Tail(s), |s| > MAX_TAIL) != StreamUsage(lib, s, false)
       <==> !UsageRetained(lib, s) && EndsEvent(s) && exists u :: Reports(lib, ClosedLines(s), u)
  {
    BoundedScanAgrees(lib, s);
    forall u ensures StreamUsage(lib, s, false) == Some(u) <==> EndsEvent(s) && Reports(lib, ClosedLines(s), u) {
      WholeStreamMeaning(lib, s, u);
    }
  }
}
