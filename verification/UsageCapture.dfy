// The meter of one upstream response: a ring of the last 64 KiB of a stream,
// or the body of an ordinary response up to 1 MiB.
module Metering {
  import opened Wrappers
  import opened Sequences
  import opened UsageScan
  import opened BoundedScan

  const MAX_JSON: nat := 1048576

  datatype Outcome = Complete | Incomplete | Failed

  datatype Metered = Metered(status: int, outcome: Outcome, prompt: Option<int>, completion: Option<int>)

  // Everything the gateway ever learned about one response. A status of zero
  // means that no response headers arrived.
  datatype Response = Response(status: int, stream: bool, eof: bool, body: seq<Byte>)

  // The counts found with bounded memory.
  function Found(lib: Library, r: Response): Option<TokenUsage> {
    if r.stream then StreamUsage(lib, Tail(r.body), |r.body| > MAX_TAIL)
    else if |r.body| > MAX_JSON then None
    else
      match lib.unmarshal(r.body)
      case Malformed => None
      case Object(usage) => if ValidUsage(usage) then usage else None
  }

  function Report(lib: Library, r: Response, interrupted: bool): Metered {
    if interrupted || r.status == 0 then Metered(r.status, Incomplete, None, None)
    else if r.status < 200 || r.status >= 300 then Metered(r.status, Failed, None, None)
    else if !r.eof then Metered(r.status, Incomplete, None, None)
    else
      match Found(lib, r)
      case None => Metered(r.status, Incomplete, None, None)
      case Some(usage) => Metered(r.status, Complete, usage.prompt, usage.completion)
  }

  // The counts a reader with unbounded memory finds in the whole body.
  ghost predicate BodyReports(lib: Library, r: Response, usage: TokenUsage) {
    if r.stream then EndsEvent(r.body) && Reports(lib, ClosedLines(r.body), usage)
    else lib.unmarshal(r.body) == Object(Some(usage)) && ValidUsage(Some(usage))
  }

  ghost predicate Retained(lib: Library, r: Response) {
    if r.stream then UsageRetained(lib, r.body) else |r.body| <= MAX_JSON
  }

  lemma FoundMeaning(lib: Library, r: Response, usage: TokenUsage)
    ensures Found(lib, r) == Some(usage) <==> Retained(lib, r) && BodyReports(lib, r, usage)
    ensures Found(lib, r) == Some(usage) ==> ValidUsage(Some(usage))
  {
    if r.stream {
      BoundedScanAgrees(lib, r.body);
      WholeStreamMeaning(lib, r.body, usage);
      if EndsEvent(r.body) && Reports(lib, ClosedLines(r.body), usage) {
        ScanMeaning(lib, ClosedLines(r.body), usage);
        var p, d := ScanTrace(lib, ClosedLines(r.body));
      }
    }
  }

  // A request is reported complete with these counts exactly when it was not
  // interrupted, the status was a success, the body was read to its end, and
  // the retained body reports the counts the whole body reports.
  lemma CompleteMeaning(lib: Library, r: Response, interrupted: bool, prompt: int, completion: int)
    ensures Report(lib, r, interrupted) == Metered(r.status, Complete, Some(prompt), Some(completion))
       <==> && !interrupted && 200 <= r.status < 300 && r.eof
            && Retained(lib, r)
            && BodyReports(lib, r, TokenUsage(Some(prompt), Some(completion)))
  {
    FoundMeaning(lib, r, TokenUsage(Some(prompt), Some(completion)));
  }

  // Whatever is not reported complete carries no counts, and a complete
  // report carries nonnegative ones. A response that arrived without success
  // has failed; everything else that went wrong is incomplete.
  lemma CountsOnlyWhenComplete(lib: Library, r: Response, interrupted: bool)
    ensures var m := Report(lib, r, interrupted);
            && m.status == r.status
            && (m.outcome == Failed <==> !interrupted && r.status != 0 && !(200 <= r.status < 300))
            && (m.outcome == Complete ==> !interrupted && 200 <= r.status < 300 && r.eof)
            && (m.outcome == Complete ==> m.prompt.Some? && m.completion.Some?
                                          && m.prompt.value >= 0 && m.completion.value >= 0)
            && (m.outcome != Complete ==> m.prompt.None? && m.completion.None?)
  {
    if Found(lib, r).Some? {
      FoundMeaning(lib, r, Found(lib, r).value);
    }
  }

  // ---- Ring arithmetic, on values ----

  // The ring after an append that wraps at most once.
  ghost function RingAfter(before: seq<Byte>, x: nat, p: seq<Byte>): (after: seq<Byte>)
    requires |before| == MAX_TAIL && x < MAX_TAIL && |p| < MAX_TAIL
    ensures |after| == MAX_TAIL
  {
    if x + |p| <= MAX_TAIL then before[..x] + p + before[x + |p|..]
    else p[MAX_TAIL - x..] + before[x + |p| - MAX_TAIL..x] + p[..MAX_TAIL - x]
  }

  lemma TailAppend(seen: seq<Byte>, p: seq<Byte>)
    requires |p| < MAX_TAIL && |Tail(seen)| + |p| >= MAX_TAIL
    ensures Tail(seen + p) == Tail(seen)[|Tail(seen)| + |p| - MAX_TAIL..] + p
  {
  }

  lemma RotateNoWrap(before: seq<Byte>, x: nat, p: seq<Byte>)
    requires |before| == MAX_TAIL && |p| < MAX_TAIL && x + |p| < MAX_TAIL
    ensures var after, y := RingAfter(before, x, p), x + |p|;
            after[y..] + after[..y] == (before[x..] + before[..x])[|p|..] + p
  {
    var after, y := RingAfter(before, x, p), x + |p|;
    assert after[y..] == before[y..];
    assert after[..y] == before[..x] + p;
    assert (before[x..] + before[..x])[|p|..] == before[y..] + before[..x];
  }

  lemma RotateWrap(before: seq<Byte>, x: nat, p: seq<Byte>)
    requires |before| == MAX_TAIL && x < MAX_TAIL && |p| < MAX_TAIL && x + |p| >= MAX_TAIL
    ensures var after, y := RingAfter(before, x, p), x + |p| - MAX_TAIL;
            && after[y..] + after[..y] == before[y..x] + p
            && (before[x..] + before[..x])[|p|..] == before[y..x]
  {
    var after, y := RingAfter(before, x, p), x + |p| - MAX_TAIL;
    if y > 0 {
      assert after[..y] == p[MAX_TAIL - x..];
      assert after[y..] == before[y..x] + p[..MAX_TAIL - x];
      assert p == p[..MAX_TAIL - x] + p[MAX_TAIL - x..];
    } else {
      assert after == before[..x] + p;
    }
    assert (before[x..] + before[..x])[|p|..] == before[y..x];
  }

  // A ring that is not full holds everything from its start; a full one holds
  // the last bytes, oldest at the next write position.
  predicate RingHolds(ring: seq<Byte>, next: nat, size: nat, seen: seq<Byte>) {
    && |ring| == MAX_TAIL
    && next < MAX_TAIL
    && size == |Tail(seen)|
    && if size < MAX_TAIL then next == size && ring[..next] == seen
       else ring[next..] + ring[..next] == Tail(seen)
  }

  lemma RingFills(ring: seq<Byte>, x: nat, size: nat, seen: seq<Byte>, p: seq<Byte>)
    requires RingHolds(ring, x, size, seen) && size < MAX_TAIL && |p| < MAX_TAIL
    ensures RingHolds(RingAfter(ring, x, p), (x + |p|) % MAX_TAIL, |Tail(seen + p)|, seen + p)
  {
    if x + |p| < MAX_TAIL {
      assert RingAfter(ring, x, p)[..x + |p|] == seen + p;
    } else {
      RingReachesEnd(ring, x, seen, p);
    }
  }

  lemma RingReachesEnd(ring: seq<Byte>, x: nat, seen: seq<Byte>, p: seq<Byte>)
    requires |ring| == MAX_TAIL && x < MAX_TAIL && |p| < MAX_TAIL && x + |p| >= MAX_TAIL && ring[..x] == seen
    ensures (x + |p|) % MAX_TAIL == x + |p| - MAX_TAIL
    ensures RingHolds(RingAfter(ring, x, p), x + |p| - MAX_TAIL, MAX_TAIL, seen + p)
  {
    var y := x + |p| - MAX_TAIL;
    TailAppend(seen, p);
    RotateWrap(ring, x, p);
    assert ring[y..x] == ring[..x][y..];
  }

  lemma TailSlides(seen: seq<Byte>, window: seq<Byte>, p: seq<Byte>)
    requires window == Tail(seen) && |window| == MAX_TAIL && |p| < MAX_TAIL
    ensures Tail(seen + p) == window[|p|..] + p
  {
    TailAppend(seen, p);
  }

  lemma RingSlides(ring: seq<Byte>, x: nat, size: nat, seen: seq<Byte>, p: seq<Byte>)
    requires RingHolds(ring, x, size, seen) && size == MAX_TAIL && |p| < MAX_TAIL
    ensures RingHolds(RingAfter(ring, x, p), (x + |p|) % MAX_TAIL, MAX_TAIL, seen + p)
  {
    var window, after, y := ring[x..] + ring[..x], RingAfter(ring, x, p), (x + |p|) % MAX_TAIL;
    assert after[y..] + after[..y] == window[|p|..] + p by {
      if x + |p| < MAX_TAIL { RotateNoWrap(ring, x, p); } else { RotateWrap(ring, x, p); }
    }
    TailSlides(seen, window, p);
  }

  lemma RingReplaced(seen: seq<Byte>, p: seq<Byte>)
    requires |p| >= MAX_TAIL
    ensures RingHolds(p[|p| - MAX_TAIL..], 0, MAX_TAIL, seen + p) && |Tail(seen + p)| == MAX_TAIL
    ensures |seen + p| > MAX_TAIL <==> |seen| > 0 || |p| > MAX_TAIL
  {
    var last := p[|p| - MAX_TAIL..];
    assert Tail(seen + p) == last;
    assert last[0..] + last[..0] == last;
  }

  lemma TruncationTracked(seen: seq<Byte>, p: seq<Byte>)
    ensures |seen + p| > MAX_TAIL <==> |seen| > MAX_TAIL || |Tail(seen)| + |p| > MAX_TAIL
  {
  }

  // An append to the ring is an append to what it holds.
  lemma RingAppended(ring: seq<Byte>, x: nat, size: nat, seen: seq<Byte>, p: seq<Byte>, after: seq<Byte>, y: nat)
    requires RingHolds(ring, x, size, seen) && |p| < MAX_TAIL
    requires after == RingAfter(ring, x, p) && y == (x + |p|) % MAX_TAIL
    ensures RingHolds(after, y, if size + |p| < MAX_TAIL then size + |p| else MAX_TAIL, seen + p)
  {
    if size < MAX_TAIL {
      RingFills(ring, x, size, seen, p);
    } else {
      RingSlides(ring, x, size, seen, p);
    }
  }

  // ---- The meter ----

  // Go's copy: as many elements as both sides hold.
  method Copy(dst: array<Byte>, at: nat, src: seq<Byte>) returns (n: nat)
    requires at <= dst.Length
    modifies dst
    ensures n == if |src| < dst.Length - at then |src| else dst.Length - at
    ensures forall i :: 0 <= i < dst.Length ==> dst[i] == if at <= i < at + n then src[i - at] else old(dst[i])
  {
    n := if |src| < dst.Length - at then |src| else dst.Length - at;
    forall i | 0 <= i < n {
      dst[at + i] := src[i];
    }
  }

  method ScanTail(lib: Library, tail: seq<Byte>, truncated: bool) returns (found: Option<TokenUsage>)
    ensures found == StreamUsage(lib, tail, truncated)
  {
    if !HasSuffix(tail, [LF, LF]) && !HasSuffix(tail, [CR, LF, CR, LF]) {
      return None;
    }
    var lines := Split(tail);
    if truncated {
      lines := lines[1..];
    }
    if |lines| == 0 || |lines[|lines| - 1]| != 0 {
      return None;
    }
    found := ScanClosed(lib, lines[..|lines| - 1]);
  }

  // The loop of the stream scan over the closed lines of the tail.
  method ScanClosed(lib: Library, lines: seq<seq<Byte>>) returns (found: Option<TokenUsage>)
    ensures found == var scan := ScanLines(lib, lines, START); if scan.done then scan.usage else None
  {
    var usage: Option<TokenUsage>, done := None, false;
    for i := 0 to |lines|
      invariant ScanLines(lib, lines[..i], START) == Scan(usage, done)
    {
      assert lines[..i + 1][..i] == lines[..i];
      var line := TrimCR(lines[i]);
      if !HasPrefix(line, DATA) {
        continue;
      }
      var data := lib.trimSpace(line[|DATA|..]);
      if data == DONE_MARK {
        done := ValidUsage(usage);
        continue;
      }
      done := false;
      var event := lib.unmarshal(data);
      if event.Object? && ValidUsage(event.usage) {
        usage := event.usage;
      }
    }
    assert lines[..|lines|] == lines;
    return if done then usage else None;
  }

  class UsageCapture {
    const lib: Library
    var status: int
    var stream: bool
    var eof: bool
    var overflow: bool
    var body: seq<Byte>          // an ordinary response
    var ring: array?<Byte>       // a stream
    var tailNext: nat
    var tailSize: nat
    var tailTruncated: bool
    ghost var seen: seq<Byte>    // every byte ever observed

    ghost predicate ValidBody()
      reads this
    {
      !stream ==>
        && overflow == (|seen| > MAX_JSON)
        && body == (if overflow then [] else seen)
        && ring == null && tailNext == 0 && tailSize == 0 && !tailTruncated
    }

    ghost predicate ValidRing()
      reads this, ring
    {
      stream ==>
        && !overflow && body == []
        && tailTruncated == (|seen| > MAX_TAIL)
        && tailSize == |Tail(seen)|
        && if ring == null then seen == [] && tailNext == 0
           else RingHolds(ring[..], tailNext, tailSize, seen)
    }

    ghost predicate Valid()
      reads this, ring
    {
      ValidBody() && ValidRing()
    }

    ghost function Observed(): Response
      reads this
    {
      Response(status, stream, eof, seen)
    }

    constructor (lib: Library, stream: bool)
      ensures Valid() && this.lib == lib
      ensures Observed() == Response(0, stream, false, []) && ring == null
    {
      this.lib := lib;
      this.status, this.stream, this.eof, this.overflow := 0, stream, false, false;
      this.body, this.ring := [], null;
      this.tailNext, this.tailSize, this.tailTruncated := 0, 0, false;
      this.seen := [];
    }

    // Response headers: the content type can turn the meter into a stream
    // meter, before the first byte of the body.
    method Headers(code: int, eventStream: bool)
      requires Valid() && ring == null && seen == []
      modifies this`status, this`stream
      ensures Valid() && ring == null
      ensures Observed() == old(Observed()).(status := code, stream := old(stream) || eventStream)
    {
      status := code;
      stream := stream || eventStream;
    }

    // The proxy's own error response.
    method ProxyError(code: int)
      requires Valid()
      modifies this`status
      ensures Valid() && Observed() == old(Observed()).(status := code)
    {
      status := code;
    }

    method Read(p: seq<Byte>, atEOF: bool)
      requires Valid()
      modifies this, ring
      ensures Valid() && (ring == old(ring) || fresh(ring))
      ensures Observed() == old(Observed()).(eof := old(eof) || atEOF, body := old(seen) + p)
    {
      if |p| > 0 {
        Observe(p);
      }
      if atEOF {
        eof := true;
      }
    }

    method Observe(p: seq<Byte>)
      requires Valid()
      modifies this, ring
      ensures Valid() && (ring == old(ring) || fresh(ring))
      ensures Observed() == old(Observed()).(body := old(seen) + p)
    {
      if !stream {
        seen := seen + p;
        if overflow {
          return;
        }
        if |body| + |p| > MAX_JSON {
          body := [];
          overflow := true;
          return;
        }
        body := body + p;
        return;
      }
      if ring == null {
        ring := new Byte[MAX_TAIL];
      }
      if |p| >= MAX_TAIL {
        ReplaceRing(p);
      } else {
        AppendRing(p);
      }
    }

    method ReplaceRing(p: seq<Byte>)
      requires Valid() && stream && ring != null && |p| >= MAX_TAIL
      modifies this`seen, this`tailTruncated, this`tailNext, this`tailSize, ring
      ensures Valid() && seen == old(seen) + p
    {
      tailTruncated := tailSize > 0 || |p| > MAX_TAIL;
      var n := Copy(ring, 0, p[|p| - MAX_TAIL..]);
      assert ring[..] == p[|p| - MAX_TAIL..];
      RingReplaced(seen, p);
      tailNext := 0;
      tailSize := MAX_TAIL;
      seen := seen + p;
    }

    // The two copies of an append write the bytes RingAfter describes.
    method CopyAround(p: seq<Byte>)
      requires ring != null && ring.Length == MAX_TAIL && tailNext < MAX_TAIL && |p| < MAX_TAIL
      modifies ring
      ensures ring[..] == RingAfter(old(ring[..]), tailNext, p)
    {
      var n := Copy(ring, tailNext, p);
      var m := Copy(ring, 0, p[n..]);
    }

    method AppendRing(p: seq<Byte>)
      requires ring != null && |p| < MAX_TAIL && RingHolds(ring[..], tailNext, tailSize, seen)
      requires tailTruncated == (|seen| > MAX_TAIL)
      modifies this`seen, this`tailTruncated, this`tailNext, this`tailSize, ring
      ensures seen == old(seen) + p && RingHolds(ring[..], tailNext, tailSize, seen)
      ensures tailTruncated == (|seen| > MAX_TAIL)
    {
      MarkTruncated(p);
      WriteRing(p);
      seen := seen + p;
    }

    method MarkTruncated(p: seq<Byte>)
      requires tailSize == |Tail(seen)| && tailTruncated == (|seen| > MAX_TAIL)
      modifies this`tailTruncated
      ensures tailTruncated == (|seen + p| > MAX_TAIL)
    {
      TruncationTracked(seen, p);
      if tailSize + |p| > MAX_TAIL {
        tailTruncated := true;
      }
    }

    method WriteRing(p: seq<Byte>)
      requires ring != null && |p| < MAX_TAIL && RingHolds(ring[..], tailNext, tailSize, seen)
      modifies this`tailNext, this`tailSize, ring
      ensures RingHolds(ring[..], tailNext, tailSize, seen + p)
    {
      ghost var before, x, size := ring[..], tailNext, tailSize;
      CopyAround(p);
      tailNext := (tailNext + |p|) % MAX_TAIL;
      RingAppended(before, x, size, seen, p, ring[..], tailNext);
      tailSize := if tailSize + |p| < MAX_TAIL then tailSize + |p| else MAX_TAIL;
    }

    // The retained bytes in the order they arrived.
    method LinearTail() returns (t: seq<Byte>)
      requires Valid() && stream
      ensures t == Tail(seen)
    {
      if ring == null {
        return [];
      }
      if tailSize < MAX_TAIL {
        return ring[..tailSize];
      }
      var result := new Byte[MAX_TAIL];
      var n := Copy(result, 0, ring[tailNext..]);
      var m := Copy(result, n, ring[..tailNext]);
      t := result[..];
      assert t == ring[..][tailNext..] + ring[..][..tailNext];
    }

    method StreamCounts() returns (found: Option<TokenUsage>)
      requires Valid() && stream
      ensures found == Found(lib, Observed()) && (found.Some? ==> ValidUsage(found))
    {
      var tail := LinearTail();
      found := ScanTail(lib, tail, tailTruncated);
      if found.Some? {
        FoundMeaning(lib, Observed(), found.value);
      }
    }

    method BodyCounts() returns (found: Option<TokenUsage>)
      requires Valid() && !stream && !overflow
      ensures (if ValidUsage(found) then found else None) == Found(lib, Observed())
    {
      var response := lib.unmarshal(body);
      found := if response.Object? then response.usage else None;
    }

    method Result(interrupted: bool) returns (m: Metered)
      requires Valid()
      ensures m == Report(lib, Observed(), interrupted)
    {
      if interrupted || status == 0 {
        return Metered(status, Incomplete, None, None);
      }
      if status < 200 || status >= 300 {
        return Metered(status, Failed, None, None);
      }
      if !eof || overflow {
        return Metered(status, Incomplete, None, None);
      }
      var usage: Option<TokenUsage>;
      if stream {
        usage := StreamCounts();
      } else {
        usage := BodyCounts();
      }
      if !ValidUsage(usage) {
        return Metered(status, Incomplete, None, None);
      }
      return Metered(status, Complete, usage.value.prompt, usage.value.completion);
    }
  }

  // A whole response, read in any number of chunks of any size. What is
  // reported depends on the bytes alone, not on how they were cut.
  method MeterResponse(lib: Library, requested: bool, code: int, eventStream: bool,
                       chunks: seq<seq<Byte>>, interrupted: bool)
    returns (m: Metered)
    ensures m == Report(lib, Response(code, requested || eventStream, true, Concat(chunks)), interrupted)
  {
    var capture := new UsageCapture(lib, requested);
    capture.Headers(code, eventStream);
    for i := 0 to |chunks|
      invariant capture.Valid() && fresh(capture) && (capture.ring != null ==> fresh(capture.ring))
      invariant capture.lib == lib
      invariant capture.Observed() == Response(code, requested || eventStream, false, Concat(chunks[..i]))
    {
      assert chunks[..i + 1][..i] == chunks[..i];
      capture.Read(chunks[i], false);
    }
    assert chunks[..|chunks|] == chunks;
    capture.Read([], true);
    assert Concat(chunks) + [] == Concat(chunks);
    m := capture.Result(interrupted);
  }
}
