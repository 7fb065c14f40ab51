/** The incremental reader of src/lib/sse.ts. Bytes are characters here; a chunk is what the
    decoder returns for one read. */
module SseReader {
  import opened Text

  // ----- what one split of the whole text yields -----

  /** Length of /\r?\n\r?\n/ matched at the start of s, 0 when it does not match. */
  function EventBreak(s: string): (k: nat)
    ensures k <= |s| && (k == 0 || 2 <= k <= 4)
  {
    if "\n" <= s then SecondBreak(s, 1)
    else if "\r\n" <= s then SecondBreak(s, 2)
    else 0
  }

  function SecondBreak(s: string, k: nat): (r: nat)
    requires 1 <= k <= 2 && k <= |s|
    ensures r <= |s| && (r == 0 || k < r <= k + 2)
  {
    if "\n" <= s[k..] then k + 1
    else if "\r\n" <= s[k..] then k + 2
    else 0
  }

  /** text.split(/\r?\n\r?\n/) */
  function SplitEvents(s: string): (parts: seq<string>)
    ensures |parts| >= 1
    decreases |s|
  {
    if s == "" then [""]
    else if EventBreak(s) > 0 then [""] + SplitEvents(s[EventBreak(s)..])
    else
      var rest := SplitEvents(s[1..]);
      [[s[0]] + rest[0]] + rest[1..]
  }

  function DropCr(line: string): string
  {
    if |line| > 0 && line[|line| - 1] == '\r' then line[..|line| - 1] else line
  }

  /** frame.split(/\r?\n/): split at every LF; a CR right before the LF goes with it. */
  function FrameLines(frame: string): (lines: seq<string>)
  {
    var parts := Split(frame, '\n');
    seq(|parts|, i requires 0 <= i < |parts| => if i < |parts| - 1 then DropCr(parts[i]) else parts[i])
  }

  /** The field value of a "data:" line: the prefix goes, and one space after it. */
  function DataValue(line: string): string
    requires "data:" <= line
  {
    var v := line[5..];
    if " " <= v then v[1..] else v
  }

  function DataValues(lines: seq<string>): seq<string>
  {
    if lines == [] then []
    else (if "data:" <= lines[0] then [DataValue(lines[0])] else []) + DataValues(lines[1..])
  }

  /** What a frame yields: its data lines joined, or nothing when it has none. */
  function FramePayload(frame: string): seq<string>
  {
    var values := DataValues(FrameLines(frame));
    if values == [] then [] else [Join(values, '\n')]
  }

  function Payloads(frames: seq<string>): seq<string>
  {
    if frames == [] then [] else FramePayload(frames[0]) + Payloads(frames[1..])
  }

  /** The reference: one split of the whole text, every piece a frame. */
  function ReadWhole(text: string): seq<string>
  {
    Payloads(SplitEvents(text))
  }

  // ----- the incremental reader -----

  lemma {:induction false} DataValuesAppend(a: seq<string>, b: seq<string>)
    ensures DataValues(a + b) == DataValues(a) + DataValues(b)
  {
    if a == [] {
      assert a + b == b;
    } else {
      assert (a + b)[1..] == a[1..] + b;
      DataValuesAppend(a[1..], b);
    }
  }

  lemma {:induction false} PayloadsAppend(a: seq<string>, b: seq<string>)
    ensures Payloads(a + b) == Payloads(a) + Payloads(b)
  {
    if a == [] {
      assert a + b == b;
    } else {
      assert (a + b)[1..] == a[1..] + b;
      PayloadsAppend(a[1..], b);
    }
  }

  lemma {:induction false} WholePart(s: string)
    requires |SplitEvents(s)| == 1
    ensures SplitEvents(s) == [s]
  {
    if s != "" {
      WholePart(s[1..]);
      assert [s[0]] + s[1..] == s;
    }
  }

  /** A blank-line match, once complete, is not changed by text that follows it. */
  lemma BreakIsStable(a: string, b: string)
    ensures EventBreak(a) > 0 ==> EventBreak(a + b) == EventBreak(a)
  {
    if EventBreak(a) > 0 {
      var k := if "\n" <= a then 1 else 2;
      assert (a + b)[k..] == a[k..] + b;
    }
  }

  /** A match that only completes with later text leaves the earlier text unsplit. */
  lemma StraddlingBreak(a: string, b: string)
    requires a != "" && EventBreak(a) == 0 && EventBreak(a + b) > 0
    ensures |SplitEvents(a)| == 1
  {
    var s := a + b;
    var k := if "\n" <= s then 1 else 2;
    assert |a| <= 3;
    if |a| >= 2 {
      assert a[0] == s[0] && a[1] == s[1];
      if |a| == 3 {
        assert a[2] == s[2];
        assert a[1..][0] == a[1] && a[1..][1] == a[2] && a[2..][0] == a[2];
      }
      assert a[1..][1..] == a[2..];
    }
    assert |SplitEvents("")| == 1;
    if |a| == 1 {
      assert a[1..] == "";
    } else if |a| == 2 {
      assert a[2..] == "";
      assert EventBreak(a[1..]) == 0;
      assert |SplitEvents(a[1..])| == 1;
    } else {
      assert a[3..] == "" && a[2..][1..] == a[3..];
      assert EventBreak(a[2..]) == 0;
      assert |SplitEvents(a[2..])| == 1;
      assert EventBreak(a[1..]) == 0;
      assert |SplitEvents(a[1..])| == 1;
    }
  }

  /** What cutting at a boundary promises for one split of both halves. */
  ghost predicate CutsAt(a: string, b: string) {
    SplitEvents(a + b) == Init(SplitEvents(a)) + SplitEvents(Last(SplitEvents(a)) + b)
  }

  lemma CutAfterBreak(a: string, b: string, k: nat)
    requires a != "" && EventBreak(a) == k > 0 && CutsAt(a[k..], b)
    ensures CutsAt(a, b)
  {
    BreakIsStable(a, b);
    assert (a + b)[k..] == a[k..] + b;
    var parts := SplitEvents(a[k..]);
    PrependEmpty(parts, SplitEvents(Last(parts) + b));
  }

  lemma SplitEventsChar(s: string)
    requires s != "" && EventBreak(s) == 0
    ensures var rest := SplitEvents(s[1..]);
            SplitEvents(s) == [[s[0]] + rest[0]] + rest[1..]
  {
  }

  lemma CutAfterChar(a: string, b: string)
    requires a != "" && EventBreak(a) == 0 && EventBreak(a + b) == 0 && CutsAt(a[1..], b)
    ensures CutsAt(a, b)
  {
    hide EventBreak, SplitEvents;
    assert (a + b)[1..] == a[1..] + b;
    SplitEventsChar(a);
    SplitEventsChar(a + b);
    var parts := SplitEvents(a[1..]);
    if |parts| == 1 {
      WholePart(a[1..]);
      assert [a[0]] + a[1..] == a;
    } else {
      GrowHead(a[0], parts, SplitEvents(Last(parts) + b));
    }
  }

  /** Splitting in two goes at any boundary: the last part of the first half is
      all the reader has to keep. */
  lemma {:induction false} SplitEventsAppend(a: string, b: string)
    ensures CutsAt(a, b)
    decreases |a|
  {
    if a == "" {
      assert a + b == b;
    } else if EventBreak(a) > 0 {
      SplitEventsAppend(a[EventBreak(a)..], b);
      CutAfterBreak(a, b, EventBreak(a));
    } else if EventBreak(a + b) > 0 {
      StraddlingBreak(a, b);
      WholePart(a);
    } else {
      SplitEventsAppend(a[1..], b);
      CutAfterChar(a, b);
    }
  }

  /** The generator sseData: `buffer` is the text not yet cut into frames. */
  class SseData {
    var buffer: string

    constructor ()
      ensures buffer == ""
    {
      buffer := "";
    }

    /** framesFrom: cut the buffer, keep the last piece unless this is the flush. */
    method FramesFrom(chunkTerminated: bool) returns (out: seq<string>)
      modifies this
      ensures chunkTerminated ==> out == Payloads(Init(SplitEvents(old(buffer))))
                                  && buffer == Last(SplitEvents(old(buffer)))
      ensures !chunkTerminated ==> out == Payloads(SplitEvents(old(buffer))) && buffer == ""
    {
      var parts := SplitEvents(buffer);
      if chunkTerminated {
        buffer := Last(parts);
        parts := Init(parts);
      } else {
        buffer := "";
      }
      out := YieldFrames(parts);
    }
  }

  method YieldFrames(frames: seq<string>) returns (out: seq<string>)
    ensures out == Payloads(frames)
  {
    out := [];
    for n := 0 to |frames|
      invariant out == Payloads(frames[..n])
    {
      var dataLines := FilterDataLines(FrameLines(frames[n]));
      assert frames[..n + 1] == frames[..n] + [frames[n]];
      PayloadsAppend(frames[..n], [frames[n]]);
      assert Payloads([frames[n]]) == FramePayload(frames[n]);
      if dataLines != [] {
        out := out + [Join(dataLines, '\n')];
      }
    }
    assert frames[..|frames|] == frames;
  }

  method FilterDataLines(lines: seq<string>) returns (values: seq<string>)
    ensures values == DataValues(lines)
  {
    values := [];
    for l := 0 to |lines|
      invariant values == DataValues(lines[..l])
    {
      assert lines[..l + 1] == lines[..l] + [lines[l]];
      DataValuesAppend(lines[..l], [lines[l]]);
      if "data:" <= lines[l] {
        values := values + [DataValue(lines[l])];
      }
    }
    assert lines[..|lines|] == lines;
  }

  /** One more chunk: what it yields now and what the rest will yield. */
  lemma ReadOneMore(buffer: string, chunks: seq<string>)
    requires chunks != []
    ensures ReadWhole(buffer + Concat(chunks))
         == Payloads(Init(SplitEvents(buffer + chunks[0])))
            + ReadWhole(Last(SplitEvents(buffer + chunks[0])) + Concat(chunks[1..]))
  {
    var a, b := buffer + chunks[0], Concat(chunks[1..]);
    assert buffer + Concat(chunks) == a + b;
    SplitEventsAppend(a, b);
    PayloadsAppend(Init(SplitEvents(a)), SplitEvents(Last(SplitEvents(a)) + b));
  }

  /** What a reader holding `buffer` yields for the chunks still to come. */
  ghost function Remaining(buffer: string, chunks: seq<string>): seq<string> {
    ReadWhole(buffer + Concat(chunks))
  }

  /** However the body is cut into chunks, the payloads are those of one split of
      the whole text, the trailing frame included. */
  method ReadChunks(chunks: seq<string>) returns (out: seq<string>)
    ensures out == ReadWhole(Concat(chunks))
  {
    var reader := new SseData();
    ghost var left := Remaining(reader.buffer, chunks);
    assert reader.buffer + Concat(chunks) == Concat(chunks);
    out := [];
    var n := 0;
    assert chunks[n..] == chunks;
    while n < |chunks|
      invariant fresh(reader) && n <= |chunks|
      invariant left == Remaining(reader.buffer, chunks[n..])
      invariant out + left == ReadWhole(Concat(chunks))
    {
      ghost var before, was := out, left;
      var frames;
      frames, left := ReadChunk(reader, chunks, n, left);
      out := out + frames;
      n := n + 1;
      assert before + was == out + left by { AppendAssociates(before, frames, left); }
    }
    var frames := ReadTail(reader);
    out := out + frames;
  }

  method ReadChunk(reader: SseData, chunks: seq<string>, n: nat, ghost left: seq<string>)
    returns (frames: seq<string>, ghost left': seq<string>)
    requires n < |chunks| && left == Remaining(reader.buffer, chunks[n..])
    modifies reader
    ensures left' == Remaining(reader.buffer, chunks[n + 1..]) && left == frames + left'
  {
    ReadOneMore(reader.buffer, chunks[n..]);
    assert chunks[n..][1..] == chunks[n + 1..];
    reader.buffer := reader.buffer + chunks[n];
    frames := reader.FramesFrom(true);
    left' := Remaining(reader.buffer, chunks[n + 1..]);
  }

  method ReadTail(reader: SseData) returns (frames: seq<string>)
    modifies reader
    ensures frames == Remaining(old(reader.buffer), [])
  {
    assert reader.buffer + Concat([]) == reader.buffer;
    frames := reader.FramesFrom(false);
  }
}
