/** The relay loop of src/lib/agentcore-sdk.ts: it decides from the opening bytes whether the body
    is SSE, forwards "data: " lines as they arrive, and otherwise buffers the body to the end. */
module SseRelay {
  import opened Text
  import opened SseReader

  /** The characters /\s/ matches in JavaScript. */
  predicate IsSpace(c: char) {
    c in {'\t', '\n', '\U{0B}', '\U{0C}', '\r', ' ', '\U{A0}', '\U{1680}', '\U{2028}', '\U{2029}',
          '\U{202F}', '\U{205F}', '\U{3000}', '\U{FEFF}'}
    || '\U{2000}' <= c <= '\U{200A}'
  }

  function TrimStart(s: string): string {
    if s != "" && IsSpace(s[0]) then TrimStart(s[1..]) else s
  }

  const FIELDS: seq<string> := ["data:", "event:", "id:", "retry:"]

  /** sseHead: Some(true) is SSE, Some(false) is not, None is "wait for more". */
  function SseHead(head: string): Option<bool> {
    var s := TrimStart(head);
    if s == "" then None
    else if ":" <= s then Some(true)
    else FieldHead(s, FIELDS)
  }

  function FieldHead(s: string, fields: seq<string>): Option<bool> {
    if fields == [] then Some(false)
    else if fields[0] <= s then Some(true)
    else if s <= fields[0] then None
    else FieldHead(s, fields[1..])
  }

  /** The text begins with a comment or a field of an event. */
  predicate BeginsLine(s: string) {
    ":" <= s || "data:" <= s || "event:" <= s || "id:" <= s || "retry:" <= s
  }

  /** Or could still become the name of a field. */
  predicate MayBegin(s: string) {
    s <= "data:" || s <= "event:" || s <= "id:" || s <= "retry:"
  }

  /** Where the text proper begins, behind its white space. */
  predicate Opens(head: string, k: nat) {
    k < |head| && !IsSpace(head[k]) && forall i | 0 <= i < k :: IsSpace(head[i])
  }

  lemma {:induction false} TrimStartIs(s: string) returns (k: nat)
    ensures k <= |s| && TrimStart(s) == s[k..] && (forall i | 0 <= i < k :: IsSpace(s[i])) && (k < |s| ==> !IsSpace(s[k]))
  {
    hide IsSpace;
    k := 0;
    if s != "" && IsSpace(s[0]) {
      k := TrimStartIs(s[1..]);
      assert s[1..][k..] == s[k + 1..];
      assert forall i | 1 <= i < k + 1 :: s[i] == s[1..][i - 1];
      k := k + 1;
    }
  }

  lemma FieldHeadStep(s: string, fields: seq<string>, rest: seq<string>)
    requires fields != [] && rest == fields[1..]
    ensures FieldHead(s, fields) == if fields[0] <= s then Some(true) else if s <= fields[0] then None else FieldHead(s, rest)
  {
  }

  lemma FirstLetter(s: string, field: string, letter: char)
    requires s != "" && field != "" && field[0] == letter
    ensures field <= s || s <= field ==> s[0] == letter
  {
  }

  lemma FieldHeadIs(s: string)
    requires s != "" && !(":" <= s)
    ensures FieldHead(s, FIELDS) == if BeginsLine(s) then Some(true) else if MayBegin(s) then None else Some(false)
  {
    FirstLetter(s, "data:", 'd');
    FirstLetter(s, "event:", 'e');
    FirstLetter(s, "id:", 'i');
    FirstLetter(s, "retry:", 'r');
    FieldHeadStep(s, FIELDS, ["event:", "id:", "retry:"]);
    FieldHeadStep(s, ["event:", "id:", "retry:"], ["id:", "retry:"]);
    FieldHeadStep(s, ["id:", "retry:"], ["retry:"]);
    FieldHeadStep(s, ["retry:"], []);
    assert FieldHead(s, []) == Some(false);
    hide FieldHead;
  }

  /** The relay takes a body for SSE exactly when what follows its leading white space begins
      with a comment or a field, and waits exactly while there is nothing but white space or
      what there is could still become a field. */
  lemma SseHeadExactly(head: string)
    ensures SseHead(head) == Some(true) <==> exists k: nat :: Opens(head, k) && BeginsLine(head[k..])
    ensures SseHead(head) == None <==>
            (forall i | 0 <= i < |head| :: IsSpace(head[i]))
            || exists k: nat :: Opens(head, k) && !BeginsLine(head[k..]) && MayBegin(head[k..])
  {
    var k := TrimStartIs(head);
    hide TrimStart, FieldHead, IsSpace;
    assert forall j: nat | Opens(head, j) :: j == k;
    if k < |head| {
      var s := head[k..];
      assert Opens(head, k);
      if !(":" <= s) {
        FieldHeadIs(s);
      } else {
        assert BeginsLine(s);
      }
      hide BeginsLine, MayBegin;
    }
  }

  // ----- what the relay sends for a whole body -----

  /** One SSE frame, as the relay writes it. */
  function Frame(line: string): string { line + "\n\n" }

  function DataLines(lines: seq<string>): seq<string> {
    if lines == [] then []
    else (if "data: " <= lines[0] then [Frame(lines[0])] else []) + DataLines(lines[1..])
  }

  /** Is the body relayed line by line? `declared`: its content type already said so. */
  predicate Streams(body: string, declared: bool) {
    declared || SseHead(body) == Some(true)
  }

  /** The frames sent for a whole body, after the "response received" trace. */
  function Relayed(body: string, declared: bool, buffered: string -> seq<string>): seq<string> {
    if Streams(body, declared) then DataLines(Split(body, '\n')) else buffered(body)
  }

  // ----- a decision, once made, stands -----

  lemma {:induction false} TrimStartExtends(s: string, more: string)
    requires TrimStart(s) != ""
    ensures TrimStart(s + more) == TrimStart(s) + more
  {
    if IsSpace(s[0]) {
      assert (s + more)[1..] == s[1..] + more;
      TrimStartExtends(s[1..], more);
    }
  }

  lemma {:induction false} FieldHeadExtends(s: string, more: string, fields: seq<string>)
    requires FieldHead(s, fields).Some?
    ensures FieldHead(s + more, fields) == FieldHead(s, fields)
  {
    if fields != [] {
      var f := fields[0];
      if f <= s {
        assert f <= s + more;
      } else {
        var k := Differ(s, f);
        assert (s + more)[k] == s[k] != f[k];
        FieldHeadExtends(s, more, fields[1..]);
      }
    }
  }

  /** Two strings, neither a prefix of the other, differ at an index of both. */
  lemma Differ(s: string, t: string) returns (k: nat)
    requires !(s <= t) && !(t <= s)
    ensures k < |s| && k < |t| && s[k] != t[k]
  {
    k := 0;
    while k < |s| && k < |t| && s[k] == t[k]
      invariant k <= |s| && k <= |t| && s[..k] == t[..k]
    {
      k := k + 1;
    }
    assert s[..|s|] == s && t[..|t|] == t;
  }

  /** A decided answer never changes as the head grows. */
  lemma DecisionIsFinal(head: string, more: string)
    requires SseHead(head).Some?
    ensures SseHead(head + more) == SseHead(head)
  {
    TrimStartExtends(head, more);
    var s := TrimStart(head);
    if ":" <= s {
      assert ":" <= s + more;
    } else {
      assert (s + more)[0] == s[0];
      FieldHeadExtends(s, more, FIELDS);
    }
  }

  // ----- the incremental loop -----

  lemma {:induction false} DataLinesAppend(a: seq<string>, b: seq<string>)
    ensures DataLines(a + b) == DataLines(a) + DataLines(b)
  {
    if a == [] {
      assert a + b == b;
    } else {
      assert (a + b)[1..] == a[1..] + b;
      DataLinesAppend(a[1..], b);
    }
  }

  class Relay {
    var buf: string
    var sse: Option<bool>
    var traced: bool
    var sent: seq<string>   // the frames enqueued so far

    constructor (declared: bool)
      ensures buf == "" && sse == (if declared then Some(true) else None) && !traced && sent == []
    {
      buf, traced, sent := "", false, [];
      sse := if declared then Some(true) else None;
    }

    method TraceReceived(received: string)
      modifies this`traced, this`sent
      ensures traced
      ensures sent == if old(traced) then old(sent) else old(sent) + [Frame(received)]
    {
      if !traced {
        traced := true;
        sent := sent + [Frame(received)];
      }
    }

    method Forward(lines: seq<string>)
      modifies this`sent
      ensures sent == old(sent) + DataLines(lines)
    {
      assert DataLines([]) == [];
      for n := 0 to |lines|
        invariant sent == old(sent) + DataLines(lines[..n])
      {
        assert lines[..n + 1] == lines[..n] + [lines[n]];
        DataLinesAppend(lines[..n], [lines[n]]);
        AppendAssociates(old(sent), DataLines(lines[..n]), DataLines([lines[n]]));
        if "data: " <= lines[n] {
          assert DataLines([lines[n]]) == [Frame(lines[n])];
          sent := sent + [Frame(lines[n])];
        }
      }
      assert lines[..|lines|] == lines;
    }

    /** Where the relay stands once the text `soFar` has arrived. */
    ghost predicate At(soFar: string, declared: bool, received: string)
      reads this
    {
      && (traced <==> sent != [])
      && (soFar != "" ==> traced)
      && (sse == if declared then Some(true) else SseHead(soFar))
      && (if sse == Some(true)
          then (buf == Last(Split(soFar, '\n'))
                && sent == (if traced then [Frame(received)] else []) + DataLines(Init(Split(soFar, '\n'))))
          else buf == soFar && sent == if traced then [Frame(received)] else [])
    }

    /** Forward the complete lines of the buffer, hold the partial last one back. */
    method ForwardComplete()
      modifies this`buf, this`sent
      ensures buf == Last(Split(old(buf), '\n'))
      ensures sent == old(sent) + DataLines(Init(Split(old(buf), '\n')))
    {
      var lines := Split(buf, '\n');
      buf := Last(lines);
      Forward(Init(lines));
    }

    /** One chunk from the decoder. */
    method Push(chunk: string, received: string, ghost soFar: string, ghost declared: bool)
      requires At(soFar, declared, received)
      modifies this
      ensures At(soFar + chunk, declared, received)
    {
      if chunk == "" {
        assert soFar + chunk == soFar;
        return;
      }
      if sse.Some? && !declared {
        DecisionIsFinal(soFar, chunk);
      }
      ghost var streamed := sse == Some(true);
      buf := buf + chunk;
      TraceReceived(received);
      if sse == None {
        sse := SseHead(buf);
      }
      if sse == Some(true) {
        if streamed {
          ForwardInTwo(soFar, chunk, [Frame(received)]);
        }
        ForwardComplete();
      }
    }
  }

  /** The complete lines of a text that came in two goes. */
  lemma ForwardInTwo(soFar: string, chunk: string, sent: seq<string>)
    ensures var open := Last(Split(soFar, '\n')) + chunk;
            Last(Split(soFar + chunk, '\n')) == Last(Split(open, '\n'))
            && sent + DataLines(Init(Split(soFar + chunk, '\n')))
               == (sent + DataLines(Init(Split(soFar, '\n')))) + DataLines(Init(Split(open, '\n')))
    ensures soFar == "" ==> DataLines(Init(Split(soFar, '\n'))) == []
  {
    hide Split;
    var head := Split(soFar, '\n');
    var lines := Split(Last(head) + chunk, '\n');
    SplitAppend(soFar, chunk, '\n');
    assert Init(Init(head) + lines) == Init(head) + Init(lines);
    DataLinesAppend(Init(head), Init(lines));
    AppendAssociates(sent, DataLines(Init(head)), DataLines(Init(lines)));
    EmptyText();
  }

  lemma EmptyText()
    ensures DataLines(Init(Split("", '\n'))) == []
  {
  }

  /** The body part of the relayed stream: however the runtime's body is chunked,
      the frames are a function of the whole body. */
  method RelayBody(chunks: seq<string>, declared: bool, received: string, buffered: string -> seq<string>)
    returns (frames: seq<string>)
    ensures frames == [Frame(received)] + Relayed(Concat(chunks), declared, buffered)
  {
    var relay := new Relay(declared);
    ghost var soFar := "";
    assert Init(Split("", '\n')) == [];
    for n := 0 to |chunks|
      invariant fresh(relay)
      invariant soFar == Concat(chunks[..n])
      invariant relay.At(soFar, declared, received)
    {
      relay.Push(chunks[n], received, soFar, declared);
      assert chunks[..n + 1] == chunks[..n] + [chunks[n]];
      ConcatAppend(chunks[..n], [chunks[n]]);
      assert Concat([chunks[n]]) == chunks[n];
      soFar := soFar + chunks[n];
    }
    assert chunks[..|chunks|] == chunks;
    frames := FinishBody(relay, soFar, declared, received, buffered);
  }

  method FinishBody(relay: Relay, ghost body: string, ghost declared: bool, received: string,
                    buffered: string -> seq<string>) returns (frames: seq<string>)
    requires relay.At(body, declared, received)
    modifies relay
    ensures frames == [Frame(received)] + Relayed(body, declared, buffered)
  {
    ghost var parts := Split(body, '\n');
    if !relay.traced {
      assert DataLines(Init(Split("", '\n'))) == [];
    }
    relay.TraceReceived(received);
    if relay.sse == Some(true) {
      assert parts == Init(parts) + [Last(parts)];
      DataLinesAppend(Init(parts), [Last(parts)]);
      AppendAssociates([Frame(received)], DataLines(Init(parts)), DataLines([Last(parts)]));
      relay.Forward([relay.buf]);
    } else {
      relay.sent := relay.sent + buffered(relay.buf);
    }
    frames := relay.sent;
  }

  // ----- both hops together -----

  function DataFrame(json: string): string { Frame("data: " + json) }

  function DataFrames(jsons: seq<string>): seq<string> {
    seq(|jsons|, i requires 0 <= i < |jsons| => DataFrame(jsons[i]))
  }

  function Buffered(texts: string -> seq<string>): string -> seq<string> {
    b => DataFrames(texts(b))
  }

  const PING := ": ping"

  /** `wire` is `frames` with heartbeat frames put in anywhere. */
  ghost predicate WithPings(frames: seq<string>, wire: seq<string>) {
    if wire == [] then frames == []
    else (frames != [] && wire[0] == frames[0] && WithPings(frames[1..], wire[1..]))
         || (wire[0] == Frame(PING) && WithPings(frames, wire[1..]))
  }

  /** Everything the relay enqueues for one invocation, heartbeats apart. */
  function Sent(body: string, declared: bool, start: string, received: string,
                texts: string -> seq<string>, complete: string, done: string): seq<string>
  {
    DataFrames([start, received])
    + Relayed(body, declared, Buffered(texts))
    + DataFrames([complete, done])
  }

  /** The payloads of the runtime's own "data: " lines, in order. A line that ended
      in CRLF loses that CR at the reader. */
  function UpstreamPayloads(lines: seq<string>): seq<string> {
    if lines == [] then []
    else (if "data: " <= lines[0] then [DropCr(lines[0][6..])] else []) + UpstreamPayloads(lines[1..])
  }

  /** One line is one frame at the reader, whatever follows it. */
  lemma {:induction false} FrameIsOnePart(line: string, rest: string)
    requires '\n' !in line
    ensures SplitEvents(Frame(line) + rest) == [DropCr(line)] + SplitEvents(rest)
  {
    var s := Frame(line) + rest;
    if line == "" {
      assert s[0] == s[1] == '\n' && s[1..][0] == '\n' && s[2..] == rest;
      assert EventBreak(s) == 2;
    } else if line == "\r" {
      assert s[0] == '\r' && s[1] == s[2] == '\n' && s[2..][0] == '\n' && s[3..] == rest;
      assert EventBreak(s) == 3;
    } else {
      assert s[0] == line[0];
      if |line| > 1 {
        assert s[1] == line[1];
      }
      assert EventBreak(s) == 0;
      assert s[1..] == Frame(line[1..]) + rest;
      FrameIsOnePart(line[1..], rest);
      assert DropCr(line) == [line[0]] + DropCr(line[1..]);
      var parts := SplitEvents(s[1..]);
      assert parts[0] == DropCr(line[1..]) && parts[1..] == SplitEvents(rest);
    }
  }

  lemma SingleLine(line: string)
    requires '\n' !in line
    ensures FrameLines(line) == [line]
    ensures FramePayload(line) == if "data:" <= line then [DataValue(line)] else []
  {
    SplitPart(line, '\n');
    assert FrameLines(line) == [line];
    assert DataValues([line]) == if "data:" <= line then [DataValue(line)] else [];
  }

  function LinePayloads(lines: seq<string>): seq<string> {
    if lines == [] then [] else FramePayload(DropCr(lines[0])) + LinePayloads(lines[1..])
  }

  function Frames(lines: seq<string>): seq<string> {
    seq(|lines|, i requires 0 <= i < |lines| => Frame(lines[i]))
  }

  ghost predicate SingleLines(lines: seq<string>) {
    forall i | 0 <= i < |lines| :: '\n' !in lines[i]
  }

  lemma ReadOneFrame(line: string, wire: seq<string>)
    requires wire != [] && wire[0] == Frame(line) && '\n' !in line
    ensures ReadWhole(Concat(wire)) == FramePayload(DropCr(line)) + ReadWhole(Concat(wire[1..]))
  {
    var rest := SplitEvents(Concat(wire[1..]));
    FrameIsOnePart(line, Concat(wire[1..]));
    assert ([DropCr(line)] + rest)[1..] == rest;
  }

  /** The reader takes each frame back to its line and drops the heartbeats. */
  lemma {:induction false} ReadFrames(lines: seq<string>, wire: seq<string>)
    requires SingleLines(lines) && WithPings(Frames(lines), wire)
    ensures ReadWhole(Concat(wire)) == LinePayloads(lines)
    decreases |wire|
  {
    if wire == [] {
      assert lines == [];
      SingleLine("");
    } else {
      var frames := Frames(lines);
      if frames != [] && wire[0] == frames[0] && WithPings(frames[1..], wire[1..]) {
        assert frames[1..] == Frames(lines[1..]);
        ReadFrames(lines[1..], wire[1..]);
        ReadOneFrame(lines[0], wire);
      } else {
        ReadFrames(lines, wire[1..]);
        ReadOneFrame(PING, wire);
        assert DropCr(PING) == PING;
        SingleLine(PING);
      }
    }
  }

  lemma {:induction false} LinePayloadsAppend(a: seq<string>, b: seq<string>)
    ensures LinePayloads(a + b) == LinePayloads(a) + LinePayloads(b)
  {
    if a == [] {
      assert a + b == b;
    } else {
      assert (a + b)[1..] == a[1..] + b;
      LinePayloadsAppend(a[1..], b);
      AppendAssociates(FramePayload(DropCr(a[0])), LinePayloads(a[1..]), LinePayloads(b));
    }
  }

  function WithPrefix(lines: seq<string>): seq<string> {
    if lines == [] then []
    else (if "data: " <= lines[0] then [lines[0]] else []) + WithPrefix(lines[1..])
  }

  lemma DataLineValue(line: string)
    requires "data: " <= line && '\n' !in line
    ensures FramePayload(DropCr(line)) == [DropCr(line[6..])]
  {
    var l := DropCr(line);
    SingleLine(l);
    assert "data: " <= l && l[..5] == "data:" && l[5..][0] == ' ';
    assert DataValue(l) == l[6..] == DropCr(line[6..]);
  }

  lemma {:induction false} ForwardedLines(lines: seq<string>)
    requires SingleLines(lines)
    ensures DataLines(lines) == Frames(WithPrefix(lines)) && SingleLines(WithPrefix(lines))
    ensures LinePayloads(WithPrefix(lines)) == UpstreamPayloads(lines)
  {
    hide FramePayload, DropCr, Frame;
    if lines != [] {
      var rest := WithPrefix(lines[1..]);
      ForwardedLines(lines[1..]);
      if "data: " <= lines[0] {
        DataLineValue(lines[0]);
        assert ([lines[0]] + rest)[1..] == rest;
        assert Frames([lines[0]] + rest) == [Frame(lines[0])] + Frames(rest);
      } else {
        assert [] + rest == rest;
      }
    }
  }

  ghost predicate JsonLine(json: string) { '\n' !in json && '\r' !in json }

  lemma JsonFrame(json: string)
    requires JsonLine(json)
    ensures '\n' !in "data: " + json
    ensures LinePayloads(["data: " + json]) == [json]
  {
    var l := "data: " + json;
    assert DropCr(l) == l;
    SingleLine(l);
    assert l[..5] == "data:" && l[5..][0] == ' ' && l[5..][1..] == json;
    assert LinePayloads([]) == [];
  }

  lemma {:induction false} JsonFrames(jsons: seq<string>)
    requires forall i | 0 <= i < |jsons| :: JsonLine(jsons[i])
    ensures SingleLines(JsonLines(jsons)) && DataFrames(jsons) == Frames(JsonLines(jsons))
    ensures LinePayloads(JsonLines(jsons)) == jsons
  {
    hide FramePayload, DropCr;
    if jsons != [] {
      JsonFrames(jsons[1..]);
      JsonFrame(jsons[0]);
      assert JsonLines(jsons) == ["data: " + jsons[0]] + JsonLines(jsons[1..]);
      LinePayloadsAppend(["data: " + jsons[0]], JsonLines(jsons[1..]));
      assert [jsons[0]] + jsons[1..] == jsons;
    }
  }

  function JsonLines(jsons: seq<string>): seq<string> {
    seq(|jsons|, i requires 0 <= i < |jsons| => "data: " + jsons[i])
  }

  /** The lines of the frames between the traces. */
  function Middle(body: string, declared: bool, texts: string -> seq<string>): seq<string> {
    if Streams(body, declared) then WithPrefix(Split(body, '\n')) else JsonLines(texts(body))
  }

  /** What the client should read between the traces. */
  function Expected(body: string, declared: bool, texts: string -> seq<string>): seq<string> {
    if Streams(body, declared) then UpstreamPayloads(Split(body, '\n')) else texts(body)
  }

  lemma MiddleReads(body: string, declared: bool, texts: string -> seq<string>)
    requires forall i | 0 <= i < |texts(body)| :: JsonLine(texts(body)[i])
    ensures var middle := Middle(body, declared, texts);
            SingleLines(middle)
            && Relayed(body, declared, Buffered(texts)) == Frames(middle)
            && LinePayloads(middle) == Expected(body, declared, texts)
  {
    if Streams(body, declared) {
      var parts := Split(body, '\n');
      forall i | 0 <= i < |parts| ensures '\n' !in parts[i] {
        PartsHoldNoSeparator(body, '\n', i);
      }
      ForwardedLines(parts);
    } else {
      JsonFrames(texts(body));
    }
  }

  lemma ReadThreeParts(a: seq<string>, b: seq<string>, c: seq<string>, wire: seq<string>)
    requires SingleLines(a) && SingleLines(b) && SingleLines(c)
    requires WithPings(Frames(a) + Frames(b) + Frames(c), wire)
    ensures ReadWhole(Concat(wire)) == LinePayloads(a) + LinePayloads(b) + LinePayloads(c)
  {
    assert Frames(a + b + c) == Frames(a) + Frames(b) + Frames(c);
    ReadFrames(a + b + c, wire);
    LinePayloadsAppend(a + b, c);
    LinePayloadsAppend(a, b);
  }

  /** Both hops: whatever the chunking of the runtime's body (RelayBody), whatever
      heartbeats go in between, and whatever the chunking of the result (ReadChunks),
      the client reads the two opening traces, then the payloads of exactly the
      runtime's "data: " lines in order - or the buffered texts of a body that is not
      SSE - then the two closing frames. */
  lemma EndToEnd(body: string, declared: bool, start: string, received: string,
                 texts: string -> seq<string>, complete: string, done: string, wire: seq<string>)
    requires JsonLine(start) && JsonLine(received) && JsonLine(complete) && JsonLine(done)
    requires forall i | 0 <= i < |texts(body)| :: JsonLine(texts(body)[i])
    requires WithPings(Sent(body, declared, start, received, texts, complete, done), wire)
    ensures ReadWhole(Concat(wire)) == [start, received] + Expected(body, declared, texts) + [complete, done]
  {
    hide ReadWhole, LinePayloads, Expected, Relayed, JsonLines, DataFrames, Frames, Middle;
    MiddleReads(body, declared, texts);
    JsonFrames([start, received]);
    JsonFrames([complete, done]);
    var opening, closing := JsonLines([start, received]), JsonLines([complete, done]);
    ReadThreeParts(opening, Middle(body, declared, texts), closing, wire);
  }
}
