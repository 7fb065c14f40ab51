/** Texts written as events, a data line for each line of a text and a blank line behind
    the last, and the reader of src/lib/sse.ts reading any number of them back as they
    were. */
module SseWriting {
  import opened Text
  import opened SseReader

  // ----- what it reads is what was written -----

  /** A text as one event: a data line for each of its lines, and a blank one. */
  function EventLines(lines: seq<string>): string {
    if lines == [] then "\n" else "data: " + lines[0] + "\n" + EventLines(lines[1..])
  }

  function Event(text: string): string { EventLines(Split(text, '\n')) }

  function Written(texts: seq<string>): string {
    if texts == [] then "" else Event(texts[0]) + Written(texts[1..])
  }

  /** The frame of an event, up to its blank line. */
  function DataFrame(lines: seq<string>): string
    requires lines != []
  {
    if |lines| == 1 then "data: " + lines[0] else "data: " + lines[0] + "\n" + DataFrame(lines[1..])
  }

  lemma {:induction false} EventIsFrame(lines: seq<string>)
    requires lines != []
    ensures EventLines(lines) == DataFrame(lines) + "\n\n"
  {
    if |lines| == 1 {
      assert lines[1..] == [] && EventLines([]) == "\n";
    } else {
      EventIsFrame(lines[1..]);
    }
  }

  ghost predicate PlainLines(lines: seq<string>) { forall k | 0 <= k < |lines| :: '\n' !in lines[k] && '\r' !in lines[k] }

  /** No break in a line, nor between two of them. */
  lemma {:induction false} PlainChars(a: string, rest: string)
    requires '\n' !in a && '\r' !in a
    ensures var parts, tail := SplitEvents(a + rest), SplitEvents(rest);
            parts == [a + tail[0]] + tail[1..]
  {
    hide SplitEvents;
    if a == "" {
      assert a + rest == rest;
      assert "" + SplitEvents(rest)[0] == SplitEvents(rest)[0];
    } else {
      assert a + rest == [a[0]] + (a[1..] + rest);
      PlainChar(a[0], a[1..] + rest);
      PlainChars(a[1..], rest);
      assert [a[0]] + (a[1..] + SplitEvents(rest)[0]) == a + SplitEvents(rest)[0];
    }
  }

  lemma NoCut(s: string)
    requires s != "" && EventBreak(s) == 0
    ensures var tail := SplitEvents(s[1..]); SplitEvents(s) == [[s[0]] + tail[0]] + tail[1..]
  {
  }

  lemma PlainChar(c: char, rest: string)
    requires c != '\n' && c != '\r'
    ensures var tail := SplitEvents(rest); SplitEvents([c] + rest) == [[c] + tail[0]] + tail[1..]
  {
    hide SplitEvents;
    var s := [c] + rest;
    assert s[0] == c && s[1..] == rest;
    assert "\n"[0] == '\n' && "\r\n"[0] == '\r';
    NoCut(s);
  }

  lemma LineEndStays(rest: string)
    requires rest != "" && rest[0] != '\n' && rest[0] != '\r'
    ensures var tail := SplitEvents(rest); SplitEvents("\n" + rest) == ["\n" + tail[0]] + tail[1..]
  {
    hide SplitEvents;
    var s := "\n" + rest;
    assert s[1..] == rest && [s[0]] == "\n";
    assert EventBreak(s) == SecondBreak(s, 1) == 0;
    NoCut(s);
  }

  lemma BlankLineCuts(rest: string)
    ensures SplitEvents("\n\n" + rest) == [""] + SplitEvents(rest)
  {
    assert ("\n\n" + rest)[2..] == rest && ("\n\n" + rest)[1..] == "\n" + rest;
  }

  /** A frame is cut off where it ends. */
  lemma {:induction false} FrameIsCut(lines: seq<string>, rest: string)
    requires lines != [] && PlainLines(lines)
    ensures SplitEvents(DataFrame(lines) + ("\n\n" + rest)) == [DataFrame(lines)] + SplitEvents(rest)
    decreases |lines|
  {
    hide SplitEvents;
    var head := "data: " + lines[0];
    if |lines| == 1 {
      BlankLineCuts(rest);
      PlainChars(head, "\n\n" + rest);
      assert head + "" == head;
    } else {
      var tail := DataFrame(lines[1..]) + ("\n\n" + rest);
      FrameIsCut(lines[1..], rest);
      FrameBegins(lines[1..]);
      LineEndStays(tail);
      PlainChars(head, "\n" + tail);
      assert DataFrame(lines) + ("\n\n" + rest) == head + ("\n" + tail);
      assert head + ("\n" + DataFrame(lines[1..])) == DataFrame(lines);
    }
  }

  lemma FrameBegins(lines: seq<string>)
    requires lines != []
    ensures DataFrame(lines) != "" && DataFrame(lines)[0] == 'd'
  {
  }

  function Prefixed(lines: seq<string>): seq<string> {
    seq(|lines|, i requires 0 <= i < |lines| => "data: " + lines[i])
  }

  lemma {:induction false} FrameIsJoin(lines: seq<string>)
    requires lines != []
    ensures DataFrame(lines) == Join(Prefixed(lines), '\n')
  {
    if |lines| > 1 {
      FrameIsJoin(lines[1..]);
      assert Prefixed(lines)[1..] == Prefixed(lines[1..]);
    }
  }

  lemma {:induction false} PrefixedValues(lines: seq<string>)
    ensures DataValues(Prefixed(lines)) == lines
  {
    if lines != [] {
      PrefixedValues(lines[1..]);
      assert Prefixed(lines)[1..] == Prefixed(lines[1..]);
      var l := "data: " + lines[0];
      assert l[..5] == "data:" && l[5..] == " " + lines[0] && l[5..][1..] == lines[0];
      assert [lines[0]] + lines[1..] == lines;
    }
  }

  lemma FramePays(lines: seq<string>)
    requires lines != [] && PlainLines(lines)
    ensures FramePayload(DataFrame(lines)) == [Join(lines, '\n')]
  {
    var prefixed := Prefixed(lines);
    FrameIsJoin(lines);
    forall p | p in prefixed ensures '\n' !in p && '\r' !in p {
      var k :| 0 <= k < |lines| && p == "data: " + lines[k];
    }
    SplitJoin(prefixed, '\n');
    PrefixedValues(lines);
    hide DataFrame, DataValues, Split, Join, FrameLines, Prefixed;
    FrameLinesAre(DataFrame(lines), prefixed);
  }

  lemma NoCrToDrop(parts: seq<string>)
    requires forall p | p in parts :: '\r' !in p
    ensures forall k | 0 <= k < |parts| :: DropCr(parts[k]) == parts[k]
  {
    forall k | 0 <= k < |parts| ensures DropCr(parts[k]) == parts[k] {
      assert parts[k] in parts;
    }
  }

  lemma FrameLinesAre(frame: string, parts: seq<string>)
    requires Split(frame, '\n') == parts && forall p | p in parts :: '\r' !in p
    ensures FrameLines(frame) == parts
  {
    NoCrToDrop(parts);
    hide DropCr, Split;
  }

  lemma OneEvent(lines: seq<string>, rest: string)
    requires lines != [] && PlainLines(lines)
    ensures ReadWhole((DataFrame(lines) + "\n\n") + rest) == [Join(lines, '\n')] + ReadWhole(rest)
  {
    FrameIsCut(lines, rest);
    FramePays(lines);
    hide SplitEvents, FramePayload, DataFrame, Join;
    assert (DataFrame(lines) + "\n\n") + rest == DataFrame(lines) + ("\n\n" + rest);
    assert ([DataFrame(lines)] + SplitEvents(rest))[1..] == SplitEvents(rest);
  }

  lemma NothingWritten()
    ensures ReadWhole("") == []
  {
    assert Split("", '\n') == [""] && FrameLines("") == [""] && [""][1..] == [];
    assert DataValues([""]) == [] && FramePayload("") == [] && SplitEvents("") == [""];
  }

  /** For any texts without carriage returns, empty ones and ones of many lines included:
      written as events, they are read back as they were. */
  lemma {:induction false} ReadsWhatIsWritten(texts: seq<string>)
    requires forall k | 0 <= k < |texts| :: '\r' !in texts[k]
    ensures ReadWhole(Written(texts)) == texts
  {
    if texts == [] {
      NothingWritten();
    } else {
      var lines, rest := Split(texts[0], '\n'), Written(texts[1..]);
      ReadsWhatIsWritten(texts[1..]);
      PlainSplit(texts[0]);
      EventIsFrame(lines);
      JoinSplit(texts[0], '\n');
      hide ReadWhole, DataFrame, EventLines, Split, Join;
      OneEvent(lines, rest);
      assert [texts[0]] + texts[1..] == texts;
    }
  }

  lemma {:induction false} PlainSplit(s: string)
    requires '\r' !in s
    ensures Split(s, '\n') != [] && PlainLines(Split(s, '\n'))
  {
    if s != "" {
      PlainSplit(s[1..]);
    }
  }
}
