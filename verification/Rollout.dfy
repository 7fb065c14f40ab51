/** The codex rollout sanitizer: drops reasoning rows another provider encrypted and
    function calls whose output never came, and keeps every other line as it is. */
module Rollout {
  import opened Text

  /** What JSON decoding finds on a line that is not blank: nothing usable, a value the
      loops cannot read (they raise), or a response item with what the rules look at. A
      missing call_id is the empty string. */
  datatype Row = Verbatim | Unreadable | Reasoning(blobs: seq<string>) | Call(id: string) | Output(id: string)

  predicate IsByteSpace(c: char) { '\t' <= c <= '\r' || c == ' ' }

  predicate Blank(line: string) { forall k | 0 <= k < |line| :: IsByteSpace(line[k]) }

  function Read(parse: string -> Row, line: string): Row {
    if Blank(line) then Verbatim else parse(line)
  }

  predicate PortableBlob(blob: string) { "rsn_" <= blob || "smry_" <= blob }

  predicate Portable(blobs: seq<string>) { forall k | 0 <= k < |blobs| :: PortableBlob(blobs[k]) }

  /** The ids of the outputs on these lines; an empty id does not count. */
  function OutputIds(parse: string -> Row, lines: seq<string>): set<string> {
    set k | 0 <= k < |lines| && Read(parse, lines[k]).Output? && Read(parse, lines[k]).id != "" :: Read(parse, lines[k]).id
  }

  predicate Dropped(row: Row, outputs: set<string>) {
    (row.Reasoning? && !Portable(row.blobs)) || (row.Call? && row.id !in outputs)
  }

  function Kept(parse: string -> Row, lines: seq<string>, outputs: set<string>): seq<string>
    decreases |lines|
  {
    if lines == [] then []
    else (if Dropped(Read(parse, lines[0]), outputs) then [] else [lines[0]]) + Kept(parse, lines[1..], outputs)
  }

  ghost predicate Readable(parse: string -> Row, lines: seq<string>) {
    forall k | 0 <= k < |lines| :: !Read(parse, lines[k]).Unreadable?
  }

  function Lines(raw: string): seq<string> { Split(raw, '\n') }

  /** What the sanitizer leaves of the lines. */
  function KeptLines(parse: string -> Row, raw: string): seq<string> {
    Kept(parse, Lines(raw), OutputIds(parse, Lines(raw)))
  }

  /** The sanitized text. */
  function Sanitized(parse: string -> Row, raw: string): string {
    if KeptLines(parse, raw) == Lines(raw) then raw else Join(KeptLines(parse, raw), '\n')
  }

  lemma {:induction false} KeptAppend(parse: string -> Row, lines: seq<string>, line: string, outputs: set<string>)
    ensures Kept(parse, lines + [line], outputs)
         == Kept(parse, lines, outputs) + if Dropped(Read(parse, line), outputs) then [] else [line]
    decreases |lines|
  {
    if lines == [] {
      assert [line][1..] == [];
      assert lines + [line] == [line];
    } else {
      assert (lines + [line])[1..] == lines[1..] + [line];
      KeptAppend(parse, lines[1..], line, outputs);
    }
  }

  lemma {:induction false} KeptAll(parse: string -> Row, lines: seq<string>, outputs: set<string>)
    ensures |Kept(parse, lines, outputs)| == |lines| ==> Kept(parse, lines, outputs) == lines
    ensures |Kept(parse, lines, outputs)| <= |lines|
    ensures (forall k | 0 <= k < |lines| :: !Dropped(Read(parse, lines[k]), outputs)) ==> Kept(parse, lines, outputs) == lines
    decreases |lines|
  {
    if lines != [] {
      KeptAll(parse, lines[1..], outputs);
      assert lines == [lines[0]] + lines[1..];
    }
  }

  /** A line goes exactly when it is reasoning that some provider but ours encrypted, or a call
      to whose id no line of the file gives an output. */
  lemma DroppedExactly(parse: string -> Row, lines: seq<string>, k: nat)
    requires k < |lines|
    ensures Dropped(Read(parse, lines[k]), OutputIds(parse, lines)) <==>
            match Read(parse, lines[k])
            case Reasoning(blobs) => exists b | b in blobs :: !("rsn_" <= b) && !("smry_" <= b)
            case Call(id) => id == "" || forall j | 0 <= j < |lines| :: Read(parse, lines[j]) != Output(id)
            case _ => false
  {
    hide Read;
    match Read(parse, lines[k]) {
      case Reasoning(blobs) => assert forall i | 0 <= i < |blobs| :: blobs[i] in blobs;
      case _ =>
    }
  }

  /** _sanitize_codex_rollout; None when it raises. */
  method Sanitize(parse: string -> Row, raw: string) returns (r: Option<string>)
    ensures r.None? <==> !Readable(parse, Lines(raw))
    ensures r.Some? ==> r.value == Sanitized(parse, raw)
  {
    var lines := Lines(raw);
    var parsed: seq<Row> := [];
    var outputIds := {};
    for i := 0 to |lines|
      invariant |parsed| == i && forall k | 0 <= k < i :: parsed[k] == Read(parse, lines[k])
      invariant Readable(parse, lines[..i])
      invariant forall id :: id in outputIds <==> id in OutputIds(parse, lines[..i])
    {
      var row := Read(parse, lines[i]);
      assert lines[..i + 1] == lines[..i] + [lines[i]];
      if row.Unreadable? {
        return None;
      }
      if row.Output? && row.id != "" {
        outputIds := outputIds + {row.id};
      }
      parsed := parsed + [row];
      OneMoreOutput(parse, lines[..i], lines[i]);
    }
    assert lines[..|lines|] == lines;
    assert outputIds == OutputIds(parse, lines);
    var kept: seq<string> := [];
    var droppedReasoning, droppedCalls := 0, 0;
    for i := 0 to |lines|
      invariant kept == Kept(parse, lines[..i], outputIds) && |kept| + droppedReasoning + droppedCalls == i
    {
      var row := parsed[i];
      assert lines[..i + 1] == lines[..i] + [lines[i]];
      KeptAppend(parse, lines[..i], lines[i], outputIds);
      if row.Reasoning? && !Portable(row.blobs) {
        droppedReasoning := droppedReasoning + 1;
        continue;
      }
      if row.Call? && row.id !in outputIds {
        droppedCalls := droppedCalls + 1;
        continue;
      }
      kept := kept + [lines[i]];
    }
    KeptAll(parse, lines, outputIds);
    if droppedReasoning == 0 && droppedCalls == 0 {
      return Some(raw);
    }
    return Some(Join(kept, '\n'));
  }

  lemma OneMoreOutput(parse: string -> Row, lines: seq<string>, line: string)
    ensures var row := Read(parse, line);
            forall id :: id in OutputIds(parse, lines + [line]) <==>
              id in OutputIds(parse, lines) || (row.Output? && row.id != "" && id == row.id)
  {
    var all := lines + [line];
    forall id | id in OutputIds(parse, lines) ensures id in OutputIds(parse, all) {
      var k :| 0 <= k < |lines| && Read(parse, lines[k]).Output? && Read(parse, lines[k]).id == id != "";
      assert all[k] == lines[k];
    }
    assert all[|lines|] == line;
  }

  // ----- what is kept -----

  lemma {:induction false} KeptMember(parse: string -> Row, lines: seq<string>, outputs: set<string>, line: string)
    ensures multiset(Kept(parse, lines, outputs))[line]
         == if Dropped(Read(parse, line), outputs) then 0 else multiset(lines)[line]
    decreases |lines|
  {
    if lines != [] {
      KeptMember(parse, lines[1..], outputs, line);
      assert lines == [lines[0]] + lines[1..];
    }
  }

  ghost predicate Subsequence(part: seq<string>, whole: seq<string>)
    decreases |whole|
  {
    if whole == [] then part == []
    else Subsequence(part, whole[1..]) || (part != [] && part[0] == whole[0] && Subsequence(part[1..], whole[1..]))
  }

  lemma {:induction false} KeptInOrder(parse: string -> Row, lines: seq<string>, outputs: set<string>)
    ensures Subsequence(Kept(parse, lines, outputs), lines)
    decreases |lines|
  {
    if lines != [] {
      KeptInOrder(parse, lines[1..], outputs);
      var rest := Kept(parse, lines[1..], outputs);
      if Dropped(Read(parse, lines[0]), outputs) {
        assert [] + rest == rest;
      } else {
        assert ([lines[0]] + rest)[1..] == rest;
      }
    }
  }

  lemma KeptIn(parse: string -> Row, lines: seq<string>, outputs: set<string>, line: string)
    ensures line in Kept(parse, lines, outputs) <==> line in lines && !Dropped(Read(parse, line), outputs)
  {
    KeptMember(parse, lines, outputs, line);
    assert line in lines <==> line in multiset(lines);
    assert line in Kept(parse, lines, outputs) <==> line in multiset(Kept(parse, lines, outputs));
  }

  /** An output's id is listed, whichever line it is on. */
  lemma IdOn(parse: string -> Row, lines: seq<string>, id: string)
    ensures id in OutputIds(parse, lines) <==> id != "" && exists line | line in lines :: Read(parse, line) == Output(id)
  {
    if id != "" && exists line | line in lines :: Read(parse, line) == Output(id) {
      var line :| line in lines && Read(parse, line) == Output(id);
      var k :| 0 <= k < |lines| && lines[k] == line;
      assert Read(parse, lines[k]).Output? && Read(parse, lines[k]).id == id;
    }
    if id in OutputIds(parse, lines) {
      var k :| 0 <= k < |lines| && Read(parse, lines[k]).Output? && Read(parse, lines[k]).id == id != "";
      assert lines[k] in lines && Read(parse, lines[k]) == Output(id);
    }
  }

  /** Dropping loses no output, so the second pass reads the same ids as the first. */
  lemma KeptOutputs(parse: string -> Row, raw: string)
    ensures OutputIds(parse, KeptLines(parse, raw)) == OutputIds(parse, Lines(raw))
  {
    var lines, kept := Lines(raw), KeptLines(parse, raw);
    var outputs := OutputIds(parse, lines);
    hide OutputIds, Kept, Read, Lines;
    forall id ensures id in OutputIds(parse, kept) <==> id in outputs {
      IdOn(parse, lines, id);
      IdOn(parse, kept, id);
      forall line ensures line in kept <==> line in lines && !Dropped(Read(parse, line), outputs) {
        KeptIn(parse, lines, outputs, line);
      }
    }
  }

  /** The lines that are left are the file's own, in order, each as often as before unless
      the rules drop it; every call among them has its output among them, and every
      reasoning item is portable. */
  lemma WhatIsKept(parse: string -> Row, raw: string, line: string)
    ensures var kept := KeptLines(parse, raw);
            && Subsequence(kept, Lines(raw))
            && multiset(kept)[line] ==
                 (if Dropped(Read(parse, line), OutputIds(parse, Lines(raw))) then 0 else multiset(Lines(raw))[line])
            && (line in kept && Read(parse, line).Reasoning? ==> Portable(Read(parse, line).blobs))
            && (line in kept && Read(parse, line).Call? ==>
                  exists k | 0 <= k < |kept| :: Read(parse, kept[k]) == Output(Read(parse, line).id))
  {
    var kept := KeptLines(parse, raw);
    KeptInOrder(parse, Lines(raw), OutputIds(parse, Lines(raw)));
    KeptMember(parse, Lines(raw), OutputIds(parse, Lines(raw)), line);
    if line in kept {
      assert line in multiset(kept);
      if Read(parse, line).Call? {
        KeptOutputs(parse, raw);
        assert Read(parse, line).id in OutputIds(parse, kept);
        var k :| 0 <= k < |kept| && Read(parse, kept[k]).Output? && Read(parse, kept[k]).id == Read(parse, line).id != "";
        assert Read(parse, kept[k]) == Output(Read(parse, line).id);
      }
    }
  }

  // ----- idempotence, on the text -----

  lemma KeptLinesAreLines(parse: string -> Row, raw: string, line: string)
    requires line in KeptLines(parse, raw)
    ensures '\n' !in line && line in Lines(raw)
  {
    KeptMember(parse, Lines(raw), OutputIds(parse, Lines(raw)), line);
    assert line in multiset(KeptLines(parse, raw));
    assert line in multiset(Lines(raw));
    var k :| 0 <= k < |Lines(raw)| && Lines(raw)[k] == line;
    PartsHoldNoSeparator(raw, '\n', k);
  }

  /** Splitting the result again gives the kept lines; if none are left, one blank line. */
  lemma LinesOfSanitized(parse: string -> Row, raw: string)
    ensures Lines(Sanitized(parse, raw)) == if KeptLines(parse, raw) == [] then [""] else KeptLines(parse, raw)
  {
    var kept := KeptLines(parse, raw);
    forall line | line in kept ensures '\n' !in line {
      KeptLinesAreLines(parse, raw, line);
    }
    hide KeptLines;
    if kept != [] {
      SplitJoin(kept, '\n');
      JoinSplit(raw, '\n');
    }
  }

  /** Sanitizing what was sanitized changes nothing. */
  lemma SanitizeTwice(parse: string -> Row, raw: string)
    requires Readable(parse, Lines(raw))
    ensures Readable(parse, Lines(Sanitized(parse, raw)))
    ensures Sanitized(parse, Sanitized(parse, raw)) == Sanitized(parse, raw)
  {
    var once := Sanitized(parse, raw);
    var kept, left := KeptLines(parse, raw), Lines(once);
    LinesOfSanitized(parse, raw);
    KeptOutputs(parse, raw);
    var outputs := OutputIds(parse, left);
    assert kept != [] ==> outputs == OutputIds(parse, Lines(raw));
    forall k | 0 <= k < |left|
      ensures !Dropped(Read(parse, left[k]), outputs) && !Read(parse, left[k]).Unreadable?
    {
      if kept != [] {
        KeptLinesAreLines(parse, raw, left[k]);
        KeptMember(parse, Lines(raw), outputs, left[k]);
        assert left[k] in multiset(kept);
      }
    }
    KeptAll(parse, left, outputs);
  }
}
