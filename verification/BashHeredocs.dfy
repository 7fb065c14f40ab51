/** strip_bash_comments and blank_heredocs of deploy/pipeline/check-pipeline-contract.py. One skips
    here-document bodies line by line, the other searches ahead for their ends; they must agree. */
module BashHeredocs {
  import opened Text
  import opened PyText

  // ----- here-document openers and terminators -----

  datatype Opener = Opener(tag: string, quoted: bool)

  predicate IsTagStart(c: char) { 'A' <= c <= 'Z' || 'a' <= c <= 'z' || c == '_' }

  predicate IsTagChar(c: char) { IsTagStart(c) || '0' <= c <= '9' }

  function SkipSpaces(s: string, i: nat): (j: nat)
    requires i <= |s|
    ensures i <= j <= |s|
    decreases |s| - i
  {
    if i < |s| && IsSpace(s[i]) then SkipSpaces(s, i + 1) else i
  }

  function TagEnd(s: string, i: nat): (j: nat)
    requires i <= |s|
    ensures i <= j <= |s|
    decreases |s| - i
  {
    if i < |s| && IsTagChar(s[i]) then TagEnd(s, i + 1) else i
  }

  /** RE_HEREDOC matched at index i: the opener and the index after it. */
  function HeredocAt(s: string, i: nat): (m: Option<(Opener, nat)>)
    ensures m.Some? ==> i < m.value.1 <= |s|
  {
    if i + 2 > |s| || s[i] != '<' || s[i + 1] != '<' || (i > 0 && s[i - 1] == '<') then None
    else
      var dash := if i + 2 < |s| && s[i + 2] == '-' then i + 3 else i + 2;
      var j := SkipSpaces(s, dash);
      var quote := if j < |s| && s[j] in {'\'', '"'} then [s[j]] else "";
      var start := j + |quote|;
      if start == |s| || !IsTagStart(s[start]) then None
      else
        var end := TagEnd(s, start);
        if quote == "" then Some((Opener(s[start..end], false), end))
        else if end < |s| && s[end] == quote[0] then Some((Opener(s[start..end], true), end + 1))
        else None
  }

  /** RE_HEREDOC.finditer(line): every opener, left to right. */
  function Openers(line: string, i: nat := 0): seq<Opener>
    decreases |line| - i
  {
    if i >= |line| then []
    else
      match HeredocAt(line, i)
      case Some(m) => [m.0] + Openers(line, m.1)
      case None => Openers(line, i + 1)
  }

  /** The line ^\s*TAG\s*$ that ends a here-document. */
  predicate Closes(op: Opener, line: string) { PyText.Strip(line) == op.tag }

  function Spaces(n: nat): (s: string)
    ensures |s| == n
  {
    seq(n, _ => ' ')
  }

  // ----- strip_bash_comments -----

  /** Where a line's comment starts, and the quote state at its end. */
  datatype Cut = Cut(at: Option<nat>, dq: bool, sq: bool)

  function ScanLine(line: string, k: nat, dq: bool, sq: bool): (c: Cut)
    ensures c.at.Some? ==> k <= c.at.value < |line| && line[c.at.value] == '#' && !c.dq && !c.sq
    decreases |line| - k
  {
    if k >= |line| then Cut(None, dq, sq)
    else if line[k] == '\\' && !sq then ScanLine(line, k + 2, dq, sq)
    else if line[k] == '"' && !sq then ScanLine(line, k + 1, !dq, sq)
    else if line[k] == '\'' && !dq then ScanLine(line, k + 1, dq, !sq)
    else if line[k] == '#' && !dq && !sq && (k == 0 || IsSpace(line[k - 1]))
            && !(k + 1 < |line| && line[k + 1] == '{') then Cut(Some(k), dq, sq)
    else ScanLine(line, k + 1, dq, sq)
  }

  /** The line with its comment, if any, turned into spaces. */
  function Blanked(line: string, at: Option<nat>): (out: string)
    requires at.Some? ==> at.value <= |line|
    ensures |out| == |line|
  {
    if at.Some? then line[..at.value] + Spaces(|line| - at.value) else line
  }

  /** What the scanner carries from line to line. */
  datatype State = State(dq: bool, sq: bool, pending: seq<Opener>, prevCont: bool)

  datatype Stripped = Stripped(lines: seq<string>, pending: seq<Opener>) | OpenQuote

  function Cons(line: string, rest: Stripped): Stripped {
    if rest.Stripped? then Stripped([line] + rest.lines, rest.pending) else rest
  }

  /** The state a command line is scanned in: quotes carry over only inside a block. */
  function Entering(st: State, cont: bool): State {
    if cont then st else st.(dq := false, sq := false)
  }

  /** A block that ends with a quote open is an error. */
  predicate LeftOpen(st: State, cont: bool) { !cont && st.prevCont && (st.dq || st.sq) }

  function StripLine(line: string, st: State, cont: bool): (string, State)
    requires st.pending == []
  {
    var entry := Entering(st, cont);
    var cut := ScanLine(line, 0, entry.dq, entry.sq);
    var out := Blanked(line, cut.at);
    (out, State(cut.dq, cut.sq, Openers(out), cont))
  }

  /** A line inside a here-document passes as it is. */
  function SkipLine(line: string, st: State, cont: bool): State
    requires st.pending != []
  {
    st.(pending := if Closes(st.pending[0], line) then st.pending[1..] else st.pending, prevCont := cont)
  }

  function StripFrom(lines: seq<string>, cont: seq<bool>, st: State): (r: Stripped)
    requires |lines| == |cont|
    ensures r.Stripped? ==> |r.lines| == |lines|
  {
    if lines == [] then (if st.prevCont && (st.dq || st.sq) then OpenQuote else Stripped([], st.pending))
    else if st.pending != [] then
      Cons(lines[0], StripFrom(lines[1..], cont[1..], SkipLine(lines[0], st, cont[0])))
    else if LeftOpen(st, cont[0]) then OpenQuote
    else
      var (out, st') := StripLine(lines[0], st, cont[0]);
      Cons(out, StripFrom(lines[1..], cont[1..], st'))
  }

  const START := State(false, false, [], false)

  // ----- blank_heredocs -----

  datatype Bases = Bases(read: seq<string>, walk: seq<string>) | UnterminatedHeredoc

  /** The first line from j on that ends the here-document. */
  function FindClose(lines: seq<string>, op: Opener, j: nat): (k: Option<nat>)
    ensures k.Some? ==> j <= k.value < |lines| && Closes(op, lines[k.value])
    ensures k.Some? ==> forall b | j <= b < k.value :: !Closes(op, lines[b])
    ensures k.None? ==> forall b | j <= b < |lines| :: !Closes(op, lines[b])
    decreases |lines| - j
  {
    if j >= |lines| then None
    else if Closes(op, lines[j]) then Some(j)
    else FindClose(lines, op, j + 1)
  }

  /** The walk over the openers of one line: each body runs from `from` to its
      terminator and the next one starts after that. */
  function BlankBodies(lines: seq<string>, ops: seq<Opener>, from: nat, bases: Bases): (r: (Bases, nat))
    requires bases.Bases? ==> |bases.read| == |bases.walk| == |lines|
    requires from <= |lines|
    ensures r.0.Bases? ==> |r.0.read| == |r.0.walk| == |lines|
    ensures from <= r.1 <= |lines|
  {
    if ops == [] || bases.UnterminatedHeredoc? then (bases, from)
    else
      match FindClose(lines, ops[0], from)
      case None => (UnterminatedHeredoc, from)
      case Some(k) =>
        BlankBodies(lines, ops[1..], k + 1,
                    Bases(if ops[0].quoted then BlankRange(bases.read, from, k) else bases.read,
                          BlankRange(bases.walk, from, k)))
  }

  function BlankRange(lines: seq<string>, lo: nat, hi: nat): (r: seq<string>)
    requires lo <= hi <= |lines|
    ensures |r| == |lines|
  {
    seq(|lines|, b requires 0 <= b < |lines| => if lo <= b < hi then Spaces(|lines[b]|) else lines[b])
  }

  function BlankFrom(lines: seq<string>, i: nat, bases: Bases): (r: Bases)
    requires i <= |lines|
    requires bases.Bases? ==> |bases.read| == |bases.walk| == |lines|
    ensures r.Bases? ==> |r.read| == |r.walk| == |lines|
    decreases |lines| - i
  {
    if i == |lines| || bases.UnterminatedHeredoc? then bases
    else
      var r := BlankBodies(lines, Openers(lines[i]), i + 1, bases);
      BlankFrom(lines, r.1, r.0)
  }

  function BlankHeredocs(lines: seq<string>): (r: Bases)
    ensures r.Bases? ==> |r.read| == |r.walk| == |lines|
  {
    BlankFrom(lines, 0, Bases(lines, lines))
  }

  // ----- the two passes as they run -----

  /** One line of the stripper, whichever branch it takes. */
  function StripOne(line: string, st: State, cont: bool): (r: (string, State))
    ensures |r.0| == |line|
  {
    if st.pending != [] then (line, SkipLine(line, st, cont)) else StripLine(line, st, cont)
  }

  /** StripFrom unfolded once. */
  lemma StripFromStep(lines: seq<string>, cont: seq<bool>, st: State)
    requires |lines| == |cont|
    ensures lines == [] ==>
      StripFrom(lines, cont, st) == if st.prevCont && (st.dq || st.sq) then OpenQuote else Stripped([], st.pending)
    ensures lines != [] ==>
      var one := StripOne(lines[0], st, cont[0]);
      StripFrom(lines, cont, st) == if st.pending == [] && LeftOpen(st, cont[0]) then OpenQuote
                                    else Cons(one.0, StripFrom(lines[1..], cont[1..], one.1))
  {
  }

  method FindComment(line: string, dq: bool, sq: bool) returns (cut: Cut)
    ensures cut == ScanLine(line, 0, dq, sq)
  {
    var k := 0;
    var inDq, inSq := dq, sq;
    while k < |line|
      invariant ScanLine(line, k, inDq, inSq) == ScanLine(line, 0, dq, sq)
      decreases |line| - k
    {
      var ch := line[k];
      if ch == '\\' && !inSq {
        k := k + 2;
        continue;
      }
      if ch == '"' && !inSq {
        inDq := !inDq;
      } else if ch == '\'' && !inDq {
        inSq := !inSq;
      } else if ch == '#' && !inDq && !inSq {
        var prevWs := k == 0 || IsSpace(line[k - 1]);
        var opensBrace := k + 1 < |line| && line[k + 1] == '{';
        if prevWs && !opensBrace {
          return Cut(Some(k), inDq, inSq);
        }
      }
      k := k + 1;
    }
    return Cut(None, inDq, inSq);
  }

  function Onto(done: seq<string>, rest: Stripped): Stripped {
    if rest.Stripped? then Stripped(done + rest.lines, rest.pending) else rest
  }

  lemma OntoOne(done: seq<string>, line: string, rest: Stripped)
    ensures Onto(done, Cons(line, rest)) == Onto(done + [line], rest)
  {
    if rest.Stripped? {
      AppendAssociates(done, [line], rest.lines);
    }
  }

  /** strip_bash_comments. `cont` says which lines continue the previous line's scalar. */
  method StripBashComments(lines: seq<string>, cont: seq<bool>) returns (r: Stripped)
    requires |lines| == |cont|
    ensures r == StripFrom(lines, cont, START)
  {
    hide StripFrom, StripOne;
    var out: seq<string> := [];
    var st := START;
    var idx := 0;
    assert lines[0..] == lines && cont[0..] == cont;
    ghost var all := StripFrom(lines, cont, START);
    assert all == Onto([], StripFrom(lines[0..], cont[0..], st)) by {
      if all.Stripped? { assert [] + all.lines == all.lines; }
    }
    while idx < |lines|
      invariant idx <= |lines|
      invariant all == Onto(out, StripFrom(lines[idx..], cont[idx..], st))
    {
      assert lines[idx..][1..] == lines[idx + 1..] && cont[idx..][1..] == cont[idx + 1..];
      StripFromStep(lines[idx..], cont[idx..], st);
      if st.pending == [] && LeftOpen(st, cont[idx]) {
        return OpenQuote;
      }
      var line;
      line, st := StripNext(lines[idx], st, cont[idx]);
      OntoOne(out, line, StripFrom(lines[idx + 1..], cont[idx + 1..], st));
      out := out + [line];
      idx := idx + 1;
    }
    StripFromStep(lines[idx..], cont[idx..], st);
    if st.prevCont && (st.dq || st.sq) {
      return OpenQuote;
    }
    assert out + [] == out;
    return Stripped(out, st.pending);
  }

  method StripNext(line: string, st: State, cont: bool) returns (out: string, st': State)
    ensures (out, st') == StripOne(line, st, cont)
  {
    if st.pending != [] {
      return line, SkipLine(line, st, cont);
    }
    var entry := Entering(st, cont);
    var cut := FindComment(line, entry.dq, entry.sq);
    out := Blanked(line, cut.at);
    st' := State(cut.dq, cut.sq, Openers(out), cont);
  }

  method FindTerminator(lines: seq<string>, op: Opener, from: nat) returns (k: nat)
    requires from <= |lines|
    ensures from <= k <= |lines|
    ensures FindClose(lines, op, from) == if k < |lines| then Some(k) else None
  {
    k := from;
    while k < |lines| && !Closes(op, lines[k])
      invariant from <= k <= |lines|
      invariant FindClose(lines, op, k) == FindClose(lines, op, from)
    {
      k := k + 1;
    }
  }

  method BlankBetween(lines: seq<string>, lo: nat, hi: nat) returns (out: seq<string>)
    requires lo <= hi <= |lines|
    ensures out == BlankRange(lines, lo, hi) && |out| == |lines|
  {
    out := lines;
    assert out == BlankRange(lines, lo, lo);
    for b := lo to hi
      invariant out == BlankRange(lines, lo, b)
    {
      out := out[b := Spaces(|lines[b]|)];
      assert out == BlankRange(lines, lo, b + 1);
    }
  }

  /** The bodies that the openers of one line announce. */
  method BlankLine(lines: seq<string>, ops: seq<Opener>, start: nat, bases: Bases)
    returns (r: Bases, next: nat)
    requires start <= |lines| && bases.Bases? && |bases.read| == |bases.walk| == |lines|
    ensures (r, next) == BlankBodies(lines, ops, start, bases)
  {
    hide BlankBodies;
    r, next := bases, start;
    var m := 0;
    assert ops[0..] == ops;
    while m < |ops|
      invariant m <= |ops| && next <= |lines|
      invariant r.Bases? && |r.read| == |r.walk| == |lines|
      invariant BlankBodies(lines, ops[m..], next, r) == BlankBodies(lines, ops, start, bases)
    {
      var k := FindTerminator(lines, ops[m], next);
      assert ops[m..][1..] == ops[m + 1..];
      BodiesStep(lines, ops[m..], next, r);
      if k == |lines| {
        return UnterminatedHeredoc, next;
      }
      var walkLines := BlankBetween(r.walk, next, k);
      var readLines := r.read;
      if ops[m].quoted {
        readLines := BlankBetween(readLines, next, k);
      }
      r, next, m := Bases(readLines, walkLines), k + 1, m + 1;
    }
    assert ops[m..] == [];
    BodiesStep(lines, [], next, r);
  }

  /** BlankBodies unfolded once. */
  lemma BodiesStep(lines: seq<string>, ops: seq<Opener>, from: nat, bases: Bases)
    requires bases.Bases? && |bases.read| == |bases.walk| == |lines| && from <= |lines|
    ensures ops == [] ==> BlankBodies(lines, ops, from, bases) == (bases, from)
    ensures ops != [] && FindClose(lines, ops[0], from).None?
            ==> BlankBodies(lines, ops, from, bases) == (UnterminatedHeredoc, from)
    ensures ops != [] && FindClose(lines, ops[0], from).Some?
            ==> var k := FindClose(lines, ops[0], from).value;
                BlankBodies(lines, ops, from, bases)
                == BlankBodies(lines, ops[1..], k + 1,
                               Bases(if ops[0].quoted then BlankRange(bases.read, from, k) else bases.read,
                                     BlankRange(bases.walk, from, k)))
  {
  }

  /** blank_heredocs */
  method BlankHeredocBodies(lines: seq<string>) returns (r: Bases)
    ensures r == BlankHeredocs(lines)
  {
    r := Bases(lines, lines);
    var i := 0;
    while i < |lines|
      invariant i <= |lines| && r.Bases? && |r.read| == |r.walk| == |lines|
      invariant BlankFrom(lines, i, r) == BlankHeredocs(lines)
    {
      r, i := BlankLine(lines, Openers(lines[i]), i + 1, r);
      if r.UnterminatedHeredoc? {
        return;
      }
    }
  }

  // ----- one reference for both: what every line is -----

  /** Read line by line: the terminators still to come before line j, in opener order. */
  ghost function Pending(lines: seq<string>, j: nat): seq<Opener>
    requires j <= |lines|
  {
    if j == 0 then []
    else
      var p := Pending(lines, j - 1);
      if p == [] then Openers(lines[j - 1])
      else if Closes(p[0], lines[j - 1]) then p[1..]
      else p
  }

  datatype Kind = Command | Body(quoted: bool) | Terminator

  ghost function KindOf(lines: seq<string>, j: nat): Kind
    requires j < |lines|
  {
    var p := Pending(lines, j);
    if p == [] then Command
    else if Closes(p[0], lines[j]) then Terminator
    else Body(p[0].quoted)
  }

  lemma {:induction false} PendingOfPrefix(a: seq<string>, b: seq<string>, j: nat)
    requires j <= |a|
    ensures Pending(a + b, j) == Pending(a, j)
  {
    if j > 0 {
      PendingOfPrefix(a, b, j - 1);
      assert (a + b)[j - 1] == a[j - 1];
    }
  }

  /** `out` is `lines` after the stripper, as the lines of `all` from `at` on: lengths
      are kept, and a line that belongs to a here-document is kept as it is. */
  ghost predicate PassedThrough(lines: seq<string>, out: seq<string>, all: seq<string>, at: nat) {
    && |out| == |lines| && at + |lines| == |all|
    && forall j {:trigger out[j]} | 0 <= j < |lines| ::
         |out[j]| == |lines[j]| && (KindOf(all, at + j) != Command ==> out[j] == lines[j])
  }

  lemma PassOne(line: string, out: string, lines: seq<string>, outs: seq<string>, all: seq<string>, at: nat)
    requires PassedThrough(lines, outs, all, at + 1)
    requires |out| == |line| && (KindOf(all, at) != Command ==> out == line)
    ensures PassedThrough([line] + lines, [out] + outs, all, at)
  {
    forall j | 0 <= j < 1 + |lines|
      ensures |([out] + outs)[j]| == |([line] + lines)[j]|
      ensures KindOf(all, at + j) != Command ==> ([out] + outs)[j] == ([line] + lines)[j]
    {
      if j > 0 {
        assert ([out] + outs)[j] == outs[j - 1] && ([line] + lines)[j] == lines[j - 1];
        assert at + j == (at + 1) + (j - 1);
      }
    }
  }

  lemma StripOnePending(line: string, st: State, cont: bool)
    ensures var r := StripOne(line, st, cont);
            && r.1.pending == (if st.pending == [] then Openers(r.0)
                               else if Closes(st.pending[0], r.0) then st.pending[1..]
                               else st.pending)
            && (st.pending != [] ==> r.0 == line)
  {
    hide Openers, ScanLine;
  }

  lemma StripOneFollows(done: seq<string>, line: string, st: State, cont: bool, rest: seq<string>)
    requires st.pending == Pending(done, |done|)
    ensures var r := StripOne(line, st, cont);
            && r.1.pending == Pending(done + [r.0], |done| + 1)
            && (KindOf(done + ([r.0] + rest), |done|) != Command ==> r.0 == line)
  {
    var r := StripOne(line, st, cont);
    StripOnePending(line, st, cont);
    hide StripOne, Openers, Closes;
    PendingOfPrefix(done, [r.0], |done|);
    PendingOfPrefix(done, [r.0] + rest, |done|);
    assert (done + [r.0])[|done|] == r.0 == (done + ([r.0] + rest))[|done|];
  }

  lemma NothingPasses(all: seq<string>)
    ensures PassedThrough([], [], all, |all|)
  {
  }

  /** The stripper, with `done` already written: it passes every here-document line
      as it is, and what it still waits for is what the reference waits for. */
  lemma {:induction false} StripperFollows(done: seq<string>, lines: seq<string>, cont: seq<bool>, st: State)
    requires |lines| == |cont| && st.pending == Pending(done, |done|)
    requires StripFrom(lines, cont, st).Stripped?
    ensures var r := StripFrom(lines, cont, st);
            var all := done + r.lines;
            r.pending == Pending(all, |all|) && PassedThrough(lines, r.lines, all, |done|)
    decreases |lines|
  {
    hide Pending, KindOf, StripOne, PassedThrough;
    var r := StripFrom(lines, cont, st);
    if lines == [] {
      NothingPasses(done);
      assert done + r.lines == done;
    } else {
      var one := StripOne(lines[0], st, cont[0]);
      var rest := StripFrom(lines[1..], cont[1..], one.1);
      StripFromStep(lines, cont, st);
      StripOneFollows(done, lines[0], st, cont[0], rest.lines);
      StripperFollows(done + [one.0], lines[1..], cont[1..], one.1);
      AppendAssociates(done, [one.0], rest.lines);
      PassOne(lines[0], one.0, lines[1..], rest.lines, done + r.lines, |done|);
      assert [lines[0]] + lines[1..] == lines;
    }
  }

  /** The stripper's state before line j. */
  function StateAt(lines: seq<string>, cont: seq<bool>, st: State, j: nat): State
    requires |lines| == |cont| && j <= |lines|
  {
    if j == 0 then st else StateAt(lines[1..], cont[1..], StripOne(lines[0], st, cont[0]).1, j - 1)
  }

  /** Before every line it waits for what the reference waits for, so it reads a line as a
      command exactly when the reference does. */
  lemma {:induction false} StatesFollow(done: seq<string>, lines: seq<string>, cont: seq<bool>, st: State, j: nat)
    requires |lines| == |cont| && j <= |lines| && st.pending == Pending(done, |done|)
    requires StripFrom(lines, cont, st).Stripped?
    ensures StateAt(lines, cont, st, j).pending == Pending(done + StripFrom(lines, cont, st).lines, |done| + j)
    decreases |lines|
  {
    hide Pending, StripOne;
    var r := StripFrom(lines, cont, st);
    if j == 0 {
      PendingOfPrefix(done, r.lines, |done|);
    } else {
      var one := StripOne(lines[0], st, cont[0]);
      var rest := StripFrom(lines[1..], cont[1..], one.1);
      StripFromStep(lines, cont, st);
      StripOneFollows(done, lines[0], st, cont[0], rest.lines);
      StatesFollow(done + [one.0], lines[1..], cont[1..], one.1, j - 1);
      AppendAssociates(done, [one.0], rest.lines);
    }
  }

  /** The blanker's buffers once it has dealt with the lines before `upto`. */
  ghost predicate Painted(lines: seq<string>, upto: nat, bases: Bases) {
    bases.Bases? && upto <= |lines| == |bases.read| == |bases.walk|
    && (forall j {:trigger bases.walk[j]} | 0 <= j < |lines| ::
          bases.walk[j] == if j < upto && KindOf(lines, j).Body? then Spaces(|lines[j]|) else lines[j])
    && (forall j {:trigger bases.read[j]} | 0 <= j < |lines| ::
          bases.read[j] == if j < upto && KindOf(lines, j) == Body(true) then Spaces(|lines[j]|) else lines[j])
  }

  lemma {:induction false} StillPending(lines: seq<string>, from: nat, k: nat)
    requires from <= k <= |lines| && Pending(lines, from) != []
    requires forall b | from <= b < k :: !Closes(Pending(lines, from)[0], lines[b])
    ensures Pending(lines, k) == Pending(lines, from)
    decreases k - from
  {
    hide Closes, Openers;
    if from < k {
      StillPending(lines, from, k - 1);
    }
  }

  lemma PaintBody(lines: seq<string>, from: nat, k: nat, bases: Bases)
    requires Painted(lines, from, bases) && from <= k < |lines| && Pending(lines, from) != []
    requires Closes(Pending(lines, from)[0], lines[k])
    requires forall b | from <= b < k :: !Closes(Pending(lines, from)[0], lines[b])
    ensures var op := Pending(lines, from)[0];
            var next := Bases(if op.quoted then BlankRange(bases.read, from, k) else bases.read,
                              BlankRange(bases.walk, from, k));
            Painted(lines, k + 1, next) && Pending(lines, k + 1) == Pending(lines, from)[1..]
  {
    var op := Pending(lines, from)[0];
    forall b | from <= b <= k
      ensures KindOf(lines, b) == if b == k then Terminator else Body(op.quoted)
    {
      StillPending(lines, from, b);
    }
    StillPending(lines, from, k);
  }

  lemma PaintedShape(lines: seq<string>, upto: nat, bases: Bases)
    requires Painted(lines, upto, bases)
    ensures upto <= |lines| && bases.Bases? && |bases.read| == |bases.walk| == |lines|
  {
  }

  lemma {:induction false} BodiesFollow(lines: seq<string>, from: nat, bases: Bases)
    requires from <= |lines| && Painted(lines, from, bases)
    ensures var r := BlankBodies(lines, Pending(lines, from), from, bases);
            if r.0.UnterminatedHeredoc? then Pending(lines, |lines|) != []
            else Painted(lines, r.1, r.0) && Pending(lines, r.1) == []
    decreases |Pending(lines, from)|
  {
    hide BlankBodies, Pending, Painted, BlankRange;
    PaintedShape(lines, from, bases);
    var ops := Pending(lines, from);
    BodiesStep(lines, ops, from, bases);
    if ops != [] {
      match FindClose(lines, ops[0], from)
      case None => StillPending(lines, from, |lines|);
      case Some(k) =>
        PaintBody(lines, from, k, bases);
        BodiesFollow(lines, k + 1,
                     Bases(if ops[0].quoted then BlankRange(bases.read, from, k) else bases.read,
                           BlankRange(bases.walk, from, k)));
    }
  }

  lemma PaintCommand(lines: seq<string>, i: nat, bases: Bases)
    requires i < |lines| && Painted(lines, i, bases) && Pending(lines, i) == []
    ensures Painted(lines, i + 1, bases) && Pending(lines, i + 1) == Openers(lines[i])
  {
    hide Openers, Closes;
    assert KindOf(lines, i) == Command;
  }

  lemma {:induction false} BlankerFollows(lines: seq<string>, i: nat, bases: Bases)
    requires Painted(lines, i, bases) && Pending(lines, i) == []
    ensures var b := BlankFrom(lines, i, bases);
            if b.UnterminatedHeredoc? then Pending(lines, |lines|) != []
            else Painted(lines, |lines|, b) && Pending(lines, |lines|) == []
    decreases |lines| - i
  {
    hide Openers, BlankBodies, Painted, Pending;
    PaintedShape(lines, i, bases);
    if i < |lines| {
      PaintCommand(lines, i, bases);
      BodiesFollow(lines, i + 1, bases);
      var r := BlankBodies(lines, Openers(lines[i]), i + 1, bases);
      if r.0.Bases? {
        BlankerFollows(lines, r.1, r.0);
      }
    }
  }

  /** The two passes agree: the blanker, run on the stripper's output, fails exactly
      when the stripper ended with a here-document open; otherwise the lines it
      blanks for the walk are exactly the bodies the stripper skipped, and for the
      reads exactly those with a quoted tag. Nothing else changes. Before every line the
      stripper waits for the very terminators that make it a command, a body or an end. */
  lemma Lockstep(lines: seq<string>, cont: seq<bool>)
    requires |lines| == |cont| && StripFrom(lines, cont, START).Stripped?
    ensures var r := StripFrom(lines, cont, START);
            var b := BlankHeredocs(r.lines);
            && (b.UnterminatedHeredoc? <==> r.pending != [])
            && (b.Bases? ==> Painted(r.lines, |r.lines|, b))
            && PassedThrough(lines, r.lines, r.lines, 0)
            && forall j | 0 <= j <= |lines| :: StateAt(lines, cont, START, j).pending == Pending(r.lines, j)
  {
    hide StripFrom, BlankFrom, PassedThrough;
    var r := StripFrom(lines, cont, START);
    StripperFollows([], lines, cont, START);
    assert [] + r.lines == r.lines;
    BlankerFollows(r.lines, 0, Bases(r.lines, r.lines));
    forall j | 0 <= j <= |lines| ensures StateAt(lines, cont, START, j).pending == Pending(r.lines, j) {
      StatesFollow([], lines, cont, START, j);
    }
  }

  // ----- stripping twice -----

  lemma {:induction false} ScanSpaces(line: string, k: nat, dq: bool, sq: bool)
    requires k <= |line| && forall i | k <= i < |line| :: line[i] == ' '
    ensures ScanLine(line, k, dq, sq) == Cut(None, dq, sq)
    decreases |line| - k
  {
    if k < |line| {
      ScanSpaces(line, k + 1, dq, sq);
    }
  }

  lemma {:induction false} ScanBlanked(line: string, k: nat, dq: bool, sq: bool)
    ensures var c := ScanLine(line, k, dq, sq);
            ScanLine(Blanked(line, c.at), k, dq, sq) == Cut(None, c.dq, c.sq)
    decreases |line| - k
  {
    var c := ScanLine(line, k, dq, sq);
    var b := Blanked(line, c.at);
    if c.at.Some? {
      assert forall i | 0 <= i < c.at.value :: b[i] == line[i];
      assert forall i | c.at.value <= i < |line| :: b[i] == ' ';
      if c.at == Some(k) {
        ScanSpaces(b, k, dq, sq);
      } else if line[k] == '\\' && !sq {
        ScanBlanked(line, k + 2, dq, sq);
      } else {
        ScanBlanked(line, k + 1, if line[k] == '"' && !sq then !dq else dq,
                    if line[k] == '\'' && !dq then !sq else sq);
      }
    }
  }

  /** Stripping again changes nothing. */
  lemma {:induction false} StripTwice(lines: seq<string>, cont: seq<bool>, st: State)
    requires |lines| == |cont| && StripFrom(lines, cont, st).Stripped?
    ensures StripFrom(StripFrom(lines, cont, st).lines, cont, st) == StripFrom(lines, cont, st)
  {
    if lines != [] {
      var r := StripFrom(lines, cont, st);
      var one := StripOne(lines[0], st, cont[0]);
      assert r.lines[1..] == StripFrom(lines[1..], cont[1..], one.1).lines;
      StripTwice(lines[1..], cont[1..], one.1);
      if st.pending == [] {
        ScanBlanked(lines[0], 0, Entering(st, cont[0]).dq, Entering(st, cont[0]).sq);
      }
    }
  }

  // ----- offsets and line numbers through every pass -----

  function ReplacePair(s: string, a: char, b: char): (r: string)
    ensures |r| == |s|
  {
    if |s| < 2 then s
    else if s[0] == a && s[1] == b then "  " + ReplacePair(s[2..], a, b)
    else [s[0]] + ReplacePair(s[1..], a, b)
  }

  /** remove_escapes: escaped backslashes first, then escaped dollars. */
  function RemoveEscapes(s: string): string { ReplacePair(ReplacePair(s, '\\', '\\'), '\\', '$') }

  /** Same length, newlines at the same offsets: the same line number everywhere. */
  ghost predicate Aligned(s: string, t: string) {
    |s| == |t| && forall k | 0 <= k < |s| :: s[k] == '\n' <==> t[k] == '\n'
  }

  /** _line_of: the line number of an offset. */
  function LineOf(s: string, pos: nat): nat
    requires pos <= |s|
  {
    if pos == 0 then 1 else LineOf(s, pos - 1) + if s[pos - 1] == '\n' then 1 else 0
  }

  lemma {:induction false} AlignedLineNumbers(s: string, t: string, pos: nat)
    requires Aligned(s, t) && pos <= |s|
    ensures LineOf(s, pos) == LineOf(t, pos)
  {
    if pos > 0 {
      AlignedLineNumbers(s, t, pos - 1);
    }
  }

  lemma {:induction false} ReplaceAligns(s: string, a: char, b: char)
    requires a != '\n' && b != '\n'
    ensures Aligned(s, ReplacePair(s, a, b))
    decreases |s|
  {
    if |s| >= 2 {
      var cut := if s[0] == a && s[1] == b then 2 else 1;
      ReplaceAligns(s[cut..], a, b);
      var rest := ReplacePair(s[cut..], a, b);
      forall k | cut <= k < |s| ensures s[k] == s[cut..][k - cut] && ReplacePair(s, a, b)[k] == rest[k - cut] {
      }
    }
  }

  lemma {:induction false} JoinAligns(a: seq<string>, b: seq<string>)
    requires |a| == |b| && forall j | 0 <= j < |a| :: |a[j]| == |b[j]| && '\n' !in a[j] && '\n' !in b[j]
    ensures Aligned(Join(a, '\n'), Join(b, '\n'))
  {
    if |a| == 1 {
      forall k | 0 <= k < |a[0]| ensures a[0][k] != '\n' && b[0][k] != '\n' {
        assert a[0][k] in a[0] && b[0][k] in b[0];
      }
    } else if |a| > 1 {
      JoinAligns(a[1..], b[1..]);
      AlignHead(a[0], b[0], Join(a[1..], '\n'), Join(b[1..], '\n'));
    }
  }

  lemma AlignHead(x: string, y: string, s: string, t: string)
    requires |x| == |y| && '\n' !in x && '\n' !in y && Aligned(s, t)
    ensures Aligned(x + ['\n'] + s, y + ['\n'] + t)
  {
    var p, q := x + ['\n'] + s, y + ['\n'] + t;
    forall k | 0 <= k < |p| ensures p[k] == '\n' <==> q[k] == '\n' {
      if k < |x| {
        assert p[k] == x[k] && x[k] in x && q[k] == y[k] && y[k] in y;
      } else if k > |x| {
        assert p[k] == s[k - |x| - 1] && q[k] == t[k - |x| - 1];
      }
    }
  }

  lemma {:induction false} StrippedKeepsLines(lines: seq<string>, cont: seq<bool>, st: State)
    requires |lines| == |cont| && StripFrom(lines, cont, st).Stripped?
    requires forall j | 0 <= j < |lines| :: '\n' !in lines[j]
    ensures var out := StripFrom(lines, cont, st).lines;
            forall j | 0 <= j < |lines| :: |out[j]| == |lines[j]| && '\n' !in out[j]
  {
    hide StripOne;
    if lines != [] {
      var one := StripOne(lines[0], st, cont[0]);
      StripFromStep(lines, cont, st);
      StrippedKeepsLines(lines[1..], cont[1..], one.1);
      StripOneKeeps(lines[0], st, cont[0]);
      var rest := StripFrom(lines[1..], cont[1..], one.1).lines;
      forall j | 0 <= j < |lines|
        ensures |([one.0] + rest)[j]| == |lines[j]| && '\n' !in ([one.0] + rest)[j]
      {
        if j > 0 {
          assert lines[j] == lines[1..][j - 1];
        }
      }
    }
  }

  lemma StripOneKeeps(line: string, st: State, cont: bool)
    requires '\n' !in line
    ensures '\n' !in StripOne(line, st, cont).0
  {
    var out := StripOne(line, st, cont).0;
    forall k | 0 <= k < |out| ensures out[k] != '\n' {
      assert out[k] == ' ' || (out[k] == line[k] && line[k] in line);
    }
  }

  /** Through all the passes of scan_buildspec an offset keeps its line number: the
      walk text and the read text are aligned with the text they were made from. */
  lemma LineNumbersKept(lines: seq<string>, cont: seq<bool>)
    requires |lines| == |cont| && StripFrom(lines, cont, START).Stripped?
    requires forall j | 0 <= j < |lines| :: '\n' !in lines[j]
    requires BlankHeredocs(StripFrom(lines, cont, START).lines).Bases?
    ensures var b := BlankHeredocs(StripFrom(lines, cont, START).lines);
            Aligned(Join(lines, '\n'), Join(b.walk, '\n'))
            && Aligned(Join(lines, '\n'), RemoveEscapes(Join(b.read, '\n')))
  {
    hide StripFrom, BlankHeredocs, Join;
    var out := StripFrom(lines, cont, START).lines;
    var b := BlankHeredocs(out);
    StrippedKeepsLines(lines, cont, START);
    Lockstep(lines, cont);
    PaintedKeepsLines(out, |out|, b);
    JoinAligns(lines, b.walk);
    JoinAligns(lines, b.read);
    var read := Join(b.read, '\n');
    ReplaceAligns(read, '\\', '\\');
    ReplaceAligns(ReplacePair(read, '\\', '\\'), '\\', '$');
  }

  lemma PaintedKeepsLines(lines: seq<string>, upto: nat, b: Bases)
    requires Painted(lines, upto, b) && forall j | 0 <= j < |lines| :: '\n' !in lines[j]
    ensures |b.read| == |b.walk| == |lines|
    ensures forall j | 0 <= j < |lines| :: |b.walk[j]| == |lines[j]| && '\n' !in b.walk[j]
    ensures forall j | 0 <= j < |lines| :: |b.read[j]| == |lines[j]| && '\n' !in b.read[j]
  {
  }
}
