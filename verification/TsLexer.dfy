/** strip_ts_comments of deploy/pipeline/check-pipeline-contract.py: a pushdown
    lexer over TypeScript text that blanks comments (`code`) and, besides, the
    contents of string literals (`masked`). */
module TsLexer {
  import opened Text

  /** What the lexer is inside of. The empty stack is plain code; Expr is a ${ ... }
      with its brace depth, which is code again. */
  datatype Mode = Dq | Sq | Tpl | Expr(depth: int)

  predicate InCode(stack: seq<Mode>) { stack == [] || Last(stack).Expr? }

  datatype Lexed = Lexed(code: string, masked: string) | Unterminated

  predicate At(src: string, i: nat, c: char) { i < |src| && src[i] == c }

  /** src.find("\n", i), or the end of the text. */
  function LineEnd(src: string, i: nat): (j: nat)
    requires i <= |src|
    ensures i <= j <= |src|
    decreases |src| - i
  {
    if i == |src| || src[i] == '\n' then i else LineEnd(src, i + 1)
  }

  /** src.find of the comment closer from i on. */
  function CommentClose(src: string, i: nat): (j: Option<nat>)
    ensures j.Some? ==> i <= j.value && j.value + 2 <= |src|
    decreases |src| - i
  {
    if i + 2 > |src| then None
    else if src[i] == '*' && src[i + 1] == '/' then Some(i)
    else CommentClose(src, i + 1)
  }

  function Blank(seg: string): (b: string)
    ensures |b| == |seg|
    ensures forall k | 0 <= k < |seg| :: b[k] == if seg[k] == '\n' then '\n' else ' '
  {
    seq(|seg|, k requires 0 <= k < |seg| => if seg[k] == '\n' then '\n' else ' ')
  }

  /** src[i:j] as Python slices it: a j past the end stops at the end. */
  function Slice(src: string, i: nat, j: nat): string
    requires i <= |src| && i <= j
  {
    src[i..if j <= |src| then j else |src|]
  }

  /** The stack after an ordinary character of code. */
  function CodeChar(stack: seq<Mode>, c: char): seq<Mode>
    requires InCode(stack)
  {
    if c == '"' then stack + [Dq]
    else if c == '\'' then stack + [Sq]
    else if c == '`' then stack + [Tpl]
    else if stack != [] && c == '{' then Init(stack) + [Expr(Last(stack).depth + 1)]
    else if stack != [] && c == '}' then
      if Last(stack).depth == 1 then Init(stack) else Init(stack) + [Expr(Last(stack).depth - 1)]
    else stack
  }

  /** One turn of the loop: where it goes on, the stack, what each buffer gets. */
  datatype Turn = Turn(next: nat, stack: seq<Mode>, code: string, masked: string) | Fails

  function Step(src: string, i: nat, stack: seq<Mode>): (t: Turn)
    requires i < |src|
    ensures t.Turn? ==> i < t.next
  {
    var c := src[i];
    if InCode(stack) then CodeStep(src, i, stack)
    else if Last(stack).Tpl? then
      if c == '\\' then Turn(i + 2, stack, Slice(src, i, i + 2), [' ', if At(src, i + 1, '\n') then '\n' else ' '])
      else if c == '`' then Turn(i + 1, Init(stack), [c], [c])
      else if c == '$' && At(src, i + 1, '{') then Turn(i + 2, stack + [Expr(1)], "${", "${")
      else Turn(i + 1, stack, [c], if c == '\n' then "\n" else " ")
    else
      if c == '\\' then Turn(i + 2, stack, Slice(src, i, i + 2), "  ")
      else if c == '\n' then Fails
      else if c == (if Last(stack).Dq? then '"' else '\'') then Turn(i + 1, Init(stack), [c], [c])
      else Turn(i + 1, stack, [c], " ")
  }

  function CodeStep(src: string, i: nat, stack: seq<Mode>): (t: Turn)
    requires i < |src| && InCode(stack)
    ensures t.Turn? ==> i < t.next <= |src|
  {
    if At(src, i, '/') && At(src, i + 1, '/') then
      assert LineEnd(src, i) == LineEnd(src, i + 1) >= i + 1;
      var b := Blank(src[i..LineEnd(src, i)]);
      Turn(LineEnd(src, i), stack, b, b)
    else if At(src, i, '/') && At(src, i + 1, '*') then
      match CommentClose(src, i + 2)
      case None => Fails
      case Some(j) => Turn(j + 2, stack, Blank(src[i..j + 2]), Blank(src[i..j + 2]))
    else Turn(i + 1, CodeChar(stack, src[i]), [src[i]], [src[i]])
  }

  function Prepend(code: string, masked: string, rest: Lexed): Lexed {
    if rest.Lexed? then Lexed(code + rest.code, masked + rest.masked) else rest
  }

  /** The run from index i on: what it appends to the two buffers. */
  function Lex(src: string, i: nat, stack: seq<Mode>): Lexed
    decreases |src| - i
  {
    if i >= |src| then (if stack == [] then Lexed("", "") else Unterminated)
    else
      match Step(src, i, stack)
      case Fails => Unterminated
      case Turn(next, stack', code, masked) => Prepend(code, masked, Lex(src, next, stack'))
  }

  lemma PrependTwice(c1: string, m1: string, c2: string, m2: string, rest: Lexed)
    ensures Prepend(c1, m1, Prepend(c2, m2, rest)) == Prepend(c1 + c2, m1 + m2, rest)
  {
    if rest.Lexed? {
      AppendAssociates(c1, c2, rest.code);
      AppendAssociates(m1, m2, rest.masked);
    }
  }

  /** strip_ts_comments itself: one index, one stack, two buffers. */
  method StripTsComments(src: string) returns (r: Lexed)
    ensures r == Lex(src, 0, [])
  {
    var code, masked := "", "";
    var i := 0;
    var stack: seq<Mode> := [];
    assert Prepend(code, masked, Lex(src, i, stack)) == Lex(src, 0, []);
    while i < |src|
      invariant Prepend(code, masked, Lex(src, i, stack)) == Lex(src, 0, [])
      decreases |src| - i
    {
      var turn := Step(src, i, stack);
      if turn.Fails? {
        return Unterminated;
      }
      PrependTwice(code, masked, turn.code, turn.masked, Lex(src, turn.next, turn.stack));
      code, masked := code + turn.code, masked + turn.masked;
      i, stack := turn.next, turn.stack;
    }
    if stack != [] {
      return Unterminated;
    }
    assert code + "" == code && masked + "" == masked;
    return Lexed(code, masked);
  }

  // ----- what a successful run returns -----

  /** code and masked against the source, from index i on. */
  ghost predicate Mirrors(src: string, i: nat, code: string, masked: string) {
    && i <= |src|
    && |code| == |masked| == |src| - i
    && forall k | 0 <= k < |code| :: Copies(src[i + k], code[k], masked[k])
  }

  lemma MirrorsInTwo(src: string, i: nat, c1: string, m1: string, c2: string, m2: string)
    requires i + |c1| <= |src| && |c1| == |m1|
    requires forall k | 0 <= k < |c1| :: Copies(src[i + k], c1[k], m1[k])
    requires Mirrors(src, i + |c1|, c2, m2)
    ensures Mirrors(src, i, c1 + c2, m1 + m2)
  {
    forall k | 0 <= k < |c1 + c2| ensures Copies(src[i + k], (c1 + c2)[k], (m1 + m2)[k]) {
      if k >= |c1| {
        assert Copies(src[i + |c1| + (k - |c1|)], c2[k - |c1|], m2[k - |c1|]);
      }
    }
  }

  /** A successful run never steps past the end of the text. */
  lemma NextTurn(src: string, i: nat, stack: seq<Mode>)
    requires i < |src| && Lex(src, i, stack).Lexed?
    ensures var turn := Step(src, i, stack);
            turn.Turn? && turn.next <= |src| && Lex(src, turn.next, turn.stack).Lexed?
            && Lex(src, i, stack) == Prepend(turn.code, turn.masked, Lex(src, turn.next, turn.stack))
  {
  }

  lemma {:induction false} RunMirrors(src: string, i: nat, stack: seq<Mode>)
    requires i <= |src| && Lex(src, i, stack).Lexed?
    ensures Mirrors(src, i, Lex(src, i, stack).code, Lex(src, i, stack).masked)
    decreases |src| - i
  {
    hide Step;
    if i < |src| {
      NextTurn(src, i, stack);
      var turn := Step(src, i, stack);
      RunMirrors(src, turn.next, turn.stack);
      StepMirrors(src, i, stack);
      var rest := Lex(src, turn.next, turn.stack);
      MirrorsInTwo(src, i, turn.code, turn.masked, rest.code, rest.masked);
    }
  }

  /** What one turn writes for the character at index j. */
  ghost predicate Copies(c: char, code: char, masked: char) {
    (code == c || (code == ' ' && c != '\n')) && (masked == code || (masked == ' ' && code == c))
  }

  lemma StepMirrors(src: string, i: nat, stack: seq<Mode>)
    requires i < |src| && Step(src, i, stack).Turn? && Step(src, i, stack).next <= |src|
    ensures var t := Step(src, i, stack);
            |t.code| == |t.masked| == t.next - i
            && forall k | 0 <= k < t.next - i :: Copies(src[i + k], t.code[k], t.masked[k])
  {
    var t := Step(src, i, stack);
    if InCode(stack) && At(src, i, '/') && (At(src, i + 1, '/') || At(src, i + 1, '*')) {
      var seg := src[i..t.next];
      assert t.code == t.masked == Blank(seg);
      forall k | 0 <= k < t.next - i ensures Copies(src[i + k], t.code[k], t.masked[k]) {
        assert seg[k] == src[i + k];
      }
    } else if t.next == i + 2 {
      assert t.code[0] == src[i] && t.code[1] == src[i + 1];
      assert Copies(src[i + 0], t.code[0], t.masked[0]) && Copies(src[i + 1], t.code[1], t.masked[1]);
    } else {
      assert t.next == i + 1 && t.code == [src[i]];
      assert Copies(src[i + 0], t.code[0], t.masked[0]);
    }
  }

  /** The turn at i reads what a string holds: it is inside one, and neither closes it nor
      opens an expression in it. */
  predicate ReadsContent(src: string, i: nat, stack: seq<Mode>)
    requires i < |src|
  {
    !InCode(stack)
    && match Last(stack)
       case Tpl => src[i] != '`' && !(src[i] == '$' && At(src, i + 1, '{'))
       case Dq => src[i] != '"'
       case _ => src[i] != '\''
  }

  /** The run from i reads offset k as what a quoted or template string holds. */
  predicate InString(src: string, i: nat, stack: seq<Mode>, k: nat)
    decreases |src| - i
  {
    i < |src| && i <= k && Step(src, i, stack).Turn?
    && if k < Step(src, i, stack).next then ReadsContent(src, i, stack)
       else InString(src, Step(src, i, stack).next, Step(src, i, stack).stack, k)
  }

  /** Inside strings masked is blank and code the source; anywhere else they are the same. */
  ghost predicate MaskedAt(c: char, inString: bool, code: char, masked: char) {
    if inString then code == c && (masked == ' ' || masked == c == '\n') else masked == code
  }

  lemma StepMasks(src: string, i: nat, stack: seq<Mode>, k: nat)
    requires i <= k < |src| && Step(src, i, stack).Turn? && k < Step(src, i, stack).next <= |src|
    ensures var t := Step(src, i, stack);
            |t.code| == |t.masked| == t.next - i
            && MaskedAt(src[k], ReadsContent(src, i, stack), t.code[k - i], t.masked[k - i])
  {
    StepMirrors(src, i, stack);
    var t := Step(src, i, stack);
    if InCode(stack) {
      assert t.code == t.masked;
    } else {
      assert t.code == src[i..t.next];
      assert k == i || k == i + 1;
    }
  }

  lemma {:induction false} RunMasks(src: string, i: nat, stack: seq<Mode>, k: nat)
    requires i <= k < |src| && Lex(src, i, stack).Lexed?
    ensures var r := Lex(src, i, stack);
            |r.code| == |r.masked| == |src| - i
            && MaskedAt(src[k], InString(src, i, stack, k), r.code[k - i], r.masked[k - i])
    decreases |src| - i
  {
    hide Step, ReadsContent, MaskedAt;
    NextTurn(src, i, stack);
    var t := Step(src, i, stack);
    RunMirrors(src, i, stack);
    StepMirrors(src, i, stack);
    if k < t.next {
      StepMasks(src, i, stack, k);
    } else {
      RunMasks(src, t.next, t.stack, k);
    }
  }

  /** Both outputs have the source's length; `code` differs from it only by blanking
      non-newline characters, so every newline keeps its offset; `masked` differs from
      `code` only where a string is read, and there it is blank. */
  lemma OffsetsKept(src: string)
    requires Lex(src, 0, []).Lexed?
    ensures Mirrors(src, 0, Lex(src, 0, []).code, Lex(src, 0, []).masked)
    ensures forall k | 0 <= k < |src| :: Lex(src, 0, []).code[k] == '\n' <==> src[k] == '\n'
    ensures forall k | 0 <= k < |src| ::
              MaskedAt(src[k], InString(src, 0, [], k), Lex(src, 0, []).code[k], Lex(src, 0, []).masked[k])
  {
    hide Lex, InString, MaskedAt;
    RunMirrors(src, 0, []);
    forall k | 0 <= k < |src|
      ensures MaskedAt(src[k], InString(src, 0, [], k), Lex(src, 0, []).code[k], Lex(src, 0, []).masked[k])
    {
      RunMasks(src, 0, [], k);
    }
  }

  /** Somewhere in the run a quoted string holds a backslash right before a newline. */
  predicate ContinuesLine(src: string, i: nat, stack: seq<Mode>)
    decreases |src| - i
  {
    i < |src| && Step(src, i, stack).Turn?
    && ((stack != [] && (Last(stack).Dq? || Last(stack).Sq?) && src[i] == '\\' && At(src, i + 1, '\n'))
        || ContinuesLine(src, Step(src, i, stack).next, Step(src, i, stack).stack))
  }

  lemma StepNewlines(src: string, i: nat, stack: seq<Mode>)
    requires i < |src| && Step(src, i, stack).Turn? && Step(src, i, stack).next <= |src|
    ensures var t := Step(src, i, stack);
            |t.masked| == t.next - i
            && (SameNewlines(src, i, t.masked)
                <==> !(stack != [] && (Last(stack).Dq? || Last(stack).Sq?) && src[i] == '\\' && At(src, i + 1, '\n')))
  {
    var t := Step(src, i, stack);
    StepMirrors(src, i, stack);
    if stack != [] && (Last(stack).Dq? || Last(stack).Sq?) && src[i] == '\\' && At(src, i + 1, '\n') {
      assert t.masked[1] == ' ' && src[i + 1] == '\n';
    }
  }

  ghost predicate SameNewlines(src: string, i: nat, out: string) {
    i + |out| <= |src| && forall k | 0 <= k < |out| :: out[k] == '\n' <==> src[i + k] == '\n'
  }

  lemma NewlinesInTwo(src: string, i: nat, a: string, b: string)
    requires i + |a| + |b| <= |src|
    ensures SameNewlines(src, i, a + b) <==> SameNewlines(src, i, a) && SameNewlines(src, i + |a|, b)
  {
    var out := a + b;
    if SameNewlines(src, i, out) {
      forall k | 0 <= k < |a| ensures a[k] == '\n' <==> src[i + k] == '\n' {
        assert out[k] == a[k];
      }
      forall k | 0 <= k < |b| ensures b[k] == '\n' <==> src[i + |a| + k] == '\n' {
        assert out[|a| + k] == b[k];
      }
    }
  }

  /** `masked`, unlike `code`, keeps every newline exactly when no quoted string is
      continued over a line end by a backslash. */
  lemma {:induction false} MaskedNewlines(src: string, i: nat, stack: seq<Mode>)
    requires i <= |src| && Lex(src, i, stack).Lexed?
    ensures SameNewlines(src, i, Lex(src, i, stack).masked) <==> !ContinuesLine(src, i, stack)
    decreases |src| - i
  {
    RunMirrors(src, i, stack);
    if i < |src| {
      var t := Step(src, i, stack);
      NextTurn(src, i, stack);
      RunMirrors(src, t.next, t.stack);
      MaskedNewlines(src, t.next, t.stack);
      StepNewlines(src, i, stack);
      NewlinesInTwo(src, i, t.masked, Lex(src, t.next, t.stack).masked);
    }
  }

  // ----- both outputs are fixed points -----

  /** A stretch of blanks is read one by one and passed through unchanged, as long as
      no quoted string is open across a newline. */
  lemma {:induction false} BlankStretch(t: string, i: nat, j: nat, stack: seq<Mode>)
    requires i <= j <= |t|
    requires forall k | i <= k < j :: t[k] == ' ' || (t[k] == '\n' && (InCode(stack) || Last(stack).Tpl?))
    ensures Lex(t, i, stack) == Prepend(t[i..j], t[i..j], Lex(t, j, stack))
    decreases j - i
  {
    if i == j {
      var rest := Lex(t, j, stack);
      assert t[i..j] == "";
      if rest.Lexed? {
        assert "" + rest.code == rest.code && "" + rest.masked == rest.masked;
      }
    } else {
      assert Step(t, i, stack) == Turn(i + 1, stack, [t[i]], [t[i]]) by {
        if InCode(stack) {
          assert CodeChar(stack, t[i]) == stack;
        }
      }
      BlankStretch(t, i + 1, j, stack);
      PrependTwice([t[i]], [t[i]], t[i + 1..j], t[i + 1..j], Lex(t, j, stack));
      assert [t[i]] + t[i + 1..j] == t[i..j];
    }
  }

  /** What an output shows at index i, given what the run appends from there. */
  ghost predicate Shows(t: string, i: nat, out: string) {
    i <= |t| && t[i..] == out
  }

  /** The text an output shows where one turn wrote to it. */
  lemma ShowsTurn(t: string, i: nat, piece: string, rest: string)
    requires Shows(t, i, piece + rest)
    ensures i + |piece| <= |t| && t[i..i + |piece|] == piece && Shows(t, i + |piece|, rest)
    ensures forall k | 0 <= k < |piece| :: t[i + k] == piece[k]
  {
    var out := piece + rest;
    assert |t[i..]| == |out|;
    assert t[i..i + |piece|] == t[i..][..|piece|] == out[..|piece|] == piece;
    assert t[i + |piece|..] == t[i..][|piece|..] == out[|piece|..] == rest;
    forall k | 0 <= k < |piece| ensures t[i + k] == piece[k] {
      assert t[i + k] == t[i..][k] == out[k];
    }
  }

  lemma Heads(src: string, i: nat, stack: seq<Mode>)
    requires i < |src| && Lex(src, i, stack).Lexed?
    ensures var out := Lex(src, i, stack);
            |out.code| > 0 && |out.masked| > 0
            && (out.code[0] == src[i] || out.code[0] == ' ')
            && (out.masked[0] == src[i] || out.masked[0] == ' ')
            && (!InCode(stack) ==> out.code[0] == src[i])
  {
    RunMirrors(src, i, stack);
  }

  /** `t` shows, from i on, what the run over src writes to one of its buffers. */
  ghost predicate ShowsRun(t: string, src: string, i: nat, stack: seq<Mode>, masked: bool) {
    i <= |src| == |t| && Lex(src, i, stack).Lexed?
    && Shows(t, i, if masked then Lex(src, i, stack).masked else Lex(src, i, stack).code)
  }

  function Piece(turn: Turn, masked: bool): string
    requires turn.Turn?
  {
    if masked then turn.masked else turn.code
  }

  /** One turn of the run over src moves `t` along with it. */
  lemma ShowsNext(t: string, src: string, i: nat, stack: seq<Mode>, masked: bool)
    requires i < |src| && ShowsRun(t, src, i, stack, masked)
    ensures var turn := Step(src, i, stack);
            turn.Turn? && turn.next <= |src|
            && |turn.code| == |turn.masked| == turn.next - i
            && t[i..turn.next] == Piece(turn, masked)
            && (forall k | 0 <= k < turn.next - i :: t[i + k] == Piece(turn, masked)[k])
            && ShowsRun(t, src, turn.next, turn.stack, masked)
  {
    RunMirrors(src, i, stack);
    var turn := Step(src, i, stack);
    NextTurn(src, i, stack);
    StepMirrors(src, i, stack);
    var rest := Lex(src, turn.next, turn.stack);
    ShowsTurn(t, i, Piece(turn, masked), if masked then rest.masked else rest.code);
  }

  /** A code context reads its own output with the same turn: no comment starts anew. */
  lemma RereadCode(t: string, src: string, i: nat, stack: seq<Mode>, masked: bool)
    requires i < |src| && ShowsRun(t, src, i, stack, masked) && InCode(stack)
    ensures var turn := Step(src, i, stack);
            turn.Turn? && turn.next <= |t|
            && Lex(t, i, stack) == Prepend(Piece(turn, masked), turn.masked, Lex(t, turn.next, turn.stack))
  {
    var turn := Step(src, i, stack);
    ShowsNext(t, src, i, stack, masked);
    if At(src, i, '/') && (At(src, i + 1, '/') || At(src, i + 1, '*')) {
      forall k | i <= k < turn.next ensures t[k] == ' ' || t[k] == '\n' {
        assert t[k] == t[i + (k - i)] == Piece(turn, masked)[k - i];
      }
      BlankStretch(t, i, turn.next, stack);
    } else {
      SameCodeChar(t, src, i, stack, masked);
    }
  }

  lemma SameCodeChar(t: string, src: string, i: nat, stack: seq<Mode>, masked: bool)
    requires i < |src| && ShowsRun(t, src, i, stack, masked) && InCode(stack)
    requires !(At(src, i, '/') && (At(src, i + 1, '/') || At(src, i + 1, '*')))
    ensures Step(t, i, stack) == Step(src, i, stack)
  {
    ShowsNext(t, src, i, stack, masked);
    assert t[i] == t[i + 0] == src[i];
    if src[i] == '/' && i + 1 < |src| {
      Heads(src, i + 1, stack);
      assert t[i + 1] == t[i + 1..][0];
    }
  }

  lemma SameString(t: string, src: string, i: nat, stack: seq<Mode>)
    requires i < |src| == |t| && !InCode(stack) && t[i] == src[i]
    requires (src[i] == '\\' || src[i] == '$') && i + 1 < |src| ==> t[i + 1] == src[i + 1]
    ensures Step(t, i, stack) == Step(src, i, stack)
  {
    if i + 1 < |src| {
      assert Slice(t, i, i + 2) == [t[i], t[i + 1]];
      assert Slice(src, i, i + 2) == [src[i], src[i + 1]];
    } else {
      assert Slice(t, i, i + 2) == [t[i]] == Slice(src, i, i + 2);
    }
  }

  /** In a string, `code` shows the source itself. */
  lemma RereadStringCode(t: string, src: string, i: nat, stack: seq<Mode>)
    requires i < |src| && ShowsRun(t, src, i, stack, false) && !InCode(stack)
    ensures Step(t, i, stack) == Step(src, i, stack)
  {
    ShowsNext(t, src, i, stack, false);
    StringTurn(src, i, stack);
    var turn := Step(src, i, stack);
    hide Step;
    assert t[i] == t[i + 0] == src[i];
    if turn.next == i + 2 {
      assert t[i + 1] == turn.code[1];
    } else if src[i] == '$' && i + 1 < |src| {
      Heads(src, i + 1, stack);
      assert t[i + 1] == t[i + 1..][0];
    }
    SameString(t, src, i, stack);
  }

  lemma StringTurn(src: string, i: nat, stack: seq<Mode>)
    requires i < |src| && !InCode(stack) && Step(src, i, stack).Turn? && Step(src, i, stack).next <= |src|
    ensures var turn := Step(src, i, stack);
            && turn.code[0] == src[i]
            && (turn.next == i + 2 ==> turn.code[1] == src[i + 1])
            && (turn.next != i + 2 ==> src[i] != '\\' && turn.next == i + 1)
            && (turn.next == i + 1 && src[i] == '$' ==> turn.stack == stack)
  {
  }

  /** The turns of a string that are not blanked: its delimiters. */
  predicate Delimits(src: string, i: nat, stack: seq<Mode>)
    requires i < |src| && !InCode(stack)
  {
    Step(src, i, stack).Turn? && Step(src, i, stack).stack != stack
  }

  lemma MaskedDelimiter(t: string, src: string, i: nat, stack: seq<Mode>)
    requires i < |src| && !InCode(stack) && Delimits(src, i, stack)
    requires var turn := Step(src, i, stack);
             turn.next <= |src| == |t| && |turn.masked| == turn.next - i
             && forall k | 0 <= k < turn.next - i :: t[i + k] == turn.masked[k]
    ensures Step(t, i, stack) == Step(src, i, stack)
    ensures Step(src, i, stack).code == Step(src, i, stack).masked
  {
    var turn := Step(src, i, stack);
    assert t[i + 0] == turn.masked[0];
    if turn.next == i + 2 {
      assert t[i + 1] == turn.masked[1];
    }
  }

  lemma MaskedContents(src: string, i: nat, stack: seq<Mode>)
    requires i < |src| && !InCode(stack) && !Delimits(src, i, stack)
    requires Step(src, i, stack).Turn?
    ensures Step(src, i, stack).stack == stack
    ensures forall k | 0 <= k < |Step(src, i, stack).masked| ::
              var c := Step(src, i, stack).masked[k]; c == ' ' || (c == '\n' && Last(stack).Tpl?)
  {
  }

  /** In a string, `masked` shows a delimiter or blanks. */
  lemma RereadStringMasked(t: string, src: string, i: nat, stack: seq<Mode>)
    requires i < |src| && ShowsRun(t, src, i, stack, true) && !InCode(stack)
    ensures var turn := Step(src, i, stack);
            turn.Turn? && turn.next <= |t|
            && Lex(t, i, stack) == Prepend(turn.masked, turn.masked, Lex(t, turn.next, turn.stack))
  {
    var turn := Step(src, i, stack);
    ShowsNext(t, src, i, stack, true);
    hide Step;
    if Delimits(src, i, stack) {
      MaskedDelimiter(t, src, i, stack);
    } else {
      MaskedContents(src, i, stack);
      forall k | i <= k < turn.next ensures t[k] == ' ' || (t[k] == '\n' && Last(stack).Tpl?) {
        assert t[i + (k - i)] == turn.masked[k - i];
      }
      BlankStretch(t, i, turn.next, stack);
    }
  }

  /** Running the lexer again: on `code` it returns the same pair, on `masked` it
      returns `masked` twice. */
  lemma {:induction false} Reread(t: string, src: string, i: nat, stack: seq<Mode>, masked: bool)
    requires ShowsRun(t, src, i, stack, masked)
    ensures var out := Lex(src, i, stack);
            Lex(t, i, stack) == Lexed(if masked then out.masked else out.code, out.masked)
    decreases |src| - i
  {
    if i < |src| {
      var turn := Step(src, i, stack);
      ShowsNext(t, src, i, stack, masked);
      Reread(t, src, turn.next, turn.stack, masked);
      if InCode(stack) {
        RereadCode(t, src, i, stack, masked);
      } else if masked {
        RereadStringMasked(t, src, i, stack);
      } else {
        RereadStringCode(t, src, i, stack);
      }
    }
  }

  /** Stripping is idempotent, and masking leaves the same strings, emptied: the
      lexer sees the same tokens in the source, in `code` and in `masked`. */
  lemma StripIsIdempotent(src: string)
    requires Lex(src, 0, []).Lexed?
    ensures Lex(Lex(src, 0, []).code, 0, []) == Lex(src, 0, [])
    ensures Lex(Lex(src, 0, []).masked, 0, []) == Lexed(Lex(src, 0, []).masked, Lex(src, 0, []).masked)
  {
    var out := Lex(src, 0, []);
    RunMirrors(src, 0, []);
    assert out.code[0..] == out.code && out.masked[0..] == out.masked;
    Reread(out.code, src, 0, [], false);
    Reread(out.masked, src, 0, [], true);
  }

  // ----- matching braces in the masked text -----

  /** Opening less closing braces in [lo, hi). */
  function Depth(masked: string, lo: nat, hi: nat): int
    requires lo <= hi <= |masked|
    decreases hi - lo
  {
    if lo == hi then 0
    else Depth(masked, lo, hi - 1) + if masked[hi - 1] == '{' then 1 else if masked[hi - 1] == '}' then -1 else 0
  }

  /** brace_walk: the first point at which every brace opened from `open` on is closed. */
  method BraceWalk(masked: string, open: nat) returns (close: Option<nat>)
    requires open < |masked| && masked[open] == '{'
    ensures match close
            case Some(k) => open < k < |masked| && masked[k] == '}' && Depth(masked, open, k + 1) == 0
                            && forall j | open < j <= k :: Depth(masked, open, j) > 0
            case None => forall j | open < j <= |masked| :: Depth(masked, open, j) > 0
  {
    var depth := 0;
    for k := open to |masked|
      invariant depth == Depth(masked, open, k) && (k > open ==> depth > 0)
      invariant forall j | open < j <= k :: Depth(masked, open, j) > 0
    {
      if masked[k] == '{' {
        depth := depth + 1;
      } else if masked[k] == '}' {
        depth := depth - 1;
        if depth == 0 {
          return Some(k);
        }
      }
    }
    return None;
  }
}
