/** The texts the lexer of TypeScript text is for: how they are written, that it reads each
    as written, comments blank in the one output and what strings hold besides in the
    other, and that it accepts no other text. */
module TsGrammar {
  import opened Text
  import opened TsLexer

  // ----- the texts it is for -----

  datatype Kind = InDq | InSq | InTpl | Hole | Braces

  /** A text as it is written, or what one of the kinds holds: characters, escapes, line and
      block comments, and what nests. */
  datatype Ts =
    | End
    | Char(c: char, rest: Ts)
    | Escape(c: char, rest: Ts)
    | Line(text: string, rest: Ts)
    | Block(text: string, rest: Ts)
    | Nest(kind: Kind, inner: Ts, rest: Ts)

  function Opener(kind: Kind): string {
    match kind
    case InDq => "\""
    case InSq => "'"
    case InTpl => "`"
    case Hole => "${"
    case Braces => "{"
  }

  function Closer(kind: Kind): char {
    match kind
    case InDq => '"'
    case InSq => '\''
    case InTpl => '`'
    case Hole => '}'
    case Braces => '}'
  }

  function Render(w: Ts): string {
    match w
    case End => ""
    case Char(c, rest) => [c] + Render(rest)
    case Escape(c, rest) => ['\\', c] + Render(rest)
    case Line(text, rest) => ("//" + text) + Render(rest)
    case Block(text, rest) => ("/*" + text + "*/") + Render(rest)
    case Nest(kind, inner, rest) => (Opener(kind) + (Render(inner) + [Closer(kind)])) + Render(rest)
  }

  /** A comment as both outputs show it: blank but for its line ends. */
  function Erased(text: string): string {
    if text == "" then "" else [if text[0] == '\n' then '\n' else ' '] + Erased(text[1..])
  }

  /** The text without its comments. */
  function CodeOf(w: Ts): string {
    match w
    case End => ""
    case Char(c, rest) => [c] + CodeOf(rest)
    case Escape(c, rest) => ['\\', c] + CodeOf(rest)
    case Line(text, rest) => Erased("//" + text) + CodeOf(rest)
    case Block(text, rest) => Erased("/*" + text + "*/") + CodeOf(rest)
    case Nest(kind, inner, rest) => (Opener(kind) + (CodeOf(inner) + [Closer(kind)])) + CodeOf(rest)
  }

  predicate CodeIn(ctx: Option<Kind>) { ctx in {None, Some(Hole), Some(Braces)} }

  /** A character of a string, masked: line ends of templates are kept. */
  function Masked(c: char, kind: Kind): char { if kind.InTpl? && c == '\n' then '\n' else ' ' }

  /** And without what its strings hold; expressions in templates are code again. */
  function MaskedOf(w: Ts, ctx: Option<Kind>): string {
    match w
    case End => ""
    case Char(c, rest) => [if CodeIn(ctx) then c else Masked(c, ctx.value)] + MaskedOf(rest, ctx)
    case Escape(c, rest) => [' ', if CodeIn(ctx) then ' ' else Masked(c, ctx.value)] + MaskedOf(rest, ctx)
    case Line(text, rest) => Erased("//" + text) + MaskedOf(rest, ctx)
    case Block(text, rest) => Erased("/*" + text + "*/") + MaskedOf(rest, ctx)
    case Nest(kind, inner, rest) =>
      (Opener(kind) + (MaskedOf(inner, Some(kind)) + [Closer(kind)])) + MaskedOf(rest, ctx)
  }

  /** What stands for itself where. */
  predicate Ordinary(c: char, ctx: Option<Kind>) {
    match ctx
    case None => c !in {'"', '\'', '`'}
    case Some(InDq) => c !in {'"', '\\', '\n'}
    case Some(InSq) => c !in {'\'', '\\', '\n'}
    case Some(InTpl) => c !in {'`', '\\'}
    case Some(_) => c !in {'"', '\'', '`', '{', '}'}
  }

  predicate MayNest(kind: Kind, ctx: Option<Kind>) {
    match kind
    case Hole => ctx == Some(InTpl)
    case Braces => ctx == Some(Hole) || ctx == Some(Braces)
    case _ => CodeIn(ctx)
  }

  predicate Begins(w: Ts, c: char) { Render(w) != "" && Render(w)[0] == c }

  predicate HasClose(text: string) { exists k | 0 <= k < |text| - 1 :: text[k] == '*' && text[k + 1] == '/' }

  predicate WellFormed(w: Ts, ctx: Option<Kind>) {
    match w
    case End => true
    case Char(c, rest) =>
      Ordinary(c, ctx) && WellFormed(rest, ctx)
      && (CodeIn(ctx) && c == '/' ==> !Begins(rest, '/') && !Begins(rest, '*'))
      && (ctx == Some(InTpl) && c == '$' ==> !Begins(rest, '{'))
    case Escape(_, rest) => !CodeIn(ctx) && WellFormed(rest, ctx)
    case Line(text, rest) =>
      CodeIn(ctx) && '\n' !in text && WellFormed(rest, ctx) && (Begins(rest, '\n') || (rest.End? && ctx.None?))
    case Block(text, rest) => CodeIn(ctx) && !HasClose(text) && WellFormed(rest, ctx)
    case Nest(kind, inner, rest) => MayNest(kind, ctx) && WellFormed(inner, Some(kind)) && WellFormed(rest, ctx)
  }

  /** The stack the lexer has there. */
  predicate TopIs(stack: seq<Mode>, ctx: Option<Kind>) {
    match ctx
    case None => stack == []
    case Some(InDq) => stack != [] && Last(stack) == Dq
    case Some(InSq) => stack != [] && Last(stack) == Sq
    case Some(InTpl) => stack != [] && Last(stack) == Tpl
    case Some(Hole) => stack != [] && Last(stack) == Expr(1)
    case Some(Braces) => stack != [] && Last(stack).Expr? && Last(stack).depth > 1
  }

  /** What follows at i is what w begins with, or else what comes after it. */
  lemma NextIs(src: string, i: nat, w: Ts, c: char)
    requires Shown(src, i, Render(w)) && !Begins(w, c) && !At(src, i + |Render(w)|, c)
    ensures !At(src, i, c)
  {
    if Render(w) != "" {
      ShownAt(src, i, Render(w), 0);
    }
  }

  /** The run from i goes on from j with another stack, appending to both buffers. */
  ghost predicate Goes(src: string, i: nat, stack: seq<Mode>, j: nat, next: seq<Mode>, code: string, masked: string) {
    Lex(src, i, stack) == Prepend(code, masked, Lex(src, j, next))
  }

  lemma GoesNowhere(src: string, i: nat, stack: seq<Mode>)
    ensures Goes(src, i, stack, i, stack, "", "")
  {
    var r := Lex(src, i, stack);
    hide Lex;
    assert r.Lexed? ==> "" + r.code == r.code && "" + r.masked == r.masked;
  }

  lemma GoesOneTurn(src: string, i: nat, stack: seq<Mode>, t: Turn)
    requires i < |src| && Step(src, i, stack) == t && t.Turn?
    ensures Goes(src, i, stack, t.next, t.stack, t.code, t.masked)
  {
  }

  lemma GoesOn(src: string, i: nat, a: seq<Mode>, j: nat, b: seq<Mode>, k: nat, c: seq<Mode>,
               code1: string, masked1: string, code2: string, masked2: string)
    requires Goes(src, i, a, j, b, code1, masked1) && Goes(src, j, b, k, c, code2, masked2)
    ensures Goes(src, i, a, k, c, code1 + code2, masked1 + masked2)
  {
    hide Lex;
    PrependTwice(code1, masked1, code2, masked2, Lex(src, k, c));
  }

  lemma {:induction false} ErasedIsBlank(text: string)
    ensures Erased(text) == Blank(text)
  {
    if text != "" {
      ErasedIsBlank(text[1..]);
      assert Blank(text) == [if text[0] == '\n' then '\n' else ' '] + Blank(text[1..]);
    }
  }

  lemma {:induction false} LineEndIs(src: string, i: nat, j: nat)
    requires i <= j <= |src| && (j == |src| || src[j] == '\n') && forall k | i <= k < j :: src[k] != '\n'
    ensures LineEnd(src, i) == j
    decreases j - i
  {
    if i < j {
      LineEndIs(src, i + 1, j);
    }
  }

  lemma {:induction false} CloseIs(src: string, i: nat, j: nat)
    requires i <= j && j + 2 <= |src| && src[j] == '*' && src[j + 1] == '/'
    requires forall k | i <= k < j :: !(src[k] == '*' && src[k + 1] == '/')
    ensures CommentClose(src, i) == Some(j)
    decreases j - i
  {
    if i < j {
      CloseIs(src, i + 1, j);
    }
  }

  /** One character, as one turn. */
  lemma CharTurn(src: string, i: nat, stack: seq<Mode>, c: char, ctx: Option<Kind>)
    requires At(src, i, c) && TopIs(stack, ctx) && Ordinary(c, ctx)
    requires CodeIn(ctx) && c == '/' ==> !At(src, i + 1, '/') && !At(src, i + 1, '*')
    requires ctx == Some(InTpl) && c == '$' ==> !At(src, i + 1, '{')
    ensures Step(src, i, stack) == Turn(i + 1, stack, [c], [if CodeIn(ctx) then c else Masked(c, ctx.value)])
  {
  }

  lemma EscapeTurn(src: string, i: nat, stack: seq<Mode>, c: char, ctx: Option<Kind>)
    requires Shown(src, i, ['\\', c]) && TopIs(stack, ctx) && !CodeIn(ctx)
    ensures i < |src| && Step(src, i, stack) == Turn(i + 2, stack, ['\\', c], [' ', Masked(c, ctx.value)])
  {
    ShownAt(src, i, ['\\', c], 0);
    ShownAt(src, i, ['\\', c], 1);
  }

  lemma CommentStep(src: string, i: nat, stack: seq<Mode>)
    requires InCode(stack) && At(src, i, '/')
    ensures At(src, i + 1, '/') ==>
              i <= LineEnd(src, i)
              && Step(src, i, stack) == Turn(LineEnd(src, i), stack, Blank(src[i..LineEnd(src, i)]), Blank(src[i..LineEnd(src, i)]))
    ensures At(src, i + 1, '*') && CommentClose(src, i + 2).Some? ==>
              var j := CommentClose(src, i + 2).value + 2;
              Step(src, i, stack) == Turn(j, stack, Blank(src[i..j]), Blank(src[i..j]))
  {
    assert At(src, i + 1, '/') ==> LineEnd(src, i) == LineEnd(src, i + 1);
  }

  lemma TopInCode(stack: seq<Mode>, ctx: Option<Kind>)
    requires TopIs(stack, ctx)
    ensures InCode(stack) <==> CodeIn(ctx)
  {
  }

  lemma CommentShown(src: string, i: nat, stack: seq<Mode>, out: string)
    requires InCode(stack) && At(src, i, '/') && Shown(src, i, out)
    requires (At(src, i + 1, '/') && LineEnd(src, i) == i + |out|)
             || (At(src, i + 1, '*') && CommentClose(src, i + 2) == Some(i + |out| - 2))
    ensures Step(src, i, stack) == Turn(i + |out|, stack, Erased(out), Erased(out))
  {
    hide Step, LineEnd, CommentClose, Erased, Blank;
    CommentStep(src, i, stack);
    ErasedIsBlank(out);
  }

  lemma ShownLine(src: string, i: nat, text: string)
    requires Shown(src, i, "//" + text) && '\n' !in text
    requires i + 2 + |text| == |src| || src[i + 2 + |text|] == '\n'
    ensures At(src, i, '/') && At(src, i + 1, '/') && LineEnd(src, i) == i + 2 + |text|
  {
    var out := "//" + text;
    forall k | i <= k < i + |out| ensures src[k] == out[k - i] {
      ShownAt(src, i, out, k - i);
    }
    assert src[i] == out[0] && src[i + 1] == out[1];
    forall k | i <= k < i + |out| ensures src[k] != '\n' {
      assert k < i + 2 || out[k - i] == text[k - i - 2];
    }
    LineEndIs(src, i, i + |out|);
  }

  lemma LineTurn(src: string, i: nat, stack: seq<Mode>, text: string, ctx: Option<Kind>)
    requires Shown(src, i, "//" + text) && TopIs(stack, ctx) && CodeIn(ctx) && '\n' !in text
    requires i + 2 + |text| == |src| || src[i + 2 + |text|] == '\n'
    ensures i < |src| && Step(src, i, stack) == Turn(i + |"//" + text|, stack, Erased("//" + text), Erased("//" + text))
  {
    hide Step, CommentClose, Erased, Shown, TopIs, CodeIn, InCode, LineEnd;
    TopInCode(stack, ctx);
    ShownLine(src, i, text);
    CommentShown(src, i, stack, "//" + text);
  }

  lemma ShownBlock(src: string, i: nat, text: string)
    requires Shown(src, i, "/*" + text + "*/") && !HasClose(text)
    ensures At(src, i, '/') && At(src, i + 1, '*') && CommentClose(src, i + 2) == Some(i + 2 + |text|)
  {
    var out := "/*" + text + "*/";
    var j := i + 2 + |text|;
    forall k | i <= k < i + |out| ensures src[k] == out[k - i] {
      ShownAt(src, i, out, k - i);
    }
    assert src[i] == out[0] && src[i + 1] == out[1] && src[j] == out[2 + |text|] && src[j + 1] == out[3 + |text|];
    forall k | i + 2 <= k < j ensures !(src[k] == '*' && src[k + 1] == '/') {
      var m := k - i - 2;
      assert src[k] == out[m + 2] == text[m];
      assert src[k + 1] == out[m + 3];
      assert m + 1 < |text| ==> out[m + 3] == text[m + 1];
    }
    hide HasClose;
    CloseIs(src, i + 2, j);
  }

  lemma BlockTurn(src: string, i: nat, stack: seq<Mode>, text: string, ctx: Option<Kind>)
    requires Shown(src, i, "/*" + text + "*/") && TopIs(stack, ctx) && CodeIn(ctx) && !HasClose(text)
    ensures i < |src|
    ensures Step(src, i, stack)
         == Turn(i + |"/*" + text + "*/"|, stack, Erased("/*" + text + "*/"), Erased("/*" + text + "*/"))
  {
    hide Step, CommentClose, Erased, HasClose, Shown, TopIs, CodeIn, InCode, LineEnd;
    TopInCode(stack, ctx);
    ShownBlock(src, i, text);
    CommentShown(src, i, stack, "/*" + text + "*/");
  }

  /** The stack inside what nests. */
  function Pushed(stack: seq<Mode>, kind: Kind): seq<Mode>
    requires kind.Braces? ==> stack != [] && Last(stack).Expr?
  {
    match kind
    case InDq => stack + [Dq]
    case InSq => stack + [Sq]
    case InTpl => stack + [Tpl]
    case Hole => stack + [Expr(1)]
    case Braces => Init(stack) + [Expr(Last(stack).depth + 1)]
  }

  lemma OpenTurn(src: string, i: nat, stack: seq<Mode>, kind: Kind, ctx: Option<Kind>)
    requires Shown(src, i, Opener(kind)) && TopIs(stack, ctx) && MayNest(kind, ctx)
    ensures i < |src| && TopIs(Pushed(stack, kind), Some(kind))
    ensures Step(src, i, stack) == Turn(i + |Opener(kind)|, Pushed(stack, kind), Opener(kind), Opener(kind))
  {
    ShownAt(src, i, Opener(kind), 0);
    if kind.Hole? {
      ShownAt(src, i, Opener(kind), 1);
    }
  }

  function ModeOf(kind: Kind, stack: seq<Mode>): Mode
    requires kind.Braces? ==> stack != [] && Last(stack).Expr?
  {
    match kind
    case InDq => Dq
    case InSq => Sq
    case InTpl => Tpl
    case Hole => Expr(1)
    case Braces => Expr(Last(stack).depth + 1)
  }

  lemma PushedIs(stack: seq<Mode>, kind: Kind)
    requires kind.Braces? ==> stack != [] && Last(stack).Expr?
    ensures Pushed(stack, kind) != [] && Last(Pushed(stack, kind)) == ModeOf(kind, stack)
    ensures !kind.Braces? ==> Init(Pushed(stack, kind)) == stack
    ensures kind.Braces? ==> Init(Pushed(stack, kind)) + [Last(stack)] == stack
  {
    assert kind.Braces? ==> Init(stack) + [Last(stack)] == stack;
  }

  lemma CloseTurn(src: string, i: nat, stack: seq<Mode>, kind: Kind, ctx: Option<Kind>)
    requires At(src, i, Closer(kind)) && TopIs(stack, ctx) && MayNest(kind, ctx)
    ensures Step(src, i, Pushed(stack, kind)) == Turn(i + 1, stack, [Closer(kind)], [Closer(kind)])
  {
    PushedIs(stack, kind);
    if kind.Braces? {
      BraceCloses(src, i, Pushed(stack, kind), stack);
    } else {
      OthersClose(src, i, Pushed(stack, kind), stack, kind);
    }
  }

  lemma BraceCloses(src: string, i: nat, inside: seq<Mode>, stack: seq<Mode>)
    requires At(src, i, '}') && stack != [] && inside != [] && Last(stack).Expr? && Last(stack).depth >= 1
    requires Last(inside) == Expr(Last(stack).depth + 1) && Init(inside) + [Last(stack)] == stack
    ensures Step(src, i, inside) == Turn(i + 1, stack, "}", "}")
  {
    hide Last, Init;
    assert CodeChar(inside, '}') == Init(inside) + [Expr(Last(inside).depth - 1)];
  }

  lemma OthersClose(src: string, i: nat, inside: seq<Mode>, stack: seq<Mode>, kind: Kind)
    requires !kind.Braces? && At(src, i, Closer(kind)) && inside != []
    requires Last(inside) == ModeOf(kind, stack) && Init(inside) == stack
    ensures Step(src, i, inside) == Turn(i + 1, stack, [Closer(kind)], [Closer(kind)])
  {
    hide Last, Init;
  }

  /** What is nested ends at its closer, the whole at the end of the text. */
  predicate Follows(src: string, e: nat, ctx: Option<Kind>) {
    if ctx.None? then e == |src| else At(src, e, Closer(ctx.value))
  }

  lemma LexesEnd(src: string, i: nat, stack: seq<Mode>, w: Ts, ctx: Option<Kind>)
    requires w.End?
    ensures Goes(src, i, stack, i + |Render(w)|, stack, CodeOf(w), MaskedOf(w, ctx))
  {
    GoesNowhere(src, i, stack);
  }

  /** The lexer's run over a text as it is written, in whatever it is nested in, appends the
      text without comments, and the text without what strings hold. */
  lemma {:induction false} Lexes(src: string, i: nat, stack: seq<Mode>, w: Ts, ctx: Option<Kind>)
    requires Shown(src, i, Render(w)) && TopIs(stack, ctx) && WellFormed(w, ctx)
    requires Follows(src, i + |Render(w)|, ctx)
    ensures Goes(src, i, stack, i + |Render(w)|, stack, CodeOf(w), MaskedOf(w, ctx))
    decreases w, 1
  {
    hide Lex, Step, Goes, Shown, TopIs, WellFormed, Render, CodeOf, MaskedOf, Begins, Follows;
    if w.End? {
      LexesEnd(src, i, stack, w, ctx);
    } else if w.Nest? {
      LexesNest(src, i, stack, w, ctx);
    } else {
      var t := FirstPiece(src, i, stack, w, ctx);
      GoesOneTurn(src, i, stack, t);
      Lexes(src, t.next, stack, w.rest, ctx);
      GoesOn(src, i, stack, t.next, stack, i + |Render(w)|, stack, t.code, t.masked, CodeOf(w.rest), MaskedOf(w.rest, ctx));
    }
  }

  /** A piece that nests nothing is one turn, and the rest of the text follows it. */
  lemma FirstPiece(src: string, i: nat, stack: seq<Mode>, w: Ts, ctx: Option<Kind>) returns (t: Turn)
    requires Shown(src, i, Render(w)) && TopIs(stack, ctx) && WellFormed(w, ctx) && !w.End? && !w.Nest?
    requires Follows(src, i + |Render(w)|, ctx)
    ensures i < |src| && t.Turn? && Step(src, i, stack) == t && t.stack == stack
    ensures Shown(src, t.next, Render(w.rest)) && t.next + |Render(w.rest)| == i + |Render(w)|
    ensures CodeOf(w) == t.code + CodeOf(w.rest) && MaskedOf(w, ctx) == t.masked + MaskedOf(w.rest, ctx)
    ensures WellFormed(w.rest, ctx)
  {
    hide Step, Render, CodeOf, MaskedOf, WellFormed, CodeShown, MaskShown, Written, Follows, TopIs, Shown;
    PieceUnfolds(w, ctx);
    if w.Escape? {
      PieceCan(w, ctx);
    }
    var out := Written(w);
    WrittenIsSome(w);
    ShownParts(src, i, out, Render(w.rest));
    PieceTurn(src, i, stack, w, ctx);
    t := Step(src, i, stack);
  }

  lemma PieceCan(w: Ts, ctx: Option<Kind>)
    requires WellFormed(w, ctx) && w.Escape?
    ensures !CodeIn(ctx)
  {
  }

  lemma WrittenIsSome(w: Ts)
    requires !w.End? && !w.Nest?
    ensures |Written(w)| > 0
  {
  }

  lemma PieceTurn(src: string, i: nat, stack: seq<Mode>, w: Ts, ctx: Option<Kind>)
    requires !w.End? && !w.Nest? && WellFormed(w, ctx) && TopIs(stack, ctx)
    requires Shown(src, i, Written(w)) && Shown(src, i + |Written(w)|, Render(w.rest))
    requires Follows(src, i + |Written(w)| + |Render(w.rest)|, ctx)
    ensures i < |src| && Step(src, i, stack) == Turn(i + |Written(w)|, stack, CodeShown(w), MaskShown(w, ctx))
  {
    hide Step, Erased, Shown, HasClose, TopIs, Follows, WellFormed, Begins, Render, Masked, Ordinary;
    if w.Escape? {
      PieceCan(w, ctx);
    }
    match w {
      case Char(c, rest) => CharPiece(src, i, stack, c, rest, ctx);
      case Escape(c, rest) => EscapeTurn(src, i, stack, c, ctx);
      case Line(text, rest) => LinePiece(src, i, stack, text, rest, ctx);
      case Block(text, rest) => BlockPiece(src, i, stack, text, rest, ctx);
    }
  }

  lemma BlockPiece(src: string, i: nat, stack: seq<Mode>, text: string, rest: Ts, ctx: Option<Kind>)
    requires WellFormed(Block(text, rest), ctx) && TopIs(stack, ctx) && Shown(src, i, "/*" + text + "*/")
    ensures i < |src|
    ensures Step(src, i, stack)
         == Turn(i + |"/*" + text + "*/"|, stack, Erased("/*" + text + "*/"), Erased("/*" + text + "*/"))
  {
    hide Step, Erased, Shown, HasClose, TopIs;
    BlockTurn(src, i, stack, text, ctx);
  }

  lemma LinePiece(src: string, i: nat, stack: seq<Mode>, text: string, rest: Ts, ctx: Option<Kind>)
    requires WellFormed(Line(text, rest), ctx) && TopIs(stack, ctx)
    requires Shown(src, i, "//" + text) && Shown(src, i + |"//" + text|, Render(rest))
    requires Follows(src, i + |"//" + text| + |Render(rest)|, ctx)
    ensures i < |src|
    ensures Step(src, i, stack) == Turn(i + |"//" + text|, stack, Erased("//" + text), Erased("//" + text))
  {
    hide Step, Erased, TopIs;
    LineFollows(src, i + |"//" + text|, rest, ctx);
    hide Shown, Follows, Begins;
    LineTurn(src, i, stack, text, ctx);
  }

  lemma CharPiece(src: string, i: nat, stack: seq<Mode>, c: char, rest: Ts, ctx: Option<Kind>)
    requires WellFormed(Char(c, rest), ctx) && TopIs(stack, ctx)
    requires Shown(src, i, [c]) && Shown(src, i + 1, Render(rest)) && Follows(src, i + 1 + |Render(rest)|, ctx)
    ensures At(src, i, c)
    ensures Step(src, i, stack) == Turn(i + 1, stack, [c], [if CodeIn(ctx) then c else Masked(c, ctx.value)])
  {
    hide Step, Render;
    ShownAt(src, i, [c], 0);
    if CodeIn(ctx) && c == '/' {
      CharFollows(src, i + 1, rest, ctx, '/');
      CharFollows(src, i + 1, rest, ctx, '*');
    }
    if ctx == Some(InTpl) && c == '$' {
      CharFollows(src, i + 1, rest, ctx, '{');
    }
    CharTurn(src, i, stack, c, ctx);
  }

  lemma LineFollows(src: string, j: nat, rest: Ts, ctx: Option<Kind>)
    requires Shown(src, j, Render(rest)) && Follows(src, j + |Render(rest)|, ctx)
    requires Begins(rest, '\n') || (rest.End? && ctx.None?)
    ensures j == |src| || src[j] == '\n'
  {
    if !rest.End? {
      ShownAt(src, j, Render(rest), 0);
    }
  }

  function CodeShown(w: Ts): string
    requires !w.End? && !w.Nest?
  {
    if w.Line? || w.Block? then Erased(Written(w)) else Written(w)
  }

  function MaskShown(w: Ts, ctx: Option<Kind>): string
    requires !w.End? && !w.Nest? && (w.Escape? ==> !CodeIn(ctx))
  {
    match w
    case Char(c, _) => [if CodeIn(ctx) then c else Masked(c, ctx.value)]
    case Escape(c, _) => [' ', Masked(c, ctx.value)]
    case _ => Erased(Written(w))
  }

  lemma PieceUnfolds(w: Ts, ctx: Option<Kind>)
    requires !w.End? && !w.Nest? && WellFormed(w, ctx)
    ensures Render(w) == Written(w) + Render(w.rest) && WellFormed(w.rest, ctx)
    ensures CodeOf(w) == CodeShown(w) + CodeOf(w.rest) && MaskedOf(w, ctx) == MaskShown(w, ctx) + MaskedOf(w.rest, ctx)
  {
  }

  function Written(w: Ts): string
    requires !w.End? && !w.Nest?
  {
    match w
    case Char(c, _) => [c]
    case Escape(c, _) => ['\\', c]
    case Line(text, _) => "//" + text
    case Block(text, _) => "/*" + text + "*/"
  }

  /** Unless the rest of what is nested begins with it, such a character does not follow. */
  lemma CharFollows(src: string, j: nat, rest: Ts, ctx: Option<Kind>, c: char)
    requires Shown(src, j, Render(rest)) && !Begins(rest, c) && c in {'/', '*', '{'}
    requires Follows(src, j + |Render(rest)|, ctx)
    ensures !At(src, j, c)
  {
    NextIs(src, j, rest, c);
  }

  /** What nests opens with one turn and closes with another. */
  lemma {:induction false} LexesNest(src: string, i: nat, stack: seq<Mode>, w: Ts, ctx: Option<Kind>)
    requires Shown(src, i, Render(w)) && TopIs(stack, ctx) && WellFormed(w, ctx) && w.Nest?
    requires Follows(src, i + |Render(w)|, ctx)
    ensures Goes(src, i, stack, i + |Render(w)|, stack, CodeOf(w), MaskedOf(w, ctx))
    decreases w, 0
  {
    hide Lex, Step, Goes, Shown, TopIs, WellFormed, Render, CodeOf, MaskedOf, Begins, Opener, Closer, Pushed;
    var open, close := NestTurns(src, i, stack, w, ctx);
    var inside := Pushed(stack, w.kind);
    var o, c := Opener(w.kind), [Closer(w.kind)];
    GoesOneTurn(src, i, stack, Turn(open, inside, o, o));
    Lexes(src, open, inside, w.inner, Some(w.kind));
    GoesOneTurn(src, close, inside, Turn(close + 1, stack, c, c));
    Lexes(src, close + 1, stack, w.rest, ctx);
    GoesAround(src, i, stack, open, inside, close, i + |Render(w)|, o, c, CodeOf(w.inner),
               MaskedOf(w.inner, Some(w.kind)), CodeOf(w.rest), MaskedOf(w.rest, ctx));
    NestUnfolds(w, ctx);
  }

  lemma GoesAround(src: string, i: nat, stack: seq<Mode>, open: nat, inside: seq<Mode>, close: nat, e: nat,
                   o: string, c: string, code: string, masked: string, code': string, masked': string)
    requires Goes(src, i, stack, open, inside, o, o) && Goes(src, open, inside, close, inside, code, masked)
    requires Goes(src, close, inside, close + 1, stack, c, c) && Goes(src, close + 1, stack, e, stack, code', masked')
    ensures Goes(src, i, stack, e, stack, (o + (code + c)) + code', (o + (masked + c)) + masked')
  {
    hide Goes;
    GoesOn(src, open, inside, close, inside, close + 1, stack, code, masked, c, c);
    GoesOn(src, i, stack, open, inside, close + 1, stack, o, o, code + c, masked + c);
    GoesOn(src, i, stack, close + 1, stack, e, stack, o + (code + c), o + (masked + c), code', masked');
  }

  lemma NestUnfolds(w: Ts, ctx: Option<Kind>)
    requires w.Nest?
    ensures Render(w) == (Opener(w.kind) + (Render(w.inner) + [Closer(w.kind)])) + Render(w.rest)
    ensures CodeOf(w) == (Opener(w.kind) + (CodeOf(w.inner) + [Closer(w.kind)])) + CodeOf(w.rest)
    ensures MaskedOf(w, ctx)
         == (Opener(w.kind) + (MaskedOf(w.inner, Some(w.kind)) + [Closer(w.kind)])) + MaskedOf(w.rest, ctx)
    ensures WellFormed(w, ctx) ==> MayNest(w.kind, ctx) && WellFormed(w.inner, Some(w.kind)) && WellFormed(w.rest, ctx)
  {
  }

  lemma NestTurns(src: string, i: nat, stack: seq<Mode>, w: Ts, ctx: Option<Kind>) returns (open: nat, close: nat)
    requires Shown(src, i, Render(w)) && TopIs(stack, ctx) && WellFormed(w, ctx) && w.Nest?
    ensures open == i + |Opener(w.kind)| && close == open + |Render(w.inner)| && i < |src| && close < |src|
    ensures w.kind.Braces? ==> stack != [] && Last(stack).Expr?
    ensures var inside := Pushed(stack, w.kind);
            && Step(src, i, stack) == Turn(open, inside, Opener(w.kind), Opener(w.kind))
            && Step(src, close, inside) == Turn(close + 1, stack, [Closer(w.kind)], [Closer(w.kind)])
            && TopIs(inside, Some(w.kind))
    ensures Shown(src, open, Render(w.inner)) && At(src, close, Closer(w.kind))
    ensures Shown(src, close + 1, Render(w.rest)) && close + 1 + |Render(w.rest)| == i + |Render(w)|
    ensures WellFormed(w.inner, Some(w.kind)) && WellFormed(w.rest, ctx)
  {
    hide Step, Render, WellFormed, CodeOf, MaskedOf, Opener, Closer, Pushed, Shown;
    NestUnfolds(w, ctx);
    open := i + |Opener(w.kind)|;
    close := open + |Render(w.inner)|;
    NestShown(src, i, w, open, close);
    OpenTurn(src, i, stack, w.kind, ctx);
    CloseTurn(src, close, stack, w.kind, ctx);
  }

  lemma NestShown(src: string, i: nat, w: Ts, open: nat, close: nat)
    requires w.Nest? && Shown(src, i, Render(w)) && open == i + |Opener(w.kind)| && close == open + |Render(w.inner)|
    ensures Shown(src, i, Opener(w.kind)) && Shown(src, open, Render(w.inner)) && At(src, close, Closer(w.kind))
    ensures Shown(src, close + 1, Render(w.rest)) && close + 1 + |Render(w.rest)| == i + |Render(w)|
  {
    hide Render, CodeOf, MaskedOf, WellFormed, Opener, Closer;
    NestUnfolds(w, None);
    ShownParts(src, i, Opener(w.kind) + (Render(w.inner) + [Closer(w.kind)]), Render(w.rest));
    ShownParts(src, i, Opener(w.kind), Render(w.inner) + [Closer(w.kind)]);
    ShownParts(src, open, Render(w.inner), [Closer(w.kind)]);
    ShownAt(src, close, [Closer(w.kind)], 0);
  }

  lemma LexAtEnd(src: string)
    ensures Lex(src, |src|, []) == Lexed("", "")
  {
  }

  /** Every text that is written so is read so: comments, and nothing else, are blank in the
      one output, and what strings hold besides in the other. */
  lemma TextIsRead(w: Ts)
    requires WellFormed(w, None)
    ensures Lex(Render(w), 0, []) == Lexed(CodeOf(w), MaskedOf(w, None))
  {
    hide Lex, Render, CodeOf, MaskedOf, WellFormed;
    var src := Render(w);
    assert src[0..|src|] == src;
    Lexes(src, 0, [], w, None);
    LexAtEnd(src);
    assert CodeOf(w) + "" == CodeOf(w) && MaskedOf(w, None) + "" == MaskedOf(w, None);
  }

  // ----- and every text it accepts is one -----

  /** What an expression is nested in, by its brace depth, and what a stack is, outermost first. */
  function ExprKinds(depth: int): seq<Kind>
    decreases depth
  {
    if depth <= 1 then [Hole] else ExprKinds(depth - 1) + [Braces]
  }

  function KindsOf(stack: seq<Mode>): seq<Kind> {
    if stack == [] then []
    else
      KindsOf(Init(stack))
      + match Last(stack)
        case Dq => [InDq]
        case Sq => [InSq]
        case Tpl => [InTpl]
        case Expr(depth) => ExprKinds(depth)
  }

  /** Strings open in code, expressions in templates. */
  predicate Regular(stack: seq<Mode>) {
    stack == []
    || (Regular(Init(stack))
        && match Last(stack)
           case Expr(depth) => depth >= 1 && Init(stack) != [] && Last(Init(stack)).Tpl?
           case _ => InCode(Init(stack)))
  }

  function Ctx(stack: seq<Mode>): Option<Kind> {
    if KindsOf(stack) == [] then None else Some(Last(KindsOf(stack)))
  }

  lemma TopIsCtx(stack: seq<Mode>)
    requires Regular(stack)
    ensures TopIs(stack, Ctx(stack))
  {
    if stack != [] && Last(stack).Expr? {
      assert Last(ExprKinds(Last(stack).depth)) == Last(KindsOf(stack));
    }
  }

  lemma KindsPushed(stack: seq<Mode>, kind: Kind)
    requires Regular(stack) && MayNest(kind, Ctx(stack)) && (kind.Braces? ==> stack != [] && Last(stack).Expr?)
    ensures Regular(Pushed(stack, kind)) && KindsOf(Pushed(stack, kind)) == KindsOf(stack) + [kind]
  {
    TopIsCtx(stack);
    PushedIs(stack, kind);
    if kind.Braces? {
      BracesPushed(stack, Pushed(stack, kind));
    } else {
      OthersPushed(stack, Pushed(stack, kind), kind);
    }
  }

  lemma BracesPushed(stack: seq<Mode>, inside: seq<Mode>)
    requires stack != [] && inside != [] && Last(stack).Expr? && Regular(stack)
    requires Last(inside) == Expr(Last(stack).depth + 1) && Init(inside) + [Last(stack)] == stack
    ensures Regular(inside) && KindsOf(inside) == KindsOf(stack) + [Braces]
  {
    assert Init(stack) == Init(inside);
    var d := Last(stack).depth;
    RegularStep(stack);
    hide Last, Init;
    assert ExprKinds(d + 1) == ExprKinds(d) + [Braces];
    AppendAssociates(KindsOf(Init(stack)), ExprKinds(d), [Braces]);
  }

  lemma RegularStep(stack: seq<Mode>)
    requires stack != [] && Regular(stack) && Last(stack).Expr?
    ensures Last(stack).depth >= 1 && Init(stack) != [] && Last(Init(stack)).Tpl? && Regular(Init(stack))
  {
  }

  lemma OthersPushed(stack: seq<Mode>, inside: seq<Mode>, kind: Kind)
    requires Regular(stack) && !kind.Braces? && inside != [] && TopIs(stack, Ctx(stack)) && MayNest(kind, Ctx(stack))
    requires Last(inside) == ModeOf(kind, stack) && Init(inside) == stack
    ensures Regular(inside) && KindsOf(inside) == KindsOf(stack) + [kind]
  {
    var ctx := Ctx(stack);
    TopInCode(stack, ctx);
    hide Last, Init, Ctx;
  }

  /** What is left of each level: one text each, outermost first, with the closers between. */
  function Remaining(kinds: seq<Kind>, ws: seq<Ts>): string
    requires |ws| == |kinds| + 1
    decreases |kinds|
  {
    Render(Last(ws)) + if kinds == [] then "" else [Closer(Last(kinds))] + Remaining(Init(kinds), Init(ws))
  }

  predicate AllWellFormed(kinds: seq<Kind>, ws: seq<Ts>)
    requires |ws| == |kinds| + 1
  {
    forall k | 0 <= k < |ws| :: WellFormed(ws[k], LevelOf(kinds, k))
  }

  function LevelOf(kinds: seq<Kind>, k: nat): Option<Kind>
    requires k <= |kinds|
  {
    if k == 0 then None else Some(kinds[k - 1])
  }

  /** The texts are what src holds from i on, in that stack. */
  ghost predicate Holds(src: string, i: nat, kinds: seq<Kind>, ws: seq<Ts>) {
    i <= |src| && |ws| == |kinds| + 1 && AllWellFormed(kinds, ws) && src[i..] == Remaining(kinds, ws)
  }

  /** One piece more at the front. */
  lemma HoldsPiece(src: string, i: nat, j: nat, kinds: seq<Kind>, ws: seq<Ts>, w: Ts) returns (all: seq<Ts>)
    requires i <= j && Holds(src, j, kinds, ws) && WellFormed(w, LevelOf(kinds, |kinds|))
    requires Render(w) == src[i..j] + Render(Last(ws))
    ensures Holds(src, i, kinds, all)
  {
    hide Render, WellFormed;
    all := Init(ws) + [w];
    assert Init(all) == Init(ws) && Last(all) == w;
    assert src[i..] == src[i..j] + src[j..];
    var rest := if kinds == [] then "" else [Closer(Last(kinds))] + Remaining(Init(kinds), Init(ws));
    AppendAssociates(src[i..j], Render(Last(ws)), rest);
  }

  /** What the texts begin with is what src shows there. */
  lemma HoldsBegins(src: string, i: nat, kinds: seq<Kind>, ws: seq<Ts>, c: char)
    requires Holds(src, i, kinds, ws) && Begins(Last(ws), c)
    ensures At(src, i, c)
  {
    assert src[i..][0] == Render(Last(ws))[0];
  }

  /** Where a closer was read, its level begins anew and empty. */
  lemma HoldsClosed(src: string, i: nat, kinds: seq<Kind>, kind: Kind, ws: seq<Ts>)
    requires Holds(src, i + 1, kinds, ws) && At(src, i, Closer(kind))
    ensures Holds(src, i, kinds + [kind], ws + [End])
  {
    ClosedRemains(kinds, kind, ws);
    assert src[i..] == [src[i]] + src[i + 1..];
    hide Closer, Remaining, WellFormed;
    EndWellFormed(Some(kind));
    forall k | 0 <= k < |ws + [End]| ensures WellFormed((ws + [End])[k], LevelOf(kinds + [kind], k)) {
      assert k < |ws| ==> WellFormed(ws[k], LevelOf(kinds, k)) && LevelOf(kinds + [kind], k) == LevelOf(kinds, k);
    }
  }

  lemma EndWellFormed(ctx: Option<Kind>)
    ensures WellFormed(End, ctx)
  {
  }

  lemma ClosedRemains(kinds: seq<Kind>, kind: Kind, ws: seq<Ts>)
    requires |ws| == |kinds| + 1
    ensures Remaining(kinds + [kind], ws + [End]) == [Closer(kind)] + Remaining(kinds, ws)
  {
    var all := ws + [End];
    assert Init(all) == ws && Last(all) == End && Init(kinds + [kind]) == kinds && Last(kinds + [kind]) == kind;
    assert Render(End) == "";
    hide Render, Closer;
    assert "" + ([Closer(kind)] + Remaining(kinds, ws)) == [Closer(kind)] + Remaining(kinds, ws);
  }

  /** Where one was opened, two levels become one piece of the outer. */
  lemma HoldsOpened(src: string, i: nat, kinds: seq<Kind>, kind: Kind, ws: seq<Ts>) returns (all: seq<Ts>)
    requires Shown(src, i, Opener(kind)) && Holds(src, i + |Opener(kind)|, kinds + [kind], ws)
    requires MayNest(kind, LevelOf(kinds, |kinds|))
    ensures Holds(src, i, kinds, all)
  {
    var w := Nest(kind, Last(ws), Last(Init(ws)));
    all := Init(Init(ws)) + [w];
    var j := i + |Opener(kind)|;
    assert src[i..] == src[i..j] + src[j..];
    NestRemains(kinds, kind, ws, w);
    OpenedWellFormed(kinds, kind, ws, w);
    hide Opener, Remaining, AllWellFormed;
  }

  lemma OpenedWellFormed(kinds: seq<Kind>, kind: Kind, ws: seq<Ts>, w: Ts)
    requires |ws| == |kinds| + 2 && w == Nest(kind, Last(ws), Last(Init(ws))) && AllWellFormed(kinds + [kind], ws)
    requires MayNest(kind, LevelOf(kinds, |kinds|))
    ensures AllWellFormed(kinds, Init(Init(ws)) + [w])
  {
    hide WellFormed, MayNest;
    var all := Init(Init(ws)) + [w];
    assert WellFormed(ws[|kinds| + 1], LevelOf(kinds + [kind], |kinds| + 1));
    assert WellFormed(ws[|kinds|], LevelOf(kinds + [kind], |kinds|));
    assert LevelOf(kinds + [kind], |kinds|) == LevelOf(kinds, |kinds|);
    NestWellFormed(w, LevelOf(kinds, |kinds|));
    forall k | 0 <= k < |all| ensures WellFormed(all[k], LevelOf(kinds, k)) {
      assert WellFormed(ws[k], LevelOf(kinds + [kind], k));
      assert k < |kinds| ==> all[k] == ws[k] && LevelOf(kinds + [kind], k) == LevelOf(kinds, k);
    }
  }

  lemma NestWellFormed(w: Ts, ctx: Option<Kind>)
    requires w.Nest? && MayNest(w.kind, ctx) && WellFormed(w.inner, Some(w.kind)) && WellFormed(w.rest, ctx)
    ensures WellFormed(w, ctx)
  {
  }

  lemma NestRemains(kinds: seq<Kind>, kind: Kind, ws: seq<Ts>, w: Ts)
    requires |ws| == |kinds| + 2 && w == Nest(kind, Last(ws), Last(Init(ws)))
    ensures Remaining(kinds, Init(Init(ws)) + [w]) == Opener(kind) + Remaining(kinds + [kind], ws)
  {
    NestUnfolds(w, None);
    var outer := Init(ws);
    var all := Init(outer) + [w];
    assert Init(all) == Init(outer) && Last(all) == w && Init(kinds + [kind]) == kinds && Last(kinds + [kind]) == kind;
    var tail := if kinds == [] then "" else [Closer(Last(kinds))] + Remaining(Init(kinds), Init(outer));
    var o, a, c, b := Opener(kind), Render(w.inner), [Closer(kind)], Render(w.rest);
    assert Remaining(kinds, all) == Render(w) + tail;
    assert Remaining(kinds, outer) == b + tail;
    assert Remaining(kinds + [kind], ws) == a + (c + Remaining(kinds, outer));
    hide Render, Opener, Closer, Remaining;
    FiveParts(o, a, c, b, tail);
  }

  lemma FiveParts(o: string, a: string, c: string, b: string, tail: string)
    ensures ((o + (a + c)) + b) + tail == o + (a + (c + (b + tail)))
  {
  }

  // ----- one turn of any run -----

  /** What a turn reads: a piece that nests nothing, an opener, or a closer. */
  datatype Move = Piece(w: Ts) | Opens(kind: Kind) | Closes(kind: Kind)

  predicate PieceAt(src: string, next: nat, w: Ts, ctx: Option<Kind>)
    requires next <= |src|
  {
    match w
    case Char(c, _) =>
      Ordinary(c, ctx)
      && (CodeIn(ctx) && c == '/' ==> !At(src, next, '/') && !At(src, next, '*'))
      && (ctx == Some(InTpl) && c == '$' ==> !At(src, next, '{'))
    case Escape(_, _) => !CodeIn(ctx)
    case Line(text, _) => CodeIn(ctx) && '\n' !in text && (next == |src| || src[next] == '\n')
    case Block(text, _) => CodeIn(ctx) && !HasClose(text)
    case _ => false
  }

  predicate Nestable(stack: seq<Mode>, kind: Kind) {
    Regular(stack) && MayNest(kind, Ctx(stack)) && (kind.Braces? ==> stack != [] && Last(stack).Expr?)
  }

  predicate MoveIs(src: string, i: nat, stack: seq<Mode>, next: nat, after: seq<Mode>, m: Move) {
    i < next <= |src|
    && match m
       case Piece(w) =>
         after == stack && PieceAt(src, next, w, Ctx(stack)) && Written(w) == src[i..next]
       case Opens(kind) =>
         Nestable(stack, kind) && Shown(src, i, Opener(kind)) && next == i + |Opener(kind)| && after == Pushed(stack, kind)
       case Closes(kind) =>
         Nestable(after, kind) && At(src, i, Closer(kind)) && next == i + 1 && stack == Pushed(after, kind)
  }

  lemma {:induction false} NoNewline(src: string, i: nat, k: nat)
    requires i <= |src| && i <= k < LineEnd(src, i)
    ensures src[k] != '\n'
    decreases k - i
  {
    if i < k {
      NoNewline(src, i + 1, k);
    }
  }

  lemma {:induction false} LineStops(src: string, i: nat)
    requires i <= |src|
    ensures LineEnd(src, i) == |src| || src[LineEnd(src, i)] == '\n'
    decreases |src| - i
  {
    if i < |src| && src[i] != '\n' {
      LineStops(src, i + 1);
    }
  }

  lemma {:induction false} FirstClose(src: string, i: nat, k: nat)
    requires CommentClose(src, i).Some? && i <= k < CommentClose(src, i).value
    ensures !(src[k] == '*' && src[k + 1] == '/')
    decreases k - i
  {
    if i < k {
      FirstClose(src, i + 1, k);
    }
  }

  lemma {:induction false} IsClose(src: string, i: nat)
    requires CommentClose(src, i).Some?
    ensures var j := CommentClose(src, i).value; src[j] == '*' && src[j + 1] == '/'
    decreases |src| - i
  {
    if !(src[i] == '*' && src[i + 1] == '/') {
      IsClose(src, i + 1);
    }
  }

  lemma LineMove(src: string, i: nat, stack: seq<Mode>) returns (m: Move)
    requires Regular(stack) && InCode(stack) && At(src, i, '/') && At(src, i + 1, '/')
    ensures MoveIs(src, i, stack, LineEnd(src, i), stack, m)
  {
    TopIsCtx(stack);
    TopInCode(stack, Ctx(stack));
    var j := LineEnd(src, i);
    assert j == LineEnd(src, i + 1) == LineEnd(src, i + 2);
    LineStops(src, i);
    var text := src[i + 2..j];
    forall k | 0 <= k < |text| ensures text[k] != '\n' {
      NoNewline(src, i + 2, i + 2 + k);
    }
    hide LineEnd;
    m := Piece(Line(text, End));
    assert "//" + text == src[i..j];
  }

  lemma BlockMove(src: string, i: nat, stack: seq<Mode>) returns (m: Move)
    requires Regular(stack) && InCode(stack) && At(src, i, '/') && At(src, i + 1, '*') && CommentClose(src, i + 2).Some?
    ensures MoveIs(src, i, stack, CommentClose(src, i + 2).value + 2, stack, m)
  {
    TopIsCtx(stack);
    TopInCode(stack, Ctx(stack));
    hide CommentClose, HasClose, Regular, Ctx, TopIs, InCode, CodeIn;
    var j := CommentClose(src, i + 2).value;
    IsClose(src, i + 2);
    var text := src[i + 2..j];
    NoEarlierClose(src, i + 2, text);
    m := Piece(Block(text, End));
    assert "/*" + text + "*/" == src[i..j + 2];
  }

  lemma NoEarlierClose(src: string, i: nat, text: string)
    requires CommentClose(src, i).Some? && i <= CommentClose(src, i).value && text == src[i..CommentClose(src, i).value]
    ensures !HasClose(text)
  {
    forall k | 0 <= k < |text| - 1 ensures !(text[k] == '*' && text[k + 1] == '/') {
      FirstClose(src, i, i + k);
    }
  }

  lemma OneShown(src: string, i: nat)
    requires i < |src|
    ensures src[i..i + 1] == [src[i]]
    ensures i + 2 <= |src| ==> src[i..i + 2] == [src[i], src[i + 1]]
  {
  }

  /** In code, past the comments. */
  lemma CodeMove(src: string, i: nat, stack: seq<Mode>) returns (m: Move)
    requires i < |src| && Regular(stack) && InCode(stack)
    requires At(src, i, '/') ==> !At(src, i + 1, '/') && !At(src, i + 1, '*')
    ensures MoveIs(src, i, stack, i + 1, CodeChar(stack, src[i]), m)
  {
    TopIsCtx(stack);
    TopInCode(stack, Ctx(stack));
    OneShown(src, i);
    var c := src[i];
    if c in {'"', '\'', '`'} {
      m := Opens(if c == '"' then InDq else if c == '\'' then InSq else InTpl);
    } else if stack != [] && c == '{' {
      m := Opens(Braces);
    } else if stack != [] && c == '}' {
      m := Closes(if Last(stack).depth == 1 then Hole else Braces);
      BraceOpened(stack, CodeChar(stack, c));
    } else {
      m := Piece(Char(c, End));
    }
  }

  /** The stack before a closing brace is what opening one made of the stack after it. */
  lemma BraceOpened(stack: seq<Mode>, after: seq<Mode>)
    requires Regular(stack) && stack != [] && Last(stack).Expr?
    requires after == if Last(stack).depth == 1 then Init(stack) else Init(stack) + [Expr(Last(stack).depth - 1)]
    ensures var kind := if Last(stack).depth == 1 then Hole else Braces;
            Nestable(after, kind) && stack == Pushed(after, kind)
  {
    RegularStep(stack);
    assert stack == Init(stack) + [Last(stack)];
    if Last(stack).depth == 1 {
      TopIsCtx(after);
    } else {
      assert Init(after) == Init(stack) && Last(after) == Expr(Last(stack).depth - 1);
      TopIsCtx(after);
    }
  }

  lemma TplMove(src: string, i: nat, stack: seq<Mode>) returns (m: Move)
    requires i < |src| && Regular(stack) && stack != [] && Last(stack).Tpl?
    requires Step(src, i, stack).Turn? && Step(src, i, stack).next <= |src|
    ensures MoveIs(src, i, stack, Step(src, i, stack).next, Step(src, i, stack).stack, m)
  {
    TopIsCtx(stack);
    TopInCode(stack, Ctx(stack));
    OneShown(src, i);
    var c := src[i];
    if c == '\\' {
      m := Piece(Escape(src[i + 1], End));
    } else if c == '`' {
      m := Closes(InTpl);
      QuoteOpened(stack, InTpl);
    } else if c == '$' && At(src, i + 1, '{') {
      m := Opens(Hole);
    } else {
      m := Piece(Char(c, End));
    }
  }

  lemma QuoteOpened(stack: seq<Mode>, kind: Kind)
    requires Regular(stack) && stack != [] && !kind.Hole? && !kind.Braces? && Last(stack) == ModeOf(kind, stack)
    ensures Nestable(Init(stack), kind) && stack == Pushed(Init(stack), kind)
  {
    assert stack == Init(stack) + [Last(stack)];
    TopIsCtx(Init(stack));
    TopInCode(Init(stack), Ctx(Init(stack)));
  }

  lemma StringMove(src: string, i: nat, stack: seq<Mode>) returns (m: Move)
    requires i < |src| && Regular(stack) && stack != [] && (Last(stack).Dq? || Last(stack).Sq?)
    requires Step(src, i, stack).Turn? && Step(src, i, stack).next <= |src|
    ensures MoveIs(src, i, stack, Step(src, i, stack).next, Step(src, i, stack).stack, m)
  {
    TopIsCtx(stack);
    OneShown(src, i);
    var c := src[i];
    var kind := if Last(stack).Dq? then InDq else InSq;
    StringCtx(stack, kind);
    QuoteOpened(stack, kind);
    hide Regular, KindsOf, Ctx, TopIs, Nestable, Pushed;
    if c == '\\' {
      m := Piece(Escape(src[i + 1], End));
    } else if c == Closer(kind) {
      m := Closes(kind);
    } else {
      m := Piece(Char(c, End));
    }
  }

  lemma StringCtx(stack: seq<Mode>, kind: Kind)
    requires TopIs(stack, Ctx(stack)) && stack != [] && !kind.Braces? && Last(stack) == ModeOf(kind, stack) && !kind.Hole?
    ensures Ctx(stack) == Some(kind)
  {
  }

  lemma AnyMove(src: string, i: nat, stack: seq<Mode>) returns (m: Move)
    requires i < |src| && Regular(stack) && Step(src, i, stack).Turn? && Step(src, i, stack).next <= |src|
    ensures MoveIs(src, i, stack, Step(src, i, stack).next, Step(src, i, stack).stack, m)
  {
    hide MoveIs, LineEnd, CommentClose, Regular, CodeChar;
    if InCode(stack) {
      if At(src, i, '/') && (At(src, i + 1, '/') || At(src, i + 1, '*')) {
        CommentStep(src, i, stack);
        if At(src, i + 1, '/') {
          m := LineMove(src, i, stack);
        } else {
          m := BlockMove(src, i, stack);
        }
      } else {
        m := CodeMove(src, i, stack);
      }
    } else if Last(stack).Tpl? {
      m := TplMove(src, i, stack);
    } else {
      m := StringMove(src, i, stack);
    }
  }

  // ----- and so all of it -----

  function Before(w: Ts, rest: Ts): Ts
    requires w.Char? || w.Escape? || w.Line? || w.Block?
  {
    match w
    case Char(c, _) => Char(c, rest)
    case Escape(c, _) => Escape(c, rest)
    case Line(text, _) => Line(text, rest)
    case Block(text, _) => Block(text, rest)
  }

  lemma NothingRemains(kinds: seq<Kind>, ws: seq<Ts>)
    requires |ws| == |kinds| + 1 && Remaining(kinds, ws) == ""
    ensures kinds == [] && Last(ws).End?
  {
  }

  lemma NewlineRemains(kinds: seq<Kind>, ws: seq<Ts>)
    requires |ws| == |kinds| + 1
    ensures Begins(Last(ws), '\n') || Remaining(kinds, ws) == "" || Remaining(kinds, ws)[0] != '\n'
  {
    if Render(Last(ws)) == "" && kinds != [] {
      assert Remaining(kinds, ws)[0] == Closer(Last(kinds));
    }
  }

  lemma PieceBefore(src: string, i: nat, next: nat, kinds: seq<Kind>, ws: seq<Ts>, w: Ts) returns (all: seq<Ts>)
    requires i < next <= |src| && Holds(src, next, kinds, ws) && PieceAt(src, next, w, LevelOf(kinds, |kinds|))
    requires Written(w) == src[i..next]
    ensures Holds(src, i, kinds, all)
  {
    var ctx, rest := LevelOf(kinds, |kinds|), Last(ws);
    assert WellFormed(rest, ctx);
    var full := Before(w, rest);
    if w.Line? {
      if next == |src| {
        NothingRemains(kinds, ws);
      } else {
        assert src[next..][0] == '\n';
        NewlineRemains(kinds, ws);
      }
    }
    if w.Char? {
      NotBegun(src, next, kinds, ws, '/');
      NotBegun(src, next, kinds, ws, '*');
      NotBegun(src, next, kinds, ws, '{');
    }
    hide Holds, Begins, HasClose, At, Remaining;
    assert Render(full) == Written(w) + Render(rest);
    assert WellFormed(full, ctx);
    all := HoldsPiece(src, i, next, kinds, ws, full);
  }

  lemma NotBegun(src: string, i: nat, kinds: seq<Kind>, ws: seq<Ts>, c: char)
    requires Holds(src, i, kinds, ws)
    ensures !At(src, i, c) ==> !Begins(Last(ws), c)
  {
    if Begins(Last(ws), c) {
      HoldsBegins(src, i, kinds, ws, c);
    }
  }

  lemma {:induction false} EveryRun(src: string, i: nat, stack: seq<Mode>) returns (ws: seq<Ts>)
    requires i <= |src| && Lex(src, i, stack).Lexed? && Regular(stack)
    ensures Holds(src, i, KindsOf(stack), ws)
    decreases |src| - i
  {
    if i == |src| {
      ws := [End];
      assert stack == [] && src[i..] == "" == Remaining([], ws);
    } else {
      NextTurn(src, i, stack);
      var t := Step(src, i, stack);
      var m := AnyMove(src, i, stack);
      hide Step, Lex, Holds, KindsOf, Regular, Pushed, PieceAt, Opener, Closer, Written, Ctx, MayNest, Shown, At, LevelOf;
      match m {
        case Piece(w) =>
          ws := EveryRun(src, t.next, stack);
          CtxIsLevel(stack);
          ws := PieceBefore(src, i, t.next, KindsOf(stack), ws, w);
        case Opens(kind) =>
          KindsPushed(stack, kind);
          ws := EveryRun(src, t.next, t.stack);
          CtxIsLevel(stack);
          ws := HoldsOpened(src, i, KindsOf(stack), kind, ws);
        case Closes(kind) =>
          KindsPushed(t.stack, kind);
          ws := EveryRun(src, t.next, t.stack);
          HoldsClosed(src, i, KindsOf(t.stack), kind, ws);
          ws := ws + [End];
      }
    }
  }

  lemma CtxIsLevel(stack: seq<Mode>)
    ensures Ctx(stack) == LevelOf(KindsOf(stack), |KindsOf(stack)|)
  {
  }

  /** The lexer accepts exactly the texts that are written so: for every text there is a run
      that succeeds if and only if the text is one of them, and then TextIsRead says what
      it returns. */
  lemma AcceptsExactly(src: string)
    ensures Lex(src, 0, []).Lexed? <==> exists w :: WellFormed(w, None) && Render(w) == src
  {
    if Lex(src, 0, []).Lexed? {
      var ws := EveryRun(src, 0, []);
      assert KindsOf([]) == [] && src[0..] == src;
      assert Remaining([], ws) == Render(ws[0]) + "" == Render(ws[0]);
      assert WellFormed(ws[0], LevelOf([], 0));
    }
    forall w | WellFormed(w, None) && Render(w) == src ensures Lex(src, 0, []).Lexed? {
      TextIsRead(w);
    }
  }
}
