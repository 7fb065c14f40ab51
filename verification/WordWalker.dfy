/** consume_word and scan_statements of deploy/pipeline/check-pipeline-contract.py: a
    shell word scanner with an explicit stack, and the walk that finds definitions
    in statement position. */
module WordWalker {
  import opened Text

  // ----- consume_word -----

  datatype Kind = Quote | Sub | Param | Backtick | Array | Paren | Brace

  datatype Open = Open(closer: char, kind: Kind, start: nat)

  type Span = (nat, nat)

  predicate At(text: string, i: nat, hi: nat, c: char) { i < hi && i < |text| && text[i] == c }

  predicate IsDelim(c: char) { c in {' ', '\t', '\n', ';', '&', '|', '(', ')', '{', '}', '`'} }

  /** i = text.find("'", i + 1, hi), then one past it; hi when there is none. */
  function AfterQuote(text: string, i: nat, hi: nat): (j: nat)
    requires i <= hi <= |text|
    ensures i <= j <= hi
    decreases hi - i
  {
    if i == hi then hi else if text[i] == '\'' then i + 1 else AfterQuote(text, i + 1, hi)
  }

  /** One turn of the scan. */
  datatype Turn = Stop | Turn(next: nat, stack: seq<Open>, sub: Option<Span>)

  function Go(next: nat, stack: seq<Open>): Turn { Turn(next, stack, None) }

  /** What opens a nested context the same way everywhere but in backticks. */
  function Opens(text: string, i: nat, hi: nat): Option<Open>
    requires i < hi <= |text|
  {
    if text[i] == '"' then Some(Open('"', Quote, i))
    else if text[i] == '$' && At(text, i + 1, hi, '(') then Some(Open(')', Sub, i + 2))
    else if text[i] == '$' && At(text, i + 1, hi, '{') then Some(Open('}', Param, i + 2))
    else if text[i] == '`' then Some(Open('`', Backtick, i + 1))
    else None
  }

  function OpenAt(stack: seq<Open>, o: Open): Turn {
    Go(if o.kind == Quote then o.start + 1 else o.start, stack + [o])
  }

  function BareTurn(text: string, i: nat, hi: nat, start: nat): Turn
    requires start <= i < hi <= |text|
  {
    var c := text[i];
    if c == '\\' then Go(i + 2, [])
    else if c == '\'' then Go(AfterQuote(text, i + 1, hi), [])
    else if Opens(text, i, hi).Some? then OpenAt([], Opens(text, i, hi).value)
    else if c == '(' && i > start && text[i - 1] == '=' then Go(i + 1, [Open(')', Array, i + 1)])
    else if IsDelim(c) then Stop
    else Go(i + 1, [])
  }

  function QuoteTurn(text: string, i: nat, hi: nat, stack: seq<Open>): Turn
    requires i < hi <= |text| && stack != []
  {
    var c := text[i];
    if c == '\\' then Go(i + 2, stack)
    else if c == '"' then Go(i + 1, Init(stack))
    else if Opens(text, i, hi).Some? then OpenAt(stack, Opens(text, i, hi).value)
    else Go(i + 1, stack)
  }

  function BacktickTurn(text: string, i: nat, hi: nat, stack: seq<Open>): Turn
    requires i < hi <= |text| && stack != []
  {
    var c := text[i];
    if c == '\\' then Go(i + 2, stack)
    else if c == '`' then Turn(i + 1, Init(stack), Some((Last(stack).start, i)))
    else Go(i + 1, stack)
  }

  function CodeTurn(text: string, i: nat, hi: nat, stack: seq<Open>): Turn
    requires i < hi <= |text| && stack != []
  {
    var c := text[i];
    if c == '\\' then Go(i + 2, stack)
    else if c == '\'' then Go(AfterQuote(text, i + 1, hi), stack)
    else if Opens(text, i, hi).Some? then OpenAt(stack, Opens(text, i, hi).value)
    else if c == '(' then Go(i + 1, stack + [Open(')', Paren, i + 1)])
    else if c == '{' then Go(i + 1, stack + [Open('}', Brace, i + 1)])
    else if c == Last(stack).closer then
      Turn(i + 1, Init(stack), if Last(stack).kind == Sub then Some((Last(stack).start, i)) else None)
    else Go(i + 1, stack)
  }

  function WordTurn(text: string, i: nat, hi: nat, start: nat, stack: seq<Open>): (t: Turn)
    requires start <= i < hi <= |text|
    ensures t.Turn? ==> i < t.next <= hi + 1
  {
    if stack == [] then BareTurn(text, i, hi, start)
    else match Last(stack).kind
      case Quote => QuoteTurn(text, i, hi, stack)
      case Backtick => BacktickTurn(text, i, hi, stack)
      case _ => CodeTurn(text, i, hi, stack)
  }

  /** Every open context started inside the word, before i. */
  ghost predicate Started(stack: seq<Open>, start: nat, i: nat) {
    forall k | 0 <= k < |stack| :: start <= stack[k].start <= i && (stack[k].kind != Quote ==> start < stack[k].start)
  }

  /** consume_word from index i on: the end, and the substitution spans still to come. */
  function Consume(text: string, i: nat, hi: nat, start: nat, stack: seq<Open>): (r: (nat, seq<Span>))
    requires start <= i && hi <= |text|
    ensures i <= r.0 && (i <= hi ==> r.0 <= hi + 1)
    decreases hi - i
  {
    if i >= hi then (i, [])
    else
      match WordTurn(text, i, hi, start, stack)
      case Stop => (i, [])
      case Turn(next, stack', sub) =>
        var r := Consume(text, next, hi, start, stack');
        (r.0, (if sub.Some? then [sub.value] else []) + r.1)
  }

  function Word(text: string, i: nat, hi: nat): (r: (nat, seq<Span>))
    requires i < hi <= |text|
    ensures i <= r.0 <= hi + 1
  {
    Consume(text, i, hi, i, [])
  }

  /** Consume unfolded once. */
  lemma ConsumeStep(text: string, i: nat, hi: nat, start: nat, stack: seq<Open>)
    requires start <= i && hi <= |text|
    ensures i >= hi ==> Consume(text, i, hi, start, stack) == (i, [])
    ensures i < hi ==>
      var t := WordTurn(text, i, hi, start, stack);
      Consume(text, i, hi, start, stack)
      == if t.Stop? then (i, [])
         else (Consume(text, t.next, hi, start, t.stack).0,
               (if t.sub.Some? then [t.sub.value] else []) + Consume(text, t.next, hi, start, t.stack).1)
  {
  }

  /** consume_word itself. */
  method ConsumeWord(text: string, from: nat, hi: nat) returns (end: nat, subs: seq<Span>)
    requires from < hi <= |text|
    ensures (end, subs) == Word(text, from, hi)
  {
    hide Consume, WordTurn;
    var stack: seq<Open> := [];
    end, subs := from, [];
    ghost var rest := Consume(text, end, hi, from, stack).1;
    while end < hi
      invariant from <= end
      invariant Consume(text, end, hi, from, stack) == (Word(text, from, hi).0, rest)
      invariant subs + rest == Word(text, from, hi).1
      decreases hi - end
    {
      ConsumeStep(text, end, hi, from, stack);
      var turn := WordTurn(text, end, hi, from, stack);
      if turn.Stop? {
        assert subs + [] == subs;
        return;
      }
      var closed := if turn.sub.Some? then [turn.sub.value] else [];
      rest := Consume(text, turn.next, hi, from, turn.stack).1;
      AppendAssociates(subs, closed, rest);
      subs := subs + closed;
      end, stack := turn.next, turn.stack;
    }
    ConsumeStep(text, end, hi, from, stack);
    assert subs + [] == subs;
  }

  /** A turn leaves the stack, pushes one context or pops one; only a pop closes a span. */
  ghost predicate MovesStack(i: nat, stack: seq<Open>, t: Turn) {
    t.Turn? ==>
      || (t.stack == stack && t.sub.None?)
      || (|t.stack| == |stack| + 1 && t.stack[..|stack|] == stack && t.sub.None?
          && i <= Last(t.stack).start <= t.next && (Last(t.stack).kind != Quote ==> i < Last(t.stack).start))
      || (stack != [] && t.stack == Init(stack)
          && (t.sub.Some? ==> t.sub.value == (Last(stack).start, i) && Last(stack).kind != Quote))
  }

  lemma TurnMovesStack(text: string, i: nat, hi: nat, start: nat, stack: seq<Open>)
    requires start <= i < hi <= |text|
    ensures MovesStack(i, stack, WordTurn(text, i, hi, start, stack))
  {
  }

  lemma TurnStarted(text: string, i: nat, hi: nat, start: nat, stack: seq<Open>)
    requires start <= i < hi <= |text| && Started(stack, start, i)
    ensures var t := WordTurn(text, i, hi, start, stack);
            t.Turn? ==> Started(t.stack, start, t.next)
                        && (t.sub.Some? ==> start < t.sub.value.0 <= t.sub.value.1 == i)
  {
    TurnMovesStack(text, i, hi, start, stack);
    hide WordTurn;
  }

  /** Every substitution span lies strictly inside the word and ends before hi. */
  lemma {:induction false} SpansInside(text: string, i: nat, hi: nat, start: nat, stack: seq<Open>)
    requires start <= i && hi <= |text| && Started(stack, start, i)
    ensures var (end, subs) := Consume(text, i, hi, start, stack);
            forall s | s in subs :: start < s.0 <= s.1 < hi && s.1 < end
    decreases hi - i
  {
    if i < hi {
      var t := WordTurn(text, i, hi, start, stack);
      TurnStarted(text, i, hi, start, stack);
      if t.Turn? {
        SpansInside(text, t.next, hi, start, t.stack);
      }
    }
  }

  /** Two spans of one word are disjoint or one holds the other. */
  ghost predicate Nest(s: Span, t: Span) {
    s.1 < t.0 || (t.0 <= s.0 && s.1 <= t.1)
  }

  /** The starts of the open contexts grow from the outside in. */
  ghost predicate Growing(stack: seq<Open>, i: nat) {
    && (forall k | 0 <= k < |stack| :: stack[k].start <= i)
    && (forall k, m | 0 <= k < m < |stack| :: stack[k].start <= stack[m].start)
  }

  ghost predicate StartsOpen(a: nat, stack: seq<Open>, i: nat) {
    a >= i || exists k :: 0 <= k < |stack| && stack[k].start == a
  }

  lemma TurnGrows(i: nat, stack: seq<Open>, t: Turn)
    requires t.Turn? && MovesStack(i, stack, t) && i < t.next && Growing(stack, i)
    ensures Growing(t.stack, t.next)
  {
    forall k, m | 0 <= k < m < |t.stack| ensures t.stack[k].start <= t.stack[m].start {
      if m < |stack| {
        assert t.stack[k] == stack[k] && t.stack[m] == stack[m];
      } else {
        assert t.stack[k] == stack[k] && t.stack[m] == Last(t.stack);
      }
    }
  }

  lemma StartsStayOpen(i: nat, stack: seq<Open>, t: Turn, a: nat)
    requires t.Turn? && MovesStack(i, stack, t) && i < t.next && StartsOpen(a, t.stack, t.next)
    ensures StartsOpen(a, stack, i)
  {
    if a < t.next {
      var k :| 0 <= k < |t.stack| && t.stack[k].start == a;
      if k < |stack| {
        assert t.stack[k] == stack[k];
      }
    }
  }

  lemma {:induction false} SpansNest(text: string, i: nat, hi: nat, start: nat, stack: seq<Open>)
    requires start <= i && hi <= |text| && Growing(stack, i)
    ensures var subs := Consume(text, i, hi, start, stack).1;
            && (forall s | s in subs :: i <= s.1 && StartsOpen(s.0, stack, i))
            && (forall k, m | 0 <= k < m < |subs| :: Nest(subs[k], subs[m]))
    decreases hi - i
  {
    hide WordTurn, Consume;
    ConsumeStep(text, i, hi, start, stack);
    if i < hi {
      var t := WordTurn(text, i, hi, start, stack);
      TurnMovesStack(text, i, hi, start, stack);
      if t.Turn? {
        TurnGrows(i, stack, t);
        SpansNest(text, t.next, hi, start, t.stack);
        var rest := Consume(text, t.next, hi, start, t.stack).1;
        forall s | s in rest ensures i <= s.1 && StartsOpen(s.0, stack, i) {
          StartsStayOpen(i, stack, t, s.0);
        }
        if t.sub.Some? {
          SpanFirst(i, stack, t, rest);
        }
      }
    }
  }

  /** A span closed now against the spans that close later. */
  lemma SpanFirst(i: nat, stack: seq<Open>, t: Turn, rest: seq<Span>)
    requires t.Turn? && MovesStack(i, stack, t) && t.sub.Some? && Growing(stack, i) && i < t.next
    requires forall s | s in rest :: t.next <= s.1 && StartsOpen(s.0, t.stack, t.next)
    ensures StartsOpen(t.sub.value.0, stack, i) && t.sub.value.1 == i
    ensures forall m | 0 <= m < |rest| :: Nest(t.sub.value, rest[m])
  {
    assert stack[|stack| - 1].start == t.sub.value.0;
    forall m | 0 <= m < |rest| ensures Nest(t.sub.value, rest[m]) {
      var s := rest[m];
      assert s in rest;
      if s.0 < t.next {
        var k :| 0 <= k < |t.stack| && t.stack[k].start == s.0;
        assert t.stack[k] == stack[k] && k < |stack| - 1;
      }
    }
  }

  // ----- the words it is for -----

  /** A word as it is written: characters, escapes, single-quoted text, and what nests. */
  datatype Shell =
    | End
    | Char(c: char, rest: Shell)
    | Escape(c: char, rest: Shell)
    | Single(text: string, rest: Shell)
    | Group(kind: Kind, inner: Shell, rest: Shell)

  function Opener(kind: Kind): string {
    match kind
    case Quote => "\""
    case Sub => "$("
    case Param => "${"
    case Backtick => "`"
    case Array => "("
    case Paren => "("
    case Brace => "{"
  }

  function Closer(kind: Kind): char {
    match kind
    case Quote => '"'
    case Backtick => '`'
    case Sub => ')'
    case Array => ')'
    case Paren => ')'
    case Param => '}'
    case Brace => '}'
  }

  function Render(w: Shell): string {
    match w
    case End => ""
    case Char(c, rest) => [c] + Render(rest)
    case Escape(c, rest) => ['\\', c] + Render(rest)
    case Single(text, rest) => (['\''] + text + ['\'']) + Render(rest)
    case Group(kind, inner, rest) => (Opener(kind) + (Render(inner) + [Closer(kind)])) + Render(rest)
  }

  /** Where the bodies of the command substitutions of a word stand that begins at `at`, at
      any depth, in the order in which they end. */
  function Substitutions(w: Shell, at: nat): seq<Span> {
    match w
    case End => []
    case Char(_, rest) => Substitutions(rest, at + 1)
    case Escape(_, rest) => Substitutions(rest, at + 2)
    case Single(text, rest) => Substitutions(rest, at + |text| + 2)
    case Group(kind, inner, rest) =>
      var open := at + |Opener(kind)|;
      var close := open + |Render(inner)|;
      Substitutions(inner, open)
      + ((if kind.Sub? || kind.Backtick? then [(open, close)] else []) + Substitutions(rest, close + 1))
  }

  /** What may stand for itself: outside any nesting neither quotes nor what ends a word,
      inside it neither what nests further there nor what closes it. */
  predicate Ordinary(c: char, ctx: Option<Kind>) {
    match ctx
    case None => c !in {'\\', '\'', '"', '`', ' ', '\t', '\n', ';', '&', '|', '(', ')', '{', '}'}
    case Some(Quote) => c !in {'\\', '"', '`'}
    case Some(Backtick) => c !in {'\\', '`'}
    case Some(kind) => c !in {'\\', '\'', '"', '`', '(', '{', Closer(kind)}
  }

  /** Array parentheses follow an equals sign of the word; plain ones and braces nest inside
      code; double quotes hold substitutions but no quotes; backticks hold nothing. */
  predicate MayNest(kind: Kind, ctx: Option<Kind>, afterEquals: bool) {
    match kind
    case Array => ctx.None? && afterEquals
    case Paren => ctx.Some? && !ctx.value.Quote? && !ctx.value.Backtick?
    case Brace => ctx.Some? && !ctx.value.Quote? && !ctx.value.Backtick?
    case Quote => ctx.None? || (!ctx.value.Quote? && !ctx.value.Backtick?)
    case _ => ctx != Some(Backtick)
  }

  predicate BeginsBracket(w: Shell) {
    match w
    case Char(c, _) => c in {'(', '{'}
    case Group(kind, _, _) => kind.Array? || kind.Paren? || kind.Brace?
    case _ => false
  }

  predicate WellFormed(w: Shell, ctx: Option<Kind>, afterEquals: bool) {
    match w
    case End => true
    case Char(c, rest) =>
      Ordinary(c, ctx) && (c == '$' && ctx != Some(Backtick) ==> !BeginsBracket(rest))
      && WellFormed(rest, ctx, c == '=')
    case Escape(_, rest) => WellFormed(rest, ctx, false)
    case Single(text, rest) =>
      (ctx.None? || (!ctx.value.Quote? && !ctx.value.Backtick?)) && '\'' !in text && WellFormed(rest, ctx, false)
    case Group(kind, inner, rest) =>
      MayNest(kind, ctx, afterEquals) && WellFormed(inner, Some(kind), false) && WellFormed(rest, ctx, false)
  }

  predicate EndsInDollar(w: Shell) {
    match w
    case End => false
    case Char(c, rest) => if rest.End? then c == '$' else EndsInDollar(rest)
    case Escape(_, rest) => EndsInDollar(rest)
    case Single(_, rest) => EndsInDollar(rest)
    case Group(_, _, rest) => EndsInDollar(rest)
  }

  /** The text shows it at i, before hi. */
  predicate Within(text: string, i: nat, hi: nat, out: string) { i + |out| <= hi <= |text| && Shown(text, i, out) }

  predicate TopIs(stack: seq<Open>, ctx: Option<Kind>) {
    match ctx
    case None => stack == []
    case Some(kind) => stack != [] && Last(stack).kind == kind && Last(stack).closer == Closer(kind)
  }

  predicate Bracket(text: string, i: nat, hi: nat) { At(text, i, hi, '(') || At(text, i, hi, '{') }

  lemma HeadIs(text: string, i: nat, hi: nat, w: Shell)
    requires Within(text, i, hi, Render(w)) && !w.End? && !BeginsBracket(w)
    ensures !Bracket(text, i, hi)
  {
    ShownAt(text, i, Render(w), 0);
  }

  lemma OrdinaryTurn(text: string, i: nat, hi: nat, start: nat, stack: seq<Open>, ctx: Option<Kind>)
    requires start <= i < hi <= |text| && TopIs(stack, ctx) && Ordinary(text[i], ctx)
    requires text[i] == '$' && ctx != Some(Backtick) ==> !Bracket(text, i + 1, hi)
    ensures WordTurn(text, i, hi, start, stack) == Go(i + 1, stack)
  {
  }

  lemma EscapeTurn(text: string, i: nat, hi: nat, start: nat, stack: seq<Open>, ctx: Option<Kind>)
    requires start <= i < hi <= |text| && TopIs(stack, ctx) && text[i] == '\\'
    ensures WordTurn(text, i, hi, start, stack) == Go(i + 2, stack)
  {
  }

  lemma {:induction false} QuoteFound(text: string, i: nat, j: nat, hi: nat)
    requires i <= j < hi <= |text| && text[j] == '\'' && forall k | i <= k < j :: text[k] != '\''
    ensures AfterQuote(text, i, hi) == j + 1
    decreases j - i
  {
    if i < j {
      QuoteFound(text, i + 1, j, hi);
    }
  }

  lemma SingleTurn(text: string, i: nat, hi: nat, start: nat, stack: seq<Open>, ctx: Option<Kind>, quoted: string)
    requires start <= i && Within(text, i, hi, ['\''] + quoted + ['\'']) && '\'' !in quoted && TopIs(stack, ctx)
    requires ctx.None? || (!ctx.value.Quote? && !ctx.value.Backtick?)
    ensures i < hi && WordTurn(text, i, hi, start, stack) == Go(i + |quoted| + 2, stack)
  {
    var out := ['\''] + quoted + ['\''];
    var j := i + |quoted| + 1;
    forall k | 0 <= k < |out| ensures text[i + k] == out[k] {
      ShownAt(text, i, out, k);
    }
    forall k | i + 1 <= k < j ensures text[k] != '\'' {
      assert text[i + (k - i)] == out[k - i] == quoted[k - i - 1];
    }
    assert text[i + (|quoted| + 1)] == out[|quoted| + 1];
    QuoteFound(text, i + 1, j, hi);
    assert text[i + 0] == out[0];
  }

  function Opened(kind: Kind, i: nat): Open {
    Open(Closer(kind), kind, if kind.Quote? then i else i + |Opener(kind)|)
  }

  lemma OpenTurn(text: string, i: nat, hi: nat, start: nat, stack: seq<Open>, ctx: Option<Kind>, kind: Kind, eq: bool)
    requires start <= i && Within(text, i, hi, Opener(kind)) && TopIs(stack, ctx) && MayNest(kind, ctx, eq)
    requires eq ==> i > start && text[i - 1] == '='
    ensures i < hi && WordTurn(text, i, hi, start, stack) == Go(i + |Opener(kind)|, stack + [Opened(kind, i)])
  {
    ShownAt(text, i, Opener(kind), 0);
    if kind.Sub? || kind.Param? {
      ShownAt(text, i, Opener(kind), 1);
    }
    assert [] + [Opened(kind, i)] == [Opened(kind, i)];
  }

  lemma CloseTurn(text: string, i: nat, hi: nat, start: nat, stack: seq<Open>, o: Open)
    requires start <= i < hi <= |text| && text[i] == Closer(o.kind) == o.closer
    ensures WordTurn(text, i, hi, start, stack + [o])
         == Turn(i + 1, stack, if o.kind.Sub? || o.kind.Backtick? then Some((o.start, i)) else None)
  {
    assert Init(stack + [o]) == stack;
  }

  /** The scan from i goes on from j with another stack, reporting the spans on the way. */
  ghost predicate Goes(text: string, hi: nat, start: nat, i: nat, stack: seq<Open>, j: nat, next: seq<Open>,
                       spans: seq<Span>)
    requires start <= i && start <= j && hi <= |text|
  {
    Consume(text, i, hi, start, stack)
    == (Consume(text, j, hi, start, next).0, spans + Consume(text, j, hi, start, next).1)
  }

  lemma GoesNowhere(text: string, hi: nat, start: nat, i: nat, stack: seq<Open>)
    requires start <= i && hi <= |text|
    ensures Goes(text, hi, start, i, stack, i, stack, [])
  {
    hide Consume;
    assert [] + Consume(text, i, hi, start, stack).1 == Consume(text, i, hi, start, stack).1;
  }

  lemma GoesOneTurn(text: string, hi: nat, start: nat, i: nat, stack: seq<Open>, t: Turn)
    requires start <= i < hi <= |text| && WordTurn(text, i, hi, start, stack) == t && t.Turn?
    ensures Goes(text, hi, start, i, stack, t.next, t.stack, if t.sub.Some? then [t.sub.value] else [])
  {
    ConsumeStep(text, i, hi, start, stack);
    hide Consume, WordTurn;
  }

  lemma GoesOn(text: string, hi: nat, start: nat, i: nat, a: seq<Open>, j: nat, b: seq<Open>, k: nat, c: seq<Open>,
               first: seq<Span>, second: seq<Span>)
    requires start <= i && start <= j && start <= k && hi <= |text|
    requires Goes(text, hi, start, i, a, j, b, first) && Goes(text, hi, start, j, b, k, c, second)
    ensures Goes(text, hi, start, i, a, k, c, first + second)
  {
    hide Consume;
    AppendAssociates(first, second, Consume(text, k, hi, start, c).1);
  }

  /** The scan of a word's text, in whatever it is nested in, gives the spans of its
      substitutions and goes on behind it. */
  lemma {:induction false} Scanned(text: string, i: nat, hi: nat, start: nat, stack: seq<Open>, w: Shell,
                                   ctx: Option<Kind>, eq: bool)
    requires start <= i && Within(text, i, hi, Render(w)) && TopIs(stack, ctx) && WellFormed(w, ctx, eq)
    requires eq ==> i > start && text[i - 1] == '='
    requires EndsInDollar(w) && ctx != Some(Backtick) ==> !Bracket(text, i + |Render(w)|, hi)
    ensures Goes(text, hi, start, i, stack, i + |Render(w)|, stack, Substitutions(w, i))
    decreases w, 1
  {
    if w.End? {
      GoesNowhere(text, hi, start, i, stack);
    } else if w.Group? {
      ScannedGroup(text, i, hi, start, stack, w, ctx, eq);
    } else {
      var j := FirstPiece(text, i, hi, start, stack, w, ctx, eq);
      hide Goes, WordTurn, WellFormed, Render, Substitutions, EndsInDollar, Within, Bracket;
      GoesOneTurn(text, hi, start, i, stack, Go(j, stack));
      Scanned(text, j, hi, start, stack, w.rest, ctx, w.Char? && w.c == '=');
      GoesOn(text, hi, start, i, stack, j, stack, i + |Render(w)|, stack, [], Substitutions(w.rest, j));
      assert [] + Substitutions(w.rest, j) == Substitutions(w.rest, j);
    }
  }

  /** One piece that nests nothing is one turn, and the rest of the word follows it. */
  lemma FirstPiece(text: string, i: nat, hi: nat, start: nat, stack: seq<Open>, w: Shell, ctx: Option<Kind>, eq: bool)
    returns (j: nat)
    requires start <= i && Within(text, i, hi, Render(w)) && TopIs(stack, ctx) && WellFormed(w, ctx, eq)
    requires !w.End? && !w.Group?
    requires EndsInDollar(w) && ctx != Some(Backtick) ==> !Bracket(text, i + |Render(w)|, hi)
    ensures i < j && i < hi && WordTurn(text, i, hi, start, stack) == Go(j, stack)
    ensures Within(text, j, hi, Render(w.rest)) && j + |Render(w.rest)| == i + |Render(w)|
    ensures Substitutions(w, i) == Substitutions(w.rest, j) && WellFormed(w.rest, ctx, w.Char? && w.c == '=')
    ensures w.Char? && w.c == '=' ==> j == i + 1 && text[i] == '='
    ensures EndsInDollar(w.rest) ==> EndsInDollar(w)
  {
    match w {
      case Char(c, rest) => j := CharPiece(text, i, hi, start, stack, w, ctx, eq);
      case Escape(c, rest) =>
        j := i + 2;
        hide WordTurn;
        ShownParts(text, i, ['\\', c], Render(rest));
        ShownAt(text, i, ['\\', c], 0);
        EscapeTurn(text, i, hi, start, stack, ctx);
      case Single(quoted, rest) =>
        j := i + |quoted| + 2;
        hide WordTurn;
        ShownParts(text, i, ['\''] + quoted + ['\''], Render(rest));
        SingleTurn(text, i, hi, start, stack, ctx, quoted);
    }
  }

  lemma CharPiece(text: string, i: nat, hi: nat, start: nat, stack: seq<Open>, w: Shell, ctx: Option<Kind>, eq: bool)
    returns (j: nat)
    requires start <= i && Within(text, i, hi, Render(w)) && TopIs(stack, ctx) && WellFormed(w, ctx, eq) && w.Char?
    requires EndsInDollar(w) && ctx != Some(Backtick) ==> !Bracket(text, i + |Render(w)|, hi)
    ensures j == i + 1 && i < hi && WordTurn(text, i, hi, start, stack) == Go(j, stack)
    ensures Within(text, j, hi, Render(w.rest)) && j + |Render(w.rest)| == i + |Render(w)|
    ensures text[i] == w.c
  {
    hide WordTurn, Ordinary, TopIs;
    j := i + 1;
    ShownParts(text, i, [w.c], Render(w.rest));
    ShownAt(text, i, [w.c], 0);
    if w.c == '$' && ctx != Some(Backtick) && !w.rest.End? {
      HeadIs(text, j, hi, w.rest);
    }
    OrdinaryTurn(text, i, hi, start, stack, ctx);
  }

  lemma {:induction false} ScannedGroup(text: string, i: nat, hi: nat, start: nat, stack: seq<Open>, w: Shell,
                                        ctx: Option<Kind>, eq: bool)
    requires start <= i && Within(text, i, hi, Render(w)) && TopIs(stack, ctx) && WellFormed(w, ctx, eq) && w.Group?
    requires eq ==> i > start && text[i - 1] == '='
    requires EndsInDollar(w) && ctx != Some(Backtick) ==> !Bracket(text, i + |Render(w)|, hi)
    ensures Goes(text, hi, start, i, stack, i + |Render(w)|, stack, Substitutions(w, i))
    decreases w, 0
  {
    hide Goes, WordTurn, WellFormed, Render, Substitutions, EndsInDollar, Opener, Closer, Within, Bracket, TopIs;
    var o, open, close := GroupTurns(text, i, hi, start, stack, w, ctx, eq);
    SubstitutionsGroup(w, i, open, close);
    var inside := stack + [o];
    var e := i + |Render(w)|;
    var span: Option<Span> := if w.kind.Sub? || w.kind.Backtick? then Some((open, close)) else None;
    GoesOneTurn(text, hi, start, i, stack, Go(open, inside));
    Scanned(text, open, hi, start, inside, w.inner, Some(w.kind), false);
    GoesOneTurn(text, hi, start, close, inside, Turn(close + 1, stack, span));
    Scanned(text, close + 1, hi, start, stack, w.rest, ctx, false);
    GoesAround(text, hi, start, i, stack, open, inside, close, e, span, Substitutions(w.inner, open),
               Substitutions(w.rest, close + 1));
  }

  lemma GoesAround(text: string, hi: nat, start: nat, i: nat, stack: seq<Open>, open: nat, inside: seq<Open>,
                   close: nat, e: nat, span: Option<Span>, inner: seq<Span>, rest: seq<Span>)
    requires start <= i && start <= open && start <= close && start <= e && hi <= |text|
    requires Goes(text, hi, start, i, stack, open, inside, [])
    requires Goes(text, hi, start, open, inside, close, inside, inner)
    requires Goes(text, hi, start, close, inside, close + 1, stack, if span.Some? then [span.value] else [])
    requires Goes(text, hi, start, close + 1, stack, e, stack, rest)
    ensures Goes(text, hi, start, i, stack, e, stack, inner + ((if span.Some? then [span.value] else []) + rest))
  {
    hide Goes;
    var spans := if span.Some? then [span.value] else [];
    GoesOn(text, hi, start, close, inside, close + 1, stack, e, stack, spans, rest);
    GoesOn(text, hi, start, open, inside, close, inside, e, stack, inner, spans + rest);
    GoesOn(text, hi, start, i, stack, open, inside, e, stack, [], inner + (spans + rest));
    assert [] + (inner + (spans + rest)) == inner + (spans + rest);
  }

  /** What nests opens with one turn and closes with another, around its inner text. */
  lemma GroupTurns(text: string, i: nat, hi: nat, start: nat, stack: seq<Open>, w: Shell, ctx: Option<Kind>, eq: bool)
    returns (o: Open, open: nat, close: nat)
    requires start <= i && Within(text, i, hi, Render(w)) && TopIs(stack, ctx) && WellFormed(w, ctx, eq) && w.Group?
    requires eq ==> i > start && text[i - 1] == '='
    requires EndsInDollar(w) && ctx != Some(Backtick) ==> !Bracket(text, i + |Render(w)|, hi)
    ensures open == i + |Opener(w.kind)| && close == open + |Render(w.inner)| && i < hi && close < hi <= |text|
    ensures WordTurn(text, i, hi, start, stack) == Go(open, stack + [o])
    ensures WordTurn(text, close, hi, start, stack + [o])
         == Turn(close + 1, stack, if w.kind.Sub? || w.kind.Backtick? then Some((open, close)) else None)
    ensures Within(text, open, hi, Render(w.inner)) && !Bracket(text, close, hi) && TopIs(stack + [o], Some(w.kind))
    ensures Within(text, close + 1, hi, Render(w.rest)) && close + 1 + |Render(w.rest)| == i + |Render(w)|
    ensures WellFormed(w.inner, Some(w.kind), false) && WellFormed(w.rest, ctx, false)
    ensures EndsInDollar(w.rest) ==> EndsInDollar(w)
  {
    hide WordTurn, Ordinary, Within, MayNest;
    o := Opened(w.kind, i);
    open := i + |Opener(w.kind)|;
    close := open + |Render(w.inner)|;
    GroupParts(text, i, hi, w.kind, w.inner, w.rest);
    hide Render, Substitutions;
    OpenTurn(text, i, hi, start, stack, ctx, w.kind, eq);
    CloseTurn(text, close, hi, start, stack, o);
    assert Last(stack + [o]) == o;
  }

  lemma GroupParts(text: string, i: nat, hi: nat, kind: Kind, inner: Shell, rest: Shell)
    requires Within(text, i, hi, Render(Group(kind, inner, rest)))
    ensures var open := i + |Opener(kind)|;
            var close := open + |Render(inner)|;
            && Within(text, i, hi, Opener(kind)) && Within(text, open, hi, Render(inner))
            && close < hi <= |text| && text[close] == Closer(kind)
            && Within(text, close + 1, hi, Render(rest))
            && close + 1 + |Render(rest)| == i + |Render(Group(kind, inner, rest))|
  {
    RenderGroup(kind, inner, rest);
    hide Render, Opener, Closer;
    var body := Render(inner) + [Closer(kind)];
    ShownParts(text, i, Opener(kind) + body, Render(rest));
    ShownParts(text, i, Opener(kind), body);
    ShownParts(text, i + |Opener(kind)|, Render(inner), [Closer(kind)]);
    ShownAt(text, i + |Opener(kind)| + |Render(inner)|, [Closer(kind)], 0);
  }

  lemma RenderGroup(kind: Kind, inner: Shell, rest: Shell)
    ensures Render(Group(kind, inner, rest)) == (Opener(kind) + (Render(inner) + [Closer(kind)])) + Render(rest)
  {
  }

  lemma SubstitutionsGroup(w: Shell, at: nat, open: nat, close: nat)
    requires w.Group? && open == at + |Opener(w.kind)| && close == open + |Render(w.inner)|
    ensures var span: seq<Span> := if w.kind.Sub? || w.kind.Backtick? then [(open, close)] else [];
            Substitutions(w, at) == Substitutions(w.inner, open) + (span + Substitutions(w.rest, close + 1))
  {
  }

  /** What ends a word: the range, or a character of the shell's; a parenthesis right after
      an equals sign, or a bracket right after a dollar, goes on instead. */
  predicate EndsThere(text: string, i: nat, e: nat, hi: nat, w: Shell)
    requires i <= e <= hi <= |text|
  {
    e == hi
    || (text[e] in {' ', '\t', '\n', ';', '&', '|', '(', ')', '{', '}'}
        && (text[e] == '(' ==> e > i && text[e - 1] != '=')
        && (EndsInDollar(w) ==> text[e] !in {'(', '{'}))
  }

  /** For every well-formed word in any text, and whatever follows that ends it, the walker
      stops right behind it and reports exactly its command substitutions. */
  lemma WordIsRead(text: string, i: nat, hi: nat, w: Shell)
    requires !w.End? && Within(text, i, hi, Render(w)) && WellFormed(w, None, false)
    requires EndsThere(text, i, i + |Render(w)|, hi, w)
    ensures i < hi && Word(text, i, hi) == (i + |Render(w)|, Substitutions(w, i))
  {
    var e := i + |Render(w)|;
    NotEmpty(w);
    Scanned(text, i, hi, i, [], w, None, false);
    WordStops(text, i, e, hi, w);
    hide Consume, Substitutions, Render, WellFormed, EndsThere;
    assert Substitutions(w, i) + [] == Substitutions(w, i);
  }

  lemma NotEmpty(w: Shell)
    requires !w.End?
    ensures |Render(w)| > 0
  {
  }

  lemma WordStops(text: string, i: nat, e: nat, hi: nat, w: Shell)
    requires i <= e <= hi <= |text| && EndsThere(text, i, e, hi, w)
    ensures Consume(text, e, hi, i, []) == (e, [])
  {
    ConsumeStep(text, e, hi, i, []);
    if e < hi {
      assert WordTurn(text, e, hi, i, []) == Stop;
    }
  }
}
