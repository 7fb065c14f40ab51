/** What the statement walk makes of commands as they are written: words, with whatever
    they nest, between blanks; assignments before the command word; and the arguments of
    the builtins that define names or read them. */
module ShellCommands {
  import opened Text
  import opened WordWalker
  import opened StatementWalk

  // ----- what an assignment is -----

  predicate NameText(name: string) {
    name != "" && !('0' <= name[0] <= '9')
    && forall k | 0 <= k < |name| ::
         'A' <= name[k] <= 'Z' || 'a' <= name[k] <= 'z' || name[k] == '_' || '0' <= name[k] <= '9'
  }

  predicate IndexText(index: string) {
    index == "" || (|index| >= 2 && index[0] == '[' && Last(index) == ']' && ']' !in index[1..|index| - 1])
  }

  function AssignmentText(name: string, index: string, plus: string, value: string): string {
    name + (index + (plus + ("=" + value)))
  }

  lemma {:induction false} NameStops(w: string, i: nat, n: nat)
    requires i <= n <= |w| && (forall k | i <= k < n :: IsNameChar(w[k])) && (n < |w| ==> !IsNameChar(w[n]))
    ensures NameEnd(w, i) == n
    decreases n - i
  {
    if i < n {
      NameStops(w, i + 1, n);
    }
  }

  lemma {:induction false} NameIs(w: string, i: nat)
    requires i <= |w|
    ensures forall k | i <= k < NameEnd(w, i) :: IsNameChar(w[k])
    ensures NameEnd(w, i) < |w| ==> !IsNameChar(w[NameEnd(w, i)])
    decreases |w| - i
  {
    if i < |w| && IsNameChar(w[i]) {
      NameIs(w, i + 1);
    }
  }

  lemma {:induction false} FoundAt(w: string, c: char, i: nat, k: nat)
    requires i <= k < |w| && w[k] == c && forall j | i <= j < k :: w[j] != c
    ensures FindFrom(w, c, i) == k
    decreases k - i
  {
    if i < k {
      FoundAt(w, c, i + 1, k);
    }
  }

  lemma {:induction false} FoundIs(w: string, c: char, i: nat)
    requires i <= |w|
    ensures var k := FindFrom(w, c, i); (k < |w| ==> w[k] == c) && forall j | i <= j < k :: w[j] != c
    decreases |w| - i
  {
    if i < |w| && w[i] != c {
      FoundIs(w, c, i + 1);
    }
  }

  /** A name is that and nothing more. */
  lemma NamesExactly(w: string)
    ensures IsName(w) <==> NameText(w)
  {
    NameIs(w, 0);
    if NameText(w) {
      NameStops(w, 0, |w|);
    }
  }

  /** What Assignment reads: the name to n, an index to m, a plus to k, and the equals sign. */
  predicate PartsOf(w: string, n: nat, m: nat, k: nat) {
    n <= m <= k < |w| && w[k] == '=' && IsNameStart(w[0]) && n == NameEnd(w, 0)
    && (if m == n then w[n] != '[' else w[n] == '[' && m == FindFrom(w, ']', n) + 1)
    && (if k == m then w[m] != '+' else k == m + 1 && w[m] == '+')
  }

  lemma PartsGive(w: string, n: nat, m: nat, k: nat)
    requires PartsOf(w, n, m, k)
    ensures Assignment(w) == Some((w[..n], k + 1))
  {
    hide NameEnd, FindFrom;
  }

  lemma HasParts(w: string) returns (n: nat, m: nat, k: nat)
    requires Assignment(w).Some?
    ensures PartsOf(w, n, m, k)
  {
    hide NameEnd, FindFrom;
    n := NameEnd(w, 0);
    var bracket := if n < |w| && w[n] == '[' then FindFrom(w, ']', n) else |w|;
    m := if bracket < |w| then bracket + 1 else n;
    k := if m < |w| && w[m] == '+' then m + 1 else m;
  }

  lemma TextPlaces(name: string, index: string, plus: string, value: string, w: string)
    requires w == AssignmentText(name, index, plus, value)
    ensures var n := |name|;
            var m := n + |index|;
            var k := m + |plus|;
            k < |w| && w[..n] == name && w[n..m] == index && w[m..k] == plus && w[k] == '='
  {
  }

  lemma AssignmentTextIs(name: string, index: string, plus: string, value: string)
    requires NameText(name) && IndexText(index) && (plus == "" || plus == "+")
    ensures Assignment(AssignmentText(name, index, plus, value)) == Some((name, |name| + |index| + |plus| + 1))
  {
    var w := AssignmentText(name, index, plus, value);
    var n := |name|;
    var m := n + |index|;
    var k := m + |plus|;
    TextPlaces(name, index, plus, value, w);
    hide AssignmentText;
    AfterName(w, n, m, k);
    NameThere(w, name);
    if index != "" {
      IndexEnds(w, n, index);
    }
    hide NameEnd, FindFrom, NameText, IndexText;
    PartsGive(w, n, m, k);
  }

  /** What follows the name is a bracket, a plus or the equals sign. */
  lemma AfterName(w: string, n: nat, m: nat, k: nat)
    requires n <= m <= k < |w| && w[k] == '=' && IndexText(w[n..m]) && (w[m..k] == "" || w[m..k] == "+")
    ensures if m == n then w[n] in {'+', '='} else w[n] == '[' && m > n + 1
    ensures if k == m then w[m] == '=' else k == m + 1 && w[m] == '+'
  {
    assert m > n ==> w[n..m][0] == w[n];
    assert k > m ==> w[m..k][0] == w[m];
  }

  lemma NameThere(w: string, name: string)
    requires NameText(name) && |name| < |w| && w[..|name|] == name && w[|name|] in {'[', '+', '='}
    ensures NameEnd(w, 0) == |name| && IsNameStart(w[0])
  {
    forall k | 0 <= k < |name| ensures IsNameChar(w[k]) {
      assert w[k] == name[k];
    }
    assert w[0] == name[0];
    NameStops(w, 0, |name|);
  }

  lemma IndexEnds(w: string, i: nat, index: string)
    requires index != "" && IndexText(index) && i + |index| <= |w| && w[i..i + |index|] == index
    ensures FindFrom(w, ']', i) == i + |index| - 1
  {
    var k := i + |index| - 1;
    assert w[k] == index[|index| - 1] == Last(index);
    forall j | i <= j < k ensures w[j] != ']' {
      assert w[j] == index[j - i];
      if j > i {
        assert index[1..|index| - 1][j - i - 1] == index[j - i];
      }
    }
    FoundAt(w, ']', i, k);
  }

  lemma AssignmentIsText(w: string) returns (name: string, index: string, plus: string, value: string)
    requires Assignment(w).Some?
    ensures NameText(name) && IndexText(index) && (plus == "" || plus == "+") && w == AssignmentText(name, index, plus, value)
    ensures Assignment(w).value == (name, |name| + |index| + |plus| + 1)
  {
    var n, m, k := HasParts(w);
    PartsGive(w, n, m, k);
    name, index, plus, value := w[..n], w[n..m], w[m..k], w[k + 1..];
    NameIs(w, 0);
    StartNotDigit(w[0]);
    NameGoesOn(w);
    FoundIs(w, ']', n);
    IndexThere(w, n, m);
    hide NameEnd, FindFrom, Assignment, IndexText, IsNameStart;
    NameIsText(w, n);
    assert w == w[..n] + (w[n..m] + (w[m..k] + (w[k..k + 1] + w[k + 1..])));
    assert w[k..k + 1] == "=";
  }

  lemma NameIsText(w: string, n: nat)
    requires 0 < n <= |w| && !('0' <= w[0] <= '9') && forall k | 0 <= k < n :: IsNameChar(w[k])
    ensures NameText(w[..n])
  {
    var name := w[..n];
    forall k | 0 <= k < |name| ensures IsNameChar(name[k]) {
      assert name[k] == w[k];
    }
  }

  lemma NameGoesOn(w: string)
    requires w != "" && IsNameStart(w[0])
    ensures NameEnd(w, 0) > 0
  {
  }

  lemma StartNotDigit(c: char)
    requires IsNameStart(c)
    ensures !('0' <= c <= '9') && IsNameChar(c)
  {
  }

  lemma IndexThere(w: string, n: nat, m: nat)
    requires n <= m <= |w|
    requires m == n || (m > n + 1 && w[n] == '[' && w[m - 1] == ']' && forall j | n <= j < m - 1 :: w[j] != ']')
    ensures IndexText(w[n..m])
  {
    var index := w[n..m];
    if m > n {
      assert index[0] == w[n] && Last(index) == w[m - 1];
      var inner := index[1..|index| - 1];
      forall j | 0 <= j < |inner| ensures inner[j] != ']' {
        assert inner[j] == w[n + 1 + j];
      }
    }
  }

  predicate SpellsAssignment(w: string, name: string, at: nat, index: string, plus: string, value: string) {
    NameText(name) && IndexText(index) && (plus == "" || plus == "+") && at == |name| + |index| + |plus| + 1
    && w == AssignmentText(name, index, plus, value)
  }

  /** A word is an assignment exactly when it is so written, and its right-hand side begins
      behind the equals sign. */
  lemma AssignmentExactly(w: string, name: string, at: nat)
    ensures Assignment(w) == Some((name, at)) <==>
            exists index, plus, value :: SpellsAssignment(w, name, at, index, plus, value)
  {
    if Assignment(w) == Some((name, at)) {
      var n, index, plus, value := AssignmentIsText(w);
      assert SpellsAssignment(w, name, at, index, plus, value);
    }
    forall index, plus, value | SpellsAssignment(w, name, at, index, plus, value)
      ensures Assignment(w) == Some((name, at))
    {
      AssignmentTextIs(name, index, plus, value);
    }
  }

  // ----- what a command defines -----

  /** A word of a command, and where it stands. */
  type Token = (string, nat)

  /** An assignment defines its name, unless its right-hand side reads it. */
  function Assigned(env: Env, w: Token): Option<Event> {
    match Assignment(w.0)
    case None => None
    case Some((name, at)) =>
      Some(if name in env.namesIn(w.1 + at, w.1 + |w.0|) then SelfRef(name, w.1) else Define(name, w.1))
  }

  /** The assignments before the command word; then what its builtin makes of the others. */
  function CommandMeans(env: Env, ws: seq<Token>): seq<Event> {
    if ws == [] then []
    else if Assigned(env, ws[0]).Some? then [Assigned(env, ws[0]).value] + CommandMeans(env, ws[1..])
    else if ws[0].0 in {"then", "do", "else", "elif", "if", "while", "until", "!", "time", "env", "nohup", "exec", "command"}
    then CommandMeans(env, ws[1..])
    else if ws[0].0 in {"export", "readonly", "declare", "typeset", "local", "read", "mapfile", "readarray", "for", "select"}
    then BuiltinMeans(env, ws[0].0, ws[1..], false)
    else []
  }

  /** Options that take the next word. */
  predicate OptionTakes(kind: string, option: string) {
    |option| == 2
    && match kind
       case "read" => option[1] in {'d', 'n', 'N', 't', 'u', 'p', 'a', 'i'}
       case "mapfile" => option[1] in {'d', 'n', 'O', 's', 'u', 'C', 'c'}
       case "readarray" => option[1] in {'d', 'n', 'O', 's', 'u', 'C', 'c'}
       case _ => false
  }

  /** Names and assignments up to the first word that is neither, options passed over: export
      reads the names, the others define them, and the last four take one only. */
  function BuiltinMeans(env: Env, kind: string, ws: seq<Token>, taken: bool): seq<Event> {
    if ws == [] then []
    else if "-" <= ws[0].0 && kind != "for" && kind != "select" then
      BuiltinMeans(env, kind, ws[1..], taken || OptionTakes(kind, ws[0].0))
    else if taken then BuiltinMeans(env, kind, ws[1..], false)
    else
      var exports := kind in {"export", "readonly"};
      var declares := kind in {"declare", "typeset", "local"};
      if (exports || declares) && Assigned(env, ws[0]).Some? then
        [Assigned(env, ws[0]).value] + BuiltinMeans(env, kind, ws[1..], false)
      else if !NameText(ws[0].0) then []
      else if exports then [ExportRead(ws[0].0, ws[0].1)] + BuiltinMeans(env, kind, ws[1..], false)
      else if declares || kind == "read" then [Define(ws[0].0, ws[0].1)] + BuiltinMeans(env, kind, ws[1..], false)
      else [Define(ws[0].0, ws[0].1)]
  }

  /** The walk's own step, word after word. */
  function Steps(env: Env, ws: seq<Token>, ctx: Ctx): seq<Event> {
    if ws == [] then []
    else WordDoes(env, ws[0].0, ws[0].1, ctx).0 + Steps(env, ws[1..], WordDoes(env, ws[0].0, ws[0].1, ctx).1)
  }

  function CtxAfter(env: Env, ws: seq<Token>, ctx: Ctx): Ctx {
    if ws == [] then ctx else CtxAfter(env, ws[1..], WordDoes(env, ws[0].0, ws[0].1, ctx).1)
  }

  lemma {:induction false} NothingMore(env: Env, ws: seq<Token>, ctx: Ctx)
    requires !ctx.stmt && ctx.pending.None?
    ensures Steps(env, ws, ctx) == []
  {
    if ws != [] {
      NothingMore(env, ws[1..], ctx);
    }
  }

  lemma TakesAlike(kind: string, option: string)
    ensures TakesArg(kind, option) <==> OptionTakes(kind, option)
  {
  }

  lemma AssignsAlike(env: Env, w: Token)
    ensures Assign(env, w.0, w.1) == if Assigned(env, w).Some? then [Assigned(env, w).value] else []
    ensures Assigned(env, w).Some? <==> Assignment(w.0).Some?
  {
    hide Assignment;
  }

  predicate Builtin(kind: string) {
    kind in {"export", "readonly", "declare", "typeset", "local", "read", "mapfile", "readarray", "for", "select"}
  }

  lemma NoNameIsRedirect(w: string)
    requires NameText(w)
    ensures !("<" <= w) && !("-" <= w)
  {
  }

  /** One argument: what it reports, and how reading goes on. */
  lemma ArgumentDoes(env: Env, kind: string, w: Token, taken: bool)
    requires Builtin(kind)
    ensures var d := WordDoes(env, w.0, w.1, Ctx(false, Some(kind), taken));
            if "-" <= w.0 && kind != "for" && kind != "select" then
              d == ([], Ctx(false, Some(kind), taken || OptionTakes(kind, w.0)))
            else if taken then d == ([], Ctx(false, Some(kind), false))
            else TakenAs(env, kind, w, d.0, d.1)
  {
    TakesAlike(kind, w.0);
    AssignsAlike(env, w);
    NamesExactly(w.0);
    if NameText(w.0) {
      NoNameIsRedirect(w.0);
    }
    hide Assignment, TakesArg, OptionTakes, IsName, NameText, Assigned, Assign;
  }

  /** An argument that is neither an option nor one's value. */
  predicate TakenAs(env: Env, kind: string, w: Token, events: seq<Event>, next: Ctx) {
    var on, quit := Ctx(false, Some(kind), false), Ctx(false, None, false);
    if kind in {"export", "readonly", "declare", "typeset", "local"} && Assigned(env, w).Some? then
      events == [Assigned(env, w).value] && next == on
    else if !NameText(w.0) then events == [] && next == quit
    else if kind in {"export", "readonly"} then events == [ExportRead(w.0, w.1)] && next == on
    else events == [Define(w.0, w.1)]
         && next == if kind in {"declare", "typeset", "local", "read"} then on else quit
  }

  lemma {:induction false} BuiltinSteps(env: Env, kind: string, ws: seq<Token>, taken: bool)
    requires Builtin(kind)
    ensures Steps(env, ws, Ctx(false, Some(kind), taken)) == BuiltinMeans(env, kind, ws, taken)
    decreases |ws|
  {
    if ws != [] {
      ArgumentDoes(env, kind, ws[0], taken);
      hide WordDoes, OptionTakes, NameText, Assigned, Builtin;
      if "-" <= ws[0].0 && kind != "for" && kind != "select" {
        BuiltinSteps(env, kind, ws[1..], taken || OptionTakes(kind, ws[0].0));
      } else {
        BuiltinSteps(env, kind, ws[1..], false);
        NothingMore(env, ws[1..], Ctx(false, None, false));
      }
    }
  }

  /** So a command means what its words mean, one after the other. */
  lemma {:induction false} CommandSteps(env: Env, ws: seq<Token>)
    ensures Steps(env, ws, START) == CommandMeans(env, ws)
    decreases |ws|
  {
    if ws != [] {
      AssignsAlike(env, ws[0]);
      hide Assignment, Assigned, Assign, BuiltinMeans;
      if Assigned(env, ws[0]).Some? {
        CommandSteps(env, ws[1..]);
      } else if ws[0].0 in KEYWORDS {
        CommandSteps(env, ws[1..]);
      } else if ws[0].0 in BUILTINS {
        BuiltinSteps(env, ws[0].0, ws[1..], false);
      } else {
        NothingMore(env, ws[1..], START.(stmt := false));
      }
    }
  }

  // ----- a command in a text -----

  /** A word that begins neither with a backtick nor with a continued line. */
  predicate Begun(w: Shell) {
    !w.End? && WellFormed(w, None, false)
    && !(w.Group? && w.kind.Backtick?) && !(w.Escape? && w.c == '\n')
  }

  /** Words with a blank between each two. */
  function Spread(ws: seq<Shell>): string {
    if ws == [] then "" else if |ws| == 1 then Render(ws[0]) else Render(ws[0]) + (" " + Spread(ws[1..]))
  }

  function WordsAt(ws: seq<Shell>, at: nat): seq<Token> {
    if ws == [] then [] else [(Render(ws[0]), at)] + WordsAt(ws[1..], at + |Render(ws[0])| + 1)
  }

  /** A word of a command begins a word of the walk. */
  lemma BeginsWord(text: string, i: nat, hi: nat, w: Shell)
    requires Begun(w) && Within(text, i, hi, Render(w))
    ensures i < hi && !Blank(text, i) && !LineContinues(text, i, hi) && !Separator(text, i)
  {
    NotEmpty(w);
    ShownAt(text, i, Render(w), 0);
    if w.Escape? {
      ShownAt(text, i, Render(w), 1);
    }
  }

  /** What ends a command: the end of the range, or a separator. */
  predicate CommandEnds(text: string, e: nat, hi: nat)
    requires hi <= |text|
  {
    e == hi || (e < hi && text[e] in {'\n', ';', '&', '|', ')', '}'})
  }

  lemma OneWord(env: Env, i: nat, hi: nat, w: Shell, ctx: Ctx)
    requires Begun(w) && Within(env.text, i, hi, Render(w)) && EndsThere(env.text, i, i + |Render(w)|, hi, w)
    ensures var d := WordDoes(env, Render(w), i, ctx);
            OwnTrace(env, i, hi, ctx) == d.0 + OwnTrace(env, i + |Render(w)|, hi, d.1)
  {
    hide Word, Render, WellFormed, OwnTrace, Trace, Bodies, WordDoes, Substitutions, EndsThere, Begun, Within;
    hide Blank, Separator, LineContinues, Slice;
    BegunIs(w);
    WordIsRead(env.text, i, hi, w);
    BeginsWord(env.text, i, hi, w);
    SliceIs(env.text, i, hi, Render(w));
    TraceStep(env, i, hi, ctx);
  }

  lemma BegunIs(w: Shell)
    requires Begun(w)
    ensures !w.End? && WellFormed(w, None, false)
  {
  }

  lemma SliceIs(text: string, i: nat, hi: nat, out: string)
    requires Within(text, i, hi, out)
    ensures i + |out| <= hi <= |text| && Slice(text, i, i + |out|) == out
  {
  }

  lemma {:induction false} CommandWalked(env: Env, i: nat, hi: nat, ws: seq<Shell>, ctx: Ctx)
    requires ws != [] && (forall k | 0 <= k < |ws| :: Begun(ws[k])) && Within(env.text, i, hi, Spread(ws))
    requires CommandEnds(env.text, i + |Spread(ws)|, hi)
    ensures OwnTrace(env, i, hi, ctx)
         == Steps(env, WordsAt(ws, i), ctx) + OwnTrace(env, i + |Spread(ws)|, hi, CtxAfter(env, WordsAt(ws, i), ctx))
    decreases |ws|
  {
    hide OwnTrace, WordDoes, Render, Begun, Within, EndsThere, CommandEnds, Blank, LineContinues, Separator;
    var r, rest := Render(ws[0]), ws[1..];
    var e := i + |r|;
    var d := WordDoes(env, r, i, ctx);
    if rest == [] {
      EndsAtCommand(env.text, i, hi, ws[0]);
      OneWord(env, i, hi, ws[0], ctx);
      LastWord(env, r, i, ctx);
    } else {
      SpreadParts(env.text, i, hi, ws);
      OneWord(env, i, hi, ws[0], ctx);
      TraceSkip(env, e, hi, d.1);
      assert forall k | 0 <= k < |rest| :: rest[k] == ws[k + 1];
      CommandWalked(env, e + 1, hi, rest, d.1);
      MoreWords(env, ws, i, ctx);
      AppendAssociates(d.0, Steps(env, WordsAt(rest, e + 1), d.1),
                       OwnTrace(env, i + |Spread(ws)|, hi, CtxAfter(env, WordsAt(ws, i), ctx)));
    }
  }

  lemma EndsAtCommand(text: string, i: nat, hi: nat, w: Shell)
    requires Within(text, i, hi, Render(w)) && CommandEnds(text, i + |Render(w)|, hi)
    ensures EndsThere(text, i, i + |Render(w)|, hi, w)
  {
  }

  /** The first word, the blank behind it, and the rest. */
  lemma SpreadParts(text: string, i: nat, hi: nat, ws: seq<Shell>)
    requires |ws| > 1 && Within(text, i, hi, Spread(ws))
    ensures var e := i + |Render(ws[0])|;
            && Within(text, i, hi, Render(ws[0])) && Within(text, e + 1, hi, Spread(ws[1..]))
            && e < hi <= |text| && Blank(text, e) && EndsThere(text, i, e, hi, ws[0])
            && e + 1 + |Spread(ws[1..])| == i + |Spread(ws)|
  {
    hide Render;
    var r, tail := Render(ws[0]), Spread(ws[1..]);
    assert Spread(ws) == r + (" " + tail);
    hide Spread;
    ShownParts(text, i, r, " " + tail);
    ShownParts(text, i + |r|, " ", tail);
    ShownAt(text, i + |r|, " ", 0);
  }

  lemma LastWord(env: Env, r: string, i: nat, ctx: Ctx)
    ensures var d := WordDoes(env, r, i, ctx);
            Steps(env, [(r, i)], ctx) == d.0 && CtxAfter(env, [(r, i)], ctx) == d.1
  {
    hide WordDoes;
    var one := [(r, i)];
    assert one[1..] == [];
    assert WordDoes(env, r, i, ctx).0 + [] == WordDoes(env, r, i, ctx).0;
  }

  lemma MoreWords(env: Env, ws: seq<Shell>, i: nat, ctx: Ctx)
    requires |ws| > 1
    ensures var r := Render(ws[0]);
            var d := WordDoes(env, r, i, ctx);
            var rest := WordsAt(ws[1..], i + |r| + 1);
            && Steps(env, WordsAt(ws, i), ctx) == d.0 + Steps(env, rest, d.1)
            && CtxAfter(env, WordsAt(ws, i), ctx) == CtxAfter(env, rest, d.1)
  {
    hide WordDoes, Render;
    var all := WordsAt(ws, i);
    assert all[1..] == WordsAt(ws[1..], i + |Render(ws[0])| + 1);
  }

  /** For every command of well-formed words, whatever they nest, and wherever it stands in a
      text: in its own scope the walk reports what the command means, in order, and goes on
      afresh behind the separator. */
  lemma CommandIsRead(env: Env, i: nat, hi: nat, ws: seq<Shell>)
    requires ws != [] && (forall k | 0 <= k < |ws| :: Begun(ws[k])) && Within(env.text, i, hi, Spread(ws))
    requires CommandEnds(env.text, i + |Spread(ws)|, hi)
    ensures var e := i + |Spread(ws)|;
            OwnTrace(env, i, hi, START)
            == CommandMeans(env, WordsAt(ws, i)) + if e < hi then OwnTrace(env, e + 1, hi, START) else []
  {
    var e := i + |Spread(ws)|;
    assert hi <= |env.text|;
    hide OwnTrace, Spread, WordsAt, Steps, CommandMeans, CtxAfter, Begun, Within, CommandEnds, Blank, LineContinues, Separator;
    var after := CtxAfter(env, WordsAt(ws, i), START);
    CommandWalked(env, i, hi, ws, START);
    CommandSteps(env, WordsAt(ws, i));
    EndSeparates(env.text, e, hi);
    if e < hi {
      TraceSkip(env, e, hi, after);
    } else {
      TraceEnd(env, e, hi, after);
    }
  }

  lemma EndSeparates(text: string, e: nat, hi: nat)
    requires hi <= |text| && CommandEnds(text, e, hi)
    ensures e <= hi && (e < hi ==> Separator(text, e) && !Blank(text, e) && !LineContinues(text, e, hi))
  {
  }
}
