/** scan_statements and Defs of deploy/pipeline/check-pipeline-contract.py: definitions in
    statement position, with the substitution bodies of a word in a subshell whose reads
    reach the caller. */
module StatementWalk {
  import opened Text
  import opened WordWalker

  // ----- words -----

  predicate IsNameStart(c: char) { 'A' <= c <= 'Z' || 'a' <= c <= 'z' || c == '_' }

  predicate IsNameChar(c: char) { IsNameStart(c) || '0' <= c <= '9' }

  function NameEnd(w: string, i: nat): (j: nat)
    requires i <= |w|
    ensures i <= j <= |w|
    decreases |w| - i
  {
    if i < |w| && IsNameChar(w[i]) then NameEnd(w, i + 1) else i
  }

  predicate IsName(w: string) { w != "" && IsNameStart(w[0]) && NameEnd(w, 0) == |w| }

  function FindFrom(w: string, c: char, i: nat): (j: nat)
    requires i <= |w|
    ensures i <= j <= |w|
    decreases |w| - i
  {
    if i < |w| && w[i] != c then FindFrom(w, c, i + 1) else i
  }

  /** RE_ASSIGN: the name and the index of the right-hand side. */
  function Assignment(w: string): (m: Option<(string, nat)>)
    ensures m.Some? ==> m.value.1 <= |w|
  {
    if w == "" || !IsNameStart(w[0]) then None
    else
      var name := NameEnd(w, 0);
      var bracket := if name < |w| && w[name] == '[' then FindFrom(w, ']', name) else |w|;
      var idx := if bracket < |w| then bracket + 1 else name;
      var plus := if idx < |w| && w[idx] == '+' then idx + 1 else idx;
      if plus < |w| && w[plus] == '=' then Some((w[..name], plus + 1)) else None
  }

  const KEYWORDS: set<string> :=
    {"then", "do", "else", "elif", "if", "while", "until", "!", "time", "env", "nohup", "exec", "command"}

  const BUILTINS: set<string> :=
    {"export", "readonly", "declare", "typeset", "local", "read", "mapfile", "readarray", "for", "select"}

  // ----- what a word does -----

  /** The offset of the word stands for its line. */
  datatype Event = Define(name: string, at: nat) | SelfRef(name: string, at: nat) | ExportRead(name: string, at: nat)

  /** Statement position, and the builtin whose arguments are being read, if any. */
  datatype Ctx = Ctx(stmt: bool, pending: Option<string>, skip: bool)

  const START := Ctx(true, None, false)

  /** The two texts: the walked one, and the names read between two offsets of the other. */
  datatype Env = Env(text: string, namesIn: (nat, nat) -> set<string>)

  function Assign(env: Env, w: string, at: nat): seq<Event> {
    match Assignment(w)
    case None => []
    case Some(m) => if m.0 in env.namesIn(at + m.1, at + |w|) then [SelfRef(m.0, at)] else [Define(m.0, at)]
  }

  predicate TakesArg(kind: string, w: string) {
    |w| == 2
    && ((kind == "read" && w[1] in {'d', 'n', 'N', 't', 'u', 'p', 'a', 'i'})
        || (kind in {"mapfile", "readarray"} && w[1] in {'d', 'n', 'O', 's', 'u', 'C', 'c'}))
  }

  function Argument(env: Env, w: string, at: nat, ctx: Ctx): (seq<Event>, Ctx)
    requires ctx.pending.Some?
  {
    var kind := ctx.pending.value;
    var quit := ctx.(pending := None, skip := false);
    if "-" <= w && kind !in {"for", "select"} then
      ([], if TakesArg(kind, w) then ctx.(skip := true) else ctx)
    else if ctx.skip then ([], ctx.(skip := false))
    else if kind in {"export", "readonly"} then
      if Assignment(w).Some? then (Assign(env, w, at), ctx)
      else if IsName(w) then ([ExportRead(w, at)], ctx)
      else ([], quit)
    else if kind in {"declare", "typeset", "local"} then
      if Assignment(w).Some? then (Assign(env, w, at), ctx)
      else if IsName(w) then ([Define(w, at)], ctx)
      else ([], quit)
    else if kind == "read" then
      if "<" <= w || !IsName(w) then ([], quit) else ([Define(w, at)], ctx)
    else (if IsName(w) then [Define(w, at)] else [], quit)
  }

  function WordDoes(env: Env, w: string, at: nat, ctx: Ctx): (seq<Event>, Ctx) {
    if ctx.pending.Some? then Argument(env, w, at, ctx)
    else if !ctx.stmt then ([], ctx)
    else if Assignment(w).Some? then (Assign(env, w, at), ctx)
    else if w in KEYWORDS then ([], ctx)
    else if w in BUILTINS then ([], Ctx(false, Some(w), false))
    else ([], ctx.(stmt := false))
  }

  // ----- the walk -----

  /** text[i:j] as Python slices it. */
  function Slice(s: string, i: nat, j: nat): string
    requires i <= |s| && i <= j
  {
    s[i..if j <= |s| then j else |s|]
  }

  predicate Blank(text: string, i: nat)
    requires i < |text|
  {
    text[i] in {' ', '\t'}
  }

  predicate Separator(text: string, i: nat)
    requires i < |text|
  {
    text[i] == '\n' || text[i] in {';', '&', '|', '(', ')', '{', '}', '`'}
  }

  predicate LineContinues(text: string, i: nat, hi: nat)
    requires i < |text|
  {
    text[i] == '\\' && i + 1 < hi && i + 1 < |text| && text[i + 1] == '\n'
  }

  /** A backtick where a word may begin. */
  predicate Bare(text: string, i: nat)
    requires i < |text|
  {
    text[i] == '`'
  }

  lemma WordMovesOn(text: string, i: nat, hi: nat)
    requires i < hi <= |text| && !Blank(text, i) && (!Separator(text, i) || Bare(text, i))
    ensures i < Word(text, i, hi).0
  {
  }

  /** Everything the walk of [i, hi) reports, substitution bodies included, in order. */
  function Trace(env: Env, i: nat, hi: nat, ctx: Ctx): seq<Event>
    requires hi <= |env.text|
    decreases if i <= hi then hi - i else 0, 1, 0
  {
    if i >= hi then []
    else if Blank(env.text, i) then Trace(env, i + 1, hi, ctx)
    else if LineContinues(env.text, i, hi) then Trace(env, i + 2, hi, ctx)
    else if Separator(env.text, i) then Trace(env, i + 1, hi, START)
    else
      WordMovesOn(env.text, i, hi);
      SpansInside(env.text, i, hi, i, []);
      var (end, subs) := Word(env.text, i, hi);
      var (events, ctx') := WordDoes(env, Slice(env.text, i, end), i, ctx);
      Bodies(env, subs, i, hi) + (events + Trace(env, end, hi, ctx'))
  }

  /** The walks of the substitution bodies of one word, each from a fresh context. */
  function Bodies(env: Env, subs: seq<Span>, i: nat, hi: nat): seq<Event>
    requires i < hi <= |env.text| && forall s | s in subs :: i < s.0 <= s.1 < hi
    decreases hi - i, 0, |subs|
  {
    if subs == [] then []
    else Trace(env, subs[0].0, subs[0].1, START) + Bodies(env, subs[1..], i, hi)
  }

  /** What the walk reports in the scope it runs in: it steps over the substitution bodies
      of each word, but a backtick that begins a word is a separator like any other. */
  function OwnTrace(env: Env, i: nat, hi: nat, ctx: Ctx): seq<Event>
    requires hi <= |env.text|
    decreases if i <= hi then hi - i else 0
  {
    if i >= hi then []
    else if Blank(env.text, i) then OwnTrace(env, i + 1, hi, ctx)
    else if LineContinues(env.text, i, hi) then OwnTrace(env, i + 2, hi, ctx)
    else if Separator(env.text, i) then OwnTrace(env, i + 1, hi, START)
    else
      WordMovesOn(env.text, i, hi);
      var (end, subs) := Word(env.text, i, hi);
      var (events, ctx') := WordDoes(env, Slice(env.text, i, end), i, ctx);
      events + OwnTrace(env, end, hi, ctx')
  }

  // ----- what the events amount to -----

  function LineOf(text: string, pos: nat): nat {
    if pos == 0 then 1 else LineOf(text, pos - 1) + if pos <= |text| && text[pos - 1] == '\n' then 1 else 0
  }

  /** name -> its first line; later definitions change nothing. */
  function Defined(text: string, m: map<string, nat>, events: seq<Event>): map<string, nat>
    decreases |events|
  {
    if events == [] then m
    else
      var e := events[0];
      Defined(text, if e.Define? && e.name !in m then m[e.name := LineOf(text, e.at)] else m, events[1..])
  }

  /** name -> the lines of all its self-referring assignments. */
  function SelfRefs(text: string, m: map<string, seq<nat>>, events: seq<Event>): map<string, seq<nat>>
    decreases |events|
  {
    if events == [] then m
    else
      var e := events[0];
      SelfRefs(text,
               if e.SelfRef? then m[e.name := (if e.name in m then m[e.name] else []) + [LineOf(text, e.at)]] else m,
               events[1..])
  }

  function ExportReads(events: seq<Event>): seq<(string, nat)> {
    if events == [] then []
    else (if events[0].ExportRead? then [(events[0].name, events[0].at)] else []) + ExportReads(events[1..])
  }

  lemma {:induction false} DefinedAppend(text: string, m: map<string, nat>, a: seq<Event>, b: seq<Event>)
    ensures Defined(text, m, a + b) == Defined(text, Defined(text, m, a), b)
    decreases |a|
  {
    if a == [] {
      assert a + b == b;
    } else {
      assert (a + b)[1..] == a[1..] + b;
      var e := a[0];
      DefinedAppend(text, if e.Define? && e.name !in m then m[e.name := LineOf(text, e.at)] else m, a[1..], b);
    }
  }

  lemma {:induction false} SelfRefsAppend(text: string, m: map<string, seq<nat>>, a: seq<Event>, b: seq<Event>)
    ensures SelfRefs(text, m, a + b) == SelfRefs(text, SelfRefs(text, m, a), b)
    decreases |a|
  {
    if a == [] {
      assert a + b == b;
    } else {
      assert (a + b)[1..] == a[1..] + b;
      var e := a[0];
      SelfRefsAppend(text,
                     if e.SelfRef? then m[e.name := (if e.name in m then m[e.name] else []) + [LineOf(text, e.at)]] else m,
                     a[1..], b);
    }
  }

  lemma {:induction false} ExportReadsAppend(a: seq<Event>, b: seq<Event>)
    ensures ExportReads(a + b) == ExportReads(a) + ExportReads(b)
  {
    if a == [] {
      assert a + b == b;
    } else {
      assert (a + b)[1..] == a[1..] + b;
      ExportReadsAppend(a[1..], b);
      AppendAssociates(ExportReads([a[0]]), ExportReads(a[1..]), ExportReads(b));
    }
  }

  /** A name ends up defined exactly when it was or some event defines it. */
  lemma {:induction false} DefinedNames(text: string, m: map<string, nat>, events: seq<Event>, name: string)
    ensures name in Defined(text, m, events)
            <==> name in m || exists e :: e in events && e.Define? && e.name == name
    ensures name in m ==> Defined(text, m, events)[name] == m[name]
    decreases |events|
  {
    if events != [] {
      var e := events[0];
      DefinedNames(text, if e.Define? && e.name !in m then m[e.name := LineOf(text, e.at)] else m, events[1..], name);
      assert forall x :: x in events <==> x == e || x in events[1..];
    }
  }

  // ----- the walk as it runs -----

  /** The lists a scope shares with its subshells. */
  class Reads {
    var selfref: map<string, seq<nat>>
    var exportReads: seq<(string, nat)>

    constructor ()
      ensures selfref == map[] && exportReads == []
    {
      selfref, exportReads := map[], [];
    }

    /** The lists after more events. */
    ghost predicate Took(text: string, selfref0: map<string, seq<nat>>, exports0: seq<(string, nat)>,
                         events: seq<Event>)
      reads this
    {
      selfref == SelfRefs(text, selfref0, events) && exportReads == exports0 + ExportReads(events)
    }
  }

  class Defs {
    var defined: map<string, nat>
    const shared: Reads

    constructor (defined: map<string, nat>, shared: Reads)
      ensures this.defined == defined && this.shared == shared
    {
      this.defined, this.shared := defined, shared;
    }

    /** A subshell: its own copy of the definitions, the parent's own lists of reads. */
    method Scoped() returns (child: Defs)
      ensures fresh(child) && child.defined == defined && child.shared == shared
    {
      child := new Defs(defined, shared);
    }

    method Apply(text: string, e: Event)
      modifies this, shared
      ensures defined == Defined(text, old(defined), [e])
      ensures shared.Took(text, old(shared.selfref), old(shared.exportReads), [e])
    {
      match e
      case Define(name, at) =>
        if name !in defined {
          defined := defined[name := LineOf(text, at)];
        }
      case SelfRef(name, at) =>
        var lines := if name in shared.selfref then shared.selfref[name] else [];
        shared.selfref := shared.selfref[name := lines + [LineOf(text, at)]];
      case ExportRead(name, at) =>
        shared.exportReads := shared.exportReads + [(name, at)];
    }
  }

  lemma TookMore(text: string, reads0: map<string, seq<nat>>, exports0: seq<(string, nat)>,
                 a: seq<Event>, b: seq<Event>)
    ensures SelfRefs(text, SelfRefs(text, reads0, a), b) == SelfRefs(text, reads0, a + b)
    ensures (exports0 + ExportReads(a)) + ExportReads(b) == exports0 + ExportReads(a + b)
  {
    SelfRefsAppend(text, reads0, a, b);
    ExportReadsAppend(a, b);
    AppendAssociates(exports0, ExportReads(a), ExportReads(b));
  }

  method ApplyAll(text: string, defs: Defs, events: seq<Event>)
    modifies defs, defs.shared
    ensures defs.defined == Defined(text, old(defs.defined), events)
    ensures defs.shared.Took(text, old(defs.shared.selfref), old(defs.shared.exportReads), events)
  {
    hide Defined, SelfRefs, ExportReads;
    NoEvents(text, defs.defined, defs.shared.selfref);
    for n := 0 to |events|
      invariant defs.defined == Defined(text, old(defs.defined), events[..n])
      invariant defs.shared.Took(text, old(defs.shared.selfref), old(defs.shared.exportReads), events[..n])
    {
      defs.Apply(text, events[n]);
      assert events[..n + 1] == events[..n] + [events[n]];
      DefinedAppend(text, old(defs.defined), events[..n], [events[n]]);
      TookMore(text, old(defs.shared.selfref), old(defs.shared.exportReads), events[..n], [events[n]]);
    }
    assert events[..|events|] == events;
  }

  lemma NoEvents(text: string, m: map<string, nat>, reads0: map<string, seq<nat>>)
    ensures Defined(text, m, []) == m && SelfRefs(text, reads0, []) == reads0 && ExportReads([]) == []
  {
  }

  /** What is left of a walk, seen from index i. */
  lemma TraceStep(env: Env, i: nat, hi: nat, ctx: Ctx)
    requires i < hi <= |env.text| && !Blank(env.text, i) && !LineContinues(env.text, i, hi) && !Separator(env.text, i)
    ensures var (end, subs) := Word(env.text, i, hi);
            var does := WordDoes(env, Slice(env.text, i, end), i, ctx);
            && i < end
            && (forall s | s in subs :: i < s.0 <= s.1 < hi)
            && Trace(env, i, hi, ctx) == (Bodies(env, subs, i, hi) + does.0) + Trace(env, end, hi, does.1)
            && OwnTrace(env, i, hi, ctx) == does.0 + OwnTrace(env, end, hi, does.1)
  {
    WordMovesOn(env.text, i, hi);
    SpansInside(env.text, i, hi, i, []);
    var (end, subs) := Word(env.text, i, hi);
    var does := WordDoes(env, Slice(env.text, i, end), i, ctx);
    AppendAssociates(Bodies(env, subs, i, hi), does.0, Trace(env, end, hi, does.1));
  }

  lemma TraceSkip(env: Env, i: nat, hi: nat, ctx: Ctx)
    requires i < hi <= |env.text|
    ensures Blank(env.text, i) ==> Trace(env, i, hi, ctx) == Trace(env, i + 1, hi, ctx)
                                   && OwnTrace(env, i, hi, ctx) == OwnTrace(env, i + 1, hi, ctx)
    ensures !Blank(env.text, i) && LineContinues(env.text, i, hi)
            ==> Trace(env, i, hi, ctx) == Trace(env, i + 2, hi, ctx)
                && OwnTrace(env, i, hi, ctx) == OwnTrace(env, i + 2, hi, ctx)
    ensures !Blank(env.text, i) && !LineContinues(env.text, i, hi) && Separator(env.text, i)
            ==> Trace(env, i, hi, ctx) == Trace(env, i + 1, hi, START)
                && OwnTrace(env, i, hi, ctx) == OwnTrace(env, i + 1, hi, START)
  {
  }

  lemma TraceEnd(env: Env, i: nat, hi: nat, ctx: Ctx)
    requires hi <= i && hi <= |env.text|
    ensures Trace(env, i, hi, ctx) == [] && OwnTrace(env, i, hi, ctx) == []
  {
  }

  /** scan_statements. The caller's definitions change by the walk that steps over
      substitution bodies; the shared reads take everything. */
  method ScanStatements(env: Env, lo: nat, hi: nat, defs: Defs)
    requires lo <= hi <= |env.text|
    modifies defs, defs.shared
    ensures defs.defined == Defined(env.text, old(defs.defined), OwnTrace(env, lo, hi, START))
    ensures defs.shared.Took(env.text, old(defs.shared.selfref), old(defs.shared.exportReads),
                             Trace(env, lo, hi, START))
    decreases hi - lo, 1, 0
  {
    hide Defined, SelfRefs, ExportReads, Trace, OwnTrace, Bodies, WordDoes, Word, LineContinues, Blank, Separator;
    var i := lo;
    var ctx := START;
    ghost var own, all: seq<Event> := [], [];
    NoEvents(env.text, defs.defined, defs.shared.selfref);
    while i < hi
      invariant lo <= i
      invariant OwnTrace(env, lo, hi, START) == own + OwnTrace(env, i, hi, ctx)
      invariant Trace(env, lo, hi, START) == all + Trace(env, i, hi, ctx)
      invariant defs.defined == Defined(env.text, old(defs.defined), own)
      invariant defs.shared.Took(env.text, old(defs.shared.selfref), old(defs.shared.exportReads), all)
      decreases hi - i
    {
      TraceSkip(env, i, hi, ctx);
      if Blank(env.text, i) {
        i := i + 1;
      } else if LineContinues(env.text, i, hi) {
        i := i + 2;
      } else if Separator(env.text, i) {
        i := i + 1;
        ctx := START;
      } else {
        TraceStep(env, i, hi, ctx);
        var end, subs := ConsumeWord(env.text, i, hi);
        var does := WordDoes(env, Slice(env.text, i, end), i, ctx);
        ghost var bodies := Bodies(env, subs, i, hi);
        ScanWord(env, subs, i, hi, defs, does.0);
        DefinedAppend(env.text, old(defs.defined), own, does.0);
        TookMore(env.text, old(defs.shared.selfref), old(defs.shared.exportReads), all, bodies + does.0);
        AppendAssociates(own, does.0, OwnTrace(env, end, hi, does.1));
        AppendAssociates(all, bodies + does.0, Trace(env, end, hi, does.1));
        own, all := own + does.0, all + (bodies + does.0);
        i, ctx := end, does.1;
      }
    }
    TraceEnd(env, i, hi, ctx);
    assert own + [] == own && all + [] == all;
  }

  /** One word: its substitution bodies in subshells, then what it does itself. */
  method ScanWord(env: Env, subs: seq<Span>, i: nat, hi: nat, defs: Defs, events: seq<Event>)
    requires i < hi <= |env.text| && forall s | s in subs :: i < s.0 <= s.1 < hi
    modifies defs, defs.shared
    ensures defs.defined == Defined(env.text, old(defs.defined), events)
    ensures defs.shared.Took(env.text, old(defs.shared.selfref), old(defs.shared.exportReads),
                             Bodies(env, subs, i, hi) + events)
    decreases hi - i, 0, |subs| + 1
  {
    hide Defined, SelfRefs, ExportReads, Bodies;
    ScanBodies(env, subs, i, hi, defs);
    ApplyAll(env.text, defs, events);
    TookMore(env.text, old(defs.shared.selfref), old(defs.shared.exportReads), Bodies(env, subs, i, hi), events);
  }

  method ScanBodies(env: Env, subs: seq<Span>, i: nat, hi: nat, defs: Defs)
    requires i < hi <= |env.text| && forall s | s in subs :: i < s.0 <= s.1 < hi
    modifies defs.shared
    ensures defs.shared.Took(env.text, old(defs.shared.selfref), old(defs.shared.exportReads), Bodies(env, subs, i, hi))
    decreases hi - i, 0, |subs|
  {
    hide Defined, SelfRefs, ExportReads, Trace, OwnTrace, Bodies;
    NoEvents(env.text, defs.defined, defs.shared.selfref);
    ghost var done: seq<Event> := [];
    var n := 0;
    assert subs[0..] == subs;
    while n < |subs|
      invariant n <= |subs|
      invariant Bodies(env, subs, i, hi) == done + Bodies(env, subs[n..], i, hi)
      invariant defs.shared.Took(env.text, old(defs.shared.selfref), old(defs.shared.exportReads), done)
    {
      var s := subs[n];
      assert subs[n..][1..] == subs[n + 1..];
      BodiesStep(env, subs[n..], i, hi);
      ghost var body := Trace(env, s.0, s.1, START);
      var child := defs.Scoped();
      ScanStatements(env, s.0, s.1, child);
      TookMore(env.text, old(defs.shared.selfref), old(defs.shared.exportReads), done, body);
      AppendAssociates(done, body, Bodies(env, subs[n + 1..], i, hi));
      done := done + body;
      n := n + 1;
    }
    BodiesStep(env, subs[n..], i, hi);
    assert done + [] == done;
  }

  lemma BodiesStep(env: Env, subs: seq<Span>, i: nat, hi: nat)
    requires i < hi <= |env.text| && forall s | s in subs :: i < s.0 <= s.1 < hi
    ensures Bodies(env, subs, i, hi)
         == if subs == [] then [] else Trace(env, subs[0].0, subs[0].1, START) + Bodies(env, subs[1..], i, hi)
  {
  }

  // ----- what reaches the caller -----

  lemma {:induction false} BodyInBodies(env: Env, subs: seq<Span>, i: nat, hi: nat, s: Span, e: Event)
    requires i < hi <= |env.text| && forall s | s in subs :: i < s.0 <= s.1 < hi
    requires s in subs && e in Trace(env, s.0, s.1, START)
    ensures e in Bodies(env, subs, i, hi)
  {
    if s != subs[0] {
      BodyInBodies(env, subs[1..], i, hi, s, e);
    }
  }

  /** Every event of a substitution body, its reads among them, is in the walk of the
      word that holds it, and so is everything the word's own walk reports. */
  lemma BodiesReachCaller(env: Env, i: nat, hi: nat, ctx: Ctx, s: Span, e: Event)
    requires i < hi <= |env.text| && !Blank(env.text, i) && !LineContinues(env.text, i, hi) && !Separator(env.text, i)
    requires s in Word(env.text, i, hi).1 && s.0 <= s.1 <= |env.text| && e in Trace(env, s.0, s.1, START)
    ensures e in Trace(env, i, hi, ctx)
  {
    TraceStep(env, i, hi, ctx);
    BodyInBodies(env, Word(env.text, i, hi).1, i, hi, s, e);
  }

  lemma {:induction false} OwnEventsReach(env: Env, i: nat, hi: nat, ctx: Ctx, e: Event)
    requires hi <= |env.text| && e in OwnTrace(env, i, hi, ctx)
    ensures e in Trace(env, i, hi, ctx)
    decreases if i <= hi then hi - i else 0
  {
    hide Trace, OwnTrace, Bodies, WordDoes;
    if i >= hi {
      TraceEnd(env, i, hi, ctx);
    } else {
      TraceSkip(env, i, hi, ctx);
      if Blank(env.text, i) {
        OwnEventsReach(env, i + 1, hi, ctx, e);
      } else if LineContinues(env.text, i, hi) {
        OwnEventsReach(env, i + 2, hi, ctx, e);
      } else if Separator(env.text, i) {
        OwnEventsReach(env, i + 1, hi, START, e);
      } else {
        TraceStep(env, i, hi, ctx);
        var w := Word(env.text, i, hi);
        var does := WordDoes(env, Slice(env.text, i, w.0), i, ctx);
        if e !in does.0 {
          OwnEventsReach(env, w.0, hi, does.1, e);
        }
      }
    }
  }

  // ----- the scope of a substitution body -----

  /** Where the walk of [i, hi) looks next. */
  function Next(text: string, i: nat, hi: nat): (j: nat)
    requires i < hi <= |text|
    ensures i < j
  {
    if Blank(text, i) then i + 1
    else if LineContinues(text, i, hi) then i + 2
    else if Separator(text, i) then i + 1
    else
      WordMovesOn(text, i, hi);
      Word(text, i, hi).0
  }

  /** And where it would, if a backtick could begin a word, as it does in the shell. */
  function ShellNext(text: string, i: nat, hi: nat): (j: nat)
    requires i < hi <= |text|
    ensures i < j
  {
    if Bare(text, i) then
      WordMovesOn(text, i, hi);
      Word(text, i, hi).0
    else Next(text, i, hi)
  }

  /** The walk of [i, hi) looks at p: p is in the caller's own scope. */
  predicate Walked(text: string, i: nat, hi: nat, p: nat)
    requires hi <= |text|
    decreases hi - i
  {
    i < hi && (p == i || Walked(text, Next(text, i, hi), hi, p))
  }

  predicate ShellWalked(text: string, i: nat, hi: nat, p: nat)
    requires hi <= |text|
    decreases hi - i
  {
    i < hi && (p == i || ShellWalked(text, ShellNext(text, i, hi), hi, p))
  }

  lemma {:induction false} WalkedAhead(text: string, i: nat, hi: nat, p: nat)
    requires hi <= |text| && (Walked(text, i, hi, p) || ShellWalked(text, i, hi, p))
    ensures i <= p < hi
    decreases hi - i
  {
    hide Next, ShellNext;
    if p != i {
      if Walked(text, i, hi, p) {
        WalkedAhead(text, Next(text, i, hi), hi, p);
      } else {
        WalkedAhead(text, ShellNext(text, i, hi), hi, p);
      }
    }
  }

  /** The shell's walk of a word steps over everything inside it. */
  lemma {:induction false} NothingInside(text: string, i: nat, hi: nat, k: nat, p: nat)
    requires k < hi <= |text| && ShellWalked(text, i, hi, k) && k < p < ShellNext(text, k, hi)
    ensures !ShellWalked(text, i, hi, p)
    decreases hi - i
  {
    hide ShellNext;
    WalkedAhead(text, i, hi, k);
    if k == i {
      if ShellWalked(text, ShellNext(text, i, hi), hi, p) {
        WalkedAhead(text, ShellNext(text, i, hi), hi, p);
      }
    } else {
      WalkedAhead(text, ShellNext(text, i, hi), hi, k);
      NothingInside(text, ShellNext(text, i, hi), hi, k, p);
    }
  }

  /** p lies in a substitution body of some word, as the shell reads the range. */
  ghost predicate InBody(text: string, lo: nat, hi: nat, p: nat)
    requires hi <= |text|
  {
    exists k: nat, s: Span | lo <= k < hi && BodyAt(text, lo, hi, k, s) :: s.0 <= p <= s.1
  }

  predicate BodyAt(text: string, lo: nat, hi: nat, k: nat, s: Span)
    requires k < hi <= |text|
  {
    ShellWalked(text, lo, hi, k) && ShellNext(text, k, hi) == Word(text, k, hi).0 && s in Word(text, k, hi).1
  }

  /** A substitution body is never in the shell's own scope. */
  lemma BodiesNotWalked(text: string, lo: nat, hi: nat, p: nat)
    requires hi <= |text| && InBody(text, lo, hi, p)
    ensures !ShellWalked(text, lo, hi, p)
  {
    var k: nat, s: Span :| lo <= k < hi && BodyAt(text, lo, hi, k, s) && s.0 <= p <= s.1;
    SpansInside(text, k, hi, k, []);
    hide ShellNext, Consume;
    NothingInside(text, lo, hi, k, p);
  }

  /** Some backtick begins a word before the last character of the range. */
  ghost predicate BareBacktick(text: string, lo: nat, hi: nat)
    requires hi <= |text|
  {
    exists p | 0 <= p < hi - 1 :: Walked(text, lo, hi, p) && Bare(text, p)
  }

  lemma BareLater(text: string, lo: nat, hi: nat)
    requires lo < hi <= |text| && BareBacktick(text, Next(text, lo, hi), hi)
    ensures BareBacktick(text, lo, hi)
  {
    var p :| 0 <= p < hi - 1 && Walked(text, Next(text, lo, hi), hi, p) && Bare(text, p);
    assert Walked(text, lo, hi, p);
  }

  lemma {:induction false} SameWalk(text: string, lo: nat, hi: nat, p: nat)
    requires hi <= |text| && Walked(text, lo, hi, p) && !BareBacktick(text, lo, hi)
    ensures ShellWalked(text, lo, hi, p)
    decreases hi - lo
  {
    hide Next;
    if p != lo {
      var next := Next(text, lo, hi);
      WalkedAhead(text, next, hi, p);
      assert Walked(text, lo, hi, lo);
      assert !Bare(text, lo);
      if BareBacktick(text, next, hi) {
        BareLater(text, lo, hi);
      }
      SameWalk(text, next, hi, p);
    }
  }

  /** A word that begins with a backtick is more than that. */
  lemma BacktickGoesOn(text: string, i: nat, hi: nat)
    requires i + 1 < hi <= |text| && Bare(text, i)
    ensures Word(text, i, hi).0 > i + 1
  {
    var o := Open('`', Backtick, i + 1);
    assert [] + [o] == [o];
    assert WordTurn(text, i, hi, i, []) == Go(i + 1, [o]);
    ConsumeStep(text, i, hi, i, []);
    ConsumeStep(text, i + 1, hi, i, [o]);
  }

  lemma {:induction false} WalksPart(text: string, lo: nat, hi: nat, p: nat) returns (q: nat)
    requires hi <= |text| && 0 <= p < hi - 1 && Walked(text, lo, hi, p) && Bare(text, p)
    ensures Walked(text, lo, hi, q) && !ShellWalked(text, lo, hi, q)
    decreases hi - lo
  {
    WalkedAhead(text, lo, hi, p);
    if Bare(text, lo) {
      q := lo + 1;
      BacktickGoesOn(text, lo, hi);
      assert Next(text, lo, hi) == q;
      assert Walked(text, q, hi, q);
      NothingInside(text, lo, hi, lo, q);
    } else {
      hide Next;
      q := WalksPart(text, Next(text, lo, hi), hi, p);
      WalkedAhead(text, Next(text, lo, hi), hi, q);
    }
  }

  /** The walk keeps to the caller's scope, as the shell has it, exactly when no backtick
      begins a word, one at the very end of the range apart. */
  lemma ScopedExactly(text: string, lo: nat, hi: nat)
    requires hi <= |text|
    ensures (forall p | Walked(text, lo, hi, p) :: ShellWalked(text, lo, hi, p)) <==> !BareBacktick(text, lo, hi)
  {
    if BareBacktick(text, lo, hi) {
      var p :| 0 <= p < hi - 1 && Walked(text, lo, hi, p) && Bare(text, p);
      var q := WalksPart(text, lo, hi, p);
    } else {
      forall p | Walked(text, lo, hi, p) ensures ShellWalked(text, lo, hi, p) {
        SameWalk(text, lo, hi, p);
      }
    }
  }

  lemma WordDoesAt(env: Env, w: string, at: nat, ctx: Ctx, e: Event)
    requires e in WordDoes(env, w, at, ctx).0
    ensures e.at == at
  {
    hide Assignment, IsName;
  }

  /** What is reported in the caller's scope stands where its walk looked. */
  lemma {:induction false} OwnEventsWalked(env: Env, i: nat, hi: nat, ctx: Ctx, e: Event)
    requires hi <= |env.text| && e in OwnTrace(env, i, hi, ctx)
    ensures Walked(env.text, i, hi, e.at)
    decreases if i <= hi then hi - i else 0
  {
    hide OwnTrace, WordDoes, Bodies, Trace;
    if i >= hi {
      TraceEnd(env, i, hi, ctx);
    } else {
      TraceSkip(env, i, hi, ctx);
      var next := Next(env.text, i, hi);
      if Blank(env.text, i) || LineContinues(env.text, i, hi) {
        OwnEventsWalked(env, next, hi, ctx, e);
      } else if Separator(env.text, i) {
        OwnEventsWalked(env, next, hi, START, e);
      } else {
        TraceStep(env, i, hi, ctx);
        var w := Slice(env.text, i, Word(env.text, i, hi).0);
        if e in WordDoes(env, w, i, ctx).0 {
          WordDoesAt(env, w, i, ctx, e);
        } else {
          OwnEventsWalked(env, next, hi, WordDoes(env, w, i, ctx).1, e);
        }
      }
    }
  }

  /** So without such a backtick nothing in a substitution body defines, or is reported
      as read, in the caller's scope. */
  lemma NothingLeaks(env: Env, lo: nat, hi: nat, ctx: Ctx, e: Event)
    requires hi <= |env.text| && !BareBacktick(env.text, lo, hi) && e in OwnTrace(env, lo, hi, ctx)
    ensures !InBody(env.text, lo, hi, e.at)
  {
    OwnEventsWalked(env, lo, hi, ctx, e);
    SameWalk(env.text, lo, hi, e.at);
    if InBody(env.text, lo, hi, e.at) {
      BodiesNotWalked(env.text, lo, hi, e.at);
    }
  }

  /** With one, the body it opens is walked in the caller's scope: an assignment there
      defines the caller's name. */
  lemma BareBacktickLeaks(env: Env, i: nat, hi: nat, ctx: Ctx)
    requires i + 1 < hi <= |env.text| && Bare(env.text, i)
    ensures OwnTrace(env, i, hi, ctx) == OwnTrace(env, i + 1, hi, START)
    ensures !Blank(env.text, i + 1) && !LineContinues(env.text, i + 1, hi) && !Separator(env.text, i + 1) ==>
              var w := Slice(env.text, i + 1, Word(env.text, i + 1, hi).0);
              forall e | e in WordDoes(env, w, i + 1, START).0 :: e in OwnTrace(env, i, hi, ctx)
  {
    hide Word, WordDoes;
    TraceSkip(env, i, hi, ctx);
    if !Blank(env.text, i + 1) && !LineContinues(env.text, i + 1, hi) && !Separator(env.text, i + 1) {
      TraceStep(env, i + 1, hi, START);
    }
  }

  /** A text on which that happens. */
  lemma ABodyDefinesTheCaller(env: Env, ctx: Ctx)
    requires env.text == "`A=1 x`" && "A" !in env.namesIn(3, 4)
    ensures InBody(env.text, 0, 7, 1) && Define("A", 1) in OwnTrace(env, 0, 7, ctx)
  {
    TheBody(env.text);
    TheAssignment(env.text);
    BareBacktickLeaks(env, 0, 7, ctx);
    hide OwnTrace, Word, Assignment, InBody;
    assert WordDoes(env, "A=1", 1, START).0 == [Define("A", 1)];
  }

  lemma TheBody(text: string)
    requires text == "`A=1 x`"
    ensures InBody(text, 0, 7, 1)
  {
    ClosedBacktick(text, 0, 6, 7);
    hide Word, Next;
    assert ShellWalked(text, 0, 7, 0);
    assert BodyAt(text, 0, 7, 0, (1, 6));
  }

  /** A backtick and the next one make a span, with no backslash in between. */
  lemma ClosedBacktick(text: string, i: nat, m: nat, hi: nat)
    requires i < m < hi <= |text| && text[i] == text[m] == '`'
    requires forall x | i < x < m :: text[x] != '`' && text[x] != '\\'
    ensures (i + 1, m) in Word(text, i, hi).1
  {
    hide Consume, WordTurn, Word;
    var o := Open('`', Backtick, i + 1);
    BacktickRuns(text, i + 1, m, hi, i, o);
    BacktickOpens(text, i, hi, o);
    BacktickCloses(text, m, hi, i, o);
  }

  lemma BacktickOpens(text: string, i: nat, hi: nat, o: Open)
    requires i < hi <= |text| && text[i] == '`' && o == Open('`', Backtick, i + 1)
    ensures Word(text, i, hi).1 == Consume(text, i + 1, hi, i, [o]).1
  {
    assert [] + [o] == [o];
    ConsumeStep(text, i, hi, i, []);
    hide Consume;
    assert [] + Consume(text, i + 1, hi, i, [o]).1 == Consume(text, i + 1, hi, i, [o]).1;
  }

  lemma BacktickCloses(text: string, m: nat, hi: nat, start: nat, o: Open)
    requires start <= m < hi <= |text| && text[m] == '`' && o.kind == Backtick
    ensures (o.start, m) in Consume(text, m, hi, start, [o]).1
  {
    ConsumeStep(text, m, hi, start, [o]);
    hide Consume;
    assert WordTurn(text, m, hi, start, [o]).sub == Some((o.start, m));
  }

  lemma TheAssignment(text: string)
    requires text == "`A=1 x`"
    ensures Slice(text, 1, Word(text, 1, 7).0) == "A=1" && Assignment("A=1") == Some(("A", 2))
  {
    hide Consume;
    PlainRuns(text, 1, 4, 7, 1);
    ConsumeStep(text, 4, 7, 1, []);
    NameEndsAt("A=1", 0, 1);
    assert "A=1"[..1] == "A";
  }

  lemma {:induction false} BacktickRuns(text: string, k: nat, m: nat, hi: nat, start: nat, o: Open)
    requires start <= k <= m < hi <= |text| && o.kind == Backtick
    requires forall x | k <= x < m :: text[x] != '`' && text[x] != '\\'
    ensures Consume(text, k, hi, start, [o]) == Consume(text, m, hi, start, [o])
    decreases m - k
  {
    if k < m {
      ConsumeStep(text, k, hi, start, [o]);
      assert WordTurn(text, k, hi, start, [o]) == Go(k + 1, [o]);
      BacktickRuns(text, k + 1, m, hi, start, o);
      assert [] + Consume(text, k + 1, hi, start, [o]).1 == Consume(text, k + 1, hi, start, [o]).1;
    }
  }

  predicate Plain(c: char) { IsNameChar(c) || c == '=' }

  lemma {:induction false} PlainRuns(text: string, k: nat, m: nat, hi: nat, start: nat)
    requires start <= k <= m < hi <= |text|
    requires forall x | k <= x < m :: Plain(text[x])
    ensures Consume(text, k, hi, start, []) == Consume(text, m, hi, start, [])
    decreases m - k
  {
    if k < m {
      ConsumeStep(text, k, hi, start, []);
      assert WordTurn(text, k, hi, start, []) == Go(k + 1, []);
      PlainRuns(text, k + 1, m, hi, start);
      assert [] + Consume(text, k + 1, hi, start, []).1 == Consume(text, k + 1, hi, start, []).1;
    }
  }

  lemma {:induction false} BacktickStaysOpen(text: string, k: nat, hi: nat, start: nat, o: Open)
    requires start <= k <= hi <= |text| && o.kind == Backtick
    requires forall m | k <= m < hi :: text[m] != '`' && text[m] != '\\'
    ensures Consume(text, k, hi, start, [o]).0 == hi
    decreases hi - k
  {
    if k < hi {
      assert WordTurn(text, k, hi, start, [o]) == Go(k + 1, [o]);
      BacktickStaysOpen(text, k + 1, hi, start, o);
    }
  }

  lemma {:induction false} NameRunsIntoBacktick(text: string, k: nat, j: nat, hi: nat, start: nat)
    requires start <= k <= j < hi <= |text| && text[j] == '`'
    requires forall m | k <= m < j :: IsNameChar(text[m])
    requires forall m | j < m < hi :: text[m] != '`' && text[m] != '\\'
    ensures Consume(text, k, hi, start, []).0 == hi
    decreases j - k
  {
    if k < j {
      assert WordTurn(text, k, hi, start, []) == Go(k + 1, []);
      NameRunsIntoBacktick(text, k + 1, j, hi, start);
    } else {
      var o := Open('`', Backtick, j + 1);
      assert WordTurn(text, k, hi, start, []) == Go(j + 1, [o]) by { assert [] + [o] == [o]; }
      BacktickStaysOpen(text, j + 1, hi, start, o);
    }
  }

  lemma {:induction false} NameEndsAt(w: string, i: nat, n: nat)
    requires i <= n < |w| && !IsNameChar(w[n]) && forall m | i <= m < n :: IsNameChar(w[m])
    ensures NameEnd(w, i) == n
    decreases n - i
  {
    if i < n {
      NameEndsAt(w, i + 1, n);
    }
  }

  lemma NotAnAssignment(env: Env, w: string, n: nat, at: nat)
    requires 0 < n < |w| && w[n] == '`' && forall m | 0 <= m < n :: IsNameChar(w[m])
    ensures WordDoes(env, w, at, START).0 == []
  {
    NameEndsAt(w, 0, n);
  }

  /** The partner of such a backtick, met inside the body's last word, opens a substitution
      instead of closing one: after a body that is one name, and with no later backtick,
      nothing in the rest of the text is a definition, whatever assignments stand there. */
  lemma LeadingBacktickSwallows(env: Env, i: nat, j: nat, ctx: Ctx)
    requires i + 1 < j < |env.text| && env.text[i] == env.text[j] == '`'
    requires forall m | i < m < j :: IsNameChar(env.text[m])
    requires forall m | j < m < |env.text| :: env.text[m] != '`' && env.text[m] != '\\'
    ensures OwnTrace(env, i, |env.text|, ctx) == []
  {
    hide Consume, OwnTrace, WordTurn, WordDoes, Bodies;
    var hi := |env.text|;
    TraceSkip(env, i, hi, ctx);
    assert IsNameChar(env.text[i + 1]);
    TraceStep(env, i + 1, hi, START);
    NameRunsIntoBacktick(env.text, i + 1, j, hi, i + 1);
    var w := Slice(env.text, i + 1, hi);
    assert w[j - i - 1] == '`' && forall m | 0 <= m < j - i - 1 :: w[m] == env.text[i + 1 + m];
    NotAnAssignment(env, w, j - i - 1, i + 1);
    TraceEnd(env, hi, hi, WordDoes(env, w, i + 1, START).1);
  }
}
