/** merge-codex-config.py: split a user's config.toml into the parts that are the
    user's, and merge ours around them. The generator of our part is
    codex_config_fragment of models_registry.py. Files are sequences of characters, cut
    into lines where Python's splitlines cuts them; the proof goes by lines, ours and the
    user's, and by what each of the split's two flags does with them. */
module CodexConfig {
  import opened Text
  import opened PyText

  // ----- what belongs to us -----

  const OURS: seq<string> :=
    ["model", "model_provider", "model_context_window", "model_max_output_tokens", "web_search"]

  /** OURS_TOP_LEVEL_RE: optional space, one of our keys, optional space, "=". */
  predicate IsOurKey(line: string) {
    exists k | 0 <= k < |OURS| :: AssignsKey(LStrip(line), OURS[k])
  }

  predicate AssignsKey(line: string, key: string) {
    key <= line && "=" <= LStrip(line[|key|..])
  }

  predicate IsHeader(line: string) { "[" <= Strip(line) }

  const PROVIDERS := "[model_providers."

  const OUR_SECTION := PROVIDERS + "bedrock-"

  predicate IsOurHeader(line: string) { OUR_SECTION <= Strip(line) }

  // ----- split_user_config -----

  /** The two flags of the line loop. */
  datatype Flags = Flags(inTop: bool, skip: bool)

  const START := Flags(true, false)

  function Next(f: Flags, line: string): Flags {
    if IsHeader(line) then Flags(false, IsOurHeader(line)) else f
  }

  /** Where a line goes, given the flags before it. */
  datatype Fate = Dropped | ToTop | ToTables

  function FateOf(f: Flags, line: string): Fate {
    var g := Next(f, line);
    if g.skip then Dropped
    else if g.inTop && IsOurKey(line) then Dropped
    else if g.inTop then ToTop
    else ToTables
  }

  function After(f: Flags, lines: seq<string>): Flags
    decreases |lines|
  {
    if lines == [] then f else After(Next(f, lines[0]), lines[1..])
  }

  /** The lines with the given fate, in order. */
  function Kept(f: Flags, lines: seq<string>, fate: Fate): seq<string>
    decreases |lines|
  {
    if lines == [] then []
    else (if FateOf(f, lines[0]) == fate then [lines[0]] else []) + Kept(Next(f, lines[0]), lines[1..], fate)
  }

  /** split_user_config: (top-level keys, [table] blocks). */
  function SplitUser(text: string): (string, string) {
    var lines := SplitLines(text);
    (Strip(Join(Kept(START, lines, ToTop), '\n')), Strip(Join(Kept(START, lines, ToTables), '\n')))
  }

  lemma {:induction false} KeptAppend(f: Flags, a: seq<string>, b: seq<string>, fate: Fate)
    ensures Kept(f, a + b, fate) == Kept(f, a, fate) + Kept(After(f, a), b, fate)
    ensures After(f, a + b) == After(After(f, a), b)
    decreases |a|
  {
    if a == [] {
      assert a + b == b;
    } else {
      assert (a + b)[1..] == a[1..] + b;
      KeptAppend(Next(f, a[0]), a[1..], b, fate);
      AppendAssociates(if FateOf(f, a[0]) == fate then [a[0]] else [],
                       Kept(Next(f, a[0]), a[1..], fate), Kept(After(f, a), b, fate));
    }
  }

  method SplitUserConfig(existing: string) returns (top: string, tables: string)
    ensures (top, tables) == SplitUser(existing)
  {
    hide Kept, FateOf, After, SplitLines;
    var topLines, tableLines: seq<string> := [], [];
    var skipSection, inTopLevel := false, true;
    var lines := SplitLines(existing);
    NoLines(START);
    for n := 0 to |lines|
      invariant topLines == Kept(START, lines[..n], ToTop)
      invariant tableLines == Kept(START, lines[..n], ToTables)
      invariant After(START, lines[..n]) == Flags(inTopLevel, skipSection)
    {
      var line := lines[n];
      assert lines[..n + 1] == lines[..n] + [line];
      KeptAppend(START, lines[..n], [line], ToTop);
      KeptAppend(START, lines[..n], [line], ToTables);
      OneLine(Flags(inTopLevel, skipSection), line);
      if "[" <= Strip(line) {
        inTopLevel := false;
        skipSection := OUR_SECTION <= Strip(line);
      }
      if !skipSection && !(inTopLevel && IsOurKey(line)) {
        if inTopLevel {
          topLines := topLines + [line];
        } else {
          tableLines := tableLines + [line];
        }
      }
    }
    assert lines[..|lines|] == lines;
    return Strip(Join(topLines, '\n')), Strip(Join(tableLines, '\n'));
  }

  lemma NoLines(f: Flags)
    ensures After(f, []) == f && forall fate :: Kept(f, [], fate) == []
  {
  }

  lemma OneLine(f: Flags, line: string)
    ensures After(f, [line]) == Next(f, line)
    ensures var g := Next(f, line);
            var dropped := g.skip || (g.inTop && IsOurKey(line));
            && Kept(f, [line], ToTop) == (if !dropped && g.inTop then [line] else [])
            && Kept(f, [line], ToTables) == (if !dropped && !g.inTop then [line] else [])
  {
    NoLines(Next(f, line));
  }

  // ----- our fragment -----

  datatype Endpoint = Runtime | Mantle

  function EndpointTail(e: Endpoint): string {
    match e case Runtime => "runtime" case Mantle => "mantle"
  }

  function EndpointName(e: Endpoint): string { "bedrock-" + EndpointTail(e) }

  datatype Config = Config(model: string, baseUrl: string, endpoint: Endpoint, project: string, contextWindow: int)

  function HexDigit(n: nat): char
    requires n < 16
  {
    if n < 10 then '0' + n as char else 'a' + (n - 10) as char
  }

  function Hex4(n: nat): string {
    [HexDigit(n / 4096 % 16), HexDigit(n / 256 % 16), HexDigit(n / 16 % 16), HexDigit(n % 16)]
  }

  /** json.dumps of one character: ASCII only, control characters escaped. */
  function JsonChar(c: char): string {
    if c == '"' then "\\\""
    else if c == '\\' then "\\\\"
    else if ' ' <= c <= '~' then [c]
    else if c == '\n' then "\\n"
    else if c == '\r' then "\\r"
    else if c == '\t' then "\\t"
    else if c == '\U{08}' then "\\b"
    else if c == '\U{0C}' then "\\f"
    else
      var n := c as nat;
      if n < 0x10000 then "\\u" + Hex4(n)
      else "\\u" + Hex4(0xD800 + (n - 0x10000) / 1024) + "\\u" + Hex4(0xDC00 + (n - 0x10000) % 1024)
  }

  function JsonChars(s: string): string {
    if s == "" then "" else JsonChar(s[0]) + JsonChars(s[1..])
  }

  /** json.dumps of a string. */
  function Json(s: string): string { "\"" + JsonChars(s) + "\"" }

  function Digits(n: nat): string {
    if n < 10 then [HexDigit(n)] else Digits(n / 10) + [HexDigit(n % 10)]
  }

  function Decimal(n: int): string { if n < 0 then "-" + Digits(-n) else Digits(n) }

  function Field(name: string, value: string): string { name + " = " + value }

  /** The lines of codex_config_fragment: our top-level keys, our provider tables. */
  function OurTop(c: Config): seq<string> {
    [Field(OURS[0], Json(c.model)),
     Field(OURS[1], Json(EndpointName(c.endpoint))),
     Field(OURS[2], Decimal(c.contextWindow)),
     Field(OURS[3], "128000")]
    + if c.endpoint == Mantle then [] else [Field(OURS[4], Json("disabled"))]
  }

  function OurTables(c: Config): seq<string> {
    [PROVIDERS + EndpointName(c.endpoint) + "]",
     Field("name", Json(if c.endpoint == Mantle then "Amazon Bedrock Mantle (OpenAI-compatible)"
                        else "Amazon Bedrock (OpenAI-compatible)")),
     Field("base_url", Json(c.baseUrl)),
     Field("env_key", Json("OPENAI_API_KEY")),
     Field("wire_api", Json("responses"))]
    + if c.endpoint == Mantle then
        ["", PROVIDERS + EndpointName(c.endpoint) + ".http_headers]", Field("OpenAI-Project", Json(c.project))]
      else []
  }

  // ----- merge -----

  /** "\n\n".join(blocks) */
  function JoinBlocks(blocks: seq<string>): string {
    if blocks == [] then ""
    else if |blocks| == 1 then blocks[0]
    else blocks[0] + "\n\n" + JoinBlocks(blocks[1..])
  }

  function NonEmpty(blocks: seq<string>): seq<string> {
    if blocks == [] then [] else (if blocks[0] != "" then [blocks[0]] else []) + NonEmpty(blocks[1..])
  }

  function MergeParts(top: string, tables: string, c: Config): string {
    JoinBlocks(NonEmpty([Join(OurTop(c), '\n'), top, Join(OurTables(c), '\n'), tables])) + "\n"
  }

  function Merge(existing: string, c: Config): string {
    MergeParts(SplitUser(existing).0, SplitUser(existing).1, c)
  }

  /** codex_config_text: a whole fresh file. */
  function ConfigText(c: Config): string {
    JoinBlocks(NonEmpty([Join(OurTop(c), '\n'), Join(OurTables(c), '\n')])) + "\n"
  }

  // ----- what split_user_config returns: text that is the user's through and through -----

  predicate NoBreak(line: string) { forall k | 0 <= k < |line| :: !IsBreak(line[k]) }

  predicate TopLine(line: string) { NoBreak(line) && !IsHeader(line) && !IsOurKey(line) }

  predicate TableLine(line: string) { NoBreak(line) && !IsOurHeader(line) }

  ghost predicate TopLines(lines: seq<string>) { forall k | 0 <= k < |lines| :: TopLine(lines[k]) }

  ghost predicate TableLines(lines: seq<string>) {
    lines != [] && IsHeader(lines[0]) && forall k | 0 <= k < |lines| :: TableLine(lines[k])
  }

  ghost predicate TopText(s: string) { TopLines(Split(s, '\n')) }

  ghost predicate TableText(s: string) { s == "" || TableLines(Split(s, '\n')) }

  lemma KeptHead(f: Flags, lines: seq<string>, fate: Fate)
    requires lines != []
    ensures var rest := Kept(Next(f, lines[0]), lines[1..], fate);
            Kept(f, lines, fate) == if FateOf(f, lines[0]) == fate then [lines[0]] + rest else rest
  {
  }

  lemma {:induction false} KeptLines(f: Flags, lines: seq<string>)
    requires forall k | 0 <= k < |lines| :: NoBreak(lines[k])
    requires f.skip ==> !f.inTop
    ensures TopLines(Kept(f, lines, ToTop))
    ensures var t := Kept(f, lines, ToTables);
            && (forall k | 0 <= k < |t| :: TableLine(t[k]))
            && (t != [] && (f.inTop || f.skip) ==> IsHeader(t[0]))
    decreases |lines|
  {
    hide IsHeader, IsOurHeader, IsOurKey, NoBreak, Kept;
    NoLines(f);
    if lines != [] {
      var g := Next(f, lines[0]);
      KeptLines(g, lines[1..]);
      HeadersOnly(lines[0]);
      KeptHead(f, lines, ToTop);
      KeptHead(f, lines, ToTables);
    }
  }

  /** A line that is not a header is not ours. */
  lemma HeadersOnly(line: string)
    ensures IsOurHeader(line) ==> IsHeader(line)
  {
    if IsOurHeader(line) {
      assert OUR_SECTION[0] == '[';
    }
  }

  lemma SplitIsClean(text: string)
    ensures TopText(SplitUser(text).0) && TableText(SplitUser(text).1)
    ensures Stripped(SplitUser(text).0) && Stripped(SplitUser(text).1)
  {
    var lines := SplitLines(text);
    forall k | 0 <= k < |lines| ensures NoBreak(lines[k]) {
      LinesHoldNoBreak(text, k);
    }
    KeptLines(START, lines);
    var top, tables := Kept(START, lines, ToTop), Kept(START, lines, ToTables);
    JoinedTop(top);
    JoinedTables(tables);
    StripTop(Join(top, '\n'));
    StripTables(Join(tables, '\n'));
  }

  predicate Stripped(s: string) { s == "" || (!IsSpace(s[0]) && !IsSpace(Last(s))) }

  lemma NoBreakNoLf(line: string)
    requires NoBreak(line)
    ensures '\n' !in line
  {
    forall k | 0 <= k < |line| ensures line[k] != '\n' {
      assert !IsBreak(line[k]);
    }
  }

  lemma BlankIsTop()
    ensures TopLine("") && Split("", '\n') == [""]
  {
    assert LStrip("") == "";
    assert forall k | 0 <= k < |OURS| :: OURS[k] != "";
  }

  lemma JoinedTop(lines: seq<string>)
    requires TopLines(lines)
    ensures TopText(Join(lines, '\n'))
  {
    if lines == [] {
      BlankIsTop();
    } else {
      forall p | p in lines ensures '\n' !in p {
        NoBreakNoLf(p);
      }
      SplitJoin(lines, '\n');
    }
  }

  lemma JoinedTables(lines: seq<string>)
    requires lines == [] || TableLines(lines)
    ensures TableText(Join(lines, '\n'))
  {
    if lines != [] {
      forall p | p in lines ensures '\n' !in p {
        NoBreakNoLf(p);
      }
      SplitJoin(lines, '\n');
    }
  }

  // ----- stripping keeps it so -----

  lemma {:induction false} LStripAppend(s: string, c: char)
    ensures LStrip(s) != "" ==> LStrip(s + [c]) == LStrip(s) + [c]
    ensures LStrip(s) == "" && IsSpace(c) ==> LStrip(s + [c]) == ""
  {
    if s == "" {
      assert s + [c] == [c] && [c][1..] == "";
    } else if IsSpace(s[0]) {
      assert (s + [c])[1..] == s[1..] + [c];
      LStripAppend(s[1..], c);
    }
  }

  /** A space at either end of a line does not change what the line is. */
  lemma SpaceAtEnds(line: string, c: char)
    requires IsSpace(c)
    ensures Strip([c] + line) == Strip(line) == Strip(line + [c])
    ensures IsOurKey(line) ==> IsOurKey([c] + line) && IsOurKey(line + [c])
  {
    assert ([c] + line)[1..] == line;
    LStripAppend(line, c);
    var t := LStrip(line);
    if t != "" {
      assert Init(t + [c]) == t && Last(t + [c]) == c;
    }
    if IsOurKey(line) {
      var k :| 0 <= k < |OURS| && AssignsKey(t, OURS[k]);
      SpaceAfterKey(t, OURS[k], c);
      assert AssignsKey(LStrip([c] + line), OURS[k]);
    }
  }

  lemma SpaceAfterKey(t: string, key: string, c: char)
    requires AssignsKey(t, key)
    ensures AssignsKey(t + [c], key)
  {
    LStripAppend(t[|key|..], c);
    assert (t + [c])[|key|..] == t[|key|..] + [c];
  }

  lemma SpaceBeforeLine(line: string, c: char)
    requires IsSpace(c)
    ensures TopLine([c] + line) ==> TopLine(line)
    ensures TableLine([c] + line) ==> TableLine(line)
    ensures IsHeader([c] + line) ==> IsHeader(line)
  {
    SpaceAtEnds(line, c);
    assert forall k | 0 <= k < |line| :: line[k] == ([c] + line)[k + 1];
  }

  lemma DropSpaceFront(s: string)
    requires s != "" && IsSpace(s[0])
    ensures TopText(s) ==> TopText(s[1..])
    ensures TableText(s) ==> TableText(s[1..])
  {
    var rest, all := Split(s[1..], '\n'), Split(s, '\n');
    var cut := if s[0] == '\n' then 1 else 0;
    assert s[0] == '\n' ==> all == [""] + rest;
    assert s[0] != '\n' ==> all == [[s[0]] + rest[0]] + rest[1..];
    hide IsHeader, IsOurHeader, IsOurKey, NoBreak, Split;
    BlankIsTop();
    forall k | 0 <= k < |rest|
      ensures TopLine(all[k + cut]) ==> TopLine(rest[k])
      ensures TableLine(all[k + cut]) ==> TableLine(rest[k])
      ensures IsHeader(all[k + cut]) ==> IsHeader(rest[k])
    {
      if k + cut == 0 {
        SpaceBeforeLine(rest[0], s[0]);
        assert all[0] == [s[0]] + rest[0];
      } else {
        assert all[k + cut] == rest[k];
      }
    }
  }

  /** The lines of a text and of the text with one more character at its end. */
  lemma LinesOfInit(s: string)
    requires s != ""
    ensures var parts := Split(Init(s), '\n');
            Split(s, '\n') == if Last(s) == '\n' then parts + [""] else Init(parts) + [Last(parts) + [Last(s)]]
  {
    var head, c := Init(s), Last(s);
    assert s == head + [c];
    var parts := Split(head, '\n');
    var last := Last(parts);
    SplitAppend(head, [c], '\n');
    PartsHoldNoSeparator(head, '\n', |parts| - 1);
    hide Split;
    if c == '\n' {
      SplitAt(last, "", '\n');
      SplitPart("", '\n');
      assert last + [c] + "" == last + [c];
      assert Init(parts) + ([last] + [""]) == parts + [""];
      assert Split(s, '\n') == parts + [""];
    } else {
      SplitPart(last + [c], '\n');
      assert Split(s, '\n') == Init(parts) + [last + [c]];
    }
  }

  lemma DropSpaceBack(s: string)
    requires s != "" && IsSpace(Last(s))
    ensures TopText(s) ==> TopText(Init(s))
    ensures TableText(s) ==> TableText(Init(s))
  {
    hide IsHeader, IsOurHeader, IsOurKey, Split, NoBreak;
    var parts, all := Split(Init(s), '\n'), Split(s, '\n');
    LinesOfInit(s);
    forall k | 0 <= k < |parts|
      ensures TopLine(all[k]) ==> TopLine(parts[k])
      ensures TableLine(all[k]) ==> TableLine(parts[k])
      ensures IsHeader(all[k]) ==> IsHeader(parts[k])
    {
      if k == |parts| - 1 && Last(s) != '\n' {
        DropSpaceFromLine(parts[k], Last(s));
      } else {
        assert all[k] == parts[k];
      }
    }
  }

  lemma DropSpaceFromLine(line: string, c: char)
    requires IsSpace(c)
    ensures TopLine(line + [c]) ==> TopLine(line)
    ensures TableLine(line + [c]) ==> TableLine(line)
    ensures IsHeader(line + [c]) ==> IsHeader(line)
  {
    SpaceAtEnds(line, c);
    assert forall k | 0 <= k < |line| :: line[k] == (line + [c])[k];
  }

  lemma {:induction false} LStripTexts(s: string)
    ensures TopText(s) ==> TopText(LStrip(s))
    ensures TableText(s) ==> TableText(LStrip(s))
  {
    if s != "" && IsSpace(s[0]) {
      DropSpaceFront(s);
      LStripTexts(s[1..]);
    }
  }

  lemma {:induction false} RStripTexts(s: string)
    ensures TopText(s) ==> TopText(RStrip(s))
    ensures TableText(s) ==> TableText(RStrip(s))
  {
    if s != "" && IsSpace(Last(s)) {
      DropSpaceBack(s);
      RStripTexts(Init(s));
    }
  }

  lemma StripEnds(s: string)
    ensures Stripped(Strip(s))
  {
    var t := LStrip(s);
    if t != "" {
      RStripKeepsHead(t);
    }
  }

  lemma StripTop(s: string)
    requires TopText(s)
    ensures TopText(Strip(s)) && Stripped(Strip(s))
  {
    LStripTexts(s);
    RStripTexts(LStrip(s));
    StripEnds(s);
  }

  lemma StripTables(s: string)
    requires TableText(s)
    ensures TableText(Strip(s)) && Stripped(Strip(s))
  {
    LStripTexts(s);
    RStripTexts(LStrip(s));
    StripEnds(s);
  }

  // ----- our own lines: dropped on the way back in -----

  /** What every line of our top block is. */
  ghost predicate OurTopLines(lines: seq<string>) {
    forall k | 0 <= k < |lines| :: NoBreak(lines[k]) && IsOurKey(lines[k]) && !IsHeader(lines[k])
  }

  /** What every line of our tables is: the first a header of ours, no other header but ours. */
  ghost predicate OurTableLines(lines: seq<string>) {
    lines != [] && IsOurHeader(lines[0])
    && forall k | 0 <= k < |lines| :: NoBreak(lines[k]) && (IsHeader(lines[k]) ==> IsOurHeader(lines[k]))
  }

  predicate Plain(s: string) { forall k | 0 <= k < |s| :: ' ' <= s[k] <= '~' }

  lemma PlainAppend(a: string, b: string)
    requires Plain(a) && Plain(b)
    ensures Plain(a + b)
  {
  }

  lemma HexPlain(n: nat)
    ensures Plain(Hex4(n)) && Plain("\\u" + Hex4(n))
  {
    var h := Hex4(n);
    assert forall k | 0 <= k < 4 :: ' ' <= h[k] <= '~';
    PlainAppend("\\u", h);
  }

  lemma SurrogatesPlain(high: nat, low: nat)
    ensures Plain("\\u" + Hex4(high) + "\\u" + Hex4(low))
  {
    hide Hex4;
    HexPlain(high);
    HexPlain(low);
    PlainAppend("\\u" + Hex4(high), "\\u");
    PlainAppend("\\u" + Hex4(high) + "\\u", Hex4(low));
  }

  lemma JsonCharPlain(c: char)
    ensures Plain(JsonChar(c))
  {
    hide Hex4;
    var n := c as nat;
    if n >= 0x10000 {
      SurrogatesPlain(0xD800 + (n - 0x10000) / 1024, 0xDC00 + (n - 0x10000) % 1024);
    } else {
      HexPlain(n);
    }
  }

  lemma {:induction false} JsonCharsPlain(s: string)
    ensures Plain(JsonChars(s))
  {
    hide JsonChar;
    if s != "" {
      JsonCharPlain(s[0]);
      JsonCharsPlain(s[1..]);
      PlainAppend(JsonChar(s[0]), JsonChars(s[1..]));
    }
  }

  lemma {:induction false} DigitsPlain(n: nat)
    ensures Digits(n) != "" && forall k | 0 <= k < |Digits(n)| :: '0' <= Digits(n)[k] <= 'f'
  {
    if n >= 10 {
      DigitsPlain(n / 10);
    }
  }

  lemma PlainHasNoBreak(s: string)
    requires Plain(s)
    ensures NoBreak(s)
  {
  }

  lemma JsonPlain(s: string)
    ensures Plain(Json(s)) && Json(s) != "" && Last(Json(s)) == '"'
  {
    JsonCharsPlain(s);
    PlainAppend("\"", JsonChars(s));
    PlainAppend("\"" + JsonChars(s), "\"");
  }

  lemma DecimalPlain(n: int)
    ensures Plain(Decimal(n)) && Decimal(n) != "" && !IsSpace(Last(Decimal(n)))
  {
    DigitsPlain(if n < 0 then -n else n);
  }

  lemma StripOfHead(line: string)
    requires line != "" && !IsSpace(line[0])
    ensures LStrip(line) == line && Strip(line) != "" && Strip(line)[0] == line[0] && Strip(line) <= line
  {
    RStripKeepsHead(line);
  }

  lemma SpaceThenEquals(value: string)
    ensures LStrip(" = " + value) == "= " + value && "=" <= "= " + value
  {
    assert (" = " + value)[1..] == "= " + value && ("= " + value)[0] == '=';
    assert LStrip("= " + value) == "= " + value;
  }

  lemma FieldIsPlain(name: string, value: string)
    requires Plain(name) && Plain(value) && name != "" && !IsSpace(name[0]) && name[0] != '['
    ensures NoBreak(Field(name, value)) && !IsHeader(Field(name, value))
    ensures AssignsKey(LStrip(Field(name, value)), name)
  {
    var line := Field(name, value);
    PlainAppend(name, " = ");
    PlainAppend(name + " = ", value);
    PlainHasNoBreak(line);
    StripOfHead(line);
    assert line[|name|..] == " = " + value;
    SpaceThenEquals(value);
  }

  lemma OurKeyNames(k: nat)
    requires k < |OURS|
    ensures Plain(OURS[k]) && OURS[k] != "" && !IsSpace(OURS[k][0]) && OURS[k][0] != '['
  {
  }

  lemma OurField(k: nat, value: string)
    requires k < |OURS| && Plain(value)
    ensures var line := Field(OURS[k], value);
            NoBreak(line) && IsOurKey(line) && !IsHeader(line)
  {
    OurKeyNames(k);
    FieldIsPlain(OURS[k], value);
  }

  lemma OurHeaderLine(rest: string)
    requires Plain(rest) && rest != "" && !IsSpace(Last(rest))
    ensures NoBreak(OUR_SECTION + rest) && IsOurHeader(OUR_SECTION + rest)
  {
    var line := OUR_SECTION + rest;
    PlainAppend(OUR_SECTION, rest);
    PlainHasNoBreak(line);
    assert Last(line) == Last(rest) && line[0] == OUR_SECTION[0] == '[';
    StripOfHead(line);
    assert RStrip(line) == line;
  }

  lemma OurTopIsOurs(c: Config)
    ensures OurTopLines(OurTop(c))
  {
    hide NoBreak, IsOurKey, IsHeader, Plain, Json, Decimal, Field, EndpointName;
    JsonPlain(c.model);
    JsonPlain(EndpointName(c.endpoint));
    JsonPlain("disabled");
    DecimalPlain(c.contextWindow);
    PlainNumber();
    OurField(0, Json(c.model));
    OurField(1, Json(EndpointName(c.endpoint)));
    OurField(2, Decimal(c.contextWindow));
    OurField(3, "128000");
    OurField(4, Json("disabled"));
  }

  lemma PlainNumber()
    ensures Plain("128000")
  {
  }

  lemma OurTableHeader(e: Endpoint, tail: string)
    requires Plain(tail) && tail != "" && !IsSpace(Last(tail))
    ensures var line := PROVIDERS + EndpointName(e) + tail;
            NoBreak(line) && IsOurHeader(line)
  {
    hide IsOurHeader, NoBreak;
    var rest := EndpointTail(e) + tail;
    assert Plain(EndpointTail(e));
    PlainAppend(EndpointTail(e), tail);
    OurHeaderLine(rest);
    assert PROVIDERS + EndpointName(e) + tail == OUR_SECTION + rest;
  }

  lemma OurTableHeaders(c: Config)
    ensures var line := PROVIDERS + EndpointName(c.endpoint) + "]";
            NoBreak(line) && IsOurHeader(line)
    ensures var line := PROVIDERS + EndpointName(c.endpoint) + ".http_headers]";
            NoBreak(line) && IsOurHeader(line)
  {
    hide IsOurHeader, NoBreak, EndpointName;
    OurTableHeader(c.endpoint, "]");
    OurTableHeader(c.endpoint, ".http_headers]");
  }

  lemma SpaceOrLetter()
    ensures forall c: char | '!' <= c <= '~' :: !IsSpace(c)
  {
  }

  lemma OurTableFields(c: Config)
    ensures forall k | 1 <= k < |OurTables(c)| && k != 6 ::
              NoBreak(OurTables(c)[k]) && !IsHeader(OurTables(c)[k])
  {
    hide NoBreak, IsHeader, Json, Field, LStrip, AssignsKey, EndpointName, IsSpace;
    SpaceOrLetter();
    var name := if c.endpoint == Mantle then "Amazon Bedrock Mantle (OpenAI-compatible)"
                else "Amazon Bedrock (OpenAI-compatible)";
    JsonPlain(name);
    JsonPlain(c.baseUrl);
    JsonPlain("OPENAI_API_KEY");
    JsonPlain("responses");
    JsonPlain(c.project);
    FieldIsPlain("name", Json(name));
    FieldIsPlain("base_url", Json(c.baseUrl));
    FieldIsPlain("env_key", Json("OPENAI_API_KEY"));
    FieldIsPlain("wire_api", Json("responses"));
    FieldIsPlain("OpenAI-Project", Json(c.project));
    BlankIsTop();
  }

  lemma OurTablesAreOurs(c: Config)
    ensures OurTableLines(OurTables(c))
  {
    hide NoBreak, IsHeader, IsOurHeader, Json, Field, EndpointName;
    OurTableHeaders(c);
    OurTableFields(c);
  }

  // ----- the way back in, block by block -----

  lemma {:induction false} OurTopDropped(lines: seq<string>)
    requires OurTopLines(lines)
    ensures After(START, lines) == START
    ensures Kept(START, lines, ToTop) == [] && Kept(START, lines, ToTables) == []
  {
    if lines != [] {
      OurTopDropped(lines[1..]);
      OneLine(START, lines[0]);
    }
  }

  lemma {:induction false} UserTopKept(lines: seq<string>)
    requires TopLines(lines)
    ensures After(START, lines) == START
    ensures Kept(START, lines, ToTop) == lines && Kept(START, lines, ToTables) == []
  {
    if lines != [] {
      UserTopKept(lines[1..]);
      OneLine(START, lines[0]);
    }
  }

  const SKIPPING := Flags(false, true)

  lemma {:induction false} OurTablesDropped(f: Flags, lines: seq<string>)
    requires forall k | 0 <= k < |lines| :: IsHeader(lines[k]) ==> IsOurHeader(lines[k])
    requires f == SKIPPING || (lines != [] && IsOurHeader(lines[0]))
    ensures After(f, lines) == SKIPPING
    ensures Kept(f, lines, ToTop) == [] && Kept(f, lines, ToTables) == []
    decreases |lines|
  {
    hide IsHeader, IsOurHeader, IsOurKey;
    if lines != [] {
      HeadersOnly(lines[0]);
      OurTablesDropped(Next(f, lines[0]), lines[1..]);
    }
  }

  lemma {:induction false} UserTablesKept(f: Flags, lines: seq<string>)
    requires forall k | 0 <= k < |lines| :: TableLine(lines[k])
    requires f == Flags(false, false) || (lines != [] && IsHeader(lines[0]))
    ensures Kept(f, lines, ToTop) == [] && Kept(f, lines, ToTables) == lines
    decreases |lines|
  {
    hide IsHeader, IsOurHeader, IsOurKey, NoBreak;
    if lines != [] {
      UserTablesKept(Next(f, lines[0]), lines[1..]);
      assert [lines[0]] + lines[1..] == lines;
    }
  }

  // ----- the merged file, read again -----

  ghost predicate Closed(block: string) { block != "" && !IsBreak(Last(block)) }

  /** The lines of a file made of blocks. */
  function BlockLines(blocks: seq<string>): seq<string> {
    if blocks == [] then []
    else if |blocks| == 1 then SplitLines(blocks[0])
    else SplitLines(blocks[0]) + ([""] + BlockLines(blocks[1..]))
  }

  lemma {:induction false} LinesOfBlocks(blocks: seq<string>)
    requires blocks != [] && forall k | 0 <= k < |blocks| :: Closed(blocks[k])
    ensures SplitLines(JoinBlocks(blocks) + "\n") == BlockLines(blocks)
  {
    hide SplitLines;
    var b := blocks[0];
    if |blocks| == 1 {
      SplitLinesAt(b, "");
      assert b + "\n" + "" == b + "\n";
      NoText();
      assert SplitLines(b) + [] == SplitLines(b);
    } else {
      var rest := JoinBlocks(blocks[1..]) + "\n";
      LinesOfBlocks(blocks[1..]);
      assert JoinBlocks(blocks) + "\n" == b + "\n" + ("\n" + rest);
      SplitLinesAt(b, "\n" + rest);
      SplitLinesStep("\n" + rest);
      assert ("\n" + rest)[1..] == rest && !("\r\n" <= "\n" + rest);
    }
  }

  lemma NoText()
    ensures SplitLines("") == []
  {
  }

  lemma {:induction false} NoBreakMeansOnlyLf(s: string)
    requires forall k | 0 <= k < |Split(s, '\n')| :: NoBreak(Split(s, '\n')[k])
    ensures OnlyLf(s)
  {
    if s != "" {
      var all, rest := Split(s, '\n'), Split(s[1..], '\n');
      if s[0] == '\n' {
        assert forall k | 0 <= k < |rest| :: rest[k] == all[k + 1];
      } else {
        assert all[0] == [s[0]] + rest[0] && all[0][0] == s[0];
        assert NoBreak(rest[0]) by {
          assert forall k | 0 <= k < |rest[0]| :: rest[0][k] == all[0][k + 1];
        }
        assert forall k | 1 <= k < |rest| :: rest[k] == all[k];
      }
      NoBreakMeansOnlyLf(s[1..]);
      assert forall k | 1 <= k < |s| :: s[k] == s[1..][k - 1];
    }
  }

  lemma BreaksAreSpaces(c: char)
    ensures IsBreak(c) ==> IsSpace(c)
  {
  }

  /** A stripped text of the user's, as lines: splitlines is split, and join undoes it. */
  lemma UserTextLines(s: string)
    requires s != "" && Stripped(s) && (TopText(s) || TableText(s))
    ensures Closed(s) && SplitLines(s) == Split(s, '\n') && Join(SplitLines(s), '\n') == s && Strip(s) == s
  {
    BreaksAreSpaces(Last(s));
    NoBreakMeansOnlyLf(s);
    SplitLinesIsSplit(s);
    JoinSplit(s, '\n');
    StripPadded(s);
  }

  /** A block of ours, as lines. */
  lemma OurBlockLines(lines: seq<string>)
    requires lines != [] && forall k | 0 <= k < |lines| :: NoBreak(lines[k])
    requires Last(lines) != ""
    ensures Closed(Join(lines, '\n')) && SplitLines(Join(lines, '\n')) == lines
  {
    forall p | p in lines ensures '\n' !in p {
      NoBreakNoLf(p);
    }
    SplitJoin(lines, '\n');
    JoinEnds(lines);
    NoBreakMeansOnlyLf(Join(lines, '\n'));
    SplitLinesIsSplit(Join(lines, '\n'));
  }

  lemma {:induction false} JoinEnds(lines: seq<string>)
    requires lines != [] && Last(lines) != ""
    ensures Join(lines, '\n') != "" && Last(Join(lines, '\n')) == Last(Last(lines))
  {
    if |lines| > 1 {
      JoinEnds(lines[1..]);
    }
  }

  lemma OurLinesEnd(c: Config)
    ensures OurTop(c) != [] && Last(OurTop(c)) != "" && OurTables(c) != [] && Last(OurTables(c)) != ""
  {
  }

  /** The top-level lines after our block: the user's, between blank lines. */
  function PaddedTop(top: string): seq<string> {
    [""] + if top == "" then [] else SplitLines(top) + [""]
  }

  function PaddedTables(tables: string): seq<string> {
    if tables == "" then [] else [""] + SplitLines(tables)
  }

  lemma OurBlocks(c: Config)
    ensures Closed(Join(OurTop(c), '\n')) && SplitLines(Join(OurTop(c), '\n')) == OurTop(c)
    ensures Closed(Join(OurTables(c), '\n')) && SplitLines(Join(OurTables(c), '\n')) == OurTables(c)
  {
    hide OurTop, OurTables, IsHeader, IsOurHeader, IsOurKey, SplitLines, Closed, NoBreak;
    OurTopIsOurs(c);
    OurTablesAreOurs(c);
    OurLinesEnd(c);
    OurBlockLines(OurTop(c));
    OurBlockLines(OurTables(c));
  }

  lemma MergedLines(top: string, tables: string, c: Config)
    requires Stripped(top) && TopText(top) && Stripped(tables) && TableText(tables)
    ensures SplitLines(MergeParts(top, tables, c))
         == OurTop(c) + (PaddedTop(top) + (OurTables(c) + PaddedTables(tables)))
  {
    hide SplitLines, TopText, TableText, Join, OurTop, OurTables, Stripped, SplitUser;
    var a, b := Join(OurTop(c), '\n'), Join(OurTables(c), '\n');
    OurBlocks(c);
    if top != "" {
      UserTextLines(top);
    }
    if tables != "" {
      UserTextLines(tables);
    }
    hide BlockLines, JoinBlocks, NonEmpty, PaddedTop, PaddedTables;
    FourBlocks(a, top, b, tables);
    var tail := [b] + if tables == "" then [] else [tables];
    LinesOfBlocks([a] + ((if top == "" then [] else [top]) + tail));
    HeadLines(a, top, tail);
    TailLines(b, tables);
  }

  lemma HeadLines(a: string, top: string, tail: seq<string>)
    requires tail != []
    ensures BlockLines([a] + ((if top == "" then [] else [top]) + tail))
         == SplitLines(a) + (PaddedTop(top) + BlockLines(tail))
  {
    hide SplitLines;
    var t := BlockLines(tail);
    if top == "" {
      assert [] + tail == tail;
      assert ([a] + tail)[1..] == tail;
      assert [""] + [] == [""];
    } else {
      assert ([a] + ([top] + tail))[1..] == [top] + tail && ([top] + tail)[1..] == tail;
      var middle := SplitLines(top);
      AppendAssociates(middle, [""], t);
      AppendAssociates([""], middle + [""], t);
    }
  }

  lemma FourBlocks(a: string, b: string, c: string, d: string)
    requires a != "" && c != ""
    ensures NonEmpty([a, b, c, d])
         == [a] + ((if b == "" then [] else [b]) + ([c] + if d == "" then [] else [d]))
  {
    assert [a, b, c, d][1..] == [b, c, d] && [b, c, d][1..] == [c, d] && [c, d][1..] == [d] && [d][1..] == [];
    assert NonEmpty([d]) == if d == "" then [] else [d];
    assert NonEmpty([c, d]) == [c] + NonEmpty([d]);
    assert NonEmpty([b, c, d]) == (if b == "" then [] else [b]) + NonEmpty([c, d]);
  }

  lemma TailLines(b: string, tables: string)
    ensures BlockLines([b] + if tables == "" then [] else [tables]) == SplitLines(b) + PaddedTables(tables)
  {
    hide SplitLines;
    if tables == "" {
      assert [b] + [] == [b];
      assert SplitLines(b) + [] == SplitLines(b);
    } else {
      assert ([b] + [tables])[1..] == [tables];
    }
  }

  lemma BlankLineFate()
    ensures Next(START, "") == START && FateOf(START, "") == ToTop
    ensures Next(SKIPPING, "") == SKIPPING && FateOf(SKIPPING, "") == Dropped
  {
    BlankIsTop();
  }

  lemma PaddedTopKept(top: string)
    requires top == "" || TopLines(SplitLines(top))
    ensures var lines := PaddedTop(top);
            After(START, lines) == START && Kept(START, lines, ToTop) == lines && Kept(START, lines, ToTables) == []
  {
    BlankIsTop();
    UserTopKept(PaddedTop(top));
  }

  lemma PaddedTablesKept(tables: string)
    requires tables == "" || TableLines(SplitLines(tables))
    ensures var lines := PaddedTables(tables);
            Kept(SKIPPING, lines, ToTop) == []
            && Kept(SKIPPING, lines, ToTables) == if tables == "" then [] else SplitLines(tables)
  {
    hide SplitLines, IsHeader, IsOurHeader;
    if tables == "" {
      NoLines(SKIPPING);
    } else {
      var lines := SplitLines(tables);
      BlankLineFate();
      UserTablesKept(SKIPPING, lines);
      KeptHead(SKIPPING, [""] + lines, ToTop);
      KeptHead(SKIPPING, [""] + lines, ToTables);
      assert ([""] + lines)[1..] == lines;
    }
  }

  /** The lines of a merged file, sorted back: ours are dropped, the user's stay. */
  lemma MergedKept(top: string, tables: string, c: Config)
    requires top == "" || TopLines(SplitLines(top))
    requires tables == "" || TableLines(SplitLines(tables))
    ensures var lines := OurTop(c) + (PaddedTop(top) + (OurTables(c) + PaddedTables(tables)));
            Kept(START, lines, ToTop) == PaddedTop(top)
            && Kept(START, lines, ToTables) == if tables == "" then [] else SplitLines(tables)
  {
    hide OurTop, OurTables, PaddedTop, PaddedTables, Kept, After;
    var p, q := PaddedTop(top), PaddedTables(tables);
    OurTopIsOurs(c);
    OurTablesAreOurs(c);
    OurTopDropped(OurTop(c));
    PaddedTopKept(top);
    OurTablesDropped(START, OurTables(c));
    PaddedTablesKept(tables);
    forall fate | fate == ToTop || fate == ToTables
      ensures Kept(START, OurTop(c) + (p + (OurTables(c) + q)), fate)
           == Kept(START, p, fate) + Kept(SKIPPING, q, fate)
    {
      KeptAppend(START, OurTop(c), p + (OurTables(c) + q), fate);
      KeptAppend(START, p, OurTables(c) + q, fate);
      KeptAppend(START, OurTables(c), q, fate);
    }
  }

  /** Splitting undoes merging: for every file and every configuration of ours, the
      user's part of the merged file is the user's part of the file. */
  lemma SplitUndoesMerge(existing: string, c: Config)
    ensures SplitUser(Merge(existing, c)) == SplitUser(existing)
  {
    SplitIsClean(existing);
    PartsComeBack(SplitUser(existing).0, SplitUser(existing).1, c);
  }

  lemma PartsComeBack(top: string, tables: string, c: Config)
    requires Stripped(top) && TopText(top) && Stripped(tables) && TableText(tables)
    ensures SplitUser(MergeParts(top, tables, c)) == (top, tables)
  {
    hide SplitLines, Kept, MergeParts;
    MergedLines(top, tables, c);
    if top != "" {
      UserTextLines(top);
    }
    if tables != "" {
      UserTextLines(tables);
    }
    MergedKept(top, tables, c);
    StripPaddedTop(top);
  }

  lemma StripPaddedTop(top: string)
    requires top == "" || (Stripped(top) && Join(SplitLines(top), '\n') == top && SplitLines(top) != [])
    ensures Strip(Join(PaddedTop(top), '\n')) == top
    ensures Strip("") == "" && Join([], '\n') == ""
  {
    hide SplitLines;
    if top == "" {
      assert [""] + [] == [""];
    } else {
      var lines := SplitLines(top);
      JoinPadded(lines);
      StripPadded(top);
    }
  }

  lemma {:induction false} JoinPadded(lines: seq<string>)
    requires lines != []
    ensures Join([""] + (lines + [""]), '\n') == "\n" + Join(lines, '\n') + "\n"
  {
    assert ([""] + (lines + [""]))[1..] == lines + [""];
    JoinBlankEnd(lines);
  }

  lemma {:induction false} JoinBlankEnd(lines: seq<string>)
    requires lines != []
    ensures Join(lines + [""], '\n') == Join(lines, '\n') + "\n"
  {
    if |lines| == 1 {
      assert (lines + [""])[1..] == [""];
      assert lines[0] + ['\n'] + "" == lines[0] + "\n";
    } else {
      assert (lines + [""])[1..] == lines[1..] + [""];
      JoinBlankEnd(lines[1..]);
    }
  }

  /** So a second merge sees only the user's part: the last configuration wins, and
      merging the same one again changes nothing. */
  lemma LastMergeWins(existing: string, a: Config, b: Config)
    ensures Merge(Merge(existing, a), b) == Merge(existing, b)
    ensures Merge(Merge(existing, a), a) == Merge(existing, a)
  {
    SplitUndoesMerge(existing, a);
  }

  lemma EmptyParts()
    ensures SplitUser("").0 == "" && SplitUser("").1 == ""
  {
    NoText();
    NoLines(START);
    StripPaddedTop("");
    forall fate | fate == ToTop || fate == ToTables
      ensures Strip(Join(Kept(START, SplitLines(""), fate), '\n')) == ""
    {
      assert Kept(START, SplitLines(""), fate) == [];
    }
  }

  lemma OnlyOurBlocks(a: string, b: string)
    requires a != "" && b != ""
    ensures NonEmpty([a, "", b, ""]) == NonEmpty([a, b])
  {
    FourBlocks(a, "", b, "");
    assert [a, b][1..] == [b] && [b][1..] == [];
    assert NonEmpty([b]) == [b] + NonEmpty([]);
    assert NonEmpty([a, b]) == [a] + NonEmpty([b]);
  }

  /** Merging into an empty file is writing a fresh one. */
  lemma MergeIntoNothing(c: Config)
    ensures Merge("", c) == ConfigText(c)
  {
    OurLinesEnd(c);
    hide OurTop, OurTables, SplitUser, NonEmpty;
    EmptyParts();
    JoinEnds(OurTop(c));
    JoinEnds(OurTables(c));
    OnlyOurBlocks(Join(OurTop(c), '\n'), Join(OurTables(c), '\n'));
  }
}
