/** What a merged config.toml says, read line by line: which lines of the user's are kept,
    which keys are ours, which value stands at each of them before the first header, and
    what the table of our provider holds. */
module CodexMeaning {
  import opened Text
  import opened PyText
  import opened CodexConfig

  // ----- which keys are ours -----

  predicate Blanks(s: string) { forall k | 0 <= k < |s| :: IsSpace(s[k]) }

  /** A key as TOML writes it bare. */
  predicate BareKey(name: string) {
    name != ""
    && forall k | 0 <= k < |name| ::
         'A' <= name[k] <= 'Z' || 'a' <= name[k] <= 'z' || '0' <= name[k] <= '9' || name[k] == '_' || name[k] == '-'
  }

  function KeyLine(indent: string, name: string, gap: string, value: string): string {
    indent + (name + (gap + ("=" + value)))
  }

  lemma {:induction false} BlanksStripped(blanks: string, s: string)
    requires Blanks(blanks) && (s == "" || !IsSpace(s[0]))
    ensures LStrip(blanks + s) == s
  {
    if blanks == "" {
      assert blanks + s == s;
    } else {
      assert (blanks + s)[1..] == blanks[1..] + s;
      BlanksStripped(blanks[1..], s);
    }
  }

  lemma {:induction false} LStripLeaves(s: string) returns (blanks: string)
    ensures Blanks(blanks) && s == blanks + LStrip(s)
  {
    if s != "" && IsSpace(s[0]) {
      var rest := LStripLeaves(s[1..]);
      blanks := [s[0]] + rest;
      assert s == [s[0]] + s[1..];
    } else {
      blanks := "";
    }
  }

  lemma BareIsSolid(c: char)
    requires BareKey([c])
    ensures !IsSpace(c) && c != '='
  {
    assert [c][0] == c;
  }

  /** A bare key followed by something else is the key itself or none that goes on. */
  lemma BareKeyIs(name: string, gap: string, value: string, key: string)
    requires BareKey(name) && BareKey(key) && Blanks(gap)
    ensures AssignsKey(name + (gap + ("=" + value)), key) <==> name == key
  {
    var line := name + (gap + ("=" + value));
    hide IsSpace, Blanks;
    if name == key {
      assert line[|key|..] == gap + ("=" + value);
      EqualsIsNoSpace();
      BlanksStripped(gap, "=" + value);
      assert "=" <= "=" + value;
    } else if |key| > |name| {
      KeyLonger(name, gap, value, key);
    } else {
      KeyShorter(name, gap, value, key);
    }
  }

  lemma EqualsIsNoSpace()
    ensures !IsSpace('=')
  {
  }

  lemma SolidAt(name: string, k: nat)
    requires BareKey(name) && k < |name|
    ensures !IsSpace(name[k]) && name[k] != '='
  {
  }

  lemma KeyLonger(name: string, gap: string, value: string, key: string)
    requires BareKey(name) && BareKey(key) && Blanks(gap) && |key| > |name|
    ensures !(key <= name + (gap + ("=" + value)))
  {
    var line := name + (gap + ("=" + value));
    SolidAt(key, |name|);
    assert line[|name|] == (gap + ("=" + value))[0];
    assert if gap == "" then line[|name|] == '=' else line[|name|] == gap[0];
  }

  lemma KeyShorter(name: string, gap: string, value: string, key: string)
    requires BareKey(name) && key != name && |key| <= |name|
    ensures !AssignsKey(name + (gap + ("=" + value)), key)
  {
    var line := name + (gap + ("=" + value));
    if key <= line {
      assert line[..|key|] == name[..|key|] == key;
      assert |key| < |name|;
      SolidAt(name, |key|);
      assert line[|key|..][0] == name[|key|];
      assert LStrip(line[|key|..]) == line[|key|..];
    }
  }

  /** A line that assigns a bare key is one of ours exactly when the key is one of these
      five, whatever it begins with: `model_reasoning_effort` and the like are the user's. */
  lemma KeyIsOursExactly(indent: string, name: string, gap: string, value: string)
    requires Blanks(indent) && BareKey(name) && Blanks(gap)
    ensures IsOurKey(KeyLine(indent, name, gap, value)) <==>
            name in {"model", "model_provider", "model_context_window", "model_max_output_tokens", "web_search"}
  {
    var rest := name + (gap + ("=" + value));
    SolidAt(name, 0);
    BlanksStripped(indent, rest);
    forall k | 0 <= k < |OURS| ensures AssignsKey(rest, OURS[k]) <==> name == OURS[k] {
      OursAreBare(k);
      BareKeyIs(name, gap, value, OURS[k]);
    }
    hide AssignsKey, BareKey, Blanks;
    assert name == OURS[0] || name == OURS[1] || name == OURS[2] || name == OURS[3] || name == OURS[4]
           <==> exists k | 0 <= k < |OURS| :: AssignsKey(rest, OURS[k]);
  }

  lemma OursAreBare(k: nat)
    requires k < |OURS|
    ensures BareKey(OURS[k])
  {
  }

  /** And a line that is ours does assign one of them. */
  lemma OurKeyIsALine(line: string) returns (indent: string, name: string, gap: string, value: string)
    requires IsOurKey(line)
    ensures Blanks(indent) && Blanks(gap) && line == KeyLine(indent, name, gap, value)
    ensures name in {"model", "model_provider", "model_context_window", "model_max_output_tokens", "web_search"}
  {
    var k :| 0 <= k < |OURS| && AssignsKey(LStrip(line), OURS[k]);
    hide LStrip, Blanks, AssignsKey;
    name := OURS[k];
    OursNamed(k);
    indent := LStripLeaves(line);
    gap, value := AfterKey(LStrip(line), name);
  }

  lemma OursNamed(k: nat)
    requires k < |OURS|
    ensures OURS[k] in {"model", "model_provider", "model_context_window", "model_max_output_tokens", "web_search"}
  {
  }

  lemma AfterKey(s: string, key: string) returns (gap: string, value: string)
    requires AssignsKey(s, key)
    ensures Blanks(gap) && s == key + (gap + ("=" + value))
  {
    gap := LStripLeaves(s[|key|..]);
    var rest := LStrip(s[|key|..]);
    value := rest[1..];
    hide LStrip, Blanks;
    assert rest == "=" + value;
    assert s == key + s[|key|..];
  }

  // ----- where a line of the user's goes -----

  /** The header a line is under, or is. */
  function HeaderOver(lines: seq<string>, k: nat): (h: Option<nat>)
    requires k < |lines|
    ensures h.Some? ==> h.value <= k && IsHeader(lines[h.value])
    ensures forall j | (if h.Some? then h.value else -1) < j <= k :: !IsHeader(lines[j])
  {
    if IsHeader(lines[k]) then Some(k) else if k == 0 then None else HeaderOver(lines, k - 1)
  }

  lemma {:induction false} FlagsAre(lines: seq<string>, n: nat)
    requires n < |lines|
    ensures After(START, lines[..n + 1]) ==
            match HeaderOver(lines, n) case None => START case Some(h) => Flags(false, IsOurHeader(lines[h]))
    ensures After(START, lines[..n + 1]) == Next(After(START, lines[..n]), lines[n])
  {
    hide IsHeader, IsOurHeader;
    assert lines[..n + 1] == lines[..n] + [lines[n]];
    KeptAppend(START, lines[..n], [lines[n]], ToTop);
    OneLine(After(START, lines[..n]), lines[n]);
    if n == 0 {
      assert lines[..0] == [];
      NoLines(START);
    } else {
      FlagsAre(lines, n - 1);
    }
  }

  /** A line before the first header is kept unless it is one of our keys, one from there on
      unless the header it is under names a provider of ours. */
  lemma FateExactly(lines: seq<string>, k: nat)
    requires k < |lines|
    ensures FateOf(After(START, lines[..k]), lines[k]) ==
            match HeaderOver(lines, k)
            case None => if IsOurKey(lines[k]) then Dropped else ToTop
            case Some(h) => if "[model_providers.bedrock-" <= Strip(lines[h]) then Dropped else ToTables
  {
    FlagsAre(lines, k);
    OurSectionIs();
    hide IsHeader, IsOurKey, Kept, After, HeaderOver, Next, Strip;
  }

  lemma OurSectionIs()
    ensures OUR_SECTION == "[model_providers.bedrock-"
  {
  }

  // ----- which value stands at a key -----

  /** What a line assigns to the key, if it does. */
  function ValueOn(line: string, key: string): Option<string> {
    var s := LStrip(line);
    if AssignsKey(s, key) then Some(Strip(LStrip(s[|key|..])[1..])) else None
  }

  function Values(lines: seq<string>, key: string): seq<string> {
    if lines == [] then []
    else (if ValueOn(lines[0], key).Some? then [ValueOn(lines[0], key).value] else []) + Values(lines[1..], key)
  }

  /** The lines before the next header. */
  function Block(lines: seq<string>): seq<string> {
    if lines == [] || IsHeader(lines[0]) then [] else [lines[0]] + Block(lines[1..])
  }

  /** The lines of the tables so headed. */
  function Table(lines: seq<string>, header: string): seq<string> {
    if lines == [] then []
    else (if Strip(lines[0]) == header then Block(lines[1..]) else []) + Table(lines[1..], header)
  }

  lemma {:induction false} ValuesAppend(a: seq<string>, b: seq<string>, key: string)
    ensures Values(a + b, key) == Values(a, key) + Values(b, key)
  {
    hide ValueOn;
    if a == [] {
      assert a + b == b;
    } else {
      assert (a + b)[1..] == a[1..] + b;
      ValuesAppend(a[1..], b, key);
      AppendAssociates(if ValueOn(a[0], key).Some? then [ValueOn(a[0], key).value] else [], Values(a[1..], key), Values(b, key));
    }
  }

  lemma {:induction false} NoValues(lines: seq<string>, key: string)
    requires forall k | 0 <= k < |lines| :: ValueOn(lines[k], key).None?
    ensures Values(lines, key) == []
  {
    hide ValueOn;
    if lines != [] {
      NoValues(lines[1..], key);
    }
  }

  lemma {:induction false} BlockStops(a: seq<string>, b: seq<string>)
    requires (forall k | 0 <= k < |a| :: !IsHeader(a[k])) && (b == [] || IsHeader(b[0]))
    ensures Block(a + b) == a
  {
    hide IsHeader;
    if a == [] {
      assert a + b == b;
    } else {
      assert (a + b)[1..] == a[1..] + b;
      BlockStops(a[1..], b);
    }
  }

  /** A field of ours assigns its own key, and no other. */
  lemma FieldValue(name: string, value: string, key: string)
    requires BareKey(name) && BareKey(key) && value != "" && !IsSpace(value[0]) && !IsSpace(Last(value))
    ensures ValueOn(Field(name, value), key) == if key == name then Some(value) else None
  {
    SolidAt(name, 0);
    assert Field(name, value) == name + (" " + ("=" + (" " + value)));
    assert Blanks(" ");
    BareKeyIs(name, " ", " " + value, key);
    var line := Field(name, value);
    BlanksStripped("", line);
    assert "" + line == line;
    EqualsIsNoSpace();
    BlanksStripped(" ", "=" + (" " + value));
    assert line[|name|..] == " " + ("=" + (" " + value));
    assert ("=" + (" " + value))[1..] == " " + value;
    BlanksStripped(" ", value);
    assert RStrip(value) == value;
  }

  lemma JsonValue(s: string)
    ensures Json(s) != "" && !IsSpace(Json(s)[0]) && !IsSpace(Last(Json(s)))
  {
    JsonPlain(s);
    assert Json(s)[0] == '"';
  }

  lemma DecimalValue(n: int)
    ensures Decimal(n) != "" && !IsSpace(Decimal(n)[0]) && !IsSpace(Last(Decimal(n)))
  {
    DecimalPlain(n);
    DigitsPlain(if n < 0 then -n else n);
  }

  lemma {:induction false} FieldsValues(names: seq<string>, values: seq<string>, lines: seq<string>, key: string)
    requires |names| == |values| == |lines| && BareKey(key)
    requires forall k | 0 <= k < |lines| ::
               lines[k] == Field(names[k], values[k]) && BareKey(names[k])
               && values[k] != "" && !IsSpace(values[k][0]) && !IsSpace(Last(values[k]))
    ensures Values(lines, key) == ValuesOf(names, values, key)
  {
    hide ValueOn, Field, BareKey, IsSpace;
    if lines != [] {
      FieldValue(names[0], values[0], key);
      FieldsValues(names[1..], values[1..], lines[1..], key);
    }
  }

  function ValuesOf(names: seq<string>, values: seq<string>, key: string): seq<string>
    requires |names| == |values|
  {
    if names == [] then []
    else (if names[0] == key then [values[0]] else []) + ValuesOf(names[1..], values[1..], key)
  }

  lemma TopNamesAreBare()
    ensures BareKey("model") && BareKey("model_provider") && BareKey("model_context_window")
    ensures BareKey("model_max_output_tokens") && BareKey("web_search")
  {
    hide BareKey;
    OursAreBare(0);
    OursAreBare(1);
    OursAreBare(2);
    OursAreBare(3);
    OursAreBare(4);
  }

  lemma EndpointJson(e: Endpoint)
    ensures Json(EndpointName(e)) == if e == Mantle then "\"bedrock-mantle\"" else "\"bedrock-runtime\""
  {
    hide Json;
    if e == Mantle {
      assert EndpointName(e) == "bedrock-mantle";
      JsonOfPlain("bedrock-mantle");
      assert "\"" + "bedrock-mantle" + "\"" == "\"bedrock-mantle\"";
    } else {
      assert EndpointName(e) == "bedrock-runtime";
      JsonOfPlain("bedrock-runtime");
      assert "\"" + "bedrock-runtime" + "\"" == "\"bedrock-runtime\"";
    }
  }

  lemma DisabledJson()
    ensures Json("disabled") == "\"disabled\""
  {
    hide Json;
    JsonOfPlain("disabled");
  }

  lemma {:induction false} JsonCharsOfPlain(s: string)
    requires forall k | 0 <= k < |s| :: ' ' <= s[k] <= '~' && s[k] != '"' && s[k] != '\\'
    ensures JsonChars(s) == s
  {
    if s != "" {
      JsonCharsOfPlain(s[1..]);
      assert s == [s[0]] + s[1..];
    }
  }

  lemma JsonOfPlain(s: string)
    requires forall k | 0 <= k < |s| :: ' ' <= s[k] <= '~' && s[k] != '"' && s[k] != '\\'
    ensures Json(s) == "\"" + s + "\""
  {
    JsonCharsOfPlain(s);
  }

  function TopNames(e: Endpoint): seq<string> {
    ["model", "model_provider", "model_context_window", "model_max_output_tokens"]
    + if e == Mantle then [] else ["web_search"]
  }

  function TopJson(c: Config): seq<string> {
    [Json(c.model), Json(EndpointName(c.endpoint)), Decimal(c.contextWindow), "128000"]
    + if c.endpoint == Mantle then [] else [Json("disabled")]
  }

  lemma TopAsFields(c: Config, key: string)
    requires BareKey(key)
    ensures Values(OurTop(c), key) == ValuesOf(TopNames(c.endpoint), TopJson(c), key)
  {
    TopNamesAreBare();
    JsonValue(c.model);
    JsonValue(EndpointName(c.endpoint));
    JsonValue("disabled");
    DecimalValue(c.contextWindow);
    NumberIsSolid();
    hide BareKey, Json, Decimal, IsSpace, Field, Values, ValuesOf;
    FieldsValues(TopNames(c.endpoint), TopJson(c), OurTop(c), key);
  }

  lemma OneOf(c: Config, k: nat)
    requires k < |TopNames(c.endpoint)|
    ensures ValuesOf(TopNames(c.endpoint), TopJson(c), TopNames(c.endpoint)[k]) == [TopJson(c)[k]]
  {
    NamesDiffer();
    hide Json, Decimal, ValuesOf, EndpointName;
    OneValue(TopNames(c.endpoint), TopJson(c), k);
  }

  lemma NoSearch(c: Config)
    requires c.endpoint == Mantle
    ensures ValuesOf(TopNames(c.endpoint), TopJson(c), "web_search") == []
  {
    NamesDiffer();
    hide Json, Decimal, ValuesOf, EndpointName;
    NoValue(TopNames(c.endpoint), TopJson(c), "web_search");
  }

  lemma NumberIsSolid()
    ensures "128000" != "" && !IsSpace("128000"[0]) && !IsSpace(Last("128000"))
  {
  }

  lemma NamesDiffer()
    ensures var names := ["model", "model_provider", "model_context_window", "model_max_output_tokens", "web_search"];
            forall i, j | 0 <= i < j < 5 :: names[i] != names[j]
  {
    assert |"model"| == 5 && |"model_provider"| == 14 && |"model_context_window"| == 20
           && |"model_max_output_tokens"| == 23 && |"web_search"| == 10;
  }

  lemma {:induction false} OneValue(names: seq<string>, values: seq<string>, k: nat)
    requires k < |names| == |values| && forall i, j | 0 <= i < j < |names| :: names[i] != names[j]
    ensures ValuesOf(names, values, names[k]) == [values[k]]
  {
    if k == 0 {
      NoValue(names[1..], values[1..], names[0]);
    } else {
      OneValue(names[1..], values[1..], k - 1);
    }
  }

  lemma {:induction false} NoValue(names: seq<string>, values: seq<string>, key: string)
    requires |names| == |values| && forall i | 0 <= i < |names| :: names[i] != key
    ensures ValuesOf(names, values, key) == []
  {
    if names != [] {
      NoValue(names[1..], values[1..], key);
    }
  }

  predicate OurName(key: string) {
    key in {"model", "model_provider", "model_context_window", "model_max_output_tokens", "web_search"}
  }

  lemma OurNameIsBare(key: string)
    requires OurName(key)
    ensures BareKey(key)
  {
    hide BareKey;
    TopNamesAreBare();
  }

  lemma NotOurLine(line: string, key: string)
    requires !IsOurKey(line) && OurName(key)
    ensures ValueOn(line, key).None?
  {
    assert key == OURS[0] || key == OURS[1] || key == OURS[2] || key == OURS[3] || key == OURS[4];
  }

  lemma UserTop(top: string)
    requires Stripped(top) && TopText(top)
    ensures TopLines(PaddedTop(top))
  {
    BlankIsTop();
    if top != "" {
      UserTextLines(top);
    }
    hide TopLine, SplitLines;
  }

  /** The user's tables, behind a blank line, if there are any. */
  ghost predicate BelowOurs(tables: seq<string>) {
    tables == [] || (|tables| > 1 && tables[0] == "" && TableLines(tables[1..]))
  }

  lemma BelowIsHeaded(tables: seq<string>)
    requires BelowOurs(tables)
    ensures tables == [] || (|tables| > 1 && tables[0] == "" && IsHeader(tables[1]))
  {
    assert tables != [] ==> tables[1..][0] == tables[1];
  }

  /** The four parts of a merged file, as lines. */
  lemma MergedParts(existing: string, c: Config) returns (top: seq<string>, tables: seq<string>)
    ensures SplitLines(Merge(existing, c)) == (OurTop(c) + top) + (OurTables(c) + tables)
    ensures TopLines(top)
    ensures BelowOurs(tables)
  {
    hide SplitLines, OurTop, OurTables, TopLines, TableLines, TopText, TableText, Stripped;
    SplitIsClean(existing);
    var (t, b) := SplitUser(existing);
    MergedLines(t, b, c);
    UserTop(t);
    top, tables := PaddedTop(t), PaddedTables(b);
    UserTables(b);
    AppendAssociates(OurTop(c), top, OurTables(c) + tables);
  }

  lemma UserTables(tables: string)
    requires Stripped(tables) && TableText(tables)
    ensures var lines := PaddedTables(tables); lines == [] || (|lines| > 1 && lines[0] == "" && TableLines(lines[1..]))
  {
    if tables != "" {
      UserTextLines(tables);
      assert ([""] + SplitLines(tables))[1..] == SplitLines(tables);
    }
  }

  lemma KeyStands(existing: string, c: Config, key: string)
    requires OurName(key)
    ensures Values(Block(SplitLines(Merge(existing, c))), key) == ValuesOf(TopNames(c.endpoint), TopJson(c), key)
  {
    var top, tables := MergedParts(existing, c);
    OurNameIsBare(key);
    hide Merge, SplitLines, OurTop, OurTables, Values, Block, BareKey, OurName, TopLines, OurTopLines, BelowOurs;
    hide ValuesOf, TopNames, TopJson;
    OurTopIsOurs(c);
    TablesFollow(c, tables);
    TopIsBlock(OurTop(c), top, OurTables(c) + tables);
    ValuesAppend(OurTop(c), top, key);
    TopAsFields(c, key);
    UserTopValues(top, key);
    var ours := ValuesOf(TopNames(c.endpoint), TopJson(c), key);
    assert ours + [] == ours;
  }

  /** However the user's file looks, in the merged one each key of ours is assigned before the
      first header exactly once and as we mean it; the search switch with one endpoint only. */
  lemma OursStandOnce(existing: string, c: Config)
    ensures var top := Block(SplitLines(Merge(existing, c)));
            && Values(top, "model") == [Json(c.model)]
            && Values(top, "model_provider") == [if c.endpoint == Mantle then "\"bedrock-mantle\"" else "\"bedrock-runtime\""]
            && Values(top, "model_context_window") == [Decimal(c.contextWindow)]
            && Values(top, "model_max_output_tokens") == ["128000"]
            && Values(top, "web_search") == if c.endpoint == Mantle then [] else ["\"disabled\""]
  {
    EndpointJson(c.endpoint);
    DisabledJson();
    hide Merge, SplitLines, Values, Block, Json, Decimal, EndpointName;
    KeyIs(existing, c, 0);
    KeyIs(existing, c, 1);
    KeyIs(existing, c, 2);
    KeyIs(existing, c, 3);
    if c.endpoint == Mantle {
      SearchIsNot(existing, c);
    } else {
      KeyIs(existing, c, 4);
    }
  }

  lemma KeyIs(existing: string, c: Config, k: nat)
    requires k < |TopNames(c.endpoint)|
    ensures Values(Block(SplitLines(Merge(existing, c))), TopNames(c.endpoint)[k]) == [TopJson(c)[k]]
  {
    NameIsOurs(c.endpoint, k);
    hide Merge, SplitLines, Values, Block, TopNames, TopJson, ValuesOf, OurName;
    KeyStands(existing, c, TopNames(c.endpoint)[k]);
    OneOf(c, k);
  }

  lemma NameIsOurs(e: Endpoint, k: nat)
    requires k < |TopNames(e)|
    ensures OurName(TopNames(e)[k])
  {
  }

  lemma SearchIsNot(existing: string, c: Config)
    requires c.endpoint == Mantle
    ensures Values(Block(SplitLines(Merge(existing, c))), "web_search") == []
  {
    assert OurName("web_search");
    hide Merge, SplitLines, Values, Block, TopNames, TopJson, ValuesOf, OurName;
    KeyStands(existing, c, "web_search");
    NoSearch(c);
  }

  lemma TablesFollow(c: Config, tables: seq<string>)
    ensures OurTables(c) + tables != [] && IsHeader((OurTables(c) + tables)[0])
  {
    hide OurTables, IsHeader;
    OurTablesAreOurs(c);
    HeadersOnly(OurTables(c)[0]);
  }

  lemma TopIsBlock(ours: seq<string>, top: seq<string>, rest: seq<string>)
    requires OurTopLines(ours) && TopLines(top) && rest != [] && IsHeader(rest[0])
    ensures Block((ours + top) + rest) == ours + top
  {
    hide IsHeader, IsOurKey, NoBreak;
    BlockStops(ours + top, rest);
  }

  lemma UserTopValues(top: seq<string>, key: string)
    requires TopLines(top) && OurName(key)
    ensures Values(top, key) == []
  {
    hide IsHeader, IsOurKey, NoBreak, ValueOn, OurName, Values;
    forall k | 0 <= k < |top| ensures ValueOn(top[k], key).None? {
      NotOurLine(top[k], key);
    }
    NoValues(top, key);
  }

  // ----- our provider table -----

  function Header(e: Endpoint): string {
    if e == Mantle then "[model_providers.bedrock-mantle]" else "[model_providers.bedrock-runtime]"
  }

  const PROJECT_HEADER := "[model_providers.bedrock-mantle.http_headers]"

  lemma {:induction false} NoTable(a: seq<string>, b: seq<string>, header: string)
    requires forall k | 0 <= k < |a| :: Strip(a[k]) != header
    ensures Table(a + b, header) == Table(b, header)
  {
    hide Strip, Block;
    if a == [] {
      assert a + b == b;
    } else {
      assert (a + b)[1..] == a[1..] + b;
      NoTable(a[1..], b, header);
      assert [] + Table(b, header) == Table(b, header);
    }
  }

  lemma TableAt(line: string, rest: seq<string>, header: string)
    requires Strip(line) == header
    ensures Table([line] + rest, header) == Block(rest) + Table(rest, header)
  {
    assert ([line] + rest)[1..] == rest;
  }

  /** Nothing at the top and nothing of the user's is headed by a name of ours. */
  lemma OnlyOurs(top: seq<string>, ours: seq<string>, tables: seq<string>, header: string)
    requires OurTopLines(top) || TopLines(top)
    requires BelowOurs(tables)
    requires OUR_SECTION <= header
    ensures Table(top + ours, header) == Table(ours, header) && Table(tables, header) == []
  {
    hide IsOurKey, NoBreak, Block;
    assert header[0] == OUR_SECTION[0] == '[';
    forall k | 0 <= k < |top| ensures Strip(top[k]) != header {
      assert !IsHeader(top[k]);
    }
    NoTable(top, ours, header);
    forall k | 0 <= k < |tables| ensures Strip(tables[k]) != header {
      if k > 0 {
        assert TableLine(tables[1..][k - 1]);
      } else {
        BlankIsNoHeader();
      }
    }
    NoTable(tables, [], header);
    assert tables + [] == tables;
  }

  lemma BlankIsNoHeader()
    ensures Strip("") == ""
  {
  }

  /** The fields of our table, and the blank line that may follow. */
  function Fields(c: Config): seq<string> {
    [Field("name", Json(if c.endpoint == Mantle then "Amazon Bedrock Mantle (OpenAI-compatible)"
                        else "Amazon Bedrock (OpenAI-compatible)")),
     Field("base_url", Json(c.baseUrl)),
     Field("env_key", Json("OPENAI_API_KEY")),
     Field("wire_api", Json("responses"))]
  }

  lemma TablesAre(c: Config)
    ensures OurTables(c) == [Header(c.endpoint)] + (Fields(c) + if c.endpoint == Runtime then []
                            else ["", PROJECT_HEADER, Field("OpenAI-Project", Json(c.project))])
    ensures OUR_SECTION <= Header(c.endpoint) && OUR_SECTION <= PROJECT_HEADER
    ensures Strip(Header(c.endpoint)) == Header(c.endpoint) && Strip(PROJECT_HEADER) == PROJECT_HEADER
  {
    hide Json, Field;
    HeaderIs(c.endpoint);
    ProjectHeaderIs();
  }

  lemma SolidEnds(line: string)
    requires line != "" && !IsSpace(line[0]) && !IsSpace(Last(line))
    ensures Strip(line) == line
  {
  }

  lemma BracketsAreSolid()
    ensures !IsSpace('[') && !IsSpace(']')
  {
  }

  lemma HeaderIs(e: Endpoint)
    ensures PROVIDERS + EndpointName(e) + "]" == Header(e) && OUR_SECTION <= Header(e) && Strip(Header(e)) == Header(e)
  {
    HeaderText(e);
    BracketsAreSolid();
    hide IsSpace, Strip;
    var h := Header(e);
    assert h[0] == '[' && Last(h) == ']';
    SolidEnds(h);
  }

  lemma HeaderText(e: Endpoint)
    ensures PROVIDERS + EndpointName(e) + "]" == Header(e) && OUR_SECTION <= Header(e)
  {
    var tail := if e == Mantle then "mantle]" else "runtime]";
    SectionText(tail);
    assert EndpointTail(e) + "]" == tail;
    assert PROVIDERS + EndpointName(e) + "]" == OUR_SECTION + tail;
  }

  lemma SectionText(tail: string)
    ensures "[model_providers.bedrock-" + tail == OUR_SECTION + tail && OUR_SECTION <= OUR_SECTION + tail
    ensures tail == "mantle]" ==> OUR_SECTION + tail == Header(Mantle)
    ensures tail == "runtime]" ==> OUR_SECTION + tail == Header(Runtime)
    ensures tail == "mantle.http_headers]" ==> OUR_SECTION + tail == PROJECT_HEADER
  {
    OurSectionIs();
  }

  lemma ProjectHeaderIs()
    ensures PROVIDERS + EndpointName(Mantle) + ".http_headers]" == PROJECT_HEADER
    ensures OUR_SECTION <= PROJECT_HEADER && Strip(PROJECT_HEADER) == PROJECT_HEADER
  {
    ProjectHeaderText();
    BracketsAreSolid();
    hide IsSpace, Strip;
    var h := PROJECT_HEADER;
    assert h[0] == '[' && Last(h) == ']';
    SolidEnds(h);
  }

  lemma ProjectHeaderText()
    ensures PROVIDERS + EndpointName(Mantle) + ".http_headers]" == PROJECT_HEADER && OUR_SECTION <= PROJECT_HEADER
  {
    SectionText("mantle.http_headers]");
    assert EndpointTail(Mantle) + ".http_headers]" == "mantle.http_headers]";
    assert PROVIDERS + EndpointName(Mantle) + ".http_headers]" == OUR_SECTION + "mantle.http_headers]";
  }

  function FieldNames(): seq<string> { ["name", "base_url", "env_key", "wire_api"] }

  function FieldJson(c: Config): seq<string> {
    [Json(if c.endpoint == Mantle then "Amazon Bedrock Mantle (OpenAI-compatible)" else "Amazon Bedrock (OpenAI-compatible)"),
     Json(c.baseUrl), Json("OPENAI_API_KEY"), Json("responses")]
  }

  lemma FieldNamesAreBare()
    ensures BareKey("name") && BareKey("base_url") && BareKey("env_key") && BareKey("wire_api")
  {
    assert BareKey("name");
    assert BareKey("base_url");
  }

  lemma ProjectIsBare()
    ensures BareKey("OpenAI-Project")
  {
  }

  lemma FieldsAssign(c: Config, k: nat)
    requires k < 4
    ensures Values(Fields(c), FieldNames()[k]) == [FieldJson(c)[k]]
  {
    FieldNamesAreBare();
    JsonValue(if c.endpoint == Mantle then "Amazon Bedrock Mantle (OpenAI-compatible)" else "Amazon Bedrock (OpenAI-compatible)");
    JsonValue(c.baseUrl);
    JsonValue("OPENAI_API_KEY");
    JsonValue("responses");
    FieldNamesDiffer();
    hide BareKey, Json, IsSpace, Field, Values, ValuesOf;
    FieldsValues(FieldNames(), FieldJson(c), Fields(c), FieldNames()[k]);
    OneValue(FieldNames(), FieldJson(c), k);
  }

  lemma FieldNamesDiffer()
    ensures forall i, j | 0 <= i < j < 4 :: FieldNames()[i] != FieldNames()[j]
  {
    assert "base_url"[0] == 'b' && "wire_api"[0] == 'w';
  }

  lemma BlankAssigns(key: string)
    requires key != ""
    ensures Values([""], key) == [] && Values([], key) == []
  {
    assert LStrip("") == "";
    assert [""][1..] == [];
  }

  lemma FieldsAreNoHeaders(c: Config)
    ensures forall k | 0 <= k < |Fields(c)| :: !IsHeader(Fields(c)[k])
    ensures !IsHeader("") && !IsHeader(Field("OpenAI-Project", Json(c.project)))
  {
    OurTableFields(c.(endpoint := Mantle));
    OurTableFields(c);
    hide IsHeader, Json, Field, EndpointName;
    var all, mine := OurTables(c.(endpoint := Mantle)), OurTables(c);
    assert all[5] == "" && all[7] == Field("OpenAI-Project", Json(c.project));
    assert forall k | 0 <= k < 4 :: Fields(c)[k] == mine[k + 1];
  }

  /** A table's lines up to the next header, which a blank line may precede. */
  lemma BlockOf(fields: seq<string>, rest: seq<string>)
    requires forall k | 0 <= k < |fields| :: !IsHeader(fields[k])
    requires rest == [] || (|rest| > 1 && rest[0] == "" && IsHeader(rest[1]) && !IsHeader(""))
    ensures Block(fields + rest) == fields + if rest == [] then [] else [""]
  {
    hide IsHeader;
    if rest == [] {
      BlockStops(fields, rest);
    } else {
      BlockStops(fields + [""], rest[1..]);
      assert fields + rest == (fields + [""]) + rest[1..];
    }
  }

  lemma NotSo(lines: seq<string>, header: string)
    requires (forall k | 0 <= k < |lines| :: !IsHeader(lines[k])) && OUR_SECTION <= header
    ensures forall k | 0 <= k < |lines| :: Strip(lines[k]) != header
  {
    assert header[0] == OUR_SECTION[0] == '[';
  }

  /** What follows the fields of our table. */
  function AfterFields(c: Config, tables: seq<string>): seq<string> {
    if c.endpoint == Runtime then tables
    else ["", PROJECT_HEADER, Field("OpenAI-Project", Json(c.project))] + tables
  }

  lemma TableParts(c: Config, tables: seq<string>)
    requires BelowOurs(tables)
    ensures OurTables(c) + tables == [Header(c.endpoint)] + (Fields(c) + AfterFields(c, tables))
    ensures var after := AfterFields(c, tables); after == [] || (|after| > 1 && after[0] == "" && IsHeader(after[1]))
  {
    hide OurTables, Fields, IsHeader, Header, Field, BelowOurs, Json, Strip;
    TablesAre(c);
    ProjectIsHeader();
    BelowIsHeaded(tables);
    var ours := if c.endpoint == Runtime then [] else ["", PROJECT_HEADER, Field("OpenAI-Project", Json(c.project))];
    assert [] + tables == tables;
    AppendAssociates(Fields(c), ours, tables);
    AppendAssociates([Header(c.endpoint)], Fields(c) + ours, tables);
  }

  lemma TableIs(c: Config, tables: seq<string>)
    requires BelowOurs(tables)
    requires Table(tables, Header(c.endpoint)) == []
    ensures Table(OurTables(c) + tables, Header(c.endpoint)) == Fields(c)
         || Table(OurTables(c) + tables, Header(c.endpoint)) == Fields(c) + [""]
  {
    hide OurTables, Fields, Table, Block, IsHeader, Strip, BelowOurs, Header, AfterFields;
    TableParts(c, tables);
    FieldsAreNoHeaders(c);
    HeaderIs(c.endpoint);
    NoneAfter(c, tables);
    OneTable(Header(c.endpoint), Fields(c), AfterFields(c, tables));
    assert Fields(c) + [] == Fields(c);
  }

  lemma OneTable(header: string, fields: seq<string>, after: seq<string>)
    requires OUR_SECTION <= header && Strip(header) == header && Table(after, header) == []
    requires (forall k | 0 <= k < |fields| :: !IsHeader(fields[k])) && !IsHeader("")
    requires after == [] || (|after| > 1 && after[0] == "" && IsHeader(after[1]))
    ensures Table([header] + (fields + after), header) == fields + if after == [] then [] else [""]
  {
    hide Table, Block, IsHeader, Strip;
    TableAt(header, fields + after, header);
    BlockOf(fields, after);
    NotSo(fields, header);
    NoTable(fields, after, header);
    var block := fields + if after == [] then [] else [""];
    assert block + [] == block;
  }

  lemma ProjectIsHeader()
    ensures IsHeader(PROJECT_HEADER)
  {
    ProjectHeaderIs();
    assert PROJECT_HEADER[0] == '[';
  }

  lemma NoneAfter(c: Config, tables: seq<string>)
    requires Table(tables, Header(c.endpoint)) == []
    ensures Table(AfterFields(c, tables), Header(c.endpoint)) == []
  {
    if c.endpoint == Mantle {
      FieldsAreNoHeaders(c);
      ProjectHeaderIs();
      HeaderIs(Mantle);
      HeadersDiffer();
      hide IsHeader, Table, Strip, Header, Field;
      var three := ["", PROJECT_HEADER, Field("OpenAI-Project", Json(c.project))];
      NotSo([three[0]], Header(Mantle));
      NotSo([three[2]], Header(Mantle));
      assert [three[0]][0] == three[0] && [three[2]][0] == three[2];
      NoTable(three, tables, Header(Mantle));
    }
  }

  lemma HeadersDiffer()
    ensures Header(Mantle) != PROJECT_HEADER && Header(Runtime) != PROJECT_HEADER
  {
    assert |Header(Mantle)| == 32 && |Header(Runtime)| == 33 && |PROJECT_HEADER| == 45;
  }

  lemma FieldStands(existing: string, c: Config, k: nat)
    requires k < 4
    ensures Values(Table(SplitLines(Merge(existing, c)), Header(c.endpoint)), FieldNames()[k]) == [FieldJson(c)[k]]
  {
    var top, tables := MergedParts(existing, c);
    HeaderIs(c.endpoint);
    OurTopIsOurs(c);
    NameIsSome(k);
    hide Merge, SplitLines, OurTop, OurTables, Values, Table, Header, TopLines, OurTopLines, BelowOurs, Fields, FieldNames, FieldJson;
    var header, rest, key := Header(c.endpoint), OurTables(c) + tables, FieldNames()[k];
    AppendAssociates(OurTop(c), top, rest);
    OnlyOurs(OurTop(c), top + rest, tables, header);
    OnlyOurs(top, rest, tables, header);
    TableIs(c, tables);
    FieldsAssign(c, k);
    BlankAssigns(key);
    ValuesAppend(Fields(c), [""], key);
    assert [FieldJson(c)[k]] + [] == [FieldJson(c)[k]];
  }

  lemma NameIsSome(k: nat)
    requires k < 4
    ensures |FieldNames()| == 4 && FieldNames()[k] != ""
  {
  }

  /** And so does the table of our provider: whatever tables the user's file has, the merged
      one has one so headed, and each of its keys is assigned once, as we mean it. */
  lemma OurTableStandsOnce(existing: string, c: Config)
    ensures var table := Table(SplitLines(Merge(existing, c)), Header(c.endpoint));
            && Values(table, "name") == [Json(if c.endpoint == Mantle then "Amazon Bedrock Mantle (OpenAI-compatible)"
                                              else "Amazon Bedrock (OpenAI-compatible)")]
            && Values(table, "base_url") == [Json(c.baseUrl)]
            && Values(table, "env_key") == [Json("OPENAI_API_KEY")]
            && Values(table, "wire_api") == [Json("responses")]
  {
    hide Merge, SplitLines, Values, Table, Header, Json;
    FieldStands(existing, c, 0);
    FieldStands(existing, c, 1);
    FieldStands(existing, c, 2);
    FieldStands(existing, c, 3);
  }

  /** The project header goes with the one endpoint, and only with it. */
  lemma ProjectStandsOnce(existing: string, c: Config)
    ensures Values(Table(SplitLines(Merge(existing, c)), PROJECT_HEADER), "OpenAI-Project") ==
            if c.endpoint == Mantle then [Json(c.project)] else []
  {
    var top, tables := MergedParts(existing, c);
    ProjectHeaderIs();
    OurTopIsOurs(c);
    hide Merge, SplitLines, OurTop, OurTables, Values, Table, Header, TopLines, OurTopLines, BelowOurs;
    var rest := OurTables(c) + tables;
    AppendAssociates(OurTop(c), top, rest);
    OnlyOurs(OurTop(c), top + rest, tables, PROJECT_HEADER);
    OnlyOurs(top, rest, tables, PROJECT_HEADER);
    ProjectTable(c, tables);
  }

  lemma ProjectTable(c: Config, tables: seq<string>)
    requires BelowOurs(tables)
    requires Table(tables, PROJECT_HEADER) == []
    ensures Values(Table(OurTables(c) + tables, PROJECT_HEADER), "OpenAI-Project") ==
            if c.endpoint == Mantle then [Json(c.project)] else []
  {
    hide OurTables, Fields, Table, Header, Values, AfterFields, Strip, IsHeader, Json, BelowOurs, Block;
    TableParts(c, tables);
    NotOurHeader(c.endpoint);
    var header, fields, after := Header(c.endpoint), Fields(c), AfterFields(c, tables);
    NoTable([header], fields + after, PROJECT_HEADER);
    FieldsAreNotIt(c);
    NoTable(fields, after, PROJECT_HEADER);
    if c.endpoint == Mantle {
      ProjectFields(c, tables);
    } else {
      RuntimeAfter(c, tables);
      BlankAssigns("OpenAI-Project");
    }
  }

  lemma RuntimeAfter(c: Config, tables: seq<string>)
    requires c.endpoint == Runtime
    ensures AfterFields(c, tables) == tables
  {
  }

  lemma NotOurHeader(e: Endpoint)
    ensures forall k | 0 <= k < 1 :: Strip([Header(e)][k]) != PROJECT_HEADER
  {
    HeaderIs(e);
    hide Strip;
    HeadersDiffer();
  }

  lemma FieldsAreNotIt(c: Config)
    ensures forall k | 0 <= k < |Fields(c)| :: Strip(Fields(c)[k]) != PROJECT_HEADER
  {
    hide Fields, Strip, IsHeader;
    FieldsAreNoHeaders(c);
    ProjectHeaderIs();
    NotSo(Fields(c), PROJECT_HEADER);
  }

  lemma ProjectFields(c: Config, tables: seq<string>)
    requires BelowOurs(tables)
    requires Table(tables, PROJECT_HEADER) == [] && c.endpoint == Mantle
    ensures Values(Table(AfterFields(c, tables), PROJECT_HEADER), "OpenAI-Project") == [Json(c.project)]
  {
    hide Table, Block, IsHeader, Strip, BelowOurs, Field, Values, Json;
    var field := Field("OpenAI-Project", Json(c.project));
    ProjectField(c, field);
    assert AfterFields(c, tables) == [""] + ([PROJECT_HEADER] + ([field] + tables));
    BelowIsHeaded(tables);
    hide AfterFields;
    ProjectHeaderIs();
    NotSo([""], PROJECT_HEADER);
    NoTable([""], [PROJECT_HEADER] + ([field] + tables), PROJECT_HEADER);
    OneTable(PROJECT_HEADER, [field], tables);
    ValuesAppend([field], if tables == [] then [] else [""], "OpenAI-Project");
    assert [Json(c.project)] + [] == [Json(c.project)];
  }

  lemma ProjectField(c: Config, field: string)
    requires field == Field("OpenAI-Project", Json(c.project))
    ensures !IsHeader(field) && !IsHeader("") && Values([field], "OpenAI-Project") == [Json(c.project)]
    ensures Values([], "OpenAI-Project") == Values([""], "OpenAI-Project") == []
  {
    hide Values, Json, Field, IsHeader;
    FieldsAreNoHeaders(c);
    ProjectIsBare();
    JsonValue(c.project);
    FieldValue("OpenAI-Project", Json(c.project), "OpenAI-Project");
    BlankAssigns("OpenAI-Project");
    OneFieldOnly(field, "OpenAI-Project", Json(c.project));
  }

  lemma OneFieldOnly(line: string, key: string, value: string)
    requires ValueOn(line, key) == Some(value)
    ensures Values([line], key) == [value]
  {
    hide ValueOn;
    assert [line][1..] == [];
  }
}
