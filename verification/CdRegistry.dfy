/** The continuous-delivery registry: repository keys, the tolerant parse, the strict check of
    an input, and the upsert whose result the parse should leave alone. The check and the
    parse read one input by different rules; what an accepted one becomes when it is stored
    and read back is the subject of the last part. */
module CdRegistry {
  import opened Text

  // ----- repository keys -----

  /** What String.prototype.trim removes. */
  predicate IsBlank(c: char) {
    '\t' <= c <= '\r' || c in {' ', '\U{A0}', '\U{1680}', '\U{2028}', '\U{2029}', '\U{202F}', '\U{205F}', '\U{3000}', '\U{FEFF}'}
    || '\U{2000}' <= c <= '\U{200A}'
  }

  function TrimStart(s: string): (r: string)
    ensures |r| <= |s| && (|r| == |s| ==> r == s) && (s != "" && !IsBlank(s[0]) ==> r == s)
    ensures r != "" ==> !IsBlank(r[0])
  {
    if s != "" && IsBlank(s[0]) then TrimStart(s[1..]) else s
  }

  function TrimEnd(s: string): (r: string)
    ensures |r| <= |s| && (|r| == |s| ==> r == s) && (s != "" && !IsBlank(Last(s)) ==> r == s)
    ensures r != "" ==> !IsBlank(Last(r)) && r[0] == s[0]
  {
    if s != "" && IsBlank(Last(s)) then TrimEnd(Init(s)) else s
  }

  function Trim(s: string): (r: string)
    ensures |r| <= |s| && (|r| == |s| ==> r == s)
  {
    TrimEnd(TrimStart(s))
  }

  lemma TrimTwice(s: string)
    ensures Trim(Trim(s)) == Trim(s)
  {
    var r := Trim(s);
    if r != "" {
      assert !IsBlank(r[0]) && !IsBlank(Last(r));
    }
  }

  function IndexOf(s: string, c: char, i: nat): (k: nat)
    requires i <= |s|
    ensures i <= k <= |s| && (k < |s| ==> s[k] == c) && c !in s[i..k]
    decreases |s| - i
  {
    if i == |s| || s[i] == c then i
    else
      var k := IndexOf(s, c, i + 1);
      assert s[i..k] == [s[i]] + s[i + 1..k];
      k
  }

  /** git@host: in front. */
  predicate ScpForm(s: string) { "git@" <= s && 4 < IndexOf(s, ':', 4) < |s| }

  function StripScp(s: string): string { if ScpForm(s) then s[IndexOf(s, ':', 4) + 1..] else s }

  predicate Letter(c: char) { 'a' <= c <= 'z' || 'A' <= c <= 'Z' }

  function Letters(s: string, i: nat): (k: nat)
    requires i <= |s|
    ensures i <= k <= |s|
    decreases |s| - i
  {
    if i < |s| && Letter(s[i]) then Letters(s, i + 1) else i
  }

  /** scheme://host/ in front. */
  predicate UrlForm(s: string) {
    var n := Letters(s, 0);
    n > 0 && "://" <= s[n..] && n + 3 < IndexOf(s, '/', n + 3) < |s|
  }

  function StripUrl(s: string): string { if UrlForm(s) then s[IndexOf(s, '/', Letters(s, 0) + 3) + 1..] else s }

  function StripLead(s: string): (r: string)
    ensures |r| <= |s| && (s != "" && s[0] != '/' ==> r == s)
  {
    if s != "" && s[0] == '/' then StripLead(s[1..]) else s
  }

  function StripTail(s: string): (r: string)
    ensures |r| <= |s| && (s != "" && Last(s) != '/' ==> r == s)
  {
    if s != "" && Last(s) == '/' then StripTail(Init(s)) else s
  }

  function LowerChar(c: char): char { if 'A' <= c <= 'Z' then ((c as int) + 32) as char else c }

  function Lower(s: string): (r: string)
    ensures |r| == |s|
  {
    if s == "" then "" else [LowerChar(s[0])] + Lower(s[1..])
  }

  predicate GitSuffix(s: string) { |s| >= 4 && Lower(s[|s| - 4..]) == ".git" }

  function StripGit(s: string): (r: string)
    ensures |r| <= |s|
  {
    if GitSuffix(s) then s[..|s| - 4] else s
  }

  /** The repository reference with everything around owner/name taken off. */
  function Bare(value: string): (r: string)
    ensures |r| <= |value|
  {
    StripTail(StripGit(StripTail(StripLead(StripUrl(StripScp(Trim(value)))))))
  }

  predicate OwnerAndName(s: string) {
    var parts := Split(s, '/'); |parts| == 2 && parts[0] != "" && parts[1] != ""
  }

  /** normalizeRepoKey */
  function NormalizeRepoKey(value: string): (key: Option<string>)
    ensures key.Some? ==> |key.value| <= |value|
  {
    if OwnerAndName(Bare(value)) then Some(Lower(Bare(value))) else None
  }

  /** What a key must look like to be its own key: no git@host: in front, no .git at the
      end, no blank at either end. */
  predicate Settled(key: string) { Trim(key) == key && !ScpForm(key) && !GitSuffix(key) }

  /** A key as normalizeRepoKey makes them. */
  predicate KeyForm(key: string) { OwnerAndName(key) && Lower(key) == key }

  predicate LowerOf(lower: seq<string>, parts: seq<string>) {
    |lower| == |parts| && forall k | 0 <= k < |parts| :: lower[k] == Lower(parts[k])
  }

  lemma LowerStep(c: char, s: string)
    ensures Lower([c] + s) == [LowerChar(c)] + Lower(s) && Lower("") == ""
  {
    assert ([c] + s)[1..] == s;
  }

  lemma SplitSlash(s: string)
    requires s != "" && s[0] == '/'
    ensures Split(s, '/') == [""] + Split(s[1..], '/')
  {
  }

  lemma LowerOfMore(c: char, lower: seq<string>, parts: seq<string>)
    requires LowerOf(lower, parts) && parts != []
    ensures LowerOf([""] + lower, [""] + parts)
    ensures LowerOf([[LowerChar(c)] + lower[0]] + lower[1..], [[c] + parts[0]] + parts[1..])
  {
    LowerStep(c, parts[0]);
    hide Lower;
  }

  lemma {:induction false} LowerParts(s: string)
    ensures LowerOf(Split(Lower(s), '/'), Split(s, '/'))
    decreases |s|
  {
    if s != "" {
      var rest := s[1..];
      LowerParts(rest);
      assert s == [s[0]] + rest;
      LowerStep(s[0], rest);
      var lower := Lower(s);
      assert lower[1..] == Lower(rest);
      hide Split, Lower, LowerOf;
      LowerOfMore(s[0], Split(Lower(rest), '/'), Split(rest, '/'));
      if s[0] == '/' {
        SplitSlash(s);
        SplitSlash(lower);
      } else {
        SplitChar(s, '/');
        SplitChar(lower, '/');
      }
    }
  }

  lemma {:induction false} LowerTwice(s: string)
    ensures Lower(Lower(s)) == Lower(s)
  {
    if s != "" {
      LowerTwice(s[1..]);
      LowerStep(LowerChar(s[0]), Lower(s[1..]));
    }
  }

  lemma KeysHaveForm(value: string)
    requires NormalizeRepoKey(value).Some?
    ensures KeyForm(NormalizeRepoKey(value).value)
  {
    LowerParts(Bare(value));
    LowerTwice(Bare(value));
  }

  predicate OnlySlash(key: string, n: nat) { forall i | 0 <= i < |key| && i != n :: key[i] != '/' }

  lemma Halves(key: string, p: string, q: string)
    requires key == p + "/" + q && '/' !in p && '/' !in q
    ensures OnlySlash(key, |p|)
  {
    forall i | 0 <= i < |key| && i != |p| ensures key[i] != '/' {
      assert if i < |p| then key[i] == p[i] && p[i] in p else key[i] == q[i - |p| - 1] && q[i - |p| - 1] in q;
    }
  }

  /** One slash, with something on both sides of it. */
  lemma OneSlash(key: string)
    requires OwnerAndName(key)
    ensures key[0] != '/' && Last(key) != '/'
    ensures exists n :: 0 < n < |key| - 1 && OnlySlash(key, n)
  {
    var parts := Split(key, '/');
    JoinSplit(key, '/');
    PartsHoldNoSeparator(key, '/', 0);
    PartsHoldNoSeparator(key, '/', 1);
    hide Split;
    assert parts[1..] == [parts[1]];
    Halves(key, parts[0], parts[1]);
  }

  lemma PrefixChars(key: string, n: nat)
    requires n <= |key| && "://" <= key[n..]
    ensures n + 2 < |key| && key[n + 1] == '/' && key[n + 2] == '/'
  {
    assert key[n..][1] == "://"[1] && key[n..][2] == "://"[2];
  }

  lemma NoUrl(key: string)
    requires OwnerAndName(key)
    ensures StripUrl(key) == key
  {
    OneSlash(key);
    var n := Letters(key, 0);
    if "://" <= key[n..] {
      PrefixChars(key, n);
    }
  }

  /** Normalising a key gives it back exactly when it is settled; otherwise something more
      is taken off it. */
  lemma KeyIsItsOwnKey(key: string)
    requires KeyForm(key)
    ensures NormalizeRepoKey(key) == Some(key) <==> Settled(key)
  {
    OneSlash(key);
    NoUrl(key);
    hide Split, Trim, Lower, StripUrl;
    var trimmed := Trim(key);
    if trimmed == key && !ScpForm(key) {
      assert StripTail(StripLead(StripUrl(StripScp(trimmed)))) == key;
      if !GitSuffix(key) {
        assert Bare(key) == key;
      }
    } else if trimmed == key {
      assert |StripScp(key)| < |key|;
    }
    BareSteps(key);
  }

  lemma BareSteps(key: string)
    ensures |Bare(key)| <= |StripGit(StripTail(StripLead(StripUrl(StripScp(Trim(key))))))|
    ensures |Bare(key)| <= |StripScp(Trim(key))| <= |Trim(key)|
  {
  }

  // ----- entries -----

  datatype Field = Pipeline | Region | CiProject | DeployDoc | Notes | Account | RoleArn | ExternalId

  const ALL_FIELDS := {Pipeline, Region, CiProject, DeployDoc, Notes, Account, RoleArn, ExternalId}
  const TRIPLE := {Account, RoleArn, ExternalId}

  /** A stored entry; `fields` holds those that are set. */
  datatype Entry = Entry(repo: string, fields: map<Field, string>, addedAt: Option<string>)

  /** A JSON value where a string is expected. */
  datatype Value = Str(text: string) | NotStr

  /** An entry as it arrives: its repo as a string, the fields that are present, and a
      bare name's fields are none. */
  datatype Raw = Raw(ref: string, fields: map<Field, Value>, addedAt: Value)

  function Trimmed(fields: map<Field, Value>, f: Field): string {
    if f in fields && fields[f].Str? then Trim(fields[f].text) else ""
  }

  predicate Digits(s: string) { forall k | 0 <= k < |s| :: '0' <= s[k] <= '9' }

  predicate AccountId(s: string) { |s| == 12 && Digits(s) }

  predicate Slug(s: string) {
    s != "" && forall k | 0 <= k < |s| :: 'a' <= s[k] <= 'z' || '0' <= s[k] <= '9' || s[k] == '-'
  }

  const ARN := "arn:aws:iam::"
  const ROLE := ":role/hub-cd-trigger-"

  /** A trigger role of this account. */
  predicate RoleOf(role: string, account: string) {
    var front := ARN + account + ROLE;
    front <= role && Slug(role[|front|..])
  }

  predicate CompleteTriple(account: string, role: string, externalId: string) {
    account != "" && role != "" && externalId != "" && AccountId(account) && RoleOf(role, account)
  }

  predicate TripleIn(fields: map<Field, Value>) {
    CompleteTriple(Trimmed(fields, Account), Trimmed(fields, RoleArn), Trimmed(fields, ExternalId))
  }

  /** The fields the tolerant parse keeps: trimmed, without blanks, and the cross-account
      three only together. */
  function Clean(fields: map<Field, Value>): map<Field, string> {
    map f | f in ALL_FIELDS && Trimmed(fields, f) != "" && (f in TRIPLE ==> TripleIn(fields)) :: Trimmed(fields, f)
  }

  function ParseOne(raw: Raw, key: string): Entry {
    Entry(key, Clean(raw.fields), if raw.addedAt.Str? then Some(raw.addedAt.text) else None)
  }

  predicate HasRepo(repos: seq<Entry>, key: string) { exists i | 0 <= i < |repos| :: repos[i].repo == key }

  /** parseCdRegistry's list, its first n entries in. */
  function Parse(list: seq<Raw>, n: nat): seq<Entry>
    requires n <= |list|
  {
    if n == 0 then []
    else
      var repos := Parse(list, n - 1);
      var key := NormalizeRepoKey(list[n - 1].ref);
      if key.None? || HasRepo(repos, key.value) then repos else repos + [ParseOne(list[n - 1], key.value)]
  }

  lemma ParseNext(list: seq<Raw>, n: nat)
    requires n < |list|
    ensures var repos := Parse(list, n);
            var key := NormalizeRepoKey(list[n].ref);
            Parse(list, n + 1) ==
              if key.None? || HasRepo(repos, key.value) then repos else repos + [ParseOne(list[n], key.value)]
  {
  }

  lemma NothingParsed(list: seq<Raw>)
    ensures Parse(list, 0) == [] && forall key :: !HasRepo([], key)
  {
  }

  method ParseCdRegistry(list: seq<Raw>) returns (repos: seq<Entry>)
    ensures repos == Parse(list, |list|)
  {
    hide NormalizeRepoKey, Clean, Parse, HasRepo;
    var seen: set<string> := {};
    repos := [];
    NothingParsed(list);
    for n := 0 to |list|
      invariant repos == Parse(list, n) && forall key :: key in seen <==> HasRepo(repos, key)
    {
      ParseNext(list, n);
      var key := NormalizeRepoKey(list[n].ref);
      if key.None? || key.value in seen {
        continue;
      }
      seen := seen + {key.value};
      var entry := Entry(key.value, Clean(list[n].fields), if list[n].addedAt.Str? then Some(list[n].addedAt.text) else None);
      OneMoreRepo(repos, entry);
      repos := repos + [entry];
    }
  }

  lemma OneMoreRepo(repos: seq<Entry>, entry: Entry)
    ensures forall key :: HasRepo(repos + [entry], key) <==> HasRepo(repos, key) || key == entry.repo
  {
    var all := repos + [entry];
    forall key ensures HasRepo(all, key) <==> HasRepo(repos, key) || key == entry.repo {
      if HasRepo(repos, key) {
        var i :| 0 <= i < |repos| && repos[i].repo == key;
        assert all[i].repo == key;
      }
      assert all[|repos|] == entry;
    }
  }

  // ----- the strict check -----

  datatype Problem = BadRepo | NotAString | BadFormat | TooLong | BadPath | NeedsTriple | OtherAccount

  predicate NameChars(s: string, extra: set<char>) {
    forall k | 0 <= k < |s| :: Letter(s[k]) || '0' <= s[k] <= '9' || s[k] in extra
  }

  predicate Lowers(s: string) { s != "" && forall k | 0 <= k < |s| :: 'a' <= s[k] <= 'z' }

  predicate RegionName(s: string) {
    |s| >= 2 && Lowers(s[..2])
    && exists rest | rest in {s[2..], if "-gov" <= s[2..] then s[6..] else s[2..]} ::
         |rest| >= 4 && rest[0] == '-' && rest[|rest| - 2] == '-' && Lowers(rest[1..|rest| - 2]) && Digits(rest[|rest| - 1..])
  }

  /** The account in a role ARN of the right shape. */
  predicate RoleShape(role: string) {
    ARN <= role && |role| >= |ARN| + 12 && RoleOf(role, RoleAccount(role)) && Digits(RoleAccount(role))
  }

  function RoleAccount(role: string): string { if |role| >= |ARN| + 12 then role[|ARN|..|ARN| + 12] else "" }

  predicate RightFormat(f: Field, s: string) {
    match f
    case Region => RegionName(s)
    case Pipeline => |s| <= 100 && NameChars(s, {'.', '@', '_', '-'})
    case CiProject => 2 <= |s| <= 150 && NameChars(s, {'_', '-'})
    case Account => AccountId(s)
    case RoleArn => RoleShape(s)
    case ExternalId => 6 <= |s| <= 1224 && NameChars(s, {'_', '+', '=', ',', '.', '@', ':', '/', '-'})
    case DeployDoc => true
    case Notes => true
  }

  /** `badPath`: some decoded form of a deployDoc is absolute or climbs with `..`. */
  function FieldProblem(fields: map<Field, Value>, f: Field, badPath: string -> bool): Option<Problem> {
    var s := Trimmed(fields, f);
    if f !in fields then None
    else if fields[f].NotStr? then Some(NotAString)
    else if s == "" then None
    else if !RightFormat(f, s) then Some(BadFormat)
    else if (f == DeployDoc && |s| > 200) || (f == Notes && |s| > 2000) then Some(TooLong)
    else if f == DeployDoc && badPath(s) then Some(BadPath)
    else None
  }

  predicate Partial(fields: map<Field, Value>) {
    var xa := [Trimmed(fields, Account), Trimmed(fields, RoleArn), Trimmed(fields, ExternalId)];
    (xa[0] != "" || xa[1] != "" || xa[2] != "") && !(xa[0] != "" && xa[1] != "" && xa[2] != "")
  }

  /** What the check says of a field, cross-account rules included. */
  function ProblemOf(fields: map<Field, Value>, f: Field, badPath: string -> bool): Option<Problem> {
    var own := FieldProblem(fields, f, badPath);
    if own.Some? || f !in TRIPLE then own
    else if Partial(fields) then if Trimmed(fields, f) == "" then Some(NeedsTriple) else None
    else if f == RoleArn && Trimmed(fields, Account) != "" && FieldProblem(fields, Account, badPath).None?
            && RoleAccount(Trimmed(fields, RoleArn)) != Trimmed(fields, Account) then Some(OtherAccount)
    else None
  }

  predicate Accepted(input: Raw, badPath: string -> bool) {
    NormalizeRepoKey(input.ref).Some? && forall f: Field :: ProblemOf(input.fields, f, badPath).None?
  }

  const ORDER := [Pipeline, Region, CiProject, DeployDoc, Notes, Account, RoleArn, ExternalId]

  lemma EveryField(f: Field)
    ensures f in ORDER
  {
    assert ORDER[0] == Pipeline && ORDER[1] == Region && ORDER[2] == CiProject && ORDER[3] == DeployDoc;
    assert ORDER[4] == Notes && ORDER[5] == Account && ORDER[6] == RoleArn && ORDER[7] == ExternalId;
    match f
    case Pipeline =>
    case Region =>
    case CiProject =>
    case DeployDoc =>
    case Notes =>
    case Account =>
    case RoleArn =>
    case ExternalId =>
  }

  function Found(problems: map<Field, Problem>, f: Field): Option<Problem> {
    if f in problems then Some(problems[f]) else None
  }

  /** Each field by itself. */
  method CheckFields(fields: map<Field, Value>, badPath: string -> bool) returns (problems: map<Field, Problem>)
    ensures forall f: Field :: Found(problems, f) == FieldProblem(fields, f, badPath)
  {
    hide FieldProblem;
    problems := map[];
    for i := 0 to |ORDER|
      invariant forall f :: Found(problems, f) == if f in ORDER[..i] then FieldProblem(fields, f, badPath) else None
    {
      assert ORDER[..i + 1] == ORDER[..i] + [ORDER[i]];
      var problem := FieldProblem(fields, ORDER[i], badPath);
      if problem.Some? {
        problems := problems[ORDER[i] := problem.value];
      }
    }
    assert ORDER[..|ORDER|] == ORDER;
    forall f: Field ensures f in ORDER {
      EveryField(f);
    }
  }

  /** validateCdEntryInput, for a body that is an object: every failing field's reason. */
  method ValidateCdEntryInput(input: Raw, badPath: string -> bool)
    returns (badRepo: bool, problems: map<Field, Problem>)
    ensures badRepo <==> NormalizeRepoKey(input.ref).None?
    ensures forall f: Field :: Found(problems, f) == ProblemOf(input.fields, f, badPath)
    ensures !badRepo && problems == map[] <==> Accepted(input, badPath)
  {
    hide NormalizeRepoKey, FieldProblem, Trim;
    badRepo := NormalizeRepoKey(input.ref).None?;
    problems := CheckFields(input.fields, badPath);
    ghost var own := problems;
    var account, role, externalId :=
      Trimmed(input.fields, Account), Trimmed(input.fields, RoleArn), Trimmed(input.fields, ExternalId);
    if (account != "" || role != "" || externalId != "") && !(account != "" && role != "" && externalId != "") {
      if account == "" && Account !in problems {
        problems := problems[Account := NeedsTriple];
      }
      if role == "" && RoleArn !in problems {
        problems := problems[RoleArn := NeedsTriple];
      }
      if externalId == "" && ExternalId !in problems {
        problems := problems[ExternalId := NeedsTriple];
      }
    } else if account != "" && Account !in problems && RoleArn !in problems && RoleAccount(role) != account {
      problems := problems[RoleArn := OtherAccount];
    }
    forall f: Field ensures Found(problems, f) == ProblemOf(input.fields, f, badPath) {
      assert Found(own, f) == FieldProblem(input.fields, f, badPath);
      assert Found(own, Account) == FieldProblem(input.fields, Account, badPath);
    }
    hide ProblemOf;
    if Accepted(input, badPath) {
      forall f: Field ensures f !in problems {
        assert Found(problems, f) == ProblemOf(input.fields, f, badPath);
      }
    }
    if problems == map[] {
      forall f: Field ensures ProblemOf(input.fields, f, badPath).None? {
        assert Found(problems, f) == ProblemOf(input.fields, f, badPath);
      }
    }
  }

  // ----- find, upsert, remove -----

  function FindEntry(repos: seq<Entry>, key: string): Option<Entry> {
    if repos == [] then None else if repos[0].repo == key then Some(repos[0]) else FindEntry(repos[1..], key)
  }

  /** findCdEntry */
  function FindCdEntry(repos: seq<Entry>, ref: string): Option<Entry> {
    var key := NormalizeRepoKey(ref);
    if key.None? then None else FindEntry(repos, key.value)
  }

  function Others(repos: seq<Entry>, key: string): seq<Entry> {
    if repos == [] then [] else (if repos[0].repo != key then [repos[0]] else []) + Others(repos[1..], key)
  }

  /** A field the input blanks: a string with nothing in it. */
  predicate Blanked(fields: map<Field, Value>, f: Field) { f in fields && fields[f].Str? && Trim(fields[f].text) == "" }

  /** The stored fields after an upsert: the old ones, the input's cleaned ones over them,
      and blanked ones gone. The input is cleaned by a parse of its own, which reads the key
      again and, should that fail, yields no entry to take fields from. */
  function MergedFields(kept: map<Field, string>, key: string, fields: map<Field, Value>): map<Field, string> {
    var clean := if NormalizeRepoKey(key).Some? then Clean(fields) else map[];
    map f | f in ALL_FIELDS && (f in kept || f in clean) && !Blanked(fields, f) :: if f in clean then clean[f] else kept[f]
  }

  function Merged(existing: Option<Entry>, key: string, input: Raw, now: string): Entry {
    Entry(key, MergedFields(if existing.Some? then existing.value.fields else map[], key, input.fields),
          Some(if existing.Some? && existing.value.addedAt.Some? && existing.value.addedAt.value != ""
               then existing.value.addedAt.value else now))
  }

  function Place(repos: seq<Entry>, e: Entry, before: (string, string) -> bool): seq<Entry> {
    if repos == [] then [e]
    else if before(e.repo, repos[0].repo) then [e] + repos
    else [repos[0]] + Place(repos[1..], e, before)
  }

  /** The sort by repo, in the order the locale gives. */
  function Sorted(repos: seq<Entry>, before: (string, string) -> bool): seq<Entry> {
    if repos == [] then [] else Place(Sorted(repos[1..], before), repos[0], before)
  }

  /** upsertCdEntry; None when it throws. */
  function Upsert(repos: seq<Entry>, input: Raw, now: string, before: (string, string) -> bool): Option<seq<Entry>> {
    var key := NormalizeRepoKey(input.ref);
    if key.None? then None
    else Some(Sorted(Others(repos, key.value) + [Merged(FindEntry(repos, key.value), key.value, input, now)], before))
  }

  /** removeCdEntry */
  function Remove(repos: seq<Entry>, ref: string): seq<Entry> {
    var key := NormalizeRepoKey(ref);
    if key.None? then repos else Others(repos, key.value)
  }

  ghost predicate Unique(repos: seq<Entry>) { forall i, j | 0 <= i < j < |repos| :: repos[i].repo != repos[j].repo }

  lemma {:induction false} FindIs(repos: seq<Entry>, key: string)
    ensures var e := FindEntry(repos, key);
            (e.Some? ==> e.value in repos && e.value.repo == key)
            && (e.None? ==> forall x | x in repos :: x.repo != key)
  {
    if repos != [] {
      FindIs(repos[1..], key);
      assert forall x | x in repos :: x == repos[0] || x in repos[1..];
    }
  }

  /** With unique keys an entry is found wherever it stands. */
  lemma FindMember(repos: seq<Entry>, e: Entry)
    requires Unique(repos) && e in repos
    ensures FindEntry(repos, e.repo) == Some(e)
  {
    FindIs(repos, e.repo);
    var f := FindEntry(repos, e.repo).value;
    var i :| 0 <= i < |repos| && repos[i] == e;
    var j :| 0 <= j < |repos| && repos[j] == f;
    assert repos[i].repo == repos[j].repo;
  }

  lemma {:induction false} PlaceMember(repos: seq<Entry>, e: Entry, before: (string, string) -> bool, x: Entry)
    ensures x in Place(repos, e, before) <==> x in repos || x == e
  {
    if repos != [] {
      PlaceMember(repos[1..], e, before, x);
      assert x in repos <==> x == repos[0] || x in repos[1..];
    }
  }

  lemma {:induction false} SortedMember(repos: seq<Entry>, before: (string, string) -> bool, x: Entry)
    ensures x in Sorted(repos, before) <==> x in repos
  {
    if repos != [] {
      SortedMember(repos[1..], before, x);
      PlaceMember(Sorted(repos[1..], before), repos[0], before, x);
      assert x in repos <==> x == repos[0] || x in repos[1..];
    }
  }

  lemma {:induction false} PlaceUnique(repos: seq<Entry>, e: Entry, before: (string, string) -> bool)
    requires Unique(repos) && forall x | x in repos :: x.repo != e.repo
    ensures Unique(Place(repos, e, before))
  {
    if repos != [] && !before(e.repo, repos[0].repo) {
      PlaceUnique(repos[1..], e, before);
      var rest := Place(repos[1..], e, before);
      forall i | 0 <= i < |rest| ensures rest[i].repo != repos[0].repo {
        PlaceMember(repos[1..], e, before, rest[i]);
      }
    }
  }

  lemma {:induction false} SortedUnique(repos: seq<Entry>, before: (string, string) -> bool)
    requires Unique(repos)
    ensures Unique(Sorted(repos, before))
  {
    if repos != [] {
      SortedUnique(repos[1..], before);
      forall x | x in Sorted(repos[1..], before) ensures x.repo != repos[0].repo {
        SortedMember(repos[1..], before, x);
      }
      PlaceUnique(Sorted(repos[1..], before), repos[0], before);
    }
  }

  lemma {:induction false} OthersMember(repos: seq<Entry>, key: string, x: Entry)
    ensures x in Others(repos, key) <==> x in repos && x.repo != key
  {
    if repos != [] {
      OthersMember(repos[1..], key, x);
      assert x in repos <==> x == repos[0] || x in repos[1..];
    }
  }

  lemma {:induction false} OthersUnique(repos: seq<Entry>, key: string)
    requires Unique(repos)
    ensures Unique(Others(repos, key))
  {
    if repos != [] {
      OthersUnique(repos[1..], key);
      var rest := Others(repos[1..], key);
      forall i | 0 <= i < |rest| ensures rest[i].repo != repos[0].repo {
        OthersMember(repos[1..], key, rest[i]);
      }
    }
  }

  /** The upserted list: the new entry, and every other repo's entry as it was. */
  lemma UpsertMember(repos: seq<Entry>, input: Raw, now: string, before: (string, string) -> bool)
    requires Unique(repos) && NormalizeRepoKey(input.ref).Some?
    ensures var key := NormalizeRepoKey(input.ref).value;
            var after := Upsert(repos, input, now, before).value;
            Unique(after)
            && forall x :: x in after <==>
                 x == Merged(FindEntry(repos, key), key, input, now) || (x in repos && x.repo != key)
  {
    hide NormalizeRepoKey, Merged, FindEntry;
    var key := NormalizeRepoKey(input.ref).value;
    var merged := Merged(FindEntry(repos, key), key, input, now);
    MergedRepo(FindEntry(repos, key), key, input, now);
    var all := Others(repos, key) + [merged];
    OthersUnique(repos, key);
    forall x ensures x in all <==> x == merged || (x in repos && x.repo != key) {
      OthersMember(repos, key, x);
    }
    forall i | 0 <= i < |all| - 1 ensures all[i].repo != merged.repo {
      OthersMember(repos, key, all[i]);
    }
    SortedUnique(all, before);
    forall x ensures x in Sorted(all, before) <==> x in all {
      SortedMember(all, before, x);
    }
  }

  lemma MergedRepo(existing: Option<Entry>, key: string, input: Raw, now: string)
    ensures Merged(existing, key, input, now).repo == key
  {
  }

  /** Upsert then find: the entry under the input's key is the merged one, whatever form the
      reference takes, and every other repo finds what it found before. */
  lemma UpsertThenFind(repos: seq<Entry>, input: Raw, now: string, before: (string, string) -> bool, other: string)
    requires Unique(repos) && NormalizeRepoKey(input.ref).Some?
    ensures var key := NormalizeRepoKey(input.ref);
            var after := Upsert(repos, input, now, before).value;
            FindCdEntry(after, other) ==
              if NormalizeRepoKey(other) == key then Some(Merged(FindEntry(repos, key.value), key.value, input, now))
              else FindCdEntry(repos, other)
  {
    assert Upsert(repos, input, now, before).Some?;
    hide NormalizeRepoKey, Merged, Upsert, Unique;
    var key := NormalizeRepoKey(input.ref).value;
    var after := Upsert(repos, input, now, before).value;
    var merged := Merged(FindEntry(repos, key), key, input, now);
    MergedRepo(FindEntry(repos, key), key, input, now);
    UpsertMember(repos, input, now, before);
    FindMember(after, merged);
    if NormalizeRepoKey(other).Some? && NormalizeRepoKey(other).value != key {
      var k := NormalizeRepoKey(other).value;
      FindIs(repos, k);
      assert FindEntry(repos, k).Some? ==> FindEntry(repos, k).value in after;
      FindIs(after, k);
      if FindEntry(after, k).Some? {
        FindMember(repos, FindEntry(after, k).value);
      }
    }
  }

  /** Removing a repo leaves every other one. */
  lemma RemoveThenFind(repos: seq<Entry>, ref: string, other: string)
    requires Unique(repos)
    ensures FindCdEntry(Remove(repos, ref), other) ==
              if NormalizeRepoKey(other) == NormalizeRepoKey(ref) then None else FindCdEntry(repos, other)
  {
    hide NormalizeRepoKey;
    if NormalizeRepoKey(ref).Some? && NormalizeRepoKey(other).Some? {
      var key, k := NormalizeRepoKey(ref).value, NormalizeRepoKey(other).value;
      var after := Others(repos, key);
      OthersUnique(repos, key);
      FindIs(after, k);
      FindIs(repos, k);
      if FindEntry(after, k).Some? {
        OthersMember(repos, key, FindEntry(after, k).value);
        FindMember(repos, FindEntry(after, k).value);
      } else if FindEntry(repos, k).Some? {
        OthersMember(repos, key, FindEntry(repos, k).value);
      }
    }
  }

  // ----- the round trip -----

  /** What an accepted input does to each field: a value is stored trimmed, a blank clears,
      an absent field keeps what was there; the cross-account three are all in or all out. */
  lemma AcceptedFields(kept: map<Field, string>, key: string, input: Raw, badPath: string -> bool, f: Field)
    requires Accepted(input, badPath) && NormalizeRepoKey(key).Some?
    ensures var merged := MergedFields(kept, key, input.fields);
            && (Trimmed(input.fields, f) != "" ==> f in merged && merged[f] == Trimmed(input.fields, f))
            && (Blanked(input.fields, f) ==> f !in merged)
            && (f !in input.fields ==> (f in merged <==> f in kept) && (f in merged ==> merged[f] == kept[f]))
  {
    hide NormalizeRepoKey, Trim, RightFormat, TripleIn;
    AcceptedTriple(input, badPath);
    EveryIn(f);
    assert ProblemOf(input.fields, f, badPath).None?;
  }

  lemma EveryIn(f: Field)
    ensures f in ALL_FIELDS
  {
    EveryField(f);
  }

  lemma RoleAccountIs(role: string, account: string)
    requires RoleShape(role) && RoleAccount(role) == account
    ensures AccountId(account) && RoleOf(role, account)
  {
  }

  /** The check and the parse agree on the cross-account three: accepted and present means
      the parse honours them. */
  lemma AcceptedTriple(input: Raw, badPath: string -> bool)
    requires Accepted(input, badPath)
    ensures !Partial(input.fields)
    ensures Trimmed(input.fields, Account) != "" ==> TripleIn(input.fields)
  {
    hide NormalizeRepoKey, Trim, RoleShape, RoleOf, RoleAccount;
    assert ProblemOf(input.fields, Account, badPath).None?;
    assert ProblemOf(input.fields, RoleArn, badPath).None?;
    assert ProblemOf(input.fields, ExternalId, badPath).None?;
    if Trimmed(input.fields, Account) != "" {
      assert !Partial(input.fields);
      RoleAccountIs(Trimmed(input.fields, RoleArn), Trimmed(input.fields, Account));
    }
  }

  // ----- the parse leaves the result alone -----

  function RawOf(e: Entry): Raw {
    Raw(e.repo, map f | f in e.fields :: Str(e.fields[f]), if e.addedAt.Some? then Str(e.addedAt.value) else NotStr)
  }

  function RawsOf(repos: seq<Entry>): (r: seq<Raw>)
    ensures |r| == |repos|
  {
    seq(|repos|, i requires 0 <= i < |repos| => RawOf(repos[i]))
  }

  /** Cross-account fields together and in order, or none. */
  predicate TripleStored(fields: map<Field, string>) {
    fields.Keys * TRIPLE == {}
    || (TRIPLE <= fields.Keys && CompleteTriple(fields[Account], fields[RoleArn], fields[ExternalId]))
  }

  predicate FieldsStored(fields: map<Field, string>) {
    (forall f | f in fields :: Trim(fields[f]) == fields[f] != "") && TripleStored(fields)
  }

  lemma CleanAgain(e: Entry)
    requires forall f | f in e.fields :: Trim(e.fields[f]) == e.fields[f] != ""
    ensures Clean(RawOf(e).fields) == e.fields <==> TripleStored(e.fields)
  {
    hide Trim, CompleteTriple;
    var fields := RawOf(e).fields;
    forall f: Field ensures f in ALL_FIELDS && Trimmed(fields, f) == if f in e.fields then e.fields[f] else "" {
      EveryIn(f);
    }
    TripleReads(e);
    hide TripleIn;
    var clean := Clean(fields);
    if TripleStored(e.fields) {
      forall f: Field ensures f in clean <==> f in e.fields {
        assert f in e.fields && f in TRIPLE ==> f in e.fields.Keys * TRIPLE;
      }
      assert clean == e.fields;
    } else {
      NotComplete(fields);
      var f :| f in e.fields.Keys * TRIPLE;
      assert f in e.fields && f !in clean;
    }
  }

  /** Stored whole is read whole; and what is read whole was stored so. */
  lemma TripleReads(e: Entry)
    requires forall f | f in e.fields :: Trim(e.fields[f]) == e.fields[f] != ""
    ensures TripleIn(RawOf(e).fields) ==> TripleStored(e.fields)
    ensures TripleStored(e.fields) && e.fields.Keys * TRIPLE != {} ==> TripleIn(RawOf(e).fields)
  {
    hide Trim, AccountId, RoleOf;
    var fields := RawOf(e).fields;
    assert forall f | f in TRIPLE :: Trimmed(fields, f) == if f in e.fields then e.fields[f] else "";
    assert Account in TRIPLE && RoleArn in TRIPLE && ExternalId in TRIPLE;
    assert forall f | f in e.fields && f in TRIPLE :: f in e.fields.Keys * TRIPLE;
  }

  lemma NotComplete(fields: map<Field, Value>)
    requires !TripleIn(fields)
    ensures forall f | f in TRIPLE :: f !in Clean(fields)
  {
  }

  predicate EntryStored(e: Entry) { NormalizeRepoKey(e.repo) == Some(e.repo) && FieldsStored(e.fields) }

  lemma StoredParses(e: Entry)
    requires EntryStored(e)
    ensures ParseOne(RawOf(e), e.repo) == e && NormalizeRepoKey(RawOf(e).ref) == Some(e.repo)
  {
    hide NormalizeRepoKey, Clean, TripleStored, Trim;
    CleanAgain(e);
  }

  lemma NewRepo(repos: seq<Entry>, n: nat)
    requires Unique(repos) && n < |repos|
    ensures !HasRepo(repos[..n], repos[n].repo) && repos[..n + 1] == repos[..n] + [repos[n]]
  {
    var front := repos[..n];
    assert forall i | 0 <= i < |front| :: front[i] == repos[i] && front[i].repo != repos[n].repo;
  }

  lemma {:induction false} ParseAgain(repos: seq<Entry>, n: nat)
    requires Unique(repos) && n <= |repos| && forall i | 0 <= i < n :: EntryStored(repos[i])
    ensures Parse(RawsOf(repos), n) == repos[..n]
  {
    hide NormalizeRepoKey, EntryStored, ParseOne, HasRepo, Unique, RawOf;
    if n > 0 {
      ParseAgain(repos, n - 1);
      ParseNext(RawsOf(repos), n - 1);
      hide Parse;
      assert EntryStored(repos[n - 1]);
      StoredParses(repos[n - 1]);
      NewRepo(repos, n - 1);
      assert RawsOf(repos)[n - 1] == RawOf(repos[n - 1]);
    } else {
      NothingParsed(RawsOf(repos));
    }
  }

  lemma {:induction false} ParseKeepsAll(list: seq<Raw>, n: nat)
    requires n <= |list|
    ensures |Parse(list, n)| <= n
    ensures |Parse(list, n)| == n ==> forall i | 0 <= i < n :: ParsedFrom(Parse(list, n)[i], list[i])
  {
    hide NormalizeRepoKey, Clean;
    if n > 0 {
      ParseKeepsAll(list, n - 1);
    }
  }

  predicate ParsedFrom(e: Entry, raw: Raw) {
    NormalizeRepoKey(raw.ref) == Some(e.repo) && e == ParseOne(raw, e.repo)
  }

  /** A list the parse gives back unchanged holds stored entries only. */
  lemma UnchangedMeansStored(repos: seq<Entry>, e: Entry)
    requires Parse(RawsOf(repos), |repos|) == repos && e in repos
    requires forall f | f in e.fields :: Trim(e.fields[f]) == e.fields[f] != ""
    ensures EntryStored(e)
  {
    hide NormalizeRepoKey, Clean, TripleStored, Trim, Parse, RawOf;
    ParseKeepsAll(RawsOf(repos), |repos|);
    var i :| 0 <= i < |repos| && repos[i] == e;
    assert RawsOf(repos)[i] == RawOf(e);
    hide RawsOf;
    assert ParsedFrom(Parse(RawsOf(repos), |repos|)[i], RawsOf(repos)[i]);
    ReadsItself(e);
  }

  lemma ReadsItself(e: Entry)
    requires ParsedFrom(e, RawOf(e)) && forall f | f in e.fields :: Trim(e.fields[f]) == e.fields[f] != ""
    ensures EntryStored(e)
  {
    hide NormalizeRepoKey, Clean, TripleStored, Trim;
    CleanAgain(e);
  }

  lemma MergedTrimmed(kept: map<Field, string>, key: string, fields: map<Field, Value>)
    requires forall f | f in kept :: Trim(kept[f]) == kept[f] != ""
    ensures var merged := MergedFields(kept, key, fields); forall f | f in merged :: Trim(merged[f]) == merged[f] != ""
  {
    hide NormalizeRepoKey, TripleIn;
    var merged := MergedFields(kept, key, fields);
    forall f | f in merged ensures Trim(merged[f]) == merged[f] != "" {
      if f in fields && fields[f].Str? {
        TrimTwice(fields[f].text);
      }
      hide Trim;
    }
  }

  /** None of the cross-account fields is blanked, or all are, or none was stored. */
  predicate BlankedTogether(kept: map<Field, string>, fields: map<Field, Value>) {
    kept.Keys * TRIPLE == {}
    || (forall f | f in TRIPLE :: !Blanked(fields, f)) || (forall f | f in TRIPLE :: Blanked(fields, f))
  }

  lemma TripleGiven(kept: map<Field, string>, key: string, fields: map<Field, Value>)
    requires TripleIn(fields) && NormalizeRepoKey(key).Some?
    ensures TripleStored(MergedFields(kept, key, fields)) && forall f | f in TRIPLE :: !Blanked(fields, f)
  {
    hide NormalizeRepoKey, Trim, AccountId, RoleOf;
    var merged := MergedFields(kept, key, fields);
    assert forall f | f in TRIPLE :: f in ALL_FIELDS && Trimmed(fields, f) != "" && f in Clean(fields);
    assert forall f | f in TRIPLE :: !Blanked(fields, f) && f in merged && merged[f] == Trimmed(fields, f);
    assert Account in TRIPLE && RoleArn in TRIPLE && ExternalId in TRIPLE;
  }

  lemma TripleNotGiven(kept: map<Field, string>, key: string, fields: map<Field, Value>)
    requires forall f | f in TRIPLE :: Trimmed(fields, f) == ""
    requires TripleStored(kept)
    ensures TripleStored(MergedFields(kept, key, fields)) <==> BlankedTogether(kept, fields)
  {
    hide NormalizeRepoKey, Trim, CompleteTriple, TripleIn;
    var merged := MergedFields(kept, key, fields);
    assert forall f | f in TRIPLE :: f in ALL_FIELDS && f !in Clean(fields);
    assert forall f | f in TRIPLE :: (f in merged <==> f in kept && !Blanked(fields, f)) && (f in merged ==> merged[f] == kept[f]);
    hide TripleStored, BlankedTogether, MergedFields;
    TripleLeft(kept, merged, fields);
  }

  lemma TripleMerges(kept: map<Field, string>, key: string, input: Raw, badPath: string -> bool)
    requires Accepted(input, badPath) && NormalizeRepoKey(key).Some? && TripleStored(kept)
    ensures TripleStored(MergedFields(kept, key, input.fields)) <==> BlankedTogether(kept, input.fields)
  {
    hide NormalizeRepoKey, TripleStored, MergedFields, Accepted, Trimmed, TripleIn, Blanked, Partial, BlankedTogether;
    var fields := input.fields;
    AcceptedTriple(input, badPath);
    if Trimmed(fields, Account) != "" {
      TripleGiven(kept, key, fields);
      NoneBlanked(kept, fields);
    } else {
      NoneTrimmed(fields);
      TripleNotGiven(kept, key, fields);
    }
  }

  lemma NoneBlanked(kept: map<Field, string>, fields: map<Field, Value>)
    requires forall f | f in TRIPLE :: !Blanked(fields, f)
    ensures BlankedTogether(kept, fields)
  {
  }

  lemma NoneTrimmed(fields: map<Field, Value>)
    requires !Partial(fields) && Trimmed(fields, Account) == ""
    ensures forall f | f in TRIPLE :: Trimmed(fields, f) == ""
  {
    hide Trimmed;
  }

  lemma TripleLeft(kept: map<Field, string>, merged: map<Field, string>, fields: map<Field, Value>)
    requires TripleStored(kept)
    requires forall f | f in TRIPLE :: (f in merged <==> f in kept && !Blanked(fields, f)) && (f in merged ==> merged[f] == kept[f])
    ensures TripleStored(merged) <==> BlankedTogether(kept, fields)
  {
    hide CompleteTriple, Blanked;
    assert Account in TRIPLE && RoleArn in TRIPLE && ExternalId in TRIPLE;
    assert forall f | f in merged && f in TRIPLE :: f in kept.Keys * TRIPLE;
    if kept.Keys * TRIPLE != {} {
      assert forall f | f in TRIPLE :: f in kept;
      if merged.Keys * TRIPLE == {} {
        forall f | f in TRIPLE ensures Blanked(fields, f) {
          assert f !in merged.Keys * TRIPLE;
        }
      } else {
        var g :| g in merged.Keys * TRIPLE;
        assert !Blanked(fields, g);
      }
    }
  }

  lemma MergedStored(existing: Option<Entry>, key: string, input: Raw, now: string, badPath: string -> bool)
    requires Accepted(input, badPath) && KeyForm(key) && (existing.Some? ==> FieldsStored(existing.value.fields))
    ensures var kept := if existing.Some? then existing.value.fields else map[];
            EntryStored(Merged(existing, key, input, now)) <==> Settled(key) && BlankedTogether(kept, input.fields)
    ensures forall f | f in Merged(existing, key, input, now).fields ::
              Trim(Merged(existing, key, input, now).fields[f]) == Merged(existing, key, input, now).fields[f] != ""
  {
    var kept := if existing.Some? then existing.value.fields else map[];
    KeyIsItsOwnKey(key);
    MergedTrimmed(kept, key, input.fields);
    if NormalizeRepoKey(key).Some? {
      TripleMerges(kept, key, input, badPath);
    }
    hide NormalizeRepoKey, Settled, Trim, BlankedTogether, MergedFields, TripleStored, Accepted;
  }

  /** Parsing what an accepted input was upserted into changes nothing, exactly when the key
      is settled and the cross-account fields were blanked together or not at all. */
  lemma UpsertThenParse(repos: seq<Entry>, input: Raw, now: string, before: (string, string) -> bool,
                        badPath: string -> bool)
    requires Unique(repos) && (forall i | 0 <= i < |repos| :: EntryStored(repos[i])) && Accepted(input, badPath)
    ensures var key := NormalizeRepoKey(input.ref).value;
            var after := Upsert(repos, input, now, before).value;
            var existing := FindEntry(repos, key);
            Parse(RawsOf(after), |after|) == after <==>
              Settled(key)
              && BlankedTogether(if existing.Some? then existing.value.fields else map[], input.fields)
  {
    assert NormalizeRepoKey(input.ref).Some?;
    assert Upsert(repos, input, now, before).Some?;
    hide NormalizeRepoKey, FindEntry, Upsert, Settled, BlankedTogether, Accepted, Parse, Merged,
         FieldsStored, RawsOf, KeyForm, Trim, EntryStored, Unique;
    var key := NormalizeRepoKey(input.ref).value;
    var after := Upsert(repos, input, now, before).value;
    var existing := FindEntry(repos, key);
    FindIs(repos, key);
    if existing.Some? {
      StoredFields(repos, existing.value);
    }
    KeysHaveForm(input.ref);
    UpsertMember(repos, input, now, before);
    MergedStored(existing, key, input, now, badPath);
    OneToCheck(repos, after, Merged(existing, key, input, now));
  }

  lemma StoredFields(repos: seq<Entry>, e: Entry)
    requires (forall i | 0 <= i < |repos| :: EntryStored(repos[i])) && e in repos
    ensures FieldsStored(e.fields)
  {
    hide NormalizeRepoKey, FieldsStored;
  }

  /** With every other entry stored, the parse keeps the list exactly when it keeps this one. */
  lemma OneToCheck(repos: seq<Entry>, after: seq<Entry>, merged: Entry)
    requires Unique(after) && forall i | 0 <= i < |repos| :: EntryStored(repos[i])
    requires forall x :: x in after ==> x == merged || x in repos
    requires merged in after && forall f | f in merged.fields :: Trim(merged.fields[f]) == merged.fields[f] != ""
    ensures Parse(RawsOf(after), |after|) == after <==> EntryStored(merged)
  {
    hide Parse, RawsOf, EntryStored, Unique, Trim;
    if EntryStored(merged) {
      forall i | 0 <= i < |after| ensures EntryStored(after[i]) {
        assert after[i] in after;
      }
      ParseAgain(after, |after|);
      assert after[..|after|] == after;
    }
    if Parse(RawsOf(after), |after|) == after {
      UnchangedMeansStored(after, merged);
    }
  }

  // ----- what the two conditions exclude -----

  lemma BareTwice()
    ensures Bare("o/r.git.git") == "o/r.git"
  {
    var s := "o/r.git.git";
    assert !IsBlank(s[0]) && !IsBlank(Last(s));
    assert Trim(s) == s;
    assert !ScpForm(s) by {
      assert s[0] == 'o';
    }
    assert Letters(s, 0) == 1 by {
      assert Letters(s, 1) == 1;
    }
    assert s[1..][0] == '/';
    assert !UrlForm(s);
    assert s[|s| - 4..] == ".git" && s[..|s| - 4] == "o/r.git";
    LowerGit();
    assert GitSuffix(s);
  }

  lemma LowerGit()
    ensures Lower(".git") == ".git"
  {
    assert Lower("t") == "t" && Lower("it") == "it" && Lower("git") == "git";
  }

  lemma KeyParts()
    ensures Split("o/r.git", '/') == ["o", "r.git"] && Lower("o/r.git") == "o/r.git"
  {
    assert "o/r.git" == "o" + ['/'] + "r.git";
    SplitAt("o", "r.git", '/');
    SplitPart("r.git", '/');
    LowerGit();
    hide Lower, Split;
    LowerStep('r', ".git");
    assert ['r'] + ".git" == "r.git";
    LowerStep('/', "r.git");
    assert ['/'] + "r.git" == "/r.git";
    LowerStep('o', "/r.git");
    assert ['o'] + "/r.git" == "o/r.git";
  }

  /** A name that ends in .git twice keeps one, and so is stored under a key that the next
      parse does not give back. */
  lemma TwiceGitIsUnsettled()
    ensures NormalizeRepoKey("o/r.git.git") == Some("o/r.git") && !Settled("o/r.git")
  {
    var key := "o/r.git";
    assert key[|key| - 4..] == ".git";
    LowerGit();
    BareTwice();
    KeyParts();
    hide Lower, Split, Bare, Trim, ScpForm;
  }

  /** An input that blanks the account alone is accepted, and splits the stored three. */
  lemma LoneBlankIsAccepted(kept: map<Field, string>, ref: string, badPath: string -> bool)
    requires NormalizeRepoKey(ref).Some? && TRIPLE <= kept.Keys
    ensures Accepted(Raw(ref, map[Account := Str("")], NotStr), badPath)
    ensures !BlankedTogether(kept, map[Account := Str("")])
  {
    hide NormalizeRepoKey;
    var fields := map[Account := Str("")];
    assert Account in kept.Keys * TRIPLE;
    assert Trim("") == "" && Blanked(fields, Account) && !Blanked(fields, RoleArn) && RoleArn in TRIPLE && Account in TRIPLE;
  }
}
