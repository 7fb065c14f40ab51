/** What the two here-document scanners look for in one line: exactly which texts are
    openers, with a tag that is quoted or not, and exactly which hash begins a comment that
    is then blanked to the end of the line. */
module HeredocForms {
  import opened Text
  import opened PyText
  import opened BashHeredocs

  // ----- what an opener is -----

  /** Letters, digits and underscores, no digit first. */
  predicate TagText(tag: string) {
    tag != "" && !('0' <= tag[0] <= '9')
    && forall k | 0 <= k < |tag| ::
         'A' <= tag[k] <= 'Z' || 'a' <= tag[k] <= 'z' || tag[k] == '_' || '0' <= tag[k] <= '9'
  }

  predicate SpacesOnly(gap: string) { forall k | 0 <= k < |gap| :: IsSpace(gap[k]) }

  predicate QuoteMark(quote: string) { quote == "" || quote == "'" || quote == "\"" }

  predicate DashMark(dash: string) { dash == "" || dash == "-" }

  function Spelled(dash: string, gap: string, quote: string, tag: string): string {
    "<<" + (dash + (gap + (quote + (tag + quote))))
  }

  /** The parts from i on spell the opener: `<<`, a dash perhaps, spaces, and a tag that is
      quoted on both sides alike or, unquoted, not cut short; and it is no part of `<<<`. */
  predicate Spells(s: string, i: nat, op: Opener, e: nat, dash: string, gap: string, quote: string) {
    TagText(op.tag) && !(0 < i <= |s| && s[i - 1] == '<')
    && DashMark(dash) && SpacesOnly(gap) && QuoteMark(quote) && op.quoted == (quote != "")
    && Shown(s, i, Spelled(dash, gap, quote, op.tag)) && e == i + |Spelled(dash, gap, quote, op.tag)|
    && (quote == "" && e < |s| ==> !IsTagChar(s[e]))
  }

  ghost predicate SpellsOpener(s: string, i: nat, op: Opener, e: nat) {
    exists dash, gap, quote :: Spells(s, i, op, e, dash, gap, quote)
  }

  lemma {:induction false} SpacesSkipped(s: string, i: nat, j: nat)
    requires i <= j <= |s| && (forall k | i <= k < j :: IsSpace(s[k])) && (j < |s| ==> !IsSpace(s[j]))
    ensures SkipSpaces(s, i) == j
    decreases j - i
  {
    hide IsSpace;
    if i < j {
      SpacesSkipped(s, i + 1, j);
    }
  }

  lemma {:induction false} SkippedAreSpaces(s: string, i: nat)
    requires i <= |s|
    ensures forall k | i <= k < SkipSpaces(s, i) :: IsSpace(s[k])
    decreases |s| - i
  {
    hide IsSpace;
    if i < |s| && IsSpace(s[i]) {
      SkippedAreSpaces(s, i + 1);
    }
  }

  lemma {:induction false} TagSkipped(s: string, i: nat, j: nat)
    requires i <= j <= |s| && (forall k | i <= k < j :: IsTagChar(s[k])) && (j < |s| ==> !IsTagChar(s[j]))
    ensures TagEnd(s, i) == j
    decreases j - i
  {
    hide IsTagChar;
    if i < j {
      TagSkipped(s, i + 1, j);
    }
  }

  lemma {:induction false} SkippedIsTag(s: string, i: nat)
    requires i <= |s|
    ensures forall k | i <= k < TagEnd(s, i) :: IsTagChar(s[k])
    ensures TagEnd(s, i) < |s| ==> !IsTagChar(s[TagEnd(s, i)])
    decreases |s| - i
  {
    hide IsTagChar;
    if i < |s| && IsTagChar(s[i]) {
      SkippedIsTag(s, i + 1);
    }
  }

  /** What HeredocAt reads, part by part. */
  predicate PartsAt(s: string, i: nat, dash: string, j: nat, quote: string, start: nat, end: nat) {
    && i + 2 + |dash| <= |s| && s[i] == s[i + 1] == '<' && !(i > 0 && s[i - 1] == '<')
    && (if dash == "" then i + 2 < |s| ==> s[i + 2] != '-' else dash == "-" && s[i + 2] == '-')
    && j == SkipSpaces(s, i + 2 + |dash|) && QuoteMark(quote) && start == j + |quote| && start < |s|
    && (if quote == "" then s[j] !in {'\'', '"'} else s[j] == quote[0])
    && IsTagStart(s[start]) && end == TagEnd(s, start)
    && (quote != "" ==> end < |s| && s[end] == quote[0])
  }

  lemma OpenerHasParts(s: string, i: nat) returns (dash: string, j: nat, quote: string, end: nat)
    requires i <= |s| && HeredocAt(s, i).Some?
    ensures PartsAt(s, i, dash, j, quote, j + |quote|, end)
    ensures HeredocAt(s, i).value == (Opener(s[j + |quote|..end], quote != ""), end + |quote|)
  {
    hide SkipSpaces, TagEnd, IsSpace;
    dash := if i + 2 < |s| && s[i + 2] == '-' then "-" else "";
    j := SkipSpaces(s, i + 2 + |dash|);
    quote := if j < |s| && s[j] in {'\'', '"'} then [s[j]] else "";
    end := TagEnd(s, j + |quote|);
  }

  lemma PartsGiveOpener(s: string, i: nat, dash: string, j: nat, quote: string, start: nat, end: nat)
    requires PartsAt(s, i, dash, j, quote, start, end)
    ensures HeredocAt(s, i) == Some((Opener(s[start..end], quote != ""), end + |quote|))
  {
    hide SkipSpaces, TagEnd, IsSpace, IsTagChar;
  }

  lemma PartsAreSpelled(s: string, i: nat, dash: string, j: nat, quote: string, start: nat, end: nat)
    requires PartsAt(s, i, dash, j, quote, start, end)
    ensures Spells(s, i, Opener(s[start..end], quote != ""), end + |quote|, dash, s[i + 2 + |dash|..j], quote)
  {
    var d, e := i + 2 + |dash|, end + |quote|;
    SpacesThere(s, d, j);
    SkippedIsTag(s, start);
    StartIsChar(s, start);
    hide IsSpace, IsTagChar, SpacesOnly, TagText, SkipSpaces, TagEnd, IsTagStart;
    TagIsText(s, start, end);
    assert s[i..i + 2] == "<<" && s[i + 2..d] == dash && s[j..start] == quote && s[end..e] == quote;
    SpelledThere(s, i, d, j, start, end, e, dash, quote);
    hide Spelled, Shown;
  }

  lemma OpenerIsSpelled(s: string, i: nat)
    requires i <= |s| && HeredocAt(s, i).Some?
    ensures SpellsOpener(s, i, HeredocAt(s, i).value.0, HeredocAt(s, i).value.1)
  {
    var dash, j, quote, end := OpenerHasParts(s, i);
    hide HeredocAt, PartsAt, Spells;
    PartsAreSpelled(s, i, dash, j, quote, j + |quote|, end);
  }

  lemma SpacesThere(s: string, d: nat, j: nat)
    requires d <= |s| && j == SkipSpaces(s, d)
    ensures SpacesOnly(s[d..j])
  {
    SkippedAreSpaces(s, d);
    hide IsSpace, SkipSpaces;
  }

  lemma StartIsChar(s: string, start: nat)
    requires start < |s| && IsTagStart(s[start])
    ensures TagEnd(s, start) > start
  {
  }

  lemma TagIsText(s: string, start: nat, end: nat)
    requires start < end <= |s| && IsTagStart(s[start]) && forall k | start <= k < end :: IsTagChar(s[k])
    ensures TagText(s[start..end])
  {
    var tag := s[start..end];
    forall k | 0 <= k < |tag| ensures IsTagChar(tag[k]) {
      assert tag[k] == s[start + k];
    }
  }

  lemma SpelledThere(s: string, i: nat, d: nat, j: nat, start: nat, end: nat, e: nat, dash: string, quote: string)
    requires i + 2 <= d <= j <= start <= end <= e <= |s| && s[i..i + 2] == "<<"
    requires s[i + 2..d] == dash && s[j..start] == quote && s[end..e] == quote
    ensures Shown(s, i, Spelled(dash, s[d..j], quote, s[start..end]))
    ensures e == i + |Spelled(dash, s[d..j], quote, s[start..end])|
  {
    assert s[start..e] == s[start..end] + s[end..e];
    assert s[j..e] == s[j..start] + s[start..e];
    assert s[d..e] == s[d..j] + s[j..e];
    assert s[i + 2..e] == s[i + 2..d] + s[d..e];
    assert s[i..e] == s[i..i + 2] + s[i + 2..e];
  }

  lemma SpelledIsOpener(s: string, i: nat, op: Opener, e: nat, dash: string, gap: string, quote: string)
    requires Spells(s, i, op, e, dash, gap, quote)
    ensures HeredocAt(s, i) == Some((op, e))
  {
    var j := i + 2 + |dash| + |gap|;
    var start := j + |quote|;
    var end := start + |op.tag|;
    SpelledParts(s, i, op, e, dash, gap, quote);
    hide Spells, PartsAt, HeredocAt;
    PartsGiveOpener(s, i, dash, j, quote, start, end);
  }

  lemma SpelledParts(s: string, i: nat, op: Opener, e: nat, dash: string, gap: string, quote: string)
    requires Spells(s, i, op, e, dash, gap, quote)
    ensures var j := i + 2 + |dash| + |gap|;
            var start := j + |quote|;
            var end := start + |op.tag|;
            PartsAt(s, i, dash, j, quote, start, end) && s[start..end] == op.tag && e == end + |quote|
            && op.quoted == (quote != "")
  {
    hide SkipSpaces, TagEnd, IsSpace, TagText, SpacesOnly, IsTagChar, Spells, Shown, IsTagStart, QuoteMark;
    var d := i + 2 + |dash|;
    var j := d + |gap|;
    var start := j + |quote|;
    var end := start + |op.tag|;
    SpellsPlaces(s, i, op, e, dash, gap, quote);
    ShownQuotes(s, j, start, end, quote);
    ShownDash(s, i + 2, dash, gap, s[j]);
    TagFound(s, start, end, op.tag);
    GapFound(s, d, j, gap);
  }

  lemma SpellsPlaces(s: string, i: nat, op: Opener, e: nat, dash: string, gap: string, quote: string)
    requires Spells(s, i, op, e, dash, gap, quote)
    ensures var d := i + 2 + |dash|;
            var j := d + |gap|;
            var start := j + |quote|;
            var end := start + |op.tag|;
            && i < d <= j <= start < end <= e <= |s| && e == end + |quote|
            && s[i] == s[i + 1] == '<' && !(i > 0 && s[i - 1] == '<') && op.quoted == (quote != "")
            && Shown(s, i + 2, dash) && Shown(s, d, gap) && Shown(s, j, quote)
            && Shown(s, start, op.tag) && Shown(s, end, quote)
            && DashMark(dash) && SpacesOnly(gap) && QuoteMark(quote) && TagText(op.tag)
            && IsTagStart(s[start]) && !IsSpace(s[start]) && s[start] !in {'\'', '"', '-'}
            && (quote == "" && end < |s| ==> !IsTagChar(s[end]))
  {
    var start := i + 2 + |dash| + |gap| + |quote|;
    SpelledPlaces(s, i, dash, gap, quote, op.tag);
    hide TagText, SpacesOnly, IsSpace, IsTagChar, IsTagStart;
    ShownTag(s, start, op.tag);
    ShownAt(s, i, "<<", 0);
    ShownAt(s, i, "<<", 1);
    hide Shown;
    TagNotEmpty(op.tag);
  }

  lemma TagNotEmpty(tag: string)
    requires TagText(tag)
    ensures tag != ""
  {
  }

  lemma GapFound(s: string, d: nat, j: nat, gap: string)
    requires Shown(s, d, gap) && SpacesOnly(gap) && j == d + |gap| && j < |s| && !IsSpace(s[j])
    ensures SkipSpaces(s, d) == j
  {
    ShownSpaces(s, d, gap);
    hide IsSpace;
    SpacesSkipped(s, d, j);
  }

  lemma TagFound(s: string, start: nat, end: nat, tag: string)
    requires Shown(s, start, tag) && TagText(tag) && end == start + |tag| && (end < |s| ==> !IsTagChar(s[end]))
    ensures TagEnd(s, start) == end && s[start..end] == tag
  {
    ShownTag(s, start, tag);
    hide IsTagChar;
    TagSkipped(s, start, end);
  }

  lemma ShownQuotes(s: string, j: nat, start: nat, end: nat, quote: string)
    requires Shown(s, j, quote) && Shown(s, end, quote) && QuoteMark(quote) && start == j + |quote| && end > start && end <= |s|
    requires !IsSpace(s[start]) && s[start] !in {'\'', '"', '-'}
    ensures !IsSpace(s[j]) && s[j] != '-'
    ensures if quote == "" then s[j] !in {'\'', '"'} else end < |s| && s[j] == s[end] == quote[0] && !IsTagChar(s[end])
  {
    if quote != "" {
      ShownAt(s, j, quote, 0);
      ShownAt(s, end, quote, 0);
    }
  }

  lemma ShownDash(s: string, i: nat, dash: string, gap: string, next: char)
    requires Shown(s, i, dash) && Shown(s, i + |dash|, gap) && SpacesOnly(gap) && DashMark(dash)
    requires i + |dash| + |gap| < |s| && next == s[i + |dash| + |gap|] && next != '-'
    ensures if dash == "" then s[i] != '-' else s[i] == '-'
  {
    if dash != "" {
      ShownAt(s, i, dash, 0);
    } else if gap != "" {
      ShownAt(s, i, gap, 0);
      DashIsNoSpace();
    }
  }

  lemma DashIsNoSpace()
    ensures !IsSpace('-')
  {
  }

  lemma ShownSpaces(s: string, i: nat, gap: string)
    requires Shown(s, i, gap) && SpacesOnly(gap)
    ensures forall k | i <= k < i + |gap| :: IsSpace(s[k])
  {
    forall k | i <= k < i + |gap| ensures IsSpace(s[k]) {
      ShownAt(s, i, gap, k - i);
    }
  }

  lemma ShownTag(s: string, i: nat, tag: string)
    requires Shown(s, i, tag) && TagText(tag)
    ensures (forall k | i <= k < i + |tag| :: IsTagChar(s[k])) && IsTagStart(s[i]) && !IsSpace(s[i])
    ensures s[i] !in {'\'', '"', '-'} && s[i..i + |tag|] == tag
  {
    ShownAt(s, i, tag, 0);
    forall k | i <= k < i + |tag| ensures IsTagChar(s[k]) {
      ShownAt(s, i, tag, k - i);
    }
  }

  /** Where each part of a spelled opener stands. */
  lemma SpelledPlaces(s: string, i: nat, dash: string, gap: string, quote: string, tag: string)
    requires Shown(s, i, Spelled(dash, gap, quote, tag))
    ensures var d := i + 2 + |dash|;
            var j := d + |gap|;
            var start := j + |quote|;
            && Shown(s, i, "<<") && Shown(s, i + 2, dash) && Shown(s, d, gap) && Shown(s, j, quote)
            && Shown(s, start, tag) && Shown(s, start + |tag|, quote)
  {
    var q := tag + quote;
    var g := quote + q;
    ShownParts(s, i, "<<", dash + (gap + g));
    ShownParts(s, i + 2, dash, gap + g);
    ShownParts(s, i + 2 + |dash|, gap, g);
    ShownParts(s, i + 2 + |dash| + |gap|, quote, q);
    ShownParts(s, i + 2 + |dash| + |gap| + |quote|, tag, quote);
  }

  /** What the two scanners take for an opener is exactly that, its tag and whether it is
      quoted with it. */
  lemma HeredocExactly(s: string, i: nat, op: Opener, e: nat)
    requires i <= |s|
    ensures HeredocAt(s, i) == Some((op, e)) <==> SpellsOpener(s, i, op, e)
  {
    hide HeredocAt, Spells;
    if HeredocAt(s, i) == Some((op, e)) {
      OpenerIsSpelled(s, i);
    }
    forall dash, gap, quote | Spells(s, i, op, e, dash, gap, quote) ensures HeredocAt(s, i) == Some((op, e)) {
      SpelledIsOpener(s, i, op, e, dash, gap, quote);
    }
  }

  // ----- what a comment is -----

  /** How a character is read: bare, in double or in single quotes; or right behind a
      backslash that escapes it. */
  datatype Quoting = Bare | Double | Single | BareEscaped | DoubleEscaped

  function NextQuoting(q: Quoting, c: char): Quoting {
    match q
    case Bare => if c == '\\' then BareEscaped else if c == '"' then Double else if c == '\'' then Single else Bare
    case Double => if c == '\\' then DoubleEscaped else if c == '"' then Bare else Double
    case Single => if c == '\'' then Bare else Single
    case BareEscaped => Bare
    case DoubleEscaped => Double
  }

  /** Character by character: how the one at k is read, the line beginning in q. */
  function QuotingAt(line: string, q: Quoting, k: nat): Quoting
    requires k <= |line|
  {
    if k == 0 then q else NextQuoting(QuotingAt(line, q, k - 1), line[k - 1])
  }

  /** A bare hash at the start or after a space, no brace behind it. */
  predicate BeginsComment(line: string, q: Quoting, k: nat)
    requires k < |line|
  {
    line[k] == '#' && QuotingAt(line, q, k) == Bare && (k == 0 || IsSpace(line[k - 1]))
    && (k + 1 < |line| ==> line[k + 1] != '{')
  }

  function Entry(dq: bool, sq: bool): Quoting { if dq then Double else if sq then Single else Bare }

  lemma {:induction false} ScanFollows(line: string, k: nat, dq: bool, sq: bool, q: Quoting)
    requires k <= |line| && !(dq && sq) && QuotingAt(line, q, k) == Entry(dq, sq)
    ensures var c := ScanLine(line, k, dq, sq);
            && (forall j | k <= j < |line| && (c.at.Some? ==> j < c.at.value) :: !BeginsComment(line, q, j))
            && (c.at.Some? ==> BeginsComment(line, q, c.at.value))
            && (c.at.None? ==> !(c.dq && c.sq) && match QuotingAt(line, q, |line|)
                                                  case BareEscaped => !c.dq && !c.sq
                                                  case DoubleEscaped => c.dq
                                                  case now => now == Entry(c.dq, c.sq))
    decreases |line| - k
  {
    hide IsSpace;
    if k < |line| {
      assert QuotingAt(line, q, k + 1) == NextQuoting(QuotingAt(line, q, k), line[k]);
      if line[k] == '\\' && !sq {
        if k + 1 < |line| {
          assert QuotingAt(line, q, k + 2) == NextQuoting(QuotingAt(line, q, k + 1), line[k + 1]);
          ScanFollows(line, k + 2, dq, sq, q);
        }
      } else if line[k] == '"' && !sq {
        ScanFollows(line, k + 1, !dq, sq, q);
      } else if line[k] == '\'' && !dq {
        ScanFollows(line, k + 1, dq, !sq, q);
      } else if !BeginsComment(line, q, k) {
        ScanFollows(line, k + 1, dq, sq, q);
      }
    }
  }

  /** A line is cut at its first comment, if it has one, and else hands its quoting on. */
  lemma CutAtTheComment(line: string, dq: bool, sq: bool)
    requires !(dq && sq)
    ensures var c := ScanLine(line, 0, dq, sq);
            match c.at
            case Some(k) => BeginsComment(line, Entry(dq, sq), k)
                            && forall j | 0 <= j < k :: !BeginsComment(line, Entry(dq, sq), j)
            case None => (forall j | 0 <= j < |line| :: !BeginsComment(line, Entry(dq, sq), j))
                         && Entry(c.dq, c.sq) == match QuotingAt(line, Entry(dq, sq), |line|)
                                                 case BareEscaped => Bare
                                                 case DoubleEscaped => Double
                                                 case now => now
  {
    ScanFollows(line, 0, dq, sq, Entry(dq, sq));
  }
}
