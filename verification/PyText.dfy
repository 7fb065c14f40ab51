/** The Python string methods the modelled scripts use. */
module PyText {
  import opened Text

  /** str.isspace() of one character; also what \s matches in a str pattern. */
  predicate IsSpace(c: char) {
    '\t' <= c <= '\r' || '\U{1C}' <= c <= ' '
    || c in {'\U{85}', '\U{A0}', '\U{1680}', '\U{2028}', '\U{2029}', '\U{202F}', '\U{205F}', '\U{3000}'}
    || '\U{2000}' <= c <= '\U{200A}'
  }

  function LStrip(s: string): (r: string)
    ensures |r| <= |s|
    ensures r == "" || !IsSpace(r[0])
  {
    if s != "" && IsSpace(s[0]) then LStrip(s[1..]) else s
  }

  function RStrip(s: string): (r: string)
    ensures |r| <= |s|
    ensures r == "" || !IsSpace(r[|r| - 1])
  {
    if s != "" && IsSpace(Last(s)) then RStrip(Init(s)) else s
  }

  /** s.strip() */
  function Strip(s: string): string { RStrip(LStrip(s)) }

  /** A character at which str.splitlines() cuts. */
  predicate IsBreak(c: char) {
    '\n' <= c <= '\r' || '\U{1C}' <= c <= '\U{1E}' || c in {'\U{85}', '\U{2028}', '\U{2029}'}
  }

  /** s.splitlines(): CR LF is one break, and a break at the end opens no further line. */
  function SplitLines(s: string): (lines: seq<string>)
    decreases |s|
  {
    if s == "" then []
    else if IsBreak(s[0]) then [""] + SplitLines(s[if "\r\n" <= s then 2 else 1..])
    else
      var rest := SplitLines(s[1..]);
      if rest == [] then [[s[0]]] else [[s[0]] + rest[0]] + rest[1..]
  }

  /** SplitLines unfolded once. */
  lemma SplitLinesStep(s: string)
    requires s != ""
    ensures var rest := SplitLines(s[if IsBreak(s[0]) && "\r\n" <= s then 2 else 1..]);
            SplitLines(s) == if IsBreak(s[0]) then [""] + rest
                             else if rest == [] then [[s[0]]] else [[s[0]] + rest[0]] + rest[1..]
  {
    assert "\r\n" <= s ==> IsBreak(s[0]);
  }

  lemma OneCharLine(c: char, rest: string)
    requires !IsBreak(c)
    ensures SplitLines([c] + "\n" + rest) == SplitLines([c]) + SplitLines(rest)
  {
    var s := [c] + "\n" + rest;
    assert s[1..] == "\n" + rest && ("\n" + rest)[1..] == rest && [c][1..] == "";
    SplitLinesStep(s);
    SplitLinesStep("\n" + rest);
    SplitLinesStep([c]);
    assert ([""] + SplitLines(rest))[1..] == SplitLines(rest) && [c] + "" == [c];
  }

  /** A line end closes the line before it, and what follows is split on its own. */
  lemma {:induction false} SplitLinesAt(a: string, rest: string)
    requires a != "" && !IsBreak(Last(a))
    ensures SplitLines(a + "\n" + rest) == SplitLines(a) + SplitLines(rest)
    decreases |a|
  {
    hide SplitLines;
    var s := a + "\n" + rest;
    if |a| == 1 {
      assert a == [a[0]];
      OneCharLine(a[0], rest);
    } else {
      assert s[0] == a[0] && s[1] == a[1];
      var k := if IsBreak(a[0]) && "\r\n" <= a then 2 else 1;
      if k == |a| {
        assert false;
      }
      assert s[k..] == a[k..] + "\n" + rest && Last(a[k..]) == Last(a);
      SplitLinesAt(a[k..], rest);
      LinesOfText(a[k..]);
      SplitLinesStep(a);
      SplitLinesStep(s);
      var lines, more := SplitLines(a[k..]), SplitLines(rest);
      if IsBreak(a[0]) {
        AppendAssociates([""], lines, more);
      } else {
        assert (lines + more)[1..] == lines[1..] + more;
        AppendAssociates([[a[0]] + lines[0]], lines[1..], more);
      }
    }
  }

  lemma LinesOfText(s: string)
    requires s != ""
    ensures SplitLines(s) != []
  {
  }

  /** No break but LF. */
  predicate OnlyLf(s: string) { forall k | 0 <= k < |s| :: IsBreak(s[k]) ==> s[k] == '\n' }

  /** On such a text that does not end in a break, splitlines is split("\n"). */
  lemma {:induction false} SplitLinesIsSplit(s: string)
    requires s != "" && OnlyLf(s) && !IsBreak(Last(s))
    ensures SplitLines(s) == Split(s, '\n')
  {
    if |s| == 1 {
      assert s[1..] == "";
      assert Split(s, '\n') == [[s[0]] + ""] + [""][1..];
      assert [s[0]] + "" == [s[0]];
    } else {
      assert Last(s[1..]) == Last(s);
      SplitLinesIsSplit(s[1..]);
      if IsBreak(s[0]) {
        assert !("\r\n" <= s);
      }
    }
  }

  /** No line holds a break. */
  lemma {:induction false} LinesHoldNoBreak(s: string, k: nat)
    requires k < |SplitLines(s)|
    ensures forall m | 0 <= m < |SplitLines(s)[k]| :: !IsBreak(SplitLines(s)[k][m])
    decreases |s|
  {
    if s != "" {
      if IsBreak(s[0]) {
        var cut := if "\r\n" <= s then 2 else 1;
        if k > 0 {
          LinesHoldNoBreak(s[cut..], k - 1);
        }
      } else {
        var rest := SplitLines(s[1..]);
        if rest != [] {
          LinesHoldNoBreak(s[1..], k);
        }
      }
    }
  }

  lemma {:induction false} LStripKeeps(s: string)
    ensures LStrip(LStrip(s)) == LStrip(s)
    ensures s != "" && !IsSpace(Last(s)) ==> LStrip(s) != "" && Last(LStrip(s)) == Last(s)
  {
    if s != "" && IsSpace(s[0]) {
      LStripKeeps(s[1..]);
      if |s| > 1 {
        assert Last(s[1..]) == Last(s);
      }
    }
  }

  /** Stripping a stripped text that has line ends put around it. */
  lemma StripPadded(t: string)
    requires t != "" && !IsSpace(t[0]) && !IsSpace(Last(t))
    ensures Strip(t) == t && Strip("\n" + t + "\n") == t && Strip(t + "\n") == t && Strip("\n" + t) == t
  {
    assert ("\n" + t + "\n")[1..] == t + "\n" && ("\n" + t)[1..] == t;
    assert LStrip(t + "\n") == t + "\n" && LStrip(t) == t;
    assert Init(t + "\n") == t && Last(t + "\n") == '\n';
    assert RStrip(t) == t;
  }

  /** A stripped text is empty or begins and ends with a non-space. */
  lemma {:induction false} RStripKeepsHead(s: string)
    requires s != "" && !IsSpace(s[0])
    ensures RStrip(s) != "" && RStrip(s)[0] == s[0] && RStrip(s) <= s
  {
    if IsSpace(Last(s)) {
      RStripKeepsHead(Init(s));
    }
  }
}
