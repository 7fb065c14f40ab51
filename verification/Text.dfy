/** Strings as sequences of characters: the split and join that the modelled
    programs do on a single separator, and the laws the other modules rest on. */
module Text {

  datatype Option<+T> = None | Some(value: T)

  /** s.split(c) */
  function Split(s: string, c: char): (parts: seq<string>)
    ensures |parts| >= 1
  {
    if s == "" then [""]
    else if s[0] == c then [""] + Split(s[1..], c)
    else
      var rest := Split(s[1..], c);
      [[s[0]] + rest[0]] + rest[1..]
  }

  lemma {:induction false} PartsHoldNoSeparator(s: string, c: char, k: nat)
    requires k < |Split(s, c)|
    ensures c !in Split(s, c)[k]
  {
    if s != "" {
      var rest := Split(s[1..], c);
      if s[0] == c {
        if k > 0 {
          PartsHoldNoSeparator(s[1..], c, k - 1);
        }
      } else {
        PartsHoldNoSeparator(s[1..], c, k);
      }
    }
  }

  /** c.join(parts) */
  function Join(parts: seq<string>, c: char): string
  {
    if |parts| == 0 then ""
    else if |parts| == 1 then parts[0]
    else parts[0] + [c] + Join(parts[1..], c)
  }

  function Init<T>(s: seq<T>): seq<T>
    requires |s| > 0
  {
    s[..|s| - 1]
  }

  function Last<T>(s: seq<T>): T
    requires |s| > 0
  {
    s[|s| - 1]
  }

  lemma AppendAssociates<T>(a: seq<T>, b: seq<T>, c: seq<T>)
    ensures a + (b + c) == (a + b) + c
  {
  }

  /** The concatenation of a sequence of pieces. */
  function Concat(pieces: seq<string>): string
  {
    if pieces == [] then "" else pieces[0] + Concat(pieces[1..])
  }

  lemma {:induction false} ConcatAppend(a: seq<string>, b: seq<string>)
    ensures Concat(a + b) == Concat(a) + Concat(b)
  {
    if a == [] {
      assert a + b == b;
    } else {
      assert (a + b)[1..] == a[1..] + b;
      ConcatAppend(a[1..], b);
      assert a[0] + (Concat(a[1..]) + Concat(b)) == (a[0] + Concat(a[1..])) + Concat(b);
    }
  }

  lemma {:induction false} JoinSplit(s: string, c: char)
    ensures Join(Split(s, c), c) == s
  {
    if s != "" {
      JoinSplit(s[1..], c);
      var rest := Split(s[1..], c);
      if s[0] == c {
        assert Split(s, c)[1..] == rest;
        assert s == [c] + s[1..];
      } else {
        assert Split(s, c)[1..] == rest[1..];
        assert s == [s[0]] + s[1..];
        if |rest| > 1 {
          assert [s[0]] + (rest[0] + [c] + Join(rest[1..], c)) == ([s[0]] + rest[0]) + [c] + Join(rest[1..], c);
        }
      }
    }
  }

  lemma {:induction false} SplitJoin(parts: seq<string>, c: char)
    requires |parts| >= 1
    requires forall p :: p in parts ==> c !in p
    ensures Split(Join(parts, c), c) == parts
  {
    if |parts| == 1 {
      SplitPart(parts[0], c);
      assert [parts[0]] == parts;
    } else {
      SplitJoin(parts[1..], c);
      SplitAt(parts[0], Join(parts[1..], c), c);
      assert parts[0] + [c] + Join(parts[1..], c) == parts[0] + ([c] + Join(parts[1..], c));
      assert [parts[0]] + parts[1..] == parts;
    }
  }

  lemma {:induction false} SplitPart(p: string, c: char)
    requires c !in p
    ensures Split(p, c) == [p]
  {
    if p != "" {
      assert forall x :: x in p[1..] ==> x in p;
      SplitPart(p[1..], c);
      assert [p[0]] + p[1..] == p;
    }
  }

  lemma {:induction false} SplitAt(p: string, rest: string, c: char)
    requires c !in p
    ensures Split(p + [c] + rest, c) == [p] + Split(rest, c)
  {
    var s := p + [c] + rest;
    if p == "" {
      assert s[1..] == rest;
    } else {
      assert forall x :: x in p[1..] ==> x in p;
      SplitAt(p[1..], rest, c);
      assert s[1..] == p[1..] + [c] + rest;
      assert [p[0]] + p[1..] == p;
    }
  }

  /** Growing the head of a list of parts does not disturb its open last part. */
  lemma GrowHead(h: char, parts: seq<string>, tail: seq<string>)
    requires |parts| > 1
    ensures var grown := [[h] + parts[0]] + parts[1..];
            var all := Init(parts) + tail;
            |all| > 0 && Last(grown) == Last(parts)
            && [[h] + all[0]] + all[1..] == Init(grown) + tail
  {
    var grown := [[h] + parts[0]] + parts[1..];
    assert Init(grown) == [[h] + parts[0]] + Init(parts)[1..];
    assert (Init(parts) + tail)[1..] == Init(parts)[1..] + tail;
  }

  lemma PrependEmpty(parts: seq<string>, tail: seq<string>)
    requires |parts| > 0
    ensures var all := [""] + parts;
            Last(all) == Last(parts) && [""] + (Init(parts) + tail) == Init(all) + tail
  {
    assert Init([""] + parts) == [""] + Init(parts);
    AppendAssociates([""], Init(parts), tail);
  }

  /** Splitting in two goes: only the last part of the first half stays open. */
  lemma {:induction false} SplitAppend(a: string, b: string, c: char)
    ensures Split(a + b, c) == Init(Split(a, c)) + Split(Last(Split(a, c)) + b, c)
  {
    if a == "" {
      assert a + b == b;
    } else {
      SplitAppend(a[1..], b, c);
      assert (a + b)[1..] == a[1..] + b;
      if a[0] == c {
        var parts := Split(a[1..], c);
        PrependEmpty(parts, Split(Last(parts) + b, c));
      } else {
        SplitAppendChar(a, b, c);
      }
    }
  }

  lemma SplitChar(s: string, c: char)
    requires s != "" && s[0] != c
    ensures var rest := Split(s[1..], c);
            Split(s, c) == [[s[0]] + rest[0]] + rest[1..]
  {
  }

  lemma SplitAppendChar(a: string, b: string, c: char)
    requires a != "" && a[0] != c
    requires Split(a[1..] + b, c) == Init(Split(a[1..], c)) + Split(Last(Split(a[1..], c)) + b, c)
    ensures Split(a + b, c) == Init(Split(a, c)) + Split(Last(Split(a, c)) + b, c)
  {
    hide Split, Join;
    assert (a + b)[1..] == a[1..] + b;
    SplitChar(a, c);
    SplitChar(a + b, c);
    var parts := Split(a[1..], c);
    if |parts| == 1 {
      OnePart(a[1..], c);
      assert [a[0]] + a[1..] == a;
    } else {
      GrowHead(a[0], parts, Split(Last(parts) + b, c));
    }
  }

  lemma OnePart(s: string, c: char)
    requires |Split(s, c)| == 1
    ensures Split(s, c) == [s]
  {
    JoinSplit(s, c);
  }

  /** s shows the text at i. */
  predicate Shown(s: string, i: nat, out: string) { i + |out| <= |s| && s[i..i + |out|] == out }

  lemma ShownParts(s: string, i: nat, a: string, b: string)
    requires Shown(s, i, a + b)
    ensures Shown(s, i, a) && Shown(s, i + |a|, b)
  {
    var out := a + b;
    assert s[i..i + |a|] == out[..|a|] == a;
    assert s[i + |a|..i + |out|] == out[|a|..] == b;
  }

  lemma ShownAt(s: string, i: nat, out: string, k: nat)
    requires Shown(s, i, out) && k < |out|
    ensures s[i + k] == out[k]
  {
    assert s[i..i + |out|][k] == s[i + k];
  }
}
