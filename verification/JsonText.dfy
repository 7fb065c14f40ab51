/** json.dumps of a string, and what a JSON reader makes of it: the short escapes, the
    four-digit ones, and the pairs of surrogates that spell one character; and the digits
    of a number. */
module JsonText {
  import opened Text
  import opened CodexConfig

  function DigitValue(c: char): Option<nat> {
    if '0' <= c <= '9' then Some((c - '0') as nat)
    else if 'a' <= c <= 'f' then Some((c - 'a') as nat + 10)
    else None
  }

  function HexValue(s: string, upTo: nat): Option<nat>
    requires upTo <= |s|
  {
    if upTo == 0 then Some(0)
    else
      match (HexValue(s, upTo - 1), DigitValue(s[upTo - 1]))
      case (Some(n), Some(d)) => Some(16 * n + d)
      case _ => None
  }

  /** A four-digit escape behind a backslash and a u. */
  function Unit(t: string, at: nat): Option<nat> {
    if at + 6 <= |t| && t[at] == '\\' && t[at + 1] == 'u' then HexValue(t[at + 2..at + 6], 4) else None
  }

  function Short(c: char): Option<char> {
    if c == '"' || c == '\\' then Some(c)
    else if c == 'n' then Some('\n')
    else if c == 'r' then Some('\r')
    else if c == 't' then Some('\t')
    else if c == 'b' then Some('\U{08}')
    else if c == 'f' then Some('\U{0C}')
    else None
  }

  /** The first character a literal's inside spells, and how many it takes; a pair of
      surrogates spells one character. */
  function FirstRead(t: string): Option<(char, nat)>
    requires t != ""
  {
    if t[0] != '\\' then (if t[0] == '"' then None else Some((t[0], 1)))
    else if |t| > 1 && Short(t[1]).Some? then Some((Short(t[1]).value, 2))
    else
      match Unit(t, 0)
      case None => None
      case Some(n) =>
        if n < 0xD800 || 0xE000 <= n < 0x10000 then Some((n as char, 6))
        else match Unit(t, 6)
          case None => None
          case Some(m) =>
            if 0xD800 <= n < 0xDC00 && 0xDC00 <= m < 0xE000
            then Some(((0x10000 + (n - 0xD800) * 1024 + (m - 0xDC00)) as char, 12)) else None
  }

  function ReadChars(t: string): Option<string>
    decreases |t|
  {
    if t == "" then Some("")
    else
      match FirstRead(t)
      case None => None
      case Some((c, n)) =>
        if 0 < n <= |t| then
          match ReadChars(t[n..])
          case None => None
          case Some(rest) => Some([c] + rest)
        else None
  }

  function ReadJson(t: string): Option<string> {
    if |t| >= 2 && t[0] == '"' && Last(t) == '"' then ReadChars(t[1..|t| - 1]) else None
  }

  lemma DigitReads(n: nat)
    requires n < 16
    ensures DigitValue(HexDigit(n)) == Some(n)
  {
  }

  lemma HexReads(n: nat)
    requires n < 0x10000
    ensures HexValue(Hex4(n), 4) == Some(n)
  {
    FourDigits(Hex4(n), n / 4096 % 16, n / 256 % 16, n / 16 % 16, n % 16);
    Regroup(n);
    hide HexValue, Hex4;
  }

  lemma Regroup(n: nat)
    requires n < 0x10000
    ensures 16 * (16 * (16 * (n / 4096 % 16) + n / 256 % 16) + n / 16 % 16) + n % 16 == n
  {
    var a, b, c := n / 16, n / 16 / 16, n / 16 / 16 / 16;
    assert n == 16 * a + n % 16 && a == 16 * b + a % 16 && b == 16 * c + b % 16;
    assert b == n / 256 && c == n / 4096;
  }

  lemma FourDigits(h: string, a: nat, b: nat, c: nat, d: nat)
    requires a < 16 && b < 16 && c < 16 && d < 16 && h == [HexDigit(a), HexDigit(b), HexDigit(c), HexDigit(d)]
    ensures HexValue(h, 4) == Some(16 * (16 * (16 * a + b) + c) + d)
  {
    DigitReads(a);
    DigitReads(b);
    DigitReads(c);
    DigitReads(d);
    hide DigitValue, HexDigit;
    assert HexValue(h, 1) == Some(a);
    assert HexValue(h, 2) == Some(16 * a + b);
    assert HexValue(h, 3) == Some(16 * (16 * a + b) + c);
  }

  lemma UnitReads(before: string, n: nat, after: string)
    requires n < 0x10000
    ensures Unit(before + ("\\u" + Hex4(n) + after), |before|) == Some(n)
  {
    HexReads(n);
    hide HexValue, Hex4;
    HexHasFour(n);
    var t := before + ("\\u" + Hex4(n) + after);
    assert t[|before| + 2..|before| + 6] == Hex4(n);
  }

  lemma HexHasFour(n: nat)
    ensures |Hex4(n)| == 4
  {
  }

  lemma CharReads(c: char, rest: string)
    ensures FirstRead(JsonChar(c) + rest) == Some((c, |JsonChar(c)|)) && JsonChar(c) != ""
  {
    var n := c as nat;
    HexHasFour(n);
    if ' ' <= c <= '~' || c in {'\n', '\r', '\t', '\U{08}', '\U{0C}'} {
      hide Unit, Hex4;
    } else if n < 0x10000 {
      UnitReads("", n, rest);
      hide Unit, Hex4;
      assert "" + ("\\u" + Hex4(n) + rest) == JsonChar(c) + rest;
    } else {
      PairReads(c, rest);
    }
  }

  lemma PairIs(c: char, high: nat, low: nat)
    requires c as nat >= 0x10000
    requires high == 0xD800 + (c as nat - 0x10000) / 1024 && low == 0xDC00 + (c as nat - 0x10000) % 1024
    ensures JsonChar(c) == ("\\u" + Hex4(high)) + ("\\u" + Hex4(low)) && |JsonChar(c)| == 12
    ensures 0xD800 <= high < 0xDC00 <= low < 0xE000 && 0x10000 + (high - 0xD800) * 1024 + (low - 0xDC00) == c as nat
  {
    HexHasFour(high);
    HexHasFour(low);
    hide Hex4;
    assert JsonChar(c) == "\\u" + Hex4(high) + "\\u" + Hex4(low);
  }

  lemma PairReads(c: char, rest: string)
    requires c as nat >= 0x10000
    ensures FirstRead(JsonChar(c) + rest) == Some((c, |JsonChar(c)|)) && JsonChar(c) != ""
  {
    hide JsonChar, Hex4, Unit, FirstRead;
    var n := c as nat;
    var high, low := 0xD800 + (n - 0x10000) / 1024, 0xDC00 + (n - 0x10000) % 1024;
    PairIs(c, high, low);
    HexHasFour(high);
    var first, second := "\\u" + Hex4(high), "\\u" + Hex4(low);
    UnitReads("", high, second + rest);
    UnitReads(first, low, rest);
    var t := JsonChar(c) + rest;
    assert t == "" + (first + (second + rest)) == first + (second + rest);
    assert t[0] == '\\' && t[1] == 'u';
    PairRead(t, high, low);
  }

  lemma PairRead(t: string, high: nat, low: nat)
    requires |t| > 1 && t[0] == '\\' && t[1] == 'u' && Unit(t, 0) == Some(high) && Unit(t, 6) == Some(low)
    requires 0xD800 <= high < 0xDC00 <= low < 0xE000
    ensures FirstRead(t) == Some(((0x10000 + (high - 0xD800) * 1024 + (low - 0xDC00)) as char, 12))
  {
    hide Unit;
  }

  lemma {:induction false} CharsRead(s: string)
    ensures ReadChars(JsonChars(s)) == Some(s)
  {
    hide FirstRead, JsonChar;
    if s != "" {
      var c, rest := s[0], JsonChars(s[1..]);
      CharReads(c, rest);
      CharsRead(s[1..]);
      var t := JsonChar(c) + rest;
      assert t[|JsonChar(c)|..] == rest;
      assert s == [c] + s[1..];
    }
  }

  /** Every text written as a JSON string reads back as itself. */
  lemma JsonReadsBack(s: string)
    ensures ReadJson(Json(s)) == Some(s)
  {
    CharsRead(s);
    var t := Json(s);
    assert t[1..|t| - 1] == JsonChars(s);
  }

  function DecimalValue(s: string, upTo: nat): Option<nat>
    requires upTo <= |s|
  {
    if upTo == 0 then Some(0)
    else
      match DecimalValue(s, upTo - 1)
      case Some(n) => if '0' <= s[upTo - 1] <= '9' then Some(10 * n + (s[upTo - 1] - '0') as nat) else None
      case None => None
  }

  lemma {:induction false} DecimalOfPrefix(a: string, b: string, k: nat)
    requires k <= |a|
    ensures DecimalValue(a + b, k) == DecimalValue(a, k)
  {
    if k > 0 {
      DecimalOfPrefix(a, b, k - 1);
    }
  }

  /** And a number by its digits. */
  lemma {:induction false} DigitsReadBack(n: nat)
    ensures DecimalValue(Digits(n), |Digits(n)|) == Some(n)
  {
    if n >= 10 {
      DigitsReadBack(n / 10);
      DecimalOfPrefix(Digits(n / 10), [HexDigit(n % 10)], |Digits(n / 10)|);
    } else {
      assert DecimalValue([HexDigit(n)], 0) == Some(0);
    }
  }
}
