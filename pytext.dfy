/**
 * The parts of Python's `str` semantics the script relies on: `isspace`,
 * `lower`, `strip`, the `in` substring test, `split("\n")`, `"\n".join`,
 * `split()[0]` and `int(str)` in base 10.
 */
module PyText {
  import opened Wrappers

  /** The characters for which Python's `str.isspace()` holds; they are what
      `strip()`, `split()` and `int()` skip. */
  predicate IsSpace(c: char)
  {
    || c == ' '
    || ('\t' <= c <= '\r')
    || ('\U{1C}' <= c <= '\U{1F}')
    || c == '\U{85}' || c == '\U{A0}' || c == '\U{1680}'
    || ('\U{2000}' <= c <= '\U{200A}')
    || c == '\U{2028}' || c == '\U{2029}' || c == '\U{202F}' || c == '\U{205F}' || c == '\U{3000}'
  }

  predicate IsDigit(c: char)
  {
    '0' <= c <= '9'
  }

  function DigitValue(c: char): (d: nat)
    requires IsDigit(c)
    ensures d < 10
  {
    c as int - '0' as int
  }

  function DigitChar(d: nat): (c: char)
    requires d < 10
    ensures IsDigit(c) && DigitValue(c) == d
  {
    ('0' as int + d) as char
  }

  // ---------------------------------------------------------------- lower()

  function LowerChar(c: char): (l: char)
    ensures 'A' <= c <= 'Z' ==> l as int == c as int + 32
    ensures !('A' <= c <= 'Z') ==> l == c
  {
    if 'A' <= c <= 'Z' then (c as int + 32) as char else c
  }

  /** `s.lower()` on the ASCII letters; every other character is kept. */
  function Lower(s: string): (r: string)
    ensures |r| == |s|
    ensures forall i :: 0 <= i < |s| ==> r[i] == LowerChar(s[i])
  {
    seq(|s|, i requires 0 <= i < |s| => LowerChar(s[i]))
  }

  /** A string without upper-case ASCII letters is its own lower-case form. */
  lemma LowerFixed(s: string)
    requires forall i :: 0 <= i < |s| ==> !('A' <= s[i] <= 'Z')
    ensures Lower(s) == s
  {
  }

  // ---------------------------------------------------------------- strip()

  function StripLeft(s: string): (r: string)
    ensures |r| <= |s| && r == s[|s| - |r|..]
    ensures r != [] ==> !IsSpace(r[0])
  {
    if |s| > 0 && IsSpace(s[0]) then StripLeft(s[1..]) else s
  }

  function StripRight(s: string): (r: string)
    ensures |r| <= |s| && r == s[..|r|]
    ensures r != [] ==> !IsSpace(r[|r| - 1])
  {
    if |s| > 0 && IsSpace(s[|s| - 1]) then StripRight(s[..|s| - 1]) else s
  }

  /** What `lstrip()` removes is whitespace. */
  lemma {:induction false} StripLeftRemovesSpace(s: string)
    ensures forall i :: 0 <= i < |s| - |StripLeft(s)| ==> IsSpace(s[i])
    decreases |s|
  {
    if |s| > 0 && IsSpace(s[0]) {
      StripLeftRemovesSpace(s[1..]);
    }
  }

  /** What `rstrip()` removes is whitespace. */
  lemma {:induction false} StripRightRemovesSpace(s: string)
    ensures forall i :: |StripRight(s)| <= i < |s| ==> IsSpace(s[i])
    decreases |s|
  {
    if |s| > 0 && IsSpace(s[|s| - 1]) {
      StripRightRemovesSpace(s[..|s| - 1]);
    }
  }

  /** `s.strip()`: whitespace removed from both ends. StripRemovesSpace
      states which piece of s this is. */
  function Strip(s: string): (r: string)
    ensures |r| <= |s|
    ensures r != [] ==> !IsSpace(r[0]) && !IsSpace(r[|r| - 1])
  {
    StripRight(StripLeft(s))
  }

  /** `strip()` keeps the piece of s that starts where `lstrip()` stops;
      what it removes on either side of that piece is whitespace. */
  lemma StripRemovesSpace(s: string)
    ensures var k := |s| - |StripLeft(s)|;
            && k + |Strip(s)| <= |s|
            && (forall i :: 0 <= i < |Strip(s)| ==> Strip(s)[i] == s[k + i])
            && (forall i :: 0 <= i < k ==> IsSpace(s[i]))
            && (forall i :: k + |Strip(s)| <= i < |s| ==> IsSpace(s[i]))
  {
    var t := StripLeft(s);
    var k := |s| - |t|;
    forall i | 0 <= i < |Strip(s)| ensures Strip(s)[i] == s[k + i] {
      StripRightAt(t, i);
      StripLeftAt(s, i);
    }
    StripLeftRemovesSpace(s);
    StripRightRemovesSpace(t);
    forall i | k + |Strip(s)| <= i < |s| ensures IsSpace(s[i]) {
      StripLeftAt(s, i - k);
    }
  }

  lemma StripLeftAt(s: string, i: int)
    requires 0 <= i < |StripLeft(s)|
    ensures StripLeft(s)[i] == s[|s| - |StripLeft(s)| + i]
  {
  }

  lemma StripRightAt(s: string, i: int)
    requires 0 <= i < |StripRight(s)|
    ensures StripRight(s)[i] == s[i]
  {
  }

  /** A string with no whitespace at either end is left as it is by `strip()`. */
  lemma StripUnpadded(s: string)
    requires s != [] ==> !IsSpace(s[0]) && !IsSpace(s[|s| - 1])
    ensures Strip(s) == s
  {
  }

  // ------------------------------------------------------------ `p in s`

  /** `s.startswith(p)` */
  predicate StartsWith(s: string, p: string)
  {
    |p| <= |s| && s[..|p|] == p
  }

  /** p occurs in s starting at position k. */
  predicate OccursAt(s: string, p: string, k: int)
  {
    0 <= k <= |s| - |p| && s[k..k + |p|] == p
  }

  /** Python's `p in s` for strings, scanning s from the left. */
  function Contains(s: string, p: string): (c: bool)
    ensures StartsWith(s, p) ==> c
    ensures c ==> |p| <= |s|
    decreases |s|
  {
    StartsWith(s, p) || (|s| > 0 && Contains(s[1..], p))
  }

  /** `p in s` holds exactly when p occurs at some position of s. */
  lemma {:induction false} ContainsIff(s: string, p: string)
    ensures Contains(s, p) <==> exists k :: 0 <= k <= |s| && OccursAt(s, p, k)
    decreases |s|
  {
    if |s| > 0 {
      ContainsIff(s[1..], p);
      assert StartsWith(s, p) <==> OccursAt(s, p, 0);
      if Contains(s[1..], p) {
        var k :| 0 <= k <= |s| - 1 && OccursAt(s[1..], p, k);
        assert s[1..][k..k + |p|] == s[k + 1..k + 1 + |p|];
        assert OccursAt(s, p, k + 1);
      }
      forall k | 0 < k <= |s| && OccursAt(s, p, k) ensures Contains(s[1..], p) {
        assert s[1..][k - 1..k - 1 + |p|] == s[k..k + |p|];
        assert OccursAt(s[1..], p, k - 1);
      }
    } else if p == [] {
      assert OccursAt(s, p, 0);
    }
  }

  // ------------------------------------------------------------ split("\n")

  /** `s.split(sep)` for a one-character separator: never empty, and
      the pieces hold no separator. */
  function SplitOn(s: string, sep: char): (parts: seq<string>)
    ensures |parts| >= 1
    ensures forall i :: 0 <= i < |parts| ==> sep !in parts[i]
    decreases |s|
  {
    if |s| == 0 then [""]
    else
      var rest := SplitOn(s[1..], sep);
      if s[0] == sep then [""] + rest
      else [[s[0]] + rest[0]] + rest[1..]
  }

  /** `sep.join(parts)` for a one-character separator. */
  function JoinWith(parts: seq<string>, sep: char): (s: string)
    ensures parts == [] ==> s == ""
    ensures |parts| == 1 ==> s == parts[0]
    ensures parts != [] ==> StartsWith(s, parts[0])
    ensures parts != [] && (forall i :: 0 <= i < |parts| ==> sep !in parts[i]) ==>
              multiset(s)[sep] == |parts| - 1
    decreases |parts|
  {
    if |parts| == 0 then ""
    else if |parts| == 1 then parts[0]
    else parts[0] + [sep] + JoinWith(parts[1..], sep)
  }

  lemma {:induction false} SplitPrefix(a: string, b: string, sep: char)
    requires sep !in a
    ensures SplitOn(a + b, sep) == [a + SplitOn(b, sep)[0]] + SplitOn(b, sep)[1..]
    decreases |a|
  {
    if |a| > 0 {
      assert (a + b)[1..] == a[1..] + b;
      SplitPrefix(a[1..], b, sep);
      assert [a[0]] + (a[1..] + SplitOn(b, sep)[0]) == a + SplitOn(b, sep)[0];
    } else {
      assert a + b == b;
      assert a + SplitOn(b, sep)[0] == SplitOn(b, sep)[0];
      assert SplitOn(b, sep) == [SplitOn(b, sep)[0]] + SplitOn(b, sep)[1..];
    }
  }

  /** Splitting a joined list gives back the list, provided the list is not
      empty and no piece contains the separator. */
  lemma {:induction false} SplitJoin(parts: seq<string>, sep: char)
    requires |parts| >= 1
    requires forall i :: 0 <= i < |parts| ==> sep !in parts[i]
    ensures SplitOn(JoinWith(parts, sep), sep) == parts
    decreases |parts|
  {
    if |parts| == 1 {
      SplitPrefix(parts[0], "", sep);
      assert parts[0] + "" == parts[0];
      assert SplitOn("", sep) == [""];
    } else {
      var tail := JoinWith(parts[1..], sep);
      SplitJoin(parts[1..], sep);
      assert parts[0] + [sep] + tail == parts[0] + ([sep] + tail);
      SplitPrefix(parts[0], [sep] + tail, sep);
      assert ([sep] + tail)[1..] == tail;
      assert SplitOn([sep] + tail, sep) == [""] + parts[1..];
      assert parts[0] + "" == parts[0];
      assert parts == [parts[0]] + parts[1..];
    }
  }

  // ------------------------------------------------------------ split()[0]

  function TakeNonSpace(s: string): (t: string)
    ensures |t| <= |s| && t == s[..|t|]
    ensures forall i :: 0 <= i < |t| ==> !IsSpace(t[i])
    ensures |t| < |s| ==> IsSpace(s[|t|])
  {
    if |s| == 0 || IsSpace(s[0]) then [] else [s[0]] + TakeNonSpace(s[1..])
  }

  /** `s.split()[0]`: the first whitespace-delimited word, or None where
      Python raises IndexError. */
  function FirstToken(s: string): (tok: Option<string>)
    ensures tok.None? <==> StripLeft(s) == []
    ensures tok.Some? ==> tok.value != [] && |tok.value| <= |StripLeft(s)| && tok.value == StripLeft(s)[..|tok.value|]
    ensures tok.Some? ==> forall i :: 0 <= i < |tok.value| ==> !IsSpace(tok.value[i])
    ensures tok.Some? && |tok.value| < |StripLeft(s)| ==> IsSpace(StripLeft(s)[|tok.value|])
  {
    var t := StripLeft(s);
    if t == [] then None else Some(TakeNonSpace(t))
  }

  /** `split()[0]` raises IndexError exactly on blank text. */
  lemma FirstTokenNoneIffBlank(s: string)
    ensures FirstToken(s).None? <==> forall i :: 0 <= i < |s| ==> IsSpace(s[i])
  {
    StripLeftRemovesSpace(s);
    if StripLeft(s) != [] {
      assert s[|s| - |StripLeft(s)|] == StripLeft(s)[0];
    }
  }

  /** The first word of a text that starts with a word and a blank. */
  lemma FirstTokenOf(word: string, rest: string)
    requires word != [] && forall i :: 0 <= i < |word| ==> !IsSpace(word[i])
    requires rest != [] && IsSpace(rest[0])
    ensures FirstToken(word + rest) == Some(word)
  {
    assert StripLeft(word + rest) == word + rest;
    TakeWord(word, rest);
  }

  lemma {:induction false} TakeWord(word: string, rest: string)
    requires forall i :: 0 <= i < |word| ==> !IsSpace(word[i])
    requires rest != [] && IsSpace(rest[0])
    ensures TakeNonSpace(word + rest) == word
    decreases |word|
  {
    if |word| == 0 {
      assert word + rest == rest;
    } else {
      assert (word + rest)[1..] == word[1..] + rest;
      TakeWord(word[1..], rest);
      assert word == [word[0]] + word[1..];
    }
  }

  // ------------------------------------------------------------ int(str)

  /** Python's base-10 digit group: digits, with single underscores allowed
      between two digits ("1_000"). */
  predicate DigitGroup(s: string)
  {
    && |s| > 0 && IsDigit(s[0]) && IsDigit(s[|s| - 1])
    && (forall i :: 0 <= i < |s| ==> IsDigit(s[i]) || s[i] == '_')
    && (forall i :: 0 <= i < |s| - 1 && s[i] == '_' ==> IsDigit(s[i + 1]))
  }

  /** The number the digits of s spell, underscores skipped. */
  function DigitsValue(s: string): nat
    requires forall i :: 0 <= i < |s| ==> IsDigit(s[i]) || s[i] == '_'
  {
    if |s| == 0 then 0
    else if s[|s| - 1] == '_' then DigitsValue(s[..|s| - 1])
    else DigitsValue(s[..|s| - 1]) * 10 + DigitValue(s[|s| - 1])
  }

  /** Python's `int(s)`: None where it raises ValueError. The text, once
      stripped, must be a digit group with an optional sign. */
  function ParseInt(s: string): (r: Option<int>)
    ensures var t := Strip(s);
            r.Some? <==> DigitGroup(t) || (|t| > 0 && (t[0] == '-' || t[0] == '+') && DigitGroup(t[1..]))
    ensures var t := Strip(s); DigitGroup(t) ==> r == Some(DigitsValue(t))
    ensures var t := Strip(s); |t| > 0 && t[0] == '+' && DigitGroup(t[1..]) ==> r == Some(DigitsValue(t[1..]))
    ensures var t := Strip(s); |t| > 0 && t[0] == '-' && DigitGroup(t[1..]) ==>
              var v: int := DigitsValue(t[1..]); r == Some(-v)
  {
    ParseStripped(Strip(s))
  }

  /** `int` on text that has already been stripped: an optional sign and a
      digit group. */
  function ParseStripped(t: string): Option<int>
  {
    if |t| > 0 && (t[0] == '-' || t[0] == '+') then
      if DigitGroup(t[1..]) then
        var v: int := DigitsValue(t[1..]);
        Some(if t[0] == '-' then -v else v)
      else None
    else if DigitGroup(t) then Some(DigitsValue(t))
    else None
  }

  /** The decimal digits of n, without leading zeros. */
  function Digits(n: nat): (s: string)
    ensures |s| >= 1
    ensures forall i :: 0 <= i < |s| ==> IsDigit(s[i])
  {
    if n < 10 then [DigitChar(n)] else Digits(n / 10) + [DigitChar(n % 10)]
  }

  /** `str(n)` for an integer. */
  function DecimalString(n: int): string
  {
    if n < 0 then "-" + Digits(-n) else Digits(n)
  }

  lemma {:induction false} DigitsValueOfDigits(n: nat)
    ensures DigitsValue(Digits(n)) == n
  {
    if n >= 10 {
      DigitsValueOfDigits(n / 10);
      assert Digits(n)[..|Digits(n)| - 1] == Digits(n / 10);
    }
  }

  /** The digits of a number form one group without underscores. */
  lemma DigitsGroup(n: nat)
    ensures DigitGroup(Digits(n))
  {
    var d := Digits(n);
    assert IsDigit(d[0]) && IsDigit(d[|d| - 1]);
  }

  /** A digit group, with or without a minus sign, is an integer. */
  lemma ParseStrippedGroup(d: string)
    requires DigitGroup(d)
    ensures ParseStripped(d) == Some(DigitsValue(d))
    ensures var v: int := DigitsValue(d); ParseStripped("-" + d) == Some(-v)
  {
    assert d[0] != '-' && d[0] != '+';
    var m := "-" + d;
    assert m[0] == '-' && m[1..] == d;
  }

  /** `int(str(n)) == n`: every integer written in decimal parses back. */
  lemma ParseDecimalString(n: int)
    ensures ParseInt(DecimalString(n)) == Some(n)
  {
    var m: nat := if n < 0 then -n else n;
    var d := Digits(m);
    DigitsGroup(m);
    DigitsValueOfDigits(m);
    ParseStrippedGroup(d);
    var s := DecimalString(n);
    assert s == (if n < 0 then "-" + d else d);
    assert Strip(s) == s by {
      assert s[0] == '-' || IsDigit(s[0]);
      assert IsDigit(s[|s| - 1]);
      StripUnpadded(s);
    }
  }

  /** `int()` of blank text raises ValueError. */
  lemma BlankIsNotANumber(s: string)
    requires forall i :: 0 <= i < |s| ==> IsSpace(s[i])
    ensures ParseInt(s) == None
  {
  }

  /** `int(text)` with the text padded by blanks on either side. */
  lemma ParsePadded(pre: string, n: int, post: string)
    requires forall i :: 0 <= i < |pre| ==> IsSpace(pre[i])
    requires forall i :: 0 <= i < |post| ==> IsSpace(post[i])
    ensures ParseInt(pre + DecimalString(n) + post) == Some(n)
  {
    var d := DecimalString(n);
    assert d[0] == '-' || IsDigit(d[0]);
    assert IsDigit(d[|d| - 1]);
    StripPadded(pre, d, post);
    ParseDecimalString(n);
    StripUnpadded(d);
  }

  /** `strip()` removes exactly the blank padding around a text that does
      not itself start or end with a blank. */
  lemma StripPadded(pre: string, body: string, post: string)
    requires forall i :: 0 <= i < |pre| ==> IsSpace(pre[i])
    requires forall i :: 0 <= i < |post| ==> IsSpace(post[i])
    requires body != [] && !IsSpace(body[0]) && !IsSpace(body[|body| - 1])
    ensures Strip(pre + body + post) == body
  {
    assert pre + body + post == pre + (body + post);
    StripLeftSkips(pre, body + post);
    StripRightSkips(body, post);
  }

  lemma {:induction false} StripLeftSkips(pre: string, rest: string)
    requires forall i :: 0 <= i < |pre| ==> IsSpace(pre[i])
    requires rest != [] && !IsSpace(rest[0])
    ensures StripLeft(pre + rest) == rest
    decreases |pre|
  {
    if |pre| > 0 {
      assert (pre + rest)[1..] == pre[1..] + rest;
      StripLeftSkips(pre[1..], rest);
    } else {
      assert pre + rest == rest;
    }
  }

  lemma {:induction false} StripRightSkips(body: string, post: string)
    requires forall i :: 0 <= i < |post| ==> IsSpace(post[i])
    requires body != [] && !IsSpace(body[|body| - 1])
    ensures StripRight(body + post) == body
    decreases |post|
  {
    if |post| > 0 {
      assert (body + post)[..|body + post| - 1] == body + post[..|post| - 1];
      StripRightSkips(body, post[..|post| - 1]);
    } else {
      assert body + post == body;
    }
  }
}
