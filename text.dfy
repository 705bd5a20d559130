/**
 * The few pieces of Python's string handling that the scripts rely on: str() of an integer,
 * int() of a line, and the lines a text file yields when iterated.
 */
module Text {
  import opened Wrappers

  predicate IsDigit(c: char) { '0' <= c <= '9' }

  predicate AllDigits(s: string) { forall i :: 0 <= i < |s| ==> IsDigit(s[i]) }

  function DigitChar(d: nat): (c: char)
    requires d < 10
    ensures IsDigit(c)
  {
    "0123456789"[d]
  }

  function DigitValue(c: char): (d: nat)
    requires IsDigit(c)
    ensures d < 10
  {
    c as int - '0' as int
  }

  /** Value of a string of decimal digits, most significant first. */
  function DigitsValue(s: string): nat
    requires AllDigits(s)
  {
    if s == [] then 0 else DigitsValue(s[..|s| - 1]) * 10 + DigitValue(s[|s| - 1])
  }

  /** Python's str(n) for a non-negative integer: decimal digits, no leading zero. */
  function NatToString(n: nat): (s: string)
    ensures 1 <= |s| && AllDigits(s)
    ensures |s| > 1 ==> s[0] != '0'
  {
    if n < 10 then [DigitChar(n)] else NatToString(n / 10) + [DigitChar(n % 10)]
  }

  /** Python's str(i) for any integer. */
  function IntToString(i: int): (s: string)
    ensures 1 <= |s|
  {
    if i < 0 then "-" + NatToString(-i) else NatToString(i)
  }

  lemma {:induction false} DigitsValueSnoc(s: string, c: char)
    requires AllDigits(s) && IsDigit(c)
    ensures AllDigits(s + [c]) && DigitsValue(s + [c]) == DigitsValue(s) * 10 + DigitValue(c)
  {
    assert (s + [c])[..|s + [c]| - 1] == s;
  }

  /** Reading back what str() wrote gives the number. */
  lemma {:induction false} NatToStringRoundTrip(n: nat)
    ensures DigitsValue(NatToString(n)) == n
  {
    if n < 10 {
      DigitsValueSnoc([], DigitChar(n));
      DigitValueOfChar(n);
      assert [] + [DigitChar(n)] == NatToString(n);
    } else {
      NatToStringRoundTrip(n / 10);
      DigitsValueSnoc(NatToString(n / 10), DigitChar(n % 10));
      DigitValueOfChar(n % 10);
    }
  }

  lemma {:induction false} DigitValueOfChar(d: nat)
    requires d < 10
    ensures DigitValue(DigitChar(d)) == d
  {
  }

  lemma {:induction false} AllDigitsSlice(s: string, i: nat, j: nat)
    requires AllDigits(s) && i <= j <= |s|
    ensures AllDigits(s[i..j])
  {
    assert forall k :: 0 <= k < j - i ==> s[i..j][k] == s[i + k];
  }

  /** str(year) of a four-digit year has four characters, the first not '0'. */
  lemma {:induction false} FourDigitYear(year: int)
    requires 1000 <= year <= 9999
    ensures |IntToString(year)| == 4 && IntToString(year)[0] != '0' && AllDigits(IntToString(year))
  {
    var a, b, c := year / 1000, year / 100, year / 10;
    assert 1 <= a < 10 && 10 <= b < 100 && 100 <= c < 1000;
    assert b / 10 == a && c / 10 == b;
    var sa := NatToString(a);
    assert sa == [DigitChar(a)];
    var sb := NatToString(b);
    assert sb == sa + [DigitChar(b % 10)];
    var sc := NatToString(c);
    assert sc == sb + [DigitChar(c % 10)];
    assert IntToString(year) == sc + [DigitChar(year % 10)];
    assert DigitChar(a) != '0';
  }

  /**
   * A number below 100 as two decimal digits, with a leading zero below 10: strftime's %m and %d,
   * and the two-digit table the drivers index for days and months below 10.
   */
  function TwoDigits(n: nat): (s: string)
    requires n < 100
    ensures |s| == 2 && AllDigits(s) && DigitsValue(s) == n
  {
    var s := [DigitChar(n / 10), DigitChar(n % 10)];
    assert s == NatToString(n / 10) + [DigitChar(n % 10)];
    NatToStringRoundTrip(n / 10);
    DigitsValueSnoc(NatToString(n / 10), DigitChar(n % 10));
    s
  }

  /** Python's str.isspace() for one character. */
  predicate IsSpace(c: char) {
    var k := c as int;
    (9 <= k <= 13) || (28 <= k <= 32) || k == 0x85 || k == 0xA0 || k == 0x1680
    || (0x2000 <= k <= 0x200A) || k == 0x2028 || k == 0x2029 || k == 0x202F
    || k == 0x205F || k == 0x3000
  }

  /** lstrip(): s without its leading white space. */
  function StripLeft(s: string): string
    decreases |s|
  {
    if s != [] && IsSpace(s[0]) then StripLeft(s[1..]) else s
  }

  /** rstrip(): s without its trailing white space. */
  function StripRight(s: string): string
    decreases |s|
  {
    if s != [] && IsSpace(s[|s| - 1]) then StripRight(s[..|s| - 1]) else s
  }

  /** Python's str.strip() with no argument. */
  function Strip(s: string): string { StripRight(StripLeft(s)) }

  /** Python's int(s) for a str s: surrounding white space, an optional sign, then one or more digits. */
  function ParseInt(s: string): Option<int>
  {
    ParseSigned(Strip(s))
  }

  /** lstrip() keeps the longest suffix of s that does not start with white space. */
  lemma {:induction false} StripLeftMeaning(s: string)
    ensures var r := StripLeft(s);
            && |r| <= |s| && r == s[|s| - |r|..]
            && (forall i :: 0 <= i < |s| - |r| ==> IsSpace(s[i]))
            && (r == [] || !IsSpace(r[0]))
    decreases |s|
  {
    if s != [] && IsSpace(s[0]) {
      StripLeftMeaning(s[1..]);
      assert forall i :: 1 <= i < |s| ==> s[i] == s[1..][i - 1];
    }
  }

  /** rstrip() keeps the longest prefix of s that does not end in white space. */
  lemma {:induction false} StripRightMeaning(s: string)
    ensures var r := StripRight(s);
            && |r| <= |s| && r == s[..|r|]
            && (forall i :: |r| <= i < |s| ==> IsSpace(s[i]))
            && (r == [] || !IsSpace(r[|r| - 1]))
    decreases |s|
  {
    if s != [] && IsSpace(s[|s| - 1]) {
      StripRightMeaning(s[..|s| - 1]);
    }
  }

  /**
   * strip() keeps the stretch of s that starts after its leading white space and ends before its
   * trailing white space; that stretch neither starts nor ends with white space.
   */
  lemma StripMeaning(s: string)
    ensures var r := Strip(s);
            var a := |s| - |StripLeft(s)|;
            && 0 <= a && a + |r| <= |s| && r == s[a..a + |r|]
            && (forall i :: 0 <= i < a ==> IsSpace(s[i]))
            && (forall i :: a + |r| <= i < |s| ==> IsSpace(s[i]))
            && (r == [] || (!IsSpace(r[0]) && !IsSpace(r[|r| - 1])))
  {
    var left := StripLeft(s);
    var r := StripRight(left);
    StripLeftMeaning(s);
    StripRightMeaning(left);
    StripSlice(s, |s| - |left|, left, r);
    PrefixStart(left, r);
  }

  /** A prefix r of the suffix left == s[a..] is the slice s[a..a + |r|], and what follows it in s is what follows it in left. */
  lemma StripSlice(s: string, a: nat, left: string, r: string)
    requires a <= |s| && left == s[a..] && |r| <= |left| && r == left[..|r|]
    requires forall i :: |r| <= i < |left| ==> IsSpace(left[i])
    ensures a + |r| <= |s| && r == s[a..a + |r|]
    ensures forall i :: a + |r| <= i < |s| ==> IsSpace(s[i])
  {
    assert forall i :: a + |r| <= i < |s| ==> s[i] == left[i - a];
  }

  /** A non-empty prefix of left starts where left does. */
  lemma PrefixStart(left: string, r: string)
    requires |r| <= |left| && r == left[..|r|] && (left == [] || !IsSpace(left[0]))
    ensures r == [] || !IsSpace(r[0])
  {
    if r != [] {
      assert r[0] == left[0];
    }
  }

  /**
   * What int() accepts: the stripped text is digits after an optional sign, ending in a digit,
   * and a negative value had a minus sign. A text without a digit is refused.
   */
  lemma ParseIntMeaning(s: string)
    ensures var r := ParseInt(s);
            var b := Strip(s);
            r.Some? ==>
              && b != [] && IsDigit(b[|b| - 1])
              && (forall i :: 0 < i < |b| ==> IsDigit(b[i]))
              && (IsDigit(b[0]) || b[0] == '-' || b[0] == '+')
              && (r.value < 0 ==> b[0] == '-')
    ensures (forall i :: 0 <= i < |s| ==> !IsDigit(s[i])) ==> ParseInt(s).None?
  {
    var b := Strip(s);
    StripMeaning(s);
    var a := |s| - |StripLeft(s)|;
    if ParseInt(s).Some? {
      assert b != [] && IsDigit(b[|b| - 1]);
      assert b[|b| - 1] == s[a + |b| - 1];
    }
  }

  /** int() of a string with no surrounding white space. */
  function ParseSigned(body: string): Option<int>
  {
    if |body| > 0 && (body[0] == '-' || body[0] == '+') then
      var digits := body[1..];
      if |digits| > 0 && AllDigits(digits) then
        Some(if body[0] == '-' then -(DigitsValue(digits) as int) else DigitsValue(digits))
      else None
    else if |body| > 0 && AllDigits(body) then Some(DigitsValue(body))
    else None
  }

  /** strip() of a line whose text has no white space at either end drops only the newline. */
  lemma {:induction false} StripOfLine(s: string)
    requires s != [] && !IsSpace(s[0]) && !IsSpace(s[|s| - 1])
    ensures Strip(s + "\n") == s
  {
    var line := s + "\n";
    assert line[0] == s[0];
    assert StripLeft(line) == line;
    assert line[..|line| - 1] == s;
    assert StripRight(line) == StripRight(s);
  }

  /** The digits str() writes, with their sign, read back as the number. */
  lemma {:induction false} ParseSignedOfString(i: int)
    ensures ParseSigned(IntToString(i)) == Some(i)
  {
    if i < 0 {
      var n: nat := -i;
      assert IntToString(i) == "-" + NatToString(n);
      ParseSignedOfNegative(n);
    } else {
      assert IntToString(i) == NatToString(i);
      ParseSignedOfNat(i);
    }
  }

  lemma {:induction false} ParseSignedOfNat(n: nat)
    ensures ParseSigned(NatToString(n)) == Some(n)
  {
    var s := NatToString(n);
    NatToStringRoundTrip(n);
    assert IsDigit(s[0]);
  }

  lemma {:induction false} ParseSignedOfNegative(n: nat)
    ensures ParseSigned("-" + NatToString(n)) == Some(-(n as int))
  {
    var digits := NatToString(n);
    var s := "-" + digits;
    NatToStringRoundTrip(n);
    assert s[0] == '-' && s[1..] == digits;
  }

  /** int() reads back a line that "%d\n" wrote: the pair is a round trip. */
  lemma {:induction false} ParseIntOfLine(i: int)
    ensures ParseInt(IntToString(i) + "\n") == Some(i)
  {
    var s := IntToString(i);
    assert IsDigit(s[|s| - 1]);
    StripOfLine(s);
    ParseSignedOfString(i);
  }

  /** int("done") raises ValueError: the word has no digits. */
  lemma ParseIntOfWord()
    ensures ParseInt("done") == None
  {
    assert StripLeft("done") == "done";
    assert StripRight("done") == "done";
  }

  /** Index of the first newline of t, or |t| when there is none. */
  function FirstNewline(t: string): (k: nat)
    ensures k <= |t|
    ensures k < |t| ==> t[k] == '\n'
  {
    if t == [] then 0 else if t[0] == '\n' then 0 else 1 + FirstNewline(t[1..])
  }

  /** No newline comes before the first one. */
  lemma {:induction false} FirstNewlineIsFirst(t: string)
    ensures forall i :: 0 <= i < FirstNewline(t) ==> t[i] != '\n'
    decreases |t|
  {
    if t != [] && t[0] != '\n' {
      FirstNewlineIsFirst(t[1..]);
      assert forall i :: 0 < i < |t| ==> t[i] == t[1..][i - 1];
    }
  }

  /**
   * The lines that iterating over a text file yields: every line keeps its '\n', except that a
   * last line without one is yielded as it is.
   */
  function Lines(t: string): seq<string>
    decreases |t|
  {
    if t == [] then []
    else
      var k := FirstNewline(t);
      if k == |t| then [t] else [t[..k + 1]] + Lines(t[k + 1..])
  }

  /**
   * The lines of a text are not empty, each but the last ends in a newline, and no line holds a
   * newline before its end; there are none exactly when the text is empty.
   */
  lemma {:induction false} LinesShape(t: string)
    ensures var r := Lines(t);
            && (t == [] <==> r == [])
            && (forall i :: 0 <= i < |r| ==> r[i] != [])
            && (forall i :: 0 <= i < |r| - 1 ==> r[i][|r[i]| - 1] == '\n')
            && (forall i, j :: 0 <= i < |r| && 0 <= j < |r[i]| - 1 ==> r[i][j] != '\n')
    decreases |t|
  {
    if t != [] {
      var k := FirstNewline(t);
      FirstNewlineIsFirst(t);
      if k < |t| {
        LinesShape(t[k + 1..]);
        LinesConsShape(t[..k + 1], Lines(t[k + 1..]));
      }
    }
  }

  /** The lines written one after another. */
  function Join(lines: seq<string>): string
  {
    if lines == [] then [] else lines[0] + Join(lines[1..])
  }

  /** Iterating over a file loses nothing: its lines, joined, are its text. */
  lemma {:induction false} LinesJoin(t: string)
    ensures Join(Lines(t)) == t
    decreases |t|
  {
    if t != [] {
      var k := FirstNewline(t);
      if k < |t| {
        LinesJoin(t[k + 1..]);
        var r := Lines(t);
        assert r[0] == t[..k + 1] && r[1..] == Lines(t[k + 1..]);
        assert t[..k + 1] + t[k + 1..] == t;
      } else {
        assert Join([t][1..]) == [];
        assert t + [] == t;
      }
    }
  }

  /** A first line that ends in its only newline, before lines of the shape LinesShape states. */
  lemma LinesConsShape(first: string, rest: seq<string>)
    requires first != [] && first[|first| - 1] == '\n'
    requires forall j :: 0 <= j < |first| - 1 ==> first[j] != '\n'
    requires forall i :: 0 <= i < |rest| ==> rest[i] != []
    requires forall i :: 0 <= i < |rest| - 1 ==> rest[i][|rest[i]| - 1] == '\n'
    requires forall i, j :: 0 <= i < |rest| && 0 <= j < |rest[i]| - 1 ==> rest[i][j] != '\n'
    ensures var r := [first] + rest;
            && (forall i :: 0 <= i < |r| ==> r[i] != [])
            && (forall i :: 0 <= i < |r| - 1 ==> r[i][|r[i]| - 1] == '\n')
            && (forall i, j :: 0 <= i < |r| && 0 <= j < |r[i]| - 1 ==> r[i][j] != '\n')
  {
    var r := [first] + rest;
    assert forall i :: 0 < i < |r| ==> r[i] == rest[i - 1];
  }

  predicate EndsWithNewline(t: string) { t == [] || t[|t| - 1] == '\n' }

  /** A text that starts with a line ending in its only newline: that line, then the rest's lines. */
  lemma {:induction false} LinesCons(t: string, first: string, rest: string)
    requires t == first + rest && first != [] && first[|first| - 1] == '\n'
    requires forall i :: 0 <= i < |first| - 1 ==> first[i] != '\n'
    ensures Lines(t) == [first] + Lines(rest)
  {
    var k := |first| - 1;
    assert t[k] == '\n';
    FirstNewlineIsFirst(t);
    assert forall i :: 0 <= i < k ==> t[i] == first[i];
    assert t[..k + 1] == first;
    assert t[k + 1..] == rest;
  }

  /** The first line of a, ending in a newline, is also the first line of a + b. */
  lemma {:induction false} LinesAppendStep(a: string, b: string, first: string, rest: string)
    requires a == first + rest && first != [] && first[|first| - 1] == '\n'
    requires forall i :: 0 <= i < |first| - 1 ==> first[i] != '\n'
    ensures Lines(a) == [first] + Lines(rest)
    ensures Lines(a + b) == [first] + Lines(rest + b)
  {
    LinesCons(a, first, rest);
    assert a + b == first + (rest + b);
    LinesCons(a + b, first, rest + b);
  }

  /** The first line of a non-empty text that ends in a newline, and what follows it. */
  lemma {:induction false} SplitFirstLine(a: string) returns (first: string, rest: string)
    requires a != [] && EndsWithNewline(a)
    ensures a == first + rest && first != [] && first[|first| - 1] == '\n'
    ensures forall i :: 0 <= i < |first| - 1 ==> first[i] != '\n'
    ensures EndsWithNewline(rest) && |rest| < |a|
  {
    var k := FirstNewline(a);
    FirstNewlineIsFirst(a);
    assert k < |a| by { assert a[|a| - 1] == '\n'; }
    first, rest := a[..k + 1], a[k + 1..];
    assert forall i :: 0 <= i < |first| - 1 ==> first[i] == a[i];
    assert a == first + rest;
  }

  /** Appending to a file whose text ends at a line boundary appends the new lines. */
  lemma {:induction false} LinesAppend(a: string, b: string)
    requires EndsWithNewline(a)
    ensures Lines(a + b) == Lines(a) + Lines(b)
    decreases |a|
  {
    if a == [] {
      assert a + b == b;
    } else {
      var first, rest := SplitFirstLine(a);
      LinesAppendStep(a, b, first, rest);
      LinesAppend(rest, b);
      ConsAppend(first, Lines(rest), Lines(b));
    }
  }

  lemma ConsAppend<T>(x: T, l: seq<T>, r: seq<T>)
    ensures [x] + (l + r) == ([x] + l) + r
  {
  }

  lemma {:induction false} LinesOfOneLine(s: string)
    requires forall i :: 0 <= i < |s| ==> s[i] != '\n'
    ensures s != [] ==> Lines(s) == [s]
    ensures Lines(s + "\n") == [s + "\n"]
  {
    if s != [] {
      assert FirstNewline(s) == |s|;
    }
    var t := s + "\n";
    assert FirstNewline(t) == |s| by {
      FirstNewlineIsFirst(t);
      assert t[|s|] == '\n';
      forall i | 0 <= i < |s| ensures t[i] != '\n' { assert t[i] == s[i]; }
    }
    assert t[..|s| + 1] == t;
    assert t[|s| + 1..] == [];
  }
}
