/**
 * The JavaScript string built-ins the receipt code relies on, written out:
 * `trim`, `charAt(0).toUpperCase() + slice(1)`, `toLowerCase`, `split(' ')`,
 * `replace('\n', ...)`, `replace(/\s/g, '_')`, `includes` and the decimal
 * rendering of a non-negative integer.  Case mapping covers ASCII and
 * Latin-1 only.
 */
module JsText {

  /** ECMAScript WhiteSpace and LineTerminator: what `\s` matches and what `trim` strips. */
  predicate IsSpace(c: char) {
    c == ' ' || c == '\t' || c == '\n' || c == '\U{000B}' || c == '\U{000C}' || c == '\r'
    || c == '\U{00A0}' || c == '\U{1680}' || ('\U{2000}' <= c <= '\U{200A}')
    || c == '\U{2028}' || c == '\U{2029}' || c == '\U{202F}' || c == '\U{205F}'
    || c == '\U{3000}' || c == '\U{FEFF}'
  }

  predicate AllSpace(s: string) {
    forall i :: 0 <= i < |s| ==> IsSpace(s[i])
  }

  // ---------------------------------------------------------------- trim

  /** Strips leading white space: the result is the suffix after the longest all-space prefix. */
  function TrimStart(s: string): (r: string)
    ensures |r| <= |s| && r == s[|s| - |r|..]
    ensures AllSpace(s[..|s| - |r|])
    ensures r != [] ==> !IsSpace(r[0])
  {
    if |s| > 0 && IsSpace(s[0]) then
      var r := TrimStart(s[1..]);
      assert s[..|s| - |r|] == [s[0]] + s[1..][..|s| - 1 - |r|];
      r
    else s
  }

  /** Strips trailing white space: the result is the prefix before the longest all-space suffix. */
  function TrimEnd(s: string): (r: string)
    ensures |r| <= |s| && r == s[..|r|]
    ensures AllSpace(s[|r|..])
    ensures r != [] ==> !IsSpace(r[|r| - 1])
  {
    if |s| > 0 && IsSpace(s[|s| - 1]) then
      var r := TrimEnd(s[..|s| - 1]);
      assert s[|r|..] == s[..|s| - 1][|r|..] + [s[|s| - 1]];
      r
    else s
  }

  /** `String.prototype.trim`. */
  function Trim(s: string): string {
    TrimEnd(TrimStart(s))
  }

  /** `!s.trim()` holds exactly when every character of `s` is white space. */
  lemma TrimBlankIff(s: string)
    ensures Trim(s) == [] <==> AllSpace(s)
  {
    var t := TrimStart(s);
    if Trim(s) == [] {
      assert AllSpace(t[0..]);
      assert s == s[..|s| - |t|] + t;
    }
  }

  // ---------------------------------------------------------------- case mapping

  /** `toUpperCase` of one character, for ASCII and Latin-1; it can lengthen (`ß` gives `SS`). */
  function UpperChar(c: char): string {
    if 'a' <= c <= 'z' then [(c as int - 32) as char]
    else if '\U{00E0}' <= c <= '\U{00FE}' && c != '\U{00F7}' then [(c as int - 32) as char]
    else if c == '\U{00DF}' then "SS"
    else if c == '\U{00FF}' then "\U{0178}"
    else if c == '\U{00B5}' then "\U{039C}"
    else [c]
  }

  /** The lower-case letters of ASCII and Latin-1: a to z, the micro sign, and
      U+00DF to U+00FF except the division sign. */
  predicate IsLowerLetter(c: char) {
    || ('a' <= c <= 'z') || c == '\U{00B5}'
    || ('\U{00DF}' <= c <= '\U{00FF}' && c != '\U{00F7}')
  }

  /** `UpperChar` changes exactly the lower-case letters. */
  lemma UpperCharChangesIff(c: char)
    ensures UpperChar(c) != [c] <==> IsLowerLetter(c)
  {
  }

  /** `s.charAt(0).toUpperCase() + s.slice(1)`. */
  function Capitalize(s: string): string {
    if s == [] then [] else UpperChar(s[0]) + s[1..]
  }

  /** Capitalisation touches the first character only, and leaves a string that does
      not start with a lower-case letter as it is. */
  lemma CapitalizeKeepsRest(s: string)
    ensures s == [] ==> Capitalize(s) == []
    ensures s != [] ==> |Capitalize(s)| >= |s| && Capitalize(s)[|Capitalize(s)| - |s| + 1..] == s[1..]
    ensures s != [] && !IsLowerLetter(s[0]) ==> Capitalize(s) == s
    ensures s != [] && IsLowerLetter(s[0]) ==> Capitalize(s) != s
  {
    if s != [] {
      UpperCharChangesIff(s[0]);
    }
    if s != [] && IsLowerLetter(s[0]) {
      var u := UpperChar(s[0]);
      if |u| == 1 {
        assert Capitalize(s)[0] == u[0] != s[0];
      } else {
        assert |Capitalize(s)| > |s|;
      }
    }
  }

  /** Capitalising twice is capitalising once. */
  lemma CapitalizeIdempotent(s: string)
    ensures Capitalize(Capitalize(s)) == Capitalize(s)
  {
    if s != [] {
      var u := UpperChar(s[0]);
      UpperCharStable(s[0]);
      assert Capitalize(s)[0] == u[0];
      assert Capitalize(s)[1..] == u[1..] + s[1..];
    }
  }

  /** The first character of an upper-cased character is left as it is. */
  lemma UpperCharStable(c: char)
    ensures UpperChar(c) != [] && UpperChar(UpperChar(c)[0]) == [UpperChar(c)[0]]
  {
  }

  /** `toLowerCase` of one character, for ASCII and Latin-1. */
  function LowerChar(c: char): char {
    if 'A' <= c <= 'Z' then (c as int + 32) as char
    else if '\U{00C0}' <= c <= '\U{00DE}' && c != '\U{00D7}' then (c as int + 32) as char
    else c
  }

  /** `String.prototype.toLowerCase`: every character mapped on its own, length kept. */
  function ToLower(s: string): (r: string)
    ensures |r| == |s|
    ensures forall i :: 0 <= i < |s| ==> r[i] == LowerChar(s[i])
  {
    if s == [] then [] else [LowerChar(s[0])] + ToLower(s[1..])
  }

  // ---------------------------------------------------------------- substitution and search

  /** `s.replace(/\s/g, '_')`: every white-space character becomes an underscore, nothing else moves. */
  function UnderscoreSpaces(s: string): (r: string)
    ensures |r| == |s|
    ensures forall i :: 0 <= i < |s| ==> r[i] == if IsSpace(s[i]) then '_' else s[i]
  {
    if s == [] then [] else [if IsSpace(s[0]) then '_' else s[0]] + UnderscoreSpaces(s[1..])
  }

  lemma UnderscoreSpacesLeavesNoSpace(s: string)
    ensures !exists i :: 0 <= i < |s| && IsSpace(UnderscoreSpaces(s)[i])
  {
  }

  /** The index of the first `c` in `s`, or `|s|` when there is none (`indexOf`, with -1 as `|s|`). */
  function IndexOf(s: string, c: char): (k: nat)
    ensures k <= |s|
    ensures c !in s[..k]
    ensures k < |s| ==> s[k] == c
  {
    if s == [] then 0
    else if s[0] == c then 0
    else
      var k := 1 + IndexOf(s[1..], c);
      assert s[..k] == [s[0]] + s[1..][..k - 1];
      k
  }

  /** `s.replace(c, with)` with a one-character string pattern: replaces the first occurrence only. */
  function ReplaceFirst(s: string, c: char, with: string): string {
    if s == [] then []
    else if s[0] == c then with + s[1..]
    else [s[0]] + ReplaceFirst(s[1..], c, with)
  }

  /** The replacement happens at the first occurrence and nowhere else. */
  lemma {:induction false} ReplaceFirstAt(s: string, c: char, with: string)
    ensures var k := IndexOf(s, c);
            ReplaceFirst(s, c, with) == if k == |s| then s else s[..k] + with + s[k + 1..]
  {
    if s != [] && s[0] != c {
      ReplaceFirstAt(s[1..], c, with);
      var k := IndexOf(s[1..], c);
      assert IndexOf(s, c) == k + 1;
      assert ReplaceFirst(s, c, with) == [s[0]] + ReplaceFirst(s[1..], c, with);
      if k < |s| - 1 {
        assert s[..k + 1] == [s[0]] + s[1..][..k];
        assert s[k + 2..] == s[1..][k + 1..];
      } else {
        assert [s[0]] + s[1..] == s;
      }
    }
  }

  /** `s.includes(part)`. */
  predicate Contains(s: string, part: string) {
    exists i :: 0 <= i <= |s| - |part| && OccursAt(s, part, i)
  }

  predicate OccursAt(s: string, part: string, i: int)
    requires 0 <= i <= |s| - |part|
  {
    s[i..i + |part|] == part
  }

  // ---------------------------------------------------------------- split and join

  /** `s.split(sep)` for a one-character separator: empty pieces are kept. */
  function Split(s: string, sep: char): (parts: seq<string>)
    ensures |parts| >= 1
    ensures forall i :: 0 <= i < |parts| ==> sep !in parts[i]
  {
    if s == [] then [[]]
    else
      var rest := Split(s[1..], sep);
      if s[0] == sep then [[]] + rest else [[s[0]] + rest[0]] + rest[1..]
  }

  /** `parts.join(sep)`. */
  function Join(parts: seq<string>, sep: char): string
    requires |parts| >= 1
  {
    if |parts| == 1 then parts[0] else parts[0] + [sep] + Join(parts[1..], sep)
  }

  /** Joining the pieces of a split gives the string back. */
  lemma {:induction false} JoinSplit(s: string, sep: char)
    ensures Join(Split(s, sep), sep) == s
  {
    if s != [] {
      JoinSplit(s[1..], sep);
      var rest := Split(s[1..], sep);
      if s[0] != sep && |rest| > 1 {
        assert rest == [rest[0]] + rest[1..];
      }
    }
  }

  /** A piece free of the separator followed by the separator splits off as one piece. */
  lemma {:induction false} SplitCons(t: string, s: string, sep: char)
    requires sep !in t
    ensures Split(t + [sep] + s, sep) == [t] + Split(s, sep)
    ensures Split(t, sep) == [t]
  {
    if t == [] {
      assert ([sep] + s)[1..] == s;
    } else {
      SplitCons(t[1..], s, sep);
      assert (t + [sep] + s)[1..] == t[1..] + [sep] + s;
      assert [t[0]] + t[1..] == t;
    }
  }

  /** Splitting a join of separator-free pieces gives the pieces back. */
  lemma {:induction false} SplitJoin(parts: seq<string>, sep: char)
    requires |parts| >= 1
    requires forall i :: 0 <= i < |parts| ==> sep !in parts[i]
    ensures Split(Join(parts, sep), sep) == parts
  {
    if |parts| == 1 {
      SplitCons(parts[0], [], sep);
    } else {
      var rest := parts[1..];
      assert forall i :: 0 <= i < |rest| ==> rest[i] == parts[i + 1];
      SplitJoin(rest, sep);
      assert Join(parts, sep) == parts[0] + [sep] + Join(rest, sep);
      SplitCons(parts[0], Join(rest, sep), sep);
      assert parts == [parts[0]] + rest;
    }
  }

  /** Two separator-free pieces joined by the separator split back into the two. */
  lemma {:induction false} SplitPair(a: string, b: string, sep: char)
    requires sep !in a && sep !in b
    ensures Split(a + [sep] + b, sep) == [a, b]
  {
    SplitCons(b, [], sep);
    SplitCons(a, b, sep);
  }

  /** Three separator-free pieces joined by the separator split back into the three. */
  lemma {:induction false} SplitThree(a: string, b: string, c: string, sep: char)
    requires sep !in a && sep !in b && sep !in c
    ensures Split(a + [sep] + b + [sep] + c, sep) == [a, b, c]
  {
    SplitPair(b, c, sep);
    SplitCons(a, b + [sep] + c, sep);
    assert a + [sep] + b + [sep] + c == a + [sep] + (b + [sep] + c);
  }

  // ---------------------------------------------------------------- decimal digits

  predicate IsDigit(c: char) {
    '0' <= c <= '9'
  }

  predicate AllDigits(s: string) {
    forall i :: 0 <= i < |s| ==> IsDigit(s[i])
  }

  function DigitChar(d: nat): (c: char)
    requires d < 10
    ensures IsDigit(c)
  {
    (d + '0' as int) as char
  }

  function DigitValue(c: char): nat
    requires IsDigit(c)
  {
    c as int - '0' as int
  }

  /** `String(n)` for a non-negative integer: decimal digits without leading zeros. */
  function NatToString(n: nat): (r: string)
    ensures |r| >= 1 && AllDigits(r)
    ensures |r| > 1 ==> r[0] != '0'
  {
    if n < 10 then [DigitChar(n)] else NatToString(n / 10) + [DigitChar(n % 10)]
  }

  /** The value of a string of decimal digits (the empty string reads as 0). */
  function DigitsValue(s: string): nat
    requires AllDigits(s)
  {
    if s == [] then 0 else 10 * DigitsValue(s[..|s| - 1]) + DigitValue(s[|s| - 1])
  }

  /** Reading back the decimal rendering gives the number. */
  lemma {:induction false} NatToStringRoundTrip(n: nat)
    ensures DigitsValue(NatToString(n)) == n
  {
    if n >= 10 {
      NatToStringRoundTrip(n / 10);
      var r := NatToString(n);
      assert r[..|r| - 1] == NatToString(n / 10);
    }
  }
}
