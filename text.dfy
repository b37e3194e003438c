/** String operations of Python's str type, on seq<char>:
    isspace, strip, split(sep), replace(old, new), startswith and count. */
module Text {

  /** str.isspace for one character: the characters str.strip() removes and
      the regular-expression class \s matches. */
  predicate IsSpace(c: char) {
    || c == ' '
    || ('\t' <= c <= '\r')
    || ('\U{1c}' <= c <= '\U{1f}')
    || c == '\U{85}' || c == '\U{a0}' || c == '\U{1680}'
    || ('\U{2000}' <= c <= '\U{200a}')
    || c == '\U{2028}' || c == '\U{2029}' || c == '\U{202f}' || c == '\U{205f}' || c == '\U{3000}'
  }

  /** An ASCII decimal digit. */
  predicate IsDigit(c: char) {
    '0' <= c <= '9'
  }

  predicate AllDigits(s: string) {
    forall k :: 0 <= k < |s| ==> IsDigit(s[k])
  }

  function DigitValue(c: char): (v: nat)
    requires IsDigit(c)
    ensures v <= 9
  {
    (c as int) - ('0' as int)
  }

  /** The value of a string of decimal digits, most significant first. */
  function DigitsValue(s: string): (v: nat)
    requires AllDigits(s)
    decreases |s|
  {
    if |s| == 0 then 0 else 10 * DigitsValue(s[..|s| - 1]) + DigitValue(s[|s| - 1])
  }

  /** ASCII case folding, used for case-insensitive matching of ASCII words. */
  function AsciiLower(c: char): char {
    if 'A' <= c <= 'Z' then ((c as int) + 32) as char else c
  }

  function AsciiLowerAll(s: string): (r: string)
    ensures |r| == |s| && forall k :: 0 <= k < |s| ==> r[k] == AsciiLower(s[k])
  {
    seq(|s|, k requires 0 <= k < |s| => AsciiLower(s[k]))
  }

  /** str.lstrip(): drops the leading whitespace. */
  function StripLeft(s: string): (r: string)
    ensures |r| <= |s| && r == s[|s| - |r|..]
    ensures r == [] || !IsSpace(r[0])
    ensures forall k :: 0 <= k < |s| - |r| ==> IsSpace(s[k])
    decreases |s|
  {
    if |s| > 0 && IsSpace(s[0]) then StripLeft(s[1..]) else s
  }

  /** str.rstrip(): drops the trailing whitespace. */
  function StripRight(s: string): (r: string)
    ensures |r| <= |s| && r == s[..|r|]
    ensures r == [] || !IsSpace(r[|r| - 1])
    ensures forall k :: |r| <= k < |s| ==> IsSpace(s[k])
    decreases |s|
  {
    if |s| > 0 && IsSpace(s[|s| - 1]) then StripRight(s[..|s| - 1]) else s
  }

  /** str.strip() with no argument. */
  function Strip(s: string): string {
    StripRight(StripLeft(s))
  }

  /** Three runs of digits joined by a separator: it sits right after the
      first run and occurs twice, no other non-digit occurs, and the text
      begins and ends with a digit, so it needs no strip(). */
  lemma JoinedDigits(a: string, sep: char, b: string, c: string)
    requires AllDigits(a) && AllDigits(b) && AllDigits(c) && |a| > 0 && |c| > 0 && !IsDigit(sep)
    ensures var s := a + [sep] + b + [sep] + c;
      && s[|a|] == sep && IsDigit(s[0]) && Strip(s) == s && Count(s, sep) == 2
      && forall x :: !IsDigit(x) && x != sep ==> x !in s
  {
    var s := a + [sep] + b + [sep] + c;
    assert s[0] == a[0] && s[|s| - 1] == c[|c| - 1];
    DigitNotSpace(a[0]);
    DigitNotSpace(c[|c| - 1]);
    StripUnchanged(s);
    assert sep !in a && sep !in b && sep !in c;
    CountConcat(a + [sep] + b + [sep], c, sep);
    CountConcat(a + [sep] + b, [sep], sep);
    CountConcat(a + [sep], b, sep);
    CountConcat(a, [sep], sep);
    forall x | !IsDigit(x) && x != sep ensures x !in s {
      assert x !in a && x !in b && x !in c;
    }
  }

  /** A digit is not whitespace. */
  lemma DigitNotSpace(c: char)
    requires IsDigit(c)
    ensures !IsSpace(c)
  {
  }

  /** A text that neither starts nor ends with whitespace is its own
      strip(). */
  lemma StripUnchanged(s: string)
    requires |s| > 0 && !IsSpace(s[0]) && !IsSpace(s[|s| - 1])
    ensures Strip(s) == s
  {
    assert StripLeft(s) == s;
  }

  /** Number of occurrences of c in s (str.count for one character). */
  function Count(s: string, c: char): nat {
    multiset(s)[c]
  }

  /** Index of the first occurrence of c in s, or |s| when there is none. */
  function IndexOf(s: string, c: char): (i: nat)
    ensures i <= |s|
    ensures i < |s| ==> s[i] == c
    ensures c !in s[..i]
    decreases |s|
  {
    if |s| == 0 then 0
    else if s[0] == c then 0
    else 1 + IndexOf(s[1..], c)
  }

  /** str.split(sep) for a one-character separator: the pieces between the
      occurrences of sep, so one more piece than there are separators. */
  function Split(s: string, sep: char): (parts: seq<string>)
    ensures |parts| == Count(s, sep) + 1
    ensures forall k :: 0 <= k < |parts| ==> sep !in parts[k]
    decreases |s|
  {
    var i := IndexOf(s, sep);
    if i == |s| then [s]
    else
      assert s == s[..i] + [sep] + s[i + 1..];
      [s[..i]] + Split(s[i + 1..], sep)
  }

  lemma SplitNoSeparator(s: string, sep: char)
    requires sep !in s
    ensures Split(s, sep) == [s]
  {
  }

  /** Splitting a + [sep] + b, where a holds no separator, yields a and then
      the pieces of b. */
  lemma SplitAtFirst(a: string, sep: char, b: string)
    requires sep !in a
    ensures Split(a + [sep] + b, sep) == [a] + Split(b, sep)
  {
    var s := a + [sep] + b;
    var i := IndexOf(s, sep);
    assert s[|a|] == sep;
    assert s[..|a|] == a;
    assert i == |a|;
    assert s[i + 1..] == b;
  }

  /** str.startswith(p). */
  predicate StartsWith(s: string, p: string) {
    |p| <= |s| && s[..|p|] == p
  }

  /** str.replace(pat, rep): every occurrence of pat, scanning from the left
      and not overlapping, is replaced by rep. */
  function Replace(s: string, pat: string, rep: string): string
    requires |pat| > 0
    decreases |s|
  {
    if |s| < |pat| then s
    else if s[..|pat|] == pat then rep + Replace(s[|pat|..], pat, rep)
    else [s[0]] + Replace(s[1..], pat, rep)
  }

  /** With a one-character pattern and replacement, str.replace maps every
      character on its own. */
  lemma {:induction false} ReplaceCharwise(s: string, a: char, b: char)
    ensures |Replace(s, [a], [b])| == |s|
    ensures forall k :: 0 <= k < |s| ==> Replace(s, [a], [b])[k] == if s[k] == a then b else s[k]
    decreases |s|
  {
    if |s| > 0 {
      ReplaceCharwise(s[1..], a, b);
      var r := Replace(s[1..], [a], [b]);
      if s[..1] == [a] {
        assert Replace(s, [a], [b]) == [b] + r;
      } else {
        assert Replace(s, [a], [b]) == [s[0]] + r;
      }
    }
  }

  /** pat occurs in s at position k. */
  predicate OccursAt(s: string, pat: string, k: nat) {
    k + |pat| <= |s| && s[k..k + |pat|] == pat
  }

  /** A pattern that occurs nowhere is not replaced. */
  lemma {:induction false} ReplaceAbsent(s: string, pat: string, rep: string)
    requires |pat| > 0
    requires forall k: nat :: !OccursAt(s, pat, k)
    ensures Replace(s, pat, rep) == s
    decreases |s|
  {
    if |s| >= |pat| {
      assert !OccursAt(s, pat, 0);
      assert s[..|pat|] == s[0..|pat|];
      forall k: nat ensures !OccursAt(s[1..], pat, k) {
        assert !OccursAt(s, pat, k + 1);
        if k + |pat| <= |s[1..]| {
          assert s[1..][k..k + |pat|] == s[k + 1..k + 1 + |pat|];
        }
      }
      ReplaceAbsent(s[1..], pat, rep);
      assert s == [s[0]] + s[1..];
    }
  }

  /** Deleting a pattern (replacing it by "") only removes characters. */
  lemma {:induction false} DeleteKeepsOnly(s: string, pat: string, c: char)
    requires |pat| > 0
    requires c in Replace(s, pat, "")
    ensures c in s
    decreases |s|
  {
    if |s| >= |pat| {
      if s[..|pat|] == pat {
        assert Replace(s, pat, "") == Replace(s[|pat|..], pat, "");
        DeleteKeepsOnly(s[|pat|..], pat, c);
      } else {
        var r := Replace(s[1..], pat, "");
        assert Replace(s, pat, "") == [s[0]] + r;
        if c != s[0] {
          DeleteKeepsOnly(s[1..], pat, c);
        }
      }
    }
  }

  /** Deleting a one-character pattern leaves no occurrence of it. */
  lemma {:induction false} DeleteRemovesChar(s: string, c: char)
    ensures c !in Replace(s, [c], "")
    decreases |s|
  {
    if |s| >= 1 {
      DeleteRemovesChar(s[1..], c);
      if s[..1] != [c] {
        assert Replace(s, [c], "") == [s[0]] + Replace(s[1..], [c], "");
      }
    }
  }

  /** A prefix without the first character of the pattern is copied as it
      is. */
  lemma {:induction false} ReplaceSkip(a: string, b: string, pat: string, rep: string)
    requires |pat| > 0 && pat[0] !in a
    ensures Replace(a + b, pat, rep) == a + Replace(b, pat, rep)
    decreases |a|
  {
    var s := a + b;
    if a != [] {
      if |s| < |pat| {
        assert Replace(b, pat, rep) == b;
      } else {
        assert s[..|pat|][0] == a[0];
        assert s[1..] == a[1..] + b;
        ReplaceSkip(a[1..], b, pat, rep);
        assert Replace(s, pat, rep) == [a[0]] + (a[1..] + Replace(b, pat, rep));
      }
    } else {
      assert s == b;
    }
  }

  /** A string that starts with the pattern has that occurrence replaced. */
  lemma ReplaceHead(pat: string, b: string, rep: string)
    requires |pat| > 0
    ensures Replace(pat + b, pat, rep) == rep + Replace(b, pat, rep)
  {
    var s := pat + b;
    assert s[..|pat|] == pat && s[|pat|..] == b;
  }

  /** The first occurrence of the pattern, preceded by text that cannot
      start one, is the first one replaced. */
  lemma ReplaceFirst(a: string, pat: string, b: string, rep: string)
    requires |pat| > 0 && pat[0] !in a
    ensures Replace(a + pat + b, pat, rep) == a + rep + Replace(b, pat, rep)
  {
    ReplaceSkip(a, pat + b, pat, rep);
    ReplaceHead(pat, b, rep);
    assert a + pat + b == a + (pat + b);
  }

  /** A string without the first character of the pattern is unchanged. */
  lemma ReplaceNone(s: string, pat: string, rep: string)
    requires |pat| > 0 && pat[0] !in s
    ensures Replace(s, pat, rep) == s
  {
    ReplaceSkip(s, [], pat, rep);
    assert s + [] == s;
  }

  /** Deleting a character that occurs once removes just that occurrence. */
  lemma OneCharDropped(a: string, c: char, b: string)
    requires c !in a && c !in b
    ensures Replace(a + [c] + b, [c], []) == a + b
  {
    ReplaceFirst(a, [c], b, []);
    assert a + [] == a;
    ReplaceNone(b, [c], []);
  }

  /** A pattern that closes the string, preceded by text that cannot start
      one, is replaced once. */
  lemma ReplaceLast(a: string, pat: string, rep: string)
    requires |pat| > 0 && pat[0] !in a
    ensures Replace(a + pat, pat, rep) == a + rep
  {
    ReplaceSkip(a, pat, pat, rep);
    assert pat + [] == pat;
    ReplaceHead(pat, [], rep);
    assert rep + [] == rep;
  }

  /** A character missing from both halves is missing from the whole. */
  lemma NotInConcat(a: string, b: string, c: char)
    requires c !in a && c !in b
    ensures c !in a + b
  {
  }

  lemma CountConcat(a: string, b: string, c: char)
    ensures Count(a + b, c) == Count(a, c) + Count(b, c)
  {
    assert multiset(a + b) == multiset(a) + multiset(b);
  }

  lemma CountAbsent(a: string, c: char)
    requires c !in a
    ensures Count(a, c) == 0
  {
  }
}
