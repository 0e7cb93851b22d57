/** String operations the views use: `toLowerCase`, `includes`, `split(" ")`,
    the `\D` and `\s` character classes of JavaScript regular expressions, and
    integer-to-decimal rendering. */
module Text {
  import Seqs

  // ---------------------------------------------------------------------
  // Case and substring search

  /** `toLowerCase` restricted to ASCII letters. */
  function LowerChar(c: char): char
  {
    if 'A' <= c <= 'Z' then (c as int - 'A' as int + 'a' as int) as char else c
  }

  function Lower(s: string): (r: string)
    ensures |r| == |s|
    ensures forall i :: 0 <= i < |s| ==> r[i] == LowerChar(s[i])
  {
    seq(|s|, i requires 0 <= i < |s| => LowerChar(s[i]))
  }

  /** `haystack.includes(needle)`: `needle` occurs as a contiguous block. */
  predicate Includes(haystack: string, needle: string)
  {
    exists i :: 0 <= i <= |haystack| - |needle| && OccursAt(haystack, needle, i)
  }

  predicate OccursAt(haystack: string, needle: string, i: int)
  {
    0 <= i <= |haystack| - |needle| && haystack[i..i + |needle|] == needle
  }

  /** The empty string occurs in every string, so an empty query matches everything. */
  lemma IncludesEmpty(haystack: string)
    ensures Includes(haystack, "")
  {
    assert OccursAt(haystack, "", 0);
  }

  /** Every string contains itself. */
  lemma IncludesSelf(s: string)
    ensures Includes(s, s)
  {
    assert OccursAt(s, s, 0);
  }

  /** Case-insensitive containment in the views' sense. */
  predicate IncludesIgnoringCase(haystack: string, query: string)
  {
    Includes(Lower(haystack), Lower(query))
  }

  // ---------------------------------------------------------------------
  // localeCompare, read as code-point lexicographic order

  /** -1, 0 or 1 as `a` sorts before, with or after `b`. */
  function CompareStrings(a: string, b: string): (r: int)
    ensures -1 <= r <= 1
    ensures r == 0 <==> a == b
    decreases |a|
  {
    if |a| == 0 && |b| == 0 then 0
    else if |a| == 0 then -1
    else if |b| == 0 then 1
    else if a[0] < b[0] then -1
    else if a[0] > b[0] then 1
    else
      var r := CompareStrings(a[1..], b[1..]);
      assert r == 0 <==> a == b by {
        assert a == [a[0]] + a[1..] && b == [b[0]] + b[1..];
      }
      r
  }

  lemma {:induction false} CompareStringsAntisymmetric(a: string, b: string)
    ensures CompareStrings(a, b) == -CompareStrings(b, a)
    decreases |a|
  {
    if |a| > 0 && |b| > 0 && a[0] == b[0] {
      CompareStringsAntisymmetric(a[1..], b[1..]);
    }
  }

  lemma {:induction false} CompareStringsTransitive(a: string, b: string, c: string)
    requires CompareStrings(a, b) <= 0 && CompareStrings(b, c) <= 0
    ensures CompareStrings(a, c) <= 0
    decreases |a|
  {
    if |a| > 0 && |b| > 0 && |c| > 0 && a[0] == b[0] && b[0] == c[0] {
      CompareStringsTransitive(a[1..], b[1..], c[1..]);
    }
  }

  // ---------------------------------------------------------------------
  // Character classes

  /** `\d` in a JavaScript regular expression without the `u` flag. */
  predicate IsDigit(c: char)
  {
    '0' <= c <= '9'
  }

  /** `\s` in a JavaScript regular expression: WhiteSpace and LineTerminator. */
  predicate IsJsWhitespace(c: char)
  {
    var n := c as int;
    n == 0x09 || n == 0x0A || n == 0x0B || n == 0x0C || n == 0x0D || n == 0x20
    || n == 0xA0 || n == 0x1680 || (0x2000 <= n <= 0x200A)
    || n == 0x2028 || n == 0x2029 || n == 0x202F || n == 0x205F
    || n == 0x3000 || n == 0xFEFF
  }

  /** `s.replace(/\D/g, "")`: the digits of `s`, in order. */
  function DigitsOnly(s: string): (r: string)
    ensures forall i :: 0 <= i < |r| ==> IsDigit(r[i])
    ensures |r| <= |s|
    ensures r == Seqs.Filter(s, IsDigit)
    decreases |s|
  {
    if |s| == 0 then ""
    else DigitsOnly(s[..|s| - 1]) + (if IsDigit(s[|s| - 1]) then [s[|s| - 1]] else "")
  }

  /** Removing non-digits from a string of digits changes nothing. */
  lemma {:induction false} DigitsOnlyOfDigits(s: string)
    requires forall i :: 0 <= i < |s| ==> IsDigit(s[i])
    ensures DigitsOnly(s) == s
    decreases |s|
  {
    if |s| > 0 {
      DigitsOnlyOfDigits(s[..|s| - 1]);
      assert s == s[..|s| - 1] + [s[|s| - 1]];
    }
  }

  /** `s.slice(0, n)`. */
  function Take(s: string, n: nat): (r: string)
    ensures |r| <= n && |r| <= |s|
    ensures r == s[..|r|]
    ensures |s| <= n ==> r == s
  {
    if |s| <= n then s else s[..n]
  }

  // ---------------------------------------------------------------------
  // split(" ")

  /** `s.split(" ")`: the maximal space-free pieces between single spaces,
      empty pieces included (so the result is never empty). */
  function SplitOnSpace(s: string): (parts: seq<string>)
    ensures |parts| > 0
    decreases |s|
  {
    if |s| == 0 then [""]
    else
      var init := SplitOnSpace(s[..|s| - 1]);
      var c := s[|s| - 1];
      if c == ' ' then init + [""]
      else init[..|init| - 1] + [init[|init| - 1] + [c]]
  }

  /** No piece contains a space. */
  lemma {:induction false} SplitPiecesHaveNoSpace(s: string)
    ensures forall k, i :: 0 <= k < |SplitOnSpace(s)| && 0 <= i < |SplitOnSpace(s)[k]| ==> SplitOnSpace(s)[k][i] != ' '
    decreases |s|
  {
    if |s| > 0 {
      SplitPiecesHaveNoSpace(s[..|s| - 1]);
    }
  }

  /** Splitting after one more character. */
  lemma SplitSnoc(s: string, c: char)
    ensures var init := SplitOnSpace(s);
            SplitOnSpace(s + [c])
            == if c == ' ' then init + [""] else init[..|init| - 1] + [init[|init| - 1] + [c]]
  {
    assert (s + [c])[..|s|] == s;
  }

  /** Extending the last piece of `left + right` extends the last piece of `right`. */
  lemma ExtendLast(left: seq<string>, right: seq<string>, c: char)
    requires |right| > 0
    ensures var joined := left + right;
            joined[..|joined| - 1] + [joined[|joined| - 1] + [c]]
            == left + (right[..|right| - 1] + [right[|right| - 1] + [c]])
  {
    var joined := left + right;
    assert joined[..|joined| - 1] == left + right[..|right| - 1];
  }

  /** Splitting at a space concatenates the pieces of both sides. */
  lemma {:induction false} SplitAtSpace(a: string, b: string)
    ensures SplitOnSpace(a + " " + b) == SplitOnSpace(a) + SplitOnSpace(b)
    decreases |b|
  {
    if |b| == 0 {
      assert a + " " + b == a + [' '];
      SplitSnoc(a, ' ');
    } else {
      var b', c := b[..|b| - 1], b[|b| - 1];
      assert b == b' + [c];
      assert a + " " + b == (a + " " + b') + [c];
      SplitAtSpace(a, b');
      SplitAtSpaceStep(a, b', c);
    }
  }

  /** The inductive step: one more character after the space. */
  lemma SplitAtSpaceStep(a: string, b: string, c: char)
    requires SplitOnSpace(a + " " + b) == SplitOnSpace(a) + SplitOnSpace(b)
    ensures SplitOnSpace((a + " " + b) + [c]) == SplitOnSpace(a) + SplitOnSpace(b + [c])
  {
    SplitSnoc(a + " " + b, c);
    SplitSnoc(b, c);
    var left, right := SplitOnSpace(a), SplitOnSpace(b);
    if c == ' ' {
      assert (left + right) + [""] == left + (right + [""]);
    } else {
      ExtendLast(left, right, c);
    }
  }

  /** A string without spaces is a single piece. */
  lemma {:induction false} SplitWithoutSpace(s: string)
    requires forall i :: 0 <= i < |s| ==> s[i] != ' '
    ensures SplitOnSpace(s) == [s]
    decreases |s|
  {
    if |s| > 0 {
      SplitWithoutSpace(s[..|s| - 1]);
      assert s == s[..|s| - 1] + [s[|s| - 1]];
    }
  }

  /** `name.split(" ")[0]`. */
  function FirstWord(name: string): string
  {
    SplitOnSpace(name)[0]
  }

  /** `name.split(" ").map((n) => n[0]).join("")`: `n[0]` of an empty piece is
      `undefined`, which `join` renders as the empty string. */
  function Initials(name: string): string
  {
    FirstChars(SplitOnSpace(name))
  }

  function FirstChars(parts: seq<string>): string
    decreases |parts|
  {
    if |parts| == 0 then ""
    else FirstChars(parts[..|parts| - 1]) + (if |parts[|parts| - 1]| > 0 then [parts[|parts| - 1][0]] else "")
  }

  lemma {:induction false} FirstCharsAppend(p: seq<string>, q: seq<string>)
    ensures FirstChars(p + q) == FirstChars(p) + FirstChars(q)
    decreases |q|
  {
    if |q| == 0 {
      assert p + q == p;
    } else {
      var q' := q[..|q| - 1];
      assert (p + q)[..|p + q| - 1] == p + q';
      FirstCharsAppend(p, q');
    }
  }

  /** Initials of a multi-word name are the initials of its words in order. */
  lemma InitialsAtSpace(a: string, b: string)
    ensures Initials(a + " " + b) == Initials(a) + Initials(b)
  {
    SplitAtSpace(a, b);
    FirstCharsAppend(SplitOnSpace(a), SplitOnSpace(b));
  }

  /** One word contributes its first character. */
  lemma InitialsOfWord(w: string)
    requires |w| > 0 && forall i :: 0 <= i < |w| ==> w[i] != ' '
    ensures Initials(w) == [w[0]]
  {
    SplitWithoutSpace(w);
    assert [w][..0] == [];
    assert FirstChars([w]) == FirstChars([w][..0]) + [w[0]];
  }

  /** A "First Last" name shows the two first letters. */
  lemma InitialsOfTwoWords(first: string, last: string)
    requires |first| > 0 && forall i :: 0 <= i < |first| ==> first[i] != ' '
    requires |last| > 0 && forall i :: 0 <= i < |last| ==> last[i] != ' '
    ensures Initials(first + " " + last) == [first[0], last[0]]
  {
    InitialsAtSpace(first, last);
    InitialsOfWord(first);
    InitialsOfWord(last);
  }

  // ---------------------------------------------------------------------
  // Number rendering

  function DigitChar(d: nat): char
    requires d < 10
  {
    ('0' as int + d) as char
  }

  /** The number a string of decimal digits denotes, most significant first. */
  function DigitsValue(s: string): nat
    requires forall i :: 0 <= i < |s| ==> IsDigit(s[i])
    decreases |s|
  {
    if |s| == 0 then 0
    else
      assert IsDigit(s[|s| - 1]);
      DigitsValue(s[..|s| - 1]) * 10 + (s[|s| - 1] as int - '0' as int)
  }

  /** `${n}` for a natural number: the shortest decimal text denoting `n`. */
  function NatString(n: nat): (r: string)
    ensures |r| > 0 && forall i :: 0 <= i < |r| ==> IsDigit(r[i])
    ensures DigitsValue(r) == n
    ensures r[0] == '0' ==> n == 0
  {
    if n < 10 then [DigitChar(n)]
    else
      var r := NatString(n / 10) + [DigitChar(n % 10)];
      assert r[..|r| - 1] == NatString(n / 10);
      r
  }

  /** `String(n)` for an integer `n`. */
  function DecimalString(n: int): string
  {
    if n < 0 then "-" + NatString(-n) else NatString(n)
  }
}
