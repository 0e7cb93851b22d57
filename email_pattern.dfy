/** The e-mail test the three sign-in forms share, `/^[^\s@]+@[^\s@]+\.[^\s@]+$/`,
    and the error messages the forms show. The pattern is stated as the
    regular expression reads (three non-empty runs of characters that are
    neither white space nor "@", joined by "@" and "."), and decided by a
    direct check proved equivalent to it. */
module AuthValidation {
  import opened Seqs
  import Text

  /** The error texts (`t.required`, `t.invalidEmail`, `t.passwordMin`, `t.passwordMatch`). */
  datatype Message = Required | InvalidEmail | PasswordMin | PasswordMatch

  /** `[^\s@]`. */
  predicate Plain(c: char)
  {
    !Text.IsJsWhitespace(c) && c != '@'
  }

  predicate AllPlain(s: string)
  {
    forall i :: 0 <= i < |s| ==> Plain(s[i])
  }

  /** `s` reads as local part, "@" at `i`, domain, "." at `j`, suffix. */
  predicate SplitsAt(s: string, i: int, j: int)
  {
    && 0 < i && i + 1 < j && j + 1 < |s|
    && s[i] == '@' && s[j] == '.'
    && AllPlain(s[..i]) && AllPlain(s[i + 1..j]) && AllPlain(s[j + 1..])
  }

  /** What the regular expression accepts: some way of reading `s` as above. */
  ghost predicate MatchesPattern(s: string)
  {
    exists i, j :: SplitsAt(s, i, j)
  }

  function Id(c: char): char
  {
    c
  }

  /** The direct check: the first "@" is not in front, the text around it is
      plain, and the part after it has a "." that is neither its first nor
      its last character. */
  predicate IsEmail(s: string)
  {
    match IndexOf(s, Id, '@')
    case None => false
    case Some(i) =>
      var rest := s[i + 1..];
      && i > 0 && AllPlain(s[..i]) && AllPlain(rest)
      && |rest| >= 3 && '.' in rest[1..|rest| - 1]
  }

  /** The check accepts exactly what the pattern accepts. */
  lemma IsEmailMatchesPattern(s: string)
    ensures IsEmail(s) <==> MatchesPattern(s)
  {
    if IsEmail(s) {
      AcceptedMatches(s);
    }
    if MatchesPattern(s) {
      var i, j :| SplitsAt(s, i, j);
      MatchAccepted(s, i, j);
    }
  }

  lemma AcceptedMatches(s: string)
    requires IsEmail(s)
    ensures MatchesPattern(s)
  {
    var i := IndexOf(s, Id, '@').value;
    var rest := s[i + 1..];
    var inner := rest[1..|rest| - 1];
    var k :| 0 <= k < |inner| && inner[k] == '.';
    var j := i + 2 + k;
    assert s[j] == rest[k + 1];
    assert s[i + 1..j] == rest[..k + 1];
    assert s[j + 1..] == rest[k + 2..];
    assert SplitsAt(s, i, j);
  }

  lemma MatchAccepted(s: string, i: int, j: int)
    requires SplitsAt(s, i, j)
    ensures IsEmail(s)
  {
    PlainSplit(s, i, j);
    forall k | 0 <= k < i ensures s[k] != '@' {
      assert Plain(s[..i][k]);
    }
    assert IndexOf(s, Id, '@') == Some(i);
    var rest := s[i + 1..];
    assert rest[1..|rest| - 1][j - i - 2] == '.';
  }

  /** The part after the "@" is plain when its two pieces are. */
  lemma PlainSplit(s: string, i: int, j: int)
    requires SplitsAt(s, i, j)
    ensures AllPlain(s[i + 1..])
  {
    var rest := s[i + 1..];
    forall k | 0 <= k < |rest| ensures Plain(rest[k]) {
      if k < j - i - 1 {
        assert rest[k] == s[i + 1..j][k];
      } else if k > j - i - 1 {
        assert rest[k] == s[j + 1..][k - (j - i)];
      }
    }
  }

  /** The empty string never matches, so a field is either missing or
      malformed, never both. */
  lemma EmptyIsNotEmail()
    ensures !MatchesPattern("")
  {
  }

  /** A plain address matches. */
  lemma PlainAddressMatches()
    ensures MatchesPattern("ada@shop.ng")
  {
    var s := "ada@shop.ng";
    assert SplitsAt(s, 3, 8) by {
      assert s[..3] == "ada";
      assert s[4..8] == "shop";
      assert s[9..] == "ng";
    }
  }

  /** A second "@" does not. */
  lemma SecondAtDoesNotMatch()
    ensures !MatchesPattern("a@b@c.d")
  {
    var t := "a@b@c.d";
    assert IndexOf(t, Id, '@') == Some(1);
    assert !AllPlain(t[2..]) by {
      assert t[2..][1] == '@';
    }
    IsEmailMatchesPattern(t);
  }
}
