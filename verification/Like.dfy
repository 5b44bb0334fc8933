/** `LIKE`, as SQLite reads it: `%`, `_`, an optional escape character, and ASCII letters that
    match whatever their case. */
module Like {
  const BACKSLASH := '\\'

  function Fold(c: char): char {
    if 'A' <= c <= 'Z' then (c as int + 32) as char else c
  }

  predicate Same(a: char, b: char) { Fold(a) == Fold(b) }

  /** Equal up to the case of ASCII letters. */
  predicate SameText(s: string, t: string) {
    |s| == |t| && forall i :: 0 <= i < |s| ==> Same(s[i], t[i])
  }

  predicate Matches(pattern: string, escaping: bool, text: string)
    decreases |pattern|, |text|
  {
    if pattern == [] then text == []
    else if pattern[0] == '%' then
      Matches(pattern[1..], escaping, text) || (text != [] && Matches(pattern, escaping, text[1..]))
    else if text == [] then false
    else if escaping && pattern[0] == BACKSLASH then
      |pattern| > 1 && Same(pattern[1], text[0]) && Matches(pattern[2..], escaping, text[1..])
    else
      (pattern[0] == '_' || Same(pattern[0], text[0])) && Matches(pattern[1..], escaping, text[1..])
  }

  predicate NeedsEscape(c: char) { c == BACKSLASH || c == '%' || c == '_' }

  function Escaped(s: string): string {
    if s == [] then []
    else Escaped(s[..|s| - 1]) + (if NeedsEscape(s[|s| - 1]) then [BACKSLASH, s[|s| - 1]] else [s[|s| - 1]])
  }

  method EscapeLike(s: string) returns (r: string)
    ensures r == Escaped(s)
  {
    r := [];
    for i := 0 to |s|
      invariant r == Escaped(s[..i])
    {
      assert s[..i + 1][..i] == s[..i];
      if NeedsEscape(s[i]) {
        r := r + [BACKSLASH];
        r := r + [s[i]];
      } else {
        r := r + [s[i]];
      }
    }
    assert s[..|s|] == s;
  }

  /** One escaped character consumes that character. */
  lemma OneEscaped(c: char, rest: string, text: string)
    ensures Matches((if NeedsEscape(c) then [BACKSLASH, c] else [c]) + rest, true, text)
      <==> text != [] && Same(c, text[0]) && Matches(rest, true, text[1..])
  {
    if NeedsEscape(c) {
      assert ([BACKSLASH, c] + rest)[2..] == rest;
    } else {
      assert ([c] + rest)[1..] == rest;
    }
  }

  /** An escaped string at the head of a pattern stands for itself. */
  lemma {:induction false} EscapedIsLiteral(s: string, rest: string, text: string)
    ensures Matches(Escaped(s) + rest, true, text)
      <==> |s| <= |text| && SameText(s, text[..|s|]) && Matches(rest, true, text[|s|..])
    decreases |s|
  {
    if s == [] {
      assert Escaped(s) + rest == rest && text[0..] == text;
    } else {
      hide Matches, Same;
      var n := |s| - 1;
      var last := if NeedsEscape(s[n]) then [BACKSLASH, s[n]] else [s[n]];
      assert Escaped(s) + rest == Escaped(s[..n]) + (last + rest);
      EscapedIsLiteral(s[..n], last + rest, text);
      if n <= |text| {
        OneEscaped(s[n], rest, text[n..]);
        if n < |text| {
          assert text[n..][1..] == text[|s|..];
          SameTextGrows(s, text);
        }
      }
    }
  }

  lemma SameTextGrows(s: string, text: string)
    requires 0 < |s| <= |text|
    ensures var n := |s| - 1;
      SameText(s, text[..|s|]) <==> SameText(s[..n], text[..n]) && Same(s[n], text[n])
  {
    hide Same;
    var n := |s| - 1;
    var t := text[..|s|];
    assert t[n] == text[n] && t[..n] == text[..n];
    if SameText(s, t) {
      assert forall i :: 0 <= i < n ==> Same(s[..n][i], text[..n][i]);
    }
    if SameText(s[..n], text[..n]) && Same(s[n], text[n]) {
      forall i | 0 <= i < |s|
        ensures Same(s[i], t[i])
      {
        if i < n {
          assert Same(s[..n][i], text[..n][i]);
        }
      }
    }
  }

  lemma {:induction false} AnyMatchesAll(text: string)
    ensures Matches("%", true, text)
    decreases |text|
  {
    if text != [] {
      AnyMatchesAll(text[1..]);
    }
  }

  /** A leading `%` skips any number of characters. */
  lemma {:induction false} AnySkips(rest: string, text: string)
    ensures Matches("%" + rest, true, text) <==> exists k :: 0 <= k <= |text| && Matches(rest, true, text[k..])
    decreases |text|
  {
    var pattern := "%" + rest;
    assert pattern[1..] == rest;
    assert text[0..] == text;
    if text != [] {
      AnySkips(rest, text[1..]);
      forall k | 0 <= k < |text|
        ensures text[1..][k..] == text[k + 1..]
      {
      }
      if Matches(pattern, true, text[1..]) {
        var k :| 0 <= k <= |text[1..]| && Matches(rest, true, text[1..][k..]);
        assert Matches(rest, true, text[k + 1..]);
      }
      forall k | 0 < k <= |text| && Matches(rest, true, text[k..])
        ensures Matches(pattern, true, text[1..])
      {
        assert text[1..][k - 1..] == text[k..];
      }
    }
  }

  ghost predicate StartsWith(text: string, s: string) {
    |s| <= |text| && SameText(s, text[..|s|])
  }

  ghost predicate EndsWith(text: string, s: string) {
    |s| <= |text| && SameText(s, text[|text| - |s|..])
  }

  ghost predicate Contains(text: string, s: string) {
    exists k :: 0 <= k <= |text| && StartsWith(text[k..], s)
  }

  /** `<escaped>%` is: starts with. */
  lemma StartsPattern(s: string, text: string)
    ensures Matches(Escaped(s) + "%", true, text) <==> StartsWith(text, s)
  {
    hide Matches, Escaped, SameText;
    EscapedIsLiteral(s, "%", text);
    if |s| <= |text| {
      AnyMatchesAll(text[|s|..]);
    }
  }

  /** `%<escaped>` is: ends with. */
  lemma EndsPattern(s: string, text: string)
    ensures Matches("%" + Escaped(s), true, text) <==> EndsWith(text, s)
  {
    hide Matches, Escaped, SameText;
    AnySkips(Escaped(s), text);
    assert Escaped(s) + "" == Escaped(s);
    forall k | 0 <= k <= |text|
      ensures Matches(Escaped(s), true, text[k..]) <==> |s| == |text| - k && SameText(s, text[k..])
    {
      EscapedIsLiteral(s, "", text[k..]);
      if |s| <= |text| - k {
        EmptyMatchesEmpty(text[k..][|s|..]);
        if |s| == |text| - k {
          assert text[k..][..|s|] == text[k..];
        }
      }
    }
  }

  lemma EmptyMatchesEmpty(text: string)
    ensures Matches("", true, text) <==> text == []
  {
  }

  /** `%<escaped>%` is: contains. */
  lemma ContainsPattern(s: string, text: string)
    ensures Matches("%" + Escaped(s) + "%", true, text) <==> Contains(text, s)
  {
    hide Matches, Escaped, StartsWith;
    assert "%" + Escaped(s) + "%" == "%" + (Escaped(s) + "%");
    AnySkips(Escaped(s) + "%", text);
    forall k | 0 <= k <= |text|
      ensures Matches(Escaped(s) + "%", true, text[k..]) <==> StartsWith(text[k..], s)
    {
      StartsPattern(s, text[k..]);
    }
  }

  /** Two characters are taken for the same exactly if they are, or are the two cases of one of the 26 letters. */
  lemma SameExactly(a: char, b: char)
    ensures Same(a, b) <==> a == b || exists i: nat :: i < 26 && AreCases(a, b, i)
  {
    if Same(a, b) && a != b {
      var i := if 'A' <= a <= 'Z' then a as int - 65 else b as int - 65;
      assert 0 <= i < 26 && AreCases(a, b, i);
    }
  }

  predicate AreCases(a: char, b: char, i: nat) {
    (a as int == 65 + i && b as int == 97 + i) || (b as int == 65 + i && a as int == 97 + i)
  }
}
