/** The escaping behind the `maker` and `model` search filters, proved to turn SQL LIKE into
    plain substring search. */
module Like {

  function Fold(c: char): char {
    if 'A' <= c <= 'Z' then c + 32 as char else c
  }

  /** SQL LIKE with `\` as the escape character, case-insensitive over ASCII. */
  predicate Matches(pattern: string, text: string)
    decreases |pattern| + |text|
  {
    if pattern == "" then text == ""
    else if pattern[0] == '%' then
      Matches(pattern[1..], text) || (text != "" && Matches(pattern, text[1..]))
    else if pattern[0] == '_' then text != "" && Matches(pattern[1..], text[1..])
    else if pattern[0] == '\\' then
      |pattern| >= 2 && text != "" && Fold(pattern[1]) == Fold(text[0]) && Matches(pattern[2..], text[1..])
    else text != "" && Fold(pattern[0]) == Fold(text[0]) && Matches(pattern[1..], text[1..])
  }

  function EscapeWildcard(c: char): string {
    if c == '\\' || c == '%' || c == '_' then ['\\', c] else [c]
  }

  function Escape(s: string): string {
    if s == "" then "" else EscapeWildcard(s[0]) + Escape(s[1..])
  }

  lemma {:induction false} EscapeAppend(s: string, c: char)
    ensures Escape(s + [c]) == Escape(s) + EscapeWildcard(c)
  {
    if s != "" {
      EscapeAppend(s[1..], c);
      assert (s + [c])[1..] == s[1..] + [c];
    }
  }

  method LikeEscape(s: string) returns (out: string)
    ensures out == Escape(s)
  {
    out := "";
    for i := 0 to |s|
      invariant out == Escape(s[..i])
    {
      EscapeAppend(s[..i], s[i]);
      assert s[..i + 1] == s[..i] + [s[i]];
      if s[i] == '\\' || s[i] == '%' || s[i] == '_' {
        out := out + "\\";
      }
      out := out + [s[i]];
    }
    assert s[..|s|] == s;
  }

  predicate EqualFolded(a: string, b: string) {
    |a| == |b| && forall i :: 0 <= i < |a| ==> Fold(a[i]) == Fold(b[i])
  }

  predicate OccursAt(s: string, text: string, at: nat) {
    at + |s| <= |text| && EqualFolded(s, text[at..at + |s|])
  }

  ghost predicate Occurs(s: string, text: string) {
    exists at: nat :: OccursAt(s, text, at)
  }

  lemma {:induction false} PercentMatchesAll(text: string)
    ensures Matches("%", text)
  {
    if text != "" { PercentMatchesAll(text[1..]); }
  }

  /** An escaped string matches itself literally, wildcards included. */
  lemma {:induction false} EscapedMatchesPrefix(s: string, text: string)
    ensures Matches(Escape(s) + "%", text) <==> OccursAt(s, text, 0)
  {
    if s == "" {
      assert Escape(s) + "%" == "%";
      PercentMatchesAll(text);
    } else {
      var pattern, rest := Escape(s) + "%", Escape(s[1..]) + "%";
      assert pattern == EscapeWildcard(s[0]) + rest;
      assert pattern[|EscapeWildcard(s[0])|..] == rest;
      if text != "" {
        EscapedMatchesPrefix(s[1..], text[1..]);
        if |s| <= |text| {
          assert text[1..][..|s| - 1] == text[..|s|][1..];
          assert forall i :: 1 <= i < |s| ==> s[i] == s[1..][i - 1] && text[..|s|][i] == text[1..][..|s| - 1][i - 1];
          assert text[..|s|] == text[0..0 + |s|] && text[1..][..|s| - 1] == text[1..][0..|s[1..]|];
        }
      }
    }
  }

  /** The filter `LIKE '%' || escaped || '%'` is substring search up to ASCII case, and nothing else. */
  lemma {:induction false} EscapedLikeIsSubstring(s: string, text: string)
    ensures Matches("%" + Escape(s) + "%", text) <==> Occurs(s, text)
    decreases |text|
  {
    var pattern := "%" + Escape(s) + "%";
    assert pattern[1..] == Escape(s) + "%";
    EscapedMatchesPrefix(s, text);
    if text != "" {
      EscapedLikeIsSubstring(s, text[1..]);
      forall at: nat | OccursAt(s, text[1..], at) ensures OccursAt(s, text, at + 1) {
        assert text[1..][at..at + |s|] == text[at + 1..at + 1 + |s|];
      }
      forall at: nat | at > 0 && OccursAt(s, text, at) ensures OccursAt(s, text[1..], at - 1) {
        assert text[1..][at - 1..at - 1 + |s|] == text[at..at + |s|];
      }
    }
  }

  /** Without the escape, a typed wildcard matches text that does not contain it. */
  lemma UnescapedLikeOvermatches()
    ensures Matches("%" + "_" + "%", "x") && !Occurs("_", "x")
  {
    assert ("%" + "_" + "%")[1..] == "_%";
    assert "_%"[1..] == "%" && "x"[1..] == "";
    PercentMatchesAll("");
    assert Matches("_%", "x");
    forall at: nat ensures !OccursAt("_", "x", at) {
      assert Fold("_"[0]) != Fold("x"[0]);
    }
  }
}
