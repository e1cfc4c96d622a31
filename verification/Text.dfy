/** Splitting, joining, trimming and replacing, as Rust's `str` does them. */
module Text {

  /** `s.split(c)`: always at least one piece. */
  function Split(s: string, c: char): (pieces: seq<string>)
    ensures pieces != []
  {
    if s == "" then [""]
    else
      var rest := Split(s[1..], c);
      if s[0] == c then [""] + rest else [[s[0]] + rest[0]] + rest[1..]
  }

  /** The pieces, each closed by `c`. */
  function Closed(pieces: seq<string>, c: char): string {
    if pieces == [] then "" else pieces[0] + [c] + Closed(pieces[1..], c)
  }

  lemma {:induction false} ClosedAppend(a: seq<string>, b: seq<string>, c: char)
    ensures Closed(a + b, c) == Closed(a, c) + Closed(b, c)
  {
    if a == [] {
      assert a + b == b;
    } else {
      assert (a + b)[1..] == a[1..] + b;
      ClosedAppend(a[1..], b, c);
    }
  }

  lemma {:induction false} SplitFirst(piece: string, rest: string, c: char)
    requires c !in piece
    ensures Split(piece + [c] + rest, c) == [piece] + Split(rest, c)
  {
    var s := piece + [c] + rest;
    if piece == "" {
      assert s[1..] == rest;
    } else {
      assert s[1..] == piece[1..] + [c] + rest;
      SplitFirst(piece[1..], rest, c);
      assert [piece[0]] + piece[1..] == piece;
    }
  }

  lemma {:induction false} SplitClosed(pieces: seq<string>, c: char)
    requires forall i :: 0 <= i < |pieces| ==> c !in pieces[i]
    ensures Split(Closed(pieces, c), c) == pieces + [""]
  {
    if pieces != [] {
      SplitFirst(pieces[0], Closed(pieces[1..], c), c);
      SplitClosed(pieces[1..], c);
      assert [pieces[0]] + (pieces[1..] + [""]) == pieces + [""];
    }
  }

  /** Putting the separators back gives the text, and no piece holds one. */
  lemma {:induction false} SplitIsExact(s: string, c: char)
    ensures Closed(Split(s, c), c) == s + [c]
    ensures forall i :: 0 <= i < |Split(s, c)| ==> c !in Split(s, c)[i]
  {
    if s != "" {
      var rest := Split(s[1..], c);
      SplitIsExact(s[1..], c);
      if s[0] == c {
        assert ([""] + rest)[1..] == rest;
      } else {
        assert ([[s[0]] + rest[0]] + rest[1..])[1..] == rest[1..];
        assert Closed(Split(s, c), c) == [s[0]] + Closed(rest, c);
      }
    }
  }

  lemma {:induction false} SplitCounts(s: string, c: char)
    ensures |Split(s, c)| > 1 <==> c in s
  {
    if s != "" {
      SplitCounts(s[1..], c);
      assert s == [s[0]] + s[1..];
    }
  }

  /** The characters with Unicode's White_Space property. */
  predicate White(c: char) {
    var u := c as int;
    9 <= u <= 13 || u == 32 || u == 0x85 || u == 0xA0 || u == 0x1680 || 0x2000 <= u <= 0x200A ||
    u == 0x2028 || u == 0x2029 || u == 0x202F || u == 0x205F || u == 0x3000
  }

  /** The last piece is the longest tail without the separator. */
  lemma {:induction false} LastPiece(s: string, c: char)
    ensures var pieces := Split(s, c);
            var last := pieces[|pieces| - 1];
            && c !in last && |last| <= |s| && s[|s| - |last|..] == last
            && (if |pieces| == 1 then last == s else |last| < |s| && s[|s| - |last| - 1] == c)
  {
    if s != "" {
      var rest := Split(s[1..], c);
      LastPiece(s[1..], c);
      assert s == [s[0]] + s[1..];
    }
  }

  function TrimStart(s: string): string {
    if s != "" && White(s[0]) then TrimStart(s[1..]) else s
  }

  function TrimEnd(s: string): string {
    if s != "" && White(s[|s| - 1]) then TrimEnd(s[..|s| - 1]) else s
  }

  function Trim(s: string): string {
    TrimEnd(TrimStart(s))
  }

  /** `s.replace(c, text)` for a one-character pattern. */
  function Replace(s: string, c: char, text: string): string {
    if s == "" then "" else (if s[0] == c then text else [s[0]]) + Replace(s[1..], c, text)
  }

  lemma {:induction false} ReplaceAppend(a: string, b: string, c: char, text: string)
    ensures Replace(a + b, c, text) == Replace(a, c, text) + Replace(b, c, text)
  {
    if a == "" {
      assert a + b == b;
    } else {
      assert (a + b)[1..] == a[1..] + b;
      ReplaceAppend(a[1..], b, c, text);
    }
  }

  /** `s.contains("..")`. */
  predicate HasDots(p: string) {
    exists i :: 0 <= i < |p| - 1 && p[i] == '.' && p[i + 1] == '.'
  }
}
