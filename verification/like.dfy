/** LIKE escaping (shared/validators.py) against SQLite's LIKE ... ESCAPE '\'. */
module Like {
  const ESCAPE: char := '\\'

  /** LIKE ignores the case of the ASCII letters, and of no others. */
  function Fold(c: char): char {
    if 'A' <= c <= 'Z' then ((c as int) + 32) as char else c
  }

  /** The capital letters from A to Z fold to the small ones in their place from a on, and nothing else changes. */
  lemma FoldIs(c: char)
    ensures if 'A' <= c <= 'Z' then Fold(c) as int - 'a' as int == c as int - 'A' as int else Fold(c) == c
  {}

  predicate SameText(a: string, b: string) {
    |a| == |b| && forall i :: 0 <= i < |a| ==> Fold(a[i]) == Fold(b[i])
  }

  /** `text LIKE pattern ESCAPE '\'`; a pattern that ends in its escape matches nothing. */
  predicate Matches(pattern: string, text: string)
    decreases |pattern|, |text|
  {
    if pattern == [] then text == []
    else if pattern[0] == ESCAPE then
      |pattern| >= 2 && text != [] && Fold(pattern[1]) == Fold(text[0]) && Matches(pattern[2..], text[1..])
    else if pattern[0] == '%' then
      Matches(pattern[1..], text) || (text != [] && Matches(pattern, text[1..]))
    else
      text != [] && (pattern[0] == '_' || Fold(pattern[0]) == Fold(text[0])) && Matches(pattern[1..], text[1..])
  }

  /** Python's `s.replace(c, r)` for a one-character `c`. */
  function Replace(s: string, c: char, r: string): string {
    if s == [] then [] else (if s[0] == c then r else [s[0]]) + Replace(s[1..], c, r)
  }

  function EscapeWildcards(value: string): string {
    if value == [] then value
    else Replace(Replace(Replace(value, '\\', "\\\\"), '%', "\\%"), '_', "\\_")
  }

  /** The one-pass reading: every special character gets a backslash of its own. */
  function EscapeEach(value: string): string {
    if value == [] then []
    else (if value[0] in {'\\', '%', '_'} then [ESCAPE, value[0]] else [value[0]]) + EscapeEach(value[1..])
  }

  lemma {:induction false} ReplaceConcat(a: string, b: string, c: char, r: string)
    ensures Replace(a + b, c, r) == Replace(a, c, r) + Replace(b, c, r)
  {
    if a == [] {
      assert a + b == b;
    } else {
      var ab, head := a + b, if a[0] == c then r else [a[0]];
      assert ab[0] == a[0] && ab[1..] == a[1..] + b;
      ReplaceConcat(a[1..], b, c, r);
      assert head + (Replace(a[1..], c, r) + Replace(b, c, r)) == head + Replace(a[1..], c, r) + Replace(b, c, r);
    }
  }

  /** A piece of at most two characters goes through the last two replacements on its own. */
  lemma ReplaceShort(piece: string, c: char, r: string)
    requires 1 <= |piece| <= 2
    ensures |piece| == 1 ==> Replace(piece, c, r) == if piece[0] == c then r else piece
    ensures |piece| == 2 ==>
      Replace(piece, c, r) == (if piece[0] == c then r else [piece[0]]) + (if piece[1] == c then r else [piece[1]])
  {
    assert Replace(piece[1..], c, r) ==
           if |piece| == 1 then [] else (if piece[1] == c then r else [piece[1]]) + Replace(piece[2..], c, r);
  }

  /** What the chain makes of one character. */
  function EscapeOne(c: char): string {
    if c in {'\\', '%', '_'} then [ESCAPE, c] else [c]
  }

  lemma ReplaceHead(c: char, rest: string, d: char, r: string)
    ensures Replace([c] + rest, d, r) == (if c == d then r else [c]) + Replace(rest, d, r)
  {
    assert ([c] + rest)[0] == c && ([c] + rest)[1..] == rest;
  }

  lemma EscapePiece(c: char)
    ensures var piece := if c == '\\' then "\\\\" else [c];
      Replace(Replace(piece, '%', "\\%"), '_', "\\_") == EscapeOne(c)
  {
    var piece := if c == '\\' then "\\\\" else [c];
    ReplaceShort(piece, '%', "\\%");
    ReplaceShort(Replace(piece, '%', "\\%"), '_', "\\_");
  }

  /** The three replacements in turn, on a character and what follows it. */
  lemma ChainHead(c: char, rest: string)
    ensures EscapeWildcards([c] + rest) == EscapeOne(c) + EscapeWildcards(rest)
  {
    var piece := if c == '\\' then "\\\\" else [c];
    var once := Replace(rest, '\\', "\\\\");
    ReplaceHead(c, rest, '\\', "\\\\");
    ReplaceConcat(piece, once, '%', "\\%");
    ReplaceConcat(Replace(piece, '%', "\\%"), Replace(once, '%', "\\%"), '_', "\\_");
    EscapePiece(c);
  }

  /** The three chained replacements are the one-pass escape: none of them escapes another's backslash. */
  lemma {:induction false} ChainIsOnePass(value: string)
    ensures EscapeWildcards(value) == EscapeEach(value)
  {
    if value != [] {
      ChainIsOnePass(value[1..]);
      ChainHead(value[0], value[1..]);
      assert value == [value[0]] + value[1..];
    }
  }

  /** An escaped text matches itself, character by character, and hands the rest to the rest of the pattern. */
  lemma {:induction false} EscapedMatchesLiterally(q: string, tail: string, text: string)
    ensures Matches(EscapeEach(q) + tail, text)
            <==> |q| <= |text| && SameText(q, text[..|q|]) && Matches(tail, text[|q|..])
  {
    if q == [] {
      assert EscapeEach(q) + tail == tail && text[|q|..] == text;
    } else {
      var p := EscapeEach(q) + tail;
      if q[0] in {'\\', '%', '_'} {
        assert p[2..] == EscapeEach(q[1..]) + tail;
      } else {
        assert p[1..] == EscapeEach(q[1..]) + tail;
      }
      if text != [] {
        EscapedMatchesLiterally(q[1..], tail, text[1..]);
        if |q| <= |text| {
          assert text[1..][..|q| - 1] == text[1..|q|] && text[1..][|q| - 1..] == text[|q|..];
          assert SameText(q, text[..|q|]) <==> Fold(q[0]) == Fold(text[0]) && SameText(q[1..], text[1..|q|]) by {
            assert forall i :: 0 < i < |q| ==> q[i] == q[1..][i - 1] && text[i] == text[1..|q|][i - 1];
          }
        }
      }
    }
  }

  lemma {:induction false} PercentMatchesAll(text: string)
    ensures Matches("%", text)
  {
    if text != [] {
      PercentMatchesAll(text[1..]);
    } else {
      assert Matches("%"[1..], text);
    }
  }

  lemma {:induction false} PercentSkips(pattern: string, text: string)
    ensures Matches("%" + pattern, text) <==> exists i :: 0 <= i <= |text| && Matches(pattern, text[i..])
  {
    var p := "%" + pattern;
    assert p[1..] == pattern && text[0..] == text;
    if text != [] {
      PercentSkips(pattern, text[1..]);
      assert forall i :: 0 <= i < |text| ==> text[1..][i..] == text[i + 1..];
      if i :| 0 <= i <= |text| && Matches(pattern, text[i..]) {
        if i > 0 { assert text[1..][i - 1..] == text[i..]; }
      }
      if i :| 0 <= i <= |text[1..]| && Matches(pattern, text[1..][i..]) {
        assert text[1..][i..] == text[i + 1..];
      }
    }
  }

  predicate OccursAt(q: string, text: string, i: nat)
    requires i <= |text|
  {
    i + |q| <= |text| && SameText(q, text[i..i + |q|])
  }

  /** `q` occurs in `text` at some place, up to case. */
  predicate Occurs(q: string, text: string) {
    exists i :: 0 <= i <= |text| && OccursAt(q, text, i)
  }

  predicate StartsWith(q: string, text: string) {
    |q| <= |text| && SameText(q, text[..|q|])
  }

  /** The search pattern %esc(q)% finds exactly the texts in which `q` occurs. */
  lemma SubstringSearch(q: string, text: string)
    ensures Matches("%" + EscapeWildcards(q) + "%", text) <==> Occurs(q, text)
  {
    ChainIsOnePass(q);
    var inner := EscapeEach(q) + "%";
    assert "%" + EscapeWildcards(q) + "%" == "%" + inner;
    PercentSkips(inner, text);
    forall i | 0 <= i <= |text|
      ensures Matches(inner, text[i..]) <==> OccursAt(q, text, i)
    {
      EscapedMatchesLiterally(q, "%", text[i..]);
      if |q| <= |text[i..]| {
        assert text[i..][..|q|] == text[i..i + |q|];
        PercentMatchesAll(text[i..][|q|..]);
      }
    }
  }

  /** The lot-number pattern esc(q)% finds exactly the texts that start with `q`. */
  lemma PrefixSearch(q: string, text: string)
    ensures Matches(EscapeWildcards(q) + "%", text) <==> StartsWith(q, text)
  {
    ChainIsOnePass(q);
    EscapedMatchesLiterally(q, "%", text);
    if |q| <= |text| { PercentMatchesAll(text[|q|..]); }
  }
}
