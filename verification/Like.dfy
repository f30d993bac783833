/**
 * LIKE escaping for search terms (apps/api/src/repositories/url.repository.ts, `escapeLike`).
 *
 * `Matches` is the pattern language of PostgreSQL's ILIKE with its default escape character; `fold` is the
 * case folding of one character, which the theorem leaves arbitrary.
 */
module Like {
  type Fold = char -> char

  predicate Special(c: char) {
    c == '\\' || c == '%' || c == '_'
  }

  /** Put a backslash before every character LIKE would interpret. */
  function EscapeLike(term: string): string {
    if term == "" then ""
    else (if Special(term[0]) then ['\\', term[0]] else [term[0]]) + EscapeLike(term[1..])
  }

  /** The pattern of a search: the term anywhere in the column. */
  function SearchPattern(term: string): string {
    "%" + EscapeLike(term) + "%"
  }

  /** Does pattern p match the whole of s? A pattern that ends in a lone backslash matches nothing. */
  predicate Matches(fold: Fold, p: string, s: string)
    decreases |p| + |s|
  {
    if p == "" then s == ""
    else if p[0] == '%' then Matches(fold, p[1..], s) || (s != "" && Matches(fold, p, s[1..]))
    else if p[0] == '_' then s != "" && Matches(fold, p[1..], s[1..])
    else if p[0] == '\\' then |p| >= 2 && s != "" && fold(p[1]) == fold(s[0]) && Matches(fold, p[2..], s[1..])
    else s != "" && fold(p[0]) == fold(s[0]) && Matches(fold, p[1..], s[1..])
  }

  predicate EqualFolded(fold: Fold, a: string, b: string) {
    |a| == |b| && forall i :: 0 <= i < |a| ==> fold(a[i]) == fold(b[i])
  }

  predicate OccursAt(fold: Fold, t: string, s: string, i: int) {
    0 <= i <= |s| - |t| && EqualFolded(fold, t, s[i..i + |t|])
  }

  predicate Occurs(fold: Fold, t: string, s: string) {
    exists i :: 0 <= i <= |s| - |t| && OccursAt(fold, t, s, i)
  }

  lemma {:induction false} TrailingPercentMatchesAll(fold: Fold, s: string)
    ensures Matches(fold, "%", s)
  {
    if s != "" {
      TrailingPercentMatchesAll(fold, s[1..]);
    } else {
      assert Matches(fold, "%"[1..], s);
    }
  }

  /** An escaped term followed by `%` matches exactly the strings that start with the term. */
  lemma {:induction false} EscapedPrefix(fold: Fold, t: string, s: string)
    ensures Matches(fold, EscapeLike(t) + "%", s) <==> OccursAt(fold, t, s, 0)
  {
    var p := EscapeLike(t) + "%";
    if t == "" {
      assert p == "%";
      TrailingPercentMatchesAll(fold, s);
    } else {
      var rest := EscapeLike(t[1..]) + "%";
      if Special(t[0]) {
        assert p == ['\\', t[0]] + rest;
        assert p[2..] == rest;
      } else {
        assert p == [t[0]] + rest;
        assert p[1..] == rest;
      }
      assert p != "" && p[0] != '%' && p[0] != '_';
      if s != "" {
        EscapedPrefix(fold, t[1..], s[1..]);
        PrefixStep(fold, t, s);
      }
    }
  }

  lemma PrefixStep(fold: Fold, t: string, s: string)
    requires t != "" && s != ""
    ensures OccursAt(fold, t, s, 0) <==> fold(t[0]) == fold(s[0]) && OccursAt(fold, t[1..], s[1..], 0)
  {
    if OccursAt(fold, t, s, 0) {
      forall i | 0 <= i < |t| - 1 ensures fold(t[1..][i]) == fold(s[1..][..|t| - 1][i]) {
        assert fold(t[i + 1]) == fold(s[0..|t|][i + 1]);
      }
      assert fold(t[0]) == fold(s[0..|t|][0]);
    }
    if fold(t[0]) == fold(s[0]) && OccursAt(fold, t[1..], s[1..], 0) {
      forall i | 0 <= i < |t| ensures fold(t[i]) == fold(s[0..|t|][i]) {
        if i > 0 {
          assert fold(t[1..][i - 1]) == fold(s[1..][0..|t| - 1][i - 1]);
        }
      }
    }
  }

  /**
   * Escaping preserves meaning: for every term and every column value, the search pattern matches exactly when
   * the term occurs in the value as a substring, up to case.
   */
  lemma {:induction false} SearchFindsSubstrings(fold: Fold, t: string, s: string)
    ensures Matches(fold, SearchPattern(t), s) <==> Occurs(fold, t, s)
    decreases |s|
  {
    var p := SearchPattern(t);
    var rest := EscapeLike(t) + "%";
    assert p[0] == '%' && p[1..] == rest;
    EscapedPrefix(fold, t, s);
    if s != "" {
      SearchFindsSubstrings(fold, t, s[1..]);
    }
    if Matches(fold, p, s) && !Matches(fold, rest, s) {
      var i :| 0 <= i <= |s[1..]| - |t| && OccursAt(fold, t, s[1..], i);
      assert s[1..][i..i + |t|] == s[i + 1..i + 1 + |t|];
      assert OccursAt(fold, t, s, i + 1);
    }
    if Occurs(fold, t, s) {
      var i :| 0 <= i <= |s| - |t| && OccursAt(fold, t, s, i);
      if i > 0 {
        assert s[1..][i - 1..i - 1 + |t|] == s[i..i + |t|];
        assert OccursAt(fold, t, s[1..], i - 1);
      }
    }
  }

  // ---------------------------------------------------------------- without escaping

  /** A string that the term matches when its characters are interpreted; a lone last backslash escapes what follows. */
  function Reading(t: string): string {
    if t == "" then ""
    else if t[0] == '%' then Reading(t[1..])
    else if t[0] == '_' then "a" + Reading(t[1..])
    else if t[0] == '\\' then if |t| == 1 then "%" else [t[1]] + Reading(t[2..])
    else [t[0]] + Reading(t[1..])
  }

  lemma {:induction false} ReadingMatches(fold: Fold, t: string)
    ensures Matches(fold, t + "%", Reading(t))
  {
    var p := t + "%";
    if t == "" {
      assert p == "%";
      TrailingPercentMatchesAll(fold, "");
    } else if t[0] == '\\' && |t| == 1 {
      assert p == "\\%" && p[2..] == "" && "%"[1..] == "";
      assert Matches(fold, "", "");
    } else if t[0] == '\\' {
      ReadingMatches(fold, t[2..]);
      assert p[2..] == t[2..] + "%" && p[1] == t[1] && Reading(t)[1..] == Reading(t[2..]);
    } else {
      ReadingMatches(fold, t[1..]);
      assert p[1..] == t[1..] + "%" && p[0] == t[0];
      assert t[0] != '%' ==> Reading(t)[1..] == Reading(t[1..]);
    }
  }

  predicate Plain(t: string) {
    forall c <- t :: !Special(c)
  }

  lemma {:induction false} ReadingIsShorter(t: string)
    ensures |Reading(t)| <= |t|
  {
    if t != "" {
      if t[0] == '\\' && |t| > 1 {
        ReadingIsShorter(t[2..]);
      } else if t[0] != '\\' {
        ReadingIsShorter(t[1..]);
      }
    }
  }

  lemma {:induction false} ReadingDiffers(fold: Fold, t: string)
    requires fold('_') != fold('a') && fold('\\') != fold('%') && !Plain(t)
    ensures !EqualFolded(fold, t, Reading(t))
  {
    var r := Reading(t);
    if t[0] == '%' {
      ReadingIsShorter(t[1..]);
    } else if t[0] == '_' {
      assert r[0] == 'a';
    } else if t[0] == '\\' && |t| == 1 {
      assert r[0] == '%';
    } else if t[0] == '\\' {
      ReadingIsShorter(t[2..]);
    } else {
      var c :| c in t && Special(c);
      assert c in t[1..];
      ReadingDiffers(fold, t[1..]);
      assert r[1..] == Reading(t[1..]);
      if |t| == |r| {
        var i :| 0 <= i < |t| - 1 && fold(t[1..][i]) != fold(r[1..][i]);
        assert fold(t[i + 1]) != fold(r[i + 1]);
      }
    }
  }

  lemma {:induction false} PlainIsItsOwnEscape(t: string)
    requires Plain(t)
    ensures EscapeLike(t) == t
  {
    if t != "" {
      assert t[0] in t && forall c <- t[1..] :: c in t;
      PlainIsItsOwnEscape(t[1..]);
      assert t == [t[0]] + t[1..];
    }
  }

  /**
   * Why the escaping is there: a term put into the pattern as it is searches for itself, in every value, exactly when
   * it has none of the characters LIKE interprets. (Case folding has to tell these characters from others.)
   */
  lemma UnescapedIsLiteralIff(fold: Fold, t: string)
    requires fold('_') != fold('a') && fold('\\') != fold('%')
    ensures (forall s :: Matches(fold, "%" + t + "%", s) <==> Occurs(fold, t, s)) <==> Plain(t)
  {
    var p := "%" + t + "%";
    if Plain(t) {
      PlainIsItsOwnEscape(t);
      forall s ensures Matches(fold, p, s) <==> Occurs(fold, t, s) {
        SearchFindsSubstrings(fold, t, s);
      }
    } else {
      var s := Reading(t);
      assert p[0] == '%' && p[1..] == t + "%";
      ReadingMatches(fold, t);
      ReadingIsShorter(t);
      ReadingDiffers(fold, t);
      forall i | 0 <= i <= |s| - |t| ensures !OccursAt(fold, t, s, i) {
        assert i == 0 && s[0..0 + |t|] == s;
      }
      assert Matches(fold, p, s) && !Occurs(fold, t, s);
    }
  }
}
