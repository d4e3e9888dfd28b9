/** SQL `LIKE` / `ILIKE` pattern matching, which is how models.py and
    app.py implement the free-text search: the term is wrapped as
    `%term%` and handed to `ilike`, so `%` and `_` inside the term act as
    wildcards rather than as literal characters. */
module Like {
  import opened Text

  /** `s LIKE p`: `%` matches any run of characters, `_` any single
      character, every other pattern character itself. */
  predicate LikeMatch(p: string, s: string)
    decreases |p| + |s|
  {
    if p == [] then s == []
    else if p[0] == '%' then LikeMatch(p[1..], s) || (s != [] && LikeMatch(p, s[1..]))
    else s != [] && (p[0] == '_' || p[0] == s[0]) && LikeMatch(p[1..], s[1..])
  }

  /** `s ILIKE p`: the same match on lower-cased text. */
  predicate ILike(s: string, p: string)
  {
    LikeMatch(Lower(p), Lower(s))
  }

  /** A term without wildcard characters. */
  predicate Literal(t: string)
  {
    forall i :: 0 <= i < |t| ==> t[i] != '%' && t[i] != '_'
  }

  /** The pattern models.py builds from a search term. */
  function SearchPattern(term: string): string
  {
    "%" + term + "%"
  }

  lemma {:induction false} PercentMatchesAll(s: string)
    ensures LikeMatch("%", s)
    decreases |s|
  {
    if s != [] {
      PercentMatchesAll(s[1..]);
    }
  }

  /** `t%` matches exactly the strings that start with the literal `t`. */
  lemma {:induction false} PrefixPattern(t: string, s: string)
    requires Literal(t)
    ensures LikeMatch(t + "%", s) <==> StartsWith(s, t)
    decreases |t|
  {
    if t == [] {
      assert t + "%" == "%";
      PercentMatchesAll(s);
    } else {
      var p := t + "%";
      assert p[0] == t[0] && p[1..] == t[1..] + "%";
      if s != [] {
        PrefixPattern(t[1..], s[1..]);
        assert StartsWith(s, t) <==> t[0] == s[0] && StartsWith(s[1..], t[1..]) by {
          if t[0] == s[0] && StartsWith(s[1..], t[1..]) {
            assert s[..|t|] == [s[0]] + s[1..][..|t| - 1];
            assert t == [t[0]] + t[1..];
          }
        }
      }
    }
  }

  /** `%t%` matches exactly the strings that contain the literal `t`. */
  lemma {:induction false} ContainsPattern(t: string, s: string)
    requires Literal(t)
    ensures LikeMatch(SearchPattern(t), s) <==> Contains(s, t)
    decreases |s|
  {
    var p := SearchPattern(t);
    assert p[0] == '%' && p[1..] == t + "%";
    PrefixPattern(t, s);
    if s != [] {
      ContainsPattern(t, s[1..]);
    }
  }

  lemma LowerLiteral(t: string)
    requires Literal(t)
    ensures Literal(Lower(t))
    ensures Lower(SearchPattern(t)) == SearchPattern(Lower(t))
  {
    LowerConcat("%" + t, "%");
    LowerConcat("%", t);
  }

  /** For a term without wildcards, `ILIKE '%term%'` is a case-insensitive
      substring test. */
  lemma ILikeIsSubstring(field: string, term: string)
    requires Literal(term)
    ensures ILike(field, SearchPattern(term)) <==> Contains(Lower(field), Lower(term))
  {
    LowerLiteral(term);
    ContainsPattern(Lower(term), Lower(field));
  }
}
