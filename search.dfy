/** Name search for venues and artists: `Model.name.ilike('%{0}%'.format(keyword))`.

    ILIKE is modelled as SQLAlchemy's generic rendering `lower(name) LIKE
    lower(pattern)`, with ASCII lower-casing, where `%` matches any run of
    characters and `_` any single character. The keyword is pasted into the
    pattern unescaped, so a `%` or `_` it contains acts as a wildcard; for a
    keyword free of both, the search is exactly a case-insensitive substring
    test (SearchIsSubstring). */
module Search {
  import opened Records
  import opened Forms

  function Lower(c: char): (r: char)
  {
    if 'A' <= c <= 'Z' then (c as int + 32) as char else c
  }

  function FoldCase(s: string): (r: string)
    ensures |r| == |s|
    ensures forall i :: 0 <= i < |s| ==> r[i] == Lower(s[i])
    ensures forall i :: 0 <= i < |r| ==> !('A' <= r[i] <= 'Z')
  {
    seq(|s|, i requires 0 <= i < |s| => Lower(s[i]))
  }

  /** Two texts that differ at most in the letter case of ASCII letters. */
  predicate EqualIgnoringCase(a: string, b: string)
  {
    |a| == |b| &&
    forall i :: 0 <= i < |a| ==>
      a[i] == b[i] ||
      ('A' <= a[i] <= 'Z' && b[i] as int == a[i] as int + 32) ||
      ('A' <= b[i] <= 'Z' && a[i] as int == b[i] as int + 32)
  }

  /** Folding identifies exactly the texts that differ only in letter case, so
      no ILIKE pattern can tell two such names apart. */
  lemma SameUpToCase(a: string, b: string)
    ensures EqualIgnoringCase(a, b) <==> FoldCase(a) == FoldCase(b)
    ensures EqualIgnoringCase(a, b) ==> forall p :: ILike(a, p) == ILike(b, p)
  {
    if FoldCase(a) == FoldCase(b) {
      forall i | 0 <= i < |a| ensures
        a[i] == b[i] ||
        ('A' <= a[i] <= 'Z' && b[i] as int == a[i] as int + 32) ||
        ('A' <= b[i] <= 'Z' && a[i] as int == b[i] as int + 32)
      {
        assert Lower(a[i]) == FoldCase(a)[i] == FoldCase(b)[i] == Lower(b[i]);
      }
    }
    if EqualIgnoringCase(a, b) {
      assert forall i :: 0 <= i < |a| ==> FoldCase(a)[i] == FoldCase(b)[i];
    }
  }

  /** SQL `text LIKE pattern`, case-sensitive, without an escape character. */
  predicate Like(text: string, pattern: string)
    decreases |pattern| + |text|
  {
    if pattern == [] then text == []
    else if pattern[0] == '%' then
      Like(text, pattern[1..]) || (text != [] && Like(text[1..], pattern))
    else
      text != [] && (pattern[0] == '_' || pattern[0] == text[0]) && Like(text[1..], pattern[1..])
  }

  /** `text ILIKE pattern`. */
  predicate ILike(text: string, pattern: string)
  {
    Like(FoldCase(text), FoldCase(pattern))
  }

  /** The keyword of a search request: `request.form.get('search_term')`,
      which is None when the term is absent and then formats as "None". */
  function Keyword(form: Form): (r: string)
  {
    match Lookup(form, "search_term")
    case Some(k) => k
    case None => "None"
  }

  /** `'%{0}%'.format(keyword)` */
  function Pattern(keyword: string): (r: string)
  {
    "%" + keyword + "%"
  }

  /** A keyword with no LIKE wildcard in it. */
  predicate Plain(keyword: string)
  {
    forall i :: 0 <= i < |keyword| ==> keyword[i] != '%' && keyword[i] != '_'
  }

  /** The reference meaning of a search: `keyword` occurs in `text`. */
  predicate Contains(text: string, keyword: string)
  {
    exists i :: 0 <= i <= |text| && OccursAt(text, keyword, i)
  }

  predicate OccursAt(text: string, keyword: string, i: nat)
  {
    i + |keyword| <= |text| && text[i..i + |keyword|] == keyword
  }

  /** A lone `%` matches every text. */
  lemma {:induction false} PercentMatchesAll(text: string)
    ensures Like(text, "%")
  {
    if text != [] {
      PercentMatchesAll(text[1..]);
    }
  }

  /** A plain keyword followed by `%` matches exactly the texts it begins. */
  lemma {:induction false} PlainPrefix(text: string, keyword: string)
    requires Plain(keyword)
    ensures Like(text, keyword + "%") <==> |keyword| <= |text| && text[..|keyword|] == keyword
  {
    if keyword == [] {
      assert keyword + "%" == "%";
      PercentMatchesAll(text);
    } else {
      var p := keyword + "%";
      assert p[0] == keyword[0] && p[1..] == keyword[1..] + "%";
      if text != [] {
        PlainPrefix(text[1..], keyword[1..]);
        if |keyword| <= |text| {
          assert text[..|keyword|] == [text[0]] + text[1..][..|keyword| - 1];
          assert keyword == [keyword[0]] + keyword[1..];
        }
      }
    }
  }

  /** A leading `%` lets the rest of the pattern match any suffix of the text. */
  lemma {:induction false} LeadingPercent(text: string, rest: string)
    ensures Like(text, "%" + rest) <==> exists i :: 0 <= i <= |text| && Like(text[i..], rest)
  {
    var p := "%" + rest;
    assert p[0] == '%' && p[1..] == rest;
    if text == [] {
      assert text[0..] == text;
    } else {
      LeadingPercent(text[1..], rest);
      if Like(text, p) {
        if Like(text, rest) {
          assert text[0..] == text;
        } else {
          var i :| 0 <= i <= |text[1..]| && Like(text[1..][i..], rest);
          assert text[1..][i..] == text[i + 1..];
        }
      }
      if exists i :: 0 <= i <= |text| && Like(text[i..], rest) {
        var i :| 0 <= i <= |text| && Like(text[i..], rest);
        if i == 0 {
          assert text[0..] == text;
        } else {
          assert text[1..][i - 1..] == text[i..];
        }
      }
    }
  }

  /** For a keyword without wildcards, the search pattern matches a name
      exactly when the keyword occurs in the name, ignoring letter case. */
  lemma SearchIsSubstring(name: string, keyword: string)
    requires Plain(keyword)
    ensures ILike(name, Pattern(keyword)) <==> Contains(FoldCase(name), FoldCase(keyword))
  {
    var t, k := FoldCase(name), FoldCase(keyword);
    assert FoldCase(Pattern(keyword)) == "%" + (k + "%");
    assert Plain(k);
    LeadingPercent(t, k + "%");
    if ILike(name, Pattern(keyword)) {
      var i :| 0 <= i <= |t| && Like(t[i..], k + "%");
      PlainPrefix(t[i..], k);
      if |k| <= |t[i..]| {
        assert t[i..][..|k|] == t[i..i + |k|];
        assert OccursAt(t, k, i);
      }
    }
    if Contains(t, k) {
      var i :| 0 <= i <= |t| && OccursAt(t, k, i);
      PlainPrefix(t[i..], k);
      assert t[i..][..|k|] == t[i..i + |k|];
    }
  }

  /** An `_` in the keyword is not escaped: searching for "_" finds every
      non-empty name. */
  lemma UnderscoreIsWildcard(name: string)
    ensures ILike(name, Pattern("_")) <==> name != []
  {
    var t := FoldCase(name);
    assert FoldCase(Pattern("_")) == "%" + "_%";
    LeadingPercent(t, "_%");
    if name != [] {
      assert "_%"[0] == '_' && "_%"[1..] == "%";
      PercentMatchesAll(t[1..]);
      assert t[0..] == t;
    }
  }

  /** The rows whose name ILIKEs the pattern, in table order. */
  function FilterByName<T(==,!new)>(rows: seq<T>, name: T -> string, pattern: string): (r: seq<T>)
    ensures |r| <= |rows|
    ensures forall x :: x in r <==> x in rows && ILike(name(x), pattern)
    ensures forall x :: multiset(r)[x] == if ILike(name(x), pattern) then multiset(rows)[x] else 0
  {
    if rows == [] then []
    else
      var rest := FilterByName(rows[1..], name, pattern);
      assert rows == [rows[0]] + rows[1..];
      assert forall x :: x in rows <==> x == rows[0] || x in rows[1..];
      (if ILike(name(rows[0]), pattern) then [rows[0]] else []) + rest
  }

  /** What a search page receives: the results, their count, and the term to display. */
  datatype SearchResult<T> = SearchResult(results: seq<T>, count: nat, searchTerm: string)

  /** The search_venues handler over the Venue table's rows. */
  function SearchVenues(rows: seq<Venue>, form: Form): (r: SearchResult<Venue>)
    ensures r.count == |r.results| <= |rows|
    ensures forall v :: v in r.results <==> v in rows && ILike(v.name, Pattern(Keyword(form)))
    ensures r.searchTerm == Get(form, "search_term", "")
  {
    var results := FilterByName(rows, (v: Venue) => v.name, Pattern(Keyword(form)));
    SearchResult(results, |results|, Get(form, "search_term", ""))
  }

  /** The search_artists handler over the Artist table's rows. */
  function SearchArtists(rows: seq<Artist>, form: Form): (r: SearchResult<Artist>)
    ensures r.count == |r.results| <= |rows|
    ensures forall a :: a in r.results <==> a in rows && ILike(a.name, Pattern(Keyword(form)))
    ensures r.searchTerm == Get(form, "search_term", "")
  {
    var results := FilterByName(rows, (a: Artist) => a.name, Pattern(Keyword(form)));
    SearchResult(results, |results|, Get(form, "search_term", ""))
  }

  /** Each matching row is returned as often as it occurs in the rows, so
      `count` is the number of matching rows. */
  lemma SearchVenuesCounts(rows: seq<Venue>, form: Form)
    ensures forall v :: multiset(SearchVenues(rows, form).results)[v] ==
              if ILike(v.name, Pattern(Keyword(form))) then multiset(rows)[v] else 0
  {
  }

  /** With a wildcard-free keyword, the venue search returns exactly the venues
      whose name contains the keyword case-insensitively. */
  lemma SearchVenuesExact(rows: seq<Venue>, form: Form)
    requires Plain(Keyword(form))
    ensures forall v :: v in SearchVenues(rows, form).results <==>
              v in rows && Contains(FoldCase(v.name), FoldCase(Keyword(form)))
  {
    forall v | v in rows {
      SearchIsSubstring(v.name, Keyword(form));
    }
  }

  /** Each matching row is returned as often as it occurs in the rows, so
      `count` is the number of matching rows. */
  lemma SearchArtistsCounts(rows: seq<Artist>, form: Form)
    ensures forall a :: multiset(SearchArtists(rows, form).results)[a] ==
              if ILike(a.name, Pattern(Keyword(form))) then multiset(rows)[a] else 0
  {
  }

  /** With a wildcard-free keyword, the artist search returns exactly the
      artists whose name contains the keyword case-insensitively. */
  lemma SearchArtistsExact(rows: seq<Artist>, form: Form)
    requires Plain(Keyword(form))
    ensures forall a :: a in SearchArtists(rows, form).results <==>
              a in rows && Contains(FoldCase(a.name), FoldCase(Keyword(form)))
  {
    forall a | a in rows {
      SearchIsSubstring(a.name, Keyword(form));
    }
  }

  /** A request without a search term searches for the text "None", while the
      page shows an empty term. */
  lemma MissingTermSearchesNone(rows: seq<Venue>, form: Form)
    requires !HasKey(form, "search_term")
    ensures SearchVenues(rows, form).searchTerm == ""
    ensures forall v :: v in SearchVenues(rows, form).results <==>
              v in rows && Contains(FoldCase(v.name), "none")
  {
    LookupFindsFirst(form, "search_term");
    assert Keyword(form) == "None";
    assert FoldCase("None") == "none";
    SearchVenuesExact(rows, form);
  }
}
