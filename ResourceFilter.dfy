/**
 * The search filter of the resource list: a category button ("all" or one
 * canonical identifier) and a search text matched against the record's
 * name, address, phone and category display name.
 */
module ResourceFilter {
  import opened Text
  import opened Categories
  import opened Records

  /** The category button admits the record. */
  predicate CategoryMatch(r: Resource, activeCategory: string) {
    activeCategory == "all" || Ident(r.category) == activeCategory
  }

  /** The (already lower-cased) search text is empty or occurs in one of the record's searchable texts. */
  predicate TextMatch(r: Resource, searchText: string) {
    searchText == "" ||
    Contains(Lower(r.name), searchText) ||
    Contains(Lower(r.address), searchText) ||
    Contains(Lower(r.phone), searchText) ||
    Contains(Lower(DisplayName(r.category)), searchText)
  }

  predicate Matches(r: Resource, searchText: string, activeCategory: string) {
    CategoryMatch(r, activeCategory) && TextMatch(r, searchText)
  }

  /** `resources.filter(...)`: the matching records, in directory order. */
  function Filter(rs: seq<Resource>, searchText: string, activeCategory: string): seq<Resource> {
    if rs == [] then []
    else (if Matches(rs[0], searchText, activeCategory) then [rs[0]] else []) +
         Filter(rs[1..], searchText, activeCategory)
  }

  /** `a` is `b` with some elements left out, order kept. */
  predicate IsSubsequence<T(==)>(a: seq<T>, b: seq<T>)
    decreases |b|
  {
    if b == [] then a == []
    else (a != [] && a[0] == b[0] && IsSubsequence(a[1..], b[1..])) || IsSubsequence(a, b[1..])
  }

  /** The two halves of the match: the text part alone and the category part alone. */
  lemma MatchesSplits(r: Resource, searchText: string, activeCategory: string)
    ensures Matches(r, searchText, activeCategory) <==>
              Matches(r, searchText, "all") && Matches(r, "", activeCategory)
  {
  }

  /** A record is in the filter result exactly when it is in the directory and matches. */
  lemma {:induction false} FilterMembers(rs: seq<Resource>, searchText: string, activeCategory: string, r: Resource)
    ensures r in Filter(rs, searchText, activeCategory) <==> r in rs && Matches(r, searchText, activeCategory)
  {
    if rs != [] {
      FilterMembers(rs[1..], searchText, activeCategory, r);
      assert rs == [rs[0]] + rs[1..];
    }
  }

  /** With no search text and the "all" button the whole directory is listed, in order. */
  lemma {:induction false} FilterEverything(rs: seq<Resource>)
    ensures Filter(rs, "", "all") == rs
  {
    if rs != [] {
      FilterEverything(rs[1..]);
      assert rs == [rs[0]] + rs[1..];
    }
  }

  /** The filter result keeps directory order: it is a subsequence of the directory. */
  lemma {:induction false} FilterIsSubsequence(rs: seq<Resource>, searchText: string, activeCategory: string)
    ensures IsSubsequence(Filter(rs, searchText, activeCategory), rs)
  {
    if rs != [] {
      var rest := Filter(rs[1..], searchText, activeCategory);
      FilterIsSubsequence(rs[1..], searchText, activeCategory);
      if Matches(rs[0], searchText, activeCategory) {
        assert Filter(rs, searchText, activeCategory) == [rs[0]] + rest;
        assert ([rs[0]] + rest)[1..] == rest;
      } else {
        assert Filter(rs, searchText, activeCategory) == rest;
      }
    }
  }

  /** Filtering by the text and then by the category equals filtering by both at once. */
  lemma {:induction false} FilterSplits(rs: seq<Resource>, searchText: string, activeCategory: string)
    ensures Filter(rs, searchText, activeCategory) == Filter(Filter(rs, searchText, "all"), "", activeCategory)
  {
    if rs != [] {
      FilterSplits(rs[1..], searchText, activeCategory);
      MatchesSplits(rs[0], searchText, activeCategory);
      var rest := Filter(rs[1..], searchText, "all");
      var fa := Filter(rs, searchText, "all");
      if Matches(rs[0], searchText, "all") {
        assert fa == [rs[0]] + rest;
        assert fa[0] == rs[0] && fa[1..] == rest;
      } else {
        assert fa == rest;
      }
    }
  }

  /** `filter(t, c)` lies within both `filter(t, "all")` and `filter("", c)`, and is exactly their common part. */
  lemma FilterNarrows(rs: seq<Resource>, searchText: string, activeCategory: string, r: Resource)
    ensures r in Filter(rs, searchText, activeCategory) <==>
              r in Filter(rs, searchText, "all") && r in Filter(rs, "", activeCategory)
  {
    FilterMembers(rs, searchText, activeCategory, r);
    FilterMembers(rs, searchText, "all", r);
    FilterMembers(rs, "", activeCategory, r);
  }
}
