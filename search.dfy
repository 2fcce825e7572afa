/**
 * `search_items`: every catalog item is classified against the query in
 * three tiers (exact, partial, fuzzy), the first that applies wins, fuzzy
 * matches below the threshold are dropped, and the matches are sorted by
 * descending score with a stable sort, so equal scores keep catalog order.
 * The similarity ratio of the two lower-cased strings is a parameter.
 */
module MenuSearch {
  import opened Wrappers
  import opened Strings
  import opened Menu

  datatype MatchType = Exact | Partial | Fuzzy

  datatype SearchResult = SearchResult(
    id: string,
    name: string,
    category: string,
    price: int,
    matchType: MatchType,
    score: real)

  const ExactScore: real := 1.0
  const PartialScore: real := 0.9

  /** A similarity ratio: a value in [0, 1] for every pair of strings. */
  ghost predicate IsRatio(similarity: (string, string) -> real)
  {
    forall a, b :: 0.0 <= similarity(a, b) <= 1.0
  }

  /**
   * A ratio that reaches 1.0 only for equal strings, as `SequenceMatcher.ratio()`
   * does: twice the matched length over the summed lengths is 1 only when all
   * of both strings is matched.
   */
  ghost predicate OneOnlyWhenEqual(similarity: (string, string) -> real)
  {
    forall a, b :: similarity(a, b) == 1.0 ==> a == b
  }

  /** No two catalog items have names that differ only in letter case. */
  ghost predicate NamesDistinctIgnoringCase(catalog: Catalog)
  {
    forall a, b ::
      a in catalog.items && b in catalog.items && Lower(catalog.items[a].name) == Lower(catalog.items[b].name)
      ==> a == b
  }

  /** One query string contains the other, after lower-casing. */
  predicate ContainsEitherWay(q: string, n: string)
  {
    IsSubstring(q, n) || IsSubstring(n, q)
  }

  /** The result item `id` contributes to a search, if any. */
  function Classify(query: string, id: string, item: CatalogItem,
                    similarity: (string, string) -> real, threshold: real): (r: Option<SearchResult>)
    ensures r.Some? ==> && r.value.id == id && r.value.name == item.name
                        && r.value.category == item.category && r.value.price == item.basePrice
  {
    var q := Lower(query);
    var n := Lower(item.name);
    if q == n then
      Some(SearchResult(id, item.name, item.category, item.basePrice, Exact, ExactScore))
    else if ContainsEitherWay(q, n) then
      Some(SearchResult(id, item.name, item.category, item.basePrice, Partial, PartialScore))
    else
      var score := similarity(q, n);
      if score >= threshold then
        Some(SearchResult(id, item.name, item.category, item.basePrice, Fuzzy, score))
      else None
  }

  /**
   * The tiers are exclusive and tried in order: exact (case-insensitive
   * equality, 1.0), then partial (containment either way, 0.9), then fuzzy
   * (the ratio itself, kept only at or above the threshold).
   */
  lemma ClassifyTiers(query: string, id: string, item: CatalogItem,
                      similarity: (string, string) -> real, threshold: real)
    ensures var r := Classify(query, id, item, similarity, threshold);
      && ((r.Some? && r.value.matchType == Exact) <==> Lower(query) == Lower(item.name))
      && ((r.Some? && r.value.matchType == Partial) <==>
            Lower(query) != Lower(item.name) && ContainsEitherWay(Lower(query), Lower(item.name)))
      && ((r.Some? && r.value.matchType == Fuzzy) <==>
            && Lower(query) != Lower(item.name) && !ContainsEitherWay(Lower(query), Lower(item.name))
            && similarity(Lower(query), Lower(item.name)) >= threshold)
      && (r.Some? ==> r.value.score == match r.value.matchType
                                         case Exact => ExactScore
                                         case Partial => PartialScore
                                         case Fuzzy => similarity(Lower(query), Lower(item.name)))
  {
  }

  function AsSeq<T>(o: Option<T>): seq<T>
  {
    if o.Some? then [o.value] else []
  }

  /** The unsorted match list after scanning the first n catalog entries. */
  function Matches(query: string, catalog: Catalog, n: nat,
                   similarity: (string, string) -> real, threshold: real): seq<SearchResult>
    requires catalog.Valid() && n <= |catalog.order|
  {
    if n == 0 then []
    else
      var id := catalog.order[n - 1];
      Matches(query, catalog, n - 1, similarity, threshold)
        + AsSeq(Classify(query, id, catalog.items[id], similarity, threshold))
  }

  /** Python's stable `sort(key=score, reverse=True)`: x goes before the first element it does not lose to. */
  function InsertByScore(x: SearchResult, s: seq<SearchResult>): seq<SearchResult>
  {
    if |s| == 0 || x.score >= s[0].score then [x] + s
    else [s[0]] + InsertByScore(x, s[1..])
  }

  function SortByScore(s: seq<SearchResult>): seq<SearchResult>
  {
    if |s| == 0 then [] else InsertByScore(s[0], SortByScore(s[1..]))
  }

  /** What `search_items` returns. */
  function Search(query: string, catalog: Catalog,
                  similarity: (string, string) -> real, threshold: real): seq<SearchResult>
    requires catalog.Valid()
  {
    SortByScore(Matches(query, catalog, |catalog.order|, similarity, threshold))
  }

  /**
   * Sorted by descending score, and among equal scores strictly by the key f
   * (for search results: their position in the catalog).
   */
  ghost predicate RankedBy(s: seq<SearchResult>, f: SearchResult -> int)
  {
    forall i, j :: 0 <= i < j < |s| ==>
      s[i].score > s[j].score || (s[i].score == s[j].score && f(s[i]) < f(s[j]))
  }

  /** Every result is a catalog item carrying exactly the classification of that item. */
  ghost predicate AllClassified(r: seq<SearchResult>, query: string, catalog: Catalog,
                                similarity: (string, string) -> real, threshold: real)
  {
    forall i :: 0 <= i < |r| ==>
      && r[i].id in catalog.items
      && Classify(query, r[i].id, catalog.items[r[i].id], similarity, threshold) == Some(r[i])
  }

  /** Every result comes from one of the first n catalog entries. */
  ghost predicate AllBefore(r: seq<SearchResult>, catalog: Catalog, n: nat)
  {
    forall i :: 0 <= i < |r| ==> Position(catalog.order, r[i].id) < n
  }

  /** Results appear in strictly increasing catalog position. */
  ghost predicate InCatalogOrder(r: seq<SearchResult>, catalog: Catalog)
  {
    forall i, j :: 0 <= i < j < |r| ==> Position(catalog.order, r[i].id) < Position(catalog.order, r[j].id)
  }

  method SearchItems(query: string, catalog: Catalog,
                     similarity: (string, string) -> real, threshold: real) returns (results: seq<SearchResult>)
    requires catalog.Valid()
    ensures results == Search(query, catalog, similarity, threshold)
  {
    var queryLower := Lower(query);
    results := [];
    var i := 0;
    while i < |catalog.order|
      invariant 0 <= i <= |catalog.order|
      invariant results == Matches(query, catalog, i, similarity, threshold)
    {
      var id := catalog.order[i];
      var item := catalog.items[id];
      var nameLower := Lower(item.name);
      if queryLower == nameLower {
        results := results + [SearchResult(id, item.name, item.category, item.basePrice, Exact, ExactScore)];
      } else if IsSubstring(queryLower, nameLower) || IsSubstring(nameLower, queryLower) {
        results := results + [SearchResult(id, item.name, item.category, item.basePrice, Partial, PartialScore)];
      } else {
        var score := similarity(queryLower, nameLower);
        if score >= threshold {
          results := results + [SearchResult(id, item.name, item.category, item.basePrice, Fuzzy, score)];
        }
      }
      i := i + 1;
    }
    results := SortByScore(results);
  }

  // ---------------------------------------------------------------------------
  // The sort: a permutation, ordered by score, stable.

  lemma {:induction false} InsertPermutes(x: SearchResult, s: seq<SearchResult>)
    ensures multiset(InsertByScore(x, s)) == multiset(s) + multiset{x}
  {
    if |s| > 0 && x.score < s[0].score {
      InsertPermutes(x, s[1..]);
      assert s == [s[0]] + s[1..];
    }
  }

  /** The sort neither drops nor adds nor duplicates a result. */
  lemma {:induction false} SortPermutes(s: seq<SearchResult>)
    ensures multiset(SortByScore(s)) == multiset(s)
  {
    if |s| > 0 {
      SortPermutes(s[1..]);
      InsertPermutes(s[0], SortByScore(s[1..]));
      assert s == [s[0]] + s[1..];
    }
  }

  /** Every element of an insertion result is the inserted one or came from the list. */
  lemma InsertMember(x: SearchResult, s: seq<SearchResult>, y: SearchResult)
    requires y in InsertByScore(x, s)
    ensures y == x || y in s
  {
    InsertPermutes(x, s);
    assert y in multiset(InsertByScore(x, s));
  }

  lemma RankedTail(s: seq<SearchResult>, f: SearchResult -> int)
    requires |s| > 0 && RankedBy(s, f)
    ensures RankedBy(s[1..], f)
  {
    forall i, j | 0 <= i < j < |s[1..]|
      ensures s[1..][i].score > s[1..][j].score ||
              (s[1..][i].score == s[1..][j].score && f(s[1..][i]) < f(s[1..][j]))
    {
      assert s[1..][i] == s[i + 1] && s[1..][j] == s[j + 1];
    }
  }

  /** The head of a ranked list against any later element y. */
  lemma RankedHead(s: seq<SearchResult>, f: SearchResult -> int, y: SearchResult)
    requires |s| > 0 && RankedBy(s, f) && y in s[1..]
    ensures s[0].score > y.score || (s[0].score == y.score && f(s[0]) < f(y))
  {
    var k :| 0 <= k < |s[1..]| && s[1..][k] == y;
    assert s[1 + k] == y;
  }

  lemma {:induction false} InsertRanked(x: SearchResult, s: seq<SearchResult>, f: SearchResult -> int)
    requires RankedBy(s, f)
    requires forall y :: y in s ==> f(x) < f(y)
    ensures RankedBy(InsertByScore(x, s), f)
  {
    if |s| > 0 && x.score < s[0].score {
      var t := InsertByScore(x, s[1..]);
      RankedTail(s, f);
      InsertRanked(x, s[1..], f);
      var r := [s[0]] + t;
      assert InsertByScore(x, s) == r;
      forall j | 0 < j < |r|
        ensures r[0].score > r[j].score || (r[0].score == r[j].score && f(r[0]) < f(r[j]))
      {
        assert r[j] == t[j - 1];
        InsertMember(x, s[1..], r[j]);
        if r[j] != x {
          RankedHead(s, f, r[j]);
        }
      }
      forall i, j | 0 < i < j < |r|
        ensures r[i].score > r[j].score || (r[i].score == r[j].score && f(r[i]) < f(r[j]))
      {
        assert r[i] == t[i - 1] && r[j] == t[j - 1];
      }
    }
  }

  /**
   * Sorting a list whose keys strictly increase yields the score order with
   * ties in the original order: the sort is stable.
   */
  lemma {:induction false} SortRanked(s: seq<SearchResult>, f: SearchResult -> int)
    requires forall i, j :: 0 <= i < j < |s| ==> f(s[i]) < f(s[j])
    ensures RankedBy(SortByScore(s), f)
  {
    if |s| > 0 {
      SortRanked(s[1..], f);
      SortPermutes(s[1..]);
      forall y | y in SortByScore(s[1..]) ensures f(s[0]) < f(y) {
        assert y in multiset(s[1..]);
        var k :| 0 <= k < |s[1..]| && s[1..][k] == y;
        assert s[1 + k] == y;
      }
      InsertRanked(s[0], SortByScore(s[1..]), f);
    }
  }

  // ---------------------------------------------------------------------------
  // The scan.

  lemma PositionOfEntry(catalog: Catalog, i: nat)
    requires catalog.Valid() && i < |catalog.order|
    ensures Position(catalog.order, catalog.order[i]) == i
  {
  }

  /** Every scanned match is its item's classification, from the first n entries. */
  lemma {:induction false} MatchesSound(query: string, catalog: Catalog, n: nat,
                                        similarity: (string, string) -> real, threshold: real)
    requires catalog.Valid() && n <= |catalog.order|
    ensures AllClassified(Matches(query, catalog, n, similarity, threshold), query, catalog, similarity, threshold)
    ensures AllBefore(Matches(query, catalog, n, similarity, threshold), catalog, n)
  {
    if n > 0 {
      MatchesSound(query, catalog, n - 1, similarity, threshold);
      PositionOfEntry(catalog, n - 1);
      var id := catalog.order[n - 1];
      var prev := Matches(query, catalog, n - 1, similarity, threshold);
      var last := AsSeq(Classify(query, id, catalog.items[id], similarity, threshold));
      var m := prev + last;
      forall i | 0 <= i < |m|
        ensures m[i].id in catalog.items
        ensures Position(catalog.order, m[i].id) < n
        ensures Classify(query, m[i].id, catalog.items[m[i].id], similarity, threshold) == Some(m[i])
      {
        if i >= |prev| {
          assert m[i] == last[0];
        } else {
          assert m[i] == prev[i];
        }
      }
    }
  }

  /** The scan yields matches in catalog order. */
  lemma {:induction false} MatchesIncreasing(query: string, catalog: Catalog, n: nat,
                                             similarity: (string, string) -> real, threshold: real)
    requires catalog.Valid() && n <= |catalog.order|
    ensures InCatalogOrder(Matches(query, catalog, n, similarity, threshold), catalog)
  {
    if n > 0 {
      MatchesIncreasing(query, catalog, n - 1, similarity, threshold);
      MatchesSound(query, catalog, n - 1, similarity, threshold);
      LastAtPosition(query, catalog, n, similarity, threshold);
      var id := catalog.order[n - 1];
      var prev := Matches(query, catalog, n - 1, similarity, threshold);
      var last := AsSeq(Classify(query, id, catalog.items[id], similarity, threshold));
      AppendInCatalogOrder(prev, last, catalog, n - 1);
    }
  }

  /** What the n-th entry adds to the scan is at most one result, at its own position. */
  lemma LastAtPosition(query: string, catalog: Catalog, n: nat, similarity: (string, string) -> real, threshold: real)
    requires catalog.Valid() && 0 < n <= |catalog.order|
    ensures var id := catalog.order[n - 1];
      var last := AsSeq(Classify(query, id, catalog.items[id], similarity, threshold));
      |last| <= 1 && forall k :: 0 <= k < |last| ==> Position(catalog.order, last[k].id) == n - 1
  {
    PositionOfEntry(catalog, n - 1);
  }

  /** Appending at most one result from position p keeps catalog order when all earlier ones come before p. */
  lemma AppendInCatalogOrder(prev: seq<SearchResult>, last: seq<SearchResult>, catalog: Catalog, p: nat)
    requires InCatalogOrder(prev, catalog) && AllBefore(prev, catalog, p)
    requires |last| <= 1 && forall k :: 0 <= k < |last| ==> Position(catalog.order, last[k].id) == p
    ensures InCatalogOrder(prev + last, catalog)
  {
    var m := prev + last;
    forall i, j | 0 <= i < j < |m|
      ensures Position(catalog.order, m[i].id) < Position(catalog.order, m[j].id)
    {
      assert m[i] == prev[i];
      if j >= |prev| {
        assert m[j] == last[0];
      } else {
        assert m[j] == prev[j];
      }
    }
  }

  /** Every entry among the first n that classifies to a result is in the scan. */
  lemma {:induction false} MatchesComplete(query: string, catalog: Catalog, n: nat,
                                           similarity: (string, string) -> real, threshold: real, p: nat)
    requires catalog.Valid() && p < n <= |catalog.order|
    requires Classify(query, catalog.order[p], catalog.items[catalog.order[p]], similarity, threshold).Some?
    ensures Classify(query, catalog.order[p], catalog.items[catalog.order[p]], similarity, threshold).value
              in Matches(query, catalog, n, similarity, threshold)
  {
    if p < n - 1 {
      MatchesComplete(query, catalog, n - 1, similarity, threshold, p);
    }
  }

  // ---------------------------------------------------------------------------
  // What search_items promises.

  /**
   * No invented items: every result is a catalog item, carrying exactly
   * the tier, score and fields that item classifies to.
   */
  lemma SearchSound(query: string, catalog: Catalog, similarity: (string, string) -> real, threshold: real)
    requires catalog.Valid()
    ensures AllClassified(Search(query, catalog, similarity, threshold), query, catalog, similarity, threshold)
  {
    var m := Matches(query, catalog, |catalog.order|, similarity, threshold);
    MatchesSound(query, catalog, |catalog.order|, similarity, threshold);
    SortPermutes(m);
    var r := Search(query, catalog, similarity, threshold);
    forall i | 0 <= i < |r|
      ensures r[i].id in catalog.items
      ensures Classify(query, r[i].id, catalog.items[r[i].id], similarity, threshold) == Some(r[i])
    {
      assert r[i] in multiset(m);
      var k :| 0 <= k < |m| && m[k] == r[i];
    }
  }

  /** Nothing is lost: an item that classifies to a result is in the list (the list is not truncated). */
  lemma SearchComplete(query: string, catalog: Catalog, similarity: (string, string) -> real, threshold: real, id: string)
    requires catalog.Valid() && id in catalog.items
    requires Classify(query, id, catalog.items[id], similarity, threshold).Some?
    ensures Classify(query, id, catalog.items[id], similarity, threshold).value in Search(query, catalog, similarity, threshold)
  {
    var m := Matches(query, catalog, |catalog.order|, similarity, threshold);
    var p := Position(catalog.order, id);
    MatchesComplete(query, catalog, |catalog.order|, similarity, threshold, p);
    SortPermutes(m);
    assert Classify(query, id, catalog.items[id], similarity, threshold).value in multiset(m);
  }

  /**
   * Results are ordered by non-increasing score and equal scores keep catalog
   * order; in particular no item appears twice.
   */
  lemma SearchRanked(query: string, catalog: Catalog, similarity: (string, string) -> real, threshold: real)
    requires catalog.Valid()
    ensures var r := Search(query, catalog, similarity, threshold);
      && (forall i, j :: 0 <= i < j < |r| ==>
            r[i].score > r[j].score ||
            (r[i].score == r[j].score && Position(catalog.order, r[i].id) < Position(catalog.order, r[j].id)))
      && (forall i, j :: 0 <= i < j < |r| ==> r[i].id != r[j].id)
  {
    var m := Matches(query, catalog, |catalog.order|, similarity, threshold);
    MatchesIncreasing(query, catalog, |catalog.order|, similarity, threshold);
    var f := (x: SearchResult) => Position(catalog.order, x.id);
    SortRanked(m, f);
    SearchSound(query, catalog, similarity, threshold);
    var r := Search(query, catalog, similarity, threshold);
    forall i, j | 0 <= i < j < |r|
      ensures r[i].score > r[j].score ||
              (r[i].score == r[j].score && Position(catalog.order, r[i].id) < Position(catalog.order, r[j].id))
    {
      assert f(r[i]) == Position(catalog.order, r[i].id);
      assert f(r[j]) == Position(catalog.order, r[j].id);
    }
  }

  /** Exact and partial matches are kept whatever the threshold; fuzzy ones only at or above it. */
  lemma SearchThreshold(query: string, catalog: Catalog, similarity: (string, string) -> real, threshold: real)
    requires catalog.Valid()
    ensures var r := Search(query, catalog, similarity, threshold);
      forall i :: 0 <= i < |r| ==>
        && (r[i].matchType == Exact ==> r[i].score == ExactScore)
        && (r[i].matchType == Partial ==> r[i].score == PartialScore)
        && (r[i].matchType == Fuzzy ==> r[i].score >= threshold)
  {
    SearchSound(query, catalog, similarity, threshold);
    var r := Search(query, catalog, similarity, threshold);
    forall i | 0 <= i < |r| {
      ClassifyTiers(query, r[i].id, catalog.items[r[i].id], similarity, threshold);
    }
  }

  /** With a ratio in [0, 1], every score is in [0, 1]. */
  lemma SearchScoresBounded(query: string, catalog: Catalog, similarity: (string, string) -> real, threshold: real)
    requires catalog.Valid() && IsRatio(similarity)
    ensures var r := Search(query, catalog, similarity, threshold);
      forall i :: 0 <= i < |r| ==> 0.0 <= r[i].score <= 1.0
  {
    SearchSound(query, catalog, similarity, threshold);
    var r := Search(query, catalog, similarity, threshold);
    forall i | 0 <= i < |r| {
      ClassifyTiers(query, r[i].id, catalog.items[r[i].id], similarity, threshold);
    }
  }

  /**
   * Searching for an item's name, in any letter case, yields that item as an
   * exact match with score 1.0, preceded only by other results scoring 1.0.
   */
  lemma ExactNameRanksFirst(query: string, catalog: Catalog, similarity: (string, string) -> real,
                            threshold: real, id: string)
    requires catalog.Valid() && IsRatio(similarity)
    requires id in catalog.items && Lower(query) == Lower(catalog.items[id].name)
    ensures var r := Search(query, catalog, similarity, threshold);
      exists j :: 0 <= j < |r| && r[j].id == id && r[j].matchType == Exact && r[j].score == 1.0 &&
        forall i :: 0 <= i <= j ==> r[i].score == 1.0
  {
    var r := Search(query, catalog, similarity, threshold);
    SearchComplete(query, catalog, similarity, threshold, id);
    SearchDescending(query, catalog, similarity, threshold);
    SearchScoresBounded(query, catalog, similarity, threshold);
    ClassifyTiers(query, id, catalog.items[id], similarity, threshold);
    var x := Classify(query, id, catalog.items[id], similarity, threshold).value;
    var j :| 0 <= j < |r| && r[j] == x;
    assert forall i :: 0 <= i < j ==> r[i].score >= r[j].score;
  }

  /** Scores never increase along the result list. */
  lemma SearchDescending(query: string, catalog: Catalog, similarity: (string, string) -> real, threshold: real)
    requires catalog.Valid()
    ensures var r := Search(query, catalog, similarity, threshold);
      forall i, j :: 0 <= i < j < |r| ==> r[i].score >= r[j].score
  {
    SearchRanked(query, catalog, similarity, threshold);
  }

  /**
   * The result list is empty exactly when no catalog item passes any tier:
   * an unmatched query is an empty list, never an error.
   */
  lemma SearchEmptyIffNothingMatches(query: string, catalog: Catalog, similarity: (string, string) -> real,
                                     threshold: real)
    requires catalog.Valid()
    ensures Search(query, catalog, similarity, threshold) == [] <==>
            forall id :: id in catalog.items ==> Classify(query, id, catalog.items[id], similarity, threshold).None?
  {
    var r := Search(query, catalog, similarity, threshold);
    SearchSound(query, catalog, similarity, threshold);
    if r != [] {
      assert r[0].id in catalog.items && Classify(query, r[0].id, catalog.items[r[0].id], similarity, threshold).Some?;
    }
    forall id | id in catalog.items && Classify(query, id, catalog.items[id], similarity, threshold).Some?
      ensures Classify(query, id, catalog.items[id], similarity, threshold).value in r
    {
      SearchComplete(query, catalog, similarity, threshold, id);
    }
  }

  /**
   * With a ratio that is 1.0 only for equal strings, only exact matches score
   * 1.0, so everything ranked up to the item whose name the query spells is
   * itself an exact match: an item of that same name, ignoring case.
   */
  lemma ExactNameLeads(query: string, catalog: Catalog, similarity: (string, string) -> real,
                       threshold: real, id: string)
    requires catalog.Valid() && IsRatio(similarity) && OneOnlyWhenEqual(similarity)
    requires id in catalog.items && Lower(query) == Lower(catalog.items[id].name)
    ensures var r := Search(query, catalog, similarity, threshold);
      exists j :: 0 <= j < |r| && r[j].id == id && r[j].matchType == Exact &&
        forall i :: 0 <= i <= j ==> r[i].matchType == Exact && Lower(r[i].name) == Lower(query)
  {
    var r := Search(query, catalog, similarity, threshold);
    ExactNameRanksFirst(query, catalog, similarity, threshold, id);
    SearchSound(query, catalog, similarity, threshold);
    var j :| 0 <= j < |r| && r[j].id == id && r[j].matchType == Exact && r[j].score == 1.0 &&
      forall i :: 0 <= i <= j ==> r[i].score == 1.0;
    forall i | 0 <= i <= j
      ensures r[i].matchType == Exact && Lower(r[i].name) == Lower(query)
    {
      ClassifyTiers(query, r[i].id, catalog.items[r[i].id], similarity, threshold);
    }
  }

  /** When names are also distinct ignoring case, the item is the first result. */
  lemma ExactNameFirst(query: string, catalog: Catalog, similarity: (string, string) -> real,
                       threshold: real, id: string)
    requires catalog.Valid() && IsRatio(similarity) && OneOnlyWhenEqual(similarity)
    requires NamesDistinctIgnoringCase(catalog)
    requires id in catalog.items && Lower(query) == Lower(catalog.items[id].name)
    ensures var r := Search(query, catalog, similarity, threshold);
      |r| > 0 && r[0].id == id && r[0].matchType == Exact
  {
    var r := Search(query, catalog, similarity, threshold);
    ExactNameLeads(query, catalog, similarity, threshold, id);
    SearchSound(query, catalog, similarity, threshold);
    assert r[0].id in catalog.items && r[0].name == catalog.items[r[0].id].name;
  }
}
