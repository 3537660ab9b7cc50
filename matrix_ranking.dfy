/**
 * The ranking built on the scoring engine: every catalog city is scored, then the
 * list is sorted by descending rounded score with `Array.prototype.sort`, which is
 * stable, so cities with equal scores keep their catalog order. The comparison
 * panel shows the ranked cities whose names are selected.
 */
module MatrixRanking {
  import opened MatrixScoring
  import opened JsObject

  /** Non-increasing in `score`. */
  predicate SortedByScore(s: seq<RankedCity>) {
    forall i, j :: 0 <= i < j < |s| ==> s[i].score >= s[j].score
  }

  /** The cities of `s` with score `v`, in their order in `s`. */
  function WithScore(s: seq<RankedCity>, v: int): (t: seq<RankedCity>)
    ensures |t| <= |s|
  {
    if s == [] then []
    else (if s[0].score == v then [s[0]] else []) + WithScore(s[1..], v)
  }

  /**
   * One step of a stable sort by `b.score - a.score`: `x`, coming after every
   * element of `s` in the input, goes after all of them whose score is at least its own.
   */
  function Insert(x: RankedCity, s: seq<RankedCity>): (t: seq<RankedCity>)
    ensures |t| == |s| + 1
  {
    if s == [] then [x]
    else if s[0].score >= x.score then [s[0]] + Insert(x, s[1..])
    else [x] + s
  }

  /** `.sort((a, b) => b.score - a.score)`, as the stable sort the language guarantees. */
  function SortByScore(s: seq<RankedCity>): (t: seq<RankedCity>)
    ensures |t| == |s|
    decreases |s|
  {
    if s == [] then []
    else Insert(s[|s| - 1], SortByScore(s[..|s| - 1]))
  }

  // ----- The filter by score -----

  lemma {:induction false} WithScoreAppend(a: seq<RankedCity>, b: seq<RankedCity>, v: int)
    ensures WithScore(a + b, v) == WithScore(a, v) + WithScore(b, v)
  {
    if a != [] {
      assert (a + b)[0] == a[0] && (a + b)[1..] == a[1..] + b;
      WithScoreAppend(a[1..], b, v);
      FilterTail(a + b, v);
      FilterTail(a, v);
      var h := if a[0].score == v then [a[0]] else [];
      assert WithScore(a + b, v) == h + (WithScore(a[1..], v) + WithScore(b, v));
    } else {
      assert a + b == b;
    }
  }

  /** The filter keeps exactly the elements of score `v`. */
  lemma {:induction false} WithScoreMembers(s: seq<RankedCity>, v: int, x: RankedCity)
    ensures x in WithScore(s, v) <==> x in s && x.score == v
  {
    if s != [] {
      WithScoreMembers(s[1..], v, x);
      assert s == [s[0]] + s[1..];
    }
  }

  /** Nothing passes the filter when no element has the score. */
  lemma {:induction false} WithScoreEmpty(s: seq<RankedCity>, v: int)
    requires forall i :: 0 <= i < |s| ==> s[i].score != v
    ensures WithScore(s, v) == []
  {
    if s != [] {
      WithScoreEmpty(s[1..], v);
    }
  }

  /** In a list sorted by score, no element scores above the first. */
  lemma SortedHead(s: seq<RankedCity>, x: RankedCity)
    requires SortedByScore(s) && x in s
    ensures s[0].score >= x.score
  {
  }

  // ----- Insertion -----

  lemma {:induction false} InsertSorted(x: RankedCity, s: seq<RankedCity>)
    requires SortedByScore(s)
    ensures SortedByScore(Insert(x, s))
  {
    if s != [] && s[0].score >= x.score {
      InsertSorted(x, s[1..]);
      InsertMultiset(x, s[1..]);
      var t := Insert(x, s[1..]);
      forall y | y in t ensures s[0].score >= y.score {
        assert y in multiset(t);
      }
      assert Insert(x, s) == [s[0]] + t;
    }
  }

  lemma {:induction false} InsertMultiset(x: RankedCity, s: seq<RankedCity>)
    ensures multiset(Insert(x, s)) == multiset(s) + multiset{x}
  {
    if s != [] && s[0].score >= x.score {
      InsertMultiset(x, s[1..]);
      assert s == [s[0]] + s[1..];
    }
  }

  /** Inserting `x` into a sorted list appends it to the cities of its own score. */
  lemma {:induction false} InsertWithScore(x: RankedCity, s: seq<RankedCity>, v: int)
    requires SortedByScore(s)
    ensures WithScore(Insert(x, s), v) == WithScore(s, v) + (if x.score == v then [x] else [])
  {
    if s == [] {
    } else if s[0].score >= x.score {
      var t := Insert(x, s[1..]);
      assert Insert(x, s) == [s[0]] + t;
      InsertWithScore(x, s[1..], v);
      FilterTail([s[0]] + t, v);
      assert ([s[0]] + t)[1..] == t;
      FilterTail(s, v);
    } else {
      assert Insert(x, s) == [x] + s;
      FilterTail([x] + s, v);
      assert ([x] + s)[1..] == s;
      if x.score == v {
        WithScoreEmpty(s, v);
      }
    }
  }

  // ----- The sort -----

  lemma {:induction false} SortSorted(s: seq<RankedCity>)
    ensures SortedByScore(SortByScore(s))
    decreases |s|
  {
    if s != [] {
      SortSorted(s[..|s| - 1]);
      InsertSorted(s[|s| - 1], SortByScore(s[..|s| - 1]));
    }
  }

  /** The sorted list is a permutation of the input. */
  lemma {:induction false} SortPermutation(s: seq<RankedCity>)
    ensures multiset(SortByScore(s)) == multiset(s)
    decreases |s|
  {
    if s != [] {
      var init := s[..|s| - 1];
      SortPermutation(init);
      InsertMultiset(s[|s| - 1], SortByScore(init));
      assert s == init + [s[|s| - 1]];
    }
  }

  /** Stability: the cities of any one score appear in their input order. */
  lemma {:induction false} SortStable(s: seq<RankedCity>, v: int)
    ensures WithScore(SortByScore(s), v) == WithScore(s, v)
    decreases |s|
  {
    if s != [] {
      var init, last := s[..|s| - 1], s[|s| - 1];
      SortStable(init, v);
      SortSorted(init);
      InsertWithScore(last, SortByScore(init), v);
      assert s == init + [last];
      WithScoreAppend(init, [last], v);
    }
  }

  /**
   * Sortedness and stability pin the result down: any list sorted by score whose
   * per-score filters are those of `s` is `SortByScore(s)`.
   */
  lemma SortUnique(s: seq<RankedCity>, t: seq<RankedCity>)
    requires SortedByScore(t)
    requires forall v :: WithScore(t, v) == WithScore(s, v)
    ensures t == SortByScore(s)
  {
    SortSorted(s);
    forall v ensures WithScore(t, v) == WithScore(SortByScore(s), v) {
      SortStable(s, v);
    }
    SortedFiltersDetermine(t, SortByScore(s));
  }

  /** Two lists sorted by score with the same per-score filters are equal. */
  lemma {:induction false} SortedFiltersDetermine(a: seq<RankedCity>, b: seq<RankedCity>)
    requires SortedByScore(a) && SortedByScore(b)
    requires forall v :: WithScore(a, v) == WithScore(b, v)
    ensures a == b
    decreases |a|
  {
    HeadInFilter(a);
    HeadInFilter(b);
    if a != [] {
      var v0 := a[0].score;
      WithScoreMembers(a, v0, a[0]);
      WithScoreMembers(b, v0, a[0]);
      WithScoreMembers(b, b[0].score, b[0]);
      WithScoreMembers(a, b[0].score, b[0]);
      SortedHead(b, a[0]);
      SortedHead(a, b[0]);
      assert b[0].score == v0;
      FilterHead(a, v0);
      FilterHead(b, v0);
      assert WithScore(a, v0)[0] == a[0] && WithScore(b, v0)[0] == b[0];
      forall v ensures WithScore(a[1..], v) == WithScore(b[1..], v) {
        var h := if v == v0 then [a[0]] else [];
        FilterTail(a, v);
        FilterTail(b, v);
        assert WithScore(a, v)[|h|..] == WithScore(a[1..], v);
        assert WithScore(b, v)[|h|..] == WithScore(b[1..], v);
      }
      SortedFiltersDetermine(a[1..], b[1..]);
      assert a == [a[0]] + a[1..] && b == [b[0]] + b[1..];
    }
  }

  /** A non-empty list has something of its first element's score. */
  lemma HeadInFilter(s: seq<RankedCity>)
    ensures s != [] ==> WithScore(s, s[0].score) != []
  {
  }

  lemma FilterHead(s: seq<RankedCity>, v: int)
    requires s != [] && s[0].score == v
    ensures WithScore(s, v) == [s[0]] + WithScore(s[1..], v)
  {
  }

  lemma FilterTail(s: seq<RankedCity>, v: int)
    requires s != []
    ensures WithScore(s, v) == (if s[0].score == v then [s[0]] else []) + WithScore(s[1..], v)
  {
  }

  // ----- Ranking -----

  /** The scoring callback mapped over the catalog. */
  function ScoreAll(table: MultiplierTable, nationality: string, weights: Record,
                    catalog: seq<City>): (s: seq<RankedCity>)
    ensures |s| == |catalog|
    ensures forall i :: 0 <= i < |catalog| ==> s[i] == Scored(table, nationality, weights, catalog[i])
  {
    seq(|catalog|, i requires 0 <= i < |catalog| => Scored(table, nationality, weights, catalog[i]))
  }

  /**
   * `rankedCities`: score every catalog city, then sort by descending score. The
   * result is sorted, a permutation of the scored catalog, and keeps catalog order
   * among equal scores; each entry is a catalog city with its own fields copied.
   */
  method RankCities(table: MultiplierTable, nationality: string, weights: Record, catalog: seq<City>)
    returns (ranked: seq<RankedCity>)
    ensures ranked == SortByScore(ScoreAll(table, nationality, weights, catalog))
    ensures SortedByScore(ranked)
    ensures multiset(ranked) == multiset(ScoreAll(table, nationality, weights, catalog))
    ensures forall v :: WithScore(ranked, v) == WithScore(ScoreAll(table, nationality, weights, catalog), v)
    ensures forall r :: r in ranked ==> exists c :: c in catalog && r == Scored(table, nationality, weights, c)
  {
    var scored: seq<RankedCity> := [];
    for i := 0 to |catalog|
      invariant |scored| == i
      invariant forall j :: 0 <= j < i ==> scored[j] == Scored(table, nationality, weights, catalog[j])
    {
      var rc := ScoreCity(table, nationality, weights, catalog[i]);
      scored := scored + [rc];
    }
    assert scored == ScoreAll(table, nationality, weights, catalog);
    ranked := SortByScore(scored);
    SortSorted(scored);
    SortPermutation(scored);
    forall v ensures WithScore(ranked, v) == WithScore(scored, v) {
      SortStable(scored, v);
    }
    forall r | r in ranked ensures exists c :: c in catalog && r == Scored(table, nationality, weights, c) {
      assert r in multiset(scored);
      var j :| 0 <= j < |scored| && scored[j] == r;
      assert catalog[j] in catalog;
    }
  }

  // ----- The comparison panel -----

  /** `rankedCities.filter(city => selectedCities.includes(city.name))` */
  function Compared(ranked: seq<RankedCity>, selected: seq<string>): (t: seq<RankedCity>)
    ensures |t| <= |ranked|
  {
    if ranked == [] then []
    else (if ranked[0].name in selected then [ranked[0]] else []) + Compared(ranked[1..], selected)
  }

  /** A city is compared exactly when it is ranked and its name is selected. */
  lemma {:induction false} ComparedMembers(ranked: seq<RankedCity>, selected: seq<string>, c: RankedCity)
    ensures c in Compared(ranked, selected) <==> c in ranked && c.name in selected
  {
    if ranked != [] {
      ComparedMembers(ranked[1..], selected, c);
      assert ranked == [ranked[0]] + ranked[1..];
    }
  }

  /** The comparison panel lists the selected cities in ranked order, best first. */
  lemma {:induction false} ComparedSorted(ranked: seq<RankedCity>, selected: seq<string>)
    requires SortedByScore(ranked)
    ensures SortedByScore(Compared(ranked, selected))
  {
    if ranked != [] {
      var rest := Compared(ranked[1..], selected);
      ComparedSorted(ranked[1..], selected);
      forall c | c in rest ensures ranked[0].score >= c.score {
        ComparedMembers(ranked[1..], selected, c);
      }
    }
  }

  /**
   * The panel keeps the ranking's order among equal scores too: the panel's cities of
   * any one score are the ranking's cities of that score, filtered by the selection.
   */
  lemma {:induction false} ComparedWithScore(ranked: seq<RankedCity>, selected: seq<string>, v: int)
    ensures WithScore(Compared(ranked, selected), v) == Compared(WithScore(ranked, v), selected)
  {
    if ranked != [] {
      var r0, rest := ranked[0], ranked[1..];
      var a := if r0.name in selected then [r0] else [];
      var b := if r0.score == v then [r0] else [];
      assert Compared(ranked, selected) == a + Compared(rest, selected);
      WithScoreAppend(a, Compared(rest, selected), v);
      ComparedWithScore(rest, selected, v);
      FilterTail(ranked, v);
      ComparedAppend(b, WithScore(rest, v), selected);
      assert WithScore(a, v) == Compared(b, selected) by {
        if a != [] { FilterTail(a, v); assert a[1..] == []; }
        if b != [] { assert b[1..] == []; }
      }
    }
  }

  /** The panel's filter distributes over a split of the list. */
  lemma {:induction false} ComparedAppend(a: seq<RankedCity>, b: seq<RankedCity>, selected: seq<string>)
    ensures Compared(a + b, selected) == Compared(a, selected) + Compared(b, selected)
  {
    if a == [] {
      assert a + b == b;
    } else {
      assert (a + b)[0] == a[0] && (a + b)[1..] == a[1..] + b;
      ComparedAppend(a[1..], b, selected);
    }
  }

  /** The order of the selection plays no part: the panel follows the ranking. */
  lemma {:induction false} ComparedSelectionOrder(ranked: seq<RankedCity>, s1: seq<string>, s2: seq<string>)
    requires forall n :: n in s1 <==> n in s2
    ensures Compared(ranked, s1) == Compared(ranked, s2)
  {
    if ranked != [] {
      ComparedSelectionOrder(ranked[1..], s1, s2);
    }
  }
}
