/** The "Video Ranking" tab and the "Top-Videos" tab (app.py): a copy of the scored table is
    narrowed by up to three filters, each applied only when it is set, and the rows that are
    left are ordered by descending score. The top-20 view orders the whole table and keeps its
    first twenty rows. */
module Ranking {
  import opened Records
  import opened Text
  import opened Scoring

  // ---------------------------------------------------------------------------------------
  // Boolean-mask selection

  /** `frame[mask]`: the rows satisfying `p`, in their original order. */
  function Keep(s: seq<Scored>, p: Scored -> bool): (r: seq<Scored>)
    ensures forall x :: x in r <==> x in s && p(x)
    ensures multiset(r) <= multiset(s)
    ensures |r| <= |s|
  {
    if s == [] then []
    else
      var rest := Keep(s[1..], p);
      assert s == [s[0]] + s[1..];
      if p(s[0]) then [s[0]] + rest else rest
  }

  /** Selection distributes over concatenation: the relative order of the rows is kept. */
  lemma {:induction false} KeepConcat(a: seq<Scored>, b: seq<Scored>, p: Scored -> bool)
    ensures Keep(a + b, p) == Keep(a, p) + Keep(b, p)
  {
    if a == [] {
      assert a + b == b;
    } else {
      assert (a + b)[0] == a[0] && (a + b)[1..] == a[1..] + b;
      KeepConcat(a[1..], b, p);
    }
  }

  /** A mask that holds everywhere selects everything. */
  lemma {:induction false} KeepAll(s: seq<Scored>, p: Scored -> bool)
    requires forall x :: x in s ==> p(x)
    ensures Keep(s, p) == s
  {
    if s != [] {
      assert forall x :: x in s[1..] ==> x in s;
      KeepAll(s[1..], p);
    }
  }

  /** Two successive selections are one selection by both masks. */
  lemma {:induction false} KeepKeep(s: seq<Scored>, p: Scored -> bool, q: Scored -> bool, pq: Scored -> bool)
    requires forall x :: pq(x) == (p(x) && q(x))
    ensures Keep(Keep(s, p), q) == Keep(s, pq)
  {
    if s != [] {
      KeepKeep(s[1..], p, q, pq);
    }
  }

  /** Masks that agree on the elements select the same elements. */
  lemma {:induction false} KeepAgree(s: seq<Scored>, p: Scored -> bool, q: Scored -> bool)
    requires forall x :: x in s ==> p(x) == q(x)
    ensures Keep(s, p) == Keep(s, q)
  {
    if s != [] {
      assert forall x :: x in s[1..] ==> x in s;
      KeepAgree(s[1..], p, q);
    }
  }

  // ---------------------------------------------------------------------------------------
  // The three filters

  /** The three filter widgets: search text, chosen creators, minimum score. */
  datatype Filters = Filters(searchTerm: string, selectedCreators: seq<Value>, minScore: real)

  /** The search filter: inactive for an empty term, otherwise a case-insensitive match
      against the description. */
  predicate SearchPasses(f: Filters, r: Scored) {
    f.searchTerm == [] || ContainsIgnoreCase(r.video.description, f.searchTerm)
  }

  /** The creator filter: inactive when no creator is chosen, otherwise membership. */
  predicate CreatorPasses(f: Filters, r: Scored) {
    f.selectedCreators == [] || r.video.creator in f.selectedCreators
  }

  /** The score filter: inactive unless the minimum is positive, otherwise `score >= min`. */
  predicate ScorePasses(f: Filters, r: Scored) {
    f.minScore <= 0.0 || r.score >= f.minScore
  }

  /** A row survives the filters. */
  predicate Passes(f: Filters, r: Scored) {
    SearchPasses(f, r) && CreatorPasses(f, r) && ScorePasses(f, r)
  }

  /** The masks of the three filters, and of all three together. */
  function SearchMask(f: Filters): Scored -> bool { r => SearchPasses(f, r) }
  function CreatorMask(f: Filters): Scored -> bool { r => CreatorPasses(f, r) }
  function ScoreMask(f: Filters): Scored -> bool { r => ScorePasses(f, r) }
  function SearchAndCreatorMask(f: Filters): Scored -> bool { r => SearchPasses(f, r) && CreatorPasses(f, r) }
  function FilterMask(f: Filters): Scored -> bool { r => Passes(f, r) }

  /** The rows of the ranking tab before ordering. */
  function Filtered(table: seq<Scored>, f: Filters): (r: seq<Scored>)
    ensures forall x :: x in r <==> x in table && Passes(f, x)
  {
    Keep(table, FilterMask(f))
  }

  // ---------------------------------------------------------------------------------------
  // Ordering by score

  predicate SortedDesc(s: seq<Scored>) {
    forall i, j :: 0 <= i < j < |s| ==> s[i].score >= s[j].score
  }

  lemma SortedTail(s: seq<Scored>)
    requires SortedDesc(s) && s != []
    ensures SortedDesc(s[1..])
  {
    assert forall p :: 0 <= p < |s| - 1 ==> s[1..][p] == s[p + 1];
  }

  lemma SortedCons(h: Scored, t: seq<Scored>)
    requires SortedDesc(t) && (t == [] || h.score >= t[0].score)
    ensures SortedDesc([h] + t)
  {
    var s := [h] + t;
    forall i, j | 0 <= i < j < |s| ensures s[i].score >= s[j].score {
      if i == 0 {
        assert s[j] == t[j - 1];
        if j > 1 {
          assert t[0].score >= t[j - 1].score;
        }
      } else {
        assert s[i] == t[i - 1] && s[j] == t[j - 1];
      }
    }
  }

  /** `x` placed into a descending sequence before the first row it is not below. */
  function Insert(x: Scored, s: seq<Scored>): (r: seq<Scored>)
    requires SortedDesc(s)
    ensures SortedDesc(r)
    ensures multiset(r) == multiset(s) + multiset{x}
    ensures |r| == |s| + 1
    ensures r[0].score == if s == [] || x.score >= s[0].score then x.score else s[0].score
  {
    if s == [] then [x]
    else if x.score >= s[0].score then
      SortedCons(x, s);
      [x] + s
    else
      SortedTail(s);
      var rest := Insert(x, s[1..]);
      assert |s| > 1 ==> s[0].score >= s[1].score;
      SortedCons(s[0], rest);
      assert [s[0]] + s[1..] == s;
      [s[0]] + rest
  }

  /** `sort_values(by="success_score", ascending=False)`: the rows by descending score. */
  function SortByScore(s: seq<Scored>): (r: seq<Scored>)
    ensures SortedDesc(r)
    ensures multiset(r) == multiset(s)
    ensures |r| == |s|
  {
    if s == [] then []
    else
      assert s == [s[0]] + s[1..];
      Insert(s[0], SortByScore(s[1..]))
  }

  /** Two descending orderings of the same rows give the same score in every position, so
      whatever order the sort gives to ties, the score column comes out the same. */
  lemma {:induction false} SortedScoresAgree(a: seq<Scored>, b: seq<Scored>)
    requires SortedDesc(a) && SortedDesc(b) && multiset(a) == multiset(b)
    ensures |a| == |b|
    ensures forall k :: 0 <= k < |a| ==> a[k].score == b[k].score
  {
    assert |a| == |multiset(a)| == |multiset(b)| == |b|;
    if a != [] {
      assert a[0] in multiset(b);
      var i :| 0 <= i < |b| && b[i] == a[0];
      HeadsAgree(a, b);
      TailMultiset(a, b, i);
      SortedTail(a);
      SortedScoresAgree(a[1..], RemoveAt(b, i));
      TiesOfHead(b, i);
      ScoresAfterRemoval(a, b, i);
    }
  }

  lemma TailMultiset(a: seq<Scored>, b: seq<Scored>, i: nat)
    requires SortedDesc(b) && multiset(a) == multiset(b) && a != [] && i < |b| && b[i] == a[0]
    ensures multiset(a[1..]) == multiset(RemoveAt(b, i))
  {
    assert a == [a[0]] + a[1..];
  }

  lemma ScoresAfterRemoval(a: seq<Scored>, b: seq<Scored>, i: nat)
    requires SortedDesc(b) && |a| == |b| && i < |b| && a[0].score == b[0].score
    requires forall k :: 0 <= k <= i ==> b[k].score == b[0].score
    requires forall k :: 0 <= k < |a| - 1 ==> a[1..][k].score == RemoveAt(b, i)[k].score
    ensures forall k :: 0 <= k < |a| ==> a[k].score == b[k].score
  {
    var r := RemoveAt(b, i);
    forall k | 1 <= k < |a| ensures a[k].score == b[k].score {
      assert a[k] == a[1..][k - 1];
      if k - 1 < i {
        assert r[k - 1] == b[k - 1];
      } else {
        assert r[k - 1] == b[k];
      }
    }
  }

  /** Descending orderings of the same rows start with the same score, the maximum. */
  lemma HeadsAgree(a: seq<Scored>, b: seq<Scored>)
    requires SortedDesc(a) && SortedDesc(b) && multiset(a) == multiset(b) && a != []
    ensures b != [] && a[0].score == b[0].score
  {
    assert a[0] in multiset(b);
    assert b != [] && b[0] in multiset(a);
    var i :| 0 <= i < |b| && b[i] == a[0];
    var j :| 0 <= j < |a| && a[j] == b[0];
  }

  /** `b` without its element at `i`; still descending. */
  function RemoveAt(b: seq<Scored>, i: nat): (r: seq<Scored>)
    requires SortedDesc(b) && i < |b|
    ensures SortedDesc(r)
    ensures multiset(r) == multiset(b) - multiset{b[i]}
    ensures |r| == |b| - 1
    ensures forall k :: 0 <= k < i ==> r[k] == b[k]
    ensures forall k :: i <= k < |r| ==> r[k] == b[k + 1]
  {
    assert b == b[..i] + [b[i]] + b[i + 1..];
    var r := b[..i] + b[i + 1..];
    assert forall k :: 0 <= k < i ==> r[k] == b[k];
    assert forall k :: i <= k < |r| ==> r[k] == b[k + 1];
    r
  }

  /** In a descending sequence everything up to a tie of the head scores as the head. */
  lemma TiesOfHead(b: seq<Scored>, i: nat)
    requires SortedDesc(b) && i < |b| && b[i].score == b[0].score
    ensures forall k :: 0 <= k <= i ==> b[k].score == b[0].score
  {
  }

  // ---------------------------------------------------------------------------------------
  // The ranking tab

  /** Tab 1: copy the table, apply each filter that is set, order by descending score. */
  method FilterAndRank(table: seq<Scored>, f: Filters) returns (ranked: seq<Scored>)
    ensures SortedDesc(ranked)
    ensures multiset(ranked) == multiset(Filtered(table, f))
  {
    var filtered := table;
    if f.searchTerm != [] {
      filtered := Keep(filtered, (r: Scored) => ContainsIgnoreCase(r.video.description, f.searchTerm));
      KeepAgree(table, (r: Scored) => ContainsIgnoreCase(r.video.description, f.searchTerm), SearchMask(f));
    } else {
      KeepAll(table, SearchMask(f));
    }
    assert filtered == Keep(table, SearchMask(f));
    var afterSearch := filtered;
    if f.selectedCreators != [] {
      filtered := Keep(filtered, (r: Scored) => r.video.creator in f.selectedCreators);
      KeepAgree(afterSearch, (r: Scored) => r.video.creator in f.selectedCreators, CreatorMask(f));
    } else {
      KeepAll(afterSearch, CreatorMask(f));
    }
    KeepKeep(table, SearchMask(f), CreatorMask(f), SearchAndCreatorMask(f));
    assert filtered == Keep(table, SearchAndCreatorMask(f));
    var afterCreators := filtered;
    if f.minScore > 0.0 {
      filtered := Keep(filtered, (r: Scored) => r.score >= f.minScore);
      KeepAgree(afterCreators, (r: Scored) => r.score >= f.minScore, ScoreMask(f));
    } else {
      KeepAll(afterCreators, ScoreMask(f));
    }
    KeepKeep(table, SearchAndCreatorMask(f), ScoreMask(f), FilterMask(f));
    assert filtered == Filtered(table, f);
    ranked := SortByScore(filtered);
  }

  /** The ranked rows are exactly the rows of the table that pass every set filter. */
  lemma RankedMembership(table: seq<Scored>, f: Filters, ranked: seq<Scored>, r: Scored)
    requires multiset(ranked) == multiset(Filtered(table, f))
    ensures r in ranked <==> r in table && Passes(f, r)
  {
    assert r in ranked <==> r in multiset(ranked);
    assert r in Filtered(table, f) <==> r in multiset(Filtered(table, f));
  }

  /** With every filter unset the ranking holds every row of the table. */
  lemma FiltersOffKeepAll(table: seq<Scored>)
    ensures Filtered(table, Filters([], [], 0.0)) == table
  {
    KeepAll(table, FilterMask(Filters([], [], 0.0)));
  }

  /** Each set filter holds for every ranked row. */
  lemma RankedRowsMatch(table: seq<Scored>, f: Filters, r: Scored)
    requires r in Filtered(table, f)
    ensures f.searchTerm != [] ==> ContainsIgnoreCase(r.video.description, f.searchTerm)
    ensures f.selectedCreators != [] ==> r.video.creator in f.selectedCreators
    ensures f.minScore > 0.0 ==> r.score >= f.minScore
  {
  }

  /** Choosing creators none of whose videos are in the table leaves nothing. */
  lemma UnknownCreatorsLeaveNothing(table: seq<Scored>, f: Filters)
    requires f.selectedCreators != []
    requires forall r :: r in table ==> r.video.creator !in f.selectedCreators
    ensures Filtered(table, f) == []
  {
    var kept := Filtered(table, f);
    assert forall k :: 0 <= k < |kept| ==> kept[k] in kept;
  }

  /** A larger minimum score keeps a subset of the rows, also when the smaller one is 0 and
      the score filter is off. */
  lemma RaisingMinimumNarrows(table: seq<Scored>, f: Filters, g: Filters, r: Scored)
    requires f.searchTerm == g.searchTerm && f.selectedCreators == g.selectedCreators
    requires f.minScore <= g.minScore
    requires r in Filtered(table, g)
    ensures r in Filtered(table, f)
  {
  }

  // ---------------------------------------------------------------------------------------
  // The top-20 tab

  const TopCount: nat := 20

  /** `sort_values(by="success_score", ascending=False).head(20)` on the unfiltered table. */
  function TopVideos(table: seq<Scored>): (top: seq<Scored>)
    ensures |top| == if |table| < TopCount then |table| else TopCount
    ensures SortedDesc(top)
    ensures multiset(top) <= multiset(table)
    ensures forall t, r :: t in top && r in multiset(table) - multiset(top) ==> t.score >= r.score
  {
    var sorted := SortByScore(table);
    var n := if |table| < TopCount then |table| else TopCount;
    SplitSorted(sorted, n);
    sorted[..n]
  }

  /** Cutting a descending sequence at `n`: both parts are rows of it, the head stays
      descending and scores at least as high as every row of the rest. */
  lemma SplitSorted(s: seq<Scored>, n: nat)
    requires SortedDesc(s) && n <= |s|
    ensures SortedDesc(s[..n])
    ensures multiset(s[..n]) + multiset(s[n..]) == multiset(s)
    ensures forall t, r :: t in s[..n] && r in s[n..] ==> t.score >= r.score
  {
    assert s == s[..n] + s[n..];
    forall t, r | t in s[..n] && r in s[n..] ensures t.score >= r.score {
      var i :| 0 <= i < n && s[..n][i] == t;
      var j :| 0 <= j < |s| - n && s[n..][j] == r;
      assert s[i] == t && s[n + j] == r;
    }
  }

  /** A table of at most twenty rows is shown whole. */
  lemma SmallTableShownWhole(table: seq<Scored>)
    requires |table| <= TopCount
    ensures multiset(TopVideos(table)) == multiset(table)
  {
    var top := TopVideos(table);
    assert |multiset(top)| == |top| == |table| == |multiset(table)|;
    MultisetSubsetSameSize(multiset(top), multiset(table));
  }

  lemma MultisetSubsetSameSize<T>(a: multiset<T>, b: multiset<T>)
    requires a <= b && |a| == |b|
    ensures a == b
  {
    var d := b - a;
    assert b == a + d;
    assert |d| == 0;
  }
}
