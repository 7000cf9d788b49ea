/**
 * The ranker: scores every posting of the catalog, sorts the results in place
 * by the chosen key, largest first and stable for ties, and counts the
 * results with a high match.
 */
module Ranking {
  import opened Wrappers
  import opened JobData
  import opened Scoring
  import JobCard

  /** A result scoring at least this much is a high match. */
  const HighMatchThreshold: int := 60

  /** The three keys the sort menu offers. */
  datatype SortField = ByScore | BySalaryMax | ByPostedDate

  /** 'match', 'salary' and 'recent' select a sort; any other value selects none. */
  function FieldFor(sortBy: string): Option<SortField>
  {
    if sortBy == "match" then Some(ByScore)
    else if sortBy == "salary" then Some(BySalaryMax)
    else if sortBy == "recent" then Some(ByPostedDate)
    else None
  }

  /**
   * The number the comparator subtracts. A NaN score would make the
   * comparator inconsistent; sorting by score is only used where every score
   * is a number, and 0 stands in for NaN here to keep the key total.
   */
  function Key(f: SortField, r: MatchResult): int
  {
    match f
    case ByScore => if r.score.Num? then r.score.value else 0
    case BySalaryMax => r.job.salary.max
    case ByPostedDate => DateKey(r.job.postedDate)
  }

  /** Keys never increase from left to right. */
  ghost predicate SortedDesc(s: seq<MatchResult>, f: SortField)
  {
    forall i, j :: 0 <= i < j < |s| ==> Key(f, s[i]) >= Key(f, s[j])
  }

  /**
   * Places `x` after the last element of `s` whose key is at least its own,
   * moving past, from the right, every element with a smaller key.
   */
  function Insert(s: seq<MatchResult>, x: MatchResult, f: SortField): (r: seq<MatchResult>)
    ensures |r| == |s| + 1
  {
    if |s| == 0 then [x]
    else if Key(f, s[|s| - 1]) >= Key(f, x) then s + [x]
    else Insert(s[..|s| - 1], x, f) + [s[|s| - 1]]
  }

  /** Insertion sort, descending and stable: the order `Array.prototype.sort` produces. */
  function StableSort(s: seq<MatchResult>, f: SortField): (r: seq<MatchResult>)
    ensures |r| == |s|
  {
    if |s| == 0 then []
    else Insert(StableSort(s[..|s| - 1], f), s[|s| - 1], f)
  }

  /** The elements of `s` whose key is `k`, in the order of `s`. */
  function WithKey(s: seq<MatchResult>, f: SortField, k: int): seq<MatchResult>
  {
    if |s| == 0 then []
    else
      var last := if Key(f, s[|s| - 1]) == k then [s[|s| - 1]] else [];
      WithKey(s[..|s| - 1], f, k) + last
  }

  // ---------------------------------------------------------------------
  // The sort is a permutation, ordered, and stable
  // ---------------------------------------------------------------------

  lemma {:induction false} InsertPermutation(s: seq<MatchResult>, x: MatchResult, f: SortField)
    ensures multiset(Insert(s, x, f)) == multiset(s) + multiset{x}
  {
    if |s| > 0 && Key(f, s[|s| - 1]) < Key(f, x) {
      var init, last := s[..|s| - 1], s[|s| - 1];
      InsertPermutation(init, x, f);
      assert s == init + [last];
    }
  }

  /** Insert keeps a lower bound that `s` and `x` share. */
  lemma {:induction false} InsertKeysAtLeast(s: seq<MatchResult>, x: MatchResult, f: SortField, lo: int)
    requires forall i :: 0 <= i < |s| ==> Key(f, s[i]) >= lo
    requires Key(f, x) >= lo
    ensures forall i :: 0 <= i < |Insert(s, x, f)| ==> Key(f, Insert(s, x, f)[i]) >= lo
  {
    if |s| > 0 && Key(f, s[|s| - 1]) < Key(f, x) {
      var init := s[..|s| - 1];
      InsertKeysAtLeast(init, x, f, lo);
    }
  }

  lemma {:induction false} InsertSorted(s: seq<MatchResult>, x: MatchResult, f: SortField)
    requires SortedDesc(s, f)
    ensures SortedDesc(Insert(s, x, f), f)
  {
    if |s| > 0 && Key(f, s[|s| - 1]) < Key(f, x) {
      var init, last := s[..|s| - 1], s[|s| - 1];
      assert SortedDesc(init, f);
      InsertSorted(init, x, f);
      InsertKeysAtLeast(init, x, f, Key(f, last));
      var t := Insert(init, x, f);
      assert Insert(s, x, f) == t + [last];
    }
  }

  lemma {:induction false} StableSortPermutation(s: seq<MatchResult>, f: SortField)
    ensures multiset(StableSort(s, f)) == multiset(s)
  {
    if |s| > 0 {
      var init, last := s[..|s| - 1], s[|s| - 1];
      var sorted := StableSort(init, f);
      assert StableSort(s, f) == Insert(sorted, last, f);
      StableSortPermutation(init, f);
      InsertPermutation(sorted, last, f);
      assert s == init + [last];
      assert multiset(s) == multiset(init) + multiset{last};
    }
  }

  lemma {:induction false} StableSortSorted(s: seq<MatchResult>, f: SortField)
    ensures SortedDesc(StableSort(s, f), f)
  {
    if |s| > 0 {
      StableSortSorted(s[..|s| - 1], f);
      InsertSorted(StableSort(s[..|s| - 1], f), s[|s| - 1], f);
    }
  }

  lemma {:induction false} WithKeyAppend(s: seq<MatchResult>, t: seq<MatchResult>, f: SortField, k: int)
    ensures WithKey(s + t, f, k) == WithKey(s, f, k) + WithKey(t, f, k)
  {
    if |t| == 0 {
      assert s + t == s;
    } else {
      var init, last := t[..|t| - 1], t[|t| - 1];
      WithKeyAppend(s, init, f, k);
      assert (s + t)[..|s + t| - 1] == s + init;
    }
  }

  lemma {:induction false} InsertWithKey(s: seq<MatchResult>, x: MatchResult, f: SortField, k: int)
    ensures WithKey(Insert(s, x, f), f, k) == WithKey(s, f, k) + WithKey([x], f, k)
  {
    if |s| == 0 {
      assert Insert(s, x, f) == [x];
    } else if Key(f, s[|s| - 1]) >= Key(f, x) {
      WithKeyAppend(s, [x], f, k);
    } else {
      var init, last := s[..|s| - 1], s[|s| - 1];
      InsertWithKey(init, x, f, k);
      WithKeyAppend(Insert(init, x, f), [last], f, k);
      WithKeyAppend(init, [last], f, k);
      assert s == init + [last];
      assert WithKey([], f, k) == [];
      assert [last][..0] == [] && [x][..0] == [];
    }
  }

  /** Elements with equal keys keep their relative order: the sort is stable. */
  lemma {:induction false} StableSortWithKey(s: seq<MatchResult>, f: SortField, k: int)
    ensures WithKey(StableSort(s, f), f, k) == WithKey(s, f, k)
  {
    if |s| > 0 {
      var init, last := s[..|s| - 1], s[|s| - 1];
      var sorted := StableSort(init, f);
      assert StableSort(s, f) == Insert(sorted, last, f);
      StableSortWithKey(init, f, k);
      InsertWithKey(sorted, last, f, k);
      assert s == init + [last];
      WithKeyAppend(init, [last], f, k);
    }
  }

  // ---------------------------------------------------------------------
  // The in-place sort
  // ---------------------------------------------------------------------

  /** `results.sort(...)` with a descending comparator on the key of `f`, stable. */
  method SortResults(a: array<MatchResult>, f: SortField)
    modifies a
    ensures a[..] == StableSort(old(a[..]), f)
  {
    ghost var input := a[..];
    var i := 0;
    while i < a.Length
      invariant 0 <= i <= a.Length
      invariant a[..] == StableSort(input[..i], f) + input[i..]
    {
      SortPrefixStep(input, i, f);
      InsertInPlace(a, i, f);
      i := i + 1;
    }
    assert input[..a.Length] == input;
  }

  /** Sorting one more element of the input inserts it into the sorted prefix. */
  lemma SortPrefixStep(input: seq<MatchResult>, i: nat, f: SortField)
    requires i < |input|
    ensures (StableSort(input[..i], f) + input[i..])[..i] == StableSort(input[..i], f)
    ensures (StableSort(input[..i], f) + input[i..])[i] == input[i]
    ensures (StableSort(input[..i], f) + input[i..])[i + 1..] == input[i + 1..]
    ensures Insert(StableSort(input[..i], f), input[i], f) == StableSort(input[..i + 1], f)
  {
    assert input[..i + 1][..i] == input[..i];
  }

  /** Moves `a[i]` left into the sorted prefix `a[..i]`, past every element with a smaller key. */
  method InsertInPlace(a: array<MatchResult>, i: nat, f: SortField)
    requires i < a.Length
    modifies a
    ensures a[..] == Insert(old(a[..i]), old(a[i]), f) + old(a[i + 1..])
  {
    ghost var sorted := a[..i];
    ghost var rest := a[i + 1..];
    var x := a[i];
    var j := i;
    while j > 0 && Key(f, a[j - 1]) < Key(f, x)
      invariant 0 <= j <= i
      invariant forall k :: 0 <= k < j ==> a[k] == sorted[k]
      invariant a[j] == x
      invariant forall k :: j < k <= i ==> a[k] == sorted[k - 1]
      invariant forall k :: i < k < a.Length ==> a[k] == rest[k - i - 1]
      invariant forall k :: j <= k < i ==> Key(f, sorted[k]) < Key(f, x)
    {
      a[j - 1], a[j] := a[j], a[j - 1];
      j := j - 1;
    }
    Assemble(a[..], sorted, x, rest, j);
    InsertAt(sorted, x, f, j);
  }

  /** The array after the inner loop, read as a sequence. */
  lemma Assemble(cur: seq<MatchResult>, sorted: seq<MatchResult>, x: MatchResult, rest: seq<MatchResult>, j: nat)
    requires j <= |sorted| && |cur| == |sorted| + 1 + |rest|
    requires forall k :: 0 <= k < j ==> cur[k] == sorted[k]
    requires cur[j] == x
    requires forall k :: j < k <= |sorted| ==> cur[k] == sorted[k - 1]
    requires forall k :: |sorted| < k < |cur| ==> cur[k] == rest[k - |sorted| - 1]
    ensures cur == sorted[..j] + [x] + sorted[j..] + rest
  {
    var whole := sorted[..j] + [x] + sorted[j..] + rest;
    forall k | 0 <= k < |cur| ensures cur[k] == whole[k] {
      if k < j {
      } else if k == j {
      } else if k <= |sorted| {
        assert whole[k] == sorted[j..][k - j - 1];
      } else {
        assert whole[k] == rest[k - |sorted| - 1];
      }
    }
  }

  /**
   * Insert puts `x` right after the last element whose key is at least its
   * own, when every element after that one has a smaller key.
   */
  lemma {:induction false} InsertAt(sorted: seq<MatchResult>, x: MatchResult, f: SortField, j: nat)
    requires j <= |sorted|
    requires j == 0 || Key(f, sorted[j - 1]) >= Key(f, x)
    requires forall k :: j <= k < |sorted| ==> Key(f, sorted[k]) < Key(f, x)
    ensures Insert(sorted, x, f) == sorted[..j] + [x] + sorted[j..]
  {
    if j < |sorted| {
      var init, last := sorted[..|sorted| - 1], sorted[|sorted| - 1];
      assert j > 0 ==> init[j - 1] == sorted[j - 1];
      InsertAt(init, x, f, j);
      assert init[..j] == sorted[..j];
      assert init[j..] + [last] == sorted[j..];
    } else {
      assert sorted[..j] == sorted;
    }
  }

  // ---------------------------------------------------------------------
  // The ranking
  // ---------------------------------------------------------------------

  /** One `{job, score}` per posting, in catalog order. */
  function CatalogResults(p: CandidateProfile, jobs: seq<JobPosting>): (rs: seq<MatchResult>)
    ensures |rs| == |jobs|
    ensures forall i :: 0 <= i < |jobs| ==> rs[i] == MatchResult(jobs[i], MatchScore(p, jobs[i]))
  {
    seq(|jobs|, i requires 0 <= i < |jobs| => MatchResult(jobs[i], MatchScore(p, jobs[i])))
  }

  /** What `runJobMatching(sortBy)` displays, in display order. */
  function Rank(p: CandidateProfile, jobs: seq<JobPosting>, sortBy: string): (r: seq<MatchResult>)
    ensures |r| == |jobs|
  {
    match FieldFor(sortBy)
    case None => CatalogResults(p, jobs)
    case Some(f) => StableSort(CatalogResults(p, jobs), f)
  }

  predicate IsHighMatch(r: MatchResult)
  {
    r.score.Num? && r.score.value >= HighMatchThreshold
  }

  /** `results.filter(r => r.score >= 60).length`; a NaN score is not >= 60. */
  function HighMatchCount(rs: seq<MatchResult>): nat
  {
    if |rs| == 0 then 0
    else
      var last := if IsHighMatch(rs[|rs| - 1]) then 1 else 0;
      HighMatchCount(rs[..|rs| - 1]) + last
  }

  /**
   * runJobMatching without the rendering: scores every posting into a fresh
   * array, sorts it in place when the key is known, then counts the high
   * matches. Sorting by score needs numeric scores, which a profile whose
   * salary range is not a single point guarantees (`ScoresAreNumbers`).
   */
  method RunJobMatching(p: CandidateProfile, jobs: seq<JobPosting>, sortBy: string)
    returns (ranked: seq<MatchResult>, highMatchCount: nat)
    requires sortBy == "match" ==> forall i :: 0 <= i < |jobs| ==> MatchScore(p, jobs[i]).Num?
    ensures ranked == Rank(p, jobs, sortBy)
    ensures highMatchCount == HighMatchCount(ranked)
  {
    var results := new MatchResult[|jobs|];
    var i := 0;
    while i < |jobs|
      invariant 0 <= i <= |jobs|
      invariant forall k :: 0 <= k < i ==> results[k] == MatchResult(jobs[k], MatchScore(p, jobs[k]))
    {
      var score := CalculateMatchScore(p, jobs[i]);
      results[i] := MatchResult(jobs[i], score);
      i := i + 1;
    }
    assert results[..] == CatalogResults(p, jobs);

    if sortBy == "match" {
      SortResults(results, ByScore);
    } else if sortBy == "salary" {
      SortResults(results, BySalaryMax);
    } else if sortBy == "recent" {
      SortResults(results, ByPostedDate);
    }

    ranked := results[..];
    highMatchCount := HighMatchCount(ranked);
  }

  // ---------------------------------------------------------------------
  // Properties of the ranking
  // ---------------------------------------------------------------------

  /** A profile range that is not a single point gives every posting a numeric score. */
  lemma ScoresAreNumbers(p: CandidateProfile, jobs: seq<JobPosting>)
    requires p.salaryRange.min != p.salaryRange.max
    ensures forall i :: 0 <= i < |jobs| ==> MatchScore(p, jobs[i]).Num?
  {
    forall i | 0 <= i < |jobs| ensures MatchScore(p, jobs[i]).Num? {
      ScoreIsNaNIff(p, jobs[i]);
    }
  }

  /**
   * Exactly one result per posting: the ranking is a permutation of the
   * catalog results, and every result carries its own posting's score.
   */
  lemma RankIsPermutation(p: CandidateProfile, jobs: seq<JobPosting>, sortBy: string)
    ensures multiset(Rank(p, jobs, sortBy)) == multiset(CatalogResults(p, jobs))
    ensures |Rank(p, jobs, sortBy)| == |jobs|
    ensures forall r :: r in Rank(p, jobs, sortBy) ==> r.score == MatchScore(p, r.job)
  {
    var rs := CatalogResults(p, jobs);
    if FieldFor(sortBy).Some? {
      StableSortPermutation(rs, FieldFor(sortBy).value);
    }
    var ranked := Rank(p, jobs, sortBy);
    assert |multiset(ranked)| == |multiset(rs)|;
    forall r | r in ranked ensures r.score == MatchScore(p, r.job) {
      assert r in multiset(ranked);
      assert r in multiset(rs);
      var i :| 0 <= i < |rs| && rs[i] == r;
    }
  }

  /** Any key other than the three leaves catalog order. */
  lemma RankOtherKeyIsCatalogOrder(p: CandidateProfile, jobs: seq<JobPosting>, sortBy: string)
    requires sortBy != "match" && sortBy != "salary" && sortBy != "recent"
    ensures Rank(p, jobs, sortBy) == CatalogResults(p, jobs)
  {
  }

  /** 'match' orders by score, largest first; every score is then a number. */
  lemma RankByMatchOrdered(p: CandidateProfile, jobs: seq<JobPosting>)
    requires forall i :: 0 <= i < |jobs| ==> MatchScore(p, jobs[i]).Num?
    ensures forall i :: 0 <= i < |jobs| ==> Rank(p, jobs, "match")[i].score.Num?
    ensures forall i, j :: 0 <= i < j < |jobs| ==>
      Rank(p, jobs, "match")[i].score.value >= Rank(p, jobs, "match")[j].score.value
  {
    var ranked := Rank(p, jobs, "match");
    RankIsPermutation(p, jobs, "match");
    StableSortSorted(CatalogResults(p, jobs), ByScore);
    var rs := CatalogResults(p, jobs);
    forall i | 0 <= i < |jobs| ensures ranked[i].score.Num? {
      assert ranked[i] in multiset(ranked);
      assert ranked[i] in multiset(rs);
      var k :| 0 <= k < |rs| && rs[k] == ranked[i];
    }
    forall i, j | 0 <= i < j < |jobs|
      ensures ranked[i].score.value >= ranked[j].score.value
    {
      assert Key(ByScore, ranked[i]) >= Key(ByScore, ranked[j]);
    }
  }

  /** 'salary' orders by the top of the salary range, largest first. */
  lemma RankBySalaryOrdered(p: CandidateProfile, jobs: seq<JobPosting>)
    ensures forall i, j :: 0 <= i < j < |jobs| ==>
      Rank(p, jobs, "salary")[i].job.salary.max >= Rank(p, jobs, "salary")[j].job.salary.max
  {
    var ranked := Rank(p, jobs, "salary");
    StableSortSorted(CatalogResults(p, jobs), BySalaryMax);
    forall i, j | 0 <= i < j < |jobs|
      ensures ranked[i].job.salary.max >= ranked[j].job.salary.max
    {
      assert Key(BySalaryMax, ranked[i]) >= Key(BySalaryMax, ranked[j]);
    }
  }

  /** 'recent' orders by posting date, newest first: no result is followed by a later one. */
  lemma RankByRecentOrdered(p: CandidateProfile, jobs: seq<JobPosting>)
    requires forall i :: 0 <= i < |jobs| ==> ValidDate(jobs[i].postedDate)
    ensures forall i, j :: 0 <= i < j < |jobs| ==>
      !Before(Rank(p, jobs, "recent")[i].job.postedDate, Rank(p, jobs, "recent")[j].job.postedDate)
  {
    var ranked := Rank(p, jobs, "recent");
    RankIsPermutation(p, jobs, "recent");
    StableSortSorted(CatalogResults(p, jobs), ByPostedDate);
    forall i, j | 0 <= i < j < |jobs|
      ensures !Before(ranked[i].job.postedDate, ranked[j].job.postedDate)
    {
      var rs := CatalogResults(p, jobs);
      assert ranked[i] in multiset(rs) && ranked[j] in multiset(rs);
      var a :| 0 <= a < |rs| && rs[a] == ranked[i];
      var b :| 0 <= b < |rs| && rs[b] == ranked[j];
      DateKeyOrder(ranked[i].job.postedDate, ranked[j].job.postedDate);
      assert Key(ByPostedDate, ranked[i]) >= Key(ByPostedDate, ranked[j]);
    }
  }

  /** Ties keep catalog order: for every key value the results with that key appear as in the catalog. */
  lemma RankIsStable(p: CandidateProfile, jobs: seq<JobPosting>, sortBy: string, k: int)
    requires FieldFor(sortBy).Some?
    ensures WithKey(Rank(p, jobs, sortBy), FieldFor(sortBy).value, k)
      == WithKey(CatalogResults(p, jobs), FieldFor(sortBy).value, k)
  {
    StableSortWithKey(CatalogResults(p, jobs), FieldFor(sortBy).value, k);
  }

  // ---------------------------------------------------------------------
  // The high-match count
  // ---------------------------------------------------------------------

  lemma {:induction false} HighMatchCountAppend(s: seq<MatchResult>, t: seq<MatchResult>)
    ensures HighMatchCount(s + t) == HighMatchCount(s) + HighMatchCount(t)
  {
    if |t| == 0 {
      assert s + t == s;
    } else {
      HighMatchCountAppend(s, t[..|t| - 1]);
      assert (s + t)[..|s + t| - 1] == s + t[..|t| - 1];
    }
  }

  /** Inserting a result adds its own share to the count. */
  lemma {:induction false} InsertHighMatchCount(s: seq<MatchResult>, x: MatchResult, f: SortField)
    ensures HighMatchCount(Insert(s, x, f)) == HighMatchCount(s) + HighMatchCount([x])
  {
    assert [x][..0] == [];
    if |s| > 0 {
      var init, last := s[..|s| - 1], s[|s| - 1];
      if Key(f, last) >= Key(f, x) {
        HighMatchCountAppend(s, [x]);
      } else {
        InsertHighMatchCount(init, x, f);
        HighMatchCountAppend(Insert(init, x, f), [last]);
      }
    }
  }

  /** Sorting, by any key, does not change the count. */
  lemma {:induction false} StableSortHighMatchCount(s: seq<MatchResult>, f: SortField)
    ensures HighMatchCount(StableSort(s, f)) == HighMatchCount(s)
  {
    if |s| > 0 {
      var init, last := s[..|s| - 1], s[|s| - 1];
      StableSortHighMatchCount(init, f);
      InsertHighMatchCount(StableSort(init, f), last, f);
      assert s == init + [last];
      HighMatchCountAppend(init, [last]);
    }
  }

  /** The count is at most the number of results. */
  lemma {:induction false} HighMatchCountBound(rs: seq<MatchResult>)
    ensures HighMatchCount(rs) <= |rs|
  {
    if |rs| > 0 {
      HighMatchCountBound(rs[..|rs| - 1]);
    }
  }

  /** The count is the same whichever key the results are sorted by, and at most the number of postings. */
  lemma HighMatchCountIgnoresSortKey(p: CandidateProfile, jobs: seq<JobPosting>, sortBy: string, other: string)
    ensures HighMatchCount(Rank(p, jobs, sortBy)) == HighMatchCount(Rank(p, jobs, other))
    ensures HighMatchCount(Rank(p, jobs, sortBy)) <= |jobs|
  {
    var catalog := CatalogResults(p, jobs);
    if FieldFor(sortBy).Some? {
      StableSortHighMatchCount(catalog, FieldFor(sortBy).value);
    }
    if FieldFor(other).Some? {
      StableSortHighMatchCount(catalog, FieldFor(other).value);
    }
    HighMatchCountBound(Rank(p, jobs, sortBy));
  }

  /** A high match is exactly a result whose card shows the grade 최적 or 우수. */
  lemma HighMatchIffTopGrades(r: MatchResult)
    ensures IsHighMatch(r) <==> JobCard.GradeOf(r.score) in {JobCard.Excellent, JobCard.Good}
  {
  }
}
