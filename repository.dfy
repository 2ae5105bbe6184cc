/**
 * The derived queries of the feedback repository, as functions over the
 * stored records: filter by user or by recipe ordered newest first,
 * count by recipe, the average rating of a recipe, and the 100 newest.
 *
 * "Newest first" is a stable sort on `dateFeedback`, the order the
 * service's in-memory `sorted(...)` produces; a database may order ties
 * differently.
 */
module Repository {
  import opened Domain

  /** Non-increasing `dateFeedback`. */
  ghost predicate NewestFirst(s: seq<Feedback>) {
    forall i, j :: 0 <= i < j < |s| ==> s[i].dateFeedback >= s[j].dateFeedback
  }

  /** Inserts `x` before the first record that is not newer than it. */
  function InsertNewestFirst(x: Feedback, s: seq<Feedback>): (r: seq<Feedback>)
    requires NewestFirst(s)
    ensures NewestFirst(r)
    ensures multiset(r) == multiset(s) + multiset{x}
    ensures |r| == |s| + 1
    ensures r[0] == x || (s != [] && r[0] == s[0])
  {
    if s == [] || s[0].dateFeedback <= x.dateFeedback then
      [x] + s
    else
      var rest := InsertNewestFirst(x, s[1..]);
      assert rest[0].dateFeedback <= s[0].dateFeedback;
      assert forall j :: 0 <= j < |rest| ==> rest[j].dateFeedback <= s[0].dateFeedback;
      assert s == [s[0]] + s[1..];
      [s[0]] + rest
  }

  /** Orders records newest first, keeping the input order among records of the same date. */
  function SortNewestFirst(s: seq<Feedback>): (r: seq<Feedback>)
    ensures NewestFirst(r)
    ensures multiset(r) == multiset(s)
    ensures |r| == |s|
  {
    if s == [] then []
    else
      assert s == [s[0]] + s[1..];
      InsertNewestFirst(s[0], SortNewestFirst(s[1..]))
  }

  /** The records of `s` dated `d`, in their order in `s`. */
  function DatedAt(s: seq<Feedback>, d: Timestamp): seq<Feedback> {
    if s == [] then []
    else (if s[0].dateFeedback == d then [s[0]] else []) + DatedAt(s[1..], d)
  }

  lemma {:induction false} InsertKeepsTies(x: Feedback, s: seq<Feedback>, d: Timestamp)
    requires NewestFirst(s)
    ensures DatedAt(InsertNewestFirst(x, s), d) == (if x.dateFeedback == d then [x] else []) + DatedAt(s, d)
  {
    if s == [] || s[0].dateFeedback <= x.dateFeedback {
      var r := [x] + s;
      assert r[0] == x && r[1..] == s;
    } else {
      var rest := InsertNewestFirst(x, s[1..]);
      var r := [s[0]] + rest;
      assert r[0] == s[0] && r[1..] == rest;
      InsertKeepsTies(x, s[1..], d);
    }
  }

  /** The sort is stable: for every date, the records of that date keep their relative order. */
  lemma {:induction false} SortIsStable(s: seq<Feedback>, d: Timestamp)
    ensures DatedAt(SortNewestFirst(s), d) == DatedAt(s, d)
  {
    if s != [] {
      SortIsStable(s[1..], d);
      InsertKeepsTies(s[0], SortNewestFirst(s[1..]), d);
    }
  }

  /** The records of `s` that satisfy `p`, in their order in `s`. */
  function Where(s: seq<Feedback>, p: Feedback -> bool): (r: seq<Feedback>)
    ensures forall f :: multiset(r)[f] == if p(f) then multiset(s)[f] else 0
    ensures forall f :: f in r ==> p(f)
  {
    if s == [] then []
    else
      assert s == [s[0]] + s[1..];
      (if p(s[0]) then [s[0]] else []) + Where(s[1..], p)
  }

  function UserIs(u: Id): Feedback -> bool {
    (f: Feedback) => f.utilisateurId == u
  }

  function RecetteIs(rc: Id): Feedback -> bool {
    (f: Feedback) => f.recetteId == rc
  }

  /** `findByUserIdOrderByDateFeedbackDesc`: exactly the user's records, newest first. */
  function FindByUserIdOrderByDateFeedbackDesc(s: seq<Feedback>, u: Id): (r: seq<Feedback>)
    ensures NewestFirst(r)
    ensures forall f :: multiset(r)[f] == if f.utilisateurId == u then multiset(s)[f] else 0
  {
    SortNewestFirst(Where(s, UserIs(u)))
  }

  /** `findByRecetteIdOrderByDateFeedbackDesc`: exactly the recipe's records, newest first. */
  function FindByRecetteIdOrderByDateFeedbackDesc(s: seq<Feedback>, rc: Id): (r: seq<Feedback>)
    ensures NewestFirst(r)
    ensures forall f :: multiset(r)[f] == if f.recetteId == rc then multiset(s)[f] else 0
  {
    SortNewestFirst(Where(s, RecetteIs(rc)))
  }

  /** `countByRecetteId`: the number of the recipe's records. */
  function CountByRecetteId(s: seq<Feedback>, rc: Id): (c: nat)
    ensures c == |Where(s, RecetteIs(rc))|
    ensures c <= |s|
  {
    if s == [] then 0
    else (if s[0].recetteId == rc then 1 else 0) + CountByRecetteId(s[1..], rc)
  }

  /** The count agrees with the listing of the same recipe. */
  lemma CountMatchesFind(s: seq<Feedback>, rc: Id)
    ensures CountByRecetteId(s, rc) == |FindByRecetteIdOrderByDateFeedbackDesc(s, rc)|
  {
    assert CountByRecetteId(s, rc) == |Where(s, RecetteIs(rc))|;
  }

  /** No record of the recipe exactly when the count is zero. */
  lemma {:induction false} CountZeroIff(s: seq<Feedback>, rc: Id)
    ensures CountByRecetteId(s, rc) == 0 <==> forall i :: 0 <= i < |s| ==> s[i].recetteId != rc
  {
    if s != [] {
      CountZeroIff(s[1..], rc);
      assert forall i :: 1 <= i < |s| ==> s[i] == s[1..][i - 1];
    }
  }

  function SumOfRatings(s: seq<Feedback>): int {
    if s == [] then 0 else s[0].evaluation + SumOfRatings(s[1..])
  }

  /**
   * `findAverageRatingByRecetteId`: JPQL `AVG`, null over an empty set of
   * rows and otherwise the arithmetic mean of the ratings of the recipe's
   * records.
   */
  function FindAverageRatingByRecetteId(s: seq<Feedback>, rc: Id): (r: Option<real>)
    ensures r.None? <==> forall i :: 0 <= i < |s| ==> s[i].recetteId != rc
    ensures var l := FindByRecetteIdOrderByDateFeedbackDesc(s, rc);
      r.Some? ==> r.value == SumOfRatings(l) as real / |l| as real
  {
    CountZeroIff(s, rc);
    CountMatchesFind(s, rc);
    SumOfSort(Where(s, RecetteIs(rc)));
    var n := CountByRecetteId(s, rc);
    if n == 0 then None
    else Some(SumOfRatings(Where(s, RecetteIs(rc))) as real / n as real)
  }

  lemma {:induction false} SumOfRatingsBounds(s: seq<Feedback>)
    requires RatingsInRange(s)
    ensures MinRating * |s| <= SumOfRatings(s) <= MaxRating * |s|
  {
    if s != [] {
      assert RatingsInRange(s[1..]) by {
        forall i | 0 <= i < |s[1..]| ensures RatingInRange(s[1..][i].evaluation) {
          assert s[1..][i] == s[i + 1];
        }
      }
      SumOfRatingsBounds(s[1..]);
    }
  }

  lemma {:induction false} WhereKeepsRatingsInRange(s: seq<Feedback>, p: Feedback -> bool)
    requires RatingsInRange(s)
    ensures RatingsInRange(Where(s, p))
  {
    var w := Where(s, p);
    forall i | 0 <= i < |w| ensures RatingInRange(w[i].evaluation) {
      assert w[i] in multiset(w);
      assert w[i] in multiset(s);
      var j :| 0 <= j < |s| && s[j] == w[i];
    }
  }

  /** When every stored rating is on the 1..5 scale, so is a recipe's average. */
  lemma AverageWithinScale(s: seq<Feedback>, rc: Id)
    requires RatingsInRange(s)
    ensures var a := FindAverageRatingByRecetteId(s, rc);
      a.Some? ==> MinRating as real <= a.value <= MaxRating as real
  {
    var w := Where(s, RecetteIs(rc));
    WhereKeepsRatingsInRange(s, RecetteIs(rc));
    SumOfRatingsBounds(w);
    assert CountByRecetteId(s, rc) == |w|;
    if |w| > 0 {
      QuotientBounds(SumOfRatings(w), |w|, MinRating, MaxRating);
    }
  }

  lemma QuotientBounds(sum: int, n: int, lo: int, hi: int)
    requires n > 0 && lo * n <= sum <= hi * n
    ensures lo as real <= sum as real / n as real <= hi as real
  {
    var q := sum as real / n as real;
    assert q * n as real == sum as real;
  }

  const TopLimit := 100

  lemma {:induction false} FirstIsNewest(t: seq<Feedback>, k: nat)
    requires NewestFirst(t) && k <= |t|
    ensures forall f, g :: f in multiset(t) - multiset(t[..k]) && g in t[..k] ==> f.dateFeedback <= g.dateFeedback
  {
    assert t == t[..k] + t[k..];
    assert multiset(t) - multiset(t[..k]) == multiset(t[k..]);
    forall f, g | f in multiset(t) - multiset(t[..k]) && g in t[..k]
      ensures f.dateFeedback <= g.dateFeedback
    {
      assert f in t[k..];
      var j :| 0 <= j < |t[k..]| && t[k..][j] == f;
      var i :| 0 <= i < k && t[..k][i] == g;
      assert t[k + j] == f && t[i] == g;
    }
  }

  /**
   * `findTop100ByOrderByDateFeedbackDesc`: min(100, n) records newest
   * first, and no record left out is newer than one returned.
   */
  function FindTop100ByOrderByDateFeedbackDesc(s: seq<Feedback>): (r: seq<Feedback>)
    ensures |r| == Min(TopLimit, |s|)
    ensures NewestFirst(r)
    ensures multiset(r) <= multiset(s)
    ensures forall f, g :: f in multiset(s) - multiset(r) && g in r ==> f.dateFeedback <= g.dateFeedback
  {
    var t := SortNewestFirst(s);
    var k := Min(TopLimit, |s|);
    FirstIsNewest(t, k);
    assert t == t[..k] + t[k..];
    t[..k]
  }

  lemma {:induction false} DatedAtOfPrefix(t: seq<Feedback>, k: nat, d: Timestamp)
    requires k <= |t|
    ensures DatedAt(t[..k], d) <= DatedAt(t, d)
  {
    if k > 0 {
      assert t[..k][1..] == t[1..][..k - 1];
      DatedAtOfPrefix(t[1..], k - 1, d);
    }
  }

  /**
   * The limit keeps the sort's tie order: for every date, the records of
   * that date that are selected are the earliest of that date in `s`.
   */
  lemma Top100KeepsEarliestTies(s: seq<Feedback>, d: Timestamp)
    ensures DatedAt(FindTop100ByOrderByDateFeedbackDesc(s), d) <= DatedAt(s, d)
  {
    var t := SortNewestFirst(s);
    DatedAtOfPrefix(t, Min(TopLimit, |s|), d);
    SortIsStable(s, d);
  }

  lemma {:induction false} SumOfInsert(x: Feedback, s: seq<Feedback>)
    requires NewestFirst(s)
    ensures SumOfRatings(InsertNewestFirst(x, s)) == x.evaluation + SumOfRatings(s)
  {
    if s != [] && s[0].dateFeedback > x.dateFeedback {
      var r := InsertNewestFirst(x, s);
      assert r[1..] == InsertNewestFirst(x, s[1..]);
      SumOfInsert(x, s[1..]);
    }
  }

  /** Ordering does not change the sum of the ratings. */
  lemma {:induction false} SumOfSort(s: seq<Feedback>)
    ensures SumOfRatings(SortNewestFirst(s)) == SumOfRatings(s)
  {
    if s != [] {
      SumOfSort(s[1..]);
      SumOfInsert(s[0], SortNewestFirst(s[1..]));
    }
  }
}
