/**
 * The feedback service: the rules it applies between the HTTP layer and
 * the persistence service. It checks references before creating, parses
 * string ids, merges partial updates, averages a recipe's ratings and
 * forwards the 100 newest records to the recommendation service.
 *
 * Java exceptions are the `Failure` side of a `Result`; the clock is the
 * parameter `now`; the recommendation service is a `Post` the method
 * hands back, together with a parameter saying whether it accepts it.
 */
module Service {
  import opened Domain
  import LongParsing
  import CreateValidation
  import UpdateValidation
  import Repository
  import Factory
  import Persistence

  /** Which of the two not-found messages was raised. */
  datatype NotFoundReason =
    | MalformedId     // the id does not parse as a long
    | NoSuchFeedback  // the persistence call for a well-formed id failed

  datatype ServiceError =
    | FeedbackNotFound(id: string, reason: NotFoundReason)
    | UserNotFound(utilisateurId: Id)        // illegal argument: unknown user
    | RecipeNotFound(recetteId: Id)          // illegal argument: unknown recipe
    | InvalidIdFormat(rawId: string)         // illegal argument: a list or average id that does not parse
    | PersistanceFailure                     // a persistence error passed through unchanged
    | RecommendationUnavailable(serviceUrl: string)  // the runtime error naming the recommendation service

  /** A POST to the recommendation service. */
  datatype Post = Post(url: string, payload: seq<Feedback>)

  const UpdateModelPath := "/api/recommendations/update-model"

  /**
   * The statistics built from a recipe's listing: zero for an empty list,
   * otherwise the mean rounded half-up to two decimals, which over whole
   * ratings is `(200 * sum + n) div (2 * n)` hundredths.
   */
  function AverageRating(recetteId: Id, fs: seq<Feedback>): (a: AverageRatingResponse)
    ensures a.recetteId == recetteId && a.totalFeedbacks == |fs|
    ensures fs == [] ==> a.averageRating == 0.0
    ensures fs != [] ==>
      a.averageRating == ((200 * Repository.SumOfRatings(fs) + |fs|) / (2 * |fs|)) as real / 100.0
  {
    if fs == [] then AverageRatingResponse(recetteId, 0.0, 0)
    else
      var mean := Repository.SumOfRatings(fs) as real / |fs| as real;
      RoundedMean(Repository.SumOfRatings(fs), |fs|);
      AverageRatingResponse(recetteId, Factory.RoundToTwoDecimals(mean), |fs|)
  }

  /** Rounding a quotient of integers to hundredths is integer division in disguise. */
  lemma RoundedMean(sum: int, n: int)
    requires n > 0
    ensures Factory.RoundToTwoDecimals(sum as real / n as real) == ((200 * sum + n) / (2 * n)) as real / 100.0
  {
    var den := 2 * n;
    var num := 200 * sum + n;
    var k := num / den;
    var rem := num % den;
    assert num == den * k + rem && 0 <= rem < den;
    var x := sum as real / n as real;
    var t := x * 100.0 - k as real;
    assert x * n as real == sum as real;
    assert t * den as real == (rem - n) as real by {
      assert (x * 100.0) * den as real == (200 * sum) as real;
      assert (k as real) * den as real == (den * k) as real;
    }
    OffsetBounds(t, den as real, (rem - n) as real);
    Factory.RoundToTwoDecimalsUnique(x, k);
  }

  /** If `t * d` lies in `[-d/2, d/2)` for a positive `d`, then `t` lies in `[-1/2, 1/2)`. */
  lemma OffsetBounds(t: real, d: real, e: real)
    requires d > 0.0 && t * d == e && -0.5 * d <= e < 0.5 * d
    ensures -0.5 <= t < 0.5
  {
  }

  /** Ratings 4 and 5 average 4.5; ratings 4, 4 and 5 average 4.33. */
  lemma AverageRatingExamples(rc: Id, two: seq<Feedback>, three: seq<Feedback>)
    requires |two| == 2 && two[0].evaluation == 4 && two[1].evaluation == 5
    requires |three| == 3 && three[0].evaluation == 4 && three[1].evaluation == 4 && three[2].evaluation == 5
    ensures AverageRating(rc, two) == AverageRatingResponse(rc, 4.5, 2)
    ensures AverageRating(rc, three) == AverageRatingResponse(rc, 4.33, 3)
  {
    assert Repository.SumOfRatings(two[1..][1..]) == 0;
    assert Repository.SumOfRatings(two) == 9;
    assert Repository.SumOfRatings(three[1..][1..][1..]) == 0;
    assert Repository.SumOfRatings(three[1..][1..]) == 5;
    assert Repository.SumOfRatings(three[1..]) == 9;
    assert Repository.SumOfRatings(three) == 13;
  }

  /** With every rating on the 1..5 scale the rounded average is on it too. */
  lemma AverageRatingWithinScale(rc: Id, fs: seq<Feedback>)
    requires RatingsInRange(fs) && fs != []
    ensures MinRating as real <= AverageRating(rc, fs).averageRating <= MaxRating as real
  {
    var sum := Repository.SumOfRatings(fs);
    Repository.SumOfRatingsBounds(fs);
    Repository.QuotientBounds(sum, |fs|, MinRating, MaxRating);
    var x := sum as real / |fs| as real;
    Factory.RoundToTwoDecimalsUnique(1.0, 100);
    Factory.RoundToTwoDecimalsUnique(5.0, 500);
    Factory.RoundToTwoDecimalsMonotone(1.0, x);
    Factory.RoundToTwoDecimalsMonotone(x, 5.0);
  }

  /**
   * The service's in-memory statistics over a recipe's listing agree with
   * the repository's own count and average queries fed to the factory.
   */
  lemma AverageRatingAgreesWithRepository(s: seq<Feedback>, rc: Id)
    ensures AverageRating(rc, Repository.FindByRecetteIdOrderByDateFeedbackDesc(s, rc))
         == Factory.CreateAverageRatingDto(rc, Repository.FindAverageRatingByRecetteId(s, rc),
                                           Some(Repository.CountByRecetteId(s, rc)))
  {
    var w := Repository.Where(s, Repository.RecetteIs(rc));
    Repository.CountMatchesFind(s, rc);
    Repository.SumOfSort(w);
  }

  class FeedbackService {
    const persistance: Persistence.PersistenceStore
    const recommendationServiceUrl: string

    constructor (persistance: Persistence.PersistenceStore, recommendationServiceUrl: string)
      ensures this.persistance == persistance
      ensures this.recommendationServiceUrl == recommendationServiceUrl
    {
      this.persistance := persistance;
      this.recommendationServiceUrl := recommendationServiceUrl;
    }

    /**
     * `createFeedback`: the user is checked, then the recipe; either
     * failing leaves the store untouched. Otherwise exactly one record is
     * appended, under the next id, with the request's fields and both
     * dates at `now`.
     */
    method CreateFeedback(request: CreateValidation.FeedbackCreateRequest, now: Timestamp)
      returns (r: Result<FeedbackResponse, ServiceError>)
      requires persistance.Valid()
      requires request.utilisateurId.Some? && request.recetteId.Some? && request.evaluation.Some?
      modifies persistance
      ensures persistance.Valid()
      ensures persistance.reachable == old(persistance.reachable)
      ensures persistance.users == old(persistance.users) && persistance.recettes == old(persistance.recettes)
      ensures !old(persistance.UtilisateurExists(request.utilisateurId.value)) ==>
        r == Failure(UserNotFound(request.utilisateurId.value))
      ensures (old(persistance.UtilisateurExists(request.utilisateurId.value))
               && !old(persistance.RecetteExists(request.recetteId.value))) ==>
        r == Failure(RecipeNotFound(request.recetteId.value))
      ensures r.Failure? ==> persistance.records == old(persistance.records) && persistance.nextId == old(persistance.nextId)
      ensures r.Success? <==>
        old(persistance.UtilisateurExists(request.utilisateurId.value)) && old(persistance.RecetteExists(request.recetteId.value))
      ensures r.Success? ==>
        var saved := Factory.CreateFeedback(request, now).(id := Some(old(persistance.nextId)));
        && persistance.records == old(persistance.records) + [saved]
        && persistance.nextId == old(persistance.nextId) + 1
        && r.value == Factory.CreateResponseDto(saved)
        && (forall m :: Persistence.Lookup(persistance.records, m)
              == if m == old(persistance.nextId) then Some(saved) else Persistence.Lookup(old(persistance.records), m))
      ensures RatingsInRange(old(persistance.records)) && CreateValidation.IsValid(request) ==>
        RatingsInRange(persistance.records)
    {
      CreateValidation.IsValidIff(request);
      var u := request.utilisateurId.value;
      var rc := request.recetteId.value;
      if !persistance.UtilisateurExists(u) {
        return Failure(UserNotFound(u));
      }
      if !persistance.RecetteExists(rc) {
        return Failure(RecipeNotFound(rc));
      }
      var dto := Factory.CreateFeedback(request, now);
      ghost var before := persistance.records;
      ghost var id := persistance.nextId;
      var saved := persistance.CreateFeedback(dto);
      match saved
      case Success(f) =>
        forall m ensures Persistence.Lookup(persistance.records, m) ==
            if m == id then Some(f) else Persistence.Lookup(before, m) {
          Persistence.LookupAfterAppend(before, id, f, m);
        }
        r := Success(Factory.CreateResponseDto(f));
      case Failure(_) =>
        r := Failure(PersistanceFailure);
    }

    /** `getAllFeedbacks`: every stored record as a response, in store order. */
    method GetAllFeedbacks() returns (r: Result<seq<FeedbackResponse>, ServiceError>)
      ensures r.Success? <==> persistance.reachable
      ensures r.Success? ==>
        && |r.value| == |persistance.records|
        && forall i :: 0 <= i < |r.value| ==> r.value[i] == Factory.CreateResponseDto(persistance.records[i])
      ensures r.Failure? ==> r.error == PersistanceFailure
    {
      match persistance.GetAllFeedbacks()
      case Success(fs) => r := Success(Factory.CreateResponseDtoList(fs));
      case Failure(_) => r := Failure(PersistanceFailure);
    }

    /**
     * `getFeedbackById`: a malformed id and any failure of the store for a
     * well-formed one are both reported as not found.
     */
    method GetFeedbackById(id: string) returns (r: Result<FeedbackResponse, ServiceError>)
      ensures LongParsing.ParseLong(id).None? ==> r == Failure(FeedbackNotFound(id, MalformedId))
      ensures LongParsing.ParseLong(id).Some? ==>
        var k := LongParsing.ParseLong(id).value;
        && (r.Success? <==> persistance.reachable && Persistence.Lookup(persistance.records, k).Some?)
        && (r.Success? ==> r.value == Factory.CreateResponseDto(Persistence.Lookup(persistance.records, k).value))
        && (r.Failure? ==> r.error == FeedbackNotFound(id, NoSuchFeedback))
      ensures r.Success? ==> r.value.id.Some? && Some(r.value.id.value) == LongParsing.ParseLong(id)
    {
      match LongParsing.ParseLong(id)
      case None =>
        r := Failure(FeedbackNotFound(id, MalformedId));
      case Some(k) =>
        match persistance.GetFeedbackById(k)
        case Success(f) => r := Success(Factory.CreateResponseDto(f));
        case Failure(_) => r := Failure(FeedbackNotFound(id, NoSuchFeedback));
    }

    /** `getFeedbacksByUserId`: a malformed id is an illegal argument; a store failure passes through. */
    method GetFeedbacksByUserId(userId: string) returns (r: Result<seq<FeedbackResponse>, ServiceError>)
      ensures LongParsing.ParseLong(userId).None? ==> r == Failure(InvalidIdFormat(userId))
      ensures LongParsing.ParseLong(userId).Some? && !persistance.reachable ==> r == Failure(PersistanceFailure)
      ensures LongParsing.ParseLong(userId).Some? && persistance.reachable ==>
        r == Success(Factory.CreateResponseDtoList(
          Repository.FindByUserIdOrderByDateFeedbackDesc(persistance.records, LongParsing.ParseLong(userId).value)))
    {
      match LongParsing.ParseLong(userId)
      case None =>
        r := Failure(InvalidIdFormat(userId));
      case Some(u) =>
        match persistance.GetFeedbacksByUtilisateurId(u)
        case Success(fs) => r := Success(Factory.CreateResponseDtoList(fs));
        case Failure(_) => r := Failure(PersistanceFailure);
    }

    /** `getFeedbacksByRecetteId`: a malformed id is an illegal argument; a store failure passes through. */
    method GetFeedbacksByRecetteId(recetteId: string) returns (r: Result<seq<FeedbackResponse>, ServiceError>)
      ensures LongParsing.ParseLong(recetteId).None? ==> r == Failure(InvalidIdFormat(recetteId))
      ensures LongParsing.ParseLong(recetteId).Some? && !persistance.reachable ==> r == Failure(PersistanceFailure)
      ensures LongParsing.ParseLong(recetteId).Some? && persistance.reachable ==>
        r == Success(Factory.CreateResponseDtoList(
          Repository.FindByRecetteIdOrderByDateFeedbackDesc(persistance.records, LongParsing.ParseLong(recetteId).value)))
    {
      match LongParsing.ParseLong(recetteId)
      case None =>
        r := Failure(InvalidIdFormat(recetteId));
      case Some(rc) =>
        match persistance.GetFeedbacksByRecetteId(rc)
        case Success(fs) => r := Success(Factory.CreateResponseDtoList(fs));
        case Failure(_) => r := Failure(PersistanceFailure);
    }

    /**
     * `getAverageRatingByRecetteId`: the statistics of the recipe's
     * listing, which agree with the repository's count and average.
     */
    method GetAverageRatingByRecetteId(recetteId: string) returns (r: Result<AverageRatingResponse, ServiceError>)
      ensures LongParsing.ParseLong(recetteId).None? ==> r == Failure(InvalidIdFormat(recetteId))
      ensures LongParsing.ParseLong(recetteId).Some? && !persistance.reachable ==> r == Failure(PersistanceFailure)
      ensures LongParsing.ParseLong(recetteId).Some? && persistance.reachable ==>
        var rc := LongParsing.ParseLong(recetteId).value;
        r == Success(Factory.CreateAverageRatingDto(
          rc, Repository.FindAverageRatingByRecetteId(persistance.records, rc),
          Some(Repository.CountByRecetteId(persistance.records, rc))))
    {
      match LongParsing.ParseLong(recetteId)
      case None =>
        r := Failure(InvalidIdFormat(recetteId));
      case Some(rc) =>
        match persistance.GetFeedbacksByRecetteId(rc)
        case Success(fs) =>
          AverageRatingAgreesWithRepository(persistance.records, rc);
          r := Success(AverageRating(rc, fs));
        case Failure(_) =>
          r := Failure(PersistanceFailure);
    }

    /**
     * `updateFeedback`: the stored record is read, merged with the request
     * and written back under the same id; a malformed id, an unknown id or
     * an unreachable store is not found and leaves the store untouched.
     */
    method UpdateFeedback(id: string, request: UpdateValidation.FeedbackUpdateRequest, now: Timestamp)
      returns (r: Result<FeedbackResponse, ServiceError>)
      requires persistance.Valid()
      modifies persistance
      ensures persistance.Valid()
      ensures persistance.reachable == old(persistance.reachable) && persistance.nextId == old(persistance.nextId)
      ensures persistance.users == old(persistance.users) && persistance.recettes == old(persistance.recettes)
      ensures LongParsing.ParseLong(id).None? ==> r == Failure(FeedbackNotFound(id, MalformedId))
      ensures LongParsing.ParseLong(id).Some? ==>
        (r.Success? <==>
          old(persistance.reachable) && Persistence.Lookup(old(persistance.records), LongParsing.ParseLong(id).value).Some?)
      ensures LongParsing.ParseLong(id).Some? && r.Failure? ==> r.error == FeedbackNotFound(id, NoSuchFeedback)
      ensures r.Failure? ==> persistance.records == old(persistance.records)
      ensures r.Success? ==>
        var k := LongParsing.ParseLong(id).value;
        var merged := Factory.CreateUpdatedFeedback(
          Persistence.Lookup(old(persistance.records), k).value, request.evaluation, request.commentaire, now);
        && persistance.records == Persistence.Replace(old(persistance.records), k, merged)
        && r.value == Factory.CreateResponseDto(merged)
        && (forall m :: Persistence.Lookup(persistance.records, m)
              == if m == k then Some(merged) else Persistence.Lookup(old(persistance.records), m))
      ensures RatingsInRange(old(persistance.records)) && UpdateValidation.IsValid(request) ==>
        RatingsInRange(persistance.records)
    {
      match LongParsing.ParseLong(id)
      case None =>
        r := Failure(FeedbackNotFound(id, MalformedId));
      case Some(k) =>
        match persistance.GetFeedbackById(k)
        case Failure(_) =>
          r := Failure(FeedbackNotFound(id, NoSuchFeedback));
        case Success(existing) =>
          var merged := Factory.CreateUpdatedFeedback(existing, request.evaluation, request.commentaire, now);
          ghost var before := persistance.records;
          var saved := persistance.UpdateFeedback(k, merged);
          match saved
          case Success(f) =>
            assert f == merged;
            assert Persistence.Lookup(before, k).Some?;
            UpdateValidation.IsValidIff(request);
            r := Success(Factory.CreateResponseDto(f));
          case Failure(_) =>
            r := Failure(FeedbackNotFound(id, NoSuchFeedback));
    }

    /**
     * `deleteFeedback`: the record is removed; a malformed id, an unknown id
     * or an unreachable store is not found and leaves the store untouched.
     */
    method DeleteFeedback(id: string) returns (r: Outcome<ServiceError>)
      requires persistance.Valid()
      modifies persistance
      ensures persistance.Valid()
      ensures persistance.reachable == old(persistance.reachable) && persistance.nextId == old(persistance.nextId)
      ensures persistance.users == old(persistance.users) && persistance.recettes == old(persistance.recettes)
      ensures LongParsing.ParseLong(id).None? ==> r == Fail(FeedbackNotFound(id, MalformedId))
      ensures LongParsing.ParseLong(id).Some? ==>
        (r.Pass? <==>
          old(persistance.reachable) && Persistence.Lookup(old(persistance.records), LongParsing.ParseLong(id).value).Some?)
      ensures LongParsing.ParseLong(id).Some? && r.Fail? ==> r.error == FeedbackNotFound(id, NoSuchFeedback)
      ensures r.Fail? ==> persistance.records == old(persistance.records)
      ensures r.Pass? ==>
        var k := LongParsing.ParseLong(id).value;
        && persistance.records == Persistence.Remove(old(persistance.records), k)
        && (forall m :: Persistence.Lookup(persistance.records, m)
              == if m == k then None else Persistence.Lookup(old(persistance.records), m))
    {
      match LongParsing.ParseLong(id)
      case None =>
        r := Fail(FeedbackNotFound(id, MalformedId));
      case Some(k) =>
        ghost var before := persistance.records;
        var done := persistance.DeleteFeedback(k);
        match done
        case Pass =>
          forall m ensures Persistence.Lookup(persistance.records, m) ==
              if m == k then None else Persistence.Lookup(before, m) {
            Persistence.LookupAfterRemove(before, persistance.nextId, k, m);
          }
          r := Pass;
        case Fail(_) =>
          r := Fail(FeedbackNotFound(id, NoSuchFeedback));
    }

    /**
     * `sendFeedbacksToRecommendationService`: nothing is posted when the
     * store holds no record; otherwise the 100 newest are posted to the
     * update-model endpoint. Every failure, of the store or of the post,
     * becomes the error naming the configured URL.
     */
    method SendFeedbacksToRecommendationService(recommendationAccepts: bool)
      returns (post: Option<Post>, r: Outcome<ServiceError>)
      ensures post.Some? <==> persistance.reachable && persistance.records != []
      ensures post.Some? ==>
        && post.value.url == recommendationServiceUrl + UpdateModelPath
        && post.value.payload == Repository.FindTop100ByOrderByDateFeedbackDesc(persistance.records)
      ensures r.Pass? <==> persistance.reachable && (persistance.records == [] || recommendationAccepts)
      ensures r.Fail? ==> r.error == RecommendationUnavailable(recommendationServiceUrl)
    {
      match persistance.GetAllFeedbacks()
      case Failure(_) =>
        post := None;
        r := Fail(RecommendationUnavailable(recommendationServiceUrl));
      case Success(all) =>
        if all == [] {
          post := None;
          r := Pass;
        } else {
          var recent := Repository.FindTop100ByOrderByDateFeedbackDesc(all);
          post := Some(Post(recommendationServiceUrl + UpdateModelPath, recent));
          r := if recommendationAccepts then Pass else Fail(RecommendationUnavailable(recommendationServiceUrl));
        }
    }
  }
}
