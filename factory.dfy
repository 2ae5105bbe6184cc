/**
 * The pure mappings of the feedback factory: request to record, record to
 * response, the partial-update merge and the average-rating response with
 * its two-decimal rounding. The clock is the parameter `now`.
 */
module Factory {
  import opened Domain
  import CreateValidation

  /**
   * The record a create request becomes: the request's four fields, no id
   * yet (the store assigns it), and both timestamps at `now`.
   */
  function CreateFeedback(request: CreateValidation.FeedbackCreateRequest, now: Timestamp): (f: Feedback)
    requires request.utilisateurId.Some? && request.recetteId.Some? && request.evaluation.Some?
    ensures f.id.None?
    ensures f.utilisateurId == request.utilisateurId.value && f.recetteId == request.recetteId.value
    ensures f.evaluation == request.evaluation.value && f.commentaire == request.commentaire
    ensures f.dateFeedback == now && f.dateModification == now
  {
    Feedback(None, request.utilisateurId.value, request.recetteId.value,
             request.evaluation.value, request.commentaire, now, now)
  }

  /** The response for a record: a field-for-field copy. */
  function CreateResponseDto(f: Feedback): (r: FeedbackResponse)
    ensures r.id == f.id && r.utilisateurId == f.utilisateurId && r.recetteId == f.recetteId
    ensures r.evaluation == f.evaluation && r.commentaire == f.commentaire
    ensures r.dateFeedback == f.dateFeedback && r.dateModification == f.dateModification
  {
    FeedbackResponse(f.id, f.utilisateurId, f.recetteId, f.evaluation, f.commentaire,
                     f.dateFeedback, f.dateModification)
  }

  /** The responses for a list of records, element by element and in order. */
  function CreateResponseDtoList(fs: seq<Feedback>): (rs: seq<FeedbackResponse>)
    ensures |rs| == |fs|
    ensures forall i :: 0 <= i < |fs| ==> rs[i] == CreateResponseDto(fs[i])
  {
    if fs == [] then [] else [CreateResponseDto(fs[0])] + CreateResponseDtoList(fs[1..])
  }

  /**
   * `Math.round(x * 100.0) / 100.0` on exact reals: the whole number of
   * hundredths nearest to `x`, a half rounding up.
   */
  function RoundToTwoDecimals(x: real): (r: real)
    ensures (r * 100.0).Floor as real == r * 100.0
    ensures r * 100.0 - 0.5 <= x * 100.0 < r * 100.0 + 0.5
  {
    (x * 100.0 + 0.5).Floor as real / 100.0
  }

  /** The statistics response: a null average reads as 0.0, a null total as 0. */
  function CreateAverageRatingDto(recetteId: Id, averageRating: Option<real>, totalFeedbacks: Option<int>): (a: AverageRatingResponse)
    ensures a.recetteId == recetteId
    ensures averageRating.None? ==> a.averageRating == 0.0
    ensures averageRating.Some? ==>
      && (a.averageRating * 100.0).Floor as real == a.averageRating * 100.0
      && a.averageRating * 100.0 - 0.5 <= averageRating.value * 100.0 < a.averageRating * 100.0 + 0.5
    ensures a.totalFeedbacks == match totalFeedbacks case Some(t) => t case None => 0
  {
    AverageRatingResponse(
      recetteId,
      match averageRating case Some(v) => RoundToTwoDecimals(v) case None => 0.0,
      match totalFeedbacks case Some(t) => t case None => 0)
  }

  /** The fields an update never touches. */
  predicate SameIdentity(a: Feedback, b: Feedback) {
    a.id == b.id && a.utilisateurId == b.utilisateurId && a.recetteId == b.recetteId
    && a.dateFeedback == b.dateFeedback
  }

  /**
   * The partial-update merge: a present field overwrites, an absent one
   * keeps the original; the identity is kept and the modification date is `now`.
   */
  function CreateUpdatedFeedback(original: Feedback, newEvaluation: Option<int>, newCommentaire: Option<string>, now: Timestamp): (f: Feedback)
    ensures SameIdentity(f, original)
    ensures f.evaluation == if newEvaluation.Some? then newEvaluation.value else original.evaluation
    ensures f.commentaire == if newCommentaire.Some? then newCommentaire else original.commentaire
    ensures f.dateModification == now
  {
    Feedback(
      original.id,
      original.utilisateurId,
      original.recetteId,
      match newEvaluation case Some(e) => e case None => original.evaluation,
      match newCommentaire case Some(c) => Some(c) case None => original.commentaire,
      original.dateFeedback,
      now)
  }

  // ---------------------------------------------------------------------
  // Properties
  // ---------------------------------------------------------------------

  /** The record invariants of a persisted feedback. */
  predicate WellFormed(f: Feedback) {
    && RatingInRange(f.evaluation)
    && (f.commentaire.Some? ==> |f.commentaire.value| <= MaxCommentLength)
    && f.dateFeedback <= f.dateModification
  }

  /** A record made from a request that passed validation satisfies the record invariants. */
  lemma CreateFeedbackIsWellFormed(request: CreateValidation.FeedbackCreateRequest, now: Timestamp)
    requires CreateValidation.IsValid(request)
    ensures request.utilisateurId.Some? && request.recetteId.Some? && request.evaluation.Some?
    ensures WellFormed(CreateFeedback(request, now))
  {
    CreateValidation.IsValidIff(request);
  }

  /** Responding to a freshly made record hands back the request's four fields unchanged. */
  lemma CreateThenRespond(request: CreateValidation.FeedbackCreateRequest, now: Timestamp)
    requires request.utilisateurId.Some? && request.recetteId.Some? && request.evaluation.Some?
    ensures var r := CreateResponseDto(CreateFeedback(request, now));
      && r.id.None?
      && Some(r.utilisateurId) == request.utilisateurId
      && Some(r.recetteId) == request.recetteId
      && Some(r.evaluation) == request.evaluation
      && r.commentaire == request.commentaire
      && r.dateFeedback == now && r.dateModification == now
  {
  }

  /** The response mapping loses nothing: different records give different responses. */
  lemma CreateResponseDtoInjective(a: Feedback, b: Feedback)
    requires CreateResponseDto(a) == CreateResponseDto(b)
    ensures a == b
  {
  }

  /** Mapping a concatenation is concatenating the mappings. */
  lemma {:induction false} CreateResponseDtoListAppend(a: seq<Feedback>, b: seq<Feedback>)
    ensures CreateResponseDtoList(a + b) == CreateResponseDtoList(a) + CreateResponseDtoList(b)
  {
    if a != [] {
      assert (a + b)[1..] == a[1..] + b;
      CreateResponseDtoListAppend(a[1..], b);
    }
  }

  /** The rounding of `x` is the one whole number of hundredths `k` with `100x - 1/2 < k <= 100x + 1/2`. */
  lemma RoundToTwoDecimalsUnique(x: real, k: int)
    requires k as real - 0.5 <= x * 100.0 < k as real + 0.5
    ensures RoundToTwoDecimals(x) == k as real / 100.0
  {
    var r := RoundToTwoDecimals(x);
    var m := (r * 100.0).Floor;
    assert m as real - 0.5 <= x * 100.0 < m as real + 0.5;
    assert m == k;
  }

  /** Rounding an already rounded value changes nothing. */
  lemma RoundToTwoDecimalsIdempotent(x: real)
    ensures RoundToTwoDecimals(RoundToTwoDecimals(x)) == RoundToTwoDecimals(x)
  {
    var r := RoundToTwoDecimals(x);
    RoundToTwoDecimalsUnique(r, (r * 100.0).Floor);
  }

  /** The rounded value is never more than half a hundredth away. */
  lemma RoundToTwoDecimalsError(x: real)
    ensures -0.005 < RoundToTwoDecimals(x) - x <= 0.005
  {
  }

  /** 4.567 rounds to 4.57, 3.999 to 4.0 and 4.5 stays 4.5. */
  lemma RoundToTwoDecimalsExamples()
    ensures RoundToTwoDecimals(4.567) == 4.57
    ensures RoundToTwoDecimals(3.999) == 4.0
    ensures RoundToTwoDecimals(4.5) == 4.5
  {
    RoundToTwoDecimalsUnique(4.567, 457);
    RoundToTwoDecimalsUnique(3.999, 400);
    RoundToTwoDecimalsUnique(4.5, 450);
  }

  /** Rounding never reverses the order of two values. */
  lemma RoundToTwoDecimalsMonotone(x: real, y: real)
    requires x <= y
    ensures RoundToTwoDecimals(x) <= RoundToTwoDecimals(y)
  {
    var a := (x * 100.0 + 0.5).Floor;
    var b := (y * 100.0 + 0.5).Floor;
    assert a as real <= x * 100.0 + 0.5 <= y * 100.0 + 0.5 < b as real + 1.0;
    assert a <= b;
  }

  /** The statistics response of a recipe with no feedback. */
  lemma AverageRatingDtoDefaults(recetteId: Id)
    ensures CreateAverageRatingDto(recetteId, None, Some(0)) == AverageRatingResponse(recetteId, 0.0, 0)
    ensures CreateAverageRatingDto(recetteId, Some(4.5), None) == AverageRatingResponse(recetteId, 4.5, 0)
    ensures CreateAverageRatingDto(recetteId, Some(4.567), Some(10)) == AverageRatingResponse(recetteId, 4.57, 10)
  {
    RoundToTwoDecimalsExamples();
  }

  /** An update with both fields absent changes nothing but the modification date. */
  lemma EmptyUpdateOnlyTouchesModificationDate(original: Feedback, now: Timestamp)
    ensures CreateUpdatedFeedback(original, None, None, now) == original.(dateModification := now)
  {
  }

  /** Applying the same update twice at the same instant is applying it once. */
  lemma UpdateIsIdempotent(original: Feedback, e: Option<int>, c: Option<string>, now: Timestamp)
    ensures var once := CreateUpdatedFeedback(original, e, c, now);
      CreateUpdatedFeedback(once, e, c, now) == once
  {
  }

  /**
   * A valid update of a well-formed record at a time not before its
   * creation keeps the rating and date invariants; the comment bound is
   * kept only when the new comment is itself within it.
   */
  lemma UpdateKeepsInvariants(original: Feedback, e: Option<int>, c: Option<string>, now: Timestamp)
    requires WellFormed(original)
    requires e.None? || RatingInRange(e.value)
    requires now >= original.dateFeedback
    ensures var f := CreateUpdatedFeedback(original, e, c, now);
      && RatingInRange(f.evaluation)
      && f.dateFeedback <= f.dateModification
      && (WellFormed(f) <==> (c.None? || |c.value| <= MaxCommentLength))
  {
  }
}
