/**
 * The body of an update call: both fields optional, a present rating
 * bounded by `@Min(1)`/`@Max(5)`, and no length bound on the comment.
 */
module UpdateValidation {
  import opened Domain

  datatype FeedbackUpdateRequest = FeedbackUpdateRequest(
    evaluation: Option<int>,
    commentaire: Option<string>)

  datatype Violation = EvaluationBelowMin | EvaluationAboveMax

  function Violations(r: FeedbackUpdateRequest): (vs: set<Violation>)
    ensures EvaluationBelowMin in vs <==> r.evaluation.Some? && r.evaluation.value < MinRating
    ensures EvaluationAboveMax in vs <==> r.evaluation.Some? && r.evaluation.value > MaxRating
  {
    match r.evaluation
    case None => {}
    case Some(e) =>
      (if e < MinRating then {EvaluationBelowMin} else {})
      + (if e > MaxRating then {EvaluationAboveMax} else {})
  }

  predicate IsValid(r: FeedbackUpdateRequest) {
    Violations(r) == {}
  }

  /** Valid exactly when the rating is absent or on the 1..5 scale; the comment never matters. */
  lemma IsValidIff(r: FeedbackUpdateRequest)
    ensures IsValid(r) <==> (r.evaluation.None? || RatingInRange(r.evaluation.value))
  {
    if !IsValid(r) {
      var v :| v in Violations(r);
    }
  }

  /** The empty body (a partial update of nothing) is valid. */
  lemma EmptyRequestIsValid()
    ensures IsValid(FeedbackUpdateRequest(None, None))
  {
  }

  /** Rating 4 with a comment is valid; rating 10 is not. */
  lemma RatingExamples()
    ensures IsValid(FeedbackUpdateRequest(Some(4), Some("Update")))
    ensures !IsValid(FeedbackUpdateRequest(Some(10), None))
  {
    assert EvaluationAboveMax in Violations(FeedbackUpdateRequest(Some(10), None));
  }

  /**
   * Unlike a create request, an update request accepts a comment of any
   * length: 1001 characters pass here and are rejected there.
   */
  lemma CommentIsUnbounded(e: Option<int>, c: string)
    requires e.None? || RatingInRange(e.value)
    ensures IsValid(FeedbackUpdateRequest(e, Some(c)))
  {
    IsValidIff(FeedbackUpdateRequest(e, Some(c)));
  }
}
