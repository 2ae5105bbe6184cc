/**
 * The body of a create call and its bean-validation constraints:
 * `@NotNull` on both ids and the rating, `@Min(1)`/`@Max(5)` on the rating,
 * `@Size(max = 1000)` on the optional comment. A constraint other than
 * `@NotNull` accepts a null value.
 */
module CreateValidation {
  import opened Domain

  datatype FeedbackCreateRequest = FeedbackCreateRequest(
    utilisateurId: Option<Id>,
    recetteId: Option<Id>,
    evaluation: Option<int>,
    commentaire: Option<string>)

  /** One constraint violation reported by the validator. */
  datatype Violation =
    | UtilisateurIdMissing
    | RecetteIdMissing
    | EvaluationMissing
    | EvaluationBelowMin
    | EvaluationAboveMax
    | CommentaireTooLong

  /** The set of violations the validator reports for `r`. */
  function Violations(r: FeedbackCreateRequest): (vs: set<Violation>)
    ensures UtilisateurIdMissing in vs <==> r.utilisateurId.None?
    ensures RecetteIdMissing in vs <==> r.recetteId.None?
    ensures EvaluationMissing in vs <==> r.evaluation.None?
    ensures EvaluationBelowMin in vs <==> r.evaluation.Some? && r.evaluation.value < MinRating
    ensures EvaluationAboveMax in vs <==> r.evaluation.Some? && r.evaluation.value > MaxRating
    ensures CommentaireTooLong in vs <==> r.commentaire.Some? && |r.commentaire.value| > MaxCommentLength
  {
    (if r.utilisateurId.None? then {UtilisateurIdMissing} else {})
    + (if r.recetteId.None? then {RecetteIdMissing} else {})
    + (match r.evaluation
       case None => {EvaluationMissing}
       case Some(e) =>
         (if e < MinRating then {EvaluationBelowMin} else {})
         + (if e > MaxRating then {EvaluationAboveMax} else {}))
    + (match r.commentaire
       case Some(c) => if |c| > MaxCommentLength then {CommentaireTooLong} else {}
       case None => {})
  }

  predicate IsValid(r: FeedbackCreateRequest) {
    Violations(r) == {}
  }

  /** A request passes validation exactly when both ids and a 1..5 rating are present and any comment is short enough. */
  lemma IsValidIff(r: FeedbackCreateRequest)
    ensures IsValid(r) <==>
      && r.utilisateurId.Some?
      && r.recetteId.Some?
      && r.evaluation.Some? && RatingInRange(r.evaluation.value)
      && (r.commentaire.Some? ==> |r.commentaire.value| <= MaxCommentLength)
  {
    if !IsValid(r) {
      var v :| v in Violations(r);
    }
  }

  /** An empty body yields exactly the three `@NotNull` violations; the absent rating trips neither bound. */
  lemma {:induction false} AllNullHasThreeViolations()
    ensures Violations(FeedbackCreateRequest(None, None, None, None)) == {UtilisateurIdMissing, RecetteIdMissing, EvaluationMissing}
    ensures |Violations(FeedbackCreateRequest(None, None, None, None))| == 3
  {
    var vs := Violations(FeedbackCreateRequest(None, None, None, None));
    assert vs == {UtilisateurIdMissing, RecetteIdMissing, EvaluationMissing};
  }

  /** The rating is in range exactly for 1..5: 0 and 6 are each rejected by one bound. */
  lemma RatingBounds(u: Id, rc: Id, e: int, c: Option<string>)
    requires c.None? || |c.value| <= MaxCommentLength
    ensures IsValid(FeedbackCreateRequest(Some(u), Some(rc), Some(e), c)) <==> 1 <= e <= 5
    ensures Violations(FeedbackCreateRequest(Some(u), Some(rc), Some(0), c)) == {EvaluationBelowMin}
    ensures Violations(FeedbackCreateRequest(Some(u), Some(rc), Some(6), c)) == {EvaluationAboveMax}
  {
    var r := FeedbackCreateRequest(Some(u), Some(rc), Some(e), c);
    IsValidIff(r);
  }

  /** 1000 characters are accepted, 1001 are not. */
  lemma CommentLengthBoundary(u: Id, rc: Id, e: int, c: string)
    requires RatingInRange(e)
    ensures IsValid(FeedbackCreateRequest(Some(u), Some(rc), Some(e), Some(c))) <==> |c| <= 1000
    ensures |c| == 1001 ==> Violations(FeedbackCreateRequest(Some(u), Some(rc), Some(e), Some(c))) == {CommentaireTooLong}
  {
    IsValidIff(FeedbackCreateRequest(Some(u), Some(rc), Some(e), Some(c)));
  }

  /** A fully populated request with rating 5 has no violation. */
  lemma FullRequestIsValid()
    ensures IsValid(FeedbackCreateRequest(Some(1), Some(5), Some(5), Some("Parfait")))
  {
  }
}
