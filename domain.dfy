/**
 * The values the feedback service passes around: the persisted feedback
 * record, the outbound response shapes, and the small wrappers used for
 * Java's nullable references and its exceptions.
 */
module Domain {

  /** A nullable Java reference: `null` is `None`. */
  datatype Option<T> = None | Some(value: T)

  /** A call that either returns a value or throws. */
  datatype Result<T, E> = Success(value: T) | Failure(error: E)

  /** A `void` call that either returns or throws. */
  datatype Outcome<E> = Pass | Fail(error: E)

  /** A numeric key (a Java `Long`: feedback, user and recipe ids). */
  type Id = int

  /** A `LocalDateTime`, as a point of a totally ordered clock. */
  type Timestamp = int

  /** The persisted feedback record (the entity and the DTO the persistence service exchanges). */
  datatype Feedback = Feedback(
    id: Option<Id>,
    utilisateurId: Id,
    recetteId: Id,
    evaluation: int,
    commentaire: Option<string>,
    dateFeedback: Timestamp,
    dateModification: Timestamp)

  /** The outbound representation of one feedback. */
  datatype FeedbackResponse = FeedbackResponse(
    id: Option<Id>,
    utilisateurId: Id,
    recetteId: Id,
    evaluation: int,
    commentaire: Option<string>,
    dateFeedback: Timestamp,
    dateModification: Timestamp)

  /** The statistics of one recipe. */
  datatype AverageRatingResponse = AverageRatingResponse(
    recetteId: Id,
    averageRating: real,
    totalFeedbacks: int)

  const MinRating := 1
  const MaxRating := 5
  const MaxCommentLength := 1000

  predicate RatingInRange(e: int) {
    MinRating <= e <= MaxRating
  }

  /** Every record of `s` carries a rating on the 1..5 scale. */
  ghost predicate RatingsInRange(s: seq<Feedback>) {
    forall i :: 0 <= i < |s| ==> RatingInRange(s[i].evaluation)
  }

  function Min(a: int, b: int): int {
    if a <= b then a else b
  }
}
