# Feedback microservice — a Dafny model

This project models the record logic of the `ms-feedback` microservice.
The service lets users rate and comment on recipes. It stores nothing
itself: every record lives in a remote persistence service, and the 100
newest records are forwarded to a recommendation service.

The model covers four parts:

- **Request validation** (`CreateValidation`, `UpdateValidation`). These are the
  bean-validation constraints of the create and update bodies, written as the
  set of violations a request raises.
- **The factory** (`Factory`). These are pure mappings: request to record, record
  to response, the partial-update merge, and the statistics response with its
  half-up rounding to two decimals. The rounding is stated exactly on reals.
- **The repository queries** (`Repository`). The five derived queries are
  functions over the stored records. "Newest first" is a stable insertion sort
  on `dateFeedback`.
- **The service** (`Service.FeedbackService`). It runs against a store class
  (`Persistence.PersistenceStore`) that stands in for the HTTP persistence
  client. The store holds:
  - the feedback table, in ascending id order;
  - the id counter it assigns from;
  - the users and recipes it knows;
  - a `reachable` flag, under which every remote failure is subsumed.

  Create, update and delete are methods that change the store. Reads, the
  average and the recommendation hand-off are methods that leave it alone.

Supporting modules:

- `Domain` holds the canonical record and the rating and comment bounds.
- `LongParsing` holds `Long.parseLong` as a partial function, with
  `Long.toString` as its round-trip partner.

Modelling choices:

- Ids and timestamps are unbounded integers.
- A Java `null` is `None` for the record's `id` and `commentaire`. The other
  boxed fields of a record are never null in the model (see "## Left out").
- An exception is the `Failure` side of a `Result`, or `Fail` of an `Outcome`.
- `LocalDateTime.now()` is a parameter `now`.
- The downstream POST is an out-parameter `post`: `None` means no call was
  made. Whether the recommendation service accepts the POST is the parameter
  `recommendationAccepts`.
- The service's private `mapToResponse` (FeedbackServiceImpl.java:230-240) is
  the same field-for-field copy as the factory's `createResponseDto`. The model
  uses `Factory.CreateResponseDto` for both.
- The controller applies `@Valid` to the create body (FeedbackController.java:47)
  and to the update body (FeedbackController.java:156). The service's create
  and update methods do not need a validated request. `CreateFeedback` requires
  only that both ids and the rating are present. Both methods state that a
  valid request keeps every stored rating on the 1..5 scale.

## Model

| member | source | states |
|---|---|---|
| CreateValidation.Violations | src/main/java/com/springbootTemplate/univ/soa/dto/FeedbackCreateRequest.java:17-33 | each of the six violations is reported exactly when its constraint fails: either id null, rating null, rating below 1 or above 5, comment over 1000 characters |
| CreateValidation.IsValidIff | src/main/java/com/springbootTemplate/univ/soa/dto/FeedbackCreateRequest.java:17-33 | a create request is valid iff both ids are present, the rating is present and in 1..5, and any comment has at most 1000 characters |
| CreateValidation.AllNullHasThreeViolations | src/test/java/com/springbootTemplate/univ/soa/dto/FeedbackCreateRequestTest.java:34-43 | an all-null request has exactly the three not-null violations; the absent rating trips neither bound |
| CreateValidation.RatingBounds | src/main/java/com/springbootTemplate/univ/soa/dto/FeedbackCreateRequest.java:26-28 | otherwise valid requests are valid iff the rating is in 1..5; 0 yields only the minimum violation, 6 only the maximum one |
| CreateValidation.CommentLengthBoundary | src/main/java/com/springbootTemplate/univ/soa/dto/FeedbackCreateRequest.java:31-33 | an otherwise valid request is valid iff its comment has at most 1000 characters; 1001 yields only the size violation |
| CreateValidation.FullRequestIsValid | src/test/java/com/springbootTemplate/univ/soa/dto/FeedbackCreateRequestTest.java:21-32 | a fully populated request with rating 5 is valid |
| UpdateValidation.Violations | src/main/java/com/springbootTemplate/univ/soa/dto/FeedbackUpdateRequest.java:11-14 | a bound violation is reported exactly when a present rating is below 1 or above 5 |
| UpdateValidation.IsValidIff | src/main/java/com/springbootTemplate/univ/soa/dto/FeedbackUpdateRequest.java:11-17 | an update request is valid iff its rating is absent or in 1..5, whatever its comment |
| UpdateValidation.EmptyRequestIsValid | src/main/java/com/springbootTemplate/univ/soa/dto/FeedbackUpdateRequest.java:11-17 | the request with both fields absent is valid |
| UpdateValidation.RatingExamples | src/test/java/com/springbootTemplate/univ/soa/dto/FeedbackUpdateRequestTest.java:22-51 | rating 4 with a comment is valid; rating 10 is not |
| UpdateValidation.CommentIsUnbounded | src/main/java/com/springbootTemplate/univ/soa/dto/FeedbackUpdateRequest.java:16-17 | a comment of any length, 1001 characters included, is accepted in an update |
| LongParsing.ParseLong | src/main/java/com/springbootTemplate/univ/soa/service/FeedbackServiceImpl.java:72 | parsing succeeds iff the text is an optional sign, at least one digit and a value in the 64-bit range; the value has the sign written |
| LongParsing.ParseLongOfLongToString | src/main/java/com/springbootTemplate/univ/soa/service/FeedbackServiceImpl.java:72 | every 64-bit value parses back from its decimal text |
| LongParsing.ParseLongIgnoresPlusAndLeadingZeros | src/main/java/com/springbootTemplate/univ/soa/service/FeedbackServiceImpl.java:72 | a leading plus sign or a leading zero, also after a minus sign, does not change what a digit string parses to |
| LongParsing.ParseLongExamples | src/main/java/com/springbootTemplate/univ/soa/service/FeedbackServiceImpl.java:72 | "1", "99", "-7" and "+5" parse; "invalid-id", "abc", "", "-" and 10^19 are rejected |
| Factory.CreateFeedback | src/main/java/com/springbootTemplate/univ/soa/factory/FeedbackFactory.java:24-33 | the new record has no id, copies the four request fields verbatim (a null comment stays null), and both dates are `now` |
| Factory.CreateResponseDto | src/main/java/com/springbootTemplate/univ/soa/factory/FeedbackFactory.java:39-49 | every one of the seven fields is copied unchanged |
| Factory.CreateResponseDtoList | src/main/java/com/springbootTemplate/univ/soa/factory/FeedbackFactory.java:54-58 | the list has the input's length, and position i holds the response of record i |
| Factory.RoundToTwoDecimals | src/main/java/com/springbootTemplate/univ/soa/factory/FeedbackFactory.java:89-91 | the result is a whole number of hundredths, at most half a hundredth above the input and less than half a hundredth below it, so a half rounds up |
| Factory.CreateAverageRatingDto | src/main/java/com/springbootTemplate/univ/soa/factory/FeedbackFactory.java:63-69 | the recipe id is copied; a null average reads 0.0; a present one becomes a whole number of hundredths, at most half a hundredth above it and less than half a hundredth below it, so the half-up rounding; a null total reads 0 |
| Factory.CreateUpdatedFeedback | src/main/java/com/springbootTemplate/univ/soa/factory/FeedbackFactory.java:74-84 | id, user, recipe and creation date are kept; a present field overwrites and an absent one keeps the original; the modification date is `now` |
| Factory.CreateFeedbackIsWellFormed | src/main/java/com/springbootTemplate/univ/soa/factory/FeedbackFactory.java:24-33 | a record made from a valid request has a 1..5 rating, a comment within 1000 characters and a creation date not after its modification date |
| Factory.CreateThenRespond | src/main/java/com/springbootTemplate/univ/soa/factory/FeedbackFactory.java:24-49 | responding to a freshly made record hands back the request's four fields and `now` twice |
| Factory.CreateResponseDtoInjective | src/main/java/com/springbootTemplate/univ/soa/factory/FeedbackFactory.java:39-49 | distinct records give distinct responses |
| Factory.CreateResponseDtoListAppend | src/main/java/com/springbootTemplate/univ/soa/factory/FeedbackFactory.java:54-58 | mapping a concatenation is concatenating the mapped lists |
| Factory.RoundToTwoDecimalsUnique | src/main/java/com/springbootTemplate/univ/soa/factory/FeedbackFactory.java:89-91 | the rounding of x is k/100 for the only whole number k with 100x - 1/2 < k <= 100x + 1/2 |
| Factory.RoundToTwoDecimalsIdempotent | src/main/java/com/springbootTemplate/univ/soa/factory/FeedbackFactory.java:89-91 | rounding a rounded value changes nothing |
| Factory.RoundToTwoDecimalsError | src/main/java/com/springbootTemplate/univ/soa/factory/FeedbackFactory.java:89-91 | rounding moves a value by more than -0.005 and at most +0.005 |
| Factory.RoundToTwoDecimalsMonotone | src/main/java/com/springbootTemplate/univ/soa/factory/FeedbackFactory.java:89-91 | rounding preserves order |
| Factory.RoundToTwoDecimalsExamples | src/main/java/com/springbootTemplate/univ/soa/factory/FeedbackFactory.java:89-91 | 4.567 rounds to 4.57, 3.999 to 4.0, and 4.5 stays 4.5 |
| Factory.AverageRatingDtoDefaults | src/main/java/com/springbootTemplate/univ/soa/factory/FeedbackFactory.java:63-69 | (null, 0) gives 0.0 and 0; (4.5, null) gives 4.5 and 0; (4.567, 10) gives 4.57 and 10 |
| Factory.EmptyUpdateOnlyTouchesModificationDate | src/main/java/com/springbootTemplate/univ/soa/factory/FeedbackFactory.java:79-80 | with both new fields null, the result is the original with only the modification date changed |
| Factory.UpdateIsIdempotent | src/main/java/com/springbootTemplate/univ/soa/factory/FeedbackFactory.java:74-84 | applying the same update twice at the same instant is applying it once |
| Factory.UpdateKeepsInvariants | src/main/java/com/springbootTemplate/univ/soa/factory/FeedbackFactory.java:74-84 | a valid update keeps the rating in 1..5 and the dates ordered; the comment bound survives iff the new comment is within it |
| Repository.InsertNewestFirst | src/main/java/com/springbootTemplate/univ/soa/service/FeedbackServiceImpl.java:206-207 | inserting into a newest-first list keeps it newest first and adds exactly one occurrence of the record |
| Repository.SortNewestFirst | src/main/java/com/springbootTemplate/univ/soa/service/FeedbackServiceImpl.java:206-207 | the result is in non-increasing date order and a permutation of the input |
| Repository.SortIsStable | src/main/java/com/springbootTemplate/univ/soa/service/FeedbackServiceImpl.java:206-207 | for every date, the records of that date appear in the result in their input order |
| Repository.Where | src/main/java/com/springbootTemplate/univ/soa/repository/FeedbackRepository.java:17 | each record occurs as often as in the input if it satisfies the filter, and not at all otherwise |
| Repository.FindByUserIdOrderByDateFeedbackDesc | src/main/java/com/springbootTemplate/univ/soa/repository/FeedbackRepository.java:17 | exactly the user's records, with their multiplicities, newest first |
| Repository.FindByRecetteIdOrderByDateFeedbackDesc | src/main/java/com/springbootTemplate/univ/soa/repository/FeedbackRepository.java:22 | exactly the recipe's records, with their multiplicities, newest first |
| Repository.CountByRecetteId | src/main/java/com/springbootTemplate/univ/soa/repository/FeedbackRepository.java:33 | the count is the number of records whose recetteId is the recipe, at most the table size |
| Repository.CountMatchesFind | src/main/java/com/springbootTemplate/univ/soa/repository/FeedbackRepository.java:22-33 | the count equals the length of the recipe's listing |
| Repository.CountZeroIff | src/main/java/com/springbootTemplate/univ/soa/repository/FeedbackRepository.java:33 | the count is zero iff no record belongs to the recipe |
| Repository.FindAverageRatingByRecetteId | src/main/java/com/springbootTemplate/univ/soa/repository/FeedbackRepository.java:27-28 | the average is null iff no record belongs to the recipe, and otherwise exactly the arithmetic mean: the sum of the ratings of the recipe's listing divided by its length |
| Repository.SumOfRatingsBounds | src/main/java/com/springbootTemplate/univ/soa/repository/FeedbackRepository.java:27-28 | n ratings on the 1..5 scale sum to between n and 5n |
| Repository.AverageWithinScale | src/main/java/com/springbootTemplate/univ/soa/repository/FeedbackRepository.java:27-28 | when every stored rating is in 1..5, a non-null average lies in [1, 5] |
| Repository.FirstIsNewest | src/main/java/com/springbootTemplate/univ/soa/repository/FeedbackRepository.java:38 | in a newest-first list no record after a prefix is newer than a record inside it |
| Repository.FindTop100ByOrderByDateFeedbackDesc | src/main/java/com/springbootTemplate/univ/soa/repository/FeedbackRepository.java:38 | min(100, n) records drawn from the input, newest first, none of those left out newer than one returned |
| Repository.Top100KeepsEarliestTies | src/main/java/com/springbootTemplate/univ/soa/service/FeedbackServiceImpl.java:206-209 | for every date, the selected records of that date are the earliest of that date in input order |
| Repository.SumOfSort | src/main/java/com/springbootTemplate/univ/soa/service/FeedbackServiceImpl.java:128-131 | sorting does not change the sum of the ratings |
| Persistence.Lookup | src/main/java/com/springbootTemplate/univ/soa/client/PersistanceClient.java:92-114 | a found record is stored under the requested id; nothing is found iff no stored record has that id |
| Persistence.Replace | src/main/java/com/springbootTemplate/univ/soa/client/PersistanceClient.java:167-193 | for a new record under the same id, only the positions holding the id change and they hold the new record; the id then finds the new record if it found one before, and every other id finds what it found before |
| Persistence.Remove | src/main/java/com/springbootTemplate/univ/soa/client/PersistanceClient.java:198-213 | the remaining records are exactly the stored ones with another id |
| Persistence.RemoveKeepsIdsAscending | src/main/java/com/springbootTemplate/univ/soa/client/PersistanceClient.java:198-213 | removal keeps the ids present, below the counter and strictly ascending |
| Persistence.LookupAfterAppend | src/main/java/com/springbootTemplate/univ/soa/client/PersistanceClient.java:28-63 | after a create, the new id finds the new record and every other id finds what it found before |
| Persistence.LookupAfterRemove | src/main/java/com/springbootTemplate/univ/soa/client/PersistanceClient.java:198-213 | after a delete, the id finds nothing and every other id finds what it found before |
| Persistence.PersistenceStore.UtilisateurExists | src/main/java/com/springbootTemplate/univ/soa/client/PersistanceClient.java:218-231 | true iff the store answers and knows the user; any failure reads as false |
| Persistence.PersistenceStore.RecetteExists | src/main/java/com/springbootTemplate/univ/soa/client/PersistanceClient.java:236-249 | true iff the store answers and knows the recipe; any failure reads as false |
| Persistence.PersistenceStore.GetFeedbackById | src/main/java/com/springbootTemplate/univ/soa/client/PersistanceClient.java:92-114 | succeeds iff the store answers and holds the id, with the stored record under that id |
| Persistence.PersistenceStore.GetAllFeedbacks | src/main/java/com/springbootTemplate/univ/soa/client/PersistanceClient.java:68-87 | succeeds iff the store answers, with the whole table |
| Persistence.PersistenceStore.GetFeedbacksByUtilisateurId | src/main/java/com/springbootTemplate/univ/soa/client/PersistanceClient.java:119-138 | succeeds iff the store answers, with exactly the user's records, newest first |
| Persistence.PersistenceStore.GetFeedbacksByRecetteId | src/main/java/com/springbootTemplate/univ/soa/client/PersistanceClient.java:143-162 | succeeds iff the store answers, with exactly the recipe's records, newest first |
| Persistence.PersistenceStore.CreateFeedback | src/main/java/com/springbootTemplate/univ/soa/client/PersistanceClient.java:28-63 | succeeds iff the store answers; the record is appended under the next id, which advances; on failure nothing changes; the table stays valid |
| Persistence.PersistenceStore.UpdateFeedback | src/main/java/com/springbootTemplate/univ/soa/client/PersistanceClient.java:167-193 | succeeds iff the store answers and holds the id; the record under the id is replaced; on failure nothing changes |
| Persistence.PersistenceStore.DeleteFeedback | src/main/java/com/springbootTemplate/univ/soa/client/PersistanceClient.java:198-213 | succeeds iff the store answers and holds the id; the record is removed; on failure nothing changes |
| Service.AverageRating | src/main/java/com/springbootTemplate/univ/soa/service/FeedbackServiceImpl.java:120-137 | an empty listing gives 0.0 and 0; otherwise the total is the list size and the average is (200·sum + n) div 2n hundredths, the mean rounded half-up |
| Service.RoundedMean | src/main/java/com/springbootTemplate/univ/soa/service/FeedbackServiceImpl.java:135 | half-up rounding of sum/n to hundredths equals (200·sum + n) div 2n hundredths |
| Service.AverageRatingExamples | src/test/java/com/springbootTemplate/univ/soa/service/FeedbackServiceImplTest.java:120-156 | ratings [4, 5] give 4.5 with total 2; ratings [4, 4, 5] give 4.33 with total 3 |
| Service.AverageRatingWithinScale | src/main/java/com/springbootTemplate/univ/soa/service/FeedbackServiceImpl.java:128-137 | with every rating in 1..5, the rounded average lies in [1, 5] |
| Service.AverageRatingAgreesWithRepository | src/main/java/com/springbootTemplate/univ/soa/service/FeedbackServiceImpl.java:113-137 | the statistics computed from the recipe's listing equal the factory's response built from the repository's average and count queries |
| Service.FeedbackService.CreateFeedback | src/main/java/com/springbootTemplate/univ/soa/service/FeedbackServiceImpl.java:27-56 | an unknown user fails first, then an unknown recipe, with no write; otherwise exactly one record is appended under the next id, carrying the request's four fields and `now` twice; a valid request keeps the stored ratings in 1..5 |
| Service.FeedbackService.GetAllFeedbacks | src/main/java/com/springbootTemplate/univ/soa/service/FeedbackServiceImpl.java:58-65 | succeeds iff the store answers, with the response of every stored record in store order; otherwise a persistence failure |
| Service.FeedbackService.GetFeedbackById | src/main/java/com/springbootTemplate/univ/soa/service/FeedbackServiceImpl.java:67-80 | a malformed id is not found (format); a well-formed one succeeds iff the store answers and holds it, and every other failure is not found |
| Service.FeedbackService.GetFeedbacksByUserId | src/main/java/com/springbootTemplate/univ/soa/service/FeedbackServiceImpl.java:82-95 | a malformed id is an illegal argument, not a not-found; a store failure passes through; otherwise the responses of the user's records, newest first |
| Service.FeedbackService.GetFeedbacksByRecetteId | src/main/java/com/springbootTemplate/univ/soa/service/FeedbackServiceImpl.java:97-110 | a malformed id is an illegal argument, not a not-found; a store failure passes through; otherwise the responses of the recipe's records, newest first |
| Service.FeedbackService.GetAverageRatingByRecetteId | src/main/java/com/springbootTemplate/univ/soa/service/FeedbackServiceImpl.java:112-142 | a malformed id is an illegal argument; a store failure passes through; otherwise the statistics equal the factory's response built from the repository's average and count |
| Service.FeedbackService.UpdateFeedback | src/main/java/com/springbootTemplate/univ/soa/service/FeedbackServiceImpl.java:144-174 | a malformed, absent or failing id is not found and the store is unchanged; otherwise the merged record replaces the stored one under the same id and no other id changes |
| Service.FeedbackService.DeleteFeedback | src/main/java/com/springbootTemplate/univ/soa/service/FeedbackServiceImpl.java:176-190 | a malformed, absent or failing id is not found and the store is unchanged; otherwise the id is gone and no other id changes |
| Service.FeedbackService.SendFeedbacksToRecommendationService | src/main/java/com/springbootTemplate/univ/soa/service/FeedbackServiceImpl.java:192-224 | a post is made iff the store answers and is non-empty, to the update-model endpoint, carrying the 100 newest records; every failure names the configured URL |

## Left out

- Floating point: averages and rounding are exact reals, not IEEE 754 doubles. The model's `Floor(100x + 1/2)` is `Math.round`'s own rule, negative inputs included: halves round toward +∞. Only the representation error of doubles is left out.
- LongParsing.ParseLong: accepts only ASCII digits, while `Long.parseLong` also accepts other Unicode decimal digits.
- Comment length is the number of `char`s of a Dafny string. The Java `@Size` counts UTF-16 code units, which can differ outside the Basic Multilingual Plane.
- Ids and timestamps are unbounded. The overflow of the store's 64-bit id counter is not modelled, and timestamps are plain integers rather than `LocalDateTime`.
- The two separate `LocalDateTime.now()` calls of a create (FeedbackServiceImpl.java:47-48, FeedbackFactory.java:30-31) are one value `now`. In the source the two dates can differ by a few nanoseconds.
- The persistence service is a store class, not an HTTP client:
  - one `reachable` flag stands for every remote failure;
  - no failure of the create or update call itself, once the existence checks or the read have succeeded, is modelled (a 409, 404 or 400 answer, any other error answer, or no answer, PersistanceClient.java:47-61 and the update call after it), so the service's matching failure branches are unreachable in the model;
  - the table is a sequence in ascending id order, queried through `Lookup`, `Replace` and `Remove`, rather than a map (the listings' order depends on it).
- The remote persistence service is assumed to answer the user and recipe listings (PersistanceClient.java:119-162) with the repository's derived queries, filtered and newest first with the stable tie order; the client itself returns the HTTP body as is and adds no filter or ordering.
- The repository "newest first" order is a stable sort. A database may order records of the same date differently.
- Exception messages, logging and HTTP status mapping are left out. The controller, the global exception handler, configuration and the integration-test runner are not part of this model.
  - Each error is a `ServiceError` constructor carrying the id or URL its message names.
  - The three illegal-argument cases (unknown user, unknown recipe, malformed list or average id) are distinct constructors.
- The repository-backed service variant exercised by FeedbackServiceTest.java, and that variant's existence check before delete, are not modelled.
- The String `userId` of the factory and repository versus the Long `utilisateurId` of the requests and client is not reproduced. One canonical record with integer ids is used throughout, and `Factory.CreateFeedback` takes the create request.
- Factory.CreateFeedback: requires the request's `utilisateurId`, `recetteId` and `evaluation` to be present, and a record's `utilisateurId`, `recetteId`, `evaluation`, `dateFeedback` and `dateModification` are never null. In the source these are nullable boxed fields, and `createFeedback` copies a null request field verbatim. So two failures are not modelled: a stored record with a null evaluation makes the average's `mapToInt` (FeedbackServiceImpl.java:128-131) throw an uncaught `NullPointerException`, and a null `dateFeedback` breaks the comparator of the send (FeedbackServiceImpl.java:206-207), which then fails with the error naming the URL (FeedbackServiceImpl.java:217-223).
- Service.FeedbackService.CreateFeedback: requires both ids and the rating present, for the same reason.
- An update request carries no comment length bound. `Factory.UpdateKeepsInvariants` and `UpdateValidation.CommentIsUnbounded` show that an update can store a comment longer than a create would accept. The model records this and does not change it.
