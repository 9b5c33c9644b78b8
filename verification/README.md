# GuitarRecs recommender core in Dafny

GuitarRecs recommends guitars with user-based collaborative filtering. Each
user scores a guitar on five criteria from 1 to 5: guitar type, body
material, string type, brand and price. The mean of the five is the rating's
composite (`averageRating`).

The backend does the following:

- builds a user × guitar matrix of composites;
- compares users by the cosine of their common ratings;
- takes the K most similar users as neighbours;
- predicts an unrated guitar as the similarity-weighted mean of the
  neighbours' composites;
- ranks the predictions into recommendations with fixed category thresholds;
- evaluates itself with MAE and RMSE over every stored rating.

The controllers add a few pure rules around this core:

- price-range buckets and the per-guitar mean;
- the field rules for creating and updating a guitar;
- the list of guitars a user has not rated;
- score validation, the insert-or-replace of a rating, and the rating
  statistics.

## How the program is modelled

- **The database is an in-memory snapshot `Domain.Db`.** It holds the users,
  the guitars and the ratings. The users and guitars are in the order the
  queries return them (ascending name).
- **Numbers are exact `real`s.** `Math.round(x * 10^d) / 10^d` is
  `Rounding.RoundTo`, which rounds half up, as JavaScript does.
- **Square roots are never computed.**
  - The cosine and the RMSE round a quotient by a square root.
  - `Rounding.RoundOverRoot` finds that rounded value by an integer search over
    a squared-form comparison.
  - `Rounding.RoundOverRootMeaning` proves it equals the JavaScript expression
    for any `s >= 0` with `s * s == m`.
- **Objects keyed by integer id are ascending-key entry lists** (`IntKeyed`).
  These are the matrix rows and the per-user groups. JavaScript enumerates
  such keys in ascending numeric order, so rated guitars, unrated guitars and
  user summaries come out in id order.
- **`Array.prototype.sort` is stable.** It is modelled by a stable insertion
  sort, descending on a real key (`StableSort.SortDesc`).
  `StableSort.SortDescUnique` shows that any stable descending sort gives the
  same list.
- **K and `topN` are parameters** with `slice(0, end)` semantics, where a
  negative end counts from the back (`Common.Slice`).
  - `getKValue` reads a stored configuration. Its value is the `configuredK`
    parameter of the evaluation.

## Model

| member | source | states |
|---|---|---|
| VectorMath.CosineSimilarity | backend/src/utils/mathUtils.js:11-42 | 0 for vectors of different length, for empty vectors, and when either vector has zero magnitude |
| VectorMath.CosineMeaning | backend/src/utils/mathUtils.js:37-41 | for any roots `sa`, `sb` of the two squared magnitudes, the result is the dot product over their product, rounded to 4 decimals |
| VectorMath.CosineSymmetric | backend/src/utils/mathUtils.js:16-41 | swapping the two vectors does not change the similarity |
| VectorMath.CauchySchwarz | backend/src/utils/mathUtils.js:16-28 | the squared dot product is at most the product of the squared magnitudes |
| VectorMath.CosineInUnitRange | backend/src/utils/mathUtils.js:37-41 | the similarity lies in [-1, 1] |
| VectorMath.CosineOfNonNegative | backend/src/utils/mathUtils.js:9-41 | for non-negative vectors the similarity lies in [0, 1], as the doc comment says |
| VectorMath.CosineSelf | backend/src/utils/mathUtils.js:37-41 | a non-zero vector has similarity exactly 1 with itself |
| VectorMath.MeanAbsoluteError | backend/src/utils/mathUtils.js:50-61 | never negative; 0 for empty or mismatched inputs |
| VectorMath.RootMeanSquaredError | backend/src/utils/mathUtils.js:69-81 | never negative; 0 for empty or mismatched inputs |
| VectorMath.RmseMeaning | backend/src/utils/mathUtils.js:69-81 | for any root `s` of the mean squared error, the result is `s` rounded to 4 decimals |
| VectorMath.RmseAtLeastMae | backend/src/utils/mathUtils.js:55-60 | the reported RMSE is never below the reported MAE for the same pair of lists |
| VectorMath.Average | backend/src/utils/mathUtils.js:88-92 | the average of an empty list is 0 |
| VectorMath.AverageWithin | backend/src/utils/mathUtils.js:88-92 | the rounded mean of values in [lo, hi] lies between the rounded bounds |
| Rounding.RoundTo | backend/src/utils/mathUtils.js:41 | `Math.round(x * s) / s` is within half a unit of `x`, and is non-negative for non-negative `x` |
| Rounding.RoundToMonotone | backend/src/utils/mathUtils.js:41 | rounding preserves order |
| Rounding.RoundOverRootMeaning | backend/src/utils/mathUtils.js:80 | the sqrt-free rounding equals `Math.round(u / sqrt(m))` for every root of `m` |
| Common.Slice | backend/src/services/collaborativeFiltering.js:132 | `slice(0, end)` is a prefix: of length `min(end, n)` for a non-negative end, and `n` minus `min(-end, n)` for a negative one |
| IntKeyed.Get | backend/src/services/collaborativeFiltering.js:41 | a key is absent exactly when it is not among the object's keys |
| IntKeyed.Put | backend/src/services/collaborativeFiltering.js:48 | assignment keeps keys ascending and adds exactly the assigned key |
| IntKeyed.GetPutSame | backend/src/services/collaborativeFiltering.js:48 | reading the assigned key gives the assigned value |
| IntKeyed.GetPutOther | backend/src/services/collaborativeFiltering.js:48 | every other key reads as before |
| StableSort.SortDesc | backend/src/services/collaborativeFiltering.js:107 | the result is a permutation of the input in non-increasing key order |
| StableSort.SortDescStable | backend/src/services/collaborativeFiltering.js:107 | elements with equal key keep their input order |
| StableSort.SortDescUnique | backend/src/services/collaborativeFiltering.js:107 | every sorted, stable permutation of the input is this result |
| Domain.CompositeInRange | backend/src/controllers/ratingController.js:86-96 | five scores that pass validation have a composite in [1, 5] |
| Domain.UserName | backend/src/services/evaluationService.js:50 | a name is found exactly when a user has the id |
| Domain.GuitarName | backend/src/services/collaborativeFiltering.js:224-227 | a name is found exactly when a guitar has the id |
| Matrix.ListedUsers | backend/src/services/collaborativeFiltering.js:23-26 | the rows' users are exactly the users with role "user", a subsequence of the user list in its order |
| Matrix.RatingOf | backend/src/services/collaborativeFiltering.js:46-50 | a user's composite for a guitar is found exactly when a rating of that pair exists |
| Matrix.BuildUserItemMatrix | backend/src/services/collaborativeFiltering.js:14-57 | one row per listed user, in order, with that user's id and name; one guitar entry per guitar; keys ascending |
| Matrix.MatrixCell | backend/src/services/collaborativeFiltering.js:34-50 | a cell holds the composite of the user's rating of that guitar, or null when there is none |
| Matrix.MatrixRowKeys | backend/src/services/collaborativeFiltering.js:40-42 | every row has a key for exactly the stored guitars |
| Matrix.CellInRange | backend/src/services/collaborativeFiltering.js:46-50 | in a well-formed snapshot every non-null cell lies in [1, 5] |
| Matrix.AdminRatingsIgnored | backend/src/services/collaborativeFiltering.js:46-50 | dropping the ratings of users with no row changes no row |
| Similarity.FindRow | backend/src/services/collaborativeFiltering.js:66-69 | the target is missing exactly when no row has its id; otherwise the found row has that id |
| Similarity.RatedGuitarsMeaning | backend/src/services/collaborativeFiltering.js:72-74 | a guitar is listed as rated exactly when the target's cell for it is non-null |
| Similarity.CommonGuitars | backend/src/services/collaborativeFiltering.js:86 | a guitar is common exactly when the target rated it and the other user's cell is non-null |
| Similarity.Vector | backend/src/services/collaborativeFiltering.js:91-92 | the vector holds the row's cells for the given guitars, in the same order |
| Similarity.Candidates | backend/src/services/collaborativeFiltering.js:82-104 | an entry is listed exactly when it is built from a row of another user that shares a rated guitar |
| Similarity.SimilaritiesIn | backend/src/services/collaborativeFiltering.js:63-118 | null exactly when the target has no row; otherwise the target user is that row's id, name and rated guitars, the common guitars are the rated ones, an empty list when the target rated nothing, and the list is in non-increasing similarity |
| Similarity.UnratedTargetHasNoSimilarities | backend/src/services/collaborativeFiltering.js:72-78 | a target whose cells are all null gets an empty similarity list |
| Similarity.CalculateUserSimilarity | backend/src/services/collaborativeFiltering.js:23-118 | null exactly when no user with role "user" has the target id; otherwise the result is that user's, with the list in non-increasing similarity |
| Similarity.SimilaritiesStable | backend/src/services/collaborativeFiltering.js:107 | entries of equal similarity stay in matrix order |
| Similarity.EntryShape | backend/src/services/collaborativeFiltering.js:82-103 | each entry is another user's, has at least one common guitar, and both vectors have that length and hold the two users' cells for the common guitars |
| Similarity.EveryQualifyingRowListed | backend/src/services/collaborativeFiltering.js:82-104 | every other row sharing a rated guitar gets an entry |
| Similarity.SimilarityInUnitRange | backend/src/services/collaborativeFiltering.js:94 | in a well-formed snapshot every similarity lies in [0, 1] |
| Similarity.Neighbors | backend/src/services/collaborativeFiltering.js:129-139 | the neighbours are the prefix of length `min(k, total)` (JavaScript slice for negative k), and `totalCandidates` is the list length |
| Similarity.FindNearestNeighbors | backend/src/services/collaborativeFiltering.js:124-140 | null exactly when the similarity result is null |
| Similarity.NeighborsAreNearest | backend/src/services/collaborativeFiltering.js:107-132 | every neighbour is at least as similar as every candidate left out |
| Prediction.FindNeighbor | backend/src/services/collaborativeFiltering.js:178 | a neighbour is found exactly when one has the user id |
| Prediction.NeighborRatings | backend/src/services/collaborativeFiltering.js:160-166 | exactly the stored ratings of the guitar by a neighbour |
| Prediction.AccumulateTotals | backend/src/services/collaborativeFiltering.js:173-190 | the loop's totals are the sums of `similarity * rating` and of `similarity`, and its details are the contributions in order |
| Prediction.PredictFrom | backend/src/services/collaborativeFiltering.js:146-201 | the three null reasons, each exactly when its condition holds; otherwise the rounded sums, and a prediction exactly when the similarity sum is positive, equal to the rounded weighted mean |
| Prediction.PredictRating | backend/src/services/collaborativeFiltering.js:146-201 | the prediction is for the requested guitar; "target user not found" exactly when the similarity result is null; with `k == 0` a known target has no neighbours |
| Prediction.WeightedWithin | backend/src/services/collaborativeFiltering.js:180-181 | with non-negative weights the weighted sum lies between `lo` and `hi` times the weight sum |
| Prediction.PredictionBetween | backend/src/services/collaborativeFiltering.js:192 | a prediction lies between the rounded least and greatest contributing composite |
| Prediction.PredictionInRange | backend/src/services/collaborativeFiltering.js:146-201 | in a well-formed snapshot every prediction lies in [1, 5] |
| Recommendation.UnratedGuitarsMeaning | backend/src/services/collaborativeFiltering.js:215-217 | a guitar is unrated exactly when the target's row has a null cell for it |
| Recommendation.PredictAllUnratedItems | backend/src/services/collaborativeFiltering.js:206-240 | "Target user not found" exactly when the target has no row; otherwise the predictions are in non-increasing order |
| Recommendation.PredictEachMembers | backend/src/services/collaborativeFiltering.js:221-230 | an item is listed exactly when it is the item of a guitar of the list whose prediction is non-null |
| Recommendation.PredictionsAreUnrated | backend/src/services/collaborativeFiltering.js:215-230 | an item is listed exactly when its guitar is unrated and its prediction is non-null |
| Recommendation.PredictionsStable | backend/src/services/collaborativeFiltering.js:233 | items of equal prediction stay in guitar-id order |
| Recommendation.PredictionsInRange | backend/src/services/collaborativeFiltering.js:221-230 | in a well-formed snapshot every listed prediction lies in [1, 5] |
| Recommendation.CategoryLevel | backend/src/services/collaborativeFiltering.js:260-263 | the top level exactly from 3.5 and the bottom level exactly below 3.0 |
| Recommendation.CategoryThresholds | backend/src/services/collaborativeFiltering.js:260-263 | each of the four category names exactly on its interval |
| Recommendation.Recommend | backend/src/services/collaborativeFiltering.js:259-272 | ranks 1, 2, 3, … in list order, with each prediction's guitar, name, value and category |
| Recommendation.RatingsOf | backend/src/services/collaborativeFiltering.js:250-253 | exactly the target's stored ratings |
| Recommendation.GenerateRecommendations | backend/src/services/collaborativeFiltering.js:246-286 | an error exactly when the prediction step fails; otherwise all `n` predictions ranked for `topN == -1`, the first `min(topN, n)` for `topN >= 0`, and all but the last `min(-topN, n)` for `topN < -1` (JavaScript slice); `ratedItems` holds one item per stored rating of the target, with its guitar, composite and the guitar's name |
| Recommendation.RecommendationsOrdered | backend/src/services/collaborativeFiltering.js:259-272 | recommendations are in non-increasing predicted order |
| Evaluation.DetailFor | backend/src/services/evaluationService.js:44-57 | a detail copies the rating's ids and values and has non-negative error and squared error |
| Evaluation.EvaluateEachMembers | backend/src/services/evaluationService.js:38-66 | a detail is listed exactly when it is the detail of a stored rating whose prediction is non-null |
| Evaluation.DetailsAreRatings | backend/src/services/evaluationService.js:20-66 | the reported details are exactly those of the stored ratings with a non-null prediction under the chosen k |
| Evaluation.InterpretationLevel | backend/src/services/evaluationService.js:73-82 | the best interpretation exactly below 0.5 and the worst exactly from 1.5 |
| Evaluation.InterpretationMonotone | backend/src/services/evaluationService.js:73-82 | a smaller MAE never gets a worse interpretation |
| Evaluation.EvaluatePerformance | backend/src/services/evaluationService.js:20-92 | k defaults to the configured K, `evaluatedRatings <= totalRatings`, and MAE/RMSE are computed over equal-length lists |
| Evaluation.RmseAtLeastReportedMae | backend/src/services/evaluationService.js:69-70 | the reported RMSE is never below the reported MAE |
| Evaluation.GetEvaluationByUser | backend/src/services/evaluationService.js:98-129 | k, the counts, the interpretation, MAE and RMSE are those of the overall evaluation |
| Evaluation.GroupContents | backend/src/services/evaluationService.js:102-114 | a user's group holds exactly that user's details, in order, with their error sum |
| Evaluation.GroupsNonEmpty | backend/src/services/evaluationService.js:104-112 | every group holds at least one detail |
| Evaluation.GroupCountSum | backend/src/services/evaluationService.js:102-114 | the group sizes add up to the number of details |
| Evaluation.SummaryCountsAddUp | backend/src/services/evaluationService.js:117-121 | the summaries' `ratingsCount` add up to `evaluatedRatings` |
| Evaluation.SummaryContents | backend/src/services/evaluationService.js:117-121 | each summary holds one user's details, a count of at least 1, and `averageError = round4(totalError / count)` |
| GuitarRules.PriceBucket | backend/src/controllers/guitarController.js:15-21 | each bucket exactly on its price interval |
| GuitarRules.DeterminePriceRange | backend/src/controllers/guitarController.js:15-21 | each of the four labels exactly on its price interval |
| GuitarRules.PriceRangeMonotone | backend/src/controllers/guitarController.js:15-21 | a higher price never falls in a lower bucket |
| GuitarRules.SameRangeIff | backend/src/controllers/guitarController.js:15-21 | two prices get the same label exactly when they are in the same bucket |
| GuitarRules.MeanScore | backend/src/controllers/guitarController.js:55-63 | null exactly when there is no score or the mean is 0; otherwise the mean rounded to 2 decimals |
| GuitarRules.MeanScoreAgrees | backend/src/controllers/guitarController.js:55-63 | with positive scores the per-guitar mean is the math utility's `average` and lies between the rounded bounds |
| GuitarRules.StatsInRange | backend/src/controllers/guitarController.js:54-65 | in a well-formed snapshot a rated guitar shows a mean in [1, 5] |
| GuitarRules.AllGuitarStats | backend/src/controllers/guitarController.js:42-66 | one entry per stored guitar, oldest first, each with its own rating count |
| GuitarRules.GetGuitarById | backend/src/controllers/guitarController.js:84-113 | "Gitar tidak ditemukan" exactly for an unknown id; otherwise that guitar with its rating count |
| GuitarRules.CreateGuitar | backend/src/controllers/guitarController.js:124-170 | rejects a missing field, then a duplicate name; otherwise stores the fields, the price's range label and an empty image as null |
| GuitarRules.Patch | backend/src/controllers/guitarController.js:197-209 | price and range change only for a truthy price, and a consistent range stays consistent |
| GuitarRules.UpdateGuitar | backend/src/controllers/guitarController.js:175-224 | the duplicate check only for a truthy name and excluding the guitar itself, then not-found; only the guitar with the id changes |
| GuitarRules.UpdateKeepsRanges | backend/src/controllers/guitarController.js:206-209 | after an update every range label matches its price |
| GuitarRules.UnratedGuitarsOf | backend/src/controllers/guitarController.js:249-282 | "Invalid User ID" exactly for NaN or 0; otherwise exactly the guitars the user has not rated, oldest first (a subsequence of the guitars in creation order) |
| RatingRules.CreateOrUpdateRating | backend/src/controllers/ratingController.js:82-136 | an out-of-range error exactly for an invalid score, then an error for an unknown guitar; otherwise users and guitars are unchanged and the ratings are the upsert of the rating with its composite |
| RatingRules.Upsert | backend/src/controllers/ratingController.js:98-126 | the new rating is stored, at most one rating is added, and every rating of another pair keeps its place |
| RatingRules.UpsertLength | backend/src/controllers/ratingController.js:98-126 | a rating is added exactly when the pair had none |
| RatingRules.UpsertContents | backend/src/controllers/ratingController.js:98-126 | afterwards the pair's only rating is the new one, and ratings of other pairs are unchanged |
| RatingRules.UpsertKeepsUnique | backend/src/controllers/ratingController.js:98-102 | at most one rating per (user, guitar) is preserved |
| RatingRules.UpsertIdempotent | backend/src/controllers/ratingController.js:98-122 | submitting the same rating twice stores what submitting it once does |
| RatingRules.RatingKeepsWellFormed | backend/src/controllers/ratingController.js:82-126 | storing a rating by a known user keeps the snapshot well formed |
| RatingRules.RatingStatisticsOf | backend/src/controllers/ratingController.js:161-192 | the counts are the table sizes, the number of users with role "user", and the numbers of distinct rating users and guitars; the two averages are ratings per rating user and per rated guitar |
| RatingRules.PerGroup | backend/src/controllers/ratingController.js:185-186 | the ratio times a non-zero group count is the total; with zero groups it divides by 1 |
| RatingRules.StatisticsRatios | backend/src/controllers/ratingController.js:173-186 | both ratios are 0 with no ratings and otherwise between 1 and the number of ratings |

## Left out

- Prisma, PostgreSQL, Express, async/await and error responses are left out. The model reads an in-memory snapshot and returns values or error
  variants instead of HTTP responses.
- Query order is taken from the snapshot. Users and guitars come in the recommender's name order. Ratings come in stored order, and
  `predictRating`'s second query returns the neighbours' ratings in that order.
- The guitar controller's queries order by `createdAt`, which the model does not store. `GuitarRules.AllGuitarStats` and
  `GuitarRules.UnratedGuitarsOf` take the guitars in creation order as a parameter holding the same guitars as the snapshot.
- `getKValue`/`setKValue` (configuration persistence) are left out. K is a parameter; the code's fallback is 3.
- Authentication, users, `deleteGuitar`, `deleteRating` and the list queries of the controllers are left out (they are plain database calls).
- The filters of `getAllGuitars` (brand, type, price range, search) are left out; `GuitarRules.AllGuitarStats` covers every guitar.
- The case-insensitive name comparison of the duplicate check is the `sameName` parameter, since it is the database's collation.
- IEEE-754 floating point is left out: all arithmetic is on exact reals, so float rounding differences are not modelled.
- `parseInt` of request strings is left out: ids, prices and scores arrive as integers, and `None` stands for `NaN`.
- The model does not cover the `catch` in the evaluation loop that skips a rating whose prediction throws. In the modelled code no prediction throws.
- Missing or non-integer sub-scores are left out. Scores are integers, so the `undefined` that slips past `r < 1 || r > 5` cannot occur.
- The held-out rating in the evaluation is not hidden: the model, like the code, predicts each rating with that rating still in the matrix.
- Matrix.Cell: a rating of a guitar that is not stored adds a key to its user's row only, so other rows lack that key. The code reads
  such an absent key as `undefined`: `!== null` counts it as a common guitar (and the cosine of its vectors is `NaN`), and `=== null`
  does not list it as unrated. The model reads an absent key as null, so it does not count such a guitar as common. This only
  happens outside a well-formed snapshot, whose ratings all name stored guitars.
- In `calculateUserSimilarity`'s early return for a target with no ratings, `targetUser` is the whole matrix row. The model keeps
  the id, name and (empty) rated list, the shape of the other return; the callers read only the lists.
- RatingRules.CreateOrUpdateRating: the unknown-guitar case is the database's foreign-key error; its message and status are not modelled.
- GuitarRules.MeanScore: the result is the rounded exact mean. The float sum of the source may differ in the last bits.
