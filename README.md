# Image matching and DEX delivery, modelled in Dafny

This project models the core of the `imageprocessing` service. A caller uploads a
photograph. The service compares it with every catalogued reference image
extracted from business PDFs. The best match at or above 0.7 is resolved to the
"DEX" content the owning business attached to that image: a video, an AR or 3D
asset, a webpage, a PDF or a link. When the image has no active content, a
webpage fallback is synthesised. Around this engine the model covers:

- the business API that maintains the DEX content table, with at most one
  record per image;
- the account API's signup, login, profile, upload, statistics and activity
  rules;
- the earlier MSE-only matcher kept under `imageprocessing/imageprocessing`.

Files, one module each:

| file | module | models |
|---|---|---|
| `common.dfy` | `Common` | `Option`, HTTP errors, the text of integers and `None` in f-strings |
| `records.dfy` | `Records` | the table rows: reference images, DEX content, users, uploads, activities |
| `similarity.dfy` | `Similarity` | `calculate_image_similarity`: pixel error, structure, histogram and edge sub-scores |
| `ranking.dfy` | `Ranking` | the running-best policy both scans share, stated without the loop |
| `matching.dfy` | `Matching` | the scan of `match_image`, the confidence tier and content resolution |
| `delivery.dfy` | `Delivery` | the two `deliver_dex` handlers |
| `legacy.dfy` | `Legacy` | the earlier scorer and scan |
| `business.dfy` | `BusinessApi` | the DEX content table as a class (`BusinessStore`) and its counts |
| `accounts.dfy` | `AuthApi` | the account tables as a class (`AccountStore`) and the guard chains |

Modelling choices:

- Rasters are `seq<int>` of 8-bit luminance values. Scores are exact `real`s.
- Resizing, luminance conversion and `Image.open` are not modelled. Their
  outcome is an input: a normalised raster, `None` when normalisation raised,
  or a "missing" or "cannot open" marker for a stored image.
- The edge operator is not modelled either. Its outcome enters the composite
  score as the mean absolute difference of the two edge fields. The divisor is
  255 for Sobel and 510 for the `np.gradient` fallback. That difference is
  modelled separately on given edge fields, as written (`uint8` wrap) and as
  intended.
- The random noise of the scan is an injected sequence. The scan consumes one
  draw per opened candidate. The generator is reseeded with 42 on every call,
  so every call reads the same sequence from its start.
- `np.allclose` on two 8-bit rasters is read as equality.
- Clock readings are whole seconds passed in by the caller. `AccountStore`
  methods take the time as `now` and require it to be no earlier than the last
  one seen. The activity log therefore stays in time order.
- The activity timeline sorts by timestamp. Ties come out in reverse insertion
  order.
- A bearer token is represented by the user id it carries. Password hashing
  (`hash`) and checking (`verify`) are function parameters.
- `Create` refuses a second content record for an image whether or not the
  first one is active (`imageprocessing/business_api.py:273-277`).

## Model

| member | source | states |
|---|---|---|
| Similarity.Clamp01 | imageprocessing/main.py:133 | the clamp lands in [0,1] and leaves values already in [0,1] unchanged |
| Similarity.SquaredErrorSumBounds | imageprocessing/main.py:68 | the summed squared pixel error of two 8-bit rasters lies between 0 and n·255² |
| Similarity.SquaredErrorSumZero | imageprocessing/main.py:68 | the summed squared error is zero exactly when the rasters are equal |
| Similarity.SquaredErrorSumSymmetric | imageprocessing/main.py:68 | the squared error does not depend on argument order |
| Similarity.MseSubScore | imageprocessing/main.py:68-70 | `1 - mse/65025` with the difference taken as integers lies in [0,1] and is 1 exactly for identical rasters |
| Similarity.WrappedSquaredErrorSumBounds | imageprocessing/main.py:68 | with 8-bit wrap-around each squared term is at most 255, so the sum is at most n·255 |
| Similarity.WrappedSquaredErrorSumVanishes | imageprocessing/main.py:68 | the wrapped sum is zero when every wrapped square is zero |
| Similarity.MseSubScoreAsWritten | imageprocessing/main.py:68-70 | as written, the pixel-error sub-score never drops below 1 - 255/65025 |
| Similarity.WrappedMseMissesDifference | imageprocessing/main.py:68 | a black and a mid-grey raster differ, yet the as-written sub-score is exactly 1 while the intended one is below 1 |
| Similarity.CrossSumSymmetric | imageprocessing/main.py:83-85 | the centred cross product is symmetric, so the covariance is too |
| Similarity.CrossSumSquaresNonNegative | imageprocessing/main.py:79-80 | a sum of centred squares is non-negative |
| Similarity.VarianceNonNegative | imageprocessing/main.py:79-80 | the population variance is non-negative |
| Similarity.StructuralSubScore | imageprocessing/main.py:88-92 | both branches (flat rasters, covariance ratio) give a value in [0,1] |
| Similarity.StructuralSubScoreSymmetric | imageprocessing/main.py:75-92 | the structural sub-score does not depend on argument order |
| Similarity.StructuralSubScoreOfIdentical | imageprocessing/main.py:88-92 | a raster compared with itself scores 1 in either branch |
| Similarity.FlatRasterHasNoVariance | imageprocessing/main.py:75-80 | a raster whose every pixel has one level has that level as its mean and zero variance |
| Similarity.FlatRastersCompareByLevel | imageprocessing/main.py:88-89 | two flat rasters take the zero-variance branch and score 1 when their levels agree and 0 when they differ |
| Similarity.Histogram | imageprocessing/main.py:95-96 | the histogram has exactly 32 bins |
| Similarity.HistogramCountsEveryPixel | imageprocessing/main.py:95-96 | every 8-bit pixel lands in exactly one bin: the counts sum to the pixel count |
| Similarity.HistogramCountsBin | imageprocessing/main.py:95-96 | bin k of the histogram counts exactly the pixels with a level in [8k, 8k+8) |
| Similarity.HistogramIsBinCounts | imageprocessing/main.py:95-97 | every one of the 32 bins holds the number of pixels whose level falls in it |
| Similarity.BinCountOfAppend | imageprocessing/main.py:95-96 | one more pixel adds one to its own bin's count and nothing to the others |
| Similarity.Normalized | imageprocessing/main.py:99-100 | entry k is count k divided by the total, so the bin count is kept and the entries are non-negative |
| Similarity.NormalizedSum | imageprocessing/main.py:99-100 | the normalised entries sum to the total count divided by the normaliser |
| Similarity.NormalizedByTotalSumsToOne | imageprocessing/main.py:99-100 | a histogram with some count, divided by its own total, sums to exactly 1 |
| Similarity.Distribution | imageprocessing/main.py:95-100 | bin k holds the share of the pixels whose level v has v div 8 == k, and the 32 bins sum to 1 |
| Similarity.IntersectionBounds | imageprocessing/main.py:103 | the sum of per-bin minimums lies between 0 and the first histogram's total |
| Similarity.IntersectionSymmetric | imageprocessing/main.py:103 | histogram intersection is symmetric |
| Similarity.IntersectionWithItself | imageprocessing/main.py:103 | a histogram intersected with itself gives its own total |
| Similarity.HistogramSubScore | imageprocessing/main.py:95-103 | the histogram sub-score lies in [0,1] |
| Similarity.HistogramSubScoreSymmetric | imageprocessing/main.py:95-103 | the histogram sub-score does not depend on argument order |
| Similarity.HistogramSubScoreOfIdentical | imageprocessing/main.py:95-103 | identical rasters give a histogram sub-score of exactly 1 |
| Similarity.EdgeSubScore | imageprocessing/main.py:105-123 | for either operator the edge sub-score lies in [0,1] and is 1 exactly when the edge fields do not differ |
| Similarity.EdgeDifference | imageprocessing/main.py:113 | the intended mean absolute difference of two edge fields is non-negative |
| Similarity.EdgeDifferenceSymmetric | imageprocessing/main.py:113 | the intended edge difference does not depend on the order of the fields |
| Similarity.EdgeDifferenceWithItself | imageprocessing/main.py:113 | an edge field differs from itself by exactly 0 |
| Similarity.AbsDifferenceSumSymmetric | imageprocessing/main.py:113 | the summed absolute difference does not depend on the order of the fields |
| Similarity.EdgeDifferenceAsWritten | imageprocessing/main.py:109-113 | the edge difference as written on `uint8` edge fields is non-negative |
| Similarity.WrappedEdgeDifferenceIsAsymmetric | imageprocessing/main.py:109-113 | as written, edge values 10 against 0 differ by 10 but 0 against 10 by 246, so the two orders get different edge sub-scores; the intended difference is 10 both ways |
| Similarity.CombineIsConvex | imageprocessing/main.py:126-133 | the weights sum to 1, so the final clamp never alters sub-scores in [0,1], and four perfect sub-scores give 1 |
| Similarity.ImageSimilarity | imageprocessing/main.py:53-137 | the composite score lies in [0,1] and is 0.0 when normalising either image failed |
| Similarity.SimilaritySymmetric | imageprocessing/main.py:53-137 | swapping the two images leaves the score unchanged when both orders are given the same edge difference |
| Similarity.SimilaritySymmetricOnEdgeFields | imageprocessing/main.py:113-137 | with the integer mean absolute edge difference, swapping the images and their edge fields leaves the score unchanged |
| Similarity.SimilarityOfIdentical | imageprocessing/main.py:53-137 | an image compared with itself scores exactly 1 |
| Similarity.SimilarityOfIdenticalEdgeFields | imageprocessing/main.py:53-137 | an image compared with itself, its edge sub-score taken from the difference of its edge field with itself, scores exactly 1 |
| Ranking.BestIsUnique | imageprocessing/main.py:178-180 | at most one candidate satisfies the best-candidate specification |
| Ranking.BestExists | imageprocessing/main.py:178-180 | when any score reaches 0.7 a best candidate exists: the first holding the largest score |
| Ranking.StepPreservesBest | imageprocessing/main.py:178-180 | one step of the strict-greater, at-least-0.7 replacement rule keeps the running best equal to the best of the prefix, or keeps "none qualifies" |
| Matching.OpenedCount | imageprocessing/main.py:163-173 | counts the noise draws consumed, never more than the candidates seen |
| Matching.ScanCatalog | imageprocessing/main.py:152-185 | the loop returns the earliest maximal noised score at or above 0.7, or nothing exactly when no score reaches 0.7; missing and unopenable images are skipped and take no noise draw |
| Matching.ScanStep | imageprocessing/main.py:163-172 | a candidate that opens consumes the next noise draw and scores its similarity plus that draw, clamped; one that does not open scores nothing and consumes no draw |
| Matching.NoiseMovesScoreLittle | imageprocessing/main.py:172-174 | with noise in [-0.01,0.01] the re-clamped score is within 0.01 of the raw score |
| Matching.OpenedCountDependsOnLoads | imageprocessing/main.py:163-173 | which noise draw a candidate takes depends only on which earlier candidates opened |
| Matching.ScoresIgnoreRecords | imageprocessing/main.py:147-149 | the scan reads no record field, so `is_public` and the rest do not affect eligibility or scores |
| Matching.TierMonotonic | imageprocessing/main.py:212 | a higher score never gets a lower tier |
| Matching.MatchedTierNeverLow | imageprocessing/main.py:212 | a score at or above 0.7 is never classified "low" |
| Matching.PossibleDuplicate | imageprocessing/main.py:189-190 | the duplicate warning fires only for scores that are also "high" |
| Matching.FirstActiveContent | imageprocessing/main.py:194-197 | returns an active record of the matched image, or nothing exactly when it has none |
| Matching.ResolveContent | imageprocessing/main.py:194-250 | the envelope is an active content record of the image, whose id, kind, URL, title, description and data it copies; when the image has none, it is the webpage fallback titled "Learn more about" the business and described as "Discover more about this" image type "from" the business, with URL and direct link `/business/{ref}`, QR link `/dex/qr/business/{ref}`, no data, and AR and video off; its directives always agree with the content kind and id |
| Matching.MatchImage | imageprocessing/main.py:139-260 | an unreadable upload is a processing error "Error processing image: " followed by the reason; otherwise the result is "no match" ("No match found above threshold") exactly when no score reaches 0.7, and a match is the best candidate with its score as confidence, a tier other than "low" and resolved content |
| Matching.DuplicateGivesHighMatch | imageprocessing/main.py:162-212 | a catalog holding an exact copy of the upload always matches, and the winner is "high" |
| Delivery.FindById | imageprocessing/main.py:726-728 | finds a record with the id, or nothing exactly when none has it |
| Delivery.FindActiveById | imageprocessing/main.py:370-374 | finds an active record with the id, or nothing exactly when none is active |
| Delivery.SuitingActionIsUnique | imageprocessing/main.py:749-773 | at most one action suits a content record |
| Delivery.DeliveryCheck | imageprocessing/main.py:728-735 | only active content with the id passes; an unknown id is "DEX content not found" and nothing else is; every refusal is a 404 |
| Delivery.DeliveryCheckAcceptsActive | imageprocessing/main.py:728-735 | with unique ids a stored record is delivered exactly when it is active, and otherwise refused as inactive |
| Delivery.DeliverContent | imageprocessing/main.py:737-775 | the response copies the content and carries exactly one action for video, ar, 3d_model, webpage and pdf and none otherwise, each action suiting the content |
| Delivery.Deliver | imageprocessing/main.py:723-775 | refuses exactly what the guard chain refuses, with its error; otherwise delivers an active record with that id, copying its title, description, kind, URL and data, stamped with the current time, with one action exactly when the kind has one and that action suiting the record |
| Delivery.Rewrapped | imageprocessing/main.py:777-778 | the blanket handler turns any error into a 500 |
| Delivery.DeliveryCheckAsWritten | imageprocessing/main.py:723-778 | as written, the same requests succeed but every refusal is a 500 |
| Delivery.DeliverAsWritten | imageprocessing/main.py:723-778 | the handler as written: refusals are the rewrapped 500s; a success copies the title, description, kind, URL and data of the active record with that id, is stamped with the current time, and carries one action exactly when the kind has one, suiting the record |
| Delivery.UnknownIdReportedAsServerError | imageprocessing/main.py:728-778 | an unknown id, meant as 404 "DEX content not found", comes back as 500 "Error delivering DEX: 404: DEX content not found" |
| Delivery.ServeDex | imageprocessing/main.py:367-402 | only active content is served; link, webpage and video redirect to the content URL, "ar" alone returns a payload with the record's title, description, data and URL, anything else is labelled unknown with the record's title, description and URL |
| Delivery.HandlersAgree | imageprocessing/main.py:370-379 | with unique ids both delivery handlers accept exactly the same ids |
| Legacy.LegacySimilarity | imageprocessing/imageprocessing/main.py:43-65 | `max(0, 1 - mse/65025)` lies in [0,1] and is 1 exactly for two identical normalised rasters; failures give 0.0 |
| Legacy.LegacySimilarityAsWritten | imageprocessing/imageprocessing/main.py:56-62 | as written, two normalised rasters never score below 1 - 255/65025 |
| Legacy.LegacyWrapMissesDifference | imageprocessing/imageprocessing/main.py:56 | a black and a mid-grey 100×100 raster score 1 as written and below 1 as intended |
| Legacy.LegacyWrapAdmitsEveryImage | imageprocessing/imageprocessing/main.py:56-62 | as written, every pair of normalised rasters clears the 0.7 threshold of line 82 |
| Legacy.LegacyMatch | imageprocessing/imageprocessing/main.py:67-118 | an unreadable upload gives the processing-error dict; otherwise "No match found" exactly when no score reaches 0.7, and a match is the earliest best candidate with its score, at least 0.7, as confidence |
| Legacy.FirstExactCopyWins | imageprocessing/imageprocessing/main.py:84-95 | when the catalog holds exact copies of the upload, the winner is the first copy, with confidence 1 |
| Legacy.ExactCopyMatches | imageprocessing/imageprocessing/main.py:84-95 | a catalog holding an exact copy of the upload always matches |
| BusinessApi.RemoveAt | imageprocessing/business_api.py:372 | removing one record keeps the others in order |
| BusinessApi.OwnedImageIndex | imageprocessing/business_api.py:228-231 | finds the image with that id owned by the business, or nothing exactly when there is none |
| BusinessApi.ContentIndexForImage | imageprocessing/business_api.py:274 | finds the first content record of the image, or nothing exactly when it has none |
| BusinessApi.FirstContentFor | imageprocessing/business_api.py:187-189 | the first content record of the image whether active or not, or nothing exactly when it has none |
| BusinessApi.FindOwnedContent | imageprocessing/business_api.py:316-329 | the shared guard: 404 when the image is not owned, then 404 when it has no content, otherwise the content's position |
| BusinessApi.Owned | imageprocessing/business_api.py:180-182 | exactly the images whose business name is the caller's |
| BusinessApi.OwnedKeepsMultiplicity | imageprocessing/business_api.py:180-182 | the listing keeps each owned image as often as the table holds it and no other |
| BusinessApi.JoinedContents | imageprocessing/business_api.py:425-427 | exactly the content records joined to an image the business owns |
| BusinessApi.JoinedContentsKeepsMultiplicity | imageprocessing/business_api.py:425-427 | the join keeps each record of an owned image as often as the table holds it and no other |
| BusinessApi.ActiveOnly | imageprocessing/business_api.py:429-432 | exactly the active records, never more than all |
| BusinessApi.ActiveOnlyKeepsMultiplicity | imageprocessing/business_api.py:429-432 | the filter keeps each active record as often as the table holds it and no other |
| BusinessApi.WithoutImage | imageprocessing/business_api.py:238 | exactly the records not attached to the image |
| BusinessApi.WithoutImageKeepsKeys | imageprocessing/business_api.py:238 | the cascade keeps content ids unique and at most one record per image |
| BusinessApi.CascadeKeepsImages | imageprocessing/business_api.py:238-246 | after deleting an image and its content, every remaining record still belongs to a remaining image |
| BusinessApi.BusinessReference | imageprocessing/business_api.py:86 | same length; each space becomes an underscore, each capital A-Z the lower-case letter of the same position in the alphabet, every other character stays; no space or capital remains |
| BusinessApi.ReferenceChar | imageprocessing/business_api.py:86 | one character of a reference: a space becomes `_`, a capital A-Z the lower-case letter at the same alphabet position, anything else stays |
| BusinessApi.BusinessReferenceIdempotent | imageprocessing/business_api.py:86 | normalising a reference again changes nothing |
| BusinessApi.KeyPreview | imageprocessing/business_api.py:87 | at most eight leading characters of the key, followed by "..." |
| BusinessApi.Overwritten | imageprocessing/business_api.py:332-336 | the five request fields are written; id, image, active flag and creation time are kept |
| BusinessApi.BusinessStore.Create | imageprocessing/business_api.py:253-303 | 404 for an image not owned and 400 when any content exists, both leaving the table unchanged; otherwise one active record with the request's fields is appended, the table invariant holds, and the receipt's AR URL is present exactly for ar and 3d_model |
| BusinessApi.BusinessStore.Update | imageprocessing/business_api.py:305-345 | the guard's 404s leave the table unchanged; otherwise only that record changes, by exactly the five request fields |
| BusinessApi.BusinessStore.Delete | imageprocessing/business_api.py:347-376 | the guard's 404s leave the table unchanged; otherwise exactly that record goes, the image stays, and no content of the image remains |
| BusinessApi.BusinessStore.Toggle | imageprocessing/business_api.py:378-411 | the guard's 404s leave the table unchanged; otherwise only `is_active` of that record flips and the message names the new state |
| BusinessApi.BusinessStore.ToggleTwice | imageprocessing/business_api.py:398-410 | toggling twice restores the table |
| BusinessApi.BusinessStore.DeleteImage | imageprocessing/business_api.py:218-249 | a non-owned image is a 404 with no change; otherwise the image and every content record attached to it go, and the invariant holds |
| BusinessApi.BusinessStore.GetBusinessImages | imageprocessing/business_api.py:174-216 | one entry per owned image, in table order, each paired with its first content record whether active or not |
| BusinessApi.BusinessStore.Stats | imageprocessing/business_api.py:415-441 | counts only the business's images and the content joined to them; the active count is exactly the number of active records among the joined content, so it never exceeds total content |
| BusinessApi.ProfileOf | imageprocessing/business_api.py:63-94 | the profile carries the business name, the normalised reference, the first eight characters of the API key followed by "...", and the same three counts as the statistics (it has no recent-matches field) |
| AuthApi.FindUserByEmail | imageprocessing/auth_api.py:119 | finds a user with the email, or nothing exactly when none has it |
| AuthApi.SignupCheck | imageprocessing/auth_api.py:118-146 | the checks run in order (email taken, password under 6, unknown type, business without company or industry), each a 400 with that check's own message; signup passes exactly when all four hold |
| AuthApi.LoginCheck | imageprocessing/auth_api.py:202-222 | login succeeds exactly for a known email, a verified password and an active account; every failure is a 401, and "Account is deactivated" appears only after the password verified |
| AuthApi.LoginHidesWhichCheckFailed | imageprocessing/auth_api.py:203-215 | a wrong password gives the same error as an unknown email |
| AuthApi.UploadCheck | imageprocessing/auth_api.py:341-359 | an upload passes exactly when it is an image with an `image/` MIME type or a pdf with `application/pdf`; each failure is a 400: an unknown kind, "File must be an image" or "File must be a PDF" |
| AuthApi.UploadsOf | imageprocessing/auth_api.py:512 | exactly the caller's uploads |
| AuthApi.UploadsOfKeepsMultiplicity | imageprocessing/auth_api.py:512 | the query keeps each of the caller's uploads as often as the table holds it and no other |
| AuthApi.PdfsOf | imageprocessing/auth_api.py:513-516 | exactly the PDF uploads, never more than all |
| AuthApi.PdfsOfKeepsMultiplicity | imageprocessing/auth_api.py:513-516 | the filter keeps each PDF upload as often as it occurs and no other |
| AuthApi.ActivitiesOf | imageprocessing/auth_api.py:532-533 | exactly the caller's activities |
| AuthApi.ActivitiesOfKeepsMultiplicity | imageprocessing/auth_api.py:532-533 | the query keeps each of the caller's activities as often as the log holds it and no other |
| AuthApi.ActivitiesOfKeepsOrder | imageprocessing/auth_api.py:532-534 | the caller's activities stay in time order |
| AuthApi.NewestFirst | imageprocessing/auth_api.py:534 | at most 50 entries, exactly the newest ones of the log (as a multiset, the last `|r|` entries); for a log in time order they come with non-increasing timestamps and no entry left out is newer than the last one returned |
| AuthApi.ReversedSuffixKeepsEntries | imageprocessing/auth_api.py:532-534 | reading the end of the log backwards keeps exactly the entries of that end |
| AuthApi.NewestOfCaller | imageprocessing/auth_api.py:528-534 | from a time-ordered log, the timeline holds at most 50 of the caller's own entries, exactly the newest ones, newest first, and all of them when fewer |
| AuthApi.Patched | imageprocessing/auth_api.py:277-282 | a name given replaces the stored one, a name omitted is kept, `updated_at` is always set, and nothing else changes |
| AuthApi.UserIndex | imageprocessing/auth_api.py:68-74 | finds the user with the token's id, or nothing exactly when there is none |
| AuthApi.OwnUploadIndex | imageprocessing/auth_api.py:439-442 | finds the upload with that id only among the caller's own |
| AuthApi.AccountStore.Log | imageprocessing/auth_api.py:77-91 | appends one activity at the current time and keeps the log in time order |
| AuthApi.AccountStore.Signup | imageprocessing/auth_api.py:104-187 | refuses exactly what the guard chain refuses, changing nothing; otherwise adds one active user with the hashed password and logs the signup, keeping ids and emails unique |
| AuthApi.AccountStore.Login | imageprocessing/auth_api.py:193-251 | the result is the login guard's; only a successful login is logged |
| AuthApi.AccountStore.UpdateProfile | imageprocessing/auth_api.py:268-313 | an unknown user is a 401; otherwise only that user changes, as the partial update says, and the update is logged |
| AuthApi.AccountStore.Upload | imageprocessing/auth_api.py:331-411 | the type checks refuse before anything is stored; an accepted upload is appended under the caller's directory and exactly one "upload" activity is logged |
| AuthApi.AccountStore.GetUpload | imageprocessing/auth_api.py:431-457 | a caller with no user record gets 401 "User not found" (the token check of auth_api.py:68-74); otherwise returns an upload only when it belongs to the caller, and a 404 exactly when there is none |
| AuthApi.AccountStore.DeleteUpload | imageprocessing/auth_api.py:459-504 | a caller with no user record gets 401 "User not found" (the token check of auth_api.py:68-74) with no change; otherwise another user's or a missing upload is a 404 with no change, and else exactly that record goes and the deletion is logged |
| AuthApi.AccountStore.UserStatistics | imageprocessing/auth_api.py:507-526 | the PDF count is exactly the number of the caller's uploads that are PDFs, so it never exceeds uploads; days active are whole days since creation plus one, at least 1 when the clock is not behind the creation time |
| AuthApi.AccountStore.RecentActivity | imageprocessing/auth_api.py:528-546 | a caller with no user record gets 401 "User not found" (the token check of auth_api.py:68-74); otherwise the caller's activities, newest 50 first (`NewestFirst` of the caller's log): at most 50, exactly the caller's newest ones as a multiset, all of them when fewer, and none older than an omitted one |

## Left out

- Image decoding, `resize` and `convert('L')` are not modelled. Their outcome is an input of the scan.
- The Sobel filter and the `np.gradient` fallback are not computed. The composite score takes the mean absolute edge difference as an input; the difference itself is modelled on given edge fields.
- Floating-point rounding is not modelled: scores are exact reals.
- The exact `random.uniform` sequence for seed 42 is not reproduced. The noise is an injected sequence. `ScanCatalog` requires at least one draw per candidate, and the noise bound [-0.01, 0.01] is a hypothesis of the lemmas that need it.
- Database sessions, commits, rollbacks and the 500s they raise are not modelled. The same goes for file writes and removals (`os.path.exists`, `os.remove`) and FastAPI routing.
- JWT encoding and decoding is not modelled; a token is the user id it carries. bcrypt is a parameter. The business API-key lookup is not modelled.
- QR generation, the HTML pages (`ar_viewer`, `business_page`), PDF extraction, batch import, the scripts and the front-end are not modelled.
- The non-null `business_id` column of `dex_content` is not modelled. It is a schema constraint that create never satisfies.
- The ORM-maintained `updated_at` column of `dex_content` is not modelled.
- `log_user_activity` swallows its own failures; the model always logs. Its JSON `activity_data` is not modelled.
- `GET /uploads` (the caller's uploads, newest first), the account `GET /profile` (auth_api.py:253, a plain read) and `POST /logout` (logging only) are not modelled. The PDF upload endpoints are not modelled either.
- The business `GET /profile` (business_api.py:63-94) leaves out the business's `created_at`; timestamps of business records are not modelled.
- A redirect to a null URL in `GET /dex/{id}` is modelled as a redirect carrying `None`. Starlette's failure on it is not modelled.
- The upload type check assumes the file has a MIME type. A missing one makes `startswith` raise, and that path is not modelled.
- BusinessApi.BusinessReference: lower-cases ASCII letters only. `str.lower` also folds other alphabets, which is not modelled.
- Matching.MatchImage: returns the whole matched record where the response copies selected fields of it.
- BusinessApi.BusinessStore.GetBusinessImages: pairs each image with the whole content record. The response's summary drops `content_data`.
- Similarity.ImageSimilarity: scores with the corrected pixel error of the first Findings row, not the wrapped one of `main.py:68`.
- Similarity.SimilaritySymmetric: proved for one edge difference shared by both orders. The Sobel branch as written gives the two orders different edge differences (fourth Findings row).
- Matching.ScanCatalog: scores with the corrected pixel error of the first Findings row.
- Matching.MatchImage: scores with the corrected pixel error of the first Findings row.
- Matching.DuplicateGivesHighMatch: scores with the corrected pixel error of the first Findings row.
- Legacy.LegacySimilarity: the corrected scorer of the second Findings row; the code as written is `LegacySimilarityAsWritten`.
- Legacy.LegacyMatch: scores with the corrected pixel error of the second Findings row. As written every loaded candidate clears the threshold (`LegacyWrapAdmitsEveryImage`).
- Legacy.FirstExactCopyWins: holds of the corrected scorer only. As written, an all-black upload against the catalog [all-128 raster, exact copy] picks the all-128 raster, which already scores 1.
- The `content_url` of a DEX content record is optional, as the request schema allows. The non-null column of `models.py:103`, which makes such a commit fail, is not modelled.
- The filters (`Owned`, `JoinedContents`, `ActiveOnly`, `UploadsOf`, `PdfsOf`, `ActivitiesOf`) have their contents and multiplicities stated; that they keep table order is given by their definitions, not by a separate lemma.
- AuthApi.AccountStore.RecentActivity: the newest-first order relies on the log being in time order, which `AccountStore` keeps by requiring a clock that does not run backwards.

## Findings

| source | as written | input that shows it | evidently intended | confidence | as-written member | corrected member |
|---|---|---|---|---|---|---|
| imageprocessing/main.py:68 | `(img1_array - img2_array) ** 2` is computed on `uint8` arrays, so the difference and its square wrap modulo 256 and each squared term is at most 255 | an all-black 64×64 raster against an all-128 raster: every wrapped square is 128² mod 256 = 0, so the pixel-error sub-score is 1 | the squared error of the pixel values, giving `1 - 128²/65025` for that pair | high; not executed | Similarity.MseSubScoreAsWritten, Similarity.WrappedMseMissesDifference | Similarity.MseSubScore |
| imageprocessing/imageprocessing/main.py:56 | the same `uint8` wrap in the earlier MSE-only scorer, so two normalised rasters never score below 1 - 255/65025 ≈ 0.996 and every readable catalog image clears 0.7 | an all-black 100×100 raster against an all-128 raster scores 1 | `max(0, 1 - mse/65025)` on the true squared error | high; not executed | Legacy.LegacySimilarityAsWritten, Legacy.LegacyWrapMissesDifference | Legacy.LegacySimilarity |
| imageprocessing/main.py:731-735, 777-778 | the 404s for missing and inactive content are raised inside the `try` and caught by `except Exception`, which answers 500 | `GET /dex/deliver/7` on an empty content table answers 500 "Error delivering DEX: 404: DEX content not found" | 404 "DEX content not found" and 404 "DEX content is not active" | high; not executed | Delivery.DeliveryCheckAsWritten, Delivery.DeliverAsWritten, Delivery.UnknownIdReportedAsServerError | Delivery.DeliveryCheck, Delivery.Deliver |
| imageprocessing/main.py:109-113 | `ndimage.sobel` of a `uint8` raster is a `uint8` field, so `img1_edges - img2_edges` wraps modulo 256 and `np.abs` leaves it unchanged | edge fields that differ at one pixel, 10 in the first and 0 in the second: the difference counts 10 in one order and 246 in the other, so the composite score depends on which image is the upload | the mean absolute difference of the edge values, the same in both orders | high; not executed | Similarity.EdgeDifferenceAsWritten, Similarity.WrappedEdgeDifferenceIsAsymmetric | Similarity.EdgeDifference, Similarity.EdgeDifferenceSymmetric |
