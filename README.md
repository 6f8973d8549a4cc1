# Bootcamp API core, modelled in Dafny

This project models the core of a Node/Express and Mongoose API for coding bootcamps, their courses and their reviews. It covers three parts:

- **The bootcamp listing** (`getBootcamps` in controllers/bootcamps.js). The handler copies the query string and deletes the reserved keys `select`, `sort`, `page` and `limit`. It serialises the rest with `JSON.stringify` and marks the operator words `gt`, `gte`, `lt`, `lte` and `in` with a `$`, using the regular expression `\b(gt|gte|lt|lte|in)\b`. It turns the comma lists of `select` and `sort` into space lists, and reads `page` and `limit` with `parseInt(…, 10) || default`. Then it takes one page of the results and reports `next`/`prev` pagination. The single-bootcamp handlers are modelled as transitions of the store.
- **The review and course handlers** (controllers/reviews.js, controllers/courses.js). These cover listing by bootcamp, reading one document with its bootcamp populated, creating, updating and deleting. They include the existence checks (404), the ownership check for reviews (401) and the exact messages and statuses each handler sends.
- **The Review model** (models/Review.js). This covers:
  - the schema validators: a trimmed, required title of at most 100 UTF-16 units, required text, and a rating in [1, 10];
  - the unique `(bootcamp, user)` index;
  - `getAverageReview`, the aggregation and the write of the mean onto the bootcamp;
  - the `post('save')` and `pre('remove')` hooks that call `getAverageReview`.

The store is a class `Models.Database`. It holds three maps from document id to document, plus one id counter. Its invariant is that:

- every id is below the counter;
- every stored review passes the schema;
- no two reviews share a `(bootcamp, user)` pair.

Every handler that changes the store keeps that invariant and states its whole new state: each of the three maps, and the id counter. The JavaScript and MongoDB details the core relies on are modelled explicitly:

- `String.prototype.trim`, `split`/`join` and UTF-16 length;
- `parseInt` with a radix of 10, its whitespace, its sign and its NaN;
- `String(v)` on a query value: the text itself, the items of an array joined by commas, `[object Object]` for an object, and the TypeError `qs` objects with an own `toString` key cause;
- `JSON.stringify` escaping;
- word boundaries (`\b`);
- `skip`/`limit`, where a limit of 0 means no limit and a negative limit means its magnitude;
- the `TypeError` when the aggregation returns no group.

The listing's `total` counts every bootcamp in the collection, not the bootcamps that match the filter. A listing's pagination is expected to announce a next page only when that page holds matches; with this `total` it does not. The model follows the code, and the discrepancy is recorded under "## Findings".

## Model

| member | source | states |
|---|---|---|
| JsText.Trim | models/Review.js:6 | the trimmed title has no JavaScript white space at either end |
| JsText.TrimPadded | models/Review.js:6 | trimming white space + text + white space gives back the text, when the text neither starts nor ends with white space |
| JsText.TrimmedIsFixed | models/Review.js:6 | a string is left unchanged by trimming exactly when it is empty or has no white space at either end |
| JsText.TrimIdempotent | models/Review.js:6 | trimming twice is trimming once, so the trim setter applied to a stored title changes nothing |
| JsText.Utf16Length | models/Review.js:8 | the length `maxlength` measures is between the number of characters and twice that, and equals it exactly when no character lies outside the Basic Multilingual Plane |
| JsText.Split | controllers/bootcamps.js:33 | `split` yields at least one part, and no part contains the separator |
| JsText.SplitJoinReplaces | controllers/bootcamps.js:33 | `s.split(sep).join(rep)` replaces every occurrence of the one-character separator and changes nothing else |
| JsText.SplitJoinRoundTrip | controllers/bootcamps.js:33 | joining the parts of a split with the same separator gives back the original text |
| JsText.ParseIntRoundTrip | controllers/bootcamps.js:46-47 | `parseInt` reads back any integer written in decimal, whatever non-digit text follows it |
| JsText.ParseIntSkipsWhitespace | controllers/bootcamps.js:46-47 | leading white space does not change what `parseInt` reads |
| JsText.ParseInt | controllers/bootcamps.js:46-47 | `parseInt(t, 10)` is NaN exactly when, after the leading white space, there is neither a digit nor a sign followed by a digit |
| Json.Lookup | controllers/bootcamps.js:32 | a query property is found exactly when the query has a property of that name, and the value found belongs to that property |
| Json.EscapeChar | controllers/bootcamps.js:23 | `JSON.stringify` leaves a character as it is exactly when it is neither a double quote, nor a backslash, nor a control character; any other character becomes an escape starting with a backslash |
| Json.Stringify | controllers/bootcamps.js:23 | the JSON text of a string starts and ends with a double quote, that of an array with square brackets, that of an object with braces |
| Json.ToJsString | controllers/bootcamps.js:46-47 | `String(v)` throws a TypeError exactly when the value, or an item of it, is an object with its own `toString` key; otherwise a string gives itself and an object `[object Object]` |
| Operators.ReplaceOperators | controllers/bootcamps.js:26 | `queryStr.replace(/\b(gt\|gte\|lt\|lte\|in)\b/g, …)` is the reference rewrite `PrefixOperators` |
| Operators.ReplaceIsPrefixing | controllers/bootcamps.js:26 | the left-to-right scan for `\b(gt\|gte\|lt\|lte\|in)\b` equals the reference rewrite: every maximal run of word characters that is exactly one of the five operator words gets a `$` in front, and nothing else changes |
| Operators.MatchLengthIsRunMatch | controllers/bootcamps.js:26 | at each position the pattern matches exactly when a word run starts there and is one of the five operator words, and the match is that whole run |
| Operators.PrefixOperatorsConcat | controllers/bootcamps.js:26 | the rewrite of a concatenation is the concatenation of the rewrites whenever the cut does not split a word run |
| Operators.UnmarkUndoesPrefixing | controllers/bootcamps.js:26 | deleting the `$` marks after the rewrite gives the same text as deleting them from the original, so the rewrite adds nothing but marks |
| Operators.PrefixOperatorsLength | controllers/bootcamps.js:26 | the rewrite only inserts: the text grows, and at most doubles |
| Operators.PrefixingRoundTrip | controllers/bootcamps.js:26 | on text without `$`, the rewritten text determines the original |
| FilterRewrite.ReplaceWholeWord | controllers/bootcamps.js:26 | a lone word is marked exactly when it is one of the five operator words |
| FilterRewrite.NoPartialWords | controllers/bootcamps.js:26 | operator words inside longer words (`gtx`, `lte_`) are not marked |
| FilterRewrite.EscapeCommutes | controllers/bootcamps.js:23-26 | on printable text, escaping a string for JSON and then marking operators equals marking and then escaping |
| FilterRewrite.StringifyCommutes | controllers/bootcamps.js:23-26 | rewriting the JSON text of a printable query value equals stringifying the value whose keys and string values are rewritten |
| QueryTranslator.DeleteMembers | controllers/bootcamps.js:20 | `delete obj[key]` keeps exactly the properties with another key |
| QueryTranslator.LookupAfterDelete | controllers/bootcamps.js:20 | after `delete obj[key]` that key reads as undefined and every other key reads as before |
| QueryTranslator.WithoutKeysMembers | controllers/bootcamps.js:14-20 | the copy keeps exactly the properties whose key is not reserved |
| QueryTranslator.LookupWithoutKeys | controllers/bootcamps.js:14-20 | the copy answers undefined for each deleted key and what the query answers for every other key |
| QueryTranslator.StripReserved | controllers/bootcamps.js:14-20 | the `forEach` loop of deletes leaves the query without its four reserved keys |
| QueryTranslator.FilterKeepsOtherKeys | controllers/bootcamps.js:14-20 | no reserved key reaches the filter, and every other property reaches it unchanged |
| QueryTranslator.FilterIsRewrittenQuery | controllers/bootcamps.js:14-26 | for a query without control characters, the filter text is the JSON of the stripped query with operator words in keys and string values turned into `$` operators |
| QueryTranslator.CommasToSpaces | controllers/bootcamps.js:33 | `split(',').join(' ')` replaces each comma by a space and changes nothing else |
| QueryTranslator.SelectClause | controllers/bootcamps.js:32-35 | there is no projection when `select` is absent or empty; a string gives its commas replaced by spaces; an array or object throws a TypeError |
| QueryTranslator.SortClause | controllers/bootcamps.js:38-43 | `-createdAt` when `sort` is absent or empty; otherwise as for `select`, with the same TypeError |
| QueryTranslator.PageParam | controllers/bootcamps.js:46-47 | `parseInt(v, 10) \|\| default` throws a TypeError exactly when `String(v)` does; otherwise, with a non-zero default, the result is never 0 |
| QueryTranslator.PageOf | controllers/bootcamps.js:46 | the page number throws exactly when `page` is an object with its own `toString`, and is otherwise never 0 |
| QueryTranslator.LimitOf | controllers/bootcamps.js:47 | the page size throws exactly when `limit` is an object with its own `toString`, and is otherwise never 0 |
| QueryTranslator.PageParamReadsInteger | controllers/bootcamps.js:46-47 | a parameter written as a non-zero integer, with any non-digit text after it, is used as that integer, negative values included |
| QueryTranslator.PageParamDefaults | controllers/bootcamps.js:46-47 | an absent parameter, a zero, and any text in which no digit follows the white space and the optional sign all give the default |
| QueryTranslator.PageParamObject | controllers/bootcamps.js:46-47 | a nested object reads as `[object Object]`, which is NaN, and gives the default; one with its own `toString` throws a TypeError |
| QueryTranslator.PageIndices | controllers/bootcamps.js:46-49 | reading `page` or `limit` throws exactly as above; otherwise `startIndex` is `(page-1)*limit`, and the page spans exactly `limit` indices |
| QueryTranslator.TranslateQuery | controllers/bootcamps.js:14-49 | the handler fails exactly when `select` or `sort` is a non-string truthy value, or `page` or `limit` cannot be converted by `String()`, always with a TypeError; otherwise the filter is the rewritten JSON of the stripped query, and the projection, sort, page, limit and indices are those above |
| QueryTranslator.Paginate | controllers/bootcamps.js:58-72 | `next` is page+1 exactly when `page*limit < total`; `prev` is page-1 exactly when `(page-1)*limit > 0` |
| QueryTranslator.PrevOnLaterPages | controllers/bootcamps.js:67-72 | with a positive limit, `prev` appears exactly on pages after the first |
| QueryTranslator.Window | controllers/bootcamps.js:52 | `skip(n).limit(l)` returns rows of the sorted matches in order, starting at row n, at most \|l\| of them, and none once the skip passes the end |
| QueryTranslator.WindowFull | controllers/bootcamps.js:52 | a page holds exactly \|limit\| rows for any limit other than 0 unless the matches run out first, and every row from the skip on for a limit of 0 |
| QueryTranslator.PagesFollow | controllers/bootcamps.js:48-52 | consecutive pages follow each other with no row skipped and none repeated |
| ReviewSchema.Validate | models/Review.js:3-34 | an accepted review passes every schema rule, and its title is the trimmed title of the body; a rejection is a ValidationError |
| ReviewSchema.ValidateAcceptsExactly | models/Review.js:4-33 | a body is accepted exactly when it has the title (non-empty after trimming, at most 100 UTF-16 units), non-empty text, a rating in [1, 10], a bootcamp and a user |
| ReviewSchema.ValidateStoredReview | models/Review.js:3-34 | a stored review that passes the schema is accepted again, unchanged |
| ReviewSchema.ValidPatch | controllers/reviews.js:85-88 | the validators of `findByIdAndUpdate` accept every body `create` accepts, and on a body naming every field they accept exactly what `create` accepts |
| ReviewSchema.ApplyPatch | controllers/reviews.js:85-88 | an empty update changes nothing, and a body `create` accepts yields exactly the review `create` would store |
| ReviewSchema.PatchKeepsValid | controllers/reviews.js:85-88 | an update whose named fields pass their validators leaves a valid review valid |
| ReviewSchema.WriteKeepsUnique | models/Review.js:37 | writing a review keeps `(bootcamp, user)` unique exactly when no other review already holds its pair |
| ReviewSchema.RemoveKeepsUnique | models/Review.js:37 | removing a review keeps the index unique |
| ReviewSchema.SumWithinCount | models/Review.js:14-19 | with every rating in [1, 10], the sum of a bootcamp's ratings lies between its count and ten times its count |
| ReviewSchema.MeanRating | models/Review.js:45-55 | the `$avg` group exists exactly when the bootcamp has a review, and, every rating lying in [1, 10], the mean does too |
| ReviewSchema.SumsIgnoreHigherIds | models/Review.js:45-55 | writing a review at an id at or above n leaves the sum and count over the ids below n unchanged |
| ReviewSchema.SumsAfterInsert | models/Review.js:45-55 | inserting a review at the next id adds its rating and one to its bootcamp's sum and count |
| ReviewSchema.SumsAfterRemove | models/Review.js:45-55 | removing a review takes its rating and one off its bootcamp's sum and count |
| ReviewSchema.SumsUnaffected | models/Review.js:45-55 | removing a review at an id at or above n leaves the sum and count over the ids below n unchanged |
| ReviewSchema.NoCountNoSum | models/Review.js:45-55 | a bootcamp with no reviews has a sum of 0 |
| ReviewSchema.StoredIsCounted | models/Review.js:45-55 | a stored review of the bootcamp below the bound is counted |
| ReviewSchema.NoCountNoPair | models/Review.js:37 | when a bootcamp has no review, no user holds the unique pair with it |
| ReviewSchema.PairFreeAfterOther | models/Review.js:37 | after one user reviews a bootcamp that had none, another user's pair with it is still free |
| ReviewSchema.EightThenFour | models/Review.js:44-69 | a first review rated 8 gives a mean of 8; a second review rated 4 brings it to 6 |
| ReviewSchema.MeanAfterRemovingOne | models/Review.js:72-74 | with two reviews rated 8 and 4, the mean is 6; once the 4 is gone, the mean is 8 |
| ReviewSchema.EightThenFourStored | models/Review.js:44-69 | the bootcamp's mean after reviews rated 8 and 4 are stored is 6 |
| ReviewSchema.EightFourThenRemove | models/Review.js:44-55 | once the review rated 4 is taken out again, the mean of what remains is 8 |
| Models.Matching | controllers/reviews.js:15 | `find(filter)` lists only stored documents that satisfy the filter, in increasing id order |
| Models.MatchingComplete | controllers/reviews.js:15 | every stored document that satisfies the filter is listed |
| Models.FindAll | controllers/reviews.js:15 | the scan over the collection returns exactly the matching documents |
| Models.CountIsListed | models/Review.js:45-55 | the aggregation averages over exactly as many reviews as `find({ bootcamp })` lists |
| Models.WithAverage | models/Review.js:57-63 | the recomputation changes at most the named bootcamp, and no bootcamp appears or disappears |
| Models.AverageWritten | models/Review.js:57-63 | the recomputed bootcamp keeps its other fields; it keeps its old average when it has no reviews (the TypeError is caught), and otherwise holds the mean of its ratings, which lies in [1, 10] |
| Models.Summary | controllers/reviews.js:33-36 | the populated bootcamp is present exactly when the referenced bootcamp exists, and carries its id, name and description |
| Models.Database.InsertBootcamp | controllers/bootcamps.js:105 | `Bootcamp.create` stores the body under a fresh id and changes nothing else |
| Models.Database.InsertCourse | controllers/courses.js:59 | `Course.create` stores the body under a fresh id and changes nothing else |
| Models.Database.Aggregate | models/Review.js:45-55 | the `$match`/`$group` pipeline returns no group exactly when the bootcamp has no reviews, and otherwise one group holding the mean of its ratings |
| Models.Database.GetAverageReview | models/Review.js:44-64 | the bootcamps become the recomputed map, and the reviews and courses are untouched |
| Models.Database.CreateReview | models/Review.js:67-69 | `Review.create` fails exactly on a validation error or a taken `(bootcamp, user)` pair, and then changes nothing; otherwise it stores the validated review under a fresh id and the `save` hook leaves the bootcamp with the mean that counts it |
| Models.Database.RemoveReview | models/Review.js:72-74 | `review.remove()` writes the average computed while the review is still stored, then removes exactly that review |
| BootcampsController.GetBootcamps | controllers/bootcamps.js:11-80 | a TypeError when the query translation throws; then the database's refusal of a negative skip; then whatever the evaluation of the filter, projection or sort throws; otherwise 200 with the page window of the sorted matches, its length as `count`, and the pagination of all bootcamps; every listed bootcamp is stored, and listed once |
| BootcampsController.GetBootcamp | controllers/bootcamps.js:87-97 | 200 with the bootcamp exactly when it exists; otherwise 404 "Bootcamp not found with if of <id>" |
| BootcampsController.CreateBootcamp | controllers/bootcamps.js:104-111 | 201 with the body stored under a fresh id, and the counter advanced |
| BootcampsController.UpdateBootcamp | controllers/bootcamps.js:118-131 | 200 with the named fields replaced, or 404 "Bootcamp not found with id of <id>" with nothing changed |
| BootcampsController.DeleteBootcamp | controllers/bootcamps.js:138-149 | 200 with `data: {}` and that bootcamp gone, or 404 with nothing changed |
| BootcampsController.NextPageBeyondMatches | controllers/bootcamps.js:50-65 | as written, when the matches end on this page but the store holds more bootcamps, `next` is announced and the next page is empty |
| BootcampsController.NextPageHoldsRows | controllers/bootcamps.js:50-65 | counting the matches instead, `next` is announced exactly when the next page holds rows |
| ReviewsController.MayChange | controllers/reviews.js:81 | an administrator may change any review; anyone else exactly the reviews they wrote |
| ReviewsController.GetReviews | controllers/reviews.js:14-20 | 200 with exactly the reviews of the bootcamp, in id order, and their number as `count` |
| ReviewsController.GetReview | controllers/reviews.js:32-43 | 200 with the review and its populated bootcamp exactly when the review exists; otherwise 404 "no review for this id" |
| ReviewsController.AddReview | controllers/reviews.js:51-66 | the route's bootcamp and the acting user override the body's; 404 "we do not have this bootcamp"; otherwise a ValidationError, a DuplicateKey, or 201 with the stored review and the bootcamp's recomputed average; each failure changes nothing |
| ReviewsController.UpdateReview | controllers/reviews.js:74-94 | 404, then 401 "can not update a review" unless the actor owns the review or is an admin; then a ValidationError on the named fields, a DuplicateKey, or 201 with the fields replaced; the bootcamp's average is never touched |
| ReviewsController.DeleteReview | controllers/reviews.js:102-119 | 404, then 401 "can not delete a review" unless owner or admin; otherwise 201, exactly that review gone, and the bootcamps untouched |
| ReviewsController.DeleteReviewAndAverage | controllers/reviews.js:102-119 | the corrected delete: same replies, and after a delete the bootcamp holds the mean of the reviews that remain; when none remain it keeps its old average, as `getAverageReview` writes nothing without a group |
| ReviewsController.AddFreshReview | controllers/reviews.js:51-66 | a valid review by a user without one for that bootcamp is stored under the counter, and the bootcamp then holds the mean of its reviews |
| ReviewsController.AddEightThenFour | controllers/reviews.js:51-66 | two users reviewing a bootcamp without reviews, rated 8 and then 4, leave both reviews stored and the bootcamp holding 6 |
| ReviewsController.StaleAverageAfterDelete | controllers/reviews.js:102-119 | after those two reviews, the second user's delete leaves the bootcamp holding 6 while its remaining review gives a mean of 8 |
| CoursesController.GetCourses | controllers/courses.js:13-19 | 200 with exactly the courses of the bootcamp, in id order, and their number |
| CoursesController.GetCourse | controllers/courses.js:31-43 | 200 with the course and its populated bootcamp exactly when it exists; otherwise 404 "No course with this id" |
| CoursesController.AddCourse | controllers/courses.js:51-65 | the route's bootcamp overrides the body's; 404 "No bootcamp with this id" with nothing created; otherwise 200 with the course stored under a fresh id, and the counter advanced |
| CoursesController.UpdateCourse | controllers/courses.js:73-87 | 404 with nothing changed, or 200 with the named fields replaced; there is no ownership check |
| CoursesController.DeleteCourse | controllers/courses.js:95-106 | 404 with nothing changed, or 200 with `data: {}` and exactly that course gone |

## Left out

- `getBootcampsInRadius` and the geocoder: these call an external geocoding service and use spherical geometry on floating point.
- server.js, the routers and the middleware that mounts the handlers (`protect`, `authorize`, `advancedResults`): the acting user arrives as a `Principal` parameter. The unfiltered branches of `getReviews` and `getCourses` answer with `advancedResults`, which is not modelled.
- `asyncHandler` and the central error handler: a thrown exception is modelled as `Thrown(…)`, and no status is claimed for it.
- seeder.js and utils/sendEmail.js: these are file and network I/O outside the request path.
- The evaluation of the filter, the projection and the sort by MongoDB, and `JSON.parse` of the filter text: `GetBootcamps` takes what the database answers as its parameter `found`, either the sorted matches, as whole stored documents, or the exception the evaluation throws. Which queries make it throw (a top-level `$in` from `?in=5`, a value the schema cannot cast, a projection mixing inclusion and exclusion) is not modelled.
- `BootcampsController.GetBootcamps`: when the skip is negative and the evaluation also fails, the model reports the negative skip; which of the two errors MongoDB reports first is not modelled.
- `BootcampsController.GetBootcamps`: the rows in `found` are modelled as whole stored documents, and the `select` projection is not applied to them, so the promise that every listed row is the stored bootcamp holds only without `select`.
- Mongoose's casting of request bodies: `ReviewBody` and the other bodies carry values that already have their schema types (a rating is a number), so a string `"8"` cast to 8, and a `CastError` for `"abc"` inside the ValidationError, are not modelled.
- The Bootcamp and Course schemas: their validators and cascade hooks are not modelled, so creates and updates of these documents store what they are given.
- Malformed ids (a `CastError`): route ids are modelled as ids that are already valid.
- `createdAt` and the clock, and so the ordering of the default sort.
- Asynchrony: the un-awaited `remove()` calls and the un-awaited `getAverageReview` inside the hooks are modelled as finishing in sequence, so two concurrent requests cannot interleave in the model.
- `Models.Database.RemoveReview`: models the `pre('remove')` hook as running and the removal then proceeding. The hook takes `next` and never calls it, and that wait is not modelled. No handler calls `remove()` on a review.
- `$avg` and ratings are exact reals, not IEEE doubles, so rounding is not modelled. `parseInt` returns an exact integer, and `(page - 1) * limit` and `page * limit` are exact products, with no loss of precision above 2^53.
- JavaScript property order for integer-like keys: `JSON.stringify` is modelled with the keys in insertion order.
- `populate('courses')` in the listing, and the `populate` options beyond the bootcamp's name and description.
- `QueryTranslator.FilterIsRewrittenQuery`: proved for queries without control characters. Their JSON escapes (`\n`, `\u00..`) add letters that can join a word, so the rewrite may then differ.
- `ReviewsController.UpdateReview`: models `findByIdAndUpdate` with validators on the named fields. It does not run the `save` hook, so the average stays stale; the model states this and does not correct it.

## Findings

| source | as written | input that shows it | evidently intended | confidence | as-written member | corrected member |
|---|---|---|---|---|---|---|
| controllers/bootcamps.js:50 | `total` is `Bootcamp.countDocuments()` of the whole collection, and `next` is reported while `page*limit < total` | 30 bootcamps, a filter that matches none (or up to 25) of them, page 1, limit 25: `next` points to page 2, which is empty | `total` counts the documents that match the filter, so `next` appears exactly when the next page has rows | high, not executed | BootcampsController.NextPageBeyondMatches | BootcampsController.NextPageHoldsRows |
| controllers/reviews.js:113 | `review.deleteOne()` removes the review without firing the `pre('remove')` hook, so the bootcamp's `averageRating` is never recomputed | a bootcamp with reviews rated 8 and 4 (average 6); delete the 4: the bootcamp still holds 6, while its remaining review gives 8 (`ReviewsController.StaleAverageAfterDelete` runs these requests; `ReviewSchema.MeanAfterRemovingOne` computes the two means) | the average is recomputed once the review is gone | medium, not executed | ReviewsController.DeleteReview | ReviewsController.DeleteReviewAndAverage |
