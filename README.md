# Reviews by movie and reviewer, modelled in Dafny

This project models the request handler behind
`GET /movies/{movieId}/reviews/{reviewerName}` of a movie-review REST API.
The handler reads the two path parameters and turns `movieId` into a number
with JavaScript's `parseInt`. It rejects the request when either value is
falsy. Otherwise it queries the `Reviews` table: a key condition on the
partition key `MovieId`, then a filter on `ReviewerName`. It answers with one
of four JSON responses, and each carries the header
`content-type: application/json`:

- 404 `{Message: "Missing movie Id or reviewer name"}`;
- 404 `{Message: "No reviews found. Verify movie Id and reviewer name and try again."}`;
- 200 `{data: <items>}`;
- 500 `{error: <what the store call threw>}`.

Files:

- `js_parse_int.dfy` (module `JsParseInt`) models `parseInt` with no radix, as
  section 19.2.5 of ECMA-262 defines it. It skips leading white space, reads an
  optional sign and an optional `0x`/`0X` prefix, and takes the longest run of
  digits. The partner of `ParseInt` is an independent decimal formatter,
  `DecimalString`. The lemmas prove that `ParseInt` reads that formatter's
  output back, whatever non-digit text follows it, except that a lone `0`
  followed by `x` or `X` starts a hexadecimal literal.
- `reviews_by_author.dfy` (module `ReviewsByAuthor`) holds the review record,
  the table's key, the path-parameter guard, the key-condition-plus-filter
  query and the handler. The handler is a function of the event and of the
  store. The store is either a table with a key schema over a sequence of
  items, or a store whose every call fails with an error. A table checks
  each query the way the table service does, and refuses a filter that
  names a key attribute. The handler as written puts `ReviewerName` in the
  filter. The Reviews table has `ReviewerName` as its sort key, so it
  refuses that query (see "## Findings"). `FixedHandler` moves the
  condition into the key condition, and the lookup properties are proved
  for it. The partner of the query is `ItemsWithKey`, a reference selection
  by primary key.
- `seed_reviews.dfy` (module `SeedReviews`) holds the three records the table
  is seeded with. It uses them as concrete inputs to the handler. The review
  texts are parameters, because the handler never reads a review's text.

The truthiness test `!movieId` also rejects a `movieId` that parses to 0,
such as `"0"` or `"-0"`. Because `parseInt` reads a prefix, `"42abc"` is
movie 42, `"0x10"` is movie 16 and `"12.5"` is movie 12.

## Model

| member | source | states |
|---|---|---|
| `JsParseInt.ParseInt` | lambda/getMovieReviewsByAuthor.ts:12 | parseInt with no radix, characterised by the lemmas below; its own contract says a number is read only when a digit follows the leading white space, directly or after one sign |
| `JsParseInt.TrimStart` | lambda/getMovieReviewsByAuthor.ts:12 | parseInt first drops leading white space: the result is no longer than the input and does not start with white space |
| `JsParseInt.TrimStartRemovesOnlyWhiteSpace` | lambda/getMovieReviewsByAuthor.ts:12 | what TrimStart keeps is a suffix of its input, and everything it drops is white space |
| `JsParseInt.DigitPrefixIsLongestDigitRun` | lambda/getMovieReviewsByAuthor.ts:12 | parseInt reads the longest prefix made of digits of the base: a prefix of the input, all digits, and followed by a non-digit or by nothing |
| `JsParseInt.ParseIntOfDecimalString` | lambda/getMovieReviewsByAuthor.ts:12 | parseInt reads back any integer written in decimal, followed by any text that does not start with a digit; the one exception is a lone 0 followed by x or X |
| `JsParseInt.DigitPrefixStopsAtNonDigit` | lambda/getMovieReviewsByAuthor.ts:12 | a run of digits followed by a non-digit is read up to exactly that non-digit |
| `JsParseInt.ParseIntSkipsWhiteSpace` | lambda/getMovieReviewsByAuthor.ts:12 | leading white space never changes what parseInt returns |
| `JsParseInt.ParseIntOfMinus` | lambda/getMovieReviewsByAuthor.ts:12 | a leading '-' is read as the sign, and the text after it as the unsigned part, whose value is negated |
| `JsParseInt.ParseIntOfNegated` | lambda/getMovieReviewsByAuthor.ts:12 | a leading '-' negates the value that is read, and NaN stays NaN |
| `JsParseInt.ParseIntOfHexLiteral` | lambda/getMovieReviewsByAuthor.ts:12 | after "0x" or "0X" digits are read in base 16; with no hexadecimal digit after the prefix the result is NaN |
| `JsParseInt.ParseIntWithoutLeadingDigit` | lambda/getMovieReviewsByAuthor.ts:12 | text that, after white space, starts with neither a sign nor a digit is NaN |
| `JsParseInt.ParseIntStopsAtFirstNonDigit` | lambda/getMovieReviewsByAuthor.ts:12 | "42abc" is read as 42 and "12.5" as 12 |
| `JsParseInt.ParseIntSignedExamples` | lambda/getMovieReviewsByAuthor.ts:12 | "-5" is read as -5 and "0" as 0 |
| `JsParseInt.ParseIntRejectsText` | lambda/getMovieReviewsByAuthor.ts:12 | "abc" and "" are NaN |
| `JsParseInt.ParseIntSpaceExample` | lambda/getMovieReviewsByAuthor.ts:12 | "  7" is read as 7 |
| `JsParseInt.ParseIntHexExamples` | lambda/getMovieReviewsByAuthor.ts:12 | "0x1A" is read as 26, and "0xg" is NaN |
| `ReviewsByAuthor.ValidateRequest` | lambda/getMovieReviewsByAuthor.ts:12-16 | an accepted request carries a non-zero movie id and a non-empty reviewer name |
| `ReviewsByAuthor.ValidationIffParameters` | lambda/getMovieReviewsByAuthor.ts:10-16 | a request is rejected exactly when movieId is absent or parses to NaN or 0, or reviewerName is absent or empty; an accepted request carries the parsed id and the name |
| `ReviewsByAuthor.ValidatePathEvent` | lambda/getMovieReviewsByAuthor.ts:12-16 | with both path parameters present, validation accepts exactly a non-empty name with an id that parses to a non-zero number |
| `ReviewsByAuthor.KeyCondition` | lambda/getMovieReviewsByAuthor.ts:29 | the key condition keeps exactly the table items whose MovieId equals the id |
| `ReviewsByAuthor.Filter` | lambda/getMovieReviewsByAuthor.ts:30 | the filter keeps exactly the items whose ReviewerName equals the name |
| `ReviewsByAuthor.RunQuery` | lambda/getMovieReviewsByAuthor.ts:26-36 | a query the table accepts returns exactly the table items whose MovieId and ReviewerName both match the command's values |
| `ReviewsByAuthor.Send` | lambda/getMovieReviewsByAuthor.ts:26-36 | the store call yields items exactly when the store is a table that accepts the command's placement of the ReviewerName condition; those items are exactly the ones stored under the requested key; otherwise the call throws |
| `ReviewsByAuthor.RunQueryIsKeyLookup` | lambda/getMovieReviewsByAuthor.ts:26-36 | the key condition followed by the filter equals a lookup by the primary key (MovieId, ReviewerName), with order and repetitions kept |
| `ReviewsByAuthor.AtMostOneItemPerKey` | lib/api-api.ts:32-33 | when no two items share a (MovieId, ReviewerName) key, at most one item is found under any key |
| `ReviewsByAuthor.Handler` | lambda/getMovieReviewsByAuthor.ts:7-69 | the handler as written: `Respond` with `ReviewerName = :rN` in the filter, as at line 30; every response has the JSON header and status 200, 404 or 500, and a 200 can only come from a table whose key leaves ReviewerName out |
| `ReviewsByAuthor.Respond` | lambda/getMovieReviewsByAuthor.ts:7-69 | every response has the JSON content-type header and status 200, 404 or 500; a 200 body holds a non-empty item list; a 404 body holds one of the two messages; 500 comes exactly when the request is valid and the store fails or refuses the query, and then the body holds what was thrown |
| `ReviewsByAuthor.HandlerRefusedByReviewsTable` | lambda/getMovieReviewsByAuthor.ts:26-67 | as written, on the Reviews table (sort key ReviewerName), every valid request gets 500 with the refusal of a filter on a key attribute |
| `ReviewsByAuthor.HandlerAnswersOnlyWithoutReviewerKey` | lambda/getMovieReviewsByAuthor.ts:29-30 | as written, a 200 can only come from a table partitioned on MovieId whose key does not include ReviewerName |
| `ReviewsByAuthor.FixedHandlerAnswersKeyLookup` | lambda/getMovieReviewsByAuthor.ts:26-58 | with the ReviewerName condition in the key condition, the Reviews table answers every valid request with the not-found 404 when nothing is stored under the key, and otherwise 200 with exactly the items stored under it |
| `ReviewsByAuthor.MissingParameterIffInvalid` | lambda/getMovieReviewsByAuthor.ts:16-24 | for either placement of the ReviewerName condition, the missing-parameter 404 is given exactly when validation rejects the request |
| `ReviewsByAuthor.RejectionIgnoresStore` | lambda/getMovieReviewsByAuthor.ts:16-36 | for either placement, a rejected request issues no query: its response is the same whatever the store holds or does |
| `ReviewsByAuthor.AnswerIsKeyLookup` | lambda/getMovieReviewsByAuthor.ts:26-58 | for a valid request and a query the table accepts, the answer is the not-found 404 when nothing is stored under the key, and otherwise 200 with exactly the items stored under it |
| `ReviewsByAuthor.SuccessCarriesExactlyTheMatches` | lambda/getMovieReviewsByAuthor.ts:48-58 | a 200 comes only from a table, every item of its body matches both the parsed id and the name, and every stored item that matches both is in the body |
| `ReviewsByAuthor.NotFoundIffNoMatch` | lambda/getMovieReviewsByAuthor.ts:38-46 | for a valid request and a query the table accepts, the not-found 404 comes exactly when no stored item matches both the id and the name |
| `ReviewsByAuthor.UniqueKeysGiveOneItem` | lambda/getMovieReviewsByAuthor.ts:26-58 | when the table's keys are unique, a 200 body carries exactly one item |
| `ReviewsByAuthor.MovieIdAcceptedExamples` | lambda/getMovieReviewsByAuthor.ts:12-16 | a movieId of "42abc" is accepted as 42 and "-5" as -5 |
| `ReviewsByAuthor.MovieIdRejectedExamples` | lambda/getMovieReviewsByAuthor.ts:12-16 | movieIds "abc", "0" and "" are rejected, and so are an empty reviewer name and an event without path parameters |
| `SeedReviews.SeedHasUniqueKeys` | seed/reviews.ts:3-29 | the seed records have distinct (MovieId, ReviewerName) keys, whatever their review texts |
| `SeedReviews.SeedLookupAsWrittenFails` | seed/reviews.ts:4-11 | as written, (848326, "msbreviews") on the seeded Reviews table answers 500, because the table refuses the filter on its sort key |
| `SeedReviews.SeedLookupFindsReview` | seed/reviews.ts:4-11 | with the corrected key condition, (848326, "msbreviews") on the seeded Reviews table answers 200 with exactly that seed record, whatever the review texts |
| `SeedReviews.SeedLookupMissesOtherReviewer` | seed/reviews.ts:3-29 | with the corrected key condition, (848326, "austinmgray") on the seeded Reviews table answers the not-found 404 |

## Findings

| source | as written | input that shows it | evidently intended | confidence | as-written member | corrected member |
|---|---|---|---|---|---|---|
| lambda/getMovieReviewsByAuthor.ts:30 | `ReviewerName = :rN` is a FilterExpression. ReviewerName is the sort key of the Reviews table this handler queries (lib/api-api.ts:33, 93), and the table service refuses a filter that names a key attribute, so the query throws and the catch answers 500 | movieId "848326", reviewerName "msbreviews" on the seeded table: 500 | key condition `MovieId = :m and ReviewerName = :rN`: 200 with the msbreviews review, and not-found 404 when nothing is stored under the key | not executed; rests on the table service's documented rule that a filter expression may not name a partition or sort key attribute | `ReviewsByAuthor.HandlerRefusedByReviewsTable` | `ReviewsByAuthor.FixedHandlerAnswersKeyLookup` |

## Left out

- JsParseInt.ParseInt: returns exact integers. A JavaScript Number is a double, so digit runs beyond 2^53 are rounded and very long ones become Infinity; the model does not capture that. For the handler this matters because the table client marshals the id before sending it. A truthy Infinity id, or one beyond the safe-integer range, may be refused there, which would give 500, while the model goes on to the lookup. That marshalling is not part of this model.
- JsParseInt.ParseInt: does not tell -0 from 0. `"-0"` parses to -0 in JavaScript, but -0 and 0 are both falsy, so the handler rejects both alike.
- `async`/`await`, `console.log` and the exact text `JSON.stringify` produces are not modelled. The response body is a datatype.
- `createDDbDocClient`, the process-wide client, the region and the `TABLE_NAME` environment variable are not modelled. They are SDK construction and configuration for a library that is not part of this model.
- A query result whose `Items` field is undefined is not modelled separately. A query over a table always yields a list here, and the source treats an undefined list like an empty one.
- ReviewsByAuthor.RunQuery: reads the whole partition in one call. The table service pages query results at 1 MB per call, and the handler ignores `LastEvaluatedKey`; the model does not capture this.
- ReviewsByAuthor.RunQuery: returns matches in table order, not sort-key order. A table keyed on (MovieId, ReviewerName) holds at most one match, so there the order cannot be observed. On a table without that key, the as-written query may return several matches, and their order is not modelled.
- ReviewsByAuthor.Refusal: covers only the table service's checks that this query can trip: a key condition that does not name the partition key MovieId, a key condition on a non-key ReviewerName, and a filter on a key attribute. Other failures of the call are represented by a store whose every call fails.
- The exact error object the table service throws, and the text `JSON.stringify` makes of it, are not modelled. `StoreError` stands for the thrown object abstractly.
- Errors thrown by code other than the store call are not modelled. The only such code is logging and JSON serialisation.
- The other handlers, the authorizer and the infrastructure declarations are not part of this model. Among the infrastructure, only the key schema in `lib/api-api.ts` is used. It is used in two ways: as `ReviewsTableSchema`, on which `HandlerRefusedByReviewsTable` and the Findings row rest, and as the `UniqueKeys` assumption.
