/** The three reviews the table is seeded with, used as concrete inputs for
    the request handler. */
module SeedReviews {
  import opened JsParseInt
  import opened ReviewsByAuthor

  /** The seed records, with their review texts left as parameters: the
      handler never reads a review's text. */
  function Seed(msbreviews: string, justhappytobehere: string, austinmgray: string): seq<Review> {
    [
      Review(848326, "msbreviews", "2023-12-24", msbreviews, 7),
      Review(572802, "justhappytobehere", "2024-01-26", justhappytobehere, 4),
      Review(695721, "austinmgray", "2023-11-25", austinmgray, 8)
    ]
  }

  /** The seed respects the table's key schema. */
  lemma SeedHasUniqueKeys(c1: string, c2: string, c3: string)
    ensures UniqueKeys(Seed(c1, c2, c3))
  {
  }

  /** Reading the seed table under one key, record by record. */
  lemma SeedItemsWithKey(r: seq<Review>, k: Key)
    requires |r| == 3
    ensures ItemsWithKey(r, k)
      == (if KeyOf(r[0]) == k then [r[0]] else [])
       + (if KeyOf(r[1]) == k then [r[1]] else [])
       + (if KeyOf(r[2]) == k then [r[2]] else [])
  {
    assert r[1..][1..] == r[2..] && r[2..][1..] == r[3..] == [];
    assert ItemsWithKey(r[2..], k) == (if KeyOf(r[2]) == k then [r[2]] else []);
    assert ItemsWithKey(r[1..], k) == (if KeyOf(r[1]) == k then [r[1]] else []) + ItemsWithKey(r[2..], k);
  }

  lemma ParseSeedMovieId()
    ensures ParseInt("848326") == Finite(848326)
  {
    assert NatDigits(8) == "8";
    assert NatDigits(84) == "84";
    assert NatDigits(848) == "848";
    assert NatDigits(8483) == "8483";
    assert NatDigits(84832) == "84832";
    assert NatDigits(848326) == "848326";
    assert DecimalString(848326) + "" == "848326";
    ParseIntOfDecimalString(848326, "");
  }

  /** As written, GET /movies/848326/reviews/msbreviews on the seeded
      Reviews table answers 500: the table refuses the filter on its sort key. */
  lemma SeedLookupAsWrittenFails(c1: string, c2: string, c3: string)
    ensures Handler(PathEvent("848326", "msbreviews"), Answering(ReviewsTableSchema, Seed(c1, c2, c3)))
      == Response(500, JsonHeaders, ErrorBody(KeyAttributeInFilter("ReviewerName")))
  {
    ParseSeedMovieId();
    ValidatePathEvent("848326", "msbreviews");
    HandlerRefusedByReviewsTable(PathEvent("848326", "msbreviews"), Seed(c1, c2, c3));
  }

  /** With the corrected key condition, the same request answers 200 with
      the one review msbreviews wrote for movie 848326. */
  lemma SeedLookupFindsReview(c1: string, c2: string, c3: string)
    ensures var table := Seed(c1, c2, c3);
      FixedHandler(PathEvent("848326", "msbreviews"), Answering(ReviewsTableSchema, table))
        == Response(200, JsonHeaders, DataBody([table[0]]))
  {
    var table := Seed(c1, c2, c3);
    ParseSeedMovieId();
    ValidatePathEvent("848326", "msbreviews");
    var k := Key(848326, "msbreviews");
    SeedItemsWithKey(table, k);
    assert KeyOf(table[0]) == k && KeyOf(table[1]) != k && KeyOf(table[2]) != k;
    assert ItemsWithKey(table, k) == [table[0]];
    FixedHandlerAnswersKeyLookup(PathEvent("848326", "msbreviews"), table);
  }

  /** With the corrected key condition, a reviewer who did not review that
      movie gets the not-found answer. */
  lemma SeedLookupMissesOtherReviewer(c1: string, c2: string, c3: string)
    ensures FixedHandler(PathEvent("848326", "austinmgray"), Answering(ReviewsTableSchema, Seed(c1, c2, c3)))
      == NotFoundResponse
  {
    var table := Seed(c1, c2, c3);
    ParseSeedMovieId();
    ValidatePathEvent("848326", "austinmgray");
    FixedHandlerAnswersKeyLookup(PathEvent("848326", "austinmgray"), table);
    SeedItemsWithKey(table, Key(848326, "austinmgray"));
  }
}
