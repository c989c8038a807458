/** The request handler for GET /movies/{movieId}/reviews/{reviewerName}:
    it validates the two path parameters, queries the Reviews table by its
    partition key MovieId with a filter on ReviewerName, and classifies the
    outcome into one of four JSON responses. */
module ReviewsByAuthor {
  import opened JsParseInt

  datatype Option<T> = None | Some(value: T)

  /** One stored review, with the attribute names the table uses. */
  datatype Review = Review(MovieId: int, ReviewerName: string, ReviewDate: string, Content: string, Rating: int)

  /** The table's composite primary key: partition key MovieId, sort key ReviewerName. */
  datatype Key = Key(movieId: int, reviewerName: string)

  function KeyOf(r: Review): Key {
    Key(r.MovieId, r.ReviewerName)
  }

  /** What the table promises by its key schema: no two items share a key. */
  predicate UniqueKeys(table: seq<Review>) {
    forall i, j :: 0 <= i < j < |table| ==> KeyOf(table[i]) != KeyOf(table[j])
  }

  /** The part of the incoming event the handler reads. */
  datatype Event = Event(pathParameters: Option<map<string, string>>)

  /** `event?.pathParameters?.<name>`. */
  function PathParameter(event: Event, name: string): Option<string> {
    match event.pathParameters
    case None => None
    case Some(ps) => if name in ps then Some(ps[name]) else None
  }

  /** The value bound to `movieId`: parseInt of a non-empty parameter,
      otherwise undefined. */
  datatype MovieIdValue = Undefined | Parsed(number: NumberValue)

  function MovieIdValueOf(event: Event): MovieIdValue {
    match PathParameter(event, "movieId")
    case Some(p) => if p != "" then Parsed(ParseInt(p)) else Undefined
    case None => Undefined
  }

  /** JavaScript truthiness of that value: undefined, NaN and 0 are falsy. */
  predicate IsTruthy(v: MovieIdValue) {
    v.Parsed? && v.number.Finite? && v.number.value != 0
  }

  /** The value bound to `reviewerName`: the parameter when non-empty. */
  function ReviewerNameOf(event: Event): Option<string> {
    match PathParameter(event, "reviewerName")
    case Some(p) => if p != "" then Some(p) else None
    case None => None
  }

  /** A request that passed validation. */
  datatype Request = Request(movieId: int, reviewerName: string)

  /** The guard before the query: both values must be truthy. */
  function ValidateRequest(event: Event): (r: Option<Request>)
    ensures r.Some? ==> r.value.movieId != 0 && r.value.reviewerName != ""
  {
    var movieId := MovieIdValueOf(event);
    var reviewerName := ReviewerNameOf(event);
    if !IsTruthy(movieId) || reviewerName.None? then None
    else Some(Request(movieId.number.value, reviewerName.value))
  }

  /** Validation in terms of the raw path parameters: a request is rejected
      exactly when movieId is absent or parses to NaN or 0, or reviewerName is
      absent or empty; an accepted request carries the parsed id and the name. */
  lemma ValidationIffParameters(event: Event)
    ensures var r := ValidateRequest(event);
      && (r.None? <==>
          (match PathParameter(event, "movieId")
           case None => true
           case Some(p) => ParseInt(p) == NaN || ParseInt(p) == Finite(0))
          || PathParameter(event, "reviewerName") in {None, Some("")})
      && (r.Some? ==>
          PathParameter(event, "movieId").Some?
          && ParseInt(PathParameter(event, "movieId").value) == Finite(r.value.movieId)
          && PathParameter(event, "reviewerName") == Some(r.value.reviewerName))
  {
    ParseIntRejectsText();
  }

  /** Where a query command places the condition `ReviewerName = :rN`: in
      the FilterExpression, as the handler does, or in the
      KeyConditionExpression beside `MovieId = :m`. */
  datatype Placement = InFilter | InKeyCondition

  /** The QueryCommand the handler sends: KeyConditionExpression
      "MovieId = :m", and "ReviewerName = :rN" placed as `placement` says. */
  datatype QueryCommand = QueryCommand(m: int, rN: string, placement: Placement)

  /** The key condition: the items of partition `m`. */
  function KeyCondition(table: seq<Review>, m: int): (items: seq<Review>)
    ensures |items| <= |table|
    ensures forall x :: x in items <==> x in table && x.MovieId == m
  {
    if table == [] then []
    else (if table[0].MovieId == m then [table[0]] else []) + KeyCondition(table[1..], m)
  }

  /** The condition on ReviewerName, applied to what the key condition read. */
  function Filter(items: seq<Review>, rN: string): (kept: seq<Review>)
    ensures |kept| <= |items|
    ensures forall x :: x in kept <==> x in items && x.ReviewerName == rN
  {
    if items == [] then []
    else (if items[0].ReviewerName == rN then [items[0]] else []) + Filter(items[1..], rN)
  }

  /** The items a table returns for a query it accepts.  Both placements
      select the same items; the placement only decides whether the table
      accepts the command (see Refusal). */
  function RunQuery(table: seq<Review>, cmd: QueryCommand): (items: seq<Review>)
    ensures forall x :: x in items <==> x in table && KeyOf(x) == Key(cmd.m, cmd.rN)
  {
    Filter(KeyCondition(table, cmd.m), cmd.rN)
  }

  /** Reference definition: the items stored under one primary key, in table order. */
  function ItemsWithKey(table: seq<Review>, k: Key): (items: seq<Review>)
    ensures forall x :: x in items <==> x in table && KeyOf(x) == k
  {
    if table == [] then []
    else (if KeyOf(table[0]) == k then [table[0]] else []) + ItemsWithKey(table[1..], k)
  }

  /** The key condition followed by the filter selects exactly the items
      stored under the key (m, rN), with order and repetitions kept. */
  lemma {:induction false} RunQueryIsKeyLookup(table: seq<Review>, cmd: QueryCommand)
    ensures RunQuery(table, cmd) == ItemsWithKey(table, Key(cmd.m, cmd.rN))
  {
    if table != [] {
      RunQueryIsKeyLookup(table[1..], cmd);
      var head := if table[0].MovieId == cmd.m then [table[0]] else [];
      FilterAppend(head, KeyCondition(table[1..], cmd.m), cmd.rN);
    }
  }

  lemma {:induction false} FilterAppend(a: seq<Review>, b: seq<Review>, rN: string)
    ensures Filter(a + b, rN) == Filter(a, rN) + Filter(b, rN)
  {
    if a == [] {
      assert a + b == b;
    } else {
      assert (a + b)[1..] == a[1..] + b;
      FilterAppend(a[1..], b, rN);
    }
  }

  /** Under the key schema, at most one item is stored under a key. */
  lemma {:induction false} AtMostOneItemPerKey(table: seq<Review>, k: Key)
    requires UniqueKeys(table)
    ensures |ItemsWithKey(table, k)| <= 1
  {
    if table != [] {
      var rest := table[1..];
      assert UniqueKeys(rest) by {
        forall i, j | 0 <= i < j < |rest| ensures KeyOf(rest[i]) != KeyOf(rest[j]) {
          assert rest[i] == table[i + 1] && rest[j] == table[j + 1];
        }
      }
      AtMostOneItemPerKey(rest, k);
      if KeyOf(table[0]) == k {
        forall x | x in rest ensures KeyOf(x) != k {
          var j :| 0 <= j < |rest| && rest[j] == x;
          assert table[j + 1] == x;
        }
        NoItemsWithAbsentKey(rest, k);
      }
    }
  }

  lemma NoItemsWithAbsentKey(table: seq<Review>, k: Key)
    requires forall x :: x in table ==> KeyOf(x) != k
    ensures ItemsWithKey(table, k) == []
  {
  }

  /** A table's key schema: its partition key and optional sort key. */
  datatype KeySchema = KeySchema(partitionKey: string, sortKey: Option<string>)

  /** The schema of the Reviews table the handler queries. */
  const ReviewsTableSchema: KeySchema := KeySchema("MovieId", Some("ReviewerName"))

  predicate IsKeyAttribute(schema: KeySchema, attribute: string) {
    attribute == schema.partitionKey || schema.sortKey == Some(attribute)
  }

  /** What a failing store call throws.  It stands for the thrown object
      abstractly: JSON.stringify keeps only an error's enumerable own
      properties, so the text the client receives is not modelled. */
  datatype StoreError =
    | KeyAttributeInFilter(attribute: string)    // a filter names a key attribute
    | NotAKeyAttribute(attribute: string)        // a key condition names a non-key attribute
    | ServiceFault(name: string)                 // any other failure of the call

  /** The table service's validation of a query on MovieId and ReviewerName:
      the key condition must name the partition key and may name the sort
      key only, and a filter may not name a key attribute. */
  function Refusal(schema: KeySchema, placement: Placement): Option<StoreError> {
    if schema.partitionKey != "MovieId" then Some(NotAKeyAttribute("MovieId"))
    else match placement
      case InFilter =>
        if IsKeyAttribute(schema, "ReviewerName") then Some(KeyAttributeInFilter("ReviewerName")) else None
      case InKeyCondition =>
        if schema.sortKey != Some("ReviewerName") then Some(NotAKeyAttribute("ReviewerName")) else None
  }

  /** The table as the handler sees it: a table with a key schema that
      answers the queries it accepts, or a store whose every call fails. */
  datatype Store = Answering(schema: KeySchema, table: seq<Review>) | Failing(error: StoreError)

  /** What `ddbDocClient.send` gives back: the items, or what it throws. */
  datatype QueryOutcome = Items(items: seq<Review>) | Thrown(error: StoreError)

  function Send(store: Store, cmd: QueryCommand): (out: QueryOutcome)
    ensures out.Items? <==> store.Answering? && Refusal(store.schema, cmd.placement).None?
    ensures out.Items? ==>
      forall x :: x in out.items <==> x in store.table && KeyOf(x) == Key(cmd.m, cmd.rN)
  {
    match store
    case Failing(error) => Thrown(error)
    case Answering(schema, table) =>
      match Refusal(schema, cmd.placement)
      case Some(error) => Thrown(error)
      case None => Items(RunQuery(table, cmd))
  }

  /** The JSON body, as a value rather than the bytes JSON.stringify makes. */
  datatype Body = MessageBody(Message: string) | DataBody(data: seq<Review>) | ErrorBody(error: StoreError)

  datatype Response = Response(statusCode: int, headers: map<string, string>, body: Body)

  const JsonHeaders: map<string, string> := map["content-type" := "application/json"]
  const MissingParameterMessage: string := "Missing movie Id or reviewer name"
  const NotFoundMessage: string := "No reviews found. Verify movie Id and reviewer name and try again."

  const MissingParameterResponse: Response := Response(404, JsonHeaders, MessageBody(MissingParameterMessage))
  const NotFoundResponse: Response := Response(404, JsonHeaders, MessageBody(NotFoundMessage))

  /** The handler's steps, for a query command placing the ReviewerName
      condition as `placement` says. */
  function Respond(event: Event, store: Store, placement: Placement): (r: Response)
    ensures r.headers == JsonHeaders
    ensures r.statusCode == 200 || r.statusCode == 404 || r.statusCode == 500
    ensures r.statusCode == 200 ==> r.body.DataBody? && r.body.data != []
    ensures r.statusCode == 404 ==> r.body in {MessageBody(MissingParameterMessage), MessageBody(NotFoundMessage)}
    ensures r.statusCode == 500 <==>
      ValidateRequest(event).Some? && (store.Failing? || Refusal(store.schema, placement).Some?)
    ensures r.statusCode == 500 ==>
      r.body == ErrorBody(if store.Failing? then store.error else Refusal(store.schema, placement).value)
  {
    match ValidateRequest(event)
    case None => MissingParameterResponse
    case Some(req) =>
      match Send(store, QueryCommand(req.movieId, req.reviewerName, placement))
      case Thrown(error) => Response(500, JsonHeaders, ErrorBody(error))
      case Items(items) =>
        if |items| == 0 then NotFoundResponse
        else Response(200, JsonHeaders, DataBody(items))
  }

  /** The handler as written: ReviewerName is in the FilterExpression, so
      only a table whose key leaves ReviewerName out can answer 200. */
  function Handler(event: Event, store: Store): (r: Response)
    ensures r.headers == JsonHeaders
    ensures r.statusCode == 200 || r.statusCode == 404 || r.statusCode == 500
    ensures r.statusCode == 200 ==> store.Answering? && !IsKeyAttribute(store.schema, "ReviewerName")
  {
    Respond(event, store, InFilter)
  }

  /** The handler as evidently intended: the key condition is
      "MovieId = :m and ReviewerName = :rN". */
  function FixedHandler(event: Event, store: Store): Response {
    Respond(event, store, InKeyCondition)
  }

  /** The missing-parameter response is given exactly when validation fails. */
  lemma MissingParameterIffInvalid(event: Event, store: Store, placement: Placement)
    ensures Respond(event, store, placement) == MissingParameterResponse <==> ValidateRequest(event).None?
  {
  }

  /** A rejected request issues no query: its response does not depend on the table. */
  lemma RejectionIgnoresStore(event: Event, s1: Store, s2: Store, placement: Placement)
    requires ValidateRequest(event).None?
    ensures Respond(event, s1, placement) == Respond(event, s2, placement)
  {
  }

  /** As written, the handler's query is refused by the Reviews table,
      whose sort key is ReviewerName: every valid request gets 500. */
  lemma HandlerRefusedByReviewsTable(event: Event, table: seq<Review>)
    requires ValidateRequest(event).Some?
    ensures Handler(event, Answering(ReviewsTableSchema, table))
      == Response(500, JsonHeaders, ErrorBody(KeyAttributeInFilter("ReviewerName")))
  {
  }

  /** As written, the handler can only answer 200 from a table partitioned
      on MovieId whose key does not include ReviewerName. */
  lemma HandlerAnswersOnlyWithoutReviewerKey(event: Event, schema: KeySchema, table: seq<Review>)
    requires Handler(event, Answering(schema, table)).statusCode == 200
    ensures schema.partitionKey == "MovieId" && !IsKeyAttribute(schema, "ReviewerName")
  {
  }

  /** For a valid request and a query the table accepts, the response is
      decided by the items stored under the requested key: 404 not found
      when there are none, and otherwise 200 carrying exactly those items. */
  lemma AnswerIsKeyLookup(event: Event, schema: KeySchema, table: seq<Review>, placement: Placement)
    requires ValidateRequest(event).Some? && Refusal(schema, placement).None?
    ensures var req := ValidateRequest(event).value;
      var items := ItemsWithKey(table, Key(req.movieId, req.reviewerName));
      Respond(event, Answering(schema, table), placement)
        == if items == [] then NotFoundResponse else Response(200, JsonHeaders, DataBody(items))
  {
    var req := ValidateRequest(event).value;
    RunQueryIsKeyLookup(table, QueryCommand(req.movieId, req.reviewerName, placement));
  }

  /** The corrected handler on the Reviews table answers every valid request
      by a lookup under its key. */
  lemma FixedHandlerAnswersKeyLookup(event: Event, table: seq<Review>)
    requires ValidateRequest(event).Some?
    ensures var req := ValidateRequest(event).value;
      var items := ItemsWithKey(table, Key(req.movieId, req.reviewerName));
      FixedHandler(event, Answering(ReviewsTableSchema, table))
        == if items == [] then NotFoundResponse else Response(200, JsonHeaders, DataBody(items))
  {
    AnswerIsKeyLookup(event, ReviewsTableSchema, table, InKeyCondition);
  }

  /** Every item in a 200 body matches both path parameters, and every
      stored item that matches both is in the body. */
  lemma SuccessCarriesExactlyTheMatches(event: Event, store: Store, placement: Placement)
    requires Respond(event, store, placement).statusCode == 200
    ensures ValidateRequest(event).Some? && store.Answering?
    ensures var req := ValidateRequest(event).value;
      forall x :: x in Respond(event, store, placement).body.data <==>
        x in store.table && x.MovieId == req.movieId && x.ReviewerName == req.reviewerName
  {
  }

  /** For a query the table accepts, not found is answered exactly when
      nothing is stored under the key. */
  lemma NotFoundIffNoMatch(event: Event, schema: KeySchema, table: seq<Review>, placement: Placement)
    requires ValidateRequest(event).Some? && Refusal(schema, placement).None?
    ensures var req := ValidateRequest(event).value;
      Respond(event, Answering(schema, table), placement) == NotFoundResponse <==>
        forall x :: x in table ==> x.MovieId != req.movieId || x.ReviewerName != req.reviewerName
  {
    var req := ValidateRequest(event).value;
    var items := RunQuery(table, QueryCommand(req.movieId, req.reviewerName, placement));
    if items != [] {
      assert items[0] in items;
    }
  }

  /** With the table's keys unique, a 200 response carries one item. */
  lemma UniqueKeysGiveOneItem(event: Event, store: Store, placement: Placement)
    requires store.Answering? && UniqueKeys(store.table)
    requires Respond(event, store, placement).statusCode == 200
    ensures |Respond(event, store, placement).body.data| == 1
  {
    var req := ValidateRequest(event).value;
    AnswerIsKeyLookup(event, store.schema, store.table, placement);
    AtMostOneItemPerKey(store.table, Key(req.movieId, req.reviewerName));
  }

  function PathEvent(movieId: string, reviewerName: string): Event {
    Event(Some(map["movieId" := movieId, "reviewerName" := reviewerName]))
  }

  /** On an event carrying both path parameters, validation accepts exactly
      a non-empty name together with an id that parses to a non-zero number. */
  lemma ValidatePathEvent(movieId: string, reviewerName: string)
    ensures ValidateRequest(PathEvent(movieId, reviewerName)) ==
      if reviewerName != "" && ParseInt(movieId).Finite? && ParseInt(movieId).value != 0
      then Some(Request(ParseInt(movieId).value, reviewerName))
      else None
  {
    var e := PathEvent(movieId, reviewerName);
    assert PathParameter(e, "movieId") == Some(movieId);
    assert PathParameter(e, "reviewerName") == Some(reviewerName);
    ParseIntRejectsText();
  }

  /** parseInt's prefix reading decides which movie ids pass: "42abc" is
      movie 42 and "-5" is movie -5. */
  lemma MovieIdAcceptedExamples()
    ensures ValidateRequest(PathEvent("42abc", "alice")) == Some(Request(42, "alice"))
    ensures ValidateRequest(PathEvent("-5", "alice")) == Some(Request(-5, "alice"))
  {
    ParseIntStopsAtFirstNonDigit();
    ParseIntSignedExamples();
    ValidatePathEvent("42abc", "alice");
    ValidatePathEvent("-5", "alice");
  }

  /** "abc", "0" and "" are rejected as movie ids, an empty reviewer name is
      rejected, and so is an event without path parameters. */
  lemma MovieIdRejectedExamples()
    ensures ValidateRequest(PathEvent("abc", "alice")).None?
    ensures ValidateRequest(PathEvent("0", "alice")).None?
    ensures ValidateRequest(PathEvent("", "alice")).None?
    ensures ValidateRequest(PathEvent("42", "")).None?
    ensures ValidateRequest(Event(None)).None?
  {
    ParseIntSignedExamples();
    ParseIntRejectsText();
    ValidatePathEvent("abc", "alice");
    ValidatePathEvent("0", "alice");
    ValidatePathEvent("", "alice");
    ValidatePathEvent("42", "");
  }
}
