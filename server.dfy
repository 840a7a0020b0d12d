/** The request handler of the review service. GET lists the reviews that
    match the query, best sentiment first; POST validates a submitted form
    and appends the new review to the process-wide store. */
module ReviewServer {
  import opened Reviews
  import opened ReviewFilter
  import opened ReviewOrder

  const LocationField := "Location"
  const BodyField := "ReviewBody"
  const RequiredFieldsMessage := "Location and ReviewBody are required fields."
  const InvalidLocationMessage := "Invalid location."

  /** The only locations a new review may name. */
  const AllowedLocations: seq<string> := ["San Diego, California", "Denver, Colorado"]

  /** What the handler answers, with the JSON payload it serialises. */
  datatype Response =
    | Listing(reviews: seq<Review>)    // 200 OK, a JSON array of reviews
    | Created(review: Review)          // 201 Created, the new review
    | BadRequest(error: string)        // 400, {"error": ...}
    | ServerError(error: string)       // 500, {"error": ...} from the POST handler
    | Unhandled(cause: FilterError)    // an exception escaping the GET handler; the server answers 500
  {
    function Status(): int {
      match this
      case Listing(_) => 200
      case Created(_) => 201
      case BadRequest(_) => 400
      case ServerError(_) => 500
      case Unhandled(_) => 500
    }
  }

  /** The GET branch: filter the store by the query, then sort by compound score. */
  function GetResponse(store: seq<Review>, q: QueryParams, parseDate: string -> Option<Date>): Response
    requires FirstValuesPresent(q)
  {
    match FilterReviews(store, q, parseDate)
    case Failure(e) => Unhandled(e)
    case Success(matching) => Listing(SortByCompound(matching))
  }

  /** A GET lists exactly the stored reviews that satisfy every predicate of
      the query, in non-increasing compound score, reviews of equal score in
      store order; it fails only on a date parameter that does not parse. */
  lemma GetListsMatchingBestFirst(store: seq<Review>, q: QueryParams, parseDate: string -> Option<Date>)
    requires FirstValuesPresent(q)
    ensures GetResponse(store, q, parseDate).Unhandled? <==>
              || (StartDateKey in q && parseDate(q[StartDateKey][0]).None?)
              || (EndDateKey in q && parseDate(q[EndDateKey][0]).None?)
    ensures GetResponse(store, q, parseDate).Listing? || GetResponse(store, q, parseDate).Unhandled?
    ensures GetResponse(store, q, parseDate).Status() == 200 <==> GetResponse(store, q, parseDate).Listing?
    ensures GetResponse(store, q, parseDate).Listing? ==>
              var listed := GetResponse(store, q, parseDate).reviews;
              var matching := FilterReviews(store, q, parseDate).value;
              && SubsequenceOf(matching, store)
              && NonIncreasing(listed)
              && multiset(listed) == multiset(matching)
              && (forall k :: WithCompound(listed, k) == WithCompound(matching, k))
              && (forall x :: x in listed <==>
                    && x in store
                    && (LocationKey in q ==> x.location == q[LocationKey][0])
                    && (StartDateKey in q ==> NotLater(Midnight(parseDate(q[StartDateKey][0]).value), x.timestamp))
                    && (EndDateKey in q ==> NotLater(x.timestamp, Midnight(parseDate(q[EndDateKey][0]).value))))
  {
    FilterSelectsMatching(store, q, parseDate);
    FilterKeepsOrder(store, q, parseDate);
    var filtered := FilterReviews(store, q, parseDate);
    if filtered.Success? {
      var listed := SortByCompound(filtered.value);
      forall k ensures WithCompound(listed, k) == WithCompound(filtered.value, k) {
        SortIsStable(filtered.value, k);
      }
      forall x ensures x in listed <==> x in filtered.value {
        assert x in listed <==> x in multiset(listed);
        assert x in filtered.value <==> x in multiset(filtered.value);
      }
    }
  }

  /** A review appended to the store is listed by an unfiltered GET, with
      every other stored review. */
  lemma PostedReviewIsListed(store: seq<Review>, posted: Review, parseDate: string -> Option<Date>)
    ensures GetResponse(store + [posted], map[], parseDate).Listing?
    ensures posted in GetResponse(store + [posted], map[], parseDate).reviews
    ensures multiset(GetResponse(store + [posted], map[], parseDate).reviews) == multiset(store) + multiset{posted}
  {
    FilterIgnoresOtherKeys(store + [posted], map[], parseDate);
    var listed := SortByCompound(store + [posted]);
    assert posted in multiset(store + [posted]);
    assert posted in multiset(listed);
  }

  /** What a parsed form body guarantees: a field that is present carries at
      least one value, and blank values were dropped. */
  predicate ParsedForm(form: QueryParams) {
    && (LocationField in form ==> |form[LocationField]| > 0 && form[LocationField][0] != "")
    && (BodyField in form ==> |form[BodyField]| > 0 && form[BodyField][0] != "")
  }

  /** The module-level list of reviews: loaded once, then only appended to. */
  class ReviewStore {
    var reviews: seq<Review>
    /** How many reviews were loaded at startup; every later one came from a POST. */
    ghost var loaded: nat

    ghost predicate Valid()
      reads this
    {
      && loaded <= |reviews|
      && forall i :: loaded <= i < |reviews| ==>
           reviews[i].location in AllowedLocations && reviews[i].body != ""
    }

    constructor (initial: seq<Review>)
      ensures Valid() && reviews == initial && loaded == |initial|
    {
      reviews := initial;
      loaded := |initial|;
    }

    /** The POST branch. `form` is the parsed body, or the message of the
        exception raised while reading or decoding it; `newId`, `now` and
        `score` stand for the identifier generator, the clock and the
        sentiment analyser. */
    method Post(form: Result<QueryParams, string>, newId: string, now: DateTime, score: string -> Sentiment)
      returns (resp: Response)
      requires Valid()
      requires form.Success? ==> ParsedForm(form.value)
      modifies this
      ensures Valid() && loaded == old(loaded)
      ensures old(reviews) <= reviews
      ensures resp.Status() in {201, 400, 500}
      ensures form.Failure? ==> resp == ServerError(form.error) && reviews == old(reviews)
      ensures form.Success? && (LocationField !in form.value || BodyField !in form.value) ==>
                resp == BadRequest(RequiredFieldsMessage) && reviews == old(reviews)
      ensures form.Success? && LocationField in form.value && BodyField in form.value
              && form.value[LocationField][0] !in AllowedLocations ==>
                resp == BadRequest(InvalidLocationMessage) && reviews == old(reviews)
      ensures resp.Created? <==>
                form.Success? && LocationField in form.value && BodyField in form.value
                && form.value[LocationField][0] in AllowedLocations
      ensures resp.Created? ==>
                var body := form.value[BodyField][0];
                && resp.review == Review(form.value[LocationField][0], body, newId, now, score(body))
                && reviews == old(reviews) + [resp.review]
    {
      if form.Failure? {
        return ServerError(form.error);
      }
      var params := form.value;
      if LocationField !in params || BodyField !in params {
        return BadRequest(RequiredFieldsMessage);
      }
      if params[LocationField][0] !in AllowedLocations {
        return BadRequest(InvalidLocationMessage);
      }
      var body := params[BodyField][0];
      var review := Review(params[LocationField][0], body, newId, now, score(body));
      reviews := reviews + [review];
      resp := Created(review);
    }
  }
}
