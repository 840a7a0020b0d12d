# Review service core, modelled in Dafny

A model of the request-handling core of a small review service (`server.py`).
The service keeps a process-wide, append-only list of customer reviews. Each
review has a location, a body, an identifier, a timestamp and sentiment scores.

- **GET** filters the list by up to three optional query parameters: `location`,
  `start_date` and `end_date`. It then sorts the matches by compound sentiment
  score, highest first.
- **POST** validates a form with `Location` and `ReviewBody`. If the form is
  valid, it builds a new review and appends it to the list.

Files:

- `reviews.dfy` (module `Reviews`): the values. These are calendar days, timestamps
  with their chronological order `NotLater`, sentiment scores and review
  records, plus the subsequence relation `SubsequenceOf`.
- `filter.dfy` (module `ReviewFilter`): `filter_reviews`. `FilterReviews`
  follows the code step by step. It narrows the list by location, then parses
  `start_date` and narrows again, then parses `end_date` and narrows a last
  time. Each step reads only the first value of its key. `ActiveCriteria` and
  `KeepAll` give a one-pass reference: keep the reviews that meet
  every criterion of the query. The lemmas tie the two together.
- `ordering.dfy` (module `ReviewOrder`): the `sorted(..., reverse=True)` call.
  `SortByCompound` is a stable insertion sort on the compound score. It is
  proved to give a non-increasing permutation. It keeps the order of reviews
  with equal scores (`WithCompound` gives the reviews with one score, in order).
  It is also the only list with these properties.
- `server.dfy` (module `ReviewServer`): the handler. `GetResponse` is the GET
  branch as a function of the store's contents and the query map.
  `ReviewStore` is a class. Its `reviews` field stands for the module-level
  list. Its `Post` method is the POST branch, which appends in place.

The filter and the sort create new lists and never change the caller's list.
The model therefore writes them as functions. The POST branch changes the
shared list, so the model writes it as a method with `modifies this`.

Inputs that the code takes from libraries or the environment are parameters of
the model:

- `parseDate: string -> Option<Date>` stands for `strptime(..., '%Y-%m-%d')`.
  `None` means the library raised an error.
- The query map and the form map stand for `parse_qs` output. They are maps
  from a key to its list of values. `parse_qs` never gives an empty list and
  drops blank values. The preconditions `FirstValuesPresent` and `ParsedForm`
  say this.
- `score: string -> Sentiment` stands for the VADER analyser.
- `newId` stands for `uuid.uuid4()` and `now` for `datetime.now()`.
- The POST body comes in as `Result<QueryParams, string>`. `Failure(message)`
  stands for an error raised while reading or decoding the body.

## Model

| member | source | states |
|---|---|---|
| `ReviewFilter.KeepAll` | server.py:43 | a review is kept exactly when it is in the input and meets every criterion; this is the list comprehension of each filter step |
| `ReviewFilter.KeepAllCount` | server.py:43 | a review that meets every criterion is kept with all its copies, any other review with none, so duplicates survive as the comprehension keeps them |
| `ReviewFilter.KeepAllIsSubsequence` | server.py:43 | a filter step returns an order-preserving subsequence of its input |
| `ReviewFilter.KeepAllThen` | server.py:42-53 | narrowing an already filtered list by one more predicate equals a single pass with the conjunction of all the predicates |
| `ReviewFilter.FilterIsConjunction` | server.py:40-55 | the three successive narrowings equal one filter by the criteria the query activates, in order and multiplicity; the function fails exactly when those criteria cannot be formed, with the same error |
| `ReviewFilter.FilterSelectsMatching` | server.py:42-53 | the filter fails exactly when a present `start_date` or `end_date` does not parse, and `start_date` is reported first; otherwise a review is in the result iff it is in the input, has exactly the `location` value when that key is present, is not before `start_date` at 00:00:00 and is not after `end_date` at 00:00:00 |
| `ReviewFilter.FilterKeepsOrder` | server.py:40-55 | a successful result is an order-preserving subsequence of the input list |
| `ReviewFilter.FilterIgnoresOtherKeys` | server.py:40-55 | a query with none of `location`, `start_date`, `end_date` (an empty one included) returns the input unchanged |
| `ReviewFilter.EndDayLaterExcluded` | server.py:51-53 | a review stamped later on the `end_date` day than 00:00:00 is not returned |
| `ReviewOrder.SortByCompound` | server.py:66 | the sorted list is a permutation of the input and is non-increasing in compound score |
| `ReviewOrder.InsertKeepsOrder` | server.py:66 | inserting into a non-increasing list keeps it non-increasing |
| `ReviewOrder.SortIsStable` | server.py:66 | for every score, the reviews with that score appear in the sorted list in their input order |
| `ReviewOrder.SortIsUnique` | server.py:66 | every non-increasing list that keeps each score's reviews in input order is the sorted list, so the sort is exactly the stable descending sort |
| `ReviewServer.GetListsMatchingBestFirst` | server.py:61-75 | a GET answers a 200 listing or an unhandled error (500), the error exactly on an unparsable date, so a GET with parsable dates always answers 200; the 200 listing contains exactly the stored reviews that match the query, as a permutation of the filtered subsequence, non-increasing in compound score, with equal scores in store order |
| `ReviewServer.PostedReviewIsListed` | server.py:92-100 | after a review is appended, an unfiltered GET lists it together with every other stored review |
| `ReviewServer.ReviewStore.constructor` | server.py:25 | the store starts as the loaded list, and no review has come from a POST yet |
| `ReviewServer.ReviewStore.Post` | server.py:77-113 | answers 201, 400 or 500; a body error gives 500 with its message; a missing `Location` or `ReviewBody` gives 400 "Location and ReviewBody are required fields." (checked first); a `Location` outside the two allowed values gives 400 "Invalid location."; the store is unchanged in all of these cases; otherwise exactly one record is appended at the end, built from the first submitted values with the given id, time and score of the body, earlier entries are unchanged, and the 201 response carries that record; the store stays append-only, and every review posted since startup has an allowed location and a non-empty body |

## Left out

- Sentiment scoring (VADER via nltk, server.py:13-20, 30, 36-38): a foreign library with floating-point arithmetic. It is the parameter `score`, and the compound score is a `real`.
- Startup loading of `data/reviews.csv` and the initial scoring loop (server.py:25-30): file I/O. The store's constructor takes the loaded list. The model assumes each loaded record has a body and scores. The source would raise a `KeyError` while sorting any record without them.
- `uuid.uuid4()` and `datetime.now()` (server.py:95-96): these are the inputs `newId` and `now`. No code enforces unique identifiers, so the model does not claim uniqueness. `now` is taken as already truncated to the second, as `strftime` with the timestamp format does.
- `parse_qs`, `urlparse` and `strptime` (server.py:47-48, 52-53, 62, 81): their semantics are inputs to the model. Stored timestamps are taken as already parsed. The source parses a stored timestamp only when `start_date` (server.py:48) or `end_date` (server.py:53) is present, and only for the reviews still in the list at that step; a malformed one would then raise, and the model does not capture that failure.
- Where the GET handler gets its query map (server.py:62): the code passes `urlparse(QUERY_STRING).query` to `parse_qs`. A query string that contains no `?` gives an empty map. Only the text after its first `?` reaches the filter. `GetResponse` takes the map as an explicit parameter. The model does not claim that a real GET request applies its filters.
- `ReviewServer.ReviewStore.Post`: an exception raised by the sentiment analyser, `uuid.uuid4()` or `datetime.now()` (server.py:95-97) is caught at server.py:111-113 and answered with 500, leaving the store unchanged because the append at server.py:100 comes later. The model takes `score`, `newId` and `now` as total inputs, so it does not capture this path.
- JSON serialisation, `Content-Length`, `start_response` and reading the body (server.py:68-75, 79-80, 102-107): I/O. A `Response` constructor stands for the status and the payload.
- Methods other than GET and POST: `__call__` returns nothing for them, and this is not modelled.
- Port configuration and server start-up (server.py:115-120), and the unused globals `adj_noun_pairs_count` and `stop_words` (server.py:18, 20).
- Concurrency: the list is shared without locks. The model runs requests one at a time.
- Calendar validity of dates: `NotLater` compares timestamps field by field. This agrees with the library's chronological order only for valid dates, which `strptime` always produces.
