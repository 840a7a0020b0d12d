/** The values the review service works with: calendar days, timestamps,
    sentiment scores and review records, plus the subsequence relation
    used to state that filtering keeps the store's order. */
module Reviews {

  datatype Option<+T> = None | Some(value: T)

  datatype Result<+R, +E> = Success(value: R) | Failure(error: E)

  /** A calendar day, as a `%Y-%m-%d` date parameter denotes it. */
  datatype Date = Date(year: int, month: int, day: int)

  /** A point in time to the second, as a `%Y-%m-%d %H:%M:%S` timestamp
      denotes it (the stored form has no sub-second part). */
  datatype DateTime = DateTime(year: int, month: int, day: int, hour: int, minute: int, second: int)

  /** A timestamp whose clock fields are in range, as `%H:%M:%S` accepts them. */
  predicate ClockInRange(t: DateTime) {
    0 <= t.hour < 24 && 0 <= t.minute < 60 && 0 <= t.second < 60
  }

  /** The first instant of a day: what a parsed date parameter compares as. */
  function Midnight(d: Date): DateTime {
    DateTime(d.year, d.month, d.day, 0, 0, 0)
  }

  /** Chronological order on timestamps: `a` is not later than `b`
      (field by field, most significant first). */
  predicate NotLater(a: DateTime, b: DateTime) {
    if a.year != b.year then a.year < b.year
    else if a.month != b.month then a.month < b.month
    else if a.day != b.day then a.day < b.day
    else if a.hour != b.hour then a.hour < b.hour
    else if a.minute != b.minute then a.minute < b.minute
    else a.second <= b.second
  }

  /** The polarity scores an external sentiment analyser assigns to a text. */
  datatype Sentiment = Sentiment(neg: real, neu: real, pos: real, compound: real)

  /** One review record: `Location`, `ReviewBody`, `ReviewId`, `Timestamp`
      and the attached `sentiment` scores. */
  datatype Review = Review(location: string, body: string, id: string, timestamp: DateTime, sentiment: Sentiment)

  /** `a` is obtained from `b` by deleting elements, the rest keeping their order. */
  predicate SubsequenceOf<T(==)>(a: seq<T>, b: seq<T>)
    decreases |b|
  {
    if a == [] then true
    else if b == [] then false
    else (a[0] == b[0] && SubsequenceOf(a[1..], b[1..])) || SubsequenceOf(a, b[1..])
  }
}
