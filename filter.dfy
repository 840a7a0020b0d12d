/** `ReviewAnalyzerServer.filter_reviews`: up to three optional predicates
    (location equality, timestamp lower and upper bound), each reading the
    first value of its query key and each narrowing the list in turn. */
module ReviewFilter {
  import opened Reviews

  /** A parsed query string: every key mapped to the values given for it. */
  type QueryParams = map<string, seq<string>>

  const LocationKey := "location"
  const StartDateKey := "start_date"
  const EndDateKey := "end_date"

  /** The filter reads the first value of every key it recognises;
      a parsed query string never maps a key to an empty list of values. */
  predicate FirstValuesPresent(q: QueryParams) {
    && (LocationKey in q ==> |q[LocationKey]| > 0)
    && (StartDateKey in q ==> |q[StartDateKey]| > 0)
    && (EndDateKey in q ==> |q[EndDateKey]| > 0)
  }

  /** A date parameter that `%Y-%m-%d` does not accept. */
  datatype FilterError = MalformedDate(text: string)

  /** One filtering predicate of the query. */
  datatype Criterion =
    | AtLocation(location: string)
    | NotBefore(start: DateTime)
    | NotAfter(end: DateTime)

  predicate Holds(c: Criterion, r: Review) {
    match c
    case AtLocation(loc) => r.location == loc
    case NotBefore(start) => NotLater(start, r.timestamp)
    case NotAfter(end) => NotLater(r.timestamp, end)
  }

  predicate HoldsAll(cs: seq<Criterion>, r: Review) {
    forall i :: 0 <= i < |cs| ==> Holds(cs[i], r)
  }

  /** The reviews of `s` that satisfy every criterion of `cs`, in their order in `s`. */
  function KeepAll(s: seq<Review>, cs: seq<Criterion>): (r: seq<Review>)
    ensures forall x :: x in r <==> x in s && HoldsAll(cs, x)
  {
    if s == [] then []
    else (if HoldsAll(cs, s[0]) then [s[0]] else []) + KeepAll(s[1..], cs)
  }

  lemma {:induction false} KeepAllIsSubsequence(s: seq<Review>, cs: seq<Criterion>)
    ensures SubsequenceOf(KeepAll(s, cs), s)
  {
    if s != [] {
      KeepAllIsSubsequence(s[1..], cs);
      var rest := KeepAll(s[1..], cs);
      if !HoldsAll(cs, s[0]) {
        assert KeepAll(s, cs) == rest;
        if rest != [] {
          assert SubsequenceOf(rest, s[1..]);
        }
      } else {
        assert KeepAll(s, cs) == [s[0]] + rest;
        assert ([s[0]] + rest)[1..] == rest;
      }
    }
  }

  /** Every review meeting the criteria survives with all its copies;
      every other review is dropped. */
  lemma {:induction false} KeepAllCount(s: seq<Review>, cs: seq<Criterion>, x: Review)
    ensures multiset(KeepAll(s, cs))[x] == if HoldsAll(cs, x) then multiset(s)[x] else 0
  {
    if s != [] {
      KeepAllCount(s[1..], cs, x);
      assert s == [s[0]] + s[1..];
    }
  }

  /** With no criterion, nothing is removed. */
  lemma {:induction false} KeepAllNoCriteria(s: seq<Review>)
    ensures KeepAll(s, []) == s
  {
    if s != [] {
      KeepAllNoCriteria(s[1..]);
      assert s == [s[0]] + s[1..];
    }
  }

  /** Narrowing an already filtered list by one more criterion is the
      same as filtering once by the conjunction. */
  lemma {:induction false} KeepAllThen(s: seq<Review>, cs: seq<Criterion>, c: Criterion)
    ensures KeepAll(KeepAll(s, cs), [c]) == KeepAll(s, cs + [c])
  {
    if s != [] {
      KeepAllThen(s[1..], cs, c);
      var x := s[0];
      assert HoldsAll(cs + [c], x) <==> HoldsAll(cs, x) && Holds(c, x) by {
        if HoldsAll(cs, x) && Holds(c, x) {
          forall i | 0 <= i < |cs + [c]| ensures Holds((cs + [c])[i], x) {
            if i < |cs| { assert (cs + [c])[i] == cs[i]; }
          }
        }
        if HoldsAll(cs + [c], x) {
          assert (cs + [c])[|cs|] == c;
          forall i | 0 <= i < |cs| ensures Holds(cs[i], x) {
            assert (cs + [c])[i] == cs[i];
          }
        }
      }
      assert HoldsAll([c], x) <==> Holds(c, x) by {
        assert [c][0] == c;
      }
      var head := if HoldsAll(cs, x) then [x] else [];
      KeepAllAppend(head, KeepAll(s[1..], cs), [c]);
    }
  }

  lemma {:induction false} KeepAllAppend(a: seq<Review>, b: seq<Review>, cs: seq<Criterion>)
    ensures KeepAll(a + b, cs) == KeepAll(a, cs) + KeepAll(b, cs)
  {
    if a != [] {
      KeepAllAppend(a[1..], b, cs);
      assert (a + b)[0] == a[0];
      assert (a + b)[1..] == a[1..] + b;
    } else {
      assert a + b == b;
    }
  }

  /** The bound a date parameter imposes, if the key is present:
      midnight of the day it names, or an error when it does not parse. */
  function DateBound(q: QueryParams, key: string, parseDate: string -> Option<Date>): Result<Option<DateTime>, FilterError>
    requires key in q ==> |q[key]| > 0
  {
    if key !in q then Success(None)
    else match parseDate(q[key][0])
      case None => Failure(MalformedDate(q[key][0]))
      case Some(d) => Success(Some(Midnight(d)))
  }

  /** `filter_reviews`: narrow by location, then parse `start_date` and
      narrow, then parse `end_date` and narrow. A date that does not
      parse raises, which is the `Failure` outcome. */
  function FilterReviews(reviews: seq<Review>, q: QueryParams, parseDate: string -> Option<Date>): Result<seq<Review>, FilterError>
    requires FirstValuesPresent(q)
  {
    var byLocation := if LocationKey in q then KeepAll(reviews, [AtLocation(q[LocationKey][0])]) else reviews;
    match DateBound(q, StartDateKey, parseDate)
    case Failure(e) => Failure(e)
    case Success(start) =>
      var byStart := if start.Some? then KeepAll(byLocation, [NotBefore(start.value)]) else byLocation;
      match DateBound(q, EndDateKey, parseDate)
      case Failure(e) => Failure(e)
      case Success(end) =>
        Success(if end.Some? then KeepAll(byStart, [NotAfter(end.value)]) else byStart)
  }

  /** The criteria a query imposes, in the order the filter applies them. */
  function ActiveCriteria(q: QueryParams, parseDate: string -> Option<Date>): Result<seq<Criterion>, FilterError>
    requires FirstValuesPresent(q)
  {
    match DateBound(q, StartDateKey, parseDate)
    case Failure(e) => Failure(e)
    case Success(start) =>
      match DateBound(q, EndDateKey, parseDate)
      case Failure(e) => Failure(e)
      case Success(end) =>
        Success((if LocationKey in q then [AtLocation(q[LocationKey][0])] else [])
                + (if start.Some? then [NotBefore(start.value)] else [])
                + (if end.Some? then [NotAfter(end.value)] else []))
  }

  /** The three successive narrowings act as one filter by the conjunction
      of the active criteria, and fail exactly when the criteria cannot be formed. */
  lemma FilterIsConjunction(reviews: seq<Review>, q: QueryParams, parseDate: string -> Option<Date>)
    requires FirstValuesPresent(q)
    ensures FilterReviews(reviews, q, parseDate).Failure? <==> ActiveCriteria(q, parseDate).Failure?
    ensures ActiveCriteria(q, parseDate).Failure? ==>
              FilterReviews(reviews, q, parseDate).error == ActiveCriteria(q, parseDate).error
    ensures ActiveCriteria(q, parseDate).Success? ==>
              FilterReviews(reviews, q, parseDate).value == KeepAll(reviews, ActiveCriteria(q, parseDate).value)
  {
    var start := DateBound(q, StartDateKey, parseDate);
    var end := DateBound(q, EndDateKey, parseDate);
    if start.Success? && end.Success? {
      var locCs: seq<Criterion> := if LocationKey in q then [AtLocation(q[LocationKey][0])] else [];
      var startCs: seq<Criterion> := if start.value.Some? then [NotBefore(start.value.value)] else [];
      var endCs: seq<Criterion> := if end.value.Some? then [NotAfter(end.value.value)] else [];
      var byLocation := if LocationKey in q then KeepAll(reviews, [AtLocation(q[LocationKey][0])]) else reviews;
      assert byLocation == KeepAll(reviews, locCs) by {
        if LocationKey in q {
          KeepAllThen(reviews, [], AtLocation(q[LocationKey][0]));
          KeepAllNoCriteria(reviews);
          assert [] + [AtLocation(q[LocationKey][0])] == locCs;
        } else {
          KeepAllNoCriteria(reviews);
        }
      }
      var byStart := if start.value.Some? then KeepAll(byLocation, [NotBefore(start.value.value)]) else byLocation;
      assert byStart == KeepAll(reviews, locCs + startCs) by {
        if start.value.Some? {
          KeepAllThen(reviews, locCs, NotBefore(start.value.value));
        } else {
          assert locCs + startCs == locCs;
        }
      }
      var byEnd := if end.value.Some? then KeepAll(byStart, [NotAfter(end.value.value)]) else byStart;
      assert byEnd == KeepAll(reviews, locCs + startCs + endCs) by {
        if end.value.Some? {
          KeepAllThen(reviews, locCs + startCs, NotAfter(end.value.value));
        } else {
          assert locCs + startCs + endCs == locCs + startCs;
        }
      }
    }
  }

  /** A query's date parameter that does not parse makes the filter fail,
      `start_date` being checked first; otherwise a review is in the result
      exactly when it is in the input and satisfies every predicate whose
      key is present. */
  lemma FilterSelectsMatching(reviews: seq<Review>, q: QueryParams, parseDate: string -> Option<Date>)
    requires FirstValuesPresent(q)
    ensures FilterReviews(reviews, q, parseDate).Failure? <==>
              || (StartDateKey in q && parseDate(q[StartDateKey][0]).None?)
              || (EndDateKey in q && parseDate(q[EndDateKey][0]).None?)
    ensures FilterReviews(reviews, q, parseDate).Failure? ==>
              FilterReviews(reviews, q, parseDate).error ==
                if StartDateKey in q && parseDate(q[StartDateKey][0]).None?
                then MalformedDate(q[StartDateKey][0]) else MalformedDate(q[EndDateKey][0])
    ensures FilterReviews(reviews, q, parseDate).Success? ==>
              forall x :: x in FilterReviews(reviews, q, parseDate).value <==>
                && x in reviews
                && (LocationKey in q ==> x.location == q[LocationKey][0])
                && (StartDateKey in q ==> NotLater(Midnight(parseDate(q[StartDateKey][0]).value), x.timestamp))
                && (EndDateKey in q ==> NotLater(x.timestamp, Midnight(parseDate(q[EndDateKey][0]).value)))
  {
    FilterIsConjunction(reviews, q, parseDate);
    var cs := ActiveCriteria(q, parseDate);
    if cs.Success? {
      forall x ensures HoldsAll(cs.value, x) <==>
                && (LocationKey in q ==> x.location == q[LocationKey][0])
                && (StartDateKey in q ==> NotLater(Midnight(parseDate(q[StartDateKey][0]).value), x.timestamp))
                && (EndDateKey in q ==> NotLater(x.timestamp, Midnight(parseDate(q[EndDateKey][0]).value)))
      {
        CriteriaMeaning(q, parseDate, x);
      }
    }
  }

  lemma CriteriaMeaning(q: QueryParams, parseDate: string -> Option<Date>, x: Review)
    requires FirstValuesPresent(q)
    requires ActiveCriteria(q, parseDate).Success?
    ensures StartDateKey in q ==> parseDate(q[StartDateKey][0]).Some?
    ensures EndDateKey in q ==> parseDate(q[EndDateKey][0]).Some?
    ensures HoldsAll(ActiveCriteria(q, parseDate).value, x) <==>
              && (LocationKey in q ==> x.location == q[LocationKey][0])
              && (StartDateKey in q ==> NotLater(Midnight(parseDate(q[StartDateKey][0]).value), x.timestamp))
              && (EndDateKey in q ==> NotLater(x.timestamp, Midnight(parseDate(q[EndDateKey][0]).value)))
  {
    var start := DateBound(q, StartDateKey, parseDate).value;
    var end := DateBound(q, EndDateKey, parseDate).value;
    var locCs: seq<Criterion> := if LocationKey in q then [AtLocation(q[LocationKey][0])] else [];
    var startCs: seq<Criterion> := if start.Some? then [NotBefore(start.value)] else [];
    var endCs: seq<Criterion> := if end.Some? then [NotAfter(end.value)] else [];
    var cs := locCs + startCs + endCs;
    assert cs == ActiveCriteria(q, parseDate).value;
    if LocationKey in q { assert cs[0] == AtLocation(q[LocationKey][0]); }
    if start.Some? { assert cs[|locCs|] == NotBefore(start.value); }
    if end.Some? { assert cs[|locCs| + |startCs|] == NotAfter(end.value); }
  }

  /** The filtered list is an order-preserving subsequence of the input. */
  lemma FilterKeepsOrder(reviews: seq<Review>, q: QueryParams, parseDate: string -> Option<Date>)
    requires FirstValuesPresent(q)
    ensures FilterReviews(reviews, q, parseDate).Success? ==>
              SubsequenceOf(FilterReviews(reviews, q, parseDate).value, reviews)
  {
    FilterIsConjunction(reviews, q, parseDate);
    if ActiveCriteria(q, parseDate).Success? {
      KeepAllIsSubsequence(reviews, ActiveCriteria(q, parseDate).value);
    }
  }

  /** A query with none of the recognised keys (in particular an empty one)
      returns the input unchanged: unrecognised keys are ignored. */
  lemma FilterIgnoresOtherKeys(reviews: seq<Review>, q: QueryParams, parseDate: string -> Option<Date>)
    requires LocationKey !in q && StartDateKey !in q && EndDateKey !in q
    ensures FilterReviews(reviews, q, parseDate) == Success(reviews)
  {
  }

  /** The upper bound is midnight of `end_date`: a review later on that
      same day is excluded. */
  lemma EndDayLaterExcluded(reviews: seq<Review>, q: QueryParams, parseDate: string -> Option<Date>, x: Review)
    requires FirstValuesPresent(q)
    requires EndDateKey in q && parseDate(q[EndDateKey][0]).Some?
    requires var d := parseDate(q[EndDateKey][0]).value;
             x.timestamp.year == d.year && x.timestamp.month == d.month && x.timestamp.day == d.day
    requires ClockInRange(x.timestamp) && x.timestamp != Midnight(parseDate(q[EndDateKey][0]).value)
    ensures FilterReviews(reviews, q, parseDate).Success? ==> x !in FilterReviews(reviews, q, parseDate).value
  {
    FilterSelectsMatching(reviews, q, parseDate);
  }
}
