/** A moving-service listing and its ratings (movers/models.py): the service
    record, the rating table keyed by (service, user), and the rating summary
    derived from it on every read. */
module Movers {
  import opened Common

  type ServiceId = nat

  /** A moving service. `ratePerKm` is the decimal text stored in the field. */
  datatype MoverService = MoverService(
    owner: UserId,
    name: string,
    description: string,
    location: string,
    phone: string,
    email: string,
    providesCleaning: bool,
    ratePerKm: string)

  /** One user's rating of one service. */
  datatype Rating = Rating(score: nat, comment: string)

  /** `unique_together = ("service", "user")`: the rating table is keyed by
      that pair, so it holds at most one rating per pair by construction. */
  type RatingKey = (ServiceId, UserId)
  type RatingTable = map<RatingKey, Rating>

  /** `service.ratings`: the rows whose service is `service`. */
  function RatingsOf(ratings: RatingTable, service: ServiceId): (r: RatingTable)
    ensures r.Keys <= ratings.Keys
    ensures forall k :: k in r ==> k.0 == service && r[k] == ratings[k]
    ensures forall k :: k in ratings && k.0 == service ==> k in r
  {
    map k | k in ratings && k.0 == service :: ratings[k]
  }

  // ---------------------------------------------------------------------------
  // The sum of the scores in a table
  // ---------------------------------------------------------------------------

  /** Some key of a non-empty table. */
  ghost function AnyKey(m: RatingTable): (k: RatingKey)
    requires |m| > 0
    ensures k in m
  {
    var k :| k in m; k
  }

  /** The sum of all scores in `m`. */
  ghost function Sum(m: RatingTable): nat
    decreases |m|
  {
    if |m| == 0 then 0
    else
      var k := AnyKey(m);
      m[k].score + Sum(m - {k})
  }

  /** The sum does not depend on which key is taken first. */
  lemma {:induction false} SumRemove(m: RatingTable, k: RatingKey)
    requires k in m
    ensures Sum(m) == m[k].score + Sum(m - {k})
    decreases |m|
  {
    var j := AnyKey(m);
    if j != k {
      SumRemove(m - {j}, k);
      SumRemove(m - {k}, j);
      assert m - {j} - {k} == m - {k} - {j};
    }
  }

  /** `x` added up `n` times. */
  function Times(x: real, n: nat): real {
    if n == 0 then 0.0 else Times(x, n - 1) + x
  }

  /** Adding up `x` `n` times is multiplying it by `n`. */
  lemma {:induction false} TimesIsProduct(x: real, n: nat)
    ensures Times(x, n) == x * n as real
  {
    if n > 0 {
      TimesIsProduct(x, n - 1);
      RealMulStep(x, (n - 1) as real);
    }
  }

  lemma RealMulStep(x: real, n: real)
    ensures x * (n + 1.0) == x * n + x
  {
  }

  /** If every score exceeds `x`, the sum exceeds `x` added up once per
      rating. */
  lemma {:induction false} SumAbove(m: RatingTable, x: real)
    requires |m| > 0
    requires forall k :: k in m ==> m[k].score as real > x
    ensures Sum(m) as real > Times(x, |m|)
    decreases |m|
  {
    var k := AnyKey(m);
    var rest := m - {k};
    SumRemove(m, k);
    if |rest| > 0 {
      SumAbove(rest, x);
    }
  }

  /** If every score is below `x`, the sum is below `x` added up once per
      rating. */
  lemma {:induction false} SumBelow(m: RatingTable, x: real)
    requires |m| > 0
    requires forall k :: k in m ==> m[k].score as real < x
    ensures Sum(m) as real < Times(x, |m|)
    decreases |m|
  {
    var k := AnyKey(m);
    var rest := m - {k};
    SumRemove(m, k);
    if |rest| > 0 {
      SumBelow(rest, x);
    }
  }

  // ---------------------------------------------------------------------------
  // rating_summary
  // ---------------------------------------------------------------------------

  /** `{"average": ..., "count": ...}`. The average is kept exact: the
      rounding to one decimal is not modelled. */
  datatype Summary = Summary(average: real, count: nat)

  /** `MoverService.rating_summary`: the number of ratings of the service and
      their mean score, 0 when there are none. */
  ghost function RatingSummary(ratings: RatingTable, service: ServiceId): (r: Summary)
    ensures r.count == |RatingsOf(ratings, service)|
    ensures r.count == 0 ==> r.average == 0.0
    ensures r.count > 0 ==> r.average * r.count as real == Sum(RatingsOf(ratings, service)) as real
  {
    var mine := RatingsOf(ratings, service);
    if |mine| == 0 then Summary(0.0, 0)
    else Summary(Sum(mine) as real / |mine| as real, |mine|)
  }

  /** Some score is at most the mean `avg` of the table. */
  lemma SomeScoreAtMost(m: RatingTable, avg: real)
    requires |m| > 0 && Sum(m) as real == Times(avg, |m|)
    ensures exists k :: k in m && m[k].score as real <= avg
  {
    if forall k :: k in m ==> m[k].score as real > avg {
      SumAbove(m, avg);
      assert false;
    }
  }

  /** Some score is at least the mean `avg` of the table. */
  lemma SomeScoreAtLeast(m: RatingTable, avg: real)
    requires |m| > 0 && Sum(m) as real == Times(avg, |m|)
    ensures exists k :: k in m && m[k].score as real >= avg
  {
    if forall k :: k in m ==> m[k].score as real < avg {
      SumBelow(m, avg);
      assert false;
    }
  }

  /** The average lies between the lowest and the highest stored score of the
      service. */
  lemma SummaryBetweenScores(ratings: RatingTable, service: ServiceId)
    requires RatingSummary(ratings, service).count > 0
    ensures var s := RatingSummary(ratings, service);
      && (exists k :: k in ratings && k.0 == service && ratings[k].score as real <= s.average)
      && (exists k :: k in ratings && k.0 == service && ratings[k].score as real >= s.average)
  {
    var mine := RatingsOf(ratings, service);
    var s := RatingSummary(ratings, service);
    TimesIsProduct(s.average, s.count);
    SomeScoreAtMost(mine, s.average);
    SomeScoreAtLeast(mine, s.average);
    var lo :| lo in mine && mine[lo].score as real <= s.average;
    var hi :| hi in mine && mine[hi].score as real >= s.average;
    assert lo in ratings && lo.0 == service;
    assert hi in ratings && hi.0 == service;
  }

  /** When every stored score of the service is within [lo, hi], so is the
      average. */
  lemma SummaryWithin(ratings: RatingTable, service: ServiceId, lo: nat, hi: nat)
    requires RatingSummary(ratings, service).count > 0
    requires forall k :: k in ratings && k.0 == service ==> lo <= ratings[k].score <= hi
    ensures lo as real <= RatingSummary(ratings, service).average <= hi as real
  {
    SummaryBetweenScores(ratings, service);
  }

  /** Saving a first rating of `user` for `service` adds one to the count and
      its score to the total; a repeated one keeps the count and replaces the
      old score by the new one. */
  lemma UpsertSameService(ratings: RatingTable, service: ServiceId, user: UserId, rating: Rating)
    ensures var before := RatingsOf(ratings, service);
      var after := RatingsOf(ratings[(service, user) := rating], service);
      (service, user) !in ratings ==> |after| == |before| + 1 && Sum(after) == Sum(before) + rating.score
    ensures var before := RatingsOf(ratings, service);
      var after := RatingsOf(ratings[(service, user) := rating], service);
      (service, user) in ratings ==>
        |after| == |before| && Sum(after) == Sum(before) - ratings[(service, user)].score + rating.score
  {
    var k := (service, user);
    var before := RatingsOf(ratings, service);
    RatingsOfUpdate(ratings, k, rating);
    SumUpdate(before, k, rating);
  }

  /** The service's rows after an upsert are its rows before, with the one
      row replaced or added. */
  lemma RatingsOfUpdate(ratings: RatingTable, k: RatingKey, rating: Rating)
    ensures RatingsOf(ratings[k := rating], k.0) == RatingsOf(ratings, k.0)[k := rating]
  {
  }

  /** Replacing or adding one row changes the count and the sum accordingly. */
  lemma SumUpdate(m: RatingTable, k: RatingKey, rating: Rating)
    ensures k !in m ==> |m[k := rating]| == |m| + 1 && Sum(m[k := rating]) == Sum(m) + rating.score
    ensures k in m ==> |m[k := rating]| == |m| && Sum(m[k := rating]) == Sum(m) - m[k].score + rating.score
  {
    var after := m[k := rating];
    SumRemove(after, k);
    assert after - {k} == m - {k};
    if k in m {
      SumRemove(m, k);
    } else {
      assert m - {k} == m;
    }
  }

  /** Saving a rating for one service leaves every other service's summary
      as it was. */
  lemma UpsertOtherServices(ratings: RatingTable, service: ServiceId, user: UserId, rating: Rating, other: ServiceId)
    requires other != service
    ensures RatingSummary(ratings[(service, user) := rating], other) == RatingSummary(ratings, other)
  {
    assert RatingsOf(ratings[(service, user) := rating], other) == RatingsOf(ratings, other);
  }
}
