/** The moving-service pages (movers/views.py): the filtered list, rating
    submission, adding and editing a service, and the owner's status actions
    on mover bookings. */
module MoverViews {
  import opened Common
  import opened Movers

  // ---------------------------------------------------------------------------
  // movers_list
  // ---------------------------------------------------------------------------

  /** `if query:` -- a search text was given and is not empty. */
  predicate QueryGiven(params: Post) {
    "q" in params && params["q"] != []
  }

  /** `cleaning == "1"`. */
  predicate CleaningOnly(params: Post) {
    Get(params, "cleaning") == Some("1")
  }

  /** `Q(name__icontains=q) | Q(location__icontains=q)`. */
  predicate MatchesQuery(service: MoverService, query: string) {
    ContainsIgnoringCase(service.name, query) || ContainsIgnoringCase(service.location, query)
  }

  /** Whether the list keeps a service under the given query parameters. */
  predicate Shown(service: MoverService, params: Post) {
    && (QueryGiven(params) ==> MatchesQuery(service, params["q"]))
    && (CleaningOnly(params) ==> service.providesCleaning)
  }

  /** `movers_list`: the services, in their order, narrowed by the search
      text when one is given and to cleaning providers when `cleaning` is
      "1". Every service that passes both filters is kept, as often as it
      occurs, and no other. */
  function MoversList(services: seq<MoverService>, params: Post): (r: seq<MoverService>)
    ensures |r| <= |services|
    ensures forall x :: multiset(r)[x] == if Shown(x, params) then multiset(services)[x] else 0
    ensures forall x :: x in r <==> x in services && Shown(x, params)
    ensures !QueryGiven(params) && !CleaningOnly(params) ==> r == services
  {
    var byQuery := if QueryGiven(params)
      then Filter(services, (x: MoverService) => MatchesQuery(x, params["q"]))
      else services;
    var r := if CleaningOnly(params)
      then Filter(byQuery, (x: MoverService) => x.providesCleaning)
      else byQuery;
    assert forall x :: x in r <==> multiset(r)[x] > 0;
    assert forall x :: x in services <==> multiset(services)[x] > 0;
    r
  }

  // ---------------------------------------------------------------------------
  // Rating submission in mover_detail
  // ---------------------------------------------------------------------------

  /** How a rating POST ends. */
  datatype RatingOutcome = ServiceNotFound | LoginRequired | OwnService | ScoreOutOfRange | RatingSaved

  /** `int(request.POST.get("score", 0))`, with 0 when the text is not an
      integer. */
  function SubmittedScore(post: Post): int {
    match Get(post, "score")
    case None => 0
    case Some(text) =>
      match ParseInt(text)
      case None => 0
      case Some(n) => n
  }

  /** `request.POST.get("comment", "").strip()`. */
  function SubmittedComment(post: Post): string {
    Strip(GetOr(post, "comment", ""))
  }

  datatype RateResult = RateResult(ratings: RatingTable, outcome: RatingOutcome)

  /** A rating POST, given its score and comment as read from the form: an
      anonymous visitor, the service's owner, or a score outside 1..5 stores
      nothing; otherwise the (service, user) row is created or overwritten
      and no other row changes. */
  function RateStep(services: map<ServiceId, MoverService>, ratings: RatingTable,
                    service: ServiceId, actor: Option<UserId>, score: int, comment: string): (r: RateResult)
    ensures r.outcome == RatingSaved <==>
              && service in services && actor.Some? && services[service].owner != actor.value
              && 1 <= score <= 5
    ensures r.outcome != RatingSaved ==> r.ratings == ratings
    ensures r.outcome == RatingSaved ==>
              var key := (service, actor.value);
              && r.ratings.Keys == ratings.Keys + {key}
              && r.ratings[key] == Rating(score, comment)
              && (forall k :: k in ratings && k != key ==> r.ratings[k] == ratings[k])
  {
    if service !in services then RateResult(ratings, ServiceNotFound)
    else if actor.None? then RateResult(ratings, LoginRequired)
    else if services[service].owner == actor.value then RateResult(ratings, OwnService)
    else if score < 1 || score > 5 then RateResult(ratings, ScoreOutOfRange)
    else RateResult(ratings[(service, actor.value) := Rating(score, comment)], RatingSaved)
  }

  /** A missing score, or score text with no digit in it, reads as 0, so the
      submission stores nothing. */
  lemma NonNumericScoreStoresNothing(services: map<ServiceId, MoverService>, ratings: RatingTable,
                                     service: ServiceId, actor: Option<UserId>, post: Post)
    requires "score" in post ==> forall i :: 0 <= i < |post["score"]| ==> !IsDigit(post["score"][i])
    ensures SubmittedScore(post) == 0
    ensures RateStep(services, ratings, service, actor, SubmittedScore(post), SubmittedComment(post)).ratings == ratings
  {
    if "score" in post {
      ParseIntNeedsDigit(post["score"]);
    }
  }

  /** Every stored score is in 1..5. */
  predicate ScoresInRange(ratings: RatingTable) {
    forall k :: k in ratings ==> 1 <= ratings[k].score <= 5
  }

  /** Rating submission keeps every stored score in 1..5. */
  lemma RatingKeepsScoresInRange(services: map<ServiceId, MoverService>, ratings: RatingTable,
                                 service: ServiceId, actor: Option<UserId>, score: int, comment: string)
    requires ScoresInRange(ratings)
    ensures ScoresInRange(RateStep(services, ratings, service, actor, score, comment).ratings)
  {
    var r := RateStep(services, ratings, service, actor, score, comment);
    if r.outcome == RatingSaved {
      forall k | k in r.ratings
        ensures 1 <= r.ratings[k].score <= 5
      {
        if k != (service, actor.value) {
          assert k in ratings;
        }
      }
    }
  }

  /** While every stored score is in 1..5, every rated service's average
      is in 1..5 too. */
  lemma AverageInRange(ratings: RatingTable, service: ServiceId)
    requires ScoresInRange(ratings)
    requires RatingSummary(ratings, service).count > 0
    ensures 1.0 <= RatingSummary(ratings, service).average <= 5.0
  {
    SummaryWithin(ratings, service, 1, 5);
  }

  /** Resubmitting a rating replaces the earlier one: the result is as if
      only the second had been sent, and the summary counts the user once. */
  lemma ResubmissionOverwrites(services: map<ServiceId, MoverService>, ratings: RatingTable,
                               service: ServiceId, user: UserId,
                               score1: int, comment1: string, score2: int, comment2: string)
    requires RateStep(services, ratings, service, Some(user), score1, comment1).outcome == RatingSaved
    requires RateStep(services, ratings, service, Some(user), score2, comment2).outcome == RatingSaved
    ensures var once := RateStep(services, ratings, service, Some(user), score1, comment1).ratings;
      var twice := RateStep(services, once, service, Some(user), score2, comment2).ratings;
      && twice == RateStep(services, ratings, service, Some(user), score2, comment2).ratings
      && RatingSummary(twice, service).count == RatingSummary(once, service).count
  {
    var key := (service, user);
    var once := RateStep(services, ratings, service, Some(user), score1, comment1).ratings;
    var twice := RateStep(services, once, service, Some(user), score2, comment2).ratings;
    assert once == ratings[key := Rating(score1, comment1)];
    assert twice == once[key := Rating(score2, comment2)];
    UpsertSameService(once, service, user, Rating(score2, comment2));
  }

  // ---------------------------------------------------------------------------
  // add_mover and edit_mover
  // ---------------------------------------------------------------------------

  /** `add_mover`: the service a POST creates, or None when name,
      description, location or phone is blank, or `rate_per_km` is missing or
      empty (that field is not stripped). The email may be blank. */
  function NewServiceFrom(owner: UserId, post: Post): (r: Option<MoverService>)
    ensures r.Some? <==>
              && !Blank(GetOr(post, "name", "")) && !Blank(GetOr(post, "description", ""))
              && !Blank(GetOr(post, "location", "")) && !Blank(GetOr(post, "phone", ""))
              && "rate_per_km" in post && post["rate_per_km"] != []
    ensures r.Some? ==>
              && r.value.owner == owner
              && r.value.name == Strip(GetOr(post, "name", ""))
              && r.value.description == Strip(GetOr(post, "description", ""))
              && r.value.location == Strip(GetOr(post, "location", ""))
              && r.value.phone == Strip(GetOr(post, "phone", ""))
              && r.value.ratePerKm == post["rate_per_km"]
              && r.value.email == Strip(GetOr(post, "email", ""))
              && (r.value.providesCleaning <==> Get(post, "provides_cleaning") == Some("on"))
  {
    var name := Strip(GetOr(post, "name", ""));
    var description := Strip(GetOr(post, "description", ""));
    var location := Strip(GetOr(post, "location", ""));
    var phone := Strip(GetOr(post, "phone", ""));
    var email := Strip(GetOr(post, "email", ""));
    var cleaning := Get(post, "provides_cleaning") == Some("on");
    var rate := Get(post, "rate_per_km");
    StripEmptyIffBlank(GetOr(post, "name", ""));
    StripEmptyIffBlank(GetOr(post, "description", ""));
    StripEmptyIffBlank(GetOr(post, "location", ""));
    StripEmptyIffBlank(GetOr(post, "phone", ""));
    if name == [] || description == [] || location == [] || phone == [] || rate.None? || rate.value == []
    then None
    else Some(MoverService(owner, name, description, location, phone, email, cleaning, rate.value))
  }

  /** `edit_mover`: each text field takes the submitted value, or keeps its
      own when none is submitted, and is stripped either way; the cleaning
      flag is whether the checkbox came as "on" (absent means false); the
      rate is replaced only by a non-empty submitted value. */
  function EditedService(s: MoverService, post: Post): (r: MoverService)
    ensures r.owner == s.owner
    ensures r.name == Strip(GetOr(post, "name", s.name))
    ensures r.description == Strip(GetOr(post, "description", s.description))
    ensures r.location == Strip(GetOr(post, "location", s.location))
    ensures r.phone == Strip(GetOr(post, "phone", s.phone))
    ensures r.email == Strip(GetOr(post, "email", s.email))
    ensures r.providesCleaning <==> Get(post, "provides_cleaning") == Some("on")
    ensures "rate_per_km" !in post || post["rate_per_km"] == [] ==> r.ratePerKm == s.ratePerKm
    ensures "rate_per_km" in post && post["rate_per_km"] != [] ==> r.ratePerKm == post["rate_per_km"]
  {
    var rate := Get(post, "rate_per_km");
    s.(name := Strip(GetOr(post, "name", s.name)),
       description := Strip(GetOr(post, "description", s.description)),
       location := Strip(GetOr(post, "location", s.location)),
       phone := Strip(GetOr(post, "phone", s.phone)),
       email := Strip(GetOr(post, "email", s.email)),
       providesCleaning := Get(post, "provides_cleaning") == Some("on"),
       ratePerKm := if rate.Some? && rate.value != [] then rate.value else s.ratePerKm)
  }

  /** Submitting the same edit twice gives the same service as submitting it
      once. */
  lemma EditIdempotent(s: MoverService, post: Post)
    ensures EditedService(EditedService(s, post), post) == EditedService(s, post)
  {
    StripIdempotent(s.name);
    StripIdempotent(s.description);
    StripIdempotent(s.location);
    StripIdempotent(s.phone);
    StripIdempotent(s.email);
    StripIdempotent(GetOr(post, "name", s.name));
    StripIdempotent(GetOr(post, "description", s.description));
    StripIdempotent(GetOr(post, "location", s.location));
    StripIdempotent(GetOr(post, "phone", s.phone));
    StripIdempotent(GetOr(post, "email", s.email));
  }

  /** An edit that submits no field at all keeps a service whose fields are
      already stripped, except that it clears the cleaning flag. */
  lemma EmptyEditClearsCleaningOnly(s: MoverService)
    requires s.name == Strip(s.name) && s.description == Strip(s.description)
    requires s.location == Strip(s.location) && s.phone == Strip(s.phone) && s.email == Strip(s.email)
    ensures EditedService(s, map[]) == s.(providesCleaning := false)
  {
  }

  // ---------------------------------------------------------------------------
  // manage_mover_bookings
  // ---------------------------------------------------------------------------

  /** The part of a mover booking the owner's page reads and writes: the
      service it was made with (None once that service is deleted) and its
      status text. */
  datatype MoverBookingRow = MoverBookingRow(mover: Option<ServiceId>, status: string)

  /** The status an owner's action leaves: "approve" confirms, "reject"
      rejects, anything else keeps the current status; the current status is
      never consulted. */
  function ActionStatus(action: Option<string>, current: string): (r: string)
    ensures action == Some("approve") ==> r == "confirmed"
    ensures action == Some("reject") ==> r == "rejected"
    ensures action != Some("approve") && action != Some("reject") ==> r == current
  {
    if action == Some("approve") then "confirmed"
    else if action == Some("reject") then "rejected"
    else current
  }

  /** `get_object_or_404(MoverBooking, pk=id, mover__in=owner's services)`. */
  predicate OwnerReaches(services: map<ServiceId, MoverService>, bookings: map<nat, MoverBookingRow>,
                         actor: UserId, id: nat) {
    && id in bookings
    && bookings[id].mover.Some?
    && bookings[id].mover.value in services
    && services[bookings[id].mover.value].owner == actor
  }

  /** The booking id a POST names, if it is an integer. */
  function PostedBookingId(post: Post): Option<nat> {
    match Get(post, "booking_id")
    case None => None
    case Some(text) =>
      match ParseInt(text)
      case Some(n) => if n >= 0 then Some(n) else None
      case None => None
  }

  // ---------------------------------------------------------------------------
  // The views, performed in place
  // ---------------------------------------------------------------------------

  /** The service, rating and mover-booking tables. */
  class MoverSite {
    var services: map<ServiceId, MoverService>
    var ratings: RatingTable
    var moverBookings: map<nat, MoverBookingRow>
    var nextServiceId: ServiceId

    /** Every rating's service exists, and service ids below the next one. */
    ghost predicate Valid()
      reads this
    {
      && (forall k :: k in ratings ==> k.0 in services)
      && (forall id :: id in services ==> id < nextServiceId)
    }

    constructor ()
      ensures Valid()
      ensures services == map[] && ratings == map[] && moverBookings == map[] && nextServiceId == 0
    {
      services := map[];
      ratings := map[];
      moverBookings := map[];
      nextServiceId := 0;
    }

    /** A POST to `mover_detail`. */
    method SubmitRating(actor: Option<UserId>, service: ServiceId, post: Post) returns (outcome: RatingOutcome)
      requires Valid()
      modifies this
      ensures Valid()
      ensures RateResult(ratings, outcome)
              == RateStep(old(services), old(ratings), service, actor, SubmittedScore(post), SubmittedComment(post))
      ensures services == old(services) && moverBookings == old(moverBookings)
      ensures nextServiceId == old(nextServiceId)
    {
      if service !in services {
        return ServiceNotFound;
      }
      if actor.None? {
        return LoginRequired;
      }
      if services[service].owner == actor.value {
        return OwnService;
      }
      var score := SubmittedScore(post);
      var comment := SubmittedComment(post);
      if score < 1 || score > 5 {
        return ScoreOutOfRange;
      }
      ratings := ratings[(service, actor.value) := Rating(score, comment)];
      outcome := RatingSaved;
    }

    /** A POST to `add_mover`: the new service's id, or None when the form
        is incomplete. */
    method AddMover(actor: UserId, post: Post) returns (created: Option<ServiceId>)
      requires Valid()
      modifies this
      ensures Valid()
      ensures created.Some? <==> NewServiceFrom(actor, post).Some?
      ensures created.Some? ==>
                && created.value !in old(services)
                && services == old(services)[created.value := NewServiceFrom(actor, post).value]
      ensures created.None? ==> services == old(services)
      ensures ratings == old(ratings) && moverBookings == old(moverBookings)
    {
      var service := NewServiceFrom(actor, post);
      if service.None? {
        return None;
      }
      services := services[nextServiceId := service.value];
      created := Some(nextServiceId);
      nextServiceId := nextServiceId + 1;
    }

    /** A POST to `edit_mover`: false when the actor owns no service with
        that id. */
    method EditMover(actor: UserId, service: ServiceId, post: Post) returns (found: bool)
      requires Valid()
      modifies this
      ensures Valid()
      ensures found <==> service in old(services) && old(services)[service].owner == actor
      ensures services == if found then old(services)[service := EditedService(old(services)[service], post)]
                          else old(services)
      ensures ratings == old(ratings) && moverBookings == old(moverBookings)
      ensures nextServiceId == old(nextServiceId)
    {
      if service !in services || services[service].owner != actor {
        return false;
      }
      services := services[service := EditedService(services[service], post)];
      found := true;
    }

    /** A POST to `manage_mover_bookings`: false when the named booking is
        not one of the actor's services' bookings. */
    method ManageMoverBooking(actor: UserId, post: Post) returns (found: bool)
      requires Valid()
      modifies this
      ensures Valid()
      ensures found <==> PostedBookingId(post).Some?
                         && OwnerReaches(old(services), old(moverBookings), actor, PostedBookingId(post).value)
      ensures found ==>
                var id := PostedBookingId(post).value;
                moverBookings == old(moverBookings)[id := old(moverBookings)[id].(
                                   status := ActionStatus(Get(post, "action"), old(moverBookings)[id].status))]
      ensures !found ==> moverBookings == old(moverBookings)
      ensures services == old(services) && ratings == old(ratings)
      ensures nextServiceId == old(nextServiceId)
    {
      var id := PostedBookingId(post);
      if id.None? || !OwnerReaches(services, moverBookings, actor, id.value) {
        return false;
      }
      var booking := moverBookings[id.value];
      booking := booking.(status := ActionStatus(Get(post, "action"), booking.status));
      moverBookings := moverBookings[id.value := booking];
      found := true;
    }
  }
}
