/** The tenant and landlord booking actions (booking/views.py): creating,
    cancelling, approving and rejecting a booking, and the unit counters those
    actions move. Each action is specified by a step function on the stored
    tables; the `Ledger` class performs it the way the views do, by changing
    a loaded booking or property and saving it. */
module BookingViews {
  import opened Common
  import opened Houses
  import opened Bookings

  /** The tables the booking views read and write. */
  datatype Store = Store(
    houses: map<HouseId, HouseRow>,
    bookings: map<BookingId, Booking>,
    nextBookingId: BookingId)

  /** What the database guarantees: every booking's property exists, every
      booking id was handed out already, and no tenant has two bookings for
      one property. */
  predicate WellFormed(s: Store) {
    && UniquePairs(s.bookings)
    && (forall i :: i in s.bookings ==> i < s.nextBookingId && s.bookings[i].property in s.houses)
  }

  /** `0 <= available_units <= total_units` for every property; the lower
      bound holds by type, the upper one is what the views try to keep. */
  predicate UnitsBounded(s: Store) {
    forall h :: h in s.houses ==> s.houses[h].availableUnits <= s.houses[h].totalUnits
  }

  /** How a view ends: a lookup that found nothing for this actor, the
      duplicate check, a create that the database refused, a new booking, a
      plain success, an approval with no unit left to take (a warning), a
      cancellation of a booking that is neither pending nor approved. */
  datatype Outcome =
    | NotFound
    | AlreadyBooked
    | InvalidForm
    | Created(id: BookingId)
    | Done
    | NoUnitToTake
    | NotCancellable

  datatype Step = Step(store: Store, outcome: Outcome)

  // ---------------------------------------------------------------------------
  // Who may reach a booking
  // ---------------------------------------------------------------------------

  /** `get_object_or_404(Booking, pk=id, tenant=actor)`. */
  predicate TenantReaches(s: Store, actor: UserId, id: BookingId) {
    id in s.bookings && s.bookings[id].tenant == actor
  }

  /** `get_object_or_404(Booking, pk=id, property__landlord=actor)`. */
  predicate LandlordReaches(s: Store, actor: UserId, id: BookingId) {
    && id in s.bookings
    && s.bookings[id].property in s.houses
    && s.houses[s.bookings[id].property].landlord == actor
  }

  // ---------------------------------------------------------------------------
  // Small state changes the views combine
  // ---------------------------------------------------------------------------

  function SetStatus(s: Store, id: BookingId, status: Status): Store
    requires id in s.bookings
  {
    s.(bookings := s.bookings[id := s.bookings[id].(status := status)])
  }

  /** One unit fewer on property `h`, then `House.save`. */
  function TakeUnit(s: Store, h: HouseId): Store
    requires h in s.houses && s.houses[h].availableUnits > 0
  {
    s.(houses := s.houses[h := Saved(s.houses[h].(availableUnits := s.houses[h].availableUnits - 1))])
  }

  /** One unit more on property `h`, then `House.save`. */
  function ReturnUnit(s: Store, h: HouseId): Store
    requires h in s.houses
  {
    s.(houses := s.houses[h := Saved(s.houses[h].(availableUnits := s.houses[h].availableUnits + 1))])
  }

  // ---------------------------------------------------------------------------
  // The four actions
  // ---------------------------------------------------------------------------

  /** The row `Booking.objects.create` writes from the submitted form, or None
      when the database refuses it: a required field missing, or a lease
      duration that is not a non-negative integer. The lease duration
      defaults to 12 and the message to the empty text. */
  function BookingFromPost(tenant: UserId, property: HouseId, post: Post): (r: Option<Booking>)
    ensures r.Some? <==>
              && "move_in_date" in post && "tenant_name" in post
              && "tenant_phone" in post && "tenant_email" in post
              && ("lease_duration_months" in post ==>
                    ParseInt(post["lease_duration_months"]).Some?
                    && ParseInt(post["lease_duration_months"]).value >= 0)
    ensures r.Some? ==> r.value.status == Pending && IsPair(r.value, tenant, property)
    ensures r.Some? ==>
              && r.value.moveInDate == post["move_in_date"]
              && r.value.tenantName == post["tenant_name"]
              && r.value.tenantPhone == post["tenant_phone"]
              && r.value.tenantEmail == post["tenant_email"]
              && r.value.message == GetOr(post, "message", "")
    ensures r.Some? && "lease_duration_months" !in post ==> r.value.leaseDurationMonths == DefaultLeaseMonths
    ensures r.Some? && "lease_duration_months" in post ==>
              r.value.leaseDurationMonths == ParseInt(post["lease_duration_months"]).value
  {
    var lease := match Get(post, "lease_duration_months")
      case None => Some(DefaultLeaseMonths as int)
      case Some(text) => ParseInt(text);
    if Get(post, "move_in_date").None? || Get(post, "tenant_name").None?
       || Get(post, "tenant_phone").None? || Get(post, "tenant_email").None? then None
    else if lease.None? || lease.value < 0 then None
    else Some(NewBooking(tenant, property, post["move_in_date"], lease.value,
                         post["tenant_name"], post["tenant_phone"], post["tenant_email"],
                         GetOr(post, "message", "")))
  }

  /** `create_booking` on a POST. */
  function CreateStep(s: Store, actor: UserId, property: HouseId, post: Post): Step {
    if property !in s.houses then Step(s, NotFound)
    else if HasBooking(s.bookings, actor, property) then Step(s, AlreadyBooked)
    else match BookingFromPost(actor, property, post)
      case None => Step(s, InvalidForm)
      case Some(b) =>
        Step(s.(bookings := s.bookings[s.nextBookingId := b], nextBookingId := s.nextBookingId + 1),
             Created(s.nextBookingId))
  }

  /** `cancel_booking` on a POST. */
  function CancelStep(s: Store, actor: UserId, id: BookingId): Step
    requires WellFormed(s)
  {
    if !TenantReaches(s, actor, id) then Step(s, NotFound)
    else
      var b := s.bookings[id];
      match b.status
      case Pending => Step(SetStatus(s, id, Cancelled), Done)
      case Approved =>
        var cancelled := SetStatus(s, id, Cancelled);
        if s.houses[b.property].availableUnits < s.houses[b.property].totalUnits
        then Step(ReturnUnit(cancelled, b.property), Done)
        else Step(cancelled, Done)
      case _ => Step(s, NotCancellable)
  }

  /** `approve_booking` on a POST: no check of the current status. */
  function ApproveStep(s: Store, actor: UserId, id: BookingId): Step {
    if !LandlordReaches(s, actor, id) then Step(s, NotFound)
    else
      var h := s.bookings[id].property;
      var approved := SetStatus(s, id, Approved);
      if s.houses[h].availableUnits > 0 then Step(TakeUnit(approved, h), Done)
      else Step(approved, NoUnitToTake)
  }

  /** `reject_booking` on a POST: no check of the current status. */
  function RejectStep(s: Store, actor: UserId, id: BookingId): Step {
    if !LandlordReaches(s, actor, id) then Step(s, NotFound)
    else Step(SetStatus(s, id, Rejected), Done)
  }

  // ---------------------------------------------------------------------------
  // What each action does
  // ---------------------------------------------------------------------------

  /** Creating a booking: a tenant who already has a booking for the property,
      whatever its status, gets nothing new, and neither does a form the
      database refuses; otherwise exactly one pending booking for the pair,
      holding the posted values, is added under a fresh id. Unit counters
      never move. */
  lemma CreateEffect(s: Store, actor: UserId, property: HouseId, post: Post)
    requires WellFormed(s)
    ensures var r := CreateStep(s, actor, property, post);
      && r.store.houses == s.houses
      && (property !in s.houses ==> r == Step(s, NotFound))
      && (property in s.houses && HasBooking(s.bookings, actor, property) ==> r == Step(s, AlreadyBooked))
      && ((property in s.houses && !HasBooking(s.bookings, actor, property)
           && BookingFromPost(actor, property, post).None?) ==> r == Step(s, InvalidForm))
      && ((property in s.houses && !HasBooking(s.bookings, actor, property)
           && BookingFromPost(actor, property, post).Some?) ==>
            && r.outcome == Created(s.nextBookingId)
            && r.store.bookings == s.bookings[s.nextBookingId := BookingFromPost(actor, property, post).value]
            && r.store.nextBookingId == s.nextBookingId + 1)
      && (r.outcome.Created? <==> r.store != s)
      && (r.outcome.Created? ==>
            && property in s.houses && !HasBooking(s.bookings, actor, property)
            && r.outcome.id !in s.bookings
            && r.store.bookings.Keys == s.bookings.Keys + {r.outcome.id}
            && (forall i :: i in s.bookings ==> r.store.bookings[i] == s.bookings[i])
            && r.store.bookings[r.outcome.id].status == Pending
            && IsPair(r.store.bookings[r.outcome.id], actor, property))
  {
    var r := CreateStep(s, actor, property, post);
    if r.outcome.Created? {
      assert r.outcome.id !in s.bookings;
      assert r.store.nextBookingId != s.nextBookingId;
    }
  }

  /** Approving: a booking the actor does not reach as landlord is "not
      found" and nothing changes; otherwise the booking becomes approved from
      whatever status it had, and its property loses exactly one unit if it
      had one, and none otherwise. Nothing else changes. */
  lemma ApproveEffect(s: Store, actor: UserId, id: BookingId)
    requires WellFormed(s)
    ensures var r := ApproveStep(s, actor, id);
      && (!LandlordReaches(s, actor, id) ==> r == Step(s, NotFound))
      && (LandlordReaches(s, actor, id) ==>
            var h := s.bookings[id].property;
            && r.store.bookings == s.bookings[id := s.bookings[id].(status := Approved)]
            && r.store.nextBookingId == s.nextBookingId
            && r.store.houses == (if s.houses[h].availableUnits > 0
                                  then s.houses[h := Saved(s.houses[h].(availableUnits := s.houses[h].availableUnits - 1))]
                                  else s.houses)
            && r.store.houses[h].totalUnits == s.houses[h].totalUnits
            && r.store.houses[h].availableUnits
                 == (if s.houses[h].availableUnits > 0 then s.houses[h].availableUnits - 1 else 0)
            && (r.outcome == NoUnitToTake <==> s.houses[h].availableUnits == 0))
  {
  }

  /** Rejecting: the booking becomes rejected from whatever status it had;
      no property changes. Out-of-reach bookings are "not found". */
  lemma RejectEffect(s: Store, actor: UserId, id: BookingId)
    requires WellFormed(s)
    ensures var r := RejectStep(s, actor, id);
      && r.store.houses == s.houses
      && r.store.nextBookingId == s.nextBookingId
      && (!LandlordReaches(s, actor, id) ==> r == Step(s, NotFound))
      && (LandlordReaches(s, actor, id) ==>
            r.store.bookings == s.bookings[id := s.bookings[id].(status := Rejected)])
  {
  }

  /** Cancelling: a pending booking becomes cancelled with no unit change; an
      approved one becomes cancelled and gives its property back exactly one
      unit, but only while the property is below its total; a rejected or
      cancelled booking, or one the actor does not reach as tenant, is left
      alone. */
  lemma CancelEffect(s: Store, actor: UserId, id: BookingId)
    requires WellFormed(s)
    ensures var r := CancelStep(s, actor, id);
      && (!TenantReaches(s, actor, id) ==> r == Step(s, NotFound))
      && (TenantReaches(s, actor, id) ==>
            var b := s.bookings[id];
            && (b.status == Pending ==>
                  r.store == s.(bookings := s.bookings[id := b.(status := Cancelled)]))
            && (b.status == Approved ==>
                  var h := b.property;
                  && r.store.bookings == s.bookings[id := b.(status := Cancelled)]
                  && r.store.nextBookingId == s.nextBookingId
                  && r.store.houses == (if s.houses[h].availableUnits < s.houses[h].totalUnits
                                        then s.houses[h := Saved(s.houses[h].(availableUnits := s.houses[h].availableUnits + 1))]
                                        else s.houses)
                  && r.store.houses[h].totalUnits == s.houses[h].totalUnits
                  && r.store.houses[h].availableUnits
                       == (if s.houses[h].availableUnits < s.houses[h].totalUnits
                           then s.houses[h].availableUnits + 1
                           else s.houses[h].availableUnits))
            && (b.status == Rejected || b.status == Cancelled ==> r == Step(s, NotCancellable)))
  {
  }

  // ---------------------------------------------------------------------------
  // Invariants the actions keep
  // ---------------------------------------------------------------------------

  /** Changing a booking's status keeps the database's guarantees. */
  lemma SetStatusKeepsWellFormed(s: Store, id: BookingId, status: Status)
    requires WellFormed(s) && id in s.bookings
    ensures WellFormed(SetStatus(s, id, status))
  {
    UpdateKeepsUnique(s.bookings, id, s.bookings[id].(status := status));
  }

  /** Creating keeps the database's guarantees. */
  lemma CreateKeepsWellFormed(s: Store, actor: UserId, property: HouseId, post: Post)
    requires WellFormed(s)
    ensures WellFormed(CreateStep(s, actor, property, post).store)
  {
    var c := CreateStep(s, actor, property, post);
    if c.outcome.Created? {
      InsertKeepsUnique(s.bookings, s.nextBookingId, c.store.bookings[s.nextBookingId]);
    }
  }

  /** Cancelling, approving and rejecting keep the database's guarantees. */
  lemma TransitionsKeepWellFormed(s: Store, actor: UserId, id: BookingId)
    requires WellFormed(s)
    ensures WellFormed(CancelStep(s, actor, id).store)
    ensures WellFormed(ApproveStep(s, actor, id).store)
    ensures WellFormed(RejectStep(s, actor, id).store)
  {
    if id in s.bookings {
      SetStatusKeepsWellFormed(s, id, Cancelled);
      SetStatusKeepsWellFormed(s, id, Approved);
      SetStatusKeepsWellFormed(s, id, Rejected);
    }
  }

  /** The guards on approving (`available_units > 0`) and on cancelling
      (`available_units < total_units`) keep every property within
      `0 <= available_units <= total_units`; creating and rejecting never
      touch the counters. */
  lemma StepsKeepUnitsBounded(s: Store, actor: UserId, id: BookingId, property: HouseId, post: Post)
    requires WellFormed(s) && UnitsBounded(s)
    ensures UnitsBounded(CreateStep(s, actor, property, post).store)
    ensures UnitsBounded(CancelStep(s, actor, id).store)
    ensures UnitsBounded(ApproveStep(s, actor, id).store)
    ensures UnitsBounded(RejectStep(s, actor, id).store)
  {
    ApproveEffect(s, actor, id);
    CancelEffect(s, actor, id);
  }

  /** Every stored property's `is_available` says whether it has a unit
      left, as `House.save` sets it. */
  predicate AvailabilityFlagsMatch(s: Store) {
    forall h :: h in s.houses ==> (s.houses[h].isAvailable <==> s.houses[h].availableUnits > 0)
  }

  /** Every action saves the property it changes, so `is_available` keeps
      matching the available units. */
  lemma StepsKeepAvailabilityFlags(s: Store, actor: UserId, id: BookingId, property: HouseId, post: Post)
    requires WellFormed(s) && AvailabilityFlagsMatch(s)
    ensures AvailabilityFlagsMatch(CreateStep(s, actor, property, post).store)
    ensures AvailabilityFlagsMatch(CancelStep(s, actor, id).store)
    ensures AvailabilityFlagsMatch(ApproveStep(s, actor, id).store)
    ensures AvailabilityFlagsMatch(RejectStep(s, actor, id).store)
  {
    ApproveEffect(s, actor, id);
    CancelEffect(s, actor, id);
  }

  /** With no status guard, approving the same booking twice takes two units
      when two are left: the second approval is not refused. */
  lemma ApproveTwiceTakesTwoUnits(s: Store, actor: UserId, id: BookingId)
    requires WellFormed(s) && LandlordReaches(s, actor, id)
    requires s.houses[s.bookings[id].property].availableUnits >= 2
    ensures var h := s.bookings[id].property;
      var once := ApproveStep(s, actor, id);
      var twice := ApproveStep(once.store, actor, id);
      && once.outcome == Done && twice.outcome == Done
      && twice.store.bookings[id].status == Approved
      && twice.store.houses[h].availableUnits == s.houses[h].availableUnits - 2
  {
    var once := ApproveStep(s, actor, id);
    TransitionsKeepWellFormed(s, actor, id);
    ApproveEffect(s, actor, id);
    ApproveEffect(once.store, actor, id);
  }

  /** An approved booking that is then cancelled gives back the unit its
      approval took. */
  lemma ApproveThenCancelRestoresUnits(s: Store, landlord: UserId, id: BookingId)
    requires WellFormed(s) && LandlordReaches(s, landlord, id)
    requires var h := s.houses[s.bookings[id].property]; 0 < h.availableUnits <= h.totalUnits
    ensures var h := s.bookings[id].property;
      var approved := ApproveStep(s, landlord, id).store;
      var cancelled := CancelStep(approved, s.bookings[id].tenant, id).store;
      && cancelled.houses[h].availableUnits == s.houses[h].availableUnits
      && cancelled.bookings[id].status == Cancelled
  {
    var approved := ApproveStep(s, landlord, id).store;
    TransitionsKeepWellFormed(s, landlord, id);
    ApproveEffect(s, landlord, id);
    CancelEffect(approved, s.bookings[id].tenant, id);
  }

  /** With no unit left, approving takes none, yet cancelling the approved
      booking still returns one whenever the property has any unit at all:
      the counter rises with no unit ever taken. */
  lemma ApproveWithoutUnitThenCancelAddsUnit(s: Store, landlord: UserId, id: BookingId)
    requires WellFormed(s) && LandlordReaches(s, landlord, id)
    requires s.houses[s.bookings[id].property].availableUnits == 0
    ensures var h := s.bookings[id].property;
      var approve := ApproveStep(s, landlord, id);
      var cancelled := CancelStep(approve.store, s.bookings[id].tenant, id).store;
      && approve.outcome == NoUnitToTake
      && approve.store.houses[h].availableUnits == 0
      && cancelled.houses[h].availableUnits == (if 0 < s.houses[h].totalUnits then 1 else 0)
      && cancelled.bookings[id].status == Cancelled
  {
    var approved := ApproveStep(s, landlord, id).store;
    TransitionsKeepWellFormed(s, landlord, id);
    ApproveEffect(s, landlord, id);
    CancelEffect(approved, s.bookings[id].tenant, id);
  }

  /** The model never stops a property from holding more available units
      than its total. On such a property approving takes a unit, but the
      cancel guard refuses to give it back. */
  lemma ApproveThenCancelOverTotalLosesUnit(s: Store, landlord: UserId, id: BookingId)
    requires WellFormed(s) && LandlordReaches(s, landlord, id)
    requires var h := s.houses[s.bookings[id].property]; h.totalUnits < h.availableUnits
    ensures var h := s.bookings[id].property;
      var approve := ApproveStep(s, landlord, id);
      var cancelled := CancelStep(approve.store, s.bookings[id].tenant, id).store;
      && approve.outcome == Done
      && cancelled.houses[h].availableUnits == s.houses[h].availableUnits - 1
      && cancelled.bookings[id].status == Cancelled
  {
    var approved := ApproveStep(s, landlord, id).store;
    TransitionsKeepWellFormed(s, landlord, id);
    ApproveEffect(s, landlord, id);
    CancelEffect(approved, s.bookings[id].tenant, id);
  }

  /** Rejected and cancelled bookings cannot be cancelled (again). */
  lemma CancelOnlyOnce(s: Store, actor: UserId, id: BookingId)
    requires WellFormed(s) && TenantReaches(s, actor, id)
    requires s.bookings[id].status in {Pending, Approved}
    ensures var once := CancelStep(s, actor, id).store;
      CancelStep(once, actor, id) == Step(once, NotCancellable)
  {
    TransitionsKeepWellFormed(s, actor, id);
  }

  /** The one-booking-per-pair check looks at bookings of every status, so a
      tenant whose booking of a property was rejected or cancelled can never
      book that property again. */
  lemma ClosedBookingStillBlocks(s: Store, actor: UserId, id: BookingId, post: Post)
    requires WellFormed(s) && TenantReaches(s, actor, id)
    requires s.bookings[id].status in {Rejected, Cancelled}
    ensures CreateStep(s, actor, s.bookings[id].property, post) == Step(s, AlreadyBooked)
  {
    assert IsPair(s.bookings[id], actor, s.bookings[id].property);
  }

  // ---------------------------------------------------------------------------
  // Cascading deletes
  // ---------------------------------------------------------------------------

  /** Deleting a property removes every booking of it and keeps the
      database's guarantees. */
  function DeleteProperty(s: Store, h: HouseId): (r: Store)
    requires WellFormed(s)
    ensures WellFormed(r)
    ensures r.houses == s.houses - {h} && r.nextBookingId == s.nextBookingId
    ensures forall i :: i in r.bookings ==> r.bookings[i].property != h
    ensures r.bookings.Keys <= s.bookings.Keys
    ensures forall i :: i in s.bookings && s.bookings[i].property != h ==>
              i in r.bookings && r.bookings[i] == s.bookings[i]
  {
    s.(houses := s.houses - {h}, bookings := DeletePropertyBookings(s.bookings, h))
  }

  /** Deleting a user: `on_delete=CASCADE` on `House.landlord` removes the
      user's properties, `Booking.property` then removes the bookings of
      those properties, and `Booking.tenant` removes the bookings the user
      made. Everything else stays as it was. */
  function DeleteUser(s: Store, user: UserId): (r: Store)
    requires WellFormed(s)
    ensures WellFormed(r) && r.nextBookingId == s.nextBookingId
    ensures forall h :: h in r.houses <==> h in s.houses && s.houses[h].landlord != user
    ensures forall h :: h in r.houses ==> r.houses[h] == s.houses[h]
    ensures forall i :: i in r.bookings <==>
              i in s.bookings && s.bookings[i].tenant != user
              && s.houses[s.bookings[i].property].landlord != user
    ensures forall i :: i in r.bookings ==> r.bookings[i] == s.bookings[i]
  {
    var houses := map h | h in s.houses && s.houses[h].landlord != user :: s.houses[h];
    var bookings := KeepBookings(DeleteTenantBookings(s.bookings, user), (b: Booking) => b.property in houses);
    s.(houses := houses, bookings := bookings)
  }

  // ---------------------------------------------------------------------------
  // Status counts on the booking pages
  // ---------------------------------------------------------------------------

  /** The three counts both booking pages show. */
  datatype StatusCounts = StatusCounts(pending: nat, approved: nat, rejected: nat)

  /** The bookings a tenant made (`my_bookings`). */
  function TenantBookings(s: Store, tenant: UserId): (r: set<BookingId>)
    ensures forall i :: i in r <==> TenantReaches(s, tenant, i)
  {
    set i | i in s.bookings && TenantReaches(s, tenant, i)
  }

  /** The bookings of a landlord's properties (`manage_bookings`). */
  function LandlordBookings(s: Store, landlord: UserId): (r: set<BookingId>)
    ensures forall i :: i in r <==> LandlordReaches(s, landlord, i)
  {
    set i | i in s.bookings && LandlordReaches(s, landlord, i)
  }

  /** The counts over a set of bookings: each is the number of bookings in
      its status; cancelled ones are not shown, so the three shown counts add
      up to the number of bookings less the cancelled ones. */
  function CountsOf(s: Store, ids: set<BookingId>): (c: StatusCounts)
    requires ids <= s.bookings.Keys
    ensures c.pending == |set i | i in ids && s.bookings[i].status == Pending|
    ensures c.approved == |set i | i in ids && s.bookings[i].status == Approved|
    ensures c.rejected == |set i | i in ids && s.bookings[i].status == Rejected|
    ensures c.pending + c.approved + c.rejected
              == |ids| - |WithStatus(s.bookings, ids, Cancelled)|
  {
    StatusCountsPartition(s.bookings, ids);
    assert WithStatus(s.bookings, ids, Pending) == set i | i in ids && s.bookings[i].status == Pending;
    assert WithStatus(s.bookings, ids, Approved) == set i | i in ids && s.bookings[i].status == Approved;
    assert WithStatus(s.bookings, ids, Rejected) == set i | i in ids && s.bookings[i].status == Rejected;
    StatusCounts(|WithStatus(s.bookings, ids, Pending)|,
                 |WithStatus(s.bookings, ids, Approved)|,
                 |WithStatus(s.bookings, ids, Rejected)|)
  }

  // ---------------------------------------------------------------------------
  // The views, performed in place
  // ---------------------------------------------------------------------------

  /** The booking tables, changed the way the views change them. */
  class Ledger {
    var houses: map<HouseId, HouseRow>
    var bookings: map<BookingId, Booking>
    var nextBookingId: BookingId

    function Snapshot(): Store
      reads this
    {
      Store(houses, bookings, nextBookingId)
    }

    ghost predicate Valid()
      reads this
    {
      WellFormed(Snapshot())
    }

    constructor (houses: map<HouseId, HouseRow>)
      ensures Valid() && Snapshot() == Store(houses, map[], 0)
    {
      this.houses := houses;
      this.bookings := map[];
      this.nextBookingId := 0;
    }

    method CreateBooking(actor: UserId, property: HouseId, post: Post) returns (outcome: Outcome)
      requires Valid()
      modifies this
      ensures Valid()
      ensures Step(Snapshot(), outcome) == CreateStep(old(Snapshot()), actor, property, post)
    {
      ghost var before := Snapshot();
      CreateKeepsWellFormed(before, actor, property, post);
      if property !in houses {
        return NotFound;
      }
      if HasBooking(bookings, actor, property) {
        return AlreadyBooked;
      }
      var booking := BookingFromPost(actor, property, post);
      if booking.None? {
        return InvalidForm;
      }
      bookings := bookings[nextBookingId := booking.value];
      outcome := Created(nextBookingId);
      nextBookingId := nextBookingId + 1;
    }

    method CancelBooking(actor: UserId, id: BookingId) returns (outcome: Outcome)
      requires Valid()
      modifies this
      ensures Valid()
      ensures Step(Snapshot(), outcome) == CancelStep(old(Snapshot()), actor, id)
    {
      ghost var before := Snapshot();
      TransitionsKeepWellFormed(before, actor, id);
      if id !in bookings || bookings[id].tenant != actor {
        return NotFound;
      }
      var booking := bookings[id];
      if booking.status == Pending {
        bookings := bookings[id := booking.(status := Cancelled)];
        outcome := Done;
      } else if booking.status == Approved {
        bookings := bookings[id := booking.(status := Cancelled)];
        var property := new House.Load(houses[booking.property]);
        if property.availableUnits < property.totalUnits {
          property.availableUnits := property.availableUnits + 1;
          var row := property.Save();
          houses := houses[booking.property := row];
        }
        outcome := Done;
      } else {
        outcome := NotCancellable;
      }
    }

    method ApproveBooking(actor: UserId, id: BookingId) returns (outcome: Outcome)
      requires Valid()
      modifies this
      ensures Valid()
      ensures Step(Snapshot(), outcome) == ApproveStep(old(Snapshot()), actor, id)
    {
      ghost var before := Snapshot();
      TransitionsKeepWellFormed(before, actor, id);
      if id !in bookings || bookings[id].property !in houses
         || houses[bookings[id].property].landlord != actor {
        return NotFound;
      }
      var booking := bookings[id].(status := Approved);
      bookings := bookings[id := booking];
      var property := new House.Load(houses[booking.property]);
      if property.availableUnits > 0 {
        property.availableUnits := property.availableUnits - 1;
        var row := property.Save();
        houses := houses[booking.property := row];
        outcome := Done;
      } else {
        outcome := NoUnitToTake;
      }
    }

    method RejectBooking(actor: UserId, id: BookingId) returns (outcome: Outcome)
      requires Valid()
      modifies this
      ensures Valid()
      ensures Step(Snapshot(), outcome) == RejectStep(old(Snapshot()), actor, id)
    {
      ghost var before := Snapshot();
      TransitionsKeepWellFormed(before, actor, id);
      if id !in bookings || bookings[id].property !in houses
         || houses[bookings[id].property].landlord != actor {
        return NotFound;
      }
      bookings := bookings[id := bookings[id].(status := Rejected)];
      outcome := Done;
    }

    /** The counts on the tenant's booking page. */
    method MyBookings(actor: UserId) returns (counts: StatusCounts)
      requires Valid()
      ensures counts == CountsOf(Snapshot(), TenantBookings(Snapshot(), actor))
      ensures counts.pending + counts.approved + counts.rejected <= |TenantBookings(Snapshot(), actor)|
    {
      counts := CountsOf(Snapshot(), TenantBookings(Snapshot(), actor));
    }

    /** The counts on the landlord's booking page. */
    method ManageBookings(actor: UserId) returns (counts: StatusCounts)
      requires Valid()
      ensures counts == CountsOf(Snapshot(), LandlordBookings(Snapshot(), actor))
      ensures counts.pending + counts.approved + counts.rejected <= |LandlordBookings(Snapshot(), actor)|
    {
      counts := CountsOf(Snapshot(), LandlordBookings(Snapshot(), actor));
    }
  }
}
