/** A tenant's request to rent a property (booking/models.py): the status
    values, the defaults, the one-booking-per-tenant-per-property rule and the
    cascading deletes of the two foreign keys. */
module Bookings {
  import opened Common

  type BookingId = nat

  /** The four status choices; a stored booking holds exactly one of them. */
  datatype Status = Pending | Approved | Rejected | Cancelled

  /** Default of `lease_duration_months`. */
  const DefaultLeaseMonths: nat := 12

  datatype Booking = Booking(
    tenant: UserId,
    property: HouseId,
    moveInDate: string,
    leaseDurationMonths: nat,
    tenantName: string,
    tenantPhone: string,
    tenantEmail: string,
    message: string,
    status: Status)

  /** `Booking.objects.create(...)` without a status: the row starts pending. */
  function NewBooking(tenant: UserId, property: HouseId, moveInDate: string, leaseDurationMonths: nat,
                      tenantName: string, tenantPhone: string, tenantEmail: string, message: string): (b: Booking)
    ensures b.status == Pending
    ensures b.tenant == tenant && b.property == property
    ensures b.leaseDurationMonths == leaseDurationMonths && b.message == message
  {
    Booking(tenant, property, moveInDate, leaseDurationMonths, tenantName, tenantPhone, tenantEmail, message, Pending)
  }

  /** `unique_together = ('tenant', 'property')`. */
  predicate UniquePairs(bookings: map<BookingId, Booking>) {
    forall i, j :: i in bookings && j in bookings && SamePair(bookings[i], bookings[j]) ==> i == j
  }

  predicate SamePair(a: Booking, b: Booking) {
    IsPair(b, a.tenant, a.property)
  }

  /** Whether the tenant already has a booking (in any status) for the property. */
  predicate HasBooking(bookings: map<BookingId, Booking>, tenant: UserId, property: HouseId) {
    exists i :: i in bookings && IsPair(bookings[i], tenant, property)
  }

  predicate IsPair(b: Booking, tenant: UserId, property: HouseId) {
    b.tenant == tenant && b.property == property
  }

  /** Adding a booking for a pair that has none keeps the pairs unique. */
  lemma InsertKeepsUnique(bookings: map<BookingId, Booking>, id: BookingId, b: Booking)
    requires UniquePairs(bookings)
    requires id !in bookings
    requires !HasBooking(bookings, b.tenant, b.property)
    ensures UniquePairs(bookings[id := b])
  {
    var m := bookings[id := b];
    forall i, j | i in m && j in m && SamePair(m[i], m[j])
      ensures i == j
    {
      if (i == id) != (j == id) {
        assert false;
      }
    }
  }

  /** Changing fields of a booking other than its tenant and property keeps
      the pairs unique. */
  lemma UpdateKeepsUnique(bookings: map<BookingId, Booking>, id: BookingId, b: Booking)
    requires UniquePairs(bookings)
    requires id in bookings && SamePair(bookings[id], b)
    ensures UniquePairs(bookings[id := b])
  {
    var m := bookings[id := b];
    forall i, j | i in m && j in m && SamePair(m[i], m[j])
      ensures i == j
    {
      if i == id || j == id {
        assert SamePair(bookings[i], bookings[j]);
      }
    }
  }

  /** The bookings a cascading delete leaves: those that `keep` accepts,
      unchanged. */
  function KeepBookings(bookings: map<BookingId, Booking>, keep: Booking -> bool): (r: map<BookingId, Booking>)
    ensures r.Keys <= bookings.Keys
    ensures forall i :: i in r ==> keep(bookings[i]) && r[i] == bookings[i]
    ensures forall i :: i in bookings && keep(bookings[i]) ==> i in r
  {
    map i | i in bookings && keep(bookings[i]) :: bookings[i]
  }

  /** Deleting a user (`on_delete=CASCADE` on `tenant`): every booking of that
      tenant goes, every other booking stays as it was. */
  function DeleteTenantBookings(bookings: map<BookingId, Booking>, tenant: UserId): (r: map<BookingId, Booking>)
    ensures forall i :: i in r ==> r[i].tenant != tenant
    ensures forall i :: i in bookings && bookings[i].tenant != tenant ==> i in r && r[i] == bookings[i]
    ensures r.Keys <= bookings.Keys
  {
    KeepBookings(bookings, (b: Booking) => b.tenant != tenant)
  }

  /** Deleting a property (`on_delete=CASCADE` on `property`): every booking of
      that property goes, every other booking stays as it was. */
  function DeletePropertyBookings(bookings: map<BookingId, Booking>, property: HouseId): (r: map<BookingId, Booking>)
    ensures forall i :: i in r ==> r[i].property != property
    ensures forall i :: i in bookings && bookings[i].property != property ==> i in r && r[i] == bookings[i]
    ensures r.Keys <= bookings.Keys
  {
    KeepBookings(bookings, (b: Booking) => b.property != property)
  }

  // ---------------------------------------------------------------------------
  // Status counts shown on the tenant's and the landlord's booking pages
  // ---------------------------------------------------------------------------

  /** The bookings among `ids` whose status is `s`. */
  function WithStatus(bookings: map<BookingId, Booking>, ids: set<BookingId>, s: Status): (r: set<BookingId>)
    ensures r <= ids
    ensures forall i :: i in r ==> i in bookings && bookings[i].status == s
    ensures forall i :: i in ids && i in bookings && bookings[i].status == s ==> i in r
  {
    set i | i in ids && i in bookings && bookings[i].status == s
  }

  /** The four status groups partition the bookings, so their sizes add up
      to the number of bookings. */
  lemma StatusCountsPartition(bookings: map<BookingId, Booking>, ids: set<BookingId>)
    requires ids <= bookings.Keys
    ensures |WithStatus(bookings, ids, Pending)| + |WithStatus(bookings, ids, Approved)|
            + |WithStatus(bookings, ids, Rejected)| + |WithStatus(bookings, ids, Cancelled)| == |ids|
  {
    var p, a, r, c := WithStatus(bookings, ids, Pending), WithStatus(bookings, ids, Approved),
                      WithStatus(bookings, ids, Rejected), WithStatus(bookings, ids, Cancelled);
    forall i | i in ids
      ensures i in p + a + r + c
    {
      match bookings[i].status
      case Pending => assert i in p;
      case Approved => assert i in a;
      case Rejected => assert i in r;
      case Cancelled => assert i in c;
    }
    assert ids == p + a + r + c;
    DisjointUnionSize(p, a);
    DisjointUnionSize(p + a, r);
    DisjointUnionSize(p + a + r, c);
  }

  lemma DisjointUnionSize(x: set<BookingId>, y: set<BookingId>)
    requires x !! y
    ensures |x + y| == |x| + |y|
  {
  }
}
