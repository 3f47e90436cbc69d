/** A rental property listing (houses/models.py): its persisted row, the
    in-memory instance a view loads and saves, and the comma-separated
    amenities field. */
module Houses {
  import opened Common

  /** The four listing categories a property may take. */
  datatype Category = Standalone | Hostel | Apartment | Roommate

  /** Default of both `total_units` and `available_units`. */
  const DefaultUnits: nat := 1

  /** What the store holds for one property. Unit counters are
      non-negative integers; nothing ties `availableUnits` to `totalUnits`. */
  datatype HouseRow = HouseRow(
    landlord: UserId,
    title: string,
    category: Category,
    totalUnits: nat,
    availableUnits: nat,
    amenities: string,
    isAvailable: bool)

  /** The row that saving persists: the availability flag recomputed from the
      available units, every other field as it was. */
  function Saved(h: HouseRow): (r: HouseRow)
    ensures r.isAvailable <==> r.availableUnits > 0
    ensures r == h.(isAvailable := r.isAvailable)
  {
    h.(isAvailable := h.availableUnits > 0)
  }

  /** Saving twice persists the same row as saving once. */
  lemma SavedIdempotent(h: HouseRow)
    ensures Saved(Saved(h)) == Saved(h)
  {
  }

  /** Saving does not clamp the unit counters: a row holding more available
      than total units is persisted as it is. */
  lemma SavedKeepsUnits(h: HouseRow)
    ensures Saved(h).availableUnits == h.availableUnits
    ensures Saved(h).totalUnits == h.totalUnits
  {
  }

  /** An in-memory `House` instance: loaded from a row, its fields changed by
      a view, then saved. */
  class House {
    var landlord: UserId
    var title: string
    var category: Category
    var totalUnits: nat
    var availableUnits: nat
    var amenities: string
    var isAvailable: bool

    /** The row these fields would persist as. */
    function Row(): HouseRow
      reads this
    {
      HouseRow(landlord, title, category, totalUnits, availableUnits, amenities, isAvailable)
    }

    /** A new listing: both unit counters and the availability flag take
        their field defaults. */
    constructor (landlord: UserId, title: string, category: Category, amenities: string)
      ensures Row() == HouseRow(landlord, title, category, DefaultUnits, DefaultUnits, amenities, true)
    {
      this.landlord := landlord;
      this.title := title;
      this.category := category;
      this.totalUnits := DefaultUnits;
      this.availableUnits := DefaultUnits;
      this.amenities := amenities;
      this.isAvailable := true;
    }

    /** An instance fetched from the store. */
    constructor Load(row: HouseRow)
      ensures Row() == row
    {
      landlord := row.landlord;
      title := row.title;
      category := row.category;
      totalUnits := row.totalUnits;
      availableUnits := row.availableUnits;
      amenities := row.amenities;
      isAvailable := row.isAvailable;
    }

    /** `House.save`: sets the availability flag from the available units and
        returns the row written to the store. */
    method Save() returns (persisted: HouseRow)
      modifies this
      ensures Row() == Saved(old(Row()))
      ensures persisted == Row()
    {
      if availableUnits > 0 {
        isAvailable := true;
      } else {
        isAvailable := false;
      }
      persisted := Row();
    }

    /** `get_amenities_list`: no amenities when the field is empty, otherwise
        the comma-separated pieces, which join back into the field and number
        one more than its commas. */
    function AmenitiesList(): (r: seq<string>)
      reads this
      ensures amenities == [] ==> r == []
      ensures amenities != [] ==> Join(r, ',') == amenities
      ensures amenities != [] ==> |r| == Occurrences(amenities, ',') + 1
      ensures forall i :: 0 <= i < |r| ==> ',' !in r[i]
    {
      if amenities != [] then
        JoinSplit(amenities, ',');
        SplitShape(amenities, ',');
        Split(amenities, ',')
      else []
    }
  }
}
