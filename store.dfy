/** The catalog store: the three tables and the inserts that grow them. */
module Store {
  import opened Wrappers
  import opened Schema
  import opened BandView

  /**
   * The in-memory catalog. Each table is a sequence of rows in insertion order;
   * each `next...Id` is the id AUTOINCREMENT hands out next. Nothing is ever
   * deleted or updated.
   */
  class Catalog {
    var bands: seq<Band>
    var venues: seq<Venue>
    var concerts: seq<Concert>
    var nextBandId: int
    var nextVenueId: int
    var nextConcertId: int

    /**
     * The AUTOINCREMENT invariant (concerts.py:11, 19, 27): ids start at 1, increase
     * in insertion order, and stay below the next id to hand out. So every row is
     * the one its id finds, and the next id to hand out finds nothing.
     */
    ghost predicate Valid()
      reads this
      ensures Valid() ==> forall i :: 0 <= i < |bands| ==> FindBand(bands, bands[i].id) == Some(bands[i])
      ensures Valid() ==> forall i :: 0 <= i < |venues| ==> FindVenue(venues, venues[i].id) == Some(venues[i])
      ensures Valid() ==> forall i :: 0 <= i < |concerts| ==> FindFirst(concerts, ConcertKey, concerts[i].id) == Some(concerts[i])
      ensures Valid() ==> FindBand(bands, nextBandId).None? && FindVenue(venues, nextVenueId).None?
      ensures Valid() ==> FindFirst(concerts, ConcertKey, nextConcertId).None?
    {
      FindFirstEveryRow(bands, BandKey);
      FindFirstEveryRow(venues, VenueKey);
      FindFirstEveryRow(concerts, ConcertKey);
      && KeysIncrease(bands, BandKey) && KeysIncrease(venues, VenueKey) && KeysIncrease(concerts, ConcertKey)
      && 1 <= nextBandId && 1 <= nextVenueId && 1 <= nextConcertId
      && (forall i :: 0 <= i < |bands| ==> 1 <= bands[i].id < nextBandId)
      && (forall i :: 0 <= i < |venues| ==> 1 <= venues[i].id < nextVenueId)
      && (forall i :: 0 <= i < |concerts| ==> 1 <= concerts[i].id < nextConcertId)
    }

    /** `create_tables()` on a fresh database: three empty tables. */
    constructor ()
      ensures Valid()
      ensures bands == [] && venues == [] && concerts == []
      ensures nextBandId == 1 && nextVenueId == 1 && nextConcertId == 1
    {
      bands, venues, concerts := [], [], [];
      nextBandId, nextVenueId, nextConcertId := 1, 1, 1;
    }

    /**
     * `add_band(name, hometown)`: one new row with the given fields and an id
     * larger than every id already in `bands`; the other tables are untouched.
     */
    method AddBand(name: string, hometown: string)
      requires Valid()
      modifies this
      ensures Valid()
      ensures bands == old(bands) + [Band(old(nextBandId), name, hometown)]
      ensures forall i :: 0 <= i < |old(bands)| ==> old(bands)[i].id < old(nextBandId)
      ensures FindBand(bands, old(nextBandId)) == Some(Band(old(nextBandId), name, hometown))
      ensures forall id :: id != old(nextBandId) ==> FindBand(bands, id) == FindBand(old(bands), id)
      ensures nextBandId == old(nextBandId) + 1
      ensures venues == old(venues) && concerts == old(concerts)
      ensures nextVenueId == old(nextVenueId) && nextConcertId == old(nextConcertId)
    {
      var b := Band(nextBandId, name, hometown);
      forall id ensures FindBand(bands + [b], id) == if id == b.id then Some(b) else FindBand(bands, id) {
        FindFirstAppend(bands, BandKey, b, id);
      }
      bands := bands + [b];
      nextBandId := nextBandId + 1;
    }

    /**
     * `add_venue(title, city)`: one new row with the given fields and an id
     * larger than every id already in `venues`; the other tables are untouched.
     */
    method AddVenue(title: string, city: string)
      requires Valid()
      modifies this
      ensures Valid()
      ensures venues == old(venues) + [Venue(old(nextVenueId), title, city)]
      ensures forall i :: 0 <= i < |old(venues)| ==> old(venues)[i].id < old(nextVenueId)
      ensures FindVenue(venues, old(nextVenueId)) == Some(Venue(old(nextVenueId), title, city))
      ensures forall id :: id != old(nextVenueId) ==> FindVenue(venues, id) == FindVenue(old(venues), id)
      ensures nextVenueId == old(nextVenueId) + 1
      ensures bands == old(bands) && concerts == old(concerts)
      ensures nextBandId == old(nextBandId) && nextConcertId == old(nextConcertId)
    {
      var v := Venue(nextVenueId, title, city);
      forall id ensures FindVenue(venues + [v], id) == if id == v.id then Some(v) else FindVenue(venues, id) {
        FindFirstAppend(venues, VenueKey, v, id);
      }
      venues := venues + [v];
      nextVenueId := nextVenueId + 1;
    }

    /**
     * `add_concert(band_id, venue_id, date)`: one new row linking the given ids,
     * whether or not they name existing rows, with an id larger than every id
     * already in `concerts`; the other tables are untouched.
     */
    method AddConcert(bandId: int, venueId: int, date: string)
      requires Valid()
      modifies this
      ensures Valid()
      ensures concerts == old(concerts) + [Concert(old(nextConcertId), bandId, venueId, date)]
      ensures forall i :: 0 <= i < |old(concerts)| ==> old(concerts)[i].id < old(nextConcertId)
      ensures nextConcertId == old(nextConcertId) + 1
      ensures bands == old(bands) && venues == old(venues)
      ensures nextBandId == old(nextBandId) && nextVenueId == old(nextVenueId)
    {
      concerts := concerts + [Concert(nextConcertId, bandId, venueId, date)];
      nextConcertId := nextConcertId + 1;
    }

    /**
     * `Band(bandId).play_in_venue(venue_title, date)`: when a venue has exactly
     * this title, add a concert of this band there on `date`; otherwise change
     * nothing. Only this band's `concerts()` grows, and by exactly one row.
     */
    method PlayInVenue(bandId: int, venueTitle: string, date: string)
      requires Valid()
      modifies this
      ensures Valid()
      ensures bands == old(bands) && venues == old(venues)
      ensures nextBandId == old(nextBandId) && nextVenueId == old(nextVenueId)
      ensures FindVenueByTitle(venues, venueTitle).None? ==>
        concerts == old(concerts) && nextConcertId == old(nextConcertId)
      ensures FindVenueByTitle(venues, venueTitle).Some? ==>
        concerts == old(concerts) + [Concert(old(nextConcertId), bandId, FindVenueByTitle(venues, venueTitle).value.id, date)] &&
        nextConcertId == old(nextConcertId) + 1
      ensures |BandConcerts(concerts, venues, bandId)| ==
        |BandConcerts(old(concerts), venues, bandId)| + if FindVenueByTitle(venues, venueTitle).Some? then 1 else 0
      ensures forall other :: other != bandId ==>
        BandConcerts(concerts, venues, other) == BandConcerts(old(concerts), venues, other)
    {
      var venue := FindVenueByTitle(venues, venueTitle);
      if venue.Some? {
        ghost var before := concerts;
        var c := Concert(nextConcertId, bandId, venue.value.id, date);
        AddConcert(bandId, venue.value.id, date);
        assert HasVenue(c, venues) by {
          var j :| 0 <= j < |venues| && venues[j] == venue.value;
        }
        forall other ensures BandConcerts(concerts, venues, other) ==
          BandConcerts(before, venues, other) +
          (if c.bandId == other && HasVenue(c, venues) then [RowAt(c, FindVenue(venues, c.venueId).value)] else [])
        {
          BandConcertsAppend(before, c, venues, other);
        }
      }
    }
  }
}
