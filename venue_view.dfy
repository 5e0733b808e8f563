/** The queries of a venue view, bound to one venue id. */
module VenueView {
  import opened Wrappers
  import opened Schema
  import opened BandView

  /** A row of `Venue.concerts()` (concerts.py:113): the concert's id, its band's name and its date. */
  datatype VenueConcertRow = VenueConcertRow(concertId: int, bandName: string, date: string)

  /** A row of `Venue.bands()` (concerts.py:122): a band's id and name. */
  datatype BandRef = BandRef(bandId: int, name: string)

  /** The row `Venue.concert_on()` returns (concerts.py:131): the concert's id and its band's name. */
  datatype ConcertRef = ConcertRef(concertId: int, bandName: string)

  /** The concerts at this venue, in concert order: the filter on the venue id that the per-venue count applies (concerts.py:144). */
  function AtVenue(concerts: seq<Concert>, venueId: int): (r: seq<Concert>)
    ensures |r| <= |concerts|
    ensures forall c :: c in r <==> c in concerts && c.venueId == venueId
  {
    if concerts == [] then []
    else
      var n := |concerts| - 1;
      AtVenue(concerts[..n], venueId) + (if concerts[n].venueId == venueId then [concerts[n]] else [])
  }

  /** The concert is at this venue and joins with an existing band. */
  predicate PlayedBy(c: Concert, bands: seq<Band>, venueId: int) {
    c.venueId == venueId && HasBand(c, bands)
  }

  /**
   * `Venue.concerts()` (concerts.py:111-118): one row per concert at this venue
   * whose band id names an existing band, in concert order.
   */
  function VenueConcerts(concerts: seq<Concert>, bands: seq<Band>, venueId: int): (r: seq<VenueConcertRow>)
    ensures |r| <= |concerts|
    ensures forall row :: row in r ==>
      exists i :: 0 <= i < |concerts| && PlayedBy(concerts[i], bands, venueId) &&
                  row == VenueConcertRow(concerts[i].id, FindBand(bands, concerts[i].bandId).value.name, concerts[i].date)
    ensures forall i :: 0 <= i < |concerts| && PlayedBy(concerts[i], bands, venueId) ==>
      VenueConcertRow(concerts[i].id, FindBand(bands, concerts[i].bandId).value.name, concerts[i].date) in r
  {
    if concerts == [] then []
    else
      var n := |concerts| - 1;
      var c := concerts[n];
      var r := VenueConcerts(concerts[..n], bands, venueId);
      assert forall i :: 0 <= i < n ==> concerts[..n][i] == concerts[i];
      r + (if PlayedBy(c, bands, venueId) then [VenueConcertRow(c.id, FindBand(bands, c.bandId).value.name, c.date)] else [])
  }

  /** The concert id of a row, the key that orders `Venue.concerts()`. */
  function VenueRowConcertId(row: VenueConcertRow): int { row.concertId }

  /** Adding a concert adds at most one row, at the end: the one for that concert. */
  lemma VenueConcertsAppend(concerts: seq<Concert>, c: Concert, bands: seq<Band>, venueId: int)
    ensures VenueConcerts(concerts + [c], bands, venueId) ==
      VenueConcerts(concerts, bands, venueId) +
      (if PlayedBy(c, bands, venueId) then [VenueConcertRow(c.id, FindBand(bands, c.bandId).value.name, c.date)] else [])
  {
    assert (concerts + [c])[..|concerts|] == concerts;
  }

  /** Every row's concert id is below any bound that all concert ids are below. */
  lemma VenueConcertsBelow(concerts: seq<Concert>, bands: seq<Band>, venueId: int, bound: int)
    requires forall i :: 0 <= i < |concerts| ==> concerts[i].id < bound
    ensures forall k :: 0 <= k < |VenueConcerts(concerts, bands, venueId)| ==> VenueConcerts(concerts, bands, venueId)[k].concertId < bound
  {
    var r := VenueConcerts(concerts, bands, venueId);
    forall k | 0 <= k < |r| ensures r[k].concertId < bound {
      assert r[k] in r;
    }
  }

  /**
   * When concert ids increase, the rows come in increasing concert id: insertion
   * order, and each joinable concert at this venue gives exactly one row.
   */
  lemma {:induction false} VenueConcertsInOrder(concerts: seq<Concert>, bands: seq<Band>, venueId: int)
    requires KeysIncrease(concerts, ConcertKey)
    ensures KeysIncrease(VenueConcerts(concerts, bands, venueId), VenueRowConcertId)
  {
    if concerts != [] {
      var n := |concerts| - 1;
      var init, c := concerts[..n], concerts[n];
      assert concerts == init + [c];
      KeysIncreaseSplit(init, c, ConcertKey);
      VenueConcertsInOrder(init, bands, venueId);
      VenueConcertsAppend(init, c, bands, venueId);
      assert forall i :: 0 <= i < n ==> init[i].id < c.id by {
        forall i | 0 <= i < n ensures init[i].id < c.id {
          assert ConcertKey(init[i]) < ConcertKey(c);
        }
      }
      VenueConcertsBelow(init, bands, venueId, c.id);
      var r0 := VenueConcerts(init, bands, venueId);
      var r := VenueConcerts(concerts, bands, venueId);
      forall j, k | 0 <= j < k < |r| ensures VenueRowConcertId(r[j]) < VenueRowConcertId(r[k]) {
        assert r[j] == r0[j];
        if k < |r0| {
          assert r[k] == r0[k];
        }
      }
    }
  }

  predicate NoDuplicates<T(==)>(s: seq<T>) {
    forall j, k :: 0 <= j < k < |s| ==> s[j] != s[k]
  }

  /** DISTINCT (concerts.py:122): each value once, at its first occurrence. */
  function Distinct<T(==, !new)>(s: seq<T>): (r: seq<T>)
    ensures NoDuplicates(r)
    ensures forall x :: x in r <==> x in s
  {
    if s == [] then []
    else
      var n := |s| - 1;
      var r := Distinct(s[..n]);
      if s[n] in r then r else r + [s[n]]
  }

  /** The band rows paired with this venue's concerts behind `Venue.bands()`, before DISTINCT. */
  function BandsAt(concerts: seq<Concert>, bands: seq<Band>, venueId: int): (r: seq<BandRef>)
    ensures forall p :: p in r ==>
      exists i :: 0 <= i < |concerts| && PlayedBy(concerts[i], bands, venueId) &&
                  p == BandRef(concerts[i].bandId, FindBand(bands, concerts[i].bandId).value.name)
    ensures forall i :: 0 <= i < |concerts| && PlayedBy(concerts[i], bands, venueId) ==>
      BandRef(concerts[i].bandId, FindBand(bands, concerts[i].bandId).value.name) in r
  {
    if concerts == [] then []
    else
      var n := |concerts| - 1;
      var c := concerts[n];
      var r := BandsAt(concerts[..n], bands, venueId);
      assert forall i :: 0 <= i < n ==> concerts[..n][i] == concerts[i];
      r + (if PlayedBy(c, bands, venueId) then [BandRef(c.bandId, FindBand(bands, c.bandId).value.name)] else [])
  }

  /**
   * `Venue.bands()`: each band that has played this venue once, as `(id, name)`;
   * a band the concerts name but that does not exist is not there.
   */
  function VenueBands(concerts: seq<Concert>, bands: seq<Band>, venueId: int): (r: seq<BandRef>)
    ensures NoDuplicates(r)
    ensures forall p :: p in r <==>
      exists i :: 0 <= i < |concerts| && PlayedBy(concerts[i], bands, venueId) &&
                  p == BandRef(concerts[i].bandId, FindBand(bands, concerts[i].bandId).value.name)
  {
    Distinct(BandsAt(concerts, bands, venueId))
  }

  /**
   * With band ids increasing, `Venue.bands()` holds exactly the existing bands
   * with at least one concert here, each as its own `(id, name)`.
   */
  lemma VenueBandsExactly(concerts: seq<Concert>, bands: seq<Band>, venueId: int)
    requires KeysIncrease(bands, BandKey)
    ensures forall p :: p in VenueBands(concerts, bands, venueId) ==> exists b :: b in bands && p == BandRef(b.id, b.name)
    ensures forall b :: b in bands ==>
      (BandRef(b.id, b.name) in VenueBands(concerts, bands, venueId) <==>
       exists i :: 0 <= i < |concerts| && concerts[i].venueId == venueId && concerts[i].bandId == b.id)
  {
    var r := VenueBands(concerts, bands, venueId);
    forall p | p in r ensures exists b :: b in bands && p == BandRef(b.id, b.name) {
      var i :| 0 <= i < |concerts| && PlayedBy(concerts[i], bands, venueId) &&
               p == BandRef(concerts[i].bandId, FindBand(bands, concerts[i].bandId).value.name);
      assert FindBand(bands, concerts[i].bandId).value in bands;
    }
    forall b | b in bands
      ensures BandRef(b.id, b.name) in r <==>
        exists i :: 0 <= i < |concerts| && concerts[i].venueId == venueId && concerts[i].bandId == b.id
    {
      FindFirstUnique(bands, BandKey, b);
      if BandRef(b.id, b.name) in r {
        var i :| 0 <= i < |concerts| && PlayedBy(concerts[i], bands, venueId) &&
                 BandRef(b.id, b.name) == BandRef(concerts[i].bandId, FindBand(bands, concerts[i].bandId).value.name);
        assert concerts[i].bandId == b.id;
      }
      if exists i :: 0 <= i < |concerts| && concerts[i].venueId == venueId && concerts[i].bandId == b.id {
        var i :| 0 <= i < |concerts| && concerts[i].venueId == venueId && concerts[i].bandId == b.id;
        assert PlayedBy(concerts[i], bands, venueId);
      }
    }
  }

  /** The concert is at this venue on exactly `date`, and its band exists. */
  predicate PlayedOn(c: Concert, bands: seq<Band>, venueId: int, date: string) {
    PlayedBy(c, bands, venueId) && c.date == date
  }

  /**
   * `Venue.concert_on(date)` (concerts.py:129-137): with LIMIT 1, the first concert
   * at this venue on exactly that date whose band exists; nothing when there is none.
   */
  function ConcertOn(concerts: seq<Concert>, bands: seq<Band>, venueId: int, date: string): (r: Option<ConcertRef>)
    ensures r.None? <==> forall i :: 0 <= i < |concerts| ==> !PlayedOn(concerts[i], bands, venueId, date)
    ensures r.Some? ==>
      exists i :: 0 <= i < |concerts| && PlayedOn(concerts[i], bands, venueId, date) &&
        r.value == ConcertRef(concerts[i].id, FindBand(bands, concerts[i].bandId).value.name) &&
        forall j :: 0 <= j < i ==> !PlayedOn(concerts[j], bands, venueId, date)
  {
    if concerts == [] then None
    else
      var n := |concerts| - 1;
      var c := concerts[n];
      var r := ConcertOn(concerts[..n], bands, venueId, date);
      assert forall i :: 0 <= i < n ==> concerts[..n][i] == concerts[i];
      if r.Some? then r
      else if PlayedOn(c, bands, venueId, date) then Some(ConcertRef(c.id, FindBand(bands, c.bandId).value.name))
      else None
  }

  /** The first row of a `Venue.concerts()` result with exactly this date, as `(id, band name)`. */
  function FirstOn(rows: seq<VenueConcertRow>, date: string): (r: Option<ConcertRef>)
    ensures r.None? <==> forall k :: 0 <= k < |rows| ==> rows[k].date != date
    ensures r.Some? ==>
      exists k :: 0 <= k < |rows| && rows[k].date == date && r.value == ConcertRef(rows[k].concertId, rows[k].bandName) &&
        forall j :: 0 <= j < k ==> rows[j].date != date
  {
    if rows == [] then None
    else if rows[0].date == date then Some(ConcertRef(rows[0].concertId, rows[0].bandName))
    else
      var r := FirstOn(rows[1..], date);
      assert forall k :: 1 <= k < |rows| ==> rows[1..][k - 1] == rows[k];
      r
  }

  /** The first row with a date in a concatenation comes from the first part whenever that part has one. */
  lemma {:induction false} FirstOnAppend(rows: seq<VenueConcertRow>, more: seq<VenueConcertRow>, date: string)
    ensures FirstOn(rows + more, date) == if FirstOn(rows, date).Some? then FirstOn(rows, date) else FirstOn(more, date)
  {
    if rows != [] {
      assert (rows + more)[1..] == rows[1..] + more;
      FirstOnAppend(rows[1..], more, date);
    } else {
      assert rows + more == more;
    }
  }

  /** `concert_on(date)` is the first row of `concerts()` on that date. */
  lemma {:induction false} ConcertOnIsFirstRow(concerts: seq<Concert>, bands: seq<Band>, venueId: int, date: string)
    ensures ConcertOn(concerts, bands, venueId, date) == FirstOn(VenueConcerts(concerts, bands, venueId), date)
  {
    if concerts != [] {
      var n := |concerts| - 1;
      ConcertOnIsFirstRow(concerts[..n], bands, venueId, date);
      var c := concerts[n];
      FirstOnAppend(VenueConcerts(concerts[..n], bands, venueId),
        if PlayedBy(c, bands, venueId) then [VenueConcertRow(c.id, FindBand(bands, c.bandId).value.name, c.date)] else [],
        date);
    }
  }

  /**
   * `Venue.most_frequent_band()`: nothing when no concert here joins an existing
   * band; otherwise an existing band, its number of concerts here (at least one),
   * and no band has more concerts here.
   */
  function MostFrequentBand(concerts: seq<Concert>, bands: seq<Band>, venueId: int): (r: Option<Performances>)
    ensures r.None? <==> forall i :: 0 <= i < |concerts| ==> !PlayedBy(concerts[i], bands, venueId)
    ensures r.Some? ==>
      1 <= r.value.count == Performed(AtVenue(concerts, venueId), r.value.bandId) &&
      (exists i :: 0 <= i < |bands| && bands[i].id == r.value.bandId && bands[i].name == r.value.name) &&
      forall i :: 0 <= i < |bands| ==> Performed(AtVenue(concerts, venueId), bands[i].id) <= r.value.count
  {
    var here := AtVenue(concerts, venueId);
    NoPerformances(bands, here);
    assert (forall i :: 0 <= i < |here| ==> !HasBand(here[i], bands)) <==>
           (forall i :: 0 <= i < |concerts| ==> !PlayedBy(concerts[i], bands, venueId)) by {
      if exists i :: 0 <= i < |here| && HasBand(here[i], bands) {
        var i :| 0 <= i < |here| && HasBand(here[i], bands);
        assert here[i] in concerts;
      }
      if exists i :: 0 <= i < |concerts| && PlayedBy(concerts[i], bands, venueId) {
        var i :| 0 <= i < |concerts| && PlayedBy(concerts[i], bands, venueId);
        assert concerts[i] in here;
      }
    }
    TopBand(bands, here)
  }

  /** At a venue with two concerts by Led Zeppelin and one by The Beatles, Led Zeppelin wins with two. */
  lemma MostFrequentBandExample(bands: seq<Band>, concerts: seq<Concert>)
    requires bands == [Band(1, "The Beatles", "Liverpool"), Band(2, "Led Zeppelin", "London")]
    requires concerts == [Concert(1, 2, 1, "2023-10-01"), Concert(2, 1, 1, "2023-11-15"), Concert(3, 2, 1, "2024-01-05")]
    ensures MostFrequentBand(concerts, bands, 1) == Some(Performances(2, "Led Zeppelin", 2))
  {
    var c1, c2, c3 := concerts[0], concerts[1], concerts[2];
    assert [c1][..0] == [];
    assert [c1, c2][..1] == [c1];
    assert concerts[..2] == [c1, c2];
    assert AtVenue([c1], 1) == [c1];
    assert AtVenue([c1, c2], 1) == [c1, c2];
    assert AtVenue(concerts, 1) == concerts;
    assert Performed([c1], 1) == 0 && Performed([c1], 2) == 1;
    assert Performed([c1, c2], 1) == 1 && Performed([c1, c2], 2) == 1;
    assert Performed(concerts, 1) == 1 && Performed(concerts, 2) == 2;
    assert bands[1..][0] == bands[1];
    assert FindBand(bands, 2).Some?;
    assert PlayedBy(c1, bands, 1);
  }
}
