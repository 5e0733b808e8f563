/** The queries of a band view, bound to one band id, and the catalog-wide `most_performances`. */
module BandView {
  import opened Wrappers
  import opened Schema
  import opened ConcertView

  /** A row of `Band.concerts()` (concerts.py:60): the concert's id, its venue's title and city, and its date. */
  datatype BandConcertRow = BandConcertRow(concertId: int, title: string, city: string, date: string)

  /** A row of the "most" queries (concerts.py:98, 141): a band's id and name and its number of concerts. */
  datatype Performances = Performances(bandId: int, name: string, count: nat)

  /** The row `Band.concerts()` reports for a concert and the venue it is paired with. */
  function RowAt(c: Concert, v: Venue): BandConcertRow {
    BandConcertRow(c.id, v.title, v.city, c.date)
  }

  /**
   * `Band.concerts()` (concerts.py:58-65): one row per concert of this band whose
   * venue id names an existing venue, in concert order; a concert whose venue is
   * missing drops out of the inner join.
   */
  function BandConcerts(concerts: seq<Concert>, venues: seq<Venue>, bandId: int): (r: seq<BandConcertRow>)
    ensures |r| <= |concerts|
    ensures forall row :: row in r ==>
      exists i :: 0 <= i < |concerts| && concerts[i].bandId == bandId && HasVenue(concerts[i], venues) &&
                  row == RowAt(concerts[i], FindVenue(venues, concerts[i].venueId).value)
    ensures forall i :: 0 <= i < |concerts| && concerts[i].bandId == bandId && HasVenue(concerts[i], venues) ==>
      RowAt(concerts[i], FindVenue(venues, concerts[i].venueId).value) in r
  {
    if concerts == [] then []
    else
      var n := |concerts| - 1;
      var c := concerts[n];
      var r := BandConcerts(concerts[..n], venues, bandId);
      assert forall i :: 0 <= i < n ==> concerts[..n][i] == concerts[i];
      r + (if c.bandId == bandId && HasVenue(c, venues) then [RowAt(c, FindVenue(venues, c.venueId).value)] else [])
  }

  /** Adding a concert adds at most one row, at the end: the one for that concert. */
  lemma BandConcertsAppend(concerts: seq<Concert>, c: Concert, venues: seq<Venue>, bandId: int)
    ensures BandConcerts(concerts + [c], venues, bandId) ==
      BandConcerts(concerts, venues, bandId) +
      (if c.bandId == bandId && HasVenue(c, venues) then [RowAt(c, FindVenue(venues, c.venueId).value)] else [])
  {
    assert (concerts + [c])[..|concerts|] == concerts;
  }

  /** The concert id of a row, the key that orders `Band.concerts()`. */
  function RowConcertId(row: BandConcertRow): int { row.concertId }

  /** When concert ids increase, the rows come in increasing concert id: insertion order, and no concert twice. */
  lemma {:induction false} BandConcertsInOrder(concerts: seq<Concert>, venues: seq<Venue>, bandId: int)
    requires KeysIncrease(concerts, ConcertKey)
    ensures KeysIncrease(BandConcerts(concerts, venues, bandId), RowConcertId)
  {
    if concerts != [] {
      var n := |concerts| - 1;
      var init := concerts[..n];
      BandConcertsInOrder(init, venues, bandId);
      var r0 := BandConcerts(init, venues, bandId);
      var r := BandConcerts(concerts, venues, bandId);
      forall j, k | 0 <= j < k < |r| ensures RowConcertId(r[j]) < RowConcertId(r[k]) {
        assert r[j] == r0[j];
        if k < |r0| {
          assert r[k] == r0[k];
        } else {
          assert r[j] in r0;
          var i :| 0 <= i < n && init[i].bandId == bandId && HasVenue(init[i], venues) &&
                   r[j] == RowAt(init[i], FindVenue(venues, init[i].venueId).value);
          assert init[i] == concerts[i];
          assert r[k].concertId == concerts[n].id;
          assert r[j].concertId == concerts[i].id;
          assert concerts[i].id < concerts[n].id;
        }
      }
    }
  }

  /**
   * `Band.venues()` (concerts.py:67-74): the venue rows paired with this band's
   * concerts by the same join as `concerts()`; a venue played several times
   * appears once per concert.
   */
  function BandVenues(concerts: seq<Concert>, venues: seq<Venue>, bandId: int): (r: seq<Venue>)
    ensures forall v :: v in r ==>
      v in venues && exists i :: 0 <= i < |concerts| && concerts[i].bandId == bandId && FindVenue(venues, concerts[i].venueId) == Some(v)
    ensures forall i :: 0 <= i < |concerts| && concerts[i].bandId == bandId && HasVenue(concerts[i], venues) ==>
      FindVenue(venues, concerts[i].venueId).value in r
  {
    if concerts == [] then []
    else
      var n := |concerts| - 1;
      var c := concerts[n];
      var r := BandVenues(concerts[..n], venues, bandId);
      assert forall i :: 0 <= i < n ==> concerts[..n][i] == concerts[i];
      r + (if c.bandId == bandId && HasVenue(c, venues) then [FindVenue(venues, c.venueId).value] else [])
  }

  /** Adding a concert adds at most one venue, at the end: the one that concert joins with. */
  lemma BandVenuesAppend(concerts: seq<Concert>, c: Concert, venues: seq<Venue>, bandId: int)
    ensures BandVenues(concerts + [c], venues, bandId) ==
      BandVenues(concerts, venues, bandId) +
      (if c.bandId == bandId && HasVenue(c, venues) then [FindVenue(venues, c.venueId).value] else [])
  {
    assert (concerts + [c])[..|concerts|] == concerts;
  }

  /**
   * The join behind both `Band.concerts()` and `Band.venues()`: each concert of this
   * band whose venue exists, paired with that venue, in concert order.
   */
  function BandJoin(concerts: seq<Concert>, venues: seq<Venue>, bandId: int): (r: seq<(Concert, Venue)>)
    ensures forall k :: 0 <= k < |r| ==>
      r[k].0 in concerts && r[k].0.bandId == bandId && FindVenue(venues, r[k].0.venueId) == Some(r[k].1)
  {
    if concerts == [] then []
    else
      var n := |concerts| - 1;
      var c := concerts[n];
      var r := BandJoin(concerts[..n], venues, bandId);
      assert forall k :: 0 <= k < |r| ==> r[k].0 in concerts;
      r + (if c.bandId == bandId && HasVenue(c, venues) then [(c, FindVenue(venues, c.venueId).value)] else [])
  }

  /** The venues and the rows are, position by position, the venue and the row of the join. */
  predicate Zipped(vs: seq<Venue>, rows: seq<BandConcertRow>, join: seq<(Concert, Venue)>) {
    |vs| == |join| && |rows| == |join| &&
    forall k :: 0 <= k < |join| ==> vs[k] == join[k].1 && rows[k] == RowAt(join[k].0, join[k].1)
  }

  /** Extending the join by a pair, and the venues and rows by that pair's venue and row, keeps them zipped. */
  lemma ZippedAppend(vs: seq<Venue>, rows: seq<BandConcertRow>, join: seq<(Concert, Venue)>, c: Concert, v: Venue, joins: bool)
    requires Zipped(vs, rows, join)
    ensures Zipped(vs + (if joins then [v] else []), rows + (if joins then [RowAt(c, v)] else []), join + (if joins then [(c, v)] else []))
  {
    if !joins {
      assert vs + [] == vs && rows + [] == rows && join + [] == join;
    }
  }

  /** Zipped venues and rows agree on title and city. */
  lemma ZippedTitles(vs: seq<Venue>, rows: seq<BandConcertRow>, join: seq<(Concert, Venue)>)
    requires Zipped(vs, rows, join)
    ensures forall k :: 0 <= k < |vs| ==> vs[k].title == rows[k].title && vs[k].city == rows[k].city
  {
  }

  /**
   * `venues()` runs alongside `concerts()`: both read the same join, position by
   * position. The k-th venue is the venue of the concert behind the k-th row, so
   * its title and city are that row's.
   */
  lemma {:induction false} BandVenuesMatchConcerts(concerts: seq<Concert>, venues: seq<Venue>, bandId: int)
    ensures Zipped(BandVenues(concerts, venues, bandId), BandConcerts(concerts, venues, bandId), BandJoin(concerts, venues, bandId))
    ensures var vs, rows := BandVenues(concerts, venues, bandId), BandConcerts(concerts, venues, bandId);
      forall k :: 0 <= k < |vs| ==> vs[k].title == rows[k].title && vs[k].city == rows[k].city
  {
    if concerts != [] {
      var n := |concerts| - 1;
      var init, c := concerts[..n], concerts[n];
      assert concerts == init + [c];
      BandVenuesMatchConcerts(init, venues, bandId);
      BandVenuesAppend(init, c, venues, bandId);
      BandConcertsAppend(init, c, venues, bandId);
      var joins := c.bandId == bandId && HasVenue(c, venues);
      var v := if HasVenue(c, venues) then FindVenue(venues, c.venueId).value else Venue(0, "", "");
      assert BandJoin(concerts, venues, bandId) == BandJoin(init, venues, bandId) + (if joins then [(c, v)] else []);
      ZippedAppend(BandVenues(init, venues, bandId), BandConcerts(init, venues, bandId), BandJoin(init, venues, bandId), c, v, joins);
    }
    ZippedTitles(BandVenues(concerts, venues, bandId), BandConcerts(concerts, venues, bandId), BandJoin(concerts, venues, bandId));
  }

  /**
   * `Band.all_introductions()` (concerts.py:84-93): for each concert of this band
   * whose venue and band both exist, the greeting built from the venue's city and
   * the band's name and hometown; empty when the band itself does not exist.
   */
  function AllIntroductions(concerts: seq<Concert>, bands: seq<Band>, venues: seq<Venue>, bandId: int): (r: seq<string>)
    ensures FindBand(bands, bandId).None? ==> r == []
    ensures forall s :: s in r ==>
      exists i :: 0 <= i < |concerts| && concerts[i].bandId == bandId && HasBand(concerts[i], bands) && HasVenue(concerts[i], venues) &&
        s == Greeting(FindVenue(venues, concerts[i].venueId).value.city, FindBand(bands, bandId).value.name, FindBand(bands, bandId).value.hometown)
  {
    if concerts == [] then []
    else
      var n := |concerts| - 1;
      var c := concerts[n];
      var r := AllIntroductions(concerts[..n], bands, venues, bandId);
      assert forall i :: 0 <= i < n ==> concerts[..n][i] == concerts[i];
      r + (if c.bandId == bandId && HasBand(c, bands) && HasVenue(c, venues) then
             var b, v := FindBand(bands, c.bandId).value, FindVenue(venues, c.venueId).value;
             [Greeting(v.city, b.name, b.hometown)]
           else [])
  }

  /** Adding a concert adds at most one greeting, at the end: the one for that concert. */
  lemma AllIntroductionsAppend(concerts: seq<Concert>, c: Concert, bands: seq<Band>, venues: seq<Venue>, bandId: int)
    ensures AllIntroductions(concerts + [c], bands, venues, bandId) ==
      AllIntroductions(concerts, bands, venues, bandId) +
      (if c.bandId == bandId && HasBand(c, bands) && HasVenue(c, venues) then
         [Greeting(FindVenue(venues, c.venueId).value.city, FindBand(bands, c.bandId).value.name, FindBand(bands, c.bandId).value.hometown)]
       else [])
  {
    assert (concerts + [c])[..|concerts|] == concerts;
  }

  /** Each greeting is the introduction of the concert of the row at the same position. */
  predicate IntroductionsMatch(concerts: seq<Concert>, bands: seq<Band>, venues: seq<Venue>, texts: seq<string>, rows: seq<BandConcertRow>) {
    |texts| == |rows| &&
    forall k :: 0 <= k < |rows| ==> Introduction(concerts, bands, venues, rows[k].concertId) == Some(texts[k])
  }

  /** The inductive step of `AllIntroductionsMatchConcerts`: appending a concert whose id is new. */
  lemma IntroductionsMatchAppend(init: seq<Concert>, c: Concert, bands: seq<Band>, venues: seq<Venue>, bandId: int)
    requires forall i :: 0 <= i < |init| ==> init[i].id != c.id
    requires FindBand(bands, bandId).Some?
    requires IntroductionsMatch(init, bands, venues, AllIntroductions(init, bands, venues, bandId), BandConcerts(init, venues, bandId))
    ensures IntroductionsMatch(init + [c], bands, venues, AllIntroductions(init + [c], bands, venues, bandId), BandConcerts(init + [c], venues, bandId))
  {
    var texts0, rows0 := AllIntroductions(init, bands, venues, bandId), BandConcerts(init, venues, bandId);
    AllIntroductionsAppend(init, c, bands, venues, bandId);
    BandConcertsAppend(init, c, venues, bandId);
    var texts, rows := AllIntroductions(init + [c], bands, venues, bandId), BandConcerts(init + [c], venues, bandId);
    assert Introduction(init, bands, venues, c.id).None?;
    forall k | 0 <= k < |rows|
      ensures Introduction(init + [c], bands, venues, rows[k].concertId) == Some(texts[k])
    {
      IntroductionAppend(init, c, bands, venues, rows[k].concertId);
      if k < |rows0| {
        assert rows[k] == rows0[k] && texts[k] == texts0[k];
      }
    }
  }

  /**
   * For an existing band, `all_introductions()` has one greeting per row of
   * `concerts()`, and each is that concert's `introduction()`.
   */
  lemma {:induction false} AllIntroductionsMatchConcerts(concerts: seq<Concert>, bands: seq<Band>, venues: seq<Venue>, bandId: int)
    requires KeysIncrease(concerts, ConcertKey)
    requires FindBand(bands, bandId).Some?
    ensures var texts, rows := AllIntroductions(concerts, bands, venues, bandId), BandConcerts(concerts, venues, bandId);
      |texts| == |rows| &&
      forall k :: 0 <= k < |rows| ==> Introduction(concerts, bands, venues, rows[k].concertId) == Some(texts[k])
  {
    if concerts != [] {
      var n := |concerts| - 1;
      var init, c := concerts[..n], concerts[n];
      assert concerts == init + [c];
      KeysIncreaseSplit(init, c, ConcertKey);
      assert forall i :: 0 <= i < n ==> init[i].id != c.id by {
        forall i | 0 <= i < n ensures init[i].id != c.id {
          assert ConcertKey(init[i]) < ConcertKey(c);
        }
      }
      AllIntroductionsMatchConcerts(init, bands, venues, bandId);
      IntroductionsMatchAppend(init, c, bands, venues, bandId);
    }
  }

  /** The count the "most" queries compute for one band (concerts.py:98): the number of concerts naming `bandId`. */
  function Performed(concerts: seq<Concert>, bandId: int): (r: nat)
    ensures r <= |concerts|
    ensures r == 0 <==> forall i :: 0 <= i < |concerts| ==> concerts[i].bandId != bandId
  {
    if concerts == [] then 0
    else
      var n := |concerts| - 1;
      assert forall i :: 0 <= i < n ==> concerts[..n][i] == concerts[i];
      Performed(concerts[..n], bandId) + (if concerts[n].bandId == bandId then 1 else 0)
  }

  /**
   * The grouping of concerts.py:97-104: bands are grouped with their concerts,
   * ordered by count, and LIMIT 1 keeps the top one. The result is a band with the
   * largest positive count, or nothing when no band has a concert. Among tied
   * bands the earliest is taken.
   */
  function TopBand(bands: seq<Band>, concerts: seq<Concert>): (r: Option<Performances>)
    ensures r.None? <==> forall i :: 0 <= i < |bands| ==> Performed(concerts, bands[i].id) == 0
    ensures r.Some? ==>
      1 <= r.value.count == Performed(concerts, r.value.bandId) &&
      (exists i :: 0 <= i < |bands| && bands[i].id == r.value.bandId && bands[i].name == r.value.name) &&
      forall i :: 0 <= i < |bands| ==> Performed(concerts, bands[i].id) <= r.value.count
  {
    if bands == [] then None
    else
      var n := |bands| - 1;
      var b := bands[n];
      var count := Performed(concerts, b.id);
      var best := TopBand(bands[..n], concerts);
      assert forall i :: 0 <= i < n ==> bands[..n][i] == bands[i];
      if count == 0 then best
      else if best.None? || best.value.count < count then Some(Performances(b.id, b.name, count))
      else best
  }

  /** Some band has a concert exactly when some concert's `band_id` names an existing band. */
  lemma NoPerformances(bands: seq<Band>, concerts: seq<Concert>)
    ensures (forall i :: 0 <= i < |bands| ==> Performed(concerts, bands[i].id) == 0) <==>
            (forall i :: 0 <= i < |concerts| ==> !HasBand(concerts[i], bands))
  {
    if exists i :: 0 <= i < |concerts| && HasBand(concerts[i], bands) {
      var i :| 0 <= i < |concerts| && HasBand(concerts[i], bands);
      var b := FindBand(bands, concerts[i].bandId).value;
      var j :| 0 <= j < |bands| && bands[j] == b;
      assert Performed(concerts, bands[j].id) != 0;
    }
  }

  /**
   * `Band.most_performances()`: nothing when no concert joins an existing band;
   * otherwise an existing band, its concert count (at least one), and no band has
   * more concerts.
   */
  function MostPerformances(bands: seq<Band>, concerts: seq<Concert>): (r: Option<Performances>)
    ensures r.None? <==> forall i :: 0 <= i < |concerts| ==> !HasBand(concerts[i], bands)
    ensures r.Some? ==>
      1 <= r.value.count == Performed(concerts, r.value.bandId) &&
      (exists i :: 0 <= i < |bands| && bands[i].id == r.value.bandId && bands[i].name == r.value.name) &&
      forall i :: 0 <= i < |bands| ==> Performed(concerts, bands[i].id) <= r.value.count
  {
    NoPerformances(bands, concerts);
    TopBand(bands, concerts)
  }

  /** Three concerts by one band and one by another: the first band wins with three. */
  lemma MostPerformancesExample(bands: seq<Band>, concerts: seq<Concert>)
    requires bands == [Band(1, "The Beatles", "Liverpool"), Band(2, "Led Zeppelin", "London")]
    requires concerts == [Concert(1, 1, 1, "2023-10-01"), Concert(2, 2, 2, "2023-11-15"),
                          Concert(3, 1, 2, "2023-12-01"), Concert(4, 1, 1, "2024-01-05")]
    ensures MostPerformances(bands, concerts) == Some(Performances(1, "The Beatles", 3))
  {
    var c1, c2, c3, c4 := concerts[0], concerts[1], concerts[2], concerts[3];
    assert [c1][..0] == [];
    assert [c1, c2][..1] == [c1];
    assert [c1, c2, c3][..2] == [c1, c2];
    assert concerts[..3] == [c1, c2, c3];
    assert Performed([c1], 1) == 1 && Performed([c1], 2) == 0;
    assert Performed([c1, c2], 1) == 1 && Performed([c1, c2], 2) == 1;
    assert Performed([c1, c2, c3], 1) == 2 && Performed([c1, c2, c3], 2) == 1;
    assert Performed(concerts, 1) == 3 && Performed(concerts, 2) == 1;
    assert FindBand(bands, 1).Some?;
    assert HasBand(concerts[0], bands);
  }
}
