/** The queries of a concert view, bound to one concert id. */
module ConcertView {
  import opened Wrappers
  import opened Schema
  import opened Ascii

  /**
   * The row that `fetchone()` takes from the join of a concert with its band and
   * its venue (concerts.py:156-163, 167-174): the band and venue of the first
   * concert with this id whose two references both name existing rows.
   */
  function ConcertLinks(concerts: seq<Concert>, bands: seq<Band>, venues: seq<Venue>, concertId: int): (r: Option<(Band, Venue)>)
    ensures r.None? <==>
      forall i :: 0 <= i < |concerts| && concerts[i].id == concertId ==> !(HasBand(concerts[i], bands) && HasVenue(concerts[i], venues))
    ensures r.Some? ==>
      exists i :: 0 <= i < |concerts| && concerts[i].id == concertId &&
        FindBand(bands, concerts[i].bandId) == Some(r.value.0) && FindVenue(venues, concerts[i].venueId) == Some(r.value.1)
  {
    if concerts == [] then None
    else
      var c := concerts[0];
      if c.id == concertId && HasBand(c, bands) && HasVenue(c, venues) then
        Some((FindBand(bands, c.bandId).value, FindVenue(venues, c.venueId).value))
      else
        var r := ConcertLinks(concerts[1..], bands, venues, concertId);
        assert r.Some? ==> exists i :: 1 <= i < |concerts| && concerts[i].id == concertId &&
                                       FindBand(bands, concerts[i].bandId) == Some(r.value.0) &&
                                       FindVenue(venues, concerts[i].venueId) == Some(r.value.1) by {
          if r.Some? {
            var i :| 0 <= i < |concerts[1..]| && concerts[1..][i].id == concertId &&
              FindBand(bands, concerts[1..][i].bandId) == Some(r.value.0) && FindVenue(venues, concerts[1..][i].venueId) == Some(r.value.1);
            assert concerts[i + 1] == concerts[1..][i];
          }
        }
        r
  }

  /** Appending a concert changes the row found for an id only when no earlier concert with that id was linked. */
  lemma {:induction false} ConcertLinksAppend(concerts: seq<Concert>, c: Concert, bands: seq<Band>, venues: seq<Venue>, concertId: int)
    ensures ConcertLinks(concerts + [c], bands, venues, concertId) ==
      if ConcertLinks(concerts, bands, venues, concertId).Some? then ConcertLinks(concerts, bands, venues, concertId)
      else if c.id == concertId && HasBand(c, bands) && HasVenue(c, venues) then
        Some((FindBand(bands, c.bandId).value, FindVenue(venues, c.venueId).value))
      else None
  {
    if concerts != [] {
      assert (concerts + [c])[1..] == concerts[1..] + [c];
      ConcertLinksAppend(concerts[1..], c, bands, venues, concertId);
    }
  }

  /** With increasing concert ids, the row found for a linked concert's own id is that concert's band and venue. */
  lemma ConcertLinksOfConcert(concerts: seq<Concert>, bands: seq<Band>, venues: seq<Venue>, c: Concert)
    requires KeysIncrease(concerts, ConcertKey)
    requires c in concerts && HasBand(c, bands) && HasVenue(c, venues)
    ensures ConcertLinks(concerts, bands, venues, c.id) == Some((FindBand(bands, c.bandId).value, FindVenue(venues, c.venueId).value))
  {
    var j :| 0 <= j < |concerts| && concerts[j] == c;
    var r := ConcertLinks(concerts, bands, venues, c.id);
    var i :| 0 <= i < |concerts| && concerts[i].id == c.id &&
      FindBand(bands, concerts[i].bandId) == Some(r.value.0) && FindVenue(venues, concerts[i].venueId) == Some(r.value.1);
    assert i == j;
  }

  /**
   * `Concert.hometown_show()`: whether the band's hometown equals the venue's city
   * ignoring case. `None` is the case where no joined row exists and unpacking the
   * `None` that `fetchone()` returns raises an error.
   */
  function HometownShow(concerts: seq<Concert>, bands: seq<Band>, venues: seq<Venue>, concertId: int): (r: Option<bool>)
    ensures r.None? <==>
      forall i :: 0 <= i < |concerts| && concerts[i].id == concertId ==> !(HasBand(concerts[i], bands) && HasVenue(concerts[i], venues))
    ensures r.Some? ==>
      exists i :: 0 <= i < |concerts| && concerts[i].id == concertId && HasBand(concerts[i], bands) && HasVenue(concerts[i], venues) &&
        r.value == SameIgnoringCase(FindBand(bands, concerts[i].bandId).value.hometown, FindVenue(venues, concerts[i].venueId).value.city)
  {
    match ConcertLinks(concerts, bands, venues, concertId)
    case None => None
    case Some((b, v)) => Some(SameIgnoringCase(b.hometown, v.city))
  }

  /**
   * The greeting of concerts.py:93 and 175: the city, the band's name and its
   * hometown set between fixed texts that take 35 characters in all.
   */
  function Greeting(city: string, name: string, hometown: string): (g: string)
    ensures |g| == |city| + |name| + |hometown| + 35
  {
    "Hello " + city + "!!!!! We are " + name + " and we're from " + hometown
  }

  /** Where each field sits inside the greeting, so that each can be read back at a position fixed by the lengths before it. */
  lemma GreetingLayout(city: string, name: string, hometown: string)
    ensures var g := Greeting(city, name, hometown);
      g[..6] == "Hello " && g[6..6 + |city|] == city &&
      g[6 + |city|..19 + |city|] == "!!!!! We are " &&
      g[19 + |city|..19 + |city| + |name|] == name &&
      g[19 + |city| + |name|..35 + |city| + |name|] == " and we're from " &&
      g[35 + |city| + |name|..] == hometown
  {
  }

  /**
   * `Concert.introduction()`: the greeting built from the linked venue's city and the
   * linked band's name and hometown; `None` where the unpacking raises.
   */
  function Introduction(concerts: seq<Concert>, bands: seq<Band>, venues: seq<Venue>, concertId: int): (r: Option<string>)
    ensures r.None? <==>
      forall i :: 0 <= i < |concerts| && concerts[i].id == concertId ==> !(HasBand(concerts[i], bands) && HasVenue(concerts[i], venues))
    ensures r.Some? ==>
      exists i :: 0 <= i < |concerts| && concerts[i].id == concertId && HasBand(concerts[i], bands) && HasVenue(concerts[i], venues) &&
        r.value == Greeting(FindVenue(venues, concerts[i].venueId).value.city,
                            FindBand(bands, concerts[i].bandId).value.name,
                            FindBand(bands, concerts[i].bandId).value.hometown)
  {
    match ConcertLinks(concerts, bands, venues, concertId)
    case None => None
    case Some((b, v)) => Some(Greeting(v.city, b.name, b.hometown))
  }

  /** Appending a concert changes the introduction for an id only when no earlier concert with that id was linked. */
  lemma IntroductionAppend(concerts: seq<Concert>, c: Concert, bands: seq<Band>, venues: seq<Venue>, concertId: int)
    ensures Introduction(concerts + [c], bands, venues, concertId) ==
      if Introduction(concerts, bands, venues, concertId).Some? then Introduction(concerts, bands, venues, concertId)
      else if c.id == concertId && HasBand(c, bands) && HasVenue(c, venues) then
        Some(Greeting(FindVenue(venues, c.venueId).value.city, FindBand(bands, c.bandId).value.name, FindBand(bands, c.bandId).value.hometown))
      else None
  {
    ConcertLinksAppend(concerts, c, bands, venues, concertId);
  }

  /** The hometown check ignores case and is symmetric in the band's hometown and the venue's city. */
  lemma HometownShowIgnoresCase(concerts: seq<Concert>, bands: seq<Band>, venues: seq<Venue>, c: Concert)
    requires KeysIncrease(concerts, ConcertKey)
    requires c in concerts && HasBand(c, bands) && HasVenue(c, venues)
    ensures var b, v := FindBand(bands, c.bandId).value, FindVenue(venues, c.venueId).value;
      HometownShow(concerts, bands, venues, c.id) == Some(SameIgnoringCase(v.city, b.hometown)) &&
      (b.hometown == Upper(v.city) ==> HometownShow(concerts, bands, venues, c.id) == Some(true))
  {
    ConcertLinksOfConcert(concerts, bands, venues, c);
    var b, v := FindBand(bands, c.bandId).value, FindVenue(venues, c.venueId).value;
    SameIgnoringCaseUpper(v.city);
  }

  /** The greeting of the example session, written out. */
  lemma GreetingExample()
    ensures Greeting("New York", "The Beatles", "Liverpool") == "Hello New York!!!!! We are The Beatles and we're from Liverpool"
  {
    assert "Hello " + "New York" == "Hello New York";
    assert "Hello New York" + "!!!!! We are " == "Hello New York!!!!! We are ";
    assert "Hello New York!!!!! We are " + "The Beatles" == "Hello New York!!!!! We are The Beatles";
    assert "Hello New York!!!!! We are The Beatles" + " and we're from "
        == "Hello New York!!!!! We are The Beatles and we're from ";
    assert "Hello New York!!!!! We are The Beatles and we're from " + "Liverpool"
        == "Hello New York!!!!! We are The Beatles and we're from Liverpool";
  }

  /** In the catalog of the example session each concert is joined with the band and the venue of the same position. */
  lemma ExampleLinks(bands: seq<Band>, venues: seq<Venue>, concerts: seq<Concert>)
    requires bands == [Band(1, "The Beatles", "Liverpool"), Band(2, "Led Zeppelin", "London")]
    requires venues == [Venue(1, "Madison Square Garden", "New York"), Venue(2, "The O2", "London")]
    requires concerts == [Concert(1, 1, 1, "2023-10-01"), Concert(2, 2, 2, "2023-11-15")]
    ensures ConcertLinks(concerts, bands, venues, 1) == Some((bands[0], venues[0]))
    ensures ConcertLinks(concerts, bands, venues, 2) == Some((bands[1], venues[1]))
  {
    assert FindBand(bands, 1) == Some(bands[0]);
    assert FindVenue(venues, 1) == Some(venues[0]);
    assert bands[1..][0] == bands[1] && venues[1..][0] == venues[1];
    assert FindBand(bands, 2) == Some(bands[1]);
    assert FindVenue(venues, 2) == Some(venues[1]);
    ConcertLinksOfConcert(concerts, bands, venues, concerts[0]);
    ConcertLinksOfConcert(concerts, bands, venues, concerts[1]);
  }

  /**
   * The catalog of the example session (concerts.py:180-187): two bands, two
   * venues and a concert for each. Concert 1 by the Liverpool band in New York is
   * introduced with the written-out greeting and is not a hometown show
   * (concerts.py:190-192); concert 2 by the London band at the London venue is one.
   */
  lemma IntroductionExample(bands: seq<Band>, venues: seq<Venue>, concerts: seq<Concert>)
    requires bands == [Band(1, "The Beatles", "Liverpool"), Band(2, "Led Zeppelin", "London")]
    requires venues == [Venue(1, "Madison Square Garden", "New York"), Venue(2, "The O2", "London")]
    requires concerts == [Concert(1, 1, 1, "2023-10-01"), Concert(2, 2, 2, "2023-11-15")]
    ensures Introduction(concerts, bands, venues, 1) == Some("Hello New York!!!!! We are The Beatles and we're from Liverpool")
    ensures HometownShow(concerts, bands, venues, 1) == Some(false)
    ensures HometownShow(concerts, bands, venues, 2) == Some(true)
  {
    ExampleLinks(bands, venues, concerts);
    GreetingExample();
    assert Lower(bands[0].hometown)[0] == 'l' && Lower(venues[0].city)[0] == 'n';
    assert SameIgnoringCase(bands[1].hometown, venues[1].city);
  }

  /** "LIVERPOOL" at a venue in "liverpool" is a hometown show; in "London" it is not. */
  lemma HometownShowExample(c: Concert, b: Band, v: Venue, w: Venue)
    requires c == Concert(7, 3, 5, "2024-01-01") && b == Band(3, "The Beatles", "LIVERPOOL")
    requires v == Venue(5, "Anfield", "liverpool") && w == Venue(5, "The O2", "London")
    ensures HometownShow([c], [b], [v], 7) == Some(true)
    ensures HometownShow([c], [b], [w], 7) == Some(false)
  {
    assert Upper(v.city) == b.hometown;
    HometownShowIgnoresCase([c], [b], [v], c);
    ConcertLinksOfConcert([c], [b], [w], c);
    assert |Lower(b.hometown)| != |Lower(w.city)|;
  }
}
