/**
 * The three tables of the catalog as sequences of rows in insertion order,
 * and the primary-key lookups that every join in the queries goes through.
 */
module Schema {
  import opened Wrappers

  /** A row of the bands table: id, name, hometown. */
  datatype Band = Band(id: int, name: string, hometown: string)

  /** A row of the venues table: id, title, city. */
  datatype Venue = Venue(id: int, title: string, city: string)

  /**
   * A row of the concerts table: id, the band's id, the venue's id, the date. The
   * two references are declared as foreign keys but not enforced: they may point
   * nowhere.
   */
  datatype Concert = Concert(id: int, bandId: int, venueId: int, date: string)

  function BandKey(b: Band): int { b.id }
  function VenueKey(v: Venue): int { v.id }
  function ConcertKey(c: Concert): int { c.id }

  /**
   * The keys strictly increase along the table. With AUTOINCREMENT and no deletes,
   * insertion order is increasing id order.
   */
  predicate KeysIncrease<T>(rows: seq<T>, key: T -> int) {
    forall i, j :: 0 <= i < j < |rows| ==> key(rows[i]) < key(rows[j])
  }

  /** The first row in table order whose key is `k`, if any. */
  function FindFirst<T, K(==)>(rows: seq<T>, key: T -> K, k: K): (r: Option<T>)
    ensures r.Some? ==> r.value in rows && key(r.value) == k
    ensures r.None? <==> forall i :: 0 <= i < |rows| ==> key(rows[i]) != k
  {
    if rows == [] then None
    else if key(rows[0]) == k then Some(rows[0])
    else FindFirst(rows[1..], key, k)
  }

  /** With increasing keys the lookup finds every row by its own key: it is the primary-key join. */
  lemma {:induction false} FindFirstUnique<T>(rows: seq<T>, key: T -> int, x: T)
    requires KeysIncrease(rows, key)
    requires x in rows
    ensures FindFirst(rows, key, key(x)) == Some(x)
  {
    if rows[0] != x {
      assert x in rows[1..];
      FindFirstUnique(rows[1..], key, x);
    }
  }

  /** Every row of a table with increasing keys is found by its own key. */
  lemma {:induction false} FindFirstEveryRow<T>(rows: seq<T>, key: T -> int)
    ensures KeysIncrease(rows, key) ==> forall i :: 0 <= i < |rows| ==> FindFirst(rows, key, key(rows[i])) == Some(rows[i])
  {
    if KeysIncrease(rows, key) {
      forall i | 0 <= i < |rows| ensures FindFirst(rows, key, key(rows[i])) == Some(rows[i]) {
        FindFirstUnique(rows, key, rows[i]);
      }
    }
  }

  /** A table with increasing keys splits into a prefix with increasing keys and a last row whose key is larger than all before it. */
  lemma KeysIncreaseSplit<T>(init: seq<T>, x: T, key: T -> int)
    requires KeysIncrease(init + [x], key)
    ensures KeysIncrease(init, key)
    ensures forall i :: 0 <= i < |init| ==> key(init[i]) < key(x)
  {
    assert forall i :: 0 <= i < |init| ==> (init + [x])[i] == init[i];
    assert (init + [x])[|init|] == x;
  }

  /** Appending a row with a fresh key makes it findable and changes no other lookup. */
  lemma {:induction false} FindFirstAppend<T, K>(rows: seq<T>, key: T -> K, x: T, k: K)
    requires forall i :: 0 <= i < |rows| ==> key(rows[i]) != key(x)
    ensures FindFirst(rows + [x], key, k) == if k == key(x) then Some(x) else FindFirst(rows, key, k)
  {
    if rows != [] {
      assert (rows + [x])[1..] == rows[1..] + [x];
      if key(rows[0]) != k {
        FindFirstAppend(rows[1..], key, x, k);
      }
    }
  }

  /** The band row that a join on the band id pairs with (concerts.py:89, 115), if any. */
  function FindBand(bands: seq<Band>, id: int): (r: Option<Band>)
    ensures r.Some? ==> r.value in bands && r.value.id == id
    ensures r.None? <==> forall i :: 0 <= i < |bands| ==> bands[i].id != id
  {
    FindFirst(bands, BandKey, id)
  }

  /** The venue row that a join on the venue id pairs with (concerts.py:62, 160), if any. */
  function FindVenue(venues: seq<Venue>, id: int): (r: Option<Venue>)
    ensures r.Some? ==> r.value in venues && r.value.id == id
    ensures r.None? <==> forall i :: 0 <= i < |venues| ==> venues[i].id != id
  {
    FindFirst(venues, VenueKey, id)
  }

  function VenueTitle(v: Venue): string { v.title }

  /**
   * The venue found by title in `play_in_venue` (concerts.py:77-80): the first
   * venue in table order whose title is exactly `title`.
   */
  function FindVenueByTitle(venues: seq<Venue>, title: string): (r: Option<Venue>)
    ensures r.Some? ==> r.value in venues && r.value.title == title
    ensures r.None? <==> forall i :: 0 <= i < |venues| ==> venues[i].title != title
  {
    FindFirst(venues, VenueTitle, title)
  }

  /** The concert's band reference resolves to an existing band. */
  predicate HasBand(c: Concert, bands: seq<Band>) {
    FindBand(bands, c.bandId).Some?
  }

  /** The concert's venue reference resolves to an existing venue. */
  predicate HasVenue(c: Concert, venues: seq<Venue>) {
    FindVenue(venues, c.venueId).Some?
  }
}
