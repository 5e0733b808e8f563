# Concert catalog, modelled in Dafny

A model of the catalog store in `concerts.py`: three tables (`bands`, `venues`,
`concerts`), the inserts that fill them, and the queries behind the `Band`,
`Venue` and `Concert` view classes. The SQLite engine is replaced by an
in-memory catalog. Each table is a sequence of rows in insertion order. Each
SQL query is written out as an explicit filter, join, `DISTINCT`, `LIMIT 1`
or `GROUP BY`/`COUNT` over those sequences.

Modules, one per part of the source:

- `Wrappers` (`wrappers.dfy`): `Option`, the result of a single-row `fetchone()`.
- `Ascii` (`ascii.dfy`): `str.lower()` over ASCII letters, and comparison ignoring case.
- `Schema` (`schema.dfy`): the row types `Band`, `Venue` and `Concert`. Also the
  primary-key lookups that every join goes through, and the lemmas showing that,
  when ids increase, those lookups are the join.
- `ConcertView`, `BandView`, `VenueView`: the queries of the three view classes,
  as functions over the tables. A view object only holds an id, so each function
  takes that id and the tables it reads.
- `Store` (`store.dfy`): the class `Catalog`. It holds the three tables as
  sequence fields, plus one AUTOINCREMENT counter per table. Its methods are the
  inserts `add_band`, `add_venue`, `add_concert` and `Band.play_in_venue`.

Semantics fixed by the model:

- **Joins.** Foreign keys are declared but not enforced, so a concert may name a
  band or venue id that does not exist. Such a concert is dropped from every
  inner join that needs the missing row. It still counts where no join needs that
  row: `Band.concerts` needs only the venue, and `Venue.concerts` needs only the band.
- **Identities.** Ids come from AUTOINCREMENT and nothing is ever deleted. So ids
  start at 1 and each new id is one more than the last one handed out in its
  table. `Catalog.Valid` states this: ids increase in insertion order and stay
  below the next id. Under that invariant every row is the one its own id finds,
  so the first-match lookup `FindFirst` behind `FindBand` and `FindVenue` is the
  primary-key join (`FindFirstUnique`).
- **Order.** No query that returns several rows has `ORDER BY`. The two "most"
  queries order by count only to take the top row with `LIMIT 1`, which `TopBand`
  models as a maximum. Elsewhere the model returns rows in concert insertion
  order, and every ordering claim is relative to that choice
  (`BandConcertsInOrder`, `VenueConcertsInOrder`). `DISTINCT` keeps each value at
  its first occurrence. `LIMIT 1` and `fetchone()` take the first row in that
  order. In particular `play_in_venue` looks the venue up by title alone and
  takes the first venue with that title; the source does not fix which of
  several such venues comes back.
- **Ties.** For `most_performances` and `most_frequent_band`, `TopBand` happens to
  pick the earliest band among those tied. The contracts only promise some band
  with the maximal count.
- **Missing rows.** `hometown_show` and `introduction` unpack the row that
  `fetchone()` returns. When there is no joined row, that value is `None` and the
  unpacking raises. The model returns `None` exactly in those cases.

Three facts about the source that the model keeps:

- The inserts return nothing, as the Python functions do. The new row's id is
  `old(next...Id)`.
- No insert checks that a referenced band or venue exists, or that a text field
  is non-empty.
- `play_in_venue` does nothing when no venue has the title.

## Model

| member | source | states |
|---|---|---|
| `Ascii.Lower` | concerts.py:164 | the result has the input's length, and each character is lower-cased (ASCII letters only) |
| `Ascii.LowerCharSame` | concerts.py:164 | two characters lower-case alike iff they are equal or differ only in ASCII case |
| `Ascii.SameIgnoringCase` | concerts.py:164 | `a.lower() == b.lower()` holds iff the strings have equal length and agree at each position up to ASCII case |
| `Ascii.SameIgnoringCaseUpper` | concerts.py:164 | a string and its upper-cased form compare equal ignoring case |
| `Ascii.SameIgnoringCaseEquivalence` | concerts.py:164 | comparison ignoring case is reflexive, symmetric and transitive |
| `Schema.FindFirst` | concerts.py:59-64 | a result is a row of the table with the key asked for; the result is absent iff no row has that key |
| `Schema.FindBand` | concerts.py:115 | a result is a row of `bands` with the id asked for; the result is absent iff no band has that id |
| `Schema.FindVenue` | concerts.py:62 | a result is a row of `venues` with the id asked for; the result is absent iff no venue has that id |
| `Schema.FindVenueByTitle` | concerts.py:77-80 | a result is a venue whose title is exactly the one asked for; the result is absent iff no venue has that title |
| `Schema.FindFirstUnique` | concerts.py:11-27 | when keys increase, looking up any row by its own key finds that row (primary key) |
| `Schema.FindFirstEveryRow` | concerts.py:11-27 | when keys increase, every row of the table is found by its own key |
| `Schema.FindFirstAppend` | concerts.py:41-50 | after appending a row with a fresh key, that key finds the new row and every other lookup is unchanged |
| `Schema.KeysIncreaseSplit` | concerts.py:11-27 | a proof helper, generic over sequences: a table with increasing ids splits into a prefix with increasing ids and a last row whose id is larger than every earlier one |
| `ConcertView.ConcertLinks` | concerts.py:156-163 | absent iff no concert with this id has both an existing band and an existing venue; otherwise the band and venue rows that such a concert references |
| `ConcertView.ConcertLinksAppend` | concerts.py:156-163 | appending a concert changes an id's joined row only when no earlier concert had one for that id |
| `ConcertView.ConcertLinksOfConcert` | concerts.py:156-163 | when concert ids increase, a linked concert's own id finds exactly that concert's band and venue |
| `ConcertView.HometownShow` | concerts.py:155-164 | absent (the unpacking raises) iff there is no joined row; otherwise whether the band's hometown equals the venue's city ignoring case |
| `ConcertView.HometownShowIgnoresCase` | concerts.py:164 | for an existing linked concert, the answer is the city compared with the hometown ignoring case, and it is true when the hometown is the city in upper case |
| `ConcertView.HometownShowExample` | concerts.py:155-164 | a hometown of "LIVERPOOL" matches a city of "liverpool" and does not match "London" |
| `ConcertView.Greeting` | concerts.py:175 | the greeting is 35 characters longer than the city, the name and the hometown together |
| `ConcertView.GreetingLayout` | concerts.py:175 | where the city, the name and the hometown sit in the greeting between its fixed parts, so each can be read back |
| `ConcertView.GreetingExample` | concerts.py:175 | the greeting for New York / The Beatles / Liverpool, written out |
| `ConcertView.Introduction` | concerts.py:166-175 | absent iff there is no joined row; otherwise `"Hello " + city + "!!!!! We are " + name + " and we're from " + hometown` for the linked venue and band |
| `ConcertView.IntroductionAppend` | concerts.py:166-175 | appending a concert changes an id's introduction only when no earlier concert had one for that id |
| `ConcertView.ExampleLinks` | concerts.py:180-187 | in the demo catalog (two bands, two venues, two concerts), each concert joins the band and the venue at its own position |
| `ConcertView.IntroductionExample` | concerts.py:180-192 | in the demo catalog, concert 1's introduction is the written-out greeting and it is not a hometown show; concert 2 (London band, London venue) is one |
| `BandView.BandConcerts` | concerts.py:58-65 | a row is `(id, title, city, date)` of a concert of this band and its existing venue; every such concert has its row |
| `BandView.BandConcertsAppend` | concerts.py:58-65 | the definition of `BandConcerts` unfolded at an append: inserting a concert adds that concert's row at the end when it is this band's and its venue exists, and nothing otherwise (a helper for `PlayInVenue`) |
| `BandView.BandConcertsInOrder` | concerts.py:58-65 | when concert ids increase, the rows' concert ids strictly increase: insertion order, no concert twice |
| `BandView.BandVenues` | concerts.py:67-74 | each entry is an existing venue that a concert of this band references; every such venue is there |
| `BandView.BandVenuesAppend` | concerts.py:67-74 | the definition of `BandVenues` unfolded at an append: a new concert adds its venue at the end when it is this band's and its venue exists, and nothing otherwise |
| `BandView.BandJoin` | concerts.py:59-63 | each entry pairs a concert of this band with the existing venue its venue id names: the join that `concerts()` and `venues()` both read |
| `BandView.ZippedAppend` | concerts.py:67-74 | a proof helper: extending the join and the two results by one pair and its venue and row keeps them aligned position by position |
| `BandView.ZippedTitles` | concerts.py:67-74 | a proof helper: aligned venues and rows agree on title and city |
| `BandView.BandVenuesMatchConcerts` | concerts.py:67-74 | `venues()` and `concerts()` both have the join's length, and at each position the venue is the join's venue and the row is the join's concert with that venue, so the k-th venue is the venue of the concert behind the k-th row (no deduplication) |
| `BandView.AllIntroductions` | concerts.py:84-93 | empty when the band does not exist; each greeting belongs to a concert of this band whose venue and band both exist |
| `BandView.AllIntroductionsAppend` | concerts.py:84-93 | the definition of `AllIntroductions` unfolded at an append: a new concert adds its greeting at the end when it is this band's and joins both tables, and nothing otherwise |
| `BandView.IntroductionsMatchAppend` | concerts.py:84-93 | appending a concert with a new id keeps each greeting equal to the `introduction()` of the row at its position |
| `BandView.AllIntroductionsMatchConcerts` | concerts.py:84-93 | for an existing band, there is one greeting per row of `concerts()`, and each is that concert's `introduction()` |
| `BandView.Performed` | concerts.py:98-101 | a band's concert count is at most the table size, and zero iff no concert names that band |
| `BandView.TopBand` | concerts.py:97-105 | absent iff every band's count is zero; otherwise an existing band whose count is at least 1 and at least every band's count |
| `BandView.NoPerformances` | concerts.py:98-101 | every band has count zero iff no concert references an existing band |
| `BandView.MostPerformances` | concerts.py:95-105 | absent iff no concert joins an existing band; otherwise an existing band, its own concert count (at least 1), and no band has more |
| `BandView.MostPerformancesExample` | concerts.py:95-105 | three concerts by one band and one by another gives the first band with count 3 |
| `VenueView.AtVenue` | concerts.py:144 | the concerts whose `venue_id` is this venue, and only those |
| `VenueView.VenueConcerts` | concerts.py:111-118 | a row is `(id, band name, date)` of a concert at this venue whose band exists; every such concert has its row |
| `VenueView.VenueConcertsAppend` | concerts.py:111-118 | the definition of `VenueConcerts` unfolded at an append: a new concert adds its row at the end when it is at this venue and its band exists, and nothing otherwise |
| `VenueView.VenueConcertsBelow` | concerts.py:111-118 | every row's concert id is below any bound that all concert ids are below |
| `VenueView.VenueConcertsInOrder` | concerts.py:111-118 | when concert ids increase, the rows' concert ids strictly increase: insertion order, and each joinable concert here gives exactly one row |
| `VenueView.Distinct` | concerts.py:122 | no element twice, and exactly the elements of the input |
| `VenueView.BandsAt` | concerts.py:121-126 | the `(band id, name)` of each concert at this venue whose band exists, before `DISTINCT` |
| `VenueView.VenueBands` | concerts.py:120-127 | no pair twice; a pair is there iff some concert at this venue references that existing band |
| `VenueView.VenueBandsExactly` | concerts.py:120-127 | when band ids increase, the result holds exactly the existing bands with at least one concert at this venue |
| `VenueView.ConcertOn` | concerts.py:129-137 | absent iff no concert at this venue on exactly this date has an existing band; otherwise the id and band name of the first such concert |
| `VenueView.FirstOn` | concerts.py:135-137 | absent iff no row has this date; otherwise the first row with it |
| `VenueView.FirstOnAppend` | concerts.py:135-137 | the first row with a date in a concatenation comes from the first part if that part has one |
| `VenueView.ConcertOnIsFirstRow` | concerts.py:129-137 | `concert_on(d)` is the first row of `Venue.concerts()` with date `d` |
| `VenueView.MostFrequentBand` | concerts.py:139-149 | absent iff no concert at this venue joins an existing band; otherwise an existing band, its count at this venue (at least 1), and no band has more here |
| `VenueView.MostFrequentBandExample` | concerts.py:139-149 | at a venue with two concerts by one band and one by another, the band with two concerts here (Led Zeppelin) wins with count 2 |
| `Store.Catalog.Valid` | concerts.py:11-27 | the AUTOINCREMENT invariant; under it every row is the one its own id finds, and the next id to hand out finds nothing in its table |
| `Store.Catalog.constructor` | concerts.py:8-38 | `create_tables()` on a fresh database: three empty tables, with each counter at 1 |
| `Store.Catalog.AddBand` | concerts.py:41-43 | appends exactly one band with the given fields and a fresh id larger than all existing ones; that id now finds it; other lookups, tables and counters unchanged |
| `Store.Catalog.AddVenue` | concerts.py:45-47 | appends exactly one venue with the given fields and a fresh id larger than all existing ones; that id now finds it; other lookups, tables and counters unchanged |
| `Store.Catalog.AddConcert` | concerts.py:49-51 | appends exactly one concert with the given references, unchecked, and a fresh id larger than all existing ones; other tables unchanged |
| `Store.Catalog.PlayInVenue` | concerts.py:76-82 | no change when no venue has this exact title; otherwise exactly one new concert of this band at such a venue on this date, so this band's `concerts()` grows by one row and no other band's changes |

## Left out

- The connection plumbing: the module-level `sqlite3.connect` and cursor, every `conn.commit()`, and the `conn.close()` at import time. The SQL engine itself is replaced by the explicit sequence semantics above.
- `create_tables`' `IF NOT EXISTS` idempotence on an existing database. The constructor models the first call, on an empty database.
- The `__main__` demo and its `print` calls, which are I/O only. `IntroductionExample` states what the demo catalog yields for its two concerts.
- Unicode case mapping behind `str.lower()`. Only ASCII letters are lower-cased.
- NULL references and SQLite's dynamic typing. `band_id` and `venue_id` are modelled as integers. A NULL reference never joins, just like an id that names no row.
- Tuples as results. Python returns plain tuples; the model names each row shape with a datatype carrying the same fields in the same order.
- Store limits: SQLite's 64-bit rowid ceiling, past which AUTOINCREMENT fails, is not modelled; ids are unbounded integers.
- Duplicate primary keys. The queries look a referenced row up by its first occurrence. This equals the SQL join only when ids are unique, which `Catalog.Valid` guarantees.
- AddBand, AddVenue, AddConcert, PlayInVenue: the `NOT NULL` text columns (concerts.py:12-13, 20-21, 30) make `add_band`, `add_venue` and `add_concert` raise `sqlite3.IntegrityError` when a name, hometown, title, city or date is `None`. `play_in_venue` (concerts.py:76-82) raises it only for a `None` date, and only when some venue has the title. A `None` title matches no venue, because a comparison with NULL is never true, so the method does nothing, just as the model does for a title no venue has. None of this is modelled: the text parameters are `string`, which cannot be `None`.
