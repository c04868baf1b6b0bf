/** The listing records of the catalogue, as far as the search and the detail view use them. */
module Listings {
  import Calendar

  /** When a listing was added: a year, an English month name and a day. */
  datatype Added = Added(year: int, month: string, day: int)

  /** One property of the catalogue (`kind` is the record's `type`). */
  datatype Listing = Listing(
    id: string,
    kind: string,
    price: int,
    bedrooms: int,
    postcode: string,
    images: seq<string>,
    added: Added
  )

  /** The listing's added date as the search builds it: month name to index, then `new Date`. */
  function AddedDate(p: Listing): Calendar.Date
  {
    Calendar.MakeDate(p.added.year, Calendar.MonthIndex(p.added.month), p.added.day)
  }

  /** A listing added in the `i`-th month (from 0) of a year from 100 on is dated that year, month and day. */
  lemma AddedDateOfMonth(p: Listing, i: nat)
    requires i < 12 && p.added.month == Calendar.MonthNames[i]
    requires p.added.year >= 100
    ensures AddedDate(p) == Calendar.Date(p.added.year, i, p.added.day)
  {
    Calendar.MonthIndexOfName(i);
    assert Calendar.FullYear(p.added.year) == p.added.year;
    Calendar.MakeDateInRange(p.added.year, i, p.added.day);
  }

  /** A listing whose month name is not one of the twelve is dated December of the year before. */
  lemma AddedDateUnknownMonth(p: Listing)
    requires p.added.month !in Calendar.MonthNames
    ensures AddedDate(p) == Calendar.Date(Calendar.FullYear(p.added.year) - 1, 11, p.added.day)
  {
    assert Calendar.MonthIndex(p.added.month) == -1;
    Calendar.MakeDateUnknownMonth(p.added.year, p.added.day);
  }
}
