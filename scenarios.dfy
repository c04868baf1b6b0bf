/**
 * Worked examples over a three-listing catalogue: the filters the search
 * form's tests exercise, and a session of favourite and gallery clicks.
 */
module Scenarios {
  import opened Wrappers
  import opened Listings
  import opened Numbers
  import opened Text
  import Calendar
  import opened FilterEngine
  import opened SearchStore
  import Favourites
  import Gallery

  const House3 := Listing("prop1", "House", 750000, 3, "BR5 1AA",
    ["images/p1a.jpg", "images/p1b.jpg"], Added(2024, "October", 12))
  const Flat2 := Listing("prop2", "Flat", 399995, 2, "BR6 8BB",
    ["images/p2a.jpg"], Added(2024, "January", 1))
  const House4 := Listing("prop3", "House", 1200000, 4, "BR1 3CC",
    ["images/p3a.jpg", "images/p3b.jpg", "images/p3c.jpg"], Added(2023, "March", 2))

  const Catalogue := [House3, Flat2, House4]

  lemma ReadsThree()
    ensures ParseInt("3") == Some(3)
  {
    assert "3" == ShowInt(3) + "";
    ParseShowInt(3, "");
  }

  lemma ReadsTwo()
    ensures ParseInt("2") == Some(2)
  {
    assert "2" == ShowInt(2) + "";
    ParseShowInt(2, "");
  }

  /** The filter of three listings, listing by listing. */
  lemma FilterThree(a: Listing, b: Listing, d: Listing, c: Criteria)
    ensures Filter([a, b, d], c) == Filter([a], c) + Filter([b], c) + Filter([d], c)
  {
    assert [a, b, d] == [a] + [b] + [d];
    FilterConcat([a] + [b], [d], c);
    FilterConcat([a], [b], c);
  }

  /** The filter of the catalogue, listing by listing. */
  lemma FilterCatalogue(c: Criteria)
    ensures Filter(Catalogue, c) == Filter([House3], c) + Filter([Flat2], c) + Filter([House4], c)
  {
    FilterThree(House3, Flat2, House4, c);
  }

  /** Under a type criterion alone, a listing passes exactly when it has that type. */
  lemma AdmitsKindOnly(q: Query, kind: string, p: Listing)
    requires q == Query(Some(kind), None, None, None, None, None, None, None)
    ensures Admits(q, p) <==> p.kind == kind
  {
  }

  /** Type "House": the two houses, in catalogue order. */
  lemma FilterByType()
    ensures Filter(Catalogue, EmptyCriteria.(kind := "House")) == [House3, House4]
  {
    var c := EmptyCriteria.(kind := "House");
    var q := Interpret(c);
    assert q == Query(Some("House"), None, None, None, None, None, None, None);
    AdmitsKindOnly(q, "House", House3);
    AdmitsKindOnly(q, "House", Flat2);
    AdmitsKindOnly(q, "House", House4);
    FilterCatalogue(c);
    FilterSingle(House3, c);
    FilterSingle(Flat2, c);
    FilterSingle(House4, c);
  }

  /** Minimum and maximum bedrooms both "3": the 3-bedroom listing only. */
  lemma FilterByBedrooms()
    ensures Filter(Catalogue, EmptyCriteria.(minBedrooms := "3", maxBedrooms := "3")) == [House3]
  {
    var c := EmptyCriteria.(minBedrooms := "3", maxBedrooms := "3");
    ReadsThree();
    FilterCatalogue(c);
    FilterSingle(House3, c);
    FilterSingle(Flat2, c);
    FilterSingle(House4, c);
  }

  lemma LowerBR6()
    ensures Lower("BR6") == "br6"
  {
    var l := Lower("BR6");
    assert l[0] == 'b' && l[1] == 'r' && l[2] == '6';
  }

  lemma FlatPostcodeHasBR6()
    ensures OccursAt(Lower(Flat2.postcode), "br6", 0)
  {
    var l := Lower(Flat2.postcode);
    assert l[0] == 'b' && l[1] == 'r' && l[2] == '6';
    assert l[0..3] == "br6";
  }

  /** Type "Flat", at least "2" bedrooms and postcode "BR6": the flat only. */
  lemma FilterByTypeBedroomsPostcode()
    ensures Filter(Catalogue, EmptyCriteria.(kind := "Flat", minBedrooms := "2", postcode := "BR6")) == [Flat2]
  {
    var c := EmptyCriteria.(kind := "Flat", minBedrooms := "2", postcode := "BR6");
    ReadsTwo();
    LowerBR6();
    var q := Interpret(c);
    assert q == Query(Some("Flat"), None, None, Some(2), None, None, None, Some("br6"));
    FlatPostcodeHasBR6();
    assert Admits(q, Flat2);
    assert !Admits(q, House3) && !Admits(q, House4);
    FilterCatalogue(c);
    FilterSingle(House3, c);
    FilterSingle(Flat2, c);
    FilterSingle(House4, c);
  }

  lemma ReadsIsoDate(d: Calendar.Date, s: string)
    requires 0 <= d.year < 10000 && 0 <= d.month < 12 && 1 <= d.day <= 31
    requires s == Calendar.ShowIsoDate(d)
    ensures DateBound(s) == Some(d)
  {
    Calendar.ParseShowIsoDate(d);
  }

  lemma ShowsIsoDates()
    ensures Calendar.ShowIsoDate(Calendar.Date(2024, 0, 1)) == "2024-01-01"
    ensures Calendar.ShowIsoDate(Calendar.Date(2024, 9, 12)) == "2024-10-12"
  {
  }

  lemma AddedDates()
    ensures AddedDate(House3) == Calendar.Date(2024, 9, 12)
    ensures AddedDate(Flat2) == Calendar.Date(2024, 0, 1)
    ensures AddedDate(House4) == Calendar.Date(2023, 2, 2)
  {
    Calendar.MonthIndexOfName(9);
    Calendar.MonthIndexOfName(0);
    Calendar.MonthIndexOfName(2);
  }

  const DateRange := EmptyCriteria.(dateFrom := "2024-01-01", dateTo := "2024-10-12")

  lemma DateRangeQuery()
    ensures Interpret(DateRange) ==
      Query(None, None, None, None, None, Some(Calendar.Date(2024, 0, 1)), Some(Calendar.Date(2024, 9, 12)), None)
  {
    ShowsIsoDates();
    ReadsIsoDate(Calendar.Date(2024, 0, 1), DateRange.dateFrom);
    ReadsIsoDate(Calendar.Date(2024, 9, 12), DateRange.dateTo);
  }

  /** Under the date range alone, a listing passes exactly when its date lies in the range. */
  lemma DateRangeAdmits(q: Query, p: Listing)
    requires q == Query(None, None, None, None, None, Some(Calendar.Date(2024, 0, 1)), Some(Calendar.Date(2024, 9, 12)), None)
    ensures Admits(q, p) <==>
      Calendar.OnOrBefore(Calendar.Date(2024, 0, 1), AddedDate(p)) && Calendar.OnOrBefore(AddedDate(p), Calendar.Date(2024, 9, 12))
  {
  }

  /** Keeping the first two of three listings, decided one listing at a time. */
  lemma FilterKeepsFirstTwo(a: Listing, b: Listing, d: Listing, c: Criteria)
    requires Filter([a], c) == [a] && Filter([b], c) == [b] && Filter([d], c) == []
    ensures Filter([a, b, d], c) == [a, b]
  {
    FilterThree(a, b, d, c);
    assert [a] + [b] + [] == [a, b];
  }

  /** Under the date range alone, a listing added on one of its endpoints passes. */
  lemma DateRangeKeepsEndpoint(c: Criteria, p: Listing)
    requires Interpret(c) ==
      Query(None, None, None, None, None, Some(Calendar.Date(2024, 0, 1)), Some(Calendar.Date(2024, 9, 12)), None)
    requires AddedDate(p) == Calendar.Date(2024, 9, 12) || AddedDate(p) == Calendar.Date(2024, 0, 1)
    ensures Filter([p], c) == [p]
  {
    DateRangeAdmits(Interpret(c), p);
    FilterSingle(p, c);
  }

  /** Under the date range alone, a listing added in 2023 is dropped. */
  lemma DateRangeDropsEarlier(c: Criteria, p: Listing)
    requires Interpret(c) ==
      Query(None, None, None, None, None, Some(Calendar.Date(2024, 0, 1)), Some(Calendar.Date(2024, 9, 12)), None)
    requires AddedDate(p).year == 2023
    ensures Filter([p], c) == []
  {
    DateRangeAdmits(Interpret(c), p);
    FilterSingle(p, c);
  }

  /** Any criteria that read as that date range and nothing else keep the listings dated inside it. */
  lemma FilterByDates(c: Criteria, first: Listing, second: Listing, third: Listing)
    requires Interpret(c) ==
      Query(None, None, None, None, None, Some(Calendar.Date(2024, 0, 1)), Some(Calendar.Date(2024, 9, 12)), None)
    requires AddedDate(first) == Calendar.Date(2024, 9, 12)
    requires AddedDate(second) == Calendar.Date(2024, 0, 1)
    requires AddedDate(third) == Calendar.Date(2023, 2, 2)
    ensures Filter([first, second, third], c) == [first, second]
  {
    DateRangeKeepsEndpoint(c, first);
    DateRangeKeepsEndpoint(c, second);
    DateRangeDropsEarlier(c, third);
    FilterKeepsFirstTwo(first, second, third, c);
  }

  /**
   * Added from "2024-01-01" to "2024-10-12": listings added on either
   * endpoint are kept, one added in 2023 is not, and the order is kept.
   */
  lemma FilterByDateRange(first: Listing, second: Listing, third: Listing)
    requires AddedDate(first) == Calendar.Date(2024, 9, 12)
    requires AddedDate(second) == Calendar.Date(2024, 0, 1)
    requires AddedDate(third) == Calendar.Date(2023, 2, 2)
    ensures Filter([first, second, third], DateRange) == [first, second]
  {
    DateRangeQuery();
    FilterByDates(DateRange, first, second, third);
  }

  /** The catalogue's two 2024 listings sit on the endpoints of that range; both are kept. */
  lemma CatalogueByDateRange()
    ensures Filter(Catalogue, DateRange) == [House3, Flat2]
  {
    AddedDates();
    FilterByDateRange(House3, Flat2, House4);
  }

  /** A month name the table does not know ("Sept") reads as index -1: December of the year before. */
  lemma UnknownMonthRollsBack()
    ensures AddedDate(Flat2.(added := Added(2024, "Sept", 14))) == Calendar.Date(2023, 11, 14)
  {
    assert "Sept" !in Calendar.MonthNames;
  }

  /** Saving, saving again, removing and clearing. */
  method FavouritesSession() {
    var page := new PropertySearch(Catalogue);
    page.AddToFavourites(House3);
    assert page.favourites == [House3];
    page.AddToFavourites(House3);
    assert page.favourites == [House3];
    page.RemoveFromFavourites(House3.id);
    assert page.favourites == [];
    page.AddToFavourites(Flat2);
    page.ClearFavourites();
    assert page.favourites == [];
  }

  /** The two drop targets: the favourites panel, and the favourites list inside it. */
  method DragAndDropSession() {
    var page := new PropertySearch(Catalogue);
    page.DragStart(Flat2);
    page.DropOnFavourites();
    assert page.favourites == [Flat2] && page.dragged == None;
    page.DragStart(House3);
    page.DropRemove();
    assert page.favourites == [Flat2] && page.dragged == Some(House3);
    assert Favourites.Find([Flat2], House3.id) == None;
    page.DropOnFavouritesList();
    assert page.favourites == [Flat2, House3] && page.dragged == None;
  }

  /** A search for a flat with two bedrooms in BR6, then Reset. */
  method SearchSession() {
    var page := new PropertySearch(Catalogue);
    page.InputChange(Kind, "Flat");
    page.InputChange(MinBedrooms, "2");
    page.InputChange(Postcode, "BR6");
    assert page.criteria == EmptyCriteria.(kind := "Flat", minBedrooms := "2", postcode := "BR6");
    page.Search();
    FilterByTypeBedroomsPostcode();
    assert page.filtered == [Flat2];
    page.ResetSearch();
    assert page.criteria == EmptyCriteria && page.filtered == Catalogue;
  }

  /** Forward through all three images of a listing and back once. */
  method GallerySession() {
    var page := new PropertySearch(Catalogue);
    page.OpenPropertyDetail(House4);
    page.NextImage();
    page.NextImage();
    assert page.imageIndex == 2;
    page.NextImage();
    assert page.imageIndex == 0;
    page.PrevImage();
    assert page.imageIndex == 2;
    page.SelectImage(1);
    page.SelectTab(Gallery.Map);
    page.ClosePropertyDetail();
    page.NextImage();
    assert page.imageIndex == 1 && page.activeTab == Gallery.Map;
    page.OpenPropertyDetail(House3);
    assert page.imageIndex == 0 && page.activeTab == Gallery.Description;
  }
}
