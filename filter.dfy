/**
 * The filter engine: the predicate `handleSearch` passes to `Array.filter`,
 * a chain of early-return guards over one listing, and what each criterion
 * means once its text has been read.
 */
module FilterEngine {
  import opened Wrappers
  import opened Text
  import opened Numbers
  import opened Calendar
  import opened Listings
  import Sequences

  /** The search form's state: the raw text of each of its eight inputs. */
  datatype Criteria = Criteria(
    kind: string,
    minPrice: string,
    maxPrice: string,
    minBedrooms: string,
    maxBedrooms: string,
    dateFrom: string,
    dateTo: string,
    postcode: string
  )

  /** The form as it starts and as Reset leaves it: every input empty. */
  const EmptyCriteria := Criteria("", "", "", "", "", "", "", "")

  /** The names of the eight inputs, as `handleInputChange` receives them. */
  datatype Field = Kind | MinPrice | MaxPrice | MinBedrooms | MaxBedrooms | DateFrom | DateTo | Postcode

  function FieldValue(c: Criteria, f: Field): string {
    match f
    case Kind => c.kind
    case MinPrice => c.minPrice
    case MaxPrice => c.maxPrice
    case MinBedrooms => c.minBedrooms
    case MaxBedrooms => c.maxBedrooms
    case DateFrom => c.dateFrom
    case DateTo => c.dateTo
    case Postcode => c.postcode
  }

  /** `{ ...prev, [name]: value }`: one input takes the new text, the others keep theirs. */
  function WithField(c: Criteria, f: Field, v: string): (r: Criteria)
    ensures FieldValue(r, f) == v
    ensures forall g :: g != f ==> FieldValue(r, g) == FieldValue(c, g)
  {
    match f
    case Kind => c.(kind := v)
    case MinPrice => c.(minPrice := v)
    case MaxPrice => c.(maxPrice := v)
    case MinBedrooms => c.(minBedrooms := v)
    case MaxBedrooms => c.(maxBedrooms := v)
    case DateFrom => c.(dateFrom := v)
    case DateTo => c.(dateTo := v)
    case Postcode => c.(postcode := v)
  }

  // The guards as written: a non-empty input is read, and a comparison with
  // an unreadable number or date (NaN, Invalid Date) is false, so excludes nothing.

  predicate BelowMin(bound: string, v: int) {
    bound != "" &&
    match ParseInt(bound)
    case Some(n) => v < n
    case None => false
  }

  predicate AboveMax(bound: string, v: int) {
    bound != "" &&
    match ParseInt(bound)
    case Some(n) => v > n
    case None => false
  }

  predicate BeforeFrom(bound: string, d: Date) {
    bound != "" &&
    match ParseIsoDate(bound)
    case Some(from) => Before(d, from)
    case None => false
  }

  predicate AfterTo(bound: string, d: Date) {
    bound != "" &&
    match ParseIsoDate(bound)
    case Some(to) => Before(to, d)
    case None => false
  }

  /** The search predicate: false at the first criterion the listing fails. */
  predicate Matches(c: Criteria, p: Listing) {
    if c.kind != "" && c.kind != "Any" && p.kind != c.kind then false
    else if BelowMin(c.minPrice, p.price) then false
    else if AboveMax(c.maxPrice, p.price) then false
    else if BelowMin(c.minBedrooms, p.bedrooms) then false
    else if AboveMax(c.maxBedrooms, p.bedrooms) then false
    else if c.postcode != "" && !Contains(Lower(p.postcode), Lower(c.postcode)) then false
    else
      var added := AddedDate(p);
      if BeforeFrom(c.dateFrom, added) then false
      else if AfterTo(c.dateTo, added) then false
      else true
  }

  /** `propertiesData.properties.filter(...)`: the listings that match, in catalogue order. */
  function Filter(listings: seq<Listing>, c: Criteria): (r: seq<Listing>)
    ensures |r| <= |listings|
    ensures forall p :: p in r ==> p in listings && Matches(c, p)
  {
    Sequences.Keep(listings, p => Matches(c, p))
  }

  // What the criteria mean: each criterion read once, `None` where it does not constrain.

  datatype Query = Query(
    kind: Option<string>,
    minPrice: Option<int>,
    maxPrice: Option<int>,
    minBedrooms: Option<int>,
    maxBedrooms: Option<int>,
    dateFrom: Option<Date>,
    dateTo: Option<Date>,
    postcode: Option<string>
  )

  /** An empty input is unset; so is one that does not read as a number. */
  function NumberBound(s: string): Option<int> {
    if s == "" then None else ParseInt(s)
  }

  function DateBound(s: string): Option<Date> {
    if s == "" then None else ParseIsoDate(s)
  }

  function Interpret(c: Criteria): Query {
    Query(
      if c.kind == "" || c.kind == "Any" then None else Some(c.kind),
      NumberBound(c.minPrice), NumberBound(c.maxPrice),
      NumberBound(c.minBedrooms), NumberBound(c.maxBedrooms),
      DateBound(c.dateFrom), DateBound(c.dateTo),
      if c.postcode == "" then None else Some(Lower(c.postcode)))
  }

  predicate AtLeast(bound: Option<int>, v: int) {
    bound.None? || bound.value <= v
  }

  predicate AtMost(bound: Option<int>, v: int) {
    bound.None? || v <= bound.value
  }

  /**
   * The listing passes every set criterion: the exact type, inclusive price
   * and bedroom bounds, the lower-cased postcode text somewhere in the
   * lower-cased postcode, and an added date inside the inclusive range.
   */
  ghost predicate Admits(q: Query, p: Listing) {
    (q.kind.None? || p.kind == q.kind.value) &&
    AtLeast(q.minPrice, p.price) && AtMost(q.maxPrice, p.price) &&
    AtLeast(q.minBedrooms, p.bedrooms) && AtMost(q.maxBedrooms, p.bedrooms) &&
    (q.postcode.None? || exists i :: OccursAt(Lower(p.postcode), q.postcode.value, i)) &&
    (q.dateFrom.None? || OnOrBefore(q.dateFrom.value, AddedDate(p))) &&
    (q.dateTo.None? || OnOrBefore(AddedDate(p), q.dateTo.value))
  }

  lemma BelowMinMeaning(bound: string, v: int)
    ensures BelowMin(bound, v) <==> !AtLeast(NumberBound(bound), v)
  {
  }

  lemma AboveMaxMeaning(bound: string, v: int)
    ensures AboveMax(bound, v) <==> !AtMost(NumberBound(bound), v)
  {
  }

  lemma BeforeFromMeaning(bound: string, d: Date)
    ensures BeforeFrom(bound, d) <==> !(DateBound(bound).None? || OnOrBefore(DateBound(bound).value, d))
  {
    if DateBound(bound).Some? {
      BeforeTotal(d, DateBound(bound).value);
    }
  }

  lemma AfterToMeaning(bound: string, d: Date)
    ensures AfterTo(bound, d) <==> !(DateBound(bound).None? || OnOrBefore(d, DateBound(bound).value))
  {
    if DateBound(bound).Some? {
      BeforeTotal(DateBound(bound).value, d);
    }
  }

  lemma PostcodeMeaning(bound: string, postcode: string)
    ensures (bound != "" && !Contains(Lower(postcode), Lower(bound))) <==>
      !(bound == "" || exists i :: OccursAt(Lower(postcode), Lower(bound), i))
  {
    ContainsIff(Lower(postcode), Lower(bound));
  }

  /** The guard chain keeps a listing exactly when it passes every set criterion. */
  lemma MatchesIffAdmits(c: Criteria, p: Listing)
    ensures Matches(c, p) <==> Admits(Interpret(c), p)
  {
    var added := AddedDate(p);
    BelowMinMeaning(c.minPrice, p.price);
    AboveMaxMeaning(c.maxPrice, p.price);
    BelowMinMeaning(c.minBedrooms, p.bedrooms);
    AboveMaxMeaning(c.maxBedrooms, p.bedrooms);
    PostcodeMeaning(c.postcode, p.postcode);
    BeforeFromMeaning(c.dateFrom, added);
    AfterToMeaning(c.dateTo, added);
  }

  /** A listing is in the result exactly when it is in the catalogue and passes every set criterion. */
  lemma FilterMembership(listings: seq<Listing>, c: Criteria, p: Listing)
    ensures p in Filter(listings, c) <==> p in listings && Admits(Interpret(c), p)
  {
    Sequences.KeepMembership(listings, q => Matches(c, q), p);
    MatchesIffAdmits(c, p);
  }

  /** The result is the catalogue with listings left out, never reordered. */
  lemma FilterIsSubsequence(listings: seq<Listing>, c: Criteria)
    ensures Sequences.IsSubseq(Filter(listings, c), listings)
    ensures |Filter(listings, c)| <= |listings|
  {
    Sequences.KeepIsSubseq(listings, p => Matches(c, p));
  }

  /** Each listing is decided on its own: the filter of a concatenation is the concatenation of the filters. */
  lemma FilterConcat(a: seq<Listing>, b: seq<Listing>, c: Criteria)
    ensures Filter(a + b, c) == Filter(a, c) + Filter(b, c)
  {
    Sequences.KeepConcat(a, b, p => Matches(c, p));
  }

  /** On one listing the filter keeps it exactly when it passes every set criterion. */
  lemma FilterSingle(p: Listing, c: Criteria)
    ensures Filter([p], c) == if Admits(Interpret(c), p) then [p] else []
  {
    MatchesIffAdmits(c, p);
    assert [p][1..] == [];
  }

  /** With every input empty nothing is constrained. */
  lemma EmptyCriteriaAdmitAll(p: Listing)
    ensures Admits(Interpret(EmptyCriteria), p)
  {
  }

  /** With every input empty the search returns the whole catalogue, in order. */
  lemma EmptyCriteriaKeepAll(listings: seq<Listing>)
    ensures Filter(listings, EmptyCriteria) == listings
  {
    forall p | p in listings
      ensures Matches(EmptyCriteria, p)
    {
      MatchesIffAdmits(EmptyCriteria, p);
    }
    Sequences.KeepAll(listings, p => Matches(EmptyCriteria, p));
  }

  predicate TighterMin(tight: Option<int>, loose: Option<int>) {
    loose.None? || (tight.Some? && loose.value <= tight.value)
  }

  predicate TighterMax(tight: Option<int>, loose: Option<int>) {
    loose.None? || (tight.Some? && tight.value <= loose.value)
  }

  /** Every criterion of `tight` is at least as strict as the same criterion of `loose`. */
  ghost predicate Narrower(tight: Query, loose: Query) {
    (loose.kind.None? || tight.kind == loose.kind) &&
    TighterMin(tight.minPrice, loose.minPrice) && TighterMax(tight.maxPrice, loose.maxPrice) &&
    TighterMin(tight.minBedrooms, loose.minBedrooms) && TighterMax(tight.maxBedrooms, loose.maxBedrooms) &&
    (loose.postcode.None? ||
      (tight.postcode.Some? && exists j :: OccursAt(tight.postcode.value, loose.postcode.value, j))) &&
    (loose.dateFrom.None? || (tight.dateFrom.Some? && OnOrBefore(loose.dateFrom.value, tight.dateFrom.value))) &&
    (loose.dateTo.None? || (tight.dateTo.Some? && OnOrBefore(tight.dateTo.value, loose.dateTo.value)))
  }

  lemma NarrowerAdmits(tight: Query, loose: Query, p: Listing)
    requires Narrower(tight, loose) && Admits(tight, p)
    ensures Admits(loose, p)
  {
    if loose.postcode.Some? {
      var j :| OccursAt(tight.postcode.value, loose.postcode.value, j);
      var i :| OccursAt(Lower(p.postcode), tight.postcode.value, i);
      OccursTrans(Lower(p.postcode), tight.postcode.value, loose.postcode.value, i, j);
    }
    var added := AddedDate(p);
    if loose.dateFrom.Some? && Before(loose.dateFrom.value, tight.dateFrom.value) && Before(tight.dateFrom.value, added) {
      BeforeTransitive(loose.dateFrom.value, tight.dateFrom.value, added);
    }
    if loose.dateTo.Some? && Before(added, tight.dateTo.value) && Before(tight.dateTo.value, loose.dateTo.value) {
      BeforeTransitive(added, tight.dateTo.value, loose.dateTo.value);
    }
  }

  /**
   * Narrowing the criteria (raising a minimum, lowering a maximum, a longer
   * postcode text, a later start or earlier end date) never enlarges the
   * result: the new result is a subsequence of the old one.
   */
  lemma NarrowingShrinksResult(listings: seq<Listing>, tight: Criteria, loose: Criteria)
    requires Narrower(Interpret(tight), Interpret(loose))
    ensures Sequences.IsSubseq(Filter(listings, tight), Filter(listings, loose))
    ensures |Filter(listings, tight)| <= |Filter(listings, loose)|
  {
    forall p | p in listings && Matches(tight, p)
      ensures Matches(loose, p)
    {
      MatchesIffAdmits(tight, p);
      NarrowerAdmits(Interpret(tight), Interpret(loose), p);
      MatchesIffAdmits(loose, p);
    }
    Sequences.KeepMonotone(listings, p => Matches(tight, p), p => Matches(loose, p));
  }

  /** A rendered integer typed into a numeric input reads back as that integer. */
  lemma NumberBoundOfShowInt(i: int)
    ensures NumberBound(ShowInt(i)) == Some(i)
  {
    ParseShowInt(i, "");
    assert ShowInt(i) + "" == ShowInt(i);
  }

  /** Every criterion is as strict as itself. */
  lemma NarrowerRefl(q: Query)
    ensures Narrower(q, q)
  {
    if q.postcode.Some? {
      assert OccursAt(q.postcode.value, q.postcode.value, 0);
    }
  }

  lemma TighterNumericQuery(c: Criteria, f: Field, looser: int, tighter: int)
    requires f == MinPrice || f == MaxPrice || f == MinBedrooms || f == MaxBedrooms
    requires if f == MinPrice || f == MinBedrooms then looser <= tighter else tighter <= looser
    ensures Narrower(Interpret(WithField(c, f, ShowInt(tighter))), Interpret(WithField(c, f, ShowInt(looser))))
  {
    NumberBoundOfShowInt(tighter);
    NumberBoundOfShowInt(looser);
    var ql := Interpret(WithField(c, f, ShowInt(looser)));
    NarrowerRefl(ql);
  }

  /**
   * Typing a larger minimum (or a smaller maximum) price or bedroom count
   * into one input, the others unchanged, never enlarges the result.
   */
  lemma TighteningNumericBound(listings: seq<Listing>, c: Criteria, f: Field, looser: int, tighter: int)
    requires f == MinPrice || f == MaxPrice || f == MinBedrooms || f == MaxBedrooms
    requires if f == MinPrice || f == MinBedrooms then looser <= tighter else tighter <= looser
    ensures
      var tight, loose := WithField(c, f, ShowInt(tighter)), WithField(c, f, ShowInt(looser));
      Sequences.IsSubseq(Filter(listings, tight), Filter(listings, loose)) &&
      |Filter(listings, tight)| <= |Filter(listings, loose)|
  {
    TighterNumericQuery(c, f, looser, tighter);
    NarrowingShrinksResult(listings, WithField(c, f, ShowInt(tighter)), WithField(c, f, ShowInt(looser)));
  }
}
