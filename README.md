# Property search: filter engine and page state

This project is a Dafny model of the logic in the estate-agent search page `PropertySearchApp` (`src/App.jsx`). It has two parts.

- **The filter engine.** This is the predicate `handleSearch` hands to `Array.filter`: a chain of early-return guards over one listing. It checks the type, minimum and maximum price, minimum and maximum bedrooms, a case-insensitive postcode fragment, and an added-date range. It uses `getMonthIndex`, which turns a listing's month name into an index.
- **The page state.** These are the component's `useState` fields: the search form, the listings on show, favourites, the dragged listing, the open listing, the image index and the active tab. The handlers change them. They are modelled as the class `SearchStore.PropertySearch`: one field per piece of state, and one method per handler. Each method's `ensures` states the new value of every field it may change.

The guard chain `FilterEngine.Matches` is written as the source writes it: raw input strings, JavaScript truthiness, `parseInt`, and `new Date` on the listing's month name and on the `YYYY-MM-DD` inputs. A second, declarative reading sits beside it:
- `FilterEngine.Interpret` reads each input once into an `Option`. An empty or unreadable input becomes `None`, because `''` is falsy and a comparison with `NaN` or an Invalid Date is false.
- `FilterEngine.Admits` is the conjunction of what each set criterion means.

`FilterEngine.MatchesIffAdmits` proves the two readings agree. Everything else about the filter is proved from that.

Modules:
- `Wrappers`: `Option`.
- `Sequences`: the in-order filter `Keep` (as `Array.filter` does it), subsequences, and `IndexOf`.
- `Text`: ASCII `toLowerCase` and `includes`.
- `Numbers`: decimal digits, base-ten `parseInt`, and the rendering it inverts.
- `Calendar`: month names, dates and their order, `new Date(y, m, d)`, and `YYYY-MM-DD` inputs.
- `Listings`: the listing record.
- `FilterEngine`: the search.
- `Favourites`: favourites as values.
- `Gallery`: image navigation and tabs.
- `SearchStore`: the page state.
- `Scenarios`: worked examples over a three-listing catalogue. They mirror the component tests in `src/App.test.jsx`, and also include one session per group of handlers.

The catalogue data file the page loads is not part of this model. The three listings in `Scenarios` are illustrative.

## Model

| member | source | states |
|---|---|---|
| Calendar.MonthIndex | src/App.jsx:39-43 | The result lies in -1..11. It is -1 exactly when the text is not one of the twelve month names; otherwise the name sits at that position. |
| Calendar.MonthIndexOfName | src/App.jsx:40-42 | Each of the twelve names maps back to its own position, January to 0 and December to 11. |
| Sequences.IndexOf | src/App.jsx:42 | `indexOf`: -1 exactly when the element is absent; otherwise the element is there and at no earlier position. |
| Calendar.MakeDate | src/App.jsx:78 | `new Date(year, month, day)` on a month index: the month lands in 0..11, with `12*year + month` preserved (after a year 0..99 is read as 1900 onwards), so an out-of-range index moves the year. |
| Calendar.MakeDateYears | src/App.jsx:78 | A year 0..99 is dated 1900 onwards; any other year is kept. |
| Calendar.MakeDateUnknownMonth | src/App.jsx:42 | With an unknown month name (index -1), the listing's date is December of the year before. |
| Calendar.MakeDateInRange | src/App.jsx:78 | A month index in 0..11 is kept as it is. |
| Listings.AddedDate | src/App.jsx:78 | The listing's date, specified by the two lemmas below. |
| Listings.AddedDateOfMonth | src/App.jsx:39-78 | A listing added in the i-th month name of a year from 100 on is dated that year, month index i and day. |
| Listings.AddedDateUnknownMonth | src/App.jsx:42-78 | A listing whose month name is none of the twelve is dated December of the year before. |
| Calendar.BeforeTotal | src/App.jsx:82 | Dates are totally ordered: `a < b` exactly when `b <= a` fails, which is what makes the guards' endpoints inclusive. |
| Calendar.BeforeTransitive | src/App.jsx:82 | The date order is transitive. |
| Calendar.BeforeIrreflexive | src/App.jsx:82 | No date is before itself. |
| Calendar.ParseIsoDate | src/App.jsx:81 | A date input accepted as `YYYY-MM-DD` yields a year in 0..9999, a month index in 0..11 and a day in 1..31. |
| Calendar.ParseShowIsoDate | src/App.jsx:81 | Reading the `YYYY-MM-DD` text of a date gives the date back. |
| Calendar.ShowParseIsoDate | src/App.jsx:86 | Every accepted date text is exactly the text of the date it denotes, so the reading is one-to-one. |
| Numbers.ParseShowInt | src/App.jsx:57 | `parseInt` of an integer's decimal text reads the integer back, whatever non-digit text follows (so "3.5" reads as 3). |
| Numbers.ParseIntOfDigits | src/App.jsx:65 | Unsigned digits followed by a non-digit read as their decimal value. |
| Numbers.NegatedBody | src/App.jsx:60 | A minus sign kept by the trim, before text whose digit prefix reads as v, reads as -v. |
| Numbers.TrimStart | src/App.jsx:57 | The leading white space `parseInt` skips: the result is a suffix of the input, everything dropped is white space, and the result does not start with white space. |
| Numbers.ParseInt | src/App.jsx:57-70 | `parseInt(s)` in base ten, specified by `Numbers.ParseIntNaN` (when it is NaN) and `Numbers.ParseShowInt` (the value it reads). |
| Numbers.ParseIntNaN | src/App.jsx:57-70 | `parseInt` gives NaN exactly when no digit follows the leading white space and at most one sign, which is when a numeric bound is unset. |
| Text.LowerChar | src/App.jsx:73 | An upper-case ASCII letter becomes its lower-case letter (32 code points on); every other character is kept. |
| Text.Lower | src/App.jsx:73 | `toLowerCase` keeps the length, lower-cases each character as `LowerChar` does, and leaves no upper-case letter. |
| Text.LowerIgnoresCase | src/App.jsx:73 | Two texts equal up to ASCII case lower-case to the same text, so the postcode criterion ignores case on both sides. |
| Text.LowerSameUpToCase | src/App.jsx:73 | A text and its lower-case form are equal up to case. |
| Text.LowerIdempotent | src/App.jsx:73 | Lower-casing twice is lower-casing once. |
| Text.Contains | src/App.jsx:73 | `includes`: a scan over the start positions, specified by `Text.ContainsIff`. |
| Text.ContainsIff | src/App.jsx:73 | `includes` holds exactly when the fragment occurs at some position of the text. |
| Text.OccursTrans | src/App.jsx:73 | An occurrence inside an occurrence is an occurrence; a longer postcode fragment narrows the match. |
| FilterEngine.WithField | src/App.jsx:96-99 | `{ ...prev, [name]: value }`: the named input takes the text and every other input keeps its own. |
| FilterEngine.Matches | src/App.jsx:49-91 | The guard chain written as the source writes it: specified by `FilterEngine.MatchesIffAdmits` and the five guard lemmas below. |
| FilterEngine.Filter | src/App.jsx:49 | `Array.filter` with the guard chain: no longer than the catalogue, and only catalogue listings that match. `FilterEngine.FilterMembership` and `FilterEngine.FilterIsSubsequence` give both directions and the order. |
| FilterEngine.MatchesIffAdmits | src/App.jsx:49-91 | The guard chain keeps a listing exactly when it passes every set criterion. Type `''` or `'Any'` does not constrain, and any other type must match exactly. Price and bedroom bounds are inclusive. The lower-cased postcode fragment must occur in the lower-cased postcode. The added date must lie inside the inclusive range. An empty or unreadable input constrains nothing. |
| FilterEngine.BelowMinMeaning | src/App.jsx:57-59 | The minimum guard rejects exactly when a readable bound exceeds the value. |
| FilterEngine.AboveMaxMeaning | src/App.jsx:60-62 | The maximum guard rejects exactly when the value exceeds a readable bound. |
| FilterEngine.PostcodeMeaning | src/App.jsx:73-75 | The postcode guard rejects exactly when a non-empty fragment does not occur, case-insensitively. |
| FilterEngine.BeforeFromMeaning | src/App.jsx:80-83 | The start-date guard rejects exactly when a readable start date is after the listing's date. |
| FilterEngine.AfterToMeaning | src/App.jsx:85-88 | The end-date guard rejects exactly when a readable end date is before the listing's date. |
| FilterEngine.FilterMembership | src/App.jsx:49-91 | A listing is in the result exactly when it is in the catalogue and passes every set criterion. |
| FilterEngine.FilterIsSubsequence | src/App.jsx:49 | The result is the catalogue with listings left out, in catalogue order, and no longer than the catalogue. |
| FilterEngine.FilterConcat | src/App.jsx:49 | Each listing is decided on its own: filtering a concatenation concatenates the two results. |
| FilterEngine.FilterSingle | src/App.jsx:49-91 | A one-listing catalogue is kept exactly when the listing passes. |
| FilterEngine.EmptyCriteriaAdmitAll | src/App.jsx:17-26 | With every input empty, every listing passes. |
| FilterEngine.EmptyCriteriaKeepAll | src/App.jsx:49-91 | With every input empty, the search returns the whole catalogue unchanged and in order. |
| FilterEngine.NarrowerAdmits | src/App.jsx:49-91 | A listing that passes stricter criteria passes looser ones. |
| FilterEngine.NarrowingShrinksResult | src/App.jsx:49-91 | Stricter criteria never enlarge the result: it is a subsequence of the looser criteria's result. Stricter means a higher minimum, a lower maximum, a longer postcode fragment, a later start date or an earlier end date. |
| FilterEngine.NarrowerRefl | src/App.jsx:49-91 | Every set of criteria is as strict as itself. |
| FilterEngine.NumberBoundOfShowInt | src/App.jsx:57 | A number typed into a numeric input is read back as that number. |
| FilterEngine.TighterNumericQuery | src/App.jsx:57-70 | Typing a larger minimum or a smaller maximum into one numeric input, the others unchanged, gives stricter criteria. |
| FilterEngine.TighteningNumericBound | src/App.jsx:57-70 | Typing a larger minimum or a smaller maximum price or bedroom count never enlarges the result, which stays a subsequence of the previous one. |
| Sequences.Keep | src/App.jsx:49 | `Array.filter`: no longer than the source, and only source elements that pass the test. The lemmas below give the rest. |
| Sequences.KeepMembership | src/App.jsx:49 | `Array.filter` keeps an element exactly when it occurs in the source and satisfies the test. |
| Sequences.KeepIsSubseq | src/App.jsx:49 | `Array.filter` keeps order: the result is a subsequence of the source. |
| Sequences.KeepAll | src/App.jsx:49 | `Array.filter` drops nothing exactly when every element satisfies the test. |
| Sequences.KeepConcat | src/App.jsx:49 | `Array.filter` distributes over concatenation. |
| Sequences.KeepMonotone | src/App.jsx:49 | A stricter test keeps a subsequence of what a weaker test keeps. |
| Favourites.Find | src/App.jsx:117 | `find` by identifier: it returns something exactly when a favourite has the identifier. What it returns is a favourite with that identifier. |
| Favourites.Add | src/App.jsx:116-120 | `addToFavourites` on the list, specified by `Favourites.AddAppendsOnlyNew`, `AddKeepsUnique` and `AddIdempotent`. |
| Favourites.Remove | src/App.jsx:122-124 | `removeFromFavourites` on the list, specified by `Favourites.RemoveExactly`, `RemoveAbsentIsNoop`, `RemoveKeepsUnique`, `RemoveDropsOne` and `RemoveUndoesAdd`. |
| Favourites.AddAppendsOnlyNew | src/App.jsx:116-120 | Adding appends the listing exactly when its identifier is new, and otherwise leaves the list as it was. Afterwards the identifier is saved. |
| Favourites.AddKeepsUnique | src/App.jsx:116-120 | Adding keeps favourite identifiers unique. |
| Favourites.AddIdempotent | src/App.jsx:116-120 | Adding the same listing twice is adding it once. |
| Favourites.RemoveExactly | src/App.jsx:122-124 | After removal no favourite has the identifier, every other favourite is still there, and the order is kept. |
| Favourites.RemoveAbsentIsNoop | src/App.jsx:122-124 | Removal leaves the list unchanged exactly when the identifier is absent. |
| Favourites.RemoveKeepsUnique | src/App.jsx:122-124 | Removal keeps favourite identifiers unique. |
| Favourites.RemoveDropsOne | src/App.jsx:122-124 | With unique identifiers, removing a saved identifier drops exactly one favourite. |
| Favourites.RemoveUndoesAdd | src/App.jsx:116-124 | Removing the identifier of a listing just added as new restores the list. |
| SearchStore.PropertySearch.constructor | src/App.jsx:17-33 | The first render: empty form, the whole catalogue on show, no favourites, nothing selected or dragged, image 0, description tab. |
| SearchStore.PropertySearch.InputChange | src/App.jsx:96-99 | One input takes the typed text; nothing else changes. |
| SearchStore.PropertySearch.Search | src/App.jsx:46-94 | The listings on show become the catalogue filtered by the form, and they stay a subsequence of the catalogue. |
| SearchStore.PropertySearch.ResetSearch | src/App.jsx:101-113 | All eight inputs become empty and the whole catalogue is on show, which is also what a search with the empty form returns. |
| SearchStore.PropertySearch.AddToFavourites | src/App.jsx:116-120 | The favourites become the add of the listing, and identifiers stay unique. |
| SearchStore.PropertySearch.RemoveFromFavourites | src/App.jsx:122-124 | The favourites become the removal of the identifier, and identifiers stay unique. |
| SearchStore.PropertySearch.ClearFavourites | src/App.jsx:126-128 | The favourites become empty. |
| SearchStore.PropertySearch.DragStart | src/App.jsx:131-134 | The listing becomes the one being dragged. |
| SearchStore.PropertySearch.DropOnFavourites | src/App.jsx:141-147 | With a dragged listing, it is added and the drag reference is cleared. Without one, nothing changes. |
| SearchStore.PropertySearch.DropRemove | src/App.jsx:149-155 | A dragged listing that is a favourite is removed and the drag reference is cleared. Otherwise favourites and the drag reference are unchanged. |
| SearchStore.PropertySearch.DropOnFavouritesList | src/App.jsx:580-602 | A drop on the list, which sits inside the favourites panel, runs both drop handlers. A dragged favourite is removed, any other dragged listing is appended, and the drag reference is cleared. |
| SearchStore.PropertySearch.OpenPropertyDetail | src/App.jsx:158-162 | The listing is selected, at image 0, on the description tab. |
| SearchStore.PropertySearch.ClosePropertyDetail | src/App.jsx:164-166 | Nothing is selected. |
| SearchStore.PropertySearch.NextImage | src/App.jsx:168-174 | With a listing open, the index advances, wrapping. With none, it is unchanged. It stays below the image count. |
| SearchStore.PropertySearch.PrevImage | src/App.jsx:176-182 | With a listing open, the index steps back, wrapping. With none, it is unchanged. It stays below the image count. |
| SearchStore.PropertySearch.SelectImage | src/App.jsx:218-225 | A thumbnail click shows that image. |
| SearchStore.PropertySearch.SelectTab | src/App.jsx:247-264 | A tab click shows that tab. |
| Gallery.NextImage | src/App.jsx:170-172 | `(i + 1) % n`: below n; one step forward, and from the last image back to the first. |
| Gallery.PrevImage | src/App.jsx:178-180 | One step back stays below n. |
| Gallery.PrevUndoesNext | src/App.jsx:168-182 | Going back undoes going forward. |
| Gallery.NextUndoesPrev | src/App.jsx:168-182 | Going forward undoes going back. |
| Gallery.NextTimesAdvances | src/App.jsx:170-172 | Steps that do not pass the last image move the index by their number. |
| Gallery.NextTimesAdd | src/App.jsx:170-172 | `a` steps and then `b` steps are `a + b` steps. |
| Gallery.GalleryCycles | src/App.jsx:170-172 | `n` steps forward through `n` images return to the starting image. |
| Scenarios.FilterByType | src/App.test.jsx:10-29 | Type "House" keeps exactly the houses, in catalogue order. |
| Scenarios.FilterByBedrooms | src/App.test.jsx:32-52 | Minimum and maximum bedrooms both "3" keep exactly the 3-bedroom listing. |
| Scenarios.FilterByTypeBedroomsPostcode | src/App.test.jsx:102-114 | Type "Flat", at least "2" bedrooms and postcode "BR6" keep exactly the flat in BR6. |
| Scenarios.FilterByDates | src/App.jsx:78-88 | Criteria that read as 1 January to 12 October 2024 keep listings added on either endpoint and drop one added in 2023, in order. |
| Scenarios.FilterByDateRange | src/App.jsx:80-88 | The inputs "2024-01-01" and "2024-10-12" give that result. |
| Scenarios.CatalogueByDateRange | src/App.jsx:78-88 | The example catalogue filtered by that range keeps its two 2024 listings. |
| Scenarios.UnknownMonthRollsBack | src/App.jsx:39-43 | A listing dated with the unknown month "Sept" counts as December of the year before. |

## Left out

- Rendering: JSX, layout, icons, CSS, the result count label and the description truncation. They are presentational (`src/App.jsx:6-14`, `188-652`).
- The map tab's embedded map URL and `encodeURIComponent`: an external widget and a foreign encoding function.
- `formatPrice`: it depends on locale formatting (`toLocaleString`), and nothing calls it.
- Time zones. A listing's date (`new Date(y, m, d)`) is local midnight, while a `YYYY-MM-DD` input is read as UTC midnight. Dates are modelled as year, month and day compared field by field, which agrees with the page only at UTC offset 0. In any zone east of UTC the listing added on the start date itself fails the start-date guard. In any zone west of UTC the listing added on the end date fails the end-date guard. So the inclusive range stated by `FilterEngine.Admits`, `FilterEngine.MatchesIffAdmits`, `Calendar.BeforeTotal` and `Scenarios.CatalogueByDateRange` holds for the page only in UTC.
- Numbers.ParseInt: the page's numbers are doubles, so `parseInt` results, prices and bedroom counts beyond 2^53 are rounded there but exact here.
- Calendar.MakeDate: the day-of-month rollover (31 February becoming March) is not modelled. Only the month index is normalised, which covers the unknown-month value -1.
- Calendar.ParseIsoDate: only the `YYYY-MM-DD` form a date input produces is read. Days 1..31 are accepted in every month, and any other text counts as an unreadable date. The other forms `Date` accepts are not modelled.
- Numbers.ParseInt: base-ten digits only. The `0x` hexadecimal prefix and white space outside the listed ASCII and Unicode characters are not modelled.
- Text.Lower: ASCII case folding only; full Unicode `toLowerCase` is not modelled.
- Browser events: `preventDefault`, `dataTransfer.effectAllowed` / `dropEffect` and `handleDragOver` are browser plumbing with no effect on state. There is no drag-end handler in the page, so a drag reference that is never dropped stays set, as in the model.
- `showFavourites` and `favouritesRef`: no handler changes them.
- React batching and closure timing: each handler is modelled as one atomic transition. `addToFavourites` checks the favourites it closed over but appends through the updater; the two agree when handlers run one after another.
- Listing fields the search and handlers do not read: the location, descriptions, floor plan, tenure, picture and location path.
- SearchStore.PropertySearch.OpenPropertyDetail: requires the listing to have at least one image. With none, the page's `nextImage` would set the index to `NaN` (`% 0`) and its `prevImage` to -1.
- SearchStore.PropertySearch.SelectImage: requires an open listing and a thumbnail index among its images. Thumbnails exist only in the detail view, one per image.
- Gallery.PrevImage: its ensures states only the bound. What the step does is stated by `Gallery.PrevUndoesNext` and `Gallery.NextUndoesPrev`.
- The catalogue data file is not part of this model: the catalogue is a constructor parameter.
