# Crypto Tracker dashboard logic, modelled in Dafny

The Crypto Tracker is a browser dashboard. It fetches a market listing of up to
100 crypto assets, shows each one as a card and lets the user pin up to five
assets into a side-by-side comparison. Most of `script.js` is page, network and
timer glue. This project models the part of it that is logic:

- **The comparison list** (`Comparison`, `Dashboard.AppState`). It is an ordered
  list of at most five entries, keyed by asset id. Toggling an asset does one of
  three things. If the asset is already in the list, its entry is spliced out.
  If it is absent and there is room, its projected entry (id, name, symbol,
  image, price, 24h change) is appended. If the list is full, the toggle is
  refused and nothing changes. The user can also remove the entry at a position
  or clear the list. A card is shown as selected exactly when its id is in the
  list.
- **The sort of the asset list** (`SortOption`, `Assets`, `Sorting`). The sort
  preference is split on `_`. Token 0 is the field and token 2 is the
  direction. The field `id` sorts by name, ascending exactly when the direction
  is `asc`. Any other field sorts by that numeric property, descending exactly
  when the direction is `desc`. The list is sorted in place.
- **The suffix choice of `abbreviateNumber`** (`Abbreviate`): B, M, K or none,
  by threshold.

`Dashboard.AppState` is a class. It holds the script's module-level state: the
asset array, the comparison list and the sort preference. Its methods are the
handlers that change that state in place. Each one is proved against a pure
specification function of the other modules, and the properties are proved as
lemmas about those functions.

What the code does, as opposed to what the design describes:

- The design speaks of a sortOption `<field>_<anchor>_<direction>` whose field
  names the attribute to sort by. The code takes the text before the first
  `_`, so the default `market_cap_desc` gives the field `market`
  (`SortOption.DefaultParsesToMarket`). Each numeric property of an asset
  (`current_price`, `market_cap`, `total_volume`,
  `price_change_percentage_24h`) has a `_` in its name. So no field read from
  a sort option can name one (`Assets.ParsedFieldIsNotNumeric`).
- For a field the listing does not carry as a number, the comparator's
  subtraction yields NaN. That holds for an absent field such as `market`,
  where undefined is subtracted from undefined. It also holds for a text
  property such as `symbol`, `name` or `image`. `Array.prototype.sort` reads
  NaN as a tie. Because that sort is stable, every sort option other than an
  `id` one leaves the modelled list in the order it was in
  (`Sorting.NonIdOptionKeepsOrder`, `Sorting.DefaultOptionKeepsOrder`). The model
  follows the code. Listing properties outside the model, such as `ath`, are
  the exception; see the last lines of "## Left out".
- The design calls sorting pure. The code sorts the shared array in place, so
  the model does too (`Sorting.SortInPlace`).
- The design calls toggling its own inverse whenever the first toggle is not
  refused. The code restores the list only when the first toggle adds
  (`Comparison.ToggleUndoesAdd`). When it removes, toggling again appends the
  asset at the end. So toggling `a` twice on `[a, b]` gives `[b, a]`
  (`Comparison.ToggleTwiceAfterRemoveReorders`).
- The name comparison is not symmetric with the numeric one. An unknown or
  missing direction sorts names descending but numbers ascending. The model
  keeps this asymmetry (`Assets.Compare`).

## Model

| member | source | states |
|---|---|---|
| SortOption.Split | script.js:193 | `split('_')` always yields at least one token, and token 0 is the '_'-free text before the first '_' |
| SortOption.Parse | script.js:193-195 | the field is the longest '_'-free prefix of the option and is followed by '_' when shorter than it |
| SortOption.ParseThreeTokens | script.js:193-195 | an option `<field>_<anchor>_<direction>` with '_'-free parts parses to that field and `Some(direction)` |
| SortOption.ParseReadsTokenTwo | script.js:195 | when the anchor itself holds a '_', the direction is read from inside the anchor (token 2), not from the last token |
| SortOption.ParseTwoTokens | script.js:106-108 | an option with one '_' has no third token, so its direction is undefined (`None`) |
| SortOption.DefaultParsesToMarket | script.js:7 | the default `market_cap_desc` parses to field `market`, direction `desc` |
| SortOption.SplitAfterPiece | script.js:193 | splitting `x + "_" + y` with '_'-free `x` yields `x` followed by the tokens of `y` |
| SortOption.SplitWithoutSeparator | script.js:193 | a '_'-free text splits into itself alone |
| Assets.Property | script.js:206-207 | `asset[field]` is a number exactly for the four numeric properties of an asset |
| Assets.NumericPropertyHasUnderscore | script.js:206-207 | every numeric property name contains '_' |
| Assets.ParsedFieldIsNotNumeric | script.js:193-207 | no field read from any sort option names a numeric property |
| Assets.NameOrder | script.js:201-202 | the order standing in for `localeCompare`: its sign is -1, 0 or 1, and 0 exactly for equal names |
| Assets.NameOrderAntisymmetric | script.js:201-202 | swapping the names negates the name order |
| Assets.NameOrderTransitive | script.js:201-202 | the name order is transitive |
| Assets.CompareAntisymmetric | script.js:197-208 | swapping the two assets negates the comparator, in both branches and both directions |
| Assets.CompareTransitive | script.js:197-208 | "goes no later than" under the comparator is transitive, so the comparator is a total preorder |
| Assets.ParsedNonIdKeyIsInert | script.js:193-207 | every option whose field is not `id` makes the comparator tie every pair (NaN read as 0) |
| Sorting.InsertPermutes | script.js:197 | inserting into the sorted run adds the new asset and loses none |
| Sorting.InsertSorted | script.js:197-208 | inserting into a sorted run keeps it sorted under the comparator |
| Sorting.SortSpecSorted | script.js:197-208 | the sort yields a permutation of its input that is sorted under the comparator |
| Sorting.TiesAppend | script.js:197 | the assets tying with a given one in `u + [y]` are those of `u`, followed by `y` if it ties |
| Sorting.TiesTieEachOther | script.js:197-208 | two assets that both tie with a third do not compare strictly apart |
| Sorting.InsertTies | script.js:197-208 | inserting an asset places it behind every asset it ties with, and keeps the order of the others that tie |
| Sorting.SortSpecStable | script.js:197-208 | the sort is stable: for every asset, the assets tying with it come out in their input order |
| Sorting.InertSortKeepsOrder | script.js:197-208 | when every pair ties, the stable sort returns the list unchanged |
| Sorting.NonIdOptionKeepsOrder | script.js:192-208 | every sort option whose field is not `id` leaves the asset order unchanged |
| Sorting.DefaultOptionKeepsOrder | script.js:7 | sorting under the default `market_cap_desc` leaves the asset order unchanged |
| Sorting.SortedByName | script.js:199-203 | field `id` sorts by name, ascending iff the direction is `asc`, otherwise descending |
| Sorting.SortedNumerically | script.js:205-207 | a numeric field sorts by that property, descending iff the direction is `desc`, otherwise ascending (for keys naming a numeric property; no parsed sort option does) |
| Sorting.SortSpecOfSorted | script.js:197-208 | sorting a list that is already sorted changes nothing |
| Sorting.SortIdempotent | script.js:197-208 | sorting twice with the same option gives the same order as sorting once |
| Sorting.InsertPosition | script.js:197 | the insertion puts the asset behind the last one that does not compare greater and before all that do |
| Sorting.ShiftGreater | script.js:197 | the inner loop shifts exactly the trailing assets that compare strictly greater one place up |
| Sorting.ShiftedIsInsert | script.js:197 | after the shift and the store, the first i+1 slots hold exactly the stable insertion |
| Sorting.SortSpecStep | script.js:197 | sorting a prefix one longer inserts the next asset into the sorted shorter prefix |
| Sorting.InsertAt | script.js:197 | one insertion step turns `a[..i+1]` into the stable insertion of `a[i]` into `a[..i]` |
| Sorting.SortInPlace | script.js:197-208 | the in-place sort leaves the array equal to the specification sort: sorted, a permutation of the old contents, and stable on ties |
| Comparison.Selected | script.js:139 | `some(item => item.id === id)` holds iff some entry carries the id |
| Comparison.SelectionFlags | script.js:294-296 | each card's flag is true iff that card's id is in the comparison list |
| Comparison.FindIndex | script.js:215 | `findIndex` returns -1 iff the id is absent, otherwise the first position holding it |
| Comparison.RemoveAtShifts | script.js:275 | removing an existing position deletes only that entry, and later entries move down by one |
| Comparison.SpliceKeepsValid | script.js:275 | a removal at any position keeps the list within capacity and free of duplicate ids |
| Comparison.ToggleAppends | script.js:215-227 | toggling an absent asset with room appends one entry at the end, carrying its id, name, symbol, image, price and 24h change, and leaves earlier entries unchanged |
| Comparison.ToggleRefusesWhenFull | script.js:219-231 | toggling an absent asset on a full list is refused and leaves the list exactly as it was |
| Comparison.ToggleRemovesFound | script.js:215-235 | toggling a present asset removes exactly the entry `findIndex` finds, keeps the others in order, and with distinct ids leaves the asset unselected |
| Comparison.SelectedAfterAppend | script.js:220 | after an append, an id is selected iff it was before or it is the new entry's |
| Comparison.SelectedAfterRemove | script.js:234 | with distinct ids, removing position i unselects exactly that entry's id |
| Comparison.ToggleFlipsSelection | script.js:214-240 | a toggle that is not refused flips the selection of the toggled asset and of no other asset, and its outcome is Added or Removed as the source branches |
| Comparison.ToggleKeepsValid | script.js:217-235 | toggling keeps the list at most 5 long and free of duplicate ids |
| Comparison.ToggleUndoesAdd | script.js:217-235 | toggling an asset that was just added restores the original list |
| Comparison.ToggleTwiceAfterRemoveReorders | script.js:232-235 | toggling `a` twice on `[a, b]` yields `[b, a]`, not the original list: a removal is undone by an append at the end |
| Comparison.ApplyKeepsValid | script.js:92 | each action (toggle, remove-at-index, clear) keeps the invariant |
| Comparison.ReplayValid | script.js:217-234 | starting from empty, any sequence of toggles, removals and clears keeps at most 5 entries and no duplicate ids |
| Abbreviate.Abbreviate | script.js:327-337 | a scaled number is at least one unit of its suffix and below a thousand units unless it is in billions; the number is unabbreviated iff it is below 1000 |
| Abbreviate.SuffixRanges | script.js:327-337 | 'B' iff num >= 1e9, 'M' iff 1e6 <= num < 1e9, 'K' iff 1e3 <= num < 1e6, with the matching divisor |
| Dashboard.AppState.constructor | script.js:2-8 | the asset list and the comparison list start empty, and the sort option starts as `market_cap_desc` |
| Dashboard.AppState.ToggleCryptocurrencyComparison | script.js:214-240 | the new comparison list and the outcome are those of `Toggle` on the old list; the invariant is kept; a toggle that is not refused flips whether the asset is selected; nothing else changes |
| Dashboard.AppState.RemoveComparisonAt | script.js:273-279 | the comparison list becomes the old one spliced at the index; the invariant is kept; nothing else changes |
| Dashboard.AppState.ClearComparison | script.js:91-96 | the comparison list becomes empty; nothing else changes |
| Dashboard.AppState.ReplaceCryptocurrencies | script.js:119 | a successful fetch replaces the asset array by a fresh one holding the fetched assets, unsorted |
| Dashboard.AppState.SortCryptocurrencies | script.js:192-208 | the asset array is sorted in place under the parsed key: a sorted permutation of its old contents, with tied assets kept in their old order |
| Dashboard.AppState.ChangeSortOption | script.js:70-74 | the sort option is stored and the asset array is re-sorted under it |

## Left out

- The network fetch, the request URL, its query parameters and the API key (script.js:100-132) are remote I/O. A successful fetch appears only as `ReplaceCryptocurrencies`. A failed fetch leaves the state unchanged, so it needs no member.
- Loading and saving preferences and the comparison list with `localStorage` and JSON (script.js:30-49) call a storage API. A list loaded from storage is taken as it is in the source. `ReplayValid` covers only lists built from empty.
- Page rendering, the `innerHTML` templates, class toggles, the full-list `alert` and event-listener wiring (script.js:11-19, 52-97, 135-189, 243-317) are user interface. The refusal appears only as the `Full` outcome.
- The `showChanges` and `darkMode` preferences change only what is rendered, so they are not modelled.
- The one-minute `setInterval` refresh (script.js:320-324) is timer behaviour.
- Numbers are integers, not floating-point values. `toLocaleString`, `toFixed(2)` and the float subtraction of the comparator are not modelled; only the sign of the difference matters to the sort.
- Abbreviate.Abbreviate: yields the divisor and the suffix, not the text `toFixed(2)` produces from the quotient, because that text depends on floating-point rounding.
- Assets.NameOrder: `localeCompare` is replaced by the lexicographic order of characters, because the locale's collation is not visible. Any total order would do for the proofs.
- An asset carries only the properties of the listing that the dashboard reads. Other properties of the listing, such as `ath` or `atl`, are not modelled. If a field without a '_' named such a numeric property, that sort would reorder.
- Null values in the listing are not modelled. Neither are text properties that read as numbers.
