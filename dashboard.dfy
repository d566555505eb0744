/**
 * The dashboard's module-level state -- the asset list `cryptocurrencies`,
 * the comparison list `comparisonList` and the sort preference -- and the
 * handlers that change it in place.
 */
module Dashboard {
  import opened SortOption
  import opened Assets
  import opened Sorting
  import opened Comparison

  class AppState {
    /** The asset list of the last successful fetch, in display order. */
    var cryptocurrencies: array<Asset>
    /** The assets picked for comparison, in the order they were picked. */
    var comparisonList: seq<Entry>
    /** `userPreferences.sortOption` */
    var sortOption: string

    ghost predicate Valid()
      reads this
    {
      Comparison.Valid(comparisonList)
    }

    /** The state before anything is loaded or fetched (script.js:2-8). */
    constructor ()
      ensures Valid()
      ensures cryptocurrencies.Length == 0 && comparisonList == [] && sortOption == DefaultSortOption
    {
      cryptocurrencies := new Asset[0];
      comparisonList := [];
      sortOption := DefaultSortOption;
    }

    /** `toggleCryptocurrencyComparison(crypto)` (script.js:214-240). */
    method ToggleCryptocurrencyComparison(crypto: Asset) returns (outcome: ToggleOutcome)
      modifies this
      ensures Toggled(outcome, comparisonList) == Toggle(old(comparisonList), crypto)
      ensures old(Valid()) ==> Valid()
      ensures old(Valid()) && outcome != Full ==>
        (Selected(comparisonList, crypto.id) <==> !Selected(old(comparisonList), crypto.id))
      ensures cryptocurrencies == old(cryptocurrencies) && sortOption == old(sortOption)
    {
      if Valid() {
        ToggleKeepsValid(comparisonList, crypto);
        ToggleFlipsSelection(comparisonList, crypto, crypto.id);
      }
      var index := FindIndex(comparisonList, crypto.id);
      if index == -1 {
        if |comparisonList| < Capacity {
          comparisonList := comparisonList + [Project(crypto)];
          outcome := Added;
        } else {
          // the user is told the list is full; nothing changes
          outcome := Full;
          return;
        }
      } else {
        comparisonList := comparisonList[..index] + comparisonList[index + 1..];
        outcome := Removed;
      }
    }

    /** The remove button of the comparison entry at `index` (script.js:275). */
    method RemoveComparisonAt(index: int)
      modifies this
      ensures comparisonList == Splice(old(comparisonList), index)
      ensures old(Valid()) ==> Valid()
      ensures cryptocurrencies == old(cryptocurrencies) && sortOption == old(sortOption)
    {
      if Valid() {
        SpliceKeepsValid(comparisonList, index);
      }
      comparisonList := Splice(comparisonList, index);
    }

    /** The "clear" button (script.js:92). */
    method ClearComparison()
      modifies this
      ensures comparisonList == [] && Valid()
      ensures cryptocurrencies == old(cryptocurrencies) && sortOption == old(sortOption)
    {
      comparisonList := [];
    }

    /**
     * A successful fetch replaces the asset list wholesale (script.js:119),
     * in the order the listing delivered it.
     */
    method ReplaceCryptocurrencies(fetched: seq<Asset>)
      modifies this
      ensures fresh(cryptocurrencies) && cryptocurrencies[..] == fetched
      ensures comparisonList == old(comparisonList) && sortOption == old(sortOption)
    {
      cryptocurrencies := new Asset[|fetched|](i requires 0 <= i < |fetched| => fetched[i]);
    }

    /**
     * `sortAndDisplayCryptocurrencies` (script.js:192-208): sorts the asset
     * list in place under the key read from the sort preference.
     */
    method SortCryptocurrencies()
      modifies cryptocurrencies
      ensures cryptocurrencies[..] == SortSpec(old(cryptocurrencies[..]), Parse(sortOption))
      ensures Sorted(cryptocurrencies[..], Parse(sortOption))
      ensures multiset(cryptocurrencies[..]) == multiset(old(cryptocurrencies[..]))
      ensures forall c :: Ties(cryptocurrencies[..], Parse(sortOption), c) == Ties(old(cryptocurrencies[..]), Parse(sortOption), c)
    {
      var key := Parse(sortOption);
      SortInPlace(cryptocurrencies, key);
    }

    /** The sort selector's change handler (script.js:70-74). */
    method ChangeSortOption(option: string)
      modifies this, cryptocurrencies
      ensures sortOption == option && cryptocurrencies == old(cryptocurrencies)
      ensures cryptocurrencies[..] == SortSpec(old(cryptocurrencies[..]), Parse(option))
      ensures comparisonList == old(comparisonList)
    {
      sortOption := option;
      SortCryptocurrencies();
    }
  }
}
