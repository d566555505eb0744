/**
 * The comparison list `comparisonList`: at most five entries, keyed by asset
 * id, in the order they were picked. Toggling (script.js:214-240), removing
 * the entry at a position (script.js:275), clearing (script.js:92) and the
 * "is this asset picked" test of the cards (script.js:139, script.js:296).
 */
module Comparison {
  import opened Assets

  /** The comparison list holds at most this many entries. */
  const Capacity: nat := 5

  /** What the list keeps of an asset, captured when it is picked. */
  datatype Entry = Entry(id: string, name: string, symbol: string, image: string, price: int, change: int)

  /** The entry pushed for an asset (script.js:220-227). */
  function Project(a: Asset): Entry
  {
    Entry(a.id, a.name, a.symbol, a.image, a.currentPrice, a.priceChangePercentage24h)
  }

  /** `list.some(item => item.id === id)` */
  function Selected(list: seq<Entry>, id: string): (b: bool)
    ensures b <==> exists i :: 0 <= i < |list| && list[i].id == id
  {
    if list == [] then false
    else list[0].id == id || Selected(list[1..], id)
  }

  /** `list.findIndex(item => item.id === id)`: the first match, or -1. */
  function FindIndex(list: seq<Entry>, id: string): (r: int)
    ensures -1 <= r < |list|
    ensures r == -1 <==> !Selected(list, id)
    ensures r >= 0 ==> list[r].id == id && forall k :: 0 <= k < r ==> list[k].id != id
  {
    if list == [] then -1
    else if list[0].id == id then 0
    else
      var k := FindIndex(list[1..], id);
      if k == -1 then -1 else k + 1
  }

  /** The selection flag of every card, in the order of the assets. */
  function SelectionFlags(assets: seq<Asset>, list: seq<Entry>): (flags: seq<bool>)
    ensures |flags| == |assets|
    ensures forall i :: 0 <= i < |assets| ==> (flags[i] <==> Selected(list, assets[i].id))
  {
    if assets == [] then []
    else [Selected(list, assets[0].id)] + SelectionFlags(assets[1..], list)
  }

  /**
   * `list.splice(start, 1)` as JavaScript defines it: a negative start
   * counts from the end (and stops at 0), a start at or past the end removes
   * nothing.
   */
  function Splice(list: seq<Entry>, start: int): seq<Entry>
  {
    var from :=
      if start < 0 then (if |list| + start < 0 then 0 else |list| + start)
      else if start > |list| then |list| else start;
    if from < |list| then list[..from] + list[from + 1..] else list
  }

  /** No two entries share an id. */
  ghost predicate DistinctIds(list: seq<Entry>)
  {
    forall i, j :: 0 <= i < j < |list| ==> list[i].id != list[j].id
  }

  /** The invariant of the comparison list. */
  ghost predicate Valid(list: seq<Entry>)
  {
    |list| <= Capacity && DistinctIds(list)
  }

  datatype ToggleOutcome = Added | Removed | Full

  datatype Toggled = Toggled(outcome: ToggleOutcome, list: seq<Entry>)

  /**
   * `toggleCryptocurrencyComparison`: an asset already in the list is spliced
   * out; one that is not is appended when there is room, and otherwise the
   * call is refused with the list untouched.
   */
  function Toggle(list: seq<Entry>, a: Asset): Toggled
  {
    var index := FindIndex(list, a.id);
    if index == -1 then
      if |list| < Capacity then Toggled(Added, list + [Project(a)])
      else Toggled(Full, list)
    else Toggled(Removed, Splice(list, index))
  }

  /**
   * Removing a position that exists deletes that entry only: the ones before
   * stay where they are and the ones after move down by one.
   */
  lemma RemoveAtShifts(list: seq<Entry>, index: int)
    requires 0 <= index < |list|
    ensures var r := Splice(list, index);
      && |r| == |list| - 1
      && (forall k :: 0 <= k < index ==> r[k] == list[k])
      && (forall k :: index <= k < |r| ==> r[k] == list[k + 1])
  {
  }

  /** Removing an entry, at whatever position, keeps the invariant. */
  lemma SpliceKeepsValid(list: seq<Entry>, start: int)
    requires Valid(list)
    ensures Valid(Splice(list, start))
  {
    var r := Splice(list, start);
    if r != list {
      var from :| 0 <= from < |list| && r == list[..from] + list[from + 1..];
      forall i, j | 0 <= i < j < |r|
        ensures r[i].id != r[j].id
      {
        var i' := if i < from then i else i + 1;
        var j' := if j < from then j else j + 1;
        assert r[i] == list[i'] && r[j] == list[j'];
      }
    }
  }

  /**
   * An asset that is not picked, with room left, is appended: one more
   * entry, at the end, carrying the asset's id, name, symbol, image, current
   * price and 24h change, and every earlier entry unchanged.
   */
  lemma ToggleAppends(list: seq<Entry>, a: Asset)
    requires !Selected(list, a.id) && |list| < Capacity
    ensures var t := Toggle(list, a);
      && t.outcome == Added
      && |t.list| == |list| + 1
      && t.list[..|list|] == list
      && t.list[|list|] == Entry(a.id, a.name, a.symbol, a.image, a.currentPrice, a.priceChangePercentage24h)
  {
    assert (list + [Project(a)])[..|list|] == list;
  }

  /** An asset that is not picked, with the list full, is refused. */
  lemma ToggleRefusesWhenFull(list: seq<Entry>, a: Asset)
    requires !Selected(list, a.id) && |list| >= Capacity
    ensures Toggle(list, a) == Toggled(Full, list)
  {
  }

  /** Appending an entry picks its id and leaves every other id as it was. */
  lemma SelectedAfterAppend(list: seq<Entry>, e: Entry, id: string)
    ensures Selected(list + [e], id) == (Selected(list, id) || e.id == id)
  {
    var r := list + [e];
    if Selected(r, id) {
      var k :| 0 <= k < |r| && r[k].id == id;
      if k < |list| {
        assert list[k].id == id;
      }
    }
    if Selected(list, id) {
      var k :| 0 <= k < |list| && list[k].id == id;
      assert r[k].id == id;
    }
    assert r[|list|] == e;
  }

  /**
   * With distinct ids, removing the entry at `i` unpicks exactly that
   * entry's id.
   */
  lemma SelectedAfterRemove(list: seq<Entry>, i: nat, id: string)
    requires DistinctIds(list) && i < |list|
    ensures Selected(list[..i] + list[i + 1..], id) == (Selected(list, id) && id != list[i].id)
  {
    var r := list[..i] + list[i + 1..];
    if Selected(r, id) {
      var k :| 0 <= k < |r| && r[k].id == id;
      var k' := if k < i then k else k + 1;
      assert list[k'] == r[k] && k' != i;
      assert list[k'].id != list[i].id;
    }
    if Selected(list, id) && id != list[i].id {
      var k :| 0 <= k < |list| && list[k].id == id;
      if k < i {
        assert r[k] == list[k];
      } else {
        assert r[k - 1] == list[k];
      }
    }
  }

  /**
   * A picked asset is removed at the position `findIndex` reports; the other
   * entries keep their order. With distinct ids it is then no longer picked.
   */
  lemma ToggleRemovesFound(list: seq<Entry>, a: Asset)
    requires Selected(list, a.id)
    ensures var i := FindIndex(list, a.id);
      && 0 <= i < |list| && list[i].id == a.id
      && Toggle(list, a) == Toggled(Removed, list[..i] + list[i + 1..])
    ensures DistinctIds(list) ==> !Selected(Toggle(list, a).list, a.id)
  {
    if DistinctIds(list) {
      SelectedAfterRemove(list, FindIndex(list, a.id), a.id);
    }
  }

  /** A toggle that was not refused flips the toggled asset's selection, and only that one. */
  lemma ToggleFlipsSelection(list: seq<Entry>, a: Asset, id: string)
    requires DistinctIds(list)
    ensures var t := Toggle(list, a);
      && (t.outcome == Added <==> !Selected(list, a.id) && |list| < Capacity)
      && (t.outcome == Removed <==> Selected(list, a.id))
      && (id == a.id && t.outcome != Full ==> Selected(t.list, id) == !Selected(list, id))
      && (id != a.id || t.outcome == Full ==> Selected(t.list, id) == Selected(list, id))
  {
    var t := Toggle(list, a);
    if t.outcome == Added {
      SelectedAfterAppend(list, Project(a), id);
    } else if t.outcome == Removed {
      SelectedAfterRemove(list, FindIndex(list, a.id), id);
    }
  }

  /** Toggling keeps the comparison list within capacity and free of duplicates. */
  lemma ToggleKeepsValid(list: seq<Entry>, a: Asset)
    requires Valid(list)
    ensures Valid(Toggle(list, a).list)
  {
    var t := Toggle(list, a);
    if t.outcome == Added {
      forall i, j | 0 <= i < j < |t.list|
        ensures t.list[i].id != t.list[j].id
      {
        if j == |list| {
          assert t.list[i] == list[i];
        } else {
          assert t.list[i] == list[i] && t.list[j] == list[j];
        }
      }
    } else if t.outcome == Removed {
      SpliceKeepsValid(list, FindIndex(list, a.id));
    }
  }

  /** Toggling an asset that was just added takes it out again, leaving the list as before. */
  lemma ToggleUndoesAdd(list: seq<Entry>, a: Asset)
    requires Toggle(list, a).outcome == Added
    ensures Toggle(Toggle(list, a).list, a).list == list
  {
    var added := list + [Project(a)];
    assert forall k :: 0 <= k < |list| ==> added[k] == list[k];
    assert added[|list|].id == a.id;
    assert added[..|list|] == list;
  }

  /**
   * Toggling is not its own inverse when the first toggle removes: the
   * asset comes back at the end. From [a, b], toggling a gives [b], and
   * toggling a again gives [b, a].
   */
  lemma ToggleTwiceAfterRemoveReorders(a: Asset, b: Asset)
    requires a.id != b.id
    ensures var list := [Project(a), Project(b)];
      && Toggle(list, a) == Toggled(Removed, [Project(b)])
      && Toggle(Toggle(list, a).list, a) == Toggled(Added, [Project(b), Project(a)])
      && Toggle(Toggle(list, a).list, a).list != list
  {
    var list := [Project(a), Project(b)];
    assert FindIndex(list, a.id) == 0;
    assert list[1..] == [Project(b)];
    assert FindIndex([Project(b)], a.id) == -1;
  }

  /** The actions a user can take on the comparison list. */
  datatype Action = ToggleAsset(asset: Asset) | RemoveAt(index: int) | ClearAll

  function Apply(list: seq<Entry>, action: Action): seq<Entry>
  {
    match action
    case ToggleAsset(a) => Toggle(list, a).list
    case RemoveAt(index) => Splice(list, index)
    case ClearAll => []
  }

  /** The list after `actions`, in order, starting from the empty list. */
  function Replay(actions: seq<Action>): seq<Entry>
    decreases |actions|
  {
    if actions == [] then []
    else Apply(Replay(actions[..|actions| - 1]), actions[|actions| - 1])
  }

  lemma ApplyKeepsValid(list: seq<Entry>, action: Action)
    requires Valid(list)
    ensures Valid(Apply(list, action))
  {
    match action
    case ToggleAsset(a) => ToggleKeepsValid(list, a);
    case RemoveAt(index) => SpliceKeepsValid(list, index);
    case ClearAll =>
  }

  /**
   * From the empty list, no sequence of toggles, removals and clears ever
   * yields more than five entries or two entries with the same id.
   */
  lemma {:induction false} ReplayValid(actions: seq<Action>)
    ensures Valid(Replay(actions))
    decreases |actions|
  {
    if actions != [] {
      ReplayValid(actions[..|actions| - 1]);
      ApplyKeepsValid(Replay(actions[..|actions| - 1]), actions[|actions| - 1]);
    }
  }
}
