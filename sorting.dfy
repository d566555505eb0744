/**
 * `cryptocurrencies.sort(comparator)` in `sortAndDisplayCryptocurrencies`
 * (script.js:192-211). `Array.prototype.sort` is stable, so for a comparator
 * that is a total preorder its result is determined: sorted, a permutation,
 * and with tied assets in their input order. The specification below is the
 * stable insertion sort, proved to have all three properties
 * (`SortSpecSorted`, `SortSpecStable`); the in-place method implements it.
 */
module Sorting {
  import opened Wrappers
  import opened SortOption
  import opened Assets

  /** No asset goes after one that should follow it. */
  ghost predicate Sorted(s: seq<Asset>, key: SortKey)
  {
    forall i, j :: 0 <= i < j < |s| ==> Compare(key, s[i], s[j]) <= 0
  }

  /**
   * Inserts `x` behind a sorted run `t`, moving it forward only past the
   * assets that compare strictly greater, so ties keep their order.
   */
  function Insert(t: seq<Asset>, x: Asset, key: SortKey): seq<Asset>
    decreases |t|
  {
    if t != [] && Compare(key, t[|t| - 1], x) > 0 then
      Insert(t[..|t| - 1], x, key) + [t[|t| - 1]]
    else
      t + [x]
  }

  /** Inserting adds `x` and loses nothing. */
  lemma {:induction false} InsertPermutes(t: seq<Asset>, x: Asset, key: SortKey)
    ensures multiset(Insert(t, x, key)) == multiset(t) + multiset{x}
    decreases |t|
  {
    if t != [] && Compare(key, t[|t| - 1], x) > 0 {
      InsertPermutes(t[..|t| - 1], x, key);
      assert t == t[..|t| - 1] + [t[|t| - 1]];
    }
  }

  /** The stable sort of `s` under the comparator of `key`. */
  function SortSpec(s: seq<Asset>, key: SortKey): seq<Asset>
    decreases |s|
  {
    if s == [] then []
    else Insert(SortSpec(s[..|s| - 1], key), s[|s| - 1], key)
  }

  lemma {:induction false} InsertSorted(t: seq<Asset>, x: Asset, key: SortKey)
    requires Sorted(t, key)
    ensures Sorted(Insert(t, x, key), key)
    decreases |t|
  {
    if t != [] && Compare(key, t[|t| - 1], x) > 0 {
      var init, last := t[..|t| - 1], t[|t| - 1];
      InsertSorted(init, x, key);
      var u := Insert(init, x, key);
      InsertPermutes(init, x, key);
      forall y | y in u
        ensures Compare(key, y, last) <= 0
      {
        assert y in multiset(u);
        if y == x {
          CompareAntisymmetric(key, last, x);
        } else {
          assert y in multiset(init);
          var k :| 0 <= k < |init| && init[k] == y;
          assert t[k] == y;
        }
      }
      var r := u + [last];
      forall i, j | 0 <= i < j < |r|
        ensures Compare(key, r[i], r[j]) <= 0
      {
        if j < |u| {
          assert r[i] == u[i] && r[j] == u[j];
        } else {
          assert r[i] == u[i] && u[i] in u;
        }
      }
    } else if t != [] {
      var r := t + [x];
      forall i, j | 0 <= i < j < |r|
        ensures Compare(key, r[i], r[j]) <= 0
      {
        if j == |t| && i < |t| - 1 {
          CompareTransitive(key, t[i], t[|t| - 1], x);
        }
      }
    }
  }

  /** The specification yields a sorted permutation of its input. */
  lemma {:induction false} SortSpecSorted(s: seq<Asset>, key: SortKey)
    ensures Sorted(SortSpec(s, key), key)
    ensures multiset(SortSpec(s, key)) == multiset(s)
    decreases |s|
  {
    if s != [] {
      SortSpecSorted(s[..|s| - 1], key);
      InsertSorted(SortSpec(s[..|s| - 1], key), s[|s| - 1], key);
      InsertPermutes(SortSpec(s[..|s| - 1], key), s[|s| - 1], key);
      assert s == s[..|s| - 1] + [s[|s| - 1]];
    }
  }

  /** The assets of `t` that tie with `c` under the comparator, in their order in `t`. */
  function Ties(t: seq<Asset>, key: SortKey, c: Asset): seq<Asset>
    decreases |t|
  {
    if t == [] then []
    else Ties(t[..|t| - 1], key, c) + (if Compare(key, t[|t| - 1], c) == 0 then [t[|t| - 1]] else [])
  }

  lemma TiesAppend(u: seq<Asset>, y: Asset, key: SortKey, c: Asset)
    ensures Ties(u + [y], key, c) == Ties(u, key, c) + (if Compare(key, y, c) == 0 then [y] else [])
  {
    assert (u + [y])[..|u|] == u;
  }

  /** Two assets that both tie with `c` tie with each other. */
  lemma TiesTieEachOther(key: SortKey, y: Asset, x: Asset, c: Asset)
    ensures Compare(key, y, c) == 0 && Compare(key, x, c) == 0 ==> Compare(key, y, x) <= 0
  {
    CompareAntisymmetric(key, x, c);
    if Compare(key, y, c) <= 0 && Compare(key, c, x) <= 0 {
      CompareTransitive(key, y, c, x);
    }
  }

  /** Inserting `x` puts it behind every asset it ties with. */
  lemma {:induction false} InsertTies(t: seq<Asset>, x: Asset, key: SortKey, c: Asset)
    ensures Ties(Insert(t, x, key), key, c) == Ties(t, key, c) + (if Compare(key, x, c) == 0 then [x] else [])
    decreases |t|
  {
    if t != [] && Compare(key, t[|t| - 1], x) > 0 {
      var init, last := t[..|t| - 1], t[|t| - 1];
      InsertTies(init, x, key, c);
      TiesAppend(Insert(init, x, key), last, key, c);
      TiesTieEachOther(key, last, x, c);
    } else {
      TiesAppend(t, x, key, c);
    }
  }

  /**
   * The sort is stable: the assets that tie with any given asset come out in
   * the order they went in.
   */
  lemma {:induction false} SortSpecStable(s: seq<Asset>, key: SortKey, c: Asset)
    ensures Ties(SortSpec(s, key), key, c) == Ties(s, key, c)
    decreases |s|
  {
    if s != [] {
      SortSpecStable(s[..|s| - 1], key, c);
      InsertTies(SortSpec(s[..|s| - 1], key), s[|s| - 1], key, c);
    }
  }

  /** Under a key that ties every pair the sort leaves the order alone. */
  lemma {:induction false} InertSortKeepsOrder(s: seq<Asset>, key: SortKey)
    requires Inert(key)
    ensures SortSpec(s, key) == s
    decreases |s|
  {
    if s != [] {
      InertSortKeepsOrder(s[..|s| - 1], key);
      assert s[..|s| - 1] + [s[|s| - 1]] == s;
    }
  }

  /**
   * Every sort option other than an "id" one, the default `market_cap_desc`
   * included, leaves the asset list in the order it had.
   */
  lemma NonIdOptionKeepsOrder(s: seq<Asset>, option: string)
    requires Parse(option).field != "id"
    ensures SortSpec(s, Parse(option)) == s
  {
    ParsedNonIdKeyIsInert(option);
    InertSortKeepsOrder(s, Parse(option));
  }

  lemma DefaultOptionKeepsOrder(s: seq<Asset>)
    ensures SortSpec(s, Parse(DefaultSortOption)) == s
  {
    DefaultParsesToMarket();
    NonIdOptionKeepsOrder(s, DefaultSortOption);
  }

  /**
   * Field "id" orders by name: ascending when the direction is "asc",
   * descending for any other direction or none.
   */
  lemma SortedByName(s: seq<Asset>, key: SortKey)
    requires key.field == "id"
    ensures var r := SortSpec(s, key);
      forall i, j :: 0 <= i < j < |r| ==>
        if key.direction == Some("asc") then NameOrder(r[i].name, r[j].name) <= 0
        else NameOrder(r[j].name, r[i].name) <= 0
  {
    SortSpecSorted(s, key);
  }

  /**
   * A numeric field orders by that property: descending when the direction
   * is "desc", ascending for any other direction or none. This describes the
   * comparator for a key naming a numeric property; no key the dashboard
   * parses from a sort option does (`ParsedFieldIsNotNumeric`).
   */
  lemma SortedNumerically(s: seq<Asset>, key: SortKey)
    requires key.field != "id" && IsNumericProperty(key.field)
    ensures var r := SortSpec(s, key);
      forall i, j :: 0 <= i < j < |r| ==>
        var x, y := Property(r[i], key.field).value, Property(r[j], key.field).value;
        if key.direction == Some("desc") then x >= y else x <= y
  {
    SortSpecSorted(s, key);
  }

  /** Sorting an already sorted list changes nothing. */
  lemma {:induction false} SortSpecOfSorted(s: seq<Asset>, key: SortKey)
    requires Sorted(s, key)
    ensures SortSpec(s, key) == s
    decreases |s|
  {
    if s != [] {
      var init, last := s[..|s| - 1], s[|s| - 1];
      assert Sorted(init, key);
      SortSpecOfSorted(init, key);
      assert SortSpec(s, key) == Insert(init, last, key);
      if |init| > 0 {
        assert Compare(key, init[|init| - 1], last) <= 0;
      }
      assert init + [last] == s;
    }
  }

  /** Sorting twice with the same option is sorting once. */
  lemma SortIdempotent(s: seq<Asset>, key: SortKey)
    ensures SortSpec(SortSpec(s, key), key) == SortSpec(s, key)
  {
    SortSpecSorted(s, key);
    SortSpecOfSorted(SortSpec(s, key), key);
  }

  /**
   * Where `Insert` puts `x`: behind the assets of `t[..j]`, the last of which
   * does not compare greater, and in front of `t[j..]`, all of which do.
   */
  lemma {:induction false} InsertPosition(t: seq<Asset>, x: Asset, key: SortKey, j: nat)
    requires j <= |t|
    requires j == 0 || Compare(key, t[j - 1], x) <= 0
    requires forall k :: j <= k < |t| ==> Compare(key, t[k], x) > 0
    ensures Insert(t, x, key) == t[..j] + [x] + t[j..]
    decreases |t|
  {
    if j < |t| {
      var init := t[..|t| - 1];
      InsertPosition(init, x, key, j);
      assert init[..j] == t[..j];
      assert init[j..] + [t[|t| - 1]] == t[j..];
    } else {
      assert t[..j] == t;
    }
  }

  /**
   * Shifts the assets of `a[..i]` that compare strictly greater than `x` one
   * place up, from the back, and returns the slot left free for `x`.
   */
  method ShiftGreater(a: array<Asset>, i: nat, x: Asset, key: SortKey) returns (j: nat)
    requires i < a.Length
    modifies a
    ensures j <= i
    ensures forall k :: 0 <= k < j ==> a[k] == old(a[k])
    ensures forall k :: j < k <= i ==> a[k] == old(a[k - 1])
    ensures forall k :: i < k < a.Length ==> a[k] == old(a[k])
    ensures j == 0 || Compare(key, a[j - 1], x) <= 0
    ensures forall k :: j <= k < i ==> Compare(key, old(a[k]), x) > 0
  {
    j := i;
    while j > 0 && Compare(key, a[j - 1], x) > 0
      invariant j <= i
      invariant forall k :: 0 <= k < j ==> a[k] == old(a[k])
      invariant forall k :: j < k <= i ==> a[k] == old(a[k - 1])
      invariant forall k :: i < k < a.Length ==> a[k] == old(a[k])
      invariant forall k :: j <= k < i ==> Compare(key, old(a[k]), x) > 0
    {
      a[j] := a[j - 1];
      j := j - 1;
    }
  }

  /** The array after shifting and storing `x` holds the insertion of `x` into `t`. */
  lemma ShiftedIsInsert(t: seq<Asset>, b: seq<Asset>, x: Asset, key: SortKey, j: nat)
    requires j <= |t| < |b|
    requires forall k :: 0 <= k < j ==> b[k] == t[k]
    requires b[j] == x
    requires forall k :: j < k <= |t| ==> b[k] == t[k - 1]
    requires j == 0 || Compare(key, t[j - 1], x) <= 0
    requires forall k :: j <= k < |t| ==> Compare(key, t[k], x) > 0
    ensures b[..|t| + 1] == Insert(t, x, key)
  {
    InsertPosition(t, x, key, j);
    var r := t[..j] + [x] + t[j..];
    forall k | 0 <= k <= |t|
      ensures b[k] == r[k]
    {
      if k > j {
        assert r[k] == t[j..][k - j - 1];
      }
    }
  }

  /**
   * Moves `a[i]` back into the sorted run `a[..i]`, shifting the assets that
   * compare strictly greater one place up.
   */
  method InsertAt(a: array<Asset>, i: nat, key: SortKey)
    requires i < a.Length
    modifies a
    ensures a[..i + 1] == Insert(old(a[..i]), old(a[i]), key)
    ensures a[i + 1..] == old(a[i + 1..])
  {
    ghost var t := a[..i];
    ghost var tail := a[i + 1..];
    var x := a[i];
    var j := ShiftGreater(a, i, x, key);
    assert a[i + 1..] == tail;
    a[j] := x;
    assert a[i + 1..] == tail;
    ShiftedIsInsert(t, a[..], x, key, j);
  }

  /** The sort of a prefix one longer inserts the next asset. */
  lemma SortSpecStep(s: seq<Asset>, i: nat, key: SortKey)
    requires i < |s|
    ensures SortSpec(s[..i + 1], key) == Insert(SortSpec(s[..i], key), s[i], key)
  {
    assert s[..i + 1][..i] == s[..i];
  }

  /** In-place stable insertion sort of the asset array. */
  method SortInPlace(a: array<Asset>, key: SortKey)
    modifies a
    ensures a[..] == SortSpec(old(a[..]), key)
    ensures Sorted(a[..], key) && multiset(a[..]) == multiset(old(a[..]))
    ensures forall c :: Ties(a[..], key, c) == Ties(old(a[..]), key, c)
  {
    ghost var s := a[..];
    var i := 0;
    while i < a.Length
      invariant 0 <= i <= a.Length
      invariant a[..i] == SortSpec(s[..i], key)
      invariant a[i..] == s[i..]
    {
      SortSpecStep(s, i, key);
      assert a[i] == s[i] && a[i + 1..] == s[i + 1..];
      InsertAt(a, i, key);
      i := i + 1;
    }
    assert a[..] == a[..a.Length] && s == s[..a.Length];
    SortSpecSorted(s, key);
    forall c {
      SortSpecStable(s, key, c);
    }
  }
}
