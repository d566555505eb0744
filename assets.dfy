/**
 * One asset of the market listing and the comparator that
 * `sortAndDisplayCryptocurrencies` hands to `Array.prototype.sort`
 * (script.js:197-208).
 */
module Assets {
  import opened Wrappers
  import opened SortOption

  /**
   * An asset as the listing delivers it. Prices, capitalisations, volumes and
   * percentages are numbers in the source; they are integers here.
   */
  datatype Asset = Asset(
    id: string,
    name: string,
    symbol: string,
    image: string,
    currentPrice: int,
    marketCap: int,
    totalVolume: int,
    priceChangePercentage24h: int)

  /** The names under which the listing carries an asset's numeric properties. */
  predicate IsNumericProperty(name: string)
  {
    name in {"current_price", "market_cap", "total_volume", "price_change_percentage_24h"}
  }

  /**
   * `asset[name]` read as a number: `None` when the asset has no numeric
   * property of that name (the property is missing or holds text), where the
   * source's subtraction yields NaN.
   */
  function Property(a: Asset, name: string): (r: Option<int>)
    ensures r.Some? <==> IsNumericProperty(name)
  {
    if name == "current_price" then Some(a.currentPrice)
    else if name == "market_cap" then Some(a.marketCap)
    else if name == "total_volume" then Some(a.totalVolume)
    else if name == "price_change_percentage_24h" then Some(a.priceChangePercentage24h)
    else None
  }

  /** Every numeric property name contains '_'. */
  lemma NumericPropertyHasUnderscore(name: string)
    requires IsNumericProperty(name)
    ensures '_' in name
  {
    if name == "current_price" {
      assert name[7] == '_';
    } else if name == "market_cap" {
      assert name[6] == '_';
    } else if name == "total_volume" {
      assert name[5] == '_';
    } else {
      assert name[5] == '_';
    }
  }

  /**
   * A field read from a sort option never names a numeric property: token 0
   * of `split('_')` holds no '_'.
   */
  lemma ParsedFieldIsNotNumeric(option: string)
    ensures !IsNumericProperty(Parse(option).field)
  {
    if IsNumericProperty(Parse(option).field) {
      NumericPropertyHasUnderscore(Parse(option).field);
    }
  }

  /**
   * The order `a.localeCompare(b)` stands for: a total order on names, here
   * the lexicographic order of their characters. Negative, zero or positive as
   * `x` comes before, equals or comes after `y`.
   */
  function NameOrder(x: string, y: string): (r: int)
    ensures -1 <= r <= 1
    ensures r == 0 <==> x == y
  {
    if x == [] && y == [] then 0
    else if x == [] then -1
    else if y == [] then 1
    else if x[0] < y[0] then -1
    else if x[0] > y[0] then 1
    else
      assert x == [x[0]] + x[1..] && y == [y[0]] + y[1..];
      NameOrder(x[1..], y[1..])
  }

  lemma {:induction false} NameOrderAntisymmetric(x: string, y: string)
    ensures NameOrder(x, y) == -NameOrder(y, x)
    decreases |x|
  {
    if x != [] && y != [] && x[0] == y[0] {
      NameOrderAntisymmetric(x[1..], y[1..]);
    }
  }

  lemma {:induction false} NameOrderTransitive(x: string, y: string, z: string)
    requires NameOrder(x, y) <= 0 && NameOrder(y, z) <= 0
    ensures NameOrder(x, z) <= 0
    decreases |x|
  {
    if x != [] && y != [] && z != [] && x[0] == y[0] == z[0] {
      NameOrderTransitive(x[1..], y[1..], z[1..]);
    }
  }

  /**
   * The comparator of `sortAndDisplayCryptocurrencies`: negative when `a`
   * goes first. Field "id" compares names, ascending exactly when the
   * direction is "asc" (any other direction, or none, sorts descending).
   * Any other field compares that numeric property, descending exactly when
   * the direction is "desc" (any other direction, or none, sorts ascending).
   * When the property is not numeric the source subtracts to NaN, which
   * `Array.prototype.sort` reads as 0: the two assets tie.
   */
  function Compare(key: SortKey, a: Asset, b: Asset): int
  {
    if key.field == "id" then
      if key.direction == Some("asc") then NameOrder(a.name, b.name) else NameOrder(b.name, a.name)
    else
      match (Property(a, key.field), Property(b, key.field))
      case (Some(x), Some(y)) => if key.direction == Some("desc") then y - x else x - y
      case _ => 0
  }

  /** Swapping the arguments negates the comparator. */
  lemma CompareAntisymmetric(key: SortKey, a: Asset, b: Asset)
    ensures Compare(key, a, b) == -Compare(key, b, a)
  {
    NameOrderAntisymmetric(a.name, b.name);
  }

  /** "Goes no later than" is transitive. */
  lemma CompareTransitive(key: SortKey, a: Asset, b: Asset, c: Asset)
    requires Compare(key, a, b) <= 0 && Compare(key, b, c) <= 0
    ensures Compare(key, a, c) <= 0
  {
    if key.field == "id" {
      if key.direction == Some("asc") {
        NameOrderTransitive(a.name, b.name, c.name);
      } else {
        NameOrderTransitive(c.name, b.name, a.name);
      }
    }
  }

  /** A key that makes every pair of assets tie. */
  predicate Inert(key: SortKey)
  {
    key.field != "id" && !IsNumericProperty(key.field)
  }

  /**
   * Every sort option whose field is not "id" -- the default
   * `market_cap_desc` among them -- gives an inert key.
   */
  lemma ParsedNonIdKeyIsInert(option: string)
    requires Parse(option).field != "id"
    ensures Inert(Parse(option))
  {
    ParsedFieldIsNotNumeric(option);
  }
}
