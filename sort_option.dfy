/**
 * The sort preference string `userPreferences.sortOption` and the way the
 * dashboard takes it apart: `sortOption.split('_')`, the field is token 0 and
 * the direction token 2 (script.js:106-108 and script.js:193-195).
 */
module SortOption {
  import opened Wrappers

  /** The preference the dashboard starts with (script.js:7). */
  const DefaultSortOption: string := "market_cap_desc"

  /**
   * `s.split(sep)` for a one-character separator, as JavaScript does it:
   * there is always at least one piece, and "" splits into [""].
   * The first piece is the text before the first separator.
   */
  function Split(s: string, sep: char): (r: seq<string>)
    ensures |r| >= 1
    ensures r[0] <= s && sep !in r[0]
    ensures |r[0]| < |s| ==> s[|r[0]|] == sep
    decreases |s|
  {
    if s == [] then [""]
    else
      var rest := Split(s[1..], sep);
      if s[0] == sep then [""] + rest
      else [[s[0]] + rest[0]] + rest[1..]
  }

  /** A text without the separator is one piece. */
  lemma {:induction false} SplitWithoutSeparator(s: string, sep: char)
    requires sep !in s
    ensures Split(s, sep) == [s]
    decreases |s|
  {
    if s != [] {
      SplitWithoutSeparator(s[1..], sep);
      assert [s[0]] + s[1..] == s;
    }
  }

  /** Splitting at a separator preceded by a separator-free text `x`. */
  lemma {:induction false} SplitAfterPiece(x: string, y: string, sep: char)
    requires sep !in x
    ensures Split(x + [sep] + y, sep) == [x] + Split(y, sep)
    decreases |x|
  {
    if x == [] {
      assert x + [sep] + y == [sep] + y;
      assert ([sep] + y)[1..] == y;
    } else {
      var s := x + [sep] + y;
      assert s[0] == x[0];
      assert s[1..] == x[1..] + [sep] + y;
      SplitAfterPiece(x[1..], y, sep);
      assert [x[0]] + x[1..] == x;
    }
  }

  /**
   * What the dashboard reads out of a sort option: token 0 as the field and
   * token 2 as the direction, `None` when the option has fewer than three
   * tokens (JavaScript's `undefined`).
   */
  datatype SortKey = SortKey(field: string, direction: Option<string>)

  /**
   * `sortBy = sortOption.split('_')`, `sortField = sortBy[0]`,
   * `sortOrder = sortBy[2]`. The field is everything before the first '_'.
   */
  function Parse(option: string): (k: SortKey)
    ensures k.field <= option && '_' !in k.field
    ensures |k.field| < |option| ==> option[|k.field|] == '_'
  {
    var tokens := Split(option, '_');
    SortKey(tokens[0], if |tokens| > 2 then Some(tokens[2]) else None)
  }

  /**
   * An option written as `<field>_<anchor>_<direction>` with no '_' inside
   * the three parts parses to that field and that direction.
   */
  lemma ParseThreeTokens(field: string, anchor: string, direction: string)
    requires '_' !in field && '_' !in anchor && '_' !in direction
    ensures Parse(field + "_" + anchor + "_" + direction) == SortKey(field, Some(direction))
  {
    var option := field + "_" + anchor + "_" + direction;
    assert option == field + ['_'] + (anchor + ['_'] + direction);
    SplitAfterPiece(field, anchor + ['_'] + direction, '_');
    SplitAfterPiece(anchor, direction, '_');
    SplitWithoutSeparator(direction, '_');
  }

  /**
   * An option whose anchor itself holds a '_' shifts the tokens: the
   * direction is read from inside the anchor.
   */
  lemma ParseReadsTokenTwo(field: string, a1: string, a2: string, direction: string)
    requires '_' !in field && '_' !in a1 && '_' !in a2 && '_' !in direction
    ensures Parse(field + "_" + a1 + "_" + a2 + "_" + direction) == SortKey(field, Some(a2))
  {
    var option := field + "_" + a1 + "_" + a2 + "_" + direction;
    assert option == field + ['_'] + (a1 + ['_'] + (a2 + ['_'] + direction));
    SplitAfterPiece(field, a1 + ['_'] + (a2 + ['_'] + direction), '_');
    SplitAfterPiece(a1, a2 + ['_'] + direction, '_');
    SplitAfterPiece(a2, direction, '_');
  }

  /** An option with a single '_' has no third token: the direction is undefined. */
  lemma ParseTwoTokens(field: string, direction: string)
    requires '_' !in field && '_' !in direction
    ensures Parse(field + "_" + direction) == SortKey(field, None)
  {
    SplitAfterPiece(field, direction, '_');
    SplitWithoutSeparator(direction, '_');
  }

  /** The default `market_cap_desc` parses to the field "market", not "market_cap". */
  lemma DefaultParsesToMarket()
    ensures Parse(DefaultSortOption) == SortKey("market", Some("desc"))
  {
    assert DefaultSortOption == "market" + "_" + "cap" + "_" + "desc";
    ParseThreeTokens("market", "cap", "desc");
  }
}
