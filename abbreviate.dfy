/**
 * The suffix choice of `abbreviateNumber` (script.js:327-337), used for the
 * market capitalisation and volume on each card.
 */
module Abbreviate {

  /**
   * How a number is shown: divided by `divisor` with `suffix` behind it, or
   * as it is.
   */
  datatype Abbreviation = Scaled(divisor: nat, suffix: char) | AsIs

  /**
   * Billions from 1e9 on, millions from 1e6, thousands from 1e3; anything
   * smaller, negative numbers included, is shown unabbreviated. A scaled
   * number is at least one unit of its suffix, and below a thousand units
   * except for billions, which have no larger suffix.
   */
  function Abbreviate(num: int): (r: Abbreviation)
    ensures r.Scaled? ==> 0 < r.divisor <= num
    ensures r.Scaled? && r.suffix != 'B' ==> num < 1000 * r.divisor
    ensures r.AsIs? <==> num < 1000
  {
    if num >= 1_000_000_000 then Scaled(1_000_000_000, 'B')
    else if num >= 1_000_000 then Scaled(1_000_000, 'M')
    else if num >= 1_000 then Scaled(1_000, 'K')
    else AsIs
  }

  /** Which suffix each range of numbers gets. */
  lemma SuffixRanges(num: int)
    ensures Abbreviate(num).Scaled? && Abbreviate(num).suffix == 'B' <==> num >= 1_000_000_000
    ensures Abbreviate(num).Scaled? && Abbreviate(num).suffix == 'M' <==> 1_000_000 <= num < 1_000_000_000
    ensures Abbreviate(num).Scaled? && Abbreviate(num).suffix == 'K' <==> 1_000 <= num < 1_000_000
    ensures Abbreviate(num).Scaled? ==> Abbreviate(num).divisor == match Abbreviate(num).suffix
      case 'B' => 1_000_000_000
      case 'M' => 1_000_000
      case _ => 1_000
  {
  }
}
