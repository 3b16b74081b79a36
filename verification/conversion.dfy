/**
 The conversion arithmetic: an ADR price and a USD/TWD rate give the implied
 local share price, and an optional local reference price gives the spread.
 Floats are modelled as reals.
 */
module Conversion {

  import opened Common

  /** The implied local price, ADR price / 5 * rate. */
  function ConvertedPrice(adrPrice: real, usdTwd: real): (p: real)
    ensures p * SHARE_RATIO == adrPrice * usdTwd
  {
    (adrPrice / SHARE_RATIO) * usdTwd
  }

  /** `part` as a percentage of a non-zero `whole`. */
  function PercentOf(part: real, whole: real): (pct: real)
    requires whole != 0.0
    ensures pct * whole == part * 100.0
  {
    (part / whole) * 100.0
  }

  /** The comparison against a local reference price. */
  datatype Comparison = Comparison(twReferencePrice: real, difference: real, differencePercent: real)

  /** The conversion endpoint's answer, without the explanation text. */
  datatype Converted = Converted(convertedPrice: real, compared: Option<Comparison>)

  /** Converts and, only when the reference price is truthy (present and
      non-zero), compares; so no zero price is ever divided by. */
  function Convert(adrPrice: real, usdTwd: real, twReference: Option<real>): (c: Converted)
    ensures c.convertedPrice * SHARE_RATIO == adrPrice * usdTwd
    ensures c.compared.Some? <==> Truthy(twReference)
    ensures c.compared.Some? ==>
      && c.compared.value.twReferencePrice == twReference.value
      && c.compared.value.twReferencePrice + c.compared.value.difference == c.convertedPrice
      && c.compared.value.differencePercent * twReference.value == c.compared.value.difference * 100.0
  {
    var converted := ConvertedPrice(adrPrice, usdTwd);
    if Truthy(twReference) then
      var diff := converted - twReference.value;
      Converted(converted, Some(Comparison(twReference.value, diff, PercentOf(diff, twReference.value))))
    else
      Converted(converted, None)
  }

  /** The worked example: 100 USD at 32 TWD per USD is 640 TWD per share. */
  lemma ConvertExample()
    ensures Convert(100.0, 32.0, None) == Converted(640.0, None)
    ensures Convert(100.0, 32.0, Some(600.0)).compared == Some(Comparison(600.0, 40.0, 20.0 / 3.0))
  {
  }
}
