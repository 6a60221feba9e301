/** The Mayer-multiple advice printed in the reports (`evaluate_mayer`). */
module Mayer {
  import opened Wrappers

  datatype Multiple = Multiple(current: real, average: real)

  datatype Advice = NotAvailable | BuyAdvice | SellAdvice | HoldAdvice

  /** Above this multiple the advice is to sell. */
  const SellAbove: real := 2.4

  function EvaluateMayer(mayer: Option<Multiple>): (a: Advice)
    ensures a == NotAvailable <==> mayer.None?
    ensures a == BuyAdvice <==> mayer.Some? && mayer.value.current < mayer.value.average
    ensures a == SellAdvice <==> mayer.Some? && mayer.value.average <= mayer.value.current && mayer.value.current > SellAbove
  {
    match mayer
    case None => NotAvailable
    case Some(m) =>
      if m.current < m.average then BuyAdvice
      else if m.current > SellAbove then SellAdvice
      else HoldAdvice
  }

  lemma EvaluateMayerExamples()
    ensures EvaluateMayer(Some(Multiple(1.0, 1.5))) == BuyAdvice
    ensures EvaluateMayer(Some(Multiple(2.5, 1.5))) == SellAdvice
    ensures EvaluateMayer(Some(Multiple(2.0, 1.5))) == HoldAdvice
  {
  }
}
