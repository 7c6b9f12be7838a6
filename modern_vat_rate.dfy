/** The VAT rates of the first modernised shop and their mapping from numeric product types. */
module ModernVatRateEnum {
  datatype VatRate = High | Low | Zero

  function Value(r: VatRate): string {
    match r
    case High => "high"
    case Low => "low"
    case Zero => "zero"
  }

  /** The backing strings are pairwise distinct. */
  lemma ValuesDistinct(r: VatRate, q: VatRate)
    ensures Value(r) == Value(q) <==> r == q
  {
  }

  /** VatRate::fromProductType: type 1 is the high rate, 2 the low rate, any other integer zero. */
  function FromProductType(t: int): VatRate {
    if t == 1 then High else if t == 2 then Low else Zero
  }

  /** Each rate comes from exactly the product types the match lists for it. */
  lemma ProductTypeCases(t: int)
    ensures FromProductType(t) == High <==> t == 1
    ensures FromProductType(t) == Low <==> t == 2
    ensures FromProductType(t) == Zero <==> t != 1 && t != 2
  {
  }
}
