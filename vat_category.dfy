/** The VAT categories of the v2 catalogue and how legacy product-type codes map onto them. */
module VatCategoryEnum {
  import opened Wrappers
  import opened PhpValues

  datatype VatCategory = High | Low | Zero

  function Value(c: VatCategory): string {
    match c
    case High => "high"
    case Low => "low"
    case Zero => "zero"
  }

  /** The backing strings are pairwise distinct. */
  lemma ValuesDistinct(c: VatCategory, d: VatCategory)
    ensures Value(c) == Value(d) <==> c == d
  {
  }

  /** percentage(): the rate in whole percent. */
  function Percentage(c: VatCategory): (p: nat)
    ensures p <= 100
  {
    match c
    case High => 21
    case Low => 9
    case Zero => 0
  }

  /** Higher categories carry a strictly higher percentage, so the percentage identifies the category. */
  lemma PercentageOrder(c: VatCategory, d: VatCategory)
    ensures Percentage(High) > Percentage(Low) > Percentage(Zero) == 0
    ensures Percentage(c) == Percentage(d) <==> c == d
  {
  }

  /** The argument of fromLegacyType, declared int|string. */
  datatype LegacyType = LegacyInt(i: PhpInt) | LegacyText(s: string)

  /**
   * How a loose value is passed to fromLegacyType from a file declaring
   * strict_types: integers and strings pass unchanged, anything else is a
   * TypeError, written None.
   */
  function LegacyTypeArgument(v: Value): (r: Option<LegacyType>)
    ensures r.Some? <==> v.Int? || v.Str?
  {
    match v
    case Int(i) => Some(LegacyInt(i))
    case Str(s) => Some(LegacyText(s))
    case _ => None
  }

  /** VatCategory::fromLegacyType, comparing with ===: no conversion between 2 and "2". */
  function FromLegacyType(t: LegacyType): VatCategory {
    if t == LegacyInt(1) || t == LegacyText("1") then High
    else if t == LegacyText("laag") || t == LegacyInt(2) then Low
    else Zero
  }

  /** Exactly the codes 1 and "1" are the high rate, exactly "laag" and 2 the low rate; everything else is zero. */
  lemma LegacyTypeCases(t: LegacyType)
    ensures FromLegacyType(t) == High <==> t in {LegacyInt(1), LegacyText("1")}
    ensures FromLegacyType(t) == Low <==> t in {LegacyInt(2), LegacyText("laag")}
    ensures FromLegacyType(t) == Zero <==> t !in {LegacyInt(1), LegacyText("1"), LegacyInt(2), LegacyText("laag")}
  {
  }

  /** Because of the strict comparison, the string "2" is not the low rate, and neither is the default 0. */
  lemma StrictComparison()
    ensures FromLegacyType(LegacyText("2")) == Zero
    ensures FromLegacyType(LegacyInt(0)) == Zero
    ensures FromLegacyType(LegacyText("hoog")) == Zero
  {
  }
}
