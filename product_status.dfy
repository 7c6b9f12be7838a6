/** Catalogue product statuses and the legacy J/N active flag. */
module ProductStatusEnum {
  import opened PhpStrings

  datatype ProductStatus = Active | Inactive | OutOfStock | Discontinued

  function Value(s: ProductStatus): string {
    match s
    case Active => "active"
    case Inactive => "inactive"
    case OutOfStock => "out_of_stock"
    case Discontinued => "discontinued"
  }

  predicate IsAvailable(s: ProductStatus) {
    s == Active
  }

  /** ProductStatus::fromLegacyFlag: the upper-cased flag J, Y or 1 is active, anything else inactive. */
  function FromLegacyFlag(flag: string): (r: ProductStatus)
    ensures r == Active || r == Inactive
  {
    var u := ToUpper(flag);
    if u == "J" || u == "Y" || u == "1" then Active else Inactive
  }

  /** Available is the same as active. */
  lemma AvailableIsActive(s: ProductStatus)
    ensures IsAvailable(s) <==> s == Active
  {
  }

  /** The one-character strings strtoupper turns into c, for c an upper-case letter or a digit. */
  lemma {:induction false} UpperIsOneChar(flag: string, c: char)
    requires c == 'J' || c == 'Y' || c == '1'
    ensures ToUpper(flag) == [c] <==> flag == [c] || (c != '1' && flag == [(c as int - 'A' as int + 'a' as int) as char])
  {
    if ToUpper(flag) == [c] {
      assert |flag| == 1;
      assert UpperChar(flag[0]) == c;
      assert flag == [flag[0]];
    }
  }

  /**
   * A flag is active exactly when it is one of J, j, Y, y or 1; in particular
   * N and the empty flag are inactive.
   */
  lemma {:induction false} ActiveFlags(flag: string)
    ensures FromLegacyFlag(flag) == Active <==> flag in {"J", "j", "Y", "y", "1"}
    ensures FromLegacyFlag("N") == Inactive && FromLegacyFlag("") == Inactive
  {
    UpperIsOneChar(flag, 'J');
    UpperIsOneChar(flag, 'Y');
    UpperIsOneChar(flag, '1');
    assert ToUpper("N") == "N";
  }

  /** A product read from a legacy flag is available exactly when the upper-cased flag is J, Y or 1. */
  lemma AvailableFromFlag(flag: string)
    ensures IsAvailable(FromLegacyFlag(flag)) <==> ToUpper(flag) in {"J", "Y", "1"}
  {
  }
}
