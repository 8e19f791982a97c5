/**
 * The form's five state cells and the handlers that change them: one
 * setter per input field, Submit and Clear. Each handler is one atomic
 * update of the state.
 */
module FormState {
  import opened Wrappers
  import opened JsText
  import opened Calculator

  class Form {
    // the three raw inputs, exactly as typed
    var productName: string
    var totalUnits: string
    var unitsPerPackage: string
    // what the last submission produced
    var result: Option<CalculationResult>
    var error: string

    /**
     * A result and an error are never shown together, and a shown result
     * obeys the result invariant.
     */
    predicate Valid()
      reads this
    {
      result.Some? ==> error == [] && ValidResult(result.value)
    }

    /** All fields blank, no result, no error: the initial and the cleared state. */
    predicate IsEmpty()
      reads this
    {
      productName == [] && totalUnits == [] && unitsPerPackage == [] && result == None && error == []
    }

    constructor ()
      ensures IsEmpty() && Valid()
    {
      productName, totalUnits, unitsPerPackage := [], [], [];
      result, error := None, [];
    }

    /** Typing in the name field: only the name changes, a shown result or error stays. */
    method EditName(value: string)
      requires Valid()
      modifies this
      ensures Valid()
      ensures productName == value
      ensures totalUnits == old(totalUnits) && unitsPerPackage == old(unitsPerPackage)
      ensures result == old(result) && error == old(error)
    {
      productName := value;
    }

    /** Typing in the total-units field: only that field changes. */
    method EditTotal(value: string)
      requires Valid()
      modifies this
      ensures Valid()
      ensures totalUnits == value
      ensures productName == old(productName) && unitsPerPackage == old(unitsPerPackage)
      ensures result == old(result) && error == old(error)
    {
      totalUnits := value;
    }

    /** Typing in the units-per-package field: only that field changes. */
    method EditPerPackage(value: string)
      requires Valid()
      modifies this
      ensures Valid()
      ensures unitsPerPackage == value
      ensures productName == old(productName) && totalUnits == old(totalUnits)
      ensures result == old(result) && error == old(error)
    {
      unitsPerPackage := value;
    }

    /**
     * The submit handler. The result is reset first, then the required
     * fields are checked, then the quantities; only when both checks pass
     * is the error cleared and the new result stored. Afterwards exactly
     * one of "a result is shown" and "an error is shown" holds, and which
     * one, with what content, is what Calculate says of the raw inputs.
     */
    method Submit()
      requires Valid()
      modifies this
      ensures Valid()
      ensures result.Some? <==> error == []
      ensures match Calculate(productName, totalUnits, unitsPerPackage)
        case Ok(r) => result == Some(r) && error == []
        case Err(e) => result == None && error == Message(e)
      ensures productName == old(productName) && totalUnits == old(totalUnits)
      ensures unitsPerPackage == old(unitsPerPackage)
    {
      ghost var expected := Calculate(productName, totalUnits, unitsPerPackage);
      result := None;

      if Trim(productName) == [] || totalUnits == [] || unitsPerPackage == [] {
        assert expected == Err(MissingField);
        error := Message(MissingField);
        return;
      }

      var numTotalUnits := ParseInt(totalUnits);
      var numUnitsPerPackage := ParseInt(unitsPerPackage);

      if numTotalUnits.None? || numUnitsPerPackage.None?
         || numTotalUnits.value <= 0 || numUnitsPerPackage.value <= 0
      {
        assert expected == Err(InvalidQuantity);
        error := Message(InvalidQuantity);
        return;
      }

      error := [];

      var packagesNeeded := CeilDiv(numTotalUnits.value, numUnitsPerPackage.value);

      result := Some(CalculationResult(
        Trim(productName),
        numTotalUnits.value,
        numUnitsPerPackage.value,
        packagesNeeded));
      assert result.value == Compute(productName, numTotalUnits.value, numUnitsPerPackage.value);
      assert expected == Ok(result.value);
    }

    /** The clear handler: back to the empty state, whatever came before. */
    method Clear()
      modifies this
      ensures IsEmpty() && Valid()
    {
      productName := [];
      totalUnits := [];
      unitsPerPackage := [];
      result := None;
      error := [];
    }
  }

  /**
   * A client of the form: a stale result does not survive a failed
   * submission, and edits leave the last outcome on display until the
   * next Submit or Clear.
   */
  method StaleResultScenario(name: string, total: nat, perPackage: nat)
    requires !AllWhitespace(name) && total > 0 && perPackage > 0
  {
    var totalText, perPackageText, junk := Decimal(total), Decimal(perPackage), "abc";
    CalculateOfNumerals(name, total, perPackage, [], []);
    assert totalText + [] == totalText && perPackageText + [] == perPackageText;
    ghost var computed := CalculationResult(Trim(name), total, perPackage, CeilDiv(total, perPackage));
    assert Calculate(name, totalText, perPackageText) == Ok(computed);
    TrimEmptyIff(name);
    ParseIntNoDigits(junk);
    CalculateInvalidQuantity(name, junk, perPackageText);
    assert Calculate(name, junk, perPackageText) == Err(InvalidQuantity);

    var f := new Form();
    f.EditName(name);
    f.EditTotal(totalText);
    f.EditPerPackage(perPackageText);
    f.Submit();
    assert f.result == Some(computed);
    f.EditTotal(junk);
    assert f.result == Some(computed);
    f.Submit();
    assert f.result == None && f.error == Message(InvalidQuantity);
    f.Clear();
    assert f.IsEmpty();
  }
}
