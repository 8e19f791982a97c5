/**
 * The validate-then-compute routine run when the form is submitted:
 * three raw strings in, either a calculation result or the first
 * validation error out.
 */
module Calculator {
  import opened Wrappers
  import opened JsText

  /** What the form shows after a successful submission. */
  datatype CalculationResult = CalculationResult(
    productName: string,
    totalUnits: int,
    unitsPerPackage: int,
    packagesNeeded: int)

  datatype ValidationError = MissingField | InvalidQuantity

  datatype Outcome = Ok(result: CalculationResult) | Err(error: ValidationError)

  /** The message the form shows for each error. */
  function Message(e: ValidationError): (m: string)
    ensures m != []
  {
    match e
    case MissingField => "Todos os campos são obrigatórios."
    case InvalidQuantity => "As quantidades devem ser números positivos maiores que zero."
  }

  /** `Math.ceil(total / perPackage)`, as exact integer division rounded up. */
  function CeilDiv(total: int, perPackage: int): (q: int)
    requires perPackage > 0
    ensures q * perPackage >= total
    ensures (q - 1) * perPackage < total
  {
    var q := (total + perPackage - 1) / perPackage;
    var m := (total + perPackage - 1) % perPackage;
    assert q * perPackage == total + perPackage - 1 - m;
    assert (q - 1) * perPackage == q * perPackage - perPackage;
    q
  }

  /** The two bounds pin the package count down: no other number satisfies both. */
  lemma CeilDivUnique(total: int, perPackage: int, q: int)
    requires perPackage > 0
    requires q * perPackage >= total && (q - 1) * perPackage < total
    ensures q == CeilDiv(total, perPackage)
  {
    var c := CeilDiv(total, perPackage);
    MulMonotone(q, c - 1, perPackage);
    MulMonotone(c, q - 1, perPackage);
  }

  lemma MulMonotone(a: int, b: int, k: int)
    ensures k >= 0 && a <= b ==> a * k <= b * k
  {
    if k >= 0 && a <= b {
      assert b * k - a * k == (b - a) * k;
    }
  }

  /** At least one package is needed for a positive total; equal sizes need one, one unit more needs two. */
  lemma CeilDivBoundaries(total: int, perPackage: int)
    requires perPackage > 0
    ensures total > 0 ==> CeilDiv(total, perPackage) >= 1
    ensures CeilDiv(perPackage, perPackage) == 1
    ensures CeilDiv(perPackage + 1, perPackage) == 2
  {
    CeilDivUnique(perPackage, perPackage, 1);
    CeilDivUnique(perPackage + 1, perPackage, 2);
    MulMonotone(CeilDiv(total, perPackage), 0, perPackage);
  }

  /** A result as the form may display it: the invariant of a calculation result. */
  predicate ValidResult(r: CalculationResult) {
    && r.productName != [] && IsTrimmed(r.productName)
    && r.totalUnits > 0 && r.unitsPerPackage > 0
    && r.packagesNeeded >= 1
    && r.packagesNeeded * r.unitsPerPackage >= r.totalUnits
    && (r.packagesNeeded - 1) * r.unitsPerPackage < r.totalUnits
  }

  /** The required-field test: the name is checked after trimming, the quantities as typed. */
  predicate MissingInput(name: string, totalRaw: string, perPackageRaw: string) {
    Trim(name) == [] || totalRaw == [] || perPackageRaw == []
  }

  predicate IsPositive(n: Option<int>) {
    n.Some? && n.value > 0
  }

  /**
   * The body of the submit handler: required fields first, then the
   * two quantities parsed and checked positive, then the package count.
   */
  function Calculate(name: string, totalRaw: string, perPackageRaw: string): (out: Outcome)
    ensures out.Ok? ==> ValidResult(out.result)
  {
    if MissingInput(name, totalRaw, perPackageRaw) then Err(MissingField)
    else
      var total := ParseInt(totalRaw);
      var perPackage := ParseInt(perPackageRaw);
      if total.None? || perPackage.None? || total.value <= 0 || perPackage.value <= 0 then
        Err(InvalidQuantity)
      else
        Ok(Compute(name, total.value, perPackage.value))
  }

  /** The success branch: the trimmed name, the two quantities and the package count. */
  function Compute(name: string, total: int, perPackage: int): (r: CalculationResult)
    requires Trim(name) != [] && total > 0 && perPackage > 0
    ensures ValidResult(r)
  {
    TrimIsInnerPart(name);
    CeilDivBoundaries(total, perPackage);
    CalculationResult(Trim(name), total, perPackage, CeilDiv(total, perPackage))
  }

  /** A blank name or an empty quantity is reported as a missing field, before anything is parsed. */
  lemma CalculateMissingField(name: string, totalRaw: string, perPackageRaw: string)
    ensures Calculate(name, totalRaw, perPackageRaw) == Err(MissingField)
        <==> AllWhitespace(name) || totalRaw == [] || perPackageRaw == []
  {
    TrimEmptyIff(name);
  }

  /** With every field filled in, a quantity that is NaN or not positive is reported as invalid. */
  lemma CalculateInvalidQuantity(name: string, totalRaw: string, perPackageRaw: string)
    ensures Calculate(name, totalRaw, perPackageRaw) == Err(InvalidQuantity)
        <==> !MissingInput(name, totalRaw, perPackageRaw)
             && (!IsPositive(ParseInt(totalRaw)) || !IsPositive(ParseInt(perPackageRaw)))
  {
  }

  /**
   * Success exactly when both checks pass; the result then carries the
   * trimmed name, the two parsed numbers unchanged, and the package count
   * within its two bounds.
   */
  lemma CalculateSucceeds(name: string, totalRaw: string, perPackageRaw: string)
    ensures Calculate(name, totalRaw, perPackageRaw).Ok?
        <==> !MissingInput(name, totalRaw, perPackageRaw)
             && IsPositive(ParseInt(totalRaw)) && IsPositive(ParseInt(perPackageRaw))
    ensures Calculate(name, totalRaw, perPackageRaw).Ok? ==>
      var r := Calculate(name, totalRaw, perPackageRaw).result;
      && r.productName == Trim(name)
      && Some(r.totalUnits) == ParseInt(totalRaw)
      && Some(r.unitsPerPackage) == ParseInt(perPackageRaw)
      && r.packagesNeeded * r.unitsPerPackage >= r.totalUnits
      && (r.packagesNeeded - 1) * r.unitsPerPackage < r.totalUnits
  {
  }

  /**
   * For positive numbers typed as numerals, possibly followed by text that
   * does not start with a digit (which `parseInt` ignores), the result keeps
   * the two numbers and the package count is the rounded-up quotient.
   */
  lemma CalculateOfNumerals(name: string, total: nat, perPackage: nat, totalRest: string, perPackageRest: string)
    requires !AllWhitespace(name)
    requires total > 0 && perPackage > 0
    requires totalRest == [] || !IsDigit(totalRest[0])
    requires perPackageRest == [] || !IsDigit(perPackageRest[0])
    ensures Calculate(name, Decimal(total) + totalRest, Decimal(perPackage) + perPackageRest)
         == Ok(CalculationResult(Trim(name), total, perPackage, CeilDiv(total, perPackage)))
  {
    TrimEmptyIff(name);
    ParseIntOfNumeral([], [], total, totalRest);
    ParseIntOfNumeral([], [], perPackage, perPackageRest);
    assert [] + ([] + (Decimal(total) + totalRest)) == Decimal(total) + totalRest;
    assert [] + ([] + (Decimal(perPackage) + perPackageRest)) == Decimal(perPackage) + perPackageRest;
  }

  /** The worked example: 100 units in packages of 6 need 17 packages. */
  lemma ScenarioCocaCola()
    ensures Calculate("Coca-Cola 2L", "100", "6") == Ok(CalculationResult("Coca-Cola 2L", 100, 6, 17))
  {
    assert Decimal(100) == "100" && Decimal(6) == "6";
    TrimOfTrimmed("Coca-Cola 2L");
    CalculateOfNumerals("Coca-Cola 2L", 100, 6, [], []);
    assert Decimal(100) + [] == "100" && Decimal(6) + [] == "6";
    CeilDivUnique(100, 6, 17);
  }

  /** An empty name is reported before the quantities are looked at, even an invalid one. */
  lemma ScenarioMissingField()
    ensures Calculate("", "100", "6") == Err(MissingField)
    ensures Calculate("", "0", "6") == Err(MissingField)
    ensures Calculate("   ", "0", "") == Err(MissingField)
  {
    CalculateMissingField("", "100", "6");
    CalculateMissingField("", "0", "6");
    CalculateMissingField("   ", "0", "");
  }

  /** A total of zero units is not a positive quantity. */
  lemma ScenarioZeroQuantity()
    ensures Calculate("Cola", "0", "6") == Err(InvalidQuantity)
  {
    ParseIntOfNumeral([], [], 0, []);
    assert [] + ([] + (Decimal(0) + [])) == "0";
    TrimOfTrimmed("Cola");
  }

  /** A negative package size parses, and is rejected as not positive. */
  lemma ScenarioNegativeQuantity()
    ensures Calculate("Cola", "100", "-1") == Err(InvalidQuantity)
  {
    ParseIntOfNumeral([], ['-'], 1, []);
    assert [] + (['-'] + (Decimal(1) + [])) == "-1";
    TrimOfTrimmed("Cola");
  }

  /** Letters, and blanks that pass the required-field test, parse to NaN and are rejected. */
  lemma ScenarioNotANumber()
    ensures Calculate("Cola", "abc", "6") == Err(InvalidQuantity)
    ensures Calculate("Cola", "   ", "6") == Err(InvalidQuantity)
  {
    TrimOfTrimmed("Cola");
    assert !MissingInput("Cola", "abc", "6") && !MissingInput("Cola", "   ", "6");
    ParseIntNoDigits("abc");
    ParseIntNoDigits("   ");
    CalculateInvalidQuantity("Cola", "abc", "6");
    CalculateInvalidQuantity("Cola", "   ", "6");
  }
}
