# Unit-to-package calculator, modelled in Dafny

The application is one form. A user types a product name, the number of units
they want and the number of units in one package or box. On submit, the form
validates the three raw strings. It then shows how many whole packages are
needed to hold at least the requested units, or an error message. "Clear"
empties everything.

The model has four modules:

- `Wrappers` (`wrappers.dfy`): `Option`. It stands for JavaScript's
  number-or-NaN and for record-or-null.
- `JsText` (`js_text.dfy`): the two JavaScript builtins the form uses, as pure
  functions. `Trim` is `String.prototype.trim`. `ParseInt` is `parseInt(s, 10)`:
  it skips leading whitespace, accepts one optional `+` or `-`, takes the
  longest run of decimal digits, and returns `None` for NaN. `Decimal` renders a
  number as a numeral and is the partner `ParseInt` is proved against.
- `Calculator` (`calculator.dfy`): the validate-then-compute routine, as the
  pure function `Calculate`. It returns `Ok(CalculationResult)` or
  `Err(MissingField | InvalidQuantity)`. `CeilDiv` is the exact ceiling
  division `(t + p - 1) / p`.
- `FormState` (`form.dfy`): the class `Form` with the five state cells of the
  component (`productName`, `totalUnits`, `unitsPerPackage`, `result`,
  `error`). Its handlers are `EditName`, `EditTotal`, `EditPerPackage`, `Submit`
  and `Clear`. `Submit` is written the way the handler is: the result is reset
  first, then come two checks with early returns. It is proved to leave exactly
  the state that `Calculate` describes. `StaleResultScenario` is a client that
  walks through submit, edit, a failed submit, and clear.

A Dafny function is deterministic, so `Calculate` always gives the same
outcome for the same inputs, and calling it twice changes nothing.

## Model

| member | source | states |
|---|---|---|
| `JsText.LeadingWhitespace` | App.tsx:45 | `trim` removes exactly the leading whitespace: every character it counts is whitespace, and the next one, if any, is not |
| `JsText.TrailingWhitespace` | App.tsx:45 | `trim` removes exactly the trailing whitespace: every character it counts is whitespace, and the one before them, if any, is not |
| `JsText.TrimIsInnerPart` | App.tsx:63 | `trim` returns a contiguous piece of the name, with only whitespace around it and no whitespace at either of its ends |
| `JsText.TrimEmptyIff` | App.tsx:45 | the trimmed name is empty if and only if the name is all whitespace |
| `JsText.DigitRun` | App.tsx:50-51 | `parseInt` reads the longest run of leading decimal digits: all of them are digits, and the next character, if any, is not |
| `JsText.DigitsValueOfDecimal` | App.tsx:50-51 | the digits of a numeral evaluate back to the number |
| `JsText.ParseIntOfBody` | App.tsx:50-51 | after leading whitespace, `parseInt` reads one optional sign and then the digits; a `-` negates their value, a `+` or no sign keeps it |
| `JsText.ParseIntOfNumeral` | App.tsx:50-51 | `parseInt` of whitespace, an optional sign, a numeral and any text not starting with a digit gives the signed number (`"12abc"` gives 12, `"-1"` gives -1) |
| `JsText.ParseIntNaN` | App.tsx:50-53 | when no digit follows the leading whitespace and the one optional sign, `parseInt` gives NaN (`"abc1"`, `"+-1"`, `"- 5"`); with `ParseIntOfBody` this decides NaN in both directions |
| `JsText.ParseIntNoDigits` | App.tsx:50-53 | a string with no digit in it (`"abc"`, `"   "`, `""`) parses to NaN |
| `Calculator.Message` | App.tsx:46-54 | both error messages are non-empty, so a set error is always visible as one |
| `Calculator.CeilDiv` | App.tsx:60 | the package count `q` satisfies `q * perPackage >= total` and `(q - 1) * perPackage < total` |
| `Calculator.CeilDivUnique` | App.tsx:60 | these two bounds determine the count: any `q` meeting both equals `CeilDiv` |
| `Calculator.CeilDivBoundaries` | App.tsx:60 | a positive total needs at least one package; `total == perPackage` gives 1 and `total == perPackage + 1` gives 2 |
| `Calculator.Compute` | App.tsx:60-67 | the result built on success has a non-empty trimmed name, positive quantities and a package count within its bounds |
| `Calculator.Calculate` | App.tsx:41-68 | every successful outcome satisfies the result invariant |
| `Calculator.CalculateMissingField` | App.tsx:45-48 | the outcome is the missing-field error if and only if the name is all whitespace or a quantity string is empty, whatever the quantities hold |
| `Calculator.CalculateInvalidQuantity` | App.tsx:50-56 | the outcome is the invalid-quantity error if and only if every field is filled in and a quantity parses to NaN or to a value of at most 0 |
| `Calculator.CalculateSucceeds` | App.tsx:58-67 | success happens if and only if both checks pass; the result then holds the trimmed name, the two parsed numbers unchanged, and the package count within its bounds |
| `Calculator.CalculateOfNumerals` | App.tsx:50-67 | for positive `u` and `p` typed as numerals, optionally followed by non-digit text, the result is `(trim(name), u, p, ceil(u / p))` |
| `Calculator.ScenarioCocaCola` | App.tsx:41-67 | `("Coca-Cola 2L", "100", "6")` gives 17 packages |
| `Calculator.ScenarioMissingField` | App.tsx:45-48 | an empty or blank name is reported as a missing field before the quantities are parsed, even when a quantity is `"0"` |
| `Calculator.ScenarioZeroQuantity` | App.tsx:53-55 | a total of `"0"` is an invalid quantity |
| `Calculator.ScenarioNegativeQuantity` | App.tsx:53-55 | a package size of `"-1"` is an invalid quantity |
| `Calculator.ScenarioNotANumber` | App.tsx:50-55 | `"abc"` is an invalid quantity, and so is `"   "`, which passes the emptiness test but does not parse |
| `FormState.Form.constructor` | App.tsx:35-39 | the form starts empty: blank fields, no result, no error |
| `FormState.Form.EditName` | App.tsx:99 | only the name changes; the other fields, the result and the error stay as they were |
| `FormState.Form.EditTotal` | App.tsx:118 | only the total-units field changes; a shown result or error persists |
| `FormState.Form.EditPerPackage` | App.tsx:137 | only the units-per-package field changes; a shown result or error persists |
| `FormState.Form.Submit` | App.tsx:41-68 | afterwards exactly one of "result shown" and "error shown" holds. On success the result is the calculated one and the error is cleared. On failure the result is null, so a stale result never survives, and the error is the first failing check's message. The raw fields are untouched |
| `FormState.Form.Clear` | App.tsx:70-76 | whatever the prior state, all three fields are blank, the result is null and the error is empty |

## Left out

- The `ResultDisplay` component and all markup and styling (App.tsx:4-32, 78-174). They are presentation only.
- `toLocaleString('pt-BR')` formatting of the displayed numbers (App.tsx:19, 23, 28). It is a locale library call.
- `CeilDiv`: models `Math.ceil(total / perPackage)` as exact integer ceiling division on unbounded integers. The source divides IEEE-754 doubles. The model therefore does not capture rounding of the float quotient, or loss of precision in `parseInt` beyond 2^53. Nor does it capture a digit string of more than about 309 digits: there `parseInt` returns Infinity, which passes the `> 0` test at App.tsx:53, and `packagesNeeded` can then come out as NaN, Infinity or 0 instead of a positive whole number.
- `ParseInt`: yields an unbounded integer, so `"-0"` becomes 0 rather than JavaScript's negative zero. Both are at most 0 and are rejected the same way.
- `Trim`, `ParseInt`: treat only space, tab, line feed, vertical tab, form feed and carriage return as whitespace. JavaScript's set also includes the Unicode space separators, no-break space and the byte-order mark.
- React mechanics: setter batching, re-rendering and `e.preventDefault()` (App.tsx:42). Each handler is modelled as one atomic update of the five cells.
- The browser's `type="number"` and `min="1"` input hints (App.tsx:115-116, 134-135). The calculator re-validates regardless, and the model gives the raw fields arbitrary strings.
- The `./types` module is not part of this model. The shape of `CalculationResult` is taken from App.tsx:62-67.
