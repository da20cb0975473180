/** The `System.ComponentModel.DataAnnotations` pieces the C# request
    payloads use: the result a payload's own `Validate` yields, and the
    attribute checks declared on its properties.  Every attribute lets a
    null value through; requiring a value is `[Required]`'s job. */
module DataAnnotations {
  import opened Wrappers
  import opened Text

  /** `ValidationResult(errorMessage, memberNames)`. */
  datatype ValidationResult = ValidationResult(message: string, memberNames: seq<string>)

  /** `[StringLength(max, MinimumLength = min)]`. */
  predicate StringLength(s: Option<string>, min: nat, max: nat) {
    s.None? || min <= |s.value| <= max
  }

  /** `[MinLength(min)]`. */
  predicate MinLength(s: Option<string>, min: nat) {
    s.None? || min <= |s.value|
  }

  /** `[RegularExpression(@".*\S.*")]`: the pattern must match the whole
      value.  `.` matches every char but a line feed and `\S` every char
      that is not white space, so a non-empty value passes exactly when it
      is one line holding a char that is not white space.  The attribute
      lets the empty string through without matching. */
  predicate NonBlankLine(s: Option<string>) {
    s.None? || s.value == [] || ('\n' !in s.value && !IsWhiteSpaceOnly(s.value))
  }

  /** `decimal.MaxValue`. */
  const DecimalMax: real := 79228162514264337593543950335.0

  /** `[Range(typeof(decimal), "0", "79228162514264337593543950335")]`. */
  predicate NonNegativeDecimal(x: Option<real>) {
    x.None? || 0.0 <= x.value <= DecimalMax
  }

  /** A value that passes both a minimum length of one and the pattern
      holds more than white space, so the services never store a blank
      value from it. */
  lemma NonEmptyLineIsNotBlank(s: Option<string>, max: nat)
    requires StringLength(s, 1, max) && NonBlankLine(s)
    ensures !IsNullOrWhiteSpace(s) <==> s.Some?
  {
  }
}
