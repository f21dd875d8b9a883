/** `ValidationUtil`: stateless checks that either return normally or throw.
    The Bean Validation engine behind `ValidationUtil.validate` is reduced to
    the constraints declared on `PackageDto`; the `@Email` pattern is the
    parameter `isEmailShaped`. */
module Validation {
  import opened Wrappers
  import opened Strings
  import opened Dates
  import opened Errors
  import opened Model

  /** `validateNotEmpty(value, message)`: throws `IllegalArgumentException`
      with exactly the caller's message when the value is null or blank
      (whitespace-only counts as empty because the check trims). */
  function ValidateNotEmpty(value: JString, message: string): (r: Outcome<Error>)
    ensures r.Fail? <==> value.None? || IsBlank(value.value)
    ensures r.Fail? ==> r.error == IllegalArgument(message)
  {
    if value.None? || Trim(value.value) == "" then Fail(IllegalArgument(message)) else Pass
  }

  /** `validateDateFormat(date, message)`: passes exactly for strings that
      `LocalDate.parse` accepts; a parse failure becomes
      `IllegalArgumentException` with the caller's message. A null date is
      not a parse failure: `LocalDate.parse(null)` throws
      `NullPointerException("text")`, which the catch clause lets through. */
  function ValidateDateFormat(date: JString, message: string): (r: Outcome<Error>)
    ensures r.Pass? <==> date.Some? && Parse(date.value).Some?
    ensures r.Fail? && date.Some? ==> r.error == IllegalArgument(message)
    ensures date.None? ==> r.error.Unexpected?
  {
    match date
    case None => Fail(Unexpected("text"))
    case Some(s) => if Parse(s).Some? then Pass else Fail(IllegalArgument(message))
  }

  /** Bean Validation's `@NotEmpty`: not null and of non-zero length (no trim). */
  predicate NotEmpty(s: JString) {
    s.Some? && s.value != ""
  }

  /** Bean Validation's `@Email`: null and the empty string are accepted,
      anything else must have the e-mail shape. */
  predicate EmailConstraint(s: JString, isEmailShaped: string -> bool) {
    s.None? || s.value == "" || isEmailShaped(s.value)
  }

  /** The messages of the constraints of `PackageDto` that `dto` violates,
      in declaration order. */
  function Violations(dto: PackageDto, isEmailShaped: string -> bool): seq<string> {
    (if dto.trackingNumber.None? then ["must not be null"] else [])
    + (if !NotEmpty(dto.trackingNumber) then ["Tracking number must not be empty"] else [])
    + (if !EmailConstraint(dto.email, isEmailShaped) then ["Email should be valid"] else [])
    + (if !NotEmpty(dto.email) then ["Email cannot not be null or empty"] else [])
    + (if !NotEmpty(dto.recipientPostcode) then ["Recipient postcode cannot be null or empty"] else [])
    + (if dto.estimatedDeliveryDate.None? then ["Estimated delivery date cannot be null or empty"] else [])
  }

  /** The create-input requirements of `PackageDto`: tracking number, email
      and postcode present and non-empty, the email e-mail shaped, the
      estimated delivery date present. Actual date and status are optional. */
  predicate IsCreatable(dto: PackageDto, isEmailShaped: string -> bool) {
    && NotEmpty(dto.trackingNumber)
    && NotEmpty(dto.email) && isEmailShaped(dto.email.value)
    && NotEmpty(dto.recipientPostcode)
    && dto.estimatedDeliveryDate.Some?
  }

  /** `ValidationUtil.validate(dto)`: throws `PackageValidationException`
      carrying the message of one violated constraint. Which one Java reports
      is up to the validator's iteration order; the model reports the first
      in declaration order. */
  function ValidateDto(dto: PackageDto, isEmailShaped: string -> bool): (r: Outcome<Error>)
    ensures r.Pass? <==> IsCreatable(dto, isEmailShaped)
    ensures r.Fail? ==> r.error.PackageValidation? && r.error.message in Violations(dto, isEmailShaped)
  {
    var violations := Violations(dto, isEmailShaped);
    if violations == [] then Pass else Fail(PackageValidation(violations[0]))
  }
}
