/** The exceptions the service throws, as values, and the fixed messages of
    `ErrorMessages`. */
module Errors {

  /** One constructor per exception class the core raises or the exception
      handler distinguishes. `Unexpected` is any other `RuntimeException`
      (for instance a `NullPointerException`). */
  datatype Error =
    | PackageNotFound(message: string)
    | PackageAlreadyExists(message: string)
    | PackageValidation(message: string)
    | IllegalArgument(message: string)
    | MethodNotAllowed(message: string)
    | Unexpected(message: string)

  const PackageAlreadyDeliveredCannotUpdate := "Status of the package is already set to DELIVERED. Cannot update actual delivery date."
  const TrackingNumberEmpty := "Tracking number cannot be null or empty"
  const TrackingNumberNotExist := "Tracking number does not exist"
  const PostcodeEmpty := "Recipient postcode cannot be null or empty"
  const ActualDeliveryDateEmpty := "Actual Delivery Date cannot be null or empty"
  const PackageAlreadyExistsMessage := "Package with tracking number already exists"
  const ActualDeliveryDateCannotBeFutureDate := "Actual delivery date cannot be in the future"
  const DeliveryDateInvalidFormat := "Delivery date must be in the format 'YYYY-MM-DD'"
  const FilterStatusInvalid := "Status must be either 'delayed' or 'on-time'."
  const FilterInputInvalid := "Invalid input data: No applicable filter strategy found."
  const TrackingNumberOrEmailAndPostcodeEmpty := "Either tracking number or both email and postcode must be provided."
}
