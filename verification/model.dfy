/** The freight service's data: the `Package` entity as stored, the
    `PackageDto` exchanged with clients, the delivery-status enumeration and
    the per-postcode delay count returned by the aggregate query. */
module Model {
  import opened Wrappers
  import opened Dates

  /** `DeliveryStatusEnum`. Its source file is not part of this model; the
      four constants are the ones the entity's lifecycle names, spelled as
      Java constants are. */
  datatype Status = InTransit | Delivered | Delayed | OnTime

  /** `Enum.name()` */
  function Name(s: Status): string {
    match s
    case InTransit => "IN_TRANSIT"
    case Delivered => "DELIVERED"
    case Delayed => "DELAYED"
    case OnTime => "ON_TIME"
  }

  /** `DeliveryStatusEnum.valueOf(name)`: exact, case-sensitive match on the
      constant names; `None` where Java throws `IllegalArgumentException`. */
  function ValueOf(name: string): (r: Option<Status>)
    ensures r.Some? ==> Name(r.value) == name
    ensures r.None? ==> forall s: Status :: Name(s) != name
  {
    if name == "IN_TRANSIT" then Some(InTransit)
    else if name == "DELIVERED" then Some(Delivered)
    else if name == "DELAYED" then Some(Delayed)
    else if name == "ON_TIME" then Some(OnTime)
    else None
  }

  /** Every constant is found again by its name. */
  lemma ValueOfName(s: Status)
    ensures ValueOf(Name(s)) == Some(s)
  {
  }

  /** The `Package` entity. Tracking number, email, postcode and estimated
      date are NOT NULL columns and are never absent here; the actual
      delivery date is nullable, and null means not yet delivered. The status
      column is NOT NULL too, but an entity mapped from a request may carry
      none until the service defaults it. `createdAt` is the creation rank
      the database assigns on insert (none before the first save). */
  datatype Package = Package(
    trackingNumber: string,
    email: string,
    recipientPostcode: string,
    estimatedDeliveryDate: Date,
    actualDeliveryDate: Option<Date>,
    status: Option<Status>,
    createdAt: Option<nat>)

  /** `PackageDto`: every field is a nullable reference; the status travels
      as the enumeration constant's name. */
  datatype PackageDto = PackageDto(
    trackingNumber: Option<string>,
    email: Option<string>,
    recipientPostcode: Option<string>,
    estimatedDeliveryDate: Option<Date>,
    actualDeliveryDate: Option<Date>,
    status: Option<string>)

  /** `PackageUpdateDto`: the body of an update request. */
  datatype PackageUpdateDto = PackageUpdateDto(actualDeliveryDate: Option<string>)

  /** `PostcodeByCountDto`: one row of the most-delayed-postcode aggregate. */
  datatype PostcodeByCount = PostcodeByCount(recipientPostcode: string, delayCount: nat)
}
