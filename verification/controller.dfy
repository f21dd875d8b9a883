/** `PackageControllerV1`: the success status of each endpoint, the paging
    defaults, and the routing of the filter endpoint between the postcode
    aggregate and `filterPackages`. Exceptions become the response
    `GlobalExceptionHandler` builds. */
module Controller {
  import opened Wrappers
  import opened Strings
  import opened Dates
  import opened Errors
  import opened Model
  import opened Pages
  import opened Repository
  import opened Validation
  import opened ExceptionHandler
  import opened Service

  /** An HTTP response: a status with either the success body or the error body. */
  datatype Response<T> = Response(status: int, body: Result<T, ErrorResponse>)

  const Ok: int := 200
  const Created: int := 201
  const NoContent: int := 204

  /** `@RequestParam(defaultValue = "0") int page` */
  const DefaultPage: int := 0

  /** `@RequestParam(defaultValue = "10") int size` */
  const DefaultSize: int := 10

  /** The response for a service outcome: `successStatus` with the body, or
      the exception handler's answer. */
  function Respond<T>(r: Result<T, Error>, successStatus: int): (resp: Response<T>)
    ensures r.Success? ==> resp == Response(successStatus, Success(r.value))
    ensures r.Failure? ==> resp.status == HandleException(r.error).0 && resp.body == Failure(HandleException(r.error).1)
  {
    match r
    case Success(v) => Response(successStatus, Success(v))
    case Failure(e) => Response(HandleException(e).0, Failure(HandleException(e).1))
  }

  /** The value of an optional integer query parameter. */
  function OrDefault(param: Option<int>, default: int): (v: int)
    ensures param.Some? ==> v == param.value
    ensures param.None? ==> v == default
  {
    if param.Some? then param.value else default
  }

  /** `POST /api/v1/packages`: 201 with the stored package. */
  function AddEndpoint(s: Store, dto: PackageDto, isEmailShaped: string -> bool): (r: (Store, Response<PackageDto>))
    ensures r.1.status == Created <==> Add(s, dto, isEmailShaped).1.Success?
    ensures r.0 == Add(s, dto, isEmailShaped).0
    ensures dto.trackingNumber.Some? && dto.trackingNumber.value in s.rows ==> r.1.status != Created && r.0 == s
    ensures IsCreatable(dto, isEmailShaped) && (dto.status.Some? ==> ValueOf(dto.status.value).Some?)
            && dto.trackingNumber.value in s.rows ==>
              r.1.status == Conflict && r.0 == s
    ensures !IsCreatable(dto, isEmailShaped) ==> r.1.status == BadRequest && r.0 == s
  {
    var (s', result) := Add(s, dto, isEmailShaped);
    (s', Respond(result, Created))
  }

  /** `GET /api/v1/packages/track`: 200 with the page; page 0 and size 10
      when not given. */
  function TrackEndpoint(s: Store, trackingNumber: JString, email: JString, postcode: JString, page: Option<int>, size: Option<int>)
    : (r: Response<CustomPage<PackageDto>>)
    ensures r.status == Ok <==> Track(s, trackingNumber, email, postcode, OrDefault(page, DefaultPage), OrDefault(size, DefaultSize)).Success?
    ensures IsNullOrEmpty(trackingNumber) && IsNullOrEmpty(email) && IsNullOrEmpty(postcode) ==> r.status == BadRequest
    ensures r.status in {Ok, BadRequest, NotFound}
    ensures r.status == Ok ==>
              r.body == Success(Track(s, trackingNumber, email, postcode, OrDefault(page, DefaultPage), OrDefault(size, DefaultSize)).value)
  {
    Respond(Track(s, trackingNumber, email, postcode, OrDefault(page, DefaultPage), OrDefault(size, DefaultSize)), Ok)
  }

  /** `PUT /api/v1/packages/{trackingNumber}`: 200 with the updated package. */
  function UpdateEndpoint(s: Store, trackingNumber: string, body: PackageUpdateDto, today: Date): (r: (Store, Response<PackageDto>))
    ensures r.1.status == Ok <==> Update(s, Some(trackingNumber), body.actualDeliveryDate, today).1.Success?
    ensures r.1.status != Ok ==> r.0 == s
    ensures r.1.status in {Ok, BadRequest, NotFound}
  {
    var (s', result) := Update(s, Some(trackingNumber), body.actualDeliveryDate, today);
    (s', Respond(result, Ok))
  }

  /** `DELETE /api/v1/packages/{trackingNumber}`: 204 whenever the service
      returns, whether or not the key was stored. */
  function RemoveEndpoint(s: Store, trackingNumber: string): (r: (Store, Response<()>))
    ensures r.1 == Response(NoContent, Success(()))
    ensures !ExistsById(r.0, trackingNumber)
    ensures forall k :: k != trackingNumber ==> FindById(r.0, k) == FindById(s, k)
  {
    (Remove(s, trackingNumber), Response(NoContent, Success(())))
  }

  /** The body of `GET /api/v1/packages/filter`: a page of packages or a page
      of postcode counts. */
  datatype FilterBody =
    | Packages(packages: CustomPage<PackageDto>)
    | Postcodes(postcodes: CustomPage<PostcodeByCount>)

  /** The aggregate is wanted: the flag is set and no filter term is given. */
  predicate WantsAggregate(status: JString, postcode: JString, deliveryDate: JString, findMostDelayedPostcode: bool) {
    findMostDelayedPostcode && IsNullOrEmpty(status) && IsNullOrEmpty(postcode) && IsNullOrEmpty(deliveryDate)
  }

  /** `GET /api/v1/packages/filter`: the postcode aggregate when it is wanted,
      `filterPackages` otherwise. */
  function FilterEndpoint(s: Store, status: JString, postcode: JString, deliveryDate: JString,
                          findMostDelayedPostcode: bool, page: Option<int>, size: Option<int>)
    : (r: Response<FilterBody>)
    ensures WantsAggregate(status, postcode, deliveryDate, findMostDelayedPostcode) ==>
              r == Response(Ok, Success(Postcodes(
                     FilterPostcodeByMostDelayed(s, OrDefault(page, DefaultPage), OrDefault(size, DefaultSize)))))
    ensures !WantsAggregate(status, postcode, deliveryDate, findMostDelayedPostcode) ==>
              (r.body.Success? ==> r.body.value.Packages?)
              && (r.status == Ok <==> Filter(s, status, postcode, deliveryDate,
                                             OrDefault(page, DefaultPage), OrDefault(size, DefaultSize)).Success?)
    ensures !WantsAggregate(status, postcode, deliveryDate, findMostDelayedPostcode) && r.status == Ok ==>
              r.body == Success(Packages(Filter(s, status, postcode, deliveryDate,
                                                OrDefault(page, DefaultPage), OrDefault(size, DefaultSize)).value))
  {
    var page' := OrDefault(page, DefaultPage);
    var size' := OrDefault(size, DefaultSize);
    if WantsAggregate(status, postcode, deliveryDate, findMostDelayedPostcode) then
      Response(Ok, Success(Postcodes(FilterPostcodeByMostDelayed(s, page', size'))))
    else
      match Filter(s, status, postcode, deliveryDate, page', size')
      case Success(p) => Response(Ok, Success(Packages(p)))
      case Failure(e) => Response(HandleException(e).0, Failure(HandleException(e).1))
  }

  /** With the aggregate flag set, a status that is not "delayed" or
      "on-time" still goes to `filterPackages` and is a 400. */
  lemma FlagWithInvalidStatusIsBadRequest(s: Store, status: string, postcode: JString, deliveryDate: JString,
                                          page: Option<int>, size: Option<int>)
    requires status != "" && !IsFilterStatus(status)
    ensures FilterEndpoint(s, Some(status), postcode, deliveryDate, true, page, size).status == BadRequest
  {
  }
}
