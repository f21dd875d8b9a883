/** `PackageServiceV1Impl`: the request-resolution engine. Each operation
    takes the store and returns the store afterwards with the response or
    the exception it throws. `LocalDate.now()` is the parameter `today`; the
    Bean Validation `@Email` check is the parameter `isEmailShaped`. */
module Service {
  import opened Wrappers
  import opened Strings
  import opened Dates
  import opened Errors
  import opened Model
  import opened Pages
  import opened Validation
  import opened Mapper
  import opened Repository
  import opened PostcodeTally
  import TS = TrackStrategies
  import FS = FilterStrategies

  /** `sanitizePagingParameters(page, size)`: a negative page becomes 0, a
      size of 0 or less becomes 10 and a size over 100 becomes 100. */
  function SanitizePaging(page: int, size: int): (p: Pageable)
    ensures p.pageNumber == if page < 0 then 0 else page
    ensures IsPageRequest(p) && p.pageSize <= 100
    ensures 0 < size <= 100 ==> p.pageSize == size
    ensures size <= 0 ==> p.pageSize == 10
    ensures size > 100 ==> p.pageSize == 100
  {
    var page' := if page < 0 then 0 else page;
    var size' := if size <= 0 then 10 else if size > 100 then 100 else size;
    Pageable(page', size')
  }

  /** A page request that is already in range passes through unchanged. */
  lemma SanitizeKeepsValidRequests(page: int, size: int)
    requires page >= 0 && 0 < size <= 100
    ensures SanitizePaging(page, size) == Pageable(page, size)
  {
  }

  /** Clamping twice is clamping once. */
  lemma SanitizeIsIdempotent(page: int, size: int)
    ensures var p := SanitizePaging(page, size);
            SanitizePaging(p.pageNumber, p.pageSize) == p
  {
  }

  /** The status a new package is stored with: the requested one, or
      IN_TRANSIT when the request names none. */
  function InitialStatus(dto: PackageDto): string {
    if dto.status.None? then Name(InTransit) else dto.status.value
  }

  /** `addPackage(dto)`: validates the DTO, maps it to an entity (an unknown
      status name throws), refuses a tracking number that is already stored,
      defaults a missing status to IN_TRANSIT and saves. Only a success
      changes the store; the response is the request with the status filled. */
  function Add(s: Store, dto: PackageDto, isEmailShaped: string -> bool): (r: (Store, Result<PackageDto, Error>))
    ensures r.1.Failure? ==> r.0 == s
    ensures !IsCreatable(dto, isEmailShaped) ==> r.1.Failure? && r.1.error.PackageValidation?
    ensures IsCreatable(dto, isEmailShaped) && dto.status.Some? && ValueOf(dto.status.value).None? ==>
              r.1.Failure? && r.1.error.IllegalArgument?
    ensures IsCreatable(dto, isEmailShaped) && (dto.status.Some? ==> ValueOf(dto.status.value).Some?) ==>
              (r.1.Failure? <==> dto.trackingNumber.value in s.rows)
    ensures r.1.Failure? && r.1.error.PackageAlreadyExists? ==> r.1.error.message == PackageAlreadyExistsMessage
    ensures !IsCreatable(dto, isEmailShaped) ==> r.1 == Failure(ValidateDto(dto, isEmailShaped).error)
    ensures IsCreatable(dto, isEmailShaped) && dto.status.Some? && ValueOf(dto.status.value).None? ==>
              r.1 == Failure(DtoToEntity(dto).error)
    ensures IsCreatable(dto, isEmailShaped) && (dto.status.Some? ==> ValueOf(dto.status.value).Some?)
            && dto.trackingNumber.value in s.rows ==>
              r.1 == Failure(PackageAlreadyExists(PackageAlreadyExistsMessage))
    ensures r.1.Success? ==> r.1.value == dto.(status := Some(InitialStatus(dto)))
    ensures r.1.Success? ==> FindById(r.0, dto.trackingNumber.value).Some?
                             && EntityToDto(r.0.rows[dto.trackingNumber.value]) == r.1.value
    ensures r.1.Success? ==> forall k :: k != dto.trackingNumber.value ==> FindById(r.0, k) == FindById(s, k)
  {
    match ValidateDto(dto, isEmailShaped)
    case Fail(e) => (s, Failure(e))
    case Pass =>
      match DtoToEntity(dto)
      case Failure(e) => (s, Failure(e))
      case Success(pkg) =>
        if ExistsById(s, pkg.trackingNumber) then (s, Failure(PackageAlreadyExists(PackageAlreadyExistsMessage)))
        else
          var pkg' := if pkg.status.None? then pkg.(status := Some(InTransit)) else pkg;
          var (s', saved) := Save(s, pkg');
          (s', Success(EntityToDto(saved)))
  }

  /** `validateTrackPackagePayload`: refuses a request in which all three
      selectors are null or empty (`isEmpty`, no trim). */
  function ValidateTrack(trackingNumber: JString, email: JString, postcode: JString): (r: Outcome<Error>)
    ensures r.Fail? <==> IsNullOrEmpty(trackingNumber) && IsNullOrEmpty(email) && IsNullOrEmpty(postcode)
    ensures r.Fail? ==> r.error == PackageValidation(TrackingNumberOrEmailAndPostcodeEmpty)
  {
    if IsNullOrEmpty(trackingNumber) && IsNullOrEmpty(email) && IsNullOrEmpty(postcode)
    then Fail(PackageValidation(TrackingNumberOrEmailAndPostcodeEmpty))
    else Pass
  }

  /** `trackPackages`: validates the selectors, clamps the paging, and runs
      the first applicable track strategy. The only validation error is the
      all-selectors-empty one; every other failure is a not-found. */
  function Track(s: Store, trackingNumber: JString, email: JString, postcode: JString, page: int, size: int)
    : (r: Result<CustomPage<PackageDto>, Error>)
    ensures r.Failure? ==> r.error.PackageValidation? || r.error.PackageNotFound?
    ensures r.Failure? && r.error.PackageValidation? <==>
              IsNullOrEmpty(trackingNumber) && IsNullOrEmpty(email) && IsNullOrEmpty(postcode)
    ensures r.Failure? && r.error.PackageValidation? ==> r.error.message == TrackingNumberOrEmailAndPostcodeEmpty
    ensures IsPresent(trackingNumber) && IsPresent(email) && IsPresent(postcode) ==>
              r == TS.ApplyByAllParameters(s, trackingNumber.value, email.value, postcode.value)
    ensures !IsPresent(trackingNumber) && IsPresent(email) && IsPresent(postcode) ==>
              r == TS.ApplyByEmailAndPostcode(s, email.value, postcode.value, SanitizePaging(page, size))
    ensures IsPresent(email) && !IsPresent(postcode) ==> r == TS.ApplyByEmail(s, email.value, SanitizePaging(page, size))
    ensures !IsPresent(email) && IsPresent(postcode) ==> r == TS.ApplyByPostcode(s, postcode.value, SanitizePaging(page, size))
    ensures IsPresent(trackingNumber) && !IsPresent(email) && !IsPresent(postcode) ==>
              r == TS.ApplyByTrackingNumber(s, trackingNumber.value)
  {
    match ValidateTrack(trackingNumber, email, postcode)
    case Fail(e) => Failure(e)
    case Pass =>
      var pageable := SanitizePaging(page, size);
      match TS.SelectTrack(trackingNumber, email, postcode)
      case Some(t) => TS.Apply(t, s, trackingNumber, email, postcode, pageable)
      case None => Failure(PackageValidation(TrackingNumberOrEmailAndPostcodeEmpty))
  }

  /** Once the selectors pass validation some track strategy applies, so the
      throw after the strategy loop is never reached. */
  lemma TrackChainIsExhaustive(trackingNumber: JString, email: JString, postcode: JString)
    requires ValidateTrack(trackingNumber, email, postcode).Pass?
    ensures TS.SelectTrack(trackingNumber, email, postcode).Some?
  {
  }

  /** A tracking number alone is looked up by key: the package as a single
      page 0 of size 1 whatever page was asked for, or not-found naming it. */
  lemma TrackByKeyAlone(s: Store, trackingNumber: string, page: int, size: int)
    requires trackingNumber != ""
    ensures var r := Track(s, Some(trackingNumber), None, None, page, size);
            && (r.Success? <==> trackingNumber in s.rows)
            && (r.Success? ==> r.value == CustomPage([EntityToDto(s.rows[trackingNumber])], 0, 1))
            && (r.Failure? ==> r.error == PackageNotFound("Package with tracking number " + trackingNumber + " not found."))
  {
  }

  /** With email and postcode present, the email-and-postcode tier answers
      whatever tracking number is given alongside unless all three are
      present; the tracking number never reaches that tier's query. */
  lemma TrackEmailAndPostcodeIgnoresKey(s: Store, email: string, postcode: string, page: int, size: int)
    requires email != "" && postcode != ""
    ensures Track(s, None, Some(email), Some(postcode), page, size)
         == Track(s, Some(""), Some(email), Some(postcode), page, size)
         == TS.ApplyByEmailAndPostcode(s, email, postcode, SanitizePaging(page, size))
  {
  }

  /** An email without a postcode is answered by the email tier: the
      tracking number, and whether the postcode is null or empty, make no
      difference. */
  lemma TrackEmailIgnoresKey(s: Store, email: string, key1: JString, key2: JString, postcode: JString, page: int, size: int)
    requires email != "" && IsNullOrEmpty(postcode)
    ensures Track(s, key1, Some(email), postcode, page, size)
         == Track(s, key2, Some(email), None, page, size)
         == TS.ApplyByEmail(s, email, SanitizePaging(page, size))
  {
  }

  /** A postcode without an email is answered by the postcode tier: the
      tracking number, and whether the email is null or empty, make no
      difference. */
  lemma TrackPostcodeIgnoresKey(s: Store, postcode: string, key1: JString, key2: JString, email: JString, page: int, size: int)
    requires postcode != "" && IsNullOrEmpty(email)
    ensures Track(s, key1, email, Some(postcode), page, size)
         == Track(s, key2, None, Some(postcode), page, size)
         == TS.ApplyByPostcode(s, postcode, SanitizePaging(page, size))
  {
  }

  /** A package just added is found again by its tracking number, as the
      response `add` returned. */
  lemma AddThenTrack(s: Store, dto: PackageDto, isEmailShaped: string -> bool, page: int, size: int)
    requires Add(s, dto, isEmailShaped).1.Success?
    ensures var (s', added) := Add(s, dto, isEmailShaped);
            Track(s', dto.trackingNumber, None, None, page, size) == Success(CustomPage([added.value], 0, 1))
  {
  }

  /** A present value that survives `trim` (`validateNotEmpty` passes). */
  predicate IsFilled(value: JString) {
    value.Some? && !IsBlank(value.value)
  }

  /** `validatePackageToUpdate(pkg, date)`: the null check, then the
      future-date check against `today`, then the already-delivered check. */
  function CheckUpdatable(pkg: Package, date: JString, today: Date): (r: Outcome<Error>)
    ensures r.Pass? <==> date.Some? && Parse(date.value).Some? && !IsAfter(Parse(date.value).value, today)
                         && pkg.status != Some(Delivered)
    ensures date.None? ==> r == Fail(PackageValidation(ActualDeliveryDateEmpty))
    ensures date.Some? && Parse(date.value).Some? && IsAfter(Parse(date.value).value, today) ==>
              r == Fail(PackageValidation(ActualDeliveryDateCannotBeFutureDate))
    ensures date.Some? && Parse(date.value).Some? && !IsAfter(Parse(date.value).value, today) && pkg.status == Some(Delivered)
            ==> r == Fail(PackageValidation(PackageAlreadyDeliveredCannotUpdate))
  {
    if date.None? then Fail(PackageValidation(ActualDeliveryDateEmpty))
    else
      match Parse(date.value)
      case None => Fail(Unexpected("DateTimeParseException"))
      case Some(d) =>
        if IsAfter(d, today) then Fail(PackageValidation(ActualDeliveryDateCannotBeFutureDate))
        else if pkg.status == Some(Delivered) then Fail(PackageValidation(PackageAlreadyDeliveredCannotUpdate))
        else Pass
  }

  /** `updatePackage(trackingNumber, date)`: the first failing check decides
      the error, in this order: tracking number filled, date filled, date
      well formed, key stored, date not after today, not yet DELIVERED. A
      success records the parsed date, moves the package to DELIVERED and
      leaves its other fields and every other package alone. */
  function Update(s: Store, trackingNumber: JString, date: JString, today: Date): (r: (Store, Result<PackageDto, Error>))
    ensures r.1.Failure? ==> r.0 == s
    ensures !IsFilled(trackingNumber) ==> r.1 == Failure(IllegalArgument(TrackingNumberEmpty))
    ensures IsFilled(trackingNumber) && !IsFilled(date) ==> r.1 == Failure(IllegalArgument(ActualDeliveryDateEmpty))
    ensures IsFilled(trackingNumber) && IsFilled(date) && Parse(date.value).None? ==>
              r.1 == Failure(IllegalArgument(DeliveryDateInvalidFormat))
    ensures IsFilled(trackingNumber) && IsFilled(date) && Parse(date.value).Some? ==>
              if trackingNumber.value !in s.rows then r.1 == Failure(PackageNotFound(TrackingNumberNotExist))
              else if IsAfter(Parse(date.value).value, today) then
                r.1 == Failure(PackageValidation(ActualDeliveryDateCannotBeFutureDate))
              else if s.rows[trackingNumber.value].status == Some(Delivered) then
                r.1 == Failure(PackageValidation(PackageAlreadyDeliveredCannotUpdate))
              else r.1.Success?
    ensures r.1.Success? ==>
              var k := trackingNumber.value;
              && k in s.rows && FindById(r.0, k).Some?
              && r.0.rows[k] == s.rows[k].(actualDeliveryDate := Parse(date.value), status := Some(Delivered))
              && r.1.value == EntityToDto(r.0.rows[k])
              && forall k' :: k' != k ==> FindById(r.0, k') == FindById(s, k')
  {
    match ValidateNotEmpty(trackingNumber, TrackingNumberEmpty)
    case Fail(e) => (s, Failure(e))
    case Pass =>
      match ValidateNotEmpty(date, ActualDeliveryDateEmpty)
      case Fail(e) => (s, Failure(e))
      case Pass =>
        match ValidateDateFormat(date, DeliveryDateInvalidFormat)
        case Fail(e) => (s, Failure(e))
        case Pass =>
          var k := trackingNumber.value;
          if !ExistsById(s, k) then (s, Failure(PackageNotFound(TrackingNumberNotExist)))
          else
            match FindById(s, k)
            case None => (s, Failure(PackageNotFound("Package with tracking number " + k + " not found.")))
            case Some(pkg) =>
              match CheckUpdatable(pkg, date, today)
              case Fail(e) => (s, Failure(e))
              case Pass =>
                var delivered := pkg.(actualDeliveryDate := Parse(date.value), status := Some(Delivered));
                var (s', saved) := Save(s, delivered);
                (s', Success(EntityToDto(saved)))
  }

  /** The null check inside `validatePackageToUpdate` and the not-found
      throw after `findById` are unreachable: `update` never fails with
      either of their errors. */
  lemma UpdateDeadChecks(s: Store, trackingNumber: JString, date: JString, today: Date)
    ensures Update(s, trackingNumber, date, today).1 != Failure(PackageValidation(ActualDeliveryDateEmpty))
    ensures forall k :: Update(s, trackingNumber, date, today).1
                        != Failure(PackageNotFound("Package with tracking number " + k + " not found."))
  {
  }

  /** DELIVERED is final: after a successful update, every later update of
      the same package with a well-formed date fails, with the future-date
      error when the date is after today and the already-delivered error
      otherwise; and the store does not change. */
  lemma DeliveredIsFinal(s: Store, trackingNumber: JString, first: JString, later: JString, today: Date)
    requires Update(s, trackingNumber, first, today).1.Success?
    requires IsFilled(later) && Parse(later.value).Some?
    ensures var s' := Update(s, trackingNumber, first, today).0;
            var r := Update(s', trackingNumber, later, today);
            && r.0 == s'
            && r.1 == Failure(PackageValidation(
                 if IsAfter(Parse(later.value).value, today) then ActualDeliveryDateCannotBeFutureDate
                 else PackageAlreadyDeliveredCannotUpdate))
  {
    var s' := Update(s, trackingNumber, first, today).0;
    assert s'.rows[trackingNumber.value].status == Some(Delivered);
  }

  /** `removePackage(trackingNumber)`: deletes unconditionally; an absent
      key is not an error. */
  function Remove(s: Store, trackingNumber: string): (r: Store)
    ensures !ExistsById(r, trackingNumber)
    ensures forall k :: k != trackingNumber ==> FindById(r, k) == FindById(s, k)
    ensures !ExistsById(s, trackingNumber) ==> r.rows == s.rows
  {
    DeleteById(s, trackingNumber)
  }

  /** After a removal the package is no longer found by its key. */
  lemma RemoveThenTrack(s: Store, trackingNumber: string, page: int, size: int)
    requires trackingNumber != ""
    ensures Track(Remove(s, trackingNumber), Some(trackingNumber), None, None, page, size)
         == Failure(PackageNotFound("Package with tracking number " + trackingNumber + " not found."))
  {
  }

  /** The status values `validateFilterPackagesPayload` admits. */
  predicate IsFilterStatus(status: string) {
    EqualsIgnoreCase(status, "delayed") || EqualsIgnoreCase(status, "on-time")
  }

  /** `validateFilterPackagesPayload`: a non-null status must be "delayed" or
      "on-time" ignoring case; a non-null postcode must be non-empty; a
      present date must parse. The first failing check decides the message. */
  function ValidateFilter(status: JString, postcode: JString, deliveryDate: JString): (r: Outcome<Error>)
    ensures r.Pass? <==> (status.None? || IsFilterStatus(status.value))
                         && postcode != Some("")
                         && (IsPresent(deliveryDate) ==> Parse(deliveryDate.value).Some?)
    ensures status.Some? && !IsFilterStatus(status.value) ==> r == Fail(PackageValidation(FilterStatusInvalid))
    ensures (status.None? || IsFilterStatus(status.value)) && postcode == Some("") ==>
              r == Fail(PackageValidation(PostcodeEmpty))
    ensures (status.None? || IsFilterStatus(status.value)) && postcode != Some("")
            && IsPresent(deliveryDate) && Parse(deliveryDate.value).None? ==>
              r == Fail(PackageValidation(DeliveryDateInvalidFormat))
    ensures r.Fail? ==> r.error.PackageValidation?
  {
    if status.Some? && !IsFilterStatus(status.value) then Fail(PackageValidation(FilterStatusInvalid))
    else if postcode.Some? && postcode.value == "" then Fail(PackageValidation(PostcodeEmpty))
    else if IsPresent(deliveryDate) && Parse(deliveryDate.value).None? then Fail(PackageValidation(DeliveryDateInvalidFormat))
    else Pass
  }

  /** `filterPackages`: validates, clamps the paging, and runs the first
      applicable filter strategy (status, then postcode, then date); when
      none applies it throws `IllegalArgumentException`. */
  function Filter(s: Store, status: JString, postcode: JString, deliveryDate: JString, page: int, size: int)
    : (r: Result<CustomPage<PackageDto>, Error>)
    ensures ValidateFilter(status, postcode, deliveryDate).Fail? ==>
              r == Failure(ValidateFilter(status, postcode, deliveryDate).error)
    ensures ValidateFilter(status, postcode, deliveryDate).Pass? ==>
              (r.Failure? <==> FS.SelectFilter(status, postcode, deliveryDate).None?)
    ensures ValidateFilter(status, postcode, deliveryDate).Pass? && FS.SelectFilter(status, postcode, deliveryDate).None? ==>
              r == Failure(IllegalArgument(FilterInputInvalid))
    ensures ValidateFilter(status, postcode, deliveryDate).Pass? && FS.StatusApplies(status) ==>
              r == Success(FS.ApplyByStatus(s, status.value, SanitizePaging(page, size)))
    ensures ValidateFilter(status, postcode, deliveryDate).Pass? && !FS.StatusApplies(status) && IsPresent(postcode) ==>
              r == Success(FS.ApplyByPostcode(s, postcode.value, SanitizePaging(page, size)))
    ensures ValidateFilter(status, postcode, deliveryDate).Pass? && !FS.StatusApplies(status) && !IsPresent(postcode)
            && IsPresent(deliveryDate) ==>
              r == FS.ApplyByDeliveryDate(s, deliveryDate, SanitizePaging(page, size))
  {
    match ValidateFilter(status, postcode, deliveryDate)
    case Fail(e) => Failure(e)
    case Pass =>
      var pageable := SanitizePaging(page, size);
      match FS.SelectFilter(status, postcode, deliveryDate)
      case Some(f) => FS.Apply(f, s, status, postcode, deliveryDate, pageable)
      case None => Failure(IllegalArgument(FilterInputInvalid))
  }

  /** "on-time", in any case, passes validation but never makes the status
      strategy applicable: that strategy compares against "on_time". */
  lemma OnTimeNeverSelectsStatus(status: string)
    requires EqualsIgnoreCase(status, "on-time")
    ensures IsFilterStatus(status)
    ensures !FS.StatusApplies(Some(status))
  {
    FS.FilterValues();
    assert LowerAscii("on-time") == "on-time";
    assert LowerAscii("on_time") == "on_time";
    assert LowerAscii("delayed") == "delayed";
  }

  /** Hence a lone "on-time" filter ends in the no-applicable-strategy error. */
  lemma LoneOnTimeIsRejected(s: Store, page: int, size: int)
    ensures Filter(s, Some("on-time"), None, None, page, size) == Failure(IllegalArgument(FilterInputInvalid))
  {
    OnTimeNeverSelectsStatus("on-time");
  }

  /** A recognised status together with a postcode is accepted, and the
      status strategy wins: the postcode is ignored. */
  lemma StatusWinsOverPostcode(s: Store, postcode: string, page: int, size: int)
    requires postcode != ""
    ensures Filter(s, Some("delayed"), Some(postcode), None, page, size)
         == Success(FS.ApplyByStatus(s, "delayed", SanitizePaging(page, size)))
  {
    FS.FilterValues();
    assert LowerAscii("delayed") == "delayed";
  }

  /** A page of the aggregate keeps the aggregate's shape: positive counts,
      distinct postcodes, descending counts. */
  lemma PageKeepsShape(all: seq<PostcodeByCount>, p: Pageable)
    requires IsCountDescending(all) && AllPositive(all) && DistinctPostcodes(all)
    ensures var c := Slice(all, p).content;
            IsCountDescending(c) && AllPositive(c) && DistinctPostcodes(c)
  {
    var c := Slice(all, p).content;
    assert forall i :: 0 <= i < |c| ==> c[i] == all[Offset(p) + i];
  }

  /** Page `p` of the aggregate rows `all`, as the mapper returns it. */
  function AggregatePage(all: seq<PostcodeByCount>, p: Pageable): (r: CustomPage<PostcodeByCount>)
    requires IsCountDescending(all) && AllPositive(all) && DistinctPostcodes(all)
    ensures r.page == p.pageNumber && r.size == p.pageSize
    ensures IsSliceOf(r.content, all, p)
    ensures IsCountDescending(r.content) && AllPositive(r.content) && DistinctPostcodes(r.content)
  {
    PageKeepsShape(all, p);
    PostcodePageToDtoPage(Some(Slice(all, p)))
  }

  /** `filterPostcodeByMostDelayedPackages`: the requested page of the
      postcode aggregate, rows in descending count order. */
  function FilterPostcodeByMostDelayed(s: Store, page: int, size: int): (r: CustomPage<PostcodeByCount>)
    ensures var p := SanitizePaging(page, size);
            && r.page == p.pageNumber && r.size == p.pageSize
            && IsSliceOf(r.content, MostDelayedPostcodes(s), p)
    ensures IsCountDescending(r.content) && AllPositive(r.content) && DistinctPostcodes(r.content)
  {
    AggregatePage(MostDelayedPostcodes(s), SanitizePaging(page, size))
  }
}
