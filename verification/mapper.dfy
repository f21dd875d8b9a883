/** `PackageMapper`: conversions between the entity and the DTO, and from
    repository pages to response pages. */
module Mapper {
  import opened Wrappers
  import opened Errors
  import opened Model
  import opened Pages

  /** `packageEntityToDto` on a non-null entity: the five scalar fields are
      copied, the status becomes its constant name (null stays null), and
      the creation rank, which the DTO does not carry, is dropped. */
  function EntityToDto(e: Package): (d: PackageDto)
    ensures d.trackingNumber == Some(e.trackingNumber) && d.email == Some(e.email)
    ensures d.recipientPostcode == Some(e.recipientPostcode)
    ensures d.estimatedDeliveryDate == Some(e.estimatedDeliveryDate)
    ensures d.actualDeliveryDate == e.actualDeliveryDate
    ensures d.status.None? <==> e.status.None?
    ensures d.status.Some? ==> ValueOf(d.status.value) == e.status
  {
    PackageDto(
      Some(e.trackingNumber), Some(e.email), Some(e.recipientPostcode),
      Some(e.estimatedDeliveryDate), e.actualDeliveryDate,
      match e.status case None => None case Some(s) => Some(Name(s)))
  }

  /** `packageEntityToDto(entity)`: null in, null out. */
  function PackageEntityToDto(e: Option<Package>): (r: Option<PackageDto>)
    ensures r.None? <==> e.None?
    ensures e.Some? ==> r == Some(EntityToDto(e.value))
  {
    match e
    case None => None
    case Some(p) => Some(EntityToDto(p))
  }

  /** The DTO fields that have NOT NULL entity columns behind them. */
  predicate HasRequiredFields(dto: PackageDto) {
    && dto.trackingNumber.Some? && dto.email.Some? && dto.recipientPostcode.Some?
    && dto.estimatedDeliveryDate.Some?
  }

  /** `packageDtoToEntity` on a non-null DTO: copies the fields and looks the
      status up by constant name; an unknown name throws
      `IllegalArgumentException`. The new entity has no creation rank yet. */
  function DtoToEntity(dto: PackageDto): (r: Result<Package, Error>)
    requires HasRequiredFields(dto)
    ensures r.Failure? <==> dto.status.Some? && ValueOf(dto.status.value).None?
    ensures r.Failure? ==> r.error.IllegalArgument?
    ensures r.Success? ==> EntityToDto(r.value) == dto && r.value.createdAt.None?
  {
    var status :=
      match dto.status
      case None => Success(None)
      case Some(name) =>
        match ValueOf(name)
        case None => Failure(IllegalArgument("No enum constant com.fkluh.freight.v1.model.DeliveryStatusEnum." + name))
        case Some(s) => Success(Some(s));
    match status
    case Failure(e) => Failure(e)
    case Success(s) =>
      Success(Package(
        dto.trackingNumber.value, dto.email.value, dto.recipientPostcode.value,
        dto.estimatedDeliveryDate.value, dto.actualDeliveryDate, s, None))
  }

  /** `packageDtoToEntity(dto)`: null in, null out. */
  function PackageDtoToEntity(dto: Option<PackageDto>): (r: Result<Option<Package>, Error>)
    requires dto.Some? ==> HasRequiredFields(dto.value)
    ensures dto.None? ==> r == Success(None)
    ensures dto.Some? ==> (r.Success? <==> DtoToEntity(dto.value).Success?)
  {
    match dto
    case None => Success(None)
    case Some(d) =>
      match DtoToEntity(d)
      case Failure(e) => Failure(e)
      case Success(p) => Success(Some(p))
  }

  /** Entity to DTO and back is the identity on all six mapped fields. */
  lemma EntityRoundTrip(e: Package)
    ensures DtoToEntity(EntityToDto(e)) == Success(e.(createdAt := None))
  {
    if e.status.Some? {
      ValueOfName(e.status.value);
    }
  }

  /** `r` is page `p` of the query result `all`, mapped to DTOs: the page's
      number and size, as many elements as that page holds, each the DTO of
      the entity at its position in `all`. */
  predicate IsMappedPageOf(r: CustomPage<PackageDto>, all: seq<Package>, p: Pageable) {
    && r.page == p.pageNumber && r.size == p.pageSize
    && |r.content| == PageLength(|all|, p)
    && forall i :: 0 <= i < |r.content| ==> Offset(p) + i < |all| && r.content[i] == EntityToDto(all[Offset(p) + i])
  }

  /** `packageEntityPageToDtoPage`: each entity mapped in order, with the
      page's number and size; a null page becomes an empty page 0 of size 0. */
  function EntityPageToDtoPage(p: Option<Page<Package>>): (r: CustomPage<PackageDto>)
    ensures p.None? ==> r == CustomPage([], 0, 0)
    ensures p.Some? ==> r.page == p.value.number && r.size == p.value.size
    ensures p.Some? ==> |r.content| == |p.value.content|
    ensures p.Some? ==> forall i :: 0 <= i < |r.content| ==> r.content[i] == EntityToDto(p.value.content[i])
  {
    match p
    case None => CustomPage([], 0, 0)
    case Some(page) => Map(FromPage(page), EntityToDto)
  }

  /** `singleEntityToDtoPage`: one entity becomes a one-element page 0 of
      size 1, whatever page was requested; null becomes an empty page. */
  function SingleEntityToDtoPage(p: Option<Package>): (r: CustomPage<PackageDto>)
    ensures p.None? ==> r == CustomPage([], 0, 0)
    ensures p.Some? ==> r.content == [EntityToDto(p.value)] && r.page == 0 && r.size == 1
  {
    match p
    case None => CustomPage([], 0, 0)
    case Some(pkg) => CustomPage([EntityToDto(pkg)], 0, 1)
  }

  /** `postcodeEntityPageToDtoPage`: the rows unchanged, with the page's
      number and size; a null page becomes an empty page. */
  function PostcodePageToDtoPage(p: Option<Page<PostcodeByCount>>): (r: CustomPage<PostcodeByCount>)
    ensures p.None? ==> r == CustomPage([], 0, 0)
    ensures p.Some? ==> r.content == p.value.content && r.page == p.value.number && r.size == p.value.size
  {
    match p
    case None => CustomPage([], 0, 0)
    case Some(page) =>
      MapIdentity(FromPage(page));
      Map(FromPage(page), (x: PostcodeByCount) => x)
  }
}
