/** The three `FilterStrategy` implementations behind `filterPackages` and
    the order the service tries them in. Unlike the track tiers they never
    report an empty result as not found. */
module FilterStrategies {
  import opened Wrappers
  import opened Strings
  import opened Dates
  import opened Errors
  import opened Model
  import opened Pages
  import opened Mapper
  import opened Repository
  import opened Chains

  datatype FilterStrategy = ByStatus | ByPostcode | ByDeliveryDate

  /** The order `filterPackages` tries the strategies in. */
  const Chain: seq<FilterStrategy> := [ByStatus, ByPostcode, ByDeliveryDate]

  /** `DeliveryStatusEnum.DELAYED.name().toLowerCase()` */
  const DelayedFilter: string := LowerAscii(Name(Delayed))

  /** `DeliveryStatusEnum.ON_TIME.name().toLowerCase()` */
  const OnTimeFilter: string := LowerAscii(Name(OnTime))

  /** The status filter values the status strategy recognises. */
  lemma FilterValues()
    ensures DelayedFilter == "delayed" && OnTimeFilter == "on_time"
  {
  }

  /** `FilterStrategyByStatus.isApplicable`: the status matches one of the
      two lower-cased constant names, ignoring case. */
  predicate StatusApplies(status: JString) {
    status.Some? && (EqualsIgnoreCase(status.value, DelayedFilter) || EqualsIgnoreCase(status.value, OnTimeFilter))
  }

  /** `isApplicable(status, postcode, deliveryDate)` of each strategy. */
  predicate IsApplicable(f: FilterStrategy, status: JString, postcode: JString, deliveryDate: JString) {
    match f
    case ByStatus => StatusApplies(status)
    case ByPostcode => IsPresent(postcode)
    case ByDeliveryDate => IsPresent(deliveryDate)
  }

  /** The strategy the chain picks: status before postcode before date. */
  function SelectFilter(status: JString, postcode: JString, deliveryDate: JString): (r: Option<FilterStrategy>)
    ensures r == Some(ByStatus) <==> StatusApplies(status)
    ensures r == Some(ByPostcode) <==> !StatusApplies(status) && IsPresent(postcode)
    ensures r == Some(ByDeliveryDate) <==> !StatusApplies(status) && !IsPresent(postcode) && IsPresent(deliveryDate)
    ensures r.None? <==> !StatusApplies(status) && !IsPresent(postcode) && !IsPresent(deliveryDate)
  {
    match FirstMatch(Chain, (f: FilterStrategy) => IsApplicable(f, status, postcode, deliveryDate))
    case None => None
    case Some(i) => Some(Chain[i])
  }

  /** The delivered package behind a DTO came after its estimate. */
  predicate IsLateDto(d: PackageDto) {
    && d.actualDeliveryDate.Some? && d.estimatedDeliveryDate.Some?
    && IsAfter(d.actualDeliveryDate.value, d.estimatedDeliveryDate.value)
  }

  /** `mapper.packageEntityPageToDtoPage(query(pageable))`: page `pageable`
      of the query result `all`, mapped to DTOs; empty past the end. */
  function MappedPage(all: seq<Package>, pageable: Pageable): (r: CustomPage<PackageDto>)
    ensures IsMappedPageOf(r, all, pageable)
    ensures |r.content| <= pageable.pageSize
  {
    EntityPageToDtoPage(Some(Slice(all, pageable)))
  }

  /** Every element of a page of `all` has a property every mapped element
      of `all` has. */
  lemma PageKeeps(all: seq<Package>, pageable: Pageable, holds: PackageDto -> bool)
    requires forall p :: p in all ==> holds(EntityToDto(p))
    ensures forall i :: 0 <= i < |MappedPage(all, pageable).content| ==> holds(MappedPage(all, pageable).content[i])
  {
    var r := MappedPage(all, pageable);
    forall i | 0 <= i < |r.content|
      ensures holds(r.content[i])
    {
      assert all[Offset(pageable) + i] in all;
    }
  }

  /** The "delayed" branch of the status strategy: a page of the DELIVERED
      packages that came after their estimate. */
  function DelayedPage(s: Store, pageable: Pageable): (r: CustomPage<PackageDto>)
    ensures IsMappedPageOf(r, FindDelayed(s, Delivered), pageable)
    ensures forall i :: 0 <= i < |r.content| ==> r.content[i].status == Some(Name(Delivered)) && IsLateDto(r.content[i])
  {
    var all := FindDelayed(s, Delivered);
    PageKeeps(all, pageable, (d: PackageDto) => d.status == Some(Name(Delivered)) && IsLateDto(d));
    MappedPage(all, pageable)
  }

  /** The "on_time" branch of the status strategy: a page of the DELIVERED
      packages that did not come after their estimate. */
  function OnTimePage(s: Store, pageable: Pageable): (r: CustomPage<PackageDto>)
    ensures IsMappedPageOf(r, FindOnTime(s, Delivered), pageable)
    ensures forall i :: 0 <= i < |r.content| ==> r.content[i].status == Some(Name(Delivered)) && !IsLateDto(r.content[i])
  {
    var all := FindOnTime(s, Delivered);
    PageKeeps(all, pageable, (d: PackageDto) => d.status == Some(Name(Delivered)) && !IsLateDto(d));
    MappedPage(all, pageable)
  }

  /** `FilterStrategyByStatus.apply`: "delayed" (any case) pages through the
      DELIVERED packages that came after their estimate, "on_time" through
      the DELIVERED ones that did not; any other value yields the empty page. */
  function ApplyByStatus(s: Store, status: string, pageable: Pageable): (r: CustomPage<PackageDto>)
    ensures EqualsIgnoreCase(status, DelayedFilter) ==>
              IsMappedPageOf(r, FindDelayed(s, Delivered), pageable)
              && forall i :: 0 <= i < |r.content| ==> r.content[i].status == Some(Name(Delivered)) && IsLateDto(r.content[i])
    ensures !EqualsIgnoreCase(status, DelayedFilter) && EqualsIgnoreCase(status, OnTimeFilter) ==>
              IsMappedPageOf(r, FindOnTime(s, Delivered), pageable)
              && forall i :: 0 <= i < |r.content| ==> r.content[i].status == Some(Name(Delivered)) && !IsLateDto(r.content[i])
    ensures !StatusApplies(Some(status)) ==> r == Empty()
  {
    if EqualsIgnoreCase(status, DelayedFilter) then DelayedPage(s, pageable)
    else if EqualsIgnoreCase(status, OnTimeFilter) then OnTimePage(s, pageable)
    else Empty()
  }

  /** `FilterStrategyByPostcode.apply`: pages through the DELIVERED packages
      at the postcode, newest first; never an error. */
  function ApplyByPostcode(s: Store, postcode: string, pageable: Pageable): (r: CustomPage<PackageDto>)
    ensures IsMappedPageOf(r, FindDeliveredByPostcode(s, postcode), pageable)
    ensures forall i :: 0 <= i < |r.content| ==>
              r.content[i].status == Some(Name(Delivered)) && r.content[i].recipientPostcode == Some(postcode)
  {
    var all := FindDeliveredByPostcode(s, postcode);
    PageKeeps(all, pageable, (d: PackageDto) => d.status == Some(Name(Delivered)) && d.recipientPostcode == Some(postcode));
    MappedPage(all, pageable)
  }

  /** `FilterStrategyByDeliveryDate.apply`: a present date that does not
      parse is a validation error; otherwise pages through the DELIVERED
      packages delivered on the parsed day. A null or empty date is never
      parsed, and the query with a null date matches nothing. */
  function ApplyByDeliveryDate(s: Store, deliveryDate: JString, pageable: Pageable): (r: Result<CustomPage<PackageDto>, Error>)
    ensures r.Failure? <==> IsPresent(deliveryDate) && Parse(deliveryDate.value).None?
    ensures r.Failure? ==> r.error == PackageValidation(DeliveryDateInvalidFormat)
    ensures r.Success? ==>
              IsMappedPageOf(r.value, FindDeliveredOn(s, if IsPresent(deliveryDate) then Parse(deliveryDate.value) else None), pageable)
    ensures r.Success? && IsPresent(deliveryDate) ==> forall i :: 0 <= i < |r.value.content| ==>
              r.value.content[i].status == Some(Name(Delivered))
              && r.value.content[i].actualDeliveryDate == Parse(deliveryDate.value)
    ensures r.Success? && !IsPresent(deliveryDate) ==> r.value.content == []
  {
    if IsPresent(deliveryDate) then
      match Parse(deliveryDate.value)
      case None => Failure(PackageValidation(DeliveryDateInvalidFormat))
      case Some(d) =>
        var all := FindDeliveredOn(s, Some(d));
        PageKeeps(all, pageable, (x: PackageDto) => x.status == Some(Name(Delivered)) && x.actualDeliveryDate == Some(d));
        Success(MappedPage(all, pageable))
    else
      Success(MappedPage(FindDeliveredOn(s, None), pageable))
  }

  /** `filter.apply(...)` for the strategy the chain picked. */
  function Apply(f: FilterStrategy, s: Store, status: JString, postcode: JString, deliveryDate: JString, pageable: Pageable)
    : Result<CustomPage<PackageDto>, Error>
    requires IsApplicable(f, status, postcode, deliveryDate)
  {
    match f
    case ByStatus => Success(ApplyByStatus(s, status.value, pageable))
    case ByPostcode => Success(ApplyByPostcode(s, postcode.value, pageable))
    case ByDeliveryDate => ApplyByDeliveryDate(s, deliveryDate, pageable)
  }
}
