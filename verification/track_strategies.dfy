/** The five `TrackStrategy` implementations behind `trackPackages` and the
    order the service tries them in. Each tier reads only the selectors it
    is declared with: the others are not parameters of its `Apply`. */
module TrackStrategies {
  import opened Wrappers
  import opened Strings
  import opened Errors
  import opened Model
  import opened Pages
  import opened Mapper
  import opened Repository
  import opened Chains

  datatype TrackStrategy =
    | ByAllParameters
    | ByEmailAndPostcode
    | ByEmail
    | ByPostcode
    | ByTrackingNumber

  /** The order `trackPackages` tries the strategies in. */
  const Chain: seq<TrackStrategy> := [ByAllParameters, ByEmailAndPostcode, ByEmail, ByPostcode, ByTrackingNumber]

  /** `isApplicable(trackingNumber, email, postcode)` of each strategy.
      `TrackStrategyByAllParameters` is not part of this model; it is taken
      to apply when all three selectors are present. */
  predicate IsApplicable(t: TrackStrategy, trackingNumber: JString, email: JString, postcode: JString) {
    match t
    case ByAllParameters => IsPresent(trackingNumber) && IsPresent(email) && IsPresent(postcode)
    case ByEmailAndPostcode => IsPresent(email) && IsPresent(postcode)
    case ByEmail => IsPresent(email)
    case ByPostcode => IsPresent(postcode)
    case ByTrackingNumber => IsPresent(trackingNumber)
  }

  /** The strategy the chain picks: the first applicable one. */
  function SelectTrack(trackingNumber: JString, email: JString, postcode: JString): (r: Option<TrackStrategy>)
    ensures r == Some(ByAllParameters) <==> IsPresent(trackingNumber) && IsPresent(email) && IsPresent(postcode)
    ensures r == Some(ByEmailAndPostcode) <==> !IsPresent(trackingNumber) && IsPresent(email) && IsPresent(postcode)
    ensures r == Some(ByEmail) <==> IsPresent(email) && !IsPresent(postcode)
    ensures r == Some(ByPostcode) <==> !IsPresent(email) && IsPresent(postcode)
    ensures r == Some(ByTrackingNumber) <==> IsPresent(trackingNumber) && !IsPresent(email) && !IsPresent(postcode)
    ensures r.None? <==> !IsPresent(trackingNumber) && !IsPresent(email) && !IsPresent(postcode)
  {
    match FirstMatch(Chain, (t: TrackStrategy) => IsApplicable(t, trackingNumber, email, postcode))
    case None => None
    case Some(i) => Some(Chain[i])
  }

  /** The page `pageable` of `all`, mapped to DTOs, or `PackageNotFound`
      with `message` when that page is empty. */
  function PageOrNotFound(all: seq<Package>, pageable: Pageable, message: string): (r: Result<CustomPage<PackageDto>, Error>)
    requires IsPageRequest(pageable)
    ensures r.Failure? <==> Offset(pageable) >= |all|
    ensures r.Failure? ==> r.error == PackageNotFound(message)
    ensures r.Success? ==> IsMappedPageOf(r.value, all, pageable)
    ensures r.Success? ==> 1 <= |r.value.content| <= pageable.pageSize
  {
    var page := Slice(all, pageable);
    if |page.content| == 0 then Failure(PackageNotFound(message))
    else Success(EntityPageToDtoPage(Some(page)))
  }

  /** Every element of a found page of `all` has a property every mapped
      element of `all` has. */
  lemma PageKeeps(all: seq<Package>, pageable: Pageable, message: string, holds: PackageDto -> bool)
    requires IsPageRequest(pageable)
    requires forall p :: p in all ==> holds(EntityToDto(p))
    ensures var r := PageOrNotFound(all, pageable, message);
            r.Success? ==> forall i :: 0 <= i < |r.value.content| ==> holds(r.value.content[i])
  {
    var r := PageOrNotFound(all, pageable, message);
    if r.Success? {
      forall i | 0 <= i < |r.value.content|
        ensures holds(r.value.content[i])
      {
        assert all[Offset(pageable) + i] in all;
      }
    }
  }

  /** `TrackStrategyByAllParameters.apply` (assumed): the one package with
      all three values as a single-element page, or `PackageNotFound`. */
  function ApplyByAllParameters(s: Store, trackingNumber: string, email: string, postcode: string): (r: Result<CustomPage<PackageDto>, Error>)
    ensures r.Success? <==> trackingNumber in s.rows && s.rows[trackingNumber].email == email
                            && s.rows[trackingNumber].recipientPostcode == postcode
    ensures r.Success? ==> r.value == CustomPage([EntityToDto(s.rows[trackingNumber])], 0, 1)
    ensures r.Failure? ==> r.error.PackageNotFound?
  {
    match FindByAll(s, trackingNumber, email, postcode)
    case None =>
      Failure(PackageNotFound("Package with tracking number " + trackingNumber + ", email " + email
                              + " and postcode " + postcode + " not found."))
    case Some(p) =>
      AtMostOneByTrackingNumber(s, p, s.rows[trackingNumber]);
      Success(SingleEntityToDtoPage(Some(p)))
  }

  /** `TrackStrategyByEmailAndPostcode.apply`: the requested page of the
      packages for that email at that postcode; `PackageNotFound` naming
      both when the page is empty. */
  function ApplyByEmailAndPostcode(s: Store, email: string, postcode: string, pageable: Pageable): (r: Result<CustomPage<PackageDto>, Error>)
    requires IsPageRequest(pageable)
    ensures r.Failure? <==> Offset(pageable) >= |FindByEmailAndPostcode(s, email, postcode)|
    ensures r.Failure? ==> r.error == PackageNotFound("Package with email " + email + " and postcode " + postcode + " not found.")
    ensures r.Success? ==> IsMappedPageOf(r.value, FindByEmailAndPostcode(s, email, postcode), pageable)
    ensures r.Success? ==> forall i :: 0 <= i < |r.value.content| ==>
                            r.value.content[i].email == Some(email) && r.value.content[i].recipientPostcode == Some(postcode)
  {
    var all := FindByEmailAndPostcode(s, email, postcode);
    var message := "Package with email " + email + " and postcode " + postcode + " not found.";
    PageKeeps(all, pageable, message, (d: PackageDto) => d.email == Some(email) && d.recipientPostcode == Some(postcode));
    PageOrNotFound(all, pageable, message)
  }

  /** `TrackStrategyByEmail.apply`: the requested page of the packages for
      that email, newest first; `PackageNotFound` naming the email when the
      page is empty. */
  function ApplyByEmail(s: Store, email: string, pageable: Pageable): (r: Result<CustomPage<PackageDto>, Error>)
    requires IsPageRequest(pageable)
    ensures r.Failure? <==> Offset(pageable) >= |FindByEmail(s, email)|
    ensures r.Failure? ==> r.error == PackageNotFound("Package with email " + email + " not found.")
    ensures r.Success? ==> IsMappedPageOf(r.value, FindByEmail(s, email), pageable)
    ensures r.Success? ==> forall i :: 0 <= i < |r.value.content| ==> r.value.content[i].email == Some(email)
  {
    var all := FindByEmail(s, email);
    var message := "Package with email " + email + " not found.";
    PageKeeps(all, pageable, message, (d: PackageDto) => d.email == Some(email));
    PageOrNotFound(all, pageable, message)
  }

  /** `TrackStrategyByPostcode.apply`: the requested page of the packages at
      that postcode in any status, newest first; `PackageNotFound` naming the
      postcode when the page is empty. */
  function ApplyByPostcode(s: Store, postcode: string, pageable: Pageable): (r: Result<CustomPage<PackageDto>, Error>)
    requires IsPageRequest(pageable)
    ensures r.Failure? <==> Offset(pageable) >= |FindByPostcode(s, postcode)|
    ensures r.Failure? ==> r.error == PackageNotFound("Package with postcode " + postcode + " not found.")
    ensures r.Success? ==> IsMappedPageOf(r.value, FindByPostcode(s, postcode), pageable)
    ensures r.Success? ==> forall i :: 0 <= i < |r.value.content| ==> r.value.content[i].recipientPostcode == Some(postcode)
  {
    var all := FindByPostcode(s, postcode);
    var message := "Package with postcode " + postcode + " not found.";
    PageKeeps(all, pageable, message, (d: PackageDto) => d.recipientPostcode == Some(postcode));
    PageOrNotFound(all, pageable, message)
  }

  /** `TrackStrategyByTrackingNumber.apply`: the package with that key as a
      one-element page 0 of size 1, whatever page was asked for; a missing
      key is `PackageNotFound` naming it. */
  function ApplyByTrackingNumber(s: Store, trackingNumber: string): (r: Result<CustomPage<PackageDto>, Error>)
    ensures r.Success? <==> trackingNumber in s.rows
    ensures r.Success? ==> r.value == CustomPage([EntityToDto(s.rows[trackingNumber])], 0, 1)
    ensures r.Failure? ==> r.error == PackageNotFound("Package with tracking number " + trackingNumber + " not found.")
  {
    match FindById(s, trackingNumber)
    case None => Failure(PackageNotFound("Package with tracking number " + trackingNumber + " not found."))
    case Some(p) => Success(SingleEntityToDtoPage(Some(p)))
  }

  /** `trackStrategy.apply(...)` for the strategy the chain picked. */
  function Apply(t: TrackStrategy, s: Store, trackingNumber: JString, email: JString, postcode: JString, pageable: Pageable)
    : Result<CustomPage<PackageDto>, Error>
    requires IsApplicable(t, trackingNumber, email, postcode) && IsPageRequest(pageable)
  {
    match t
    case ByAllParameters => ApplyByAllParameters(s, trackingNumber.value, email.value, postcode.value)
    case ByEmailAndPostcode => ApplyByEmailAndPostcode(s, email.value, postcode.value, pageable)
    case ByEmail => ApplyByEmail(s, email.value, pageable)
    case ByPostcode => ApplyByPostcode(s, postcode.value, pageable)
    case ByTrackingNumber => ApplyByTrackingNumber(s, trackingNumber.value)
  }
}
