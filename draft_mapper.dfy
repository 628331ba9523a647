/** The web mapping of drafts (waybill/adapter/in/DraftControllerMapper.java):
    a draft becomes a client response or a detailed staff response, and
    dimensions cross the wire as a plain triple that is validated again on the
    way in. */
module DraftMapper {
  import opened Wrappers
  import opened Dimensions
  import opened Drafts

  datatype DimensionsDto = DimensionsDto(length: Option<real>, width: Option<real>, height: Option<real>)

  /** `DraftResponse`: what a client sees. */
  datatype DraftResponse = DraftResponse(
    id: Option<nat>,
    barcode: Option<string>,
    recipientUserId: Option<nat>,
    recipientAddress: Option<string>,
    weightDeclared: Option<real>,
    dimensions: Option<DimensionsDto>,
    estimatedPrice: Option<real>,
    draftStatus: Option<DraftStatus>,
    createdAt: int)

  /** `DetailedDraftResponse`: adds who created and sends the draft and the
      rule it is priced by. */
  datatype DetailedDraftResponse = DetailedDraftResponse(
    id: Option<nat>,
    barcode: Option<string>,
    draftCreatorId: Option<nat>,
    senderUserId: Option<nat>,
    recipientUserId: Option<nat>,
    recipientAddress: Option<string>,
    weightDeclared: Option<real>,
    dimensions: Option<DimensionsDto>,
    pricingRuleId: Option<nat>,
    estimatedPrice: Option<real>,
    draftStatus: Option<DraftStatus>,
    createdAt: int)

  /** `toDimensionsDto`. */
  function ToDimensionsDto(d: Option<Dimensions>): (r: Option<DimensionsDto>)
    ensures r.None? <==> d.None?
  {
    match d
    case None => None
    case Some(v) => Some(DimensionsDto(v.length, v.width, v.height))
  }

  /** `toDimensions`: runs the validating constructor. */
  function ToDimensions(dto: Option<DimensionsDto>): (r: Result<Option<Dimensions>, DimensionsError>)
    ensures dto.None? ==> r == Success(None)
  {
    match dto
    case None => Success(None)
    case Some(v) =>
      match Make(v.length, v.width, v.height)
      case Failure(e) => Failure(e)
      case Success(x) => Success(Some(x))
  }

  /** Any dimensions a draft can hold survive the trip out and back. */
  lemma DimensionsRoundTrip(d: Option<Dimensions>)
    requires d.Some? ==> Valid(d.value)
    ensures ToDimensions(ToDimensionsDto(d)) == Success(d)
  {
    if d.Some? {
      MakeAcceptsExactlyValid(d.value.length, d.value.width, d.value.height);
    }
  }

  /** A triple that is accepted comes back out unchanged; one that is refused
      breaks the invariant. */
  lemma DtoRoundTrip(dto: Option<DimensionsDto>)
    ensures var r := ToDimensions(dto);
            && (r.Success? ==> ToDimensionsDto(r.value) == dto)
            && (r.Failure? <==> dto.Some? && !Valid(Dimensions(dto.value.length, dto.value.width, dto.value.height)))
  {
    if dto.Some? {
      MakeAcceptsExactlyValid(dto.value.length, dto.value.width, dto.value.height);
    }
  }

  /** `toResponse`. */
  function ToResponse(d: Draft): (r: DraftResponse)
    ensures r.id == d.id && r.barcode == d.barcode && r.createdAt == d.createdAt
    ensures r.recipientUserId == d.recipientUserId && r.recipientAddress == d.recipientAddress
    ensures r.weightDeclared == d.weightDeclared && r.estimatedPrice == d.estimatedPrice
    ensures r.draftStatus == d.draftStatus && r.dimensions == ToDimensionsDto(d.dimensions)
  {
    DraftResponse(d.id, d.barcode, d.recipientUserId, d.recipientAddress, d.weightDeclared,
                  ToDimensionsDto(d.dimensions), d.estimatedPrice, d.draftStatus, d.createdAt)
  }

  /** `toDetailedResponse`. */
  function ToDetailedResponse(d: Draft): (r: DetailedDraftResponse)
    ensures r.draftCreatorId == d.draftCreatorId && r.senderUserId == d.senderUserId
    ensures r.pricingRuleId == d.pricingRuleId && r.dimensions == ToDimensionsDto(d.dimensions)
  {
    DetailedDraftResponse(d.id, d.barcode, d.draftCreatorId, d.senderUserId, d.recipientUserId,
                          d.recipientAddress, d.weightDeclared, ToDimensionsDto(d.dimensions),
                          d.pricingRuleId, d.estimatedPrice, d.draftStatus, d.createdAt)
  }

  /** The client view of a detailed response. */
  function ClientView(r: DetailedDraftResponse): DraftResponse {
    DraftResponse(r.id, r.barcode, r.recipientUserId, r.recipientAddress, r.weightDeclared,
                  r.dimensions, r.estimatedPrice, r.draftStatus, r.createdAt)
  }

  /** The detailed response loses nothing: the draft can be read back from
      it. */
  lemma DetailedResponseIsFaithful(d1: Draft, d2: Draft)
    requires ToDetailedResponse(d1) == ToDetailedResponse(d2)
    ensures d1 == d2
  {
    assert d1.dimensions == d2.dimensions by {
      if d1.dimensions.Some? {
        assert ToDimensionsDto(d2.dimensions).Some?;
      }
    }
  }

  /** The client response is the detailed one without creator, sender and
      pricing rule, and does not depend on those three fields. */
  lemma ClientResponseHidesStaffFields(d: Draft, creator: Option<nat>, sender: Option<nat>, rule: Option<nat>)
    ensures ToResponse(d) == ClientView(ToDetailedResponse(d))
    ensures ToResponse(d.(draftCreatorId := creator, senderUserId := sender, pricingRuleId := rule)) == ToResponse(d)
  {
  }
}
