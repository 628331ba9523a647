/** Reading one draft (waybill/application/usecase/GetDraftService.java): by
    id when an id is given, otherwise by barcode, otherwise a validation
    error. No check is made that the caller created the draft. */
module GetDraft {
  import opened Wrappers
  import opened Drafts
  import opened DraftMapper

  const IdOrBarcodeRequiredMessage: string := "Either id or barcode must be provided"

  /** `GetDraftCommand`. */
  datatype GetDraftCommand = GetDraftCommand(userId: nat, id: Option<nat>, barcode: Option<string>)

  /** DraftNotFoundException by id or by barcode, and DraftValidationException. */
  datatype GetDraftError =
    | NotFoundById(id: nat)
    | NotFoundByBarcode(barcode: string)
    | DraftValidation(message: string)

  /** `findDraft`. */
  function FindDraft(ds: seq<Draft>, cmd: GetDraftCommand): Result<Draft, GetDraftError>
  {
    if cmd.id.Some? then
      match FindById(ds, cmd.id.value)
      case None => Failure(NotFoundById(cmd.id.value))
      case Some(d) => Success(d)
    else if cmd.barcode.Some? then
      match FindByBarcode(ds, cmd.barcode.value)
      case None => Failure(NotFoundByBarcode(cmd.barcode.value))
      case Some(d) => Success(d)
    else Failure(DraftValidation(IdOrBarcodeRequiredMessage))
  }

  /** With an id the barcode is ignored: the answer is the draft with that id
      or a not-found error naming the id. */
  lemma IdTakesPrecedence(ds: seq<Draft>, cmd: GetDraftCommand, otherBarcode: Option<string>)
    requires cmd.id.Some?
    ensures FindDraft(ds, cmd) == FindDraft(ds, cmd.(barcode := otherBarcode))
    ensures var r := FindDraft(ds, cmd);
            (r.Success? ==> r.value in ds && r.value.id == cmd.id)
            && (r.Failure? <==> forall i :: 0 <= i < |ds| ==> ds[i].id != cmd.id)
            && (r.Failure? ==> r.error == NotFoundById(cmd.id.value))
  {
  }

  /** Without an id, the barcode decides. */
  lemma BarcodeOnlyWithoutId(ds: seq<Draft>, cmd: GetDraftCommand)
    requires cmd.id.None? && cmd.barcode.Some?
    ensures var r := FindDraft(ds, cmd);
            (r.Success? ==> r.value in ds && r.value.barcode == cmd.barcode)
            && (r.Failure? <==> forall i :: 0 <= i < |ds| ==> ds[i].barcode != cmd.barcode)
            && (r.Failure? ==> r.error == NotFoundByBarcode(cmd.barcode.value))
  {
  }

  /** With neither, the answer is the validation error whatever the table
      holds: the table is not consulted. */
  lemma NeitherIsValidationError(ds: seq<Draft>, other: seq<Draft>, cmd: GetDraftCommand)
    requires cmd.id.None? && cmd.barcode.None?
    ensures FindDraft(ds, cmd) == Failure(DraftValidation(IdOrBarcodeRequiredMessage))
    ensures FindDraft(ds, cmd) == FindDraft(other, cmd)
  {
  }

  /** The caller's identity plays no part in the lookup. */
  lemma CreatorIsNotChecked(ds: seq<Draft>, cmd: GetDraftCommand, otherUser: nat)
    ensures FindDraft(ds, cmd) == FindDraft(ds, cmd.(userId := otherUser))
  {
  }

  /** `get`. */
  function Get(ds: seq<Draft>, cmd: GetDraftCommand): (r: Result<DraftResponse, GetDraftError>)
    ensures r.Success? <==> FindDraft(ds, cmd).Success?
    ensures r.Success? ==> r.value == ToResponse(FindDraft(ds, cmd).value)
    ensures r.Failure? ==> r.error == FindDraft(ds, cmd).error
  {
    match FindDraft(ds, cmd)
    case Failure(e) => Failure(e)
    case Success(d) => Success(ToResponse(d))
  }
}
