/** Partial update of a draft (waybill/application/usecase/UpdateDraftService.java):
    the fields the command carries replace the draft's, absent ones are kept,
    and the price is recalculated from the draft's updated rule and weight
    when the weight, the dimensions or the rule were given. A failing price
    calculation aborts the transaction, so nothing is saved. */
module UpdateDraft {
  import opened Wrappers
  import opened Decimal
  import opened Dimensions
  import opened PricingRules
  import opened Pricing
  import opened Drafts
  import opened DraftMapper

  /** `UpdateDraftCommand`; `None` fields mean "do not change". */
  datatype UpdateDraftCommand = UpdateDraftCommand(
    draftId: nat,
    userId: nat,
    recipientUserId: Option<nat>,
    recipientAddress: Option<string>,
    weightDeclared: Option<real>,
    dimensions: Option<Dimensions>,
    pricingRuleId: Option<nat>)

  /** DraftNotFoundException (by id) and the pricing service's exceptions. */
  datatype UpdateError = DraftNotFound(id: nat) | PriceFailed(cause: PricingError)

  datatype UpdateOutcome = UpdateOutcome(drafts: seq<Draft>, result: Result<DraftResponse, UpdateError>)

  predicate NeedsRecalculation(cmd: UpdateDraftCommand) {
    cmd.weightDeclared.Some? || cmd.dimensions.Some? || cmd.pricingRuleId.Some?
  }

  function Override<T>(given: Option<T>, current: Option<T>): (r: Option<T>)
    ensures given.Some? ==> r == given
    ensures given.None? ==> r == current
  {
    if given.Some? then given else current
  }

  /** The draft with the command's fields applied, before any pricing. */
  function Patched(d: Draft, cmd: UpdateDraftCommand): Draft {
    d.(recipientUserId := Override(cmd.recipientUserId, d.recipientUserId),
       recipientAddress := Override(cmd.recipientAddress, d.recipientAddress),
       weightDeclared := Override(cmd.weightDeclared, d.weightDeclared),
       dimensions := if cmd.dimensions.Some? then cmd.dimensions else d.dimensions,
       pricingRuleId := Override(cmd.pricingRuleId, d.pricingRuleId))
  }

  /** What `updateFields` leaves in the draft, or the exception it throws. */
  function Updated(d: Draft, cmd: UpdateDraftCommand, rules: seq<PricingRule>, now: int): (r: Result<Draft, PricingError>)
    ensures r.Failure? ==> NeedsRecalculation(cmd)
  {
    var p := Patched(d, cmd);
    if !NeedsRecalculation(cmd) then Success(p)
    else match CalculatePriceOf(rules, p.pricingRuleId, p.weightDeclared, now)
      case Failure(e) => Failure(e)
      case Success(price) => Success(p.(estimatedPrice := Some(price)))
  }

  /** `update` on the draft table `ds`. */
  function Update(ds: seq<Draft>, rules: seq<PricingRule>, cmd: UpdateDraftCommand, now: int): (o: UpdateOutcome)
    ensures o.result.Failure? ==> o.drafts == ds
  {
    match FindById(ds, cmd.draftId)
    case None => UpdateOutcome(ds, Failure(DraftNotFound(cmd.draftId)))
    case Some(d) =>
      match Updated(d, cmd, rules, now)
      case Failure(e) => UpdateOutcome(ds, Failure(PriceFailed(e)))
      case Success(u) => UpdateOutcome(Stored(ds, u), Success(ToResponse(u)))
  }

  /** Every field the command leaves out keeps its value, every field it
      gives takes the given value, and the key, barcode, creator, sender,
      status and creation time are never touched. */
  lemma UpdatedFields(d: Draft, cmd: UpdateDraftCommand, rules: seq<PricingRule>, now: int)
    requires Updated(d, cmd, rules, now).Success?
    ensures var u := Updated(d, cmd, rules, now).value;
            && u.recipientUserId == (if cmd.recipientUserId.Some? then cmd.recipientUserId else d.recipientUserId)
            && u.recipientAddress == (if cmd.recipientAddress.Some? then cmd.recipientAddress else d.recipientAddress)
            && u.weightDeclared == (if cmd.weightDeclared.Some? then cmd.weightDeclared else d.weightDeclared)
            && u.dimensions == (if cmd.dimensions.Some? then cmd.dimensions else d.dimensions)
            && u.pricingRuleId == (if cmd.pricingRuleId.Some? then cmd.pricingRuleId else d.pricingRuleId)
            && u.id == d.id && u.barcode == d.barcode && u.draftCreatorId == d.draftCreatorId
            && u.senderUserId == d.senderUserId && u.draftStatus == d.draftStatus && u.createdAt == d.createdAt
  {
  }

  /** A command that sets only the recipient or the address never fails,
      keeps the price, and does not consult the rules or the clock. */
  lemma RecipientOnlyKeepsPrice(d: Draft, cmd: UpdateDraftCommand, rules: seq<PricingRule>, now: int,
                                otherRules: seq<PricingRule>, otherNow: int)
    requires !NeedsRecalculation(cmd)
    ensures Updated(d, cmd, rules, now).Success?
    ensures Updated(d, cmd, rules, now).value.estimatedPrice == d.estimatedPrice
    ensures Updated(d, cmd, rules, now) == Updated(d, cmd, otherRules, otherNow)
  {
  }

  /** A command that sets the weight, the dimensions or the rule prices the
      draft with its updated rule and weight: the result is that rule's
      tariff for that weight, rounded half up to cents. */
  lemma RecalculationUsesUpdatedRuleAndWeight(d: Draft, cmd: UpdateDraftCommand, rules: seq<PricingRule>, now: int)
    requires NeedsRecalculation(cmd) && Updated(d, cmd, rules, now).Success?
    ensures var u := Updated(d, cmd, rules, now).value;
            u.pricingRuleId.Some? && u.weightDeclared.Some?
            && FindRule(rules, u.pricingRuleId.value).Some?
            && u.estimatedPrice == Some(Round2(Tariff(FindRule(rules, u.pricingRuleId.value).value, u.weightDeclared.value)))
  {
    var p := Patched(d, cmd);
    if p.pricingRuleId.Some? && p.weightDeclared.Some? {
      CalculatePriceCases(rules, p.pricingRuleId.value, p.weightDeclared.value, now);
    }
  }

  /** A price refusal is the update's refusal; the price of the draft is
      never left stale by a recalculation that fails. */
  lemma PriceFailureAborts(d: Draft, cmd: UpdateDraftCommand, rules: seq<PricingRule>, now: int)
    requires NeedsRecalculation(cmd)
    ensures var p := Patched(d, cmd);
            Updated(d, cmd, rules, now).Failure?
            <==> CalculatePriceOf(rules, p.pricingRuleId, p.weightDeclared, now).Failure?
  {
  }

  /** Neither the caller nor the draft's status is checked: any caller may
      update any draft, in any status. */
  lemma CallerAndStatusAreNotChecked(ds: seq<Draft>, rules: seq<PricingRule>, cmd: UpdateDraftCommand, now: int,
                                     otherUser: nat, d: Draft, status: Option<DraftStatus>)
    ensures Update(ds, rules, cmd, now) == Update(ds, rules, cmd.(userId := otherUser), now)
    ensures Updated(d.(draftStatus := status), cmd, rules, now).Success? <==> Updated(d, cmd, rules, now).Success?
  {
  }

  /** An unknown draft is reported and nothing is saved. */
  lemma UnknownDraftIsNotSaved(ds: seq<Draft>, rules: seq<PricingRule>, cmd: UpdateDraftCommand, now: int)
    requires forall i :: 0 <= i < |ds| ==> ds[i].id != Some(cmd.draftId)
    ensures Update(ds, rules, cmd, now) == UpdateOutcome(ds, Failure(DraftNotFound(cmd.draftId)))
  {
  }

  /** A successful update rewrites exactly the draft's row, keeps the table
      well formed, and answers the saved draft. */
  lemma SuccessfulUpdateIsSaved(ds: seq<Draft>, rules: seq<PricingRule>, cmd: UpdateDraftCommand, now: int)
    requires WellFormed(ds)
    ensures var o := Update(ds, rules, cmd, now);
            o.result.Failure? ==> o.drafts == ds
    ensures var o := Update(ds, rules, cmd, now);
            o.result.Success? ==>
              var u := Updated(FindById(ds, cmd.draftId).value, cmd, rules, now).value;
              u.id == Some(cmd.draftId) && WellFormed(o.drafts)
              && FindById(o.drafts, cmd.draftId) == Some(u) && o.result.value == ToResponse(u)
  {
    var found := FindById(ds, cmd.draftId);
    if found.Some? && Updated(found.value, cmd, rules, now).Success? {
      var u := Updated(found.value, cmd, rules, now).value;
      RewriteDraft(ds, u);
    }
  }

  /** `updateFields`: sets the given fields one by one and records whether
      the price must be recalculated. */
  method UpdateFields(d: Draft, cmd: UpdateDraftCommand, rules: seq<PricingRule>, now: int)
    returns (r: Result<Draft, PricingError>)
    ensures r == Updated(d, cmd, rules, now)
  {
    var draft := d;
    var needsRecalculation := false;
    if cmd.recipientUserId.Some? {
      draft := draft.(recipientUserId := cmd.recipientUserId);
    }
    if cmd.recipientAddress.Some? {
      draft := draft.(recipientAddress := cmd.recipientAddress);
    }
    if cmd.weightDeclared.Some? {
      draft := draft.(weightDeclared := cmd.weightDeclared);
      needsRecalculation := true;
    }
    if cmd.dimensions.Some? {
      draft := draft.(dimensions := cmd.dimensions);
      needsRecalculation := true;
    }
    if cmd.pricingRuleId.Some? {
      draft := draft.(pricingRuleId := cmd.pricingRuleId);
      needsRecalculation := true;
    }
    assert draft == Patched(d, cmd);
    if needsRecalculation {
      var newPrice := CalculatePriceOf(rules, draft.pricingRuleId, draft.weightDeclared, now);
      if newPrice.Failure? {
        return Failure(newPrice.error);
      }
      draft := draft.(estimatedPrice := Some(newPrice.value));
    }
    return Success(draft);
  }

  /** `update` against the draft repository. */
  method UpdateDraft(repo: DraftRepository, rules: seq<PricingRule>, cmd: UpdateDraftCommand, now: int)
    returns (result: Result<DraftResponse, UpdateError>)
    requires repo.Valid()
    modifies repo
    ensures var o := Update(old(repo.drafts), rules, cmd, now);
            repo.drafts == o.drafts && result == o.result
    ensures repo.Valid()
  {
    var found := repo.FindDraftById(cmd.draftId);
    if found.None? {
      return Failure(DraftNotFound(cmd.draftId));
    }
    var updated := UpdateFields(found.value, cmd, rules, now);
    if updated.Failure? {
      return Failure(PriceFailed(updated.error));
    }
    var saved := repo.Save(updated.value);
    return Success(ToResponse(saved));
  }
}
