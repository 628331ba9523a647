/** Waybill drafts (waybill/domain/WaybillDraft.java, the `Draft` the
    services use) and the draft table behind the DraftRepository port.
    Nullable fields are options; amounts are exact rationals; `createdAt` is
    a LocalDateTime in whole seconds. */
module Drafts {
  import opened Wrappers
  import opened Seqs
  import opened Dimensions

  datatype DraftStatus = PENDING | CONFIRMED | CANCELLED

  datatype Draft = Draft(
    id: Option<nat>,
    barcode: Option<string>,
    draftCreatorId: Option<nat>,
    senderUserId: Option<nat>,
    recipientUserId: Option<nat>,
    recipientAddress: Option<string>,
    weightDeclared: Option<real>,
    dimensions: Option<Dimensions>,
    pricingRuleId: Option<nat>,
    estimatedPrice: Option<real>,
    draftStatus: Option<DraftStatus>,
    createdAt: int)

  function DraftWithId(id: nat): Draft -> bool {
    (d: Draft) => d.id == Some(id)
  }

  function DraftWithBarcode(barcode: string): Draft -> bool {
    (d: Draft) => d.barcode == Some(barcode)
  }

  function CreatedBy(userId: nat): Draft -> bool {
    (d: Draft) => d.draftCreatorId == Some(userId)
  }

  /** Every stored draft has a key, and keys are unique. */
  ghost predicate WellFormed(ds: seq<Draft>) {
    (forall i :: 0 <= i < |ds| ==> ds[i].id.Some?)
    && (forall i, j :: 0 <= i < j < |ds| ==> ds[i].id != ds[j].id)
  }

  /** `findById`. */
  function FindById(ds: seq<Draft>, id: nat): (r: Option<Draft>)
    ensures r.Some? ==> r.value in ds && r.value.id == Some(id)
    ensures r.None? <==> forall i :: 0 <= i < |ds| ==> ds[i].id != Some(id)
  {
    FindFirst(ds, DraftWithId(id))
  }

  /** `findByBarcode`. */
  function FindByBarcode(ds: seq<Draft>, barcode: string): (r: Option<Draft>)
    ensures r.Some? ==> r.value in ds && r.value.barcode == Some(barcode)
    ensures r.None? <==> forall i :: 0 <= i < |ds| ==> ds[i].barcode != Some(barcode)
  {
    FindFirst(ds, DraftWithBarcode(barcode))
  }

  /** `findByDraftCreatorId`: the user's drafts in storage order. */
  function FindByCreator(ds: seq<Draft>, userId: nat): (r: seq<Draft>)
    ensures forall i :: 0 <= i < |r| ==> r[i].draftCreatorId == Some(userId) && r[i] in ds
    ensures forall d :: d in ds && d.draftCreatorId == Some(userId) ==> d in r
  {
    Filter(ds, CreatedBy(userId))
  }

  /** `save` of a draft read from the table: its row is rewritten. */
  function Stored(ds: seq<Draft>, d: Draft): seq<Draft>
    requires d.id.Some?
  {
    match FirstIndex(ds, DraftWithId(d.id.value))
    case Some(i) => ds[i := d]
    case None => ds + [d]
  }

  /** Saving a draft under a key that has a row replaces exactly that row,
      the next lookup by key sees it, and keys stay unique. */
  lemma {:induction false} RewriteDraft(ds: seq<Draft>, d: Draft)
    requires WellFormed(ds) && d.id.Some? && FindById(ds, d.id.value).Some?
    ensures var i := FirstIndex(ds, DraftWithId(d.id.value)).value;
            Stored(ds, d) == ds[i := d]
            && FindById(Stored(ds, d), d.id.value) == Some(d)
            && WellFormed(Stored(ds, d))
  {
    var i := FirstIndex(ds, DraftWithId(d.id.value)).value;
    assert DraftWithId(d.id.value)(ds[i := d][i]);
  }

  /** The draft table. */
  class DraftRepository {
    var drafts: seq<Draft>

    ghost predicate Valid()
      reads this
    {
      WellFormed(drafts)
    }

    constructor ()
      ensures drafts == [] && Valid()
    {
      drafts := [];
    }

    method FindDraftById(id: nat) returns (r: Option<Draft>)
      ensures r == FindById(drafts, id)
    {
      r := FindById(drafts, id);
    }

    method FindDraftByBarcode(barcode: string) returns (r: Option<Draft>)
      ensures r == FindByBarcode(drafts, barcode)
    {
      r := FindByBarcode(drafts, barcode);
    }

    method FindDraftsByCreator(userId: nat) returns (r: seq<Draft>)
      ensures r == FindByCreator(drafts, userId)
    {
      r := FindByCreator(drafts, userId);
    }

    /** `save` of a draft that was read from the table. */
    method Save(d: Draft) returns (saved: Draft)
      requires Valid() && d.id.Some? && FindById(drafts, d.id.value).Some?
      modifies this
      ensures drafts == Stored(old(drafts), d) && saved == d
      ensures FindById(drafts, d.id.value) == Some(d) && Valid()
    {
      RewriteDraft(drafts, d);
      drafts := Stored(drafts, d);
      saved := d;
    }
  }
}
