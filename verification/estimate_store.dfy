/**
 * The estimate editor's state container. Every action of the store is a
 * `set` call, which merges the returned fields into the current state; here
 * each action is a function from state to state, and its contract says both
 * what changes and that every other field keeps its value.
 */
module EstimateStore {
  import opened Common
  import opened Estimate

  /** A travel-cost band chosen from the travel-rate catalog. */
  datatype TravelRate = TravelRate(id: string, distance: string, rate: int)

  datatype EstimateState = EstimateState(
    parts: seq<EstimatePart>,
    selectedLabor: seq<LaborType>,
    travelRate: Option<TravelRate>,
    includeVAT: bool,
    notes: string)

  /** `initialState`. */
  const InitialState := EstimateState([], [], None, false, "")

  /** `setParts`: replaces the part list. */
  function SetParts(s: EstimateState, parts: seq<EstimatePart>): (r: EstimateState)
    ensures r.parts == parts
    ensures r.selectedLabor == s.selectedLabor && r.travelRate == s.travelRate
    ensures r.includeVAT == s.includeVAT && r.notes == s.notes
  {
    s.(parts := parts)
  }

  function WithQuantity(partId: string, quantity: int): EstimatePart -> EstimatePart {
    (p: EstimatePart) => if p.partId == partId then p.(quantity := quantity) else p
  }

  /**
   * `updatePartQuantity`: every line carrying `partId` gets the new
   * quantity; the list keeps its length and order and every other field of
   * every line.
   */
  function UpdatePartQuantity(s: EstimateState, partId: string, quantity: int): (r: EstimateState)
    ensures |r.parts| == |s.parts|
    ensures forall i :: 0 <= i < |s.parts| ==>
      && r.parts[i].partId == s.parts[i].partId
      && r.parts[i].name == s.parts[i].name
      && r.parts[i].unitPrice == s.parts[i].unitPrice
      && r.parts[i].quantity == (if s.parts[i].partId == partId then quantity else s.parts[i].quantity)
    ensures r.selectedLabor == s.selectedLabor && r.travelRate == s.travelRate
    ensures r.includeVAT == s.includeVAT && r.notes == s.notes
  {
    s.(parts := Map(s.parts, WithQuantity(partId, quantity)))
  }

  /**
   * When `partId` names exactly one line, setting its quantity moves the
   * parts total by the change in quantity times that line's unit price.
   */
  lemma UpdatePartQuantityTotal(s: EstimateState, partId: string, quantity: int, i: int)
    requires 0 <= i < |s.parts| && s.parts[i].partId == partId
    requires forall j :: 0 <= j < |s.parts| && j != i ==> s.parts[j].partId != partId
    ensures PartsTotal(UpdatePartQuantity(s, partId, quantity).parts)
         == PartsTotal(s.parts) + (quantity - s.parts[i].quantity) * s.parts[i].unitPrice
  {
    var r := UpdatePartQuantity(s, partId, quantity);
    var p := s.parts[i].(quantity := quantity);
    assert r.parts == s.parts[i := p];
    SumUpdate(s.parts, i, p, LineTotal);
    assert LineTotal(p) - LineTotal(s.parts[i]) == (quantity - s.parts[i].quantity) * s.parts[i].unitPrice;
  }

  function PartIdIs(partId: string): EstimatePart -> bool {
    (p: EstimatePart) => p.partId == partId
  }

  function PartIdIsNot(partId: string): EstimatePart -> bool {
    (p: EstimatePart) => p.partId != partId
  }

  /**
   * `removePart`: the lines carrying `partId` disappear and the others stay,
   * in order. Together the three facts determine the result: an order-keeping
   * deletion, none of `partId` left, and exactly the others' count left.
   */
  function RemovePart(s: EstimateState, partId: string): (r: EstimateState)
    ensures IsSubsequence(r.parts, s.parts)
    ensures forall i :: 0 <= i < |r.parts| ==> r.parts[i].partId != partId
    ensures |r.parts| + |Filter(s.parts, PartIdIs(partId))| == |s.parts|
    ensures r.selectedLabor == s.selectedLabor && r.travelRate == s.travelRate
    ensures r.includeVAT == s.includeVAT && r.notes == s.notes
  {
    var kept := Filter(s.parts, PartIdIsNot(partId));
    FilterIsSubsequence(s.parts, PartIdIsNot(partId));
    FilterPartition(s.parts, PartIdIsNot(partId), PartIdIs(partId));
    s.(parts := kept)
  }

  /** Removing a part takes exactly its lines' amount off the parts total. */
  lemma RemovePartTotal(s: EstimateState, partId: string)
    ensures PartsTotal(RemovePart(s, partId).parts)
         == PartsTotal(s.parts) - PartsTotal(Filter(s.parts, PartIdIs(partId)))
  {
    SumFilterPartition(s.parts, LineTotal, PartIdIsNot(partId), PartIdIs(partId));
  }

  // ---------------------------------------------------------------------
  // labor selection
  // ---------------------------------------------------------------------

  predicate HasLabor(labor: seq<LaborType>, id: string) {
    exists i | 0 <= i < |labor| :: labor[i].id == id
  }

  /** No two selected labor entries share an id. */
  ghost predicate UniqueLaborIds(labor: seq<LaborType>) {
    forall i, j :: 0 <= i < j < |labor| ==> labor[i].id != labor[j].id
  }

  function LaborIdIs(id: string): LaborType -> bool {
    (l: LaborType) => l.id == id
  }

  function LaborIdIsNot(id: string): LaborType -> bool {
    (l: LaborType) => l.id != id
  }

  /**
   * `toggleLabor`: an id not yet selected is appended at the end; a selected
   * id is removed, every entry of it, with the others kept in order.
   */
  function ToggleLabor(s: EstimateState, labor: LaborType): (r: EstimateState)
    ensures !HasLabor(s.selectedLabor, labor.id) ==> r.selectedLabor == s.selectedLabor + [labor]
    ensures HasLabor(s.selectedLabor, labor.id) ==>
      && IsSubsequence(r.selectedLabor, s.selectedLabor)
      && (forall i :: 0 <= i < |r.selectedLabor| ==> r.selectedLabor[i].id != labor.id)
      && |r.selectedLabor| + |Filter(s.selectedLabor, LaborIdIs(labor.id))| == |s.selectedLabor|
    ensures r.parts == s.parts && r.travelRate == s.travelRate
    ensures r.includeVAT == s.includeVAT && r.notes == s.notes
  {
    if HasLabor(s.selectedLabor, labor.id) then
      FilterIsSubsequence(s.selectedLabor, LaborIdIsNot(labor.id));
      FilterPartition(s.selectedLabor, LaborIdIsNot(labor.id), LaborIdIs(labor.id));
      s.(selectedLabor := Filter(s.selectedLabor, LaborIdIsNot(labor.id)))
    else
      s.(selectedLabor := s.selectedLabor + [labor])
  }

  /** After a toggle the id is selected exactly when it was not before. */
  lemma ToggleLaborFlipsMembership(s: EstimateState, labor: LaborType)
    ensures HasLabor(ToggleLabor(s, labor).selectedLabor, labor.id) <==> !HasLabor(s.selectedLabor, labor.id)
  {
    var r := ToggleLabor(s, labor);
    if !HasLabor(s.selectedLabor, labor.id) {
      assert r.selectedLabor[|s.selectedLabor|].id == labor.id;
    }
  }

  /** Toggling keeps the selection unique by id. */
  lemma ToggleLaborKeepsUnique(s: EstimateState, labor: LaborType)
    requires UniqueLaborIds(s.selectedLabor)
    ensures UniqueLaborIds(ToggleLabor(s, labor).selectedLabor)
  {
    var ls := s.selectedLabor;
    if HasLabor(ls, labor.id) {
      FilterKeepsUnique(ls, LaborIdIsNot(labor.id));
    }
  }

  lemma {:induction false} FilterKeepsUnique(ls: seq<LaborType>, p: LaborType -> bool)
    requires UniqueLaborIds(ls)
    ensures UniqueLaborIds(Filter(ls, p))
  {
    if |ls| > 0 {
      var f := Filter(Init(ls), p);
      FilterKeepsUnique(Init(ls), p);
      if p(Last(ls)) {
        forall i | 0 <= i < |f|
          ensures f[i].id != Last(ls).id
        {
          FilterMembership(Init(ls), p, f[i]);
          var k :| 0 <= k < |Init(ls)| && Init(ls)[k] == f[i];
        }
      }
    }
  }

  /** Toggling an unselected labor type twice restores the selection. */
  lemma ToggleLaborTwice(s: EstimateState, labor: LaborType)
    requires !HasLabor(s.selectedLabor, labor.id)
    ensures ToggleLabor(ToggleLabor(s, labor), labor) == s
  {
    var ls := s.selectedLabor;
    var once := ToggleLabor(s, labor);
    assert once.selectedLabor[|ls|].id == labor.id;
    FilterSnoc(ls, labor, LaborIdIsNot(labor.id));
    FilterAll(ls, LaborIdIsNot(labor.id));
  }

  /** `setSelectedLabor`: replaces the labor selection. */
  function SetSelectedLabor(s: EstimateState, labor: seq<LaborType>): (r: EstimateState)
    ensures r.selectedLabor == labor
    ensures r.parts == s.parts && r.travelRate == s.travelRate
    ensures r.includeVAT == s.includeVAT && r.notes == s.notes
  {
    s.(selectedLabor := labor)
  }

  /** `setTravelRate`: replaces (or clears) the travel band. */
  function SetTravelRate(s: EstimateState, rate: Option<TravelRate>): (r: EstimateState)
    ensures r.travelRate == rate
    ensures r.parts == s.parts && r.selectedLabor == s.selectedLabor
    ensures r.includeVAT == s.includeVAT && r.notes == s.notes
  {
    s.(travelRate := rate)
  }

  /** `toggleVAT`: flips the VAT flag and nothing else. */
  function ToggleVAT(s: EstimateState): (r: EstimateState)
    ensures r.includeVAT != s.includeVAT
    ensures r.parts == s.parts && r.selectedLabor == s.selectedLabor
    ensures r.travelRate == s.travelRate && r.notes == s.notes
  {
    s.(includeVAT := !s.includeVAT)
  }

  lemma ToggleVATTwice(s: EstimateState)
    ensures ToggleVAT(ToggleVAT(s)) == s
  {
  }

  /** `setIncludeVAT`: sets the VAT flag. */
  function SetIncludeVAT(s: EstimateState, vatOn: bool): (r: EstimateState)
    ensures r.includeVAT == vatOn
    ensures r.parts == s.parts && r.selectedLabor == s.selectedLabor
    ensures r.travelRate == s.travelRate && r.notes == s.notes
  {
    s.(includeVAT := vatOn)
  }

  /** `setNotes`: replaces the notes. */
  function SetNotes(s: EstimateState, notes: string): (r: EstimateState)
    ensures r.notes == notes
    ensures r.parts == s.parts && r.selectedLabor == s.selectedLabor
    ensures r.travelRate == s.travelRate && r.includeVAT == s.includeVAT
  {
    s.(notes := notes)
  }

  /** `reset`: back to the initial state, whatever the current one. */
  function Reset(s: EstimateState): (r: EstimateState)
    ensures r.parts == [] && r.selectedLabor == [] && r.travelRate == None
    ensures !r.includeVAT && r.notes == ""
  {
    InitialState
  }

  /**
   * The breakdown the editor displays: travel cost is the chosen band's rate
   * or 0 (`travelRate?.rate || 0`).
   */
  function Totals(s: EstimateState): (r: Breakdown)
    ensures s.travelRate.Some? ==> r.travelCost == s.travelRate.value.rate
    ensures s.travelRate.None? ==> r.travelCost == 0
    ensures r.partsTotal == PartsTotal(s.parts) && r.laborTotal == LaborTotal(s.selectedLabor)
    ensures r.subtotal == r.partsTotal + r.laborTotal + r.travelCost
    ensures r.grandTotal == r.subtotal + r.vat
    ensures !s.includeVAT ==> r.vat == 0
    ensures s.includeVAT ==> 10 * r.vat - 5 <= r.subtotal < 10 * r.vat + 5
  {
    CalculateEstimate(s.parts, s.selectedLabor, if s.travelRate.Some? then s.travelRate.value.rate else 0, s.includeVAT)
  }

  /** Toggling VAT leaves every amount but the VAT and the grand total alone. */
  lemma ToggleVATMovesOnlyVat(s: EstimateState)
    ensures var before := Totals(s);
      var after := Totals(ToggleVAT(s));
      && after.partsTotal == before.partsTotal && after.laborTotal == before.laborTotal
      && after.travelCost == before.travelCost && after.subtotal == before.subtotal
      && (after.vat == 0 || before.vat == 0)
  {
  }

  /** A freshly reset editor fails validation on parts and labor and totals zero. */
  lemma ResetEstimateIsEmpty(s: EstimateState)
    ensures var r := Reset(s);
      && ValidateEstimate(r.parts, r.selectedLabor, 0).errors == [NoParts, NoLabor]
      && Totals(r) == Breakdown(0, 0, 0, 0, 0, 0)
  {
  }
}
