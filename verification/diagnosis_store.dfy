/**
 * The diagnosis session's state container: checklist results keyed by
 * checklist item, replacement parts keyed by (part, checklist item), the
 * customer's details and notes, and the derived counts and totals.
 *
 * As in the estimate store, each `set` call merges its fields into the
 * state; every action here is a state-to-state function whose contract
 * frames the fields it leaves alone.
 */
module DiagnosisStore {
  import opened Common

  datatype CheckResult = CheckResult(itemId: string, checked: bool, hasProblem: bool, note: Option<string>)

  /** `Partial<CheckResult>`: each field present (`Some`) or absent (`None`). */
  datatype CheckResultPatch = CheckResultPatch(
    itemId: Option<string>, checked: Option<bool>, hasProblem: Option<bool>, note: Option<string>)

  /** A part chosen for one checklist item; `partNumber` covers `null` and absent alike. */
  datatype SelectedPart = SelectedPart(
    partId: string,
    name: string,
    partNumber: Option<string>,
    quantity: int,
    unitPrice: int,
    checklistItemId: string)

  datatype CustomerInfo = CustomerInfo(
    name: Option<string>, contact: Option<string>, email: Option<string>, location: Option<string>)

  /** `Partial<CustomerInfo>` has the same shape: an absent field keeps the stored value. */
  type CustomerInfoPatch = CustomerInfo

  /** The persisted session; `lastAutoSave` is an abstract instant. */
  datatype DiagnosisState = DiagnosisState(
    equipmentId: Option<string>,
    customerInfo: CustomerInfo,
    checkResults: seq<CheckResult>,
    selectedParts: seq<SelectedPart>,
    notes: string,
    lastAutoSave: Option<int>)

  const EmptyCustomerInfo := CustomerInfo(None, None, None, None)

  /** `initialState`. */
  const InitialState := DiagnosisState(None, EmptyCustomerInfo, [], [], "", None)

  /** `{...stored, ...patch}` for one field. */
  function Override<T>(patch: Option<T>, current: T): T {
    if patch.Some? then patch.value else current
  }

  function OverrideOption<T>(patch: Option<T>, current: Option<T>): Option<T> {
    if patch.Some? then patch else current
  }

  // ---------------------------------------------------------------------
  // plain setters
  // ---------------------------------------------------------------------

  /** `setEquipmentId`. */
  function SetEquipmentId(s: DiagnosisState, id: string): (r: DiagnosisState)
    ensures r.equipmentId == Some(id)
    ensures r.customerInfo == s.customerInfo && r.checkResults == s.checkResults
    ensures r.selectedParts == s.selectedParts && r.notes == s.notes && r.lastAutoSave == s.lastAutoSave
  {
    s.(equipmentId := Some(id))
  }

  function MergeCustomerInfo(info: CustomerInfo, patch: CustomerInfoPatch): CustomerInfo {
    CustomerInfo(
      OverrideOption(patch.name, info.name),
      OverrideOption(patch.contact, info.contact),
      OverrideOption(patch.email, info.email),
      OverrideOption(patch.location, info.location))
  }

  /**
   * `setCustomerInfo`: the fields present in the patch replace the stored
   * ones; absent fields keep their value; nothing else in the state changes.
   */
  function SetCustomerInfo(s: DiagnosisState, patch: CustomerInfoPatch): (r: DiagnosisState)
    ensures r.customerInfo.name == (if patch.name.Some? then patch.name else s.customerInfo.name)
    ensures r.customerInfo.contact == (if patch.contact.Some? then patch.contact else s.customerInfo.contact)
    ensures r.customerInfo.email == (if patch.email.Some? then patch.email else s.customerInfo.email)
    ensures r.customerInfo.location == (if patch.location.Some? then patch.location else s.customerInfo.location)
    ensures r.equipmentId == s.equipmentId && r.checkResults == s.checkResults
    ensures r.selectedParts == s.selectedParts && r.notes == s.notes && r.lastAutoSave == s.lastAutoSave
  {
    s.(customerInfo := MergeCustomerInfo(s.customerInfo, patch))
  }

  /** Applying the same customer patch twice is applying it once. */
  lemma SetCustomerInfoIdempotent(s: DiagnosisState, patch: CustomerInfoPatch)
    ensures SetCustomerInfo(SetCustomerInfo(s, patch), patch) == SetCustomerInfo(s, patch)
  {
  }

  /** `setNotes`. */
  function SetNotes(s: DiagnosisState, notes: string): (r: DiagnosisState)
    ensures r.notes == notes
    ensures r.equipmentId == s.equipmentId && r.customerInfo == s.customerInfo
    ensures r.checkResults == s.checkResults && r.selectedParts == s.selectedParts
    ensures r.lastAutoSave == s.lastAutoSave
  {
    s.(notes := notes)
  }

  /** `setLastAutoSave`. */
  function SetLastAutoSave(s: DiagnosisState, at: int): (r: DiagnosisState)
    ensures r.lastAutoSave == Some(at)
    ensures r.equipmentId == s.equipmentId && r.customerInfo == s.customerInfo
    ensures r.checkResults == s.checkResults && r.selectedParts == s.selectedParts
    ensures r.notes == s.notes
  {
    s.(lastAutoSave := Some(at))
  }

  /** `reset`: the initial state, whatever the current one. */
  function Reset(s: DiagnosisState): (r: DiagnosisState)
    ensures r.equipmentId == None && r.customerInfo == EmptyCustomerInfo
    ensures r.checkResults == [] && r.selectedParts == [] && r.notes == "" && r.lastAutoSave == None
  {
    InitialState
  }

  // ---------------------------------------------------------------------
  // check results
  // ---------------------------------------------------------------------

  predicate HasResult(results: seq<CheckResult>, itemId: string) {
    exists i | 0 <= i < |results| :: results[i].itemId == itemId
  }

  ghost predicate UniqueItemIds(results: seq<CheckResult>) {
    forall i, j :: 0 <= i < j < |results| ==> results[i].itemId != results[j].itemId
  }

  /** `{...r, ...data}`. */
  function MergeResult(r: CheckResult, patch: CheckResultPatch): CheckResult {
    CheckResult(
      Override(patch.itemId, r.itemId),
      Override(patch.checked, r.checked),
      Override(patch.hasProblem, r.hasProblem),
      OverrideOption(patch.note, r.note))
  }

  function MergeWhere(itemId: string, patch: CheckResultPatch): CheckResult -> CheckResult {
    (r: CheckResult) => if r.itemId == itemId then MergeResult(r, patch) else r
  }

  /** The entry a new item starts from before the patch is applied. */
  function FreshResult(itemId: string): CheckResult {
    CheckResult(itemId, false, false, None)
  }

  /**
   * `updateCheckResult`: an item already recorded has the patch's fields
   * merged into its entry, in place; a new item is appended as unchecked and
   * problem-free, overridden by the patch. Nothing else in the state changes.
   */
  function UpdateCheckResult(s: DiagnosisState, itemId: string, patch: CheckResultPatch): (r: DiagnosisState)
    ensures HasResult(s.checkResults, itemId) ==>
      && |r.checkResults| == |s.checkResults|
      && forall i :: 0 <= i < |s.checkResults| ==>
           if s.checkResults[i].itemId == itemId then
             && r.checkResults[i].checked == Override(patch.checked, s.checkResults[i].checked)
             && r.checkResults[i].hasProblem == Override(patch.hasProblem, s.checkResults[i].hasProblem)
             && r.checkResults[i].note == OverrideOption(patch.note, s.checkResults[i].note)
             && r.checkResults[i].itemId == Override(patch.itemId, itemId)
           else r.checkResults[i] == s.checkResults[i]
    ensures !HasResult(s.checkResults, itemId) ==>
      && |r.checkResults| == |s.checkResults| + 1
      && r.checkResults[..|s.checkResults|] == s.checkResults
      && r.checkResults[|s.checkResults|] == CheckResult(
           Override(patch.itemId, itemId),
           Override(patch.checked, false),
           Override(patch.hasProblem, false),
           patch.note)
    ensures r.equipmentId == s.equipmentId && r.customerInfo == s.customerInfo
    ensures r.selectedParts == s.selectedParts && r.notes == s.notes && r.lastAutoSave == s.lastAutoSave
  {
    if HasResult(s.checkResults, itemId) then
      s.(checkResults := Map(s.checkResults, MergeWhere(itemId, patch)))
    else
      s.(checkResults := s.checkResults + [MergeResult(FreshResult(itemId), patch)])
  }

  /** A patch that does not rename the item (the only kind the checklist sends). */
  predicate KeepsItemId(patch: CheckResultPatch, itemId: string) {
    patch.itemId == None || patch.itemId == Some(itemId)
  }

  /** Updating check results keeps them unique by item id, and records the item. */
  lemma UpdateCheckResultKeepsUnique(s: DiagnosisState, itemId: string, patch: CheckResultPatch)
    requires UniqueItemIds(s.checkResults)
    requires KeepsItemId(patch, itemId)
    ensures UniqueItemIds(UpdateCheckResult(s, itemId, patch).checkResults)
    ensures HasResult(UpdateCheckResult(s, itemId, patch).checkResults, itemId)
  {
    var r := UpdateCheckResult(s, itemId, patch);
    if HasResult(s.checkResults, itemId) {
      var k :| 0 <= k < |s.checkResults| && s.checkResults[k].itemId == itemId;
      assert r.checkResults[k].itemId == itemId;
      forall i | 0 <= i < |r.checkResults|
        ensures r.checkResults[i].itemId == s.checkResults[i].itemId
      {
      }
    } else {
      assert r.checkResults[|s.checkResults|].itemId == itemId;
    }
  }

  /** Applying the same patch twice is applying it once. */
  lemma UpdateCheckResultIdempotent(s: DiagnosisState, itemId: string, patch: CheckResultPatch)
    requires KeepsItemId(patch, itemId)
    ensures UpdateCheckResult(UpdateCheckResult(s, itemId, patch), itemId, patch)
         == UpdateCheckResult(s, itemId, patch)
  {
    var once := UpdateCheckResult(s, itemId, patch);
    var twice := UpdateCheckResult(once, itemId, patch);
    if !HasResult(s.checkResults, itemId) {
      assert once.checkResults[|s.checkResults|].itemId == itemId;
    }
    assert HasResult(once.checkResults, itemId) by {
      UpdateCheckResultHasItem(s, itemId, patch);
    }
    assert twice.checkResults == once.checkResults;
  }

  lemma UpdateCheckResultHasItem(s: DiagnosisState, itemId: string, patch: CheckResultPatch)
    requires KeepsItemId(patch, itemId)
    ensures HasResult(UpdateCheckResult(s, itemId, patch).checkResults, itemId)
  {
    var r := UpdateCheckResult(s, itemId, patch);
    if HasResult(s.checkResults, itemId) {
      var k :| 0 <= k < |s.checkResults| && s.checkResults[k].itemId == itemId;
      assert r.checkResults[k].itemId == itemId;
    } else {
      assert r.checkResults[|s.checkResults|].itemId == itemId;
    }
  }

  // ---------------------------------------------------------------------
  // selected parts
  // ---------------------------------------------------------------------

  predicate SameKey(p: SelectedPart, partId: string, checklistItemId: string) {
    p.partId == partId && p.checklistItemId == checklistItemId
  }

  predicate HasKey(parts: seq<SelectedPart>, partId: string, checklistItemId: string) {
    exists i | 0 <= i < |parts| :: SameKey(parts[i], partId, checklistItemId)
  }

  /** No two selected parts share a (partId, checklistItemId) key. */
  ghost predicate UniqueKeys(parts: seq<SelectedPart>) {
    forall i, j :: 0 <= i < j < |parts| ==>
      !SameKey(parts[j], parts[i].partId, parts[i].checklistItemId)
  }

  function AddQuantityWhere(part: SelectedPart): SelectedPart -> SelectedPart {
    (p: SelectedPart) =>
      if SameKey(p, part.partId, part.checklistItemId) then p.(quantity := p.quantity + part.quantity) else p
  }

  /**
   * `addSelectedPart`: a key already present has the incoming quantity
   * added to its entry, whose name, part number and unit price stay; a new
   * key is appended as given. Nothing else in the state changes.
   */
  function AddSelectedPart(s: DiagnosisState, part: SelectedPart): (r: DiagnosisState)
    ensures HasKey(s.selectedParts, part.partId, part.checklistItemId) ==>
      && |r.selectedParts| == |s.selectedParts|
      && forall i :: 0 <= i < |s.selectedParts| ==>
           r.selectedParts[i] == (
             if SameKey(s.selectedParts[i], part.partId, part.checklistItemId)
             then s.selectedParts[i].(quantity := s.selectedParts[i].quantity + part.quantity)
             else s.selectedParts[i])
    ensures !HasKey(s.selectedParts, part.partId, part.checklistItemId) ==>
      r.selectedParts == s.selectedParts + [part]
    ensures r.equipmentId == s.equipmentId && r.customerInfo == s.customerInfo
    ensures r.checkResults == s.checkResults && r.notes == s.notes && r.lastAutoSave == s.lastAutoSave
  {
    if HasKey(s.selectedParts, part.partId, part.checklistItemId) then
      s.(selectedParts := Map(s.selectedParts, AddQuantityWhere(part)))
    else
      s.(selectedParts := s.selectedParts + [part])
  }

  /** Adding a part keeps the selection unique by key, and the key is then present. */
  lemma AddSelectedPartKeepsUnique(s: DiagnosisState, part: SelectedPart)
    requires UniqueKeys(s.selectedParts)
    ensures UniqueKeys(AddSelectedPart(s, part).selectedParts)
    ensures HasKey(AddSelectedPart(s, part).selectedParts, part.partId, part.checklistItemId)
  {
    var r := AddSelectedPart(s, part);
    if HasKey(s.selectedParts, part.partId, part.checklistItemId) {
      var k :| 0 <= k < |s.selectedParts| && SameKey(s.selectedParts[k], part.partId, part.checklistItemId);
      assert SameKey(r.selectedParts[k], part.partId, part.checklistItemId);
    } else {
      assert SameKey(r.selectedParts[|s.selectedParts|], part.partId, part.checklistItemId);
    }
  }

  function LineTotal(p: SelectedPart): int {
    p.quantity * p.unitPrice
  }

  /**
   * `getPartsTotal`: sum of quantity × unitPrice over the selected parts; 0
   * with none selected, never negative while no quantity or price is.
   */
  function PartsTotal(s: DiagnosisState): (t: int)
    ensures |s.selectedParts| == 0 ==> t == 0
    ensures (forall i :: 0 <= i < |s.selectedParts| ==>
      s.selectedParts[i].quantity >= 0 && s.selectedParts[i].unitPrice >= 0) ==> t >= 0
  {
    SumNonNegative(s.selectedParts, LineTotal);
    Sum(s.selectedParts, LineTotal)
  }

  /** Adding a new key raises the parts total by exactly that part's amount. */
  lemma AddNewPartTotal(s: DiagnosisState, part: SelectedPart)
    requires !HasKey(s.selectedParts, part.partId, part.checklistItemId)
    ensures PartsTotal(AddSelectedPart(s, part)) == PartsTotal(s) + part.quantity * part.unitPrice
  {
    SumSnoc(s.selectedParts, part, LineTotal);
  }

  /**
   * Adding to a key already held once raises the parts total by the added
   * quantity at the price already held, not the incoming one.
   */
  lemma AddExistingPartTotal(s: DiagnosisState, part: SelectedPart, k: int)
    requires UniqueKeys(s.selectedParts)
    requires 0 <= k < |s.selectedParts| && SameKey(s.selectedParts[k], part.partId, part.checklistItemId)
    ensures PartsTotal(AddSelectedPart(s, part))
         == PartsTotal(s) + part.quantity * s.selectedParts[k].unitPrice
  {
    var held := s.selectedParts[k];
    var updated := held.(quantity := held.quantity + part.quantity);
    var r := AddSelectedPart(s, part);
    assert HasKey(s.selectedParts, part.partId, part.checklistItemId);
    forall i | 0 <= i < |s.selectedParts|
      ensures r.selectedParts[i] == s.selectedParts[k := updated][i]
    {
      if i != k {
        if i < k {
          assert !SameKey(s.selectedParts[k], s.selectedParts[i].partId, s.selectedParts[i].checklistItemId);
        } else {
          assert !SameKey(s.selectedParts[i], held.partId, held.checklistItemId);
        }
      }
    }
    assert r.selectedParts == s.selectedParts[k := updated];
    SumUpdate(s.selectedParts, k, updated, LineTotal);
    MulAddLeft(held.quantity, part.quantity, held.unitPrice);
  }

  lemma MulAddLeft(a: int, b: int, c: int)
    ensures (a + b) * c == a * c + b * c
  {
  }

  function KeyIsNot(partId: string, checklistItemId: string): SelectedPart -> bool {
    (p: SelectedPart) => !SameKey(p, partId, checklistItemId)
  }

  function KeyIs(partId: string, checklistItemId: string): SelectedPart -> bool {
    (p: SelectedPart) => SameKey(p, partId, checklistItemId)
  }

  /**
   * `removeSelectedPart`: exactly the entries matching both keys go, the
   * others stay in order; nothing else in the state changes.
   */
  function RemoveSelectedPart(s: DiagnosisState, partId: string, checklistItemId: string): (r: DiagnosisState)
    ensures IsSubsequence(r.selectedParts, s.selectedParts)
    ensures forall i :: 0 <= i < |r.selectedParts| ==> !SameKey(r.selectedParts[i], partId, checklistItemId)
    ensures |r.selectedParts| + |Filter(s.selectedParts, KeyIs(partId, checklistItemId))| == |s.selectedParts|
    ensures r.equipmentId == s.equipmentId && r.customerInfo == s.customerInfo
    ensures r.checkResults == s.checkResults && r.notes == s.notes && r.lastAutoSave == s.lastAutoSave
  {
    FilterIsSubsequence(s.selectedParts, KeyIsNot(partId, checklistItemId));
    FilterPartition(s.selectedParts, KeyIsNot(partId, checklistItemId), KeyIs(partId, checklistItemId));
    s.(selectedParts := Filter(s.selectedParts, KeyIsNot(partId, checklistItemId)))
  }

  /** Removing a part just added under a new key restores the selection. */
  lemma RemoveUndoesAddNew(s: DiagnosisState, part: SelectedPart)
    requires !HasKey(s.selectedParts, part.partId, part.checklistItemId)
    ensures RemoveSelectedPart(AddSelectedPart(s, part), part.partId, part.checklistItemId) == s
  {
    var p := KeyIsNot(part.partId, part.checklistItemId);
    FilterSnoc(s.selectedParts, part, p);
    FilterAll(s.selectedParts, p);
  }

  function SetQuantityWhere(partId: string, checklistItemId: string, quantity: int): SelectedPart -> SelectedPart {
    (p: SelectedPart) => if SameKey(p, partId, checklistItemId) then p.(quantity := quantity) else p
  }

  /**
   * `updatePartQuantity`: the entry matching both keys gets the new
   * quantity; every other entry, and every other field, is unchanged.
   */
  function UpdatePartQuantity(s: DiagnosisState, partId: string, checklistItemId: string, quantity: int): (r: DiagnosisState)
    ensures |r.selectedParts| == |s.selectedParts|
    ensures forall i :: 0 <= i < |s.selectedParts| ==>
      r.selectedParts[i] == (
        if SameKey(s.selectedParts[i], partId, checklistItemId)
        then s.selectedParts[i].(quantity := quantity)
        else s.selectedParts[i])
    ensures r.equipmentId == s.equipmentId && r.customerInfo == s.customerInfo
    ensures r.checkResults == s.checkResults && r.notes == s.notes && r.lastAutoSave == s.lastAutoSave
  {
    s.(selectedParts := Map(s.selectedParts, SetQuantityWhere(partId, checklistItemId, quantity)))
  }

  /** Updating a quantity keeps the keys, hence their uniqueness. */
  lemma UpdatePartQuantityKeepsKeys(s: DiagnosisState, partId: string, checklistItemId: string, quantity: int)
    requires UniqueKeys(s.selectedParts)
    ensures UniqueKeys(UpdatePartQuantity(s, partId, checklistItemId, quantity).selectedParts)
  {
  }

  // ---------------------------------------------------------------------
  // getters
  // ---------------------------------------------------------------------

  function IsChecked(r: CheckResult): bool { r.checked }

  function HasProblem(r: CheckResult): bool { r.hasProblem }

  /** `getCheckedCount`: none checked gives 0, all checked gives the total. */
  function CheckedCount(s: DiagnosisState): (n: nat)
    ensures n <= TotalCount(s)
    ensures n == 0 <==> forall i :: 0 <= i < |s.checkResults| ==> !s.checkResults[i].checked
    ensures n == TotalCount(s) <==> forall i :: 0 <= i < |s.checkResults| ==> s.checkResults[i].checked
  {
    FilterEmpty(s.checkResults, IsChecked);
    FilterKeepsAll(s.checkResults, IsChecked);
    |Filter(s.checkResults, IsChecked)|
  }

  function IsUnchecked(r: CheckResult): bool { !r.checked }

  /** `getTotalCount`: every recorded item, checked or not. */
  function TotalCount(s: DiagnosisState): (n: nat)
    ensures n == |Filter(s.checkResults, IsChecked)| + |Filter(s.checkResults, IsUnchecked)|
  {
    FilterPartition(s.checkResults, IsChecked, IsUnchecked);
    |s.checkResults|
  }

  /** `getProblemCount`: no problem gives 0, a problem everywhere gives the total. */
  function ProblemCount(s: DiagnosisState): (n: nat)
    ensures n <= TotalCount(s)
    ensures n == 0 <==> forall i :: 0 <= i < |s.checkResults| ==> !s.checkResults[i].hasProblem
    ensures n == TotalCount(s) <==> forall i :: 0 <= i < |s.checkResults| ==> s.checkResults[i].hasProblem
  {
    FilterEmpty(s.checkResults, HasProblem);
    FilterKeepsAll(s.checkResults, HasProblem);
    |Filter(s.checkResults, HasProblem)|
  }

  function OneIf(b: bool): nat { if b then 1 else 0 }

  /**
   * Updating an item already recorded (once) keeps the total and moves the
   * checked and problem counts by the change of that one entry.
   */
  lemma CountsAfterUpdateRecorded(s: DiagnosisState, itemId: string, patch: CheckResultPatch, i: int)
    requires UniqueItemIds(s.checkResults)
    requires 0 <= i < |s.checkResults| && s.checkResults[i].itemId == itemId
    ensures var r := UpdateCheckResult(s, itemId, patch);
      && TotalCount(r) == TotalCount(s)
      && CheckedCount(r) == CheckedCount(s) - OneIf(s.checkResults[i].checked)
                                          + OneIf(Override(patch.checked, s.checkResults[i].checked))
      && ProblemCount(r) == ProblemCount(s) - OneIf(s.checkResults[i].hasProblem)
                                          + OneIf(Override(patch.hasProblem, s.checkResults[i].hasProblem))
  {
    var r := UpdateCheckResult(s, itemId, patch);
    var x := MergeResult(s.checkResults[i], patch);
    assert r.checkResults == s.checkResults[i := x] by {
      forall j | 0 <= j < |s.checkResults|
        ensures r.checkResults[j] == s.checkResults[i := x][j]
      {
        if j != i {
          assert s.checkResults[j].itemId != itemId;
        }
      }
    }
    FilterCountUpdate(s.checkResults, i, x, IsChecked);
    FilterCountUpdate(s.checkResults, i, x, HasProblem);
  }

  /**
   * Updating a new item adds one to the total, and one to the checked and
   * problem counts when the patch sets those flags.
   */
  lemma CountsAfterUpdateNew(s: DiagnosisState, itemId: string, patch: CheckResultPatch)
    requires !HasResult(s.checkResults, itemId)
    ensures var r := UpdateCheckResult(s, itemId, patch);
      && TotalCount(r) == TotalCount(s) + 1
      && CheckedCount(r) == CheckedCount(s) + OneIf(Override(patch.checked, false))
      && ProblemCount(r) == ProblemCount(s) + OneIf(Override(patch.hasProblem, false))
  {
    var x := MergeResult(FreshResult(itemId), patch);
    FilterSnoc(s.checkResults, x, IsChecked);
    FilterSnoc(s.checkResults, x, HasProblem);
  }

  function OnChecklistItem(itemId: string): SelectedPart -> bool {
    (p: SelectedPart) => p.checklistItemId == itemId
  }

  function OffChecklistItem(itemId: string): SelectedPart -> bool {
    (p: SelectedPart) => p.checklistItemId != itemId
  }

  /**
   * `getPartsByChecklistItem`: the selected parts of one checklist item, in
   * selection order; all of them and only them.
   */
  function PartsByChecklistItem(s: DiagnosisState, itemId: string): (r: seq<SelectedPart>)
    ensures IsSubsequence(r, s.selectedParts)
    ensures forall i :: 0 <= i < |r| ==> r[i].checklistItemId == itemId
    ensures forall p :: p in s.selectedParts && p.checklistItemId == itemId ==> p in r
    ensures |r| + |Filter(s.selectedParts, OffChecklistItem(itemId))| == |s.selectedParts|
  {
    FilterIsSubsequence(s.selectedParts, OnChecklistItem(itemId));
    var r := Filter(s.selectedParts, OnChecklistItem(itemId));
    FilterPartition(s.selectedParts, OnChecklistItem(itemId), OffChecklistItem(itemId));
    assert forall p :: p in s.selectedParts && p.checklistItemId == itemId ==> p in r by {
      forall p | p in s.selectedParts && p.checklistItemId == itemId
        ensures p in r
      {
        FilterMembership(s.selectedParts, OnChecklistItem(itemId), p);
      }
    }
    r
  }

  /** The parts total splits into one checklist item's share and the rest. */
  lemma PartsTotalByChecklistItem(s: DiagnosisState, itemId: string)
    ensures PartsTotal(s)
         == Sum(PartsByChecklistItem(s, itemId), LineTotal)
          + Sum(Filter(s.selectedParts, OffChecklistItem(itemId)), LineTotal)
  {
    SumFilterPartition(s.selectedParts, LineTotal, OnChecklistItem(itemId), OffChecklistItem(itemId));
  }

  /** A reset session counts and totals nothing. */
  lemma ResetCountsNothing(s: DiagnosisState)
    ensures CheckedCount(Reset(s)) == 0 && TotalCount(Reset(s)) == 0
    ensures ProblemCount(Reset(s)) == 0 && PartsTotal(Reset(s)) == 0
  {
  }
}
