/**
 * The parts picker of one checklist item: which selected parts belong to
 * the item, adding the part chosen in the drop-down, stepping a quantity,
 * removing a part, and which catalogue parts are still offered.
 *
 * The component's state is the diagnosis store together with the id chosen
 * in the drop-down (`""` when nothing is chosen); each handler is a
 * function from that state to the next.
 */
module PartsSelector {
  import opened Common
  import opened DiagnosisStore

  /** An entry of `availableParts`. */
  datatype CatalogPart = CatalogPart(id: string, name: string, partNumber: Option<string>, price: int)

  datatype Selector = Selector(store: DiagnosisState, selectedPartId: string)

  // ---------------------------------------------------------------------
  // currentItemParts
  // ---------------------------------------------------------------------

  /** `selectedParts.filter(p => p.checklistItemId === checklistItemId)`. */
  function CurrentItemParts(store: DiagnosisState, checklistItemId: string): (r: seq<SelectedPart>)
    ensures IsSubsequence(r, store.selectedParts)
    ensures forall i :: 0 <= i < |r| ==> r[i].checklistItemId == checklistItemId
    ensures forall p :: p in r <==> p in store.selectedParts && p.checklistItemId == checklistItemId
    ensures |r| + |Filter(store.selectedParts, OffChecklistItem(checklistItemId))| == |store.selectedParts|
  {
    var r := Filter(store.selectedParts, OnChecklistItem(checklistItemId));
    FilterIsSubsequence(store.selectedParts, OnChecklistItem(checklistItemId));
    forall p ensures p in r <==> p in store.selectedParts && p.checklistItemId == checklistItemId {
      FilterMembership(store.selectedParts, OnChecklistItem(checklistItemId), p);
    }
    FilterPartition(store.selectedParts, OnChecklistItem(checklistItemId), OffChecklistItem(checklistItemId));
    r
  }

  /** The component's list is the store's `getPartsByChecklistItem`. */
  lemma CurrentItemPartsIsGetter(store: DiagnosisState, checklistItemId: string)
    ensures CurrentItemParts(store, checklistItemId) == PartsByChecklistItem(store, checklistItemId)
  {
    var r := CurrentItemParts(store, checklistItemId);
    var g := PartsByChecklistItem(store, checklistItemId);
    FilterIsSubsequence(store.selectedParts, OnChecklistItem(checklistItemId));
    SubsequenceOfPassingIsFilter(g, store.selectedParts, OnChecklistItem(checklistItemId));
  }

  // ---------------------------------------------------------------------
  // handleAddPart
  // ---------------------------------------------------------------------

  /** `availableParts.find(p => p.id === id)`: the first entry with the id. */
  function FindCatalogPart(catalog: seq<CatalogPart>, id: string): (r: Option<CatalogPart>)
    ensures r.None? <==> forall i :: 0 <= i < |catalog| ==> catalog[i].id != id
    ensures r.Some? ==> r.value.id == id && exists i :: 0 <= i < |catalog| && catalog[i] == r.value
    ensures r.Some? ==>
      exists i :: 0 <= i < |catalog| && catalog[i] == r.value && forall k :: 0 <= k < i ==> catalog[k].id != id
  {
    if |catalog| == 0 then None
    else if catalog[0].id == id then Some(catalog[0])
    else
      var r := FindCatalogPart(catalog[1..], id);
      assert forall i :: 1 <= i < |catalog| ==> catalog[i] == catalog[1..][i - 1];
      if r.Some? then
        var i :| 0 <= i < |catalog[1..]| && catalog[1..][i] == r.value
          && forall k :: 0 <= k < i ==> catalog[1..][k].id != id;
        assert catalog[i + 1] == r.value;
        r
      else
        r
  }

  /** The selected part the button creates: one unit at the catalogue price. */
  function NewSelection(part: CatalogPart, checklistItemId: string): SelectedPart {
    SelectedPart(part.id, part.name, part.partNumber, 1, part.price, checklistItemId)
  }

  /**
   * `handleAddPart`: nothing happens when no part is chosen or the chosen
   * id is not in the catalogue; otherwise one unit of the catalogue part
   * goes to the store under this checklist item and the choice is cleared.
   */
  function HandleAddPart(sel: Selector, catalog: seq<CatalogPart>, checklistItemId: string): (r: Selector)
    ensures sel.selectedPartId == "" ==> r == sel
    ensures (forall i :: 0 <= i < |catalog| ==> catalog[i].id != sel.selectedPartId) ==> r == sel
    ensures sel.selectedPartId != "" && (exists i :: 0 <= i < |catalog| && catalog[i].id == sel.selectedPartId) ==>
      && r.selectedPartId == ""
      && exists part :: part in catalog && part.id == sel.selectedPartId
           && r.store == AddSelectedPart(sel.store, NewSelection(part, checklistItemId))
    ensures sel.selectedPartId != "" && (exists i :: 0 <= i < |catalog| && catalog[i].id == sel.selectedPartId) ==>
      exists i :: 0 <= i < |catalog| && catalog[i].id == sel.selectedPartId
        && (forall k :: 0 <= k < i ==> catalog[k].id != sel.selectedPartId)
        && r.store == AddSelectedPart(sel.store, NewSelection(catalog[i], checklistItemId))
  {
    if sel.selectedPartId == "" then sel
    else
      var found := FindCatalogPart(catalog, sel.selectedPartId);
      if found.None? then sel
      else Selector(AddSelectedPart(sel.store, NewSelection(found.value, checklistItemId)), "")
  }

  /**
   * Adding a part the item does not have yet appends one unit of it at
   * the catalogue price and raises the parts total by that price; adding
   * one it has raises that entry's quantity by one.
   */
  lemma AddPartEffect(sel: Selector, catalog: seq<CatalogPart>, checklistItemId: string, part: CatalogPart)
    requires part in catalog && part.id == sel.selectedPartId && sel.selectedPartId != ""
    requires forall i, j :: 0 <= i < j < |catalog| ==> catalog[i].id != catalog[j].id
    ensures var r := HandleAddPart(sel, catalog, checklistItemId);
      && r.selectedPartId == ""
      && HasKey(r.store.selectedParts, part.id, checklistItemId)
      && (!HasKey(sel.store.selectedParts, part.id, checklistItemId) ==>
            && r.store.selectedParts == sel.store.selectedParts + [SelectedPart(part.id, part.name, part.partNumber, 1, part.price, checklistItemId)]
            && PartsTotal(r.store) == PartsTotal(sel.store) + part.price)
      && (HasKey(sel.store.selectedParts, part.id, checklistItemId) ==>
            forall i :: 0 <= i < |sel.store.selectedParts| && SameKey(sel.store.selectedParts[i], part.id, checklistItemId) ==>
              r.store.selectedParts[i].quantity == sel.store.selectedParts[i].quantity + 1)
  {
    var found := FindCatalogPart(catalog, sel.selectedPartId);
    var k :| 0 <= k < |catalog| && catalog[k] == found.value;
    var m :| 0 <= m < |catalog| && catalog[m] == part;
    SameIdSameIndex(catalog, k, m);
    var newPart := NewSelection(part, checklistItemId);
    if !HasKey(sel.store.selectedParts, part.id, checklistItemId) {
      AddNewPartTotal(sel.store, newPart);
    } else {
      var k :| 0 <= k < |sel.store.selectedParts| && SameKey(sel.store.selectedParts[k], part.id, checklistItemId);
      var r := HandleAddPart(sel, catalog, checklistItemId);
      assert SameKey(r.store.selectedParts[k], part.id, checklistItemId);
    }
  }

  /** In a catalogue of distinct ids, an id names one entry. */
  lemma SameIdSameIndex(catalog: seq<CatalogPart>, k: int, m: int)
    requires forall i, j :: 0 <= i < j < |catalog| ==> catalog[i].id != catalog[j].id
    requires 0 <= k < |catalog| && 0 <= m < |catalog| && catalog[k].id == catalog[m].id
    ensures k == m
  {
  }

  // ---------------------------------------------------------------------
  // handleQuantityChange and handleRemovePart
  // ---------------------------------------------------------------------

  /** `Math.max(1, q)`. */
  function AtLeastOne(q: int): (r: int)
    ensures r >= 1 && r >= q
    ensures r == q || r == 1
  {
    if q > 1 then q else 1
  }

  /** `currentItemParts.find(p => p.partId === partId)`: the first entry with the id. */
  function FindCurrent(current: seq<SelectedPart>, partId: string): (r: Option<SelectedPart>)
    ensures r.None? <==> forall i :: 0 <= i < |current| ==> current[i].partId != partId
    ensures r.Some? ==> r.value.partId == partId && r.value in current
    ensures r.Some? ==>
      exists i :: 0 <= i < |current| && current[i] == r.value && forall k :: 0 <= k < i ==> current[k].partId != partId
  {
    if |current| == 0 then None
    else if current[0].partId == partId then Some(current[0])
    else
      var r := FindCurrent(current[1..], partId);
      assert forall i :: 1 <= i < |current| ==> current[i] == current[1..][i - 1];
      if r.Some? then
        var i :| 0 <= i < |current[1..]| && current[1..][i] == r.value
          && forall k :: 0 <= k < i ==> current[1..][k].partId != partId;
        assert current[i + 1] == r.value;
        r
      else
        r
  }

  /**
   * `handleQuantityChange`: a part not listed for this item is left alone;
   * a listed one gets `max(1, quantity + delta)` on its entry for this item,
   * and every other entry stays as it was.
   */
  function HandleQuantityChange(store: DiagnosisState, checklistItemId: string, partId: string, delta: int): (r: DiagnosisState)
    ensures (forall i :: 0 <= i < |store.selectedParts| ==> !SameKey(store.selectedParts[i], partId, checklistItemId)) ==>
      r == store
    ensures |r.selectedParts| == |store.selectedParts|
    ensures forall i :: 0 <= i < |store.selectedParts| && !SameKey(store.selectedParts[i], partId, checklistItemId) ==>
      r.selectedParts[i] == store.selectedParts[i]
    ensures forall i :: 0 <= i < |store.selectedParts| && SameKey(store.selectedParts[i], partId, checklistItemId) ==>
      r.selectedParts[i].quantity >= 1
      && r.selectedParts[i] == store.selectedParts[i].(quantity := r.selectedParts[i].quantity)
    ensures r.checkResults == store.checkResults && r.customerInfo == store.customerInfo
    ensures r.equipmentId == store.equipmentId && r.notes == store.notes && r.lastAutoSave == store.lastAutoSave
  {
    var current := CurrentItemParts(store, checklistItemId);
    var found := FindCurrent(current, partId);
    if found.None? then
      assert forall i :: 0 <= i < |store.selectedParts| ==> !SameKey(store.selectedParts[i], partId, checklistItemId) by {
        forall i | 0 <= i < |store.selectedParts| && store.selectedParts[i].checklistItemId == checklistItemId
          ensures store.selectedParts[i].partId != partId
        {
          assert store.selectedParts[i] in current;
        }
      }
      store
    else
      UpdatePartQuantity(store, partId, checklistItemId, AtLeastOne(found.value.quantity + delta))
  }

  /** With unique keys, a step of `delta` sets the entry to `max(1, quantity + delta)`. */
  function HasPartId(partId: string): SelectedPart -> bool {
    (p: SelectedPart) => p.partId == partId
  }

  /**
   * Whatever the keys, every entry of the part on this item gets
   * `max(1, quantity + delta)` computed from the FIRST such entry, the one
   * `find` returns.
   */
  lemma QuantityChangeUsesFirstEntry(store: DiagnosisState, checklistItemId: string, partId: string, delta: int, k: int)
    requires 0 <= k < |store.selectedParts| && SameKey(store.selectedParts[k], partId, checklistItemId)
    requires forall k' :: 0 <= k' < k ==> !SameKey(store.selectedParts[k'], partId, checklistItemId)
    ensures var r := HandleQuantityChange(store, checklistItemId, partId, delta);
      forall i :: 0 <= i < |store.selectedParts| && SameKey(store.selectedParts[i], partId, checklistItemId) ==>
        r.selectedParts[i].quantity == AtLeastOne(store.selectedParts[k].quantity + delta)
  {
    FoundIsFirstKeyed(store, checklistItemId, partId, k);
  }

  /** The item's first entry with the id is the first entry of the whole list with that key. */
  lemma FoundIsFirstKeyed(store: DiagnosisState, checklistItemId: string, partId: string, k: int)
    requires 0 <= k < |store.selectedParts| && SameKey(store.selectedParts[k], partId, checklistItemId)
    requires forall k' :: 0 <= k' < k ==> !SameKey(store.selectedParts[k'], partId, checklistItemId)
    ensures FindCurrent(CurrentItemParts(store, checklistItemId), partId) == Some(store.selectedParts[k])
  {
    var s := store.selectedParts;
    var current := CurrentItemParts(store, checklistItemId);
    assert s[k] in current;
    var found := FindCurrent(current, partId);
    var j :| 0 <= j < |current| && current[j] == found.value &&
      (forall k :: 0 <= k < j ==> current[k].partId != partId);
    FirstPassingIsFilterHead(current, HasPartId(partId), j);
    FilterBoth(s, OnChecklistItem(checklistItemId), HasPartId(partId), KeyIs(partId, checklistItemId));
    FirstPassingIsFilterHead(s, KeyIs(partId, checklistItemId), k);
  }

  lemma QuantityChangeStep(store: DiagnosisState, checklistItemId: string, partId: string, delta: int, i: int)
    requires UniqueKeys(store.selectedParts)
    requires 0 <= i < |store.selectedParts| && SameKey(store.selectedParts[i], partId, checklistItemId)
    ensures HandleQuantityChange(store, checklistItemId, partId, delta).selectedParts[i].quantity
         == AtLeastOne(store.selectedParts[i].quantity + delta)
  {
    var current := CurrentItemParts(store, checklistItemId);
    assert store.selectedParts[i] in current;
    var found := FindCurrent(current, partId);
    var j :| 0 <= j < |store.selectedParts| && store.selectedParts[j] == found.value;
    assert j == i;
  }

  /** Quantities that are all at least 1 stay so through the stepper. */
  lemma QuantityChangeKeepsPositive(store: DiagnosisState, checklistItemId: string, partId: string, delta: int)
    requires forall i :: 0 <= i < |store.selectedParts| ==> store.selectedParts[i].quantity >= 1
    ensures var r := HandleQuantityChange(store, checklistItemId, partId, delta);
      forall i :: 0 <= i < |r.selectedParts| ==> r.selectedParts[i].quantity >= 1
  {
  }

  /** The entries of one checklist item other than those of one part. */
  function OnItemWithout(checklistItemId: string, partId: string): SelectedPart -> bool {
    (p: SelectedPart) => p.checklistItemId == checklistItemId && p.partId != partId
  }

  function PartIdIsNot(partId: string): SelectedPart -> bool {
    (p: SelectedPart) => p.partId != partId
  }

  /**
   * `handleRemovePart`: `removeSelectedPart` under this checklist item. The
   * item's list loses exactly the entries of the part, the rest in order;
   * every other item's list and every other field stay as they were.
   */
  function HandleRemovePart(store: DiagnosisState, checklistItemId: string, partId: string): (r: DiagnosisState)
    ensures r == RemoveSelectedPart(store, partId, checklistItemId)
    ensures CurrentItemParts(r, checklistItemId) == Filter(CurrentItemParts(store, checklistItemId), PartIdIsNot(partId))
    ensures forall i :: 0 <= i < |CurrentItemParts(r, checklistItemId)| ==>
      CurrentItemParts(r, checklistItemId)[i].partId != partId
    ensures forall other :: other != checklistItemId ==>
      CurrentItemParts(r, other) == CurrentItemParts(store, other)
    ensures r.equipmentId == store.equipmentId && r.customerInfo == store.customerInfo
    ensures r.checkResults == store.checkResults && r.notes == store.notes && r.lastAutoSave == store.lastAutoSave
  {
    var r := RemoveSelectedPart(store, partId, checklistItemId);
    FilterBoth(store.selectedParts, KeyIsNot(partId, checklistItemId), OnChecklistItem(checklistItemId),
      OnItemWithout(checklistItemId, partId));
    FilterBoth(store.selectedParts, OnChecklistItem(checklistItemId), PartIdIsNot(partId),
      OnItemWithout(checklistItemId, partId));
    forall i | 0 <= i < |CurrentItemParts(r, checklistItemId)|
      ensures CurrentItemParts(r, checklistItemId)[i].partId != partId
    {
      assert CurrentItemParts(r, checklistItemId)[i] in r.selectedParts;
    }
    forall other | other != checklistItemId
      ensures CurrentItemParts(r, other) == CurrentItemParts(store, other)
    {
      FilterFilter(store.selectedParts, KeyIsNot(partId, checklistItemId), OnChecklistItem(other));
    }
    r
  }

  /**
   * Removing a part that the add button has just put on an item for the
   * first time gives back the store as it was before the add.
   */
  lemma RemoveUndoesAdd(sel: Selector, catalog: seq<CatalogPart>, checklistItemId: string, part: CatalogPart)
    requires part in catalog && part.id == sel.selectedPartId && sel.selectedPartId != ""
    requires forall i, j :: 0 <= i < j < |catalog| ==> catalog[i].id != catalog[j].id
    requires !HasKey(sel.store.selectedParts, part.id, checklistItemId)
    ensures HandleRemovePart(HandleAddPart(sel, catalog, checklistItemId).store, checklistItemId, part.id) == sel.store
  {
    var found := FindCatalogPart(catalog, sel.selectedPartId);
    var k :| 0 <= k < |catalog| && catalog[k] == found.value;
    var m :| 0 <= m < |catalog| && catalog[m] == part;
    SameIdSameIndex(catalog, k, m);
    RemoveUndoesAddNew(sel.store, NewSelection(part, checklistItemId));
  }

  // ---------------------------------------------------------------------
  // availableToAdd
  // ---------------------------------------------------------------------

  /** `currentItemParts.some(cp => cp.partId === id)`. */
  predicate IsSelected(current: seq<SelectedPart>, id: string) {
    exists i :: 0 <= i < |current| && current[i].partId == id
  }

  function SelectedIn(current: seq<SelectedPart>): CatalogPart -> bool {
    (c: CatalogPart) => IsSelected(current, c.id)
  }

  function NotSelectedIn(current: seq<SelectedPart>): CatalogPart -> bool {
    (c: CatalogPart) => !IsSelected(current, c.id)
  }

  /**
   * `availableToAdd`: the catalogue in its own order, without the parts
   * this item already has; every part it does not have is offered.
   */
  function AvailableToAdd(catalog: seq<CatalogPart>, current: seq<SelectedPart>): (r: seq<CatalogPart>)
    ensures IsSubsequence(r, catalog)
    ensures forall i :: 0 <= i < |r| ==> !IsSelected(current, r[i].id)
    ensures forall c :: c in catalog && !IsSelected(current, c.id) ==> c in r
    ensures |r| + |Filter(catalog, SelectedIn(current))| == |catalog|
  {
    var r := Filter(catalog, NotSelectedIn(current));
    FilterPartition(catalog, NotSelectedIn(current), SelectedIn(current));
    FilterIsSubsequence(catalog, NotSelectedIn(current));
    forall c | c in catalog && !IsSelected(current, c.id)
      ensures c in r
    {
      FilterMembership(catalog, NotSelectedIn(current), c);
    }
    r
  }

  /** Once a part has been added to the item, the catalogue no longer offers it there. */
  lemma AddedPartNoLongerOffered(sel: Selector, catalog: seq<CatalogPart>, checklistItemId: string, part: CatalogPart)
    requires part in catalog && part.id == sel.selectedPartId && sel.selectedPartId != ""
    requires forall i, j :: 0 <= i < j < |catalog| ==> catalog[i].id != catalog[j].id
    ensures var r := HandleAddPart(sel, catalog, checklistItemId);
      part !in AvailableToAdd(catalog, CurrentItemParts(r.store, checklistItemId))
  {
    AddPartEffect(sel, catalog, checklistItemId, part);
    var r := HandleAddPart(sel, catalog, checklistItemId);
    KeyedPartIsSelected(r.store, checklistItemId, part.id);
    SelectedNotOffered(catalog, CurrentItemParts(r.store, checklistItemId), part);
  }

  lemma KeyedPartIsSelected(store: DiagnosisState, checklistItemId: string, partId: string)
    requires HasKey(store.selectedParts, partId, checklistItemId)
    ensures IsSelected(CurrentItemParts(store, checklistItemId), partId)
  {
    var current := CurrentItemParts(store, checklistItemId);
    var k :| 0 <= k < |store.selectedParts| && SameKey(store.selectedParts[k], partId, checklistItemId);
    assert store.selectedParts[k] in current;
    var j :| 0 <= j < |current| && current[j] == store.selectedParts[k];
    assert current[j].partId == partId;
  }

  /** A part the item already has is not offered. */
  lemma SelectedNotOffered(catalog: seq<CatalogPart>, current: seq<SelectedPart>, part: CatalogPart)
    requires IsSelected(current, part.id)
    ensures part !in AvailableToAdd(catalog, current)
  {
    FilterMembership(catalog, NotSelectedIn(current), part);
  }
}
