/**
 * The diagnosis summary's parts list: the selected parts grouped by part,
 * so that a part chosen for several checklist items is listed once with
 * its quantities and amounts added up.
 *
 * `GroupParts` is the `reduce` as written, one part at a time. Beside it
 * stands a reference description that says per part id what its group
 * holds (`GroupFor`), and the order of the ids (`DistinctIds`, first
 * occurrence first); the two are proved to agree.
 */
module DiagnosisSummary {
  import opened Common
  import opened DiagnosisStore

  /** One row of the grouped list. */
  datatype PartGroup = PartGroup(
    partId: string,
    name: string,
    partNumber: Option<string>,
    unitPrice: int,
    totalQuantity: int,
    totalPrice: int)

  // ---------------------------------------------------------------------
  // the reduce
  // ---------------------------------------------------------------------

  /** `acc.find(p => p.partId === id)`, as the index of the first match (`|groups|` for none). */
  function FindGroup(groups: seq<PartGroup>, partId: string): (k: nat)
    ensures k <= |groups|
    ensures k < |groups| ==> groups[k].partId == partId
    ensures forall j :: 0 <= j < k ==> groups[j].partId != partId
  {
    if |groups| == 0 then 0
    else if groups[0].partId == partId then 0
    else 1 + FindGroup(groups[1..], partId)
  }

  /** The group a part opens when its id is seen for the first time. */
  function NewGroup(p: SelectedPart): PartGroup {
    PartGroup(p.partId, p.name, p.partNumber, p.unitPrice, p.quantity, LineTotal(p))
  }

  /** A later part with the same id adds its quantity and its own amount. */
  function Absorb(g: PartGroup, p: SelectedPart): PartGroup {
    g.(totalQuantity := g.totalQuantity + p.quantity, totalPrice := g.totalPrice + LineTotal(p))
  }

  /** The reducer body. */
  function AddToGroups(groups: seq<PartGroup>, p: SelectedPart): (r: seq<PartGroup>)
    ensures FindGroup(groups, p.partId) < |groups| ==> |r| == |groups|
    ensures FindGroup(groups, p.partId) == |groups| ==> |r| == |groups| + 1 && r[|groups|].partId == p.partId
    ensures forall i :: 0 <= i < |groups| ==> r[i].partId == groups[i].partId
  {
    var k := FindGroup(groups, p.partId);
    if k < |groups| then groups[k := Absorb(groups[k], p)] else groups + [NewGroup(p)]
  }

  /** `selectedParts.reduce(addToGroups, [])`. */
  function GroupParts(parts: seq<SelectedPart>): (r: seq<PartGroup>)
    ensures |r| <= |parts|
    ensures forall i, j :: 0 <= i < j < |r| ==> r[i].partId != r[j].partId
  {
    if |parts| == 0 then []
    else
      var g := GroupParts(Init(parts));
      var r := AddToGroups(g, Last(parts));
      assert forall i :: 0 <= i < |g| ==> r[i].partId != Last(parts).partId || FindGroup(g, Last(parts).partId) < |g|;
      r
  }

  // ---------------------------------------------------------------------
  // the reference description
  // ---------------------------------------------------------------------

  /** Some selected part carries this id. */
  predicate Occurs(parts: seq<SelectedPart>, partId: string) {
    exists k :: 0 <= k < |parts| && parts[k].partId == partId
  }

  function PartIdIs(partId: string): SelectedPart -> bool {
    (p: SelectedPart) => p.partId == partId
  }

  function QuantityOf(p: SelectedPart): int {
    p.quantity
  }

  /** The part ids, each once, and no others; see `DistinctIdsInFirstOccurrenceOrder` for their order. */
  function DistinctIds(parts: seq<SelectedPart>): (ids: seq<string>)
    ensures |ids| <= |parts|
    ensures forall i, j :: 0 <= i < j < |ids| ==> ids[i] != ids[j]
    ensures forall id :: id in ids <==> Occurs(parts, id)
  {
    if |parts| == 0 then []
    else
      var p := Init(parts);
      var x := Last(parts);
      var prev := DistinctIds(p);
      InitLast(parts);
      OccursSnocIff(p, x);
      if x.partId in prev then prev else prev + [x.partId]
  }

  /** The ids occurring in one more part are the earlier ones and its own. */
  lemma OccursSnocIff(p: seq<SelectedPart>, x: SelectedPart)
    ensures forall id :: Occurs(p + [x], id) <==> Occurs(p, id) || id == x.partId
  {
    var parts := p + [x];
    forall id | Occurs(parts, id)
      ensures Occurs(p, id) || id == x.partId
    {
      var k :| 0 <= k < |parts| && parts[k].partId == id;
      if k < |p| {
        assert p[k] == parts[k];
      }
    }
    forall id | Occurs(p, id)
      ensures Occurs(parts, id)
    {
      var k :| 0 <= k < |p| && p[k].partId == id;
      assert parts[k] == p[k];
    }
    assert parts[|p|] == x;
  }

  /**
   * The ids come in the order of their first occurrence: every id listed
   * before another occurs before that other's first occurrence.
   */
  ghost predicate InFirstOccurrenceOrder(parts: seq<SelectedPart>, ids: seq<string>) {
    forall i, j, k :: 0 <= i < j < |ids| && 0 <= k < |parts| && parts[k].partId == ids[j] ==>
      exists m :: 0 <= m < k && parts[m].partId == ids[i]
  }

  /** One instance of `InFirstOccurrenceOrder`, taken out of the quantifier. */
  lemma OrderWitness(parts: seq<SelectedPart>, ids: seq<string>, i: int, j: int, k: int)
    requires InFirstOccurrenceOrder(parts, ids)
    requires 0 <= i < j < |ids| && 0 <= k < |parts| && parts[k].partId == ids[j]
    ensures exists m :: 0 <= m < k && parts[m].partId == ids[i]
  {
    var earlier, later := ids[i], ids[j];
    assert parts[k].partId == later;
  }

  lemma {:induction false} DistinctIdsInFirstOccurrenceOrder(parts: seq<SelectedPart>)
    ensures InFirstOccurrenceOrder(parts, DistinctIds(parts))
  {
    if |parts| > 0 {
      var p := Init(parts);
      var x := Last(parts);
      InitLast(parts);
      DistinctIdsInFirstOccurrenceOrder(p);
      var ids := DistinctIds(parts);
      forall i, j, k | 0 <= i < j < |ids| && 0 <= k < |parts| && parts[k].partId == ids[j]
        ensures exists m :: 0 <= m < k && parts[m].partId == ids[i]
      {
        FirstOccurrenceStep(p, x, parts, i, j, k);
      }
    }
  }

  /** One instance of the order property for `parts == p + [x]`, from the property for `p`. */
  lemma FirstOccurrenceStep(p: seq<SelectedPart>, x: SelectedPart, parts: seq<SelectedPart>, i: int, j: int, k: int)
    requires parts == p + [x]
    requires InFirstOccurrenceOrder(p, DistinctIds(p))
    requires var ids := DistinctIds(parts);
      0 <= i < j < |ids| && 0 <= k < |parts| && parts[k].partId == ids[j]
    ensures exists m :: 0 <= m < k && parts[m].partId == DistinctIds(parts)[i]
  {
    var prev := DistinctIds(p);
    var ids := DistinctIds(parts);
    DistinctIdsSnoc(p, x);
    assert ids[i] == prev[i];
    if j < |prev| {
      EarlierIdStep(p, x, parts, i, j, k);
    } else {
      NewIdStep(p, x, parts, i, k);
    }
  }

  /** Two ids already listed for `p` keep their order in `parts`. */
  lemma EarlierIdStep(p: seq<SelectedPart>, x: SelectedPart, parts: seq<SelectedPart>, i: int, j: int, k: int)
    requires parts == p + [x]
    requires InFirstOccurrenceOrder(p, DistinctIds(p))
    requires 0 <= i < j < |DistinctIds(p)| && 0 <= k < |parts| && parts[k].partId == DistinctIds(p)[j]
    ensures exists m :: 0 <= m < k && parts[m].partId == DistinctIds(p)[i]
  {
    var prev := DistinctIds(p);
    if k < |p| {
      assert p[k] == parts[k];
      OrderWitness(p, prev, i, j, k);
      var m :| 0 <= m < k && p[m].partId == prev[i];
      assert parts[m] == p[m];
    } else {
      assert prev[j] in prev;
      var k' :| 0 <= k' < |p| && p[k'].partId == prev[j];
      OrderWitness(p, prev, i, j, k');
      var m :| 0 <= m < k' && p[m].partId == prev[i];
      assert parts[m] == p[m];
    }
  }

  /** Every id listed for `p` occurs before the first occurrence of a new id. */
  lemma NewIdStep(p: seq<SelectedPart>, x: SelectedPart, parts: seq<SelectedPart>, i: int, k: int)
    requires parts == p + [x]
    requires x.partId !in DistinctIds(p)
    requires 0 <= i < |DistinctIds(p)| && 0 <= k < |parts| && parts[k].partId == x.partId
    ensures exists m :: 0 <= m < k && parts[m].partId == DistinctIds(p)[i]
  {
    var prev := DistinctIds(p);
    assert k == |p| by {
      forall k' | 0 <= k' < |p|
        ensures parts[k'].partId != x.partId
      {
        assert parts[k'] == p[k'];
        assert p[k'].partId != x.partId;
      }
    }
    assert prev[i] in prev;
    var m :| 0 <= m < |p| && p[m].partId == prev[i];
    assert parts[m] == p[m];
  }

  /** The ids of one more part: its id is added at the end when it is new. */
  lemma DistinctIdsSnoc(p: seq<SelectedPart>, x: SelectedPart)
    ensures DistinctIds(p + [x])
         == if x.partId in DistinctIds(p) then DistinctIds(p) else DistinctIds(p) + [x.partId]
  {
    InitOfAppend(p, x);
  }

  /**
   * The group a part id should have: the first selected entry's name,
   * part number and unit price, and the quantities and amounts of all
   * entries with that id added up, each at its own unit price.
   */
  function GroupFor(parts: seq<SelectedPart>, partId: string): (g: PartGroup)
    requires Occurs(parts, partId)
  {
    var entries := Filter(parts, PartIdIs(partId));
    OccursFilter(parts, partId);
    PartGroup(partId, entries[0].name, entries[0].partNumber, entries[0].unitPrice,
      Sum(entries, QuantityOf), Sum(entries, LineTotal))
  }

  lemma OccursFilter(parts: seq<SelectedPart>, partId: string)
    ensures Occurs(parts, partId) <==> |Filter(parts, PartIdIs(partId))| > 0
  {
    FilterEmpty(parts, PartIdIs(partId));
  }

  // ---------------------------------------------------------------------
  // the reduce against the reference
  // ---------------------------------------------------------------------

  /** A part with another id leaves an id's reference group as it was. */
  lemma GroupForSnocOther(p: seq<SelectedPart>, x: SelectedPart, partId: string)
    requires Occurs(p + [x], partId) && partId != x.partId
    ensures Occurs(p, partId) && GroupFor(p + [x], partId) == GroupFor(p, partId)
  {
    FilterSnoc(p, x, PartIdIs(partId));
    assert !PartIdIs(partId)(x);
    var before := Filter(p, PartIdIs(partId));
    assert Filter(p + [x], PartIdIs(partId)) == before + [] == before;
    OccursFilter(p, partId);
    OccursFilter(p + [x], partId);
  }

  /** A later part with a seen id is absorbed into that id's reference group. */
  lemma GroupForSnocSeen(p: seq<SelectedPart>, x: SelectedPart)
    requires Occurs(p, x.partId)
    ensures Occurs(p + [x], x.partId)
    ensures GroupFor(p + [x], x.partId) == Absorb(GroupFor(p, x.partId), x)
  {
    var before := Filter(p, PartIdIs(x.partId));
    FilterSnoc(p, x, PartIdIs(x.partId));
    assert Filter(p + [x], PartIdIs(x.partId)) == before + [x];
    OccursFilter(p, x.partId);
    OccursFilter(p + [x], x.partId);
    assert (before + [x])[0] == before[0];
    SumSnoc(before, x, QuantityOf);
    SumSnoc(before, x, LineTotal);
  }

  /** A part with an unseen id has a reference group of its own. */
  lemma GroupForSnocNew(p: seq<SelectedPart>, x: SelectedPart)
    requires !Occurs(p, x.partId)
    ensures Occurs(p + [x], x.partId)
    ensures GroupFor(p + [x], x.partId) == NewGroup(x)
  {
    FilterSnoc(p, x, PartIdIs(x.partId));
    OccursFilter(p, x.partId);
    assert Filter(p + [x], PartIdIs(x.partId)) == [x];
    OccursFilter(p + [x], x.partId);
    SumSnoc([], x, QuantityOf);
    SumSnoc([], x, LineTotal);
  }

  /** The reduce's groups are the reference groups of the distinct ids, in order. */
  ghost predicate MatchesReference(parts: seq<SelectedPart>) {
    && |GroupParts(parts)| == |DistinctIds(parts)|
    && forall i :: 0 <= i < |GroupParts(parts)| ==>
         Occurs(parts, DistinctIds(parts)[i]) && GroupParts(parts)[i] == GroupFor(parts, DistinctIds(parts)[i])
  }

  /**
   * The reduce builds exactly one group per distinct part id, in the order
   * of first occurrence, each holding what the reference says it should.
   */
  lemma {:induction false} GroupPartsMatchesReference(parts: seq<SelectedPart>)
    ensures |GroupParts(parts)| == |DistinctIds(parts)|
    ensures forall i :: 0 <= i < |GroupParts(parts)| ==>
      Occurs(parts, DistinctIds(parts)[i]) && GroupParts(parts)[i] == GroupFor(parts, DistinctIds(parts)[i])
  {
    if |parts| > 0 {
      var p := Init(parts);
      var x := Last(parts);
      InitLast(parts);
      GroupPartsMatchesReference(p);
      if FindGroup(GroupParts(p), x.partId) < |GroupParts(p)| {
        ReferenceStepSeen(p, x);
      } else {
        ReferenceStepNew(p, x);
      }
    }
  }

  /** An id in `p` occurs in any extension of `p`. */
  lemma OccursSnoc(p: seq<SelectedPart>, x: SelectedPart, id: string)
    requires Occurs(p, id)
    ensures Occurs(p + [x], id)
  {
    var m :| 0 <= m < |p| && p[m].partId == id;
    assert (p + [x])[m] == p[m];
  }

  /** Under the correspondence, the groups carry the distinct ids in order. */
  lemma GroupIdsAreDistinctIds(p: seq<SelectedPart>)
    requires MatchesReference(p)
    ensures forall i :: 0 <= i < |GroupParts(p)| ==> GroupParts(p)[i].partId == DistinctIds(p)[i]
  {
  }

  /** The reduce step for a part whose id already has a group. */
  lemma ReferenceStepSeen(p: seq<SelectedPart>, x: SelectedPart)
    requires MatchesReference(p)
    requires FindGroup(GroupParts(p), x.partId) < |GroupParts(p)|
    ensures MatchesReference(p + [x])
  {
    var parts := p + [x];
    InitOfAppend(p, x);
    var g := GroupParts(p);
    var ids := DistinctIds(p);
    var r := GroupParts(parts);
    var k := FindGroup(g, x.partId);
    assert r == AddToGroups(g, x);
    GroupIdsAreDistinctIds(p);
    assert ids[k] == x.partId;
    DistinctIdsSnoc(p, x);
    assert DistinctIds(parts) == ids;
    forall i | 0 <= i < |r|
      ensures Occurs(parts, ids[i]) && r[i] == GroupFor(parts, ids[i])
    {
      OccursSnoc(p, x, ids[i]);
      if i != k {
        GroupForSnocOther(p, x, ids[i]);
      } else {
        GroupForSnocSeen(p, x);
      }
    }
  }

  /** The reduce step for a part whose id is seen for the first time. */
  lemma ReferenceStepNew(p: seq<SelectedPart>, x: SelectedPart)
    requires MatchesReference(p)
    requires FindGroup(GroupParts(p), x.partId) == |GroupParts(p)|
    ensures MatchesReference(p + [x])
  {
    var parts := p + [x];
    InitOfAppend(p, x);
    var g := GroupParts(p);
    var ids := DistinctIds(p);
    var r := GroupParts(parts);
    assert r == g + [NewGroup(x)];
    GroupIdsAreDistinctIds(p);
    assert x.partId !in ids by {
      forall k | 0 <= k < |ids|
        ensures ids[k] != x.partId
      {
        assert g[k].partId == ids[k];
      }
    }
    DistinctIdsSnoc(p, x);
    var all := ids + [x.partId];
    assert DistinctIds(parts) == all;
    forall i | 0 <= i < |r|
      ensures Occurs(parts, all[i]) && r[i] == GroupFor(parts, all[i])
    {
      if i < |g| {
        assert all[i] == ids[i] && r[i] == g[i];
        OccursSnoc(p, x, ids[i]);
        GroupForSnocOther(p, x, ids[i]);
      } else {
        GroupForSnocNew(p, x);
      }
    }
  }

  function TotalPriceOf(g: PartGroup): int {
    g.totalPrice
  }

  function TotalQuantityOf(g: PartGroup): int {
    g.totalQuantity
  }

  /** One reducer step moves the groups' amounts by the part's own amount. */
  lemma AddToGroupsTotals(groups: seq<PartGroup>, p: SelectedPart)
    ensures Sum(AddToGroups(groups, p), TotalPriceOf) == Sum(groups, TotalPriceOf) + LineTotal(p)
    ensures Sum(AddToGroups(groups, p), TotalQuantityOf) == Sum(groups, TotalQuantityOf) + p.quantity
  {
    var k := FindGroup(groups, p.partId);
    if k < |groups| {
      SumUpdate(groups, k, Absorb(groups[k], p), TotalPriceOf);
      SumUpdate(groups, k, Absorb(groups[k], p), TotalQuantityOf);
    } else {
      SumSnoc(groups, NewGroup(p), TotalPriceOf);
      SumSnoc(groups, NewGroup(p), TotalQuantityOf);
    }
  }

  /**
   * Grouping loses and adds nothing: the group amounts add up to the
   * store's parts total, and the group quantities to all quantities.
   */
  lemma {:induction false} GroupedTotals(parts: seq<SelectedPart>)
    ensures Sum(GroupParts(parts), TotalPriceOf) == Sum(parts, LineTotal)
    ensures Sum(GroupParts(parts), TotalQuantityOf) == Sum(parts, QuantityOf)
  {
    if |parts| > 0 {
      GroupedTotals(Init(parts));
      AddToGroupsTotals(GroupParts(Init(parts)), Last(parts));
    }
  }

  /** The summary's grouped amounts add up to `getPartsTotal` on the same session. */
  lemma GroupedTotalIsPartsTotal(s: DiagnosisState)
    ensures Sum(GroupParts(s.selectedParts), TotalPriceOf) == PartsTotal(s)
  {
    GroupedTotals(s.selectedParts);
  }

  /** With every id selected once, there is one group per selected part, in order. */
  lemma {:induction false} DistinctPartsGroupOneToOne(parts: seq<SelectedPart>)
    requires forall i, j :: 0 <= i < j < |parts| ==> parts[i].partId != parts[j].partId
    ensures |GroupParts(parts)| == |parts|
    ensures forall i :: 0 <= i < |parts| ==> GroupParts(parts)[i] == NewGroup(parts[i])
  {
    if |parts| > 0 {
      var p := Init(parts);
      var x := Last(parts);
      InitLast(parts);
      DistinctPartsGroupOneToOne(p);
      var g := GroupParts(p);
      if FindGroup(g, x.partId) < |g| {
        assert false;
      }
    }
  }
}
