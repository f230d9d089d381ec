/**
 * The diagnosis form's input schema: the shape a submitted diagnosis must
 * have, field by field, and the one cross-field rule that at least one
 * checklist item was checked.
 *
 * Input is a JSON value, so that "required", "optional" and "wrong type"
 * mean what they mean for a parsed request body: an absent key is
 * `undefined`, and `null` is a value of its own that no string, boolean or
 * number schema accepts. Unknown keys are allowed (and dropped by the
 * parser). The address check behind `.email()` belongs to the schema
 * library and is a parameter here.
 */
module DiagnosisSchema {
  import opened Common
  import DiagnosisStore

  datatype Json =
    | JNull
    | JBool(b: bool)
    | JNum(n: real)
    | JStr(s: string)
    | JArr(items: seq<Json>)
    | JObj(fields: map<string, Json>)

  /** Result of `diagnosisSchema.safeParse`. */
  datatype Outcome =
    | Accepted
    /** Some field is missing or has the wrong type or range. */
    | ShapeRejected
    /** The shape is right but the refinement failed; the issue's path and message. */
    | RefineRejected(path: seq<string>, message: string)

  const NoItemCheckedMessage := "최소 1개 이상의 체크리스트 항목을 확인해주세요"

  // ---------------------------------------------------------------------
  // field rules
  // ---------------------------------------------------------------------

  /** `z.string()` on a required key. */
  predicate RequiredString(o: map<string, Json>, key: string) {
    key in o && o[key].JStr?
  }

  /** `z.string().optional()`: absent, or a string. */
  predicate OptionalString(o: map<string, Json>, key: string) {
    key !in o || o[key].JStr?
  }

  /** `z.boolean()` on a required key. */
  predicate RequiredBool(o: map<string, Json>, key: string) {
    key in o && o[key].JBool?
  }

  /** `Number.isInteger` on a finite number. */
  predicate IsInteger(x: real) {
    x.Floor as real == x
  }

  /** `z.number().int().positive()`. */
  predicate PositiveInt(o: map<string, Json>, key: string) {
    key in o && o[key].JNum? && IsInteger(o[key].n) && o[key].n > 0.0
  }

  /** `z.number().int().nonnegative()`. */
  predicate NonNegativeInt(o: map<string, Json>, key: string) {
    key in o && o[key].JNum? && IsInteger(o[key].n) && o[key].n >= 0.0
  }

  /** `z.string().email().optional().or(z.literal(''))`. */
  predicate EmailField(o: map<string, Json>, isEmail: string -> bool) {
    "email" !in o || (o["email"].JStr? && (isEmail(o["email"].s) || o["email"].s == ""))
  }

  // ---------------------------------------------------------------------
  // object schemas
  // ---------------------------------------------------------------------

  /** `customerInfoSchema`. */
  predicate CustomerInfoValid(v: Json, isEmail: string -> bool) {
    && v.JObj?
    && OptionalString(v.fields, "name")
    && OptionalString(v.fields, "contact")
    && EmailField(v.fields, isEmail)
    && OptionalString(v.fields, "location")
  }

  /** `checkResultSchema`. */
  predicate CheckResultValid(v: Json) {
    && v.JObj?
    && RequiredString(v.fields, "itemId")
    && RequiredBool(v.fields, "checked")
    && RequiredBool(v.fields, "hasProblem")
    && OptionalString(v.fields, "note")
  }

  /** `selectedPartSchema`. */
  predicate SelectedPartValid(v: Json) {
    && v.JObj?
    && RequiredString(v.fields, "partId")
    && RequiredString(v.fields, "name")
    && OptionalString(v.fields, "partNumber")
    && PositiveInt(v.fields, "quantity")
    && NonNegativeInt(v.fields, "unitPrice")
    && RequiredString(v.fields, "checklistItemId")
  }

  /** `z.array(schema)`: an array whose every element passes. */
  predicate ArrayOf(o: map<string, Json>, key: string, valid: Json -> bool) {
    key in o && o[key].JArr? && forall i :: 0 <= i < |o[key].items| ==> valid(o[key].items[i])
  }

  /** The object part of `diagnosisSchema`, before the refinement. */
  predicate DiagnosisShape(v: Json, isEmail: string -> bool) {
    && v.JObj?
    && RequiredString(v.fields, "equipmentId")
    && "customerInfo" in v.fields && CustomerInfoValid(v.fields["customerInfo"], isEmail)
    && ArrayOf(v.fields, "checkResults", CheckResultValid)
    && ArrayOf(v.fields, "selectedParts", SelectedPartValid)
    && OptionalString(v.fields, "notes")
  }

  /** `data.checkResults.some(r => r.checked)` on well-shaped results. */
  predicate SomeChecked(results: seq<Json>) {
    exists i :: 0 <= i < |results| && IsCheckedResult(results[i])
  }

  predicate IsCheckedResult(v: Json) {
    v.JObj? && "checked" in v.fields && v.fields["checked"] == JBool(true)
  }

  /**
   * `diagnosisSchema.safeParse`: the refinement runs only on a value of the
   * right shape, and its failure is reported at `checkResults`.
   */
  function ValidateDiagnosis(v: Json, isEmail: string -> bool): (r: Outcome)
    ensures r.Accepted? ==> DiagnosisShape(v, isEmail)
    ensures r.Accepted? ==> exists i :: 0 <= i < |v.fields["checkResults"].items| && v.fields["checkResults"].items[i].fields["checked"].b
    ensures r.ShapeRejected? <==> !DiagnosisShape(v, isEmail)
    ensures r.RefineRejected? ==> r.path == ["checkResults"] && r.message == NoItemCheckedMessage
    ensures r.RefineRejected? ==>
      forall i :: 0 <= i < |v.fields["checkResults"].items| ==> !v.fields["checkResults"].items[i].fields["checked"].b
  {
    if !DiagnosisShape(v, isEmail) then ShapeRejected
    else if SomeChecked(v.fields["checkResults"].items) then Accepted
    else RefineRejected(["checkResults"], NoItemCheckedMessage)
  }

  // ---------------------------------------------------------------------
  // the store's state against the schema
  // ---------------------------------------------------------------------

  /** An optional string field: present as a string, or absent. */
  function WithOptional(o: map<string, Json>, key: string, value: Option<string>): map<string, Json> {
    if value.Some? then o[key := JStr(value.value)] else o
  }

  function EncodeCustomerInfo(c: DiagnosisStore.CustomerInfo): Json {
    JObj(WithOptional(WithOptional(WithOptional(WithOptional(map[],
      "name", c.name), "contact", c.contact), "email", c.email), "location", c.location))
  }

  function EncodeCheckResult(r: DiagnosisStore.CheckResult): Json {
    JObj(WithOptional(map["itemId" := JStr(r.itemId), "checked" := JBool(r.checked),
      "hasProblem" := JBool(r.hasProblem)], "note", r.note))
  }

  function EncodeSelectedPart(p: DiagnosisStore.SelectedPart): Json {
    JObj(WithOptional(map[
      "partId" := JStr(p.partId), "name" := JStr(p.name),
      "quantity" := JNum(p.quantity as real), "unitPrice" := JNum(p.unitPrice as real),
      "checklistItemId" := JStr(p.checklistItemId)], "partNumber", p.partNumber))
  }

  /**
   * The diagnosis session written out as the JSON value the schema
   * describes: a missing equipment id becomes `null`, absent optional
   * strings are left out, and the auto-save instant is not included.
   */
  function EncodeState(s: DiagnosisStore.DiagnosisState): Json {
    JObj(map[
      "equipmentId" := (if s.equipmentId.Some? then JStr(s.equipmentId.value) else JNull),
      "customerInfo" := EncodeCustomerInfo(s.customerInfo),
      "checkResults" := JArr(EncodeResults(s.checkResults)),
      "selectedParts" := JArr(EncodeParts(s.selectedParts)),
      "notes" := JStr(s.notes)])
  }

  /** The check results written out one by one, in order. */
  function EncodeResults(results: seq<DiagnosisStore.CheckResult>): (r: seq<Json>)
    ensures |r| == |results| && forall i :: 0 <= i < |results| ==> r[i] == EncodeCheckResult(results[i])
  {
    seq(|results|, i requires 0 <= i < |results| => EncodeCheckResult(results[i]))
  }

  /** The selected parts written out one by one, in order. */
  function EncodeParts(parts: seq<DiagnosisStore.SelectedPart>): (r: seq<Json>)
    ensures |r| == |parts| && forall i :: 0 <= i < |parts| ==> r[i] == EncodeSelectedPart(parts[i])
  {
    seq(|parts|, i requires 0 <= i < |parts| => EncodeSelectedPart(parts[i]))
  }

  /** The customer's e-mail as the schema accepts it: absent, empty or an address. */
  predicate EmailAcceptable(email: Option<string>, isEmail: string -> bool) {
    email.None? || email.value == "" || isEmail(email.value)
  }

  /** Every selected part has a quantity of at least 1 and a price of at least 0. */
  predicate PartsInRange(parts: seq<DiagnosisStore.SelectedPart>) {
    forall i :: 0 <= i < |parts| ==> parts[i].quantity > 0 && parts[i].unitPrice >= 0
  }

  lemma EncodeCustomerInfoValid(c: DiagnosisStore.CustomerInfo, isEmail: string -> bool)
    ensures CustomerInfoValid(EncodeCustomerInfo(c), isEmail) <==> EmailAcceptable(c.email, isEmail)
  {
  }

  lemma EncodeSelectedPartValid(p: DiagnosisStore.SelectedPart)
    ensures SelectedPartValid(EncodeSelectedPart(p)) <==> p.quantity > 0 && p.unitPrice >= 0
  {
    var o := EncodeSelectedPart(p).fields;
    assert o["quantity"] == JNum(p.quantity as real);
    assert o["unitPrice"] == JNum(p.unitPrice as real);
    assert IsInteger(p.quantity as real) && IsInteger(p.unitPrice as real);
  }

  /** The encoded results and parts, element by element. */
  lemma EncodeStateFields(s: DiagnosisStore.DiagnosisState)
    ensures var o := EncodeState(s).fields;
      && "checkResults" in o && o["checkResults"].JArr?
      && |o["checkResults"].items| == |s.checkResults|
      && (forall i :: 0 <= i < |s.checkResults| ==> o["checkResults"].items[i] == EncodeCheckResult(s.checkResults[i]))
      && "selectedParts" in o && o["selectedParts"].JArr?
      && |o["selectedParts"].items| == |s.selectedParts|
      && (forall i :: 0 <= i < |s.selectedParts| ==> o["selectedParts"].items[i] == EncodeSelectedPart(s.selectedParts[i]))
  {
  }

  /** The encoded session has the schema's shape exactly when these hold. */
  lemma ShapeOfState(s: DiagnosisStore.DiagnosisState, isEmail: string -> bool)
    ensures DiagnosisShape(EncodeState(s), isEmail) <==>
      s.equipmentId.Some? && EmailAcceptable(s.customerInfo.email, isEmail) && PartsInRange(s.selectedParts)
  {
    var o := EncodeState(s).fields;
    assert o["equipmentId"] == (if s.equipmentId.Some? then JStr(s.equipmentId.value) else JNull);
    assert o["customerInfo"] == EncodeCustomerInfo(s.customerInfo);
    assert o["checkResults"] == JArr(EncodeResults(s.checkResults));
    assert o["selectedParts"] == JArr(EncodeParts(s.selectedParts));
    assert o["notes"] == JStr(s.notes);
    EncodeCustomerInfoValid(s.customerInfo, isEmail);
    EncodeResultsValid(s.checkResults);
    EncodePartsValid(s.selectedParts);
  }

  /** Every written-out check result passes its schema. */
  lemma EncodeResultsValid(results: seq<DiagnosisStore.CheckResult>)
    ensures forall i :: 0 <= i < |EncodeResults(results)| ==> CheckResultValid(EncodeResults(results)[i])
  {
    forall i | 0 <= i < |results|
      ensures CheckResultValid(EncodeCheckResult(results[i]))
    {
      var o := EncodeCheckResult(results[i]).fields;
      assert o["itemId"] == JStr(results[i].itemId);
      assert o["checked"] == JBool(results[i].checked);
      assert o["hasProblem"] == JBool(results[i].hasProblem);
    }
  }

  /** The written-out parts all pass their schema exactly when every part is in range. */
  lemma EncodePartsValid(parts: seq<DiagnosisStore.SelectedPart>)
    ensures (forall i :: 0 <= i < |EncodeParts(parts)| ==> SelectedPartValid(EncodeParts(parts)[i]))
        <==> PartsInRange(parts)
  {
    forall i | 0 <= i < |parts|
      ensures SelectedPartValid(EncodeParts(parts)[i]) <==> parts[i].quantity > 0 && parts[i].unitPrice >= 0
    {
      EncodeSelectedPartValid(parts[i]);
    }
  }

  /** A written-out result counts as checked exactly when the result is checked. */
  lemma EncodeCheckResultChecked(r: DiagnosisStore.CheckResult)
    ensures IsCheckedResult(EncodeCheckResult(r)) <==> r.checked
  {
    assert EncodeCheckResult(r).fields["checked"] == JBool(r.checked);
  }

  /** The schema's "some item checked" agrees with the store's checked count. */
  lemma SomeCheckedOfState(s: DiagnosisStore.DiagnosisState)
    ensures SomeChecked(EncodeState(s).fields["checkResults"].items) <==> DiagnosisStore.CheckedCount(s) > 0
  {
    var results := EncodeResults(s.checkResults);
    assert EncodeState(s).fields["checkResults"].items == results;
    if SomeChecked(results) {
      var i :| 0 <= i < |results| && IsCheckedResult(results[i]);
      EncodeCheckResultChecked(s.checkResults[i]);
    }
    if DiagnosisStore.CheckedCount(s) > 0 {
      var i :| 0 <= i < |s.checkResults| && s.checkResults[i].checked;
      EncodeCheckResultChecked(s.checkResults[i]);
    }
  }

  /**
   * A diagnosis session passes the schema exactly when equipment has been
   * chosen, the customer's e-mail is absent, empty or an address, every
   * selected part has a positive quantity and a non-negative price, and the
   * store counts at least one checked item. Names, notes, problem flags and
   * an empty parts list never cause a rejection.
   */
  lemma StateAccepted(s: DiagnosisStore.DiagnosisState, isEmail: string -> bool)
    ensures ValidateDiagnosis(EncodeState(s), isEmail).Accepted? <==>
      && s.equipmentId.Some?
      && EmailAcceptable(s.customerInfo.email, isEmail)
      && PartsInRange(s.selectedParts)
      && DiagnosisStore.CheckedCount(s) > 0
  {
    ShapeOfState(s, isEmail);
    SomeCheckedOfState(s);
  }

  /** A freshly reset session is rejected for want of a chosen piece of equipment. */
  lemma InitialStateRejected(isEmail: string -> bool)
    ensures ValidateDiagnosis(EncodeState(DiagnosisStore.InitialState), isEmail) == ShapeRejected
  {
    assert EncodeState(DiagnosisStore.InitialState).fields["equipmentId"] == JNull;
  }

  /**
   * With equipment chosen and no checklist results at all, the value is
   * well-shaped and rejected by the refinement at `checkResults`.
   */
  lemma NoResultsRefineRejected(s: DiagnosisStore.DiagnosisState, isEmail: string -> bool)
    requires s.equipmentId.Some? && s.checkResults == []
    requires EmailAcceptable(s.customerInfo.email, isEmail) && PartsInRange(s.selectedParts)
    ensures ValidateDiagnosis(EncodeState(s), isEmail) == RefineRejected(["checkResults"], NoItemCheckedMessage)
  {
    ShapeOfState(s, isEmail);
    EncodeStateFields(s);
  }

  /** A fractional quantity fails `.int()` however large it is. */
  lemma FractionalQuantityRejected(o: map<string, Json>, q: real)
    requires "quantity" in o && o["quantity"] == JNum(q) && q.Floor as real != q
    ensures !SelectedPartValid(JObj(o))
  {
  }
}
