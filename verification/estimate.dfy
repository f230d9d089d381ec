/**
 * The estimate calculator and validator: the money shown to the customer.
 *
 * Amounts are whole won, taken to stay below 2^53 so that the sums the
 * source forms in doubles are exact. `calculateEstimate` rounds VAT with
 * `Math.round(subtotal * 0.1)`; the model uses the exact rational
 * `floor(subtotal / 10 + 1/2)`, written `(subtotal + 5) / 10`. For
 * subtotals from 0 up to 2^52 the two agree: the double nearest to 0.1 is
 * slightly above 1/10, so a product that is mathematically `k + 0.5` never
 * lands below the half, one that is `k + 0.4` stays below it, and
 * `Math.round` rounds halves upwards. Between 2^52 and 2^53 the product is
 * rounded to a step of 1/2 or more and the two can differ: for the subtotal
 * 8691512805963844 the double product rounds to 869151280596385, where the
 * exact rounding gives 869151280596384.
 */
module Estimate {
  import opened Common
  import opened Decimal

  /** One part line of an estimate. */
  datatype EstimatePart = EstimatePart(partId: string, name: string, quantity: int, unitPrice: int)

  /** A flat-rate labor charge; only `rate` takes part in totals. */
  datatype LaborType = LaborType(id: string, name: string, rate: int)

  /** The itemised result of one calculation. */
  datatype Breakdown = Breakdown(
    partsTotal: int,
    laborTotal: int,
    travelCost: int,
    subtotal: int,
    vat: int,
    grandTotal: int)

  function LineTotal(p: EstimatePart): int {
    p.quantity * p.unitPrice
  }

  function RateOf(l: LaborType): int {
    l.rate
  }

  /**
   * `calculatePartsTotal`: sum of quantity × unitPrice over the lines; 0 for
   * no lines, never negative while no quantity or price is.
   */
  function PartsTotal(parts: seq<EstimatePart>): (r: int)
    ensures |parts| == 0 ==> r == 0
    ensures (forall i :: 0 <= i < |parts| ==> parts[i].quantity >= 0 && parts[i].unitPrice >= 0) ==> r >= 0
  {
    SumNonNegative(parts, LineTotal);
    Sum(parts, LineTotal)
  }

  /**
   * `calculateLaborTotal`: sum of the rates, duplicates included; 0 for no
   * labor, never negative while no rate is.
   */
  function LaborTotal(labor: seq<LaborType>): (r: int)
    ensures |labor| == 0 ==> r == 0
    ensures (forall i :: 0 <= i < |labor| ==> labor[i].rate >= 0) ==> r >= 0
  {
    SumNonNegative(labor, RateOf);
    Sum(labor, RateOf)
  }

  /**
   * The `reduce` loop of `calculatePartsTotal`, folding from the first line
   * to the last, computes the parts total.
   */
  method ComputePartsTotal(parts: seq<EstimatePart>) returns (total: int)
    ensures total == PartsTotal(parts)
    ensures |parts| == 0 ==> total == 0
    ensures (forall i :: 0 <= i < |parts| ==> parts[i].quantity >= 0 && parts[i].unitPrice >= 0) ==> total >= 0
  {
    total := 0;
    var i := 0;
    while i < |parts|
      invariant 0 <= i <= |parts|
      invariant total == Sum(parts[..i], LineTotal)
    {
      SumSnoc(parts[..i], parts[i], LineTotal);
      assert parts[..i + 1] == parts[..i] + [parts[i]];
      total := total + parts[i].quantity * parts[i].unitPrice;
      i := i + 1;
    }
    assert parts[..i] == parts;
  }

  /** The parts total of a list is the sum of the parts totals of its pieces. */
  lemma PartsTotalAppend(a: seq<EstimatePart>, b: seq<EstimatePart>)
    ensures PartsTotal(a + b) == PartsTotal(a) + PartsTotal(b)
  {
    SumAppend(a, b, LineTotal);
  }

  /**
   * One more unit of one line, all else fixed, raises the parts total by
   * exactly that line's unit price.
   */
  lemma PartsTotalIncrement(parts: seq<EstimatePart>, i: int)
    requires 0 <= i < |parts|
    ensures PartsTotal(parts[i := parts[i].(quantity := parts[i].quantity + 1)])
         == PartsTotal(parts) + parts[i].unitPrice
  {
    var p := parts[i].(quantity := parts[i].quantity + 1);
    SumUpdate(parts, i, p, LineTotal);
    assert LineTotal(p) == LineTotal(parts[i]) + parts[i].unitPrice;
  }

  /** Labor charges are not de-duplicated: every entry adds its rate once more. */
  lemma LaborTotalAppend(labor: seq<LaborType>, l: LaborType)
    ensures LaborTotal(labor + [l]) == LaborTotal(labor) + l.rate
    ensures LaborTotal(labor + [l, l]) == LaborTotal(labor) + 2 * l.rate
  {
    SumSnoc(labor, l, RateOf);
    assert labor + [l, l] == (labor + [l]) + [l];
    SumSnoc(labor + [l], l, RateOf);
  }

  /** `Math.round(subtotal * 0.1)`: the nearest whole won to a tenth, halves rounded up. */
  function Vat(subtotal: int): (v: int)
    ensures 10 * v - 5 <= subtotal < 10 * v + 5
    ensures subtotal >= 0 ==> 0 <= v <= subtotal
  {
    (subtotal + 5) / 10
  }

  /** The rounded tenth is the only whole amount within half a won of a tenth of the subtotal. */
  lemma VatUnique(subtotal: int, v: int)
    requires 10 * v - 5 <= subtotal < 10 * v + 5
    ensures v == Vat(subtotal)
  {
  }

  /** `calculateEstimate`. */
  function CalculateEstimate(
    parts: seq<EstimatePart>, labor: seq<LaborType>, travelCost: int, includeVAT: bool): (r: Breakdown)
    ensures r.partsTotal == PartsTotal(parts) && r.laborTotal == LaborTotal(labor)
    ensures r.travelCost == travelCost
    ensures r.subtotal == r.partsTotal + r.laborTotal + r.travelCost
    ensures r.grandTotal == r.subtotal + r.vat
    ensures !includeVAT ==> r.vat == 0 && r.grandTotal == r.subtotal
    ensures includeVAT ==> 10 * r.vat - 5 <= r.subtotal < 10 * r.vat + 5
    ensures r.subtotal >= 0 ==> r.subtotal <= r.grandTotal
  {
    var partsTotal := PartsTotal(parts);
    var laborTotal := LaborTotal(labor);
    var subtotal := partsTotal + laborTotal + travelCost;
    var vat := if includeVAT then Vat(subtotal) else 0;
    Breakdown(partsTotal, laborTotal, travelCost, subtotal, vat, subtotal + vat)
  }

  /**
   * With non-negative inputs every field of the breakdown is non-negative
   * and the grand total is at least the subtotal.
   */
  lemma BreakdownNonNegative(
    parts: seq<EstimatePart>, labor: seq<LaborType>, travelCost: int, includeVAT: bool)
    requires forall i :: 0 <= i < |parts| ==> parts[i].quantity >= 0 && parts[i].unitPrice >= 0
    requires forall i :: 0 <= i < |labor| ==> labor[i].rate >= 0
    requires travelCost >= 0
    ensures var r := CalculateEstimate(parts, labor, travelCost, includeVAT);
      && r.partsTotal >= 0 && r.laborTotal >= 0 && r.subtotal >= 0 && r.vat >= 0
      && r.subtotal <= r.grandTotal
  {
  }

  /**
   * One more unit of one line moves the grand total by the unit price when
   * VAT is off, and by the unit price plus its VAT share, up to one won of
   * rounding, when it is on.
   */
  lemma GrandTotalIncrement(
    parts: seq<EstimatePart>, i: int, labor: seq<LaborType>, travelCost: int, includeVAT: bool)
    requires 0 <= i < |parts|
    ensures var before := CalculateEstimate(parts, labor, travelCost, includeVAT);
      var after := CalculateEstimate(
        parts[i := parts[i].(quantity := parts[i].quantity + 1)], labor, travelCost, includeVAT);
      && after.subtotal == before.subtotal + parts[i].unitPrice
      && (!includeVAT ==> after.grandTotal == before.grandTotal + parts[i].unitPrice)
      && (includeVAT ==>
            10 * (after.grandTotal - before.grandTotal) - 10 <= 11 * parts[i].unitPrice
            <= 10 * (after.grandTotal - before.grandTotal) + 10)
  {
    PartsTotalIncrement(parts, i);
  }

  // ---------------------------------------------------------------------
  // validateEstimate
  // ---------------------------------------------------------------------

  /** The four rules of `validateEstimate`, in the order they are checked. */
  datatype EstimateError = NoParts | BadQuantity | NoLabor | NegativeTravel {

    function Rank(): nat {
      match this
      case NoParts => 0
      case BadQuantity => 1
      case NoLabor => 2
      case NegativeTravel => 3
    }

    /** The user-facing message pushed for the rule. */
    function Message(): string {
      match this
      case NoParts => "부품을 최소 1개 이상 선택해주세요."
      case BadQuantity => "부품 수량은 1개 이상이어야 합니다."
      case NoLabor => "작업 유형을 최소 1개 이상 선택해주세요."
      case NegativeTravel => "출장비는 0원 이상이어야 합니다."
    }
  }

  datatype Validation = Validation(valid: bool, errors: seq<EstimateError>)

  predicate HasBadQuantity(parts: seq<EstimatePart>) {
    exists i | 0 <= i < |parts| :: parts[i].quantity <= 0
  }

  /**
   * `validateEstimate`. Labor entries are only counted (`unknown[]` in the
   * source), so their type is left generic.
   */
  function ValidateEstimate<L>(parts: seq<EstimatePart>, labor: seq<L>, travelCost: int): (r: Validation)
    ensures r.valid <==> |r.errors| == 0
    ensures r.valid <==>
      && |parts| > 0
      && (forall i :: 0 <= i < |parts| ==> parts[i].quantity > 0)
      && |labor| > 0
      && travelCost >= 0
    ensures NoParts in r.errors <==> |parts| == 0
    ensures BadQuantity in r.errors <==> exists i :: 0 <= i < |parts| && parts[i].quantity <= 0
    ensures NoLabor in r.errors <==> |labor| == 0
    ensures NegativeTravel in r.errors <==> travelCost < 0
    ensures forall i, j :: 0 <= i < j < |r.errors| ==> r.errors[i].Rank() < r.errors[j].Rank()
    ensures |r.errors| <= 4
  {
    var errors :=
      RuleError(|parts| == 0, NoParts)
      + RuleError(HasBadQuantity(parts), BadQuantity)
      + RuleError(|labor| == 0, NoLabor)
      + RuleError(travelCost < 0, NegativeTravel);
    FourRules(|parts| == 0, HasBadQuantity(parts), |labor| == 0, travelCost < 0);
    Validation(|errors| == 0, errors)
  }

  /** `if (fails) errors.push(e)`, as the piece it contributes. */
  function RuleError(fails: bool, e: EstimateError): seq<EstimateError> {
    if fails then [e] else []
  }

  /** The four rules' pieces, in order, report each failing rule once, ranked. */
  lemma FourRules(a: bool, b: bool, c: bool, d: bool)
    ensures var s := RuleError(a, NoParts) + RuleError(b, BadQuantity) + RuleError(c, NoLabor) + RuleError(d, NegativeTravel);
      && (NoParts in s <==> a) && (BadQuantity in s <==> b)
      && (NoLabor in s <==> c) && (NegativeTravel in s <==> d)
      && (|s| == 0 <==> !a && !b && !c && !d)
      && |s| <= 4
      && forall i, j :: 0 <= i < j < |s| ==> s[i].Rank() < s[j].Rank()
  {
  }

  /** The messages `validateEstimate` returns, in order. */
  function ErrorMessages(v: Validation): seq<string> {
    seq(|v.errors|, i requires 0 <= i < |v.errors| => v.errors[i].Message())
  }

  /**
   * However many lines have a non-positive quantity, the quantity rule
   * contributes one message.
   */
  lemma QuantityRuleReportedOnce<L>(parts: seq<EstimatePart>, labor: seq<L>, travelCost: int)
    ensures var e := ValidateEstimate(parts, labor, travelCost).errors;
      forall i, j :: 0 <= i < j < |e| && e[i] == BadQuantity ==> e[j] != BadQuantity
  {
  }

  /**
   * Prices and rates are never inspected: lines with the same quantities and
   * labor lists of the same length validate alike.
   */
  lemma ValidationIgnoresPrices<L, M>(
    parts: seq<EstimatePart>, parts': seq<EstimatePart>, labor: seq<L>, labor': seq<M>, travelCost: int)
    requires |parts| == |parts'| && |labor| == |labor'|
    requires forall i :: 0 <= i < |parts| ==> parts[i].quantity == parts'[i].quantity
    ensures ValidateEstimate(parts, labor, travelCost) == ValidateEstimate(parts', labor', travelCost)
  {
    assert HasBadQuantity(parts) == HasBadQuantity(parts') by {
      if HasBadQuantity(parts) {
        var i :| 0 <= i < |parts| && parts[i].quantity <= 0;
        assert parts'[i].quantity <= 0;
      }
      if HasBadQuantity(parts') {
        var i :| 0 <= i < |parts'| && parts'[i].quantity <= 0;
        assert parts[i].quantity <= 0;
      }
    }
  }

  // ---------------------------------------------------------------------
  // formatCurrency
  // ---------------------------------------------------------------------

  /** Commas between groups of three digits, counted from the right. */
  function GroupThousands(digits: string): (r: string)
    ensures |digits| > 0 ==> |r| > 0
  {
    if |digits| <= 3 then digits
    else GroupThousands(digits[..|digits| - 3]) + "," + digits[|digits| - 3..]
  }

  /**
   * `formatCurrency`: `amount.toLocaleString('ko-KR')` followed by `원`, for
   * a non-negative whole amount; the ko-KR locale groups digits by three
   * with commas. The rendering is a well-grouped numeral immediately
   * followed by `원`, and reads back as the amount.
   */
  function FormatCurrency(amount: nat): (r: string)
    ensures |r| >= 2 && Last(r) == '원' && WellGrouped(Init(r))
    ensures ParseCurrency(r) == Some(amount)
  {
    var d := ToDecimal(amount);
    GroupThousandsCorrect(d);
    InitOfAppend(GroupThousands(d), '원');
    ValueOfToDecimal(amount);
    GroupThousands(d) + "원"
  }

  /** A correctly grouped numeral: 1 to 3 leading digits, then `,ddd` groups. */
  ghost predicate WellGrouped(s: string)
    decreases |s|
  {
    if |s| <= 3 then 1 <= |s| && AllDigits(s)
    else
      && |s| >= 5
      && s[|s| - 4] == ','
      && AllDigits(s[|s| - 3..])
      && WellGrouped(s[..|s| - 4])
  }

  /** `s` with its commas dropped. */
  function DropCommas(s: string): (r: string) {
    if |s| == 0 then []
    else DropCommas(Init(s)) + (if Last(s) == ',' then [] else [Last(s)])
  }

  lemma {:induction false} DropCommasAppend(a: string, b: string)
    ensures DropCommas(a + b) == DropCommas(a) + DropCommas(b)
    decreases |b|
  {
    if |b| == 0 {
      assert a + b == a;
    } else {
      assert a + b == (a + Init(b)) + [Last(b)];
      InitOfAppend(a + Init(b), Last(b));
      DropCommasAppend(a, Init(b));
    }
  }

  lemma {:induction false} DropCommasOfDigits(s: string)
    requires AllDigits(s)
    ensures DropCommas(s) == s
  {
    if |s| > 0 {
      DropCommasOfDigits(Init(s));
      InitLast(s);
    }
  }

  /** Grouping only inserts commas, and inserts them in the right places. */
  lemma {:induction false} GroupThousandsCorrect(digits: string)
    requires |digits| > 0 && AllDigits(digits)
    ensures WellGrouped(GroupThousands(digits))
    ensures DropCommas(GroupThousands(digits)) == digits
    decreases |digits|
  {
    if |digits| <= 3 {
      DropCommasOfDigits(digits);
    } else {
      var head := digits[..|digits| - 3];
      var tail := digits[|digits| - 3..];
      assert AllDigits(head) && AllDigits(tail) by {
        assert forall i :: 0 <= i < |head| ==> head[i] == digits[i];
        assert forall i :: 0 <= i < |tail| ==> tail[i] == digits[|digits| - 3 + i];
      }
      var g := GroupThousands(head);
      assert GroupThousands(digits) == g + "," + tail;
      GroupThousandsCorrect(head);
      WellGroupedSnoc(g, tail);
      DropCommasGroup(g, tail);
      assert digits == head + tail;
    }
  }

  /** A well-grouped numeral followed by `,ddd` is well grouped. */
  lemma WellGroupedSnoc(g: string, tail: string)
    requires WellGrouped(g) && |tail| == 3 && AllDigits(tail)
    ensures WellGrouped(g + "," + tail)
  {
    var r := g + "," + tail;
    assert r[..|r| - 4] == g;
    assert r[|r| - 3..] == tail;
  }

  /** Dropping the commas of `g,ddd` drops those of `g` and the one before the group. */
  lemma DropCommasGroup(g: string, tail: string)
    requires AllDigits(tail)
    ensures DropCommas(g + "," + tail) == DropCommas(g) + tail
  {
    var gc := g + ",";
    DropCommasAppend(gc, tail);
    DropCommasOfDigits(tail);
    DropCommasAppend(g, ",");
    DropCommasOfComma();
    assert DropCommas(gc) == DropCommas(g) + [] == DropCommas(g);
  }

  lemma DropCommasOfComma()
    ensures DropCommas(",") == []
  {
    assert Init(",") == [];
  }

  /** Reads a rendered amount back: strip `원`, drop the commas, read the digits. */
  function ParseCurrency(s: string): Option<nat> {
    if |s| == 0 || Last(s) != '원' then None
    else
      var digits := DropCommas(Init(s));
      if |digits| > 0 && AllDigits(digits) then Some(ValueOf(digits)) else None
  }

  /** The documented example. */
  lemma FormatCurrencyMillion()
    ensures FormatCurrency(1000000) == "1,000,000원"
  {
    ToDecimalOfMillion();
    GroupMillion();
    assert FormatCurrency(1000000) == "1,000,000" + "원";
  }

  lemma GroupMillion()
    ensures GroupThousands("1000000") == "1,000,000"
  {
    var thousand := "1000";
    var million := "1000000";
    assert thousand[..1] == "1" && thousand[1..] == "000";
    assert GroupThousands(thousand) == "1" + "," + "000" == "1,000";
    assert million[..4] == thousand && million[4..] == "000";
    assert GroupThousands(million) == "1,000" + "," + "000" == "1,000,000";
  }

  lemma ToDecimalOfMillion()
    ensures ToDecimal(1000000) == "1000000"
  {
    assert ToDecimal(1) == "1";
    assert ToDecimal(10) == ToDecimal(1) + [DigitChar(0)] == "10";
    assert ToDecimal(100) == ToDecimal(10) + [DigitChar(0)] == "100";
    assert ToDecimal(1000) == ToDecimal(100) + [DigitChar(0)] == "1000";
    assert ToDecimal(10000) == ToDecimal(1000) + [DigitChar(0)] == "10000";
    assert ToDecimal(100000) == ToDecimal(10000) + [DigitChar(0)] == "100000";
    assert ToDecimal(1000000) == ToDecimal(100000) + [DigitChar(0)] == "1000000";
  }

  // ---------------------------------------------------------------------
  // worked scenarios
  // ---------------------------------------------------------------------

  /** Two parts at 35000, one labor charge of 30000, travel 20000, no VAT. */
  lemma ScenarioWithoutVat()
    ensures CalculateEstimate(
      [EstimatePart("p1", "compressor", 2, 35000)], [LaborType("l1", "repair", 30000)], 20000, false)
      == Breakdown(70000, 30000, 20000, 120000, 0, 120000)
  {
    SumSnoc([], EstimatePart("p1", "compressor", 2, 35000), LineTotal);
    SumSnoc([], LaborType("l1", "repair", 30000), RateOf);
  }

  /** The same estimate with VAT: 12000 of VAT on a 120000 subtotal. */
  lemma ScenarioWithVat()
    ensures CalculateEstimate(
      [EstimatePart("p1", "compressor", 2, 35000)], [LaborType("l1", "repair", 30000)], 20000, true)
      == Breakdown(70000, 30000, 20000, 120000, 12000, 132000)
  {
    SumSnoc([], EstimatePart("p1", "compressor", 2, 35000), LineTotal);
    SumSnoc([], LaborType("l1", "repair", 30000), RateOf);
  }

  /**
   * A zero-quantity line is rejected by the validator while the calculator
   * still prices it, at zero.
   */
  lemma ScenarioZeroQuantity()
    ensures ValidateEstimate([EstimatePart("p1", "gasket", 0, 1000)], [LaborType("l1", "repair", 30000)], 0)
      == Validation(false, [BadQuantity])
    ensures CalculateEstimate([EstimatePart("p1", "gasket", 0, 1000)], [LaborType("l1", "repair", 30000)], 0, false).partsTotal
      == 0
  {
    var parts := [EstimatePart("p1", "gasket", 0, 1000)];
    assert parts[0].quantity <= 0;
    SumSnoc([], EstimatePart("p1", "gasket", 0, 1000), LineTotal);
  }
}
