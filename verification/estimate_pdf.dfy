/**
 * The data preparation of `generateEstimatePDF`: from a saved estimate and
 * its diagnosis to the record the PDF template renders. The PDF recomputes
 * subtotal, VAT and total from the saved part lines and always adds VAT.
 *
 * The clock and `Math.random` behind the estimate number are parameters,
 * and the stored part lines arrive already parsed.
 */
module EstimatePdf {
  import opened Common
  import opened Calendar
  import opened PdfUtil
  import Estimate

  /** One element of the saved `parts` JSON, as far as the PDF reads it. */
  datatype StoredPart = StoredPart(
    name: string, partNumber: Option<string>, quantity: int, unitPrice: int, total: int)

  /** A saved estimate with the fields of its diagnosis the PDF uses. */
  datatype StoredEstimate = StoredEstimate(
    parts: seq<StoredPart>,
    laborCost: int,
    travelCost: int,
    totalAmount: int,
    validUntil: Option<Date>,
    notes: Option<string>,
    createdAt: Date,
    customerName: Option<string>,
    customerContact: Option<string>,
    location: Option<string>,
    diagnosisNotes: Option<string>,
    equipmentName: string,
    categoryName: string)

  /** One row of the PDF's parts table. */
  datatype PdfRow = PdfRow(name: string, spec: Option<string>, quantity: int, unitPrice: int, total: int)

  /** `EstimatePDFData`. */
  datatype PdfData = PdfData(
    estimateNumber: string,
    issueDate: Date,
    validUntil: Date,
    customerName: string,
    customerContact: string,
    location: string,
    equipmentName: string,
    equipmentType: string,
    diagnosisDate: Date,
    diagnosisSummary: seq<string>,
    parts: seq<PdfRow>,
    laborCost: int,
    travelCost: int,
    subtotal: int,
    vat: int,
    total: int,
    notes: Option<string>)

  // ---------------------------------------------------------------------
  // `a || b` on an optional string
  // ---------------------------------------------------------------------

  /** A string or null is truthy when it is a non-empty string. */
  predicate Truthy(o: Option<string>) {
    o.Some? && o.value != ""
  }

  /** `o || fallback`. */
  function OrElse(o: Option<string>, fallback: string): (r: string)
    ensures Truthy(o) ==> r == o.value
    ensures !Truthy(o) ==> r == fallback
  {
    if Truthy(o) then o.value else fallback
  }

  /** `o || undefined`: the empty string and null both become absent. */
  function NonEmpty(o: Option<string>): (r: Option<string>)
    ensures r.Some? <==> Truthy(o)
    ensures r.Some? ==> r == o
  {
    if Truthy(o) then o else None
  }

  // ---------------------------------------------------------------------
  // totals
  // ---------------------------------------------------------------------

  function TotalOf(p: StoredPart): int {
    p.total
  }

  /** `parts.reduce((sum, part) => sum + part.total, 0)`: the saved line totals, not recomputed. */
  function StoredPartsTotal(parts: seq<StoredPart>): (t: int)
    ensures |parts| == 0 ==> t == 0
    ensures (forall i :: 0 <= i < |parts| ==> parts[i].total >= 0) ==> t >= 0
  {
    SumNonNegative(parts, TotalOf);
    Sum(parts, TotalOf)
  }

  // ---------------------------------------------------------------------
  // diagnosis summary lines
  // ---------------------------------------------------------------------

  /** The inverse of splitting: the segments with `\n` between neighbours. */
  function JoinLines(lines: seq<string>): string
    requires |lines| >= 1
  {
    if |lines| == 1 then lines[0] else JoinLines(Init(lines)) + "\n" + Last(lines)
  }

  /** `s.split('\n')`: the maximal newline-free segments, at least one. */
  function SplitLines(s: string): (r: seq<string>)
    ensures |r| >= 1
    ensures forall i :: 0 <= i < |r| ==> '\n' !in r[i]
    ensures JoinLines(r) == s
  {
    if |s| == 0 then [""]
    else
      var prev := SplitLines(Init(s));
      InitLast(s);
      if Last(s) == '\n' then
        InitOfAppend(prev, "");
        prev + [""]
      else
        JoinExtendLast(prev, Last(s));
        Init(prev) + [Last(prev) + [Last(s)]]
  }

  /** Growing the last segment grows the joined string at its end. */
  lemma JoinExtendLast(lines: seq<string>, c: char)
    requires |lines| >= 1
    ensures JoinLines(Init(lines) + [Last(lines) + [c]]) == JoinLines(lines) + [c]
  {
    var ext := Init(lines) + [Last(lines) + [c]];
    InitOfAppend(Init(lines), Last(lines) + [c]);
    if |lines| > 1 {
      var before := JoinLines(Init(lines));
      var last := Last(lines);
      assert JoinLines(ext) == before + "\n" + (last + [c]);
      assert JoinLines(lines) == before + "\n" + last;
      assert before + "\n" + (last + [c]) == (before + "\n" + last) + [c];
    }
  }

  /** Appending newline-free text extends the last segment. */
  lemma {:induction false} SplitAppendPlain(x: string, y: string)
    requires '\n' !in y
    ensures SplitLines(x + y) == Init(SplitLines(x)) + [Last(SplitLines(x)) + y]
    decreases |y|
  {
    var sx := SplitLines(x);
    if |y| == 0 {
      assert x + y == x;
      assert Last(sx) + y == Last(sx);
      InitLast(sx);
    } else {
      var c := Last(y);
      var z := x + Init(y);
      InitLast(y);
      assert x + y == z + [c];
      assert '\n' !in Init(y) by {
        assert forall k :: 0 <= k < |Init(y)| ==> Init(y)[k] == y[k];
      }
      SplitAppendPlain(x, Init(y));
      SplitSnocPlain(z, c);
      InitOfAppend(Init(sx), Last(sx) + Init(y));
      assert (Last(sx) + Init(y)) + [c] == Last(sx) + (Init(y) + [c]);
    }
  }

  /** One more character that is not a newline extends the last segment. */
  lemma SplitSnocPlain(s: string, c: char)
    requires c != '\n'
    ensures SplitLines(s + [c]) == Init(SplitLines(s)) + [Last(SplitLines(s)) + [c]]
  {
    assert Init(s + [c]) == s;
  }

  /** Splitting undoes joining newline-free segments. */
  lemma {:induction false} SplitJoin(lines: seq<string>)
    requires |lines| >= 1
    requires forall i :: 0 <= i < |lines| ==> '\n' !in lines[i]
    ensures SplitLines(JoinLines(lines)) == lines
  {
    if |lines| == 1 {
      SplitAppendPlain("", lines[0]);
      assert "" + lines[0] == lines[0];
    } else {
      var j := JoinLines(Init(lines));
      SplitJoin(Init(lines));
      var withBreak := j + "\n";
      assert Init(withBreak) == j;
      assert SplitLines(withBreak) == lines[..|lines| - 1] + [""];
      SplitAppendPlain(withBreak, Last(lines));
      InitOfAppend(Init(lines), "");
      assert "" + Last(lines) == Last(lines);
      InitLast(lines);
    }
  }

  /** `line.trim()` is truthy: the line holds a character that is not white space. */
  predicate HasContent(line: string) {
    exists i :: 0 <= i < |line| && !IsJsWhitespace(line[i])
  }

  /** `!line.trim()`: the line is empty or white space only. */
  predicate IsBlank(line: string) {
    !HasContent(line)
  }

  /**
   * `notes ? notes.split('\n').filter(line => line.trim()) : []`: the
   * non-blank lines, in order, untrimmed.
   */
  function SummaryLines(notes: Option<string>): (r: seq<string>)
    ensures forall i :: 0 <= i < |r| ==> HasContent(r[i]) && '\n' !in r[i]
    ensures Truthy(notes) ==> IsSubsequence(r, SplitLines(notes.value))
    ensures Truthy(notes) ==>
      forall i :: 0 <= i < |SplitLines(notes.value)| && HasContent(SplitLines(notes.value)[i]) ==>
        SplitLines(notes.value)[i] in r
    ensures Truthy(notes) ==>
      |r| + |Filter(SplitLines(notes.value), IsBlank)| == |SplitLines(notes.value)|
    ensures !Truthy(notes) ==> r == []
  {
    if Truthy(notes) then
      var lines := SplitLines(notes.value);
      FilterIsSubsequence(lines, HasContent);
      forall i | 0 <= i < |lines| && HasContent(lines[i])
        ensures lines[i] in Filter(lines, HasContent)
      {
        FilterMembership(lines, HasContent, lines[i]);
      }
      var kept := Filter(lines, HasContent);
      forall i | 0 <= i < |kept|
        ensures '\n' !in kept[i]
      {
        FilterMembership(lines, HasContent, kept[i]);
      }
      FilterPartition(lines, HasContent, IsBlank);
      kept
    else []
  }

  /** Notes of white space and line breaks only give an empty summary. */
  lemma BlankNotesGiveNoLines(notes: string)
    requires forall i :: 0 <= i < |notes| ==> IsJsWhitespace(notes[i])
    ensures SummaryLines(Some(notes)) == []
  {
    if notes != "" {
      var lines := SplitLines(notes);
      forall i | 0 <= i < |lines|
        ensures !HasContent(lines[i])
      {
        if HasContent(lines[i]) {
          var k :| 0 <= k < |lines[i]| && !IsJsWhitespace(lines[i][k]);
          SegmentCharsInJoin(lines, i, k);
        }
      }
      FilterEmpty(lines, HasContent);
    }
  }

  /** Every character of a segment is a character of the joined string. */
  lemma {:induction false} SegmentCharsInJoin(lines: seq<string>, i: int, k: int)
    requires |lines| >= 1 && 0 <= i < |lines| && 0 <= k < |lines[i]|
    ensures lines[i][k] in JoinLines(lines)
  {
    if |lines| > 1 {
      var j := JoinLines(Init(lines));
      if i < |lines| - 1 {
        SegmentCharsInJoin(Init(lines), i, k);
        var m :| 0 <= m < |j| && j[m] == lines[i][k];
        assert JoinLines(lines)[m] == j[m];
      } else {
        assert JoinLines(lines)[|j| + 1 + k] == lines[i][k];
      }
    }
  }

  /** Separate lines of text come back one per summary line, in order. */
  lemma SummaryOfContentLines(lines: seq<string>)
    requires |lines| >= 1
    requires forall i :: 0 <= i < |lines| ==> '\n' !in lines[i] && HasContent(lines[i])
    ensures SummaryLines(Some(JoinLines(lines))) == lines
  {
    SplitJoin(lines);
    var k :| 0 <= k < |lines[0]| && !IsJsWhitespace(lines[0][k]);
    SegmentCharsInJoin(lines, 0, k);
    FilterAll(lines, HasContent);
  }

  // ---------------------------------------------------------------------
  // the PDF record
  // ---------------------------------------------------------------------

  /** `spec: part.partNumber || undefined`, the other fields copied. */
  function ToRow(p: StoredPart): (r: PdfRow)
    ensures r.name == p.name && r.quantity == p.quantity && r.unitPrice == p.unitPrice && r.total == p.total
    ensures r.spec.Some? <==> Truthy(p.partNumber)
    ensures r.spec.Some? ==> r.spec == p.partNumber
  {
    PdfRow(p.name, NonEmpty(p.partNumber), p.quantity, p.unitPrice, p.total)
  }

  /** `parts.map(...)`: one row per saved line, in order. */
  function Rows(parts: seq<StoredPart>): (r: seq<PdfRow>)
    ensures |r| == |parts| && forall i :: 0 <= i < |parts| ==> r[i] == ToRow(parts[i])
  {
    seq(|parts|, i requires 0 <= i < |parts| => ToRow(parts[i]))
  }

  /**
   * `generateEstimatePDF` up to the render call, for an estimate numbered
   * on `today` with the random draw `random`.
   */
  function PreparePdfData(e: StoredEstimate, today: Date, random: real): (r: PdfData)
    requires Valid(e.createdAt) && Valid(today) && 0.0 <= random < 1.0
    ensures r.subtotal == StoredPartsTotal(e.parts) + e.laborCost + e.travelCost
    ensures 10 * r.vat - 5 <= r.subtotal < 10 * r.vat + 5
    ensures r.total == r.subtotal + r.vat
    ensures r.laborCost == e.laborCost && r.travelCost == e.travelCost
    ensures r.issueDate == e.createdAt && r.diagnosisDate == e.createdAt
    ensures e.validUntil.Some? ==> r.validUntil == e.validUntil.value
    ensures e.validUntil.None? ==> Valid(r.validUntil) && Ordinal(r.validUntil) == Ordinal(e.createdAt) + 30
    ensures r.customerName != "" && r.customerContact != "" && r.location != ""
    ensures r.customerName == (if Truthy(e.customerName) then e.customerName.value else "고객")
    ensures r.customerContact == (if Truthy(e.customerContact) then e.customerContact.value else "-")
    ensures r.location == (if Truthy(e.location) then e.location.value else "-")
    ensures r.equipmentName == e.equipmentName && r.equipmentType == e.categoryName
    ensures r.diagnosisSummary == SummaryLines(e.diagnosisNotes)
    ensures |r.parts| == |e.parts| && forall i :: 0 <= i < |e.parts| ==> r.parts[i] == ToRow(e.parts[i])
    ensures r.notes.Some? <==> Truthy(e.notes)
    ensures r.notes == NonEmpty(e.notes)
    ensures r.estimateNumber == EstimateNumber(today, random)
  {
    var subtotal := StoredPartsTotal(e.parts) + e.laborCost + e.travelCost;
    var vat := Estimate.Vat(subtotal);
    var validUntil := if e.validUntil.Some? then e.validUntil.value else ValidUntil(e.createdAt);
    PdfData(
      EstimateNumber(today, random),
      e.createdAt,
      validUntil,
      OrElse(e.customerName, "고객"),
      OrElse(e.customerContact, "-"),
      OrElse(e.location, "-"),
      e.equipmentName,
      e.categoryName,
      e.createdAt,
      SummaryLines(e.diagnosisNotes),
      Rows(e.parts),
      e.laborCost,
      e.travelCost,
      subtotal,
      vat,
      subtotal + vat,
      NonEmpty(e.notes))
  }

  // ---------------------------------------------------------------------
  // against the estimate calculator
  // ---------------------------------------------------------------------

  /**
   * The part lines the estimate page saves: each line's total is its
   * quantity times its unit price, and no part number is kept.
   */
  function SavedParts(parts: seq<Estimate.EstimatePart>): (r: seq<StoredPart>)
    ensures |r| == |parts|
    ensures forall i :: 0 <= i < |parts| ==>
      r[i] == StoredPart(parts[i].name, None, parts[i].quantity, parts[i].unitPrice, parts[i].quantity * parts[i].unitPrice)
  {
    seq(|parts|, i requires 0 <= i < |parts| =>
      StoredPart(parts[i].name, None, parts[i].quantity, parts[i].unitPrice, parts[i].quantity * parts[i].unitPrice))
  }

  /** The saved line totals add up to the calculator's parts total. */
  lemma {:induction false} SavedPartsTotal(parts: seq<Estimate.EstimatePart>)
    ensures StoredPartsTotal(SavedParts(parts)) == Estimate.PartsTotal(parts)
  {
    if |parts| > 0 {
      var saved := SavedParts(parts);
      SavedPartsTotal(Init(parts));
      assert Init(saved) == SavedParts(Init(parts));
    }
  }

  /**
   * For an estimate saved from the calculator's breakdown, the PDF's
   * subtotal is the calculator's subtotal and the PDF's total is the
   * grand total with VAT, whatever the VAT switch was when saving. The
   * PDF total therefore matches the saved total amount exactly when VAT
   * was on or the VAT on the subtotal rounds to nothing.
   */
  lemma SavedEstimatePdfTotal(
    parts: seq<Estimate.EstimatePart>, labor: seq<Estimate.LaborType>, travelCost: int, includeVAT: bool,
    e: StoredEstimate, today: Date, random: real)
    requires Valid(e.createdAt) && Valid(today) && 0.0 <= random < 1.0
    requires var b := Estimate.CalculateEstimate(parts, labor, travelCost, includeVAT);
      && e.parts == SavedParts(parts)
      && e.laborCost == b.laborTotal && e.travelCost == b.travelCost && e.totalAmount == b.grandTotal
    ensures var b := Estimate.CalculateEstimate(parts, labor, travelCost, includeVAT);
      var pdf := PreparePdfData(e, today, random);
      && pdf.subtotal == b.subtotal
      && pdf.total == Estimate.CalculateEstimate(parts, labor, travelCost, true).grandTotal
      && (pdf.total == e.totalAmount <==> includeVAT || -5 <= b.subtotal < 5)
  {
    var b := Estimate.CalculateEstimate(parts, labor, travelCost, includeVAT);
    var withVat := Estimate.CalculateEstimate(parts, labor, travelCost, true);
    var pdf := PreparePdfData(e, today, random);
    SavedPartsTotal(parts);
    assert pdf.subtotal == b.subtotal == withVat.subtotal;
    Estimate.VatUnique(b.subtotal, pdf.vat);
    Estimate.VatUnique(b.subtotal, withVat.vat);
    if includeVAT {
      Estimate.VatUnique(b.subtotal, b.vat);
    }
  }

  /** With VAT off, a subtotal of 5 won or more is printed higher than it was saved. */
  lemma VatOffPdfExceedsSaved(
    parts: seq<Estimate.EstimatePart>, labor: seq<Estimate.LaborType>, travelCost: int,
    e: StoredEstimate, today: Date, random: real)
    requires Valid(e.createdAt) && Valid(today) && 0.0 <= random < 1.0
    requires var b := Estimate.CalculateEstimate(parts, labor, travelCost, false);
      && e.parts == SavedParts(parts)
      && e.laborCost == b.laborTotal && e.travelCost == b.travelCost && e.totalAmount == b.grandTotal
      && b.subtotal >= 5
    ensures PreparePdfData(e, today, random).total > e.totalAmount
  {
    SavedPartsTotal(parts);
  }
}
