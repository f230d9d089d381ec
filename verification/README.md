# Repair estimate core — a Dafny model

This project models the core of a field-service repair app. A technician
works through a checklist for a piece of equipment and records a check
result per item. They pick replacement parts for each item. The app then
builds an estimate from parts, labor and travel cost, with optional 10 % VAT.
It can render the estimate as a PDF and e-mail it.

The model covers:

- the estimate arithmetic, validation and currency formatting (`Estimate`);
- the two state stores, the estimate editor (`EstimateStore`) and the diagnosis session (`DiagnosisStore`);
- the diagnosis request schema (`DiagnosisSchema`), with the session written out as the JSON value it checks;
- the PDF helpers: dates, estimate number, file name and validity date (`PdfUtil`);
- the way the PDF route turns a saved estimate into PDF data (`EstimatePdf`);
- the part grouping of the diagnosis summary (`DiagnosisSummary`);
- the parts selector's handlers (`PartsSelector`);
- the request gate of the e-mail endpoint (`EmailGate`).

Three helper modules support them:

- `Common`: options, filter, sum and subsequence over sequences;
- `Decimal`: decimal digits and left padding;
- `Calendar`: proleptic Gregorian dates with a day ordinal.

Every store action is a pure function from state to state. Each contract says what the action changes and that every other field keeps its value.

Calls to the clock, `Math.random`, the `.email()` check and the database are not made by the model. The clock and `Math.random` become parameters: `today`, `random`. The `.email()` check is the parameter `isEmail`. Database records arrive as plain values: `StoredEstimate` is the saved estimate row with its diagnosis fields.

## Model

| member | source | states |
|---|---|---|
| Estimate.ComputePartsTotal | lib/estimate.ts:24-28 | The left-to-right fold over the lines yields the sum of quantity × unit price; it is 0 for no lines and non-negative when no line has a negative quantity or price |
| Estimate.PartsTotal | lib/estimate.ts:24-28 | No lines total 0, and the total is never negative while no quantity or unit price is |
| Estimate.LaborTotal | lib/estimate.ts:33-35 | No labor totals 0, and the total is never negative while no rate is |
| Estimate.PartsTotalAppend | lib/estimate.ts:24-28 | The parts total of two lists put together is the sum of their totals |
| Estimate.PartsTotalIncrement | lib/estimate.ts:24-28 | Raising one line's quantity by one raises the parts total by exactly that line's unit price |
| Estimate.LaborTotalAppend | lib/estimate.ts:33-35 | Each selected labor entry adds its rate, and an entry selected twice is charged twice |
| Estimate.Vat | lib/estimate.ts:49 | VAT is a tenth of the subtotal rounded to the nearest won, with halves rounded up; it lies between 0 and the subtotal when the subtotal is non-negative |
| Estimate.VatUnique | lib/estimate.ts:49 | The VAT is the one whole number within half a won of a tenth of the subtotal |
| Estimate.CalculateEstimate | lib/estimate.ts:40-60 | Parts, labor and travel add up to the subtotal; the grand total is subtotal plus VAT; VAT is 0 when switched off and the rounded tenth when on |
| Estimate.BreakdownNonNegative | lib/estimate.ts:40-60 | With non-negative quantities, prices, rates and travel cost, every amount of the breakdown is non-negative and the grand total is at least the subtotal |
| Estimate.GrandTotalIncrement | lib/estimate.ts:40-60 | One more unit of a part moves the subtotal by its price; the grand total moves by the price without VAT and by 1.1 × the price, within one won, with VAT |
| Estimate.ValidateEstimate | lib/estimate.ts:72-99 | Valid exactly when there are parts, every quantity is positive, some labor is selected and travel is not negative; each rule's error is present exactly when its condition fails, in rule order, at most four |
| Estimate.QuantityRuleReportedOnce | lib/estimate.ts:83-87 | However many lines have a bad quantity, the quantity error is reported once |
| Estimate.ValidationIgnoresPrices | lib/estimate.ts:72-99 | Validation depends only on the quantities, the number of labor entries and the travel cost, not on prices or names |
| Estimate.GroupThousandsCorrect | lib/estimate.ts:65-67 | Inserting thousands separators gives a well-grouped numeral whose digits, commas removed, are the original digits |
| Estimate.FormatCurrency | lib/estimate.ts:65-67 | A formatted amount is a well-grouped numeral followed by 원, and parsing it back gives the amount |
| Estimate.FormatCurrencyMillion | lib/estimate.ts:65-67 | One million won is written 1,000,000원 |
| Estimate.ScenarioWithoutVat | lib/estimate.ts:40-60 | Two compressors at 35,000, labor 30,000 and travel 20,000 give 120,000 without VAT |
| Estimate.ScenarioWithVat | lib/estimate.ts:40-60 | The same estimate with VAT adds 12,000 for a grand total of 132,000 |
| Estimate.ScenarioZeroQuantity | lib/estimate.ts:83-87 | A line with quantity 0 yields exactly the quantity error and contributes nothing to the parts total |
| EstimateStore.SetParts | lib/stores/estimateStore.ts:67 | The part list is replaced and every other field is kept |
| EstimateStore.UpdatePartQuantity | lib/stores/estimateStore.ts:69-74 | Lines with the id take the new quantity; length, order and all other fields of all lines, and the rest of the state, are kept |
| EstimateStore.UpdatePartQuantityTotal | lib/stores/estimateStore.ts:69-74 | For a line whose id is unique, the parts total moves by the change in quantity times its unit price |
| EstimateStore.RemovePart | lib/stores/estimateStore.ts:76-79 | The result is an order-keeping deletion of the list that keeps no line with the id and every line without it |
| EstimateStore.RemovePartTotal | lib/stores/estimateStore.ts:76-79 | Removing a part takes exactly its lines' amount off the parts total |
| EstimateStore.ToggleLabor | lib/stores/estimateStore.ts:81-89 | An unselected labor type is appended at the end; a selected one is removed, every entry of it, with the others kept in order |
| EstimateStore.ToggleLaborFlipsMembership | lib/stores/estimateStore.ts:81-89 | After a toggle the labor type is selected exactly when it was not selected before |
| EstimateStore.ToggleLaborKeepsUnique | lib/stores/estimateStore.ts:81-89 | Toggling keeps the selection free of duplicate ids |
| EstimateStore.ToggleLaborTwice | lib/stores/estimateStore.ts:81-89 | Toggling an unselected labor type twice restores the state |
| EstimateStore.SetSelectedLabor | lib/stores/estimateStore.ts:91 | The labor selection is replaced and every other field is kept |
| EstimateStore.SetTravelRate | lib/stores/estimateStore.ts:93 | The travel band is replaced or cleared and every other field is kept |
| EstimateStore.ToggleVAT | lib/stores/estimateStore.ts:95 | The VAT flag flips and every other field is kept |
| EstimateStore.ToggleVATTwice | lib/stores/estimateStore.ts:95 | Flipping VAT twice restores the state |
| EstimateStore.SetIncludeVAT | lib/stores/estimateStore.ts:97 | The VAT flag takes the given value and every other field is kept |
| EstimateStore.SetNotes | lib/stores/estimateStore.ts:99 | The notes are replaced and every other field is kept |
| EstimateStore.Reset | lib/stores/estimateStore.ts:101 | Every field returns to its initial value: no parts, no labor, no travel band, VAT off, empty notes |
| EstimateStore.ToggleVATMovesOnlyVat | lib/stores/estimateStore.ts:95 | Flipping VAT leaves parts, labor, travel and subtotal unchanged, and one of the two VAT amounts is 0 |
| EstimateStore.Totals | components/estimate/TotalSection.tsx:14-19 | The travel cost is the chosen band's rate, or 0 with no band; the other amounts follow the calculator, with no VAT when VAT is off |
| EstimateStore.ResetEstimateIsEmpty | lib/stores/estimateStore.ts:56-62 | A reset editor fails validation with the no-parts and no-labor errors and totals zero |
| DiagnosisStore.SetEquipmentId | lib/stores/diagnosisStore.ts:68 | The equipment id is set and every other field is kept |
| DiagnosisStore.SetCustomerInfo | lib/stores/diagnosisStore.ts:70-73 | Fields present in the patch replace the current ones, absent ones are kept, and nothing else changes |
| DiagnosisStore.SetCustomerInfoIdempotent | lib/stores/diagnosisStore.ts:70-73 | Applying a customer patch twice is the same as applying it once |
| DiagnosisStore.SetNotes | lib/stores/diagnosisStore.ts:132 | The notes are replaced and every other field is kept |
| DiagnosisStore.SetLastAutoSave | lib/stores/diagnosisStore.ts:134 | The auto-save instant is recorded and every other field is kept |
| DiagnosisStore.Reset | lib/stores/diagnosisStore.ts:136 | Every field returns to its initial value: no equipment, empty customer info, no results or parts, empty notes, no auto-save |
| DiagnosisStore.UpdateCheckResult | lib/stores/diagnosisStore.ts:75-92 | A recorded item has the patch merged into its entry in place; a new item is appended as unchecked and problem-free, then patched; nothing else changes |
| DiagnosisStore.UpdateCheckResultKeepsUnique | lib/stores/diagnosisStore.ts:75-92 | A patch that does not rename the item keeps the results unique by item id and leaves the item recorded |
| DiagnosisStore.UpdateCheckResultIdempotent | lib/stores/diagnosisStore.ts:75-92 | Applying the same patch to the same item twice is the same as applying it once |
| DiagnosisStore.UpdateCheckResultHasItem | lib/stores/diagnosisStore.ts:75-92 | After the update the item is recorded |
| DiagnosisStore.AddSelectedPart | lib/stores/diagnosisStore.ts:94-114 | A part already selected for the same checklist item has its quantity increased in place; otherwise it is appended; nothing else changes |
| DiagnosisStore.AddSelectedPartKeepsUnique | lib/stores/diagnosisStore.ts:94-114 | Adding keeps the selection unique by (part id, checklist item) and leaves the key present |
| DiagnosisStore.AddNewPartTotal | lib/stores/diagnosisStore.ts:94-114 | Adding a new key raises the parts total by the part's quantity × price |
| DiagnosisStore.AddExistingPartTotal | lib/stores/diagnosisStore.ts:94-114 | Adding to an existing key raises the parts total by the added quantity at the price already recorded |
| DiagnosisStore.RemoveSelectedPart | lib/stores/diagnosisStore.ts:116-121 | Exactly the entries matching both keys go; the others stay in order; nothing else changes |
| DiagnosisStore.RemoveUndoesAddNew | lib/stores/diagnosisStore.ts:94-121 | Removing a part just added under a new key restores the state |
| DiagnosisStore.UpdatePartQuantity | lib/stores/diagnosisStore.ts:123-130 | The entry matching both keys takes the new quantity; every other entry and field is kept |
| DiagnosisStore.UpdatePartQuantityKeepsKeys | lib/stores/diagnosisStore.ts:123-130 | Setting a quantity keeps the selection unique by key |
| DiagnosisStore.CheckedCount | lib/stores/diagnosisStore.ts:138-140 | The count is zero exactly when no result is checked, equals the number of results exactly when all are checked, and never exceeds it |
| DiagnosisStore.TotalCount | lib/stores/diagnosisStore.ts:142-144 | The total is the number of checked results plus the number of unchecked ones |
| DiagnosisStore.ProblemCount | lib/stores/diagnosisStore.ts:146-148 | The count is zero exactly when no result has a problem, equals the number of results exactly when all have one, and never exceeds it |
| DiagnosisStore.CountsAfterUpdateRecorded | lib/stores/diagnosisStore.ts:75-83 | Updating a recorded item keeps the total, and the checked and problem counts move by that entry's change of flags only |
| DiagnosisStore.CountsAfterUpdateNew | lib/stores/diagnosisStore.ts:84-91 | Updating a new item adds one to the total, and one to the checked or problem count exactly when the patch sets that flag |
| DiagnosisStore.PartsByChecklistItem | lib/stores/diagnosisStore.ts:157-159 | The item's parts in selection order: every selected part of the item and no other, each as often as it is selected (with the other items' parts they make up the whole list) |
| DiagnosisStore.PartsTotalByChecklistItem | lib/stores/diagnosisStore.ts:150-159 | The parts total is one item's parts total plus the total of all other items' parts |
| DiagnosisStore.PartsTotal | lib/stores/diagnosisStore.ts:150-155 | No parts total 0, and the total is never negative while no quantity or unit price is |
| DiagnosisStore.ResetCountsNothing | lib/stores/diagnosisStore.ts:136-155 | After a reset the checked, total and problem counts and the parts total are all zero |
| DiagnosisSchema.ValidateDiagnosis | lib/validations/diagnosis.ts:26-38 | A value is accepted only with the full shape and some checked result; it is rejected for shape exactly when the shape fails; a refine rejection carries the checkResults path and message and means nothing is checked |
| DiagnosisSchema.EncodeCustomerInfoValid | lib/validations/diagnosis.ts:3-8 | Written-out customer info passes exactly when its e-mail is absent, empty or an address |
| DiagnosisSchema.EncodeSelectedPartValid | lib/validations/diagnosis.ts:17-24 | A written-out part passes exactly when its quantity is at least 1 and its price at least 0 |
| DiagnosisSchema.EncodeCheckResultChecked | lib/validations/diagnosis.ts:33 | A written-out check result counts as checked for the refine exactly when the stored result is checked |
| DiagnosisSchema.EncodeResultsValid | lib/validations/diagnosis.ts:10-15 | Every written-out check result passes the check-result schema |
| DiagnosisSchema.EncodePartsValid | lib/validations/diagnosis.ts:17-24 | All written-out parts pass the part schema exactly when every part has quantity at least 1 and price at least 0 |
| DiagnosisSchema.EncodeStateFields | lib/validations/diagnosis.ts:29-30 | The written-out session holds its check results and selected parts as arrays of the written-out entries, in order |
| DiagnosisSchema.ShapeOfState | lib/validations/diagnosis.ts:26-31 | A written-out session has the schema's shape exactly when equipment is chosen, the e-mail is acceptable and every part is in range |
| DiagnosisSchema.SomeCheckedOfState | lib/validations/diagnosis.ts:32-37 | The refine's some-checked test holds on a written-out session exactly when its checked count is positive |
| DiagnosisSchema.StateAccepted | lib/validations/diagnosis.ts:26-38 | A session passes the schema exactly when equipment is chosen, the e-mail is acceptable, every part is in range and at least one item is checked |
| DiagnosisSchema.InitialStateRejected | lib/validations/diagnosis.ts:27 | A fresh session is rejected for shape, because no equipment is chosen |
| DiagnosisSchema.NoResultsRefineRejected | lib/validations/diagnosis.ts:32-37 | A well-formed session with no check results fails the refine, at path checkResults with its message |
| DiagnosisSchema.FractionalQuantityRejected | lib/validations/diagnosis.ts:21 | A part whose quantity is not a whole number is rejected |
| PdfUtil.Pad2 | lib/pdf/index.ts:18-23 | A number below 100 pads to two digits that read back as the number; from 10 up the numeral is unchanged |
| PdfUtil.Pad2IsPadStart | lib/pdf/index.ts:20-21 | The two-digit field is the decimal numeral left-padded with zeros to width two |
| PdfUtil.DateDigits | lib/pdf/index.ts:29-36 | The compact date is the year's digits, then two month digits (1-based), then two day digits, each reading back as its field |
| PdfUtil.FormatDate | lib/pdf/index.ts:18-23 | Parsing the long Korean date gives back the date, for every date whose month and day are in range |
| PdfUtil.FormatDateExample | lib/pdf/index.ts:18-23 | 15 January 2024 is written 2024년 01월 15일 |
| PdfUtil.RandomSerial | lib/pdf/index.ts:33 | The random suffix is below 10000 |
| PdfUtil.EstimateNumber | lib/pdf/index.ts:29-36 | The number is EST-, the compact date, a dash and four digits whose value is the random suffix |
| PdfUtil.EstimateNumberLength | lib/pdf/index.ts:29-36 | For four-digit years the estimate number has 17 characters |
| PdfUtil.SanitizeName | lib/pdf/index.ts:46 | Position by position, letters, digits and Hangul syllables are kept and every other character becomes _ |
| PdfUtil.SanitizedAlphabet | lib/pdf/index.ts:46 | A sanitized name holds only name characters and _ |
| PdfUtil.SanitizeIdempotent | lib/pdf/index.ts:46 | Sanitizing twice is sanitizing once |
| PdfUtil.SanitizeKeepsCleanName | lib/pdf/index.ts:46 | A name made only of name characters is left as it is |
| PdfUtil.PdfFileName | lib/pdf/index.ts:42-48 | The file name is 견적서_, the sanitized name, _, the compact date and .pdf |
| PdfUtil.PdfFileNameCollision | lib/pdf/index.ts:42-48 | Two customers get the same file name on a day exactly when their sanitized names agree |
| PdfUtil.PdfFileNameOf | lib/pdf/index.ts:42-48 | The file name is the concatenation of the prefix, sanitized name, separator, compact date and extension |
| PdfUtil.PdfFileNameExample | lib/pdf/index.ts:42-48 | Customer 홍길동 on 15 January 2024 gets 견적서_홍길동_20240115.pdf |
| PdfUtil.ValidUntil | lib/pdf/index.ts:53-57 | The validity date is a valid day exactly 30 days after the issue date |
| PdfUtil.ValidUntilUnique | lib/pdf/index.ts:53-57 | A valid day is the validity date exactly when it falls 30 days after the issue date |
| EstimatePdf.OrElse | lib/pdf/estimate-pdf.tsx:51-54 | A present non-empty value is used, otherwise the fallback |
| EstimatePdf.NonEmpty | lib/pdf/estimate-pdf.tsx:71 | The value is kept exactly when it is present and non-empty |
| EstimatePdf.SplitLines | lib/pdf/estimate-pdf.tsx:43-45 | Splitting at newlines gives at least one newline-free segment, and joining the segments gives back the text |
| EstimatePdf.SplitJoin | lib/pdf/estimate-pdf.tsx:43-45 | Splitting the join of newline-free segments gives back the segments |
| EstimatePdf.SummaryLines | lib/pdf/estimate-pdf.tsx:43-45 | The summary keeps, in order, exactly the lines with non-blank content, each as often as it occurs (with the blank lines they make up all lines); missing or empty notes give no lines |
| EstimatePdf.BlankNotesGiveNoLines | lib/pdf/estimate-pdf.tsx:43-45 | Notes made only of white space give no summary lines |
| EstimatePdf.SummaryOfContentLines | lib/pdf/estimate-pdf.tsx:43-45 | Notes whose every line has content give back exactly those lines |
| EstimatePdf.ToRow | lib/pdf/estimate-pdf.tsx:59-65 | A row copies the saved line's name, quantity, price and total; its spec is the part number when non-empty |
| EstimatePdf.PreparePdfData | lib/pdf/estimate-pdf.tsx:34-72 | The subtotal is the saved line totals plus labor and travel; VAT is its rounded tenth; fallbacks apply to the customer fields; validity defaults to 30 days after creation; notes are kept only when non-empty; rows and summary come from the saved data |
| EstimatePdf.StoredPartsTotal | lib/pdf/estimate-pdf.tsx:37 | No saved lines total 0, and the total is never negative while no saved line total is |
| EstimatePdf.Rows | lib/pdf/estimate-pdf.tsx:59-65 | One row per saved line, in order, each made from that line |
| EstimatePdf.SavedParts | components/estimate/EstimateActions.tsx:43-55 | Each saved line has the part's name, quantity, price and total quantity × price, and no part number |
| EstimatePdf.SavedPartsTotal | lib/pdf/estimate-pdf.tsx:37 | Summing the saved line totals gives the editor's parts total |
| EstimatePdf.SavedEstimatePdfTotal | lib/pdf/estimate-pdf.tsx:37-40 | For an estimate saved from the editor, the PDF subtotal matches the editor's, the PDF total is the VAT-inclusive grand total, and it equals the saved total exactly when VAT was on or the subtotal rounds to no VAT |
| EstimatePdf.VatOffPdfExceedsSaved | lib/pdf/estimate-pdf.tsx:39-40 | For an estimate saved without VAT and a subtotal of at least 5, the PDF total is larger than the saved total |
| DiagnosisSummary.FindGroup | components/diagnosis/DiagnosisSummary.tsx:17 | The index found is the first group with the id, or the end when there is none |
| DiagnosisSummary.AddToGroups | components/diagnosis/DiagnosisSummary.tsx:16-31 | A seen id keeps the number of groups; a new id appends one group for it; existing groups keep their ids |
| DiagnosisSummary.GroupParts | components/diagnosis/DiagnosisSummary.tsx:16-39 | There are no more groups than parts, and no two groups share an id |
| DiagnosisSummary.DistinctIds | components/diagnosis/DiagnosisSummary.tsx:16-39 | The reference ids: each occurring id exactly once, no id that does not occur, never more ids than parts |
| DiagnosisSummary.DistinctIdsInFirstOccurrenceOrder | components/diagnosis/DiagnosisSummary.tsx:16-39 | Of two reference ids, the earlier one occurs in the parts before any occurrence of the later one: the ids are in order of first occurrence |
| DiagnosisSummary.GroupPartsMatchesReference | components/diagnosis/DiagnosisSummary.tsx:16-39 | The reduce gives one group per distinct id in first-occurrence order; each group is the reference: first entry's details, summed quantity, summed amount |
| DiagnosisSummary.AddToGroupsTotals | components/diagnosis/DiagnosisSummary.tsx:18-30 | One reducer step moves the groups' amounts and quantities by the part's own |
| DiagnosisSummary.GroupedTotals | components/diagnosis/DiagnosisSummary.tsx:16-39 | Grouping keeps the total amount and the total quantity |
| DiagnosisSummary.GroupedTotalIsPartsTotal | components/diagnosis/DiagnosisSummary.tsx:16-39 | The groups' amounts add up to the store's parts total |
| DiagnosisSummary.DistinctPartsGroupOneToOne | components/diagnosis/DiagnosisSummary.tsx:22-30 | Parts with distinct ids each form their own group, in order |
| PartsSelector.CurrentItemParts | components/diagnosis/PartsSelector.tsx:30-32 | The item's parts in selection order: all of them and no others, each as often as it is selected |
| PartsSelector.CurrentItemPartsIsGetter | components/diagnosis/PartsSelector.tsx:30-32 | The component's filter agrees with the store's getter for the same item |
| PartsSelector.FindCatalogPart | components/diagnosis/PartsSelector.tsx:37 | Nothing is found exactly when no catalogue part has the id; otherwise the found part is the first catalogue entry with the id |
| PartsSelector.HandleAddPart | components/diagnosis/PartsSelector.tsx:34-51 | No choice or an unknown id changes nothing; otherwise one unit of the first catalogue entry with the id, at its name, part number and price, is added under the item and the choice is cleared |
| PartsSelector.AddPartEffect | components/diagnosis/PartsSelector.tsx:34-51 | After adding, the part is selected for the item, either appended with quantity 1, raising the total by its price, or one more of an existing entry |
| PartsSelector.AtLeastOne | components/diagnosis/PartsSelector.tsx:57 | The quantity is never below 1 or below the request, and is either the request or 1 |
| PartsSelector.FindCurrent | components/diagnosis/PartsSelector.tsx:54 | Nothing is found exactly when no current part has the id; otherwise the found part is the item's first entry with the id |
| PartsSelector.HandleQuantityChange | components/diagnosis/PartsSelector.tsx:53-59 | A part not on the item changes nothing; otherwise only its entry changes, only in quantity, the quantity stays at least 1, and no other field of the session changes |
| PartsSelector.QuantityChangeStep | components/diagnosis/PartsSelector.tsx:53-59 | With unique keys the new quantity is the old plus the step, but at least 1 |
| PartsSelector.QuantityChangeUsesFirstEntry | components/diagnosis/PartsSelector.tsx:53-59 | Even with repeated keys, every entry of the part on the item gets the first such entry's quantity plus the step, but at least 1, because `find` returns that entry |
| PartsSelector.FoundIsFirstKeyed | components/diagnosis/PartsSelector.tsx:30-54 | The item's first entry with the id is the first entry of the whole selection with that part and item |
| PartsSelector.QuantityChangeKeepsPositive | components/diagnosis/PartsSelector.tsx:53-59 | When all quantities are positive they stay positive |
| PartsSelector.HandleRemovePart | components/diagnosis/PartsSelector.tsx:61-63 | It is the store's removal for this item: the item keeps exactly its other parts in order, every other item's parts and every other field are unchanged |
| PartsSelector.RemoveUndoesAdd | components/diagnosis/PartsSelector.tsx:34-63 | Removing a part that was just added to an item for the first time restores the session |
| PartsSelector.AvailableToAdd | components/diagnosis/PartsSelector.tsx:66-68 | The catalogue in order, without the item's parts, with every part the item lacks, as often as the catalogue lists it |
| PartsSelector.AddedPartNoLongerOffered | components/diagnosis/PartsSelector.tsx:34-68 | A part just added is no longer offered for that item |
| EmailGate.ScanEmail | app/api/email/send/route.ts:19-20 | The one-pass scan accepts exactly the strings the address pattern matches |
| EmailGate.MatchShape | app/api/email/send/route.ts:19-20 | A matching address has at least five characters, starts with neither `@` nor white space, and has a `.` after its `@` with a character on each side |
| EmailGate.AcceptedAddressShape | app/api/email/send/route.ts:19 | A matching address has no white space, one @ not at the start, and after it a . with text on both sides |
| EmailGate.ExampleAcceptedAddress | app/api/email/send/route.ts:19 | kim@repair.co.kr matches the address pattern |
| EmailGate.ExampleRejectedAddresses | app/api/email/send/route.ts:19 | addresses without a dot, without a local part, with a space or with two @ do not match |
| EmailGate.CheckSendRequest | app/api/email/send/route.ts:11-25 | A missing or empty field gives 400 with the missing-fields error; otherwise a non-matching address gives 400 with the address error; otherwise the request proceeds with its values |
| EmailGate.CheckSendRequestByScan | app/api/email/send/route.ts:11-25 | The gate with the one-pass scan decides as the pattern-based gate, and lets through only non-empty addresses containing @ |

## Left out

- Prisma queries, rendering, `persist`/localStorage, the auto-save timer and the mail transport are I/O and are not modelled. The stores are state-to-state functions.
- Estimate.Vat: uses the exact rational `floor(subtotal/10 + 1/2)` in place of the double-precision `Math.round(subtotal * 0.1)`. The two agree for whole subtotals from 0 below 2^52. They can differ between 2^52 and 2^53: for the subtotal 8691512805963844 the double product rounds to 869151280596385 and the model gives 869151280596384. The floating-point step is not modelled.
- All amounts (prices, quantities, line totals, rates, travel costs and their sums) are unbounded integers. The source adds them as doubles, which is exact only while every partial sum stays below 2^53 won. The model assumes amounts stay in that range.
- Estimate.FormatCurrency: takes non-negative whole amounts only. `toLocaleString` on negative or fractional amounts is not modelled.
- The `formatCurrency` in lib/pdf/index.ts:7-12 is the same function as lib/estimate.ts:65-67. It is modelled once.
- Strings are sequences of Unicode scalar values. JavaScript regular expressions and `replace` work on UTF-16 code units.
- PdfUtil.SanitizeName: a character outside the Basic Multilingual Plane becomes one `_` here and two `_` in the source, which replaces each of its two UTF-16 code units.
- Dates are calendar days with year at least 1. Time of day, time zones and daylight saving are left out.
- PdfUtil.EstimateNumber: takes the date and the random number as parameters, as the clock and `Math.random` cannot be called.
- `JSON.parse` of the saved parts is not modelled. The saved lines arrive already parsed, with whole-number amounts.
- DiagnosisSchema.ValidateDiagnosis: reports only accepted, a shape rejection, or the refine's path and message. It does not model zod's issue lists and paths. When only an `.int()`, `.positive()` or `.email()` check fails, zod may still run the refine and report both issues; the model reports a shape rejection alone.
- The `.email()` check is a parameter. Zod's e-mail pattern is not part of this model.
- DiagnosisSchema.EncodeState: the app never passes the session through the schema; this function writes the session out as the JSON value the schema would check, so that schema and store can be compared. The model has one "no part number" value, and it is written as an absent key. The source can hold `partNumber: null` instead: components/diagnosis/PartsSelector.tsx:43 copies a catalogue part's null part number. `JSON.stringify` keeps that `null`, and `z.string().optional()` (lib/validations/diagnosis.ts:20) rejects it. So DiagnosisSchema.ShapeOfState and DiagnosisSchema.StateAccepted describe this encoding only; they do not describe a serialised session that holds a part with a null part number, which the schema rejects.
- Patches that carry an explicit `undefined` field overwrite the field in the source. The model treats a missing field as absent.
- EmailGate.CheckSendRequest: treats each body field as absent or a string. Non-string JSON values in the body and the estimate lookup after the gate are left out.
- Generating the estimate number uses the current date, not the estimate's creation date. The model keeps that: `today` is a separate parameter.
