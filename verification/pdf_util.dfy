/**
 * The pure helpers behind the estimate PDF: the Korean date format, the
 * estimate number, the file name and the validity date. Amounts are
 * rendered by `Estimate.FormatCurrency`, which this file's `formatCurrency`
 * duplicates character for character.
 *
 * The clock and `Math.random` are parameters: the caller passes the date
 * the source reads from `new Date()` and the value `Math.random()` returned.
 */
module PdfUtil {
  import opened Common
  import opened Decimal
  import opened Calendar

  /**
   * `String(n).padStart(2, '0')`: a one-digit number gets a leading zero,
   * any other numeral is left as it is. `Pad2IsPadStart` shows this is the
   * general padding at width two.
   */
  function Pad2(n: nat): (r: string)
    ensures n < 100 ==> |r| == 2 && AllDigits(r) && ValueOf(r) == n
  {
    if n < 10 then
      assert ValueOf(['0', DigitChar(n)]) == ValueOf(['0']) * 10 + n;
      ['0', DigitChar(n)]
    else
      ToDecimalLength(n, 2);
      ValueOfToDecimal(n);
      ToDecimal(n)
  }

  lemma Pad2IsPadStart(n: nat)
    ensures Pad2(n) == PadStart(ToDecimal(n), 2, '0')
  {
    ToDecimalLength(n, 2);
    if n < 10 {
      assert Repeat('0', 1) == ['0'];
    }
  }

  /** `${year}${month}${day}` with month and day padded to two digits. */
  function DateDigits(d: Date): (r: string)
    requires Valid(d)
    ensures |r| == |ToDecimal(d.year)| + 4 && AllDigits(r)
    ensures ValueOf(r[..|r| - 4]) == d.year
    ensures ValueOf(r[|r| - 4..|r| - 2]) == d.month0 + 1
    ensures ValueOf(r[|r| - 2..]) == d.day
  {
    var y := ToDecimal(d.year);
    ValueOfToDecimal(d.year);
    DigitsThenTwoPairs(y, Pad2(d.month0 + 1), Pad2(d.day));
    y + Pad2(d.month0 + 1) + Pad2(d.day)
  }

  /** A numeral followed by two two-digit fields is all digits and splits back into the three. */
  lemma DigitsThenTwoPairs(a: string, b: string, c: string)
    requires AllDigits(a) && AllDigits(b) && AllDigits(c) && |b| == 2 && |c| == 2
    ensures var r := a + b + c;
      && |r| == |a| + 4 && AllDigits(r)
      && r[..|r| - 4] == a && r[|r| - 4..|r| - 2] == b && r[|r| - 2..] == c
      && ValueOf(r[..|r| - 4]) == ValueOf(a) && ValueOf(r[|r| - 4..|r| - 2]) == ValueOf(b)
      && ValueOf(r[|r| - 2..]) == ValueOf(c)
  {
    AppendSlices3(a, b, c);
  }

  /** The field ranges the date format relies on; every valid date has them. */
  predicate FieldsInRange(d: Date) {
    d.year >= 1 && 0 <= d.month0 < 12 && 1 <= d.day <= 31
  }

  lemma ValidFieldsInRange(d: Date)
    requires Valid(d)
    ensures FieldsInRange(d)
  {
  }

  /**
   * `formatDate`: "{year}년 {MM}월 {DD}일". Parsing it back gives the date,
   * for every date whose month and day are in range.
   */
  function FormatDate(d: Date): (r: string)
    requires FieldsInRange(d)
    ensures |r| == |ToDecimal(d.year)| + 9
    ensures ParseFormattedDate(r) == Some(d)
  {
    FieldsRoundTrip(d);
    ToDecimal(d.year) + DateTail(Pad2(d.month0 + 1), Pad2(d.day))
  }

  /** Reads "{year}년 {MM}월 {DD}일" back into a date. */
  function ParseFormattedDate(s: string): Option<Date> {
    if |s| < 10 then None else ParseDateParts(s[..|s| - 9], s[|s| - 9..])
  }

  /** The year digits, and the nine characters "년 MM월 DD일" after them. */
  function ParseDateParts(year: string, tail: string): Option<Date>
    requires |tail| == 9
  {
    var month := tail[2..4];
    var day := tail[6..8];
    if && tail[..2] == "년 " && tail[4..6] == "월 " && tail[8] == '일'
       && AllDigits(year) && AllDigits(month) && AllDigits(day)
    then Some(Date(ValueOf(year), ValueOf(month) - 1, ValueOf(day)))
    else None
  }

  function DateTail(mm: string, dd: string): (t: string)
    requires |mm| == 2 && |dd| == 2
    ensures |t| == 9 && t[..2] == "년 " && t[2..4] == mm && t[4..6] == "월 " && t[6..8] == dd && t[8] == '일'
  {
    "년 " + mm + "월 " + dd + "일"
  }

  /** The round trip on the spelled-out format. */
  lemma FieldsRoundTrip(d: Date)
    requires FieldsInRange(d)
    ensures |Pad2(d.month0 + 1)| == 2 && |Pad2(d.day)| == 2
    ensures ParseFormattedDate(ToDecimal(d.year) + DateTail(Pad2(d.month0 + 1), Pad2(d.day))) == Some(d)
  {
    ValueOfToDecimal(d.year);
    ParseFields(ToDecimal(d.year), Pad2(d.month0 + 1), Pad2(d.day), d);
  }

  /** Numerals for the three fields of `d`, formatted, parse back to `d`. */
  lemma ParseFields(y: string, mm: string, dd: string, d: Date)
    requires |y| >= 1 && AllDigits(y) && AllDigits(mm) && AllDigits(dd) && |mm| == 2 && |dd| == 2
    requires ValueOf(y) == d.year && ValueOf(mm) == d.month0 + 1 && ValueOf(dd) == d.day
    ensures ParseFormattedDate(y + DateTail(mm, dd)) == Some(d)
  {
    ParseOfConcat(y, DateTail(mm, dd));
    ParseDateTail(y, mm, dd);
  }

  /** The parser cuts a year numeral and a nine-character tail apart again. */
  lemma ParseOfConcat(year: string, tail: string)
    requires |year| >= 1 && |tail| == 9
    ensures ParseFormattedDate(year + tail) == ParseDateParts(year, tail)
  {
    AppendSlices(year, tail);
  }

  /** The parts of a well-formed date read back as their numbers. */
  lemma ParseDateTail(year: string, mm: string, dd: string)
    requires AllDigits(year) && AllDigits(mm) && AllDigits(dd) && |mm| == 2 && |dd| == 2
    ensures ParseDateParts(year, DateTail(mm, dd)) == Some(Date(ValueOf(year), ValueOf(mm) - 1, ValueOf(dd)))
  {
  }

  lemma DigitsOf2024()
    ensures ToDecimal(2024) == "2024" && Pad2(1) == "01" && Pad2(15) == "15"
  {
    assert ToDecimal(2) == "2";
    assert ToDecimal(20) == ToDecimal(2) + [DigitChar(0)] == "20";
    assert ToDecimal(202) == ToDecimal(20) + [DigitChar(2)] == "202";
    assert ToDecimal(2024) == ToDecimal(202) + [DigitChar(4)] == "2024";
    assert ToDecimal(1) == "1";
    assert Pad2(1) == ['0', DigitChar(1)] == "01";
    assert ToDecimal(15) == ToDecimal(1) + [DigitChar(5)] == "15";
  }

  /** The documented example. */
  lemma FormatDateExample()
    ensures FormatDate(Date(2024, 0, 15)) == "2024년 01월 15일"
  {
    DigitsOf2024();
  }

  /** `Math.floor(random * 10000)` for `0 <= random < 1`. */
  function RandomSerial(random: real): (k: nat)
    requires 0.0 <= random < 1.0
    ensures k < 10000
  {
    (random * 10000.0).Floor
  }

  /**
   * `generateEstimateNumber`: "EST-", the date's digits, "-", and the random
   * serial padded to four digits.
   */
  function EstimateNumber(today: Date, random: real): (r: string)
    requires Valid(today) && 0.0 <= random < 1.0
    ensures |r| == |ToDecimal(today.year)| + 13
    ensures r[..4] == "EST-" && r[4..|r| - 5] == DateDigits(today) && r[|r| - 5] == '-'
    ensures AllDigits(r[|r| - 4..]) && ValueOf(r[|r| - 4..]) == RandomSerial(random)
  {
    var k := RandomSerial(random);
    ToDecimalLength(k, 4);
    PadStartZerosValue(k, 4);
    var serial := PadStart(ToDecimal(k), 4, '0');
    var tail := "-" + serial;
    AppendSlices("-", serial);
    var r := "EST-" + DateDigits(today) + tail;
    AppendSlices3("EST-", DateDigits(today), tail);
    assert r[|r| - 5..] == tail;
    assert r[|r| - 4..] == tail[1..];
    r
  }

  /** With a four-digit year every estimate number is 17 characters long. */
  lemma EstimateNumberLength(today: Date, random: real)
    requires Valid(today) && 0.0 <= random < 1.0
    requires 1000 <= today.year <= 9999
    ensures |EstimateNumber(today, random)| == 17
  {
    FourDigits(today.year);
  }

  /** The character class `[a-zA-Z0-9가-힣]`. */
  predicate IsNameChar(c: char) {
    ('a' <= c <= 'z') || ('A' <= c <= 'Z') || ('0' <= c <= '9') || ('가' <= c <= '힣')
  }

  function SanitizeChar(c: char): char {
    if IsNameChar(c) then c else '_'
  }

  /**
   * `customerName.replace(/[^a-zA-Z0-9가-힣]/g, '_')`: every character
   * outside the class becomes `_`, every one inside stays, position by
   * position.
   */
  function SanitizeName(name: string): (r: string)
    ensures |r| == |name|
    ensures forall i :: 0 <= i < |name| ==> (IsNameChar(name[i]) ==> r[i] == name[i])
    ensures forall i :: 0 <= i < |name| ==> (!IsNameChar(name[i]) ==> r[i] == '_')
  {
    seq(|name|, i requires 0 <= i < |name| => SanitizeChar(name[i]))
  }

  /** A sanitised name holds only class characters and underscores. */
  lemma SanitizedAlphabet(name: string)
    ensures forall i :: 0 <= i < |name| ==>
      IsNameChar(SanitizeName(name)[i]) || SanitizeName(name)[i] == '_'
  {
  }

  /** Sanitising twice is sanitising once. */
  lemma SanitizeIdempotent(name: string)
    ensures SanitizeName(SanitizeName(name)) == SanitizeName(name)
  {
  }

  /** A name made of class characters only is left as it is. */
  lemma SanitizeKeepsCleanName(name: string)
    requires forall i :: 0 <= i < |name| ==> IsNameChar(name[i])
    ensures SanitizeName(name) == name
  {
  }

  /**
   * `generatePDFFileName`: "견적서_", the sanitised name, "_", the date's
   * digits and ".pdf".
   */
  function PdfFileName(customerName: string, date: Date): (r: string)
    requires Valid(date)
    ensures |r| == |customerName| + |ToDecimal(date.year)| + 13
    ensures r[..4] == "견적서_"
    ensures r[4..4 + |customerName|] == SanitizeName(customerName)
    ensures r[4 + |customerName|] == '_'
    ensures r[5 + |customerName|..|r| - 4] == DateDigits(date)
    ensures r[|r| - 4..] == ".pdf"
  {
    var clean := SanitizeName(customerName);
    var r := "견적서_" + clean + "_" + DateDigits(date) + ".pdf";
    assert r[4..4 + |customerName|] == clean;
    assert r[5 + |customerName|..|r| - 4] == DateDigits(date);
    r
  }

  /**
   * For one date, two customers get the same file name exactly when their
   * names sanitise alike.
   */
  lemma PdfFileNameCollision(a: string, b: string, date: Date)
    requires Valid(date)
    ensures PdfFileName(a, date) == PdfFileName(b, date) <==> SanitizeName(a) == SanitizeName(b)
  {
    if PdfFileName(a, date) == PdfFileName(b, date) {
      SanitizedNameOfFileName(a, b, date);
    }
    if SanitizeName(a) == SanitizeName(b) {
      PdfFileNameOf(a, date);
      PdfFileNameOf(b, date);
    }
  }

  /** Equal file names for one date carry equal sanitised names. */
  lemma SanitizedNameOfFileName(a: string, b: string, date: Date)
    requires Valid(date) && PdfFileName(a, date) == PdfFileName(b, date)
    ensures SanitizeName(a) == SanitizeName(b)
  {
    var f := PdfFileName(a, date);
    assert |a| == |b|;
    assert SanitizeName(a) == f[4..4 + |a|];
    assert SanitizeName(b) == f[4..4 + |b|];
  }

  lemma DateDigitsExample()
    ensures DateDigits(Date(2024, 0, 15)) == "20240115"
  {
    DigitsOf2024();
    assert DateDigits(Date(2024, 0, 15)) == "2024" + "01" + "15";
  }

  /** The documented example. */
  lemma PdfFileNameExample()
    ensures PdfFileName("홍길동", Date(2024, 0, 15)) == "견적서_홍길동_20240115.pdf"
  {
    PdfFileNameOf("홍길동", Date(2024, 0, 15));
    CleanNameExample();
    DateDigitsExample();
    ExampleConcat(SanitizeName("홍길동"), DateDigits(Date(2024, 0, 15)));
  }

  lemma CleanNameExample()
    ensures SanitizeName("홍길동") == "홍길동"
  {
    SanitizeKeepsCleanName("홍길동");
  }

  lemma ExampleConcat(name: string, digits: string)
    requires name == "홍길동" && digits == "20240115"
    ensures "견적서_" + name + "_" + digits + ".pdf" == "견적서_홍길동_20240115.pdf"
  {
  }

  lemma PdfFileNameOf(name: string, date: Date)
    requires Valid(date)
    ensures PdfFileName(name, date) == "견적서_" + SanitizeName(name) + "_" + DateDigits(date) + ".pdf"
  {
  }

  /** `calculateValidUntil`: the issue date plus 30 days, a fresh value. */
  function ValidUntil(issueDate: Date): (r: Date)
    requires Valid(issueDate)
    ensures Valid(r) && Ordinal(r) == Ordinal(issueDate) + 30
  {
    AddDays(issueDate, 30)
  }

  /** The validity date is the one and only date 30 days after issue. */
  lemma ValidUntilUnique(issueDate: Date, d: Date)
    requires Valid(issueDate) && Valid(d)
    ensures d == ValidUntil(issueDate) <==> Ordinal(d) == Ordinal(issueDate) + 30
  {
    if Ordinal(d) == Ordinal(issueDate) + 30 {
      OrdinalInjective(d, ValidUntil(issueDate));
    }
  }
}
