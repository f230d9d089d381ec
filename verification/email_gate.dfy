/**
 * The request gate of the e-mail sending endpoint: both fields must be
 * present and non-empty, and the recipient must match
 * `^[^\s@]+@[^\s@]+\.[^\s@]+$`. A request that fails either check is
 * answered with status 400 before any estimate is looked up or any mail
 * is sent.
 *
 * The pattern is given twice: `MatchesEmailPattern` says what the regular
 * expression matches (a split of the address into its four parts), and
 * `ScanEmail` checks an address in one left-to-right pass; the two are
 * proved to agree on every string.
 */
module EmailGate {
  import opened Common

  /** The two body fields the gate reads; `None` is a missing or null field. */
  datatype SendRequest = SendRequest(estimateId: Option<string>, recipientEmail: Option<string>)

  datatype GateResult =
    | BadRequest(status: int, error: string)
    /** The request goes on to the estimate lookup with these values. */
    | Proceed(estimateId: string, recipientEmail: string)

  const MissingFieldsError := "견적서 ID와 수신자 이메일이 필요합니다."
  const InvalidEmailError := "올바른 이메일 주소를 입력해주세요."

  // ---------------------------------------------------------------------
  // the pattern
  // ---------------------------------------------------------------------

  /** A character of the class `[^\s@]`. */
  predicate Plain(c: char) {
    !IsJsWhitespace(c) && c != '@'
  }

  /** `[^\s@]+` matches the whole of `s`. */
  predicate PlainRun(s: string) {
    |s| > 0 && forall k :: 0 <= k < |s| ==> Plain(s[k])
  }

  /**
   * `^[^\s@]+@[^\s@]+\.[^\s@]+$` matches `s`: there is an `@` at `i` and a
   * `.` at `j` cutting `s` into three non-empty runs of plain characters.
   */
  predicate MatchesEmailPattern(s: string) {
    exists i, j :: 0 <= i < j < |s| && s[i] == '@' && s[j] == '.'
      && PlainRun(s[..i]) && PlainRun(s[i + 1..j]) && PlainRun(s[j + 1..])
  }

  /**
   * A matching address has at least five characters and starts with
   * neither `@` nor white space: a non-empty local part before its `@`, and
   * a `.` with something on both sides after it.
   */
  lemma MatchShape(s: string)
    requires MatchesEmailPattern(s)
    ensures |s| >= 5 && s[0] != '@' && !IsJsWhitespace(s[0])
    ensures exists i, j :: 0 < i && i + 1 < j < |s| - 1 && s[i] == '@' && s[j] == '.'
  {
    var i, j :| 0 <= i < j < |s| && s[i] == '@' && s[j] == '.'
      && PlainRun(s[..i]) && PlainRun(s[i + 1..j]) && PlainRun(s[j + 1..]);
    assert s[..i][0] == s[0];
  }

  /**
   * The pattern in one pass: no white space at all, a single `@` that is
   * not the first character, and after it, not right next to it and not
   * last, a `.`.
   */
  method ScanEmail(s: string) returns (ok: bool)
    ensures ok <==> MatchesEmailPattern(s)
  {
    var at := -1;
    var dotFound := false;
    ghost var dotAt := -1;
    var k := 0;
    while k < |s|
      invariant 0 <= k <= |s|
      invariant forall m :: 0 <= m < k ==> !IsJsWhitespace(s[m])
      invariant -1 <= at < k
      invariant at == -1 ==> forall m :: 0 <= m < k ==> s[m] != '@'
      invariant at >= 0 ==> s[at] == '@' && forall m :: 0 <= m < k && m != at ==> s[m] != '@'
      invariant dotFound ==> at >= 0 && at + 1 < dotAt < k && dotAt < |s| - 1 && s[dotAt] == '.'
      invariant !dotFound ==> forall m :: 0 <= at && at + 1 < m < k && m < |s| - 1 ==> s[m] != '.'
    {
      var c := s[k];
      if IsJsWhitespace(c) {
        NoMatchWith(s, k);
        return false;
      }
      if c == '@' {
        if at >= 0 {
          NoMatchWithTwoAts(s, at, k);
          return false;
        }
        at := k;
      } else if c == '.' && at >= 0 && at + 1 < k && k < |s| - 1 && !dotFound {
        dotFound := true;
        dotAt := k;
      }
      k := k + 1;
    }
    ok := at > 0 && dotFound;
    if ok {
      MatchFromCuts(s, at, dotAt);
    } else {
      NoMatchWithout(s, at, dotFound);
    }
  }

  /** A white space character anywhere rules a match out. */
  lemma NoMatchWith(s: string, k: int)
    requires 0 <= k < |s| && IsJsWhitespace(s[k])
    ensures !MatchesEmailPattern(s)
  {
    if MatchesEmailPattern(s) {
      var i, j :| 0 <= i < j < |s| && s[i] == '@' && s[j] == '.'
        && PlainRun(s[..i]) && PlainRun(s[i + 1..j]) && PlainRun(s[j + 1..]);
      PlainEverywhereBut(s, i, j, k);
    }
  }

  /** Two `@` characters rule a match out. */
  lemma NoMatchWithTwoAts(s: string, a: int, b: int)
    requires 0 <= a < b < |s| && s[a] == '@' && s[b] == '@'
    ensures !MatchesEmailPattern(s)
  {
    if MatchesEmailPattern(s) {
      var i, j :| 0 <= i < j < |s| && s[i] == '@' && s[j] == '.'
        && PlainRun(s[..i]) && PlainRun(s[i + 1..j]) && PlainRun(s[j + 1..]);
      if a != i {
        PlainEverywhereBut(s, i, j, a);
      } else {
        PlainEverywhereBut(s, i, j, b);
      }
    }
  }

  /** In a match, every character but the `@` is plain. */
  lemma PlainEverywhereBut(s: string, i: int, j: int, k: int)
    requires 0 <= i < j < |s| && s[j] == '.'
    requires PlainRun(s[..i]) && PlainRun(s[i + 1..j]) && PlainRun(s[j + 1..])
    requires 0 <= k < |s| && k != i
    ensures Plain(s[k])
  {
    if k < i {
      assert s[k] == s[..i][k];
    } else if i < k < j {
      assert s[k] == s[i + 1..j][k - i - 1];
    } else if j < k {
      assert s[k] == s[j + 1..][k - j - 1];
    }
  }

  /** An `@` at `at > 0` and a `.` at `dot` with room on both sides make a match. */
  lemma MatchFromCuts(s: string, at: int, dot: int)
    requires 0 < at && at + 1 < dot < |s| - 1 && s[at] == '@' && s[dot] == '.'
    requires forall m :: 0 <= m < |s| ==> !IsJsWhitespace(s[m])
    requires forall m :: 0 <= m < |s| && m != at ==> s[m] != '@'
    ensures MatchesEmailPattern(s)
  {
    assert PlainRun(s[..at]);
    assert PlainRun(s[at + 1..dot]);
    assert PlainRun(s[dot + 1..]);
  }

  /**
   * Without an `@` past the first character, or without a `.` after it
   * with room on both sides, there is no match.
   */
  lemma NoMatchWithout(s: string, at: int, dotFound: bool)
    requires -1 <= at < |s|
    requires at == -1 ==> forall m :: 0 <= m < |s| ==> s[m] != '@'
    requires at >= 0 ==> s[at] == '@' && forall m :: 0 <= m < |s| && m != at ==> s[m] != '@'
    requires !dotFound ==> forall m :: 0 <= at && at + 1 < m < |s| - 1 ==> s[m] != '.'
    requires !(at > 0 && dotFound)
    ensures !MatchesEmailPattern(s)
  {
  }

  /**
   * What an accepted address looks like: exactly one `@`, with plain text
   * before it; no white space anywhere; and after the `@` a `.` with plain,
   * `@`-free text on both sides.
   */
  lemma AcceptedAddressShape(s: string)
    requires MatchesEmailPattern(s)
    ensures forall k :: 0 <= k < |s| ==> !IsJsWhitespace(s[k])
    ensures exists i :: 0 < i < |s| && s[i] == '@' && forall k :: 0 <= k < |s| && s[k] == '@' ==> k == i
    ensures exists i, j ::
      0 < i && i + 1 < j < |s| - 1 && s[i] == '@' && s[j] == '.' && forall k :: i < k < |s| ==> Plain(s[k]) || k == j
  {
    var i, j :| 0 <= i < j < |s| && s[i] == '@' && s[j] == '.'
      && PlainRun(s[..i]) && PlainRun(s[i + 1..j]) && PlainRun(s[j + 1..]);
    forall k | 0 <= k < |s| && k != i
      ensures Plain(s[k])
    {
      PlainEverywhereBut(s, i, j, k);
    }
    assert |s[..i]| > 0 && |s[i + 1..j]| > 0 && |s[j + 1..]| > 0;
  }

  /** An address the pattern accepts. */
  lemma ExampleAcceptedAddress()
    ensures MatchesEmailPattern("kim@repair.co.kr")
  {
    MatchFromCuts("kim@repair.co.kr", 3, 10);
  }

  /** Addresses the pattern rejects: no dot, nothing before the `@`, a space, two `@`s. */
  lemma ExampleRejectedAddresses()
    ensures !MatchesEmailPattern("kim@repair")
    ensures !MatchesEmailPattern("@repair.kr")
    ensures !MatchesEmailPattern("kim lee@repair.kr")
    ensures !MatchesEmailPattern("kim@@repair.kr")
  {
    NoMatchWithout("kim@repair", 3, false);
    NoMatchWithout("@repair.kr", 0, true);
    NoMatchWith("kim lee@repair.kr", 3);
    NoMatchWithTwoAts("kim@@repair.kr", 3, 4);
  }

  // ---------------------------------------------------------------------
  // the gate
  // ---------------------------------------------------------------------

  /** `!value` is false: a present, non-empty string. */
  predicate Truthy(o: Option<string>) {
    o.Some? && o.value != ""
  }

  /** Lines 11-25 of the handler: missing fields first, then the address. */
  function CheckSendRequest(req: SendRequest): (r: GateResult)
    ensures r.BadRequest? ==> r.status == 400
    ensures !Truthy(req.estimateId) || !Truthy(req.recipientEmail) ==> r == BadRequest(400, MissingFieldsError)
    ensures Truthy(req.estimateId) && Truthy(req.recipientEmail) && !MatchesEmailPattern(req.recipientEmail.value) ==>
      r == BadRequest(400, InvalidEmailError)
    ensures r.Proceed? <==> Truthy(req.estimateId) && Truthy(req.recipientEmail) && MatchesEmailPattern(req.recipientEmail.value)
    ensures r.Proceed? ==> r.estimateId == req.estimateId.value && r.recipientEmail == req.recipientEmail.value
  {
    if !Truthy(req.estimateId) || !Truthy(req.recipientEmail) then BadRequest(400, MissingFieldsError)
    else if !MatchesEmailPattern(req.recipientEmail.value) then BadRequest(400, InvalidEmailError)
    else Proceed(req.estimateId.value, req.recipientEmail.value)
  }

  /** The same gate with the address checked by the one-pass scan. */
  method CheckSendRequestByScan(req: SendRequest) returns (r: GateResult)
    ensures r == CheckSendRequest(req)
    ensures r.Proceed? ==> r.recipientEmail != "" && '@' in r.recipientEmail
  {
    if !Truthy(req.estimateId) || !Truthy(req.recipientEmail) {
      return BadRequest(400, MissingFieldsError);
    }
    var ok := ScanEmail(req.recipientEmail.value);
    if !ok {
      return BadRequest(400, InvalidEmailError);
    }
    AcceptedAddressShape(req.recipientEmail.value);
    r := Proceed(req.estimateId.value, req.recipientEmail.value);
  }
}
