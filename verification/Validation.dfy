/** The normaliser every stored message draft passes, and the lint it contains. */
module Validation {
  import opened Basics
  import opened Text

  const MAX_BODY_LEN := 2_000
  const LOCALES: set<string> := {"en", "fa"}
  const PAYMENT_STATUSES: set<string> := {
    "AWAITING_PAYMENT", "PAID", "UNDERPAID", "NEEDS_REVIEW", "EXPIRED", "CANCELLED"
  }

  datatype Payload = Payload(
    orderId: string, orderSlug: string, merchantId: string,
    body: string, locale: string, paymentStatus: string)

  datatype ErrorCode =
    | INVALID_STATE | EXPIRED | LINK_CODE_MISMATCH | PAYLOAD_TAMPERED
    | VERSION_CONFLICT | VALIDATION_FAILED | IDEMPOTENCY_CONFLICT

  // ------------------------------------------------------------------ formats

  predicate AlphaNum(c: char) {
    '0' <= c <= '9' || 'a' <= c <= 'z' || 'A' <= c <= 'Z'
  }

  predicate IsOrderId(s: string) {
    4 <= |s| <= 64 && forall k :: 0 <= k < |s| ==> AlphaNum(s[k]) || s[k] == '_' || s[k] == '-'
  }

  predicate SlugChar(c: char) {
    '0' <= c <= '9' || 'a' <= c <= 'z'
  }

  predicate IsSlug(s: string) {
    && 2 <= |s| <= 63 && SlugChar(s[0])
    && forall k :: 1 <= k < |s| ==> SlugChar(s[k]) || s[k] == '-'
  }

  predicate IsMerchantId(s: string) {
    && |s| == 36
    && forall k :: 0 <= k < 36 ==>
         if k == 8 || k == 13 || k == 18 || k == 23 then s[k] == '-' else DigitOf(LowerChar(s[k])) < 16
  }

  /** String.length: astral characters count twice. */
  function Utf16Length(s: string): nat {
    if s == "" then 0 else (if s[0] as int > 0xFFFF then 2 else 1) + Utf16Length(s[1..])
  }

  // --------------------------------------------------------------------- body

  predicate IsControl(c: char) {
    c <= '\U{001f}' || '\U{007f}' <= c <= '\U{009f}'
  }

  function ReplaceControls(s: string): (r: string)
    ensures |r| == |s|
    ensures forall k :: 0 <= k < |s| ==> r[k] == if IsControl(s[k]) then ' ' else s[k]
  {
    seq(|s|, k requires 0 <= k < |s| => if IsControl(s[k]) then ' ' else s[k])
  }

  /** Every run of white space becomes one space. */
  function Collapse(s: string, inRun: bool): string {
    if s == "" then ""
    else if JsSpace(s[0]) then (if inRun then "" else " ") + Collapse(s[1..], true)
    else [s[0]] + Collapse(s[1..], false)
  }

  function SanitizeBody(raw: string): string {
    Trim(Collapse(ReplaceControls(raw), false), JsSpace)
  }

  // --------------------------------------------------------------------- lint

  predicate WordChar(c: char) {
    AlphaNum(c) || c == '_'
  }

  predicate WordBoundary(s: string, i: nat)
    requires i <= |s|
  {
    (i > 0 && WordChar(s[i - 1])) != (i < |s| && WordChar(s[i]))
  }

  const CLAIMS: seq<string> := [
    "paid", "payment received", "payment confirmed", "payment is confirmed",
    "received your payment", "payment in full"
  ]

  predicate ClaimAt(s: string, i: nat, claim: string) {
    && i + |claim| <= |s|
    && Lower(s[i..i + |claim|]) == claim
    && WordBoundary(s, i) && WordBoundary(s, i + |claim|)
  }

  const PERSIAN_CLAIMS: seq<string> := ["پرداخت", "واریز"]
  const PERSIAN_DONE := "شد"

  /** The first word, any white space, and the second word, anywhere in s. */
  predicate PersianClaimAt(s: string, i: nat, j: nat, word: string) {
    && i + |word| <= j <= |s| && j + |PERSIAN_DONE| <= |s|
    && s[i..i + |word|] == word
    && (forall k :: i + |word| <= k < j ==> JsSpace(s[k]))
    && s[j..j + |PERSIAN_DONE|] == PERSIAN_DONE
  }

  predicate ClaimsPaid(s: string) {
    || (exists i, c :: 0 <= i <= |s| && 0 <= c < |CLAIMS| && ClaimAt(s, i, CLAIMS[c]))
    || (exists i, j, c :: 0 <= i <= |s| && 0 <= j <= |s| && 0 <= c < |PERSIAN_CLAIMS| &&
                          PersianClaimAt(s, i, j, PERSIAN_CLAIMS[c]))
  }

  predicate PassesLint(body: string, paymentStatus: string) {
    paymentStatus == "PAID" || !ClaimsPaid(body)
  }

  /** Text that may stand before a claim without running into it, and after it. */
  predicate EndsApart(a: string) {
    a == "" || !WordChar(a[|a| - 1])
  }

  predicate StartsApart(b: string) {
    b == "" || !WordChar(b[0])
  }

  lemma BoundaryInContext(a: string, s: string, b: string, i: nat)
    requires i <= |s| && EndsApart(a) && StartsApart(b) && WordBoundary(s, i)
    ensures WordBoundary(a + s + b, |a| + i)
  {
    var t := a + s + b;
    assert i > 0 ==> t[|a| + i - 1] == s[i - 1];
    assert i < |s| ==> t[|a| + i] == s[i];
    assert i == 0 && a != "" ==> t[|a| - 1] == a[|a| - 1];
    assert i == |s| && b != "" ==> t[|a| + i] == b[0];
  }

  lemma ClaimInContext(a: string, s: string, b: string, i: nat, claim: string)
    requires ClaimAt(s, i, claim) && EndsApart(a) && StartsApart(b)
    ensures ClaimAt(a + s + b, |a| + i, claim)
  {
    hide WordBoundary, EndsApart, StartsApart;
    var t, n := a + s + b, |a|;
    BoundaryInContext(a, s, b, i);
    BoundaryInContext(a, s, b, i + |claim|);
    assert t[n + i..n + i + |claim|] == s[i..i + |claim|];
  }

  lemma PersianClaimInContext(a: string, s: string, b: string, i: nat, j: nat, word: string)
    requires PersianClaimAt(s, i, j, word)
    ensures PersianClaimAt(a + s + b, |a| + i, |a| + j, word)
  {
    hide JsSpace;
    var t, n := a + s + b, |a|;
    assert t[n + i..n + i + |word|] == s[i..i + |word|];
    assert t[n + j..n + j + |PERSIAN_DONE|] == s[j..j + |PERSIAN_DONE|];
    forall k | n + i + |word| <= k < n + j
      ensures JsSpace(t[k])
    {
      assert t[k] == s[k - n];
    }
  }

  /** A claim of payment stays one in every context whose letters, digits and underscores do not run into it. */
  lemma ClaimsSurviveContext(a: string, s: string, b: string)
    requires ClaimsPaid(s) && EndsApart(a) && StartsApart(b)
    ensures ClaimsPaid(a + s + b)
  {
    hide ClaimAt, PersianClaimAt, EndsApart, StartsApart;
    var t, n := a + s + b, |a|;
    if i, c :| 0 <= i <= |s| && 0 <= c < |CLAIMS| && ClaimAt(s, i, CLAIMS[c]) {
      ClaimInContext(a, s, b, i, CLAIMS[c]);
      assert ClaimAt(t, n + i, CLAIMS[c]);
    } else {
      var i, j, c :| 0 <= i <= |s| && 0 <= j <= |s| && 0 <= c < |PERSIAN_CLAIMS|
        && PersianClaimAt(s, i, j, PERSIAN_CLAIMS[c]);
      PersianClaimInContext(a, s, b, i, j, PERSIAN_CLAIMS[c]);
      assert PersianClaimAt(t, n + i, n + j, PERSIAN_CLAIMS[c]);
    }
  }

  function ValidateMessageDraft(p: Payload): Result<Payload, ErrorCode> {
    var orderId := Trim(p.orderId, JsSpace);
    var orderSlug := Lower(Trim(p.orderSlug, JsSpace));
    var locale := Lower(Trim(p.locale, JsSpace));
    var paymentStatus := Upper(Trim(p.paymentStatus, JsSpace));
    var merchantId := Trim(p.merchantId, JsSpace);
    var body := SanitizeBody(p.body);
    if !IsOrderId(orderId) then Err(VALIDATION_FAILED)
    else if merchantId != "" && !IsMerchantId(merchantId) then Err(VALIDATION_FAILED)
    else if !IsSlug(orderSlug) then Err(VALIDATION_FAILED)
    else if locale !in LOCALES then Err(VALIDATION_FAILED)
    else if paymentStatus !in PAYMENT_STATUSES then Err(VALIDATION_FAILED)
    else if Utf16Length(body) < 1 || Utf16Length(body) > MAX_BODY_LEN then Err(VALIDATION_FAILED)
    else if !PassesLint(body, paymentStatus) then Err(VALIDATION_FAILED)
    else Ok(Payload(orderId, orderSlug, merchantId, body, locale, paymentStatus))
  }

  // -------------------------------------------------------------- fixed points

  lemma CaseOfTrimmed(s: string)
    ensures var t := Trim(s, JsSpace);
      Lower(Trim(Lower(t), JsSpace)) == Lower(t) && Upper(Trim(Upper(t), JsSpace)) == Upper(t)
  {
    hide Trim;
    var t := Trim(s, JsSpace);
    TrimShape(s, JsSpace);
    CaseKeepsSolid(t);
    hide Solid;
    TrimOfSolid(Lower(t), JsSpace);
    TrimOfSolid(Upper(t), JsSpace);
  }

  lemma CaseKeepsSolid(s: string)
    requires Solid(s, JsSpace)
    ensures Solid(Lower(s), JsSpace) && Solid(Upper(s), JsSpace)
  {
    if s != "" {
      assert !JsSpace(LowerChar(s[0])) && !JsSpace(UpperChar(s[0]));
      assert !JsSpace(LowerChar(s[|s| - 1])) && !JsSpace(UpperChar(s[|s| - 1]));
    }
  }

  /** Single plain spaces between solid characters, and no control characters. */
  predicate Clean(s: string) {
    && (forall k :: 0 <= k < |s| ==> !IsControl(s[k]) && (JsSpace(s[k]) ==> s[k] == ' '))
    && (forall k :: 0 < k < |s| ==> s[k - 1] != ' ' || s[k] != ' ')
  }

  lemma {:induction false} CollapseIsClean(s: string, inRun: bool)
    requires forall k :: 0 <= k < |s| ==> !IsControl(s[k])
    ensures Clean(Collapse(s, inRun))
    ensures inRun && Collapse(s, inRun) != "" ==> Collapse(s, inRun)[0] != ' '
  {
    if s != "" {
      CollapseIsClean(s[1..], JsSpace(s[0]));
    }
  }

  lemma {:induction false} CollapseOfClean(s: string, inRun: bool)
    requires Clean(s)
    requires inRun && s != "" ==> s[0] != ' '
    ensures Collapse(s, inRun) == s
  {
    if s != "" {
      assert Clean(s[1..]) by {
        assert forall k :: 0 < k < |s[1..]| ==> s[1..][k - 1] == s[k] && s[1..][k] == s[k + 1];
      }
      assert |s| > 1 ==> s[1..][0] == s[1] && (s[1 - 1] != ' ' || s[1] != ' ');
      CollapseOfClean(s[1..], JsSpace(s[0]));
    }
  }

  lemma CleanParts(s: string, i: nat, j: nat)
    requires Clean(s) && i <= j <= |s|
    ensures Clean(s[i..j])
  {
    var t := s[i..j];
    forall k | 0 < k < |t|
      ensures t[k - 1] != ' ' || t[k] != ' '
    {
      assert s[i + k - 1] != ' ' || s[i + k] != ' ';
    }
  }

  lemma SanitizedIsClean(raw: string)
    ensures Clean(SanitizeBody(raw)) && Solid(SanitizeBody(raw), JsSpace)
  {
    var c := Collapse(ReplaceControls(raw), false);
    CollapseIsClean(ReplaceControls(raw), false);
    TrimShape(c, JsSpace);
    var i, j :| 0 <= i <= j <= |c| && Trim(c, JsSpace) == c[i..j];
    CleanParts(c, i, j);
  }

  /** Sanitising twice is sanitising once. */
  lemma SanitizeIsIdempotent(raw: string)
    ensures SanitizeBody(SanitizeBody(raw)) == SanitizeBody(raw)
  {
    var s := SanitizeBody(raw);
    SanitizedIsClean(raw);
    assert ReplaceControls(s) == s;
    CollapseOfClean(s, false);
    TrimOfSolid(s, JsSpace);
  }

  /** What validation accepts it leaves alone from then on, and it never carries an unbacked claim of payment. */
  lemma AcceptedDraftsAreFixedPoints(p: Payload)
    requires ValidateMessageDraft(p).Ok?
    ensures var q := ValidateMessageDraft(p).value;
      && ValidateMessageDraft(q) == Ok(q)
      && Clean(q.body) && q.body != ""
      && (q.paymentStatus != "PAID" ==> !ClaimsPaid(q.body))
  {
    SanitizeIsIdempotent(p.body);
    SanitizedIsClean(p.body);
    CaseOfTrimmed(p.orderSlug);
    CaseOfTrimmed(p.locale);
    CaseOfTrimmed(p.paymentStatus);
    TrimShape(p.orderId, JsSpace);
    TrimOfSolid(Trim(p.orderId, JsSpace), JsSpace);
    TrimShape(p.merchantId, JsSpace);
    TrimOfSolid(Trim(p.merchantId, JsSpace), JsSpace);
  }

  // ------------------------------------------------------------ what is accepted

  /** A claim of payment, in lower case. */
  predicate IsClaim(w: string) {
    || w == "paid" || w == "payment received" || w == "payment confirmed" || w == "payment is confirmed"
    || w == "received your payment" || w == "payment in full"
  }

  predicate IsWordChar(c: char) {
    '0' <= c <= '9' || 'a' <= c <= 'z' || 'A' <= c <= 'Z' || c == '_'
  }

  /** One of the six phrases from i to j, in any case, with no letter, digit or underscore next to it. */
  predicate HasClaim(s: string, i: nat, j: nat) {
    && i <= j <= |s| && IsClaim(Lower(s[i..j]))
    && (i > 0 ==> !IsWordChar(s[i - 1])) && (j < |s| ==> !IsWordChar(s[j]))
  }

  /** The phrases begin and end with a letter, so a word boundary there is the end of the text or another character. */
  lemma ClaimsStandAlone(s: string, i: nat, j: nat)
    requires i <= j <= |s| && IsClaim(Lower(s[i..j]))
    ensures WordBoundary(s, i) && WordBoundary(s, j) <==>
            (i > 0 ==> !IsWordChar(s[i - 1])) && (j < |s| ==> !IsWordChar(s[j]))
  {
    var w := Lower(s[i..j]);
    assert |w| == j - i >= 4;
    assert w[0] == LowerChar(s[i]) && w[|w| - 1] == LowerChar(s[j - 1]);
    assert 'a' <= w[0] <= 'z' && 'a' <= w[|w| - 1] <= 'z';
  }

  predicate IsBlank(s: string, i: nat, j: nat)
    requires j <= |s|
  {
    forall k :: i <= k < j ==> JsSpace(s[k])
  }

  /** The same said in Persian: one of two words at i, white space, and the word for done at j. */
  predicate HasPersianClaim(s: string, i: nat, j: nat) {
    && i <= j && j + 2 <= |s| && s[j..j + 2] == "شد"
    && ((i + 6 <= j && s[i..i + 6] == "پرداخت" && IsBlank(s, i + 6, j))
        || (i + 5 <= j && s[i..i + 5] == "واریز" && IsBlank(s, i + 5, j)))
  }

  lemma ClaimsAreListed(w: string)
    ensures IsClaim(w) <==> exists c :: 0 <= c < |CLAIMS| && CLAIMS[c] == w
  {
    assert CLAIMS[0] == "paid" && CLAIMS[1] == "payment received" && CLAIMS[2] == "payment confirmed"
      && CLAIMS[3] == "payment is confirmed" && CLAIMS[4] == "received your payment" && CLAIMS[5] == "payment in full";
  }

  lemma ClaimFound(s: string, i: nat, c: nat)
    requires c < |CLAIMS| && ClaimAt(s, i, CLAIMS[c])
    ensures HasClaim(s, i, i + |CLAIMS[c]|)
  {
    hide WordBoundary, IsWordChar;
    ClaimsAreListed(CLAIMS[c]);
    ClaimsStandAlone(s, i, i + |CLAIMS[c]|);
  }

  lemma PersianClaimFound(s: string, i: nat, j: nat, c: nat)
    requires c < |PERSIAN_CLAIMS| && PersianClaimAt(s, i, j, PERSIAN_CLAIMS[c])
    ensures HasPersianClaim(s, i, j)
  {
    hide JsSpace;
    assert |PERSIAN_CLAIMS[c]| == if c == 0 then 6 else 5;
  }

  lemma PersianClaimListed(s: string, i: nat, j: nat)
    requires HasPersianClaim(s, i, j)
    ensures PersianClaimAt(s, i, j, PERSIAN_CLAIMS[0]) || PersianClaimAt(s, i, j, PERSIAN_CLAIMS[1])
  {
    hide JsSpace;
  }

  /** The lint finds a claim if and only if the text has one of the six phrases, in any case, or says so in Persian. */
  lemma LintFindsExactly(s: string)
    ensures ClaimsPaid(s) <==> exists i, j :: HasClaim(s, i, j) || HasPersianClaim(s, i, j)
  {
    hide ClaimAt, PersianClaimAt, HasClaim, HasPersianClaim;
    if ClaimsPaid(s) {
      if i, c :| 0 <= i <= |s| && 0 <= c < |CLAIMS| && ClaimAt(s, i, CLAIMS[c]) {
        ClaimFound(s, i, c);
      } else {
        var i, j, c :| 0 <= i <= |s| && 0 <= j <= |s| && 0 <= c < |PERSIAN_CLAIMS|
          && PersianClaimAt(s, i, j, PERSIAN_CLAIMS[c]);
        PersianClaimFound(s, i, j, c);
      }
    }
    if i: nat, j: nat :| HasClaim(s, i, j) {
      HasClaimIsListed(s, i, j);
    }
    if i: nat, j: nat :| HasPersianClaim(s, i, j) {
      PersianClaimListed(s, i, j);
      PersianClaimBounds(s, i, j);
      assert 0 < |PERSIAN_CLAIMS| && 1 < |PERSIAN_CLAIMS|;
    }
  }

  lemma PersianClaimBounds(s: string, i: nat, j: nat)
    requires HasPersianClaim(s, i, j)
    ensures i <= |s| && j <= |s|
  {
  }

  lemma HasClaimIsListed(s: string, i: nat, j: nat)
    requires HasClaim(s, i, j)
    ensures ClaimsPaid(s)
  {
    hide WordBoundary, IsClaim, Lower, IsWordChar;
    ClaimsAreListed(Lower(s[i..j]));
    ClaimsStandAlone(s, i, j);
    var c :| 0 <= c < |CLAIMS| && CLAIMS[c] == Lower(s[i..j]);
    LowerKeepsLength(s[i..j]);
    assert ClaimAt(s, i, CLAIMS[c]);
  }

  lemma LowerKeepsLength(s: string)
    ensures |Lower(s)| == |s|
  {
  }

  /** A UUID: hex digits of either case in groups of 8, 4, 4, 4 and 12, with dashes between. */
  predicate IsUuid(s: string) {
    && |s| == 36 && s[8] == s[13] == s[18] == s[23] == '-'
    && forall k :: 0 <= k < 36 && k != 8 && k != 13 && k != 18 && k != 23 ==>
         '0' <= s[k] <= '9' || 'a' <= s[k] <= 'f' || 'A' <= s[k] <= 'F'
  }

  predicate IsName(s: string) {
    && 4 <= |s| <= 64
    && forall k :: 0 <= k < |s| ==>
         || '0' <= s[k] <= '9' || 'a' <= s[k] <= 'z' || 'A' <= s[k] <= 'Z' || s[k] == '_' || s[k] == '-'
  }

  predicate IsLowerSlug(s: string) {
    && 2 <= |s| <= 63 && s[0] != '-'
    && forall k :: 0 <= k < |s| ==> '0' <= s[k] <= '9' || 'a' <= s[k] <= 'z' || s[k] == '-'
  }

  /**
   * A draft is accepted if and only if, trimmed and in the case of its field, its order id, slug and merchant are well
   * formed, its locale and status are known, and its clean body has 1 to 2000 code units and, unless the order is paid,
   * no claim that it is. What is accepted is the draft so trimmed and cleaned.
   */
  lemma DraftIsAcceptedExactly(p: Payload)
    ensures var q := Payload(Trim(p.orderId, JsSpace), Lower(Trim(p.orderSlug, JsSpace)), Trim(p.merchantId, JsSpace),
                             SanitizeBody(p.body), Lower(Trim(p.locale, JsSpace)),
                             Upper(Trim(p.paymentStatus, JsSpace)));
      ValidateMessageDraft(p) ==
        if && IsName(q.orderId) && IsLowerSlug(q.orderSlug) && (q.merchantId == "" || IsUuid(q.merchantId))
           && (q.locale == "en" || q.locale == "fa")
           && q.paymentStatus in {"AWAITING_PAYMENT", "PAID", "UNDERPAID", "NEEDS_REVIEW", "EXPIRED", "CANCELLED"}
           && 1 <= Utf16Length(q.body) <= 2000
           && (q.paymentStatus == "PAID" || !ClaimsPaid(q.body))
        then Ok(q) else Err(VALIDATION_FAILED)
  {
    var q := Payload(Trim(p.orderId, JsSpace), Lower(Trim(p.orderSlug, JsSpace)), Trim(p.merchantId, JsSpace),
                     SanitizeBody(p.body), Lower(Trim(p.locale, JsSpace)), Upper(Trim(p.paymentStatus, JsSpace)));
    assert IsOrderId(q.orderId) <==> IsName(q.orderId);
    assert IsSlug(q.orderSlug) <==> IsLowerSlug(q.orderSlug);
    assert IsMerchantId(q.merchantId) <==> IsUuid(q.merchantId);
    hide Trim, Lower, Upper, SanitizeBody, ClaimsPaid, Utf16Length, IsOrderId, IsSlug, IsMerchantId, IsName,
         IsLowerSlug, IsUuid;
  }

  // ---------------------------------------------------------------------- words

  predicate IsGap(c: char) {
    JsSpace(c) || c as int <= 0x1F || 0x7F <= c as int <= 0x9F
  }

  lemma ControlsAreGaps(c: char)
    ensures IsGap(c) <==> JsSpace(c) || IsControl(c)
  {
  }

  /** The words of a text: the longest stretches without white space and control characters, in order. */
  function Words(s: string): (ws: seq<string>)
    ensures s != "" && !IsGap(s[0]) ==> ws != []
  {
    if s == "" then []
    else if IsGap(s[0]) then Words(s[1..])
    else if |s| == 1 || IsGap(s[1]) then [[s[0]]] + Words(s[1..])
    else
      var ws := Words(s[1..]);
      [[s[0]] + ws[0]] + ws[1..]
  }

  lemma {:induction false} ReplacingKeepsWords(s: string)
    ensures Words(ReplaceControls(s)) == Words(s)
  {
    hide IsControl, IsGap;
    SpaceIsGap();
    if s != "" {
      ControlsAreGaps(s[0]);
      if |s| > 1 {
        ControlsAreGaps(s[1]);
      }
      ReplacingKeepsWords(s[1..]);
      assert ReplaceControls(s)[1..] == ReplaceControls(s[1..]);
    }
  }

  lemma SpaceIsGap()
    ensures IsGap(' ') && JsSpace(' ')
  {
  }

  lemma {:induction false} CollapsingKeepsWords(s: string, inRun: bool)
    requires forall k :: 0 <= k < |s| ==> !IsControl(s[k])
    ensures Words(Collapse(s, inRun)) == Words(s)
  {
    hide IsControl, JsSpace, IsGap;
    SpaceIsGap();
    if s != "" {
      ControlsAreGaps(s[0]);
      if |s| > 1 {
        ControlsAreGaps(s[1]);
      }
      CollapsingKeepsWords(s[1..], true);
      CollapsingKeepsWords(s[1..], false);
      var rest := Collapse(s[1..], JsSpace(s[0]));
      assert (" " + rest)[1..] == rest && ([s[0]] + rest)[1..] == rest && "" + rest == rest;
    }
  }

  lemma {:induction false} TrimLeftKeepsWords(s: string)
    ensures Words(TrimLeft(s, JsSpace)) == Words(s)
  {
    hide IsControl, JsSpace, IsGap;
    if s != "" && JsSpace(s[0]) {
      ControlsAreGaps(s[0]);
      TrimLeftKeepsWords(s[1..]);
    }
  }

  lemma {:induction false} LastSpaceIsNoWord(s: string)
    requires s != "" && IsGap(s[|s| - 1])
    ensures Words(s[..|s| - 1]) == Words(s)
  {
    hide IsGap;
    var t := s[..|s| - 1];
    if t != "" {
      LastSpaceIsNoWord(s[1..]);
      assert s[1..][..|s| - 2] == t[1..];
    }
  }

  lemma {:induction false} TrimRightKeepsWords(s: string)
    ensures Words(TrimRight(s, JsSpace)) == Words(s)
  {
    hide IsControl, JsSpace, IsGap;
    if s != "" && JsSpace(s[|s| - 1]) {
      ControlsAreGaps(s[|s| - 1]);
      LastSpaceIsNoWord(s);
      TrimRightKeepsWords(s[..|s| - 1]);
    }
  }

  /**
   * Sanitising keeps the words of a text and their order, and nothing else: single plain spaces between them and none
   * around them.
   */
  lemma SanitizingKeepsWords(raw: string)
    ensures Words(SanitizeBody(raw)) == Words(raw)
    ensures Clean(SanitizeBody(raw)) && Solid(SanitizeBody(raw), JsSpace)
  {
    var replaced := ReplaceControls(raw);
    var collapsed := Collapse(replaced, false);
    ReplacingKeepsWords(raw);
    CollapsingKeepsWords(replaced, false);
    TrimLeftKeepsWords(collapsed);
    TrimRightKeepsWords(TrimLeft(collapsed, JsSpace));
    SanitizedIsClean(raw);
  }

  /** The length of a body is that of its parts, a character beyond the basic plane counting twice. */
  lemma {:induction false} LengthAddsUp(c: char, s: string, t: string)
    ensures Utf16Length(s + t) == Utf16Length(s) + Utf16Length(t)
    ensures Utf16Length([c]) == if c as int >= 0x1_0000 then 2 else 1
  {
    if s == "" {
      assert s + t == t;
    } else {
      LengthAddsUp(c, s[1..], t);
      assert (s + t)[1..] == s[1..] + t;
    }
    assert [c][1..] == "";
  }
}
