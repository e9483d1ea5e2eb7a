/**
 * Reading and validating a create/update submission (index.php): the four
 * text fields are trimmed, then checked in a fixed order, every failing
 * check adding its message; a blank optional field later becomes null.
 */
module Form {
  import opened Wrappers
  import opened Text

  datatype WriteAction = Create | Update

  /** A create/update form after reading: the id cast to int, the text fields trimmed. */
  datatype Submission = Submission(
    action: WriteAction,
    id: Option<int>,
    name: string,
    category: string,
    quantity: string,
    price: string)

  /** `$_POST[$key] ?? ''`. */
  function Field(form: map<string, string>, key: string): string {
    if key in form then form[key] else ""
  }

  /** Lines 78-82: `(int)` on the id when it is set, `trim` on the four fields. */
  function ReadSubmission(action: WriteAction, form: map<string, string>): Submission {
    Submission(
      action,
      if "id" in form then Some(IntCast(form["id"])) else None,
      Trim(Field(form, "name")),
      Trim(Field(form, "category")),
      Trim(Field(form, "quantity")),
      Trim(Field(form, "price")))
  }

  /** The four text fields carry no surrounding whitespace. */
  predicate Trimmed(s: Submission) {
    && Trim(s.name) == s.name && Trim(s.category) == s.category
    && Trim(s.quantity) == s.quantity && Trim(s.price) == s.price
  }

  lemma ReadSubmissionTrimmed(action: WriteAction, form: map<string, string>)
    ensures ReadSubmission(action, form).action == action
    ensures Trimmed(ReadSubmission(action, form))
  {
    TrimIdempotent(Field(form, "name"));
    TrimIdempotent(Field(form, "category"));
    TrimIdempotent(Field(form, "quantity"));
    TrimIdempotent(Field(form, "price"));
  }

  // ---------------------------------------------------------------- quantity

  /** Line 92: empty, or `ctype_digit` and not negative once cast. */
  predicate QuantityAccepted(q: string) {
    q == "" || (CtypeDigit(q) && IntCast(q) >= 0)
  }

  /** A quantity passes iff it is empty or made only of ASCII digits; the sign test never fires. */
  lemma QuantityAcceptedIff(q: string)
    ensures QuantityAccepted(q) <==> q == "" || AllDigits(q)
  {
    if q != "" && AllDigits(q) {
      CastOfDigits(q);
    }
  }

  /** Any character that is not a digit (a sign, a dot, a letter, a space) rejects the quantity. */
  lemma QuantityRejectsNonDigit(q: string, i: nat)
    requires i < |q| && !IsDigit(q[i])
    ensures !QuantityAccepted(q)
  {
    QuantityAcceptedIff(q);
  }

  /** What the form shows for a stored quantity is accepted again and casts back to it. */
  lemma QuantityRoundTrip(n: nat)
    ensures QuantityAccepted(DecimalString(n))
    ensures IntCast(DecimalString(n)) == n
  {
    CastOfDigits(DecimalString(n));
  }

  // ------------------------------------------------------------------- price

  /** `^\d+(\.\d{1,2})?` up to the very end of the text: the shape of an amount. */
  predicate PriceShape(s: string) {
    CtypeDigit(s)
    || exists i :: 0 < i < |s| && s[i] == '.' && CtypeDigit(s[..i]) && 1 <= |s| - i - 1 <= 2 && AllDigits(s[i + 1..])
  }

  /** The end of the run of digits that starts at `i`. */
  function SkipDigits(s: string, i: nat): (j: nat)
    requires i <= |s|
    ensures i <= j <= |s|
    ensures forall k :: i <= k < j ==> IsDigit(s[k])
    ensures j == |s| || !IsDigit(s[j])
    decreases |s| - i
  {
    if i < |s| && IsDigit(s[i]) then SkipDigits(s, i + 1) else i
  }

  /** A left-to-right scan for digits, then optionally a dot and one or two digits, then the end. */
  predicate ScanPrice(s: string) {
    var j := SkipDigits(s, 0);
    j > 0 && (j == |s| || (s[j] == '.' && var k := SkipDigits(s, j + 1); k == |s| && 1 <= k - j - 1 <= 2))
  }

  /**
   * `preg_match('/^\d+(\.\d{1,2})?$/', $s)`: without the `D` modifier `$`
   * also matches just before a final newline.
   */
  predicate PregMatchPrice(s: string) {
    ScanPrice(s) || (|s| > 0 && s[|s| - 1] == '\n' && ScanPrice(s[..|s| - 1]))
  }

  /** Line 96: empty, or matching the amount pattern. */
  predicate PriceAccepted(p: string) {
    p == "" || PregMatchPrice(p)
  }

  lemma {:induction false} SkipDigitsExact(s: string, i: nat, j: nat)
    requires i <= j <= |s|
    requires forall k :: i <= k < j ==> IsDigit(s[k])
    requires j == |s| || !IsDigit(s[j])
    ensures SkipDigits(s, i) == j
    decreases j - i
  {
    if i < j {
      SkipDigitsExact(s, i + 1, j);
    }
  }

  lemma ScanPriceSound(s: string)
    requires ScanPrice(s)
    ensures PriceShape(s)
  {
    var j := SkipDigits(s, 0);
    assert forall k :: 0 <= k < j ==> s[..j][k] == s[k];
    if j == |s| {
      assert CtypeDigit(s);
    } else {
      assert CtypeDigit(s[..j]);
      assert forall k :: j + 1 <= k < |s| ==> s[k] == s[j + 1..][k - j - 1];
      assert AllDigits(s[j + 1..]);
    }
  }

  lemma ScanPriceDotted(s: string, i: int)
    requires 0 < i < |s| && s[i] == '.' && CtypeDigit(s[..i]) && 1 <= |s| - i - 1 <= 2 && AllDigits(s[i + 1..])
    ensures ScanPrice(s)
  {
    assert forall k :: 0 <= k < i ==> s[k] == s[..i][k];
    SkipDigitsExact(s, 0, i);
    assert forall k :: i + 1 <= k < |s| ==> s[k] == s[i + 1..][k - i - 1];
    SkipDigitsExact(s, i + 1, |s|);
  }

  /** The scanner accepts exactly the amounts. */
  lemma ScanPriceIff(s: string)
    ensures ScanPrice(s) <==> PriceShape(s)
  {
    if ScanPrice(s) {
      ScanPriceSound(s);
    }
    if CtypeDigit(s) {
      SkipDigitsExact(s, 0, |s|);
    } else if PriceShape(s) {
      var i :| 0 < i < |s| && s[i] == '.' && CtypeDigit(s[..i]) && 1 <= |s| - i - 1 <= 2 && AllDigits(s[i + 1..]);
      ScanPriceDotted(s, i);
    }
  }

  /** On a trimmed price the newline allowance of `$` cannot apply: the pattern is exactly the amount shape. */
  lemma TrimmedPriceAccepted(raw: string)
    ensures PriceAccepted(Trim(raw)) <==> Trim(raw) == "" || PriceShape(Trim(raw))
  {
    var p := Trim(raw);
    ScanPriceIff(p);
    assert p != "" ==> p[|p| - 1] != '\n';
  }

  /** Amounts the pattern takes and strings it refuses. */
  lemma PriceExamples()
    ensures PriceShape("12") && PriceShape("12.5") && PriceShape("12.50")
    ensures !PriceShape("12.") && !PriceShape(".5") && !PriceShape("12.345") && !PriceShape("-1")
  {
    assert CtypeDigit("12");
    assert "12.5"[..2] == "12" && "12.5"[3..] == "5";
    assert "12.50"[..2] == "12" && "12.50"[3..] == "50";
    ScanPriceIff("12.");
    ScanPriceIff(".5");
    ScanPriceIff("12.345");
    ScanPriceIff("-1");
  }

  // ------------------------------------------------------------------ errors

  /** The four validation messages, in the order they are checked. */
  datatype ValidationError = MissingId | NameRequired | BadQuantity | BadPrice {

    function Message(): string {
      match this
      case MissingId => "Missing item id for update."
      case NameRequired => "Item name is required."
      case BadQuantity => "Quantity must be a non-negative integer."
      case BadPrice => "Price must be a valid amount (e.g., 12 or 12.50)."
    }

    /** Position in the checking order. */
    function Rank(): nat {
      match this
      case MissingId => 0
      case NameRequired => 1
      case BadQuantity => 2
      case BadPrice => 3
    }
  }

  /** The page tells the errors apart: the four messages are pairwise different. */
  lemma MessagesDistinct(a: ValidationError, b: ValidationError)
    requires a != b
    ensures a.Message() != b.Message()
  {
  }

  /** When each check fails (lines 84, 88, 92, 96). A missing id is `null` or a cast to 0. */
  predicate Applies(e: ValidationError, s: Submission) {
    match e
    case MissingId => s.action == Update && (s.id.None? || s.id.value == 0)
    case NameRequired => s.name == ""
    case BadQuantity => !QuantityAccepted(s.quantity)
    case BadPrice => !PriceAccepted(s.price)
  }

  predicate Acceptable(s: Submission) {
    !Applies(MissingId, s) && !Applies(NameRequired, s) && !Applies(BadQuantity, s) && !Applies(BadPrice, s)
  }

  /** Strictly in checking order, hence without repeats. */
  predicate Ranked(errors: seq<ValidationError>) {
    forall i, j :: 0 <= i < j < |errors| ==> errors[i].Rank() < errors[j].Rank()
  }

  /** The list holds every check that fails, none that passes, in checking order. */
  predicate ReportsExactly(errors: seq<ValidationError>, s: Submission) {
    (forall e :: e in errors <==> Applies(e, s)) && Ranked(errors)
  }

  /** Lines 84-98: run every check and collect the failures; nothing short-circuits. */
  method Validate(s: Submission) returns (errors: seq<ValidationError>)
    ensures ReportsExactly(errors, s)
    ensures errors == [] <==> Acceptable(s)
  {
    errors := [];
    ghost var checked := errors;
    if s.action == Update && (s.id.None? || s.id.value == 0) {
      errors := errors + [MissingId];
    }
    CheckStep(checked, errors, s, MissingId);
    checked := errors;
    if s.name == "" {
      errors := errors + [NameRequired];
    }
    CheckStep(checked, errors, s, NameRequired);
    checked := errors;
    if s.quantity != "" && (!CtypeDigit(s.quantity) || IntCast(s.quantity) < 0) {
      errors := errors + [BadQuantity];
    }
    CheckStep(checked, errors, s, BadQuantity);
    checked := errors;
    if s.price != "" && !PregMatchPrice(s.price) {
      errors := errors + [BadPrice];
    }
    CheckStep(checked, errors, s, BadPrice);
  }

  /** The checks ranked below `n` have run: their failures, and nothing else, are listed in order. */
  predicate ReportsBelow(errors: seq<ValidationError>, s: Submission, n: nat) {
    Ranked(errors)
    && (forall e :: e in errors ==> e.Rank() < n && Applies(e, s))
    && (forall e: ValidationError :: e.Rank() < n && Applies(e, s) ==> e in errors)
  }

  /** Running one more check, in order, keeps the list exact. */
  lemma CheckStep(before: seq<ValidationError>, after: seq<ValidationError>, s: Submission, e: ValidationError)
    requires ReportsBelow(before, s, e.Rank())
    requires after == if Applies(e, s) then before + [e] else before
    ensures ReportsBelow(after, s, e.Rank() + 1)
    ensures e == BadPrice ==> ReportsExactly(after, s)
  {
    forall x: ValidationError | x.Rank() < e.Rank() + 1 && Applies(x, s)
      ensures x in after
    {
      if x.Rank() == e.Rank() {
        RankDetermines(x, e);
      }
    }
  }

  lemma RankedHeadIsLeast(a: seq<ValidationError>, e: ValidationError)
    requires Ranked(a) && e in a
    ensures a[0].Rank() <= e.Rank()
  {
  }

  lemma RankDetermines(x: ValidationError, y: ValidationError)
    requires x.Rank() == y.Rank()
    ensures x == y
  {
  }

  /** Two ranked lists with the same members are the same list. */
  lemma {:induction false} RankedUnique(a: seq<ValidationError>, b: seq<ValidationError>)
    requires Ranked(a) && Ranked(b)
    requires forall e :: e in a <==> e in b
    ensures a == b
  {
    assert (a == []) == (b == []) by {
      if b != [] { assert b[0] in a; }
      if a != [] { assert a[0] in b; }
    }
    if a != [] {
      assert a[0] in b && b[0] in a;
      RankedHeadIsLeast(a, b[0]);
      RankedHeadIsLeast(b, a[0]);
      RankDetermines(a[0], b[0]);
      forall e
        ensures e in a[1..] <==> e in b[1..]
      {
        assert e in a[1..] <==> e in a && e != a[0];
        assert e in b[1..] <==> e in b && e != b[0];
      }
      RankedUnique(a[1..], b[1..]);
      assert a == [a[0]] + a[1..] && b == [b[0]] + b[1..];
    }
  }

  /** The error list a submission produces is determined by the submission. */
  lemma ReportIsDetermined(a: seq<ValidationError>, b: seq<ValidationError>, s: Submission)
    requires ReportsExactly(a, s) && ReportsExactly(b, s)
    ensures a == b
  {
    RankedUnique(a, b);
  }

  /** A create with an empty name and quantity "-1" reports exactly two errors, name first. */
  lemma EmptyNameAndNegativeQuantity(errors: seq<ValidationError>)
    requires ReportsExactly(errors, Submission(Create, None, "", "", "-1", ""))
    ensures errors == [NameRequired, BadQuantity]
  {
    var s := Submission(Create, None, "", "", "-1", "");
    assert !CtypeDigit("-1") by { assert !IsDigit("-1"[0]); }
    var expected := [NameRequired, BadQuantity];
    forall e
      ensures e in expected <==> Applies(e, s)
    {
      match e
      case MissingId =>
      case NameRequired =>
      case BadQuantity =>
      case BadPrice =>
    }
    ReportIsDetermined(errors, expected, s);
  }

  /** A negative id is not a missing id: such an update passes validation. */
  lemma NegativeIdIsNotMissing(s: Submission)
    requires s.action == Update && s.id.Some? && s.id.value < 0
    ensures !Applies(MissingId, s)
  {
  }

  /** Blank-to-null: an empty (trimmed) optional field is stored as null. */
  function BlankToNull(s: string): (r: Option<string>)
    ensures r.None? <==> s == ""
    ensures r.Some? ==> r.value == s
  {
    if s == "" then None else Some(s)
  }
}
