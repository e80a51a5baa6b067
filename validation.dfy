/**
 * The field validators of the ledger (amount, date, description, category) and
 * the whole-draft check that runs them in order. Each either passes or reports
 * the ValidationError the source throws.
 */
module Validation {
  import opened CashFlowTypes

  // ---------------------------------------------------------------- amount

  /** The amount written with `k` cents. */
  function FromCents(k: int): real {
    k as real / 100.0
  }

  /** The number of whole cents in `a` (exact when `a` has at most two decimals). */
  function ToCents(a: real): int {
    (a * 100.0).Floor
  }

  /** At most two fractional decimal digits: `a * 100` is a whole number. */
  predicate HasAtMostTwoDecimals(a: real) {
    ToCents(a) as real == a * 100.0
  }

  /** An amount must be greater than 0 and carry at most 2 decimal places. */
  function ValidateAmount(amount: real): (r: Outcome)
    ensures r == Pass <==> exists k :: k > 0 && FromCents(k) == amount
    ensures r == Fail(ValidationError(AmountField, NotPositive)) <==> amount <= 0.0
    ensures r.Fail? ==> r.error.ValidationError? && r.error.field == AmountField
  {
    CentsCharacterization(amount);
    if amount <= 0.0 then Fail(ValidationError(AmountField, NotPositive))
    else if !HasAtMostTwoDecimals(amount) then Fail(ValidationError(AmountField, TooManyDecimals))
    else Pass
  }

  /** Having at most two decimals is the same as being a whole number of cents. */
  lemma CentsCharacterization(a: real)
    ensures HasAtMostTwoDecimals(a) <==> exists k :: FromCents(k) == a
    ensures HasAtMostTwoDecimals(a) ==> FromCents(ToCents(a)) == a
    ensures forall k :: FromCents(k) == a ==> ToCents(a) == k
  {
    forall k | FromCents(k) == a
      ensures ToCents(a) == k
    {
      assert a * 100.0 == k as real;
    }
    if HasAtMostTwoDecimals(a) {
      assert FromCents(ToCents(a)) == a;
    }
  }

  /** Every positive whole number of cents is a valid amount, and converts back exactly. */
  lemma WholeCentsAreValidAmounts(k: int)
    requires k > 0
    ensures ValidateAmount(FromCents(k)) == Pass
    ensures ToCents(FromCents(k)) == k
  {
    CentsCharacterization(FromCents(k));
  }

  /** Every valid amount is a positive whole number of cents. */
  lemma ValidAmountsAreWholeCents(a: real)
    requires ValidateAmount(a) == Pass
    ensures ToCents(a) > 0 && FromCents(ToCents(a)) == a
  {
    CentsCharacterization(a);
  }

  // ------------------------------------------------------------------ date

  predicate IsDigit(c: char) {
    '0' <= c <= '9'
  }

  function DigitValue(c: char): (n: nat)
    requires IsDigit(c)
    ensures n < 10
  {
    c as int - '0' as int
  }

  function DigitChar(n: nat): (c: char)
    requires n < 10
    ensures IsDigit(c) && DigitValue(c) == n
  {
    ('0' as int + n) as char
  }

  /** The shape `^\d{4}-\d{2}-\d{2}$`. */
  predicate MatchesIsoPattern(s: string) {
    && |s| == 10
    && s[4] == '-' && s[7] == '-'
    && forall i :: 0 <= i < 10 && i != 4 && i != 7 ==> IsDigit(s[i])
  }

  function YearOf(s: string): nat
    requires MatchesIsoPattern(s)
  {
    1000 * DigitValue(s[0]) + 100 * DigitValue(s[1]) + 10 * DigitValue(s[2]) + DigitValue(s[3])
  }

  function MonthOf(s: string): nat
    requires MatchesIsoPattern(s)
  {
    10 * DigitValue(s[5]) + DigitValue(s[6])
  }

  function DayOf(s: string): nat
    requires MatchesIsoPattern(s)
  {
    10 * DigitValue(s[8]) + DigitValue(s[9])
  }

  predicate IsLeapYear(y: int) {
    y % 4 == 0 && (y % 100 != 0 || y % 400 == 0)
  }

  function DaysInMonth(year: int, month: int): (n: int)
    requires 1 <= month <= 12
    ensures 28 <= n <= 31
    ensures n == 29 <==> month == 2 && IsLeapYear(year)
  {
    if month == 2 then (if IsLeapYear(year) then 29 else 28)
    else if month == 4 || month == 6 || month == 9 || month == 11 then 30
    else 31
  }

  /** A real day of the (proleptic Gregorian) calendar. */
  predicate ValidDate(d: Date) {
    1 <= d.month <= 12 && 1 <= d.day <= DaysInMonth(d.year, d.month)
  }

  /** A valid date whose year has four digits, so that it can be written as YYYY-MM-DD. */
  predicate IsoDate(d: Date) {
    ValidDate(d) && 0 <= d.year <= 9999
  }

  /** Writes `d` as YYYY-MM-DD. */
  function FormatIsoDate(d: Date): (s: string)
    requires IsoDate(d)
    ensures MatchesIsoPattern(s)
  {
    [ DigitChar(d.year / 1000), DigitChar(d.year / 100 % 10), DigitChar(d.year / 10 % 10), DigitChar(d.year % 10),
      '-', DigitChar(d.month / 10), DigitChar(d.month % 10),
      '-', DigitChar(d.day / 10), DigitChar(d.day % 10) ]
  }

  /** A date must match YYYY-MM-DD and name a real calendar day. */
  function ValidateDate(s: string): (r: Result<Date>)
    ensures r.Success? ==> IsoDate(r.value) && FormatIsoDate(r.value) == s
    ensures r.Failure? ==> r.error.ValidationError? && r.error.field == DateField
    ensures r.Failure? ==> (r.error.reason == NotIsoFormat <==> !MatchesIsoPattern(s))
  {
    if !MatchesIsoPattern(s) then Failure(ValidationError(DateField, NotIsoFormat))
    else
      var d := Date(YearOf(s), MonthOf(s), DayOf(s));
      if ValidDate(d) then FormatInvertsParse(s); Success(d)
      else Failure(ValidationError(DateField, NotACalendarDate))
  }

  /** Reading the digits of a YYYY-MM-DD string and writing them back gives the string. */
  lemma FormatInvertsParse(s: string)
    requires MatchesIsoPattern(s)
    requires ValidDate(Date(YearOf(s), MonthOf(s), DayOf(s)))
    ensures FormatIsoDate(Date(YearOf(s), MonthOf(s), DayOf(s))) == s
  {
    var y, m, d := YearOf(s), MonthOf(s), DayOf(s);
    FourDigits(DigitValue(s[0]), DigitValue(s[1]), DigitValue(s[2]), DigitValue(s[3]));
    TwoDigits(DigitValue(s[5]), DigitValue(s[6]));
    TwoDigits(DigitValue(s[8]), DigitValue(s[9]));
    var t := FormatIsoDate(Date(y, m, d));
    forall i | 0 <= i < 10
      ensures t[i] == s[i]
    {
      if i != 4 && i != 7 {
        DigitRoundTrip(s[i]);
      }
    }
  }

  lemma FourDigits(a: nat, b: nat, c: nat, e: nat)
    requires a < 10 && b < 10 && c < 10 && e < 10
    ensures var y := 1000 * a + 100 * b + 10 * c + e;
      y / 1000 == a && y / 100 % 10 == b && y / 10 % 10 == c && y % 10 == e
  {
    var y := 1000 * a + 100 * b + 10 * c + e;
    assert y / 100 == 10 * a + b;
    assert y / 10 == 100 * a + 10 * b + c;
  }

  lemma TwoDigits(a: nat, b: nat)
    requires a < 10 && b < 10
    ensures (10 * a + b) / 10 == a && (10 * a + b) % 10 == b
  {
  }

  lemma DigitRoundTrip(c: char)
    requires IsDigit(c)
    ensures DigitChar(DigitValue(c)) == c
  {
  }

  /** Every four-digit-year calendar date, written as YYYY-MM-DD, validates back to itself. */
  lemma FormattedDatesValidate(d: Date)
    requires IsoDate(d)
    ensures ValidateDate(FormatIsoDate(d)) == Success(d)
  {
    var s := FormatIsoDate(d);
    assert YearOf(s) == d.year by {
      SplitFourDigits(d.year);
    }
    assert MonthOf(s) == d.month by {
      SplitTwoDigits(d.month);
    }
    assert DayOf(s) == d.day by {
      SplitTwoDigits(d.day);
    }
  }

  lemma SplitFourDigits(y: int)
    requires 0 <= y <= 9999
    ensures 1000 * (y / 1000) + 100 * (y / 100 % 10) + 10 * (y / 10 % 10) + y % 10 == y
  {
    assert y / 100 == 10 * (y / 1000) + y / 100 % 10;
    assert y / 10 == 10 * (y / 100) + y / 10 % 10;
  }

  lemma SplitTwoDigits(n: int)
    requires 0 <= n <= 99
    ensures 10 * (n / 10) + n % 10 == n
  {
  }

  // ----------------------------------------------------------- description

  const MaxDescriptionLength := 200

  /** The characters String.prototype.trim removes: white space and line terminators. */
  predicate IsWhiteSpace(c: char) {
    var n := c as int;
    || n == 0x09 || n == 0x0A || n == 0x0B || n == 0x0C || n == 0x0D || n == 0x20
    || n == 0xA0 || n == 0x1680 || (0x2000 <= n <= 0x200A)
    || n == 0x2028 || n == 0x2029 || n == 0x202F || n == 0x205F || n == 0x3000 || n == 0xFEFF
  }

  predicate IsBlank(s: string) {
    forall i :: 0 <= i < |s| ==> IsWhiteSpace(s[i])
  }

  function TrimStart(s: string): (r: string)
    ensures exists i :: 0 <= i <= |s| && r == s[i..]
    ensures r == [] <==> IsBlank(s)
    ensures r != [] ==> !IsWhiteSpace(r[0])
  {
    if s != [] && IsWhiteSpace(s[0]) then
      var r := TrimStart(s[1..]);
      assert forall i :: 0 <= i <= |s[1..]| ==> s[1..][i..] == s[i + 1..];
      r
    else
      assert s == s[0..];
      s
  }

  function TrimEnd(s: string): (r: string)
    ensures exists j :: 0 <= j <= |s| && r == s[..j]
    ensures r == [] <==> IsBlank(s)
    ensures r != [] ==> !IsWhiteSpace(r[|r| - 1])
  {
    if s != [] && IsWhiteSpace(s[|s| - 1]) then
      var r := TrimEnd(s[..|s| - 1]);
      assert exists j :: 0 <= j <= |s| && r == s[..j] by {
        var j :| 0 <= j <= |s| - 1 && r == s[..|s| - 1][..j];
        assert r == s[..j];
      }
      r
    else
      assert s == s[..|s|];
      s
  }

  /** `s` without its leading and trailing white space. */
  function Trim(s: string): (r: string)
    ensures r == [] <==> IsBlank(s)
    ensures r != [] ==> !IsWhiteSpace(r[0]) && !IsWhiteSpace(r[|r| - 1])
  {
    var t := TrimStart(s);
    var r := TrimEnd(t);
    assert r != [] ==> !IsWhiteSpace(r[0]) by {
      if r != [] {
        var j :| 0 <= j <= |t| && r == t[..j];
        assert r[0] == t[0];
      }
    }
    r
  }

  /** A description must be non-empty after trimming and at most 200 characters long. */
  function ValidateDescription(s: string): (r: Outcome)
    ensures r == Pass <==> !IsBlank(s) && |s| <= MaxDescriptionLength
    ensures r == Fail(ValidationError(DescriptionField, Blank)) <==> IsBlank(s)
    ensures r.Fail? ==> r.error.ValidationError? && r.error.field == DescriptionField
  {
    if |Trim(s)| == 0 then Fail(ValidationError(DescriptionField, Blank))
    else if |s| > MaxDescriptionLength then Fail(ValidationError(DescriptionField, TooLong))
    else Pass
  }

  // -------------------------------------------------------------- category

  /** The string value of each enumeration member. */
  function CategoryName(c: Category): string {
    match c
    case Salary => "Salary"
    case Freelance => "Freelance"
    case Investment => "Investment"
    case Business => "Business"
    case Rental => "Rental"
    case Gift => "Gift"
    case Refund => "Refund"
    case Bonus => "Bonus"
    case Other => "Other"
  }

  /** A category must be the string value of one of the nine enumeration members. */
  function ValidateCategory(s: string): (r: Result<Category>)
    ensures r.Success? ==> CategoryName(r.value) == s
    ensures r.Failure? ==> r.error == ValidationError(CategoryField, UnknownCategory)
  {
    if s == "Salary" then Success(Salary)
    else if s == "Freelance" then Success(Freelance)
    else if s == "Investment" then Success(Investment)
    else if s == "Business" then Success(Business)
    else if s == "Rental" then Success(Rental)
    else if s == "Gift" then Success(Gift)
    else if s == "Refund" then Success(Refund)
    else if s == "Bonus" then Success(Bonus)
    else if s == "Other" then Success(Other)
    else Failure(ValidationError(CategoryField, UnknownCategory))
  }

  /** Every member's name is accepted, and names that member; so a string fails exactly when it names no member. */
  lemma CategoryNamesValidate(c: Category)
    ensures ValidateCategory(CategoryName(c)) == Success(c)
  {
  }

  // ----------------------------------------------------------- whole entry

  /**
   * The four checks in the order the source runs them; the first that fails
   * decides the error. On success, the parsed date and category.
   */
  function ValidateIncomeEntry(d: EntryDraft): (r: Result<(Date, Category)>)
    ensures r.Success? <==>
      && ValidateAmount(d.amount) == Pass
      && ValidateDate(d.date).Success?
      && ValidateDescription(d.description) == Pass
      && ValidateCategory(d.category).Success?
    ensures r.Success? ==> r.value == (ValidateDate(d.date).value, ValidateCategory(d.category).value)
    ensures ValidateAmount(d.amount).Fail? ==> r == Failure(ValidateAmount(d.amount).error)
    ensures r.Failure? ==> r.error.ValidationError?
  {
    match ValidateAmount(d.amount)
    case Fail(e) => Failure(e)
    case Pass =>
      match ValidateDate(d.date)
      case Failure(e) => Failure(e)
      case Success(date) =>
        match ValidateDescription(d.description)
        case Fail(e) => Failure(e)
        case Pass =>
          match ValidateCategory(d.category)
          case Failure(e) => Failure(e)
          case Success(c) => Success((date, c))
  }

  /**
   * The checks of a partial update: each supplied field is validated, in the
   * order amount, date, description, category; absent fields are not looked at.
   * On success, the parsed date and category of the supplied fields.
   */
  function ValidateUpdate(u: EntryUpdate): (r: Result<(Option<Date>, Option<Category>)>)
    ensures r.Success? <==>
      && (u.amount.Some? ==> ValidateAmount(u.amount.value) == Pass)
      && (u.date.Some? ==> ValidateDate(u.date.value).Success?)
      && (u.description.Some? ==> ValidateDescription(u.description.value) == Pass)
      && (u.category.Some? ==> ValidateCategory(u.category.value).Success?)
    ensures r.Success? ==>
      && (r.value.0.Some? <==> u.date.Some?)
      && (u.date.Some? ==> r.value.0.value == ValidateDate(u.date.value).value)
      && (r.value.1.Some? <==> u.category.Some?)
      && (u.category.Some? ==> r.value.1.value == ValidateCategory(u.category.value).value)
    ensures r.Failure? ==> r.error.ValidationError?
  {
    if u.amount.Some? && ValidateAmount(u.amount.value).Fail? then Failure(ValidateAmount(u.amount.value).error)
    else if u.date.Some? && ValidateDate(u.date.value).Failure? then Failure(ValidateDate(u.date.value).error)
    else if u.description.Some? && ValidateDescription(u.description.value).Fail? then
      Failure(ValidateDescription(u.description.value).error)
    else if u.category.Some? && ValidateCategory(u.category.value).Failure? then
      Failure(ValidateCategory(u.category.value).error)
    else
      var date := if u.date.Some? then Some(ValidateDate(u.date.value).value) else None;
      var category := if u.category.Some? then Some(ValidateCategory(u.category.value).value) else None;
      Success((date, category))
  }

  /** What every stored entry satisfies: it passed the validators when it was written. */
  predicate ValidEntry(e: Entry) {
    && ValidateAmount(e.amount) == Pass
    && IsoDate(e.date)
    && ValidateDescription(e.description) == Pass
  }
}
