/**
  The Expense entity: a mutable record whose fields may be null until they
  are set, with the JPA pre-persist hook that defaults its dates, and the
  validated row that the store keeps once the entity is saved.
 */
module ExpenseModel {
  import opened Dates

  datatype Option<T> = None | Some(value: T)

  /** Amounts are BigDecimal values of scale 2 (the amount column), held as whole cents. */
  type Cents = int

  /** Character.isWhitespace. */
  predicate IsWhitespace(c: char) {
    || c == ' ' || c == '\t' || c == '\n' || c == '\U{000B}' || c == '\U{000C}' || c == '\r'
    || '\U{001C}' <= c <= '\U{001F}'
    || c == '\U{1680}' || '\U{2000}' <= c <= '\U{2006}' || '\U{2008}' <= c <= '\U{200A}'
    || c == '\U{2028}' || c == '\U{2029}' || c == '\U{205F}' || c == '\U{3000}'
  }

  /** The number of leading characters of s that p accepts. */
  function LeadingCount(s: string, p: char -> bool): (k: nat)
    ensures k <= |s|
    ensures forall i :: 0 <= i < k ==> p(s[i])
    ensures k < |s| ==> !p(s[k])
  {
    if s == [] || !p(s[0]) then 0 else 1 + LeadingCount(s[1..], p)
  }

  /** The number of trailing characters of s that p accepts. */
  function TrailingCount(s: string, p: char -> bool): (k: nat)
    ensures k <= |s|
    ensures forall i :: |s| - k <= i < |s| ==> p(s[i])
    ensures k < |s| ==> !p(s[|s| - 1 - k])
  {
    if s == [] || !p(s[|s| - 1]) then 0 else 1 + TrailingCount(s[..|s| - 1], p)
  }

  /** String.isBlank: the first non-white-space index is the length. */
  function IsBlank(s: string): (b: bool)
    ensures b <==> forall i :: 0 <= i < |s| ==> IsWhitespace(s[i])
  {
    LeadingCount(s, IsWhitespace) == |s|
  }

  /** The characters String.trim removes: U+0000 up to the space. */
  predicate AtMostSpace(c: char) {
    c <= ' '
  }

  /** String.trim: s without its leading and trailing characters at or below U+0020. */
  function Trim(s: string): (t: string)
    ensures |t| <= |s|
    ensures t == [] <==> forall i :: 0 <= i < |s| ==> s[i] <= ' '
    ensures t != [] ==> t[0] > ' ' && t[|t| - 1] > ' '
    ensures exists i, j :: && 0 <= i <= j <= |s| && t == s[i..j]
                           && (forall k :: 0 <= k < i ==> s[k] <= ' ')
                           && (forall k :: j <= k < |s| ==> s[k] <= ' ')
  {
    var i := LeadingCount(s, AtMostSpace);
    var rest := s[i..];
    var n := TrailingCount(rest, AtMostSpace);
    var j := i + |rest| - n;
    var t := rest[..|rest| - n];
    assert t == s[i..j];
    assert i < |s| ==> !AtMostSpace(s[i]);
    assert n < |rest| ==> !AtMostSpace(rest[|rest| - 1 - n]);
    assert t != [] ==> n < |rest| && t[0] == rest[0] && t[|t| - 1] == rest[|rest| - 1 - n];
    assert forall k :: j <= k < |s| ==> s[k] <= ' ' by {
      forall k | j <= k < |s| ensures s[k] <= ' ' {
        assert s[k] == rest[k - i];
      }
    }
    assert t == [] ==> j == i;
    t
  }

  /** A non-null string passes @NotBlank: some character of it lies above U+0020. */
  predicate NotBlank(s: string) {
    exists i :: 0 <= i < |s| && s[i] > ' '
  }

  /** @NotBlank's own test, trim().length() > 0, accepts exactly the NotBlank strings. */
  lemma NotBlankIsTrimTest(s: string)
    ensures NotBlank(s) <==> |Trim(s)| > 0
  {
    if NotBlank(s) {
      var i :| 0 <= i < |s| && s[i] > ' ';
      assert Trim(s) != [];
    }
  }

  /**
    The two notions of blank differ: an ideographic space is white space
    but survives trim, and a NUL is trimmed but is not white space.
   */
  lemma BlankNotionsDiffer()
    ensures IsBlank("\U{3000}") && NotBlank("\U{3000}")
    ensures !IsBlank("\U{0000}") && !NotBlank("\U{0000}")
  {
    assert "\U{3000}"[0] > ' ';
    assert !IsWhitespace("\U{0000}"[0]);
  }

  /** The amount constraint: strictly greater than 0.0. */
  predicate ValidAmount(amount: Cents) {
    amount > 0
  }

  /** The fields of an Expense object; a null field is None. */
  datatype ExpenseState = ExpenseState(
    id: Option<int>,
    description: Option<string>,
    amount: Option<Cents>,
    category: Option<string>,
    date: Option<LocalDate>,
    paymentMethod: Option<string>,
    createdAt: Option<LocalDate>)

  /**
    The bean-validation constraints declared on Expense's fields: description
    and category non-null and not blank, amount non-null and above zero, date
    non-null. Id, payment method and creation date are unconstrained.
   */
  predicate SatisfiesConstraints(s: ExpenseState) {
    && s.description.Some? && NotBlank(s.description.value)
    && s.amount.Some? && ValidAmount(s.amount.value)
    && s.category.Some? && NotBlank(s.category.value)
    && s.date.Some?
  }

  /** The constraints are exactly the validator's checks: trim().length() > 0, non-null, above 0.0. */
  lemma ConstraintsAreValidatorChecks(s: ExpenseState)
    ensures SatisfiesConstraints(s) <==>
      && s.description.Some? && |Trim(s.description.value)| > 0
      && s.amount.Some? && s.amount.value > 0
      && s.category.Some? && |Trim(s.category.value)| > 0
      && s.date.Some?
  {
    if s.description.Some? {
      NotBlankIsTrimTest(s.description.value);
    }
    if s.category.Some? {
      NotBlankIsTrimTest(s.category.value);
    }
  }

  /** A saved expense: it has an id, its constraints hold and its creation date is set. */
  datatype ExpenseRow = ExpenseRow(
    id: int,
    description: string,
    amount: Cents,
    category: string,
    date: LocalDate,
    paymentMethod: Option<string>,
    createdAt: LocalDate)

  predicate ValidRow(r: ExpenseRow) {
    NotBlank(r.description) && ValidAmount(r.amount) && NotBlank(r.category)
  }

  /** The entity the persistence layer hands out for a stored row. */
  function StateOf(r: ExpenseRow): (s: ExpenseState)
    ensures s.id.Some? && s.createdAt.Some?
    ensures ValidRow(r) <==> SatisfiesConstraints(s)
  {
    ExpenseState(Some(r.id), Some(r.description), Some(r.amount), Some(r.category),
                 Some(r.date), r.paymentMethod, Some(r.createdAt))
  }

  /** The row the persistence layer writes for a saved entity. */
  function RowOf(s: ExpenseState): (r: ExpenseRow)
    requires s.id.Some? && s.createdAt.Some? && SatisfiesConstraints(s)
    ensures ValidRow(r) && StateOf(r) == s
  {
    ExpenseRow(s.id.value, s.description.value, s.amount.value, s.category.value,
               s.date.value, s.paymentMethod, s.createdAt.value)
  }

  lemma RowRoundTrip(r: ExpenseRow)
    requires ValidRow(r)
    ensures RowOf(StateOf(r)) == r
  {
  }

  /** What prePersist leaves behind: each of the two dates defaulted to today only where it was null. */
  function PrePersisted(s: ExpenseState, today: LocalDate): (t: ExpenseState)
    ensures t.createdAt.Some? && t.date.Some?
    ensures s.createdAt.Some? ==> t.createdAt == s.createdAt
    ensures s.createdAt.None? ==> t.createdAt == Some(today)
    ensures s.date.Some? ==> t.date == s.date
    ensures s.date.None? ==> t.date == Some(today)
    ensures t.(createdAt := s.createdAt, date := s.date) == s
  {
    var createdAt := if s.createdAt.None? then Some(today) else s.createdAt;
    var date := if s.date.None? then Some(today) else s.date;
    s.(createdAt := createdAt, date := date)
  }

  /** A second prePersist, on any day, changes nothing. */
  lemma PrePersistIdempotent(s: ExpenseState, today: LocalDate, later: LocalDate)
    ensures PrePersisted(PrePersisted(s, today), later) == PrePersisted(s, today)
  {
  }

  class Expense {
    var id: Option<int>
    var description: Option<string>
    var amount: Option<Cents>
    var category: Option<string>
    var date: Option<LocalDate>
    var paymentMethod: Option<string>
    var createdAt: Option<LocalDate>

    function State(): ExpenseState
      reads this
    {
      ExpenseState(id, description, amount, category, date, paymentMethod, createdAt)
    }

    /** The default constructor: every field null. */
    constructor ()
      ensures State() == ExpenseState(None, None, None, None, None, None, None)
    {
      id, description, amount, category := None, None, None, None;
      date, paymentMethod, createdAt := None, None, None;
    }

    /** The managed entity the persistence layer loads for a stored row. */
    constructor Load(r: ExpenseRow)
      ensures State() == StateOf(r)
    {
      id, description, amount, category := Some(r.id), Some(r.description), Some(r.amount), Some(r.category);
      date, paymentMethod, createdAt := Some(r.date), r.paymentMethod, Some(r.createdAt);
    }

    method PrePersist(today: LocalDate)
      modifies this
      ensures State() == PrePersisted(old(State()), today)
    {
      if createdAt == None {
        createdAt := Some(today);
      }
      if date == None {
        date := Some(today);
      }
    }

    method SetId(v: Option<int>)
      modifies this
      ensures State() == old(State()).(id := v)
    {
      id := v;
    }

    method SetDescription(v: Option<string>)
      modifies this
      ensures State() == old(State()).(description := v)
    {
      description := v;
    }

    method SetAmount(v: Option<Cents>)
      modifies this
      ensures State() == old(State()).(amount := v)
    {
      amount := v;
    }

    method SetCategory(v: Option<string>)
      modifies this
      ensures State() == old(State()).(category := v)
    {
      category := v;
    }

    method SetDate(v: Option<LocalDate>)
      modifies this
      ensures State() == old(State()).(date := v)
    {
      date := v;
    }

    method SetPaymentMethod(v: Option<string>)
      modifies this
      ensures State() == old(State()).(paymentMethod := v)
    {
      paymentMethod := v;
    }

    method SetCreatedAt(v: Option<LocalDate>)
      modifies this
      ensures State() == old(State()).(createdAt := v)
    {
      createdAt := v;
    }
  }
}
