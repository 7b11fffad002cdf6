/**
  The write side of ExpenseService: creating, updating and deleting
  expenses in the store its repository keeps. The store is the sequence of
  saved rows; the id the database generates for a new row is a parameter.
 */
module ExpenseWrites {
  import opened Dates
  import opened ExpenseModel

  datatype ServiceError =
    | NotFound(id: int)       // "Expense not found with id ..."
    | ConstraintViolation     // the entity breaks a bean-validation constraint when it is saved

  datatype Result<T> = Ok(value: T) | Err(error: ServiceError)

  /** The id is the primary key: no two rows share one. */
  predicate UniqueIds(rows: seq<ExpenseRow>) {
    forall i, j :: 0 <= i < j < |rows| ==> rows[i].id != rows[j].id
  }

  /** The position of the first row with this id, or -1 when there is none. */
  function IndexOfId(rows: seq<ExpenseRow>, id: int): (k: int)
    ensures -1 <= k < |rows|
    ensures k == -1 <==> forall i :: 0 <= i < |rows| ==> rows[i].id != id
    ensures k >= 0 ==> rows[k].id == id && forall i :: 0 <= i < k ==> rows[i].id != id
  {
    if rows == [] then -1
    else if rows[0].id == id then 0
    else
      var k := IndexOfId(rows[1..], id);
      if k == -1 then -1 else k + 1
  }

  /** getExpenseById: the row with this id, if the store has one. */
  function FindById(rows: seq<ExpenseRow>, id: int): (r: Option<ExpenseRow>)
    ensures r.None? <==> forall i :: 0 <= i < |rows| ==> rows[i].id != id
    ensures r.Some? ==> r.value in rows && r.value.id == id
  {
    var k := IndexOfId(rows, id);
    if k < 0 then None else Some(rows[k])
  }

  /** With unique ids, the row found for an id is the one row that has it. */
  lemma FindByIdUnique(rows: seq<ExpenseRow>, i: int)
    requires UniqueIds(rows) && 0 <= i < |rows|
    ensures IndexOfId(rows, rows[i].id) == i
    ensures FindById(rows, rows[i].id) == Some(rows[i])
  {
  }

  class ExpenseService {
    /** The rows the repository holds, in insertion order. */
    var rows: seq<ExpenseRow>

    ghost predicate Valid()
      reads this
    {
      UniqueIds(rows) && forall i :: 0 <= i < |rows| ==> ValidRow(rows[i])
    }

    /** A service over a repository that already holds these rows. */
    constructor (initial: seq<ExpenseRow>)
      requires UniqueIds(initial) && forall i :: 0 <= i < |initial| ==> ValidRow(initial[i])
      ensures Valid() && rows == initial
    {
      rows := initial;
    }

    /**
      createExpense: saving a new entity runs prePersist, checks the
      constraints and inserts the row under the generated id.
     */
    method CreateExpense(expense: Expense, freshId: int, today: LocalDate) returns (r: Result<Expense>)
      requires Valid()
      requires forall i :: 0 <= i < |rows| ==> rows[i].id != freshId
      modifies this, expense
      ensures Valid()
      ensures var persisted := PrePersisted(old(expense.State()), today);
        if SatisfiesConstraints(persisted) then
          && r == Ok(expense)
          && expense.State() == persisted.(id := Some(freshId))
          && rows == old(rows) + [RowOf(persisted.(id := Some(freshId)))]
        else
          && r == Err(ConstraintViolation)
          && expense.State() == persisted
          && rows == old(rows)
    {
      expense.PrePersist(today);
      if !SatisfiesConstraints(expense.State()) {
        return Err(ConstraintViolation);
      }
      expense.SetId(Some(freshId));
      rows := rows + [RowOf(expense.State())];
      r := Ok(expense);
    }

    /**
      updateExpense: load the stored entity, copy description, amount,
      category, date and payment method onto it and save it back; id and
      createdAt stay as they were. An unknown id fails and nothing changes.
     */
    method UpdateExpense(id: int, updated: Expense) returns (r: Result<Expense>)
      requires Valid()
      modifies this
      ensures Valid()
      ensures FindById(old(rows), id).None? ==> r == Err(NotFound(id)) && rows == old(rows)
      ensures FindById(old(rows), id).Some? ==>
        var existing := FindById(old(rows), id).value;
        var u := updated.State();
        var s := StateOf(existing).(description := u.description, amount := u.amount, category := u.category,
                                    date := u.date, paymentMethod := u.paymentMethod);
        if SatisfiesConstraints(s) then
          && r.Ok? && fresh(r.value)
          && r.value.State() == s
          && r.value.id == Some(id) && r.value.createdAt == Some(existing.createdAt)
          && rows == old(rows)[IndexOfId(old(rows), id) := RowOf(s)]
          && FindById(rows, id) == Some(RowOf(s))
        else
          r == Err(ConstraintViolation) && rows == old(rows)
    {
      var found := FindById(rows, id);
      if found.None? {
        return Err(NotFound(id));
      }
      var existing := new Expense.Load(found.value);
      existing.SetDescription(updated.description);
      existing.SetAmount(updated.amount);
      existing.SetCategory(updated.category);
      existing.SetDate(updated.date);
      existing.SetPaymentMethod(updated.paymentMethod);
      if !SatisfiesConstraints(existing.State()) {
        return Err(ConstraintViolation);
      }
      var k := IndexOfId(rows, id);
      ghost var before := rows;
      rows := rows[k := RowOf(existing.State())];
      forall i | 0 <= i < |rows| ensures ValidRow(rows[i]) {
        if i != k {
          assert rows[i] == before[i];
        }
      }
      FindByIdUnique(rows, k);
      r := Ok(existing);
    }

    /** deleteExpense: remove the row with this id; an unknown id changes nothing. */
    method DeleteExpense(id: int)
      requires Valid()
      modifies this
      ensures Valid()
      ensures FindById(rows, id).None?
      ensures var k := IndexOfId(old(rows), id);
        rows == if k < 0 then old(rows) else old(rows)[..k] + old(rows)[k + 1..]
    {
      var k := IndexOfId(rows, id);
      if k >= 0 {
        ghost var before := rows;
        rows := rows[..k] + rows[k + 1..];
        forall i | 0 <= i < |rows| ensures rows[i].id != id && ValidRow(rows[i]) {
          if i < k {
            assert rows[i] == before[i];
          } else {
            assert rows[i] == before[i + 1];
          }
        }
      }
    }
  }
}
