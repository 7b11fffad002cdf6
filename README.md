# Expense tracker core in Dafny

A model of the core of a Spring Boot expense tracker: the `Expense` entity and the `ExpenseService` that lists, summarises, creates, updates and deletes expenses.

The model has five modules, one per file:

- `Dates` (`dates.dfy`) models `java.time.LocalDate`.
  - Dates are valid proleptic Gregorian dates, ordered field by field.
  - `toEpochDay` gives the same values as java.time, though it is computed from a month table and leap-year counts rather than java.time's formula.
  - `DAYS.between` is a difference of epoch days.
  - `withDayOfMonth(1)` gives the first day of the month, and `plusDays(1)` the next day.
- `Money` (`money.dfy`) models amounts as `BigDecimal`s of scale 2, held as whole cents.
  - `divide(days, 2, HALF_UP)` is integer division rounded to the nearest cent.
  - A tie rounds away from zero.
- `ExpenseModel` (`expense.dfy`) models the entity.
  - `Expense` is a class whose fields may be null (`None`), with its default constructor, a `Load` constructor for the entity the persistence layer hands out, its setters and `prePersist`.
  - The bean-validation constraints are a predicate on the entity's state. `@NotBlank` is Hibernate Validator's test `trim().length() > 0`, which is a different notion of blank from `String.isBlank` used by the listing.
  - A saved expense is an `ExpenseRow` whose fields are non-null.
- `ExpenseQueries` (`queries.dfy`) covers the read side of the service.
  - The repository's two derived queries are order-preserving filters of the store.
  - `getAllExpenses` and `getAnalytics` are functions of the stored rows. `getAnalytics` takes "today" as a parameter.
- `ExpenseWrites` (`service.dfy`) covers the write side of the service.
  - The `ExpenseService` class holds the repository's rows as a sequence.
  - `createExpense`, `updateExpense` and `deleteExpense` are methods that change that sequence.
  - Creating runs `prePersist` and then the bean-validation check. Updating runs only the check, so a null date in an update fails instead of defaulting to today.
  - The database-generated id and "today" are parameters.

## Model

| member | source | states |
|---|---|---|
| Dates.FirstOfMonth | src/main/java/com/example/expensetracker/service/ExpenseService.java:62-64 | The default start bound is day 1 of today's year and month. It is not after today and lies `day - 1` days before it. |
| Dates.EpochDayIncreasing | src/main/java/com/example/expensetracker/service/ExpenseService.java:81 | The field-by-field order of dates agrees with the order of their epoch days, so `DAYS.between` of an ordered pair is positive. |
| Dates.DaysBetween | src/main/java/com/example/expensetracker/service/ExpenseService.java:81 | `DAYS.between(a, b)` is non-negative exactly when `a` is not after `b`, and zero exactly when `a == b`. |
| Dates.NextDay | src/main/java/com/example/expensetracker/service/ExpenseService.java:81 | `plusDays(1)` is the next calendar day, strictly after `d`. |
| Dates.EpochDayNext | src/main/java/com/example/expensetracker/service/ExpenseService.java:81 | Consecutive calendar days are consecutive epoch days, so `DAYS.between(d, d.plusDays(1))` is 1 and `DAYS.between` counts whole days. |
| Dates.EpochOrigin | src/main/java/com/example/expensetracker/service/ExpenseService.java:81 | Day 0 of `toEpochDay` is 1970-01-01, and the day before it is day -1. |
| Dates.EpochDaySamples | src/main/java/com/example/expensetracker/service/ExpenseService.java:81 | `toEpochDay` gives 11017 for 2000-03-01 (after a leap day of a year divisible by 400) and 19723 for 2024-01-01, as java.time does. |
| Dates.EpochDayOfYearZero | src/main/java/com/example/expensetracker/service/ExpenseService.java:81 | Proleptic year 0 starts on epoch day -719528, as java.time has it. |
| Dates.EpochDayOfYearMinusOne | src/main/java/com/example/expensetracker/service/ExpenseService.java:81 | Proleptic year -1 starts 365 days earlier, on epoch day -719893, because it is not a leap year. |
| Money.DivideHalfUp | src/main/java/com/example/expensetracker/service/ExpenseService.java:85-87 | The quotient is the nearest whole cent to `n / d`, with ties rounded away from zero; for `n >= 0` it lies in `[0, n]`. |
| Money.DivideHalfUpUnique | src/main/java/com/example/expensetracker/service/ExpenseService.java:87 | Any whole number satisfying the HALF_UP rounding bracket equals `DivideHalfUp`, so the bracket defines the rounding. |
| Money.TieRoundsUp | src/main/java/com/example/expensetracker/service/ExpenseService.java:87 | 1.00 over 8 days is 0.125 a day, which rounds to 0.13 and not 0.12. |
| ExpenseModel.StateOf | src/main/java/com/example/expensetracker/model/Expense.java:15-35 | A stored row viewed as an entity has an id and a creation date. The row is valid exactly when the entity meets every field constraint (description and category present with a character above U+0020, amount present and > 0, date present). |
| ExpenseModel.RowOf | src/main/java/com/example/expensetracker/model/Expense.java:15-35 | An entity with an id and a creation date that meets the constraints saves to a valid row, and that row reads back as the same entity. |
| ExpenseModel.RowRoundTrip | src/main/java/com/example/expensetracker/model/Expense.java:15-35 | Reading a valid row as an entity and saving it again gives back the same row. |
| ExpenseModel.IsBlank | src/main/java/com/example/expensetracker/service/ExpenseService.java:31 | `String.isBlank` holds exactly when every character is white space in the sense of `Character.isWhitespace`, so an empty string is blank. |
| ExpenseModel.Trim | src/main/java/com/example/expensetracker/model/Expense.java:19-20 | `String.trim` removes leading and trailing characters at or below U+0020. The result is empty exactly when every character is at or below U+0020; otherwise it starts and ends with a character above U+0020. The result is the slice `s[i..j]` where every character before `i` and from `j` on is at or below U+0020. |
| ExpenseModel.NotBlankIsTrimTest | src/main/java/com/example/expensetracker/model/Expense.java:19-20 | `@NotBlank`'s test `trim().length() > 0` accepts exactly the strings that contain a character above U+0020. |
| ExpenseModel.ConstraintsAreValidatorChecks | src/main/java/com/example/expensetracker/model/Expense.java:18-31 | An entity passes validation exactly when description and category are non-null with a positive trimmed length, amount is non-null and above 0.0, and date is non-null. |
| ExpenseModel.BlankNotionsDiffer | src/main/java/com/example/expensetracker/model/Expense.java:19-28 | The validator's blank and the listing's blank differ: U+3000 is blank to `isBlank` but passes `@NotBlank`, while U+0000 is not blank to `isBlank` but fails `@NotBlank`. |
| ExpenseModel.PrePersisted | src/main/java/com/example/expensetracker/model/Expense.java:41-49 | After `prePersist` both dates are non-null. `createdAt` and `date` each become today only when they were null and keep their value otherwise. No other field changes. |
| ExpenseModel.PrePersistIdempotent | src/main/java/com/example/expensetracker/model/Expense.java:41-49 | A second `prePersist`, on any day, changes nothing. |
| ExpenseModel.Expense.constructor | src/main/java/com/example/expensetracker/model/Expense.java:37-39 | The default constructor leaves every field null. |
| ExpenseModel.Expense.Load | src/main/java/com/example/expensetracker/service/ExpenseService.java:45 | The managed entity loaded for a stored row holds exactly that row's fields. |
| ExpenseModel.Expense.PrePersist | src/main/java/com/example/expensetracker/model/Expense.java:41-49 | The new state of the entity is `PrePersisted` of its old state. |
| ExpenseModel.Expense.SetId | src/main/java/com/example/expensetracker/model/Expense.java:57-59 | Sets `id` and leaves every other field as it was. |
| ExpenseModel.Expense.SetDescription | src/main/java/com/example/expensetracker/model/Expense.java:65-67 | Sets `description` and leaves every other field as it was. |
| ExpenseModel.Expense.SetAmount | src/main/java/com/example/expensetracker/model/Expense.java:73-75 | Sets `amount` and leaves every other field as it was. No check runs at the setter; the `> 0` constraint is enforced when the entity is saved. |
| ExpenseModel.Expense.SetCategory | src/main/java/com/example/expensetracker/model/Expense.java:81-83 | Sets `category` and leaves every other field as it was. |
| ExpenseModel.Expense.SetDate | src/main/java/com/example/expensetracker/model/Expense.java:89-91 | Sets `date` and leaves every other field as it was. |
| ExpenseModel.Expense.SetPaymentMethod | src/main/java/com/example/expensetracker/model/Expense.java:97-99 | Sets `paymentMethod` and leaves every other field as it was. |
| ExpenseModel.Expense.SetCreatedAt | src/main/java/com/example/expensetracker/model/Expense.java:105-107 | Sets `createdAt` and leaves every other field as it was. |
| ExpenseQueries.Filter | src/main/java/com/example/expensetracker/repository/ExpenseRepository.java:11-13 | A derived query returns each row the condition accepts exactly as many times as the store holds it, and no other row. |
| ExpenseQueries.FindByDateBetween | src/main/java/com/example/expensetracker/repository/ExpenseRepository.java:11 | `findByDateBetween` returns each row dated within the inclusive range exactly as often as the store holds it, and no other row. |
| ExpenseQueries.FindByCategoryAndDateBetween | src/main/java/com/example/expensetracker/repository/ExpenseRepository.java:13 | `findByCategoryAndDateBetween` returns each row with exactly that category dated within the inclusive range exactly as often as the store holds it, and no other row. |
| ExpenseQueries.GetAllExpenses | src/main/java/com/example/expensetracker/service/ExpenseService.java:30-38 | With both bounds and a non-blank category, the listing is exactly the rows with that exact category dated within the inclusive range. With both bounds and a null or blank category, it is exactly the rows within the range, whatever their category. With either bound missing, it is the whole store unchanged, so a lone bound and the category have no effect. |
| ExpenseQueries.ReversedRangeSelectsNothing | src/main/java/com/example/expensetracker/repository/ExpenseRepository.java:11 | A range whose start is after its end selects no rows. |
| ExpenseQueries.Total | src/main/java/com/example/expensetracker/service/ExpenseService.java:71-73 | When every amount is above zero, the sum is non-negative, and positive unless the selection is empty. |
| ExpenseQueries.TotalAppend | src/main/java/com/example/expensetracker/service/ExpenseService.java:71-73 | The sum of two concatenated selections is the sum of their sums. |
| ExpenseQueries.TotalPermutation | src/main/java/com/example/expensetracker/service/ExpenseService.java:71-73 | The sum depends only on which rows are summed, not on their order. |
| ExpenseQueries.TotalOfFilter | src/main/java/com/example/expensetracker/service/ExpenseService.java:69-73 | Summing a selection equals summing, over the whole store, the amounts of the rows the condition accepts. |
| ExpenseQueries.FilterFilter | src/main/java/com/example/expensetracker/repository/ExpenseRepository.java:11-13 | Selecting by category within a date selection equals selecting by category and date at once. |
| ExpenseQueries.CategoryPresent | src/main/java/com/example/expensetracker/service/ExpenseService.java:75-77 | A category is among the categories of a selection exactly when some row in the selection has it. |
| ExpenseQueries.MissingCategory | src/main/java/com/example/expensetracker/service/ExpenseService.java:75-77 | A category that occurs in no row selects nothing. |
| ExpenseQueries.CategoryTotals | src/main/java/com/example/expensetracker/service/ExpenseService.java:75-79 | The grouping has one key for each category occurring in the selection, and no other key. |
| ExpenseQueries.CategoryTotalAt | src/main/java/com/example/expensetracker/service/ExpenseService.java:75-79 | The value under a category's key is the sum of that category's rows. |
| ExpenseQueries.MapSumRemove | src/main/java/com/example/expensetracker/service/ExpenseService.java:75-79 | The sum of a map's values may take the keys in any order. |
| ExpenseQueries.MapSumUpdate | src/main/java/com/example/expensetracker/service/ExpenseService.java:78 | Replacing or adding one value changes the sum of the values by the difference. |
| ExpenseQueries.CategoryTotalsSum | src/main/java/com/example/expensetracker/service/ExpenseService.java:71-79 | The per-category sums add up to the total of the selection. |
| ExpenseQueries.CategoryTotalsPositive | src/main/java/com/example/expensetracker/service/ExpenseService.java:75-79 | When every amount is > 0, every category sum is > 0. |
| ExpenseQueries.DayCount | src/main/java/com/example/expensetracker/service/ExpenseService.java:81-84 | The day count is at least 1. It is `DAYS.between + 1` for an ordered range and exactly 1 for a reversed range, so the zero-day branch cannot be taken. |
| ExpenseQueries.RangeCategoryTotals | src/main/java/com/example/expensetracker/service/ExpenseService.java:69-79 | In the grouping of a range selection, the keys are exactly the categories of rows dated within the range. Each value is that category's in-range sum, read off the whole store, and the values add up to the selection's total. |
| ExpenseQueries.GetAnalytics | src/main/java/com/example/expensetracker/service/ExpenseService.java:61-90 | Each missing bound is defaulted on its own: start to the first of today's month, end to today; a supplied bound is kept, and the report carries the bounds used. `totalAmount` is the sum over exactly the rows within those bounds. `categoryTotals` has a key for exactly the categories present there, each holding that category's sum, and the values add up to `totalAmount`. `averageDailySpend` is `totalAmount` over the day count, rounded HALF_UP to the cent. |
| ExpenseQueries.AnalyticsEmpty | src/main/java/com/example/expensetracker/service/ExpenseService.java:69-89 | When no row lies within the range, the total is 0, the category map is empty and the average is 0. |
| ExpenseQueries.AnalyticsNoZeroCategory | src/main/java/com/example/expensetracker/service/ExpenseService.java:75-79 | When every stored amount is > 0, no category total is zero. |
| ExpenseWrites.IndexOfId | src/main/java/com/example/expensetracker/service/ExpenseService.java:45 | Gives the first position holding the id, or -1 exactly when no row has that id. |
| ExpenseWrites.FindById | src/main/java/com/example/expensetracker/service/ExpenseService.java:40-42 | Empty exactly when no stored row has the id; otherwise a stored row with that id. |
| ExpenseWrites.FindByIdUnique | src/main/java/com/example/expensetracker/service/ExpenseService.java:40-42 | With unique ids, looking up a row's id finds that row at its own position. |
| ExpenseWrites.ExpenseService.constructor | src/main/java/com/example/expensetracker/service/ExpenseService.java:22-24 | A service over a repository that already holds rows with unique ids, each satisfying the constraints, starts with exactly those rows and keeps its invariant. |
| ExpenseWrites.ExpenseService.CreateExpense | src/main/java/com/example/expensetracker/service/ExpenseService.java:26-28 | Saving runs `prePersist`. If the result meets the constraints, the entity gets the fresh id, its row is appended and the saved entity is returned. Otherwise the save fails and the store is unchanged. Unique ids and valid rows are kept either way. |
| ExpenseWrites.ExpenseService.UpdateExpense | src/main/java/com/example/expensetracker/service/ExpenseService.java:44-55 | An unknown id fails with "not found" and the store is unchanged. Otherwise description, amount, category, date and paymentMethod are copied onto the stored entity, and `id` and `createdAt` are kept. If the result is valid, the row at the same position is replaced and the fresh managed entity is returned; otherwise the save fails and the store is unchanged. |
| ExpenseWrites.ExpenseService.DeleteExpense | src/main/java/com/example/expensetracker/service/ExpenseService.java:57-59 | Removes the row with the id and keeps every other row in order. An unknown id changes nothing. Afterwards no row has the id, and unique ids and valid rows are kept. |

## Left out

- The JPA repository, Hibernate and the database are reduced to a sequence of rows. Transactions, `@Transactional` rollback and concurrency are not modelled.
- `LocalDate.now()` is not modelled: "today" is a parameter of `GetAnalytics` and `CreateExpense`.
- `ExpenseQueries.GetAnalytics` and `ExpenseModel.Expense.PrePersist` read the clock once. The source reads it separately for each defaulted bound and for each defaulted field, so a call that crosses midnight is not covered: for example, a start defaulted to January 1 with an end defaulted to February 1.
- IDENTITY id generation is not modelled. The caller supplies an id that no row holds yet.
- `ExpenseWrites.ExpenseService.CreateExpense`: an entity that already carries an id is always inserted as a new row under the fresh id. Spring's `save` would merge it into the existing row instead.
- `ExpenseWrites.ExpenseService.DeleteExpense`: an unknown id is a no-op, as in Spring Data 3's `deleteById`. Older versions threw `EmptyResultDataAccessException`.
- `ExpenseWrites.ExpenseService.UpdateExpense`: the `RuntimeException` is modelled as the `NotFound` error value. A failed validation is the `ConstraintViolation` value; the real system raises an exception and rolls the transaction back.
- The validation messages and the full validator machinery are left out. Only the declared constraints are modelled: `@NotBlank` (as Hibernate Validator's `trim().length() > 0`), `@NotNull` and `@DecimalMin("0.0", exclusive)`.
- The amount column's `precision 15` is left out. Amounts are unbounded whole cents; amounts with more than two decimals, and the rounding the database applies to them, are not modelled.
- Scale is left out. `BigDecimal` results are modelled by value: a zero total from an empty selection has scale 0 in Java and is the value 0 here.
- Categories are compared as exact character sequences. The database's collation, which could make the derived query case-insensitive, is not modelled.
- Years are unbounded. `LocalDate`'s year range of ±999,999,999 is not enforced.
- `ExpenseQueries.GetAnalytics`: `groupingBy` would throw on a null category. That cannot occur here because stored rows hold validated, non-null categories.
- The sum of the values of the `categoryTotals` map (`MapSum`) is ghost. It exists only to state that the category totals add up to the total.
- `ExpenseController.java` is not part of this model. It does HTTP routing and parameter binding only.
- `app.js` is not part of this model. It is the browser UI, with floating-point presentation code.
- `ExpenseAnalytics.java` is a plain data carrier. It is modelled by the `ExpenseAnalytics` datatype only.
