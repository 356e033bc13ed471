# Expense tracker: the store behind `add`

A Dafny model of the expense store in the command-line expense tracker
`expense-tracker.js`. The model covers three things:

- `loadExpenses`, which reads the data file and falls back to an empty list.
- `getNextId`, which picks the id of a new record.
- The `add` command's action, which validates the amount, builds a record, appends it and rewrites the file.

The module `ExpenseTracker` (in `expense_tracker.dfy`) holds these pieces:

- `Expense` is one stored record with the fields `id`, `data`, `description` and `amount`. The date field is named `data` in the code, so the model keeps that name.
- `FileState` is what the next load will see. The file is `Missing`, or it is `Unparseable` (reading or parsing it throws), or it is `Parsed` to a `JsonValue`. A `JsonValue` is either an array of records or some other value.
- `LoadExpenses`, `MaxId`, `NextId` and `DatePart` are pure functions. `DatePart` models `.split('T')[0]` on the timestamp.
- `AddAction` is the specification of one run of `add`. It gives the new file state and an `Outcome`: `Saved(id)`, `AmountNegative` or `TypeError`.
- `ExpenseStore` is a class whose field `file` is the data file. Its method `Add` does the run step by step: it loads the list, appends the record to a local list (the code's in-place `push`) and saves by overwriting `file`. Its contract ties the new state to `AddAction`.
- `RunAdds` applies a series of `add` runs to a file. Lemmas about it state what holds across many invocations.

`loadExpenses` (expense-tracker.js:18-19) does not check that the parsed value is an array:

- An object, string, number, boolean or null comes back as it is.
- A later `add` with a non-negative amount then throws a `TypeError`. It throws in `getNextId`, at `.length` or `.map`, or at `push`, and it always throws before the save.
- The model captures this with the `JsonOther` value and the `TypeError` outcome. `LoadKeepsNonArray` and `AddOnNonArrayThrows` state it.

## Model

| member | source | states |
|---|---|---|
| `ExpenseTracker.LoadExpenses` | expense-tracker.js:14-23 | a missing file loads as the empty list, a file whose reading or parsing throws loads as the empty list, and otherwise the parsed value comes back as it is |
| `ExpenseTracker.LoadEmptyIff` | expense-tracker.js:14-23 | the load yields the empty list exactly when the file is missing, unparseable, or holds an empty array (both directions) |
| `ExpenseTracker.LoadKeepsNonArray` | expense-tracker.js:18-19 | a parsed non-array value is returned unchanged; the load does no shape check |
| `ExpenseTracker.MaxId` | expense-tracker.js:30 | the result is at least every id in the non-empty list and equals the id of one of its records |
| `ExpenseTracker.NextId` | expense-tracker.js:28-31 | an empty list gives 1; otherwise the result is strictly greater than every id, and the result minus 1 is an existing id |
| `ExpenseTracker.NextIdIsLeastAbove` | expense-tracker.js:30 | for a non-empty list, the next id is the least integer above all existing ids |
| `ExpenseTracker.NextIdFresh` | expense-tracker.js:30 | no record in the list has the next id |
| `ExpenseTracker.NextIdOfConsecutive` | expense-tracker.js:28-31 | if the ids are 1..n in order, the next id is n + 1 |
| `ExpenseTracker.DatePart` | expense-tracker.js:48 | the date is a prefix of the timestamp with no 'T' in it, and it stops only at the first 'T' or at the end of the timestamp |
| `ExpenseTracker.NewExpense` | expense-tracker.js:46-51 | the new record's id is not among the list's ids, and it carries the given description and amount unchanged |
| `ExpenseTracker.AddAction` | expense-tracker.js:38-56 | a run saves exactly when the amount is non-negative and the loaded value is an array; a run that does not save leaves the file unchanged |
| `ExpenseTracker.AddRejectsNegative` | expense-tracker.js:41-44 | a negative amount ends with the amount error and leaves the file as it was |
| `ExpenseTracker.AddAcceptsZero` | expense-tracker.js:41 | an amount of exactly 0 is saved; only amounts below 0 are rejected |
| `ExpenseTracker.AddOnNonArrayThrows` | expense-tracker.js:39-53 | a non-array loaded value makes a non-negative add throw before the save, so the file is unchanged |
| `ExpenseTracker.AddAppends` | expense-tracker.js:46-54 | after a successful add the stored list is one record longer; the old records keep their values and order; the last record has the next id of the old list, the date part of the clock reading, and the given description and amount; the reported id is that id |
| `ExpenseTracker.AddPreservesUniqueIds` | expense-tracker.js:30-53 | if the stored ids are unique before an add, they are still unique after it |
| `ExpenseTracker.RunAdds` | expense-tracker.js:38-56 | a series of add runs whose amounts are all negative leaves the file unchanged |
| `ExpenseTracker.RunAddsPreservesUniqueIds` | expense-tracker.js:38-56 | any series of add runs keeps the stored ids unique |
| `ExpenseTracker.RunAddsFromEmptyNumbersConsecutively` | expense-tracker.js:28-56 | from an empty store, add runs with non-negative amounts store one record per run, in order, with ids 1, 2, 3, ... and with the given descriptions and amounts |
| `ExpenseTracker.RunAddsFromEmptyRecordsAccepted` | expense-tracker.js:28-56 | from an empty store, any series of add runs stores exactly the runs with non-negative amounts, one record each, in order, with ids 1, 2, 3, ... and their descriptions and amounts; negative runs leave no trace |
| `ExpenseTracker.ExpenseStore.Add` | expense-tracker.js:38-56 | the new file state and the outcome are those of `AddAction`; a negative amount changes nothing; a reported id is not among the ids loaded before the run |

## Left out

- File-system access is not modelled (`existsSync`, `readFileSync`, `writeFileSync` and the fixed path). The file is the abstract `FileState`.
- JSON parsing and serialisation are not modelled. Saving sets the file to `Parsed(JsonArray(list))`, which assumes that the stored list parses back to the same records.
- Arrays whose elements are not records with integer ids are not modelled. For example, a missing `id` would make `Math.max` return NaN.
- Stored records with extra fields, or with a missing `data`, `description` or `amount`, are not modelled. `Expense` has exactly four fields. The code saves such records again unchanged when it appends (expense-tracker.js:53-54).
- `MaxId`: `Math.max(...)` over a very large list, which could exceed the engine's argument limit, is not modelled.
- Amounts are Dafny reals. `parseFloat`, NaN (for which `amount < 0` is false), and floating-point rounding are not modelled.
- Ids are unbounded integers. JavaScript's float ids and their precision limit are not modelled.
- The clock is not modelled. `new Date().toISOString()` is the parameter `now` of `Add` and `AddAction`.
- Console messages and `process.exit(1)` are not modelled as output. They become the `AmountNegative` and `TypeError` outcomes.
- Command-line option parsing, help and version text are not modelled. They are handled by the `commander` library.
