# Finanzas 2026 ledger — a Dafny model

This project models the bookkeeping core of a single-page personal-finance
tracker. The page keeps two tables:

- the movements table, with columns Fecha, Tipo, Categoria, Concepto and Monto;
- the budgets table, with columns Categoria and Limite_Mensual.

It offers four mutations: appending a movement from the entry form, upserting
a monthly limit by category, restoring either table from an uploaded backup,
and deleting the last stored movement. It also computes a dashboard for a
selected month: income, expenses and balance; expenses grouped by category and
left-joined onto the budgets; and a traffic light ("semáforo") per budget row.
The category choices of the entry form are the built-in vocabulary. Once any
budget row exists, they become the sorted, duplicate-free union of that
vocabulary with the budget categories.

Modules:

- `Records`: the row types, the column lists and the built-in category list.
- `Monthly`: the month filter, the totals and the balance.
- `Semaphore`: grouping, the left join, the ratio sort and the per-row status.
- `Vocabulary`: code-point string order and the category choices.
- `Store`: the `Ledger` class, whose two fields are the stored tables.
  Its methods are the mutations. A save overwrites the whole file, so each
  mutation is modelled as an assignment of a field.

Amounts are `real`. Dates are year/month/day integers.

Tipo is kept as the column's text and compared with "Gasto" and "Ingreso"
(app_csv.py:163-164). A restored file may hold other text there, and such
rows count toward neither total.

The traffic light is shown only when the budgets table is non-empty and the
selected month has at least one movement of any type (app_csv.py:194).
`Semaphore.TrafficLight` is empty otherwise.

## Model

| member | source | states |
|---|---|---|
| `Monthly.MonthOf` | app_csv.py:160-161 | a movement is kept iff its year and month equal the selected ones, the day being ignored; each kept row appears as often as in the table |
| `Monthly.OfKind` | app_csv.py:163-164 | a movement is kept iff its Tipo text equals the requested one, with its multiplicity |
| `Monthly.IncomeTotal` | app_csv.py:163 | the sum of the month's "Ingreso" amounts equals the one-pass sum of every row's income contribution (0 outside the month or type) |
| `Monthly.ExpenseTotal` | app_csv.py:164 | the sum of the month's "Gasto" amounts equals the one-pass sum of every row's expense contribution |
| `Monthly.Balance` | app_csv.py:165 | income minus expenses equals the one-pass signed sum of the month's movements, with other types and months contributing 0 |
| `Monthly.AppendEffect` | app_csv.py:137 | appending a movement changes income, expense and balance by exactly that movement's contribution, and by nothing when it is of another month |
| `Monthly.OutsideMonthIgnored` | app_csv.py:160-164 | a movement outside the selected month, inserted anywhere in the table, leaves both totals unchanged |
| `Monthly.TotalsNonNegative` | app_csv.py:128-131 | when no stored amount is negative, as the form guarantees, neither monthly total is negative |
| `Monthly.JanuaryExample` | app_csv.py:160-165 | an expense of 500 and an income of 20000 in January 2026 give 20000, 500 and a balance of 19500 |
| `Semaphore.SpentBy` | app_csv.py:195 | the grouped table has a key for a category iff some expense of the month is filed under it |
| `Semaphore.SpentByIsCategoryTotal` | app_csv.py:195 | each grouped sum equals the direct total of that category's expenses, and a category without expenses reads as 0 |
| `Semaphore.MonthJoin` | app_csv.py:195-196 | the join has one row per budget row, in order, with its category and limit and exactly that category's expense total for the month (0 when it has none) |
| `Semaphore.NoExpenseSpendsZero` | app_csv.py:196 | a budget category with no expense in the month has spent = 0 |
| `Semaphore.Ratio` | app_csv.py:197 | spent/limit for a positive limit: ratio × limit = spent, ratio > 1 iff spent > limit, not negative for non-negative spending |
| `Semaphore.Shown` | app_csv.py:205 | only rows with limit > 0 are shown, and each of them keeps its multiplicity |
| `Semaphore.InsertByRatio` | app_csv.py:198 | inserting into a descending list keeps it descending by spent/limit and adds exactly one element |
| `Semaphore.SortByRatio` | app_csv.py:197-198 | the shown rows come out in non-increasing spent/limit order and are a permutation of the input |
| `Semaphore.Status` | app_csv.py:205-211 | progress is min(spent/limit, 1), so it is at most 1 and not negative for non-negative spending; the exceeded alert appears iff spent > limit, with overage spent − limit > 0 |
| `Semaphore.OverBudgetExample` | app_csv.py:206-211 | a limit of 1000 against 1500 spent gives ratio 1.5, a full bar and an overage of 500 |
| `Semaphore.TrafficLight` | app_csv.py:194 | the traffic light is empty when there are no budgets or no movement in the month |
| `Semaphore.TrafficLightSpec` | app_csv.py:194-211 | the shown rows are exactly the joined rows with limit > 0, counted with multiplicity, in non-increasing ratio order; each has the status of `Status`, and its spent amount is its category's monthly expense total |
| `Vocabulary.InsertUnique` | app_csv.py:122 | inserting into a strictly ascending list keeps it strictly ascending and adds the string iff it was absent |
| `Vocabulary.SortedSet` | app_csv.py:122 | the result is strictly ascending in code-point order and holds exactly the strings of the input |
| `Vocabulary.CategoryChoices` | app_csv.py:122 | with no budgets the choices are the built-in list in its declared order; otherwise they are sorted, duplicate-free and exactly the built-in categories plus the budget categories |
| `Vocabulary.EditorBudgetsAddNoChoice` | app_csv.py:122-124 | when every budget category comes from the built-in list, the choices are exactly the built-in categories |
| `Store.Relimit` | app_csv.py:228 | every row of the category gets the new limit; the length, the categories and every other row stay as they were |
| `Store.Upsert` | app_csv.py:226-231 | an existing category keeps the row count and changes only the limit of its rows; a new category appends exactly one row; afterwards the category is present with the new limit |
| `Store.UpsertKeepsUnique` | app_csv.py:226-231 | the upsert preserves "at most one budget row per category" |
| `Store.UpsertIdempotent` | app_csv.py:226-231 | submitting the same category and limit twice gives the same table as submitting once |
| `Store.HasColumns` | app_csv.py:66 | the column-by-column check holds iff every required column is in the uploaded header |
| `Store.Export` | app_csv.py:88-97 | a backup is offered iff the movements table is non-empty |
| `Store.ExportRestores` | app_csv.py:64-67 | a downloaded backup passes the restore's column check and gives back the stored rows |
| `Store.Ledger.Open` | app_csv.py:29-32 | each table starts as its saved rows, or empty when its file is missing |
| `Store.Ledger.Submit` | app_csv.py:131-142 | amount > 0 appends exactly one row with the submitted values and keeps earlier rows; otherwise it warns and changes nothing; budgets untouched |
| `Store.Ledger.SetLimit` | app_csv.py:225-234 | the budgets table becomes the upsert of the old one; movements untouched |
| `Store.Ledger.RestoreMovements` | app_csv.py:61-72 | the upload replaces the movements iff it is readable and has every movements column; otherwise a wrong-format or read error is reported and nothing changes |
| `Store.Ledger.RestoreBudgets` | app_csv.py:76-82 | any readable upload replaces the budgets without a column check; an unreadable one changes nothing |
| `Store.Ledger.DeleteLast` | app_csv.py:243-248 | on a non-empty table exactly the final stored row goes, whatever its date, and the others keep their order; on an empty table nothing happens |
| `Store.DeleteLastEffect` | app_csv.py:244-246 | deleting the last row takes back exactly its contribution to every month's income and expense totals |
## Left out

- Streamlit UI: forms, tabs, toasts and metrics. These are presentation only. The page's toasts and messages appear as the `Notice` values the methods return; `NothingToDelete` is the model's own signal, since the page shows nothing when "delete last" meets an empty table.
- Semaphore.Status: a negative progress value is returned as it is. On the page, a restored file with negative Gasto amounts can make a budgeted category's monthly spend negative; the progress bar then rejects the value and the page stops with an error at that row, so the later rows and the other tabs are not shown. The model does not capture that halt.
- CSV parsing and writing, and file existence checks. These are file I/O. A readable upload is a header plus rows; a parse failure is `Unreadable`. Uploaded rows are taken as movement or budget records, and extra columns are not represented.
- Date parsing of the Fecha column. Dates are integer triples, and an unparseable date in a restored file is not modelled.
- The pie chart, currency formatting and the 0.8 threshold. The threshold only selects a display branch with the same progress value.
- The history view sorted by date, descending. It is display only and changes no state.
- Floating-point behaviour: NaN or ±infinity from dividing by a zero limit, which the code computes at app_csv.py:197 before app_csv.py:205 skips such rows, and NaN filled with 0 after the join. A negative limit gives a finite, usually negative ratio; that row only takes part in the sort and is skipped at app_csv.py:205 as well. Amounts are exact reals, and the ratio is stated only for limit > 0.
- Semaphore.SortByRatio: rows with equal ratios keep their join order. The code's sort does not promise any order for ties, so the model picks one.
- Store.Ledger.RestoreMovements: each method models one action on its own. The page runs its whole script again on every interaction, and the uploader keeps returning its file until the user clears it. So while a movements backup is held there, every run repeats app_csv.py:61-67 and writes that backup over the store again. A movement submitted then is saved at app_csv.py:138 and overwritten on the run that `st.rerun()` at app_csv.py:140 starts, and "delete last" (app_csv.py:245-248) is undone the same way. The model does not capture these repeated restores.
- Store.Ledger.RestoreBudgets: while a budgets backup is held in the uploader, every run repeats app_csv.py:78-79 and overwrites the budgets again, so a limit saved at app_csv.py:232 is lost on the rerun at app_csv.py:234. The model does not capture these repeated restores.
- Store.Ledger.RestoreBudgets: a budgets upload without a Categoria column is accepted, as in the code. The later failure this causes when the page reads that column is not modelled.
- The budgets download (app_csv.py:100-108) mirrors `Store.Export` for the budgets table and is not modelled separately.
- Store.Ledger.Submit: the category and type are not required to come from the form's choices. The form offers only `Vocabulary.CategoryChoices` and Gasto/Ingreso, but the method accepts any text, as a restore can also introduce.
