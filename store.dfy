/** The ledger's two stored tables and the mutations the page performs on them.
    Every mutation in the program rewrites the whole file; here the stored
    tables are the fields of a `Ledger`, and a save is the assignment of a
    field.
 */
module Store {
  import opened Records
  import opened Monthly

  predicate HasCategory(bs: seq<Budget>, category: string) {
    exists i :: 0 <= i < |bs| && bs[i].category == category
  }

  /** Sets the limit of every row filed under `category`. */
  function Relimit(bs: seq<Budget>, category: string, limit: real): (r: seq<Budget>)
    ensures |r| == |bs|
    ensures forall i :: 0 <= i < |bs| ==> r[i].category == bs[i].category
    ensures forall i :: 0 <= i < |bs| ==> r[i].limit == if bs[i].category == category then limit else bs[i].limit
  {
    seq(|bs|, i requires 0 <= i < |bs| =>
      if bs[i].category == category then Budget(category, limit) else bs[i])
  }

  /** The budget editor's upsert keyed by category: an existing category has
      its limit replaced where it stands, a new one is appended. */
  function Upsert(bs: seq<Budget>, category: string, limit: real): (r: seq<Budget>)
    ensures HasCategory(bs, category) ==> |r| == |bs|
    ensures !HasCategory(bs, category) ==> r == bs + [Budget(category, limit)]
    ensures forall i :: 0 <= i < |bs| ==> r[i].category == bs[i].category
    ensures forall i :: 0 <= i < |bs| && bs[i].category != category ==> r[i] == bs[i]
    ensures forall i :: 0 <= i < |r| && r[i].category == category ==> r[i].limit == limit
    ensures HasCategory(r, category)
  {
    if HasCategory(bs, category) then Relimit(bs, category, limit)
    else
      var r := bs + [Budget(category, limit)];
      assert r[|bs|].category == category;
      r
  }

  /** No category occurs on two budget rows. */
  predicate UniqueCategories(bs: seq<Budget>) {
    forall i, j :: 0 <= i < j < |bs| ==> bs[i].category != bs[j].category
  }

  /** The upsert keeps the one-row-per-category invariant. */
  lemma UpsertKeepsUnique(bs: seq<Budget>, category: string, limit: real)
    requires UniqueCategories(bs)
    ensures UniqueCategories(Upsert(bs, category, limit))
  {
    var r := Upsert(bs, category, limit);
    forall i, j | 0 <= i < j < |r| ensures r[i].category != r[j].category {
      if j == |bs| {
        assert !HasCategory(bs, category);
      }
    }
  }

  /** Submitting the same limit twice is the same as submitting it once. */
  lemma UpsertIdempotent(bs: seq<Budget>, category: string, limit: real)
    ensures Upsert(Upsert(bs, category, limit), category, limit) == Upsert(bs, category, limit)
  {
    var once := Upsert(bs, category, limit);
    var twice := Upsert(once, category, limit);
    assert |twice| == |once|;
    forall i | 0 <= i < |once| ensures twice[i] == once[i] {
      if once[i].category != category {
      } else {
        assert twice[i] == Budget(category, limit);
      }
    }
  }

  /** The restore check, column by column in the order of `required`: it
      holds exactly when every required column is in the uploaded header. */
  function HasColumns(header: seq<string>, required: seq<string>): (b: bool)
    ensures b <==> forall c :: c in required ==> c in header
  {
    if required == [] then true
    else
      assert required == [required[0]] + required[1..];
      required[0] in header && HasColumns(header, required[1..])
  }

  /** Whether a movements upload overwrites the store. */
  predicate AcceptsMovements(u: Upload<Movement>) {
    u.Table? && HasColumns(u.columns, MovementColumns)
  }

  /** The backup the page offers for download: none while the store is empty. */
  function Export(ms: seq<Movement>): (u: Option<Upload<Movement>>)
    ensures u.Some? <==> ms != []
  {
    if ms == [] then None else Some(Table(MovementColumns, ms))
  }

  /** A downloaded backup is accepted by the restore and gives back exactly
      the stored rows. */
  lemma ExportRestores(ms: seq<Movement>)
    requires ms != []
    ensures Export(ms).Some? && AcceptsMovements(Export(ms).value) && Export(ms).value.rows == ms
  {
  }

  /** What the page reports after an action. */
  datatype Notice =
    | Recorded        // a movement was added
    | InvalidAmount   // the amount was not positive; nothing was saved
    | LimitUpdated    // a budget row was added or changed
    | Restored        // an upload replaced a store
    | WrongFormat     // a movements upload lacks a required column
    | UploadFailed    // the upload could not be read
    | Deleted         // the last movement was removed
    | NothingToDelete // the movements table was already empty

  /** The two stored tables of the page. */
  class Ledger {
    var movements: seq<Movement>
    var budgets: seq<Budget>

    /** Reads both files; a missing one gives an empty table. */
    constructor Open(savedMovements: Option<seq<Movement>>, savedBudgets: Option<seq<Budget>>)
      ensures savedMovements.None? ==> movements == []
      ensures savedMovements.Some? ==> movements == savedMovements.value
      ensures savedBudgets.None? ==> budgets == []
      ensures savedBudgets.Some? ==> budgets == savedBudgets.value
    {
      movements := if savedMovements.Some? then savedMovements.value else [];
      budgets := if savedBudgets.Some? then savedBudgets.value else [];
    }

    /** The entry form's submit: a positive amount appends one row with the
        submitted values; anything else is rejected and nothing is saved. */
    method Submit(date: Date, kind: string, category: string, concept: string, amount: real)
      returns (notice: Notice)
      modifies this
      ensures amount > 0.0 ==> notice == Recorded && movements == old(movements) + [Movement(date, kind, category, concept, amount)]
      ensures amount <= 0.0 ==> notice == InvalidAmount && movements == old(movements)
      ensures budgets == old(budgets)
    {
      if amount > 0.0 {
        movements := movements + [Movement(date, kind, category, concept, amount)];
        notice := Recorded;
      } else {
        notice := InvalidAmount;
      }
    }

    /** The budget editor's submit: upsert by category, always saved. */
    method SetLimit(category: string, limit: real) returns (notice: Notice)
      modifies this
      ensures budgets == Upsert(old(budgets), category, limit)
      ensures movements == old(movements)
      ensures notice == LimitUpdated
    {
      if HasCategory(budgets, category) {
        budgets := Relimit(budgets, category, limit);
      } else {
        budgets := budgets + [Budget(category, limit)];
      }
      notice := LimitUpdated;
    }

    /** Restore of the movements file: overwrites the store only when the
        upload is readable and has every movements column. */
    method RestoreMovements(upload: Upload<Movement>) returns (notice: Notice)
      modifies this
      ensures AcceptsMovements(upload) ==> notice == Restored && movements == upload.rows
      ensures upload.Unreadable? ==> notice == UploadFailed && movements == old(movements)
      ensures upload.Table? && !AcceptsMovements(upload) ==> notice == WrongFormat && movements == old(movements)
      ensures budgets == old(budgets)
    {
      match upload {
        case Unreadable =>
          notice := UploadFailed;
        case Table(columns, rows) =>
          if HasColumns(columns, MovementColumns) {
            movements := rows;
            notice := Restored;
          } else {
            notice := WrongFormat;
          }
      }
    }

    /** Restore of the budgets file: any readable upload overwrites the store. */
    method RestoreBudgets(upload: Upload<Budget>) returns (notice: Notice)
      modifies this
      ensures upload.Table? ==> notice == Restored && budgets == upload.rows
      ensures upload.Unreadable? ==> notice == UploadFailed && budgets == old(budgets)
      ensures movements == old(movements)
    {
      if upload.Table? {
        budgets := upload.rows;
        notice := Restored;
      } else {
        notice := UploadFailed;
      }
    }

    /** "Delete last": removes the final row in stored order, whatever its
        date; an empty table is left alone. */
    method DeleteLast() returns (notice: Notice)
      modifies this
      ensures old(movements) != [] ==> notice == Deleted && old(movements) == movements + [old(movements)[|old(movements)| - 1]]
      ensures old(movements) == [] ==> notice == NothingToDelete && movements == []
      ensures budgets == old(budgets)
    {
      if movements != [] {
        movements := movements[..|movements| - 1];
        notice := Deleted;
      } else {
        notice := NothingToDelete;
      }
    }
  }

  /** Deleting the last row takes back exactly what it contributed to every
      month's totals. */
  lemma DeleteLastEffect(ms: seq<Movement>, year: int, month: int)
    requires ms != []
    ensures var kept := ms[..|ms| - 1]; var last := ms[|ms| - 1];
      IncomeTotal(kept, year, month) == IncomeTotal(ms, year, month) - Contribution(last, IncomeKind, year, month)
      && ExpenseTotal(kept, year, month) == ExpenseTotal(ms, year, month) - Contribution(last, ExpenseKind, year, month)
  {
    assert ms == ms[..|ms| - 1] + [ms[|ms| - 1]];
    AppendEffect(ms[..|ms| - 1], ms[|ms| - 1], year, month);
  }
}
