/** The category choices of the entry form: the built-in vocabulary as
    declared while the budgets table is empty, and otherwise the sorted,
    duplicate-free union of that vocabulary with the budget categories.
    Strings are ordered as Python orders them, by code point.
 */
module Vocabulary {
  import opened Records

  /** Strict lexicographic order on strings, character by character. */
  predicate Below(a: string, b: string) {
    if a == [] then b != []
    else if b == [] then false
    else if a[0] == b[0] then Below(a[1..], b[1..])
    else a[0] < b[0]
  }

  lemma {:induction false} BelowIrreflexive(a: string)
    ensures !Below(a, a)
  {
    if a != [] {
      BelowIrreflexive(a[1..]);
    }
  }

  lemma {:induction false} BelowTransitive(a: string, b: string, c: string)
    requires Below(a, b) && Below(b, c)
    ensures Below(a, c)
  {
    if a != [] && b != [] && c != [] && a[0] == b[0] && b[0] == c[0] {
      BelowTransitive(a[1..], b[1..], c[1..]);
    }
  }

  lemma {:induction false} BelowTotal(a: string, b: string)
    requires a != b
    ensures Below(a, b) || Below(b, a)
  {
    if a != [] && b != [] && a[0] == b[0] {
      assert a == [a[0]] + a[1..] && b == [b[0]] + b[1..];
      BelowTotal(a[1..], b[1..]);
    }
  }

  /** Sorted ascending with no string twice. */
  predicate StrictlyAscending(s: seq<string>) {
    forall i, j :: 0 <= i < j < |s| ==> Below(s[i], s[j])
  }

  lemma AscendingIsDistinct(s: seq<string>)
    requires StrictlyAscending(s)
    ensures forall i, j :: 0 <= i < j < |s| ==> s[i] != s[j]
  {
    forall i, j | 0 <= i < j < |s| ensures s[i] != s[j] {
      BelowIrreflexive(s[i]);
    }
  }

  /** Adds `x` to a strictly ascending list, unless it is already there. */
  function InsertUnique(x: string, s: seq<string>): (r: seq<string>)
    requires StrictlyAscending(s)
    ensures StrictlyAscending(r)
    ensures forall y :: y in r <==> y == x || y in s
  {
    if s == [] then [x]
    else if x == s[0] then s
    else if Below(x, s[0]) then
      assert forall k :: 0 < k < |s| ==> Below(x, s[k]) by {
        forall k | 0 < k < |s| ensures Below(x, s[k]) {
          BelowTransitive(x, s[0], s[k]);
        }
      }
      [x] + s
    else
      BelowTotal(x, s[0]);
      var rest := InsertUnique(x, s[1..]);
      assert s == [s[0]] + s[1..];
      assert forall k :: 0 <= k < |rest| ==> Below(s[0], rest[k]) by {
        forall k | 0 <= k < |rest| ensures Below(s[0], rest[k]) {
          assert rest[k] in rest;
          if rest[k] != x {
            var j :| 0 <= j < |s[1..]| && s[1..][j] == rest[k];
            assert s[j + 1] == rest[k];
          }
        }
      }
      [s[0]] + rest
  }

  /** `sorted(set(s))`: the distinct strings of `s` in ascending order. */
  function SortedSet(s: seq<string>): (r: seq<string>)
    ensures StrictlyAscending(r)
    ensures forall y :: y in r <==> y in s
  {
    if s == [] then []
    else
      assert s == [s[0]] + s[1..];
      InsertUnique(s[0], SortedSet(s[1..]))
  }

  /** The category choices offered for a new movement. With no budget rows
      they are the built-in vocabulary in its declared order; otherwise they
      are sorted, hold no category twice, and are exactly the built-in
      categories together with the budget ones. */
  function CategoryChoices(bs: seq<Budget>): (r: seq<string>)
    ensures bs == [] ==> r == Categories
    ensures bs != [] ==> StrictlyAscending(r)
    ensures bs != [] ==> forall i, j :: 0 <= i < j < |r| ==> r[i] != r[j]
    ensures forall c :: c in r <==> c in Categories || exists i :: 0 <= i < |bs| && bs[i].category == c
  {
    if bs == [] then Categories
    else
      BudgetCategoriesMembers(bs);
      var r := SortedSet(Categories + BudgetCategories(bs));
      AscendingIsDistinct(r);
      r
  }

  lemma BudgetCategoriesMembers(bs: seq<Budget>)
    ensures forall c :: c in BudgetCategories(bs) <==> exists i :: 0 <= i < |bs| && bs[i].category == c
  {
    forall c ensures c in BudgetCategories(bs) <==> exists i :: 0 <= i < |bs| && bs[i].category == c {
      if c in BudgetCategories(bs) {
        var i :| 0 <= i < |bs| && BudgetCategories(bs)[i] == c;
      }
      if exists i :: 0 <= i < |bs| && bs[i].category == c {
        var i :| 0 <= i < |bs| && bs[i].category == c;
        assert BudgetCategories(bs)[i] == c;
      }
    }
  }

  /** The budget editor offers only built-in categories, so while every budget
      row was made there the choices are the built-in vocabulary, re-sorted. */
  lemma EditorBudgetsAddNoChoice(bs: seq<Budget>)
    requires forall i :: 0 <= i < |bs| ==> bs[i].category in Categories
    ensures forall c :: c in CategoryChoices(bs) <==> c in Categories
  {
  }
}
