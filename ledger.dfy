/**
 * The merged ledger of lines 87-107 of `generate()`: one entry per kept expense, then one per
 * kept income, then a stable sort by the key `(date == "", date)`.
 */
module Ledger {
  import opened Text
  import opened Rows
  import opened Totals

  datatype Kind = Expense | Income

  /** One ledger line: the dictionary with keys date, particulars, type, description and amount. */
  datatype Entry = Entry(date: string, particulars: string, kind: Kind, description: string, amount: real)

  function FromRow(r: Row, kind: Kind): Entry {
    Entry(r.date, r.category, kind, r.description, r.amount)
  }

  /** The entries one append loop produces from `rows`: one per row, in the same order. */
  function Entries(rows: seq<Row>, kind: Kind): (es: seq<Entry>)
    ensures |es| == |rows|
    ensures forall k :: 0 <= k < |rows| ==> es[k] == FromRow(rows[k], kind)
  {
    if rows == [] then [] else Entries(rows[..|rows| - 1], kind) + [FromRow(rows[|rows| - 1], kind)]
  }

  /**
   * The two append loops of lines 88-103: the expense entries first, then the income entries.
   * Every entry comes from its row unchanged, so every Expense entry precedes every Income entry.
   */
  method BuildLedger(expenses: seq<Row>, incomes: seq<Row>) returns (ledger: seq<Entry>)
    ensures ledger == Entries(expenses, Expense) + Entries(incomes, Income)
    ensures |ledger| == |expenses| + |incomes|
    ensures forall k, l :: 0 <= k < |ledger| && 0 <= l < |ledger| && ledger[k].kind == Expense && ledger[l].kind == Income ==> k < l
  {
    ledger := [];
    var i := 0;
    while i < |expenses|
      invariant 0 <= i <= |expenses|
      invariant ledger == Entries(expenses[..i], Expense)
    {
      assert expenses[..i + 1][..i] == expenses[..i];
      ledger := ledger + [FromRow(expenses[i], Expense)];
      i := i + 1;
    }
    assert expenses[..i] == expenses;
    var j := 0;
    while j < |incomes|
      invariant 0 <= j <= |incomes|
      invariant ledger == Entries(expenses, Expense) + Entries(incomes[..j], Income)
    {
      assert incomes[..j + 1][..j] == incomes[..j];
      ledger := ledger + [FromRow(incomes[j], Income)];
      j := j + 1;
    }
    assert incomes[..j] == incomes;
  }

  // ---------------------------------------------------------------------------------------------
  // The sort key and the order it induces

  /**
   * `(a == "", a) <= (b == "", b)` as Python compares these tuples: `False` before `True`, so every
   * non-empty date before every empty one, and non-empty dates by string order.
   */
  predicate KeyLe(a: string, b: string) {
    if a == "" then b == "" else b == "" || StrLe(a, b)
  }

  lemma KeyLeReflexive(a: string)
    ensures KeyLe(a, a)
  {
    StrLeReflexive(a);
  }

  lemma KeyLeTotal(a: string, b: string)
    ensures KeyLe(a, b) || KeyLe(b, a)
  {
    StrLeTotal(a, b);
  }

  lemma KeyLeTransitive(a: string, b: string, c: string)
    requires KeyLe(a, b) && KeyLe(b, c)
    ensures KeyLe(a, c)
  {
    if a != "" && b != "" && c != "" { StrLeTransitive(a, b, c); }
  }

  lemma KeyLeAntisymmetric(a: string, b: string)
    requires KeyLe(a, b) && KeyLe(b, a)
    ensures a == b
  {
    if a != "" && b != "" { StrLeAntisymmetric(a, b); }
  }

  /** Ordered by the sort key. */
  predicate Sorted(s: seq<Entry>) {
    forall i, j :: 0 <= i < j < |s| ==> KeyLe(s[i].date, s[j].date)
  }

  /** Being ordered by the key means: no dated entry after an undated one, and dated entries ascending. */
  lemma SortedMeaning(s: seq<Entry>)
    ensures Sorted(s) <==>
      (forall i, j :: 0 <= i < j < |s| && s[i].date == "" ==> s[j].date == "") &&
      (forall i, j :: 0 <= i < j < |s| && s[i].date != "" && s[j].date != "" ==> StrLe(s[i].date, s[j].date))
  {
  }

  /** The entries of `s` with date `d`, in their order in `s`. Entries with different dates have different keys. */
  function WithDate(s: seq<Entry>, d: string): seq<Entry> {
    if s == [] then []
    else WithDate(s[..|s| - 1], d) + (if s[|s| - 1].date == d then [s[|s| - 1]] else [])
  }

  lemma {:induction false} WithDateAppend(a: seq<Entry>, b: seq<Entry>, d: string)
    ensures WithDate(a + b, d) == WithDate(a, d) + WithDate(b, d)
  {
    if b == [] {
      assert a + b == a;
    } else {
      assert (a + b)[..|a + b| - 1] == a + b[..|b| - 1];
      WithDateAppend(a, b[..|b| - 1], d);
    }
  }

  /** Appending an entry whose key is not below any key already present keeps the order. */
  lemma SortedAppend(s: seq<Entry>, x: Entry)
    requires Sorted(s)
    requires forall k :: 0 <= k < |s| ==> KeyLe(s[k].date, x.date)
    ensures Sorted(s + [x])
  {
  }

  /** Two adjacent entries with different dates can trade places without changing any `WithDate`. */
  lemma WithDateSwap(s: seq<Entry>, x: Entry, y: Entry, d: string)
    requires x.date != y.date
    ensures WithDate(s + [x] + [y], d) == WithDate(s + [y] + [x], d)
  {
    WithDateAppend(s + [x], [y], d);
    WithDateAppend(s, [x], d);
    WithDateAppend(s + [y], [x], d);
    WithDateAppend(s, [y], d);
  }

  /** Every entry of a sequence with multiset `multiset(s) + {x}` is `x` or an entry of `s`. */
  lemma FromMultiset(t: seq<Entry>, s: seq<Entry>, x: Entry, i: int)
    requires multiset(t) == multiset(s) + multiset{x}
    requires 0 <= i < |t|
    ensures t[i] == x || exists k :: 0 <= k < |s| && s[k] == t[i]
  {
    assert t[i] in multiset(t);
    if t[i] != x {
      assert t[i] in multiset(s);
    }
  }

  /**
   * Stable insertion into an ordered sequence: `x` goes after every entry whose key is not greater
   * than its own, so entries with the same key keep their relative order.
   */
  function Insert(x: Entry, s: seq<Entry>): (r: seq<Entry>)
    requires Sorted(s)
    ensures Sorted(r)
    ensures multiset(r) == multiset(s) + multiset{x}
    ensures forall d :: WithDate(r, d) == WithDate(s + [x], d)
  {
    if s == [] || KeyLe(s[|s| - 1].date, x.date) then
      assert forall k :: 0 <= k < |s| - 1 ==> KeyLe(s[k].date, x.date) by {
        forall k | 0 <= k < |s| - 1 ensures KeyLe(s[k].date, x.date) {
          KeyLeTransitive(s[k].date, s[|s| - 1].date, x.date);
        }
      }
      SortedAppend(s, x);
      s + [x]
    else
      var init, y := s[..|s| - 1], s[|s| - 1];
      assert s == init + [y];
      var t := Insert(x, init);
      KeyLeTotal(y.date, x.date);
      KeyLeReflexive(x.date);
      assert forall k :: 0 <= k < |t| ==> KeyLe(t[k].date, y.date) by {
        forall k | 0 <= k < |t| ensures KeyLe(t[k].date, y.date) {
          FromMultiset(t, init, x, k);
        }
      }
      SortedAppend(t, y);
      assert forall d :: WithDate(t + [y], d) == WithDate(s + [x], d) by {
        forall d ensures WithDate(t + [y], d) == WithDate(s + [x], d) {
          WithDateAppend(t, [y], d);
          WithDateAppend(init + [x], [y], d);
          WithDateSwap(init, x, y, d);
        }
      }
      t + [y]
  }

  /**
   * `ledger.sort(key=lambda r: (r["date"] == "", r["date"]))`: a stable sort by the key, written as
   * insertion sort. The result is ordered, is a permutation of the input, and keeps the input order
   * among entries with equal keys (for every date, the entries with that date appear in the same order).
   */
  function SortByDate(s: seq<Entry>): (r: seq<Entry>)
    ensures Sorted(r)
    ensures multiset(r) == multiset(s)
    ensures forall d :: WithDate(r, d) == WithDate(s, d)
  {
    if s == [] then []
    else
      var init, x := s[..|s| - 1], s[|s| - 1];
      var t := SortByDate(init);
      var r := Insert(x, t);
      assert s == init + [x];
      assert forall d :: WithDate(r, d) == WithDate(s, d) by {
        forall d ensures WithDate(r, d) == WithDate(s, d) {
          WithDateAppend(t, [x], d);
          WithDateAppend(init, [x], d);
        }
      }
      r
  }

  /** The entries `WithDate(s, d)` picks are exactly the entries of `s` dated `d`. */
  lemma {:induction false} WithDateMembers(s: seq<Entry>, d: string)
    ensures forall e :: e in WithDate(s, d) <==> e in s && e.date == d
  {
    if s != [] {
      var init := s[..|s| - 1];
      WithDateMembers(init, d);
      assert s == init + [s[|s| - 1]];
    }
  }

  /**
   * A stable sort has only one possible result: two ordered sequences that agree, date by date, on
   * which entries carry that date and in what order, are equal. So `SortByDate` yields exactly what
   * any stable sort by the same key (Python's `list.sort` included) yields.
   */
  lemma {:induction false} StableSortUnique(a: seq<Entry>, b: seq<Entry>)
    requires Sorted(a) && Sorted(b)
    requires forall d :: WithDate(a, d) == WithDate(b, d)
    ensures a == b
    decreases |a| + |b|
  {
    if a == [] && b == [] {
    } else if a == [] || b == [] {
      var e := if a == [] then b[|b| - 1] else a[|a| - 1];
      WithDateMembers(a, e.date);
      WithDateMembers(b, e.date);
    } else {
      var initA, x := a[..|a| - 1], a[|a| - 1];
      var initB, y := b[..|b| - 1], b[|b| - 1];
      assert a == initA + [x] && b == initB + [y];
      LastKeyNotAbove(a, b, x);
      LastKeyNotAbove(b, a, y);
      KeyLeAntisymmetric(x.date, y.date);
      var d := x.date;
      assert WithDate(a, d) == WithDate(initA, d) + [x];
      assert WithDate(b, d) == WithDate(initB, d) + [y];
      assert x == WithDate(a, d)[|WithDate(a, d)| - 1];
      forall d' ensures WithDate(initA, d') == WithDate(initB, d') {
        if d' == d {
          assert WithDate(initA, d) == WithDate(a, d)[..|WithDate(a, d)| - 1];
          assert WithDate(initB, d) == WithDate(b, d)[..|WithDate(b, d)| - 1];
        } else {
          assert WithDate(a, d') == WithDate(initA, d');
          assert WithDate(b, d') == WithDate(initB, d');
        }
      }
      StableSortUnique(initA, initB);
    }
  }

  /**
   * When `a` and the ordered `b` hold the same entries per date, the last entry of `a` has a key no
   * greater than the last key of `b`.
   */
  lemma LastKeyNotAbove(a: seq<Entry>, b: seq<Entry>, x: Entry)
    requires Sorted(b) && a != [] && b != [] && x == a[|a| - 1]
    requires forall d :: WithDate(a, d) == WithDate(b, d)
    ensures KeyLe(x.date, b[|b| - 1].date)
  {
    WithDateMembers(a, x.date);
    WithDateMembers(b, x.date);
    assert x in WithDate(b, x.date);
    var k :| 0 <= k < |b| && b[k] == x;
    if k == |b| - 1 { KeyLeReflexive(x.date); }
  }

  // ---------------------------------------------------------------------------------------------
  // The ledger accounts for the totals

  /** The sum of the amounts of the entries of kind `kind`. */
  function KindTotal(s: seq<Entry>, kind: Kind): real {
    if s == [] then 0.0
    else KindTotal(s[..|s| - 1], kind) + (if s[|s| - 1].kind == kind then s[|s| - 1].amount else 0.0)
  }

  lemma {:induction false} KindTotalAppend(a: seq<Entry>, b: seq<Entry>, kind: Kind)
    ensures KindTotal(a + b, kind) == KindTotal(a, kind) + KindTotal(b, kind)
  {
    if b == [] {
      assert a + b == a;
    } else {
      assert (a + b)[..|a + b| - 1] == a + b[..|b| - 1];
      KindTotalAppend(a, b[..|b| - 1], kind);
    }
  }

  /** Reordering the entries does not change a kind's total. */
  lemma {:induction false} KindTotalPermutation(a: seq<Entry>, b: seq<Entry>, kind: Kind)
    requires multiset(a) == multiset(b)
    ensures KindTotal(a, kind) == KindTotal(b, kind)
    decreases |a|
  {
    if a == [] {
      assert |b| == |multiset(b)| == 0;
    } else {
      var init, x := a[..|a| - 1], a[|a| - 1];
      assert a == init + [x];
      assert x in multiset(b);
      var j :| 0 <= j < |b| && b[j] == x;
      var rest := b[..j] + b[j + 1..];
      assert b == b[..j] + [x] + b[j + 1..];
      assert multiset(rest) == multiset(b) - multiset{x};
      assert multiset(init) == multiset(a) - multiset{x};
      KindTotalPermutation(init, rest, kind);
      KindTotalAppend(init, [x], kind);
      KindTotalAppend(b[..j], [x], kind);
      KindTotalAppend(b[..j] + [x], b[j + 1..], kind);
      KindTotalAppend(b[..j], b[j + 1..], kind);
    }
  }

  /** The entries built from `rows` total the rows' amounts under their own kind and nothing under another. */
  lemma {:induction false} KindTotalEntries(rows: seq<Row>, kind: Kind, other: Kind)
    ensures KindTotal(Entries(rows, kind), kind) == Sum(rows)
    ensures other != kind ==> KindTotal(Entries(rows, kind), other) == 0.0
  {
    if rows != [] {
      var init := rows[..|rows| - 1];
      KindTotalEntries(init, kind, other);
      assert Entries(rows, kind)[..|rows| - 1] == Entries(init, kind);
    }
  }

  /**
   * The sorted ledger accounts for the totals: its Expense entries add up to the sum of the expense
   * amounts and its Income entries to the sum of the income amounts.
   */
  lemma LedgerMatchesTotals(expenses: seq<Row>, incomes: seq<Row>)
    ensures var ledger := SortByDate(Entries(expenses, Expense) + Entries(incomes, Income));
      KindTotal(ledger, Expense) == Sum(expenses) && KindTotal(ledger, Income) == Sum(incomes)
  {
    var unsorted := Entries(expenses, Expense) + Entries(incomes, Income);
    var ledger := SortByDate(unsorted);
    KindTotalPermutation(ledger, unsorted, Expense);
    KindTotalPermutation(ledger, unsorted, Income);
    KindTotalAppend(Entries(expenses, Expense), Entries(incomes, Income), Expense);
    KindTotalAppend(Entries(expenses, Expense), Entries(incomes, Income), Income);
    KindTotalEntries(expenses, Expense, Income);
    KindTotalEntries(incomes, Income, Expense);
  }
}
