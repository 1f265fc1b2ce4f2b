/**
 * Lenient amount parsing (`to_float`) and the two row-filter loops of `generate()`
 * that turn the posted column lists into expense and income rows.
 */
module Rows {
  import opened Wrappers
  import opened Text

  /** Python's `float(x)`: `Some(v)` where it returns `v`, `None` where it raises. Reals stand for floats. */
  type FloatParser = string -> Option<real>

  /** `to_float`: the parsed value where `float` succeeds, and exactly 0.0 where it raises; it never raises itself. */
  function ToFloat(parse: FloatParser, x: string): (r: real)
    ensures parse(x).Some? ==> r == parse(x).value
    ensures parse(x).None? ==> r == 0.0
  {
    match parse(x)
    case Some(v) => v
    case None => 0.0
  }

  /** One row as posted: the i-th element of the category, amount, date and description lists. */
  datatype FormRow = FormRow(category: string, amount: string, date: string, description: string)

  /** One row kept for the report (the dictionary appended to `expenses` or `incomes`). */
  datatype Row = Row(category: string, amount: real, date: string, description: string)

  function Min(a: nat, b: nat): nat {
    if a <= b then a else b
  }

  /** Python's `zip` of the four column lists: it stops at the shortest one. */
  function Zip4(cats: seq<string>, amts: seq<string>, dts: seq<string>, descs: seq<string>): (rows: seq<FormRow>)
    ensures |rows| == Min(Min(|cats|, |amts|), Min(|dts|, |descs|))
    ensures forall i :: 0 <= i < |rows| ==> rows[i] == FormRow(cats[i], amts[i], dts[i], descs[i])
  {
    if cats == [] || amts == [] || dts == [] || descs == [] then []
    else [FormRow(cats[0], amts[0], dts[0], descs[0])] + Zip4(cats[1..], amts[1..], dts[1..], descs[1..])
  }

  /** The filter of lines 52 and 67: some field is non-empty and the stripped amount is non-empty. */
  predicate Keep(r: FormRow) {
    (r.category != "" || r.amount != "" || r.date != "" || r.description != "") && Strip(r.amount) != ""
  }

  /** The first clause of the filter is implied by the second: the amount alone decides. */
  lemma KeepIffAmount(r: FormRow)
    ensures Keep(r) <==> Strip(r.amount) != ""
  {
    StripSpec(r.amount);
  }

  /** The row appended for a kept input row: category and description stripped, amount parsed, date verbatim. */
  function Normalize(parse: FloatParser, r: FormRow): Row {
    Row(Strip(r.category), ToFloat(parse, r.amount), r.date, Strip(r.description))
  }

  /** The rows the filter loop appends, for the input rows `rows` in order. */
  function Kept(parse: FloatParser, rows: seq<FormRow>): seq<Row> {
    if rows == [] then []
    else
      var last := rows[|rows| - 1];
      Kept(parse, rows[..|rows| - 1]) + (if Keep(last) then [Normalize(parse, last)] else [])
  }

  /** The positions of `s` whose element satisfies `keep`, in increasing order. */
  function Positions<T>(keep: T -> bool, s: seq<T>): seq<nat> {
    if s == [] then []
    else Positions(keep, s[..|s| - 1]) + (if keep(s[|s| - 1]) then [|s| - 1] else [])
  }

  /** `Positions` yields increasing positions of `s`, and exactly those whose element satisfies `keep`. */
  lemma {:induction false} PositionsExact<T>(keep: T -> bool, s: seq<T>)
    ensures |Positions(keep, s)| <= |s|
    ensures forall k :: 0 <= k < |Positions(keep, s)| ==> Positions(keep, s)[k] < |s|
    ensures forall k, l :: 0 <= k < l < |Positions(keep, s)| ==> Positions(keep, s)[k] < Positions(keep, s)[l]
    ensures forall j :: 0 <= j < |s| ==> (j in Positions(keep, s) <==> keep(s[j]))
  {
    if s != [] {
      var init := s[..|s| - 1];
      PositionsExact(keep, init);
      var last := |s| - 1;
      var tail: seq<nat> := if keep(s[last]) then [last] else [];
      assert Positions(keep, s) == Positions(keep, init) + tail;
      forall j | 0 <= j < |s| ensures j in Positions(keep, s) <==> keep(s[j]) {
        if j < last {
          assert init[j] == s[j];
          assert j !in tail;
        } else {
          assert j !in Positions(keep, init);
        }
      }
    }
  }

  /** The positions of the input rows that the filter keeps. */
  function KeptIndices(rows: seq<FormRow>): seq<nat> {
    Positions(Keep, rows)
  }

  /** The k-th kept row is the normalised form of the input row at the k-th kept position. */
  lemma {:induction false} KeptAt(parse: FloatParser, rows: seq<FormRow>)
    ensures |Kept(parse, rows)| == |KeptIndices(rows)|
    ensures forall k :: 0 <= k < |KeptIndices(rows)| ==>
      KeptIndices(rows)[k] < |rows| && Kept(parse, rows)[k] == Normalize(parse, rows[KeptIndices(rows)[k]])
  {
    if rows != [] {
      var init := rows[..|rows| - 1];
      KeptAt(parse, init);
      PositionsExact(Keep, init);
      assert forall j :: 0 <= j < |init| ==> init[j] == rows[j];
    }
  }

  /**
   * The kept rows are exactly the normalised input rows whose amount is non-blank, in input order:
   * the k-th kept row comes from input row `KeptIndices(rows)[k]`, those positions increase, and a
   * position is among them if and only if its stripped amount is non-empty.
   */
  lemma KeptSelects(parse: FloatParser, rows: seq<FormRow>)
    ensures |Kept(parse, rows)| == |KeptIndices(rows)| <= |rows|
    ensures forall k :: 0 <= k < |KeptIndices(rows)| ==>
      KeptIndices(rows)[k] < |rows| &&
      var r := rows[KeptIndices(rows)[k]];
      Kept(parse, rows)[k] == Row(Strip(r.category), ToFloat(parse, r.amount), r.date, Strip(r.description))
    ensures forall k, l :: 0 <= k < l < |KeptIndices(rows)| ==> KeptIndices(rows)[k] < KeptIndices(rows)[l]
    ensures forall j :: 0 <= j < |rows| ==> (j in KeptIndices(rows) <==> Strip(rows[j].amount) != "")
  {
    PositionsExact(Keep, rows);
    KeptAt(parse, rows);
    forall j | 0 <= j < |rows| ensures Keep(rows[j]) <==> Strip(rows[j].amount) != "" {
      KeepIffAmount(rows[j]);
    }
  }

  /**
   * The loop of lines 51-58 (expenses) and 66-73 (incomes): walks the zipped columns and appends
   * the normalised form of every row that passes the filter.
   */
  method FilterRows(parse: FloatParser, cats: seq<string>, amts: seq<string>, dts: seq<string>, descs: seq<string>)
    returns (rows: seq<Row>)
    ensures rows == Kept(parse, Zip4(cats, amts, dts, descs))
  {
    ghost var zipped := Zip4(cats, amts, dts, descs);
    var n := Min(Min(|cats|, |amts|), Min(|dts|, |descs|));
    rows := [];
    var i := 0;
    while i < n
      invariant 0 <= i <= n
      invariant rows == Kept(parse, zipped[..i])
    {
      var row := FormRow(cats[i], amts[i], dts[i], descs[i]);
      assert zipped[..i + 1] == zipped[..i] + [row];
      if Keep(row) {
        rows := rows + [Normalize(parse, row)];
      }
      i := i + 1;
    }
    assert zipped[..n] == zipped;
  }
}
