/**
 * The sales workbook's frames: column labels and rows of cells.  Unlike the
 * shipment table, which columns the sales frame has decides what the
 * dashboard computes, so it is kept generic.
 */
module Sheets {
  import opened Wrappers
  import opened Records
  import Text
  import Groups

  /** A pandas frame: its column labels and its rows, one cell per label. */
  datatype Sheet = Sheet(headers: seq<string>, rows: seq<seq<Cell>>)
  {
    /** `DataFrame.empty`: no columns or no rows. */
    predicate Empty()
    {
      |headers| == 0 || |rows| == 0
    }

    predicate Has(name: string)
    {
      name in headers
    }

    /** Every row has one cell per column, as in any DataFrame. */
    predicate WellFormed()
    {
      forall i :: 0 <= i < |rows| ==> |rows[i]| == |headers|
    }
  }

  /** The position pandas reads `df[name]` from: the first column so labelled. */
  function IndexOf(hs: seq<string>, name: string): (r: Option<nat>)
    ensures r.None? <==> name !in hs
    ensures r.Some? ==> r.value < |hs| && hs[r.value] == name
    ensures r.Some? ==> forall j :: 0 <= j < r.value ==> hs[j] != name
  {
    if |hs| == 0 then None
    else if hs[0] == name then Some(0)
    else
      var rest := IndexOf(hs[1..], name);
      if rest.None? then None else Some(rest.value + 1)
  }

  /** One row's cell under `name`; a missing label or a short row reads as blank. */
  function Get(headers: seq<string>, row: seq<Cell>, name: string): Cell
  {
    var k := IndexOf(headers, name);
    if k.Some? && k.value < |row| then row[k.value] else Blank
  }

  /** `row` with the cell under `name` replaced, or with a new last column if there is none. */
  function Put(headers: seq<string>, row: seq<Cell>, name: string, c: Cell): (row': seq<Cell>)
    requires |row| == |headers|
    ensures |row'| == |PutHeader(headers, name)|
    ensures Get(PutHeader(headers, name), row', name) == c
  {
    var k := IndexOf(headers, name);
    if k.Some? then row[k.value := c] else row + [c]
  }

  /** Writing one column leaves every other column's cell as it was. */
  lemma PutOther(headers: seq<string>, row: seq<Cell>, name: string, c: Cell, other: string)
    requires |row| == |headers| && other != name
    ensures Get(PutHeader(headers, name), Put(headers, row, name, c), other) == Get(headers, row, other)
  {
    var k := IndexOf(headers, name);
    var hs := PutHeader(headers, name);
    if k.None? {
      IndexOfAppend(headers, name, other);
    }
  }

  lemma {:induction false} IndexOfAppend(hs: seq<string>, name: string, other: string)
    requires other != name
    ensures IndexOf(hs + [name], other) == IndexOf(hs, other)
  {
    if |hs| > 0 {
      assert (hs + [name])[1..] == hs[1..] + [name];
      IndexOfAppend(hs[1..], name, other);
    }
  }

  /** The labels after `df[name] = …`: unchanged if the column exists, else one more. */
  function PutHeader(headers: seq<string>, name: string): (hs: seq<string>)
    ensures name in hs
    ensures forall x :: x in headers ==> x in hs
  {
    if name in headers then headers else headers + [name]
  }

  /** The column under `name`, one cell per row. */
  function ColumnCells(sh: Sheet, name: string): (cells: seq<Cell>)
    ensures |cells| == |sh.rows|
    ensures forall i :: 0 <= i < |sh.rows| ==> cells[i] == Get(sh.headers, sh.rows[i], name)
  {
    seq(|sh.rows|, i requires 0 <= i < |sh.rows| => Get(sh.headers, sh.rows[i], name))
  }

  // ------------------------------------------------------------ sums

  /** The sum of the numbers among `cells`; blanks are skipped as pandas' `skipna` does. */
  function Sum(cells: seq<Cell>): real
  {
    if |cells| == 0 then 0.0
    else Sum(cells[..|cells| - 1]) + NumberOf(cells[|cells| - 1]).GetOr(0.0)
  }

  lemma {:induction false} SumAppend(cells: seq<Cell>, more: seq<Cell>)
    ensures Sum(cells + more) == Sum(cells) + Sum(more)
  {
    if |more| == 0 {
      assert cells + more == cells;
    } else {
      var init := more[..|more| - 1];
      assert (cells + more)[..|cells + more| - 1] == cells + init;
      assert (cells + more)[|cells + more| - 1] == more[|more| - 1];
      SumAppend(cells, init);
    }
  }

  /** Sums of non-negative numbers are non-negative. */
  lemma {:induction false} SumNonNegative(cells: seq<Cell>)
    requires forall i :: 0 <= i < |cells| ==> NumberOf(cells[i]).GetOr(0.0) >= 0.0
    ensures Sum(cells) >= 0.0
  {
    if |cells| > 0 {
      SumNonNegative(cells[..|cells| - 1]);
    }
  }

  /**
   * `df[name].sum()`: None where pandas raises, which this model takes to be
   * whenever the column holds anything but numbers and blanks (text is
   * concatenated or mixed with numbers, timestamps cannot be added); an
   * absent column raises `KeyError`.
   */
  function ColumnSum(sh: Sheet, name: string): (r: Option<real>)
    ensures r.Some? <==> sh.Has(name) && IsNumericColumn(ColumnCells(sh, name))
  {
    if sh.Has(name) && IsNumericColumn(ColumnCells(sh, name)) then Some(Sum(ColumnCells(sh, name)))
    else None
  }

  // ------------------------------------------------------------ group keys

  /** A group key: text cells group, everything else is dropped like NaN. */
  function KeyOf(c: Cell): Option<string>
  {
    if c.Text? then Some(c.text) else None
  }

  /** The distinct keys under `name`, in the sorted order `groupby` lists them. */
  function GroupKeys(sh: Sheet, name: string): (ks: seq<string>)
    ensures Text.StrictlySorted(ks)
    ensures forall k :: k in ks <==> exists i :: 0 <= i < |sh.rows| && KeyOf(Get(sh.headers, sh.rows[i], name)) == Some(k)
  {
    Groups.Keys(sh.rows, row => KeyOf(Get(sh.headers, row, name)))
  }

  /** The rows whose key under `name` is `k`, in their original order. */
  function RowsWithKey(headers: seq<string>, rows: seq<seq<Cell>>, name: string, k: string): (g: seq<seq<Cell>>)
    ensures |g| <= |rows|
    ensures forall r :: r in g <==> r in rows && KeyOf(Get(headers, r, name)) == Some(k)
  {
    if |rows| == 0 then []
    else
      var rest := RowsWithKey(headers, rows[..|rows| - 1], name, k);
      var last := rows[|rows| - 1];
      assert rows == rows[..|rows| - 1] + [last];
      if KeyOf(Get(headers, last, name)) == Some(k) then rest + [last] else rest
  }
}
