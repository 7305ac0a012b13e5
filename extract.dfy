/** The two scans every report tool makes over a parsed page: the search for
    the "Updated on:" annotation and the mapping of the table's data rows to
    field lists. */
module Extract {
  import opened Text
  import opened Html

  /** Why a report could not be produced. The source raises (an
      AttributeError on the missing table, an IndexError on the short row);
      either way no output at all is returned. */
  datatype ExtractError =
    | MissingTable          // no `table table-striped` on the page
    | ShortRow(index: nat)  // the row at this index of the table has too few cells

  datatype Result<+T> = Ok(value: T) | Err(error: ExtractError)

  // ---------------------------------------------------------------------
  // The "Updated on:" annotation
  // ---------------------------------------------------------------------

  const UpdatedMarker: string := "Updated on:"

  /** The paragraph's first bold element reads "Updated on:" once stripped. */
  predicate IsMarker(p: Paragraph) {
    p.bold.Some? && Strip(p.bold.value) == UpdatedMarker
  }

  /** A marker paragraph whose bold element is followed by a non-empty node;
      only such a paragraph ends the scan (the emptiness test is on the raw
      node, before stripping). */
  predicate Qualifies(p: Paragraph) {
    IsMarker(p) && p.sibling.Some? && p.sibling.value != ""
  }

  /** The stripped annotation of the first qualifying paragraph, if any. */
  function UpdatedOn(ps: seq<Paragraph>): Option<string>
  {
    if ps == [] then None
    else if Qualifies(ps[0]) then Some(Strip(ps[0].sibling.value))
    else UpdatedOn(ps[1..])
  }

  /** The first qualifying paragraph wins, a marker without a usable sibling
      is passed over, and no annotation exists exactly when no paragraph
      qualifies. */
  lemma {:induction false} UpdatedOnFirstMatch(ps: seq<Paragraph>)
    ensures UpdatedOn(ps).None? <==> forall i :: 0 <= i < |ps| ==> !Qualifies(ps[i])
    ensures forall i :: 0 <= i < |ps| && Qualifies(ps[i]) && (forall j :: 0 <= j < i ==> !Qualifies(ps[j])) ==>
      UpdatedOn(ps) == Some(Strip(ps[i].sibling.value))
  {
    if ps != [] {
      UpdatedOnFirstMatch(ps[1..]);
      if !Qualifies(ps[0]) {
        forall i | 0 <= i < |ps| && Qualifies(ps[i]) && (forall j :: 0 <= j < i ==> !Qualifies(ps[j]))
          ensures UpdatedOn(ps) == Some(Strip(ps[i].sibling.value))
        {
          assert i > 0 && ps[1..][i - 1] == ps[i];
          forall j | 0 <= j < i - 1 ensures !Qualifies(ps[1..][j]) {
            assert ps[1..][j] == ps[j + 1];
          }
        }
        if UpdatedOn(ps).None? {
          forall i | 0 <= i < |ps| ensures !Qualifies(ps[i]) {
            if i > 0 { assert ps[i] == ps[1..][i - 1]; }
          }
        }
      }
    }
  }

  /** The paragraph scan as the source runs it: a loop over the paragraphs
      that stops at the first qualifying one. */
  method FindUpdatedOn(ps: seq<Paragraph>) returns (info: Option<string>)
    ensures info == UpdatedOn(ps)
  {
    info := None;
    var i := 0;
    while i < |ps|
      invariant 0 <= i <= |ps|
      invariant info == None
      invariant UpdatedOn(ps) == UpdatedOn(ps[i..])
    {
      var p := ps[i];
      assert ps[i..][0] == p && ps[i..][1..] == ps[i + 1..];
      if p.bold.Some? && Strip(p.bold.value) == UpdatedMarker {
        if p.sibling.Some? && p.sibling.value != "" {
          info := Some(Strip(p.sibling.value));
          break;
        }
      }
      i := i + 1;
    }
  }

  // ---------------------------------------------------------------------
  // Table rows to fields
  // ---------------------------------------------------------------------

  /** Where one output field comes from. */
  datatype Column =
    | Plain(col: nat)  // the stripped text of cell `col`
    | OrNA(col: nat)   // the same, or "NA" when it strips to nothing
    | Link(col: nat)   // the site base joined with the href of the cell's anchor

  /** Every cell the columns read exists in the row. */
  predicate Fits(columns: seq<Column>, cells: Row) {
    forall i :: 0 <= i < |columns| ==> columns[i].col < |cells|
  }

  /** The cell has an anchor whose href is present and non-empty. */
  predicate HasHref(cell: Cell) {
    cell.href.Some? && cell.href.value != ""
  }

  /** The detail URL of a listing row: the base followed by the anchor's
      href, or the bare base when there is no usable href. */
  function LinkUrl(cell: Cell, base: string): (url: string)
    ensures |base| <= |url| && url[..|base|] == base
    ensures url == base <==> !HasHref(cell)
    ensures HasHref(cell) ==> url[|base|..] == cell.href.value
  {
    if HasHref(cell) then
      var u := base + cell.href.value;
      assert u[..|base|] == base && u[|base|..] == cell.href.value;
      u
    else base
  }

  /** The sentinel the product-link columns use for an empty cell. */
  const NotAvailable: string := "NA"

  /** A stripped text, with "NA" standing for the empty one. */
  function NAIfEmpty(s: string): (r: string)
    ensures r != ""
    ensures s != "" ==> r == s
    ensures s == "" ==> r == NotAvailable
  {
    if s == "" then NotAvailable else s
  }

  function FieldValue(c: Column, cells: Row, base: string): string
    requires c.col < |cells|
  {
    match c
    case Plain(k) => Strip(cells[k].text)
    case OrNA(k) => NAIfEmpty(Strip(cells[k].text))
    case Link(k) => LinkUrl(cells[k], base)
  }

  /** One data row's fields, one per column, in column order. */
  function ExtractRow(columns: seq<Column>, cells: Row, base: string): (fields: seq<string>)
    requires Fits(columns, cells)
    ensures |fields| == |columns|
  {
    if columns == [] then []
    else
      assert Fits(columns[1..], cells) by {
        assert forall i :: 0 <= i < |columns| - 1 ==> columns[1..][i] == columns[i + 1];
      }
      [FieldValue(columns[0], cells, base)] + ExtractRow(columns[1..], cells, base)
  }

  /** Field i of a row comes from column i of the configuration. */
  lemma {:induction false} ExtractRowAt(columns: seq<Column>, cells: Row, base: string, i: nat)
    requires Fits(columns, cells) && i < |columns|
    ensures columns[i].col < |cells|
    ensures ExtractRow(columns, cells, base)[i] == FieldValue(columns[i], cells, base)
  {
    if i > 0 {
      assert Fits(columns[1..], cells) by {
        assert forall j :: 0 <= j < |columns| - 1 ==> columns[1..][j] == columns[j + 1];
      }
      ExtractRowAt(columns[1..], cells, base, i - 1);
      assert columns[1..][i - 1] == columns[i];
    }
  }

  /** What each kind of column puts in its field: a plain column keeps the
      stripped text even when it is empty, an "NA" column is never empty and
      reads "NA" exactly when its cell strips to nothing or to "NA" itself, and
      a link column is the base URL extended by the usable href. */
  lemma FieldMeaning(columns: seq<Column>, cells: Row, base: string, i: nat)
    requires Fits(columns, cells) && i < |columns|
    ensures columns[i].Plain? ==> ExtractRow(columns, cells, base)[i] == Strip(cells[columns[i].col].text)
    ensures columns[i].OrNA? ==>
      var f := ExtractRow(columns, cells, base)[i];
      var t := Strip(cells[columns[i].col].text);
      f != "" && (f == NotAvailable <==> t == "" || t == NotAvailable) && (t != "" ==> f == t)
    ensures columns[i].Link? ==>
      var f := ExtractRow(columns, cells, base)[i];
      var cell := cells[columns[i].col];
      (f == base <==> !HasHref(cell)) && (HasHref(cell) ==> f == base + cell.href.value)
  {
    ExtractRowAt(columns, cells, base, i);
    var f := ExtractRow(columns, cells, base)[i];
    if columns[i].Link? {
      var cell := cells[columns[i].col];
      if HasHref(cell) {
        assert f == LinkUrl(cell, base);
        assert f == f[..|base|] + f[|base|..];
      }
    }
  }

  /** Lifts a failure, or puts the given rows in front of the extracted ones. */
  function Prepend(front: seq<seq<string>>, r: Result<seq<seq<string>>>): Result<seq<seq<string>>>
  {
    match r
    case Ok(rest) => Ok(front + rest)
    case Err(e) => Err(e)
  }

  /** The rows from index k on, extracted in order; the first short row fails
      the whole extraction. */
  function ExtractFrom(columns: seq<Column>, rows: seq<Row>, k: nat, base: string): Result<seq<seq<string>>>
    decreases |rows| - k
  {
    if k >= |rows| then Ok([])
    else if !Fits(columns, rows[k]) then Err(ShortRow(k))
    else Prepend([ExtractRow(columns, rows[k], base)], ExtractFrom(columns, rows, k + 1, base))
  }

  /** The table's data rows: every row but the first (header) one. */
  function ExtractTable(columns: seq<Column>, rows: seq<Row>, base: string): Result<seq<seq<string>>>
  {
    ExtractFrom(columns, rows, 1, base)
  }

  lemma {:induction false} ExtractFromOk(columns: seq<Column>, rows: seq<Row>, k: nat, base: string)
    ensures ExtractFrom(columns, rows, k, base).Ok? <==> forall j :: k <= j < |rows| ==> Fits(columns, rows[j])
    decreases |rows| - k
  {
    if k < |rows| {
      ExtractFromOk(columns, rows, k + 1, base);
      if ExtractFrom(columns, rows, k, base).Ok? {
        forall j | k <= j < |rows| ensures Fits(columns, rows[j]) {
          if j > k {
            assert ExtractFrom(columns, rows, k + 1, base).Ok?;
          }
        }
      }
    }
  }

  lemma {:induction false} ExtractFromLength(columns: seq<Column>, rows: seq<Row>, k: nat, base: string)
    requires ExtractFrom(columns, rows, k, base).Ok?
    ensures |ExtractFrom(columns, rows, k, base).value| == if k < |rows| then |rows| - k else 0
    decreases |rows| - k
  {
    if k < |rows| {
      ExtractFromLength(columns, rows, k + 1, base);
    }
  }

  lemma {:induction false} ExtractFromAt(columns: seq<Column>, rows: seq<Row>, k: nat, base: string, i: nat)
    requires ExtractFrom(columns, rows, k, base).Ok?
    requires k + i < |rows|
    ensures Fits(columns, rows[k + i])
    ensures |ExtractFrom(columns, rows, k, base).value| > i
    ensures ExtractFrom(columns, rows, k, base).value[i] == ExtractRow(columns, rows[k + i], base)
    decreases i
  {
    var tail := ExtractFrom(columns, rows, k + 1, base);
    assert Fits(columns, rows[k]) && tail.Ok?;
    if i > 0 {
      ExtractFromAt(columns, rows, k + 1, base, i - 1);
      assert k + i == (k + 1) + (i - 1);
    }
  }

  lemma {:induction false} ExtractFromErr(columns: seq<Column>, rows: seq<Row>, k: nat, base: string)
    ensures ExtractFrom(columns, rows, k, base).Err? ==>
      var e := ExtractFrom(columns, rows, k, base).error;
      e.ShortRow? && k <= e.index < |rows| && !Fits(columns, rows[e.index]) &&
      forall j :: k <= j < e.index ==> Fits(columns, rows[j])
    decreases |rows| - k
  {
    if k < |rows| {
      ExtractFromErr(columns, rows, k + 1, base);
    }
  }

  /** Exactly one field list per table row after the header row, in table
      order, when every data row has the cells the columns read; otherwise
      the extraction fails at the first data row that lacks one, and only
      there. The header row is never read. */
  lemma ExtractTableMeaning(columns: seq<Column>, rows: seq<Row>, base: string)
    ensures ExtractTable(columns, rows, base).Ok? <==> forall j :: 1 <= j < |rows| ==> Fits(columns, rows[j])
    ensures ExtractTable(columns, rows, base).Ok? ==>
      var rs := ExtractTable(columns, rows, base).value;
      |rs| == (if |rows| > 0 then |rows| - 1 else 0) &&
      forall i :: 0 <= i < |rs| ==> Fits(columns, rows[i + 1]) && rs[i] == ExtractRow(columns, rows[i + 1], base)
    ensures ExtractTable(columns, rows, base).Err? ==>
      var e := ExtractTable(columns, rows, base).error;
      e.ShortRow? && 1 <= e.index < |rows| && !Fits(columns, rows[e.index]) &&
      forall j :: 1 <= j < e.index ==> Fits(columns, rows[j])
  {
    ExtractFromOk(columns, rows, 1, base);
    ExtractFromErr(columns, rows, 1, base);
    if ExtractTable(columns, rows, base).Ok? {
      ExtractFromLength(columns, rows, 1, base);
      forall i | 0 <= i < |rows| - 1
        ensures Fits(columns, rows[i + 1])
        ensures ExtractTable(columns, rows, base).value[i] == ExtractRow(columns, rows[i + 1], base)
      {
        ExtractFromAt(columns, rows, 1, base, i);
        assert 1 + i == i + 1;
      }
    }
  }

  /** The header row plays no part: any header row gives the same result. */
  lemma HeaderIgnored(columns: seq<Column>, header: Row, header': Row, data: seq<Row>, base: string)
    ensures ExtractTable(columns, [header] + data, base) == ExtractTable(columns, [header'] + data, base)
  {
    var rows, rows' := [header] + data, [header'] + data;
    ExtractTableMeaning(columns, rows, base);
    ExtractTableMeaning(columns, rows', base);
    assert forall j :: 1 <= j < |rows| ==> rows[j] == rows'[j];
    var r, r' := ExtractTable(columns, rows, base), ExtractTable(columns, rows', base);
    if r.Ok? {
      assert r.value == r'.value;
    } else {
      assert r.error == r'.error;
    }
  }

  lemma PrependNothing(r: Result<seq<seq<string>>>)
    ensures Prepend([], r) == r
  {
    if r.Ok? {
      assert [] + r.value == r.value;
    }
  }

  /** One turn of the row loop: a row that has its cells moves from the part
      still to be read to the rows already extracted. */
  lemma ExtractFromStep(columns: seq<Column>, rows: seq<Row>, k: nat, base: string, acc: seq<seq<string>>)
    requires k < |rows| && Fits(columns, rows[k])
    ensures Prepend(acc, ExtractFrom(columns, rows, k, base)) ==
            Prepend(acc + [ExtractRow(columns, rows[k], base)], ExtractFrom(columns, rows, k + 1, base))
  {
    var fields := ExtractRow(columns, rows[k], base);
    var tail := ExtractFrom(columns, rows, k + 1, base);
    assert ExtractFrom(columns, rows, k, base) == Prepend([fields], tail);
    if tail.Ok? {
      assert acc + ([fields] + tail.value) == (acc + [fields]) + tail.value;
    }
  }

  /** The data-row loop as the source runs it: rows after the first, in
      order, each appended to the result list once its cells are read. */
  method ExtractRows(columns: seq<Column>, rows: seq<Row>, base: string) returns (r: Result<seq<seq<string>>>)
    ensures r == ExtractTable(columns, rows, base)
  {
    var acc: seq<seq<string>> := [];
    var k := 1;
    PrependNothing(ExtractFrom(columns, rows, k, base));
    while k < |rows|
      invariant 1 <= k
      invariant ExtractTable(columns, rows, base) == Prepend(acc, ExtractFrom(columns, rows, k, base))
      decreases |rows| - k
    {
      var cells := rows[k];
      if !Fits(columns, cells) {
        return Err(ShortRow(k));
      }
      ExtractFromStep(columns, rows, k, base, acc);
      acc := acc + [ExtractRow(columns, cells, base)];
      k := k + 1;
    }
    assert acc + [] == acc;
    r := Ok(acc);
  }
}
