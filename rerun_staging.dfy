/**
 * The rerun staging table: a list of (sample, component) rerun requests
 * that grows by one of four operator actions and never holds a row twice.
 */
module RerunStaging {
  import opened Wrappers
  import opened Strings
  import opened Sequences
  import StatusReport

  type Row = StatusReport.Row
  type Column = StatusReport.Column

  /** One staged rerun request. Two requests are the same only if all three fields agree. */
  datatype RerunRow = RerunRow(sample: string, component: string, sampleId: string)

  /** The status-table cell the operator clicked: its row position and column id. */
  datatype ActiveCell = ActiveCell(row: nat, columnId: string)

  /** The control whose change fired the update. */
  datatype Trigger =
    | NoTrigger       // the initial call: nothing fired
    | CellClicked     // a cell of the status table was clicked
    | AddComponents   // "Add all components for sample"
    | AddSamples      // "Add component for all samples"
    | AddFailed       // "Add all failed components"
    | OtherInput      // any other input of the update

  /** Why an update raises instead of returning a table. */
  datatype StagingError =
    | NoActiveCell                                 // the click trigger fired without an active cell
    | RowOutOfRange(row: nat)                      // the active cell's row is not in the table
    | NoSampleChosen                               // "add components" with an empty sample dropdown
    | MalformedChoice(choice: string)              // a sample choice that is not one "id:name" pair
    | MissingCell(sample: string, column: string)  // a component column that a row lacks

  /** A table row looked up like the source's row dict: component cells first, then the fixed keys. */
  function CellValue(row: Row, col: string): Option<string> {
    if col in row.cells then Some(row.cells[col])
    else if col == "sample" then Some(row.sample)
    else if col == "_id" then Some(row.id)
    else if col == "priority" then Some(row.priority)
    else if col == "qc_val" then Some(row.qc)
    else None
  }

  /** The ids of the component columns: every column after the first three. */
  function ComponentColumnIds(columns: seq<Column>): (ids: seq<string>)
    ensures |columns| >= 3 ==> |ids| == |columns| - 3
    ensures |columns| >= 3 ==> forall k :: 0 <= k < |ids| ==> ids[k] == columns[k + 3].id
    ensures |columns| < 3 ==> ids == []
  {
    if |columns| < 3 then []
    else seq(|columns| - 3, k requires 0 <= k < |columns| - 3 => columns[k + 3].id)
  }

  // ---------------------------------------------------------------------------
  // The rows each action stages

  /** "Add component for all samples": one request per visible row for the chosen component. */
  function SampleRows(table: seq<Row>, component: string): (rows: seq<RerunRow>)
    ensures |rows| == |table|
    ensures forall i :: 0 <= i < |table| ==> rows[i] == RerunRow(table[i].sample, component, table[i].id)
  {
    seq(|table|, i requires 0 <= i < |table| => RerunRow(table[i].sample, component, table[i].id))
  }

  /** "Add all components for sample": one request per component column for the sample `id`. */
  function ComponentRows(id: string, name: string, components: seq<string>): (rows: seq<RerunRow>)
    ensures |rows| == |components|
    ensures forall k :: 0 <= k < |components| ==> rows[k] == RerunRow(name, components[k], id)
  {
    seq(|components|, k requires 0 <= k < |components| => RerunRow(name, components[k], id))
  }

  /** The failed cells of one row, in column order. */
  function FailedIn(row: Row, components: seq<string>): (r: Result<seq<RerunRow>, StagingError>)
    ensures r.Ok? <==> forall c :: c in components ==> CellValue(row, c).Some?
    ensures r.Ok? ==> forall x :: x in r.value <==>
      exists c :: c in components && CellValue(row, c) == Some("Fail") && x == RerunRow(row.sample, c, row.id)
  {
    if components == [] then Ok([])
    else
      var init := components[..|components| - 1];
      var c := components[|components| - 1];
      assert components == init + [c];
      match FailedIn(row, init)
      case Err(e) => Err(e)
      case Ok(found) =>
        match CellValue(row, c)
        case None => Err(MissingCell(row.sample, c))
        case Some(v) => Ok(if v == "Fail" then found + [RerunRow(row.sample, c, row.id)] else found)
  }

  /** "Add all failed components": the failed cells of the visible rows, row by row. */
  function FailedRows(table: seq<Row>, components: seq<string>): (r: Result<seq<RerunRow>, StagingError>)
    ensures r.Ok? <==> forall i, c :: 0 <= i < |table| && c in components ==> CellValue(table[i], c).Some?
    ensures r.Ok? ==> forall x :: x in r.value <==>
      exists i, c :: 0 <= i < |table| && c in components && CellValue(table[i], c) == Some("Fail") &&
        x == RerunRow(table[i].sample, c, table[i].id)
  {
    if table == [] then Ok([])
    else
      var init := table[..|table| - 1];
      var row := table[|table| - 1];
      assert forall i :: 0 <= i < |init| ==> init[i] == table[i];
      match FailedRows(init, components)
      case Err(e) => Err(e)
      case Ok(found) =>
        match FailedIn(row, components)
        case Err(e) => Err(e)
        case Ok(more) => Ok(found + more)
  }

  /** The failed cells of two column lists are those of the first followed by those of the second; the first missing cell stops it. */
  lemma {:induction false} FailedInAppend(row: Row, a: seq<string>, b: seq<string>)
    ensures FailedIn(row, a + b) ==
      match FailedIn(row, a)
      case Err(e) => Err(e)
      case Ok(x) =>
        match FailedIn(row, b)
        case Err(e) => Err(e)
        case Ok(y) => Ok(x + y)
    decreases |b|
  {
    if b == [] {
      assert a + b == a;
      if FailedIn(row, a).Ok? {
        assert FailedIn(row, a).value + [] == FailedIn(row, a).value;
      }
    } else {
      var n := |b| - 1;
      assert (a + b)[..|a + b| - 1] == a + b[..n];
      assert (a + b)[|a + b| - 1] == b[n];
      FailedInAppend(row, a, b[..n]);
      if FailedIn(row, a).Ok? && FailedIn(row, b[..n]).Ok? && CellValue(row, b[n]).Some? {
        var x, y := FailedIn(row, a).value, FailedIn(row, b[..n]).value;
        var r := RerunRow(row.sample, b[n], row.id);
        assert (x + y) + [r] == x + (y + [r]);
      }
    }
  }

  /** One column stages its cell's row when the cell reads "Fail", nothing for any other value, and fails when the cell is missing. */
  lemma FailedInOne(row: Row, c: string)
    ensures FailedIn(row, [c]) ==
      match CellValue(row, c)
      case None => Err(MissingCell(row.sample, c))
      case Some(v) => Ok(if v == "Fail" then [RerunRow(row.sample, c, row.id)] else [])
  {
    assert [c][..0] == [];
    assert FailedIn(row, []) == Ok([]);
    assert [] + [RerunRow(row.sample, c, row.id)] == [RerunRow(row.sample, c, row.id)];
  }

  /** The failed cells of two tables are those of the first followed by those of the second: row by row. */
  lemma {:induction false} FailedRowsAppend(s: seq<Row>, t: seq<Row>, components: seq<string>)
    ensures FailedRows(s + t, components) ==
      match FailedRows(s, components)
      case Err(e) => Err(e)
      case Ok(x) =>
        match FailedRows(t, components)
        case Err(e) => Err(e)
        case Ok(y) => Ok(x + y)
    decreases |t|
  {
    if t == [] {
      assert s + t == s;
      if FailedRows(s, components).Ok? {
        assert FailedRows(s, components).value + [] == FailedRows(s, components).value;
      }
    } else {
      var n := |t| - 1;
      assert (s + t)[..|s + t| - 1] == s + t[..n];
      assert (s + t)[|s + t| - 1] == t[n];
      FailedRowsAppend(s, t[..n], components);
      if FailedRows(s, components).Ok? && FailedRows(t[..n], components).Ok? && FailedIn(t[n], components).Ok? {
        var x, y, z := FailedRows(s, components).value, FailedRows(t[..n], components).value, FailedIn(t[n], components).value;
        assert (x + y) + z == x + (y + z);
      }
    }
  }

  /** A one-row table stages that row's failed cells, in column order. */
  lemma FailedRowsOne(row: Row, components: seq<string>)
    ensures FailedRows([row], components) == FailedIn(row, components)
  {
    assert [row][..0] == [];
    assert FailedRows([], components) == Ok([]);
    if FailedIn(row, components).Ok? {
      assert [] + FailedIn(row, components).value == FailedIn(row, components).value;
    }
  }

  /** The rows an action stages, before they are merged into the table. */
  function StagedRows(active: Option<ActiveCell>, table: seq<Row>, trigger: Trigger,
                      components: seq<string>, choice: Option<string>, component: string)
    : Result<seq<RerunRow>, StagingError>
  {
    match trigger
    case CellClicked =>
      if active.None? then Err(NoActiveCell)
      else if active.value.row >= |table| then Err(RowOutOfRange(active.value.row))
      else
        var row := table[active.value.row];
        Ok([RerunRow(row.sample, active.value.columnId, row.id)])
    case AddComponents =>
      if choice.None? then Err(NoSampleChosen)
      else
        var parts := Split(choice.value, ':');
        if |parts| != 2 then Err(MalformedChoice(choice.value))
        else Ok(ComponentRows(parts[0], parts[1], components))
    case AddSamples => Ok(SampleRows(table, component))
    case AddFailed => FailedRows(table, components)
    case NoTrigger => Ok([])
    case OtherInput => Ok([])
  }

  // ---------------------------------------------------------------------------
  // Merging into the table

  /** Appends each new row that the table does not hold yet, in order. */
  function Merge(prev: seq<RerunRow>, added: seq<RerunRow>): (r: seq<RerunRow>)
    ensures |prev| <= |r| && r[..|prev|] == prev
    ensures forall x :: x in r <==> x in prev || x in added
    decreases |added|
  {
    if added == [] then prev
    else Merge(if added[0] in prev then prev else prev + [added[0]], added[1..])
  }

  /** The staged rows that the table `prev` does not hold, in staging order. */
  function NewRows(prev: seq<RerunRow>, staged: seq<RerunRow>): (r: seq<RerunRow>)
    ensures forall x :: x in r <==> x in staged && x !in prev
  {
    if staged == [] then []
    else
      var n := |staged| - 1;
      assert forall x :: x in staged <==> x in staged[..n] || x == staged[n] by {
        assert staged == staged[..n] + [staged[n]];
      }
      NewRows(prev, staged[..n]) + (if staged[n] in prev then [] else [staged[n]])
  }

  /** Merging one more staged row appends it exactly when the merged table does not hold it. */
  lemma {:induction false} MergeSnoc(prev: seq<RerunRow>, added: seq<RerunRow>, x: RerunRow)
    ensures Merge(prev, added + [x]) ==
      if x in Merge(prev, added) then Merge(prev, added) else Merge(prev, added) + [x]
    decreases |added|
  {
    if added == [] {
      assert [x][1..] == [];
    } else {
      var next := if added[0] in prev then prev else prev + [added[0]];
      assert (added + [x])[0] == added[0];
      assert (added + [x])[1..] == added[1..] + [x];
      MergeSnoc(next, added[1..], x);
    }
  }

  /**
   * The merge appends the new staged rows in the order they were staged,
   * each once: the previous table followed by the first-seen list of the
   * staged rows it did not hold.
   */
  lemma {:induction false} MergeAppendsNewRows(prev: seq<RerunRow>, added: seq<RerunRow>)
    ensures Merge(prev, added) == prev + Dedup(NewRows(prev, added))
    decreases |added|
  {
    if added == [] {
      assert prev + [] == prev;
    } else {
      var n := |added| - 1;
      var init, x := added[..n], added[n];
      assert added == init + [x];
      MergeAppendsNewRows(prev, init);
      MergeSnoc(prev, init, x);
      MergeNewRowsStep(prev, init, x);
    }
  }

  /** The step of `MergeAppendsNewRows`: both sides agree on one more staged row. */
  lemma MergeNewRowsStep(prev: seq<RerunRow>, init: seq<RerunRow>, x: RerunRow)
    ensures var m := prev + Dedup(NewRows(prev, init));
      (if x in m then m else m + [x]) == prev + Dedup(NewRows(prev, init + [x]))
  {
    NewRowsSnoc(prev, init, x);
    if x !in prev {
      FreshRowStep(prev, NewRows(prev, init), x);
    }
  }

  /** One more staged row joins the new rows at the end exactly when the table lacks it. */
  lemma NewRowsSnoc(prev: seq<RerunRow>, init: seq<RerunRow>, x: RerunRow)
    ensures NewRows(prev, init + [x]) == if x in prev then NewRows(prev, init) else NewRows(prev, init) + [x]
  {
    assert (init + [x])[..|init|] == init;
    assert NewRows(prev, init) + [] == NewRows(prev, init);
  }

  /** A row absent from the previous table is in the merge exactly when it is among the new rows. */
  lemma FreshRowStep(prev: seq<RerunRow>, f: seq<RerunRow>, x: RerunRow)
    requires x !in prev
    ensures var m := prev + Dedup(f);
      (if x in m then m else m + [x]) == prev + Dedup(f + [x])
  {
    DedupSnoc(f, x);
    var d := Dedup(f);
    assert x in prev + d <==> x in d;
    assert prev + (d + [x]) == (prev + d) + [x];
  }

  /** Merging keeps a duplicate-free table duplicate-free. */
  lemma {:induction false} MergeKeepsDistinct(prev: seq<RerunRow>, added: seq<RerunRow>)
    requires Distinct(prev)
    ensures Distinct(Merge(prev, added))
    decreases |added|
  {
    if added != [] {
      var next := if added[0] in prev then prev else prev + [added[0]];
      assert Distinct(next);
      MergeKeepsDistinct(next, added[1..]);
    }
  }

  /** Merging rows the table already holds changes nothing. */
  lemma {:induction false} MergePresent(prev: seq<RerunRow>, added: seq<RerunRow>)
    requires forall x :: x in added ==> x in prev
    ensures Merge(prev, added) == prev
  {
    if added != [] {
      MergePresent(prev, added[1..]);
    }
  }

  /** The table after an update: the previous table (empty if none) with the staged rows merged in. */
  function RerunTableAfter(active: Option<ActiveCell>, table: seq<Row>, trigger: Trigger, columns: seq<Column>,
                           prev: Option<seq<RerunRow>>, choice: Option<string>, component: string)
    : Result<seq<RerunRow>, StagingError>
  {
    var prevData := if prev.None? then [] else prev.value;
    if active.None? && trigger == NoTrigger then Ok(prevData)
    else
      match StagedRows(active, table, trigger, ComponentColumnIds(columns), choice, component)
      case Err(e) => Err(e)
      case Ok(rows) => Ok(Merge(prevData, rows))
  }

  // ---------------------------------------------------------------------------
  // Properties

  /** With nothing triggered the table is returned as it was. */
  lemma NothingTriggered(active: Option<ActiveCell>, table: seq<Row>, columns: seq<Column>,
                         prev: seq<RerunRow>, choice: Option<string>, component: string)
    ensures RerunTableAfter(active, table, NoTrigger, columns, Some(prev), choice, component) == Ok(prev)
    ensures RerunTableAfter(active, table, NoTrigger, columns, None, choice, component) == Ok([])
  {
  }

  /**
   * An update keeps the previous table as a prefix, adds every staged row,
   * adds nothing else, and keeps a duplicate-free table duplicate-free.
   */
  lemma UpdateGrowsTable(active: Option<ActiveCell>, table: seq<Row>, trigger: Trigger, columns: seq<Column>,
                         prev: seq<RerunRow>, choice: Option<string>, component: string, after: seq<RerunRow>)
    requires RerunTableAfter(active, table, trigger, columns, Some(prev), choice, component) == Ok(after)
    ensures |prev| <= |after| && after[..|prev|] == prev
    ensures var staged := StagedRows(active, table, trigger, ComponentColumnIds(columns), choice, component);
      staged.Ok? && forall x :: x in after <==> x in prev || x in staged.value
    ensures Distinct(prev) ==> Distinct(after)
  {
    var staged := StagedRows(active, table, trigger, ComponentColumnIds(columns), choice, component);
    if active.None? && trigger == NoTrigger {
      assert staged == Ok([]);
    } else if Distinct(prev) {
      MergeKeepsDistinct(prev, staged.value);
    }
  }

  /** Replaying an update on the table it produced leaves that table unchanged. */
  lemma ReplayIsIdempotent(active: Option<ActiveCell>, table: seq<Row>, trigger: Trigger, columns: seq<Column>,
                           prev: Option<seq<RerunRow>>, choice: Option<string>, component: string, after: seq<RerunRow>)
    requires RerunTableAfter(active, table, trigger, columns, prev, choice, component) == Ok(after)
    ensures RerunTableAfter(active, table, trigger, columns, Some(after), choice, component) == Ok(after)
  {
    if !(active.None? && trigger == NoTrigger) {
      var staged := StagedRows(active, table, trigger, ComponentColumnIds(columns), choice, component).value;
      MergePresent(after, staged);
    }
  }

  /** "Add all components" for a well-formed "id:name" choice stages one row per component column. */
  lemma AddComponentsStagesEachColumn(id: string, name: string, active: Option<ActiveCell>, table: seq<Row>,
                                      components: seq<string>, component: string)
    requires ':' !in id && ':' !in name
    ensures StagedRows(active, table, AddComponents, components, Some(id + ":" + name), component)
         == Ok(ComponentRows(id, name, components))
  {
    assert id + ":" + name == id + [':'] + name;
    SplitAfterFirst(id, ':', name);
    SplitNoSep(name, ':');
  }

  /** A clicked cell is staged as it is, whatever its column, even Priority, Sample or QC status. */
  lemma ClickStagesAnyColumn(cell: ActiveCell, table: seq<Row>, components: seq<string>,
                             choice: Option<string>, component: string)
    requires cell.row < |table|
    ensures StagedRows(Some(cell), table, CellClicked, components, choice, component)
         == Ok([RerunRow(table[cell.row].sample, cell.columnId, table[cell.row].id)])
  {
  }

  // ---------------------------------------------------------------------------
  // The update, as the source computes it

  /** "Add component for all samples", row by row. */
  method StageSamples(table: seq<Row>, component: string) returns (rows: seq<RerunRow>)
    ensures rows == SampleRows(table, component)
  {
    rows := [];
    for i := 0 to |table|
      invariant rows == SampleRows(table[..i], component)
    {
      rows := rows + [RerunRow(table[i].sample, component, table[i].id)];
    }
    assert table[..|table|] == table;
  }

  /** "Add all failed components", row by row and column by column. */
  method StageFailed(table: seq<Row>, components: seq<string>) returns (r: Result<seq<RerunRow>, StagingError>)
    ensures r == FailedRows(table, components)
  {
    var rows := [];
    for i := 0 to |table|
      invariant FailedRows(table[..i], components) == Ok(rows)
    {
      var row := table[i];
      assert table[..i + 1][..i] == table[..i];
      var found := [];
      for k := 0 to |components|
        invariant FailedIn(row, components[..k]) == Ok(found)
      {
        var c := components[k];
        assert components[..k + 1][..k] == components[..k];
        var v := CellValue(row, c);
        if v.None? {
          FailedInErrPersists(row, components, k + 1);
          FailedRowsErrPersists(table, components, i + 1);
          return Err(MissingCell(row.sample, c));
        }
        if v.value == "Fail" {
          found := found + [RerunRow(row.sample, c, row.id)];
        }
      }
      assert components[..|components|] == components;
      rows := rows + found;
    }
    assert table[..|table|] == table;
    return Ok(rows);
  }

  lemma {:induction false} FailedInErrPersists(row: Row, components: seq<string>, j: nat)
    requires j <= |components| && FailedIn(row, components[..j]).Err?
    ensures FailedIn(row, components) == FailedIn(row, components[..j])
    decreases |components| - j
  {
    if j == |components| {
      assert components[..j] == components;
    } else {
      assert components[..j + 1][..j] == components[..j];
      FailedInErrPersists(row, components, j + 1);
    }
  }

  lemma {:induction false} FailedRowsErrPersists(table: seq<Row>, components: seq<string>, j: nat)
    requires j <= |table| && FailedRows(table[..j], components).Err?
    ensures FailedRows(table, components) == FailedRows(table[..j], components)
    decreases |table| - j
  {
    if j == |table| {
      assert table[..j] == table;
    } else {
      assert table[..j + 1][..j] == table[..j];
      FailedRowsErrPersists(table, components, j + 1);
    }
  }

  /** The rows the fired action generates. */
  method StageRows(active: Option<ActiveCell>, table: seq<Row>, trigger: Trigger,
                   components: seq<string>, choice: Option<string>, component: string)
    returns (r: Result<seq<RerunRow>, StagingError>)
    ensures r == StagedRows(active, table, trigger, components, choice, component)
  {
    match trigger {
      case CellClicked =>
        if active.None? {
          return Err(NoActiveCell);
        }
        if active.value.row >= |table| {
          return Err(RowOutOfRange(active.value.row));
        }
        var row := table[active.value.row];
        return Ok([RerunRow(row.sample, active.value.columnId, row.id)]);
      case AddComponents =>
        if choice.None? {
          return Err(NoSampleChosen);
        }
        var parts := Split(choice.value, ':');
        if |parts| != 2 {
          return Err(MalformedChoice(choice.value));
        }
        return Ok(ComponentRows(parts[0], parts[1], components));
      case AddSamples =>
        var rows := StageSamples(table, component);
        return Ok(rows);
      case AddFailed =>
        r := StageFailed(table, components);
      case NoTrigger =>
        return Ok([]);
      case OtherInput =>
        return Ok([]);
    }
  }

  /** Appends each generated row unless the table already holds it. */
  method MergeRows(prev: seq<RerunRow>, added: seq<RerunRow>) returns (after: seq<RerunRow>)
    ensures after == Merge(prev, added)
  {
    after := prev;
    for i := 0 to |added|
      invariant Merge(after, added[i..]) == Merge(prev, added)
    {
      assert added[i..][1..] == added[i + 1..];
      if added[i] !in after {
        after := after + [added[i]];
      }
    }
  }

  /**
   * The staging table after one trigger: the rows the action generates are
   * appended to the previous table, each unless the table already holds it.
   */
  method UpdateRerunTable(active: Option<ActiveCell>, table: seq<Row>, trigger: Trigger, columns: seq<Column>,
                          prev: Option<seq<RerunRow>>, choice: Option<string>, component: string)
    returns (r: Result<seq<RerunRow>, StagingError>)
    ensures r == RerunTableAfter(active, table, trigger, columns, prev, choice, component)
  {
    var prevData := if prev.None? then [] else prev.value;
    var components := ComponentColumnIds(columns);
    if active.None? && trigger == NoTrigger {
      return Ok(prevData);
    }
    var newRows := StageRows(active, table, trigger, components, choice, component);
    if newRows.Err? {
      return Err(newRows.error);
    }
    var after := MergeRows(prevData, newRows.value);
    return Ok(after);
  }
}
