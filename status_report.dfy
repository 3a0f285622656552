/**
 * Pipeline-status aggregation: the status table of the pipeline report page,
 * its column list, its conditional styling rules and the two dropdown option
 * lists of the rerun form.
 */
module StatusReport {
  import opened Wrappers
  import opened Strings
  import opened Sequences
  import opened Samples

  /** Why an aggregation stops; the source lets both escape as a KeyError. */
  datatype ReportError =
    | MissingSample(id: string)   // a status document whose sample the store did not return
    | UnknownStatus(raw: string)  // a raw component status outside the status table

  // ---------------------------------------------------------------------------
  // Status vocabulary

  /** The execution states a component can be in for one sample. */
  datatype ComponentStatus = Success | Running | Initialized | Failure | RequirementsNotMet | Queued

  /** How the data store spells each state. */
  function RawText(s: ComponentStatus): string {
    match s
    case Success => "Success"
    case Running => "Running"
    case Initialized => "initialized"
    case Failure => "Failure"
    case RequirementsNotMet => "Requirements not met"
    case Queued => "queued to run"
  }

  /** The short code the status table shows for each state. */
  function DisplayCode(s: ComponentStatus): string {
    match s
    case Success => "OK"
    case Running => "Running"
    case Initialized => "init."
    case Failure => "Fail"
    case RequirementsNotMet => "Req."
    case Queued => "queue"
  }

  /** Reads a raw status; anything outside the six spellings is not a state. */
  function ParseStatus(raw: string): (st: Option<ComponentStatus>)
    ensures st.Some? ==> RawText(st.value) == raw
    ensures st.None? ==> forall s: ComponentStatus :: RawText(s) != raw
  {
    if raw == "Success" then Some(Success)
    else if raw == "Running" then Some(Running)
    else if raw == "initialized" then Some(Initialized)
    else if raw == "Failure" then Some(Failure)
    else if raw == "Requirements not met" then Some(RequirementsNotMet)
    else if raw == "queued to run" then Some(Queued)
    else None
  }

  /** The status dictionary lookup: the display code of a raw status, if it has one. */
  function StatusCode(raw: string): Option<string> {
    match ParseStatus(raw)
    case Some(s) => Some(DisplayCode(s))
    case None => None
  }

  /** The six entries of the status dictionary. */
  const StatusTable: seq<(string, string)> := [
    ("Success", "OK"), ("Running", "Running"), ("initialized", "init."),
    ("Failure", "Fail"), ("Requirements not met", "Req."), ("queued to run", "queue")]

  /**
   * The lookup yields a code exactly for the raw statuses of the table, and
   * then the code the table gives; distinct states never share a code.
   */
  lemma StatusCodeIsTable(raw: string)
    ensures StatusCode(raw).Some? <==> exists k :: 0 <= k < |StatusTable| && StatusTable[k].0 == raw
    ensures forall k :: 0 <= k < |StatusTable| && StatusTable[k].0 == raw ==>
      StatusCode(raw) == Some(StatusTable[k].1)
    ensures forall s, t: ComponentStatus :: DisplayCode(s) == DisplayCode(t) ==> s == t
  {
    if StatusCode(raw).Some? {
      var s := ParseStatus(raw).value;
      match s
      case Success => assert StatusTable[0].0 == raw;
      case Running => assert StatusTable[1].0 == raw;
      case Initialized => assert StatusTable[2].0 == raw;
      case Failure => assert StatusTable[3].0 == raw;
      case RequirementsNotMet => assert StatusTable[4].0 == raw;
      case Queued => assert StatusTable[5].0 == raw;
    }
  }

  // ---------------------------------------------------------------------------
  // Inputs

  /**
   * The component statuses of one sample: (component name, raw status)
   * pairs in the order of the sample's status document.
   */
  datatype SampleComponents = SampleComponents(id: string, statuses: seq<(string, string)>)

  /** The component names of a status document, in document order. */
  function ComponentKeys(entries: seq<(string, string)>): (keys: seq<string>)
    ensures |keys| == |entries|
    ensures forall i :: 0 <= i < |entries| ==> keys[i] == entries[i].0
  {
    seq(|entries|, i requires 0 <= i < |entries| => entries[i].0)
  }

  /** The raw status a document records for a component, if it records one. */
  function RawStatus(entries: seq<(string, string)>, component: string): (raw: Option<string>)
    ensures raw.None? <==> component !in ComponentKeys(entries)
    ensures raw.Some? ==> (component, raw.value) in entries
  {
    if entries == [] then None
    else if entries[0].0 == component then Some(entries[0].1)
    else
      assert ComponentKeys(entries) == [entries[0].0] + ComponentKeys(entries[1..]);
      RawStatus(entries[1..], component)
  }

  /** Every component name of every status document, in the order they are met. */
  function AllComponentNames(statuses: seq<SampleComponents>): (names: seq<string>)
    ensures forall c :: c in names <==>
      exists i :: 0 <= i < |statuses| && c in ComponentKeys(statuses[i].statuses)
  {
    if statuses == [] then []
    else
      var init := statuses[..|statuses| - 1];
      assert forall i :: 0 <= i < |init| ==> init[i] == statuses[i];
      AllComponentNames(init) + ComponentKeys(statuses[|statuses| - 1].statuses)
  }

  // ---------------------------------------------------------------------------
  // Component catalogue and columns

  /** The canonical order of the pipeline's components. */
  const ComponentsOrder: seq<string> := [
    "whats_my_species", "analyzer", "assemblatron", "ssi_stamper",
    "ariba_resfinder", "ariba_mlst", "ariba_plasmidfinder",
    "ariba_virulencefinder", "sp_cdiff_fbi", "sp_ecoli_fbi",
    "sp_salm_fbi", "min_read_check", "qcquickie"]

  /** The names of `order` that occur in `present`, kept in the order of `order`. */
  function InOrder(order: seq<string>, present: seq<string>): (r: seq<string>)
    ensures forall c :: c in r <==> c in order && c in present
    ensures |r| <= |order|
  {
    if order == [] then []
    else (if order[0] in present then [order[0]] else []) + InOrder(order[1..], present)
  }

  /** `r` is `s` with some elements left out, the rest kept in order. */
  predicate Subsequence(r: seq<string>, s: seq<string>) {
    r == [] || (s != [] && if r[0] == s[0] then Subsequence(r[1..], s[1..]) else Subsequence(r, s[1..]))
  }

  /** `InOrder` keeps the relative order of `order`: it only leaves names out. */
  lemma {:induction false} InOrderIsCanonical(order: seq<string>, present: seq<string>)
    requires Distinct(order)
    ensures Subsequence(InOrder(order, present), order)
  {
    if order != [] {
      var tail := order[1..];
      assert Distinct(tail) by {
        forall i, j | 0 <= i < j < |tail| ensures tail[i] != tail[j] {
          assert tail[i] == order[i + 1] && tail[j] == order[j + 1];
        }
      }
      InOrderIsCanonical(tail, present);
      var rest := InOrder(tail, present);
      var r := InOrder(order, present);
      if order[0] in present {
        assert r == [order[0]] + rest;
        assert r[1..] == rest;
      } else {
        assert r == rest;
        if rest != [] {
          assert rest[0] in tail;
          assert rest[0] != order[0];
        }
      }
    }
  }

  lemma ComponentsOrderDistinct()
    ensures Distinct(ComponentsOrder)
  {
  }

  /** The component names met in the status documents, each once, in first-seen order. */
  function Observed(statuses: seq<SampleComponents>): seq<string> {
    Dedup(AllComponentNames(statuses))
  }

  /** The components that get a column: those of the canonical order that were observed. */
  function Listed(statuses: seq<SampleComponents>): seq<string> {
    InOrder(ComponentsOrder, Observed(statuses))
  }

  /** A column descriptor of the status table. */
  datatype Column = Column(name: string, id: string)

  /** A dropdown entry of the rerun form. */
  datatype DropdownOption = DropdownOption(caption: string, value: string)

  const FixedColumns: seq<Column> := [
    Column("Priority", "priority"), Column("Sample", "sample"), Column("QC status", "qc_val")]

  function ComponentColumns(listed: seq<string>): (cols: seq<Column>)
    ensures |cols| == |listed|
    ensures forall i :: 0 <= i < |listed| ==> cols[i] == Column(listed[i], listed[i])
  {
    seq(|listed|, i requires 0 <= i < |listed| => Column(listed[i], listed[i]))
  }

  function ComponentOptions(listed: seq<string>): (options: seq<DropdownOption>)
    ensures |options| == |listed|
    ensures forall i :: 0 <= i < |listed| ==> options[i] == DropdownOption(listed[i], listed[i])
  {
    seq(|listed|, i requires 0 <= i < |listed| => DropdownOption(listed[i], listed[i]))
  }

  // ---------------------------------------------------------------------------
  // Conditional styling

  /** One conditional styling rule: a column, a filter query and the colours it sets. */
  datatype StyleRule = StyleRule(column: string, filterQuery: string, background: string, color: Option<string>)

  /** The four rules of the QC column. */
  const QcRules: seq<StyleRule> := [
    StyleRule("qc_val", "{qc_val} contains \"CF\"", "#ea6153", None),
    StyleRule("qc_val", "{qc_val} contains \"CF(LF)\"", "#ea6153", None),
    StyleRule("qc_val", "{qc_val} contains \"OK\"", "#27ae60", None),
    StyleRule("qc_val", "{qc_val} eq \"SL\"", "#f1c40f", None)]

  /** The filter query matching a cell of column `c` equal to `code`. */
  function CellEquals(c: string, code: string): string {
    "{" + c + "} eq \"" + code + "\""
  }

  /** The four rules of one component column: Fail, OK, Running and Req. */
  function ComponentRules(c: string): seq<StyleRule> {
    [StyleRule(c, CellEquals(c, "Fail"), "#ea6153", None),
     StyleRule(c, CellEquals(c, "OK"), "#3498db", None),
     StyleRule(c, CellEquals(c, "Running"), "#f1c40f", None),
     StyleRule(c, CellEquals(c, "Req."), "#d3d3d3", Some("#525252"))]
  }

  /** The styling rules: the QC rules, then four per observed component. */
  function Styles(seen: seq<string>): (styles: seq<StyleRule>)
    ensures |styles| == 4 + 4 * |seen|
    ensures styles[..4] == QcRules
    ensures forall k :: 0 <= k < |seen| ==> styles[4 + 4 * k..8 + 4 * k] == ComponentRules(seen[k])
  {
    if seen == [] then QcRules
    else
      var init := Styles(seen[..|seen| - 1]);
      assert forall k :: 0 <= k < |seen| - 1 ==> seen[..|seen| - 1][k] == seen[k];
      init + ComponentRules(seen[|seen| - 1])
  }

  /** Every component met in the data, listed or not, gets its four rules. */
  lemma StylesCoverObserved(statuses: seq<SampleComponents>, c: string) returns (k: nat)
    requires exists i :: 0 <= i < |statuses| && c in ComponentKeys(statuses[i].statuses)
    ensures 4 <= k && k + 4 <= |Styles(Observed(statuses))|
    ensures Styles(Observed(statuses))[k..k + 4] == ComponentRules(c)
  {
    var seen := Observed(statuses);
    assert c in AllComponentNames(statuses);
    var n := IndexOf(seen, c);
    k := 4 + 4 * n;
  }

  /** The Fail, OK, Running and Req. cells of a column are each matched by their own rule and colour. */
  lemma ComponentRulesDistinct(c: string)
    ensures forall i, j :: 0 <= i < j < 4 ==> ComponentRules(c)[i].background != ComponentRules(c)[j].background
    ensures forall i :: 0 <= i < 4 ==> ComponentRules(c)[i].column == c
  {
  }

  // ---------------------------------------------------------------------------
  // QC verdict

  /** The stamp value that decides a sample's QC cell: the expert's, else the automated one, else "N/A". */
  function Authoritative(automated: Option<string>, expert: Option<string>): string {
    if expert.Some? then expert.value
    else if automated.Some? then automated.value
    else "N/A"
  }

  /** The stamp values the QC column recognises, each with the code it shows as. */
  const QcTable: seq<(string, string)> := [
    ("fail:supplying lab", "SL"), ("N/A", "N/A"), ("fail:core facility", "CF"),
    ("fail:resequence", "CF"), ("pass:OK", "OK"), ("pass:accepted", "OK")]

  predicate KnownQcValue(v: string) {
    exists k :: 0 <= k < |QcTable| && QcTable[k].0 == v
  }

  /** The short code of a stamp value; an unrecognised value is shown as it is. */
  function QcCode(v: string): (code: string)
    ensures forall k :: 0 <= k < |QcTable| && QcTable[k].0 == v ==> code == QcTable[k].1
    ensures !KnownQcValue(v) ==> code == v
  {
    // A value equal to one of the table's keys is recognised, with that key's index as witness.
    assert v in {"fail:supplying lab", "N/A", "fail:core facility", "fail:resequence", "pass:OK", "pass:accepted"} ==>
      KnownQcValue(v) by {
      if v == QcTable[0].0 {} else if v == QcTable[1].0 {} else if v == QcTable[2].0 {}
      else if v == QcTable[3].0 {} else if v == QcTable[4].0 {} else if v == QcTable[5].0 {}
    }
    if v == "fail:supplying lab" then "SL"
    else if v == "N/A" then "N/A"
    else if v == "fail:core facility" || v == "fail:resequence" then "CF"
    else if v == "pass:OK" || v == "pass:accepted" then "OK"
    else v
  }

  predicate EndsWithStar(s: string) {
    |s| > 0 && s[|s| - 1] == '*'
  }

  /**
   * The QC cell of a sample from its automated and expert stamp values
   * (`None` for absent or NaN). An expert value overrides and adds "*".
   */
  function ResolveQc(automated: Option<string>, expert: Option<string>): (qc: string)
    ensures expert.Some? ==> EndsWithStar(qc) && qc[..|qc| - 1] == QcCode(expert.value)
    ensures expert.None? ==> qc == QcCode(Authoritative(automated, expert))
    ensures expert.None? && !EndsWithStar(Authoritative(automated, expert)) ==> !EndsWithStar(qc)
    ensures var v := Authoritative(automated, expert);
      var shown := if expert.Some? then qc[..|qc| - 1] else qc;
      (forall k :: 0 <= k < |QcTable| && QcTable[k].0 == v ==> shown == QcTable[k].1) &&
      (!KnownQcValue(v) ==> shown == v)
  {
    var code := QcCode(Authoritative(automated, expert));
    if expert.Some? then code + "*" else code
  }

  /** When an expert stamp is present the automated one plays no part. */
  lemma ExpertOverrides(a1: Option<string>, a2: Option<string>, expert: string)
    ensures ResolveQc(a1, Some(expert)) == ResolveQc(a2, Some(expert))
  {
  }

  // ---------------------------------------------------------------------------
  // Rows

  /** One row of the status table; `cells` maps each listed component to its display code. */
  datatype Row = Row(sample: string, id: string, priority: string, qc: string, cells: map<string, string>)

  /** The name of the sentinel sample that the table leaves out. */
  const Undetermined := "Undetermined"

  /** The priority shown for a sample: its label lower-cased; a NaN label prints as "nan". */
  function PriorityText(p: Option<string>): string {
    match p
    case Some(text) => Lower(text)
    case None => "nan"
  }

  /** The cell of one listed component: "None" when the sample has no status for it. */
  function ComponentCell(entries: seq<(string, string)>, c: string): Result<string, ReportError> {
    match RawStatus(entries, c)
    case None => Ok("None")
    case Some(raw) =>
      match StatusCode(raw)
      case Some(code) => Ok(code)
      case None => Err(UnknownStatus(raw))
  }

  /** The cells of a row, filled component by component; the first unknown status stops it. */
  function Cells(entries: seq<(string, string)>, cs: seq<string>): (r: Result<map<string, string>, ReportError>)
    ensures r.Ok? <==> forall c :: c in cs ==> ComponentCell(entries, c).Ok?
    ensures r.Ok? ==> r.value.Keys == (set c | c in cs)
    ensures r.Ok? ==> forall c :: c in cs ==> r.value[c] == ComponentCell(entries, c).value
    ensures r.Err? ==> r.error.UnknownStatus? && ParseStatus(r.error.raw).None?
  {
    if cs == [] then Ok(map[])
    else
      var init := cs[..|cs| - 1];
      var last := cs[|cs| - 1];
      assert cs == init + [last];
      match Cells(entries, init)
      case Err(e) => Err(e)
      case Ok(m) =>
        match ComponentCell(entries, last)
        case Err(e) => Err(e)
        case Ok(code) => Ok(m[last := code])
  }

  lemma {:induction false} CellsErrPersists(entries: seq<(string, string)>, cs: seq<string>, j: nat)
    requires j <= |cs| && Cells(entries, cs[..j]).Err?
    ensures Cells(entries, cs) == Cells(entries, cs[..j])
    decreases |cs| - j
  {
    if j == |cs| {
      assert cs[..j] == cs;
    } else {
      assert cs[..j + 1][..j] == cs[..j];
      CellsErrPersists(entries, cs, j + 1);
    }
  }

  /** The row of one status document, `None` for the "Undetermined" sample. */
  function RowFor(index: map<string, Sample>, sc: SampleComponents, listed: seq<string>): Result<Option<Row>, ReportError> {
    if sc.id !in index then Err(MissingSample(sc.id))
    else
      var sample := index[sc.id];
      if sample.name == Undetermined then Ok(None)
      else
        match Cells(sc.statuses, listed)
        case Err(e) => Err(e)
        case Ok(cells) =>
          Ok(Some(Row(sample.name, sc.id, PriorityText(sample.priority),
                      ResolveQc(sample.automatedStamp, sample.expertStamp), cells)))
  }

  /** The rows of the status documents in document order, before sorting. */
  function BuildRows(index: map<string, Sample>, statuses: seq<SampleComponents>, listed: seq<string>): Result<seq<Row>, ReportError> {
    if statuses == [] then Ok([])
    else
      match BuildRows(index, statuses[..|statuses| - 1], listed)
      case Err(e) => Err(e)
      case Ok(rows) =>
        match RowFor(index, statuses[|statuses| - 1], listed)
        case Err(e) => Err(e)
        case Ok(None) => Ok(rows)
        case Ok(Some(row)) => Ok(rows + [row])
  }

  lemma {:induction false} BuildRowsErrPersists(index: map<string, Sample>, statuses: seq<SampleComponents>, listed: seq<string>, j: nat)
    requires j <= |statuses| && BuildRows(index, statuses[..j], listed).Err?
    ensures BuildRows(index, statuses, listed) == BuildRows(index, statuses[..j], listed)
    decreases |statuses| - j
  {
    if j == |statuses| {
      assert statuses[..j] == statuses;
    } else {
      assert statuses[..j + 1][..j] == statuses[..j];
      BuildRowsErrPersists(index, statuses, listed, j + 1);
    }
  }

  /** The sample dropdown: one "<id>:<name>" entry per row, in row order. */
  function SampleOptions(rows: seq<Row>): (options: seq<DropdownOption>)
    ensures |options| == |rows|
    ensures forall i :: 0 <= i < |rows| ==> options[i] == DropdownOption(rows[i].sample, rows[i].id + ":" + rows[i].sample)
  {
    seq(|rows|, i requires 0 <= i < |rows| => DropdownOption(rows[i].sample, rows[i].id + ":" + rows[i].sample))
  }

  // ---------------------------------------------------------------------------
  // Sorting by sample name

  predicate SortedByName(rows: seq<Row>) {
    forall i :: 0 <= i < |rows| - 1 ==> LexLe(rows[i].sample, rows[i + 1].sample)
  }

  function InsertByName(r: Row, sorted: seq<Row>): (s: seq<Row>)
    requires SortedByName(sorted)
    ensures SortedByName(s)
    ensures multiset(s) == multiset(sorted) + multiset{r}
    ensures s[0] == r || (sorted != [] && s[0] == sorted[0])
  {
    if sorted == [] then [r]
    else if LexLe(r.sample, sorted[0].sample) then [r] + sorted
    else
      LexLeTotal(r.sample, sorted[0].sample);
      var rest := InsertByName(r, sorted[1..]);
      assert sorted == [sorted[0]] + sorted[1..];
      [sorted[0]] + rest
  }

  /** The rows in ascending order of sample name. */
  function SortByName(rows: seq<Row>): (s: seq<Row>)
    ensures SortedByName(s)
    ensures multiset(s) == multiset(rows)
  {
    if rows == [] then []
    else
      assert rows == [rows[0]] + rows[1..];
      InsertByName(rows[0], SortByName(rows[1..]))
  }

  /** Adjacent order extends to every pair. */
  lemma {:induction false} SortedByNamePairwise(rows: seq<Row>)
    requires SortedByName(rows)
    ensures forall i, j :: 0 <= i < j < |rows| ==> LexLe(rows[i].sample, rows[j].sample)
  {
    forall i, j | 0 <= i < j < |rows| ensures LexLe(rows[i].sample, rows[j].sample) {
      var k := i + 1;
      while k < j
        invariant i < k <= j
        invariant LexLe(rows[i].sample, rows[k].sample)
      {
        LexLeTransitive(rows[i].sample, rows[k].sample, rows[k + 1].sample);
        k := k + 1;
      }
    }
  }

  // ---------------------------------------------------------------------------
  // The whole report

  /** What the aggregation returns: rows, columns, styling rules and the two dropdowns. */
  datatype Report = Report(
    rows: seq<Row>,
    columns: seq<Column>,
    styles: seq<StyleRule>,
    componentOptions: seq<DropdownOption>,
    sampleOptions: seq<DropdownOption>)

  /** The report of a set of samples and their status documents. */
  function ReportOf(samples: seq<Sample>, statuses: seq<SampleComponents>): Result<Report, ReportError> {
    var index := IndexById(samples);
    var listed := Listed(statuses);
    match BuildRows(index, statuses, listed)
    case Err(e) => Err(e)
    case Ok(rows) =>
      Ok(Report(SortByName(rows), FixedColumns + ComponentColumns(listed),
                Styles(Observed(statuses)), ComponentOptions(listed), SampleOptions(rows)))
  }

  /** The component names of the status documents, first-seen order. */
  method CollectComponents(statuses: seq<SampleComponents>) returns (seen: seq<string>)
    ensures seen == Observed(statuses)
  {
    seen := [];
    for i := 0 to |statuses|
      invariant seen == Dedup(AllComponentNames(statuses[..i]))
    {
      assert AllComponentNames(statuses[..i + 1]) == AllComponentNames(statuses[..i]) + ComponentKeys(statuses[i].statuses) by {
        assert statuses[..i + 1][..i] == statuses[..i];
      }
      seen := AddNames(seen, AllComponentNames(statuses[..i]), statuses[i].statuses);
    }
    assert statuses[..|statuses|] == statuses;
  }

  /** Adds one document's component names to those already met (`seen`, the distinct names of `base`). */
  method AddNames(seen: seq<string>, ghost base: seq<string>, entries: seq<(string, string)>) returns (seen': seq<string>)
    requires seen == Dedup(base)
    ensures seen' == Dedup(base + ComponentKeys(entries))
  {
    seen' := seen;
    ghost var keys := ComponentKeys(entries);
    assert base + keys[..0] == base;
    for j := 0 to |entries|
      invariant seen' == Dedup(base + keys[..j])
    {
      AddNameStep(base, keys, j);
      if entries[j].0 !in seen' {
        seen' := seen' + [entries[j].0];
      }
    }
    assert keys[..|entries|] == keys;
  }

  lemma AddNameStep(base: seq<string>, keys: seq<string>, j: nat)
    requires j < |keys|
    ensures var seen := Dedup(base + keys[..j]);
      Dedup(base + keys[..j + 1]) == if keys[j] in seen then seen else seen + [keys[j]]
  {
    assert base + keys[..j + 1] == (base + keys[..j]) + [keys[j]];
    DedupSnoc(base + keys[..j], keys[j]);
  }

  /** The column list and the component dropdown for the listed components. */
  method BuildColumns(listed: seq<string>) returns (columns: seq<Column>, options: seq<DropdownOption>)
    ensures columns == FixedColumns + ComponentColumns(listed)
    ensures options == ComponentOptions(listed)
  {
    columns := FixedColumns;
    options := [];
    for i := 0 to |listed|
      invariant columns == FixedColumns + ComponentColumns(listed[..i])
      invariant options == ComponentOptions(listed[..i])
    {
      columns := columns + [Column(listed[i], listed[i])];
      options := options + [DropdownOption(listed[i], listed[i])];
    }
    assert listed[..|listed|] == listed;
  }

  /** The styling rules for the observed components. */
  method BuildStyles(seen: seq<string>) returns (styles: seq<StyleRule>)
    ensures styles == Styles(seen)
  {
    styles := QcRules;
    for i := 0 to |seen|
      invariant styles == Styles(seen[..i])
    {
      assert seen[..i + 1][..i] == seen[..i];
      styles := styles + ComponentRules(seen[i]);
    }
    assert seen[..|seen|] == seen;
  }

  /** The cells of one row, component by component. */
  method BuildCells(entries: seq<(string, string)>, listed: seq<string>) returns (r: Result<map<string, string>, ReportError>)
    ensures r == Cells(entries, listed)
  {
    var cells := map[];
    for j := 0 to |listed|
      invariant Cells(entries, listed[..j]) == Ok(cells)
    {
      var c := listed[j];
      assert listed[..j + 1][..j] == listed[..j];
      var raw := RawStatus(entries, c);
      if raw.None? {
        cells := cells[c := "None"];
      } else {
        var code := StatusCode(raw.value);
        if code.None? {
          CellsErrPersists(entries, listed, j + 1);
          return Err(UnknownStatus(raw.value));
        }
        cells := cells[c := code.value];
      }
    }
    assert listed[..|listed|] == listed;
    return Ok(cells);
  }

  /** The row of one status document, or none for the "Undetermined" sample. */
  method RowOf(index: map<string, Sample>, sc: SampleComponents, listed: seq<string>)
    returns (r: Result<Option<Row>, ReportError>)
    ensures r == RowFor(index, sc, listed)
  {
    if sc.id !in index {
      return Err(MissingSample(sc.id));
    }
    var sample := index[sc.id];
    if sample.name == Undetermined {
      return Ok(None);
    }
    var priority := PriorityText(sample.priority);
    var qc := ResolveQc(sample.automatedStamp, sample.expertStamp);
    var cells := BuildCells(sc.statuses, listed);
    if cells.Err? {
      return Err(cells.error);
    }
    return Ok(Some(Row(sample.name, sc.id, priority, qc, cells.value)));
  }

  lemma SampleOptionsSnoc(rows: seq<Row>, row: Row)
    ensures SampleOptions(rows + [row]) == SampleOptions(rows) + [DropdownOption(row.sample, row.id + ":" + row.sample)]
  {
  }

  /** The rows and the sample options, status document by status document. */
  method BuildReportRows(index: map<string, Sample>, statuses: seq<SampleComponents>, listed: seq<string>)
    returns (r: Result<seq<Row>, ReportError>, sampleOptions: seq<DropdownOption>)
    ensures r == BuildRows(index, statuses, listed)
    ensures r.Ok? ==> sampleOptions == SampleOptions(r.value)
  {
    var rows: seq<Row> := [];
    sampleOptions := [];
    for i := 0 to |statuses|
      invariant BuildRows(index, statuses[..i], listed) == Ok(rows)
      invariant sampleOptions == SampleOptions(rows)
    {
      assert statuses[..i + 1][..i] == statuses[..i];
      var row := RowOf(index, statuses[i], listed);
      if row.Err? {
        BuildRowsErrPersists(index, statuses, listed, i + 1);
        return Err(row.error), sampleOptions;
      }
      if row.value.Some? {
        var added := row.value.value;
        SampleOptionsSnoc(rows, added);
        sampleOptions := sampleOptions + [DropdownOption(added.sample, added.id + ":" + added.sample)];
        rows := rows + [added];
      }
    }
    assert statuses[..|statuses|] == statuses;
    return Ok(rows), sampleOptions;
  }

  /**
   * The pipeline report data: columns from the canonical component order,
   * one row per status document except the "Undetermined" sample, rows
   * sorted by sample name.
   */
  method PipelineReportData(samples: seq<Sample>, statuses: seq<SampleComponents>) returns (r: Result<Report, ReportError>)
    ensures r == ReportOf(samples, statuses)
  {
    var index := IndexById(samples);
    var seen := CollectComponents(statuses);
    var listed := InOrder(ComponentsOrder, seen);
    var columns, componentOptions := BuildColumns(listed);
    var styles := BuildStyles(seen);
    var rows, sampleOptions := BuildReportRows(index, statuses, listed);
    if rows.Err? {
      return Err(rows.error);
    }
    return Ok(Report(SortByName(rows.value), columns, styles, componentOptions, sampleOptions));
  }

  // ---------------------------------------------------------------------------
  // Properties of the report

  /** The ids of a column list. */
  function ColumnIds(cols: seq<Column>): (ids: seq<string>)
    ensures |ids| == |cols|
    ensures forall i :: 0 <= i < |cols| ==> ids[i] == cols[i].id
  {
    seq(|cols|, i requires 0 <= i < |cols| => cols[i].id)
  }

  /**
   * Columns are Priority, Sample and QC status, then the components of the
   * canonical order that occur in some status document, in canonical order;
   * the component dropdown offers exactly those components in that order.
   */
  lemma ReportColumns(samples: seq<Sample>, statuses: seq<SampleComponents>, rep: Report)
    requires ReportOf(samples, statuses) == Ok(rep)
    ensures |rep.columns| >= 3 && rep.columns[..3] == FixedColumns
    ensures forall k :: 3 <= k < |rep.columns| ==> rep.columns[k].name == rep.columns[k].id
    ensures forall c :: c in ColumnIds(rep.columns[3..]) <==>
      c in ComponentsOrder && exists i :: 0 <= i < |statuses| && c in ComponentKeys(statuses[i].statuses)
    ensures Subsequence(ColumnIds(rep.columns[3..]), ComponentsOrder)
    ensures |rep.componentOptions| == |rep.columns| - 3
    ensures forall k :: 0 <= k < |rep.componentOptions| ==>
      rep.componentOptions[k] == DropdownOption(rep.columns[3 + k].id, rep.columns[3 + k].id)
  {
    var listed := Listed(statuses);
    assert rep.columns == FixedColumns + ComponentColumns(listed);
    assert ColumnIds(rep.columns[3..]) == listed;
    ComponentsOrderDistinct();
    InOrderIsCanonical(ComponentsOrder, Observed(statuses));
  }

  /** A cell shows "None" for a component the sample has no status for, else the code of its status. */
  predicate CellShows(entries: seq<(string, string)>, c: string, code: string) {
    match RawStatus(entries, c)
    case None => code == "None"
    case Some(raw) => ParseStatus(raw).Some? && code == DisplayCode(ParseStatus(raw).value)
  }

  /** What the row of sample `sample` with status document `sc` holds. */
  predicate RowMatches(row: Row, sample: Sample, sc: SampleComponents, listed: seq<string>) {
    && row.id == sc.id
    && row.sample == sample.name
    && row.priority == PriorityText(sample.priority)
    && row.qc == ResolveQc(sample.automatedStamp, sample.expertStamp)
    && row.cells.Keys == (set c | c in listed)
    && forall c :: c in listed ==> CellShows(sc.statuses, c, row.cells[c])
  }

  /** Every status document has its sample, and no listed status of a reported sample is unknown. */
  predicate Recognised(index: map<string, Sample>, statuses: seq<SampleComponents>, listed: seq<string>) {
    forall i :: 0 <= i < |statuses| ==> RecognisedDoc(index, statuses[i], listed)
  }

  predicate RecognisedDoc(index: map<string, Sample>, sc: SampleComponents, listed: seq<string>) {
    sc.id in index &&
    (index[sc.id].name != Undetermined ==>
      forall c :: c in listed && RawStatus(sc.statuses, c).Some? ==>
        ParseStatus(RawStatus(sc.statuses, c).value).Some?)
  }

  /** A status document gets a row when its sample is known and not named "Undetermined". */
  predicate GetsRow(index: map<string, Sample>, sc: SampleComponents) {
    sc.id in index && index[sc.id].name != Undetermined
  }

  /** The status documents that get a row: those of a known sample not named "Undetermined". */
  function Kept(index: map<string, Sample>, statuses: seq<SampleComponents>): (kept: seq<SampleComponents>)
    ensures forall k :: 0 <= k < |kept| ==> kept[k].id in index && index[kept[k].id].name != Undetermined
    ensures forall sc :: sc in kept <==> sc in statuses && GetsRow(index, sc)
    ensures |kept| <= |statuses|
  {
    if statuses == [] then []
    else
      var last := statuses[|statuses| - 1];
      var init := Kept(index, statuses[..|statuses| - 1]);
      if last.id in index && index[last.id].name != Undetermined then init + [last] else init
  }

  /** The documents kept from two lists are those kept from the first followed by those kept from the second. */
  lemma {:induction false} KeptAppend(index: map<string, Sample>, a: seq<SampleComponents>, b: seq<SampleComponents>)
    ensures Kept(index, a + b) == Kept(index, a) + Kept(index, b)
    decreases |b|
  {
    if b == [] {
      assert a + b == a;
    } else {
      var n := |b| - 1;
      assert (a + b)[..|a + b| - 1] == a + b[..n];
      assert (a + b)[|a + b| - 1] == b[n];
      KeptAppend(index, a, b[..n]);
    }
  }

  /** One document is kept exactly when it gets a row. */
  lemma KeptOne(index: map<string, Sample>, sc: SampleComponents)
    ensures Kept(index, [sc]) == if GetsRow(index, sc) then [sc] else []
  {
    assert [sc][..0] == [];
  }

  /** What one status document contributes: a row, nothing, or the error that stops the report. */
  lemma RowForSpec(index: map<string, Sample>, sc: SampleComponents, listed: seq<string>)
    ensures RowFor(index, sc, listed).Ok? <==> RecognisedDoc(index, sc, listed)
    ensures RowFor(index, sc, listed) == Ok(None) <==> sc.id in index && index[sc.id].name == Undetermined
    ensures RowFor(index, sc, listed).Ok? && RowFor(index, sc, listed).value.Some? ==>
      sc.id in index && index[sc.id].name != Undetermined &&
      RowMatches(RowFor(index, sc, listed).value.value, index[sc.id], sc, listed)
    ensures RowFor(index, sc, listed).Err? ==>
      match RowFor(index, sc, listed).error
      case MissingSample(id) => id == sc.id && id !in index
      case UnknownStatus(raw) => ParseStatus(raw).None?
  {
  }

  lemma {:induction false} BuildRowsSucceeds(index: map<string, Sample>, statuses: seq<SampleComponents>, listed: seq<string>)
    ensures BuildRows(index, statuses, listed).Ok? <==> Recognised(index, statuses, listed)
    ensures BuildRows(index, statuses, listed).Err? ==>
      match BuildRows(index, statuses, listed).error
      case MissingSample(id) => id !in index && exists i :: 0 <= i < |statuses| && statuses[i].id == id
      case UnknownStatus(raw) => ParseStatus(raw).None?
  {
    if statuses != [] {
      var n := |statuses| - 1;
      var init := statuses[..n];
      BuildRowsSucceeds(index, init, listed);
      RowForSpec(index, statuses[n], listed);
      RecognisedSnoc(index, statuses, listed);
    }
  }

  /** The documents are recognised exactly when all but the last are and the last one is. */
  lemma RecognisedSnoc(index: map<string, Sample>, statuses: seq<SampleComponents>, listed: seq<string>)
    requires statuses != []
    ensures Recognised(index, statuses, listed) <==>
      Recognised(index, statuses[..|statuses| - 1], listed) && RecognisedDoc(index, statuses[|statuses| - 1], listed)
  {
    var n := |statuses| - 1;
    var init := statuses[..n];
    if Recognised(index, init, listed) && RecognisedDoc(index, statuses[n], listed) {
      forall i | 0 <= i < |statuses| ensures RecognisedDoc(index, statuses[i], listed) {
        if i < n { assert statuses[i] == init[i]; }
      }
    }
    if Recognised(index, statuses, listed) {
      forall i | 0 <= i < n ensures RecognisedDoc(index, init[i], listed) {
        assert init[i] == statuses[i];
      }
    }
  }

  lemma {:induction false} BuildRowsShape(index: map<string, Sample>, statuses: seq<SampleComponents>, listed: seq<string>)
    requires BuildRows(index, statuses, listed).Ok?
    ensures |BuildRows(index, statuses, listed).value| == |Kept(index, statuses)|
    ensures forall k :: 0 <= k < |Kept(index, statuses)| ==>
      RowMatches(BuildRows(index, statuses, listed).value[k], index[Kept(index, statuses)[k].id], Kept(index, statuses)[k], listed)
  {
    if statuses != [] {
      var n := |statuses| - 1;
      var init := statuses[..n];
      var last := statuses[n];
      BuildRowsShape(index, init, listed);
      RowForSpec(index, last, listed);
      var rows := BuildRows(index, init, listed).value;
      var kept0 := Kept(index, init);
      if RowFor(index, last, listed).value.Some? {
        var row := RowFor(index, last, listed).value.value;
        var kept := Kept(index, statuses);
        assert kept == kept0 + [last];
        assert BuildRows(index, statuses, listed).value == rows + [row];
        forall k | 0 <= k < |kept|
          ensures RowMatches((rows + [row])[k], index[kept[k].id], kept[k], listed)
        {
          if k < |rows| {
            assert (rows + [row])[k] == rows[k] && kept[k] == kept0[k];
          }
        }
      }
    }
  }

  /** The report exists exactly when every status document has its sample and no reported status is unknown. */
  lemma ReportSucceeds(samples: seq<Sample>, statuses: seq<SampleComponents>)
    ensures ReportOf(samples, statuses).Ok? <==> Recognised(IndexById(samples), statuses, Listed(statuses))
    ensures ReportOf(samples, statuses).Err? ==>
      match ReportOf(samples, statuses).error
      case MissingSample(id) =>
        (forall d :: d in samples ==> d.id != id) && exists i :: 0 <= i < |statuses| && statuses[i].id == id
      case UnknownStatus(raw) => forall s: ComponentStatus :: RawText(s) != raw
  {
    BuildRowsSucceeds(IndexById(samples), statuses, Listed(statuses));
  }

  /** Rows are sorted by sample name. */
  lemma ReportRowsSorted(samples: seq<Sample>, statuses: seq<SampleComponents>, rep: Report)
    requires ReportOf(samples, statuses) == Ok(rep)
    ensures forall i, j :: 0 <= i < j < |rep.rows| ==> LexLe(rep.rows[i].sample, rep.rows[j].sample)
  {
    SortedByNamePairwise(rep.rows);
  }

  /** No row is the "Undetermined" sample. */
  lemma ReportSkipsUndetermined(samples: seq<Sample>, statuses: seq<SampleComponents>, rep: Report)
    requires ReportOf(samples, statuses) == Ok(rep)
    ensures forall row :: row in rep.rows ==> row.sample != Undetermined
  {
    var index := IndexById(samples);
    var listed := Listed(statuses);
    var unsorted := BuildRows(index, statuses, listed).value;
    BuildRowsShape(index, statuses, listed);
    var kept := Kept(index, statuses);
    forall k | 0 <= k < |unsorted| ensures unsorted[k].sample != Undetermined {
      assert RowMatches(unsorted[k], index[kept[k].id], kept[k], listed);
    }
    assert multiset(rep.rows) == multiset(unsorted);
    forall row | row in rep.rows ensures row.sample != Undetermined {
      assert row in multiset(unsorted);
    }
  }

  /**
   * There is one row per status document of a sample not named
   * "Undetermined", and one sample dropdown entry "<id>:<name>" per such
   * document, in input order.
   */
  lemma ReportRowsContent(samples: seq<Sample>, statuses: seq<SampleComponents>, rep: Report) returns (unsorted: seq<Row>)
    requires ReportOf(samples, statuses) == Ok(rep)
    ensures multiset(rep.rows) == multiset(unsorted)
    ensures |unsorted| == |Kept(IndexById(samples), statuses)| == |rep.sampleOptions|
    ensures forall k :: 0 <= k < |unsorted| ==>
      var kept := Kept(IndexById(samples), statuses);
      var sample := IndexById(samples)[kept[k].id];
      RowMatches(unsorted[k], sample, kept[k], Listed(statuses)) &&
      rep.sampleOptions[k] == DropdownOption(sample.name, kept[k].id + ":" + sample.name)
  {
    var index := IndexById(samples);
    BuildRowsShape(index, statuses, Listed(statuses));
    unsorted := BuildRows(index, statuses, Listed(statuses)).value;
  }
}
