/**
 * Rerun dispatch: the staged requests grouped by sample, one shell command
 * per sample, its submission to the configured grid back-end, and the
 * summary message shown to the operator.
 */
module RerunDispatch {
  import opened Wrappers
  import opened Strings
  import opened Sequences
  import opened Samples
  import RerunStaging

  type RerunRow = RerunStaging.RerunRow

  /**
   * The rerun settings: the bifrost install directory, the grid back-end
   * ("slurm", "torque" or "slurm.mock") and the resource values that the
   * submission text quotes. `advres` is the optional reservation.
   */
  datatype RerunConfig = RerunConfig(
    bifrostDir: string,
    grid: string,
    memory: string,
    priority: string,
    threads: string,
    walltime: string,
    group: string,
    advres: Option<string>)

  /** One call to the scheduler, made in the sample's run directory. */
  datatype Submission =
    | Sbatch(cwd: string, commandLine: string)
    | Qsub(cwd: string, scriptPath: string, script: string, commandLine: string)

  /**
   * What a scheduler call printed, standard error merged into standard
   * output, as the summary renders it.
   */
  datatype JobOutput = JobOutput(out: string)

  /** The record of one submitted sample. */
  datatype Dispatched = Dispatched(name: string, out: string)

  /** A staged sample id that the data store does not know. */
  datatype DispatchError = MissingSample(id: string)

  /** POSIX `os.path.join` of two parts: an absolute second part replaces the first. */
  function PathJoin(a: string, b: string): string {
    if |b| > 0 && b[0] == '/' then b
    else if a == [] || a[|a| - 1] == '/' then a + b
    else a + "/" + b
  }

  // ---------------------------------------------------------------------------
  // Grouping the staged rows by sample

  function SampleIds(staged: seq<RerunRow>): (ids: seq<string>)
    ensures |ids| == |staged|
    ensures forall i :: 0 <= i < |staged| ==> ids[i] == staged[i].sampleId
  {
    seq(|staged|, i requires 0 <= i < |staged| => staged[i].sampleId)
  }

  /** The components staged for sample `id`, in staging order. */
  function ComponentsFor(staged: seq<RerunRow>, id: string): (comps: seq<string>)
    ensures |comps| <= |staged|
    ensures |comps| == 0 <==> id !in SampleIds(staged)
  {
    if staged == [] then []
    else
      var init := staged[..|staged| - 1];
      var last := staged[|staged| - 1];
      assert forall i :: 0 <= i < |init| ==> init[i] == staged[i];
      assert SampleIds(staged) == SampleIds(init) + [last.sampleId];
      ComponentsFor(init, id) + (if last.sampleId == id then [last.component] else [])
  }

  /** A sample's components are exactly those staged for it. */
  lemma {:induction false} ComponentsForMember(staged: seq<RerunRow>, id: string, c: string)
    ensures c in ComponentsFor(staged, id) <==>
      exists i :: 0 <= i < |staged| && staged[i].sampleId == id && staged[i].component == c
  {
    if staged != [] {
      var n := |staged| - 1;
      var init := staged[..n];
      ComponentsForMember(init, id, c);
      assert ComponentsFor(staged, id) == ComponentsFor(init, id) + (if staged[n].sampleId == id then [staged[n].component] else []);
      if c in ComponentsFor(staged, id) {
        if c !in ComponentsFor(init, id) {
          assert staged[n].sampleId == id && staged[n].component == c;
        } else {
          var i :| 0 <= i < n && init[i].sampleId == id && init[i].component == c;
          assert staged[i] == init[i];
        }
      }
      if exists i :: 0 <= i < |staged| && staged[i].sampleId == id && staged[i].component == c {
        var i :| 0 <= i < |staged| && staged[i].sampleId == id && staged[i].component == c;
        if i < n {
          assert init[i] == staged[i];
        }
      }
    }
  }

  /** Rows staged one after the other group as the two parts' groups, one after the other. */
  lemma {:induction false} ComponentsForAppend(a: seq<RerunRow>, b: seq<RerunRow>, id: string)
    ensures ComponentsFor(a + b, id) == ComponentsFor(a, id) + ComponentsFor(b, id)
    decreases |b|
  {
    if b == [] {
      assert a + b == a;
    } else {
      var n := |b| - 1;
      var tail := if b[n].sampleId == id then [b[n].component] else [];
      assert (a + b)[..|a + b| - 1] == a + b[..n];
      assert (a + b)[|a + b| - 1] == b[n];
      assert ComponentsFor(a + b, id) == ComponentsFor(a + b[..n], id) + tail;
      assert ComponentsFor(b, id) == ComponentsFor(b[..n], id) + tail;
      ComponentsForAppend(a, b[..n], id);
    }
  }

  /**
   * The staged rows grouped by sample id: the ids in first-seen order, and
   * for each id its components in staging order.
   */
  method GroupBySample(staged: seq<RerunRow>) returns (order: seq<string>, groups: map<string, seq<string>>)
    ensures order == Dedup(SampleIds(staged))
    ensures forall id :: id in groups <==> id in order
    ensures forall id :: id in groups ==> groups[id] == ComponentsFor(staged, id)
  {
    order := [];
    groups := map[];
    for i := 0 to |staged|
      invariant GroupedAs(staged[..i], order, groups)
    {
      var row := staged[i];
      assert staged[..i + 1] == staged[..i] + [row];
      var sampleRerun := if row.sampleId in groups then groups[row.sampleId] else [];
      sampleRerun := sampleRerun + [row.component];
      var order' := if row.sampleId in groups then order else order + [row.sampleId];
      var groups' := groups[row.sampleId := sampleRerun];
      GroupStep(staged[..i], row, order, groups, order', groups');
      order, groups := order', groups';
    }
    assert staged[..|staged|] == staged;
  }

  /** `order` and `groups` are the grouping of `staged`. */
  ghost predicate GroupedAs(staged: seq<RerunRow>, order: seq<string>, groups: map<string, seq<string>>) {
    && order == Dedup(SampleIds(staged))
    && (forall id :: id in groups <==> id in order)
    && (forall id :: id in groups ==> groups[id] == ComponentsFor(staged, id))
  }

  /** One more staged row extends its sample's group, opening it when new. */
  lemma GroupStep(staged: seq<RerunRow>, row: RerunRow, order: seq<string>, groups: map<string, seq<string>>,
                  order': seq<string>, groups': map<string, seq<string>>)
    requires GroupedAs(staged, order, groups)
    requires order' == if row.sampleId in groups then order else order + [row.sampleId]
    requires groups' == groups[row.sampleId := (if row.sampleId in groups then groups[row.sampleId] else []) + [row.component]]
    ensures GroupedAs(staged + [row], order', groups')
  {
    OrderStep(staged, row, order);
    forall id | id in groups' ensures groups'[id] == ComponentsFor(staged + [row], id) {
      GroupsStep(staged, row, order, groups, groups', id);
    }
  }

  lemma OrderStep(staged: seq<RerunRow>, row: RerunRow, order: seq<string>)
    requires order == Dedup(SampleIds(staged))
    ensures (if row.sampleId in order then order else order + [row.sampleId]) == Dedup(SampleIds(staged + [row]))
  {
    assert SampleIds(staged + [row]) == SampleIds(staged) + [row.sampleId];
    DedupSnoc(SampleIds(staged), row.sampleId);
  }

  lemma GroupsStep(staged: seq<RerunRow>, row: RerunRow, order: seq<string>, groups: map<string, seq<string>>,
                   groups': map<string, seq<string>>, id: string)
    requires GroupedAs(staged, order, groups)
    requires groups' == groups[row.sampleId := (if row.sampleId in groups then groups[row.sampleId] else []) + [row.component]]
    requires id in groups'
    ensures groups'[id] == ComponentsFor(staged + [row], id)
  {
    ComponentsForSnoc(staged, row, id);
    if id !in groups {
      assert id !in SampleIds(staged);
    }
  }

  lemma ComponentsForSnoc(staged: seq<RerunRow>, row: RerunRow, id: string)
    ensures ComponentsFor(staged + [row], id) ==
      ComponentsFor(staged, id) + (if row.sampleId == id then [row.component] else [])
  {
    assert (staged + [row])[..|staged|] == staged;
  }

  // ---------------------------------------------------------------------------
  // Command text

  /** Where the component pipelines live. */
  function ComponentsDir(config: RerunConfig): string {
    PathJoin(config.bifrostDir, "components/")
  }

  function Snakefile(dir: string, component: string): string {
    PathJoin(PathJoin(dir, component), "pipeline.smk")
  }

  /** Removes the component's output directory when it exists. */
  function RemoveStep(component: string): (step: string)
    ensures |step| > 0 && step[0] == 'i'
  {
    "if [ -d \\\"" + component + "\\\" ]; then rm -r " + component + "; fi; "
  }

  /** Snakemake options shared by the unlock and run steps: two restarts, four cores. */
  const SnakemakeOptions := "--shadow-prefix /scratch --restart-times 2 --cores 4"

  function UnlockStep(snakefile: string): string {
    "snakemake " + SnakemakeOptions + " -s " + snakefile + " --config Sample=sample.yaml --unlock; "
  }

  function RunStep(snakefile: string): string {
    "snakemake " + SnakemakeOptions + " -s " + snakefile + " --config Sample=sample.yaml; "
  }

  /** The three steps for one component: remove, unlock, run. */
  function ComponentCommand(dir: string, component: string): (cmd: string)
    ensures |cmd| > 0 && cmd[0] == 'i'
  {
    RemoveStep(component) + UnlockStep(Snakefile(dir, component)) + RunStep(Snakefile(dir, component))
  }

  /** The command of one sample: its components' steps, one component after the other. */
  function SampleCommand(dir: string, comps: seq<string>): string {
    if comps == [] then ""
    else SampleCommand(dir, comps[..|comps| - 1]) + ComponentCommand(dir, comps[|comps| - 1])
  }

  /** The command of two lists of components is the first list's followed by the second's. */
  lemma {:induction false} SampleCommandAppend(dir: string, a: seq<string>, b: seq<string>)
    ensures SampleCommand(dir, a + b) == SampleCommand(dir, a) + SampleCommand(dir, b)
    decreases |b|
  {
    if b == [] {
      assert a + b == a;
    } else {
      var n := |b| - 1;
      assert (a + b)[..|a + b| - 1] == a + b[..n];
      assert (a + b)[|a + b| - 1] == b[n];
      var x, y, z := SampleCommand(dir, a), SampleCommand(dir, b[..n]), ComponentCommand(dir, b[n]);
      calc {
        SampleCommand(dir, a + b);
        SampleCommand(dir, a + b[..n]) + z;
        { SampleCommandAppend(dir, a, b[..n]); }
        (x + y) + z;
        x + (y + z);
        x + SampleCommand(dir, b);
      }
    }
  }

  /** Each component's remove, unlock and run steps sit between those of the components staged before and after it. */
  lemma {:induction false} SampleCommandIsTriples(dir: string, comps: seq<string>, k: nat)
    requires k < |comps|
    ensures SampleCommand(dir, comps) ==
      SampleCommand(dir, comps[..k]) + ComponentCommand(dir, comps[k]) + SampleCommand(dir, comps[k + 1..])
  {
    assert comps == comps[..k] + [comps[k]] + comps[k + 1..];
    SampleCommandAppend(dir, comps[..k] + [comps[k]], comps[k + 1..]);
    SampleCommandAppend(dir, comps[..k], [comps[k]]);
    assert [comps[k]][..0] == [];
    assert SampleCommand(dir, [comps[k]]) == SampleCommand(dir, []) + ComponentCommand(dir, comps[k]);
  }

  /** The slurm submission: one `sbatch` line wrapping the sample command. */
  function SbatchLine(config: RerunConfig, name: string, command: string): string {
    "sbatch --mem=" + config.memory + "G -p " + config.priority + " -c " + config.threads +
    " -t " + config.walltime + " -J \"bifrost_" + name + "\" --wrap \"" + command + "\""
  }

  /** The PBS directive line with `reservation` written right after the walltime. */
  function PbsLine(config: RerunConfig, name: string, reservation: string): (line: string)
    ensures |line| >= 5 && line[..5] == "#PBS "
  {
    var options := "-V -d . -w . -l mem=" + config.memory + "gb,nodes=1:ppn=" + config.threads +
      ",walltime=" + config.walltime + reservation + " -N 'bifrost_" + name +
      "' -W group_list=" + config.group + " -A " + config.group + " \n";
    assert ("#PBS " + options)[..5] == "#PBS ";
    "#PBS " + options
  }

  /**
   * The PBS directive line as written: the placeholder is filled from the
   * settings, so the raw reservation value is inserted, and a configuration
   * without one has no value for it (`None`, where Python raises).
   */
  function PbsHeaderAsWritten(config: RerunConfig, name: string): Option<string> {
    match config.advres
    case None => None
    case Some(a) => Some(PbsLine(config, name, a))
  }

  /** The reservation clause of the PBS directives, present only when configured. */
  function AdvresClause(config: RerunConfig): (clause: string)
    ensures config.advres.None? <==> clause == ""
  {
    match config.advres
    case Some(a) => ",advres=" + a
    case None => ""
  }

  /**
   * The PBS directive line with the reservation clause in place: it exists
   * for every configuration, and is what the written line gives once the
   * setting holds the whole clause.
   */
  function PbsHeader(config: RerunConfig, name: string): (header: string)
    ensures PbsHeaderAsWritten(config.(advres := Some(AdvresClause(config))), name) == Some(header)
  {
    PbsLine(config, name, AdvresClause(config))
  }

  /** As written, a configured reservation lands in the directive line without its `,advres=` key. */
  lemma AsWrittenDropsReservationKey(config: RerunConfig, name: string)
    requires config.advres.Some?
    ensures PbsHeaderAsWritten(config, name).Some?
    ensures PbsHeaderAsWritten(config, name) != Some(PbsHeader(config, name))
  {
    var a := config.advres.value;
    assert |PbsLine(config, name, a)| + 8 == |PbsLine(config, name, ",advres=" + a)|;
  }

  /** As written, a torque configuration without a reservation yields no directive line. */
  lemma AsWrittenNeedsReservation(config: RerunConfig, name: string)
    requires config.advres.None?
    ensures PbsHeaderAsWritten(config, name).None?
    ensures PbsHeader(config, name) == PbsLine(config, name, "")
  {
  }

  /** The command of the last component alone. */
  function LastCommand(dir: string, comps: seq<string>): string {
    if comps == [] then "" else ComponentCommand(dir, comps[|comps| - 1])
  }

  /**
   * The torque script as written: the last component's command only,
   * followed on the same line by the directive line.
   */
  function TorqueScriptAsWritten(config: RerunConfig, name: string, comps: seq<string>): Option<string> {
    match PbsHeaderAsWritten(config, name)
    case None => None
    case Some(h) => Some(LastCommand(ComponentsDir(config), comps) + h)
  }

  /**
   * As written, the script runs the last staged component only, and for a
   * sample with anything staged the directive line is not its first line.
   */
  lemma AsWrittenScriptDropsComponents(config: RerunConfig, name: string, a: seq<string>, c: string)
    requires config.advres.Some?
    ensures TorqueScriptAsWritten(config, name, a + [c]) ==
      Some(ComponentCommand(ComponentsDir(config), c) + PbsHeaderAsWritten(config, name).value)
    ensures TorqueScriptAsWritten(config, name, a + [c]).value[0] == 'i'
    ensures a != [] ==> (|TorqueScriptAsWritten(config, name, a + [c]).value| <
                         |SampleCommand(ComponentsDir(config), a + [c]) + PbsHeaderAsWritten(config, name).value|)
  {
    var dir := ComponentsDir(config);
    assert (a + [c])[..|a|] == a;
    assert SampleCommand(dir, a + [c]) == SampleCommand(dir, a) + ComponentCommand(dir, c);
    if a != [] {
      assert |ComponentCommand(dir, a[|a| - 1])| > 0;
    }
  }

  /** The torque script: the directive line first, then every staged component's steps. */
  function TorqueScript(config: RerunConfig, name: string, comps: seq<string>): (script: string)
    ensures |script| >= |PbsHeader(config, name)| >= 5
    ensures script[..|PbsHeader(config, name)|] == PbsHeader(config, name)
    ensures script[|PbsHeader(config, name)|..] == SampleCommand(ComponentsDir(config), comps)
    ensures script[..5] == "#PBS "
  {
    PbsHeader(config, name) + SampleCommand(ComponentsDir(config), comps)
  }

  function ScriptPath(runPath: string): string {
    PathJoin(runPath, "manual_rerun.sh")
  }

  /**
   * The scheduler call for one sample: sbatch for "slurm", a script and
   * qsub for "torque", none for any other grid ("slurm.mock" only prints).
   */
  function SubmissionFor(config: RerunConfig, sample: Sample, comps: seq<string>): Option<Submission> {
    if config.grid == "slurm" then
      Some(Sbatch(sample.path, SbatchLine(config, sample.name, SampleCommand(ComponentsDir(config), comps))))
    else if config.grid == "torque" then
      var path := ScriptPath(sample.path);
      Some(Qsub(sample.path, path, TorqueScript(config, sample.name, comps), "qsub " + path))
    else None
  }

  // ---------------------------------------------------------------------------
  // Dispatch and summary

  /** The record of one sample's submission, when its grid submits anything. */
  function RecordFor(config: RerunConfig, sample: Sample, comps: seq<string>, run: Submission -> JobOutput): Option<Dispatched> {
    match SubmissionFor(config, sample, comps)
    case None => None
    case Some(sub) => Some(Dispatched(sample.name, run(sub).out))
  }

  /** Builds the command of one sample and hands it to its grid. */
  method SubmitSample(config: RerunConfig, sample: Sample, comps: seq<string>, run: Submission -> JobOutput)
    returns (rec: Option<Dispatched>)
    ensures rec == RecordFor(config, sample, comps, run)
  {
    var dir := ComponentsDir(config);
    var sampleCommand := "";
    for j := 0 to |comps|
      invariant sampleCommand == SampleCommand(dir, comps[..j])
    {
      assert comps[..j + 1][..j] == comps[..j];
      var command := ComponentCommand(dir, comps[j]);
      sampleCommand := sampleCommand + command;
    }
    assert comps[..|comps|] == comps;
    if config.grid == "slurm" {
      var result := run(Sbatch(sample.path, SbatchLine(config, sample.name, sampleCommand)));
      rec := Some(Dispatched(sample.name, result.out));
    } else if config.grid == "torque" {
      var scriptPath := ScriptPath(sample.path);
      var script := PbsHeader(config, sample.name) + sampleCommand;
      var result := run(Qsub(sample.path, scriptPath, script, "qsub " + scriptPath));
      rec := Some(Dispatched(sample.name, result.out));
    } else {
      rec := None;
    }
  }

  /** What submitting one sample with its components records. */
  type Recorder = (Sample, seq<string>) -> Option<Dispatched>

  /** The recorder of a configuration and a scheduler. */
  function RecorderOf(config: RerunConfig, run: Submission -> JobOutput): Recorder {
    (sample, comps) => RecordFor(config, sample, comps, run)
  }

  /** The records of the samples `ids`, submitted in that order; the first unknown id stops it. */
  function DispatchOver(ids: seq<string>, staged: seq<RerunRow>, index: map<string, Sample>,
                        record: Recorder): Result<seq<Dispatched>, DispatchError>
  {
    if ids == [] then Ok([])
    else
      match DispatchOver(ids[..|ids| - 1], staged, index, record)
      case Err(e) => Err(e)
      case Ok(out) =>
        var id := ids[|ids| - 1];
        if id !in index then Err(MissingSample(id))
        else
          match record(index[id], ComponentsFor(staged, id))
          case None => Ok(out)
          case Some(d) => Ok(out + [d])
  }

  lemma {:induction false} DispatchErrPersists(ids: seq<string>, staged: seq<RerunRow>, index: map<string, Sample>,
                                               record: Recorder, j: nat)
    requires j <= |ids| && DispatchOver(ids[..j], staged, index, record).Err?
    ensures DispatchOver(ids, staged, index, record) == DispatchOver(ids[..j], staged, index, record)
    decreases |ids| - j
  {
    if j == |ids| {
      assert ids[..j] == ids;
    } else {
      assert ids[..j + 1][..j] == ids[..j];
      DispatchErrPersists(ids, staged, index, record, j + 1);
    }
  }

  /** One more sample id: an unknown one ends the dispatch with its error, a known one adds its record. */
  lemma DispatchStep(ids: seq<string>, staged: seq<RerunRow>, index: map<string, Sample>,
                     record: Recorder, i: nat, out: seq<Dispatched>)
    requires i < |ids| && DispatchOver(ids[..i], staged, index, record) == Ok(out)
    ensures ids[i] !in index ==> DispatchOver(ids, staged, index, record) == Err(MissingSample(ids[i]))
    ensures ids[i] in index ==> (DispatchOver(ids[..i + 1], staged, index, record) ==
      match record(index[ids[i]], ComponentsFor(staged, ids[i]))
      case None => Ok(out)
      case Some(d) => Ok(out + [d]))
  {
    assert ids[..i + 1][..i] == ids[..i];
    if ids[i] !in index {
      DispatchErrPersists(ids, staged, index, record, i + 1);
    }
  }

  /** The records of a dispatch of the staged rows, samples in first-seen order. */
  function Dispatch(staged: seq<RerunRow>, docs: seq<Sample>, config: RerunConfig,
                    run: Submission -> JobOutput): Result<seq<Dispatched>, DispatchError>
  {
    DispatchOver(Dedup(SampleIds(staged)), staged, IndexById(docs), RecorderOf(config, run))
  }

  const SummaryHeader := "Jobs sent to the server:\n"

  /** One record's line; standard error is merged into the output, so its part always reads "None". */
  function SummaryLine(d: Dispatched): string {
    d.name + ": out: " + d.out + " | err: None"
  }

  function SummaryLines(out: seq<Dispatched>): (lines: seq<string>)
    ensures |lines| == |out|
    ensures forall k :: 0 <= k < |out| ==> lines[k] == SummaryLine(out[k])
  {
    seq(|out|, k requires 0 <= k < |out| => SummaryLine(out[k]))
  }

  /** The message shown after a dispatch: the header, then one line per record. */
  function Summary(out: seq<Dispatched>): string {
    SummaryHeader + Join(SummaryLines(out), "\n")
  }

  /** Each record of the summary reads back as its own line when no field holds a newline. */
  lemma SummaryReadsBack(out: seq<Dispatched>)
    requires |out| >= 1
    requires forall k :: 0 <= k < |out| ==> '\n' !in out[k].name + out[k].out
    ensures |Summary(out)| >= |SummaryHeader| && Summary(out)[..|SummaryHeader|] == SummaryHeader
    ensures Split(Summary(out)[|SummaryHeader|..], '\n') == SummaryLines(out)
  {
    var lines := SummaryLines(out);
    forall k | 0 <= k < |lines| ensures '\n' !in lines[k] {
      var d := out[k];
      assert lines[k] == d.name + ": out: " + d.out + " | err: None";
      assert forall ch :: ch in lines[k] ==> ch in d.name + d.out || ch in ": out: " || ch in " | err: None";
    }
    assert Summary(out)[|SummaryHeader|..] == Join(lines, "\n");
    SplitJoin(lines, '\n');
  }

  /** On a real grid a sample's record carries its name and what its submission printed. */
  lemma RealGridsRecord(config: RerunConfig, sample: Sample, comps: seq<string>, run: Submission -> JobOutput)
    requires config.grid == "slurm" || config.grid == "torque"
    ensures SubmissionFor(config, sample, comps).Some?
    ensures var sub := SubmissionFor(config, sample, comps).value;
      RecorderOf(config, run)(sample, comps) == Some(Dispatched(sample.name, run(sub).out))
  {
  }

  /** On any other grid, "slurm.mock" among them, no sample is submitted. */
  lemma OtherGridsSubmitNothing(config: RerunConfig, sample: Sample, comps: seq<string>, run: Submission -> JobOutput)
    requires config.grid != "slurm" && config.grid != "torque"
    ensures SubmissionFor(config, sample, comps).None?
    ensures RecorderOf(config, run)(sample, comps).None?
  {
  }

  /**
   * When every sample yields a record (as on a real grid), every grouped
   * sample is recorded, in first-seen order, whatever an earlier
   * submission printed.
   */
  lemma {:induction false} DispatchRecordsEverySample(ids: seq<string>, staged: seq<RerunRow>, index: map<string, Sample>,
                                                      record: Recorder)
    requires forall sample, comps :: record(sample, comps).Some?
    requires forall k :: 0 <= k < |ids| ==> ids[k] in index
    ensures DispatchOver(ids, staged, index, record).Ok?
    ensures var out := DispatchOver(ids, staged, index, record).value;
      |out| == |ids| &&
      forall k :: 0 <= k < |ids| ==> Some(out[k]) == record(index[ids[k]], ComponentsFor(staged, ids[k]))
  {
    if ids != [] {
      var n := |ids| - 1;
      var init := ids[..n];
      DispatchRecordsEverySample(init, staged, index, record);
      var out := DispatchOver(init, staged, index, record).value;
      var rec := record(index[ids[n]], ComponentsFor(staged, ids[n]));
      assert DispatchOver(ids, staged, index, record) == Ok(out + [rec.value]);
      var all := out + [rec.value];
      forall k | 0 <= k < n
        ensures Some(all[k]) == record(index[ids[k]], ComponentsFor(staged, ids[k]))
      {
        assert all[k] == out[k] && init[k] == ids[k];
      }
    }
  }

  /** When no sample yields a record (as on any other grid), nothing is recorded. */
  lemma {:induction false} OtherGridsRecordNothing(ids: seq<string>, staged: seq<RerunRow>, index: map<string, Sample>,
                                                   record: Recorder)
    requires forall sample, comps :: record(sample, comps).None?
    ensures DispatchOver(ids, staged, index, record).Ok? ==> DispatchOver(ids, staged, index, record).value == []
  {
    if ids != [] {
      OtherGridsRecordNothing(ids[..|ids| - 1], staged, index, record);
    }
  }

  /** A dispatch fails exactly when some staged sample id is unknown to the store, and names such an id. */
  lemma {:induction false} DispatchFailsOnUnknownSample(ids: seq<string>, staged: seq<RerunRow>, index: map<string, Sample>,
                                                        record: Recorder)
    ensures DispatchOver(ids, staged, index, record).Ok? <==> forall k :: 0 <= k < |ids| ==> ids[k] in index
    ensures DispatchOver(ids, staged, index, record).Err? ==>
      DispatchOver(ids, staged, index, record).error.id in ids &&
      DispatchOver(ids, staged, index, record).error.id !in index
  {
    if ids != [] {
      var n := |ids| - 1;
      var init := ids[..n];
      DispatchFailsOnUnknownSample(init, staged, index, record);
      assert forall k :: 0 <= k < n ==> init[k] == ids[k];
      assert forall x :: x in init ==> x in ids;
      var prev := DispatchOver(init, staged, index, record);
      var r := DispatchOver(ids, staged, index, record);
      if prev.Err? {
        assert r == prev;
      } else if ids[n] !in index {
        assert r == Err(MissingSample(ids[n]));
      } else {
        assert r.Ok?;
      }
    }
  }

  /**
   * A dispatch of the staged rows fails exactly when a staged row names a
   * sample id that no stored document has, and it then names such an id.
   */
  lemma DispatchNeedsKnownSamples(staged: seq<RerunRow>, docs: seq<Sample>, config: RerunConfig, run: Submission -> JobOutput)
    ensures Dispatch(staged, docs, config, run).Ok? <==>
      forall i :: 0 <= i < |staged| ==> staged[i].sampleId in IndexById(docs)
    ensures Dispatch(staged, docs, config, run).Err? ==>
      var id := Dispatch(staged, docs, config, run).error.id;
      (exists i :: 0 <= i < |staged| && staged[i].sampleId == id) &&
      forall j :: 0 <= j < |docs| ==> docs[j].id != id
  {
    var ids := Dedup(SampleIds(staged));
    var index := IndexById(docs);
    var r := DispatchOver(ids, staged, index, RecorderOf(config, run));
    assert Dispatch(staged, docs, config, run) == r;
    DispatchFailsOnUnknownSample(ids, staged, index, RecorderOf(config, run));
    var sids := SampleIds(staged);
    assert forall x :: x in ids <==> x in sids;
    if r.Ok? {
      forall i | 0 <= i < |staged| ensures staged[i].sampleId in index {
        assert sids[i] == staged[i].sampleId;
        assert staged[i].sampleId in ids;
        var k :| 0 <= k < |ids| && ids[k] == staged[i].sampleId;
      }
    } else {
      var id := r.error.id;
      assert id in sids;
      var i :| 0 <= i < |sids| && sids[i] == id;
      assert staged[i].sampleId == id;
    }
  }

  /**
   * The rerun button: nothing on the initial call; otherwise every staged
   * sample is submitted in first-seen order and the summary is shown.
   */
  method RerunComponentsButton(button: int, staged: seq<RerunRow>, docs: seq<Sample>, config: RerunConfig,
                               run: Submission -> JobOutput) returns (r: Result<(string, bool), DispatchError>)
    ensures button == 0 ==> r == Ok(("", false))
    ensures button != 0 ==> r == match Dispatch(staged, docs, config, run)
      case Ok(out) => Ok((Summary(out), true))
      case Err(e) => Err(e)
  {
    if button == 0 {
      return Ok(("", false));
    }
    var order, groups := GroupBySample(staged);
    var index := IndexById(docs);
    ghost var record := RecorderOf(config, run);
    var out: seq<Dispatched> := [];
    for i := 0 to |order|
      invariant DispatchOver(order[..i], staged, index, record) == Ok(out)
    {
      var id := order[i];
      DispatchStep(order, staged, index, record, i, out);
      if id !in index {
        return Err(MissingSample(id));
      }
      assert id in groups;
      var rec := SubmitSample(config, index[id], groups[id], run);
      assert rec == record(index[id], ComponentsFor(staged, id));
      if rec.Some? {
        out := out + [rec.value];
      }
    }
    assert order[..|order|] == order;
    return Ok((Summary(out), true));
  }
}
