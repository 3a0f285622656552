# bifrost reporter — a Dafny model of its pipeline-status and rerun logic

The bifrost reporter is a web dashboard over the bifrost sequencing
pipeline. This project models its logic part, which is not presentation,
and proves properties of it:

- **Status report** (`status_report.dfy`). It turns each sample's component
  statuses into a table and returns five things:
  - one row per sample, sorted by name, with "Undetermined" skipped;
  - columns in the canonical component order;
  - cell-styling rules;
  - the dropdown options of the rerun form.

  Each sample's QC cell comes from its automated and expert stamps. An
  expert value overrides the automated one and is marked with `*`. The
  recognised values show as SL, CF (core facility or resequence), OK or
  N/A.
- **Rerun staging** (`rerun_staging.dfy`). This is the reducer behind the
  rerun table. A clicked cell, "add components", "add samples" or "add
  failed" stages new (sample, component, sample id) rows. Each row is
  appended to the previous table unless it is already there.
- **Rerun dispatch** (`rerun_dispatch.dfy`):
  - the staged rows are grouped by sample;
  - each sample gets a shell command: remove, unlock and run each staged
    component's snakemake pipeline;
  - the command goes to the configured grid (sbatch for slurm, a script and
    qsub for torque, nothing for any other grid);
  - what each submission printed is summarised.
- **Reporter helpers** (`reporter_helpers.dfy`):
  - colour parsing;
  - species abbreviation;
  - paging;
  - the filter form and its parameter store;
  - the selection shown under the sample table;
  - the selected-sample list;
  - the QC feedback stamps.

Shared pieces:
- `wrappers.dfy`: `Option` and `Result`.
- `strings.dfy`: Python's `split`, `join`, `lstrip`, `lower` and string
  ordering, plus decimal text of naturals.
- `sequences.dfy`: first-seen de-duplication.
- `samples.dfy`: the sample document and the id index over it.

The data store and the scheduler are parameters. The sample documents and
status documents are inputs. Each scheduler call is a function
`run: Submission -> JobOutput` that receives the full submission: its
directory, command line and, for torque, the script text.

Behaviours the model keeps from the code:
- A QC stamp value outside the recognised ones is shown unchanged, not as
  "N/A". An expert "fail:other" shows as "fail:other*".
- The status codes are "init." and "queue", in lower case.
- Staging de-duplicates whole (sample, component, sample id) rows.

## Model

| member | source | states |
|---|---|---|
| StatusReport.ParseStatus | reporter/run_checker.py:128-135 | a raw status is read as a state only when it is one of the six spellings of the status dictionary, and then it is that spelling |
| StatusReport.StatusCodeIsTable | reporter/run_checker.py:128-135 | the status lookup gives a code exactly for the six keys of the dictionary, the code the dictionary gives, and no two states share a code |
| Sequences.Dedup | reporter/run_checker.py:153-157 | the first-seen list of component names holds each observed name exactly once and nothing else |
| StatusReport.AllComponentNames | reporter/run_checker.py:153-157 | the observed names are exactly the component keys of some status document |
| StatusReport.CollectComponents | reporter/run_checker.py:153-157 | the nested loop over status documents and their components yields the de-duplicated, first-seen list of observed components |
| StatusReport.InOrder | reporter/run_checker.py:158 | the listed components are exactly those of the canonical order that were observed |
| StatusReport.InOrderIsCanonical | reporter/run_checker.py:146-158 | the listed components keep the relative order of the canonical list |
| StatusReport.ComponentsOrderDistinct | reporter/run_checker.py:146-150 | the canonical component list names each of its 13 components once |
| StatusReport.ComponentColumns | reporter/run_checker.py:170-171 | one column per listed component, in order, whose name and id are the component |
| StatusReport.ComponentOptions | reporter/run_checker.py:170-172 | one rerun-form option per listed component, in order, labelled and valued by the component |
| StatusReport.BuildColumns | reporter/run_checker.py:160-172 | the three fixed columns (Priority, Sample, QC status) followed by the component columns, and the matching options |
| StatusReport.ReportColumns | reporter/run_checker.py:146-172 | the report starts with the three fixed columns; the other column ids are exactly the canonical components that some sample reported, in canonical order; the options list the same components |
| StatusReport.Styles | reporter/run_checker.py:175-234 | the styling rules are the four QC rules followed by four rules per observed component, in first-seen order |
| StatusReport.BuildStyles | reporter/run_checker.py:205-234 | the loop appends each observed component's four rules after the QC rules |
| StatusReport.StylesCoverObserved | reporter/run_checker.py:205-234 | every component any sample reported has its Fail/OK/Running/Req. rules among the styles |
| StatusReport.ComponentRulesDistinct | reporter/run_checker.py:205-234 | a component's four rules apply to its own column, each with a different background colour |
| StatusReport.RawStatus | reporter/run_checker.py:292-297 | a component's raw status is found exactly when the sample reported that component |
| StatusReport.QcCode | reporter/run_checker.py:270-282 | each of the six recognised stamp values shows as the code the QC table pairs with it ("fail:supplying lab" SL, "N/A" N/A, "fail:core facility" and "fail:resequence" CF, "pass:OK" and "pass:accepted" OK); any other value shows unchanged |
| StatusReport.ResolveQc | reporter/run_checker.py:260-289 | with an expert stamp the cell is the table code of the expert value followed by "*"; without one it is the table code of the automated value ("N/A" when missing) and carries no star |
| StatusReport.ExpertOverrides | reporter/run_checker.py:264-268 | with an expert stamp the automated stamp does not affect the QC cell |
| StatusReport.Cells | reporter/run_checker.py:292-297 | the row's component cells cover exactly the listed components, each its status code or "None", and an unknown raw status is the error |
| StatusReport.BuildCells | reporter/run_checker.py:292-297 | the loop over listed components fills the same cells, stopping at the first unknown status |
| StatusReport.SampleOptions | reporter/run_checker.py:250-251 | one sample option per row, labelled by name, valued "id:name" |
| StatusReport.SortByName | reporter/run_checker.py:299-301 | the rows come out ordered by sample name and are a permutation of the rows in |
| StatusReport.InsertByName | reporter/run_checker.py:299-301 | inserting a row into name-ordered rows keeps them ordered and adds exactly that row |
| StatusReport.SortedByNamePairwise | reporter/run_checker.py:299-301 | in name-ordered rows every earlier name sorts before every later one |
| StatusReport.Kept | reporter/run_checker.py:238-245 | a status document is kept exactly when its sample is known and not named "Undetermined" |
| StatusReport.KeptAppend | reporter/run_checker.py:238-245 | the kept documents of two consecutive runs of documents are those of the first followed by those of the second, so document order is kept |
| StatusReport.KeptOne | reporter/run_checker.py:238-245 | a single document is kept alone exactly when it gets a row, and otherwise nothing is |
| StatusReport.RowForSpec | reporter/run_checker.py:238-298 | one status document gives no row for "Undetermined", otherwise the row of its sample (name, id, lower-cased priority, QC cell, cells), and fails on an unknown sample or status |
| StatusReport.BuildRowsSucceeds | reporter/run_checker.py:238-298 | building the rows succeeds exactly when every status document has its sample and every reported status of a kept sample is known |
| StatusReport.BuildRowsShape | reporter/run_checker.py:238-298 | the rows are those of the kept status documents, in document order, each matching its sample and statuses |
| StatusReport.RowOf | reporter/run_checker.py:238-298 | one status document's step of the loop gives the row, the skip or the error the row function describes |
| StatusReport.BuildReportRows | reporter/run_checker.py:238-302 | the loop over status documents builds the rows of the kept documents and their sample options, or stops at the first error |
| StatusReport.PipelineReportData | reporter/run_checker.py:126-302 | the imperative report builder computes exactly the report the specification functions describe |
| StatusReport.ReportSucceeds | reporter/run_checker.py:238-297 | the report fails only for a status document whose sample is missing from the store, or a status outside the six spellings |
| StatusReport.ReportRowsSorted | reporter/run_checker.py:299-301 | the report's rows are ordered by sample name |
| StatusReport.ReportSkipsUndetermined | reporter/run_checker.py:244-245 | no report row is named "Undetermined" |
| StatusReport.ReportRowsContent | reporter/run_checker.py:238-302 | the report's rows are a permutation of one row per kept status document, and the sample options list those samples in document order |
| Samples.IndexById | reporter/run_checker.py:318-319 | the index holds exactly the ids of the documents, each mapped to the last document with that id |
| RerunStaging.ComponentColumnIds | reporter/run_checker.py:404-405 | the component columns are all columns after the first three |
| RerunStaging.SampleRows | reporter/run_checker.py:431-436 | "add samples" stages the chosen component once for every table row, in table order |
| RerunStaging.StageSamples | reporter/run_checker.py:431-436 | the loop over table rows stages the same rows |
| RerunStaging.ComponentRows | reporter/run_checker.py:426-430 | "add components" stages every component column for the chosen sample |
| RerunStaging.AddComponentsStagesEachColumn | reporter/run_checker.py:426-430 | a choice "id:name" stages one row per component column for that sample |
| RerunStaging.FailedIn | reporter/run_checker.py:440-445 | one row's failed components are exactly its component cells reading "Fail" |
| RerunStaging.FailedInAppend | reporter/run_checker.py:440-445 | over two runs of columns the failed pairs are those of the first columns followed by those of the second, and an error in the first run wins, so column order is kept |
| RerunStaging.FailedInOne | reporter/run_checker.py:440-445 | one column stages its pair exactly when the cell reads "Fail", and a missing cell is the error |
| RerunStaging.FailedRows | reporter/run_checker.py:437-445 | "add failed" stages exactly the (row, component) pairs whose cell reads "Fail", and fails on a missing cell |
| RerunStaging.FailedRowsAppend | reporter/run_checker.py:437-445 | over two runs of rows the staged pairs are those of the first rows followed by those of the second, so the pairs come row by row |
| RerunStaging.FailedRowsOne | reporter/run_checker.py:437-445 | a single row stages exactly its own failed pairs, in column order |
| RerunStaging.StageFailed | reporter/run_checker.py:437-445 | the nested loop over rows and components stages the same rows |
| RerunStaging.ClickStagesAnyColumn | reporter/run_checker.py:419-425 | a clicked cell stages that row's sample with the clicked column |
| RerunStaging.StageRows | reporter/run_checker.py:419-447 | the staged rows for each trigger are those the staging function describes |
| RerunStaging.Merge | reporter/run_checker.py:449-451 | merging keeps the previous table as a prefix and adds exactly the staged rows not already present |
| RerunStaging.NewRows | reporter/run_checker.py:449-451 | the new rows are exactly the staged rows not in the previous table |
| RerunStaging.NewRowsSnoc | reporter/run_checker.py:449-451 | one more staged row joins the new rows at the end exactly when the previous table lacks it, so staging order is kept |
| RerunStaging.MergeSnoc | reporter/run_checker.py:449-451 | one more staged row is appended exactly when it is not yet in the table |
| RerunStaging.MergeAppendsNewRows | reporter/run_checker.py:449-451 | the merge is the previous table followed by the new staged rows in staging order, each once |
| RerunStaging.MergeKeepsDistinct | reporter/run_checker.py:449-451 | a table without duplicates stays without duplicates |
| RerunStaging.MergePresent | reporter/run_checker.py:449-451 | staging rows already present leaves the table unchanged |
| RerunStaging.MergeRows | reporter/run_checker.py:449-451 | the loop appending absent rows computes the merge |
| RerunStaging.NothingTriggered | reporter/run_checker.py:401-417 | with no active cell and no trigger the previous table (empty when unset) is returned |
| RerunStaging.UpdateGrowsTable | reporter/run_checker.py:449-453 | an update keeps the previous table as a prefix, holds exactly the old and the staged rows, and keeps it duplicate-free |
| RerunStaging.ReplayIsIdempotent | reporter/run_checker.py:449-453 | applying the same update to its own result changes nothing |
| RerunStaging.UpdateRerunTable | reporter/run_checker.py:397-453 | the callback computes the table the specification function describes |
| RerunDispatch.ComponentsFor | reporter/run_checker.py:313-316 | a sample has no components exactly when no staged row names it |
| RerunDispatch.ComponentsForMember | reporter/run_checker.py:313-316 | a component is in a sample's list exactly when some staged row pairs that sample with it |
| RerunDispatch.ComponentsForAppend | reporter/run_checker.py:313-316 | grouping keeps staging order |
| RerunDispatch.GroupBySample | reporter/run_checker.py:311-316 | the samples come in first-seen order, each with its staged components in staging order |
| RerunDispatch.SampleCommandAppend | reporter/run_checker.py:327-342 | a sample's command is its components' commands one after the other |
| RerunDispatch.SampleCommandIsTriples | reporter/run_checker.py:328-342 | each staged component contributes its remove, unlock and run steps at its place in the command |
| RerunDispatch.AdvresClause | reporter/run_checker.py:361-365 | the reservation clause is empty exactly when no reservation is configured |
| RerunDispatch.PbsHeader | reporter/run_checker.py:361-373 | the directive line is defined for every configuration and is the written line with the whole reservation clause in place |
| RerunDispatch.AsWrittenNeedsReservation | reporter/run_checker.py:361-373 | as written, a configuration without a reservation has no directive line |
| RerunDispatch.AsWrittenDropsReservationKey | reporter/run_checker.py:361-373 | as written, a configured reservation is inserted without its key, so the line differs from the intended one |
| RerunDispatch.AsWrittenScriptDropsComponents | reporter/run_checker.py:367-374 | as written, the torque script holds only the last component's command, begins with it, and is shorter than the full command with the directive |
| RerunDispatch.TorqueScript | reporter/run_checker.py:367-374 | the torque script starts with the "#PBS " directive line, followed by every staged component's steps |
| RerunDispatch.SubmitSample | reporter/run_checker.py:327-382 | building one sample's command and submitting it yields the record the dispatch function describes |
| RerunDispatch.RealGridsRecord | reporter/run_checker.py:344-382 | on slurm or torque a sample is submitted, and its record carries its name and what the submission printed |
| RerunDispatch.OtherGridsSubmitNothing | reporter/run_checker.py:383-389 | on any other grid, "slurm.mock" among them, a sample is not submitted and leaves no record |
| RerunDispatch.DispatchRecordsEverySample | reporter/run_checker.py:323-382 | when every sample yields a record, as on slurm or torque, every grouped sample is recorded once, in first-seen order, with its own components |
| RerunDispatch.OtherGridsRecordNothing | reporter/run_checker.py:383-389 | when no sample yields a record, as on any other grid, the dispatch records nothing |
| RerunDispatch.DispatchFailsOnUnknownSample | reporter/run_checker.py:323-324 | the dispatch fails exactly when a grouped sample id is missing from the index, naming such an id |
| RerunDispatch.DispatchNeedsKnownSamples | reporter/run_checker.py:318-324 | the dispatch of the staged rows fails exactly when a staged sample id has no stored document |
| RerunDispatch.SummaryLines | reporter/run_checker.py:391-393 | one line per record, in order, giving the sample name, what the submission printed and "err: None" |
| RerunDispatch.SummaryReadsBack | reporter/run_checker.py:391-393 | the summary is the header followed by lines that split back into one line per record |
| RerunDispatch.RerunComponentsButton | reporter/run_checker.py:308-394 | the initial call returns ("", false); otherwise the summary of the dispatch and true, or the missing-sample error |
| Reporter.ParseHex | reporter/reporter.py:43 | a text parses exactly when it is non-empty and every character is a base-16 digit, and then to a value below 16^n for n digits |
| Reporter.DigitsValueSnoc | reporter/reporter.py:43 | one more digit multiplies the positional value by 16 and adds the digit |
| Reporter.ParseHexValue | reporter/reporter.py:43 | a parsed text denotes the positional value of its digits, most significant first |
| Reporter.Chunks | reporter/reporter.py:43 | the colour text is cut into non-empty pieces of the step length, all full but the last, that concatenate back to it |
| Reporter.ParseChunks | reporter/reporter.py:43 | all pieces parse exactly when each is base-16, and the first that is not is the error |
| Reporter.HexToRgb | reporter/reporter.py:40-43 | fewer than three digits after the '#' are an error; each component is below 16 to the step length |
| Reporter.HexRoundTrip | reporter/reporter.py:40-43 | reading back "#rrggbb" gives the three components |
| Reporter.SixDigitColour | reporter/reporter.py:40-43 | a six-digit colour gives three components in 0..255 |
| Reporter.ShortSpecies | reporter/reporter.py:46-52 | a missing species stays missing, and a present one gives a name or fails |
| Reporter.ShortSpeciesOneWord | reporter/reporter.py:49-51 | a name without a space is kept unchanged |
| Reporter.ShortSpeciesAbbreviates | reporter/reporter.py:49-52 | a name with a space becomes its first letter, ". " and everything after the first space |
| Reporter.ShortSpeciesFails | reporter/reporter.py:49-52 | shortening fails exactly on a name starting with a space |
| Reporter.NextPage | reporter/reporter.py:450-458 | a back click gives the page before (0 on the first page), a forward click the page after (the last page on the last page), a tie the first page; the page stays within 0..max page |
| Reporter.ForwardThenBack | reporter/reporter.py:450-458 | a step forward from a page before the last, then a step back, returns to that page |
| Reporter.UpdateFilterValues | reporter/reporter.py:325-332 | the form gets the store's lists, missing keys read as empty, and the sample names joined by line breaks |
| Reporter.OrStore | reporter/reporter.py:559-566 | a form list is used when set and non-empty, otherwise the store's |
| Reporter.UpdateSelectedSamples | reporter/reporter.py:551-576 | the query filters are the form values with the store as fallback; the update is interrupted exactly when nothing was clicked and all five filters are empty |
| Reporter.FilterFormRoundTrip | reporter/reporter.py:556-567 | filling the form from a store and applying it gives back the store's filters when no sample name holds a line break |
| Reporter.Position | reporter/reporter.py:361-362 | a selected position is valid exactly within -n..n-1, and negative ones count from the end |
| Reporter.PickRows | reporter/reporter.py:361-362 | the picked rows are the rows at the selected positions, in selection order, and an out-of-range position is the error |
| Reporter.PickShown | reporter/reporter.py:361-362 | the loop picks the same rows |
| Reporter.InLasso | reporter/reporter.py:365-374 | the lasso keeps exactly the shown rows whose id a lasso point carries |
| Reporter.InLassoAppend | reporter/reporter.py:372-374 | the lasso filter keeps table order |
| Reporter.KeepLassoed | reporter/reporter.py:365-374 | the loop keeps the same rows |
| Reporter.LassoIds | reporter/reporter.py:368-369 | the lasso ids are exactly the sample ids the points carry |
| Reporter.LassoSelection | reporter/reporter.py:365-374 | with a lasso every selected row has an id some point carries |
| Reporter.SelectionIdsReadBack | reporter/reporter.py:360-393 | the count is the number of selected rows and the ids text splits back into their ids |
| Reporter.DisplaySelectedData | reporter/reporter.py:340-393 | an empty table shows a zero selection; otherwise the picked, lasso-filtered rows give the count, the names text and the ids text |
| Reporter.StoreUpdate | reporter/reporter.py:711-718 | the list shows the names of the first 500 samples, followed by one "N more samples" line with N the rest exactly when there are more |
| Reporter.StoreListAccountsForAll | reporter/reporter.py:714-717 | the listed names plus the counted rest equal the number of samples |
| Reporter.ParseRadio | reporter/reporter.py:1035-1044 | a radio value yields a verdict only when it is its verdict's prefix followed by the sample id |
| Reporter.ParseRadioValue | reporter/reporter.py:1037-1044 | a value built from a sample id and a verdict reads back as that id and verdict |
| Reporter.StampList | reporter/reporter.py:1035-1044 | there is at most one stamp per radio value |
| Reporter.StampListAppend | reporter/reporter.py:1035-1044 | stamps follow the order of the radio values |
| Reporter.UnrecognisedValueIgnored | reporter/reporter.py:1036-1044 | "noaction" and unrecognised values add no stamp |
| Reporter.RadioValues | reporter/reporter.py:1031-1044 | one radio value per pick, in order, carrying the pick's verdict prefix and sample id |
| Reporter.StampsOf | reporter/reporter.py:1035-1044 | one stamp per pick, in order, carrying the pick's sample id and verdict |
| Reporter.StampListRoundTrip | reporter/reporter.py:1031-1044 | the radio values of a list of verdicts give exactly their stamps, in order |
| Reporter.PrintRadio | reporter/reporter.py:1029-1046 | stamps are posted only when the admin setting is "True" and there is at least one, and they are the radio values' stamps in order |

## Findings

| source | as written | input that shows it | evidently intended | confidence | as-written member | corrected member |
|---|---|---|---|---|---|---|
| reporter/run_checker.py:361-373 | the directive's reservation placeholder is filled from the settings, not from the prepared `,advres=…` clause | torque with no reservation configured raises a missing-key error; with reservation `r1` the line reads `walltime=…r1` | `,advres=r1` after the walltime, and nothing when unset | not executed; high | RerunDispatch.AsWrittenDropsReservationKey | RerunDispatch.PbsHeader |
| reporter/run_checker.py:367-374 | the script is the last component's command followed by the directive on the same line | staging `assemblatron` and `qcquickie` for one sample writes a script that runs only `qcquickie` and has no `#PBS` line of its own | the directive line first, then the steps of every staged component | not executed; medium | RerunDispatch.AsWrittenScriptDropsComponents | RerunDispatch.TorqueScript |

## Left out

- Dash layout, HTML construction, callback wiring and `callback_context`: the trigger is an explicit argument.
- The data store queries are inputs. The sample and status documents are given; `filter_all` in `update_selected_samples` is not modelled, and its filters are the result.
- The scheduler processes are the `run` parameter. Writing the script file, the environment and standard streams are not modelled.
- The "slurm.mock" grid prints the sbatch line to the server log. That print is not modelled; the grid records nothing.
- RerunDispatch.JobOutput: the output text stands for Python's rendering of the bytes the process printed; the `b'…'` rendering is not modelled.
- RerunDispatch.SubmitSample: on torque it submits the corrected directive line and script of the two Findings rows (`PbsHeader`, `TorqueScript`). The code as written raises a missing-key error when no reservation is configured, and otherwise submits the last component's command followed by the directive (`TorqueScriptAsWritten`). `RecordFor`, `Dispatch` and `RerunComponentsButton` inherit this.
- RerunDispatch.RealGridsRecord: it holds for the corrected torque submission; as written, torque without a configured reservation raises instead of recording.
- RerunDispatch.RerunComponentsButton: on torque the dispatch submits the corrected script, as for `SubmitSample`.
- RerunDispatch.RerunComponentsButton: a missing sample ends the dispatch with an error. Jobs already submitted for earlier samples are not part of the result.
- Reporter.HexToRgb: Python's `int(…, 16)` also accepts surrounding whitespace, a sign, underscores and a `0x` prefix; the model accepts base-16 digits only.
- Reporter.PrintRadio: `create_stamp` adds the request's address and the current time. Neither is modelled, and emailing is folded into posting.
- Reporter.PrintRadio: radio values are strings; a `None` value, on which `startswith` raises, is not modelled.
- Reporter.DisplaySelectedData: table rows missing a name or id (pandas NaN columns) are not modelled.
- Reporter.NextPage: the page and maximum arrive as text and are parsed with `int`; the model takes integers and returns the page as an integer.
- Samples.IndexById: pandas `.loc` on a duplicated index returns several rows; the model keeps the last document per id, as the dict in the dispatch does.
- StatusReport.SortByName: Python's sort is stable; the model proves that the rows come out ordered by name and are a permutation, not that rows with equal names keep their relative order.
- StatusReport.PriorityText: `lower` is modelled on ASCII letters only; a missing priority column (as opposed to NaN) is not modelled.
- RerunStaging.StagedRows: a missing `columns` argument (None) is not modelled; fewer than three columns give no component columns.
- The CSV export, `fill_sample_report`, `update_report`, `plot_species_dropdown` and the summary plots are not part of this model.
