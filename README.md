# Result aggregation, missing-file audit and row filter: a verified model

The repository runs a simulation study of species-tree rooting methods. Each
replicate of a grid of simulation parameters gets a run directory. Under it,
DISCO rooted species trees are scored against the truth, and every score is
stored in a file `s_rooted_est.score`. This project models three small pieces
of that pipeline and proves what they promise.

- **The result collector** (`agg_result.py`). It walks the parameter grid:
  hILS, loss indicator, duplication rate, species count, run id, gene count,
  gene-tree type and multiplicity.
  - It builds the run directory `{input}/{num_species}_gdl_{dup_rate}_{loss}[_hILS]/{run_id:02d}`.
  - It skips a run whose directory is missing.
  - It probes four DISCO score files per cell: (astrid | trues) × (qr | qrstar).
  - It appends one labelled record per file found.
  - It sorts the table by an eleven-column key.
- **The missing-file auditor** (`check_missing.py`). It walks the same grid
  against a reference tree and an input tree.
  - It prints `Missing input directory` for a reference run missing from the input.
  - It prints `Missing file` for a missing STRIDE score, and then skips the
    DISCO scores below it.
  - Otherwise it prints `Missing file` for each missing DISCO score.
- **The row filter of `plot_comparison`** and the relabelling maps
  (`plot_result_1x2.py`).
  - It narrows a table once per filter entry. An entry holds a scalar, `None`
    meaning "is NA", or a list that may hold `None`.
  - It derives the `ILS Level` column from `hILS`.
  - It renames the species counts and the unrooted-tree methods.

The file system is a value: a set of directory paths and a map from file
paths to the score each file holds. A path is the sequence of its segments.

Modules:

- `seqs.dfy` (`Seqs`): flat-map, filter, map and selection by mask, with their lemmas.
- `errors.dfy` (`Errors`): the outcome of a pandas column lookup, a value or a KeyError.
- `decimal.dfy` (`Decimal`): `f"{n}"` and `f"{n:02d}"`.
- `grid.dfy` (`Grid`): the parameter lists both scripts share, the file system and the path builders.
- `collector.dfy` (`Collector`) and `sort_table.dfy` (`TableSort`): `agg_result.py`.
- `auditor.dfy` (`Auditor`): `check_missing.py`.
- `row_filter.dfy` (`RowFilter`): `plot_result_1x2.py`.

## How the loops are specified

Every loop nest is a `method` with the script's own loops. Each loop has an
invariant of the form "the output so far is the flat-map, in loop order, of
the values already visited". The method is proved equal to a specification
function: `Collected` for the collector and `Audit` for the auditor.

A separate reference predicate describes, without loops, what belongs in the
output:

- `Collectable` says which records belong in the collector's output.
- `Reported` says which sites (a run and one check in it) print a message.

The `...Members` lemmas connect the two, level by level. The output is
exactly the reference set, and it holds no duplicates.

The run-directory format is one definition, `Grid.RunDir`, so the collector
and the auditor build identical run paths by construction. The one difference
is that the collector tests a run with `is_dir()` and the auditor with
`exists()`. The model keeps these apart.

## Model

| member | source | states |
|---|---|---|
| Decimal.NatToString | agg_result.py:73 | `f"{n}"` is a non-empty numeral with no leading zero, of length 1 exactly for n < 10 |
| Decimal.ParseNatToString | agg_result.py:73 | reading back `f"{n}"` gives n |
| Decimal.NatToStringInjective | agg_result.py:73 | distinct numbers give distinct numerals |
| Decimal.ZeroPad2 | agg_result.py:59 | `f"{n:02d}"` is all digits, at least 2 long, and exactly 2 long below 100 |
| Decimal.ParseZeroPad2 | agg_result.py:59 | `f"{n:02d}"` reads back as n |
| Decimal.ZeroPad2Injective | agg_result.py:59 | distinct run ids give distinct `{run_id:02d}` segments |
| Grid.GridListsDistinct | agg_result.py:37-44 | every grid list ranges over distinct values |
| Grid.RunDir | agg_result.py:59 | the run directory is the root followed by two segments |
| Grid.RunName | agg_result.py:55-57 | the run name ends in `_hILS` if and only if hILS is true |
| Grid.RunIdNames | agg_result.py:59 | each run id 1..10 gives two digits that read back as the id, with a leading `0` exactly for 1..9 |
| Grid.RunNameInjective | agg_result.py:55-57 | run names of distinct (species, dup rate, loss, hILS) differ when the dup rate has no `_` |
| Grid.RunDirInjective | agg_result.py:55-59 | distinct grid points give distinct run directories |
| Grid.GeneTreesNameInjective | agg_result.py:72 | distinct gene-tree types give distinct `{g_type}` names (`"true"` is no numeral) |
| Grid.GeneTreesDirInjective | agg_result.py:72 | distinct gene-tree types give distinct `{g_type}g` directories |
| Grid.DiscoScorePath | agg_result.py:70-80 | a DISCO score path is the run directory followed by 8 segments |
| Grid.DiscoScorePathInjective | agg_result.py:70-80 | a DISCO score path determines its run, gene-tree type, gene count, tree, rooting and multiplicity |
| Grid.StrideScorePath | check_missing.py:68-75 | a STRIDE score path is the run directory followed by 5 segments |
| Grid.StrideScorePathInjective | check_missing.py:68-75 | a STRIDE score path determines its run, gene-tree type, gene count and tree |
| Grid.GeneTreesFile | check_missing.py:62 | `g_{g_type}.trees` lies directly in the reference run |
| Collector.ScoreRecord | agg_result.py:87-101 | an appended record gives back its grid point, cell and score, carries a method label and `le`, and its labels name the probe it came from |
| Collector.ProbeMembers | agg_result.py:82-102 | one probe appends at most one record, exactly when its file exists, holding that file's score |
| Collector.CellRecordsUnfold | agg_result.py:70-210 | a cell appends the four probes in script order |
| Collector.CellRecordsMembers | agg_result.py:70-210 | a cell appends at most 4 distinct records, exactly the kept records of that cell |
| Collector.CellRecordCount | agg_result.py:70-210 | a cell appends as many records as there are existing files among its four score paths |
| Collector.GeneTreesRecordsMembers | agg_result.py:69-210 | one (gene count, gene-tree type) appends at most 16 distinct records, exactly its kept records |
| Collector.GenesRecordsMembers | agg_result.py:68-210 | one gene count appends at most 64 distinct records, exactly its kept records |
| Collector.RunRecordsMembers | agg_result.py:67-210 | an existing run appends at most 256 distinct records, exactly its kept records |
| Collector.SpeciesRecordsMembers | agg_result.py:51-210 | the run loop of one species count appends exactly the kept records of its runs, each once |
| Collector.DupRecordsMembers | agg_result.py:50-210 | one dup rate appends exactly its kept records, each once |
| Collector.LossRecordsMembers | agg_result.py:49-210 | one loss indicator appends exactly its kept records, each once |
| Collector.HilsRecordsMembers | agg_result.py:48-210 | one hILS value appends exactly its kept records, each once |
| Collector.CollectedMembers | agg_result.py:46-210 | the collected records are exactly the collectable ones, with no duplicates and at most 2·2·6·3·10·4·4·4·4 of them |
| Collector.MissingRunSkipped | agg_result.py:61-65 | a run whose directory is missing contributes no record |
| Collector.EveryScoreFileCollected | agg_result.py:82-210 | every score file of an existing run in the grid yields its labelled record |
| Collector.RecordPathSegments | agg_result.py:70-101 | the file a record names has tree segment `trues` exactly when true_species_tree, and rooting `qr` exactly for `DISCO+QR` |
| Collector.CollectedRecordLabels | agg_result.py:85-101 | a collected record has method `DISCO+QR` or `DISCO+QR-STAR`, sampling `le`, and the score of its own file |
| Collector.OneRecordPerFile | agg_result.py:70-210 | two collected records read from the same file are equal |
| Collector.Collect | agg_result.py:46-210 | the loop nest returns exactly `Collected` |
| Collector.AppendHilsRecords | agg_result.py:48-210 | the loss and dup-rate loops append exactly the records of one hILS value |
| Collector.AppendDupRecords | agg_result.py:50-210 | the species and run loops append the records of one dup rate, skipping missing runs |
| Collector.AppendRunRecords | agg_result.py:67-210 | the gene count, gene-tree type and multiplicity loops append the records of one run |
| Collector.AppendCellRecords | agg_result.py:70-210 | the four probes of a cell append exactly its records |
| TableSort.SortKey | agg_result.py:213-226 | the key has one entry per column of the `by` list, 11 in all |
| TableSort.LexLeqTotal | agg_result.py:213-226 | any two keys are ordered one way or the other |
| TableSort.LexLeqTrans | agg_result.py:213-226 | the key order is transitive |
| TableSort.LexLeqAntisymmetric | agg_result.py:213-226 | keys ordered both ways are equal |
| TableSort.SortOn | agg_result.py:212-229 | the output is sorted by the key and is a permutation of the input |
| TableSort.SortByKey | agg_result.py:212-229 | the table is sorted by the 11-column key and is a permutation of the records |
| TableSort.SortedUnique | agg_result.py:212-229 | sorted permutations of one sequence are equal when the keys tell the elements apart |
| TableSort.Aggregate | agg_result.py:212-229 | with no collected record the sort fails with a KeyError on `num_species`; otherwise the table is sorted and is a permutation of `Collected` |
| TableSort.NothingCollected | agg_result.py:46-213 | nothing is collected, so the sort fails, exactly when no grid run holds a score file |
| TableSort.AggregateRows | agg_result.py:212-229 | the rows of the table are exactly the collectable records, at most 184320 of them |
| TableSort.CollectedKeysDistinct | agg_result.py:212-229 | collected records with equal keys are equal, when the column ranks separate the grid's values |
| TableSort.AggregateDeterministic | agg_result.py:212-229 | whatever the sort algorithm, the sorted table is unique |
| Auditor.RootingSitesMembers | check_missing.py:82-97 | the multiplicity loop reports exactly the missing DISCO scores of one rooting, each once |
| Auditor.TreeSitesMembers | check_missing.py:68-97 | one tree reports its STRIDE score if missing, and otherwise its missing DISCO scores, each once |
| Auditor.GenesSitesMembers | check_missing.py:67-97 | one gene count reports exactly the flagged files of its three trees, each once |
| Auditor.GeneTreesSitesMembers | check_missing.py:61-97 | a gene-tree type reports only when the reference run holds `g_{g_type}.trees`, exactly its flagged files |
| Auditor.RunSitesMembers | check_missing.py:61-97 | a run present in both trees reports exactly its gated sites, each once |
| Auditor.SpeciesSitesMembers | check_missing.py:47-97 | the run loop reports exactly the reporting sites of one species count, each once |
| Auditor.DupSitesMembers | check_missing.py:46-97 | one dup rate reports exactly its reporting sites, each once |
| Auditor.LossSitesMembers | check_missing.py:45-97 | one loss indicator reports exactly its reporting sites, each once |
| Auditor.HilsSitesMembers | check_missing.py:44-97 | one hILS value reports exactly its reporting sites, each once |
| Auditor.AuditSitesMembers | check_missing.py:43-97 | the reporting sites are exactly the `Reported` sites of the grid, each once |
| Auditor.SiteMessageInjective | check_missing.py:56-93 | distinct sites of the grid print distinct messages |
| Auditor.AuditMembers | check_missing.py:43-97 | the printed messages are exactly those of the reporting sites, and none is printed twice |
| Auditor.ReportedSiteAbsent | check_missing.py:57-96 | a reporting site's message names a path that is missing |
| Auditor.ReportsOnlyMissing | check_missing.py:43-97 | every printed message names a directory that does not exist or a file that is not a file |
| Auditor.SiteUnderRun | check_missing.py:56-93 | a site's path lies in a run's input directory only if it belongs to that run |
| Auditor.SiteUnderGeneTrees | check_missing.py:68-93 | a site's path lies in a run's `{g_type}g` directory only if it is a file check of that run and type |
| Auditor.SiteSilentWithoutReferenceRun | check_missing.py:52-54 | no reporting site lies under a run that is missing from the reference tree |
| Auditor.SiteSilentWithoutGeneTrees | check_missing.py:61-64 | no reporting site lies under a gene-tree type that the reference run lacks |
| Auditor.MissingReferenceRunSilent | check_missing.py:52-54 | a run missing from the reference tree prints no message about it |
| Auditor.ReportedInAudit | check_missing.py:43-97 | every reporting site of the grid has its message printed |
| Auditor.InputRunSiteOnly | check_missing.py:56-59 | the only reporting site under a missing input run is the run itself |
| Auditor.MissingInputRunReported | check_missing.py:56-59 | a missing input run is reported as a missing input directory, and nothing else under it is reported |
| Auditor.MissingGeneTreesSilent | check_missing.py:61-64 | a gene-tree type without reference trees prints nothing about its directory |
| Auditor.DiscoReportedOnlyAfterStride | check_missing.py:77-79 | a DISCO score is reported only if its STRIDE score is a file |
| Auditor.MissingStrideReported | check_missing.py:77-79 | a missing STRIDE score in a reached run is reported, and no DISCO score below it is |
| Auditor.MissingDiscoReported | check_missing.py:81-97 | a missing DISCO score whose STRIDE score exists, in a reached run, is reported |
| Auditor.RootingStep | check_missing.py:82-97 | one more multiplicity prints the DISCO path exactly when it is not a file |
| Auditor.CheckRooting | check_missing.py:82-97 | the multiplicity loop appends the messages of one rooting |
| Auditor.CheckTree | check_missing.py:68-97 | the STRIDE check appends one message and stops when STRIDE is missing, otherwise runs both rootings |
| Auditor.CheckGenes | check_missing.py:67-97 | the tree loop appends the messages of one gene count |
| Auditor.CheckRun | check_missing.py:61-64 | the gene-tree type loop skips types without reference trees and appends the rest |
| Auditor.CheckGeneTrees | check_missing.py:66-97 | the gene-count loop appends the messages of a type whose trees are in the reference run |
| Auditor.CheckDup | check_missing.py:46-97 | the species loop appends the messages of one dup rate |
| Auditor.CheckSpecies | check_missing.py:47-60 | the run loop skips reference-missing runs, reports an input-missing run once, and checks the rest |
| Auditor.CheckHils | check_missing.py:44-97 | the loss and dup-rate loops append the messages of one hILS value |
| Auditor.CheckMissing | check_missing.py:43-97 | the whole walk prints exactly `Audit`, in loop order |
| RowFilter.NonNone | plot_result_1x2.py:24 | a value is among the non-None list entries exactly when the list holds it |
| RowFilter.EntryMask | plot_result_1x2.py:22-32 | the mask of one entry holds, row by row, whether the row passes that entry |
| RowFilter.NextFilter | plot_result_1x2.py:21-32 | applying the mask of one more entry narrows the rows to those passing one more entry |
| RowFilter.FilterRows | plot_result_1x2.py:20-32 | for a filter dictionary (each key once), Ok exactly when every key is a column, then the rows passing every entry; otherwise a KeyError at the first missing key |
| RowFilter.FilteredRows | plot_result_1x2.py:20-32 | the kept rows are exactly the input rows passing every entry, a subsequence in input order, columns unchanged |
| RowFilter.FilteredWellFormed | plot_result_1x2.py:20-32 | filtering keeps every row's columns equal to the table's |
| RowFilter.FilterOrderIrrelevant | plot_result_1x2.py:21-32 | for the same entries in any order, both orders fail on a missing key or neither does, and the kept rows are the same |
| RowFilter.FilterTwice | plot_result_1x2.py:21-32 | filtering by one dictionary and then another is filtering once by both |
| RowFilter.Passes | plot_result_1x2.py:22-32 | the reference verdict of one entry: equal to the scalar, NA for `None`, or among the list's non-None values or NA when the list holds `None`; EntryMask proves the pandas masks compute it |
| RowFilter.MapColumn | plot_result_1x2.py:34-36 | `Series.map` into a column fails with a KeyError on the source exactly when the source column is missing; otherwise it adds the target column and keeps the row count |
| RowFilter.MapColumnRows | plot_result_1x2.py:34-36 | `Series.map` into a column succeeds exactly when the source column exists; it sets the mapped cell and changes no other column |
| RowFilter.AddIlsLevel | plot_result_1x2.py:34-36 | adding the `ILS Level` column succeeds exactly when the table has `hILS` |
| RowFilter.IlsLevelRows | plot_result_1x2.py:34-36 | each row's `ILS Level` is "High ILS" exactly when hILS is True and "Low ILS" exactly when it is False |
| RowFilter.IlsLabel | plot_result_1x2.py:34-36 | True maps to "High ILS", False to "Low ILS", and every other cell to NA |
| RowFilter.SpeciesLabels | plot_result_1x2.py:89 | species counts 20, 50 and 100 become n + 1; every other cell becomes NA |
| RowFilter.TreeLabels | plot_result_1x2.py:86-88 | each of trues, astrid and astral gets a label of its own, and no other cell gets one |
| RowFilter.TreeCellLabel | plot_result_1x2.py:86-88 | trues becomes "True", astrid "ASTRID", astral "ASTRAL", and every other cell NA |
| RowFilter.RelabelTrees | plot_result_1x2.py:86-88 | relabelling the tree methods succeeds exactly when the table has `unrooted_s_tree` |
| RowFilter.RelabelTreesRows | plot_result_1x2.py:86-88 | every row's tree method gets its display name or NA, and no other column changes |
| RowFilter.RelabelSpecies | plot_result_1x2.py:89 | relabelling the species counts succeeds exactly when the table has `num_species` |
| RowFilter.RelabelSpeciesRows | plot_result_1x2.py:89 | every row's grid species count n becomes n + 1, any other count NA, and no other column changes |

## Left out

- Command-line parsing and the directory-existence asserts of both scripts
  (agg_result.py:7-35, check_missing.py:5-32) are process-level checks. The
  roots are parameters of the model.
- Reading the score text and `float(...)` parsing. A score is an opaque
  `real` held in the file map.
- The printed progress and skip messages of `agg_result.py` are logging and
  are not modelled. Only the auditor's messages are output.
- The auditor's output is a list of messages, not text on standard output.
- The file system is a value. That the auditor creates or changes no file,
  and that the collector does not change the score tree it reads, therefore
  hold by construction. The collector's output CSV (agg_result.py:230) is not
  modelled. That `plot_comparison` does not change its caller's table
  (`df.copy()`) holds by value semantics too.
- Building the pandas DataFrame, its `reset_index` and the CSV writing are
  library calls and output; the model keeps the table as a sequence of records.
- TableSort.SortByKey: the pandas sort algorithm is not modelled. The model
  proves that any sorted permutation of the records is the same table when
  the column ranks separate the grid's values, and computes one by insertion
  sort.
- TableSort.SortKey: the order of the string columns (dup_rate, method,
  sampling_method) and of the mixed `"true"`/integer g_type column is not
  pinned down. Each is a rank passed as a parameter.
- RowFilter: cell equality is structural. A pandas column would compare
  `21 == 21.0` and treat `1`/`True` as equal keys in `Series.map`; the model
  does neither.
- RowFilter: a NaN value given inside a filter list or as a filter scalar is
  not modelled. `None` is the only missing-value marker.
- Plotting (plot_result_1x2.py:38-82 and the rest of that file), the figure
  directory creation, and the other plotting scripts.
- The loop nests are split into one method per group of loops. The loops
  themselves, their order and their `continue`s are the script's own.
