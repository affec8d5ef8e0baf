# Psychosocial risk analyzer — a verified model

This project models the core of a Streamlit application that combines
employee survey tables uploaded as CSV, Excel, PDF or Word files and runs
seven "ML" analyses on the combined table (`PsychosocialAnalyzer` in
`modules/ml_applications.py`, and the upload, demo, clearing and analysis
dispatch logic of `app.py`).

The model is functional:

- **Tables** (`Tables`). A table is a list of column names plus a list of rows.
  A row maps column names to optional values, either text or a number; a
  missing value stands for pandas' NaN.
  - Every analysis copies its input and adds columns. `Extends` states that the
    row count and every existing cell are kept and only the named columns are
    added.
  - `Concat` is `pd.concat(..., ignore_index=True)`: the union of the columns in
    first-seen order, with missing cells where a table lacks a column.
- **Randomness** (`Draws`). numpy's random calls are replaced by an *oracle*, a
  function from (column, row index) to a natural number.
  - `randint(lo, hi)` becomes `lo + d % (hi - lo)`.
  - `choice(options)` becomes `options[d % |options|]`.
  - `uniform(a, b)` becomes a point of the 2^53 grid, as numpy's doubles are.
  - Only the bounds and the reachable values are modelled, not the distributions.
- **Analyses** (`Analyzer`). Each analysis is a function from a table and an
  oracle to a table, or to an error where pandas would raise:
  - `.str.contains` on a column with no text at all;
  - `<` between a string and `5`;
  - `pd.cut` on an empty column.
- **Demo data** (`DemoData`). `crear_datos_demo(n)` reseeds numpy with 42 on
  every call, so its draws are a fixed stream that depends on `n` alone. It is
  modelled as `seeded(n)`.
- **Upload loop** (`Uploads`). The extension routing, the per-file read
  (`ReadUpload`), the file record and the loop itself (`ProcessAll`). The loop
  is generic over the per-file step, so its lemmas do not depend on the readers.
- **Session** (`Session`). Streamlit's session state is a map from keys to
  entries, changed by four actions: upload, demo button, clear, and run the
  analyses. Each selected name is routed by the `elif` chain of app.py
  (`Dispatch`, `Branches`), and the loop (`RunAll`) runs the routes in
  selection order, with one oracle per position. `StepKeepsConsistent` shows that every action keeps the session
  consistent: the three upload keys appear together, and the combined table has
  as many rows as its file records count.

## Model

| member | source | states |
|---|---|---|
| Analyzer.AltoPatternIsAlto | modules/ml_applications.py:20 | the regex `Alto\|Muy Alto` matches a string exactly when `Alto` occurs in it |
| Analyzer.StrContainsAltoIsMention | modules/ml_applications.py:20 | `str.contains(..., na=False)` is true exactly for text cells mentioning `Alto`; numbers and NaN give false |
| Analyzer.StressFlags | modules/ml_applications.py:18-23 | the shared flag rule: raises when the stress column is present in a non-empty table but holds no text cell (the model's stand-in for pandas' dtype check); otherwise adds only the flag column, each cell 0 or 1, and 1 exactly when the row's stress level mentions `Alto` |
| Analyzer.AlertaTemprana | modules/ml_applications.py:13-25 | `riesgo_alto` is added and nothing else changes; it fails only where the shared rule does; with `nivel_estres` present it is 1 iff the level contains `Alto`; without it every flag is 0 or 1 |
| Analyzer.PredictorIncidentes | modules/ml_applications.py:97-109 | `riesgo_incidentes` follows the same rule as the alerts, with the same approximated error case |
| Analyzer.IncidentsMatchAlerts | modules/ml_applications.py:18-23 | alerts and incidents succeed together, and with `nivel_estres` present they give every row the same flag whatever the draws |
| Analyzer.AlertIdempotent | modules/ml_applications.py:18-21 | with `nivel_estres` present, running the alert again on its own output gives back the same table, whatever the draws: the second run recomputes the flags from stress levels the first left untouched |
| Analyzer.AlertExample | modules/ml_applications.py:18-21 | `Alto` and `Muy Alto` are flagged; `Bajo`, `Medio` and a missing level are not |
| Analyzer.CoinFlags | modules/ml_applications.py:23 | the fallback column has one 0/1 flag per row |
| Analyzer.FiredPhrases | modules/ml_applications.py:32-44 | each phrase is present iff its rule fires, at most three, always in the order stress, workload, satisfaction |
| Analyzer.PhrasesHaveNoSeparator | modules/ml_applications.py:36-46 | none of the four phrases contains `", "`, so the joined text can be split back |
| Analyzer.JoinedPhrases | modules/ml_applications.py:36-46 | the fired phrases, joined with `", "`, split back into themselves and never read as `Monitoreo periódico` |
| Analyzer.RowRecommendation | modules/ml_applications.py:31-46 | never empty; exactly `Monitoreo periódico` when no rule fires; otherwise splitting at `", "` gives back the fired phrases in rule order; raises when satisfaction is text |
| Analyzer.MissingSatisfactionNeverRecognised | modules/ml_applications.py:43 | a missing satisfaction defaults to 5 and never adds `Programa de reconocimiento` |
| Analyzer.StressRulesCompared | modules/ml_applications.py:20-35 | on `Bajo`/`Medio`/`Alto`/`Muy Alto` the recommender's exact membership and the alert's substring rule agree; on `Alto riesgo` they differ |
| Analyzer.Recomendador | modules/ml_applications.py:27-51 | an empty table comes back unchanged, with no `recomendacion` column; otherwise each row gets its recommendation, and it raises iff some satisfaction value is text |
| Analyzer.Codes | modules/ml_applications.py:61-66 | label codes are whole numbers below the row count |
| Analyzer.EncodeIfPresent | modules/ml_applications.py:61-67 | the encoded column is added exactly when its source column is present, holding codes |
| Analyzer.ClusterColumn | modules/ml_applications.py:69-79 | cluster ids lie in 0..2, and are all 0 in the fallback |
| Analyzer.PatronesEstres | modules/ml_applications.py:53-81 | adds only the encoded columns and `cluster`; every row gets cluster 0 when one of the two columns is missing, or when K-Means raises for fewer than three rows |
| Analyzer.UnitColumn | modules/ml_applications.py:93 | every probability lies in [0, 1) |
| Analyzer.ModeloRotacion | modules/ml_applications.py:83-95 | adds only `riesgo_rotacion` and `probabilidad_rotacion`; with satisfaction present the risk is 1 iff satisfaction < 5; raises iff satisfaction holds text |
| Analyzer.RotationThresholdIsStrict | modules/ml_applications.py:89 | satisfaction 5 gives risk 0 and 4 gives risk 1 |
| Analyzer.CutEdges | modules/ml_applications.py:117-119 | `pd.cut(bins=3)` makes four edges |
| Analyzer.BandIndex | modules/ml_applications.py:117-119 | the band of a score is one of the three labels |
| Analyzer.PandasCut | modules/ml_applications.py:117-119 | pandas' right-closed bin lookup on four edges; it only computes, and `Analyzer.CutAgrees` states that it agrees with the integer band formula |
| Analyzer.CutAgrees | modules/ml_applications.py:117-119 | the integer band formula gives the same band as pandas' edges with the 0.1% widening of the lowest edge |
| Analyzer.BandMonotone | modules/ml_applications.py:117-119 | a higher score never gets a lower band |
| Analyzer.BandCell | modules/ml_applications.py:119 | the label written for a score is the band `BandIndex` computes |
| Analyzer.ResilienceLabels | modules/ml_applications.py:117-119 | each label is the band `BandIndex` gives its score on the data's range; bands are monotone in the score; the lowest score is `Baja` and the highest `Alta` when they differ; all `Media` when every score is equal |
| Analyzer.LabelsMonotone | modules/ml_applications.py:117-119 | labels ranked by their scores' bands never decrease with the score |
| Analyzer.ResilienceScores | modules/ml_applications.py:116 | every score lies in 1..9 |
| Analyzer.PerfilesResiliencia | modules/ml_applications.py:111-121 | adds only the score and profile columns; scores in 1..9, each profile is the band of its score; raises on an empty table |
| Analyzer.EfectividadIntervenciones | modules/ml_applications.py:123-134 | adds only the two columns; the improvement lies in [0.1, 0.8) and the intervention is one of the four catalog names |
| Analyzer.RunFailureIgnoresDraws | modules/ml_applications.py:13-134 | whether an analysis raises depends on the table only, never on the random draws |
| Analyzer.Run | app.py:238-251 | a successful analysis assigns exactly its own columns (`Analyzer.Adds`) and keeps the row count and every other cell, except the recommender on an empty table, which hands the table back unchanged; well-formed input gives well-formed output |
| Tables.AddColumn | modules/ml_applications.py:19 | assigning a column adds it (once) and keeps every other cell and the row count |
| Tables.AddColumnSame | modules/ml_applications.py:19 | assigning a column the values it already holds leaves the table unchanged |
| Tables.ExtendsTrans | modules/ml_applications.py:88-93 | two column assignments in a row add the union of their columns |
| Tables.Append | app.py:142 | appending keeps the columns in first-seen order; row i of the first table is row i of the result and row k of the second follows all rows of the first, each re-keyed to the joined columns |
| Tables.Concat | app.py:142 | `pd.concat` of the loop's tables has as many rows as they have together; `Tables.ConcatShape` and `Tables.ConcatKeepsRows` state its columns and row placement |
| Tables.ConcatShape | app.py:142 | the concatenation has the sum of the row counts, exactly the union of the columns, and is well formed |
| Tables.ConcatKeepsRows | app.py:142 | row k of the j-th table is row (rows before it) + k of the concatenation, with the same cells |
| Draws.RandIntCovers | app.py:286-289 | `randint(lo, hi)` can yield every value in lo..hi-1 |
| Draws.ChoiceCovers | app.py:283-291 | `choice` can yield every option |
| Draws.RandInt | app.py:286-289 | `randint(lo, hi)` lies in lo..hi-1, an exclusive upper bound (`Draws.RandIntCovers` shows every value is reachable) |
| Draws.Choice | modules/ml_applications.py:129-132 | `choice(options)` is one of the options (`Draws.ChoiceCovers` shows every option is reachable) |
| Draws.Uniform | modules/ml_applications.py:128 | `uniform(lo, hi)` lies in [lo, hi) |
| Draws.UnitBelowOne | modules/ml_applications.py:93 | a uniform sample lies in [0, 1) |
| Draws.ScaleBelow | modules/ml_applications.py:128 | `uniform(a, b)` lies in [a, b) |
| Text.Lower | app.py:109 | lower-casing keeps the length and lower-cases each ASCII capital |
| Text.LowerIdempotent | app.py:109 | lower-casing twice is lower-casing once |
| Text.LastSegment | app.py:109 | the last element of `split('.')` has no dot, is a suffix of the name, and follows a dot unless it is the whole name |
| Text.LastSegmentWhole | app.py:109 | a name without a dot is its own last segment |
| Text.SplitJoin | modules/ml_applications.py:46 | splitting the `", "`-joined phrases at `", "` gives the phrases back |
| Text.Join | modules/ml_applications.py:46 | `', '.join` of the phrases; it only computes, and `Text.SplitJoin` states that splitting at `", "` inverts it |
| Text.NatToStringInjective | app.py:281 | different ids give different `Colaborador_` names |
| Text.ParseNatToString | app.py:281 | the decimal text of an id reads back as the id |
| Uploads.KindOfName | app.py:109-135 | a file is routed by the lower-cased text after its last dot |
| Uploads.KindOf | app.py:109 | the branch a file takes is chosen by the lower-cased last dot segment of its name; it only computes, and `Uploads.KindOfName` states the routing for every name |
| Uploads.KindOfExtension | app.py:111-135 | the `if`/`elif` chain: csv, then xlsx or xls, then pdf, then docx, and any other extension is skipped; it only computes, and `Uploads.KindOfName` and the routing examples state it |
| Uploads.KindIgnoresCase | app.py:109 | routing ignores the case of the name |
| Uploads.UpperCsvRouted | app.py:109-112 | a name ending in `.CSV` goes to the CSV reader |
| Uploads.UpperXlsxRouted | app.py:109-116 | a name ending in `.XLSX` goes to the Excel reader |
| Uploads.KindOfBareName | app.py:109-111 | a name without a dot is routed by the whole name, lower-cased |
| Uploads.BareNameRouted | app.py:109-111 | a file named just `csv`, with no dot, goes to the CSV reader |
| Uploads.DoubleExtensionSkipped | app.py:109-135 | `.csv.gz` is skipped: only the last extension counts |
| Uploads.ReadUpload | app.py:109-135 | skipped iff the kind is unsupported; fails iff the CSV or Excel reader raises, with the reader's message (tagged in the model with the file's name); the reader's table passes through; PDF gives 30..99 rows and Word 20..79 |
| Uploads.RecordFor | app.py:102-131 | the record names the file, counts its table's rows, and carries ✅ for CSV and Excel, 📄 for PDF and 📝 for Word |
| Uploads.Supported | app.py:109-135 | the positions of the files that are not skipped, in upload order |
| Uploads.Positions | app.py:101-138 | the positions of the flagged files: each one flagged, strictly increasing, and no more than there are files (`Uploads.SupportedComplete` and `Uploads.ProducedComplete` show none is missed) |
| Uploads.Produced | app.py:101-138 | the positions whose read yields a table, each yielding one, in strictly increasing upload order |
| Uploads.SupportedComplete | app.py:109-135 | every file that is not skipped has its position listed |
| Uploads.ProducedComplete | app.py:101-138 | every file whose read yields a table has its position listed |
| Uploads.SupportedSnoc | app.py:101-138 | one more file adds its position exactly when it is not skipped |
| Uploads.ProcessAll | app.py:98-138 | tables and records are collected in lockstep, so the two lists have equal length |
| Uploads.ProcessAllCount | app.py:137-138 | one table per file that yields one |
| Uploads.ProcessAllAt | app.py:101-138 | the k-th table and record come from the k-th file that yields a table |
| Uploads.ProcessAllInOrder | app.py:101-138 | every collected table is its file's read result, in upload order, with its record |
| Uploads.ProcessAllRows | app.py:113-138 | the records' row counts add up to the rows of the collected tables |
| Uploads.ProcessAllFails | app.py:97-157 | the loop raises iff some read raises, and then with the first such error |
| Uploads.ProducedIsSupported | app.py:109-138 | when no read raises, the files that yield tables are exactly the files not skipped |
| Uploads.NothingYielded | app.py:133-141 | when every file is skipped the loop collects nothing |
| Uploads.AllSkippedYieldsNothing | app.py:133-141 | a list of unsupported files collects no table and no record |
| DemoData.DemoRowColumns | app.py:279-291 | each demo row has exactly the twelve demo columns |
| DemoData.DemoRowIsDemoRow | app.py:279-291 | each demo row has its id and name, and every field in its range or vocabulary |
| DemoData.CrearDatosDemo | app.py:272-292 | n rows over the twelve demo columns, well formed |
| DemoData.DemoRowsInRange | app.py:279-289 | row i has id i+1 and name `Colaborador_<i+1>`, satisfaction 1..10, tenure 1..119, age 25..59 |
| DemoData.DemoNamesDistinct | app.py:281 | no two demo rows share a name |
| Session.DocumentMatchesSmallDemo | app.py:165-170 | a PDF or Word stand-in that draws 50 rows holds the very table the small demo button loads |
| DemoData.CrearDatosDesdePdf | app.py:294-296 | a demo table of 30..99 rows |
| DemoData.CrearDatosDesdeWord | app.py:298-300 | a demo table of 20..79 rows |
| DemoData.DocumentSizesCovered | app.py:294-300 | every size in 30..99 (PDF) and 20..79 (Word) is reachable: the upper bounds are exclusive |
| DemoData.DemoAlertsMatchTraining | app.py:284 | on demo data the alert flag is 1 exactly when the recommender prescribes stress training |
| Session.Ingest | app.py:95-157 | a raising read, an empty list or only skipped files leave the session unchanged; otherwise the three keys are written together, `file_count` is the number of uploads, the records number the yielding files, and the combined rows equal their sum; `analysis_results` is never touched |
| Session.IngestedBatch | app.py:137-147 | what is stored is exactly the concatenation and records the loop collected |
| Session.IngestRecords | app.py:102-138 | the k-th stored record describes the k-th file that is not skipped: its name, MIME type, size and glyph |
| Session.RowsMatch | app.py:113-142 | records counting their tables' rows sum to the tables' total |
| Session.BatchKeepsOrder | app.py:137-142 | row j of the k-th file sits at its offset in the combined table |
| Session.LoopKeepsOrder | app.py:137-142 | the same, for the batch the loop collects |
| Session.BatchCountsRows | app.py:113-138 | each collected table is well formed and its record counts its rows |
| Session.IngestKeepsUploadOrder | app.py:137-145 | the combined table holds each file's rows in upload order, at the offset of the files before it |
| Session.ReadYieldsWellFormed | app.py:111-131 | every table the loop reads is well formed when pandas' readers return well-formed tables |
| Session.LoadDemo | app.py:165-180 | a demo button loads 50 or 150 rows, one file, one 🎲 record counting those rows, and keeps every other key |
| Session.ClearSessionState | app.py:265-270 | the four keys are removed when present and every other key keeps its value |
| Session.ClearIdempotent | app.py:265-270 | clearing twice is clearing once |
| Session.FirstRoute | app.py:237-251 | the first branch of the `elif` chain from a position on whose text occurs in the name |
| Session.Dispatch | app.py:237-251 | a name takes the first branch whose text it contains, or none; the key is one of the seven |
| Session.RouteKeysDistinct | app.py:238-251 | no two branches write the same key |
| Session.RoutePictograph | app.py:238-250 | each branch's text is one pictograph followed by plain text |
| Session.RoutePictographsDistinct | app.py:238-250 | the seven branches start with seven different pictographs |
| Session.DispatchTo | app.py:237-251 | a label made of a branch's text followed by plain text takes that branch |
| Session.MenuDispatch | app.py:45-55 | each of the seven menu options takes its own branch of the `elif` chain, so the seven options give the seven keys |
| Session.RunAll | app.py:234-251 | every key in the results is the key of a branch some selected name takes |
| Session.SelectionKeys | app.py:234-251 | the results hold only the seven keys |
| Session.RunAllFails | app.py:233-257 | the loop raises iff some selected analysis raises |
| Session.SelectionFailureIgnoresDraws | app.py:233-257 | whether the loop raises does not depend on the draws |
| Session.RunAllKeys | app.py:236-251 | a key holds a result iff some selected name takes its branch |
| Session.RunAllLastWins | app.py:237-251 | under each key sits the table of the last selected name taking that branch |
| Session.RunSelected | app.py:189-257 | without a combined table or a selection nothing changes; a raising analysis changes nothing; otherwise only `analysis_results` is replaced |
| Session.FreshConsistent | app.py:265-270 | a session without the four keys is consistent |
| Session.IngestKeepsConsistent | app.py:95-157 | an upload keeps the three upload keys together and the combined rows equal to the records' sum |
| Session.LoadDemoKeepsConsistent | app.py:165-180 | a demo button keeps the session consistent |
| Session.ClearKeepsConsistent | app.py:265-270 | clearing keeps the session consistent |
| Session.RunSelectedKeepsConsistent | app.py:189-257 | running analyses keeps the session consistent: results only next to a combined table |
| Session.StepKeepsConsistent | app.py:95-270 | every action keeps the three upload keys together and the combined rows equal to the records' sum |
| Session.Step | app.py:95-270 | no action touches a session key outside the four it manages (`combined_data`, `processed_files`, `file_count`, `analysis_results`) |

## Left out

- Streamlit rendering, widgets, spinners, messages, `st.rerun` and the `display_*` functions are UI and are not modelled. Re-running the script with files still in the uploader is not modelled either; each upload action is one pass of the loop.
- Cells hold only text or numbers (`Tables.Value`). Booleans, datetimes and other values that `pd.read_csv` or `pd.read_excel` can produce are not represented.
- `pd.read_csv` and `pd.read_excel` are opaque readers (`Sources.csv`, `Sources.excel`). Each returns a table or an error message. `Session.ReadersWellFormed` states the assumption that their tables are well formed.
- Random distributions and weights (`p=[...]`, Poisson) are not modelled. Only the range each draw can take is modelled.
- The document stand-ins' row count: `np.random.randint(30, 100)` and `randint(20, 80)` draw from numpy's global state, which depends on earlier calls. The model takes one free draw per upload position (`Sources.sizeDraw`).
- LabelEncoder codes and K-Means labels are draws bounded by the row count and by 3 (`Analyzer.Codes`, `Analyzer.ClusterColumn`). The fitting algorithms are not modelled.
- Analyzer.StressFlags: column dtypes are not modelled. pandas' `.str` accessor checks the column's dtype and the inferred type of its values; the model raises instead when a non-empty table's `nivel_estres` column has no text cell. The two differ on an object column that holds only missing values (for example a header-only CSV concatenated with a file lacking the column): pandas accepts it and flags every row 0, the model raises.
- Analyzer.AlertaTemprana: inherits the approximated error case of `Analyzer.StressFlags`, so an all-missing object `nivel_estres` column is a failure in the model and all-0 flags in pandas.
- Analyzer.PredictorIncidentes: inherits the same approximated error case as `Analyzer.AlertaTemprana`.
- Uploads.ReadUpload: app.py:157 reports only the reader's message (`str(e)`). The file name carried by `ReadFailed` is the model's own tag and is not promised by the source.
- Analyzer.PatronesEstres: the encoded columns are stated as codes below the row count. The model does not state that LabelEncoder orders the codes alphabetically.
- Floating point: uniform draws are exact reals on numpy's 2^53 grid, with no rounding modelled. `pd.cut` on the integer scores is modelled with exact arithmetic, which agrees with pandas because the scores are whole numbers.
- The `tamaño` field's `"%.1f KB"` formatting is left out. The record keeps the size in bytes.
- `Text.Lower` lower-cases ASCII only. Python's full Unicode `lower()` can never produce the letters of `csv`, `xlsx`, `xls`, `pdf` or `docx` from a non-ASCII character, so routing is unaffected.
- A stale `analysis_results` survives a new upload or demo load (app.py:145-147, 167-169). The model keeps this behaviour, and `Session.Consistent` therefore does not tie results to the current table.
- `modules/data_extractor.py` and `modules/report_generator.py` are not part of this model. The first holds thin pandas wrappers and a sample generator that the loop never calls; the second writes files with wall-clock timestamps.
