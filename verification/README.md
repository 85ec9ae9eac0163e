# Pacemaker telemetry back end: a Dafny model

This project models the core of the MS-PM-POC pacemaker predictive-maintenance back end:

- how telemetry enters the database;
- how a synthetic data set is generated and replayed against the API;
- how a model is trained, saved and reloaded;
- how a trained model file is uploaded.

The model follows the Python code. Each module corresponds to one source file:

| module | source | what it is |
|---|---|---|
| `Records` | backend/app/models.py | the ingest row, its field constraints, the upload metadata, the stored artifact row |
| `TelemetryIngest` | backend/app/api/routes/telemetry.py | `POST /telemetry/ingest`, as a class `TelemetryStore` over the table's rows |
| `TelemetrySeed` | backend/app/telemetry_seed.py | start-up seeding of the telemetry table from a CSV, as a class `TelemetryTable` |
| `ReplayTelemetry`, `ReplayLoad` | backend/util/replay_telemetry.py | the replay tool: load and sort the CSV, cut daily batches, post them, count |
| `ModelArtifacts` | backend/app/api/routes/model_artifacts.py | `POST /models/upload`, as a class `ArtifactTable` |
| `MlEngine` | backend/util/ml_engine.py | `MLEngine`, as a class `Engine` with the fields the Python object updates |
| `GenerateData` | backend/util/generate_data.py | `generate_predictive_telemetry` up to the stable sort |

Supporting modules:

- `Common`: Option, Result and flattening.
- `Text`: Python's `strip`, ASCII lower case and string order.
- `JsonValue`: JSON values.
- `Frames`: a data frame as named columns and rows of cells.
- `StableSort`: a stable insertion sort by an (int, int) key. It is proved sorted, a permutation and stable. It stands in for pandas' `sort_values(kind="stable")`.

Loops in the source are methods with loop invariants, proved against specification functions:

- the two ingest loops;
- the seed's row loop and `_copy_batch`;
- the payload-row conversion;
- the daily batching;
- the replay loop;
- the failure-injection loop over an `array`.

State the source mutates becomes a class whose methods state the whole new state:

- the telemetry table and the artifact table;
- the engine's model, schema, partitions and metadata.

Library calls the code relies on become parameters of the model. These are `float()`, timestamp parsing, `json.loads`, SHA-256, the random draws, the train/test split, the forest's `fit` and `predict_proba`, and the file system.

Two behaviours of the code are worth stating up front:

- `seed_pacemaker_telemetry_if_empty` (backend/app/telemetry_seed.py:207-275) counts the table's rows but discards the count. It seeds a table that already holds rows, which its test `test_seed_pacemaker_telemetry_appends_when_table_has_rows` confirms. `TelemetryTable.Seed` therefore branches only on whether the table is available.
- The replay tool groups rows by UTC day in order of first appearance. It relies on the stable sort by (timestamp, patient id) done at load time for the days to come out in order. `ReplayLoad.LoadedFrameReplays` proves that this order holds and that every row is in exactly one batch. Whether a batch is sent depends on its post: with `--continue-on-error`, the rows of a failed post stay unsent.

## Model

| member | source | states |
|---|---|---|
| Records.ValidateIngest | backend/app/models.py:143-161 | a raw row is accepted exactly when patient id and timestamp are present and at least 0, the four measurements are present, and a label, if given, is 0 or 1; an accepted row is valid and keeps the raw id, timestamp, label and derived values; a refusal names at least one field |
| Records.ValidateAcceptsValid | backend/app/models.py:143-161 | every row meeting the field constraints validates back to itself |
| Records.OnlyMeasurementsRequired | backend/app/models.py:149-153 | a row with only id, timestamp and the four measurements is accepted; dropping a measurement makes it refused |
| Records.LabelTwoRejected | backend/app/models.py:153 | a label of 2 is refused and the refusal names `target_fail_next_7d` |
| Records.ValidateUploadMetadata | backend/app/models.py:172-180 | a non-object is refused; an object is accepted exactly when each of the eight declared fields holds an acceptable value (ids up to 255 characters, `trained_at_utc` a datetime, `algorithm` required with 1 to 255 characters, `metrics` a required dict, the other two dicts optional, `notes` up to 2000 characters), and a refusal names exactly the fields that are not; accepted metadata meets the length limits and holds each field's value, None for an absent or null string, `{}` for an absent dict |
| Records.Refused | backend/app/models.py:172-180 | the refused fields are exactly the declared fields whose values are not acceptable, in declaration order; there are none exactly when every field is acceptable |
| TelemetryIngest.InvalidRows | backend/app/models.py:143-161 | the listed indices are exactly the rows that fail validation |
| TelemetryIngest.ValidateBatch | backend/app/api/routes/telemetry.py:24-26 | a batch is accepted exactly when it holds 1 to 2000 rows and every row validates; then it is the validated rows, in order |
| TelemetryIngest.BatchSizeBounds | backend/app/api/routes/telemetry.py:24-26 | an empty batch and a batch over 2000 rows are refused for their size |
| TelemetryIngest.Dedup | backend/app/api/routes/telemetry.py:36-45 | the de-duplicated batch has distinct (patient, timestamp) keys, the same key set as the batch, and is no longer |
| TelemetryIngest.DedupKeepsFirstOccurrence | backend/app/api/routes/telemetry.py:36-45 | each kept row is the first row of the batch with its key |
| TelemetryIngest.CollapseDuplicates | backend/app/api/routes/telemetry.py:36-45 | the first loop stops at the first timestamp `fromtimestamp` cannot convert; when every one converts, it yields the de-duplicated batch, its key set, and the count of repeated rows |
| TelemetryIngest.FirstOutOfRange | backend/app/api/routes/telemetry.py:39-40 | the index of the first row whose timestamp lies past 9999-12-31T23:59:59 UTC, every earlier row being in range, or the batch length when all are |
| TelemetryIngest.Year10000PassesValidation | backend/app/models.py:145-148 | a row with timestamp 253402300800 passes the field constraints, yet is the first row the route cannot convert |
| TelemetryIngest.RowsToInsert | backend/app/api/routes/telemetry.py:61-83 | the second loop keeps, in order, the unique rows whose key was not found |
| TelemetryIngest.ToRow | backend/app/api/routes/telemetry.py:65-82 | a stored row has the key of the row it is built from |
| TelemetryIngest.CountsConserved | backend/app/api/routes/telemetry.py:89-97 | received = inserted + duplicates; duplicates = in-payload + existing |
| TelemetryIngest.ExistingCountsDistinctKeys | backend/app/api/routes/telemetry.py:89-97 | existing duplicates count the distinct stored keys of the batch; in-payload duplicates count the repeats |
| TelemetryIngest.ResidualSplit | backend/app/api/routes/telemetry.py:61-64 | the unique rows split into those found and those kept, and the kept keys are the unique keys minus the stored ones |
| TelemetryIngest.NewRowsKeys | backend/app/api/routes/telemetry.py:61-83 | the inserted keys are exactly the batch keys not yet stored |
| TelemetryIngest.NewRowsDistinct | backend/app/api/routes/telemetry.py:61-83 | no two inserted rows share a key |
| TelemetryIngest.NewRowsAreFirstOccurrences | backend/app/api/routes/telemetry.py:36-83 | each inserted row is built from the first row of the batch with its key |
| TelemetryIngest.StoreKeysAfterIngest | backend/app/api/routes/telemetry.py:61-87 | after ingest the stored keys are the old keys plus the batch keys |
| TelemetryIngest.ReingestInsertsNothing | backend/app/api/routes/telemetry.py:36-97 | ingesting the same batch twice inserts nothing the second time and counts every row as a duplicate |
| TelemetryIngest.TelemetryStore.Ingest | backend/app/api/routes/telemetry.py:19-97 | a refused batch gives its 422 error and leaves the table unchanged; a validated batch with a timestamp `fromtimestamp` cannot convert fails at that row and leaves the table unchanged; otherwise exactly the new rows are appended and the counts returned |
| TelemetryIngest.TelemetryStore.IngestBatch | backend/app/api/routes/telemetry.py:36-97 | an unconvertible timestamp ends the handler at its row with the table unchanged; otherwise the handler returns the specified counts and appends exactly the new rows |
| TelemetryIngest.ScenarioOneExistingOneRepeated | backend/tests/api/routes/test_telemetry_route.py:26-62 | the test's batch (one stored key, one repeated key) inserts one row, with one in-payload and one existing duplicate |
| TelemetrySeed.NormalizedValue | backend/app/telemetry_seed.py:65 | a string value is stripped; any other value becomes "" |
| TelemetrySeed.NormalizeAsWritten | backend/app/telemetry_seed.py:61-67 | the normaliser as written fails exactly when the row holds a surplus field (key None); otherwise it gives the normalised dictionary |
| TelemetrySeed.SurplusFieldRaises | backend/app/telemetry_seed.py:61-67 | a row with one field more than the header makes the normaliser as written fail |
| TelemetrySeed.NormalizeRow | backend/app/telemetry_seed.py:61-67 | the corrected loop builds the normalised dictionary of the row |
| TelemetrySeed.NormalizedKeys | backend/app/telemetry_seed.py:63-66 | the keys are exactly the stripped text keys of the row |
| TelemetrySeed.NormalizedLastWins | backend/app/telemetry_seed.py:63-66 | the value kept for a key is the normalised value of the last entry with that stripped key |
| TelemetrySeed.NormalizedIsStripped | backend/app/telemetry_seed.py:64-65 | every key and value of the normalised row is already stripped |
| TelemetrySeed.AliasesSpec | backend/app/telemetry_seed.py:70-76 | the aliases of a field are exactly the CSV names the column map sends to it |
| TelemetrySeed.CandidateKeysSpec | backend/app/telemetry_seed.py:70-76 | the candidates are the field name first, then its aliases |
| TelemetrySeed.CandidateKeysOfMappedFields | backend/app/telemetry_seed.py:22-38 | each mapped field has exactly two candidates: itself and its one CSV name |
| TelemetrySeed.ColumnMapFieldsDistinct | backend/app/telemetry_seed.py:22-38 | no two CSV names map to the same field |
| TelemetrySeed.FirstPresentSpec | backend/app/telemetry_seed.py:79-84 | the result is the first candidate's value that is present and non-empty, or None when there is none |
| TelemetrySeed.ReadFieldPrefersFieldName | backend/app/telemetry_seed.py:79-84 | a non-empty value under the field's own name wins over its alias |
| TelemetrySeed.ReadFieldFallsBackToAlias | backend/app/telemetry_seed.py:79-84 | with the field name absent or empty, the alias's non-empty value is read |
| TelemetrySeed.IntOfFloat | backend/app/telemetry_seed.py:107 | `int()` of a float succeeds exactly when it is finite, and raises OverflowError exactly on infinity |
| TelemetrySeed.ParseFloat | backend/app/telemetry_seed.py:101 | text `float()` cannot parse raises ValueError |
| TelemetrySeed.ParseInt | backend/app/telemetry_seed.py:107 | `int(float(s))` raises OverflowError exactly when `float(s)` is infinite |
| TelemetrySeed.ParseOptionalFloat | backend/app/telemetry_seed.py:98-101 | None passes through; text is parsed |
| TelemetrySeed.ParseOptionalInt | backend/app/telemetry_seed.py:104-107 | None passes through; parsed text always gives a value |
| TelemetrySeed.LabelAcceptedRange | backend/app/telemetry_seed.py:129-131 | a label whose float value lies strictly between -1 and 2, and only such a label, truncates to 0 or 1 |
| TelemetrySeed.ParseAllOptional | backend/app/telemetry_seed.py:141-164 | all optional values parse, each in place, or the first error is raised |
| TelemetrySeed.ReadAllSpec | backend/app/telemetry_seed.py:111-127 | the required fields are all read, in order, or one of them is missing |
| TelemetrySeed.ReadEachSpec | backend/app/telemetry_seed.py:129-164 | each optional field is read in place |
| TelemetrySeed.ReadFieldsSpec | backend/app/telemetry_seed.py:110-131 | the raw fields are read exactly when every required field is present |
| TelemetrySeed.MissingRequiredSkipsRow | backend/app/telemetry_seed.py:126-127 | a row missing a required field raises ValueError, which skips the row |
| TelemetrySeed.ParsedPayloadFields | backend/app/telemetry_seed.py:133-167 | a built payload carries the parsed id, timestamp, measurements, label and derived values, plus the given uuid and creation time |
| TelemetrySeed.LabelOutOfRangeSkipsRow | backend/app/telemetry_seed.py:129-131 | a label outside 0 and 1 raises ValueError, which skips the row |
| TelemetrySeed.FatalOnlyFromIntOrTimestamp | backend/app/telemetry_seed.py:110-167 | an error other than ValueError comes only from an infinite label or patient id, or from an overflowing timestamp |
| TelemetrySeed.OnlyNoneIsCopiedAsNull | backend/app/telemetry_seed.py:170-175 | only None serialises to "", the COPY null marker; any other value is non-empty once the renderers are |
| TelemetrySeed.CopyRecordNulls | backend/app/telemetry_seed.py:178-193 | one field per COPY column, in order; a field is null exactly when the payload's value is absent |
| TelemetrySeed.SeedFlagIgnoresPaddingAndCase | backend/app/telemetry_seed.py:202-204 | the flag's value is read after stripping and lower-casing |
| TelemetrySeed.SeedFlagTrue | backend/app/telemetry_seed.py:202-204 | each of "1", "true", "yes" and "on" enables the seed, and so does "TRUE" with any whitespace around it |
| TelemetrySeed.SeedFlagFalse | backend/app/telemetry_seed.py:202-204 | none of "false", "0" and "" enables the seed |
| TelemetrySeed.SeedFlagUnset | backend/app/telemetry_seed.py:203 | an unset variable reads as "false" |
| TelemetrySeed.FirstFatal | backend/app/telemetry_seed.py:246-258 | the index of the first row whose error is not a ValueError; every row before it is built or skipped |
| TelemetrySeed.AcceptedPlusRejected | backend/app/telemetry_seed.py:246-258 | without a fatal row, every row is either batched or skipped |
| TelemetrySeed.EffectiveBatchSize | backend/app/telemetry_seed.py:260 | a batch size of at least 1 is used as given; a smaller one flushes after every row |
| TelemetrySeed.RoundDown | backend/app/telemetry_seed.py:260-264 | the rows flushed by full batches: at most the rows batched, and fewer than one batch short |
| TelemetrySeed.BatchedAppend | backend/app/telemetry_seed.py:250-264 | appending a payload keeps the invariant: full batches of exactly the batch size, and the pending batch holding the rest in order |
| TelemetrySeed.LoadSkip | backend/app/telemetry_seed.py:251-258 | a skipped row only moves the skip counter |
| TelemetrySeed.LoadAccept | backend/app/telemetry_seed.py:249-264 | a built row joins the batch, and a full batch is written and counted |
| TelemetrySeed.LoadFlush | backend/app/telemetry_seed.py:260-264 | writing a full batch appends it to the table and to the commits |
| TelemetrySeed.LoadAborted | backend/app/telemetry_seed.py:244-249 | a fatal error ends the load with that error, leaving the full batches committed before it |
| TelemetrySeed.LoadEnd | backend/app/telemetry_seed.py:266-269 | the pending batch is written at the end, only when it is non-empty |
| TelemetrySeed.LoadCompleted | backend/app/telemetry_seed.py:240-275 | a completed load has inserted every accepted payload in order, in batches of 1 to batch-size rows, and inserted + skipped = rows read |
| TelemetrySeed.LoadFinished | backend/app/telemetry_seed.py:266-275 | the final state meets the load's specification |
| TelemetrySeed.TelemetryTable.CopyBatch | backend/app/telemetry_seed.py:178-200 | an empty batch changes nothing; otherwise its rows are appended and it is one more commit |
| TelemetrySeed.TelemetryTable.Seed | backend/app/telemetry_seed.py:207-275 | a disabled flag, a missing table and a missing CSV each stop the seed with nothing written; otherwise the rows are loaded as specified |
| TelemetrySeed.TelemetryTable.LoadRows | backend/app/telemetry_seed.py:240-275 | the loop inserts the accepted payloads in order, in batches, and counts inserted and skipped rows; a fatal row aborts it after the full batches before it |
| ReplayTelemetry.ParseArgs | backend/util/replay_telemetry.py:141-158 | the three checks in order with their messages; success exactly when all hold; `stop_on_error` is the negation of `--continue-on-error` |
| ReplayTelemetry.BuildHeaders | backend/util/replay_telemetry.py:245-249 | always a JSON content type; an Authorization bearer header exactly when the token is truthy |
| ReplayTelemetry.PayloadValue | backend/util/replay_telemetry.py:228-240 | a missing value (None, NaN, NA) becomes null and nothing else does; id and timestamp become integers; other values pass through |
| ReplayTelemetry.PayloadRowsSpec | backend/util/replay_telemetry.py:224-242 | each payload row has one entry per column, named by it and converted by `PayloadValue` |
| ReplayTelemetry.DataframeToPayloadRows | backend/util/replay_telemetry.py:224-242 | the loop produces the specified payload rows |
| ReplayTelemetry.CeilDivBounds | backend/util/replay_telemetry.py:217 | `ceil(n/m)` chunks of `m` cover `n` rows and one fewer does not |
| ReplayTelemetry.DayChunksCover | backend/util/replay_telemetry.py:213-221 | a day's batches, concatenated, are exactly the day's rows in order |
| ReplayTelemetry.DayChunksSizes | backend/util/replay_telemetry.py:213-221 | a day within the limit is one batch; a larger day is `ceil(n/m)` chunks (at least 2), all full but the last, which holds 1 to m rows |
| ReplayTelemetry.DayChunksBounded | backend/util/replay_telemetry.py:213-221 | every batch of a non-empty day holds 1 to m rows |
| ReplayTelemetry.DayBatches | backend/util/replay_telemetry.py:213-221 | the chunking loop produces the specified batches |
| ReplayTelemetry.DayOfMonotone | backend/util/replay_telemetry.py:206-208 | a later timestamp never falls on an earlier UTC day |
| ReplayTelemetry.FirstAppearanceSpec | backend/util/replay_telemetry.py:210 | the day keys in order of first appearance are distinct and are exactly the keys present |
| ReplayTelemetry.GroupsCover | backend/util/replay_telemetry.py:210-212 | for non-decreasing day keys the groups, concatenated, are the rows in order |
| ReplayTelemetry.PayloadRowsOfGroup | backend/util/replay_telemetry.py:211-212 | converting a day's frame gives that day's group of converted rows |
| ReplayTelemetry.FirstOutOfBounds | backend/util/replay_telemetry.py:206-208 | the first row whose timestamp lies outside ±9223372036 seconds (nanoseconds past a signed 64-bit integer), every earlier row being within, or the row count when all are |
| ReplayTelemetry.IterDailyBatches | backend/util/replay_telemetry.py:203-221 | a timestamp that `to_datetime(unit="s")` cannot convert raises, reporting the first such timestamp; otherwise the loop over days produces the specified batches |
| ReplayTelemetry.DailyBatchesCover | backend/util/replay_telemetry.py:203-221 | on a frame sorted by day, the daily batches, concatenated, are exactly its payload rows: none lost, none repeated, order kept |
| ReplayTelemetry.DailyBatchesBounded | backend/util/replay_telemetry.py:203-221 | every batch holds 1 to max-request-rows rows |
| ReplayTelemetry.FirstFailure | backend/util/replay_telemetry.py:291-309 | the index of the first failed post: every post before it succeeded |
| ReplayTelemetry.ReplayBatches | backend/util/replay_telemetry.py:252-325 | the loop's four counters, or the raised error, are the specified outcome |
| ReplayTelemetry.AcceptedBounded | backend/util/replay_telemetry.py:291-309 | no more batches or rows are sent than prepared |
| ReplayTelemetry.SentNeverExceedsPrepared | backend/util/replay_telemetry.py:311-325 | a completed replay reports all prepared batches and rows, and no more sent than prepared |
| ReplayTelemetry.EverythingSentWhenNothingFails | backend/util/replay_telemetry.py:252-325 | a dry run, or a run where every post succeeds, sends everything it prepared |
| ReplayTelemetry.StopOnErrorSendsAllOrRaises | backend/util/replay_telemetry.py:302-309 | with stop-on-error the replay raises at the first failed post, or sends everything |
| ReplayTelemetry.AcceptedMissesFailure | backend/util/replay_telemetry.py:302-309 | a failed post among the first n batches leaves fewer than n of them sent |
| ReplayTelemetry.ContinueOnErrorCompletes | backend/util/replay_telemetry.py:302-309 | without stop-on-error the replay always completes, and it reports every batch sent exactly when every post succeeded |
| ReplayTelemetry.RowCountIsAllRows | backend/util/replay_telemetry.py:284-286 | the prepared row count is the number of rows in the batches |
| ReplayLoad.RenameAll | backend/util/replay_telemetry.py:169 | every column is renamed through the alias map, in place |
| ReplayLoad.PresentSpec | backend/util/replay_telemetry.py:179-182 | the optional columns kept are exactly those in the CSV, in the fields' order |
| ReplayLoad.AbsentSpec | backend/util/replay_telemetry.py:171-173 | the missing required columns are exactly those absent, in the fields' order |
| ReplayLoad.Repeated | backend/util/replay_telemetry.py:183 | a payload column that occurs twice after renaming is reported |
| ReplayLoad.ConversionFault | backend/util/replay_telemetry.py:185-195 | converting a column fails exactly when its label selects two columns (DuplicateColumn) or one of its values does not convert (Unconvertible) |
| Common.RoundHalfEven | backend/util/replay_telemetry.py:192-195 | `round()` gives the nearest integer, a tie going to the even one |
| ReplayLoad.Converted | backend/util/replay_telemetry.py:185-196 | id and timestamp become integers; measurements floats (or NaN); the label NA or an integer; other columns stay |
| ReplayLoad.FirstFaulty | backend/util/replay_telemetry.py:185-195 | the position of the first column, in conversion order, whose conversion fails, every earlier one converting; none exactly when every column converts |
| ReplayLoad.PayloadConverts | backend/util/replay_telemetry.py:183-195 | when every converted column converts, no payload column raises: the derived columns are not converted |
| ReplayLoad.ConvertRows | backend/util/replay_telemetry.py:183-196 | one converted row per CSV row, one cell per payload column |
| ReplayLoad.LoadErrors | backend/util/replay_telemetry.py:161-177 | a missing file, a file with no header (`EmptyDataError`), a header without rows and missing required columns each give their error and message, in that order |
| ReplayLoad.LoadConversionFaults | backend/util/replay_telemetry.py:183-195 | past the column checks, the first column in conversion order (`patient_id`, `timestamp`, the four measurements, the label) that fails decides the error; a repeated derived column is refused only when every conversion succeeds |
| ReplayLoad.PatientIdConvertedFirst | backend/util/replay_telemetry.py:185 | a `patient_id` value that does not convert is the error, whatever repeated columns follow |
| ReplayLoad.LoadColumns | backend/util/replay_telemetry.py:169-183 | a loaded frame has the required columns first, then the optional ones present, in order |
| ReplayLoad.LoadRows | backend/util/replay_telemetry.py:183-200 | a loaded frame has every CSV row converted, sorted by (timestamp, patient id), a permutation with rows of equal key kept in file order |
| ReplayLoad.ConvertedRowShape | backend/util/replay_telemetry.py:185-186 | every converted row has one cell per payload column and an integer in each `astype(int)` column |
| ReplayLoad.LoadOk | backend/util/replay_telemetry.py:161-200 | what a successful load is made of: the checks passed, the columns chosen, the rows converted and sorted |
| ReplayLoad.PayloadTimestamp | backend/util/replay_telemetry.py:22-29 | the timestamp is the second payload column |
| ReplayLoad.SortedDayKeys | backend/util/replay_telemetry.py:198-208 | rows sorted by timestamp have non-decreasing UTC days |
| ReplayLoad.LoadedFrameReplays | backend/util/replay_telemetry.py:328-348 | the loaded frame is sorted by UTC day, its daily batches, concatenated, are exactly its payload rows, and they hold as many rows as the CSV |
| ReplayLoad.ReplayCsv | backend/util/replay_telemetry.py:328-348 | a load error is passed on; a loaded frame with a timestamp out of `to_datetime`'s bounds raises OutOfBoundsDatetime for the first such timestamp before any post; otherwise it is replayed as its daily batches, with the post outcome of each, and the result is that replay's counts; a completed replay prepares exactly the CSV's rows, and a dry run sends all of them |
| ModelArtifacts.HexValue | backend/app/api/routes/model_artifacts.py:67 | a hexadecimal digit has a value below 16 |
| ModelArtifacts.HexDigest | backend/app/api/routes/model_artifacts.py:67 | `hexdigest()` gives two hexadecimal digits per byte |
| ModelArtifacts.HexDigitValue | backend/app/api/routes/model_artifacts.py:67 | each hexadecimal digit reads back as its value |
| ModelArtifacts.HexDigestRoundTrip | backend/app/api/routes/model_artifacts.py:67 | the hex digest reads back as the digest bytes |
| ModelArtifacts.ResponseOf | backend/app/api/routes/model_artifacts.py:88-97 | the response echoes the stored row's version ids, algorithm, size, digest and content type |
| ModelArtifacts.UploadChecks | backend/app/api/routes/model_artifacts.py:37-65 | invalid JSON and invalid metadata give 422, an empty file 400, a file over 64 MiB 413, in that order; an upload is accepted exactly when all pass |
| ModelArtifacts.MissingAlgorithmRejected | backend/app/api/routes/model_artifacts.py:45-51 | metadata without `algorithm` is refused with 422, whatever the file |
| ModelArtifacts.UploadStored | backend/app/api/routes/model_artifacts.py:60-82 | an accepted upload stores the validated metadata, the file, its size (1 byte to 64 MiB) and a 64-character hex digest that reads back as the SHA-256 |
| ModelArtifacts.ArtifactTable.Upload | backend/app/api/routes/model_artifacts.py:21-97 | a refused upload leaves the table unchanged; an accepted one appends exactly one row, echoed in the response |
| MlEngine.KeepWhere | backend/util/ml_engine.py:211-213 | keeping the cells of the columns not dropped gives one cell per kept column |
| MlEngine.KeepWhereMembers | backend/util/ml_engine.py:211-213 | the kept columns are exactly the columns not dropped |
| MlEngine.KeepWhereOne | backend/util/ml_engine.py:240 | dropping one column of distinct columns removes exactly its cell |
| MlEngine.KeepWhereDistinct | backend/util/ml_engine.py:211-213 | dropping columns keeps the remaining names distinct |
| MlEngine.DropColumnsNames | backend/util/ml_engine.py:211-213 | a frame after `drop` has exactly the columns not dropped, and still distinct names |
| MlEngine.SelectColumns | backend/util/ml_engine.py:231 | `df[feature_names]` has exactly those columns, in that order, and every row |
| MlEngine.SelectColumnsCells | backend/util/ml_engine.py:231 | each selected cell is the input's cell of that column |
| MlEngine.WithColumnCells | backend/util/ml_engine.py:470-471 | assigning a column replaces it where present or appends it, leaving every other cell |
| MlEngine.CompleteRowsSpec | backend/util/ml_engine.py:244-246 | the rows kept are exactly the rows without a missing cell |
| MlEngine.SplitRowComplete | backend/util/ml_engine.py:244 | a row is complete exactly when its features and its target are |
| MlEngine.MaskKeepsCompleteRows | backend/util/ml_engine.py:239-246 | masking the features and the target by `X.notna().all(axis=1) & y.notna()` keeps exactly the complete rows, split into features and target |
| MlEngine.LoadData | backend/util/ml_engine.py:138-167 | a missing path raises FileNotFoundError; a CSV without a header raises "No columns to parse from file", one without rows "Loaded dataset is empty.", and any other CSV is loaded as it is; a loaded frame is never empty; a frame source is accepted exactly when it is non-empty |
| MlEngine.MissingNamesSpec | backend/util/ml_engine.py:225 | the missing names are exactly the feature names absent from the columns, each once |
| MlEngine.MissingListed | backend/util/ml_engine.py:226-230 | the error lists the missing names sorted |
| MlEngine.Reprs | backend/util/ml_engine.py:228-229 | formatting the sorted missing names gives the `repr` of each name, in order |
| MlEngine.Repr | backend/util/ml_engine.py:228-229 | a `repr` is at least two characters longer than the name and starts and ends with its chosen quote |
| MlEngine.ReprQuotes | backend/util/ml_engine.py:228-229 | a name without backslashes or control characters appears as it is, between single quotes, or between double quotes when it holds a single quote and no double quote |
| MlEngine.InferenceFeatures | backend/util/ml_engine.py:222-231 | the inference matrix has exactly the trained schema's columns and every input row |
| MlEngine.InferenceRefusal | backend/util/ml_engine.py:222-231 | inference is refused exactly when a trained feature is absent or is the target column |
| MlEngine.InferenceSchema | backend/util/ml_engine.py:208-231 | with no schema RuntimeError; otherwise refused exactly when a feature is absent, excluded or the target |
| MlEngine.TrainingFeatures | backend/util/ml_engine.py:233-263 | the training matrix and target have equal length, at most the input's, and an accepted target holds no text (`y.mean()` raises TypeError otherwise) |
| MlEngine.PrepareFeatures | backend/util/ml_engine.py:173-263 | inference gives the schema's columns and no target; training gives a target as long as the matrix |
| MlEngine.TrainingRows | backend/util/ml_engine.py:208-263 | training raises ValueError when the target is absent or excluded, and otherwise raises TypeError exactly when a complete row's target is text; on success the features are the columns left, and the rows and target are those of the complete rows |
| MlEngine.TrainingOnDropped | backend/util/ml_engine.py:233-263 | on the frame after dropping: ValueError without the target; TypeError exactly when a complete row's target is text; otherwise the features and target are the complete rows split at the target column |
| MlEngine.TextTargetRaises | backend/util/ml_engine.py:255 | the frame with columns `a, t` and the row `1, "x"` is refused with TypeError when `t` is the target |
| MlEngine.TrainMetadata | backend/util/ml_engine.py:329-343 | the training metadata holds the OOB score, the hyperparameters and the row counts, and none of the keys `save_artifact` adds |
| MlEngine.TrainedSchema | backend/util/ml_engine.py:283-301 | the trained schema is the prepared columns without the target |
| MlEngine.EvaluationReport | backend/util/ml_engine.py:409-423 | the report has a `dataset_info` object |
| MlEngine.EvaluationEchoesTraining | backend/util/ml_engine.py:409-423 | the report echoes the training OOB score, hyperparameters, row counts and feature count |
| MlEngine.Round4 | backend/util/ml_engine.py:471 | `np.round(p, 4)` lies within 0.00005 of `p` and is a whole number of ten-thousandths |
| MlEngine.Probabilities | backend/util/ml_engine.py:468-471 | one `risk_probability` cell per class-1 probability |
| MlEngine.PredictionKeepsInput | backend/util/ml_engine.py:438-479 | when the forest is fitted and `predict_proba` gives two or more class columns of the input's length, a prediction keeps every input row and cell and adds `risk_probability` holding each row's class-1 probability rounded to 4 decimals |
| MlEngine.PredictionRefusals | backend/util/ml_engine.py:466-471 | a prediction succeeds exactly when the forest is fitted and `predict_proba` succeeds with at least two class columns of the input's length; an unfitted forest raises NotFittedError, another library exception passes through, and a one-class forest raises IndexError at `[:, 1]` |
| MlEngine.RiskAppended | backend/util/ml_engine.py:470-471 | the risk column holds each probability rounded to 4 decimals; every other input cell stays |
| MlEngine.LastSlash | backend/util/ml_engine.py:562 | the position of the last "/" in a path, if any |
| MlEngine.ParentOfJoin | backend/util/ml_engine.py:558-562 | the parent of `dir/name` is `dir` |
| MlEngine.Ancestors | backend/util/ml_engine.py:511-512 | the directories `mkdir(parents=True)` makes include the directory itself |
| MlEngine.ArtifactDirAncestor | backend/util/ml_engine.py:511-512 | the artifact directory is among the directories made for a version under it |
| MlEngine.SaveFiles | backend/util/ml_engine.py:511-528 | saving keeps the store well formed; a file at the version directory or any of its ancestors raises before anything is written; otherwise every ancestor becomes a directory, and a successful save writes exactly the model file and the metadata file under the version directory and returns it |
| MlEngine.Restore | backend/util/ml_engine.py:573-584 | the restored training metadata keeps every entry of the file outside the five saved keys, and holds none of those |
| MlEngine.MetadataRoundTrip | backend/util/ml_engine.py:517-584 | reading back saved metadata restores the schema, target, excluded columns and training metadata |
| MlEngine.LoadFiles | backend/util/ml_engine.py:555-597 | without an error a model is loaded; metadata is restored only with a model |
| MlEngine.SaveThenLoad | backend/util/ml_engine.py:485-597 | loading what `save_artifact` wrote, by its directory or by its `model.joblib`, restores the forest, schema and metadata |
| MlEngine.Defaults | backend/util/ml_engine.py:85-96 | the default target column is `Target_Fail_Next_7d`, and no excluded list is given, so the default list applies |
| MlEngine.Engine.constructor | backend/util/ml_engine.py:85-132 | the configuration is stored, the excluded columns default to ["Patient_ID", "Timestamp"], and nothing is trained |
| MlEngine.Engine.Train | backend/util/ml_engine.py:269-345 | a failed load, preparation (including the TypeError of a text target) or split changes nothing; after the split the engine holds its partitions and schema; a failing fit raises with an unfitted forest and the old training metadata left behind; a successful fit leaves the fitted forest and new metadata and returns the split; target and excluded columns stay |
| MlEngine.Engine.Fit | backend/util/ml_engine.py:301-343 | the partitions and schema are set before fitting; a fit that raises leaves an unfitted forest and the old metadata; a fit that succeeds leaves the state trained on the split |
| MlEngine.Engine.Evaluate | backend/util/ml_engine.py:351-432 | untrained raises RuntimeError; otherwise the cross-validation's exception passes through, an unfitted forest raises NotFittedError at the hold-out prediction, and otherwise the report is built from the training metadata and scores |
| MlEngine.Engine.Predict | backend/util/ml_engine.py:438-479 | without a model RuntimeError; with an unfitted forest an error; otherwise the prediction of the loaded data with the held schema |
| MlEngine.Engine.SaveArtifact | backend/util/ml_engine.py:485-531 | without a model RuntimeError and nothing written; otherwise the model and metadata files in `artifact_dir/version`, the version defaulting to the clock |
| MlEngine.Engine.LoadArtifact | backend/util/ml_engine.py:533-597 | the result is the load's error or success; a loaded model replaces the old; restored metadata replaces the schema, target, excluded columns and training metadata, which otherwise stay; the training partitions never change |
| GenerateData.Validate | backend/util/generate_data.py:68-108 | accepted settings have positive counts, a rate in [0, 1], and enough points per patient when the rate is positive |
| GenerateData.ValidationOrder | backend/util/generate_data.py:68-108 | the rate, type, sign, file-name and point-count checks in that order, with their errors; "Filename must be provided" is never raised |
| GenerateData.FilenameResolved | backend/util/generate_data.py:81-91 | an empty name becomes `<uuid>.csv`; a saved file ends in ".csv"; a saved bare name goes in the data directory, a saved path of several components stays as `pathlib` writes it, and an unsaved name is only normalised |
| GenerateData.PartsFrom | backend/util/generate_data.py:89 | the components of a path are non-empty, never "." and hold no "/" |
| GenerateData.OutputPathParent | backend/util/generate_data.py:89-91 | a saved "./name" goes in the data directory like "name", and "dir/name" stays where it is |
| GenerateData.DefaultsAccepted | backend/util/generate_data.py:12-19 | the default arguments pass every check |
| GenerateData.Timestamps | backend/util/generate_data.py:116-119 | timestamp `i` is `now - (n-1-i) * interval` |
| GenerateData.TimestampGrid | backend/util/generate_data.py:114-119 | the last timestamp is now and steps are one interval; with at most one ping a second they rise strictly, otherwise all equal now |
| GenerateData.PatientIds | backend/util/generate_data.py:113 | the patient ids are 0 to n-1 |
| GenerateData.FailingCount | backend/util/generate_data.py:136 | `int(n * rate)` is at most n, and positive only for a positive rate |
| GenerateData.Choose | backend/util/generate_data.py:137-139 | k draws without replacement: k distinct members of the pool |
| GenerateData.FailPositionRange | backend/util/generate_data.py:153-156 | a failure position leaves at least 100 days before it and 10 after it |
| GenerateData.FailPositions | backend/util/generate_data.py:148-156 | one failure position per failing patient, in draw order |
| GenerateData.FailureOf | backend/util/generate_data.py:148-156 | a patient has a failure position exactly when it was drawn as failing |
| GenerateData.SetLabels | backend/util/generate_data.py:167 | exactly the listed rows are set to 1, the rest unchanged |
| GenerateData.InjectFailures | backend/util/generate_data.py:133-200 | the labels are 1 exactly on the 7 days before each failure, and the rows dropped are exactly those at or after each failure |
| GenerateData.InjectFailure | backend/util/generate_data.py:148-200 | one patient's pass extends both invariants to that patient |
| GenerateData.LabelStep | backend/util/generate_data.py:163-167 | labelling one patient's window keeps every label right for the patients so far |
| GenerateData.DropStep | backend/util/generate_data.py:199-200 | adding one patient's tail keeps the rows to drop right for the patients so far |
| GenerateData.ExplantIsRows | backend/util/generate_data.py:121-204 | dropping the listed rows from the grid leaves exactly the planned rows, in grid order |
| GenerateData.RowsSorted | backend/util/generate_data.py:121-207 | with strictly rising timestamps the rows are already in (timestamp, patient id) order |
| GenerateData.PatientRows | backend/util/generate_data.py:121-204 | one patient's rows are its history up to its failure position |
| GenerateData.HistoryPositives | backend/util/generate_data.py:163-167 | the positives of a history are the part of it inside the warning window |
| GenerateData.PatientOutcome | backend/util/generate_data.py:148-204 | a healthy patient keeps every row with none labelled; a failing one keeps the rows before its failure, and exactly the last 7 days of them are labelled |
| GenerateData.Failing | backend/util/generate_data.py:136-139 | the number of failing patients is `int(n * rate)` |
| GenerateData.PlanOf | backend/util/generate_data.py:113-156 | the plan has the grid's length and one failure entry per patient |
| GenerateData.DrawsInjectable | backend/util/generate_data.py:137-156 | the drawn patients are distinct valid ids and every failure position is in range |
| GenerateData.PlanInRange | backend/util/generate_data.py:152-156 | every planned failure leaves 100 days before and 10 after |
| GenerateData.Generate | backend/util/generate_data.py:12-207 | an invalid request gives its error; otherwise the planned rows sorted by (timestamp, patient id) and the output path |
| GenerateData.GeneratedOrder | backend/util/generate_data.py:205-207 | the output is sorted and a permutation of the rows; with at most one ping a second the sort changes nothing |
| StableSort.SortByOrdered | backend/util/generate_data.py:205-207 | the stable sort's output is ordered by its key |
| StableSort.SortByPermutes | backend/util/generate_data.py:205-207 | the stable sort's output is a permutation of its input |
| StableSort.SortIsStable | backend/util/replay_telemetry.py:198 | rows with equal keys keep their input order |
| StableSort.SortSortedIsIdentity | backend/util/generate_data.py:205-207 | sorting already sorted rows changes nothing |
| Text.StripIdempotent | backend/app/telemetry_seed.py:64-65 | stripping twice is stripping once |
| Text.StripPadded | backend/app/telemetry_seed.py:203 | stripping removes the whitespace padding around a word without inner padding |

## Left out

- Authentication and authorisation (the superuser dependency), HTTP transport, `time.sleep` between posts, timeouts and logging are not modelled.
- A request failure in the replay is one boolean per batch (`posted`). Network errors and status codes are not distinguished.
- Database sessions, transactions and PostgreSQL `COPY` text are left out. The table is the sequence of its rows, and a commit is the batch it writes.
- `datetime` values are integer seconds. `datetime.fromtimestamp` is taken as injective, so keys compare as the integers do.
- The day key of `iter_daily_batches` is the day number `floor(ts / 86400)`, not the "%Y-%m-%d" text. The two correspond one to one for the timestamps `to_datetime(unit="s")` accepts (±9223372036 seconds); a timestamp outside raises, as ReplayTelemetry.IterDailyBatches models.
- ReplayLoad.Converted: `astype(int)` is taken to give the integer part of any number; the wrap-around or error of a value beyond a signed 64-bit integer is not modelled.
- Floating point is modelled as real arithmetic.
  - `int(n * failure_rate)` rounds the product as a real, so a float product that rounds down is not captured.
  - NaN and infinity appear only where the code branches on them.
- `float()`, `pd.to_numeric`, timestamp parsing, `json.loads`, the datetime validator and SHA-256 are parameters of the model. Their internals are not modelled.
- ModelArtifacts.HexDigest covers `hexdigest()`. SHA-256 itself is a parameter.
- The random draws (`np.random.choice`, `randint`) are given streams of numbers.
- The normal baseline measurements, the per-type degradation drift, the 2-decimal rounding and the rolling and delta features (backend/util/generate_data.py:127-130, 158-161, 169-197, 209 onward) are not modelled. A generated row carries patient id, timestamp and label.
- `to_csv` and the CLI wrappers are not modelled.
- GenerateData.Validate reports every check of the source. The "Filename must be provided" branch is kept but is unreachable, which GenerateData.ValidationOrder proves.
- The random forest, `train_test_split`, cross-validation and the classification report are parameters (`Learner`, `Scores`). The model states what the engine does with their results, not how they are computed.
- The rounding of metrics to 4 and 3 decimals is not modelled; the measured values enter already rounded. The 4-decimal rounding of `risk_probability` is modelled.
- MlEngine.TrainingFeatures raises TypeError for any text among the kept targets, with a fixed message. pandas' own wording depends on the values it tried to add ("Could not convert string … to numeric", or an unsupported-operand message when numbers and text mix). The positive rate itself is only logged, so it is not computed.
- MlEngine.Engine.Train returns the split it stores. The Python method returns `self` for chaining.
- Files are a map from path to content, and `Path` joining is string concatenation with "/". `resolve()`, `..` and symbolic links are not modelled.
- ReplayLoad.LoadAndNormalize converts the columns one at a time in the source's order, and a required column or the label that occurs twice after renaming raises at its own conversion (DuplicateColumn: `pd.to_numeric` receives a two-column selection and raises TypeError). A repeated optional derived column is converted by nothing, so pandas goes on with both columns and `to_dict` keeps one value; the model refuses that case with DuplicateColumn after every conversion succeeds, which the code does not do.
- MlEngine.PyStrList escapes, inside `repr`, the quote, the backslash, tab, newline, carriage return and the other ASCII control characters. The non-ASCII characters Python does not consider printable, which `repr` also escapes, are kept as they are.
- Records.ValidateIngest accepts only values of the declared types. Pydantic's lax coercions (a numeric string for an integer, a whole float for an integer, a boolean for a number) are not modelled.
- TelemetrySeed.TelemetryTable.LoadRows and TelemetrySeed.TelemetryTable.Seed use the corrected TelemetrySeed.NormalizeRow. The source's abort on a CSV line with surplus fields (an AttributeError, see Findings) is modelled only by TelemetrySeed.NormalizeAsWritten.
- MlEngine.Restore refuses metadata whose `feature_names` or `excluded_columns` is not a list of strings, or whose `target_column` is not a string. The source assigns such values unchecked, and the engine's fields then hold them; the model types those fields as strings.
- GenerateData.OutputPath follows POSIX `pathlib` parsing except for a name starting with exactly two slashes, which `pathlib` keeps as a distinct root.
- TelemetryIngest.FirstOutOfRange takes `datetime.fromtimestamp(ts, tz=timezone.utc)` to succeed for every timestamp from 0 through 253402300799 and to raise above it; platform limits narrower than `datetime`'s own range are not modelled.
- The `__main__` smoke runner of backend/util/ml_engine.py:604-678 is not modelled.
- The unique identifiers and creation times of seeded rows are given sequences. The seed's `uuid.uuid4()` and clock are inputs.

## Findings

| source | as written | input that shows it | evidently intended | confidence | as-written member | corrected member |
|---|---|---|---|---|---|---|
| backend/app/telemetry_seed.py:61-67 | `_normalize_row` calls `key.strip()` on every key. `csv.DictReader` stores the extra fields of a long line under the key `None`, so `None.strip()` raises AttributeError. The call is outside the loop's `try`, so the whole seed ends. | a CSV line with one field more than the header, e.g. header `Patient_ID` and line `1,x` | pass over the surplus fields, or skip the row as malformed, like any other unparsable row | not executed | TelemetrySeed.NormalizeAsWritten | TelemetrySeed.NormalizeRow |
